/** The in-memory cache: time limits, oldest-write eviction and lazy removal, against the log of writes and deletes. */
module CacheModel {
  import opened Collections
  import opened Options

  /** What is stored under a key: a value, or the mark that there is none. */
  datatype Slot = EmptyMark | Value(value: string)

  datatype Item = Item(slot: Slot, expiry: real)

  /** Keys from the oldest write to the newest. */
  type Store = Dict<string, Item>

  // ---- the operations ----

  function Moved(s: Store, k: string, item: Item): Store {
    Dict(Without(s.keys, k) + [k], s.at[k := item])
  }

  function Excess(s: Store, max: nat): nat {
    if |s.keys| > max then |s.keys| - max else 0
  }

  /** The store after dropping its `n` oldest keys. */
  function DropOldest(s: Store, n: nat): Store
    requires n <= |s.keys|
  {
    Dict(s.keys[n..], s.at - Elements(s.keys[..n]))
  }

  function Written(s: Store, k: string, item: Item, max: nat): Store {
    DropOldest(Moved(s, k, item), Excess(Moved(s, k, item), max))
  }

  predicate Fresh(s: Store, k: string, now: real) {
    k in s.at && s.at[k].expiry >= now
  }

  /** Reading a key also removes it when its time is over. */
  function AfterRead(s: Store, k: string, now: real): Store {
    if k in s.at && s.at[k].expiry < now then s.Drop(k) else s
  }

  /** What a read finds: nothing, the empty mark, or a value. */
  function Found(s: Store, k: string, now: real): Option<Slot> {
    if Fresh(s, k, now) then Some(s.at[k].slot) else None
  }

  // ---- the log ----

  datatype Entry =
    | Write(key: string, slot: Slot, expiry: real, at: real)
    | Delete(key: string, at: real)
    | Read(key: string, at: real)

  function Step(s: Store, e: Entry, max: nat): Store {
    match e
    case Write(k, slot, expiry, _) => Written(s, k, Item(slot, expiry), max)
    case Delete(k, _) => s.Drop(k)
    case Read(k, at) => AfterRead(s, k, at)
  }

  ghost predicate StepAt(states: seq<Store>, log: seq<Entry>, max: nat, k: nat)
    requires k < |log| && |states| == |log| + 1
  {
    states[k + 1] == Step(states[k], log[k], max)
  }

  /** `states[k]` is the store before operation `k`. */
  ghost predicate IsRun(states: seq<Store>, log: seq<Entry>, max: nat) {
    && |states| == |log| + 1
    && states[0] == EmptyDict()
    && forall k | 0 <= k < |log| :: StepAt(states, log, max, k)
  }

  ghost predicate Monotone(log: seq<Entry>) {
    forall i, j | 0 <= i < j < |log| :: log[i].at <= log[j].at
  }

  /** The position of the last write of `k`, or -1 when it was never written or deleted since. */
  function LastWrite(log: seq<Entry>, n: nat, k: string): (i: int)
    requires n <= |log|
    ensures -1 <= i < n
    ensures i >= 0 ==> log[i].Write? && log[i].key == k
  {
    if n == 0 then -1
    else if log[n - 1].Write? && log[n - 1].key == k then n - 1
    else if log[n - 1].Delete? && log[n - 1].key == k then -1
    else LastWrite(log, n - 1, k)
  }

  /** The keys other than `k` written after position `i`. */
  ghost function OthersSince(log: seq<Entry>, n: nat, i: int, k: string): set<string>
    requires n <= |log| && -1 <= i
  {
    set j | i < j < n && log[j].Write? && log[j].key != k :: log[j].key
  }

  // ---- what every sequence of operations keeps ----

  ghost function Rank(log: seq<Entry>, n: nat): string -> int
    requires n <= |log|
  {
    k => LastWrite(log, n, k)
  }

  ghost predicate Ascends(keys: seq<string>, rank: string -> int) {
    forall a, b | 0 <= a < b < |keys| :: rank(keys[a]) < rank(keys[b])
  }

  /** The store holds last writes, oldest first, no more than it may. */
  ghost predicate HoldsLastWrites(s: Store, log: seq<Entry>, n: nat, max: nat)
    requires n <= |log|
  {
    && Elements(s.keys) == s.at.Keys && |s.keys| <= max
    && Ascends(s.keys, Rank(log, n))
    && forall k | k in s.at ::
         LastWrite(log, n, k) >= 0 && s.at[k] == Item(log[LastWrite(log, n, k)].slot, log[LastWrite(log, n, k)].expiry)
  }

  /** A key that is gone although its last write has not expired made room: at least `max` others were written since. */
  ghost predicate Retains(s: Store, log: seq<Entry>, n: nat, max: nat, now: real)
    requires n <= |log|
  {
    forall k | k !in s.at && LastWrite(log, n, k) >= 0 && log[LastWrite(log, n, k)].expiry >= now ::
      |OthersSince(log, n, LastWrite(log, n, k), k)| >= max
  }

  ghost predicate CacheOk(s: Store, log: seq<Entry>, n: nat, max: nat, now: real)
    requires n <= |log|
  {
    HoldsLastWrites(s, log, n, max) && Retains(s, log, n, max, now)
  }

  // ---- order ----

  lemma {:induction false} KeepToAscends(keys: seq<string>, kept: set<string>, rank: string -> int, n: nat)
    requires Ascends(keys, rank) && n <= |keys|
    ensures Ascends(KeepTo(keys, kept, n), rank)
  {
    if n > 0 {
      KeepToAscends(keys, kept, rank, n - 1);
      KeepToMembers(keys, kept, n - 1);
      forall x | x in KeepTo(keys, kept, n - 1) ensures rank(x) < rank(keys[n - 1]) {
        var a :| 0 <= a < n - 1 && keys[..n - 1][a] == x;
        assert rank(keys[a]) < rank(keys[n - 1]);
      }
    }
  }

  lemma AscendsDistinct(keys: seq<string>, rank: string -> int)
    requires Ascends(keys, rank)
    ensures Distinct(keys)
  {
  }

  lemma AscendsSameRanks(keys: seq<string>, rank: string -> int, rank': string -> int)
    requires Ascends(keys, rank) && forall k | k in keys :: rank(k) == rank'(k)
    ensures Ascends(keys, rank')
  {
  }

  lemma WithoutAscends(s: Store, k: string, rank: string -> int)
    requires Ascends(s.keys, rank) && Elements(s.keys) == s.at.Keys
    ensures Ascends(Without(s.keys, k), rank)
    ensures Elements(Without(s.keys, k)) == s.at.Keys - {k}
    ensures |Without(s.keys, k)| == |s.keys| - (if k in s.at then 1 else 0)
  {
    AscendsDistinct(s.keys, rank);
    KeepToAscends(s.keys, Elements(s.keys) - {k}, rank, |s.keys|);
    WithoutKeeps(s.keys, k);
    DistinctSize(s.keys);
    DistinctSize(Without(s.keys, k));
  }

  // ---- deleting and reading ----

  lemma DropKeepsHolding(s: Store, log: seq<Entry>, n: nat, max: nat, k: string)
    requires n < |log| && HoldsLastWrites(s, log, n, max)
    requires !log[n].Write? && (log[n].Delete? ==> log[n].key == k)
    ensures HoldsLastWrites(s.Drop(k), log, n + 1, max)
  {
    WithoutAscends(s, k, Rank(log, n));
    AscendsSameRanks(Without(s.keys, k), Rank(log, n), Rank(log, n + 1)) by {
      forall x | x in Without(s.keys, k) ensures Rank(log, n)(x) == Rank(log, n + 1)(x) {
        assert x in Elements(Without(s.keys, k));
      }
    }
  }

  lemma OthersStay(log: seq<Entry>, n: nat, i: int, k: string)
    requires n < |log| && -1 <= i && !log[n].Write?
    ensures OthersSince(log, n + 1, i, k) == OthersSince(log, n, i, k)
  {
  }

  lemma DropKeepsRetaining(s: Store, log: seq<Entry>, n: nat, max: nat, now: real, k: string)
    requires n < |log| && CacheOk(s, log, n, max, now) && now <= log[n].at && !log[n].Write? && log[n].key == k
    requires log[n].Read? ==> k in s.at && s.at[k].expiry < log[n].at
    ensures Retains(s.Drop(k), log, n + 1, max, log[n].at)
  {
    var m := n + 1;
    forall x | x !in s.Drop(k).at && LastWrite(log, m, x) >= 0 && log[LastWrite(log, m, x)].expiry >= log[n].at
      ensures |OthersSince(log, m, LastWrite(log, m, x), x)| >= max
    {
      OthersStay(log, n, LastWrite(log, n, x), x);
    }
  }

  lemma StayKeepsOk(s: Store, log: seq<Entry>, n: nat, max: nat, now: real)
    requires n < |log| && CacheOk(s, log, n, max, now) && now <= log[n].at && log[n].Read?
    ensures CacheOk(s, log, n + 1, max, log[n].at)
  {
    AscendsSameRanks(s.keys, Rank(log, n), Rank(log, n + 1));
    var m := n + 1;
    forall x | x !in s.at && LastWrite(log, m, x) >= 0 && log[LastWrite(log, m, x)].expiry >= log[n].at
      ensures |OthersSince(log, m, LastWrite(log, m, x), x)| >= max
    {
      OthersStay(log, n, LastWrite(log, n, x), x);
    }
  }

  // ---- writing ----

  lemma AscendsSnoc(keys: seq<string>, k: string, rank: string -> int)
    requires Ascends(keys, rank) && forall x | x in keys :: rank(x) < rank(k)
    ensures Ascends(keys + [k], rank)
  {
  }

  /** The key written last ranks last. */
  lemma MovedAscends(kept: seq<string>, log: seq<Entry>, n: nat)
    requires n < |log| && log[n].Write? && log[n].key !in Elements(kept) && Ascends(kept, Rank(log, n))
    ensures Ascends(kept + [log[n].key], Rank(log, n + 1))
  {
    forall x | x in kept ensures Rank(log, n)(x) == Rank(log, n + 1)(x) < n {
      assert x in Elements(kept);
    }
    AscendsSameRanks(kept, Rank(log, n), Rank(log, n + 1));
    AscendsSnoc(kept, log[n].key, Rank(log, n + 1));
  }

  lemma MovedHolds(s: Store, log: seq<Entry>, n: nat, max: nat)
    requires n < |log| && HoldsLastWrites(s, log, n, max) && log[n].Write?
    ensures HoldsLastWrites(Moved(s, log[n].key, Item(log[n].slot, log[n].expiry)), log, n + 1, max + 1)
  {
    var k := log[n].key;
    var moved := Moved(s, k, Item(log[n].slot, log[n].expiry));
    WithoutAscends(s, k, Rank(log, n));
    MovedAscends(Without(s.keys, k), log, n);
    ElementsSnoc(Without(s.keys, k), k);
    forall x | x in moved.at
      ensures LastWrite(log, n + 1, x) >= 0
           && moved.at[x] == Item(log[LastWrite(log, n + 1, x)].slot, log[LastWrite(log, n + 1, x)].expiry)
    {
      assert x != k ==> x in s.at && LastWrite(log, n + 1, x) == LastWrite(log, n, x);
    }
  }

  lemma SplitElements(keys: seq<string>, d: nat)
    requires Distinct(keys) && d <= |keys|
    ensures Elements(keys[d..]) == Elements(keys) - Elements(keys[..d])
  {
    assert keys == keys[..d] + keys[d..];
    forall a, b | 0 <= a < d && 0 <= b < |keys| - d ensures keys[..d][a] != keys[d..][b] {
      assert keys[a] != keys[d + b];
    }
    assert forall x :: x in keys <==> x in keys[..d] || x in keys[d..];
  }

  lemma DropOldestHolds(s: Store, log: seq<Entry>, n: nat, max: nat)
    requires n <= |log| && HoldsLastWrites(s, log, n, max + 1)
    ensures HoldsLastWrites(DropOldest(s, Excess(s, max)), log, n, max)
  {
    var d := Excess(s, max);
    AscendsDistinct(s.keys, Rank(log, n));
    SplitElements(s.keys, d);
  }

  /** The oldest of `max + 1` keys is dropped: the other `max` were all written after it. */
  lemma OldestMadeRoom(s: Store, log: seq<Entry>, n: nat, max: nat)
    requires n <= |log| && HoldsLastWrites(s, log, n, max + 1) && |s.keys| == max + 1
    ensures |OthersSince(log, n, LastWrite(log, n, s.keys[0]), s.keys[0])| >= max
  {
    var first, rest := s.keys[0], s.keys[1..];
    var i := LastWrite(log, n, first);
    AscendsDistinct(s.keys, Rank(log, n));
    DistinctSize(rest);
    assert first in Elements(s.keys);
    forall x | x in Elements(rest) ensures x in OthersSince(log, n, i, first) {
      var b :| 0 <= b < |rest| && rest[b] == x;
      assert s.keys[b + 1] == x;
      assert Rank(log, n)(s.keys[0]) < Rank(log, n)(s.keys[b + 1]);
      assert log[LastWrite(log, n, x)].key == x;
    }
    SubsetSize(Elements(rest), OthersSince(log, n, i, first));
  }

  lemma OthersGrow(log: seq<Entry>, n: nat, i: int, k: string)
    requires n < |log| && -1 <= i
    ensures |OthersSince(log, n + 1, i, k)| >= |OthersSince(log, n, i, k)|
  {
    SubsetSize(OthersSince(log, n, i, k), OthersSince(log, n + 1, i, k));
  }

  lemma WriteKeepsRetaining(s: Store, log: seq<Entry>, n: nat, max: nat, now: real)
    requires n < |log| && CacheOk(s, log, n, max, now) && now <= log[n].at && log[n].Write?
    ensures Retains(Step(s, log[n], max), log, n + 1, max, log[n].at)
  {
    var k, m := log[n].key, n + 1;
    var moved := Moved(s, k, Item(log[n].slot, log[n].expiry));
    var s' := Step(s, log[n], max);
    MovedHolds(s, log, n, max);
    forall x | x !in s'.at && LastWrite(log, m, x) >= 0 && log[LastWrite(log, m, x)].expiry >= log[n].at
      ensures |OthersSince(log, m, LastWrite(log, m, x), x)| >= max
    {
      if x in moved.at {
        assert |moved.keys| == max + 1;
        assert x in moved.keys[..1];
        OldestMadeRoom(moved, log, m, max);
      } else {
        OthersGrow(log, n, LastWrite(log, n, x), x);
      }
    }
  }

  // ---- whole logs ----

  lemma StepKeepsOk(s: Store, s': Store, log: seq<Entry>, n: nat, max: nat, now: real)
    requires n < |log| && CacheOk(s, log, n, max, now) && now <= log[n].at && s' == Step(s, log[n], max)
    ensures CacheOk(s', log, n + 1, max, log[n].at)
  {
    match log[n] {
      case Write(k, slot, expiry, _) =>
        MovedHolds(s, log, n, max);
        DropOldestHolds(Moved(s, k, Item(slot, expiry)), log, n + 1, max);
        WriteKeepsRetaining(s, log, n, max, now);
      case Delete(k, _) =>
        DropKeepsHolding(s, log, n, max, k);
        DropKeepsRetaining(s, log, n, max, now, k);
      case Read(k, at) =>
        if k in s.at && s.at[k].expiry < at {
          DropKeepsHolding(s, log, n, max, k);
          DropKeepsRetaining(s, log, n, max, now, k);
        } else {
          StayKeepsOk(s, log, n, max, now);
        }
    }
  }

  function TimeAt(log: seq<Entry>, n: nat): real
    requires n <= |log|
  {
    if log == [] then 0.0 else if n == 0 then log[0].at else log[n - 1].at
  }

  lemma EmptyIsOk(log: seq<Entry>, max: nat, now: real)
    ensures CacheOk(EmptyDict(), log, 0, max, now)
  {
  }

  lemma NextOk(s: Store, s': Store, log: seq<Entry>, n: nat, max: nat)
    requires 0 < n <= |log| && Monotone(log)
    requires CacheOk(s, log, n - 1, max, TimeAt(log, n - 1)) && s' == Step(s, log[n - 1], max)
    ensures CacheOk(s', log, n, max, TimeAt(log, n))
  {
    hide CacheOk, Step;
    StepKeepsOk(s, s', log, n - 1, max, TimeAt(log, n - 1));
  }

  lemma {:induction false} RunOk(states: seq<Store>, log: seq<Entry>, n: nat, max: nat)
    requires IsRun(states, log, max) && n <= |log| && Monotone(log)
    ensures CacheOk(states[n], log, n, max, TimeAt(log, n))
  {
    if n == 0 {
      EmptyIsOk(log, max, TimeAt(log, 0));
    } else {
      RunOk(states, log, n - 1, max);
      assert StepAt(states, log, max, n - 1);
      NextOk(states[n - 1], states[n], log, n, max);
    }
  }

  /** What the log says is stored under `k` at time `t`: its last write, unless it was deleted or has expired. */
  ghost function Logged(log: seq<Entry>, n: nat, k: string, t: real): Option<Slot>
    requires n <= |log|
  {
    var i := LastWrite(log, n, k);
    if i >= 0 && log[i].expiry >= t then Some(log[i].slot) else None
  }

  /** A read finds what the log says or nothing, and it does find it when fewer than `max` other keys were written
      since; the size never exceeds `max`. */
  lemma CacheRefinesLog(states: seq<Store>, log: seq<Entry>, n: nat, max: nat, k: string, t: real)
    requires IsRun(states, log, max) && n <= |log| && Monotone(log) && t >= TimeAt(log, n)
    ensures |states[n].keys| <= max
    ensures Found(states[n], k, t).Some? ==> Found(states[n], k, t) == Logged(log, n, k, t)
    ensures LastWrite(log, n, k) >= 0 && |OthersSince(log, n, LastWrite(log, n, k), k)| < max ==>
              Found(states[n], k, t) == Logged(log, n, k, t)
  {
    RunOk(states, log, n, max);
  }

  // ---- the bound is tight ----

  predicate OtherKey(a: Entry, b: Entry) {
    a.key != b.key
  }

  /** From entry `i` on, `m + 1` writes of different keys. */
  ghost predicate DistinctWrites(log: seq<Entry>, i: nat, m: nat)
    requires i + m < |log|
  {
    && (forall j | i <= j <= i + m :: log[j].Write?)
    && forall a, b | i <= a < b <= i + m :: OtherKey(log[a], log[b])
  }

  lemma {:induction false} LastInWindow(log: seq<Entry>, i: nat, m: nat, j: nat, n: nat)
    requires i + m < |log| && DistinctWrites(log, i, m) && i <= j < n <= i + m + 1
    ensures LastWrite(log, n, log[j].key) == j
  {
    if j < n - 1 {
      LastInWindow(log, i, m, j, n - 1);
      assert OtherKey(log[j], log[n - 1]);
    }
  }

  lemma HeldBefore(states: seq<Store>, log: seq<Entry>, max: nat, n: nat, k: string)
    requires IsRun(states, log, max) && n < |log| && log[n].Write?
    requires k != log[n].key && k in states[n + 1].at
    ensures k in states[n].at
  {
    assert StepAt(states, log, max, n);
  }

  lemma WindowOrder(log: seq<Entry>, i: nat, m: nat, n: nat, j: nat)
    requires i + m < |log| && DistinctWrites(log, i, m) && i <= j <= n <= i + m
    ensures LastWrite(log, n + 1, log[i].key) <= LastWrite(log, n + 1, log[j].key) && log[n].Write?
  {
    LastInWindow(log, i, m, i, n + 1);
    LastInWindow(log, i, m, j, n + 1);
  }

  lemma InFront(keys: seq<string>, d: nat, i: nat)
    requires i < d <= |keys|
    ensures keys[..d][i] == keys[i] && keys[i] in Elements(keys[..d])
  {
    assert keys[..d][i] in keys[..d];
  }

  lemma NotDroppedBefore(s: Store, log: seq<Entry>, n: nat, max: nat, k: string, x: string)
    requires n <= |log| && HoldsLastWrites(s, log, n, max + 1)
    requires x in s.at && LastWrite(log, n, k) <= LastWrite(log, n, x)
    requires k in DropOldest(s, Excess(s, max)).at
    ensures x in DropOldest(s, Excess(s, max)).at
  {
    var d := Excess(s, max);
    assert k in Elements(s.keys) && x in Elements(s.keys);
    var b :| 0 <= b < |s.keys| && s.keys[b] == k;
    forall i | 0 <= i < d ensures s.keys[..d][i] != x {
      InFront(s.keys, d, i);
      assert s.keys[i] != k;
      assert Rank(log, n)(s.keys[i]) < Rank(log, n)(k) by {
        assert i < b;
      }
    }
  }

  lemma StaysWithOlder(s: Store, moved: Store, s': Store, log: seq<Entry>, n: nat, max: nat, k: string, x: string)
    requires n < |log| && HoldsLastWrites(s, log, n, max) && log[n].Write?
    requires x in s.at || x == log[n].key
    requires LastWrite(log, n + 1, k) <= LastWrite(log, n + 1, x)
    requires moved == Moved(s, log[n].key, Item(log[n].slot, log[n].expiry))
    requires s' == DropOldest(moved, Excess(moved, max)) && k in s'.at
    ensures x in s'.at
  {
    MovedHolds(s, log, n, max);
    NotDroppedBefore(moved, log, n + 1, max, k, x);
  }

  lemma WindowStep(s: Store, s': Store, log: seq<Entry>, i: nat, m: nat, max: nat, n: nat, j: nat)
    requires i + m < |log| && DistinctWrites(log, i, m) && i <= j <= n <= i + m
    requires HoldsLastWrites(s, log, n, max) && s' == Step(s, log[n], max)
    requires log[i].key in s'.at && (j < n ==> log[j].key in s.at)
    ensures log[j].key in s'.at
  {
    WindowOrder(log, i, m, n, j);
    var moved := Moved(s, log[n].key, Item(log[n].slot, log[n].expiry));
    StaysWithOlder(s, moved, s', log, n, max, log[i].key, log[j].key);
  }

  lemma WindowNext(states: seq<Store>, log: seq<Entry>, i: nat, m: nat, max: nat, n: nat, j: nat)
    requires IsRun(states, log, max) && Monotone(log)
    requires i + m < |log| && DistinctWrites(log, i, m) && i <= j <= n <= i + m
    requires log[i].key in states[n + 1].at && (j < n ==> log[j].key in states[n].at)
    ensures log[j].key in states[n + 1].at
  {
    RunOk(states, log, n, max);
    assert StepAt(states, log, max, n);
    WindowStep(states[n], states[n + 1], log, i, m, max, n, j);
  }

  /** As long as the first key of the window is there, all of them are: the first is always the older. */
  lemma {:induction false} WindowIsHeld(states: seq<Store>, log: seq<Entry>, i: nat, m: nat, max: nat, n: nat, j: nat)
    requires IsRun(states, log, max) && Monotone(log)
    requires i + m < |log| && DistinctWrites(log, i, m) && i <= j < n <= i + m + 1
    requires log[i].key in states[n].at
    ensures log[j].key in states[n].at
  {
    if j < n - 1 {
      HeldBefore(states, log, max, n - 1, log[i].key);
      WindowIsHeld(states, log, i, m, max, n - 1, j);
    }
    WindowNext(states, log, i, m, max, n - 1, j);
  }

  ghost function WindowKeys(log: seq<Entry>, i: nat, m: nat): set<string>
    requires i + m < |log|
  {
    set j | i <= j <= i + m :: log[j].key
  }

  lemma OneMoreKey(log: seq<Entry>, i: nat, m: nat)
    requires 0 < m && i + m < |log| && DistinctWrites(log, i, m)
    ensures WindowKeys(log, i, m) == WindowKeys(log, i, m - 1) + {log[i + m].key}
    ensures log[i + m].key !in WindowKeys(log, i, m - 1)
  {
  }

  lemma {:induction false} WindowSize(log: seq<Entry>, i: nat, m: nat)
    requires i + m < |log| && DistinctWrites(log, i, m)
    ensures |WindowKeys(log, i, m)| == m + 1
  {
    if m == 0 {
      assert WindowKeys(log, i, 0) == {log[i].key};
    } else {
      WindowSize(log, i, m - 1);
      OneMoreKey(log, i, m);
    }
  }

  /** The bound is tight: when the `max` writes that follow a write are all of different other keys, it is gone. */
  lemma MaxOthersEvict(states: seq<Store>, log: seq<Entry>, i: nat, max: nat)
    requires IsRun(states, log, max) && Monotone(log) && i + max < |log| && DistinctWrites(log, i, max)
    ensures log[i].key !in states[i + max + 1].at
  {
    var n := i + max + 1;
    var s := states[n];
    if log[i].key in s.at {
      forall j | i <= j <= i + max ensures log[j].key in s.at {
        WindowIsHeld(states, log, i, max, max, n, j);
      }
      RunOk(states, log, n, max);
      WindowSize(log, i, max);
      SubsetSize(WindowKeys(log, i, max), s.at.Keys);
      AscendsDistinct(s.keys, Rank(log, n));
      DistinctSize(s.keys);
      assert false;
    }
  }

  // ---- reads make room ----

  const WRITE_B := Write("b", Value("1"), 100.0, 0.0)

  const WRITE_A := Write("a", Value("2"), 1.0, 0.0)

  const READ_A := Read("a", 5.0)

  const WRITE_C := Write("c", Value("3"), 100.0, 6.0)

  lemma FirstTwo(s0: Store, s1: Store, s2: Store)
    requires s0 == EmptyDict() && s1 == Step(s0, WRITE_B, 2) && s2 == Step(s1, WRITE_A, 2)
    ensures s2.keys == ["b", "a"] && s2.at == map["b" := Item(Value("1"), 100.0), "a" := Item(Value("2"), 1.0)]
  {
    WithoutAbsent([], "b");
    assert s1.keys == ["b"];
    WithoutAbsent(["b"], "a");
    assert s2.keys == ["b", "a"];
  }

  lemma ReadThenWrite(s2: Store, s3: Store, s4: Store)
    requires s2.keys == ["b", "a"] && s2.at == map["b" := Item(Value("1"), 100.0), "a" := Item(Value("2"), 1.0)]
    requires s3 == Step(s2, READ_A, 2) && s4 == Step(s3, WRITE_C, 2)
    ensures Found(s4, "b", 9.0) == Some(Value("1"))
  {
    KeepToMembers(["b", "a"], Elements(["b", "a"]) - {"a"}, 2);
    assert KeepTo(["b", "a"], Elements(["b", "a"]) - {"a"}, 1) == ["b"];
    assert s3.keys == ["b"];
    WithoutAbsent(["b"], "c");
    assert s4.keys == ["b", "c"];
  }

  lemma SilentLosesFirst(silent: seq<Store>)
    requires IsRun(silent, [WRITE_B, WRITE_A, WRITE_C], 2)
    ensures Found(silent[3], "b", 9.0) == None
  {
    MaxOthersEvict(silent, [WRITE_B, WRITE_A, WRITE_C], 0, 2);
  }

  /** Reads are not without effect: with room for two keys, reading the expired key "a" saves the key "b". */
  lemma ReadSavesAnotherKey(reading: seq<Store>, silent: seq<Store>)
    requires IsRun(reading, [WRITE_B, WRITE_A, READ_A, WRITE_C], 2)
    requires IsRun(silent, [WRITE_B, WRITE_A, WRITE_C], 2)
    ensures Found(reading[4], "b", 9.0) == Some(Value("1"))
    ensures Found(silent[3], "b", 9.0) == None
  {
    SilentLosesFirst(silent);
    var log := [WRITE_B, WRITE_A, READ_A, WRITE_C];
    assert StepAt(reading, log, 2, 0) && StepAt(reading, log, 2, 1) && StepAt(reading, log, 2, 2)
      && StepAt(reading, log, 2, 3);
    FirstTwo(reading[0], reading[1], reading[2]);
    ReadThenWrite(reading[2], reading[3], reading[4]);
  }
}

/** How long a write lives: the requested time, cut to a share of the remote time, plus a random jitter. */
module CacheTtl {
  import opened Options

  datatype CacheConfig = CacheConfig(maxSize: int, defaultTtl: int, defaultJitter: real, remoteTtl: int, ratio: real)

  const EMPTY_TTL_LIMIT := 120

  /** The longest time a local entry may live by the documentation: a share of the remote time. */
  function TtlLimit(cfg: CacheConfig): real {
    cfg.remoteTtl as real * cfg.ratio
  }

  function ClampedTtl(cfg: CacheConfig, ttl: Option<int>): real {
    var wanted := (if ttl.Some? then ttl.value else cfg.defaultTtl) as real;
    if cfg.remoteTtl > 0 && wanted > TtlLimit(cfg) then TtlLimit(cfg) else wanted
  }

  /** The time is what was wanted, cut to the share of the remote time if there is a remote cache, and never more than
      either. */
  lemma ClampedIs(cfg: CacheConfig, ttl: Option<int>)
    ensures var wanted := (if ttl.Some? then ttl.value else cfg.defaultTtl) as real;
            && ClampedTtl(cfg, ttl) <= wanted
            && (cfg.remoteTtl <= 0 ==> ClampedTtl(cfg, ttl) == wanted)
            && (cfg.remoteTtl > 0 ==> ClampedTtl(cfg, ttl) <= cfg.remoteTtl as real * cfg.ratio)
            && (ClampedTtl(cfg, ttl) < wanted ==> ClampedTtl(cfg, ttl) == cfg.remoteTtl as real * cfg.ratio)
  {
  }

  function JitterOf(cfg: CacheConfig, jitter: Option<real>): real {
    if jitter.Some? then jitter.value else cfg.defaultJitter
  }

  /** `draw` is the random part, at least zero and below the jitter; it is not drawn without a positive jitter. */
  function EffectiveTtl(cfg: CacheConfig, ttl: Option<int>, jitter: Option<real>, draw: real): real {
    ClampedTtl(cfg, ttl) + (if JitterOf(cfg, jitter) > 0.0 then draw else 0.0)
  }

  /** The documented limit is not kept by every draw: it can be exceeded exactly when the jitter reaches past it. */
  lemma LimitExceededIff(cfg: CacheConfig, ttl: Option<int>, jitter: Option<real>)
    requires cfg.remoteTtl > 0
    ensures (exists draw: real ::
               0.0 <= draw < JitterOf(cfg, jitter) && EffectiveTtl(cfg, ttl, jitter, draw) > TtlLimit(cfg))
       <==> JitterOf(cfg, jitter) > TtlLimit(cfg) - ClampedTtl(cfg, ttl)
            && JitterOf(cfg, jitter) > 0.0
  {
    var j, room := JitterOf(cfg, jitter), TtlLimit(cfg) - ClampedTtl(cfg, ttl);
    if j > room && j > 0.0 {
      var draw := (room + j) / 2.0;
      assert 0.0 <= draw < j && EffectiveTtl(cfg, ttl, jitter, draw) > TtlLimit(cfg);
    }
  }

  /** The default configuration: 300 seconds, a third of 300 remote ones, and a jitter of 5. */
  const DEFAULTS := CacheConfig(10000, 300, 5.0, 300, 1.0 / 3.0)

  /** It exceeds the limit for every draw but zero. */
  lemma DefaultsExceed(draw: real)
    requires 0.0 < draw < 5.0
    ensures TtlLimit(DEFAULTS) == 100.0 && EffectiveTtl(DEFAULTS, None, None, draw) > 100.0
  {
  }

  /** It is never exceeded by as much as the jitter. */
  lemma LimitPlusJitter(cfg: CacheConfig, ttl: Option<int>, jitter: Option<real>, draw: real)
    requires cfg.remoteTtl > 0 && 0.0 <= draw && (JitterOf(cfg, jitter) > 0.0 ==> draw < JitterOf(cfg, jitter))
    ensures EffectiveTtl(cfg, ttl, jitter, draw) <= TtlLimit(cfg)
            || EffectiveTtl(cfg, ttl, jitter, draw) < TtlLimit(cfg) + JitterOf(cfg, jitter)
  {
  }

  /** The mark for missing data lives between one second and the hard limit. */
  function EmptyTtl(ttl: int): (r: int)
    ensures 1 <= r <= EMPTY_TTL_LIMIT
    ensures 1 <= ttl <= EMPTY_TTL_LIMIT ==> r == ttl
  {
    var atLeast := if ttl < 1 then 1 else ttl;
    if atLeast > EMPTY_TTL_LIMIT then EMPTY_TTL_LIMIT else atLeast
  }
}

/** The cache object. */
module MemoryCaches {
  import opened Collections
  import opened Options
  import opened CacheModel
  import opened CacheTtl

  /** Dropping one more of the oldest keys is popping the first one left. */
  lemma MovedIsFiled(s: Store, k: string, item: Item)
    requires Elements(s.keys) == s.at.Keys
    ensures Moved(s, k, item).at.Keys <= Elements(Moved(s, k, item).keys)
  {
    KeepMembers(s.keys, Elements(s.keys) - {k});
    forall x | x in Moved(s, k, item).at ensures x in Elements(Moved(s, k, item).keys) {
      if x != k {
        assert x in Elements(s.keys);
      }
    }
  }

  lemma AllDropped(s: Store)
    requires s.at.Keys <= Elements(s.keys)
    ensures DropOldest(s, |s.keys|) == EmptyDict()
  {
    assert s.keys[..|s.keys|] == s.keys;
  }

  lemma PopFirst(s: Store, n: nat)
    requires n < |s.keys|
    ensures DropOldest(s, n + 1) == Dict(s.keys[n..][1..], s.at - Elements(s.keys[..n]) - {s.keys[n..][0]})
  {
    assert s.keys[..n + 1] == s.keys[..n] + [s.keys[n]];
    assert Elements(s.keys[..n + 1]) == Elements(s.keys[..n]) + {s.keys[n]};
  }

  class MemoryCacheBackend {
    const cfg: CacheConfig
    var store: Store

    constructor (cfg: CacheConfig)
      ensures this.cfg == cfg && store == EmptyDict()
    {
      this.cfg := cfg;
      store := EmptyDict();
    }

    method Get(key: string, now: real) returns (value: Option<string>)
      modifies this
      ensures store == AfterRead(old(store), key, now)
      ensures forall v :: value == Some(v) <==> Found(old(store), key, now) == Some(Value(v))
      ensures forall v ::
                value == Some(v)
                <==> key in old(store).at && old(store).at[key].expiry >= now && old(store).at[key].slot == Value(v)
    {
      if key !in store.at {
        return None;
      }
      var item := store.at[key];
      if item.expiry < now {
        store := store.Drop(key);
        return None;
      }
      if item.slot.EmptyMark? {
        return None;
      }
      return Some(item.slot.value);
    }

    /** Writes a value; false when the source raises, on a negative capacity. */
    method Set(key: string, value: string, ttl: Option<int>, jitter: Option<real>, draw: real, now: real)
      returns (ok: bool)
      requires Elements(store.keys) == store.at.Keys
      modifies this
      ensures ok <==> cfg.maxSize >= 0
      ensures ok ==> store == Written(old(store), key, Item(Value(value), now + EffectiveTtl(cfg, ttl, jitter, draw)),
                                      cfg.maxSize)
      ensures var drawn := if (if jitter.Some? then jitter.value else cfg.defaultJitter) > 0.0 then draw else 0.0;
              EffectiveTtl(cfg, ttl, jitter, draw) == ClampedTtl(cfg, ttl) + drawn
      ensures !ok ==> store == EmptyDict()
    {
      var expireTtl := (if ttl.Some? then ttl.value else cfg.defaultTtl) as real;
      if cfg.remoteTtl > 0 {
        var limit := TtlLimit(cfg);
        if expireTtl > limit {
          expireTtl := limit;
        }
      }
      assert expireTtl == ClampedTtl(cfg, ttl);
      var j := if jitter.Some? then jitter.value else cfg.defaultJitter;
      if j > 0.0 {
        expireTtl := expireTtl + draw;
      }
      assert expireTtl == EffectiveTtl(cfg, ttl, jitter, draw);
      ok := Put(key, Item(Value(value), now + expireTtl));
    }

    /** Writes the mark that there is no such data. */
    method SetEmpty(key: string, ttl: int, now: real) returns (ok: bool)
      requires Elements(store.keys) == store.at.Keys
      modifies this
      ensures ok <==> cfg.maxSize >= 0
      ensures ok ==> store == Written(old(store), key, Item(EmptyMark, now + EmptyTtl(ttl) as real), cfg.maxSize)
      ensures !ok ==> store == EmptyDict()
    {
      ok := Put(key, Item(EmptyMark, now + EmptyTtl(ttl) as real));
    }

    /** Puts an entry at the end and pops the oldest ones over the capacity. */
    method Put(key: string, item: Item) returns (ok: bool)
      requires Elements(store.keys) == store.at.Keys
      modifies this
      ensures ok <==> cfg.maxSize >= 0
      ensures ok ==> store == Written(old(store), key, item, cfg.maxSize)
      ensures !ok ==> store == EmptyDict()
    {
      MovedIsFiled(store, key, item);
      store := Moved(store, key, item);
      ghost var moved := store;
      ok := PopOver();
      if !ok {
        AllDropped(moved);
      }
    }

    method PopOver() returns (ok: bool)
      modifies this
      ensures ok <==> cfg.maxSize >= 0
      ensures ok ==> store == DropOldest(old(store), Excess(old(store), cfg.maxSize))
      ensures !ok ==> store == DropOldest(old(store), |old(store).keys|)
    {
      ghost var s := store;
      ghost var n := 0;
      assert store == DropOldest(s, 0);
      while |store.keys| > cfg.maxSize
        invariant n <= |s.keys| && store == DropOldest(s, n)
        invariant cfg.maxSize >= 0 ==> n <= Excess(s, cfg.maxSize)
        decreases |store.keys|
      {
        if store.keys == [] {
          return false;
        }
        PopFirst(s, n);
        store := Dict(store.keys[1..], store.at - {store.keys[0]});
        n := n + 1;
      }
      return true;
    }

    method Delete(key: string)
      modifies this
      ensures store == old(store).Drop(key)
    {
      store := store.Drop(key);
    }

    method Exists(key: string, now: real) returns (found: bool)
      modifies this
      ensures store == AfterRead(old(store), key, now)
      ensures found <==> Found(old(store), key, now).Some? && Found(old(store), key, now).value.Value?
    {
      var value := Get(key, now);
      found := value.Some?;
      assert Found(old(store), key, now).Some? && Found(old(store), key, now).value.Value? ==>
          value == Some(Found(old(store), key, now).value.value);
    }

    method IsEmpty(key: string, now: real) returns (empty: bool)
      modifies this
      ensures store == AfterRead(old(store), key, now)
      ensures empty <==> Found(old(store), key, now) == Some(EmptyMark)
    {
      if key !in store.at {
        return false;
      }
      var item := store.at[key];
      if item.expiry < now {
        store := store.Drop(key);
        return false;
      }
      return item.slot.EmptyMark?;
    }
  }
}
