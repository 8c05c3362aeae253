/** When a read of the cache can be noticed later. A read drops its key when that has expired, and an entry that is
    out of the way can spare another one from being evicted. */
module CacheReads {
  import opened Collections
  import opened CacheModel

  // ---- what comes after a read ----

  function After(s: Store, later: seq<Entry>, n: nat, max: nat): Store
    requires n <= |later|
  {
    if n == 0 then s else Step(After(s, later, n - 1, max), later[n - 1], max)
  }

  /** Operations from time `now` on, and a look-up at time `t` after them. */
  ghost predicate Later(later: seq<Entry>, now: real, t: real) {
    Monotone(later) && t >= now && forall i | 0 <= i < |later| :: now <= later[i].at <= t
  }

  ghost predicate Differs(s: Store, k: string, now: real, max: nat, later: seq<Entry>, q: string, t: real) {
    Found(After(AfterRead(s, k, now), later, |later|, max), q, t) != Found(After(s, later, |later|, max), q, t)
  }

  /** Some later look-up answers otherwise than without the read of `k`. */
  ghost predicate Noticed(s: Store, k: string, now: real, max: nat) {
    exists later, q, t :: Later(later, now, t) && Differs(s, k, now, max, later, q, t)
  }

  predicate Lives(s: Store, i: nat, now: real)
    requires i < |s.keys|
  {
    s.keys[i] in s.at && s.at[s.keys[i]].expiry >= now
  }

  /** An entry older than that of `k` that has not expired. */
  ghost predicate OlderLives(s: Store, k: string, now: real) {
    exists i, b :: 0 <= i < b < |s.keys| && s.keys[b] == k && Lives(s, i, now)
  }

  ghost predicate Filed(s: Store, max: nat) {
    s.Ok() && |s.keys| <= max
  }

  // ---- two stores with the same live entries ----

  predicate SameItem(s: Store, s': Store, x: string) {
    x in s.at && x in s'.at && s.at[x] == s'.at[x]
  }

  predicate Gone(s: Store, x: string, now: real) {
    x in s.at && s.at[x].expiry < now
  }

  /** Two stores that hold the same entries `live` behind entries that have expired. */
  ghost predicate Alike(s: Store, s': Store, dead: seq<string>, dead': seq<string>, live: seq<string>, now: real) {
    && s.Ok() && s'.Ok()
    && s.keys == dead + live && s'.keys == dead' + live
    && (forall x | x in live :: SameItem(s, s', x))
    && (forall x | x in dead :: Gone(s, x, now))
    && (forall x | x in dead' :: Gone(s', x, now))
  }

  lemma InKeys(s: Store, x: string)
    requires s.Ok()
    ensures x in s.at <==> x in s.keys
  {
    assert x in Elements(s.keys) <==> x in s.keys;
  }

  /** Such stores answer every look-up alike. */
  lemma AlikeAnswers(s: Store, s': Store, dead: seq<string>, dead': seq<string>, live: seq<string>, now: real,
                     q: string, t: real)
    requires Alike(s, s', dead, dead', live, now) && now <= t
    ensures Found(s, q, t) == Found(s', q, t)
  {
    InKeys(s, q);
    InKeys(s', q);
    assert q in s.keys <==> q in dead || q in live;
    assert q in s'.keys <==> q in dead' || q in live;
    assert q in live ==> SameItem(s, s', q);
    assert q in dead ==> Gone(s, q, now);
    assert q in dead' ==> Gone(s', q, now);
  }

  lemma {:induction false} KeepAppend(a: seq<string>, b: seq<string>, kept: set<string>)
    ensures Keep(a + b, kept) == Keep(a, kept) + Keep(b, kept)
  {
    if b == [] {
      assert a + b == a;
    } else {
      var front, x := b[..|b| - 1], b[|b| - 1];
      KeepAppend(a, front, kept);
      KeepSnoc(a + front, x, kept);
      KeepSnoc(front, x, kept);
      assert a + b == (a + front) + [x] && b == front + [x];
    }
  }

  lemma WithoutAppend(a: seq<string>, b: seq<string>, x: string)
    ensures Without(a + b, x) == Without(a, x) + Without(b, x)
  {
    var kept := Elements(a + b) - {x};
    KeepAppend(a, b, kept);
    KeepToSame(a, kept, Elements(a) - {x}, |a|);
    KeepToSame(b, kept, Elements(b) - {x}, |b|);
  }

  lemma WithoutMember(s: seq<string>, x: string, y: string)
    ensures y in Without(s, x) <==> y in s && y != x
  {
    KeepMembers(s, Elements(s) - {x});
    assert y in Without(s, x) <==> y in s && y in Elements(s) - {x};
  }

  lemma DropOk(s: Store, x: string)
    requires s.Ok()
    ensures s.Drop(x).Ok()
  {
    WithoutKeeps(s.keys, x);
  }

  lemma DropGone(s: Store, dead: seq<string>, now: real, x: string)
    requires forall y | y in dead :: Gone(s, y, now)
    ensures forall y | y in Without(dead, x) :: Gone(s.Drop(x), y, now)
  {
    forall y | y in Without(dead, x) ensures Gone(s.Drop(x), y, now) {
      WithoutMember(dead, x, y);
      assert Gone(s, y, now);
    }
  }

  /** Deleting a key from both keeps them alike. */
  lemma DropAlike(s: Store, s': Store, dead: seq<string>, dead': seq<string>, live: seq<string>, now: real, x: string)
    requires Alike(s, s', dead, dead', live, now)
    ensures Alike(s.Drop(x), s'.Drop(x), Without(dead, x), Without(dead', x), Without(live, x), now)
  {
    DropOk(s, x);
    DropOk(s', x);
    WithoutAppend(dead, live, x);
    WithoutAppend(dead', live, x);
    forall y | y in Without(live, x) ensures SameItem(s.Drop(x), s'.Drop(x), y) {
      WithoutMember(live, x, y);
      assert SameItem(s, s', y);
    }
    DropGone(s, dead, now, x);
    DropGone(s', dead', now, x);
  }

  /** Reading a key that is not alive is deleting it. */
  lemma ReadDrops(s: Store, dead: seq<string>, live: seq<string>, now: real, x: string, t: real)
    requires s.Ok() && s.keys == dead + live && now <= t && forall y | y in dead :: Gone(s, y, now)
    requires x in live ==> x in s.at && s.at[x].expiry < t
    ensures AfterRead(s, x, t) == s.Drop(x)
  {
    InKeys(s, x);
    if x in s.at {
      assert x in dead || x in live;
      assert x in dead ==> Gone(s, x, now);
    } else {
      WithoutAbsent(s.keys, x);
      assert s.at - {x} == s.at;
    }
  }

  /** A read drops the same from both, as far as it is alive. */
  lemma ReadAlike(s: Store, s': Store, dead: seq<string>, dead': seq<string>, live: seq<string>, now: real,
                  x: string, t: real) returns (d: seq<string>, d': seq<string>, l: seq<string>)
    requires Alike(s, s', dead, dead', live, now) && now <= t
    ensures Alike(AfterRead(s, x, t), AfterRead(s', x, t), d, d', l, now)
  {
    if x in live && !(s.at[x].expiry < t) {
      assert SameItem(s, s', x);
      d, d', l := dead, dead', live;
    } else {
      ReadDrops(s, dead, live, now, x, t);
      if x in live {
        assert SameItem(s, s', x);
      }
      ReadDrops(s', dead', live, now, x, t);
      DropAlike(s, s', dead, dead', live, now, x);
      d, d', l := Without(dead, x), Without(dead', x), Without(live, x);
    }
  }

  lemma MovedOk(s: Store, x: string, item: Item)
    requires s.Ok()
    ensures Moved(s, x, item).Ok()
  {
    WithoutKeeps(s.keys, x);
    ElementsSnoc(Without(s.keys, x), x);
    DistinctSnoc(Without(s.keys, x), x);
  }

  lemma MovedSame(s: Store, s': Store, live: seq<string>, x: string, item: Item)
    requires forall y | y in live :: SameItem(s.Drop(x), s'.Drop(x), y)
    ensures forall y | y in live + [x] :: SameItem(Moved(s, x, item), Moved(s', x, item), y)
  {
    forall y | y in live + [x] ensures SameItem(Moved(s, x, item), Moved(s', x, item), y) {
      assert y in live ==> SameItem(s.Drop(x), s'.Drop(x), y);
    }
  }

  lemma MovedGone(s: Store, dead: seq<string>, now: real, x: string, item: Item)
    requires forall y | y in dead :: Gone(s, y, now)
    ensures forall y | y in Without(dead, x) :: Gone(Moved(s, x, item), y, now)
  {
    forall y | y in Without(dead, x) ensures Gone(Moved(s, x, item), y, now) {
      WithoutMember(dead, x, y);
      assert Gone(s, y, now);
    }
  }

  lemma AppendTogether(a: seq<string>, b: seq<string>, x: string)
    ensures (a + b) + [x] == a + (b + [x])
  {
  }

  /** Appending an entry to both keeps them alike. */
  lemma MoveAlike(s: Store, s': Store, dead: seq<string>, dead': seq<string>, live: seq<string>, now: real,
                  x: string, item: Item)
    requires Alike(s, s', dead, dead', live, now)
    ensures Alike(Moved(s, x, item), Moved(s', x, item), Without(dead, x), Without(dead', x), Without(live, x) + [x],
                  now)
  {
    DropAlike(s, s', dead, dead', live, now, x);
    MovedOk(s, x, item);
    MovedOk(s', x, item);
    MovedSame(s, s', Without(live, x), x, item);
    MovedGone(s, dead, now, x, item);
    MovedGone(s', dead', now, x, item);
    AppendTogether(Without(dead, x), Without(live, x), x);
    AppendTogether(Without(dead', x), Without(live, x), x);
  }

  lemma CutOk(s: Store, n: nat)
    requires s.Ok() && n <= |s.keys|
    ensures DropOldest(s, n).Ok()
    ensures forall x | x in s.keys[n..] :: SameItem(DropOldest(s, n), s, x)
  {
    SplitElements(s.keys, n);
    forall x | x in s.keys[n..] ensures SameItem(DropOldest(s, n), s, x) {
      assert x in Elements(s.keys[n..]);
    }
  }

  lemma CutDead(s: Store, dead: seq<string>, live: seq<string>, now: real, max: nat, l: seq<string>)
    returns (d: seq<string>)
    requires s.Ok() && s.keys == dead + live && forall x | x in dead :: Gone(s, x, now)
    requires l == if |live| > max then live[|live| - max..] else live
    ensures DropOldest(s, Excess(s, max)).Ok() && DropOldest(s, Excess(s, max)).keys == d + l
    ensures forall x | x in d :: Gone(DropOldest(s, Excess(s, max)), x, now)
    ensures forall x | x in l :: SameItem(DropOldest(s, Excess(s, max)), s, x)
  {
    var n := Excess(s, max);
    CutOk(s, n);
    d := if n <= |dead| then dead[n..] else [];
    assert s.keys[n..] == d + l;
    forall x | x in d ensures Gone(DropOldest(s, n), x, now) {
      assert x in dead && Gone(s, x, now);
      assert SameItem(DropOldest(s, n), s, x);
    }
  }

  /** Cutting both down to the capacity takes the same from the live entries, and dead ones only before that. */
  lemma CutAlike(s: Store, s': Store, dead: seq<string>, dead': seq<string>, live: seq<string>, now: real, max: nat)
    returns (d: seq<string>, d': seq<string>, l: seq<string>)
    requires Alike(s, s', dead, dead', live, now)
    ensures Alike(DropOldest(s, Excess(s, max)), DropOldest(s', Excess(s', max)), d, d', l, now)
  {
    l := if |live| > max then live[|live| - max..] else live;
    d := CutDead(s, dead, live, now, max, l);
    d' := CutDead(s', dead', live, now, max, l);
    forall x | x in l ensures SameItem(DropOldest(s, Excess(s, max)), DropOldest(s', Excess(s', max)), x) {
      assert SameItem(DropOldest(s, Excess(s, max)), s, x) && SameItem(DropOldest(s', Excess(s', max)), s', x);
      assert x in live;
      assert SameItem(s, s', x);
    }
  }

  lemma StepAlike(s: Store, s': Store, dead: seq<string>, dead': seq<string>, live: seq<string>, now: real, e: Entry,
                  max: nat)
    returns (d: seq<string>, d': seq<string>, l: seq<string>)
    requires Alike(s, s', dead, dead', live, now) && now <= e.at
    ensures Alike(Step(s, e, max), Step(s', e, max), d, d', l, now)
  {
    match e {
      case Write(k, slot, expiry, _) =>
        MoveAlike(s, s', dead, dead', live, now, k, Item(slot, expiry));
        d, d', l := CutAlike(Moved(s, k, Item(slot, expiry)), Moved(s', k, Item(slot, expiry)), Without(dead, k),
                             Without(dead', k), Without(live, k) + [k], now, max);
      case Delete(k, _) =>
        DropAlike(s, s', dead, dead', live, now, k);
        d, d', l := Without(dead, k), Without(dead', k), Without(live, k);
      case Read(k, at) =>
        d, d', l := ReadAlike(s, s', dead, dead', live, now, k, at);
    }
  }

  lemma {:induction false} AlikeAfter(s: Store, s': Store, dead: seq<string>, dead': seq<string>, live: seq<string>,
                                      now: real, later: seq<Entry>, n: nat, max: nat)
    returns (d: seq<string>, d': seq<string>, l: seq<string>)
    requires Alike(s, s', dead, dead', live, now) && n <= |later| && forall i | 0 <= i < |later| :: now <= later[i].at
    ensures Alike(After(s, later, n, max), After(s', later, n, max), d, d', l, now)
  {
    if n == 0 {
      d, d', l := dead, dead', live;
    } else {
      d, d', l := AlikeAfter(s, s', dead, dead', live, now, later, n - 1, max);
      d, d', l := StepAlike(After(s, later, n - 1, max), After(s', later, n - 1, max), d, d', l, now, later[n - 1],
                            max);
    }
  }

  lemma SplitAlike(s: Store, now: real, b: nat)
    requires s.Ok() && b < |s.keys| && forall i | 0 <= i <= b :: !Lives(s, i, now)
    ensures Alike(s, s, s.keys[..b + 1], s.keys[..b + 1], s.keys[b + 1..], now)
  {
    var dead, live := s.keys[..b + 1], s.keys[b + 1..];
    assert s.keys == dead + live;
    forall x | x in s.keys ensures x in s.at {
      InKeys(s, x);
    }
    forall x | x in dead ensures Gone(s, x, now) {
      var i :| 0 <= i <= b && s.keys[i] == x;
      assert !Lives(s, i, now);
    }
    forall x | x in live ensures SameItem(s, s, x) {
      assert x in s.keys;
    }
  }

  /** Dropping an expired key behind nothing but expired ones leaves the store alike. */
  lemma DroppedAlike(s: Store, k: string, now: real, b: nat)
    requires s.Ok() && b < |s.keys| && s.keys[b] == k && forall i | 0 <= i <= b :: !Lives(s, i, now)
    ensures Alike(s.Drop(k), s, Without(s.keys[..b + 1], k), s.keys[..b + 1], s.keys[b + 1..], now)
  {
    var dead, live := s.keys[..b + 1], s.keys[b + 1..];
    SplitAlike(s, now, b);
    DropAlike(s, s, dead, dead, live, now, k);
    assert k !in live;
    WithoutAbsent(live, k);
    forall x | x in live ensures SameItem(s.Drop(k), s, x) {
      assert x != k && SameItem(s, s, x);
    }
  }

  lemma NotNoticed(s: Store, k: string, now: real, max: nat, later: seq<Entry>, q: string, t: real)
    requires s.Ok() && Later(later, now, t)
    requires !(k in s.at && s.at[k].expiry < now && OlderLives(s, k, now))
    ensures !Differs(s, k, now, max, later, q, t)
  {
    if k in s.at && s.at[k].expiry < now {
      InKeys(s, k);
      var b :| 0 <= b < |s.keys| && s.keys[b] == k;
      forall i | 0 <= i <= b ensures !Lives(s, i, now) {
      }
      DroppedAlike(s, k, now, b);
      var d, d', l := AlikeAfter(s.Drop(k), s, Without(s.keys[..b + 1], k), s.keys[..b + 1], s.keys[b + 1..], now,
                                 later,
                                 |later|, max);
      AlikeAnswers(After(s.Drop(k), later, |later|, max), After(s, later, |later|, max), d, d', l, now, q, t);
    }
  }

  // ---- writing new keys ----

  function KeysOf(later: seq<Entry>): seq<string> {
    seq(|later|, j requires 0 <= j < |later| => later[j].key)
  }

  /** The stored keys and the keys written later, from the oldest on. */
  function Line(s: Store, later: seq<Entry>): seq<string> {
    s.keys + KeysOf(later)
  }

  /** Writes of keys that are not stored, all different. */
  ghost predicate NewWrites(s: Store, later: seq<Entry>) {
    Distinct(Line(s, later)) && forall j | 0 <= j < |later| :: later[j].Write?
  }

  function Dropped(s: Store, n: nat, max: nat): nat {
    if |s.keys| + n > max then |s.keys| + n - max else 0
  }

  ghost predicate OldOnesSame(s: Store, cur: Store) {
    forall x | x in cur.keys && x in s.keys :: SameItem(cur, s, x)
  }

  predicate HoldsSlice(cur: Store, all: seq<string>, d: nat, b: nat) {
    d <= b <= |all| && cur.keys == all[d..b]
  }

  /** After `n` new keys the store holds the last of all, the old ones with their entries. */
  ghost predicate HoldsLast(s: Store, cur: Store, later: seq<Entry>, n: nat, max: nat)
    requires n <= |later|
  {
    Filed(cur, max) && HoldsSlice(cur, Line(s, later), Dropped(s, n, max), |s.keys| + n) && OldOnesSame(s, cur)
  }

  lemma InSlice<T>(all: seq<T>, i: nat, a: nat, b: nat)
    requires Distinct(all) && i < |all| && a <= b <= |all|
    ensures all[i] in all[a..b] <==> a <= i < b
  {
    if a <= i < b {
      assert all[a..b][i - a] == all[i];
    }
  }

  lemma SliceSnoc<T>(all: seq<T>, a: nat, b: nat)
    requires a <= b < |all|
    ensures all[a..b] + [all[b]] == all[a..b + 1]
  {
  }

  lemma SliceTail<T>(all: seq<T>, a: nat, b: nat, d: nat)
    requires a + d <= b <= |all|
    ensures all[a..b][d..] == all[a + d..b]
  {
  }

  lemma NotThere(s: Store, cur: Store, later: seq<Entry>, n: nat, max: nat)
    requires NewWrites(s, later) && 0 < n <= |later| && HoldsLast(s, cur, later, n - 1, max)
    ensures later[n - 1].key !in cur.keys && later[n - 1].key !in s.keys
    ensures Line(s, later)[|s.keys| + n - 1] == later[n - 1].key
  {
    var all, b := Line(s, later), |s.keys| + n - 1;
    assert all[b] == later[n - 1].key;
    InSlice(all, b, Dropped(s, n - 1, max), b);
    InSlice(all, b, 0, |s.keys|);
    assert all[0..|s.keys|] == s.keys;
  }

  /** Appending the next of the line and cutting to the capacity keeps the end of the line. */
  lemma PushedKeys(cur: Store, cur': Store, x: string, item: Item, all: seq<string>, d: nat, b: nat, max: nat)
    requires HoldsSlice(cur, all, d, b) && b < |all| && all[b] == x && x !in cur.keys && |cur.keys| <= max
    requires cur' == Written(cur, x, item, max)
    ensures HoldsSlice(cur', all, if b + 1 - d > max then b + 1 - max else d, b + 1)
  {
    WithoutAbsent(cur.keys, x);
    SliceSnoc(all, d, b);
    SliceTail(all, d, b + 1, Excess(Moved(cur, x, item), max));
  }

  lemma MovedOldSame(s: Store, cur: Store, x: string, item: Item, n: nat)
    requires cur.Ok() && OldOnesSame(s, cur) && x !in s.keys && n <= |Moved(cur, x, item).keys|
    ensures OldOnesSame(s, DropOldest(Moved(cur, x, item), n))
  {
    var moved := Moved(cur, x, item);
    MovedOk(cur, x, item);
    CutOk(moved, n);
    forall y | y in moved.keys[n..] && y in s.keys ensures SameItem(DropOldest(moved, n), s, y) {
      assert SameItem(DropOldest(moved, n), moved, y);
      assert y in Without(cur.keys, x);
      WithoutMember(cur.keys, x, y);
      assert SameItem(cur, s, y);
    }
  }

  lemma PushedOk(s: Store, cur: Store, cur': Store, x: string, item: Item, max: nat)
    requires cur.Ok() && OldOnesSame(s, cur) && x !in s.keys && cur' == Written(cur, x, item, max)
    ensures Filed(cur', max) && OldOnesSame(s, cur')
  {
    MovedOk(cur, x, item);
    CutOk(Moved(cur, x, item), Excess(Moved(cur, x, item), max));
    MovedOldSame(s, cur, x, item, Excess(Moved(cur, x, item), max));
  }

  lemma OneMoreKey(s: Store, cur: Store, cur': Store, later: seq<Entry>, n: nat, max: nat)
    requires Filed(s, max) && NewWrites(s, later) && 0 < n <= |later| && HoldsLast(s, cur, later, n - 1, max)
    requires cur' == Step(cur, later[n - 1], max)
    ensures HoldsLast(s, cur', later, n, max)
  {
    var x, item := later[n - 1].key, Item(later[n - 1].slot, later[n - 1].expiry);
    NotThere(s, cur, later, n, max);
    PushedKeys(cur, cur', x, item, Line(s, later), Dropped(s, n - 1, max), |s.keys| + n - 1, max);
    PushedOk(s, cur, cur', x, item, max);
  }

  lemma {:induction false} NewKeysPush(s: Store, later: seq<Entry>, n: nat, max: nat)
    requires Filed(s, max) && NewWrites(s, later) && n <= |later|
    ensures HoldsLast(s, After(s, later, n, max), later, n, max)
  {
    if n == 0 {
      assert Line(s, later)[0..|s.keys|] == s.keys;
      forall x | x in s.keys ensures SameItem(s, s, x) {
        InKeys(s, x);
      }
    } else {
      NewKeysPush(s, later, n - 1, max);
      OneMoreKey(s, After(s, later, n - 1, max), After(s, later, n, max), later, n, max);
    }
  }

  lemma LastSurvive(s: Store, cur: Store, later: seq<Entry>, max: nat, i: nat)
    requires NewWrites(s, later) && i < |s.keys| && HoldsLast(s, cur, later, |later|, max)
    ensures s.keys[i] in cur.at <==> |s.keys| + |later| <= max + i
    ensures s.keys[i] in cur.at ==> SameItem(cur, s, s.keys[i])
  {
    var all, x := Line(s, later), s.keys[i];
    assert all[i] == x && x in s.keys;
    InSlice(all, i, Dropped(s, |later|, max), |s.keys| + |later|);
    InKeys(cur, x);
  }

  /** A stored key survives as many new ones as there is room, and then as many as there are older keys. */
  lemma SurvivesIff(s: Store, later: seq<Entry>, max: nat, i: nat)
    requires Filed(s, max) && NewWrites(s, later) && i < |s.keys|
    ensures var cur := After(s, later, |later|, max);
            && (s.keys[i] in cur.at <==> |s.keys| + |later| <= max + i)
            && (s.keys[i] in cur.at ==> SameItem(cur, s, s.keys[i]))
  {
    NewKeysPush(s, later, |later|, max);
    LastSurvive(s, After(s, later, |later|, max), later, max, i);
  }

  // ---- keys that are not stored ----

  function Xs(n: nat): (r: string)
    ensures |r| == n
  {
    seq(n, _ => 'x')
  }

  function LongestTo(keys: seq<string>, n: nat): nat
    requires n <= |keys|
  {
    if n == 0 then 0 else if |keys[n - 1]| > LongestTo(keys, n - 1) then |keys[n - 1]| else LongestTo(keys, n - 1)
  }

  lemma {:induction false} NoneLonger(keys: seq<string>, n: nat, i: nat)
    requires i < n <= |keys|
    ensures |keys[i]| <= LongestTo(keys, n)
  {
    if i < n - 1 {
      NoneLonger(keys, n - 1, i);
    }
  }

  /** Writes of `n` keys, each longer than all that are stored. */
  function LongWrites(keys: seq<string>, n: nat, now: real): (later: seq<Entry>)
    ensures |later| == n
  {
    seq(n, (j: nat) => Write(Xs(LongestTo(keys, |keys|) + 1 + j), EmptyMark, now, now))
  }

  lemma LongWriteAt(keys: seq<string>, n: nat, now: real, j: nat)
    requires j < n
    ensures LongWrites(keys, n, now)[j].Write? && |LongWrites(keys, n, now)[j].key| == LongestTo(keys, |keys|) + 1 + j
  {
    var x := Xs(LongestTo(keys, |keys|) + 1 + j);
    assert LongWrites(keys, n, now)[j] == Write(x, EmptyMark, now, now);
  }

  lemma LongWritesAreNew(s: Store, keys: seq<string>, n: nat, now: real)
    requires Distinct(s.keys) && forall x | x in s.keys :: x in keys
    ensures NewWrites(s, LongWrites(keys, n, now))
  {
    var later := LongWrites(keys, n, now);
    var line := Line(s, later);
    forall j | |s.keys| <= j < |line| ensures |line[j]| == LongestTo(keys, |keys|) + 1 + (j - |s.keys|) {
      LongWriteAt(keys, n, now, j - |s.keys|);
      assert line[j] == later[j - |s.keys|].key;
    }
    forall j | 0 <= j < |later| ensures later[j].Write? {
      LongWriteAt(keys, n, now, j);
    }
    forall i | 0 <= i < |s.keys| ensures |line[i]| <= LongestTo(keys, |keys|) {
      assert line[i] == s.keys[i] && s.keys[i] in keys;
      var k :| 0 <= k < |keys| && keys[k] == s.keys[i];
      NoneLonger(keys, |keys|, k);
    }
  }

  // ---- exactly when a read is noticed ----

  /** Leaving out the key at position `b` keeps those before it in place. */
  lemma WithoutAt(keys: seq<string>, b: nat)
    requires Distinct(keys) && b < |keys|
    ensures Without(keys, keys[b]) == keys[..b] + keys[b + 1..]
    ensures |Without(keys, keys[b])| == |keys| - 1
    ensures forall i | 0 <= i < b :: Without(keys, keys[b])[i] == keys[i]
  {
    assert keys == keys[..b] + keys[b..];
    WithoutAppend(keys[..b], keys[b..], keys[b]);
    WithoutAbsent(keys[..b], keys[b]);
    WithoutFirst(keys[b..]);
  }

  lemma ReadFits(s: Store, read: Store, k: string, now: real, max: nat, b: nat, n: nat)
    requires Filed(s, max) && b < |s.keys| && s.keys[b] == k && read == s.Drop(k)
    ensures Filed(read, max) && NewWrites(read, LongWrites(s.keys, n, now))
  {
    DropOk(s, k);
    WithoutAt(s.keys, b);
    forall y | y in read.keys ensures y in s.keys {
      WithoutMember(s.keys, k, y);
    }
    LongWritesAreNew(read, s.keys, n, now);
  }

  /** Without the read key one older entry more survives. */
  lemma ReadSpares(s: Store, read: Store, cur: Store, k: string, now: real, max: nat, i: nat, b: nat, later: seq<Entry>)
    requires Filed(s, max) && i < b < |s.keys| && s.keys[b] == k
    requires later == LongWrites(s.keys, max - |s.keys| + i + 1, now)
    requires read == s.Drop(k) && cur == After(read, later, |later|, max)
    ensures SameItem(cur, s, s.keys[i])
  {
    ReadFits(s, read, k, now, max, b, |later|);
    WithoutAt(s.keys, b);
    SurvivesIff(read, later, max, i);
  }

  /** With an older live entry, as many new keys as fill the store up to it tell the difference. */
  lemma OlderTells(s: Store, k: string, now: real, max: nat, i: nat, b: nat)
    requires Filed(s, max) && i < b < |s.keys| && s.keys[b] == k && Lives(s, i, now)
    requires k in s.at && s.at[k].expiry < now
    ensures Differs(s, k, now, max, LongWrites(s.keys, max - |s.keys| + i + 1, now), s.keys[i], now)
  {
    var later := LongWrites(s.keys, max - |s.keys| + i + 1, now);
    LongWritesAreNew(s, s.keys, |later|, now);
    SurvivesIff(s, later, max, i);
    ReadSpares(s, s.Drop(k), After(s.Drop(k), later, |later|, max), k, now, max, i, b, later);
  }

  lemma RunIsFiled(states: seq<Store>, log: seq<Entry>, n: nat, max: nat)
    requires IsRun(states, log, max) && n <= |log| && Monotone(log)
    ensures Filed(states[n], max)
  {
    RunOk(states, log, n, max);
    AscendsDistinct(states[n].keys, Rank(log, n));
  }

  lemma DiffersIsNoticed(s: Store, k: string, now: real, max: nat, later: seq<Entry>, q: string, t: real)
    requires Later(later, now, t) && Differs(s, k, now, max, later, q, t)
    ensures Noticed(s, k, now, max)
  {
  }

  /** In every reachable store: some later look-up can tell that `k` was read exactly if `k` is stored and has expired
      while an older entry has not. */
  lemma ReadNoticedIff(states: seq<Store>, log: seq<Entry>, n: nat, max: nat, k: string, now: real)
    requires IsRun(states, log, max) && n <= |log| && Monotone(log) && now >= TimeAt(log, n)
    ensures var s := states[n];
            Noticed(s, k, now, max) <==> k in s.at && s.at[k].expiry < now && OlderLives(s, k, now)
  {
    var s := states[n];
    RunIsFiled(states, log, n, max);
    if k in s.at && s.at[k].expiry < now && OlderLives(s, k, now) {
      var i, b :| 0 <= i < b < |s.keys| && s.keys[b] == k && Lives(s, i, now);
      OlderTells(s, k, now, max, i, b);
      DiffersIsNoticed(s, k, now, max, LongWrites(s.keys, max - |s.keys| + i + 1, now), s.keys[i], now);
    } else if Noticed(s, k, now, max) {
      var later, q, t :| Later(later, now, t) && Differs(s, k, now, max, later, q, t);
      NotNoticed(s, k, now, max, later, q, t);
    }
  }
}
