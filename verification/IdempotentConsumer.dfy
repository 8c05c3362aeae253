/** Idempotent consumption: a key is taken before the handler runs, kept for the retention time when it succeeds and
    given back when it fails. Deliveries and handler endings interleave in any way on a clock that never goes back. */
module IdempotencyModel {
  /** One handler run: the key it took and when. */
  datatype Run = Run(key: string, at: real)

  /** The store, the clock, the runs in progress by number, and the runs that succeeded, in the order they ended. */
  datatype State = State(store: map<string, real>, now: real, running: map<nat, Run>, succeeded: seq<Run>, next: nat)

  /** How a handler ends. A cancelled one is not caught as a failure. */
  datatype Ending = Succeeded | Failed | Cancelled

  datatype Event =
    | Deliver(at: real, key: string)
    | End(at: real, run: nat, ending: Ending)

  /** The keys whose retention is not over. */
  function Pruned(store: map<string, real>, now: real): map<string, real> {
    map k | k in store && store[k] > now :: store[k]
  }

  ghost predicate Enabled(s: State, e: Event) {
    e.at >= s.now && (e.End? ==> e.run in s.running)
  }

  function Delivered(ttl: real, s: State, at: real, key: string): State {
    var store := Pruned(s.store, at);
    if key in store then s.(store := store, now := at)
    else s.(store := store[key := at + ttl], now := at, running := s.running[s.next := Run(key, at)],
            next := s.next + 1)
  }

  function Ended(s: State, at: real, run: nat, ending: Ending): State
    requires run in s.running
  {
    var r := s.running[run];
    var over := s.(now := at, running := s.running - {run});
    match ending
    case Succeeded => over.(succeeded := s.succeeded + [r])
    case Failed => over.(store := s.store - {r.key})
    case Cancelled => over
  }

  ghost function Step(ttl: real, s: State, e: Event): State
    requires Enabled(s, e)
  {
    match e
    case Deliver(at, key) => Delivered(ttl, s, at, key)
    case End(at, run, ending) => Ended(s, at, run, ending)
  }

  ghost predicate IsHistory(ttl: real, states: seq<State>, events: seq<Event>) {
    && |states| == |events| + 1
    && states[0].store == map[] && states[0].running == map[] && states[0].succeeded == [] && states[0].next == 0
    && forall k {:trigger events[k]} | 0 <= k < |events| ::
         Enabled(states[k], events[k]) && states[k + 1] == Step(ttl, states[k], events[k])
  }

  /** Two runs for the key at the same time. */
  ghost predicate Overlaps(s: State, key: string) {
    exists i, j :: i in s.running && j in s.running && i != j && s.running[i].key == key && s.running[j].key == key
  }

  /** The delivery does not find a run for the key that has outlived the key's retention. */
  ghost predicate Punctual(ttl: real, s: State, e: Event, key: string) {
    e.Deliver? && e.key == key ==> forall i | i in s.running && s.running[i].key == key :: e.at < s.running[i].at + ttl
  }

  // ---- the invariant of punctual histories ----

  /** A run in progress holds its key, or its retention is over. */
  ghost predicate Holds(ttl: real, s: State, r: Run) {
    && r.at <= s.now
    && if r.key in s.store then s.store[r.key] == r.at + ttl else s.now >= r.at + ttl
  }

  ghost predicate RunsOk(ttl: real, s: State, key: string) {
    && (forall i | i in s.running && s.running[i].key == key :: Holds(ttl, s, s.running[i]))
    && (forall i | i in s.running :: i < s.next)
    && !Overlaps(s, key)
  }

  lemma EndKeepsRuns(ttl: real, s: State, at: real, run: nat, ending: Ending, key: string)
    requires RunsOk(ttl, s, key) && run in s.running && at >= s.now
    ensures RunsOk(ttl, Ended(s, at, run, ending), key)
  {
    var s', r := Ended(s, at, run, ending), s.running[run];
    forall i | i in s'.running && s'.running[i].key == key ensures Holds(ttl, s', s'.running[i]) {
      assert Holds(ttl, s, s.running[i]);
      assert s.running[i].key != r.key;
    }
  }

  lemma DeliverKeepsRuns(ttl: real, s: State, at: real, delivered: string, key: string)
    requires RunsOk(ttl, s, key) && at >= s.now && Punctual(ttl, s, Deliver(at, delivered), key)
    ensures RunsOk(ttl, Delivered(ttl, s, at, delivered), key)
  {
    var s' := Delivered(ttl, s, at, delivered);
    forall i | i in s.running && s.running[i].key == key
      ensures Holds(ttl, s', s.running[i]) && (delivered !in Pruned(s.store, at) ==> delivered != key)
    {
      assert Holds(ttl, s, s.running[i]);
    }
  }

  /** A delivery that finds a run past its retention starts a second run for the same key. */
  lemma LateDeliveryOverlaps(ttl: real, s: State, at: real, key: string)
    requires RunsOk(ttl, s, key) && at >= s.now && !Punctual(ttl, s, Deliver(at, key), key)
    ensures Overlaps(Delivered(ttl, s, at, key), key)
  {
    var i :| i in s.running && s.running[i].key == key && at >= s.running[i].at + ttl;
    assert Holds(ttl, s, s.running[i]);
    var s' := Delivered(ttl, s, at, key);
    assert s'.running[i].key == key && s'.running[s.next].key == key;
  }

  ghost predicate PunctualTo(ttl: real, states: seq<State>, events: seq<Event>, n: nat, key: string)
    requires n <= |events| <= |states|
  {
    forall k {:trigger events[k]} | 0 <= k < n :: Punctual(ttl, states[k], events[k], key)
  }

  ghost predicate OverlapFreeTo(states: seq<State>, n: nat, key: string)
    requires n < |states|
  {
    forall k | 0 <= k <= n :: !Overlaps(states[k], key)
  }

  lemma {:induction false} PunctualIsOk(ttl: real, states: seq<State>, events: seq<Event>, n: nat, key: string)
    requires IsHistory(ttl, states, events) && n <= |events| && PunctualTo(ttl, states, events, n, key)
    ensures RunsOk(ttl, states[n], key) && OverlapFreeTo(states, n, key)
  {
    if n > 0 {
      PunctualIsOk(ttl, states, events, n - 1, key);
      var s := states[n - 1];
      assert states[n] == Step(ttl, s, events[n - 1]);
      match events[n - 1] {
        case Deliver(at, delivered) => DeliverKeepsRuns(ttl, s, at, delivered, key);
        case End(at, run, ending) => EndKeepsRuns(ttl, s, at, run, ending, key);
      }
    }
  }

  /** Runs for a key never overlap exactly when no delivery finds a run for the key past the retention, whatever happens
      to other keys. */
  lemma {:induction false} NeverOverlapIff(ttl: real, states: seq<State>, events: seq<Event>, n: nat, key: string)
    requires IsHistory(ttl, states, events) && n <= |events|
    ensures OverlapFreeTo(states, n, key) <==> PunctualTo(ttl, states, events, n, key)
  {
    if PunctualTo(ttl, states, events, n, key) {
      PunctualIsOk(ttl, states, events, n, key);
    } else {
      NeverOverlapIff(ttl, states, events, n - 1, key);
      if PunctualTo(ttl, states, events, n - 1, key) {
        PunctualIsOk(ttl, states, events, n - 1, key);
        assert !Punctual(ttl, states[n - 1], events[n - 1], key);
        LateDeliveryOverlaps(ttl, states[n - 1], events[n - 1].at, key);
        assert Overlaps(states[n], key);
      }
    }
  }

  /** A failed run frees its own key and no other: the next delivery of that key is accepted at once. */
  lemma FailureFreesKey(ttl: real, s: State, at: real, run: nat, at': real)
    requires run in s.running && at' >= at
    ensures var s', key := Ended(s, at, run, Failed), s.running[run].key;
            && s'.store == s.store - {key}
            && Delivered(ttl, s', at', key).running == s'.running[s'.next := Run(key, at')]
  {
    assert s.running[run].key !in Pruned(s.store - {s.running[run].key}, at');
  }

  /** A cancelled run keeps its key: it is not handled again before its retention is over, although it did not
      succeed. */
  lemma CancelledBlocksIff(ttl: real, s: State, at: real, run: nat, at': real)
    requires run in s.running && RunsOk(ttl, s, s.running[run].key) && s.now <= at <= at'
    ensures var s', key := Ended(s, at, run, Cancelled), s.running[run].key;
            Delivered(ttl, s', at', key).running == s'.running <==> at' < s.running[run].at + ttl
  {
    var s', r := Ended(s, at, run, Cancelled), s.running[run];
    assert Holds(ttl, s, r);
    assert s'.next !in s'.running;
    if r.key !in Pruned(s'.store, at') {
      assert s'.next in Delivered(ttl, s', at', r.key).running;
    }
  }

  // ---- whose hold a failure frees ----

  /** The number of the run that took the key last, or -1. */
  ghost function Taker(states: seq<State>, events: seq<Event>, n: nat, key: string): int
    requires n <= |events| < |states|
  {
    if n == 0 then -1
    else if events[n - 1] == Deliver(events[n - 1].at, key) && states[n].next != states[n - 1].next
      then states[n - 1].next
    else Taker(states, events, n - 1, key)
  }

  /** A failure of run `i` would free a hold that another run took. */
  ghost predicate FreesOther(states: seq<State>, events: seq<Event>, n: nat, i: nat)
    requires n <= |events| < |states| && i in states[n].running
  {
    var key := states[n].running[i].key;
    key in states[n].store && Taker(states, events, n, key) != i
  }

  ghost predicate NoneFreesOther(states: seq<State>, events: seq<Event>, n: nat, key: string)
    requires n <= |events| < |states|
  {
    forall i | i in states[n].running && states[n].running[i].key == key :: !FreesOther(states, events, n, i)
  }

  ghost predicate NeverFreesOther(states: seq<State>, events: seq<Event>, n: nat, key: string)
    requires n <= |events| < |states|
  {
    forall k | 0 <= k <= n :: NoneFreesOther(states, events, k, key)
  }

  lemma OwnStays(ttl: real, states: seq<State>, events: seq<Event>, n: nat, i: nat, key: string)
    requires IsHistory(ttl, states, events) && 0 < n <= |events| && NoneFreesOther(states, events, n - 1, key)
    requires RunsOk(ttl, states[n - 1], key) && RunsOk(ttl, states[n], key)
    requires i in states[n].running && states[n].running[i].key == key
    ensures !FreesOther(states, events, n, i)
  {
    var s, e := states[n - 1], events[n - 1];
    assert states[n] == Step(ttl, s, e);
    if i in s.running {
      assert s.running[i].key == key && !FreesOther(states, events, n - 1, i);
      assert e.Deliver? && states[n].next != s.next ==>
               s.next in states[n].running && states[n].running[s.next].key == e.key;
    }
  }

  lemma {:induction false} PunctualFreesOwn(ttl: real, states: seq<State>, events: seq<Event>, n: nat, key: string)
    requires IsHistory(ttl, states, events) && n <= |events| && PunctualTo(ttl, states, events, n, key)
    ensures NeverFreesOther(states, events, n, key)
  {
    if n > 0 {
      PunctualFreesOwn(ttl, states, events, n - 1, key);
      PunctualIsOk(ttl, states, events, n - 1, key);
      PunctualIsOk(ttl, states, events, n, key);
      assert NoneFreesOther(states, events, n - 1, key);
      forall i | i in states[n].running && states[n].running[i].key == key ensures !FreesOther(states, events, n, i) {
        OwnStays(ttl, states, events, n, i, key);
      }
    }
  }

  lemma LateDeliveryGivesAway(ttl: real, states: seq<State>, events: seq<Event>, n: nat, key: string)
    requires IsHistory(ttl, states, events) && n < |events| && RunsOk(ttl, states[n], key)
    requires !Punctual(ttl, states[n], events[n], key)
    ensures !NoneFreesOther(states, events, n + 1, key)
  {
    var s, e := states[n], events[n];
    assert states[n + 1] == Step(ttl, s, e);
    var i :| i in s.running && s.running[i].key == key && e.at >= s.running[i].at + ttl;
    assert Holds(ttl, s, s.running[i]);
    assert FreesOther(states, events, n + 1, i);
  }

  /** At no time could a failing run free another run's hold of the key exactly if no delivery finds a run for the key
      past the retention. */
  lemma {:induction false} FailuresFreeOwnIff(ttl: real, states: seq<State>, events: seq<Event>, n: nat, key: string)
    requires IsHistory(ttl, states, events) && n <= |events|
    ensures NeverFreesOther(states, events, n, key) <==> PunctualTo(ttl, states, events, n, key)
  {
    if PunctualTo(ttl, states, events, n, key) {
      PunctualFreesOwn(ttl, states, events, n, key);
    } else {
      FailuresFreeOwnIff(ttl, states, events, n - 1, key);
      if PunctualTo(ttl, states, events, n - 1, key) {
        PunctualIsOk(ttl, states, events, n - 1, key);
        LateDeliveryGivesAway(ttl, states, events, n - 1, key);
      }
    }
  }

  // ---- successful runs are a retention apart ----

  /** No step up to `n` is a failure that frees the hold another run took of the key. */
  ghost predicate NothingFreedTo(states: seq<State>, events: seq<Event>, n: nat, key: string)
    requires n <= |events| < |states|
  {
    forall k | 0 <= k < n :: !FreedAt(states, events, k, key)
  }

  ghost predicate FreedAt(states: seq<State>, events: seq<Event>, k: nat, key: string)
    requires k < |events| < |states|
  {
    && events[k].End? && events[k].ending == Failed && events[k].run in states[k].running
    && states[k].running[events[k].run].key == key && FreesOther(states, events, k, events[k].run)
  }

  /** Until its retention is over, a run keeps its key taken, whoever took it since. */
  ghost predicate Keeps(ttl: real, s: State, r: Run) {
    r.at <= s.now && ((r.key in s.store && s.store[r.key] >= r.at + ttl) || s.now >= r.at + ttl)
  }

  /** The two runs took their key at least the retention apart. */
  predicate Apart(ttl: real, a: Run, b: Run) {
    b.at >= a.at + ttl || a.at >= b.at + ttl
  }

  /** The run keeps its key, and the run `taker`, if it is still in progress, took the key at least the retention
      later. */
  ghost predicate Earlier(ttl: real, s: State, r: Run, taker: int) {
    Keeps(ttl, s, r) && (taker in s.running ==> s.running[taker].at >= r.at + ttl)
  }

  ghost predicate RunsSpaced(ttl: real, s: State, key: string, taker: int) {
    && taker < s.next
    && (taker in s.running ==> s.running[taker].key == key && Keeps(ttl, s, s.running[taker]))
    && (forall i | i in s.running :: i < s.next)
    && (forall i | i in s.running && s.running[i].key == key && i != taker :: Earlier(ttl, s, s.running[i], taker))
    && (forall i, j
          | i in s.running && j in s.running && i != j && s.running[i].key == key && s.running[j].key == key ::
          Apart(ttl, s.running[i], s.running[j]))
  }

  ghost predicate SuccessesSpaced(ttl: real, s: State, key: string, taker: int) {
    && (forall d | d in s.succeeded && d.key == key :: Earlier(ttl, s, d, taker))
    && (forall d, i | d in s.succeeded && d.key == key && i in s.running && s.running[i].key == key ::
          Apart(ttl, s.running[i], d))
    && (forall i, j | 0 <= i < j < |s.succeeded| && s.succeeded[i].key == key && s.succeeded[j].key == key ::
          Apart(ttl, s.succeeded[i], s.succeeded[j]))
  }

  lemma KeepsLater(ttl: real, s: State, at: real, delivered: string, r: Run)
    requires Keeps(ttl, s, r) && at >= s.now
    ensures Keeps(ttl, Delivered(ttl, s, at, delivered), r)
    ensures r.key !in Pruned(s.store, at) ==> at >= r.at + ttl
  {
  }

  /** The taker of the key after a delivery. */
  function TakerAfter(s: State, s': State, delivered: string, key: string, taker: int): int {
    if delivered == key && s'.next != s.next then s.next else taker
  }

  lemma DeliverKeepsRunsSpaced(ttl: real, s: State, s': State, at: real, delivered: string, key: string, taker: int)
    requires RunsSpaced(ttl, s, key, taker) && at >= s.now && s' == Delivered(ttl, s, at, delivered)
    ensures RunsSpaced(ttl, s', key, TakerAfter(s, s', delivered, key, taker))
  {
    forall i | i in s.running && s.running[i].key == key
      ensures Keeps(ttl, s', s.running[i]) && (key !in Pruned(s.store, at) ==> at >= s.running[i].at + ttl)
    {
      if i != taker {
        assert Earlier(ttl, s, s.running[i], taker);
      }
      KeepsLater(ttl, s, at, delivered, s.running[i]);
    }
  }

  lemma DeliverKeepsSuccessesSpaced(ttl: real, s: State, s': State, at: real, delivered: string, key: string,
                                    taker: int)
    requires taker < s.next && SuccessesSpaced(ttl, s, key, taker) && at >= s.now
    requires s' == Delivered(ttl, s, at, delivered)
    ensures SuccessesSpaced(ttl, s', key, TakerAfter(s, s', delivered, key, taker))
  {
    forall d | d in s.succeeded && d.key == key
      ensures Keeps(ttl, s', d) && (key !in Pruned(s.store, at) ==> at >= d.at + ttl)
    {
      assert Earlier(ttl, s, d, taker);
      KeepsLater(ttl, s, at, delivered, d);
    }
  }

  /** Ending run `run` frees no hold of the key but its own. */
  ghost predicate FreesOwn(s: State, run: nat, ending: Ending, key: string, taker: int)
    requires run in s.running
  {
    ending == Failed && s.running[run].key == key && key in s.store ==> taker == run
  }

  /** A run that has not failed keeps the key after the end. */
  lemma EndKeepsEarlier(ttl: real, s: State, at: real, run: nat, ending: Ending, key: string, taker: int, r: Run)
    requires run in s.running && at >= s.now && FreesOwn(s, run, ending, key, taker)
    requires r.key == key && Earlier(ttl, s, r, taker)
    requires taker in s.running ==> s.running[taker].key == key && Keeps(ttl, s, s.running[taker])
    ensures Earlier(ttl, Ended(s, at, run, ending), r, taker)
  {
  }

  lemma EndKeepsRunsSpaced(ttl: real, s: State, at: real, run: nat, ending: Ending, key: string, taker: int)
    requires RunsSpaced(ttl, s, key, taker) && at >= s.now && run in s.running && FreesOwn(s, run, ending, key, taker)
    ensures RunsSpaced(ttl, Ended(s, at, run, ending), key, taker)
  {
    var s' := Ended(s, at, run, ending);
    forall i | i in s'.running && s'.running[i].key == key && i != taker
      ensures Earlier(ttl, s', s'.running[i], taker)
    {
      EndKeepsEarlier(ttl, s, at, run, ending, key, taker, s.running[i]);
    }
  }

  lemma EndKeepsSuccessesSpaced(ttl: real, s: State, at: real, run: nat, ending: Ending, key: string, taker: int)
    requires RunsSpaced(ttl, s, key, taker) && SuccessesSpaced(ttl, s, key, taker)
    requires at >= s.now && run in s.running && FreesOwn(s, run, ending, key, taker)
    ensures SuccessesSpaced(ttl, Ended(s, at, run, ending), key, taker)
  {
    var s' := Ended(s, at, run, ending);
    forall d | d in s'.succeeded && d.key == key ensures Earlier(ttl, s', d, taker) {
      if d in s.succeeded {
        EndKeepsEarlier(ttl, s, at, run, ending, key, taker, d);
      }
    }
  }

  lemma {:induction false} SpacedTo(ttl: real, states: seq<State>, events: seq<Event>, n: nat, key: string)
    requires IsHistory(ttl, states, events) && n <= |events| && NothingFreedTo(states, events, n, key)
    ensures RunsSpaced(ttl, states[n], key, Taker(states, events, n, key))
    ensures SuccessesSpaced(ttl, states[n], key, Taker(states, events, n, key))
  {
    if n > 0 {
      SpacedTo(ttl, states, events, n - 1, key);
      var s, taker := states[n - 1], Taker(states, events, n - 1, key);
      assert states[n] == Step(ttl, s, events[n - 1]);
      match events[n - 1] {
        case Deliver(at, delivered) =>
          DeliverKeepsRunsSpaced(ttl, s, states[n], at, delivered, key, taker);
          DeliverKeepsSuccessesSpaced(ttl, s, states[n], at, delivered, key, taker);
        case End(at, run, ending) =>
          assert !FreedAt(states, events, n - 1, key);
          EndKeepsRunsSpaced(ttl, s, at, run, ending, key, taker);
          EndKeepsSuccessesSpaced(ttl, s, at, run, ending, key, taker);
      }
    }
  }

  /** Two successful runs for a key took it at least the retention apart, also where runs overlap, unless a failing run
      has freed the hold that another one took. */
  lemma SuccessesAreApart(ttl: real, states: seq<State>, events: seq<Event>, n: nat, key: string, i: nat, j: nat)
    requires IsHistory(ttl, states, events) && n <= |events| && NothingFreedTo(states, events, n, key)
    requires i < j < |states[n].succeeded| && states[n].succeeded[i].key == key == states[n].succeeded[j].key
    ensures Apart(ttl, states[n].succeeded[i], states[n].succeeded[j])
  {
    SpacedTo(ttl, states, events, n, key);
  }

  /** Without overlaps the run in progress for a key is the one that took it last. */
  lemma {:induction false} RunningIsTaker(ttl: real, states: seq<State>, events: seq<Event>, n: nat, key: string,
                                          i: nat)
    requires IsHistory(ttl, states, events) && n <= |events| && OverlapFreeTo(states, n, key)
    requires i in states[n].running && states[n].running[i].key == key
    ensures Taker(states, events, n, key) == i
  {
    if n > 0 {
      var s, s', e := states[n - 1], states[n], events[n - 1];
      assert s' == Step(ttl, s, e) && !Overlaps(s', key);
      NeverOverlapIff(ttl, states, events, n - 1, key);
      PunctualIsOk(ttl, states, events, n - 1, key);
      if i in s.running {
        RunningIsTaker(ttl, states, events, n - 1, key, i);
        assert e.Deliver? && s'.next != s.next ==> s.next in s'.running && s'.running[s.next].key == e.key;
      }
    }
  }

  lemma OverlapFreeFreesNothing(ttl: real, states: seq<State>, events: seq<Event>, n: nat, key: string)
    requires IsHistory(ttl, states, events) && n <= |events| && OverlapFreeTo(states, n, key)
    ensures NothingFreedTo(states, events, n, key)
  {
    NeverOverlapIff(ttl, states, events, n, key);
    PunctualFreesOwn(ttl, states, events, n, key);
    forall k | 0 <= k < n ensures !FreedAt(states, events, k, key) {
      assert NoneFreesOther(states, events, k, key);
    }
  }

  /** Where runs for the key do not overlap, the successful ones also end in the order in which they took it. */
  lemma {:induction false} SuccessesInOrder(ttl: real, states: seq<State>, events: seq<Event>, n: nat, key: string,
                                            i: nat, j: nat)
    requires IsHistory(ttl, states, events) && n <= |events| && OverlapFreeTo(states, n, key)
    requires i < j < |states[n].succeeded| && states[n].succeeded[i].key == key == states[n].succeeded[j].key
    ensures states[n].succeeded[j].at >= states[n].succeeded[i].at + ttl
  {
    if n > 0 {
      var s, e := states[n - 1], events[n - 1];
      assert states[n] == Step(ttl, s, e);
      if j < |s.succeeded| {
        SuccessesInOrder(ttl, states, events, n - 1, key, i, j);
      } else {
        OverlapFreeFreesNothing(ttl, states, events, n - 1, key);
        SpacedTo(ttl, states, events, n - 1, key);
        RunningIsTaker(ttl, states, events, n - 1, key, e.run);
        assert s.succeeded[i] in s.succeeded && Earlier(ttl, s, s.succeeded[i], e.run);
      }
    }
  }

  lemma LateRunFails(ttl: real, key: string)
    requires ttl > 0.0
    ensures var a, b := Run(key, 0.0), Run(key, ttl);
            var first := State(map[key := ttl], 0.0, map[0 := a], [], 1);
            var second := State(map[key := ttl + ttl], ttl, map[0 := a, 1 := b], [], 2);
            && Delivered(ttl, State(map[], 0.0, map[], [], 0), 0.0, key) == first
            && Delivered(ttl, first, ttl, key) == second
            && Ended(second, ttl, 0, Failed) == State(map[], ttl, map[1 := b], [], 2)
  {
    assert Pruned(map[], 0.0) == map[] && Pruned(map[key := ttl], ttl) == map[];
  }

  lemma NextRunsSucceed(ttl: real, key: string)
    requires ttl > 0.0
    ensures var b := Run(key, ttl);
            var held := map[key := ttl + ttl];
            var both := State(held, ttl, map[1 := b, 2 := b], [], 3);
            && Delivered(ttl, State(map[], ttl, map[1 := b], [], 2), ttl, key) == both
            && Ended(both, ttl, 1, Succeeded) == State(held, ttl, map[2 := b], [b], 3)
            && Ended(State(held, ttl, map[2 := b], [b], 3), ttl, 2, Succeeded) == State(held, ttl, map[], [b, b], 3)
  {
    assert Pruned(map[], ttl) == map[];
  }

  /** A history in which a run that outlived its retention fails and so frees the next run's hold: two runs succeed that
      took the key at the same time. */
  lemma LateFailureDoublesSuccess(ttl: real, key: string) returns (states: seq<State>, events: seq<Event>)
    requires ttl > 0.0
    ensures IsHistory(ttl, states, events) && |events| == 6 && |states[6].succeeded| == 2
    ensures states[6].succeeded[0].key == key == states[6].succeeded[1].key
    ensures !Apart(ttl, states[6].succeeded[0], states[6].succeeded[1])
  {
    var a, b := Run(key, 0.0), Run(key, ttl);
    var held := map[key := ttl + ttl];
    LateRunFails(ttl, key);
    NextRunsSucceed(ttl, key);
    events := [Deliver(0.0, key), Deliver(ttl, key), End(ttl, 0, Failed), Deliver(ttl, key), End(ttl, 1, Succeeded),
               End(ttl, 2, Succeeded)];
    states := [State(map[], 0.0, map[], [], 0), State(map[key := ttl], 0.0, map[0 := a], [], 1),
               State(held, ttl, map[0 := a, 1 := b], [], 2), State(map[], ttl, map[1 := b], [], 2),
               State(held, ttl, map[1 := b, 2 := b], [], 3), State(held, ttl, map[2 := b], [b], 3),
               State(held, ttl, map[], [b, b], 3)];
  }

  // ---- the key of a message ----

  datatype Message = Message(id: string, bizId: string)

  /** The business id, or the message id when there is none. */
  function BizIdOf(m: Message): string {
    if m.bizId != "" then m.bizId else m.id
  }

  function BuildKey(m: Message): string {
    if BizIdOf(m) != m.id then "biz:" + BizIdOf(m) else "msg:" + m.id
  }

  /** The body names a business action other than the message itself. */
  predicate HasBusinessId(m: Message) {
    m.bizId != "" && m.bizId != m.id
  }

  lemma KeyTail(m: Message)
    ensures BuildKey(m)[0] == if HasBusinessId(m) then 'b' else 'm'
    ensures BuildKey(m)[4..] == if HasBusinessId(m) then m.bizId else m.id
  {
  }

  /** Two messages share a key exactly when they name the same business action, or neither names one and they are the
      same message. */
  lemma SameKeyIff(a: Message, b: Message)
    ensures BuildKey(a) == BuildKey(b) <==>
            HasBusinessId(a) == HasBusinessId(b) && if HasBusinessId(a) then a.bizId == b.bizId else a.id == b.id
  {
    KeyTail(a);
    KeyTail(b);
  }
}

/** The key store and the consumer around it. */
module IdempotentConsumers {
  import opened IdempotencyModel

  class InMemoryMessageIdempotencyStore {
    var store: map<string, real>

    constructor ()
      ensures store == map[]
    {
      store := map[];
    }

    /** Takes the key unless it is taken; keys whose retention is over are dropped first. */
    method TryConsume(key: string, ttl: real, now: real) returns (taken: bool)
      modifies this
      ensures taken <==> key !in old(store) || old(store)[key] <= now
      ensures store == if taken then Pruned(old(store), now)[key := now + ttl] else Pruned(old(store), now)
    {
      var expired := set k | k in store && store[k] <= now;
      while expired != {}
        invariant expired <= store.Keys
        invariant forall k | k in expired :: store[k] <= now
        invariant Pruned(store, now) == Pruned(old(store), now)
        invariant forall k | k in store && k !in expired :: store[k] > now
      {
        var k :| k in expired;
        store := store - {k};
        expired := expired - {k};
      }
      assert store == Pruned(old(store), now);
      if key in store {
        return false;
      }
      store := store[key := now + ttl];
      return true;
    }

    method Release(key: string)
      modifies this
      ensures store == old(store) - {key}
    {
      store := store - {key};
    }
  }

  class IdempotentConsumer {
    const store: InMemoryMessageIdempotencyStore
    const ttl: real
    /** The runs in progress and those that succeeded, for the record only. */
    ghost var now: real
    ghost var running: map<nat, Run>
    ghost var succeeded: seq<Run>
    var next: nat

    ghost function View(): State
      reads this, store
    {
      State(store.store, now, running, succeeded, next)
    }

    constructor (store: InMemoryMessageIdempotencyStore, retainDays: int)
      ensures this.store == store && ttl == (retainDays * 86400) as real
      ensures View() == State(store.store, 0.0, map[], [], 0)
    {
      this.store := store;
      ttl := (retainDays * 86400) as real;
      now, running, succeeded, next := 0.0, map[], [], 0;
    }

    /** The part of a consumption up to the handler: false for a duplicate, otherwise a run begins. */
    method Begin(m: Message, at: real) returns (first: bool, run: nat)
      modifies this, store
      ensures View() == Delivered(ttl, old(View()), at, BuildKey(m))
      ensures run == old(next)
      ensures first <==> run in View().running && next == run + 1
    {
      run := next;
      var key := BuildKey(m);
      first := store.TryConsume(key, ttl, at);
      now := at;
      if first {
        running := running[run := Run(key, at)];
        next := next + 1;
      }
    }

    /** The part after the handler: a failed run gives its key back, a cancelled one does not. */
    method Complete(m: Message, run: nat, at: real, ending: Ending)
      requires run in View().running && View().running[run].key == BuildKey(m)
      modifies this, store
      ensures View() == Ended(old(View()), at, run, ending)
    {
      now := at;
      if ending == Succeeded {
        succeeded := succeeded + [running[run]];
      } else if ending == Failed {
        store.Release(BuildKey(m));
      }
      running := running - {run};
    }
  }
}
