/** When the balancer serves one host twice in a row. Its header promises that it does not within a cycle. */
module RoundRobinRepeats {
  import opened Sums
  import opened WeightedRoundRobin

  // ---- the picks in whole numbers ----

  /** A run from a reset whose shares are whole numbers of units, so that `p` calls make one cycle. */
  ghost predicate CycleRun(fleet: seq<ServiceInstance>, states: seq<State>, lists: seq<seq<ServiceInstance>>,
                           picks: seq<string>, unit: real, parts: map<string, nat>, p: nat) {
    FleetRun(fleet, states, lists, picks) && WholeParts(SharesOf(fleet), unit, parts) && Times(p, unit) == Total(fleet)
  }

  lemma PrefixIsRun(fleet: seq<ServiceInstance>, states: seq<State>, lists: seq<seq<ServiceInstance>>,
                    picks: seq<string>, n: nat)
    requires FleetRun(fleet, states, lists, picks) && n <= |lists|
    ensures FleetRun(fleet, states[..n + 1], lists[..n], picks[..n])
  {
    forall k {:trigger lists[..n][k]} | 0 <= k < n
      ensures ServedHost(states[..n + 1][k], lists[..n][k], picks[..n][k], states[..n + 1][k + 1])
    {
      assert lists[..n][k] == lists[k];
    }
  }

  lemma {:induction false} CountPrefix(h: string, picks: seq<string>, n: nat, k: nat)
    requires k <= n <= |picks|
    ensures CountTo(h, picks[..n], k) == CountTo(h, picks, k)
  {
    if k > 0 {
      CountPrefix(h, picks, n, k - 1);
    }
  }

  /** The weight of a host before call `n`. */
  lemma BalanceAt(fleet: seq<ServiceInstance>, states: seq<State>, lists: seq<seq<ServiceInstance>>,
                  picks: seq<string>, n: nat, h: string)
    requires FleetRun(fleet, states, lists, picks) && n < |lists| && h in Hosts(fleet)
    ensures h in Reset(states[n], fleet).current && h in SharesOf(fleet).of
    ensures Reset(states[n], fleet).current[h]
         == Times(n, WeightOf(h, fleet)) - Times(CountTo(h, picks, n), Total(fleet))
  {
    RunStep(fleet, states, lists, picks, n);
    if n > 0 {
      PrefixIsRun(fleet, states, lists, picks, n);
      DeviationBound(fleet, states[..n + 1], lists[..n], picks[..n], h);
      CountPrefix(h, picks, n, n);
      RunStep(fleet, states, lists, picks, n - 1);
    }
  }

  /** What host `o` is owed when call `n` is made, in units: its share of all calls up to this one, less a whole cycle
      for each time it was served. */
  function Owed(parts: map<string, nat>, p: nat, picks: seq<string>, o: string, n: nat): int
    requires n <= |picks| && o in parts
  {
    (n + 1) * parts[o] - CountTo(o, picks, n) * p
  }

  function Product(a: nat, b: nat): nat {
    a * b
  }

  lemma RaisedWeight(n: nat, a: nat, unit: real)
    ensures Times(n, Times(a, unit)) + Times(a, unit) == Times(Product(n + 1, a), unit)
  {
    TimesNested(a, n + 1, unit);
    assert a * (n + 1) == Product(n + 1, a);
  }

  lemma SmallerFactors(a: real, b: real, c: real, d: real, unit: real)
    requires unit > 0.0 && a * unit + b * unit <= c * unit + d * unit
    ensures a + b <= c + d
  {
  }

  lemma FewerTogether(x: nat, x': nat, y: nat, y': nat, unit: real)
    requires unit > 0.0 && Times(x, unit) + Times(x', unit) <= Times(y, unit) + Times(y', unit)
    ensures x + x' <= y + y'
  {
    TimesIsProduct(x, unit);
    TimesIsProduct(x', unit);
    TimesIsProduct(y, unit);
    TimesIsProduct(y', unit);
    SmallerFactors(x as real, x' as real, y as real, y' as real, unit);
  }

  /** Raised weights compare as what the hosts are owed. */
  lemma OwedByWeights(n: nat, a: nat, b: nat, ca: nat, cb: nat, p: nat, unit: real)
    requires unit > 0.0
    requires Times(n, Times(a, unit)) - Times(ca, Times(p, unit)) + Times(a, unit)
             <= Times(n, Times(b, unit)) - Times(cb, Times(p, unit)) + Times(b, unit)
    ensures (n + 1) * a - ca * p <= (n + 1) * b - cb * p
  {
    RaisedWeight(n, a, unit);
    RaisedWeight(n, b, unit);
    TimesNested(p, ca, unit);
    TimesNested(p, cb, unit);
    FewerTogether(Product(n + 1, a), Product(cb, p), Product(n + 1, b), Product(ca, p), unit);
  }

  /** Every call serves a host that is owed most. */
  lemma MostOwedIsServed(fleet: seq<ServiceInstance>, states: seq<State>, lists: seq<seq<ServiceInstance>>,
                         picks: seq<string>, unit: real, parts: map<string, nat>, p: nat, n: nat, o: string)
    requires CycleRun(fleet, states, lists, picks, unit, parts, p) && n < |lists| && o in Hosts(fleet)
    ensures picks[n] in Hosts(fleet) && picks[n] in parts && o in parts
    ensures Owed(parts, p, picks, o, n) <= Owed(parts, p, picks, picks[n], n)
  {
    RunStep(fleet, states, lists, picks, n);
    var h := picks[n];
    assert h in SharesOf(fleet).of && o in SharesOf(fleet).of;
    BalanceAt(fleet, states, lists, picks, n, o);
    BalanceAt(fleet, states, lists, picks, n, h);
    OwedByWeights(n, parts[o], parts[h], CountTo(o, picks, n), CountTo(h, picks, n), p, unit);
  }

  // ---- more than half of the cycle ----

  predicate TwiceAt(picks: seq<string>, h: string, k: nat) {
    k + 1 < |picks| && picks[k] == h && picks[k + 1] == h
  }

  /** `h` is served twice in a row by calls from `start` on and before `end`. */
  ghost predicate TwiceInARow(picks: seq<string>, h: string, start: nat, end: nat) {
    exists k: nat :: start <= k && k + 1 < end && TwiceAt(picks, h, k)
  }

  /** Without two picks in a row at most every second one, the first included, is `h`. */
  lemma {:induction false} AtMostHalf(picks: seq<string>, h: string, start: nat, n: nat)
    requires start <= n <= |picks| && !TwiceInARow(picks, h, start, n)
    ensures 2 * (CountTo(h, picks, n) - CountTo(h, picks, start))
         <= n - start + (if n > start && picks[n - 1] == h then 1 else 0)
  {
    if n > start {
      AtMostHalf(picks, h, start, n - 1);
      if n > start + 1 {
        assert !TwiceAt(picks, h, n - 2);
      }
    }
  }

  /** After `c` cycles each host has been served `c` times its parts. */
  lemma CountAtCycle(fleet: seq<ServiceInstance>, states: seq<State>, lists: seq<seq<ServiceInstance>>,
                     picks: seq<string>, unit: real, parts: map<string, nat>, p: nat, c: nat, h: string)
    requires CycleRun(fleet, states, lists, picks, unit, parts, p) && c * p <= |lists| && h in Hosts(fleet)
    ensures h in parts && CountTo(h, picks, c * p) == c * parts[h]
  {
    assert h in SharesOf(fleet).of;
    if c > 0 {
      var n := c * p;
      PrefixIsRun(fleet, states, lists, picks, n);
      TimesNested(p, c, unit);
      ExactFairness(fleet, states[..n + 1], lists[..n], picks[..n], unit, parts, c);
      CountPrefix(h, picks, n, n);
    }
  }

  /** A host with more than half of a cycle, by more than half a call, is served twice in a row inside every cycle. */
  lemma HeavyTwiceInEveryCycle(fleet: seq<ServiceInstance>, states: seq<State>, lists: seq<seq<ServiceInstance>>,
                               picks: seq<string>, unit: real, parts: map<string, nat>, p: nat, c: nat, h: string)
    requires CycleRun(fleet, states, lists, picks, unit, parts, p) && (c + 1) * p <= |lists|
    requires h in Hosts(fleet) && h in parts && 2 * parts[h] > p + 1
    ensures TwiceInARow(picks, h, c * p, (c + 1) * p)
  {
    assert c * p + p == (c + 1) * p;
    CountAtCycle(fleet, states, lists, picks, unit, parts, p, c, h);
    CountAtCycle(fleet, states, lists, picks, unit, parts, p, c + 1, h);
    assert (c + 1) * parts[h] == c * parts[h] + parts[h];
    if !TwiceInARow(picks, h, c * p, (c + 1) * p) {
      AtMostHalf(picks, h, c * p, (c + 1) * p);
    }
  }

  // ---- only the heaviest ----

  /** How much higher the weight of `o` is than that of `h` before call `n`. */
  ghost function Gap(fleet: seq<ServiceInstance>, states: seq<State>, h: string, o: string, n: nat): real
    requires n < |states|
  {
    var current := Reset(states[n], fleet).current;
    (if o in current then current[o] else 0.0) - (if h in current then current[h] else 0.0)
  }

  /** One call moves the gap by the difference of the weights, and by a whole cycle if it serves one of the two. */
  lemma GapStep(fleet: seq<ServiceInstance>, states: seq<State>, lists: seq<seq<ServiceInstance>>,
                picks: seq<string>, h: string, o: string, n: nat)
    requires FleetRun(fleet, states, lists, picks) && n < |lists| && {h, o} <= Hosts(fleet) && h != o
    ensures Gap(fleet, states, h, o, n + 1)
         == Gap(fleet, states, h, o, n) + WeightOf(o, fleet) - WeightOf(h, fleet)
            + (if picks[n] == h then Total(fleet) else if picks[n] == o then -Total(fleet) else 0.0)
    ensures picks[n] == o ==> Gap(fleet, states, h, o, n) + WeightOf(o, fleet) - WeightOf(h, fleet) >= 0.0
    ensures picks[n] == h ==> Gap(fleet, states, h, o, n) + WeightOf(o, fleet) - WeightOf(h, fleet) <= 0.0
  {
    RunStep(fleet, states, lists, picks, n);
    assert h in SharesOf(fleet).of && o in SharesOf(fleet).of;
  }

  /** A heavier host is never more than a whole cycle below a lighter one. */
  lemma {:induction false} GapBound(fleet: seq<ServiceInstance>, states: seq<State>, lists: seq<seq<ServiceInstance>>,
                                    picks: seq<string>, h: string, o: string, n: nat)
    requires FleetRun(fleet, states, lists, picks) && n <= |lists| && {h, o} <= Hosts(fleet) && h != o
    requires WeightOf(o, fleet) >= WeightOf(h, fleet)
    ensures Gap(fleet, states, h, o, n) >= -Total(fleet)
  {
    FleetIsProper(fleet);
    if n > 0 {
      GapBound(fleet, states, lists, picks, h, o, n - 1);
      GapStep(fleet, states, lists, picks, h, o, n - 1);
    }
  }

  /** Only a heaviest host is ever served twice in a row, in any run from a reset and any list order. */
  lemma OnlyHeaviestTwice(fleet: seq<ServiceInstance>, states: seq<State>, lists: seq<seq<ServiceInstance>>,
                          picks: seq<string>, h: string, k: nat, o: string)
    requires FleetRun(fleet, states, lists, picks) && TwiceAt(picks, h, k) && {h, o} <= Hosts(fleet)
    ensures WeightOf(o, fleet) <= WeightOf(h, fleet)
  {
    if WeightOf(o, fleet) > WeightOf(h, fleet) {
      GapBound(fleet, states, lists, picks, h, o, k);
      GapStep(fleet, states, lists, picks, h, o, k);
      GapStep(fleet, states, lists, picks, h, o, k + 1);
    }
  }

  /** So it has more than the average share, unless all hosts have equal ones. */
  lemma TwiceIsAboveAverage(fleet: seq<ServiceInstance>, states: seq<State>, lists: seq<seq<ServiceInstance>>,
                            picks: seq<string>, h: string, k: nat)
    requires FleetRun(fleet, states, lists, picks) && TwiceAt(picks, h, k) && h in Hosts(fleet)
    ensures Times(|Hosts(fleet)|, WeightOf(h, fleet)) > Total(fleet)
         || forall o | o in Hosts(fleet) :: WeightOf(o, fleet) == WeightOf(h, fleet)
  {
    var sh := SharesOf(fleet);
    FleetIsProper(fleet);
    assert sh.of.Keys == Hosts(fleet);
    forall o | o in Hosts(fleet) ensures Level(sh.of)(o) == WeightOf(o, fleet) <= WeightOf(h, fleet) {
      OnlyHeaviestTwice(fleet, states, lists, picks, h, k, o);
    }
    SumAtMost(Hosts(fleet), Level(sh.of), WeightOf(h, fleet));
  }

  // ---- two hosts ----

  /** How far `h` with `a` of the `p` calls of a cycle is behind its share after `n` calls, in units. */
  function Arrears(picks: seq<string>, h: string, a: nat, p: nat, n: nat): int
    requires n <= |picks|
  {
    n * a - CountTo(h, picks, n) * p
  }

  lemma ArrearsStep(picks: seq<string>, h: string, a: nat, p: nat, n: nat)
    requires n < |picks|
    ensures Arrears(picks, h, a, p, n + 1) == Arrears(picks, h, a, p, n) + a - (if picks[n] == h then p else 0)
  {
    assert (n + 1) * a == n * a + a;
    if picks[n] == h {
      assert (CountTo(h, picks, n) + 1) * p == CountTo(h, picks, n) * p + p;
    }
  }

  /** Against one other host, `h` is served only if it is owed at least as much, and otherwise at most as much. */
  predicate DuelAt(picks: seq<string>, h: string, a: nat, p: nat, n: nat)
    requires n < |picks|
  {
    if picks[n] == h then 2 * Arrears(picks, h, a, p, n) >= p - 2 * a else 2 * Arrears(picks, h, a, p, n) <= p - 2 * a
  }

  ghost predicate Duel(picks: seq<string>, h: string, a: nat, p: nat) {
    a <= p && forall n | 0 <= n < |picks| :: DuelAt(picks, h, a, p, n)
  }

  lemma {:induction false} ArrearsBound(picks: seq<string>, h: string, a: nat, p: nat, n: nat)
    requires Duel(picks, h, a, p) && n <= |picks|
    ensures -(p as int) <= 2 * Arrears(picks, h, a, p, n) <= p
  {
    if n > 0 {
      ArrearsBound(picks, h, a, p, n - 1);
      assert DuelAt(picks, h, a, p, n - 1);
      ArrearsStep(picks, h, a, p, n - 1);
    }
  }

  /** Served twice in a row, `h` has at least half of a cycle, and with half a call more at most it is level in
      between. */
  lemma TwiceIsLevel(picks: seq<string>, h: string, a: nat, p: nat, k: nat)
    requires Duel(picks, h, a, p) && TwiceAt(picks, h, k) && 2 * a <= p + 1
    ensures 2 * a >= p && Arrears(picks, h, a, p, k + 1) == 0
  {
    ArrearsBound(picks, h, a, p, k);
    assert DuelAt(picks, h, a, p, k) && DuelAt(picks, h, a, p, k + 1);
    ArrearsStep(picks, h, a, p, k);
  }

  lemma Ordered(p: nat, x: int, y: int)
    ensures x <= y ==> p * x <= p * y
  {
  }

  /** With half a call more than half of a cycle, `h` is level only where a cycle ends. */
  lemma LevelAtCycleEnd(n: nat, a: nat, p: nat, count: nat, c: nat)
    requires 2 * a == p + 1 && n * a == count * p && c * p < n
    ensures (c + 1) * p <= n
  {
    var whole := 2 * count - n;
    assert n == p * whole by {
      assert 2 * (n * a) == n * (p + 1);
    }
    Ordered(p, whole, c);
    Ordered(p, c + 1, whole);
  }

  /** Every list of the run has its active instances in one order. */
  ghost predicate OneOrder(lists: seq<seq<ServiceInstance>>, order: seq<ServiceInstance>) {
    forall list | list in lists :: Actives(list) == order
  }

  lemma {:induction false} CountsAddUp(picks: seq<string>, h: string, o: string, n: nat)
    requires n <= |picks| && h != o && forall k | 0 <= k < n :: picks[k] in {h, o}
    ensures CountTo(h, picks, n) + CountTo(o, picks, n) == n
  {
    if n > 0 {
      CountsAddUp(picks, h, o, n - 1);
    }
  }

  /** The calls of a cycle are shared out between the two hosts. */
  lemma PartsAddUp(fleet: seq<ServiceInstance>, states: seq<State>, lists: seq<seq<ServiceInstance>>,
                   picks: seq<string>, unit: real, parts: map<string, nat>, p: nat, h: string, o: string)
    requires CycleRun(fleet, states, lists, picks, unit, parts, p) && p <= |lists|
    requires h != o && Hosts(fleet) == {h, o}
    ensures h in parts && o in parts && parts[h] + parts[o] == p
  {
    CountAtCycle(fleet, states, lists, picks, unit, parts, p, 1, h);
    CountAtCycle(fleet, states, lists, picks, unit, parts, p, 1, o);
    forall k | 0 <= k < p ensures picks[k] in {h, o} {
      MostOwedIsServed(fleet, states, lists, picks, unit, parts, p, k, h);
    }
    CountsAddUp(picks, h, o, p);
  }

  lemma Distributes(n: nat, a: nat, b: nat)
    ensures n * (a + b) == n * a + n * b
  {
  }

  lemma SharedOut(n: nat, a: nat, b: nat, x: nat, y: nat)
    requires x + y == n
    ensures (n + 1) * a == n * a + a
    ensures (n + 1) * b - y * (a + b) == b - (n * a - x * (a + b))
  {
    Distributes(n + 1, a, b);
    Distributes(a + b, x, y);
  }

  lemma OwedAsArrears(parts: map<string, nat>, p: nat, picks: seq<string>, h: string, o: string, n: nat)
    requires n <= |picks| && h in parts && o in parts && parts[h] + parts[o] == p
    requires CountTo(h, picks, n) + CountTo(o, picks, n) == n
    ensures Owed(parts, p, picks, h, n) == Arrears(picks, h, parts[h], p, n) + parts[h]
    ensures Owed(parts, p, picks, o, n) == p - parts[h] - Arrears(picks, h, parts[h], p, n)
  {
    SharedOut(n, parts[h], parts[o], CountTo(h, picks, n), CountTo(o, picks, n));
  }

  lemma IsDuel(fleet: seq<ServiceInstance>, states: seq<State>, lists: seq<seq<ServiceInstance>>,
               picks: seq<string>, unit: real, parts: map<string, nat>, p: nat, h: string, o: string)
    requires CycleRun(fleet, states, lists, picks, unit, parts, p) && p <= |lists|
    requires h != o && Hosts(fleet) == {h, o}
    ensures h in parts && Duel(picks, h, parts[h], p)
  {
    PartsAddUp(fleet, states, lists, picks, unit, parts, p, h, o);
    forall n | 0 <= n < |picks| ensures picks[n] in {h, o} {
      MostOwedIsServed(fleet, states, lists, picks, unit, parts, p, n, h);
    }
    forall n | 0 <= n < |picks| ensures DuelAt(picks, h, parts[h], p, n) {
      MostOwedIsServed(fleet, states, lists, picks, unit, parts, p, n, h);
      MostOwedIsServed(fleet, states, lists, picks, unit, parts, p, n, o);
      CountsAddUp(picks, h, o, n);
      OwedAsArrears(parts, p, picks, h, o, n);
    }
  }

  /** Equal current weights and equal shares. */
  ghost predicate EqualHosts(fleet: seq<ServiceInstance>, s: State, h: string, o: string) {
    && h in s.current && o in s.current && s.current[h] == s.current[o]
    && WeightOf(h, fleet) == WeightOf(o, fleet)
  }

  lemma ServedIndex(fleet: seq<ServiceInstance>, states: seq<State>, lists: seq<seq<ServiceInstance>>,
                    picks: seq<string>, n: nat) returns (b: nat)
    requires FleetRun(fleet, states, lists, picks) && n < |lists|
    ensures Served(states[n], Actives(lists[n]), b, states[n + 1]) && Actives(lists[n])[b].host == picks[n]
    ensures Reset(states[n], Actives(lists[n])).current.Keys == Hosts(fleet)
    ensures Reset(states[n], Actives(lists[n])) == Reset(states[n], fleet)
  {
    assert lists[n] in lists;
    SameTotals(lists[n], fleet);
    var x :| ServedInstance(states[n], lists[n], x, states[n + 1]) && x.host == picks[n];
    b :| Served(states[n], Actives(lists[n]), b, states[n + 1]) && Actives(lists[n])[b] == x;
  }

  /** When all are level and have equal shares, the first instance of the list is served. */
  lemma FirstOfEquals(fleet: seq<ServiceInstance>, s: State, order: seq<ServiceInstance>, b: nat)
    requires Hosts(order) == Hosts(fleet) == Raised(s.current, fleet).Keys
    requires IsFirstLargest(Raised(s.current, fleet), order, b)
    requires forall h, o | h in Hosts(fleet) && o in Hosts(fleet) :: EqualHosts(fleet, s, h, o)
    ensures b == 0
  {
    assert EqualHosts(fleet, s, HostAt(order, 0), HostAt(order, b));
    assert Raised(s.current, fleet)[HostAt(order, 0)] == Raised(s.current, fleet)[HostAt(order, b)];
  }

  lemma LevelServesFirst(fleet: seq<ServiceInstance>, states: seq<State>, lists: seq<seq<ServiceInstance>>,
                         picks: seq<string>, n: nat)
    requires FleetRun(fleet, states, lists, picks) && n < |lists|
    requires forall h, o | h in Hosts(fleet) && o in Hosts(fleet) :: EqualHosts(fleet, Reset(states[n], fleet), h, o)
    ensures Actives(lists[n]) != [] && picks[n] == Actives(lists[n])[0].host
  {
    var b := ServedIsFirst(fleet, states, lists, picks, n);
    FirstOfEquals(fleet, Reset(states[n], fleet), Actives(lists[n]), b);
  }

  lemma LevelIsZero(n: nat, a: nat, count: nat, p: nat, unit: real)
    requires n * a == count * p
    ensures Times(n, Times(a, unit)) - Times(count, Times(p, unit)) == 0.0
  {
    TimesNested(a, n, unit);
    TimesNested(p, count, unit);
  }

  /** With equal shares, whichever of two hosts is served when they are level is the first of the list. */
  lemma EqualsServeFirst(fleet: seq<ServiceInstance>, states: seq<State>, lists: seq<seq<ServiceInstance>>,
                         picks: seq<string>, unit: real, parts: map<string, nat>, p: nat, h: string, o: string, n: nat)
    requires CycleRun(fleet, states, lists, picks, unit, parts, p) && p <= |lists|
    requires h != o && Hosts(fleet) == {h, o} && h in parts && 2 * parts[h] == p
    requires n < |lists| && Arrears(picks, h, parts[h], p, n) == 0
    ensures Actives(lists[n]) != [] && picks[n] == Actives(lists[n])[0].host
  {
    PartsAddUp(fleet, states, lists, picks, unit, parts, p, h, o);
    forall k | 0 <= k < n ensures picks[k] in {h, o} {
      MostOwedIsServed(fleet, states, lists, picks, unit, parts, p, k, h);
    }
    CountsAddUp(picks, h, o, n);
    OwedAsArrears(parts, p, picks, h, o, n);
    assert (n + 1) * parts[o] == n * parts[o] + parts[o];
    BalanceAt(fleet, states, lists, picks, n, h);
    BalanceAt(fleet, states, lists, picks, n, o);
    assert h in SharesOf(fleet).of && o in SharesOf(fleet).of;
    LevelIsZero(n, parts[h], CountTo(h, picks, n), p, unit);
    LevelIsZero(n, parts[o], CountTo(o, picks, n), p, unit);
    LevelServesFirst(fleet, states, lists, picks, n);
  }

  lemma FirstOfOrder(fleet: seq<ServiceInstance>, states: seq<State>, lists: seq<seq<ServiceInstance>>,
                     picks: seq<string>, unit: real, parts: map<string, nat>, p: nat, h: string, o: string, n: nat,
                     order: seq<ServiceInstance>)
    requires CycleRun(fleet, states, lists, picks, unit, parts, p) && p <= |lists| && OneOrder(lists, order)
    requires h != o && Hosts(fleet) == {h, o} && h in parts && 2 * parts[h] == p
    requires n < |lists| && Arrears(picks, h, parts[h], p, n) == 0
    ensures order != [] && picks[n] == order[0].host
  {
    EqualsServeFirst(fleet, states, lists, picks, unit, parts, p, h, o, n);
    assert lists[n] in lists;
  }

  lemma EqualsNeverTwice(fleet: seq<ServiceInstance>, states: seq<State>, lists: seq<seq<ServiceInstance>>,
                         picks: seq<string>, unit: real, parts: map<string, nat>, p: nat, h: string, o: string, k: nat,
                         order: seq<ServiceInstance>)
    requires CycleRun(fleet, states, lists, picks, unit, parts, p) && 0 < p <= |lists| && OneOrder(lists, order)
    requires h != o && Hosts(fleet) == {h, o} && h in parts && 2 * parts[h] == p && k + 1 < |picks|
    ensures !TwiceAt(picks, h, k)
  {
    if TwiceAt(picks, h, k) {
      IsDuel(fleet, states, lists, picks, unit, parts, p, h, o);
      TwiceIsLevel(picks, h, parts[h], p, k);
      ArrearsStep(picks, h, parts[h], p, k);
      if k > 0 {
        ArrearsStep(picks, h, parts[h], p, k - 1);
        ArrearsBound(picks, h, parts[h], p, k - 1);
        FirstOfOrder(fleet, states, lists, picks, unit, parts, p, h, o, k - 1, order);
        FirstOfOrder(fleet, states, lists, picks, unit, parts, p, h, o, k + 1, order);
      }
    }
  }

  lemma LevelIsEven(picks: seq<string>, h: string, n: nat)
    requires n <= |picks|
    ensures Arrears(picks, h, 1, 2, n) == 0 ==> n % 2 == 0
  {
  }

  lemma OtherHost(hosts: set<string>, h: string) returns (o: string)
    requires |hosts| == 2 && h in hosts
    ensures o != h && hosts == {h, o}
  {
    var rest := hosts - {h};
    assert |rest| == 1;
    o :| o in rest;
    assert |rest - {o}| == 0;
    assert hosts == {h, o};
  }

  lemma LightNotTwice(fleet: seq<ServiceInstance>, states: seq<State>, lists: seq<seq<ServiceInstance>>,
                      picks: seq<string>, unit: real, parts: map<string, nat>, p: nat, c: nat, h: string,
                      order: seq<ServiceInstance>, k: nat)
    requires CycleRun(fleet, states, lists, picks, unit, parts, p) && (c + 1) * p <= |lists|
    requires |Hosts(fleet)| == 2 && h in Hosts(fleet) && h in parts && 2 * parts[h] <= p + 1
    requires 2 * parts[h] == p && p > 2 ==> OneOrder(lists, order)
    requires c * p <= k && k + 1 < (c + 1) * p
    ensures !TwiceAt(picks, h, k)
  {
    var o := OtherHost(Hosts(fleet), h);
    assert (c + 1) * p == c * p + p;
    LevelIsEven(picks, h, k + 1);
    if TwiceAt(picks, h, k) {
      IsDuel(fleet, states, lists, picks, unit, parts, p, h, o);
      TwiceIsLevel(picks, h, parts[h], p, k);
      if p == 2 {
        assert false;
      } else if 2 * parts[h] == p {
        EqualsNeverTwice(fleet, states, lists, picks, unit, parts, p, h, o, k, order);
      } else {
        LevelAtCycleEnd(k + 1, parts[h], p, CountTo(h, picks, k + 1), c);
      }
    }
  }

  /** Of two hosts, one is served twice in a row inside a cycle exactly when it has more than half of the cycle by
      more than half a call. Hosts with equal parts of more than one can be served so only if the list changes its
      order. */
  lemma TwoHostsTwiceIff(fleet: seq<ServiceInstance>, states: seq<State>, lists: seq<seq<ServiceInstance>>,
                         picks: seq<string>, unit: real, parts: map<string, nat>, p: nat, c: nat, h: string,
                         order: seq<ServiceInstance>)
    requires CycleRun(fleet, states, lists, picks, unit, parts, p) && (c + 1) * p <= |lists|
    requires |Hosts(fleet)| == 2 && h in Hosts(fleet) && h in parts
    requires 2 * parts[h] == p && p > 2 ==> OneOrder(lists, order)
    ensures TwiceInARow(picks, h, c * p, (c + 1) * p) <==> 2 * parts[h] > p + 1
  {
    if 2 * parts[h] > p + 1 {
      HeavyTwiceInEveryCycle(fleet, states, lists, picks, unit, parts, p, c, h);
    } else {
      forall k: nat | c * p <= k && k + 1 < (c + 1) * p ensures !TwiceAt(picks, h, k) {
        LightNotTwice(fleet, states, lists, picks, unit, parts, p, c, h, order, k);
      }
    }
  }

  // ---- the first two calls ----

  /** No instance of `h` among the first `k + 1` of the list. */
  ghost predicate NotYet(actives: seq<ServiceInstance>, h: string, k: nat)
    requires k < |actives|
  {
    forall j | 0 <= j <= k :: HostAt(actives, j) != h
  }

  /** After paying the total once, twice the weight of `h` is still at least twice that of the `k`-th instance's host,
      and more if that is listed before `h`. */
  ghost predicate AheadOf(fleet: seq<ServiceInstance>, actives: seq<ServiceInstance>, h: string, k: nat)
    requires k < |actives|
  {
    var ahead := 2.0 * WeightOf(h, fleet) - Total(fleet) - 2.0 * WeightOf(HostAt(actives, k), fleet);
    HostAt(actives, k) != h ==> if NotYet(actives, h, k) then ahead > 0.0 else ahead >= 0.0
  }

  ghost predicate AheadTwice(fleet: seq<ServiceInstance>, actives: seq<ServiceInstance>, h: string) {
    forall k: nat | k < |actives| :: AheadOf(fleet, actives, h, k)
  }

  /** The first call serves a heaviest host. */
  lemma FirstIsHeaviest(fleet: seq<ServiceInstance>, states: seq<State>, lists: seq<seq<ServiceInstance>>,
                        picks: seq<string>, h: string)
    requires FleetRun(fleet, states, lists, picks) && |lists| >= 1 && h in Hosts(fleet)
    ensures picks[0] in Hosts(fleet) && WeightOf(h, fleet) <= WeightOf(picks[0], fleet)
  {
    RunStep(fleet, states, lists, picks, 0);
    assert picks[0] in SharesOf(fleet).of && h in SharesOf(fleet).of;
    BalanceAt(fleet, states, lists, picks, 0, h);
    BalanceAt(fleet, states, lists, picks, 0, picks[0]);
  }

  lemma IndexOfHost(actives: seq<ServiceInstance>, h: string) returns (k: nat)
    requires h in Hosts(actives)
    ensures k < |actives| && HostAt(actives, k) == h
  {
    var i :| i in actives && i.host == h;
    k :| 0 <= k < |actives| && actives[k] == i;
  }

  lemma AheadIsFirst(fleet: seq<ServiceInstance>, states: seq<State>, lists: seq<seq<ServiceInstance>>,
                     picks: seq<string>, h: string)
    requires FleetRun(fleet, states, lists, picks) && |lists| >= 2 && h in Hosts(fleet)
    requires AheadTwice(fleet, Actives(lists[1]), h)
    ensures picks[0] == h
  {
    FirstIsHeaviest(fleet, states, lists, picks, h);
    TotalPositive(fleet, |fleet|);
    assert lists[1] in lists;
    SameTotals(lists[1], fleet);
    var k := IndexOfHost(Actives(lists[1]), picks[0]);
    assert AheadOf(fleet, Actives(lists[1]), h, k);
  }

  lemma ServedFirstLargest(s: State, actives: seq<ServiceInstance>, b: nat, s': State)
    requires Served(s, actives, b, s')
    ensures Hosts(actives) == Raised(Reset(s, actives).current, actives).Keys
    ensures IsFirstLargest(Raised(Reset(s, actives).current, actives), actives, b)
  {
  }

  lemma RaisedAlike(current: map<string, real>, list: seq<ServiceInstance>, fleet: seq<ServiceInstance>)
    requires SameFleet(list, fleet)
    ensures Raised(current, Actives(list)) == Raised(current, fleet)
  {
  }

  lemma ServedIsFirst(fleet: seq<ServiceInstance>, states: seq<State>, lists: seq<seq<ServiceInstance>>,
                      picks: seq<string>, n: nat) returns (b: nat)
    requires FleetRun(fleet, states, lists, picks) && n < |lists|
    ensures Hosts(Actives(lists[n])) == Hosts(fleet) == Raised(Reset(states[n], fleet).current, fleet).Keys
    ensures IsFirstLargest(Raised(Reset(states[n], fleet).current, fleet), Actives(lists[n]), b)
    ensures HostAt(Actives(lists[n]), b) == picks[n]
  {
    b := ServedIndex(fleet, states, lists, picks, n);
    assert lists[n] in lists;
    SameTotals(lists[n], fleet);
    ServedFirstLargest(states[n], Actives(lists[n]), b, states[n + 1]);
    RaisedAlike(Reset(states[n], fleet).current, lists[n], fleet);
  }

  /** The raised weights of the second call, after a first one that served `h`. */
  ghost predicate RaisedOnce(fleet: seq<ServiceInstance>, raised: map<string, real>, h: string, x: string) {
    x in raised && raised[x] == 2.0 * WeightOf(x, fleet) - (if x == h then Total(fleet) else 0.0)
  }

  lemma RaisedAfterOne(fleet: seq<ServiceInstance>, states: seq<State>, lists: seq<seq<ServiceInstance>>,
                       picks: seq<string>, h: string, x: string)
    requires FleetRun(fleet, states, lists, picks) && |lists| >= 2 && picks[0] == h && x in Hosts(fleet)
    ensures RaisedOnce(fleet, Raised(Reset(states[1], fleet).current, fleet), h, x)
  {
    BalanceAt(fleet, states, lists, picks, 1, x);
    assert CountTo(x, picks, 1) == if x == h then 1 else 0;
  }

  /** `h` has at least as much as the host of the `k`-th instance, and more if that is listed before `h`. */
  ghost predicate BeatsAt(raised: map<string, real>, actives: seq<ServiceInstance>, h: string, k: nat)
    requires Hosts(actives) <= raised.Keys && h in raised && k < |actives|
  {
    HostAt(actives, k) != h ==>
      if NotYet(actives, h, k) then raised[h] > raised[HostAt(actives, k)] else raised[h] >= raised[HostAt(actives, k)]
  }

  ghost predicate Beats(raised: map<string, real>, actives: seq<ServiceInstance>, h: string)
    requires Hosts(actives) <= raised.Keys && h in raised
  {
    forall k: nat | k < |actives| :: BeatsAt(raised, actives, h, k)
  }

  /** The first largest instance belongs to `h` exactly when `h` beats the others. */
  lemma FirstLargestIff(raised: map<string, real>, actives: seq<ServiceInstance>, b: nat, h: string)
    requires Hosts(actives) <= raised.Keys && IsFirstLargest(raised, actives, b) && h in Hosts(actives)
    ensures HostAt(actives, b) == h <==> Beats(raised, actives, h)
  {
    if HostAt(actives, b) == h {
      forall k: nat | k < |actives| ensures BeatsAt(raised, actives, h, k) {
        assert NotYet(actives, h, k) ==> k < b;
      }
    } else {
      var j := IndexOfHost(actives, h);
      assert raised[HostAt(actives, j)] <= raised[HostAt(actives, b)];
      if !NotYet(actives, h, b) {
        var i: nat :| i <= b && HostAt(actives, i) == h;
        assert raised[HostAt(actives, i)] < raised[HostAt(actives, b)];
      }
      assert !BeatsAt(raised, actives, h, b);
    }
  }

  lemma AheadIffBeats(fleet: seq<ServiceInstance>, actives: seq<ServiceInstance>, raised: map<string, real>, h: string)
    requires h in Hosts(actives) && Hosts(actives) <= raised.Keys
    requires forall x | x in Hosts(actives) :: RaisedOnce(fleet, raised, h, x)
    ensures AheadTwice(fleet, actives, h) <==> Beats(raised, actives, h)
  {
    forall k: nat | k < |actives| ensures AheadOf(fleet, actives, h, k) <==> BeatsAt(raised, actives, h, k) {
      assert RaisedOnce(fleet, raised, h, HostAt(actives, k)) && RaisedOnce(fleet, raised, h, h);
    }
  }

  lemma SecondCallIff(fleet: seq<ServiceInstance>, states: seq<State>, lists: seq<seq<ServiceInstance>>,
                      picks: seq<string>, h: string)
    requires FleetRun(fleet, states, lists, picks) && |lists| >= 2 && h in Hosts(fleet) && picks[0] == h
    ensures picks[1] == h <==> AheadTwice(fleet, Actives(lists[1]), h)
  {
    var b := ServedIsFirst(fleet, states, lists, picks, 1);
    var actives, raised := Actives(lists[1]), Raised(Reset(states[1], fleet).current, fleet);
    forall x | x in Hosts(actives) ensures RaisedOnce(fleet, raised, h, x) {
      RaisedAfterOne(fleet, states, lists, picks, h, x);
    }
    FirstLargestIff(raised, actives, b, h);
    AheadIffBeats(fleet, actives, raised, h);
  }

  /** The first two calls after a reset both serve `h` exactly under that condition on weights and list order. */
  lemma FirstTwoCallsIff(fleet: seq<ServiceInstance>, states: seq<State>, lists: seq<seq<ServiceInstance>>,
                         picks: seq<string>, h: string)
    requires FleetRun(fleet, states, lists, picks) && |lists| >= 2 && h in Hosts(fleet)
    ensures TwiceAt(picks, h, 0) <==> AheadTwice(fleet, Actives(lists[1]), h)
  {
    if AheadTwice(fleet, Actives(lists[1]), h) {
      AheadIsFirst(fleet, states, lists, picks, h);
    }
    if picks[0] == h {
      SecondCallIff(fleet, states, lists, picks, h);
    }
  }

  // ---- examples ----

  /** The guide's own weights. */
  function FiveToOne(): seq<ServiceInstance> {
    [ServiceInstance("a", 5.0), ServiceInstance("b", 1.0)]
  }

  lemma FiveToOneShares()
    ensures Hosts(FiveToOne()) == {"a", "b"} && Total(FiveToOne()) == 6.0
    ensures WeightOf("a", FiveToOne()) == 5.0 && WeightOf("b", FiveToOne()) == 1.0
  {
    var fleet := FiveToOne();
    assert HostAt(fleet, 0) == "a" && HostAt(fleet, 1) == "b";
    assert WeightTo("a", fleet, 1) == 5.0 && WeightTo("b", fleet, 1) == 0.0;
    assert TotalTo(fleet, 1) == 5.0;
  }

  lemma FiveIsAhead(actives: seq<ServiceInstance>)
    requires Hosts(actives) == {"a", "b"}
    ensures AheadTwice(FiveToOne(), actives, "a")
  {
    FiveToOneShares();
    forall k: nat | k < |actives| ensures AheadOf(FiveToOne(), actives, "a", k) {
      assert HostAt(actives, k) in {"a", "b"};
    }
  }

  /** The guide shows 5 and 1 as weights with which the heavy host is not served twice in a row. The first two calls
      serve it. */
  lemma HeavyHostServedTwice(states: seq<State>, lists: seq<seq<ServiceInstance>>, picks: seq<string>)
    requires |lists| >= 2 && FleetRun(FiveToOne(), states, lists, picks)
    ensures picks[0] == "a" && picks[1] == "a"
  {
    assert lists[1] in lists;
    SameTotals(lists[1], FiveToOne());
    FiveToOneShares();
    FiveIsAhead(Actives(lists[1]));
    FirstTwoCallsIff(FiveToOne(), states, lists, picks, "a");
  }

  function OneTwoTwoFive(): seq<ServiceInstance> {
    [ServiceInstance("a", 1.0), ServiceInstance("b", 2.0), ServiceInstance("c", 2.0), ServiceInstance("d", 5.0)]
  }

  function WeightIn(h: string): real {
    if h == "a" then 1.0 else if h == "b" || h == "c" then 2.0 else if h == "d" then 5.0 else 0.0
  }

  lemma OneTwoTwoFiveShares()
    ensures Hosts(OneTwoTwoFive()) == {"a", "b", "c", "d"} && Total(OneTwoTwoFive()) == 10.0
    ensures WeightOf("a", OneTwoTwoFive()) == 1.0 && WeightOf("b", OneTwoTwoFive()) == 2.0
    ensures WeightOf("c", OneTwoTwoFive()) == 2.0 && WeightOf("d", OneTwoTwoFive()) == 5.0
  {
    var fleet := OneTwoTwoFive();
    assert HostAt(fleet, 0) == "a" && HostAt(fleet, 1) == "b" && HostAt(fleet, 2) == "c" && HostAt(fleet, 3) == "d";
    assert Hosts(fleet) == {"a", "b", "c", "d"};
    forall h ensures WeightOf(h, fleet) == WeightIn(h) {
      assert WeightTo(h, fleet, 1) == if h == "a" then 1.0 else 0.0;
      assert WeightTo(h, fleet, 2) == WeightTo(h, fleet, 1) + (if h == "b" then 2.0 else 0.0);
      assert WeightTo(h, fleet, 3) == WeightTo(h, fleet, 2) + (if h == "c" then 2.0 else 0.0);
    }
    assert TotalTo(fleet, 1) == 1.0 && TotalTo(fleet, 2) == 3.0 && TotalTo(fleet, 3) == 5.0;
  }

  const PARTS: map<string, nat> := map["a" := 1, "b" := 2, "c" := 2, "d" := 5]

  lemma UnitParts()
    ensures WholeParts(SharesOf(OneTwoTwoFive()), 1.0, PARTS) && Times(10, 1.0) == Total(OneTwoTwoFive())
  {
    OneTwoTwoFiveShares();
    TimesIsProduct(10, 1.0);
    TimesIsProduct(5, 1.0);
    TimesIsProduct(2, 1.0);
    TimesIsProduct(1, 1.0);
  }

  /** How often each of the four was served before call `n`. */
  predicate Served4(picks: seq<string>, n: nat, a: nat, b: nat, c: nat, d: nat)
    requires n <= |picks|
  {
    CountTo("a", picks, n) == a && CountTo("b", picks, n) == b && CountTo("c", picks, n) == c
      && CountTo("d", picks, n) == d
  }

  /** The host served next is one that is owed most. */
  lemma NextOfFour(states: seq<State>, lists: seq<seq<ServiceInstance>>, picks: seq<string>, n: nat,
                   a: nat, b: nat, c: nat, d: nat)
    requires FleetRun(OneTwoTwoFive(), states, lists, picks) && n < |lists| && Served4(picks, n, a, b, c, d)
    ensures picks[n] in {"a", "b", "c", "d"}
    ensures var m := n + 1;
            var top := if picks[n] == "a" then m - 10 * a else if picks[n] == "b" then 2 * m - 10 * b
                       else if picks[n] == "c" then 2 * m - 10 * c else 5 * m - 10 * d;
            m - 10 * a <= top && 2 * m - 10 * b <= top && 2 * m - 10 * c <= top && 5 * m - 10 * d <= top
  {
    var fleet := OneTwoTwoFive();
    OneTwoTwoFiveShares();
    UnitParts();
    MostOwedIsServed(fleet, states, lists, picks, 1.0, PARTS, 10, n, "a");
    MostOwedIsServed(fleet, states, lists, picks, 1.0, PARTS, 10, n, "b");
    MostOwedIsServed(fleet, states, lists, picks, 1.0, PARTS, 10, n, "c");
    MostOwedIsServed(fleet, states, lists, picks, 1.0, PARTS, 10, n, "d");
  }

  /** With three hosts or more half of a cycle can be enough: of 1, 2, 2 and 5 the heaviest is served twice in a row
      within its first seven calls, whatever the order of the list. */
  lemma HalfServedTwice(states: seq<State>, lists: seq<seq<ServiceInstance>>, picks: seq<string>)
    requires FleetRun(OneTwoTwoFive(), states, lists, picks) && |lists| >= 10
    ensures CycleRun(OneTwoTwoFive(), states, lists, picks, 1.0, PARTS, 10) && 2 * PARTS["d"] <= 10 + 1
    ensures TwiceInARow(picks, "d", 0, 10)
  {
    UnitParts();
    NextOfFour(states, lists, picks, 0, 0, 0, 0, 0);
    NextOfFour(states, lists, picks, 1, 0, 0, 0, 1);
    if picks[1] == "b" {
      NextOfFour(states, lists, picks, 2, 0, 1, 0, 1);
    } else {
      NextOfFour(states, lists, picks, 2, 0, 0, 1, 1);
    }
    NextOfFour(states, lists, picks, 3, 0, 1, 1, 1);
    NextOfFour(states, lists, picks, 4, 0, 1, 1, 2);
    if picks[4] == "d" {
      assert TwiceAt(picks, "d", 3);
    } else {
      NextOfFour(states, lists, picks, 5, 1, 1, 1, 2);
      NextOfFour(states, lists, picks, 6, 1, 1, 1, 3);
      assert TwiceAt(picks, "d", 5);
    }
  }

  function Equals(): seq<ServiceInstance> {
    [ServiceInstance("a", 1.0), ServiceInstance("b", 1.0)]
  }

  lemma EqualsShares()
    ensures Hosts(Equals()) == {"a", "b"} && Total(Equals()) == 2.0
    ensures WeightOf("a", Equals()) == 1.0 && WeightOf("b", Equals()) == 1.0
    ensures WholeParts(SharesOf(Equals()), 0.5, map["a" := 2, "b" := 2]) && Times(4, 0.5) == Total(Equals())
  {
    var fleet := Equals();
    assert HostAt(fleet, 0) == "a" && HostAt(fleet, 1) == "b";
    assert WeightTo("a", fleet, 1) == 1.0 && WeightTo("b", fleet, 1) == 0.0;
    assert TotalTo(fleet, 1) == 1.0;
    TimesIsProduct(4, 0.5);
    TimesIsProduct(2, 0.5);
  }

  /** The second call serves the one that the first did not. */
  lemma OtherIsSecond(states: seq<State>, lists: seq<seq<ServiceInstance>>, picks: seq<string>)
    requires CycleRun(Equals(), states, lists, picks, 0.5, map["a" := 2, "b" := 2], 4) && |lists| >= 4
    requires picks[0] == "a"
    ensures picks[1] == "b" && Arrears(picks, "a", 2, 4, 2) == 0
  {
    EqualsShares();
    MostOwedIsServed(Equals(), states, lists, picks, 0.5, map["a" := 2, "b" := 2], 4, 1, "b");
    assert CountTo("a", picks, 1) == 1 && CountTo("b", picks, 1) == 0;
    assert CountTo("a", picks, 2) == 1;
  }

  predicate StartsWith(list: seq<ServiceInstance>, host: string) {
    Actives(list) != [] && Actives(list)[0].host == host
  }

  /** Equal hosts in a list that changes its order: when the two are level, the one listed first is served again. */
  lemma ReorderedServesTwice(states: seq<State>, lists: seq<seq<ServiceInstance>>, picks: seq<string>)
    requires FleetRun(Equals(), states, lists, picks) && |lists| == 4
    requires StartsWith(lists[0], "a") && StartsWith(lists[2], "b")
    ensures CycleRun(Equals(), states, lists, picks, 0.5, map["a" := 2, "b" := 2], 4)
    ensures TwiceInARow(picks, "b", 0, 4)
  {
    EqualsShares();
    EqualsServeFirst(Equals(), states, lists, picks, 0.5, map["a" := 2, "b" := 2], 4, "a", "b", 0);
    OtherIsSecond(states, lists, picks);
    EqualsServeFirst(Equals(), states, lists, picks, 0.5, map["a" := 2, "b" := 2], 4, "a", "b", 2);
    assert TwiceAt(picks, "b", 1);
  }
}
