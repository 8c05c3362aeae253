/** Smooth weighted round-robin: the balancer that raises every current weight by the configured one, serves the
    largest and lowers it by the total. */
module WeightedRoundRobin {
  import opened Options
  import opened Sums

  /** A registered instance; `host` is the "ip:port" text that identifies it. */
  datatype ServiceInstance = ServiceInstance(host: string, weight: real)

  // ---- one call, on values ----

  /** Those of the first `n` instances that have a positive weight, in list order. */
  function ActivesTo(instances: seq<ServiceInstance>, n: nat): seq<ServiceInstance>
    requires n <= |instances|
  {
    if n == 0 then [] else
    ActivesTo(instances, n - 1) + (if instances[n - 1].weight > 0.0 then [instances[n - 1]] else [])
  }

  lemma {:induction false} ActivesMembers(instances: seq<ServiceInstance>, n: nat)
    requires n <= |instances|
    ensures forall i | i in ActivesTo(instances, n) :: i in instances && i.weight > 0.0
    ensures forall k | 0 <= k < n && instances[k].weight > 0.0 :: instances[k] in ActivesTo(instances, n)
  {
    if n > 0 {
      ActivesMembers(instances, n - 1);
    }
  }

  function Actives(instances: seq<ServiceInstance>): (r: seq<ServiceInstance>)
    ensures forall i | i in r :: i in instances && i.weight > 0.0
    ensures forall i | i in instances && i.weight > 0.0 :: i in r
  {
    ActivesMembers(instances, |instances|);
    ActivesTo(instances, |instances|)
  }

  /** How often `x` is among the first `n` instances. */
  function TimesIn(list: seq<ServiceInstance>, n: nat, x: ServiceInstance): nat
    requires n <= |list|
  {
    if n == 0 then 0 else TimesIn(list, n - 1, x) + (if list[n - 1] == x then 1 else 0)
  }

  lemma {:induction false} TimesInPrefix(list: seq<ServiceInstance>, more: seq<ServiceInstance>, n: nat,
                                         x: ServiceInstance)
    requires n <= |list|
    ensures TimesIn(list + more, n, x) == TimesIn(list, n, x)
  {
    if n > 0 {
      TimesInPrefix(list, more, n - 1, x);
    }
  }

  lemma {:induction false} ActivesCount(instances: seq<ServiceInstance>, n: nat, x: ServiceInstance)
    requires n <= |instances|
    ensures TimesIn(ActivesTo(instances, n), |ActivesTo(instances, n)|, x)
         == if x.weight > 0.0 then TimesIn(instances, n, x) else 0
  {
    if n > 0 {
      var before := ActivesTo(instances, n - 1);
      ActivesCount(instances, n - 1, x);
      TimesInPrefix(before, if instances[n - 1].weight > 0.0 then [instances[n - 1]] else [], |before|, x);
    }
  }

  lemma {:induction false} ActivesPrefix(instances: seq<ServiceInstance>, n: nat, m: nat)
    requires n <= m <= |instances|
    ensures ActivesTo(instances, n) <= ActivesTo(instances, m)
  {
    if n < m {
      ActivesPrefix(instances, n, m - 1);
    }
  }

  /** The active ones of a longer list begin with those of a shorter one, and each instance with a positive weight is
      there as often as in the list: so they are complete and in list order. */
  lemma ActivesAre(instances: seq<ServiceInstance>, n: nat, x: ServiceInstance)
    requires n <= |instances|
    ensures ActivesTo(instances, n) <= Actives(instances)
    ensures TimesIn(ActivesTo(instances, n), |ActivesTo(instances, n)|, x)
         == if x.weight > 0.0 then TimesIn(instances, n, x) else 0
  {
    ActivesPrefix(instances, n, |instances|);
    ActivesCount(instances, n, x);
  }

  function Signature(actives: seq<ServiceInstance>): set<(string, real)> {
    set i | i in actives :: (i.host, i.weight)
  }

  function Hosts(actives: seq<ServiceInstance>): set<string> {
    set i | i in actives :: i.host
  }

  /** The weights of the first `n` instances added up. */
  function TotalTo(actives: seq<ServiceInstance>, n: nat): real
    requires n <= |actives|
  {
    if n == 0 then 0.0 else TotalTo(actives, n - 1) + actives[n - 1].weight
  }

  function Total(actives: seq<ServiceInstance>): real {
    TotalTo(actives, |actives|)
  }

  /** What the first `n` instances configure for host `h`. */
  function WeightTo(h: string, actives: seq<ServiceInstance>, n: nat): real
    requires n <= |actives|
  {
    if n == 0 then 0.0 else
    WeightTo(h, actives, n - 1) + (if actives[n - 1].host == h then actives[n - 1].weight else 0.0)
  }

  /** The share of one host: all the weight configured for it. */
  function WeightOf(h: string, actives: seq<ServiceInstance>): real {
    WeightTo(h, actives, |actives|)
  }

  /** The balancer's fields. */
  datatype State = State(signature: set<(string, real)>, current: map<string, real>)

  /** Every host of the remembered list has a current weight, and no other host has one. */
  ghost predicate Consistent(s: State) {
    s.current.Keys == set p | p in s.signature :: p.0
  }

  function Reset(s: State, actives: seq<ServiceInstance>): State {
    if Signature(actives) == s.signature then s
    else State(Signature(actives), map h | h in Hosts(actives) :: 0.0)
  }

  function HostAt(actives: seq<ServiceInstance>, k: nat): (h: string)
    requires k < |actives|
    ensures h in Hosts(actives)
  {
    assert actives[k] in actives;
    actives[k].host
  }

  /** The first instance whose current weight is largest: no other is larger, none before it is as large. */
  ghost predicate IsFirstLargest(current: map<string, real>, actives: seq<ServiceInstance>, b: nat)
    requires Hosts(actives) <= current.Keys
  {
    && b < |actives|
    && forall k | 0 <= k < |actives| ::
         && current[HostAt(actives, k)] <= current[HostAt(actives, b)]
         && (k < b ==> current[HostAt(actives, k)] < current[HostAt(actives, b)])
  }

  ghost function Raised(current: map<string, real>, actives: seq<ServiceInstance>): map<string, real> {
    map h | h in current :: current[h] + WeightOf(h, actives)
  }

  /** One call on the active list `actives` that served its instance number `b`. */
  ghost predicate Served(s: State, actives: seq<ServiceInstance>, b: nat, s': State) {
    var r := Reset(s, actives);
    && Hosts(actives) == r.current.Keys == s'.current.Keys
    && s'.signature == r.signature == Signature(actives)
    && b < |actives|
    && var raised := Raised(r.current, actives);
       && IsFirstLargest(raised, actives, b)
       && s'.current == raised[HostAt(actives, b) := raised[HostAt(actives, b)] - Total(actives)]
  }

  // ---- whole runs over one fleet ----

  /** The same shares for the same hosts, however the list is ordered and whatever inactive instances it holds. */
  ghost predicate SameFleet(list: seq<ServiceInstance>, fleet: seq<ServiceInstance>) {
    && Signature(Actives(list)) == Signature(fleet)
    && forall h :: WeightOf(h, Actives(list)) == WeightOf(h, fleet)
  }

  ghost predicate Fleet(fleet: seq<ServiceInstance>) {
    fleet != [] && forall i | i in fleet :: i.weight > 0.0
  }

  /** The next call on the fleet starts from all-zero current weights. */
  ghost predicate Fresh(s: State, fleet: seq<ServiceInstance>) {
    Consistent(s) && forall h | h in Reset(s, fleet).current :: Reset(s, fleet).current[h] == 0.0
  }

  /** One call on the list `list` that returned `x`. */
  ghost predicate ServedInstance(s: State, list: seq<ServiceInstance>, x: ServiceInstance, s': State) {
    exists b: nat :: Served(s, Actives(list), b, s') && Actives(list)[b] == x
  }

  ghost predicate ServedHost(s: State, list: seq<ServiceInstance>, host: string, s': State) {
    exists x :: ServedInstance(s, list, x, s') && x.host == host
  }

  /** `states[k]` is the balancer before call `k`, which was given `lists[k]` and returned host `picks[k]`. */
  ghost predicate Run(states: seq<State>, lists: seq<seq<ServiceInstance>>, picks: seq<string>) {
    && |states| == |lists| + 1
    && |picks| == |lists|
    && forall k {:trigger lists[k]} | 0 <= k < |lists| :: ServedHost(states[k], lists[k], picks[k], states[k + 1])
  }

  ghost predicate FleetRun(fleet: seq<ServiceInstance>, states: seq<State>, lists: seq<seq<ServiceInstance>>,
                           picks: seq<string>) {
    && Fleet(fleet)
    && Run(states, lists, picks)
    && Fresh(states[0], fleet)
    && forall list | list in lists :: SameFleet(list, fleet)
  }

  /** How many of the first `n` picks are `h`. */
  function CountTo(h: string, picks: seq<string>, n: nat): nat
    requires n <= |picks|
  {
    if n == 0 then 0 else CountTo(h, picks, n - 1) + (if picks[n - 1] == h then 1 else 0)
  }

  // ---- sums over the hosts ----

  ghost function ShareTo(actives: seq<ServiceInstance>, n: nat): string -> real
    requires n <= |actives|
  {
    h => WeightTo(h, actives, n)
  }

  /** The shares of the hosts add up to the total weight. */
  lemma {:induction false} SharesAddUp(actives: seq<ServiceInstance>, n: nat)
    requires n <= |actives|
    ensures SumOver(Hosts(actives), ShareTo(actives, n)) == TotalTo(actives, n)
  {
    var hosts := Hosts(actives);
    if n == 0 {
      SumZero(hosts, ShareTo(actives, 0));
      SumNotPositive(hosts, ShareTo(actives, 0));
    } else {
      SharesAddUp(actives, n - 1);
      SumChangeOne(hosts, ShareTo(actives, n), ShareTo(actives, n - 1), HostAt(actives, n - 1), actives[n - 1].weight);
    }
  }

  lemma {:induction false} SharePositive(h: string, actives: seq<ServiceInstance>, n: nat)
    requires n <= |actives| && forall i | i in actives :: i.weight > 0.0
    ensures WeightTo(h, actives, n) >= 0.0
    ensures (exists k :: 0 <= k < n && actives[k].host == h) ==> WeightTo(h, actives, n) > 0.0
  {
    if n > 0 {
      SharePositive(h, actives, n - 1);
    }
  }

  lemma SameSignatureSameHosts(a: seq<ServiceInstance>, b: seq<ServiceInstance>)
    requires Signature(a) == Signature(b)
    ensures Hosts(a) <= Hosts(b)
  {
    forall h | h in Hosts(a) ensures h in Hosts(b) {
      var i :| i in a && i.host == h;
      assert (i.host, i.weight) in Signature(b);
    }
  }

  lemma SameTotals(list: seq<ServiceInstance>, fleet: seq<ServiceInstance>)
    requires SameFleet(list, fleet)
    ensures Hosts(Actives(list)) == Hosts(fleet)
    ensures Total(Actives(list)) == Total(fleet)
  {
    SameSignatureSameHosts(Actives(list), fleet);
    SameSignatureSameHosts(fleet, Actives(list));
    SharesAddUp(Actives(list), |Actives(list)|);
    SharesAddUp(fleet, |fleet|);
    forall h | h in Hosts(fleet)
      ensures ShareTo(Actives(list), |Actives(list)|)(h) == ShareTo(fleet, |fleet|)(h)
    {
      assert WeightOf(h, Actives(list)) == WeightOf(h, fleet);
    }
    SumCongruent(Hosts(fleet), ShareTo(Actives(list), |Actives(list)|), ShareTo(fleet, |fleet|));
  }

  // ---- one call on the weights alone ----

  /** What each host is owed in a cycle, and what a cycle comes to. */
  datatype Shares = Shares(of: map<string, real>, total: real)

  ghost function SharesOf(fleet: seq<ServiceInstance>): Shares {
    Shares(map h | h in Hosts(fleet) :: WeightOf(h, fleet), Total(fleet))
  }

  ghost function Level(current: map<string, real>): string -> real {
    h => if h in current then current[h] else 0.0
  }

  ghost predicate Proper(sh: Shares) {
    && sh.total > 0.0
    && (forall h | h in sh.of :: sh.of[h] > 0.0)
    && SumOver(sh.of.Keys, Level(sh.of)) == sh.total
  }

  ghost function Paid(current: map<string, real>, sh: Shares, host: string): map<string, real>
    requires current.Keys == sh.of.Keys
  {
    map h | h in sh.of :: current[h] + sh.of[h] - (if h == host then sh.total else 0.0)
  }

  /** `host` has the largest raised weight; everyone gains its share and the host pays the total. */
  ghost predicate Step(current: map<string, real>, sh: Shares, host: string, current': map<string, real>) {
    && host in sh.of && current.Keys == sh.of.Keys
    && (forall h | h in sh.of :: current[h] + sh.of[h] <= current[host] + sh.of[host])
    && current' == Paid(current, sh, host)
  }

  /** The current weights sum to zero and each is above minus the total. */
  ghost predicate InBounds(current: map<string, real>, sh: Shares) {
    && current.Keys == sh.of.Keys
    && SumOver(sh.of.Keys, Level(current)) == 0.0
    && forall h | h in sh.of :: current[h] > -sh.total
  }

  /** The raised weights add up to the total, so the largest one is positive and can pay it. */
  lemma StepStaysInBounds(current: map<string, real>, sh: Shares, host: string, current': map<string, real>)
    requires Proper(sh) && InBounds(current, sh) && Step(current, sh, host, current')
    ensures InBounds(current', sh)
  {
    var raised := map h | h in sh.of :: current[h] + sh.of[h];
    SumPlus(sh.of.Keys, Level(raised), Level(current), Level(sh.of));
    if raised[host] <= 0.0 {
      SumNotPositive(sh.of.Keys, Level(raised));
      assert false;
    }
    SumChangeOne(sh.of.Keys, Level(current'), Level(raised), host, -sh.total);
  }

  // ---- the deviation bound ----

  /** The current weights after `n` calls with `counts[h]` picks of each host. */
  ghost predicate Balanced(current: map<string, real>, sh: Shares, n: nat, counts: map<string, nat>) {
    && InBounds(current, sh)
    && counts.Keys == sh.of.Keys
    && forall h | h in sh.of :: current[h] == Times(n, sh.of[h]) - Times(counts[h], sh.total)
  }

  lemma StepKeepsBalance(current: map<string, real>, sh: Shares, host: string, current': map<string, real>,
                         n: nat, counts: map<string, nat>, counts': map<string, nat>)
    requires Proper(sh) && Balanced(current, sh, n, counts) && Step(current, sh, host, current')
    requires counts' == counts[host := counts[host] + 1]
    ensures Balanced(current', sh, n + 1, counts')
  {
    StepStaysInBounds(current, sh, host, current');
  }

  lemma BalancedBound(current: map<string, real>, sh: Shares, h: string)
    requires InBounds(current, sh) && h in sh.of
    ensures |sh.of.Keys| >= 1
    ensures |sh.of.Keys| >= 2 ==> current[h] < Times(|sh.of.Keys| - 1, sh.total)
    ensures |sh.of.Keys| == 1 ==> current[h] == 0.0
  {
    var hosts := sh.of.Keys;
    var others := hosts - {h};
    SumTakeOut(hosts, Level(current), h);
    assert |others| == |hosts| - 1;
    if others != {} {
      SumAbove(others, Level(current), sh.total);
    }
  }

  /** A served call is a step on the weights of its fleet. */
  lemma ServedIsStep(s: State, actives: seq<ServiceInstance>, b: nat, s': State)
    requires Served(s, actives, b, s')
    ensures Step(Reset(s, actives).current, SharesOf(actives), HostAt(actives, b), s'.current)
  {
    var current, sh, host := Reset(s, actives).current, SharesOf(actives), HostAt(actives, b);
    forall h | h in sh.of ensures current[h] + sh.of[h] <= current[host] + sh.of[host] {
      var i :| i in actives && i.host == h;
      var k :| 0 <= k < |actives| && actives[k] == i;
      assert HostAt(actives, k) == h;
    }
  }

  lemma {:induction false} TotalPositive(fleet: seq<ServiceInstance>, n: nat)
    requires Fleet(fleet) && 0 < n <= |fleet|
    ensures TotalTo(fleet, n) > 0.0
  {
    if n > 1 {
      TotalPositive(fleet, n - 1);
    }
  }

  lemma FleetIsProper(fleet: seq<ServiceInstance>)
    requires Fleet(fleet)
    ensures Proper(SharesOf(fleet))
  {
    var sh := SharesOf(fleet);
    TotalPositive(fleet, |fleet|);
    forall h | h in sh.of ensures sh.of[h] > 0.0 {
      var i :| i in fleet && i.host == h;
      SharePositive(h, fleet, |fleet|);
    }
    SharesAddUp(fleet, |fleet|);
    assert sh.of.Keys == Hosts(fleet);
    SumCongruent(Hosts(fleet), Level(sh.of), ShareTo(fleet, |fleet|));
  }

  lemma SameShares(list: seq<ServiceInstance>, fleet: seq<ServiceInstance>)
    requires SameFleet(list, fleet)
    ensures SharesOf(Actives(list)) == SharesOf(fleet)
  {
    SameTotals(list, fleet);
  }

  /** How often each host was served in the first `n` picks. */
  ghost function Counts(sh: Shares, picks: seq<string>, n: nat): map<string, nat>
    requires n <= |picks|
  {
    map h | h in sh.of :: CountTo(h, picks, n)
  }

  /** From all-zero weights on, every step finds and leaves them balanced. */
  lemma {:induction false} StepsKeepBalance(levels: seq<map<string, real>>, sh: Shares, picks: seq<string>, n: nat)
    requires Proper(sh) && |levels| == |picks| + 1 && n <= |picks|
    requires Balanced(levels[0], sh, 0, Counts(sh, picks, 0))
    requires forall k {:trigger picks[k]} | 0 <= k < |picks| :: Step(levels[k], sh, picks[k], levels[k + 1])
    ensures Balanced(levels[n], sh, n, Counts(sh, picks, n))
  {
    if n > 0 {
      StepsKeepBalance(levels, sh, picks, n - 1);
      StepKeepsBalance(levels[n - 1], sh, picks[n - 1], levels[n], n - 1, Counts(sh, picks, n - 1),
                       Counts(sh, picks, n));
    }
  }

  lemma ServedOnFleet(s: State, list: seq<ServiceInstance>, b: nat, s': State, fleet: seq<ServiceInstance>)
    requires SameFleet(list, fleet) && Served(s, Actives(list), b, s')
    ensures Step(Reset(s, fleet).current, SharesOf(fleet), Actives(list)[b].host, s'.current)
    ensures s'.signature == Signature(fleet) && Reset(s', fleet) == s'
  {
    SameTotals(list, fleet);
    SameShares(list, fleet);
    ServedIsStep(s, Actives(list), b, s');
    assert Reset(s, Actives(list)) == Reset(s, fleet);
  }

  lemma SignatureCovers(fleet: seq<ServiceInstance>)
    ensures Hosts(fleet) == set p | p in Signature(fleet) :: p.0
  {
    forall h | h in Hosts(fleet) ensures h in set p | p in Signature(fleet) :: p.0 {
      var i :| i in fleet && i.host == h;
      assert (i.host, i.weight) in Signature(fleet);
    }
  }

  lemma FreshIsBalanced(s: State, fleet: seq<ServiceInstance>, picks: seq<string>)
    requires Fleet(fleet) && Fresh(s, fleet)
    ensures Balanced(Reset(s, fleet).current, SharesOf(fleet), 0, Counts(SharesOf(fleet), picks, 0))
  {
    var current := Reset(s, fleet).current;
    SignatureCovers(fleet);
    FleetIsProper(fleet);
    SumZero(Hosts(fleet), Level(current));
    SumNotPositive(Hosts(fleet), Level(current));
    assert SharesOf(fleet).of.Keys == Hosts(fleet);
  }

  lemma RunStep(fleet: seq<ServiceInstance>, states: seq<State>, lists: seq<seq<ServiceInstance>>,
                picks: seq<string>, k: nat)
    requires FleetRun(fleet, states, lists, picks) && k < |lists|
    ensures Step(Reset(states[k], fleet).current, SharesOf(fleet), picks[k], states[k + 1].current)
    ensures states[k + 1].signature == Signature(fleet) && Reset(states[k + 1], fleet) == states[k + 1]
  {
    assert lists[k] in lists;
    var x :| ServedInstance(states[k], lists[k], x, states[k + 1]) && x.host == picks[k];
    var b: nat :| Served(states[k], Actives(lists[k]), b, states[k + 1]) && Actives(lists[k])[b] == x;
    ServedOnFleet(states[k], lists[k], b, states[k + 1], fleet);
  }

  /** From a reset on, the weights after any number of calls are balanced. */
  lemma BalancedAtEnd(fleet: seq<ServiceInstance>, states: seq<State>, lists: seq<seq<ServiceInstance>>,
                      picks: seq<string>)
    requires FleetRun(fleet, states, lists, picks) && |lists| > 0
    ensures Balanced(states[|lists|].current, SharesOf(fleet), |lists|, Counts(SharesOf(fleet), picks, |picks|))
    ensures states[|lists|].signature == Signature(fleet)
  {
    var levels := seq(|states|, k requires 0 <= k < |states| => Reset(states[k], fleet).current);
    forall k {:trigger picks[k]} | 0 <= k < |picks|
      ensures Step(levels[k], SharesOf(fleet), picks[k], levels[k + 1]) && Reset(states[k + 1], fleet) == states[k + 1]
    {
      RunStep(fleet, states, lists, picks, k);
    }
    RunStep(fleet, states, lists, picks, |lists| - 1);
    FreshIsBalanced(states[0], fleet, picks);
    FleetIsProper(fleet);
    StepsKeepBalance(levels, SharesOf(fleet), picks, |picks|);
  }

  /** The deviation bound at every call: the current weights sum to zero, tell exactly how far each host is from its
      share, stay above minus the total and, with two hosts or more, below (hosts - 1) totals. So no host is ever
      ahead of its share by a full pick. */
  lemma DeviationBound(fleet: seq<ServiceInstance>, states: seq<State>, lists: seq<seq<ServiceInstance>>,
                       picks: seq<string>, h: string)
    requires FleetRun(fleet, states, lists, picks) && |lists| > 0 && h in Hosts(fleet)
    ensures SumOver(SharesOf(fleet).of.Keys, Level(states[|lists|].current)) == 0.0
    ensures h in states[|lists|].current && h in SharesOf(fleet).of && h in Counts(SharesOf(fleet), picks, |picks|)
    ensures states[|lists|].current[h]
            == Times(|lists|, SharesOf(fleet).of[h]) - Times(Counts(SharesOf(fleet), picks, |picks|)[h],
                                                             SharesOf(fleet).total)
    ensures states[|lists|].current[h] > -SharesOf(fleet).total
    ensures |Hosts(fleet)| >= 2 ==> states[|lists|].current[h] < Times(|Hosts(fleet)| - 1, SharesOf(fleet).total)
    ensures |Hosts(fleet)| == 1 ==> states[|lists|].current[h] == 0.0
  {
    BalancedAtEnd(fleet, states, lists, picks);
    BalancedBound(states[|lists|].current, SharesOf(fleet), h);
    assert SharesOf(fleet).of.Keys == Hosts(fleet);
  }

  // ---- exact fairness ----

  /** Every share is a whole number of units: `parts[h]` of them for host `h`. */
  ghost predicate WholeParts(sh: Shares, unit: real, parts: map<string, nat>) {
    unit > 0.0 && forall h | h in sh.of :: h in parts && sh.of[h] == Times(parts[h], unit)
  }

  ghost predicate IsProduct(k: nat, m: nat, p: nat) {
    k == m * p
  }

  lemma TimesSwap(a: nat, b: nat, x: real)
    ensures Times(b, Times(a, x)) == Times(a, Times(b, x))
  {
    TimesNested(a, b, x);
    TimesNested(b, a, x);
    assert a * b == b * a;
  }

  lemma TimesOrdered(a: nat, k: nat, total: real)
    requires total > 0.0
    ensures k < a ==> Times(a, total) > Times(k, total)
    ensures k > a ==> Times(a, total) <= Times(k, total) - total
  {
    if k <= a {
      TimesSum(k, a - k, total);
      TimesPositive(a - k, total);
    } else {
      TimesSum(a, k - a, total);
      TimesPositive(k - a, total);
    }
  }

  lemma WholeDifference(p: nat, m: nat, k: nat, total: real)
    requires total > 0.0
    ensures Times(p, Times(m, total)) - Times(k, total) > -total ==> Times(p, Times(m, total)) >= Times(k, total)
    ensures Times(p, Times(m, total)) == Times(k, total) ==> IsProduct(k, m, p)
  {
    TimesNested(m, p, total);
    TimesOrdered(m * p, k, total);
  }

  /** After whole cycles a current weight is a whole multiple of the total; above minus one total it is not negative. */
  lemma WholeLevel(level: real, n: nat, unit: real, p: nat, m: nat, k: nat, total: real)
    requires total > 0.0 && level > -total && Times(n, unit) == Times(m, total)
    requires level == Times(n, Times(p, unit)) - Times(k, total)
    ensures level >= 0.0
    ensures level == 0.0 ==> IsProduct(k, m, p)
  {
    TimesSwap(p, n, unit);
    WholeDifference(p, m, k, total);
  }

  /** Whole cycles leave no weight negative, and what sums to zero without negatives is zero. */
  lemma FairWhenBalanced(current: map<string, real>, sh: Shares, n: nat, counts: map<string, nat>,
                         unit: real, parts: map<string, nat>, m: nat)
    requires Proper(sh) && Balanced(current, sh, n, counts) && WholeParts(sh, unit, parts)
    requires Times(n, unit) == Times(m, sh.total)
    ensures forall h | h in sh.of :: counts[h] == m * parts[h] && current[h] == 0.0
  {
    forall h | h in sh.of ensures current[h] >= 0.0 {
      WholeLevel(current[h], n, unit, parts[h], m, counts[h], sh.total);
    }
    SumZero(sh.of.Keys, Level(current));
    forall h | h in sh.of ensures current[h] == 0.0 && counts[h] == m * parts[h] {
      assert Level(current)(h) == 0.0;
      WholeLevel(current[h], n, unit, parts[h], m, counts[h], sh.total);
    }
  }

  lemma ZeroIsFresh(s: State, fleet: seq<ServiceInstance>)
    requires s.signature == Signature(fleet) && s.current.Keys == Hosts(fleet)
    requires forall h | h in s.current :: s.current[h] == 0.0
    ensures Fresh(s, fleet)
  {
    SignatureCovers(fleet);
  }

  /** Exact fairness: after `m` whole cycles from a reset (as many calls as make `m` totals, one unit a call) every
      host was served exactly `m` times its parts and every current weight is zero again, so that the next call starts
      as after a reset. */
  lemma ExactFairness(fleet: seq<ServiceInstance>, states: seq<State>, lists: seq<seq<ServiceInstance>>,
                      picks: seq<string>, unit: real, parts: map<string, nat>, m: nat)
    requires FleetRun(fleet, states, lists, picks) && WholeParts(SharesOf(fleet), unit, parts)
    requires m > 0 && Times(|lists|, unit) == Times(m, Total(fleet))
    ensures forall h | h in Hosts(fleet) :: h in parts && CountTo(h, picks, |picks|) == m * parts[h]
    ensures Fresh(states[|lists|], fleet)
  {
    FleetIsProper(fleet);
    TimesPositive(m, Total(fleet));
    BalancedAtEnd(fleet, states, lists, picks);
    var sh, counts := SharesOf(fleet), Counts(SharesOf(fleet), picks, |picks|);
    FairWhenBalanced(states[|lists|].current, sh, |lists|, counts, unit, parts, m);
    forall h | h in Hosts(fleet) ensures h in parts && CountTo(h, picks, |picks|) == m * parts[h] {
      assert counts[h] == m * parts[h];
    }
    ZeroIsFresh(states[|lists|], fleet);
  }

  // ---- what counts as the same fleet ----

  lemma PlaceOf(last: ServiceInstance, a: seq<ServiceInstance>, b: seq<ServiceInstance>) returns (k: nat)
    requires multiset(a) == multiset(b) && a != [] && last == a[|a| - 1]
    ensures k < |b| && b[k] == last
    ensures multiset(a[..|a| - 1]) == multiset(b[..k] + b[k + 1..])
  {
    assert a == a[..|a| - 1] + [last];
    assert last in multiset(b);
    k :| 0 <= k < |b| && b[k] == last;
    assert b == b[..k] + [last] + b[k + 1..];
    assert multiset(b) == multiset(b[..k]) + multiset{last} + multiset(b[k + 1..]);
    assert multiset(a) == multiset(a[..|a| - 1]) + multiset{last};
    assert multiset(b[..k] + b[k + 1..]) == multiset(b) - multiset{last};
  }

  /** Taking out instance `k` takes its weight off its host's share and off no other. */
  lemma {:induction false} ShareWithout(h: string, a: seq<ServiceInstance>, k: nat, n: nat)
    requires k < |a| && n <= |a|
    ensures WeightTo(h, a, n) == WeightTo(h, a[..k] + a[k + 1..], if n <= k then n else n - 1)
                                 + (if k < n && a[k].host == h then a[k].weight else 0.0)
  {
    if n > 0 {
      ShareWithout(h, a, k, n - 1);
    }
  }

  lemma {:induction false} SameShareReordered(h: string, a: seq<ServiceInstance>, b: seq<ServiceInstance>)
    requires multiset(a) == multiset(b)
    ensures WeightOf(h, a) == WeightOf(h, b)
  {
    if a == [] {
      assert |multiset(b)| == 0;
    } else {
      var last := a[|a| - 1];
      var k := PlaceOf(last, a, b);
      SameShareReordered(h, a[..|a| - 1], b[..k] + b[k + 1..]);
      ShareWithout(h, a, |a| - 1, |a|);
      ShareWithout(h, b, k, |b|);
      assert a[..|a| - 1] + a[|a| - 1 + 1..] == a[..|a| - 1];
    }
  }

  /** Any reordering of the active instances is the same fleet. */
  lemma ReorderedIsSameFleet(list: seq<ServiceInstance>, fleet: seq<ServiceInstance>)
    requires multiset(Actives(list)) == multiset(fleet)
    ensures SameFleet(list, fleet)
  {
    forall i ensures i in Actives(list) <==> i in fleet {
      assert i in multiset(Actives(list)) <==> i in multiset(fleet);
    }
    forall h ensures WeightOf(h, Actives(list)) == WeightOf(h, fleet) {
      SameShareReordered(h, Actives(list), fleet);
    }
  }

  lemma ServedAt(s: State, list: seq<ServiceInstance>, b: nat, s': State)
    requires Served(s, Actives(list), b, s')
    ensures ServedInstance(s, list, Actives(list)[b], s')
  {
  }

  // ---- the balancer ----

  /** The instances that take part in the scheduling. */
  method Filtered(instances: seq<ServiceInstance>) returns (actives: seq<ServiceInstance>)
    ensures actives == Actives(instances)
  {
    actives := [];
    for n := 0 to |instances|
      invariant actives == ActivesTo(instances, n)
    {
      if instances[n].weight > 0.0 {
        actives := actives + [instances[n]];
      }
    }
  }

  /** The first of the instances with the largest current weight. */
  method FirstLargest(current: map<string, real>, actives: seq<ServiceInstance>) returns (best: nat)
    requires actives != [] && Hosts(actives) <= current.Keys
    ensures IsFirstLargest(current, actives, best)
  {
    best := 0;
    for n := 1 to |actives|
      invariant best < n
      invariant forall k | 0 <= k < n ::
                  && current[HostAt(actives, k)] <= current[HostAt(actives, best)]
                  && (k < best ==> current[HostAt(actives, k)] < current[HostAt(actives, best)])
    {
      if current[HostAt(actives, n)] > current[HostAt(actives, best)] {
        best := n;
      }
    }
  }

  class WeightedRoundRobinBalancer {
    var currentWeight: map<string, real>
    var signature: set<(string, real)>

    function View(): State
      reads this
    {
      State(signature, currentWeight)
    }

    constructor ()
      ensures View() == State({}, map[]) && Consistent(View())
    {
      currentWeight := map[];
      signature := {};
    }

    /** Serves one instance, or none (the source raises) when no instance has a positive weight. */
    method Choose(instances: seq<ServiceInstance>) returns (chosen: Option<ServiceInstance>)
      requires Consistent(View())
      modifies this
      ensures Consistent(View())
      ensures chosen.None? <==> forall i | i in instances :: i.weight <= 0.0
      ensures chosen.None? ==> View() == old(View())
      ensures chosen.Some? ==>
                ServedInstance(old(View()), instances, chosen.value, View())
    {
      var actives := Filtered(instances);
      if actives == [] {
        return None;
      }
      var best := ChooseActive(actives);
      chosen := Some(actives[best]);
      ServedAt(old(View()), instances, best, View());
    }

    method ChooseActive(actives: seq<ServiceInstance>) returns (best: nat)
      requires Consistent(View()) && actives != []
      modifies this
      ensures Consistent(View()) && Served(old(View()), actives, best, View())
    {
      ResetIfChanged(actives);
      var total := 0.0;
      for n := 0 to |actives|
        invariant total == TotalTo(actives, n)
      {
        total := total + actives[n].weight;
      }
      Accumulate(actives);
      best := FirstLargest(currentWeight, actives);
      var host := HostAt(actives, best);
      currentWeight := currentWeight[host := currentWeight[host] - total];
    }

    /** Forgets the current weights when the set of hosts and weights differs from the remembered one. */
    method ResetIfChanged(actives: seq<ServiceInstance>)
      requires Consistent(View())
      modifies this
      ensures View() == Reset(old(View()), actives)
      ensures Signature(actives) == old(signature) ==> currentWeight == old(currentWeight)
      ensures Signature(actives) != old(signature) ==> forall h | h in currentWeight :: currentWeight[h] == 0.0
      ensures signature == Signature(actives) && currentWeight.Keys == Hosts(actives) && Consistent(View())
    {
      SignatureCovers(actives);
      var current := Signature(actives);
      if current != signature {
        signature := current;
        currentWeight := map h | h in Hosts(actives) :: 0.0;
      }
    }

    method Accumulate(actives: seq<ServiceInstance>)
      requires Hosts(actives) <= currentWeight.Keys
      modifies this`currentWeight
      ensures currentWeight == Raised(old(currentWeight), actives)
    {
      for n := 0 to |actives|
        invariant currentWeight == map h | h in old(currentWeight) :: old(currentWeight)[h] + WeightTo(h, actives, n)
      {
        var host := HostAt(actives, n);
        currentWeight := currentWeight[host := currentWeight[host] + actives[n].weight];
      }
    }
  }
}
