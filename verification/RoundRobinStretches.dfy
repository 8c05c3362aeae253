/** Runs of the balancer over changing fleets: each stretch of calls on one fleet starts anew. */
module RoundRobinStretches {
  import opened Sums
  import opened WeightedRoundRobin

  const INITIAL := State({}, map[])

  /** A change of fleet forgets all weights. */
  lemma ResetForgets(s: State, actives: seq<ServiceInstance>)
    requires actives != [] && Signature(actives) != s.signature
    ensures Reset(s, actives) == Reset(INITIAL, actives)
    ensures forall h | h in Reset(s, actives).current :: Reset(s, actives).current[h] == 0.0
  {
    assert (actives[0].host, actives[0].weight) in Signature(actives);
  }

  lemma ServedAlike(s: State, t: State, actives: seq<ServiceInstance>, b: nat, s': State)
    requires Reset(s, actives) == Reset(t, actives) && Served(s, actives, b, s')
    ensures Served(t, actives, b, s')
  {
  }

  /** A call that finds another fleet than the remembered one answers as that of a new balancer. */
  lemma ChangeForgets(s: State, list: seq<ServiceInstance>, x: ServiceInstance, s': State)
    requires ServedInstance(s, list, x, s') && Signature(Actives(list)) != s.signature
    ensures ServedInstance(INITIAL, list, x, s')
  {
    var b: nat :| Served(s, Actives(list), b, s') && Actives(list)[b] == x;
    ResetForgets(s, Actives(list));
    ServedAlike(s, INITIAL, Actives(list), b, s');
  }

  lemma ServedRemembers(s: State, list: seq<ServiceInstance>, host: string, s': State)
    requires ServedHost(s, list, host, s')
    ensures Consistent(s') && s'.signature == Signature(Actives(list))
  {
    SignatureCovers(Actives(list));
  }

  /** Before each call the balancer remembers the fleet of the last one. */
  lemma RunRemembers(states: seq<State>, lists: seq<seq<ServiceInstance>>, picks: seq<string>, k: nat)
    requires Run(states, lists, picks) && states[0] == INITIAL && k <= |lists|
    ensures Consistent(states[k])
    ensures states[k].signature == if k == 0 then {} else Signature(Actives(lists[k - 1]))
  {
    if k > 0 {
      ServedRemembers(states[k - 1], lists[k - 1], picks[k - 1], states[k]);
    }
  }

  ghost predicate SameInstances(a: seq<ServiceInstance>, b: seq<ServiceInstance>) {
    forall x :: x in a <==> x in b
  }

  /** Lists have one signature exactly if they hold the same instances. */
  lemma SignatureTells(a: seq<ServiceInstance>, b: seq<ServiceInstance>)
    ensures Signature(a) == Signature(b) <==> SameInstances(a, b)
  {
    if Signature(a) == Signature(b) {
      forall x ensures x in a <==> x in b {
        assert x in a ==> (x.host, x.weight) in Signature(b);
        assert x in b ==> (x.host, x.weight) in Signature(a);
      }
    }
  }

  /** The calls from `i` on and before `j` are all on the fleet, and call `i` is the first of them: the call before it
      found other hosts or weights, or there was none. */
  ghost predicate Stretch(fleet: seq<ServiceInstance>, lists: seq<seq<ServiceInstance>>, i: nat, j: nat) {
    && i < j <= |lists| && Fleet(fleet)
    && (forall k | i <= k < j :: SameFleet(lists[k], fleet))
    && (i > 0 ==> !SameInstances(Actives(lists[i - 1]), fleet))
  }

  lemma SliceIsRun(states: seq<State>, lists: seq<seq<ServiceInstance>>, picks: seq<string>, i: nat, j: nat)
    requires Run(states, lists, picks) && i <= j <= |lists|
    ensures Run(states[i..j + 1], lists[i..j], picks[i..j])
  {
    forall k {:trigger lists[i..j][k]} | 0 <= k < j - i
      ensures ServedHost(states[i..j + 1][k], lists[i..j][k], picks[i..j][k], states[i..j + 1][k + 1])
    {
      assert lists[i..j][k] == lists[i + k];
    }
  }

  lemma StretchIsFresh(fleet: seq<ServiceInstance>, states: seq<State>, lists: seq<seq<ServiceInstance>>,
                       picks: seq<string>, i: nat, j: nat)
    requires Run(states, lists, picks) && states[0] == INITIAL && Stretch(fleet, lists, i, j)
    ensures Fresh(states[i], fleet)
  {
    RunRemembers(states, lists, picks, i);
    assert (fleet[0].host, fleet[0].weight) in Signature(fleet);
    if i > 0 {
      SignatureTells(Actives(lists[i - 1]), fleet);
    }
    ResetForgets(states[i], fleet);
  }

  lemma SliceOnFleet(fleet: seq<ServiceInstance>, lists: seq<seq<ServiceInstance>>, i: nat, j: nat)
    requires Stretch(fleet, lists, i, j)
    ensures forall list | list in lists[i..j] :: SameFleet(list, fleet)
  {
    forall list | list in lists[i..j] ensures SameFleet(list, fleet) {
      var k :| 0 <= k < j - i && lists[i..j][k] == list;
      assert lists[i + k] == list;
    }
  }

  /** Whatever the balancer was given before, a stretch of calls on one fleet is a run from a reset. */
  lemma StretchIsFleetRun(fleet: seq<ServiceInstance>, states: seq<State>, lists: seq<seq<ServiceInstance>>,
                          picks: seq<string>, i: nat, j: nat)
    returns (own: seq<State>, calls: seq<seq<ServiceInstance>>, served: seq<string>)
    requires Run(states, lists, picks) && states[0] == INITIAL && Stretch(fleet, lists, i, j)
    ensures FleetRun(fleet, own, calls, served)
    ensures 0 < |calls| == j - i && own[|calls|] == states[j] && served == picks[i..j]
  {
    hide ServedHost, SameFleet, Fresh, Signature, Actives;
    own, calls, served := states[i..j + 1], lists[i..j], picks[i..j];
    SliceIsRun(states, lists, picks, i, j);
    StretchIsFresh(fleet, states, lists, picks, i, j);
    SliceOnFleet(fleet, lists, i, j);
  }

  /** The deviation at the end of a run from a reset, host by host. */
  ghost predicate Deviates(fleet: seq<ServiceInstance>, current: map<string, real>, picks: seq<string>, h: string) {
    && h in current
    && current[h] == Times(|picks|, WeightOf(h, fleet)) - Times(CountTo(h, picks, |picks|), Total(fleet))
    && current[h] > -Total(fleet)
    && (|Hosts(fleet)| >= 2 ==> current[h] < Times(|Hosts(fleet)| - 1, Total(fleet)))
    && (|Hosts(fleet)| == 1 ==> current[h] == 0.0)
  }

  lemma RunDeviates(fleet: seq<ServiceInstance>, states: seq<State>, lists: seq<seq<ServiceInstance>>,
                    picks: seq<string>, h: string)
    requires FleetRun(fleet, states, lists, picks) && |lists| > 0 && h in Hosts(fleet)
    ensures Deviates(fleet, states[|lists|].current, picks, h)
  {
    DeviationBound(fleet, states, lists, picks, h);
  }

  /** Of the served hosts exactly `m` times its parts are `h`, and its weight is zero again. */
  ghost predicate IsFair(current: map<string, real>, picks: seq<string>, parts: map<string, nat>, m: nat, h: string) {
    && h in parts && CountTo(h, picks, |picks|) == m * parts[h]
    && h in current && current[h] == 0.0
  }

  lemma RunIsFair(fleet: seq<ServiceInstance>, states: seq<State>, lists: seq<seq<ServiceInstance>>,
                  picks: seq<string>, unit: real, parts: map<string, nat>, m: nat, h: string)
    requires FleetRun(fleet, states, lists, picks) && |lists| > 0 && h in Hosts(fleet)
    requires WholeParts(SharesOf(fleet), unit, parts) && m > 0 && Times(|lists|, unit) == Times(m, Total(fleet))
    ensures IsFair(states[|lists|].current, picks, parts, m, h)
  {
    ExactFairness(fleet, states, lists, picks, unit, parts, m);
    RunStep(fleet, states, lists, picks, |lists| - 1);
    DeviationBound(fleet, states, lists, picks, h);
  }

  /** In any run of a balancer, however its fleets change, the weights after a stretch tell how far each host is from
      its share of this stretch alone, within the bounds of one fleet. */
  lemma StretchDeviation(fleet: seq<ServiceInstance>, states: seq<State>, lists: seq<seq<ServiceInstance>>,
                         picks: seq<string>, i: nat, j: nat, h: string)
    requires Run(states, lists, picks) && states[0] == INITIAL && Stretch(fleet, lists, i, j) && h in Hosts(fleet)
    ensures Deviates(fleet, states[j].current, picks[i..j], h)
  {
    hide *;
    var own, calls, served := StretchIsFleetRun(fleet, states, lists, picks, i, j);
    RunDeviates(fleet, own, calls, served, h);
  }

  /** And over whole cycles of the stretch every host is served exactly its parts. */
  lemma StretchFairness(fleet: seq<ServiceInstance>, states: seq<State>, lists: seq<seq<ServiceInstance>>,
                        picks: seq<string>, i: nat, n: nat, unit: real, parts: map<string, nat>, m: nat, h: string)
    requires Run(states, lists, picks) && states[0] == INITIAL && Stretch(fleet, lists, i, i + n) && h in Hosts(fleet)
    requires WholeParts(SharesOf(fleet), unit, parts) && m > 0 && Times(n, unit) == Times(m, Total(fleet))
    ensures IsFair(states[i + n].current, picks[i..i + n], parts, m, h)
  {
    hide *;
    var own, calls, served := StretchIsFleetRun(fleet, states, lists, picks, i, i + n);
    RunIsFair(fleet, own, calls, served, unit, parts, m, h);
  }
}
