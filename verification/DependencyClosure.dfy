/** Dependency closure of registered names by depth-first search: the algorithm shared by the extension and the
    capability registry. */
module DependencyClosure {
  import opened Collections

  /** Registered names and what each requires, in order. */
  type Graph = map<string, seq<string>>

  // ---- reachability ----

  ghost predicate Edge(g: Graph, a: string, b: string) {
    a in g && b in g[a]
  }

  ghost predicate IsPath(g: Graph, p: seq<string>) {
    p != [] && forall i {:trigger p[i]} | 0 <= i < |p| - 1 :: Edge(g, p[i], p[i + 1])
  }

  ghost predicate PathTo(g: Graph, roots: set<string>, p: seq<string>, x: string) {
    IsPath(g, p) && p[0] in roots && p[|p| - 1] == x
  }

  /** `x` is a root or is required, directly or not, by one. */
  ghost predicate Reachable(g: Graph, roots: set<string>, x: string) {
    exists p :: PathTo(g, roots, p, x)
  }

  /** A closed path: every name requires the next, the last is the first again, and no other name repeats. */
  ghost predicate IsCycle(g: Graph, c: seq<string>) {
    |c| >= 2 && IsPath(g, c) && c[0] == c[|c| - 1]
  }

  ghost predicate IsSimpleCycle(g: Graph, c: seq<string>) {
    IsCycle(g, c) && Distinct(c[..|c| - 1])
  }

  ghost predicate ReachableCycle(g: Graph, roots: set<string>, c: seq<string>) {
    IsCycle(g, c) && Reachable(g, roots, c[0])
  }

  lemma RootIsReachable(g: Graph, roots: set<string>, x: string)
    requires x in roots
    ensures Reachable(g, roots, x)
  {
    assert PathTo(g, roots, [x], x);
  }

  lemma RequiredIsReachable(g: Graph, roots: set<string>, x: string, y: string)
    requires Reachable(g, roots, x) && Edge(g, x, y)
    ensures Reachable(g, roots, y)
  {
    var p :| PathTo(g, roots, p, x);
    var q := p + [y];
    forall i | 0 <= i < |q| - 1 ensures Edge(g, q[i], q[i + 1]) {
      assert i < |p| - 1 ==> Edge(g, p[i], p[i + 1]);
    }
    assert PathTo(g, roots, q, y);
  }

  lemma {:induction false} ClosedContainsPath(g: Graph, s: set<string>, p: seq<string>, n: nat)
    requires IsPath(g, p) && p[0] in s && n < |p|
    requires forall a, b | a in s && Edge(g, a, b) :: b in s
    ensures p[n] in s
  {
    if n > 0 {
      ClosedContainsPath(g, s, p, n - 1);
      assert Edge(g, p[n - 1], p[n - 1 + 1]);
    }
  }

  /** Whatever contains the roots and the requirements of its registered members contains all that is reachable. */
  lemma ClosedContainsReachable(g: Graph, roots: set<string>, s: set<string>, x: string)
    requires roots <= s && forall a, b | a in s && Edge(g, a, b) :: b in s
    requires Reachable(g, roots, x)
    ensures x in s
  {
    var p :| PathTo(g, roots, p, x);
    ClosedContainsPath(g, s, p, |p| - 1);
  }

  // ---- what the closure promises ----

  /** Every registered requirement of a member comes before it. */
  ghost predicate Ordered(g: Graph, chain: seq<string>) {
    forall i, r | 0 <= i < |chain| && r in g && Edge(g, chain[i], r) :: r in chain[..i]
  }

  ghost predicate HasReachableCycle(g: Graph, roots: set<string>) {
    exists c :: ReachableCycle(g, roots, c)
  }

  /** The closure of `roots`, whatever order they are visited in. */
  ghost predicate IsClosure(g: Graph, roots: set<string>, chain: seq<string>, circular: seq<seq<string>>,
                            unknown: set<string>) {
    && Distinct(chain)
    && (forall x :: x in chain <==> x in g && Reachable(g, roots, x))
    && (forall x :: x in unknown <==> x !in g && Reachable(g, roots, x))
    && Distinct(circular)
    && (forall c | c in circular :: IsSimpleCycle(g, c) && Reachable(g, roots, c[0]))
    && (circular == [] <==> !HasReachableCycle(g, roots))
    && (circular == [] ==> Ordered(g, chain))
  }

  // ---- the search state ----

  datatype State = State(chain: seq<string>, seen: set<string>, circular: seq<seq<string>>, unknown: set<string>,
                         visiting: seq<string>)

  /** The names waiting on the recursion stack: distinct, registered, not finished, each requiring the next. */
  ghost predicate StackOk(g: Graph, roots: set<string>, s: State) {
    && Distinct(s.visiting)
    && (forall v | v in s.visiting :: v in g && v !in s.seen && Reachable(g, roots, v))
    && (s.visiting != [] ==> IsPath(g, s.visiting))
  }

  /** The finished names: in the chain once each, registered and reachable, with every requirement accounted for. */
  ghost predicate DoneOk(g: Graph, roots: set<string>, s: State) {
    && Distinct(s.chain)
    && (forall x :: x in s.chain <==> x in s.seen)
    && (forall x | x in s.seen :: x in g && Reachable(g, roots, x))
    && (forall x | x in s.unknown :: x !in g && Reachable(g, roots, x))
    && (forall x, r | x in s.seen && Edge(g, x, r) :: r in s.seen || r in s.unknown || r in s.visiting)
    && (s.circular == [] ==> Ordered(g, s.chain))
  }

  ghost predicate CyclesOk(g: Graph, roots: set<string>, s: State) {
    && Distinct(s.circular)
    && forall c | c in s.circular :: IsSimpleCycle(g, c) && Reachable(g, roots, c[0])
  }

  ghost predicate SearchOk(g: Graph, roots: set<string>, s: State) {
    StackOk(g, roots, s) && DoneOk(g, roots, s) && CyclesOk(g, roots, s)
  }

  /** How the search moves on: it only adds, and gives the stack back as it was. */
  ghost predicate Extends(s: State, s': State) {
    && s.seen <= s'.seen && s.unknown <= s'.unknown
    && s'.visiting == s.visiting
    && s.chain <= s'.chain && s.circular <= s'.circular
  }

  /** `name` is finished, unknown, or waiting below on the stack - and then a cycle was reported. */
  ghost predicate Accounted(s: State, name: string) {
    name in s.seen || name in s.unknown || (name in s.visiting && s.circular != [])
  }

  // ---- the steps of the search ----

  lemma MarkUnknown(g: Graph, roots: set<string>, s: State, name: string)
    requires SearchOk(g, roots, s) && name !in g && Reachable(g, roots, name)
    ensures SearchOk(g, roots, s.(unknown := s.unknown + {name}))
  {
  }

  ghost function CycleAt(visiting: seq<string>, k: nat): seq<string>
    requires k < |visiting|
  {
    visiting[k..] + [visiting[k]]
  }

  lemma CloseAt(g: Graph, visiting: seq<string>, k: nat)
    requires k < |visiting| && Edge(g, visiting[|visiting| - 1], visiting[k])
    requires IsPath(g, visiting) && Distinct(visiting)
    ensures IsSimpleCycle(g, CycleAt(visiting, k))
  {
    var c := CycleAt(visiting, k);
    forall i | 0 <= i < |c| - 1 ensures Edge(g, c[i], c[i + 1]) {
      assert c[i] == visiting[k + i];
      assert k + i < |visiting| - 1 ==> Edge(g, visiting[k + i], visiting[k + i + 1]);
    }
    assert c[..|c| - 1] == visiting[k..];
  }

  /** Meeting a name that waits on the stack closes a cycle: the stack from that name on, and the name again. */
  lemma StackClosesCycle(g: Graph, roots: set<string>, s: State, k: nat)
    requires StackOk(g, roots, s) && k < |s.visiting|
    requires Edge(g, s.visiting[|s.visiting| - 1], s.visiting[k])
    ensures IsSimpleCycle(g, CycleAt(s.visiting, k)) && Reachable(g, roots, CycleAt(s.visiting, k)[0])
  {
    CloseAt(g, s.visiting, k);
    assert s.visiting[k] in s.visiting;
  }

  lemma ReportCycle(g: Graph, roots: set<string>, s: State, c: seq<string>)
    requires SearchOk(g, roots, s) && c !in s.circular
    requires IsSimpleCycle(g, c) && Reachable(g, roots, c[0])
    ensures SearchOk(g, roots, s.(circular := s.circular + [c]))
  {
  }

  lemma Push(g: Graph, roots: set<string>, s: State, name: string)
    requires SearchOk(g, roots, s) && name in g && name !in s.seen && name !in s.visiting
    requires Reachable(g, roots, name) && (s.visiting != [] ==> Edge(g, s.visiting[|s.visiting| - 1], name))
    ensures SearchOk(g, roots, s.(visiting := s.visiting + [name]))
  {
    var v := s.visiting + [name];
    forall i | 0 <= i < |v| - 1 ensures Edge(g, v[i], v[i + 1]) {
      assert i < |s.visiting| - 1 ==> Edge(g, s.visiting[i], s.visiting[i + 1]);
    }
  }

  ghost function Top(s: State): string
    requires s.visiting != []
  {
    s.visiting[|s.visiting| - 1]
  }

  lemma CycleClosed(g: Graph, roots: set<string>, s: State, k: nat, cycle: seq<string>, s': State)
    requires SearchOk(g, roots, s) && k < |s.visiting| && Edge(g, Top(s), s.visiting[k])
    requires cycle == CycleAt(s.visiting, k)
    requires s' == if cycle in s.circular then s else s.(circular := s.circular + [cycle])
    ensures SearchOk(g, roots, s') && s'.circular != [] && s.circular <= s'.circular
  {
    StackClosesCycle(g, roots, s, k);
    if cycle !in s.circular {
      ReportCycle(g, roots, s, cycle);
    }
  }

  lemma FinishKeepsStack(g: Graph, roots: set<string>, s: State, s': State)
    requires StackOk(g, roots, s) && s.visiting != []
    requires s'.visiting == s.visiting[..|s.visiting| - 1] && s'.seen == s.seen + {Top(s)}
    ensures StackOk(g, roots, s')
  {
    forall i | 0 <= i < |s'.visiting| - 1 ensures Edge(g, s'.visiting[i], s'.visiting[i + 1]) {
      assert Edge(g, s.visiting[i], s.visiting[i + 1]);
    }
  }

  lemma FinishKeepsOrder(g: Graph, chain: seq<string>, name: string)
    requires Ordered(g, chain)
    requires forall r | r in g && Edge(g, name, r) :: r in chain
    ensures Ordered(g, chain + [name])
  {
    var longer := chain + [name];
    forall i, r | 0 <= i < |longer| && r in g && Edge(g, longer[i], r) ensures r in longer[..i] {
      if i < |chain| {
        assert longer[..i] == chain[..i];
      } else {
        assert longer[..i] == chain;
      }
    }
  }

  lemma FinishKeepsDone(g: Graph, roots: set<string>, s: State, s': State)
    requires StackOk(g, roots, s) && DoneOk(g, roots, s) && s.visiting != []
    requires forall r | r in g[Top(s)] :: Accounted(s, r)
    requires s' == s.(visiting := s.visiting[..|s.visiting| - 1], seen := s.seen + {Top(s)},
                      chain := s.chain + [Top(s)])
    ensures DoneOk(g, roots, s')
  {
    assert s.visiting == s'.visiting + [Top(s)];
    assert Top(s) in s.visiting;
    if s.circular == [] {
      FinishKeepsOrder(g, s.chain, Top(s));
    }
  }

  /** The top of the stack is finished once every requirement of it is accounted for. */
  lemma Finish(g: Graph, roots: set<string>, s: State, s': State)
    requires SearchOk(g, roots, s) && s.visiting != []
    requires forall r | r in g[Top(s)] :: Accounted(s, r)
    requires s' == s.(visiting := s.visiting[..|s.visiting| - 1], seen := s.seen + {Top(s)},
                      chain := s.chain + [Top(s)])
    ensures SearchOk(g, roots, s')
  {
    FinishKeepsStack(g, roots, s, s');
    FinishKeepsDone(g, roots, s, s');
  }

  // ---- what a finished search has found ----

  /** Following a path inside a closed, ordered chain leads strictly back. */
  lemma {:induction false} BackAlongPath(g: Graph, s: State, c: seq<string>, k: nat, n: nat) returns (k': nat)
    requires Distinct(s.chain) && Ordered(g, s.chain)
    requires IsPath(g, c) && n < |c| && k < |s.chain| && s.chain[k] == c[0]
    requires c[|c| - 1] in g
    ensures k' < |s.chain| && s.chain[k'] == c[n] && k' <= k && (n > 0 ==> k' < k)
  {
    k' := k;
    if n > 0 {
      var before := BackAlongPath(g, s, c, k, n - 1);
      assert Edge(g, c[n - 1], c[n - 1 + 1]);
      assert n < |c| - 1 ==> Edge(g, c[n], c[n + 1]);
      assert c[n] in s.chain[..before];
      k' :| 0 <= k' < before && s.chain[k'] == c[n];
    }
  }

  lemma NoCycleInChain(g: Graph, s: State, c: seq<string>)
    requires Distinct(s.chain) && Ordered(g, s.chain) && c != [] && c[0] in s.chain && c[0] in g
    ensures !IsCycle(g, c)
  {
    if IsCycle(g, c) {
      var k :| 0 <= k < |s.chain| && s.chain[k] == c[0];
      var k' := BackAlongPath(g, s, c, k, |c| - 1);
    }
  }

  /** In an ordered chain every edge goes back, so no closed path fits into it. */
  lemma OrderedHasNoCycle(g: Graph, roots: set<string>, s: State, c: seq<string>)
    requires SearchOk(g, roots, s) && s.visiting == [] && s.circular == [] && roots <= s.seen + s.unknown
    ensures !ReachableCycle(g, roots, c)
  {
    if ReachableCycle(g, roots, c) {
      assert Edge(g, c[0], c[0 + 1]);
      ClosedContainsReachable(g, roots, s.seen + s.unknown, c[0]);
      NoCycleInChain(g, s, c);
    }
  }

  lemma SearchFindsReachable(g: Graph, roots: set<string>, s: State)
    requires SearchOk(g, roots, s) && s.visiting == []
    requires forall r | r in roots :: Accounted(s, r)
    ensures forall x | Reachable(g, roots, x) :: x in s.seen || x in s.unknown
  {
    forall x | Reachable(g, roots, x) ensures x in s.seen || x in s.unknown {
      ClosedContainsReachable(g, roots, s.seen + s.unknown, x);
    }
  }

  lemma CircularIff(g: Graph, roots: set<string>, s: State)
    requires SearchOk(g, roots, s) && s.visiting == []
    requires forall r | r in roots :: Accounted(s, r)
    ensures s.circular == [] <==> !HasReachableCycle(g, roots)
  {
    if s.circular == [] {
      forall c ensures !ReachableCycle(g, roots, c) {
        OrderedHasNoCycle(g, roots, s, c);
      }
    } else {
      assert s.circular[0] in s.circular;
      assert ReachableCycle(g, roots, s.circular[0]);
    }
  }

  /** A search that has come back to an empty stack has found the closure. */
  lemma SearchIsClosure(g: Graph, roots: set<string>, s: State)
    requires SearchOk(g, roots, s) && s.visiting == []
    requires forall r | r in roots :: Accounted(s, r)
    ensures IsClosure(g, roots, s.chain, s.circular, s.unknown)
  {
    SearchFindsReachable(g, roots, s);
    CircularIff(g, roots, s);
  }

  // ---- the search ----

  lemma AccountedStays(s: State, s': State, names: seq<string>, n: nat)
    requires Extends(s, s') && n <= |names|
    requires forall k | 0 <= k < n :: Accounted(s, names[k])
    ensures forall k | 0 <= k < n :: Accounted(s', names[k])
  {
    forall k | 0 <= k < n ensures Accounted(s', names[k]) {
      assert Accounted(s, names[k]);
    }
  }

  /** The first place of a name in a list that holds it. */
  method PlaceOf(names: seq<string>, name: string) returns (k: nat)
    requires name in names
    ensures k < |names| && names[k] == name && name !in names[..k]
  {
    k := 0;
    while names[k] != name
      invariant k < |names| && name !in names[..k] && name in names[k..]
      decreases |names| - k
    {
      k := k + 1;
    }
  }

  /** The accumulators that the nested recursive search updates in place. */
  class DepthFirstSearch {
    const graph: Graph
    ghost const roots: set<string>
    var chain: seq<string>
    var seen: set<string>
    var circular: seq<seq<string>>
    var unknown: set<string>
    var visiting: seq<string>

    function View(): State
      reads this
    {
      State(chain, seen, circular, unknown, visiting)
    }

    constructor (graph: Graph, ghost roots: set<string>)
      ensures this.graph == graph && this.roots == roots
      ensures View() == State([], {}, [], {}, [])
    {
      this.graph := graph;
      this.roots := roots;
      chain, seen, circular, unknown, visiting := [], {}, [], {}, [];
    }

    /** The names that are neither finished nor on the stack: fewer at every deeper call. */
    ghost function Untouched(): set<string>
      reads this
    {
      graph.Keys - seen - (set v | v in visiting)
    }

    method Visit(name: string)
      requires SearchOk(graph, roots, View()) && Reachable(graph, roots, name)
      requires visiting != [] ==> Edge(graph, Top(View()), name)
      modifies this
      ensures SearchOk(graph, roots, View())
      ensures Extends(old(View()), View()) && Accounted(View(), name)
      decreases Untouched(), 1
    {
      if name in seen {
        return;
      }
      if name !in graph {
        MarkUnknown(graph, roots, View(), name);
        unknown := unknown + {name};
        return;
      }
      if name in visiting {
        CloseCycle(name);
        return;
      }
      Expand(name);
    }

    /** Puts a name on the stack, visits all it requires, and moves it from the stack to the chain. */
    method Expand(name: string)
      requires SearchOk(graph, roots, View()) && Reachable(graph, roots, name)
      requires visiting != [] ==> Edge(graph, Top(View()), name)
      requires name in graph && name !in seen && name !in visiting
      modifies this
      ensures SearchOk(graph, roots, View())
      ensures Extends(old(View()), View()) && name in seen
      decreases Untouched(), 0
    {
      Push(graph, roots, View(), name);
      visiting := visiting + [name];
      ghost var pushed := View();
      assert name in visiting;
      for i := 0 to |graph[name]|
        invariant SearchOk(graph, roots, View())
        invariant Extends(pushed, View())
        invariant forall k | 0 <= k < i :: Accounted(View(), graph[name][k])
      {
        assert Edge(graph, name, graph[name][i]);
        RequiredIsReachable(graph, roots, name, graph[name][i]);
        ghost var s := View();
        assert name in old(Untouched()) && name !in Untouched();
        Visit(graph[name][i]);
        AccountedStays(s, View(), graph[name], i);
      }
      ghost var full := View();
      visiting := visiting[..|visiting| - 1];
      seen := seen + {name};
      chain := chain + [name];
      Finish(graph, roots, full, View());
    }

    method CloseCycle(name: string)
      requires SearchOk(graph, roots, View()) && name in visiting && Edge(graph, Top(View()), name)
      modifies this`circular
      ensures SearchOk(graph, roots, View())
      ensures circular != [] && old(circular) <= circular
    {
      var k := PlaceOf(visiting, name);
      var cycle := visiting[k..] + [name];
      ghost var s := View();
      if cycle !in circular {
        circular := circular + [cycle];
      }
      CycleClosed(graph, roots, s, k, cycle, View());
    }
  }

  /** The closure of a set of names; the set is walked in an arbitrary order. */
  method TopologicalClosure(graph: Graph, names: set<string>)
    returns (chain: seq<string>, circular: seq<seq<string>>, unknown: set<string>)
    ensures IsClosure(graph, names, chain, circular, unknown)
  {
    var search := new DepthFirstSearch(graph, names);
    var rest := names;
    while rest != {}
      invariant rest <= names
      invariant SearchOk(graph, names, search.View()) && search.visiting == []
      invariant forall r | r in names - rest :: Accounted(search.View(), r)
    {
      var name :| name in rest;
      RootIsReachable(graph, names, name);
      ghost var s := search.View();
      search.Visit(name);
      forall r | r in names - rest ensures Accounted(search.View(), r) {
        assert Accounted(s, r);
      }
      rest := rest - {name};
    }
    SearchIsClosure(graph, names, search.View());
    chain, circular, unknown := search.chain, search.circular, search.unknown;
  }

  // ---- consequences ----

  /** The order in which the names are visited does not show: members, unknown names and the verdict are the same. */
  lemma ClosuresAgree(g: Graph, roots: set<string>, chain: seq<string>, circular: seq<seq<string>>,
                      unknown: set<string>,
                      chain': seq<string>, circular': seq<seq<string>>, unknown': set<string>)
    requires IsClosure(g, roots, chain, circular, unknown) && IsClosure(g, roots, chain', circular', unknown')
    ensures multiset(chain) == multiset(chain') && unknown == unknown'
    ensures circular == [] <==> circular' == []
  {
    forall x ensures multiset(chain)[x] == multiset(chain')[x] {
      DistinctCount(chain, x);
      DistinctCount(chain', x);
      assert x in chain <==> x in chain';
    }
  }

  /** Without cycles the one requested name comes last, after all it needs. */
  lemma TargetIsLast(g: Graph, name: string, chain: seq<string>, unknown: set<string>)
    requires IsClosure(g, {name}, chain, [], unknown) && name in g
    ensures chain != [] && chain[|chain| - 1] == name
  {
    RootIsReachable(g, {name}, name);
    assert name in chain;
    var k :| 0 <= k < |chain| && chain[k] == name;
    var last := chain[|chain| - 1];
    assert last in chain;
    var p :| PathTo(g, {name}, p, last);
    if |p| > 1 {
      var k' := BackAlongPath(g, State(chain, {}, [], {}, []), p, k, |p| - 1);
      assert false;
    }
  }

  /** With no unknown name all that is reachable is registered. */
  lemma AllRegistered(g: Graph, roots: set<string>, chain: seq<string>, circular: seq<seq<string>>)
    requires IsClosure(g, roots, chain, circular, {})
    ensures forall x | Reachable(g, roots, x) :: x in g
  {
    forall x | Reachable(g, roots, x) ensures x in g {
      var unknown: set<string> := {};
      assert x !in unknown;
    }
  }
}
