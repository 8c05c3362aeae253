/** Orders in which registered names can be loaded, and their relation to the closure. */
module DependencyOrders {
  import opened Collections
  import opened DependencyClosure

  /** An order in which everything that the roots need can be loaded: each name is registered and comes after all that
      it requires. */
  ghost predicate LoadOrder(g: Graph, roots: set<string>, chain: seq<string>) {
    && (forall r | r in roots :: r in chain)
    && forall i | 0 <= i < |chain| :: LoadableAt(g, chain, i)
  }

  ghost predicate LoadableAt(g: Graph, chain: seq<string>, i: nat)
    requires i < |chain|
  {
    chain[i] in g && forall x | x in g[chain[i]] :: x in chain[..i]
  }

  lemma {:induction false} PathGoesBack(g: Graph, roots: set<string>, chain: seq<string>, p: seq<string>, n: nat,
                                        k: nat)
    returns (k': nat)
    requires LoadOrder(g, roots, chain) && IsPath(g, p) && n < |p| && k < |chain| && chain[k] == p[0]
    ensures k' + n <= k && chain[k'] == p[n]
  {
    if n == 0 {
      k' := k;
    } else {
      var j := PathGoesBack(g, roots, chain, p, n - 1, k);
      assert Edge(g, p[n - 1], p[n - 1 + 1]);
      assert LoadableAt(g, chain, j);
      k' :| 0 <= k' < j && chain[k'] == p[n];
    }
  }

  lemma {:induction false} NoWayBack(g: Graph, roots: set<string>, chain: seq<string>, c: seq<string>, k: nat)
    requires LoadOrder(g, roots, chain) && k < |chain| && IsCycle(g, c)
    ensures chain[k] != c[0]
    decreases k
  {
    if chain[k] == c[0] {
      var k' := PathGoesBack(g, roots, chain, c, |c| - 1, k);
      NoWayBack(g, roots, chain, c, k');
    }
  }

  /** A load order holds all that is reachable and rules out cycles. */
  lemma LoadOrderRules(g: Graph, roots: set<string>, chain: seq<string>)
    requires LoadOrder(g, roots, chain)
    ensures forall x | Reachable(g, roots, x) :: x in g && x in chain
    ensures !HasReachableCycle(g, roots)
  {
    forall x | Reachable(g, roots, x) ensures x in g && x in chain {
      var p :| PathTo(g, roots, p, x);
      var k :| 0 <= k < |chain| && chain[k] == p[0];
      var k' := PathGoesBack(g, roots, chain, p, |p| - 1, k);
      assert LoadableAt(g, chain, k');
    }
    forall c ensures !ReachableCycle(g, roots, c) {
      if ReachableCycle(g, roots, c) {
        var k :| 0 <= k < |chain| && chain[k] == c[0];
        NoWayBack(g, roots, chain, c, k);
      }
    }
  }

  /** The chain of a closure without unknown names and cycles is a load order. */
  lemma ClosureIsLoadOrder(g: Graph, roots: set<string>, chain: seq<string>)
    requires IsClosure(g, roots, chain, [], {})
    ensures LoadOrder(g, roots, chain)
  {
    AllRegistered(g, roots, chain, []);
    forall r | r in roots ensures r in chain {
      RootIsReachable(g, roots, r);
    }
    forall i | 0 <= i < |chain| ensures LoadableAt(g, chain, i) {
      assert chain[i] in chain;
      forall x | x in g[chain[i]] ensures x in chain[..i] {
        RequiredIsReachable(g, roots, chain[i], x);
      }
    }
  }

  /** What is reachable and no root is required by something reachable. */
  lemma LastStep(g: Graph, roots: set<string>, x: string) returns (y: string)
    requires Reachable(g, roots, x) && x !in roots
    ensures Reachable(g, roots, y) && Edge(g, y, x)
  {
    var p :| PathTo(g, roots, p, x);
    var n := |p| - 1;
    assert p[0] in roots && n > 0;
    y := p[n - 1];
    assert Edge(g, p[n - 1], p[n - 1 + 1]);
    var q := p[..n];
    forall i | 0 <= i < |q| - 1 ensures Edge(g, q[i], q[i + 1]) {
      assert Edge(g, p[i], p[i + 1]);
    }
    assert PathTo(g, roots, q, y);
  }

  /** In a load order what requires a name that stands there once comes after it. */
  lemma RequiredComesFirst(g: Graph, roots: set<string>, chain: seq<string>, k: nat, m: nat)
    requires LoadOrder(g, roots, chain) && Distinct(chain) && k < |chain| && m < |chain|
    requires Edge(g, chain[m], chain[k])
    ensures k < m
  {
    assert LoadableAt(g, chain, m);
    var i :| 0 <= i < m && chain[i] == chain[k];
    assert i == k;
  }

  /** It holds no name in vain: all but the roots are required by a later one. */
  lemma MemberIsRequired(g: Graph, roots: set<string>, chain: seq<string>, k: nat) returns (m: nat)
    requires IsClosure(g, roots, chain, [], {}) && k < |chain| && chain[k] !in roots
    ensures k < m < |chain| && chain[m] in g && chain[k] in g[chain[m]]
  {
    hide Reachable, HasReachableCycle, LoadOrder, Ordered;
    assert chain[k] in chain;
    var y := LastStep(g, roots, chain[k]);
    assert y in chain;
    m :| 0 <= m < |chain| && chain[m] == y;
    ClosureIsLoadOrder(g, roots, chain);
    RequiredComesFirst(g, roots, chain, k, m);
  }
}
