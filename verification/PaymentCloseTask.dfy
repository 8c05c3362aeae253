/** Closing expired orders on a timer. */
module PaymentCloseTask {
  import opened Collections
  import opened PaymentStateMachine
  import opened PaymentChannel
  import PaymentRuns

  predicate IsExpired(orders: Dict<string, LocalOrder>, o: string, before: real) {
    && o in orders.at && orders.at[o].status == NOTPAY
    && orders.at[o].expireAt.Some? && orders.at[o].expireAt.value < before
  }

  function Expired(orders: Dict<string, LocalOrder>, before: real): set<string> {
    set o | o in orders.at && IsExpired(orders, o, before)
  }

  /** A prefix; a negative limit leaves out as many at the end. */
  function FirstOf<T>(s: seq<T>, limit: int): seq<T> {
    if limit >= |s| then s else if limit >= 0 then s[..limit] else if |s| + limit >= 0 then s[..|s| + limit] else []
  }

  function FindExpired(orders: Dict<string, LocalOrder>, before: real, limit: int): seq<string> {
    FirstOf(Keep(orders.keys, Expired(orders, before)), limit)
  }

  /** The sweep finds expired unpaid orders, each once, and all of them if they are fewer than its limit. */
  lemma FoundAre(orders: Dict<string, LocalOrder>, before: real, limit: int)
    requires orders.Ok()
    ensures Distinct(FindExpired(orders, before, limit))
    ensures forall o | o in FindExpired(orders, before, limit) :: IsExpired(orders, o, before)
    ensures limit >= 0 ==> |FindExpired(orders, before, limit)| <= limit
    ensures |FindExpired(orders, before, limit)| < limit ==>
              forall o | IsExpired(orders, o, before) :: o in FindExpired(orders, before, limit)
  {
    var all := Keep(orders.keys, Expired(orders, before));
    KeepToDistinct(orders.keys, Expired(orders, before), |orders.keys|);
    KeepMembers(orders.keys, Expired(orders, before));
    forall o | o in FindExpired(orders, before, limit) ensures IsExpired(orders, o, before) {
      assert o in all;
    }
    forall o | IsExpired(orders, o, before) ensures o in all {
      assert o in Elements(orders.keys);
    }
  }

  /** What the channel answers for one order, and the id of its flow record. */
  datatype Answer = Answer(query: Query, closeOk: bool, freshId: string)

  predicate Through(a: Answer) {
    a.query == SaysUnpaid && a.closeOk
  }

  /** The stores after the first `n` of the found orders, and how many were closed. */
  function SweepTo(w: World, found: seq<string>, answers: nat -> Answer, n: nat): (World, nat)
    requires n <= |found|
  {
    if n == 0 then (w, 0) else
    var (v, closed) := SweepTo(w, found, answers, n - 1);
    var a := answers(n - 1);
    var (v', outcome) := CloseExpired(v, found[n - 1], a.query, a.closeOk, a.freshId);
    (v', if outcome == Accepted then closed + 1 else closed)
  }

  lemma SweepNext(w: World, found: seq<string>, answers: nat -> Answer, n: nat, v: World, closed: nat)
    requires n < |found| && (v, closed) == SweepTo(w, found, answers, n)
    ensures var a := answers(n);
            var (v', outcome) := Step(v, DoCloseExpired(found[n], a.query, a.closeOk), a.freshId);
            SweepTo(w, found, answers, n + 1) == (v', if outcome == Accepted then closed + 1 else closed)
  {
  }

  function CountThrough(answers: nat -> Answer, n: nat): nat {
    if n == 0 then 0 else CountThrough(answers, n - 1) + if Through(answers(n - 1)) then 1 else 0
  }

  predicate FreshIn(w: World, found: seq<string>, answers: nat -> Answer, k: nat)
    requires k < |found|
  {
    Fresh(SweepTo(w, found, answers, k).0, answers(k).freshId)
  }

  ghost predicate SweepFresh(w: World, found: seq<string>, answers: nat -> Answer) {
    forall k | 0 <= k < |found| :: FreshIn(w, found, answers, k)
  }

  /** An order after the sweep: closed if the channel agreed, else as before. */
  predicate SweptAt(w: World, v: World, found: seq<string>, answers: nat -> Answer, k: nat)
    requires k < |found|
  {
    && found[k] in w.orders.at && found[k] in v.orders.at
    && v.orders.at[found[k]] == (if Through(answers(k)) then w.orders.at[found[k]].(status := Status.CLOSED)
                                 else w.orders.at[found[k]])
    && (Through(answers(k)) ==> (found[k], FlowEvent.CLOSE) in v.ledger.byKey)
  }

  ghost predicate OthersKept(w: World, v: World, done: seq<string>) {
    forall o | o !in done :: PaymentRuns.SameOrder(w, v, o)
  }

  ghost predicate AllNotPaid(w: World, found: seq<string>) {
    forall k | 0 <= k < |found| :: StatusIs(w, found[k], NOTPAY)
  }

  lemma SweepStep(w: World, found: seq<string>, answers: nat -> Answer, n: nat, v: World)
    requires 0 < n <= |found| && Distinct(found) && AllNotPaid(w, found)
    requires forall k | 0 <= k < n - 1 :: SweptAt(w, v, found, answers, k)
    requires OthersKept(w, v, found[..n - 1])
    ensures var (v', outcome) := CloseExpired(v, found[n - 1], answers(n - 1).query, answers(n - 1).closeOk,
                                              answers(n - 1).freshId);
            && (outcome == Accepted <==> Through(answers(n - 1)))
            && (forall k | 0 <= k < n :: SweptAt(w, v', found, answers, k))
            && OthersKept(w, v', found[..n])
  {
    var a, o := answers(n - 1), found[n - 1];
    var (v', outcome) := CloseExpired(v, o, a.query, a.closeOk, a.freshId);
    assert found[..n] == found[..n - 1] + [o];
    assert o !in found[..n - 1];
    assert StatusIs(w, o, NOTPAY);
    assert PaymentRuns.SameOrder(w, v, o);
    forall k | 0 <= k < n - 1 ensures SweptAt(w, v', found, answers, k) {
      assert SweptAt(w, v, found, answers, k);
      assert found[k] != o;
    }
    assert SweptAt(w, v', found, answers, n - 1);
    forall x | x !in found[..n] ensures PaymentRuns.SameOrder(w, v', x) {
      assert x !in found[..n - 1] && x != o;
      assert PaymentRuns.SameOrder(w, v, x);
    }
  }

  /** A sweep closes exactly the found orders for which the channel says unpaid and agrees to close, with a record
      each; it leaves every other order alone, and counts what it closed. */
  lemma {:induction false} SweepIs(w: World, found: seq<string>, answers: nat -> Answer, n: nat)
    requires n <= |found| && Distinct(found) && AllNotPaid(w, found)
    ensures var (v, closed) := SweepTo(w, found, answers, n);
            && closed == CountThrough(answers, n)
            && (forall k | 0 <= k < n :: SweptAt(w, v, found, answers, k))
            && OthersKept(w, v, found[..n])
  {
    if n > 0 {
      SweepIs(w, found, answers, n - 1);
      var v := SweepTo(w, found, answers, n - 1).0;
      SweepStep(w, found, answers, n, v);
    }
  }

  /** The next order of the sweep has not been touched yet. */
  lemma StillUnpaid(w: World, v: World, found: seq<string>, n: nat)
    requires 0 < n <= |found| && Distinct(found) && AllNotPaid(w, found) && OthersKept(w, v, found[..n - 1])
    ensures StatusIs(v, found[n - 1], NOTPAY) && PaymentRuns.SameOrder(w, v, found[n - 1])
  {
    assert found[n - 1] !in found[..n - 1];
    assert StatusIs(w, found[n - 1], NOTPAY);
    assert PaymentRuns.SameOrder(w, v, found[n - 1]);
  }

  lemma {:induction false} SweepMatches(w: World, found: seq<string>, answers: nat -> Answer, n: nat)
    requires n <= |found| && Distinct(found) && AllNotPaid(w, found) && SweepFresh(w, found, answers)
    requires WorldOk(w) && LedgerMatches(w)
    ensures WorldOk(SweepTo(w, found, answers, n).0) && LedgerMatches(SweepTo(w, found, answers, n).0)
  {
    if n > 0 {
      SweepMatches(w, found, answers, n - 1);
      SweepIs(w, found, answers, n - 1);
      var v, a := SweepTo(w, found, answers, n - 1).0, answers(n - 1);
      StillUnpaid(w, v, found, n);
      assert FreshIn(w, found, answers, n - 1);
      StepMatchesIff(v, DoCloseExpired(found[n - 1], a.query, a.closeOk), a.freshId);
      StepKeepsOk(v, DoCloseExpired(found[n - 1], a.query, a.closeOk), a.freshId);
    }
  }

  /** So the sweep never closes a paid order or one that is not yet due, and keeps the ledger matching the orders. */
  lemma SweepIsSafe(w: World, before: real, limit: int, answers: nat -> Answer)
    requires WorldOk(w) && LedgerMatches(w) && SweepFresh(w, FindExpired(w.orders, before, limit), answers)
    ensures var found := FindExpired(w.orders, before, limit);
            var (v, closed) := SweepTo(w, found, answers, |found|);
            && WorldOk(v) && LedgerMatches(v)
            && forall o | o in w.orders.at && !IsExpired(w.orders, o, before) :: PaymentRuns.SameOrder(w, v, o)
  {
    var found := FindExpired(w.orders, before, limit);
    FoundAre(w.orders, before, limit);
    assert AllNotPaid(w, found) by {
      forall k | 0 <= k < |found| ensures StatusIs(w, found[k], NOTPAY) {
        assert IsExpired(w.orders, found[k], before);
      }
    }
    SweepMatches(w, found, answers, |found|);
    SweepIs(w, found, answers, |found|);
    assert found[..|found|] == found;
  }
}
