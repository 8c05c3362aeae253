/** What the channel does with refunds: what it records, how many it accepts and which callbacks complete them. */
module PaymentRefunds {
  import opened Options
  import opened PaymentStateMachine
  import opened PaymentCallbacks
  import opened PaymentChannel
  import opened PaymentRuns
  import opened Sums

  // ---- one refund per order is recorded ----

  /** An accepted refund callback leaves a booked record exactly when no refund was recorded before, or a booked one. */
  lemma RefundBookedIff(w: World, c: Callback, freshId: string)
    requires WorldOk(w) && Fresh(w, freshId)
    requires EventOf(c) == Some(REFUND_SUCCESS) && HandleCallback(w, Some(c), freshId).1 == Accepted
    ensures var k := (c.tradeNo, FlowEvent.REFUND);
            var l' := HandleCallback(w, Some(c), freshId).0.ledger;
            && k in l'.byKey && l'.byKey[k] < |l'.records|
            && (l'.records[l'.byKey[k]].status == FlowStatus.BOOKED
                <==> k !in w.ledger.byKey || w.ledger.records[w.ledger.byKey[k]].status == FlowStatus.BOOKED)
  {
    Ledgers.MarkedKeeps(w.ledger, FlowOf(c));
  }

  /** So a refund that was applied for through the channel is never booked, whatever comes after. */
  lemma AppliedRefundNeverBooked(w: World, o: string, refundNo: string, amount: real, freshId: string,
                                 moves: seq<Move>, n: nat)
    requires WorldOk(w) && Fresh(w, freshId) && (o, FlowEvent.REFUND) !in w.ledger.byKey
    requires ApplyRefund(w, o, refundNo, amount, true, true, freshId).1 == Accepted
    requires n <= |moves|
    ensures var l := After(ApplyRefund(w, o, refundNo, amount, true, true, freshId).0, moves, n).ledger;
            var k := (o, FlowEvent.REFUND);
            && k in l.byKey && l.byKey[k] < |l.records|
            && l.records[l.byKey[k]].status in {FlowStatus.PENDING, FlowStatus.REVERSED}
            && l.records[l.byKey[k]].amount == amount && l.records[l.byKey[k]].refundNo == refundNo
  {
    var w' := ApplyRefund(w, o, refundNo, amount, true, true, freshId).0;
    var r := FlowRecord(o, FlowEvent.REFUND, amount, FlowStatus.PENDING, refundNo);
    Ledgers.MarkedKeeps(w.ledger, r);
    var at := w'.ledger.byKey[(o, FlowEvent.REFUND)];
    assert w'.ledger.records[at] == Ledgers.WithId(r, freshId);
    LedgerGrows(w', moves, n);
    assert SameOrReversed(w'.ledger.records[at], After(w', moves, n).ledger.records[at]);
  }

  /** Applying again under the same refund number is refused as a duplicate exactly when the number is the order's
      own. */
  lemma DuplicateRefundCaughtIff(w: World, o: string, refundNo: string, amount: real, freshId: string,
                                 o': string, amount': real, freshId': string)
    requires ApplyRefund(w, o, refundNo, amount, true, true, freshId).1 == Accepted
    ensures var w' := ApplyRefund(w, o, refundNo, amount, true, true, freshId).0;
            ApplyRefund(w', o', refundNo, amount', true, true, freshId').1 == Rejected(StateConflict) <==> refundNo == o
  {
  }

  lemma FirstIsRecorded(w: World, o: string, refundNo: string, amount: real, freshId: string)
    requires WorldOk(w) && Fresh(w, freshId) && (o, FlowEvent.REFUND) !in w.ledger.byKey
    requires ApplyRefund(w, o, refundNo, amount, true, true, freshId).1 == Accepted
    ensures var w' := ApplyRefund(w, o, refundNo, amount, true, true, freshId).0;
            && Ledgers.SumRefunded(w'.ledger, o) == amount && w'.orders == w.orders
            && w'.ledger.byKey.Keys == w.ledger.byKey.Keys + {(o, FlowEvent.REFUND)}
    ensures Ledgers.SumRefunded(w.ledger, o) == 0.0
  {
    var r := FlowRecord(o, FlowEvent.REFUND, amount, FlowStatus.PENDING, refundNo);
    Ledgers.MarkedKeeps(w.ledger, r);
    Ledgers.AppendKeepsAgreementIff(w.ledger, r, freshId);
    Ledgers.RefundedIsOneRecord(w.ledger, o);
    Ledgers.RefundedIsOneRecord(Ledgers.Append(w.ledger, r, freshId).0, o);
  }

  /** So the same refund is applied for twice at the channel exactly when it is at most half of the order, and only
      the first is recorded. */
  lemma SameRefundTwiceIff(w: World, o: string, refundNo: string, amount: real, freshId: string, freshId': string)
    requires WorldOk(w) && Fresh(w, freshId) && (o, FlowEvent.REFUND) !in w.ledger.byKey
    requires ApplyRefund(w, o, refundNo, amount, true, true, freshId).1 == Accepted
    requires o != "" && o in w.orders.at && refundNo != o
    ensures var w' := ApplyRefund(w, o, refundNo, amount, true, true, freshId).0;
            var (w'', outcome) := ApplyRefund(w', o, refundNo, amount, true, true, freshId');
            w'' == w' && (outcome == Accepted <==> amount + amount <= w.orders.at[o].amount)
  {
    FirstIsRecorded(w, o, refundNo, amount, freshId);
  }

  // ---- refunds under other numbers ----

  /** Step `k` applies at the channel for a refund of the order. */
  predicate AppliesAt(moves: seq<Move>, k: nat, o: string)
    requires k < |moves|
  {
    moves[k].action.DoRefund? && moves[k].action.o == o && moves[k].action.supported && moves[k].action.channelOk
  }

  /** All steps apply for refunds of the order. */
  ghost predicate AllApply(moves: seq<Move>, o: string) {
    forall k | 0 <= k < |moves| :: AppliesAt(moves, k, o)
  }

  /** The refund is not more than what is left after the recorded one, and its number is not that of a refunded
      order. */
  predicate Acceptable(w: World, o: string, refundNo: string, amount: real) {
    && (refundNo, FlowEvent.REFUND) !in w.ledger.byKey
    && (o != "" && o in w.orders.at ==> Ledgers.SumRefunded(w.ledger, o) + amount <= w.orders.at[o].amount)
  }

  /** What the channel has accepted in refunds. */
  function AcceptedRefunds(w: World, moves: seq<Move>, n: nat): real
    requires n <= |moves|
  {
    if n == 0 then 0.0 else
    var m := moves[n - 1];
    AcceptedRefunds(w, moves, n - 1)
      + (if m.action.DoRefund? && Step(After(w, moves, n - 1), m.action, m.freshId).1 == Accepted
         then m.action.refunded else 0.0)
  }

  /** What of the applied refunds is acceptable at the start. */
  function AcceptableRefunds(w: World, moves: seq<Move>, n: nat): real
    requires n <= |moves|
  {
    if n == 0 then 0.0 else
    var a := moves[n - 1].action;
    AcceptableRefunds(w, moves, n - 1)
      + (if a.DoRefund? && Acceptable(w, a.o, a.refundNo, a.refunded) then a.refunded else 0.0)
  }

  /** Once a refund of an order is recorded, no later one is; whether the channel takes it depends on the recorded one
      alone. So after any number of applications each is still measured against the first refund only. */
  lemma {:induction false} LaterRefundsUnrecorded(w: World, moves: seq<Move>, n: nat, o: string)
    requires (o, FlowEvent.REFUND) in w.ledger.byKey && n <= |moves| && AllApply(moves, o)
    ensures After(w, moves, n) == w
    ensures AcceptedRefunds(w, moves, n) == AcceptableRefunds(w, moves, n)
  {
    if n > 0 {
      LaterRefundsUnrecorded(w, moves, n - 1, o);
      assert AppliesAt(moves, n - 1, o);
    }
  }

  function Again(o: string, refundNo: string, amount: real, n: nat): seq<Move> {
    seq(n, _ => Move(DoRefund(o, refundNo, amount, true, true), ""))
  }

  lemma {:induction false} RefundsPileUp(w: World, o: string, refundNo: string, amount: real, m: nat, n: nat)
    requires (o, FlowEvent.REFUND) in w.ledger.byKey && Acceptable(w, o, refundNo, amount) && n <= m
    ensures AllApply(Again(o, refundNo, amount, m), o)
    ensures AcceptableRefunds(w, Again(o, refundNo, amount, m), n) == Times(n, amount)
  {
    if n > 0 {
      RefundsPileUp(w, o, refundNo, amount, m, n - 1);
    }
  }

  lemma EnoughTimes(amount: real, bound: real) returns (n: nat)
    requires amount > 0.0
    ensures Times(n, amount) > bound
  {
    var q := bound / amount;
    assert q * amount == bound;
    n := if q < 0.0 then 1 else q.Floor + 1;
    TimesIsProduct(n, amount);
    assert n as real > q;
  }

  predicate PositiveAt(moves: seq<Move>, k: nat)
    requires k < |moves|
  {
    moves[k].action.DoRefund? ==> moves[k].action.refunded > 0.0
  }

  ghost predicate AllPositive(moves: seq<Move>) {
    forall k | 0 <= k < |moves| :: PositiveAt(moves, k)
  }

  /** Some run of applications for positive refunds of the order comes to more than `bound`, the recorded one
      included. */
  ghost predicate CanExceed(w: World, o: string, bound: real) {
    exists moves :: AllApply(moves, o) && AllPositive(moves)
      && Ledgers.SumRefunded(w.ledger, o) + AcceptedRefunds(w, moves, |moves|) > bound
  }

  lemma {:induction false} NothingAcceptable(w: World, o: string, moves: seq<Move>, n: nat)
    requires o != "" && o in w.orders.at && Ledgers.SumRefunded(w.ledger, o) == w.orders.at[o].amount
    requires AllApply(moves, o) && AllPositive(moves) && n <= |moves|
    ensures AcceptableRefunds(w, moves, n) == 0.0
  {
    if n > 0 {
      NothingAcceptable(w, o, moves, n - 1);
      assert AppliesAt(moves, n - 1, o) && PositiveAt(moves, n - 1);
    }
  }

  lemma ExceedsIff(w: World, o: string, refundNo: string, bound: real)
    requires o != "" && o in w.orders.at && (o, FlowEvent.REFUND) in w.ledger.byKey
    requires (refundNo, FlowEvent.REFUND) !in w.ledger.byKey
    requires Ledgers.SumRefunded(w.ledger, o) <= w.orders.at[o].amount <= bound
    ensures CanExceed(w, o, bound) <==> Ledgers.SumRefunded(w.ledger, o) < w.orders.at[o].amount
  {
    var recorded := Ledgers.SumRefunded(w.ledger, o);
    var rest := w.orders.at[o].amount - recorded;
    if recorded < w.orders.at[o].amount {
      var n := EnoughTimes(rest, bound - recorded);
      var moves := Again(o, refundNo, rest, n);
      RefundsPileUp(w, o, refundNo, rest, n, n);
      LaterRefundsUnrecorded(w, moves, n, o);
      assert AllPositive(moves);
    } else if CanExceed(w, o, bound) {
      var moves :| AllApply(moves, o) && AllPositive(moves)
        && recorded + AcceptedRefunds(w, moves, |moves|) > bound;
      LaterRefundsUnrecorded(w, moves, |moves|, o);
      NothingAcceptable(w, o, moves, |moves|);
    }
  }

  /** After the first refund of an order has been accepted, the accepted refunds can exceed what was paid, and any bound
      at all, exactly if the first one was partial. */
  lemma RefundsExceedIff(w: World, o: string, refundNo: string, amount: real, freshId: string, bound: real)
    requires WorldOk(w) && Fresh(w, freshId) && (o, FlowEvent.REFUND) !in w.ledger.byKey
    requires ApplyRefund(w, o, refundNo, amount, true, true, freshId).1 == Accepted
    requires o != "" && o in w.orders.at && refundNo != o && w.orders.at[o].amount <= bound
    ensures CanExceed(ApplyRefund(w, o, refundNo, amount, true, true, freshId).0, o, bound)
       <==> amount < w.orders.at[o].amount
  {
    var w' := ApplyRefund(w, o, refundNo, amount, true, true, freshId).0;
    FirstIsRecorded(w, o, refundNo, amount, freshId);
    ExceedsIff(w', o, refundNo, bound);
  }

  // ---- the callbacks of refunds ----

  /** No step changes the terms of a paid order, unless it is an unsafe one of the order itself. */
  lemma PaidKeepsTerms(w: World, a: Action, freshId: string, o: string)
    requires PaidIn(w, o) && !(Unsafe(w, a) && OrderOf(a) == o)
    ensures KeepsTerms(w, Step(w, a, freshId).0, o)
  {
    StepShape(w, a, freshId);
  }

  /** A refund's callback carries the refund amount but is held against the whole order: in any run that does not order
      the number anew, the callback of a partial refund is refused every time and changes nothing. */
  lemma PartialRefundRefused(w: World, c: Callback, moves: seq<Move>, n: nat, freshId: string)
    requires n <= |moves| && NotOrdered(moves, n, c.tradeNo)
    requires c.tradeNo in w.orders.at && c.amount != w.orders.at[c.tradeNo].amount
    ensures HandleCallback(After(w, moves, n), Some(c), freshId) == (After(w, moves, n), Rejected(AmountMismatch))
  {
    ForeignCallbackRefused(w, c, moves, n, freshId);
  }

  lemma {:induction false} PaidTermsStay(w: World, moves: seq<Move>, n: nat, o: string)
    requires PaidIn(w, o) && n <= |moves| && OwnSafeTo(w, moves, n, o)
    ensures KeepsTerms(w, After(w, moves, n), o)
  {
    if n > 0 {
      PaidTermsStay(w, moves, n - 1, o);
      PaidStays(w, moves, n - 1, o);
      assert OwnSafeAt(w, moves, n - 1, o);
      PaidKeepsTerms(After(w, moves, n - 1), moves[n - 1].action, moves[n - 1].freshId, o);
    }
  }

  /** So whenever a run without unsafe steps of its own has brought a paid order, the callback of its refund is taken
      exactly if it is about the whole amount and names the order's attachment. */
  lemma RefundCallbackIff(w: World, c: Callback, moves: seq<Move>, n: nat, freshId: string)
    requires PaidIn(w, c.tradeNo) && n <= |moves| && OwnSafeTo(w, moves, n, c.tradeNo)
    requires c.eventType == "REFUND.SUCCESS"
    ensures HandleCallback(After(w, moves, n), Some(c), freshId).1 == Accepted
       <==> SameTerms(c, w.orders.at[c.tradeNo])
  {
    PaidStays(w, moves, n, c.tradeNo);
    PaidTermsStay(w, moves, n, c.tradeNo);
    TakenIff(After(w, moves, n), c);
  }
}
