/** What a callback must say to be taken, and what it leaves, in terms of the stored order. */
module PaymentCallbacks {
  import opened Options
  import opened PaymentStateMachine
  import opened PaymentChannel

  /** The callback speaks of the order's amount, and of its attachment if both have one. */
  ghost predicate SameTerms(c: Callback, order: LocalOrder) {
    c.amount == order.amount && (c.attach != "" && order.attach != "" ==> c.attach == order.attach)
  }

  /** A payment is reported for an order that waits for it or is paid already, a refund for one that is paid or refunded
      already. */
  ghost predicate InTime(c: Callback, order: LocalOrder) {
    || (c.eventType == "TRANSACTION.SUCCESS" && order.status in {NOTPAY, USERPAYING, Status.SUCCESS})
    || (c.eventType == "PAY.SUCCESS" && order.status in {NOTPAY, USERPAYING, Status.SUCCESS})
    || (c.eventType == "REFUND.SUCCESS" && order.status in {Status.SUCCESS, Status.REFUND})
  }

  /** A callback is taken exactly if it has the terms of its stored order and comes in time; with other terms it is
      refused as a mismatch; and a taken one leaves the order paid or refunded, as it says. */
  lemma TakenIff(w: World, c: Callback)
    ensures Validate(w, c).1 == Accepted
       <==> c.tradeNo in w.orders.at && SameTerms(c, w.orders.at[c.tradeNo]) && InTime(c, w.orders.at[c.tradeNo])
    ensures Validate(w, c).1 == Rejected(AmountMismatch)
       <==> c.tradeNo in w.orders.at && !SameTerms(c, w.orders.at[c.tradeNo])
    ensures Validate(w, c).1 == Accepted ==>
              Validate(w, c).0.orders.at == w.orders.at[c.tradeNo := w.orders.at[c.tradeNo].(
                status := if c.eventType == "REFUND.SUCCESS" then Status.REFUND else Status.SUCCESS)]
  {
  }

  /** The first callback of its kind for an order is recorded as booked with what it says, a later one is not. */
  lemma TakenIsBooked(w: World, c: Callback, freshId: string)
    requires HandleCallback(w, Some(c), freshId).1 == Accepted
    ensures var event := if c.eventType == "REFUND.SUCCESS" then FlowEvent.REFUND else FlowEvent.PAY;
            HandleCallback(w, Some(c), freshId).0.ledger.records
            == if (c.tradeNo, event) in w.ledger.byKey then w.ledger.records
               else w.ledger.records
                    + [Ledgers.Record(c.tradeNo, event, c.amount, FlowStatus.BOOKED, freshId, c.refundNo, "", false)]
  {
  }

  /** Step `k` does not order the number anew. */
  predicate NotOrderedAt(moves: seq<Move>, k: nat, o: string)
    requires k < |moves|
  {
    !(moves[k].action.DoPrepay? && moves[k].action.o == o)
  }

  ghost predicate NotOrdered(moves: seq<Move>, n: nat, o: string)
    requires n <= |moves|
  {
    forall k | 0 <= k < n :: NotOrderedAt(moves, k, o)
  }

  /** The order as it is apart from its status. */
  predicate KeepsTerms(w: World, v: World, o: string) {
    && o in w.orders.at && o in v.orders.at
    && v.orders.at[o] == w.orders.at[o].(status := v.orders.at[o].status)
  }

  lemma StepKeepsTerms(w: World, a: Action, freshId: string, o: string)
    requires o in w.orders.at && !(a.DoPrepay? && a.o == o)
    ensures KeepsTerms(w, Step(w, a, freshId).0, o)
  {
    StepShape(w, a, freshId);
  }

  lemma {:induction false} TermsStay(w: World, moves: seq<Move>, n: nat, o: string)
    requires n <= |moves| && NotOrdered(moves, n, o) && o in w.orders.at
    ensures KeepsTerms(w, After(w, moves, n), o)
  {
    if n > 0 {
      TermsStay(w, moves, n - 1, o);
      assert NotOrderedAt(moves, n - 1, o);
      StepKeepsTerms(After(w, moves, n - 1), moves[n - 1].action, moves[n - 1].freshId, o);
    }
  }

  /** In any run that does not order the number anew, a callback with another amount or another attachment than the
      order's is refused every time, and changes nothing; the foreign attachment alone is enough. */
  lemma ForeignCallbackRefused(w: World, c: Callback, moves: seq<Move>, n: nat, freshId: string)
    requires n <= |moves| && NotOrdered(moves, n, c.tradeNo) && c.tradeNo in w.orders.at
    requires || c.amount != w.orders.at[c.tradeNo].amount
             || (c.attach != "" && w.orders.at[c.tradeNo].attach != "" && c.attach != w.orders.at[c.tradeNo].attach)
    ensures HandleCallback(After(w, moves, n), Some(c), freshId) == (After(w, moves, n), Rejected(AmountMismatch))
    ensures Validate(After(w, moves, n), c) == (After(w, moves, n), Rejected(AmountMismatch))
  {
    TermsStay(w, moves, n, c.tradeNo);
    TakenIff(After(w, moves, n), c);
  }
}
