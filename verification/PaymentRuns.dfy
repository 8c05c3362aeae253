/** What runs of payment steps promise about money, and where they do not keep it. */
module PaymentRuns {
  import opened Collections
  import opened Options
  import opened PaymentStateMachine
  import opened PaymentChannel
  import opened Sums

  // ---- totals ----

  ghost function PayRecords(l: Ledger): set<nat> {
    set i: nat | i < |l.records| && l.records[i].event == FlowEvent.PAY
  }

  ghost function PaidOrders(orders: Dict<string, LocalOrder>): set<string> {
    set o | o in orders.at && IsPaid(orders.at[o].status)
  }

  ghost function RecordAmount(l: Ledger): nat -> real {
    (i: nat) => if i < |l.records| then l.records[i].amount else 0.0
  }

  ghost function OrderAmount(orders: Dict<string, LocalOrder>): string -> real {
    o => if o in orders.at then orders.at[o].amount else 0.0
  }

  ghost function OrderNumber(l: Ledger): nat -> string {
    (i: nat) => if i < |l.records| then l.records[i].tradeNo else ""
  }

  ghost function PayRecordOf(l: Ledger): string -> nat {
    o => if (o, FlowEvent.PAY) in l.byKey then l.byKey[(o, FlowEvent.PAY)] else 0
  }

  /** When the ledger matches the orders, there are as many pay records as paid orders, and they add up to the same. */
  lemma TotalsAgree(w: World)
    requires WorldOk(w) && LedgerMatches(w)
    ensures |PayRecords(w.ledger)| == |PaidOrders(w.orders)|
    ensures SumOver(PayRecords(w.ledger), RecordAmount(w.ledger))
      == SumOver(PaidOrders(w.orders), OrderAmount(w.orders))
  {
    var l := w.ledger;
    forall i | i in PayRecords(l)
      ensures && OrderNumber(l)(i) in PaidOrders(w.orders) && PayRecordOf(l)(OrderNumber(l)(i)) == i
              && RecordAmount(l)(i) == OrderAmount(w.orders)(OrderNumber(l)(i))
    {
      assert Ledgers.FiledOk(l, i);
      assert PayBooked(l, l.records[i].tradeNo) == PaidFor(w.orders, l.records[i].tradeNo);
    }
    forall o | o in PaidOrders(w.orders)
      ensures PayRecordOf(l)(o) in PayRecords(l) && OrderNumber(l)(PayRecordOf(l)(o)) == o
    {
      assert PayBooked(l, o) == PaidFor(w.orders, o);
    }
    SumMatched(PayRecords(l), PaidOrders(w.orders), RecordAmount(l), OrderAmount(w.orders), OrderNumber(l),
               PayRecordOf(l));
  }

  function EmptyWorld(): World {
    World(EmptyDict(), Ledgers.EmptyLedger())
  }

  /** From empty stores, after any number of safe steps, what the pay records say came in is what the paid orders say.
      */
  lemma SafeRunTotals(moves: seq<Move>, n: nat)
    requires n <= |moves| && IdsFresh(EmptyWorld(), moves) && SafeTo(EmptyWorld(), moves, n)
    ensures var w := After(EmptyWorld(), moves, n);
            SumOver(PayRecords(w.ledger), RecordAmount(w.ledger))
              == SumOver(PaidOrders(w.orders), OrderAmount(w.orders))
  {
    assert LedgerMatches(EmptyWorld());
    MatchesThroughoutIff(EmptyWorld(), moves, n);
    AfterOk(EmptyWorld(), moves, n);
    TotalsAgree(After(EmptyWorld(), moves, n));
  }

  // ---- paid orders stay paid ----

  function StatusOf(w: World, o: string): Option<Status> {
    if o in w.orders.at then Some(w.orders.at[o].status) else None
  }

  predicate SameOrder(w: World, v: World, o: string) {
    (o in w.orders.at <==> o in v.orders.at) && (o in w.orders.at ==> v.orders.at[o] == w.orders.at[o])
  }

  /** A step leaves a paid order only as it is, or refunds it; and a refunded one as it is exactly when the step does
      not reuse or close its number. */
  lemma PaidStaysStep(w: World, a: Action, freshId: string, o: string)
    ensures StatusIs(w, o, Status.SUCCESS) ==>
              StatusOf(Step(w, a, freshId).0, o) in {Some(Status.SUCCESS), Some(Status.REFUND)}
    ensures StatusIs(w, o, Status.REFUND) ==>
              (StatusIs(Step(w, a, freshId).0, o, Status.REFUND) <==> !(Unsafe(w, a) && OrderOf(a) == o))
  {
    StepShape(w, a, freshId);
  }

  predicate PaidIn(w: World, o: string) {
    StatusIs(w, o, Status.SUCCESS) || StatusIs(w, o, Status.REFUND)
  }

  /** The step is not an unsafe one of this order; other orders may take any step. */
  predicate OwnSafeAt(w: World, moves: seq<Move>, k: nat, o: string)
    requires k < |moves|
  {
    !(Unsafe(After(w, moves, k), moves[k].action) && OrderOf(moves[k].action) == o)
  }

  ghost predicate OwnSafeTo(w: World, moves: seq<Move>, n: nat, o: string)
    requires n <= |moves|
  {
    forall k | 0 <= k < n :: OwnSafeAt(w, moves, k, o)
  }

  /** As long as none of its own steps is unsafe, a paid order only becomes refunded, and a refunded one stays so. */
  lemma {:induction false} PaidStays(w: World, moves: seq<Move>, n: nat, o: string)
    requires n <= |moves| && OwnSafeTo(w, moves, n, o) && PaidIn(w, o)
    ensures PaidIn(After(w, moves, n), o)
    ensures StatusIs(w, o, Status.REFUND) ==> StatusIs(After(w, moves, n), o, Status.REFUND)
  {
    if n > 0 {
      PaidStays(w, moves, n - 1, o);
      assert OwnSafeAt(w, moves, n - 1, o);
      PaidStaysStep(After(w, moves, n - 1), moves[n - 1].action, moves[n - 1].freshId, o);
    }
  }

  ghost predicate PaidThroughout(w: World, moves: seq<Move>, n: nat, o: string)
    requires n <= |moves|
  {
    forall k | 0 <= k <= n :: PaidIn(After(w, moves, k), o)
  }

  /** An unsafe step of a paid order itself leaves it unpaid. */
  lemma UnsafeUnpays(w: World, a: Action, freshId: string, o: string)
    requires PaidIn(w, o) && Unsafe(w, a) && OrderOf(a) == o
    ensures !PaidIn(Step(w, a, freshId).0, o)
  {
  }

  /** Over any run, whatever the other orders do, a paid order is paid or refunded all the way exactly when none of
      its own steps is unsafe. */
  lemma {:induction false} PaidThroughoutIff(w: World, moves: seq<Move>, n: nat, o: string)
    requires n <= |moves| && PaidIn(w, o)
    ensures PaidThroughout(w, moves, n, o) <==> OwnSafeTo(w, moves, n, o)
  {
    if OwnSafeTo(w, moves, n, o) {
      forall k | 0 <= k <= n ensures PaidIn(After(w, moves, k), o) {
        PaidStays(w, moves, k, o);
      }
    } else {
      PaidThroughoutIff(w, moves, n - 1, o);
      if OwnSafeTo(w, moves, n - 1, o) {
        PaidStays(w, moves, n - 1, o);
        assert !OwnSafeAt(w, moves, n - 1, o);
        UnsafeUnpays(After(w, moves, n - 1), moves[n - 1].action, moves[n - 1].freshId, o);
        assert !PaidIn(After(w, moves, n), o);
      } else {
        assert !PaidThroughout(w, moves, n - 1, o);
      }
    }
  }

  // ---- the ledger only grows ----

  predicate SameOrReversed(r: Ledgers.Record, r': Ledgers.Record) {
    r' == r || r' == r.(status := FlowStatus.REVERSED)
  }

  /** Every record stays where it is, as it is or marked reversed. */
  ghost predicate Grows(l: Ledger, l': Ledger) {
    && |l.records| <= |l'.records|
    && (forall i | 0 <= i < |l.records| :: SameOrReversed(l.records[i], l'.records[i]))
    && (forall k | k in l.byKey :: k in l'.byKey && l'.byKey[k] == l.byKey[k])
  }

  lemma AppendGrows(l: Ledger, r: Ledgers.Record, freshId: string)
    ensures Grows(l, Ledgers.Append(l, r, freshId).0)
  {
    Ledgers.MarkedKeeps(l, r);
    forall i | 0 <= i < |l.records| ensures SameOrReversed(l.records[i], Ledgers.Append(l, r, freshId).0.records[i]) {
    }
  }

  lemma GrowsOn(a: Ledger, b: Ledger, c: Ledger)
    requires Grows(a, b) && Grows(b, c)
    ensures Grows(a, c)
  {
    forall i | 0 <= i < |a.records| ensures SameOrReversed(a.records[i], c.records[i]) {
      assert SameOrReversed(a.records[i], b.records[i]);
      assert SameOrReversed(b.records[i], c.records[i]);
    }
  }

  lemma {:induction false} LedgerGrows(w: World, moves: seq<Move>, n: nat)
    requires n <= |moves|
    ensures Grows(w.ledger, After(w, moves, n).ledger)
  {
    if n > 0 {
      LedgerGrows(w, moves, n - 1);
      var v := After(w, moves, n - 1);
      StepShape(v, moves[n - 1].action, moves[n - 1].freshId);
      if RecordOf(v, moves[n - 1].action).Some? {
        AppendGrows(v.ledger, RecordOf(v, moves[n - 1].action).value, moves[n - 1].freshId);
      }
      GrowsOn(w.ledger, v.ledger, After(w, moves, n).ledger);
    }
  }

  // ---- delivering a callback again ----

  predicate Fits(w: World, c: Callback) {
    c.tradeNo in w.orders.at && c.amount == w.orders.at[c.tradeNo].amount && AttachFits(c, w.orders.at[c.tradeNo])
  }

  /** The order waits for what the callback reports. */
  predicate Awaits(w: World, c: Callback) {
    if EventOf(c) == Some(PAY_SUCCESS) then StatusIs(w, c.tradeNo, NOTPAY) || StatusIs(w, c.tradeNo, USERPAYING)
    else StatusIs(w, c.tradeNo, Status.SUCCESS)
  }

  /** The status that an accepted check leaves. */
  predicate Checked(w: World, c: Callback) {
    || StatusIs(w, c.tradeNo, Status.REFUND)
    || (StatusIs(w, c.tradeNo, Status.SUCCESS) && EventOf(c) == Some(PAY_SUCCESS))
  }

  lemma CheckedIsSilent(w: World, c: Callback)
    requires Checked(w, c)
    ensures Validate(w, c).0 == w
  {
    var (w', outcome) := Validate(w, c);
    if outcome == Accepted {
      var order := w.orders.at[c.tradeNo];
      assert order.(status := order.status) == order;
      assert w.orders.at[c.tradeNo := order] == w.orders.at;
    }
  }

  /** The status and the record that an accepted callback leaves. */
  predicate Settled(w: World, c: Callback) {
    Ledgers.KeyOf(FlowOf(c)) in w.ledger.byKey && Checked(w, c)
  }

  lemma AcceptedSettles(w: World, c: Callback, freshId: string)
    requires HandleCallback(w, Some(c), freshId).1 == Accepted
    ensures Settled(HandleCallback(w, Some(c), freshId).0, c)
  {
  }

  lemma SettledIsSilent(w: World, c: Callback, freshId: string)
    requires Settled(w, c)
    ensures HandleCallback(w, Some(c), freshId).0 == w
  {
    CheckedIsSilent(w, c);
  }

  lemma KnownChangesIff(w: World, c: Callback, freshId: string)
    requires EventOf(c).Some? && Ledgers.KeyOf(FlowOf(c)) in w.ledger.byKey
    ensures HandleCallback(w, Some(c), freshId).0 != w <==> Fits(w, c) && Awaits(w, c)
  {
    var (w', outcome) := Validate(w, c);
    if outcome == Accepted {
      var order := w.orders.at[c.tradeNo];
      if w'.orders.at[c.tradeNo] == order {
        assert w.orders.at[c.tradeNo := order] == w.orders.at;
      }
    }
  }

  /** After any run at all, delivering an accepted callback again changes the stores exactly if its order fits it and
      waits for it once more; that takes an unsafe step of the order. */
  lemma RedeliveryChangesIff(w: World, c: Callback, id: string, moves: seq<Move>, n: nat, id': string)
    requires HandleCallback(w, Some(c), id).1 == Accepted && n <= |moves|
    ensures var v := After(HandleCallback(w, Some(c), id).0, moves, n);
            HandleCallback(v, Some(c), id').0 != v <==> Fits(v, c) && Awaits(v, c)
  {
    var w' := HandleCallback(w, Some(c), id).0;
    AcceptedSettles(w, c, id);
    LedgerGrows(w', moves, n);
    KnownChangesIff(After(w', moves, n), c, id');
  }

  /** Delivering an accepted callback again, after any run without unsafe steps of its own order, changes neither
      store: it is the same again, or rejected. */
  lemma RedeliveryIsSilent(w: World, c: Callback, id: string, moves: seq<Move>, n: nat, id': string)
    requires HandleCallback(w, Some(c), id).1 == Accepted
    requires n <= |moves| && OwnSafeTo(HandleCallback(w, Some(c), id).0, moves, n, c.tradeNo)
    ensures var v := After(HandleCallback(w, Some(c), id).0, moves, n);
            HandleCallback(v, Some(c), id').0 == v
  {
    var w' := HandleCallback(w, Some(c), id).0;
    AcceptedSettles(w, c, id);
    PaidStays(w', moves, n, c.tradeNo);
    LedgerGrows(w', moves, n);
    SettledIsSilent(After(w', moves, n), c, id');
  }

  /** The same where callbacks are only checked, as the guide has it for the in-memory channel: checking an accepted
      callback again changes nothing. */
  lemma RecheckIsSilent(w: World, c: Callback, moves: seq<Move>, n: nat)
    requires Validate(w, c).1 == Accepted
    requires n <= |moves| && OwnSafeTo(Validate(w, c).0, moves, n, c.tradeNo)
    ensures var v := After(Validate(w, c).0, moves, n); Validate(v, c).0 == v
  {
    PaidStays(Validate(w, c).0, moves, n, c.tradeNo);
    CheckedIsSilent(After(Validate(w, c).0, moves, n), c);
  }

  /** Checking a callback first and then handling it is handling it. */
  lemma CheckedThenHandled(w: World, c: Callback, freshId: string)
    ensures HandleCallback(Validate(w, c).0, Some(c), freshId) == HandleCallback(w, Some(c), freshId)
  {
    var (w', outcome) := Validate(w, c);
    if outcome == Accepted {
      var order := w'.orders.at[c.tradeNo];
      assert order.(status := order.status) == order;
      assert w'.orders.at[c.tradeNo := order] == w'.orders.at;
    }
  }

  // ---- late callbacks ----

  /** After the close task has closed an order, its payment callback is refused; after closing alone it is refused
      only if the order was not waiting for payment. */
  lemma LatePaymentRefusedIff(w: World, c: Callback, query: Query, id: string, id': string)
    requires Fits(w, c) && EventOf(c) == Some(PAY_SUCCESS)
    requires CloseOrder(w, c.tradeNo, query, true, id).1 == Accepted
    ensures HandleCallback(CloseExpired(w, c.tradeNo, query, true, id).0, Some(c), id')
         == (CloseExpired(w, c.tradeNo, query, true, id).0, Rejected(StateConflict))
    ensures HandleCallback(CloseOrder(w, c.tradeNo, query, true, id).0, Some(c), id').1 == Accepted
       <==> StatusIs(w, c.tradeNo, NOTPAY) || StatusIs(w, c.tradeNo, USERPAYING)
  {
  }

  /** A refunded order's number is free for a new order, and the payment of that order is never booked. */
  lemma ReusedNumberSwallowsPayment(w: World, o: string, order: LocalOrder, c: Callback, freshId: string)
    requires LedgerMatches(w) && WorldOk(w) && StatusIs(w, o, Status.REFUND) && order.status == NOTPAY
    requires c.tradeNo == o && EventOf(c) == Some(PAY_SUCCESS) && c.amount == order.amount && AttachFits(c, order)
    ensures Prepay(w, o, order, true).1 == Accepted
    ensures var (w', outcome) := HandleCallback(Prepay(w, o, order, true).0, Some(c), freshId);
            outcome == Accepted && StatusIs(w', o, Status.SUCCESS) && w'.ledger == w.ledger
  {
    assert PayBooked(w.ledger, o) == PaidFor(w.orders, o);
  }

  // ---- reversals over runs ----

  ghost predicate NamesStored(l: Ledger) {
    forall j | 0 <= j < |l.records| && l.records[j].isReversal :: l.records[j].originalId in l.flows.at
  }

  lemma AppendKeepsReversals(l: Ledger, r: Ledgers.Record, freshId: string)
    requires Ledgers.LedgerOk(l) && Ledgers.ReversedOk(l) && NamesStored(l) && freshId != "" && freshId !in l.flows.at
    requires r.flowId == "" && (r.status == FlowStatus.REVERSED ==> r.isReversal)
    requires r.isReversal ==> r.originalId in l.flows.at
    ensures var l' := Ledgers.Append(l, r, freshId).0; Ledgers.ReversedOk(l') && NamesStored(l')
  {
    if Ledgers.KeyOf(r) !in l.byKey {
      assert !Ledgers.NamedByReversal(l, freshId);
      Ledgers.AppendKeepsReversedIff(l, r, freshId);
      Ledgers.MarkedKeeps(l, r);
    }
  }

  /** Only stored records are reversed. */
  predicate OriginalStoredAt(w: World, moves: seq<Move>, k: nat)
    requires k < |moves|
  {
    moves[k].action.DoReverse? ==> moves[k].action.original.flowId in After(w, moves, k).ledger.flows.at
  }

  /** Over any run that reverses stored records only, a record that is no reversal is marked reversed exactly when a
      stored reversal names it. */
  lemma {:induction false} ReversedThroughout(w: World, moves: seq<Move>, n: nat)
    requires WorldOk(w) && Ledgers.ReversedOk(w.ledger) && NamesStored(w.ledger)
    requires IdsFresh(w, moves) && n <= |moves| && forall k | 0 <= k < n :: OriginalStoredAt(w, moves, k)
    ensures Ledgers.ReversedOk(After(w, moves, n).ledger) && NamesStored(After(w, moves, n).ledger)
  {
    if n > 0 {
      ReversedThroughout(w, moves, n - 1);
      AfterOk(w, moves, n - 1);
      var v, m := After(w, moves, n - 1), moves[n - 1];
      assert FreshAt(w, moves, n - 1) && OriginalStoredAt(w, moves, n - 1);
      StepShape(v, m.action, m.freshId);
      if RecordOf(v, m.action).Some? {
        AppendKeepsReversals(v.ledger, RecordOf(v, m.action).value, m.freshId);
      }
    }
  }
}
