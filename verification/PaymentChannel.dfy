/** The money paths of a payment channel over the local orders and the ledger, each one step. */
module PaymentChannel {
  import opened Collections
  import opened Options
  import opened PaymentStateMachine
  import Ledgers = PaymentLedger

  type Ledger = Ledgers.Ledger

  type FlowEvent = Ledgers.FlowEvent

  type FlowStatus = Ledgers.FlowStatus

  datatype LocalOrder = LocalOrder(amount: real, status: Status, attach: string, expireAt: Option<real>)

  datatype World = World(orders: Dict<string, LocalOrder>, ledger: Ledger)

  datatype Error = StateConflict | AmountMismatch | SignVerifyFailed | Unsupported | RefundExceeds | ChannelFailed

  datatype Outcome = Accepted | Rejected(error: Error)

  /** What the channel says about an order before it is closed. */
  datatype Query = QueryFailed | SaysPaid | SaysUnpaid

  datatype Callback = Callback(eventType: string, tradeNo: string, amount: real, attach: string, refundNo: string)

  predicate StatusIs(w: World, o: string, s: Status) {
    o in w.orders.at && w.orders.at[o].status == s
  }

  // ---- the stores ----

  function SetStatus(orders: Dict<string, LocalOrder>, o: string, s: Status): Dict<string, LocalOrder> {
    if o in orders.at then orders.Put(o, orders.at[o].(status := s)) else orders
  }

  function FlowRecord(o: string, event: FlowEvent, amount: real, status: FlowStatus, refundNo: string): Ledgers.Record {
    Ledgers.Record(o, event, amount, status, "", refundNo, "", false)
  }

  function Persist(w: World, r: Ledgers.Record, freshId: string): World {
    w.(ledger := Ledgers.Append(w.ledger, r, freshId).0)
  }

  // ---- the money paths ----

  function Prepay(w: World, o: string, order: LocalOrder, channelOk: bool): (World, Outcome)
    requires order.status == NOTPAY
  {
    if StatusIs(w, o, Status.SUCCESS) || StatusIs(w, o, USERPAYING) || StatusIs(w, o, EXCEPTION)
    then (w, Rejected(StateConflict))
    else if !channelOk then (w, Rejected(ChannelFailed))
    else (w.(orders := w.orders.Put(o, order)), Accepted)
  }

  function ApplyRefund(w: World, o: string, refundNo: string, amount: real, supported: bool, channelOk: bool,
                       freshId: string): (World, Outcome)
  {
    if !supported then (w, Rejected(Unsupported))
    else if (refundNo, FlowEvent.REFUND) in w.ledger.byKey then (w, Rejected(StateConflict))
    else if o != "" && o in w.orders.at && Ledgers.SumRefunded(w.ledger, o) + amount > w.orders.at[o].amount
    then (w, Rejected(RefundExceeds))
    else if !channelOk then (w, Rejected(ChannelFailed))
    else (Persist(w, FlowRecord(o, FlowEvent.REFUND, amount, FlowStatus.PENDING, refundNo), freshId), Accepted)
  }

  function CloseOrder(w: World, o: string, query: Query, closeOk: bool, freshId: string): (World, Outcome) {
    if StatusIs(w, o, Status.CLOSED) then (w, Accepted)
    else if StatusIs(w, o, Status.SUCCESS) then (w, Rejected(StateConflict))
    else if query == QueryFailed then (w, Rejected(ChannelFailed))
    else if query == SaysPaid then (w, Rejected(StateConflict))
    else if !closeOk then (w, Rejected(ChannelFailed))
    else (Persist(w, FlowRecord(o, FlowEvent.CLOSE, 0.0, FlowStatus.CLOSED, ""), freshId), Accepted)
  }

  /** One order of the close task: closing and then the local status. */
  function CloseExpired(w: World, o: string, query: Query, closeOk: bool, freshId: string): (World, Outcome) {
    var (w', outcome) := CloseOrder(w, o, query, closeOk, freshId);
    if outcome == Accepted then (w'.(orders := SetStatus(w'.orders, o, Status.CLOSED)), Accepted) else (w', outcome)
  }

  function EventOf(c: Callback): Option<PayEvent> {
    if c.eventType in {"TRANSACTION.SUCCESS", "PAY.SUCCESS"} then Some(PAY_SUCCESS)
    else if c.eventType == "REFUND.SUCCESS" then Some(REFUND_SUCCESS)
    else None
  }

  predicate AttachFits(c: Callback, order: LocalOrder) {
    c.attach == "" || order.attach == "" || c.attach == order.attach
  }

  /** The checks on a verified callback, and the status change if they pass. */
  function Validate(w: World, c: Callback): (World, Outcome) {
    if c.tradeNo !in w.orders.at then (w, Rejected(StateConflict)) else
    var order := w.orders.at[c.tradeNo];
    if c.amount != order.amount then (w, Rejected(AmountMismatch))
    else if !AttachFits(c, order) then (w, Rejected(AmountMismatch))
    else if EventOf(c).None? then (w, Rejected(StateConflict))
    else match Target(order.status, EventOf(c).value)
      case None => (w, Rejected(StateConflict))
      case Some(status) => (w.(orders := SetStatus(w.orders, c.tradeNo, status)), Accepted)
  }

  function FlowOf(c: Callback): Ledgers.Record {
    var event := if EventOf(c) == Some(PAY_SUCCESS) then FlowEvent.PAY else FlowEvent.REFUND;
    FlowRecord(c.tradeNo, event, c.amount, FlowStatus.BOOKED, c.refundNo)
  }

  /** A callback: none if its signature does not verify. */
  function HandleCallback(w: World, parsed: Option<Callback>, freshId: string): (World, Outcome) {
    match parsed
    case None => (w, Rejected(SignVerifyFailed))
    case Some(c) =>
      var (w', outcome) := Validate(w, c);
      if outcome == Accepted then (Persist(w', FlowOf(c), freshId), Accepted) else (w', outcome)
  }

  datatype Action =
    | DoPrepay(o: string, amount: real, attach: string, expireAt: Option<real>, channelOk: bool)
    | DoRefund(o: string, refundNo: string, refunded: real, supported: bool, channelOk: bool)
    | DoCloseOrder(o: string, query: Query, closeOk: bool)
    | DoCloseExpired(o: string, query: Query, closeOk: bool)
    | DoCallback(parsed: Option<Callback>)
    | DoValidate(callback: Callback)
    | DoReverse(original: Ledgers.Record)

  function Step(w: World, a: Action, freshId: string): (World, Outcome) {
    match a
    case DoPrepay(o, amount, attach, expireAt, ok) => Prepay(w, o, LocalOrder(amount, NOTPAY, attach, expireAt), ok)
    case DoRefund(o, refundNo, amount, supported, ok) => ApplyRefund(w, o, refundNo, amount, supported, ok, freshId)
    case DoCloseOrder(o, query, ok) => CloseOrder(w, o, query, ok, freshId)
    case DoCloseExpired(o, query, ok) => CloseExpired(w, o, query, ok, freshId)
    case DoCallback(parsed) => HandleCallback(w, parsed, freshId)
    case DoValidate(c) => Validate(w, c)
    case DoReverse(original) =>
      var (l, r) := Ledgers.Reverse(w.ledger, original, freshId);
      (w.(ledger := l), if r.Recorded? then Accepted else Rejected(StateConflict))
  }

  // ---- what a step does to the two stores ----

  /** At most the order with number `o` changes, and then to `order`. */
  predicate OrdersStep(orders: Dict<string, LocalOrder>, orders': Dict<string, LocalOrder>, o: string) {
    orders' == orders || (o in orders'.at && orders' == orders.Put(o, orders'.at[o]))
  }

  function OrderOf(a: Action): string {
    match a
    case DoCallback(parsed) => if parsed.Some? then parsed.value.tradeNo else ""
    case DoValidate(c) => c.tradeNo
    case DoReverse(original) => original.tradeNo
    case _ => a.o
  }

  function CloseRecord(w: World, o: string): Option<Ledgers.Record> {
    if StatusIs(w, o, Status.CLOSED) then None
    else Some(FlowRecord(o, FlowEvent.CLOSE, 0.0, FlowStatus.CLOSED, ""))
  }

  /** The record that an accepted step appends. */
  function RecordOf(w: World, a: Action): Option<Ledgers.Record> {
    match a
    case DoRefund(o, refundNo, amount, _, _) => Some(FlowRecord(o, FlowEvent.REFUND, amount, FlowStatus.PENDING,
                                                                refundNo))
    case DoCloseOrder(o, _, _) => CloseRecord(w, o)
    case DoCloseExpired(o, _, _) => CloseRecord(w, o)
    case DoCallback(parsed) => if parsed.Some? then Some(FlowOf(parsed.value)) else None
    case DoReverse(original) =>
      if Ledgers.FindReversal(w.ledger, original.flowId).Some? then None else Some(Ledgers.ReversalOf(original))
    case _ => None
  }

  /** A rejected step changes nothing; an accepted one appends its record, and may change its order. */
  lemma StepShape(w: World, a: Action, freshId: string)
    ensures var (w', outcome) := Step(w, a, freshId);
            && (outcome != Accepted ==> w' == w)
            && OrdersStep(w.orders, w'.orders, OrderOf(a))
            && w'.ledger == (if outcome == Accepted && RecordOf(w, a).Some?
                             then Ledgers.Append(w.ledger, RecordOf(w, a).value, freshId).0 else w.ledger)
  {
  }

  predicate Fresh(w: World, id: string) {
    id != "" && id !in w.ledger.flows.at
  }

  ghost predicate WorldOk(w: World) {
    w.orders.Ok() && Ledgers.LedgerOk(w.ledger)
  }

  lemma StepKeepsOk(w: World, a: Action, freshId: string)
    requires WorldOk(w) && Fresh(w, freshId)
    ensures WorldOk(Step(w, a, freshId).0)
  {
    StepShape(w, a, freshId);
    var (w', outcome) := Step(w, a, freshId);
    if w'.orders != w.orders {
      w.orders.PutOk(OrderOf(a), w'.orders.at[OrderOf(a)]);
    }
    if outcome == Accepted && RecordOf(w, a).Some? {
      Ledgers.AppendKeepsAgreementIff(w.ledger, RecordOf(w, a).value, freshId);
    }
  }

  // ---- the ledger matches the orders ----

  /** The amount of an order's pay record. */
  function PayBooked(l: Ledger, o: string): Option<real> {
    if (o, FlowEvent.PAY) in l.byKey && l.byKey[(o, FlowEvent.PAY)] < |l.records|
    then Some(l.records[l.byKey[(o, FlowEvent.PAY)]].amount)
    else None
  }

  predicate IsPaid(s: Status) {
    s == Status.SUCCESS || s == Status.REFUND
  }

  /** The amount of an order that has been paid, refunded since or not. */
  function PaidFor(orders: Dict<string, LocalOrder>, o: string): Option<real> {
    if o in orders.at && IsPaid(orders.at[o].status) then Some(orders.at[o].amount) else None
  }

  /** Every paid order has its pay record with its amount, and no other order has one. */
  ghost predicate LedgerMatches(w: World) {
    forall o :: PayBooked(w.ledger, o) == PaidFor(w.orders, o)
  }

  /** The steps that do not keep the match: reusing the number of a refunded order, closing a refunded order in the
      close task, and checking a payment callback without booking it. */
  predicate Unsafe(w: World, a: Action) {
    match a
    case DoPrepay(o, _, _, _, channelOk) => channelOk && StatusIs(w, o, Status.REFUND)
    case DoCloseExpired(o, query, closeOk) => query == SaysUnpaid && closeOk && StatusIs(w, o, Status.REFUND)
    case DoValidate(c) =>
      && EventOf(c) == Some(PAY_SUCCESS)
      && (StatusIs(w, c.tradeNo, NOTPAY) || StatusIs(w, c.tradeNo, USERPAYING))
      && c.amount == w.orders.at[c.tradeNo].amount && AttachFits(c, w.orders.at[c.tradeNo])
    case _ => false
  }

  lemma AppendBooks(l: Ledger, r: Ledgers.Record, freshId: string, o: string)
    requires Ledgers.LedgerOk(l)
    ensures PayBooked(Ledgers.Append(l, r, freshId).0, o)
         == if PayBooked(l, o).None? && Ledgers.KeyOf(r) == (o, FlowEvent.PAY) then Some(r.amount) else PayBooked(l, o)
  {
    Ledgers.MarkedKeeps(l, r);
  }

  /** The pay record of an order that the step is not about stays, and so does its payment. */
  lemma OtherOrdersKeep(w: World, a: Action, freshId: string, o: string)
    requires WorldOk(w) && o != OrderOf(a)
    ensures PayBooked(Step(w, a, freshId).0.ledger, o) == PayBooked(w.ledger, o)
    ensures PaidFor(Step(w, a, freshId).0.orders, o) == PaidFor(w.orders, o)
  {
    StepShape(w, a, freshId);
    if RecordOf(w, a).Some? {
      AppendBooks(w.ledger, RecordOf(w, a).value, freshId, o);
    }
  }

  /** Only an accepted payment callback books a payment, and only the first one. */
  lemma OwnBooked(w: World, a: Action, freshId: string)
    requires WorldOk(w)
    ensures PayBooked(Step(w, a, freshId).0.ledger, OrderOf(a))
         == if && PayBooked(w.ledger, OrderOf(a)).None? && Step(w, a, freshId).1 == Accepted
               && a.DoCallback? && EventOf(a.parsed.value) == Some(PAY_SUCCESS)
            then Some(a.parsed.value.amount) else PayBooked(w.ledger, OrderOf(a))
  {
    StepShape(w, a, freshId);
    if RecordOf(w, a).Some? {
      AppendBooks(w.ledger, RecordOf(w, a).value, freshId, OrderOf(a));
    }
  }

  lemma CheckedPays(w: World, c: Callback)
    ensures PaidFor(Validate(w, c).0.orders, c.tradeNo)
         == if Validate(w, c).1 == Accepted then Some(c.amount) else PaidFor(w.orders, c.tradeNo)
    ensures Validate(w, c).1 == Accepted ==> c.amount == w.orders.at[c.tradeNo].amount
    ensures Validate(w, c).1 == Accepted && EventOf(c) == Some(REFUND_SUCCESS) ==> PaidFor(w.orders, c.tradeNo).Some?
    ensures Unsafe(w, DoValidate(c))
       <==> PaidFor(w.orders, c.tradeNo).None? && Validate(w, c).1 == Accepted
  {
  }

  lemma UnpaidStays(w: World, a: Action, freshId: string)
    requires !a.DoCallback? && !a.DoValidate?
    ensures PaidFor(Step(w, a, freshId).0.orders, OrderOf(a))
         == if Unsafe(w, a) then None else PaidFor(w.orders, OrderOf(a))
    ensures Unsafe(w, a) ==> PaidFor(w.orders, OrderOf(a)).Some?
  {
  }

  /** The order that the step is about stays matched exactly when the step is safe. */
  lemma OwnOrderMatchesIff(w: World, a: Action, freshId: string)
    requires WorldOk(w) && PayBooked(w.ledger, OrderOf(a)) == PaidFor(w.orders, OrderOf(a))
    ensures PayBooked(Step(w, a, freshId).0.ledger, OrderOf(a)) == PaidFor(Step(w, a, freshId).0.orders, OrderOf(a))
       <==> !Unsafe(w, a)
  {
    OwnBooked(w, a, freshId);
    if a.DoValidate? {
      CheckedPays(w, a.callback);
    } else if a.DoCallback? {
      if a.parsed.Some? {
        CheckedPays(w, a.parsed.value);
      }
    } else {
      UnpaidStays(w, a, freshId);
    }
  }

  /** A step keeps the ledger matching the orders exactly when it is safe. */
  lemma StepMatchesIff(w: World, a: Action, freshId: string)
    requires WorldOk(w) && LedgerMatches(w)
    ensures LedgerMatches(Step(w, a, freshId).0) <==> !Unsafe(w, a)
  {
    OwnOrderMatchesIff(w, a, freshId);
    var w' := Step(w, a, freshId).0;
    if !Unsafe(w, a) {
      forall o ensures PayBooked(w'.ledger, o) == PaidFor(w'.orders, o) {
        if o != OrderOf(a) {
          OtherOrdersKeep(w, a, freshId, o);
        }
      }
    }
  }

  // ---- whole runs ----

  datatype Move = Move(action: Action, freshId: string)

  function After(w: World, moves: seq<Move>, n: nat): World
    requires n <= |moves|
  {
    if n == 0 then w else Step(After(w, moves, n - 1), moves[n - 1].action, moves[n - 1].freshId).0
  }

  predicate FreshAt(w: World, moves: seq<Move>, k: nat)
    requires k < |moves|
  {
    Fresh(After(w, moves, k), moves[k].freshId)
  }

  /** Ids of new records are never used before. */
  ghost predicate IdsFresh(w: World, moves: seq<Move>) {
    forall k | 0 <= k < |moves| :: FreshAt(w, moves, k)
  }

  predicate SafeAt(w: World, moves: seq<Move>, k: nat)
    requires k < |moves|
  {
    !Unsafe(After(w, moves, k), moves[k].action)
  }

  ghost predicate SafeTo(w: World, moves: seq<Move>, n: nat)
    requires n <= |moves|
  {
    forall k | 0 <= k < n :: SafeAt(w, moves, k)
  }

  lemma {:induction false} AfterOk(w: World, moves: seq<Move>, n: nat)
    requires WorldOk(w) && IdsFresh(w, moves) && n <= |moves|
    ensures WorldOk(After(w, moves, n))
  {
    if n > 0 {
      AfterOk(w, moves, n - 1);
      assert FreshAt(w, moves, n - 1);
      StepKeepsOk(After(w, moves, n - 1), moves[n - 1].action, moves[n - 1].freshId);
    }
  }

  ghost predicate MatchesTo(w: World, moves: seq<Move>, n: nat)
    requires n <= |moves|
  {
    forall k | 0 <= k <= n :: LedgerMatches(After(w, moves, k))
  }

  lemma MatchesSnoc(w: World, moves: seq<Move>, n: nat)
    requires 0 < n <= |moves|
    ensures MatchesTo(w, moves, n) <==> MatchesTo(w, moves, n - 1) && LedgerMatches(After(w, moves, n))
  {
  }

  lemma SafeSnoc(w: World, moves: seq<Move>, n: nat)
    requires 0 < n <= |moves|
    ensures SafeTo(w, moves, n) <==> SafeTo(w, moves, n - 1) && SafeAt(w, moves, n - 1)
  {
  }

  lemma LastMatches(w: World, moves: seq<Move>, n: nat)
    requires n <= |moves| && MatchesTo(w, moves, n)
    ensures LedgerMatches(After(w, moves, n))
  {
  }

  /** Over a whole run the ledger matches the orders all the way exactly when every step is safe. */
  lemma {:induction false} MatchesThroughoutIff(w: World, moves: seq<Move>, n: nat)
    requires WorldOk(w) && LedgerMatches(w) && IdsFresh(w, moves) && n <= |moves|
    ensures MatchesTo(w, moves, n) <==> SafeTo(w, moves, n)
  {
    if n > 0 {
      MatchesThroughoutIff(w, moves, n - 1);
      MatchesSnoc(w, moves, n);
      SafeSnoc(w, moves, n);
      if MatchesTo(w, moves, n - 1) {
        LastMatches(w, moves, n - 1);
        AfterOk(w, moves, n - 1);
        StepMatchesIff(After(w, moves, n - 1), moves[n - 1].action, moves[n - 1].freshId);
      }
    }
  }
}
