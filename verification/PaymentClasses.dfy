/** The in-memory payment stores, updated in place. */
module InMemoryPaymentStores {
  import opened Collections
  import opened Options
  import opened PaymentStateMachine
  import opened PaymentChannel
  import L = PaymentLedger
  import C = PaymentCloseTask

  class InMemoryPaymentOrderStore {
    var orders: Dict<string, LocalOrder>

    constructor ()
      ensures orders == EmptyDict()
    {
      orders := EmptyDict();
    }

    method Find(o: string) returns (r: Option<LocalOrder>)
      ensures r.Some? <==> o in orders.at
      ensures r.Some? ==> r.value == orders.at[o]
    {
      r := if o in orders.at then Some(orders.at[o]) else None;
    }

    method Save(o: string, order: LocalOrder)
      modifies this
      ensures orders == old(orders).Put(o, order)
    {
      orders := orders.Put(o, order);
    }

    method UpdateStatus(o: string, status: Status) returns (found: bool)
      modifies this
      ensures found <==> o in old(orders).at
      ensures orders == SetStatus(old(orders), o, status)
    {
      if o !in orders.at {
        return false;
      }
      orders := orders.Put(o, orders.at[o].(status := status));
      return true;
    }

    method FindExpired(before: real, limit: int) returns (found: seq<string>)
      requires orders.Ok()
      ensures found == C.FindExpired(orders, before, limit)
      ensures forall o | o in found ::
                && o in orders.at && orders.at[o].status == NOTPAY
                && orders.at[o].expireAt.Some? && orders.at[o].expireAt.value < before
    {
      C.FoundAre(orders, before, limit);
      found := [];
      for i := 0 to |orders.keys|
        invariant found == KeepTo(orders.keys, C.Expired(orders, before), i)
      {
        var o := orders.keys[i];
        assert o in Elements(orders.keys);
        if orders.at[o].status == NOTPAY && orders.at[o].expireAt.Some? && orders.at[o].expireAt.value < before {
          found := found + [o];
        }
      }
      found := C.FirstOf(found, limit);
    }
  }

  class InMemoryPaymentFlowStore {
    var records: seq<L.Record>
    var flows: Dict<string, nat>
    var byKey: map<L.Key, nat>

    ghost function Contents(): L.Ledger
      reads this
    {
      L.Ledger(records, flows, byKey)
    }

    ghost predicate Valid()
      reads this
    {
      L.LedgerOk(Contents())
    }

    constructor ()
      ensures Valid() && Contents() == L.EmptyLedger()
    {
      records, flows, byKey := [], EmptyDict(), map[];
    }

    method Append(r: L.Record, freshId: string) returns (at: nat)
      requires Valid() && freshId != ""
      requires WithNewId(r, freshId)
      modifies this
      ensures Valid()
      ensures (Contents(), at) == L.Append(old(Contents()), r, freshId)
    {
      L.AppendKeepsAgreementIff(Contents(), r, freshId);
      var key := L.KeyOf(r);
      if key in byKey {
        return byKey[key];
      }
      var stored := r;
      if stored.flowId == "" {
        stored := stored.(flowId := freshId);
      }
      if r.isReversal && r.originalId != "" && r.originalId in flows.at {
        var i := flows.at[r.originalId];
        records := records[i := records[i].(status := L.REVERSED)];
      }
      at := |records|;
      records := records + [stored];
      flows := flows.Put(stored.flowId, at);
      byKey := byKey[key := at];
    }

    /** A record whose key is known is not stored, so its id does not matter. */
    ghost predicate WithNewId(r: L.Record, freshId: string)
      reads this
    {
      L.KeyOf(r) in byKey || L.WithId(r, freshId).flowId !in flows.at
    }

    method FindReversal(id: string) returns (at: Option<nat>)
      requires Valid()
      ensures at == L.FindReversal(Contents(), id)
      ensures at.Some? <==> L.NamedByReversal(Contents(), id)
    {
      L.FindReversalIff(Contents(), id);
      at := None;
      for i := 0 to |flows.keys|
        invariant at == L.FindReversalTo(Contents(), id, i)
      {
        assert flows.keys[i] in Elements(flows.keys);
        var j := flows.at[flows.keys[i]];
        if at.None? && records[j].isReversal && records[j].originalId == id {
          at := Some(j);
        }
      }
    }

    method SumRefunded(tradeNo: string) returns (total: real)
      requires Valid()
      ensures total == L.SumRefunded(Contents(), tradeNo)
      ensures total == if (tradeNo, L.REFUND) in byKey && !records[byKey[(tradeNo, L.REFUND)]].isReversal
                       then records[byKey[(tradeNo, L.REFUND)]].amount else 0.0
    {
      L.RefundedIsOneRecord(Contents(), tradeNo);
      total := 0.0;
      for i := 0 to |flows.keys|
        invariant total == L.SumRefundedTo(Contents(), tradeNo, i)
      {
        assert flows.keys[i] in Elements(flows.keys);
        var r := records[flows.at[flows.keys[i]]];
        if r.tradeNo == tradeNo && r.event == L.REFUND && !r.isReversal {
          total := total + r.amount;
        }
      }
    }
  }

  /** Reversing a record: the record found or stored is given by its position. */
  method ReversalFlow(flowStore: InMemoryPaymentFlowStore, original: L.Record, freshId: string)
    returns (r: L.ReversalResult)
    requires flowStore.Valid() && freshId != "" && freshId !in flowStore.flows.at
    modifies flowStore
    ensures flowStore.Valid()
    ensures (flowStore.Contents(), r) == L.Reverse(old(flowStore.Contents()), original, freshId)
    ensures r.IsReversalItself?
       <==> !L.NamedByReversal(old(flowStore.Contents()), original.flowId) && original.isReversal
    ensures r.AlreadyReversed?
       <==> !L.NamedByReversal(old(flowStore.Contents()), original.flowId) && !original.isReversal
            && original.status == L.REVERSED
    ensures !r.Recorded? ==> flowStore.Contents() == old(flowStore.Contents())
    ensures |flowStore.records| > |old(flowStore.records)| ==>
              flowStore.records[|flowStore.records| - 1]
              == L.Record(original.tradeNo, L.REVERSAL, original.amount, L.REVERSED, freshId, original.refundNo,
                          original.flowId, true)
  {
    var existing := flowStore.FindReversal(original.flowId);
    if existing.Some? {
      return L.Recorded(existing.value);
    }
    if original.isReversal {
      return L.IsReversalItself;
    }
    if original.status == L.REVERSED {
      return L.AlreadyReversed;
    }
    var at := flowStore.Append(L.ReversalOf(original), freshId);
    return L.Recorded(at);
  }
}

/** The channel's entry points over the two stores. */
module PaymentChannels {
  import opened Options
  import opened PaymentStateMachine
  import opened PaymentCallbacks
  import opened PaymentChannel
  import opened InMemoryPaymentStores

  class PaymentChannelTemplate {
    const orderStore: InMemoryPaymentOrderStore
    const flowStore: InMemoryPaymentFlowStore
    const capabilities: set<string>

    constructor (orderStore: InMemoryPaymentOrderStore, flowStore: InMemoryPaymentFlowStore, capabilities: set<string>)
      ensures this.orderStore == orderStore && this.flowStore == flowStore && this.capabilities == capabilities
    {
      this.orderStore, this.flowStore, this.capabilities := orderStore, flowStore, capabilities;
    }

    ghost function View(): World
      reads orderStore, flowStore
    {
      World(orderStore.orders, flowStore.Contents())
    }

    ghost predicate Valid()
      reads orderStore, flowStore
    {
      WorldOk(View())
    }

    function Supports(capability: string): bool {
      capabilities == {} || capability in capabilities
    }

    method Prepay(o: string, amount: real, attach: string, expireAt: Option<real>, channelOk: bool)
      returns (outcome: Outcome)
      requires Valid()
      modifies orderStore
      ensures Valid()
      ensures (View(), outcome) == Step(old(View()), DoPrepay(o, amount, attach, expireAt, channelOk), "")
      ensures outcome == Rejected(StateConflict)
         <==> o in old(orderStore.orders).at
              && old(orderStore.orders).at[o].status in {Status.SUCCESS, USERPAYING, EXCEPTION}
      ensures outcome == Accepted ==>
                orderStore.orders.at == old(orderStore.orders).at[o := LocalOrder(amount, NOTPAY, attach, expireAt)]
    {
      var local := orderStore.Find(o);
      if local.Some? && local.value.status in {Status.SUCCESS, USERPAYING, EXCEPTION} {
        return Rejected(StateConflict);
      }
      if !channelOk {
        return Rejected(ChannelFailed);
      }
      orderStore.Save(o, LocalOrder(amount, NOTPAY, attach, expireAt));
      old(orderStore.orders).PutOk(o, LocalOrder(amount, NOTPAY, attach, expireAt));
      return Accepted;
    }

    method CheckRefund(o: string, refundNo: string, amount: real) returns (error: Option<Error>)
      requires Valid()
      ensures error == if (refundNo, FlowEvent.REFUND) in flowStore.byKey then Some(StateConflict)
                       else if o != "" && o in orderStore.orders.at
                               && L.SumRefunded(flowStore.Contents(), o) + amount > orderStore.orders.at[o].amount
                       then Some(RefundExceeds) else None
    {
      if (refundNo, FlowEvent.REFUND) in flowStore.byKey {
        return Some(StateConflict);
      }
      if o != "" {
        var local := orderStore.Find(o);
        if local.Some? {
          var already := flowStore.SumRefunded(o);
          if already + amount > local.value.amount {
            return Some(RefundExceeds);
          }
        }
      }
      return None;
    }

    method PersistFlow(o: string, event: FlowEvent, amount: real, status: FlowStatus, refundNo: string, freshId: string)
      requires Valid() && Fresh(View(), freshId)
      modifies flowStore
      ensures Valid()
      ensures View() == Persist(old(View()), FlowRecord(o, event, amount, status, refundNo), freshId)
    {
      var at := flowStore.Append(FlowRecord(o, event, amount, status, refundNo), freshId);
    }

    method Refund(o: string, refundNo: string, amount: real, channelOk: bool, freshId: string)
      returns (outcome: Outcome)
      requires Valid() && Fresh(View(), freshId)
      modifies flowStore
      ensures Valid()
      ensures (View(), outcome) == Step(old(View()), DoRefund(o, refundNo, amount, Supports("refund"), channelOk),
                                        freshId)
      ensures outcome == Rejected(Unsupported) <==> capabilities != {} && "refund" !in capabilities
      ensures outcome == Accepted && (o, FlowEvent.REFUND) !in old(flowStore.byKey) ==>
                flowStore.records == old(flowStore.records) + [L.Record(o, FlowEvent.REFUND, amount, FlowStatus.PENDING,
                                                                        freshId, refundNo, "", false)]
    {
      if !Supports("refund") {
        return Rejected(Unsupported);
      }
      var error := CheckRefund(o, refundNo, amount);
      if error.Some? {
        return Rejected(error.value);
      }
      if !channelOk {
        return Rejected(ChannelFailed);
      }
      PersistFlow(o, FlowEvent.REFUND, amount, FlowStatus.PENDING, refundNo, freshId);
      return Accepted;
    }

    method CloseOrder(o: string, query: Query, closeOk: bool, freshId: string) returns (outcome: Outcome)
      requires Valid() && Fresh(View(), freshId)
      modifies flowStore
      ensures Valid()
      ensures (View(), outcome) == Step(old(View()), DoCloseOrder(o, query, closeOk), freshId)
      ensures outcome == Accepted
         <==> || (o in orderStore.orders.at && orderStore.orders.at[o].status == Status.CLOSED)
              || (query == SaysUnpaid && closeOk
                  && !(o in orderStore.orders.at && orderStore.orders.at[o].status == Status.SUCCESS))
      ensures flowStore.records == old(flowStore.records) ||
              flowStore.records == old(flowStore.records) + [L.Record(o, FlowEvent.CLOSE, 0.0, FlowStatus.CLOSED,
                                                                      freshId, "", "", false)]
    {
      var local := orderStore.Find(o);
      if local.Some? {
        if local.value.status == Status.CLOSED {
          return Accepted;
        }
        if local.value.status == Status.SUCCESS {
          return Rejected(StateConflict);
        }
      }
      if query == QueryFailed {
        return Rejected(ChannelFailed);
      }
      if query == SaysPaid {
        return Rejected(StateConflict);
      }
      if !closeOk {
        return Rejected(ChannelFailed);
      }
      PersistFlow(o, FlowEvent.CLOSE, 0.0, FlowStatus.CLOSED, "", freshId);
      return Accepted;
    }

    method VerifyAndCheck(c: Callback) returns (outcome: Outcome)
      requires Valid()
      modifies orderStore
      ensures Valid()
      ensures (View(), outcome) == Step(old(View()), DoValidate(c), "")
      ensures outcome == Accepted ==>
                && c.tradeNo in old(orderStore.orders).at
                && var order := old(orderStore.orders).at[c.tradeNo];
                   && c.amount == order.amount
                   && (c.attach != "" && order.attach != "" ==> c.attach == order.attach)
      ensures outcome == Accepted
         <==> c.tradeNo in old(orderStore.orders).at
              && SameTerms(c, old(orderStore.orders).at[c.tradeNo]) && InTime(c, old(orderStore.orders).at[c.tradeNo])
    {
      TakenIff(View(), c);
      StepShape(View(), DoValidate(c), "");
      var local := orderStore.Find(c.tradeNo);
      if local.None? {
        return Rejected(StateConflict);
      }
      if c.amount != local.value.amount {
        return Rejected(AmountMismatch);
      }
      if c.attach != "" && local.value.attach != "" && c.attach != local.value.attach {
        return Rejected(AmountMismatch);
      }
      var event := EventOf(c);
      if event.None? {
        return Rejected(StateConflict);
      }
      var target := Target(local.value.status, event.value);
      if target.None? {
        return Rejected(StateConflict);
      }
      var updated := orderStore.UpdateStatus(c.tradeNo, target.value);
      old(orderStore.orders).PutOk(c.tradeNo, local.value.(status := target.value));
      return Accepted;
    }

    method HandleCallback(parsed: Option<Callback>, freshId: string) returns (outcome: Outcome)
      requires Valid() && Fresh(View(), freshId)
      modifies orderStore, flowStore
      ensures Valid()
      ensures (View(), outcome) == Step(old(View()), DoCallback(parsed), freshId)
      ensures outcome == Accepted ==>
                && parsed.Some? && parsed.value.tradeNo in old(orderStore.orders).at
                && var c, order := parsed.value, old(orderStore.orders).at[parsed.value.tradeNo];
                   && c.amount == order.amount
                   && (c.attach != "" && order.attach != "" ==> c.attach == order.attach)
      ensures outcome == Accepted
         <==> parsed.Some? && parsed.value.tradeNo in old(orderStore.orders).at
              && SameTerms(parsed.value, old(orderStore.orders).at[parsed.value.tradeNo])
              && InTime(parsed.value, old(orderStore.orders).at[parsed.value.tradeNo])
      ensures outcome != Accepted ==> View() == old(View())
      ensures outcome == Accepted ==>
                var c := parsed.value;
                var event := if c.eventType == "REFUND.SUCCESS" then FlowEvent.REFUND else FlowEvent.PAY;
                && flowStore.records
                   == (if (c.tradeNo, event) in old(flowStore.byKey) then old(flowStore.records)
                       else old(flowStore.records) + [L.Record(c.tradeNo, event, c.amount, FlowStatus.BOOKED, freshId,
                                                               c.refundNo, "", false)])
                && c.tradeNo in orderStore.orders.at
                && orderStore.orders.at[c.tradeNo].status
                   == if c.eventType == "REFUND.SUCCESS" then Status.REFUND else Status.SUCCESS
    {
      if parsed.Some? {
        TakenIff(View(), parsed.value);
      }
      if parsed.None? {
        return Rejected(SignVerifyFailed);
      }
      var c := parsed.value;
      outcome := VerifyAndCheck(c);
      if outcome != Accepted {
        return;
      }
      var event := if EventOf(c) == Some(PAY_SUCCESS) then FlowEvent.PAY else FlowEvent.REFUND;
      PersistFlow(c.tradeNo, event, c.amount, FlowStatus.BOOKED, c.refundNo, freshId);
    }

    method CloseExpired(o: string, query: Query, closeOk: bool, freshId: string) returns (outcome: Outcome)
      requires Valid() && Fresh(View(), freshId)
      modifies orderStore, flowStore
      ensures Valid()
      ensures (View(), outcome) == Step(old(View()), DoCloseExpired(o, query, closeOk), freshId)
    {
      StepKeepsOk(View(), DoCloseExpired(o, query, closeOk), freshId);
      outcome := CloseOrder(o, query, closeOk, freshId);
      if outcome == Accepted {
        var updated := orderStore.UpdateStatus(o, Status.CLOSED);
      }
    }
  }

  /** The close task over a channel and its order store. */
  method CloseExpiredOrders(channel: PaymentChannelTemplate, before: real, limit: int, answers: nat -> C.Answer)
    returns (closed: nat)
    requires channel.Valid()
    requires C.SweepFresh(channel.View(), C.FindExpired(channel.orderStore.orders, before, limit), answers)
    modifies channel.orderStore, channel.flowStore
    ensures channel.Valid()
    ensures var found := C.FindExpired(old(channel.orderStore.orders), before, limit);
            (channel.View(), closed) == C.SweepTo(old(channel.View()), found, answers, |found|)
  {
    var found := channel.orderStore.FindExpired(before, limit);
    closed := 0;
    ghost var w := channel.View();
    for i := 0 to |found|
      invariant channel.Valid()
      invariant channel.View() == C.SweepTo(w, found, answers, i).0
      invariant closed == C.SweepTo(w, found, answers, i).1
    {
      assert C.FreshIn(w, found, answers, i);
      C.SweepNext(w, found, answers, i, channel.View(), closed);
      var outcome := channel.CloseExpired(found[i], answers(i).query, answers(i).closeOk, answers(i).freshId);
      if outcome == Accepted {
        closed := closed + 1;
      }
    }
  }
}
