/** The payment order's state machine. */
module PaymentStateMachine {
  import opened Options

  datatype Status = SUCCESS | REFUND | NOTPAY | CLOSED | REVOKED | PAYERROR | USERPAYING | EXCEPTION

  datatype PayEvent =
    | PAY_SUCCESS | PAY_FAILED | PAY_TIMEOUT | CLOSE | CONFIRM_FAILED | CONFIRM_EXCEED
    | RECONCILE_SUCCESS | RECONCILE_FAILED | REFUND_SUCCESS | REFUND_PARTIAL

  /** The same event again in the same state is no conflict. */
  predicate IsIdempotentRepeat(current: Status, event: PayEvent) {
    (current, event) in {(Status.SUCCESS, PAY_SUCCESS), (Status.SUCCESS, REFUND_PARTIAL),
                         (Status.REFUND, REFUND_SUCCESS), (Status.CLOSED, PayEvent.CLOSE)}
  }

  function Transition(current: Status, event: PayEvent): Option<Status> {
    match (current, event)
    case (NOTPAY, PAY_SUCCESS) => Some(Status.SUCCESS)
    case (NOTPAY, PAY_FAILED) => Some(PAYERROR)
    case (NOTPAY, PAY_TIMEOUT) => Some(Status.CLOSED)
    case (NOTPAY, CLOSE) => Some(Status.CLOSED)
    case (USERPAYING, PAY_SUCCESS) => Some(Status.SUCCESS)
    case (USERPAYING, PAY_FAILED) => Some(PAYERROR)
    case (USERPAYING, CONFIRM_FAILED) => Some(Status.CLOSED)
    case (USERPAYING, CONFIRM_EXCEED) => Some(EXCEPTION)
    case (EXCEPTION, RECONCILE_SUCCESS) => Some(Status.SUCCESS)
    case (EXCEPTION, RECONCILE_FAILED) => Some(Status.CLOSED)
    case (SUCCESS, REFUND_SUCCESS) => Some(Status.REFUND)
    case (SUCCESS, REFUND_PARTIAL) => Some(Status.SUCCESS)
    case _ => None
  }

  /** The state after an event, or none for an illegal one. */
  function Target(current: Status, event: PayEvent): Option<Status> {
    if IsIdempotentRepeat(current, event) then Some(current) else Transition(current, event)
  }

  /** From which states and by which events each state is reached; nothing leads to any other. */
  lemma ReachedIff(s: Status, e: PayEvent)
    ensures Target(s, e) == Some(Status.SUCCESS)
       <==> || (s in {NOTPAY, USERPAYING, Status.SUCCESS} && e == PAY_SUCCESS)
            || (s == EXCEPTION && e == RECONCILE_SUCCESS) || (s == Status.SUCCESS && e == REFUND_PARTIAL)
    ensures Target(s, e) == Some(Status.REFUND) <==> s in {Status.SUCCESS, Status.REFUND} && e == REFUND_SUCCESS
    ensures Target(s, e) == Some(Status.CLOSED)
       <==> || (s in {NOTPAY, Status.CLOSED} && e == PayEvent.CLOSE) || (s == NOTPAY && e == PAY_TIMEOUT)
            || (s == USERPAYING && e == CONFIRM_FAILED) || (s == EXCEPTION && e == RECONCILE_FAILED)
    ensures Target(s, e) == Some(PAYERROR) <==> s in {NOTPAY, USERPAYING} && e == PAY_FAILED
    ensures Target(s, e) == Some(EXCEPTION) <==> s == USERPAYING && e == CONFIRM_EXCEED
    ensures Target(s, e) !in {Some(NOTPAY), Some(USERPAYING), Some(REVOKED)}
  {
  }

  predicate IsTerminal(s: Status) {
    s in {Status.SUCCESS, Status.CLOSED, REVOKED, Status.REFUND}
  }

  /** The state after a sequence of events, ignoring illegal ones as the callers do. */
  function StatusAfter(s: Status, events: seq<PayEvent>): Status
    decreases |events|
  {
    if events == [] then s
    else StatusAfter(if Target(s, events[0]).Some? then Target(s, events[0]).value else s, events[1..])
  }

  /** A terminal state is never left, except that a paid order may become refunded; so no sequence of events takes a
      paid order back, or a closed one to paid. */
  lemma {:induction false} TerminalStays(s: Status, events: seq<PayEvent>)
    requires IsTerminal(s)
    ensures StatusAfter(s, events) == s || (s == Status.SUCCESS && StatusAfter(s, events) == Status.REFUND)
    decreases |events|
  {
    if events != [] {
      var t := if Target(s, events[0]).Some? then Target(s, events[0]).value else s;
      TerminalStays(t, events[1..]);
    }
  }

  /** An accepted event can be delivered again without a conflict exactly when it is one of these four. */
  lemma RepeatableIff(s: Status, e: PayEvent)
    requires Target(s, e).Some?
    ensures Target(Target(s, e).value, e) == Target(s, e)
       <==> e in {PAY_SUCCESS, PayEvent.CLOSE, REFUND_SUCCESS, REFUND_PARTIAL}
  {
  }
}

/** The money ledger: flow records under two indexes, one record per order and event, and reversals. */
module PaymentLedger {
  import opened Collections
  import opened Options

  datatype FlowEvent = PAY | REFUND | CLOSE | REVERSAL

  datatype FlowStatus = BOOKED | PENDING | REVERSED | CLOSED

  datatype Record = Record(tradeNo: string, event: FlowEvent, amount: real, status: FlowStatus, flowId: string,
                           refundNo: string, originalId: string, isReversal: bool)

  type Key = (string, FlowEvent)

  /** The record objects and the two indexes, which refer to them by position: both see a change of a record. */
  datatype Ledger = Ledger(records: seq<Record>, flows: Dict<string, nat>, byKey: map<Key, nat>)

  function EmptyLedger(): Ledger {
    Ledger([], EmptyDict(), map[])
  }

  function KeyOf(r: Record): Key {
    (r.tradeNo, r.event)
  }

  function WithId(r: Record, freshId: string): Record {
    if r.flowId == "" then r.(flowId := freshId) else r
  }

  /** Marks the original of a stored reversal. */
  function Marked(l: Ledger, r: Record): seq<Record> {
    if r.isReversal && r.originalId != "" && r.originalId in l.flows.at && l.flows.at[r.originalId] < |l.records|
    then var i := l.flows.at[r.originalId]; l.records[i := l.records[i].(status := REVERSED)]
    else l.records
  }

  /** The ledger after appending, and the position of the record that the caller gets. */
  function Append(l: Ledger, r: Record, freshId: string): (Ledger, nat) {
    if KeyOf(r) in l.byKey then (l, l.byKey[KeyOf(r)]) else
    var stored := WithId(r, freshId);
    (Ledger(Marked(l, r) + [stored], l.flows.Put(stored.flowId, |l.records|), l.byKey[KeyOf(r) := |l.records|]),
     |l.records|)
  }

  // ---- the two indexes agree ----

  ghost predicate FiledOk(l: Ledger, i: nat)
    requires i < |l.records|
  {
    var r := l.records[i];
    && r.flowId != ""
    && r.flowId in l.flows.at && l.flows.at[r.flowId] == i
    && KeyOf(r) in l.byKey && l.byKey[KeyOf(r)] == i
  }

  /** Each record is filed under its id and under its key, and nothing else is filed. */
  ghost predicate LedgerOk(l: Ledger) {
    && l.flows.Ok()
    && (forall i | 0 <= i < |l.records| :: FiledOk(l, i))
    && (forall k | k in l.byKey :: l.byKey[k] < |l.records| && KeyOf(l.records[l.byKey[k]]) == k)
    && (forall id | id in l.flows.at :: l.flows.at[id] < |l.records| && l.records[l.flows.at[id]].flowId == id)
  }

  lemma MarkedKeeps(l: Ledger, r: Record)
    ensures |Marked(l, r)| == |l.records|
    ensures forall i | 0 <= i < |l.records| :: Marked(l, r)[i].(status := l.records[i].status) == l.records[i]
  {
  }

  lemma AppendUsedIdBreaks(l: Ledger, r: Record, freshId: string)
    requires LedgerOk(l) && KeyOf(r) !in l.byKey && WithId(r, freshId).flowId in l.flows.at
    ensures !LedgerOk(Append(l, r, freshId).0)
  {
    var l' := Append(l, r, freshId).0;
    var i := l.flows.at[WithId(r, freshId).flowId];
    MarkedKeeps(l, r);
    assert l'.records[i].flowId == WithId(r, freshId).flowId;
    assert !FiledOk(l', i);
  }

  lemma FiledAfterAppend(l: Ledger, l': Ledger, r: Record, freshId: string)
    requires LedgerOk(l) && freshId != "" && KeyOf(r) !in l.byKey && WithId(r, freshId).flowId !in l.flows.at
    requires l' == Append(l, r, freshId).0
    ensures forall i | 0 <= i < |l'.records| :: FiledOk(l', i)
  {
    MarkedKeeps(l, r);
    forall i | 0 <= i < |l'.records| ensures FiledOk(l', i) {
      if i < |l.records| {
        assert FiledOk(l, i);
      }
    }
  }

  lemma AppendNewKeeps(l: Ledger, r: Record, freshId: string)
    requires LedgerOk(l) && freshId != "" && KeyOf(r) !in l.byKey && WithId(r, freshId).flowId !in l.flows.at
    ensures LedgerOk(Append(l, r, freshId).0)
  {
    var l' := Append(l, r, freshId).0;
    MarkedKeeps(l, r);
    l.flows.PutOk(WithId(r, freshId).flowId, |l.records|);
    FiledAfterAppend(l, l', r, freshId);
    forall k | k in l'.byKey ensures l'.byKey[k] < |l'.records| && KeyOf(l'.records[l'.byKey[k]]) == k {
      assert k != KeyOf(r) ==> k in l.byKey;
    }
    forall id | id in l'.flows.at ensures l'.flows.at[id] < |l'.records| && l'.records[l'.flows.at[id]].flowId == id {
      assert id != WithId(r, freshId).flowId ==> id in l.flows.at;
    }
  }

  /** Appending a record with a new key keeps the indexes in agreement exactly when its id is new; one with a known
      key changes nothing and yields the first record. */
  lemma AppendKeepsAgreementIff(l: Ledger, r: Record, freshId: string)
    requires LedgerOk(l) && freshId != ""
    ensures KeyOf(r) in l.byKey ==> Append(l, r, freshId) == (l, l.byKey[KeyOf(r)])
    ensures LedgerOk(Append(l, r, freshId).0) <==> KeyOf(r) in l.byKey || WithId(r, freshId).flowId !in l.flows.at
  {
    if KeyOf(r) !in l.byKey {
      if WithId(r, freshId).flowId in l.flows.at {
        AppendUsedIdBreaks(l, r, freshId);
      } else {
        AppendNewKeeps(l, r, freshId);
      }
    }
  }

  // ---- reversed exactly when a reversal says so ----

  ghost predicate NamedByReversal(l: Ledger, id: string) {
    exists j :: 0 <= j < |l.records| && l.records[j].isReversal && l.records[j].originalId == id
  }

  /** A record that is no reversal is marked reversed exactly when a stored reversal names it. */
  ghost predicate ReversedOk(l: Ledger) {
    forall i | 0 <= i < |l.records| && !l.records[i].isReversal ::
      l.records[i].status == REVERSED <==> NamedByReversal(l, l.records[i].flowId)
  }

  lemma NamedAfter(l: Ledger, r: Record, freshId: string, id: string)
    requires KeyOf(r) !in l.byKey
    ensures NamedByReversal(Append(l, r, freshId).0, id)
      <==> NamedByReversal(l, id) || (r.isReversal && r.originalId == id)
  {
    var l' := Append(l, r, freshId).0;
    MarkedKeeps(l, r);
    if NamedByReversal(l, id) {
      var j :| 0 <= j < |l.records| && l.records[j].isReversal && l.records[j].originalId == id;
      assert l'.records[j].isReversal && l'.records[j].originalId == id;
    }
    assert l'.records[|l.records|] == WithId(r, freshId);
  }

  /** Appending a new record keeps that exactly when the record is a reversal, or comes marked just as the stored
      reversals say. */
  lemma AppendKeepsReversedIff(l: Ledger, r: Record, freshId: string)
    requires LedgerOk(l) && ReversedOk(l) && freshId != ""
    requires KeyOf(r) !in l.byKey && WithId(r, freshId).flowId !in l.flows.at
    ensures ReversedOk(Append(l, r, freshId).0)
       <==> r.isReversal || (r.status == REVERSED <==> NamedByReversal(l, WithId(r, freshId).flowId))
  {
    var l', n := Append(l, r, freshId).0, |l.records|;
    MarkedKeeps(l, r);
    forall id ensures NamedByReversal(l', id) <==> NamedByReversal(l, id) || (r.isReversal && r.originalId == id) {
      NamedAfter(l, r, freshId, id);
    }
    forall i | 0 <= i < n && !l.records[i].isReversal
      ensures l'.records[i].status == REVERSED <==> NamedByReversal(l', l'.records[i].flowId)
    {
      assert FiledOk(l, i);
    }
    assert l'.records[n] == WithId(r, freshId);
  }

  // ---- reversing ----

  predicate IsReversalAt(l: Ledger, flowId: string, id: string) {
    && flowId in l.flows.at && l.flows.at[flowId] < |l.records|
    && l.records[l.flows.at[flowId]].isReversal && l.records[l.flows.at[flowId]].originalId == id
  }

  /** The first reversal of `id` among the first `n` filed records. */
  function FindReversalTo(l: Ledger, id: string, n: nat): Option<nat>
    requires n <= |l.flows.keys|
  {
    if n == 0 then None else
    var before := FindReversalTo(l, id, n - 1);
    if before.Some? then before
    else if IsReversalAt(l, l.flows.keys[n - 1], id) then Some(l.flows.at[l.flows.keys[n - 1]])
    else None
  }

  function FindReversal(l: Ledger, id: string): Option<nat> {
    FindReversalTo(l, id, |l.flows.keys|)
  }

  lemma {:induction false} FindReversalToIff(l: Ledger, id: string, n: nat)
    requires n <= |l.flows.keys|
    ensures FindReversalTo(l, id, n).Some? <==> exists k :: 0 <= k < n && IsReversalAt(l, l.flows.keys[k], id)
    ensures FindReversalTo(l, id, n).Some? ==>
              FindReversalTo(l, id, n).value < |l.records| && l.records[FindReversalTo(l, id, n).value].isReversal
              && l.records[FindReversalTo(l, id, n).value].originalId == id
  {
    if n > 0 {
      FindReversalToIff(l, id, n - 1);
    }
  }

  /** The search finds a reversal of `id` exactly when one is stored. */
  lemma FindReversalIff(l: Ledger, id: string)
    requires LedgerOk(l)
    ensures FindReversal(l, id).Some? <==> NamedByReversal(l, id)
    ensures FindReversal(l, id).Some? ==>
              FindReversal(l, id).value < |l.records| && l.records[FindReversal(l, id).value].isReversal
              && l.records[FindReversal(l, id).value].originalId == id
  {
    FindReversalToIff(l, id, |l.flows.keys|);
    if NamedByReversal(l, id) {
      var j :| 0 <= j < |l.records| && l.records[j].isReversal && l.records[j].originalId == id;
      assert FiledOk(l, j);
      assert l.records[j].flowId in Elements(l.flows.keys);
      var k :| 0 <= k < |l.flows.keys| && l.flows.keys[k] == l.records[j].flowId;
      assert IsReversalAt(l, l.flows.keys[k], id);
    }
  }

  datatype ReversalResult = Recorded(at: nat) | IsReversalItself | AlreadyReversed

  function ReversalOf(original: Record): Record {
    Record(original.tradeNo, REVERSAL, original.amount, REVERSED, "", original.refundNo, original.flowId, true)
  }

  function Reverse(l: Ledger, original: Record, freshId: string): (Ledger, ReversalResult) {
    if FindReversal(l, original.flowId).Some? then (l, Recorded(FindReversal(l, original.flowId).value))
    else if original.isReversal then (l, IsReversalItself)
    else if original.status == REVERSED then (l, AlreadyReversed)
    else var (l', at) := Append(l, ReversalOf(original), freshId); (l', Recorded(at))
  }

  /** The record that reversing yields is a reversal of this original exactly when one was stored before or the order
      had no reversal of anything yet: the ledger keeps one reversal per order, not one per record. */
  lemma ReversalNamesOriginalIff(l: Ledger, original: Record, freshId: string)
    requires LedgerOk(l) && freshId != "" && freshId !in l.flows.at
    requires Reverse(l, original, freshId).1.Recorded?
    ensures var (l', r) := Reverse(l, original, freshId);
            && LedgerOk(l') && r.at < |l'.records|
            && (l'.records[r.at].originalId == original.flowId && l'.records[r.at].isReversal
                <==> NamedByReversal(l, original.flowId) || (original.tradeNo, REVERSAL) !in l.byKey)
  {
    FindReversalIff(l, original.flowId);
    AppendKeepsAgreementIff(l, ReversalOf(original), freshId);
    if FindReversal(l, original.flowId).None? {
      if (original.tradeNo, REVERSAL) in l.byKey {
        var at := l.byKey[(original.tradeNo, REVERSAL)];
        assert !(l.records[at].isReversal && l.records[at].originalId == original.flowId);
      }
    }
  }

  const PAID := Record("order", PAY, 10.0, BOOKED, "1", "", "", false)

  const REFUNDED := Record("order", REFUND, 10.0, BOOKED, "2", "r", "", false)

  /** The ledger of an order with a payment and a refund. */
  function TwoFlows(): Ledger {
    Ledger([PAID, REFUNDED], Dict(["1", "2"], map["1" := 0, "2" := 1]),
           map[("order", PAY) := 0, ("order", REFUND) := 1])
  }

  lemma TwoFlowsOk()
    ensures LedgerOk(TwoFlows()) && ReversedOk(TwoFlows())
    ensures TwoFlows() == Append(Append(EmptyLedger(), PAID, "x").0, REFUNDED, "y").0
  {
    var l := TwoFlows();
    assert l.flows.keys[0] == "1" && l.flows.keys[1] == "2";
    assert Elements(l.flows.keys) == {"1", "2"};
    assert FiledOk(l, 0) && FiledOk(l, 1);
  }

  lemma AppendedReversal(l: Ledger)
    requires l == Append(TwoFlows(), ReversalOf(PAID), "3").0
    ensures l.records == [PAID.(status := REVERSED), REFUNDED, WithId(ReversalOf(PAID), "3")]
    ensures ("order", REVERSAL) in l.byKey && l.byKey[("order", REVERSAL)] == 2
  {
  }

  lemma FirstReversal(l: Ledger)
    requires l == Append(TwoFlows(), ReversalOf(PAID), "3").0
    ensures Reverse(TwoFlows(), PAID, "3") == (l, Recorded(2)) && LedgerOk(l)
  {
    TwoFlowsOk();
    FindReversalIff(TwoFlows(), "1");
    AppendKeepsAgreementIff(TwoFlows(), ReversalOf(PAID), "3");
  }

  /** So it happens that reversing the refund yields the reversal of the payment, and leaves the refund unmarked. */
  lemma SecondReversalYieldsFirst()
    ensures var (l, r) := Reverse(TwoFlows(), PAID, "3");
            && r == Recorded(2) && |l.records| == 3 && l.records[2].originalId == "1"
            && l.records[1] == REFUNDED && Reverse(l, REFUNDED, "4") == (l, r)
  {
    var l := Append(TwoFlows(), ReversalOf(PAID), "3").0;
    FirstReversal(l);
    AppendedReversal(l);
    assert !NamedByReversal(l, "2");
    FindReversalIff(l, "2");
  }

  /** A new reversal marks its original, when that is stored. */
  lemma NewReversalMarks(l: Ledger, i: nat, freshId: string)
    requires LedgerOk(l) && ReversedOk(l) && freshId != "" && freshId !in l.flows.at
    requires i < |l.records| && !l.records[i].isReversal && (l.records[i].tradeNo, REVERSAL) !in l.byKey
    ensures var (l', r) := Reverse(l, l.records[i], freshId);
            && r.Recorded? && i < |l'.records| && l'.records[i].status == REVERSED && ReversedOk(l')
  {
    FindReversalIff(l, l.records[i].flowId);
    assert FiledOk(l, i);
    if FindReversal(l, l.records[i].flowId).None? {
      AppendKeepsReversedIff(l, ReversalOf(l.records[i]), freshId);
      MarkedKeeps(l, ReversalOf(l.records[i]));
    }
  }

  lemma OnlyReversal(l: Ledger, original: Record, freshId: string)
    requires LedgerOk(l) && freshId != "" && freshId !in l.flows.at && (original.tradeNo, REVERSAL) !in l.byKey
    requires !NamedByReversal(l, original.flowId)
    ensures FindReversal(Append(l, ReversalOf(original), freshId).0, original.flowId) == Some(|l.records|)
  {
    var l' := Append(l, ReversalOf(original), freshId).0;
    AppendKeepsAgreementIff(l, ReversalOf(original), freshId);
    MarkedKeeps(l, ReversalOf(original));
    FindReversalIff(l', original.flowId);
    assert l'.records[|l.records|] == WithId(ReversalOf(original), freshId);
    assert NamedByReversal(l', original.flowId);
    var at := FindReversal(l', original.flowId).value;
    if at < |l.records| {
      assert false;
    }
  }

  /** Reversing the same record again changes nothing and yields the same record. */
  lemma ReversingAgain(l: Ledger, original: Record, original': Record, freshId: string, freshId': string)
    requires LedgerOk(l) && freshId != "" && freshId !in l.flows.at
    requires Reverse(l, original, freshId).1.Recorded?
    requires original' == original || (NamedByReversal(Reverse(l, original, freshId).0, original.flowId)
                                       && original' == original.(status := REVERSED))
    ensures Reverse(Reverse(l, original, freshId).0, original', freshId') == Reverse(l, original, freshId)
  {
    var (l', r) := Reverse(l, original, freshId);
    FindReversalIff(l, original.flowId);
    ReversalNamesOriginalIff(l, original, freshId);
    FindReversalIff(l', original.flowId);
    if FindReversal(l, original.flowId).None? && (original.tradeNo, REVERSAL) !in l.byKey {
      OnlyReversal(l, original, freshId);
    }
  }

  // ---- refunds of an order ----

  function RefundAmount(l: Ledger, tradeNo: string, flowId: string): real {
    if flowId in l.flows.at && l.flows.at[flowId] < |l.records|
       && KeyOf(l.records[l.flows.at[flowId]]) == (tradeNo, REFUND) && !l.records[l.flows.at[flowId]].isReversal
    then l.records[l.flows.at[flowId]].amount
    else 0.0
  }

  /** What the records filed under the first `n` ids add up to, over the refunds of an order. */
  function SumRefundedTo(l: Ledger, tradeNo: string, n: nat): real
    requires n <= |l.flows.keys|
  {
    if n == 0 then 0.0 else
    SumRefundedTo(l, tradeNo, n - 1) + RefundAmount(l, tradeNo, l.flows.keys[n - 1])
  }

  function SumRefunded(l: Ledger, tradeNo: string): real {
    SumRefundedTo(l, tradeNo, |l.flows.keys|)
  }

  lemma {:induction false} SumRefundedToIs(l: Ledger, tradeNo: string, flowId: string, n: nat)
    requires LedgerOk(l) && n <= |l.flows.keys|
    requires forall id | id in l.flows.at && id != flowId :: KeyOf(l.records[l.flows.at[id]]) != (tradeNo, REFUND)
    ensures SumRefundedTo(l, tradeNo, n)
         == if flowId in l.flows.keys[..n] then RefundAmount(l, tradeNo, flowId) else 0.0
  {
    if n > 0 {
      SumRefundedToIs(l, tradeNo, flowId, n - 1);
      var id := l.flows.keys[n - 1];
      assert id in Elements(l.flows.keys);
      assert l.flows.keys[..n] == l.flows.keys[..n - 1] + [id];
      if id in l.flows.keys[..n - 1] {
        assert false;
      }
    }
  }

  /** The refunds of an order add up to its one refund record: a second refund of the same order is not recorded. */
  lemma RefundedIsOneRecord(l: Ledger, tradeNo: string)
    requires LedgerOk(l)
    ensures SumRefunded(l, tradeNo)
         == if (tradeNo, REFUND) in l.byKey && !l.records[l.byKey[(tradeNo, REFUND)]].isReversal
            then l.records[l.byKey[(tradeNo, REFUND)]].amount else 0.0
  {
    var flowId := if (tradeNo, REFUND) in l.byKey then l.records[l.byKey[(tradeNo, REFUND)]].flowId else "";
    if (tradeNo, REFUND) in l.byKey {
      assert FiledOk(l, l.byKey[(tradeNo, REFUND)]);
      assert flowId in Elements(l.flows.keys);
    }
    forall id | id in l.flows.at
      ensures id != "" && (id != flowId ==> KeyOf(l.records[l.flows.at[id]]) != (tradeNo, REFUND))
    {
      assert FiledOk(l, l.flows.at[id]);
    }
    SumRefundedToIs(l, tradeNo, flowId, |l.flows.keys|);
    assert l.flows.keys[..|l.flows.keys|] == l.flows.keys;
  }
}
