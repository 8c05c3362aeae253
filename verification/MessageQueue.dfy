/** The in-memory message queue as a state machine: publishing, delayed messages and their cancellation, dispatch,
    retries with exponential back-off and dead letters, interleaved in any way. */
module QueueModel {
  import opened Options

  datatype Body =
    | Plain(bizId: Option<string>, content: string)
    | DeadLetter(originalId: string, originalTopic: string, letterBizId: string, retryCount: int, error: string,
                 payload: Body)

  datatype Message = Message(id: string, topic: string, tag: string, body: Body)

  function BizId(body: Body): Option<string> {
    match body
    case Plain(bizId, _) => bizId
    case DeadLetter(_, _, bizId, _, _, _) => Some(bizId)
  }

  /** How one subscribed handler ended. */
  datatype Outcome = Done | Retryable(error: string) | NonRetryable(error: string)

  datatype Config = Config(deadLetterTopic: string, maxRetries: int, backoff: int)

  /** What happened to messages, for the record only. */
  datatype Event =
    | Attempted(m: Message, outcome: Outcome)
    | Scheduled(m: Message, delay: int)
    | Died(m: Message, letter: Message)

  /** Where messages end up, for the record only. */
  datatype Tally = Tally(accepted: multiset<Message>, consumed: multiset<Message>, dead: multiset<Message>,
                         dropped: multiset<Message>, lost: multiset<Message>, log: seq<Event>)

  /** The queue's fields; `inFlight` is the message the dispatch loop holds, `timers` and `waiting` are the sleeping
      tasks of delayed messages and of retries. */
  datatype State = State(queue: seq<Message>, retryCounts: map<string, nat>, delayed: map<string, Message>,
                         cancelled: set<string>, running: bool, inFlight: Option<Message>, timers: multiset<string>,
                         waiting: multiset<Message>, tally: Tally)

  const INITIAL := State([], map[], map[], {}, false, None, multiset{}, multiset{},
                         Tally(multiset{}, multiset{}, multiset{}, multiset{}, multiset{}, []))

  /** The steps between two awaits. `letterId` is the fresh id a dead letter would get. */
  datatype Action =
    | Publish(m: Message)
    | SendDelay(m: Message)
    | Cancel(id: string)
    | DelayDue(id: string)
    | Start
    | Stop
    | Take
    | Finish(outcomes: seq<Outcome>, letterId: string)
    | RetryDue(m: Message)

  predicate Enabled(s: State, a: Action) {
    match a
    case DelayDue(id) => id in s.timers
    case Take => s.running && s.inFlight.None? && s.queue != []
    case Finish(_, _) => s.inFlight.Some?
    case RetryDue(m) => m in s.waiting
    case _ => true
  }

  // ---- the steps ----

  function Power2(n: nat): nat {
    if n == 0 then 1 else 2 * Power2(n - 1)
  }

  /** The failure of the last handler that failed decides. */
  function LastFailure(outcomes: seq<Outcome>, n: nat): Outcome
    requires n <= |outcomes|
  {
    if n == 0 then Done
    else if outcomes[n - 1] != Done then outcomes[n - 1]
    else LastFailure(outcomes, n - 1)
  }

  /** It is a success exactly if no handler failed, and otherwise what the last of the failed ones said. */
  lemma {:induction false} LastFailureIs(outcomes: seq<Outcome>, n: nat)
    requires n <= |outcomes|
    ensures LastFailure(outcomes, n) == Done <==> forall i | 0 <= i < n :: outcomes[i] == Done
    ensures LastFailure(outcomes, n) != Done ==>
              exists k :: 0 <= k < n && outcomes[k] == LastFailure(outcomes, n)
                          && forall i | k < i < n :: outcomes[i] == Done
  {
    if n > 0 && outcomes[n - 1] == Done {
      LastFailureIs(outcomes, n - 1);
    }
  }

  function Accept(t: Tally, m: Message): Tally {
    t.(accepted := t.accepted + multiset{m})
  }

  function Note(t: Tally, e: Event): Tally {
    t.(log := t.log + [e])
  }

  function Letter(cfg: Config, m: Message, error: string, retryCount: int, letterId: string): Message {
    var biz := BizId(m.body);
    Message(letterId, cfg.deadLetterTopic, m.tag,
            DeadLetter(m.id, m.topic, if biz.Some? && biz.value != "" then biz.value else m.id,
                       retryCount, error, m.body))
  }

  function SentToDlq(s: State, m: Message, letter: Message): State {
    s.(queue := s.queue + [letter],
       tally := Accept(Note(s.tally, Died(m, letter)), letter).(dead := s.tally.dead + multiset{m}))
  }

  function RetriesOf(s: State, m: Message): nat {
    if m.id in s.retryCounts then s.retryCounts[m.id] else 0
  }

  /** A retryable failure: another try after a doubled delay while the limit allows, then a dead letter. */
  function Retried(cfg: Config, s: State, m: Message, error: string, letterId: string): State {
    var retries := RetriesOf(s, m) + 1;
    if retries <= cfg.maxRetries then
      s.(retryCounts := s.retryCounts[m.id := retries],
         waiting := s.waiting + multiset{m},
         tally := Note(s.tally, Scheduled(m, cfg.backoff * Power2(retries - 1))))
    else
      SentToDlq(s.(retryCounts := s.retryCounts - {m.id}), m, Letter(cfg, m, error, retries - 1, letterId))
  }

  function Finished(cfg: Config, s: State, m: Message, outcome: Outcome, letterId: string): State {
    var noted := s.(inFlight := None, tally := Note(s.tally, Attempted(m, outcome)));
    match outcome
    case Done =>
      noted.(retryCounts := s.retryCounts - {m.id},
             tally := noted.tally.(consumed := noted.tally.consumed + multiset{m}))
    case NonRetryable(error) => SentToDlq(noted, m, Letter(cfg, m, error, 0, letterId))
    case Retryable(error) => Retried(cfg, noted, m, error, letterId)
  }

  function DelaySent(s: State, m: Message): State {
    s.(delayed := s.delayed[m.id := m], timers := s.timers + multiset{m.id},
       tally := Accept(s.tally, m).(lost := if m.id in s.delayed then s.tally.lost + multiset{s.delayed[m.id]}
                                            else s.tally.lost))
  }

  /** A due message is enqueued unless it was cancelled. */
  function Due(s: State, m: Message, id: string): State {
    if id in s.cancelled
    then s.(cancelled := s.cancelled - {id}, tally := s.tally.(dropped := s.tally.dropped + multiset{m}))
    else s.(queue := s.queue + [m])
  }

  function DelayOver(s: State, id: string): State {
    var woken := s.(timers := s.timers - multiset{id});
    if id !in s.delayed then woken else Due(woken.(delayed := s.delayed - {id}), s.delayed[id], id)
  }

  function Stopped(s: State): State {
    if !s.running then s else
    s.(running := false, inFlight := None,
       tally := if s.inFlight.Some? then s.tally.(lost := s.tally.lost + multiset{s.inFlight.value}) else s.tally)
  }

  function Step(cfg: Config, s: State, a: Action): State
    requires Enabled(s, a)
  {
    match a
    case Publish(m) => s.(queue := s.queue + [m], tally := Accept(s.tally, m))
    case SendDelay(m) => DelaySent(s, m)
    case Cancel(id) => if id in s.delayed then s.(cancelled := s.cancelled + {id}) else s
    case DelayDue(id) => DelayOver(s, id)
    case Start => s.(running := true)
    case Stop => Stopped(s)
    case Take => s.(queue := s.queue[1..], inFlight := Some(s.queue[0]))
    case Finish(outcomes, letterId) =>
      Finished(cfg, s, s.inFlight.value, LastFailure(outcomes, |outcomes|), letterId)
    case RetryDue(m) => s.(waiting := s.waiting - multiset{m}, queue := s.queue + [m])
  }

  /** Handler `k` failed and no later one did. */
  predicate FailsLast(outcomes: seq<Outcome>, k: nat)
    requires k < |outcomes|
  {
    outcomes[k] != Done && forall i | k < i < |outcomes| :: outcomes[i] == Done
  }

  lemma FailsLastIs(outcomes: seq<Outcome>, k: nat)
    requires k < |outcomes| && FailsLast(outcomes, k)
    ensures LastFailure(outcomes, |outcomes|) == outcomes[k]
  {
    LastFailureIs(outcomes, |outcomes|);
  }

  /** A message counts as consumed exactly if none of its handlers failed, and then its retries are forgotten. */
  lemma ConsumedIff(cfg: Config, s: State, outcomes: seq<Outcome>, letterId: string)
    requires s.inFlight.Some?
    ensures Step(cfg, s, Finish(outcomes, letterId)).tally.consumed[s.inFlight.value]
            == s.tally.consumed[s.inFlight.value] + 1
       <==> forall i | 0 <= i < |outcomes| :: outcomes[i] == Done
    ensures (forall i | 0 <= i < |outcomes| :: outcomes[i] == Done) ==>
              s.inFlight.value.id !in Step(cfg, s, Finish(outcomes, letterId)).retryCounts
  {
    LastFailureIs(outcomes, |outcomes|);
  }

  /** Otherwise the handler that failed last decides: one more try while the limit allows and the failure may pass, and
      else a letter that says how often it was tried again. */
  lemma LastFailureDecides(cfg: Config, s: State, outcomes: seq<Outcome>, letterId: string, k: nat)
    requires s.inFlight.Some? && k < |outcomes| && FailsLast(outcomes, k)
    ensures var m, s' := s.inFlight.value, Step(cfg, s, Finish(outcomes, letterId));
            var again := outcomes[k].Retryable? && RetriesOf(s, m) < cfg.maxRetries;
            && s'.waiting[m] == s.waiting[m] + (if again then 1 else 0)
            && s'.tally.dead[m] == s.tally.dead[m] + (if again then 0 else 1)
            && |s'.queue| == |s.queue| + (if again then 0 else 1)
            && (again ==> RetriesOf(s', m) == RetriesOf(s, m) + 1)
            && (!again ==>
                  var letter := s'.queue[|s.queue|];
                  && letter.topic == cfg.deadLetterTopic && letter.body.DeadLetter? && letter.body.originalId == m.id
                  && letter.body.error == outcomes[k].error
                  && letter.body.retryCount == if outcomes[k].Retryable? then RetriesOf(s, m) else 0)
            && (outcomes[k].Retryable? && !again ==> m.id !in s'.retryCounts)
  {
    FailsLastIs(outcomes, k);
  }

  /** `states[k]` is the queue before step `k`. */
  ghost predicate IsRun(cfg: Config, states: seq<State>, actions: seq<Action>) {
    && |states| == |actions| + 1
    && states[0] == INITIAL
    && forall k {:trigger actions[k]} | 0 <= k < |actions| ::
         Enabled(states[k], actions[k]) && states[k + 1] == Step(cfg, states[k], actions[k])
  }
}

/** What every interleaving keeps. */
module QueueConservation {
  import opened Options
  import opened QueueModel

  ghost function InFlightCount(s: State, m: Message): nat {
    if s.inFlight == Some(m) then 1 else 0
  }

  ghost function DelayedCount(s: State, m: Message): nat {
    if m.id in s.delayed && s.delayed[m.id] == m then 1 else 0
  }

  /** The copies of `m` that are still on their way. */
  ghost function PendingCount(s: State, m: Message): nat {
    multiset(s.queue)[m] + InFlightCount(s, m) + s.waiting[m] + DelayedCount(s, m)
  }

  /** The copies of `m` whose way has ended. */
  ghost function EndedCount(s: State, m: Message): nat {
    s.tally.consumed[m] + s.tally.dead[m] + s.tally.dropped[m] + s.tally.lost[m]
  }

  ghost predicate ConservedAt(s: State, m: Message) {
    s.tally.accepted[m] == PendingCount(s, m) + EndedCount(s, m)
  }

  /** Cancelled ids belong to delayed messages; every delayed message is filed under its id and has a timer that will
      fire. */
  ghost predicate DelayedOk(s: State) {
    && s.cancelled <= s.delayed.Keys
    && (forall id | id in s.delayed :: s.delayed[id].id == id && id in s.timers)
    && (s.inFlight.Some? ==> s.running)
  }

  /** Every accepted copy is in exactly one place. */
  ghost predicate Conserved(s: State) {
    forall m :: ConservedAt(s, m)
  }

  ghost predicate QueueOk(s: State) {
    Conserved(s) && DelayedOk(s)
  }

  lemma Enqueued(queue: seq<Message>, x: Message, m: Message)
    ensures multiset(queue + [x])[m] == multiset(queue)[m] + (if x == m then 1 else 0)
  {
  }

  lemma Dequeued(queue: seq<Message>, m: Message)
    requires queue != []
    ensures multiset(queue)[m] == multiset(queue[1..])[m] + (if queue[0] == m then 1 else 0)
  {
    assert queue == [queue[0]] + queue[1..];
  }

  /** A dead letter is a new accepted message; the original has ended. */
  lemma DlqConserves(s: State, x: Message, letter: Message, m: Message)
    requires s.tally.accepted[m] == PendingCount(s, m) + EndedCount(s, m) + (if x == m then 1 else 0)
    ensures ConservedAt(SentToDlq(s, x, letter), m)
  {
    Enqueued(s.queue, letter, m);
  }

  lemma RetryConserves(cfg: Config, s: State, x: Message, error: string, letterId: string, m: Message)
    requires s.tally.accepted[m] == PendingCount(s, m) + EndedCount(s, m) + (if x == m then 1 else 0)
    ensures ConservedAt(Retried(cfg, s, x, error, letterId), m)
  {
    var retries := RetriesOf(s, x) + 1;
    if retries > cfg.maxRetries {
      DlqConserves(s.(retryCounts := s.retryCounts - {x.id}), x, Letter(cfg, x, error, retries - 1, letterId), m);
    }
  }

  lemma FinishConserves(cfg: Config, s: State, outcome: Outcome, letterId: string, m: Message)
    requires s.inFlight.Some? && ConservedAt(s, m)
    ensures ConservedAt(Finished(cfg, s, s.inFlight.value, outcome, letterId), m)
  {
    var x := s.inFlight.value;
    var noted := s.(inFlight := None, tally := Note(s.tally, Attempted(x, outcome)));
    match outcome {
      case Done =>
      case NonRetryable(error) => DlqConserves(noted, x, Letter(cfg, x, error, 0, letterId), m);
      case Retryable(error) => RetryConserves(cfg, noted, x, error, letterId, m);
    }
  }

  lemma DelayConserves(s: State, id: string, m: Message)
    requires ConservedAt(s, m) && (id in s.delayed ==> s.delayed[id].id == id)
    ensures ConservedAt(DelayOver(s, id), m)
  {
    if id in s.delayed {
      Enqueued(s.queue, s.delayed[id], m);
    }
  }

  lemma SendDelayConserves(s: State, x: Message, m: Message)
    requires ConservedAt(s, m) && (x.id in s.delayed ==> s.delayed[x.id].id == x.id)
    ensures ConservedAt(DelaySent(s, x), m)
  {
  }

  lemma StopConserves(s: State, m: Message)
    requires ConservedAt(s, m)
    ensures ConservedAt(Stopped(s), m)
  {
  }

  lemma StepConserves(cfg: Config, s: State, a: Action, m: Message)
    requires Enabled(s, a) && ConservedAt(s, m) && DelayedOk(s)
    ensures ConservedAt(Step(cfg, s, a), m)
  {
    match a {
      case Publish(x) => Enqueued(s.queue, x, m);
      case SendDelay(x) => SendDelayConserves(s, x, m);
      case Cancel(id) =>
      case DelayDue(id) => DelayConserves(s, id, m);
      case Start =>
      case Stop => StopConserves(s, m);
      case Take => Dequeued(s.queue, m);
      case Finish(outcomes, letterId) =>
        FinishConserves(cfg, s, LastFailure(outcomes, |outcomes|), letterId, m);
      case RetryDue(x) => Enqueued(s.queue, x, m);
    }
  }

  lemma FinishKeepsDelayed(cfg: Config, s: State, outcome: Outcome, letterId: string)
    requires s.inFlight.Some?
    ensures var s' := Finished(cfg, s, s.inFlight.value, outcome, letterId);
            s'.delayed == s.delayed && s'.cancelled == s.cancelled && s'.timers == s.timers && s'.inFlight.None?
            && s'.tally.lost == s.tally.lost
  {
  }

  lemma DueKeepsDelayed(s: State, id: string)
    requires DelayedOk(s)
    ensures DelayedOk(DelayOver(s, id))
  {
  }

  lemma StepKeepsDelayedOk(cfg: Config, s: State, a: Action)
    requires DelayedOk(s) && Enabled(s, a)
    ensures DelayedOk(Step(cfg, s, a))
  {
    match a {
      case Finish(outcomes, letterId) =>
        FinishKeepsDelayed(cfg, s, LastFailure(outcomes, |outcomes|), letterId);
      case DelayDue(id) =>
        DueKeepsDelayed(s, id);
      case _ =>
    }
  }

  lemma StepKeepsQueueOk(cfg: Config, s: State, a: Action)
    requires QueueOk(s) && Enabled(s, a)
    ensures QueueOk(Step(cfg, s, a))
  {
    StepKeepsDelayedOk(cfg, s, a);
    forall m ensures ConservedAt(Step(cfg, s, a), m) {
      StepConserves(cfg, s, a, m);
    }
  }

  /** In every reachable state, whatever the interleaving, nothing is unaccounted for. */
  lemma {:induction false} AlwaysQueueOk(cfg: Config, states: seq<State>, actions: seq<Action>, n: nat)
    requires IsRun(cfg, states, actions) && n <= |actions|
    ensures QueueOk(states[n])
  {
    if n > 0 {
      AlwaysQueueOk(cfg, states, actions, n - 1);
      StepKeepsQueueOk(cfg, states[n - 1], actions[n - 1]);
    }
  }

  // ---- a message accepted once is in exactly one place ----

  datatype Place = Delayed | Queued | BeingDispatched | WaitingForRetry | Consumed | DeadLettered | Cancelled | Lost

  ghost function CountIn(s: State, m: Message, place: Place): nat {
    match place
    case Delayed => DelayedCount(s, m)
    case Queued => multiset(s.queue)[m]
    case BeingDispatched => InFlightCount(s, m)
    case WaitingForRetry => s.waiting[m]
    case Consumed => s.tally.consumed[m]
    case DeadLettered => s.tally.dead[m]
    case Cancelled => s.tally.dropped[m]
    case Lost => s.tally.lost[m]
  }

  lemma ExactlyOnePlace(s: State, m: Message) returns (place: Place)
    requires QueueOk(s) && s.tally.accepted[m] == 1
    ensures CountIn(s, m, place) == 1
    ensures forall other | other != place :: CountIn(s, m, other) == 0
  {
    assert ConservedAt(s, m);
    place := if DelayedCount(s, m) == 1 then Delayed
             else if multiset(s.queue)[m] == 1 then Queued
             else if InFlightCount(s, m) == 1 then BeingDispatched
             else if s.waiting[m] == 1 then WaitingForRetry
             else if s.tally.consumed[m] == 1 then Consumed
             else if s.tally.dead[m] == 1 then DeadLettered
             else if s.tally.dropped[m] == 1 then Cancelled
             else Lost;
    forall other | other != place ensures CountIn(s, m, other) == 0 {
      match other {
        case Delayed => case Queued => case BeingDispatched => case WaitingForRetry =>
        case Consumed => case DeadLettered => case Cancelled => case Lost =>
      }
    }
  }

  // ---- exactly when a message is lost ----

  /** Delaying a message under the id of one that is still delayed, or stopping while a message is being handled. */
  predicate Loses(s: State, a: Action) {
    match a
    case SendDelay(m) => m.id in s.delayed
    case Stop => s.inFlight.Some? && s.running
    case _ => false
  }

  lemma OneMoreLost(lost: multiset<Message>, m: Message)
    ensures lost + multiset{m} != multiset{}
  {
    assert m in lost + multiset{m};
  }

  lemma SendDelayLosesIff(s: State, m: Message)
    ensures DelaySent(s, m).tally.lost == multiset{} <==> s.tally.lost == multiset{} && m.id !in s.delayed
  {
    if m.id in s.delayed {
      OneMoreLost(s.tally.lost, s.delayed[m.id]);
    }
  }

  lemma StopLosesIff(s: State)
    ensures Stopped(s).tally.lost == multiset{} <==> s.tally.lost == multiset{} && !(s.inFlight.Some? && s.running)
  {
    if s.inFlight.Some? {
      OneMoreLost(s.tally.lost, s.inFlight.value);
    }
  }

  lemma LosesIff(cfg: Config, s: State, a: Action)
    requires Enabled(s, a)
    ensures Step(cfg, s, a).tally.lost == multiset{} <==> s.tally.lost == multiset{} && !Loses(s, a)
  {
    match a {
      case SendDelay(m) =>
        SendDelayLosesIff(s, m);
      case Stop =>
        StopLosesIff(s);
      case Finish(outcomes, letterId) =>
        FinishKeepsDelayed(cfg, s, LastFailure(outcomes, |outcomes|), letterId);
      case _ =>
    }
  }

  ghost predicate NoLosingStep(states: seq<State>, actions: seq<Action>, n: nat)
    requires n <= |actions| <= |states|
  {
    forall k {:trigger actions[k]} | 0 <= k < n :: !Loses(states[k], actions[k])
  }

  /** A run loses no message exactly when none of its steps is one of the two losing ones. */
  lemma {:induction false} NothingLostIff(cfg: Config, states: seq<State>, actions: seq<Action>, n: nat)
    requires IsRun(cfg, states, actions) && n <= |actions|
    ensures states[n].tally.lost == multiset{} <==> NoLosingStep(states, actions, n)
  {
    if n > 0 {
      NothingLostIff(cfg, states, actions, n - 1);
      LosesIff(cfg, states[n - 1], actions[n - 1]);
    }
  }

  ghost predicate AccountedAt(s: State, m: Message) {
    s.tally.accepted[m] == PendingCount(s, m) + s.tally.consumed[m] + s.tally.dead[m] + s.tally.dropped[m]
  }

  /** Every accepted copy is on its way or has come to one of the three ends that were meant for it. */
  ghost predicate Accounted(s: State) {
    forall m :: AccountedAt(s, m)
  }

  /** The same without the record of losses: all copies are accounted for exactly if no step was a losing one. */
  lemma AccountedIff(cfg: Config, states: seq<State>, actions: seq<Action>, n: nat)
    requires IsRun(cfg, states, actions) && n <= |actions|
    ensures Accounted(states[n]) <==> NoLosingStep(states, actions, n)
  {
    AlwaysQueueOk(cfg, states, actions, n);
    NothingLostIff(cfg, states, actions, n);
    var s := states[n];
    forall m ensures AccountedAt(s, m) <==> s.tally.lost[m] == 0 {
      assert ConservedAt(s, m);
    }
    if Accounted(s) {
      forall m ensures s.tally.lost[m] == 0 {
        assert AccountedAt(s, m);
      }
    }
  }

  /** Both happen: a message that is being handled when the queue is stopped is gone. */
  lemma StopLoses(cfg: Config, states: seq<State>, m: Message)
    requires IsRun(cfg, states, [Publish(m), Start, Take, Stop])
    ensures states[4].queue == [] && states[4].inFlight.None? && !Accounted(states[4])
  {
    var actions := [Publish(m), Start, Take, Stop];
    assert actions[0] == Publish(m) && actions[1] == Start && actions[2] == Take && actions[3] == Stop;
    assert states[1] == Step(cfg, states[0], actions[0]);
    assert states[2] == Step(cfg, states[1], actions[1]);
    assert states[3] == Step(cfg, states[2], actions[2]);
    assert !AccountedAt(states[4], m);
  }

  /** So is a delayed one whose id is delayed again. */
  lemma DelayingAgainLoses(cfg: Config, states: seq<State>, m: Message, m': Message)
    requires m.id == m'.id && m != m' && IsRun(cfg, states, [SendDelay(m), SendDelay(m')])
    ensures m.id in states[2].delayed && states[2].delayed[m.id] == m' && !Accounted(states[2])
  {
    var actions := [SendDelay(m), SendDelay(m')];
    assert actions[0] == SendDelay(m) && actions[1] == SendDelay(m');
    assert states[1] == Step(cfg, states[0], actions[0]);
    assert !AccountedAt(states[2], m);
  }
}

/** Retries: how often a failing message is tried, how long it waits, and the one dead letter it ends as. */
module QueueRetries {
  import opened Options
  import opened QueueModel
  import opened QueueConservation

  /** How often `m` was handed to its handlers, over the first `n` events. */
  ghost function Attempts(log: seq<Event>, m: Message, n: nat): nat
    requires n <= |log|
  {
    if n == 0 then 0 else
    Attempts(log, m, n - 1) + (if log[n - 1].Attempted? && log[n - 1].m == m then 1 else 0)
  }

  /** The delays scheduled for `m`, added up. */
  ghost function DelaySum(log: seq<Event>, m: Message, n: nat): int
    requires n <= |log|
  {
    if n == 0 then 0 else
    DelaySum(log, m, n - 1) + (if log[n - 1].Scheduled? && log[n - 1].m == m then log[n - 1].delay else 0)
  }

  /** How many dead letters `m` got. */
  ghost function Letters(log: seq<Event>, m: Message, n: nat): nat
    requires n <= |log|
  {
    if n == 0 then 0 else
    Letters(log, m, n - 1) + (if log[n - 1].Died? && log[n - 1].m == m then 1 else 0)
  }

  lemma {:induction false} LogPrefix(a: seq<Event>, b: seq<Event>, m: Message, n: nat)
    requires n <= |a| && n <= |b| && a[..n] == b[..n]
    ensures Attempts(a, m, n) == Attempts(b, m, n)
    ensures DelaySum(a, m, n) == DelaySum(b, m, n)
    ensures Letters(a, m, n) == Letters(b, m, n)
  {
    if n > 0 {
      assert a[n - 1] == a[..n][n - 1] == b[..n][n - 1] == b[n - 1];
      assert a[..n - 1] == a[..n][..n - 1] == b[..n][..n - 1] == b[..n - 1];
      LogPrefix(a, b, m, n - 1);
    }
  }

  lemma LogGrows(log: seq<Event>, e: Event, m: Message)
    ensures Attempts(log + [e], m, |log| + 1) == Attempts(log, m, |log|) + (if e.Attempted? && e.m == m then 1 else 0)
    ensures DelaySum(log + [e], m, |log| + 1)
         == DelaySum(log, m, |log|) + (if e.Scheduled? && e.m == m then e.delay else 0)
    ensures Letters(log + [e], m, |log| + 1) == Letters(log, m, |log|) + (if e.Died? && e.m == m then 1 else 0)
  {
    LogPrefix(log + [e], log, m, |log|);
  }

  ghost function Limit(cfg: Config): nat {
    if cfg.maxRetries < 0 then 0 else cfg.maxRetries
  }

  ghost predicate FailsRetryably(log: seq<Event>, m: Message) {
    forall e | e in log && e.Attempted? && e.m == m :: e.outcome.Retryable?
  }

  ghost predicate LettersSay(log: seq<Event>, m: Message, retryCount: int) {
    forall e | e in log && e.Died? && e.m == m ::
      e.letter.body.DeadLetter? && e.letter.body.originalId == m.id && e.letter.body.retryCount == retryCount
  }

  /** `m` was accepted at most once and no other message has its id. */
  ghost predicate Unique(s: State, m: Message) {
    s.tally.accepted[m] <= 1 && forall x | x in s.tally.accepted && x.id == m.id :: x == m
  }

  ghost function Min(a: nat, b: nat): nat {
    if a < b then a else b
  }

  /** Where the retries of a message stand that has always failed retryably: one counted retry per attempt and delays
      that double, up to the limit; one more attempt and it is dead, with one letter that tells the limit. */
  ghost predicate RetryRecord(cfg: Config, log: seq<Event>, dead: nat, counted: nat, m: Message) {
    var a := Attempts(log, m, |log|);
    && DelaySum(log, m, |log|) == cfg.backoff * (Power2(Min(a, Limit(cfg))) - 1)
    && Letters(log, m, |log|) == dead
    && LettersSay(log, m, Limit(cfg))
    && (dead == 0 ==> a <= Limit(cfg) && counted == a)
    && (dead > 0 ==> dead == 1 && a == Limit(cfg) + 1 && counted == 0)
  }

  ghost predicate RetryOk(cfg: Config, s: State, m: Message) {
    RetryRecord(cfg, s.tally.log, s.tally.dead[m], RetriesOf(s, m), m)
  }

  lemma Doubling(backoff: int, a: nat)
    ensures backoff * (Power2(a) - 1) + backoff * Power2(a) == backoff * (Power2(a + 1) - 1)
  {
  }

  /** One more try is scheduled. */
  lemma TryScheduled(cfg: Config, log: seq<Event>, counted: nat, m: Message, outcome: Outcome)
    requires RetryRecord(cfg, log, 0, counted, m) && counted + 1 <= cfg.maxRetries
    ensures RetryRecord(cfg, log + [Attempted(m, outcome)] + [Scheduled(m, cfg.backoff * Power2(counted))], 0,
                        counted + 1, m)
  {
    var e, f := Attempted(m, outcome), Scheduled(m, cfg.backoff * Power2(counted));
    LogGrows(log, e, m);
    LogGrows(log + [e], f, m);
    Doubling(cfg.backoff, counted);
  }

  /** The limit is used up. */
  lemma TryExhausted(cfg: Config, log: seq<Event>, counted: nat, m: Message, outcome: Outcome, letter: Message)
    requires RetryRecord(cfg, log, 0, counted, m) && counted + 1 > cfg.maxRetries
    requires letter.body.DeadLetter? && letter.body.originalId == m.id && letter.body.retryCount == counted
    ensures RetryRecord(cfg, log + [Attempted(m, outcome)] + [Died(m, letter)], 1, 0, m)
  {
    var e := Attempted(m, outcome);
    LogGrows(log, e, m);
    LogGrows(log + [e], Died(m, letter), m);
  }

  /** What happens to other messages does not show. */
  lemma OtherLogged(cfg: Config, log: seq<Event>, dead: nat, counted: nat, m: Message, e: Event)
    requires RetryRecord(cfg, log, dead, counted, m) && e.m != m
    ensures RetryRecord(cfg, log + [e], dead, counted, m)
  {
    LogGrows(log, e, m);
  }

  /** The message in flight is the failing one. */
  lemma FailedAgain(cfg: Config, s: State, error: string, letterId: string, m: Message)
    requires RetryOk(cfg, s, m) && s.tally.dead[m] == 0 && s.inFlight == Some(m)
    ensures RetryOk(cfg, Finished(cfg, s, m, Retryable(error), letterId), m)
  {
    var a := RetriesOf(s, m);
    if a + 1 <= cfg.maxRetries {
      TryScheduled(cfg, s.tally.log, a, m, Retryable(error));
    } else {
      TryExhausted(cfg, s.tally.log, a, m, Retryable(error), Letter(cfg, m, error, a, letterId));
    }
  }

  lemma OtherRetried(cfg: Config, s: State, x: Message, error: string, letterId: string, m: Message)
    requires RetryOk(cfg, s, m) && x.id != m.id
    ensures RetryOk(cfg, Retried(cfg, s, x, error, letterId), m)
  {
    var r := RetriesOf(s, x);
    if r + 1 <= cfg.maxRetries {
      OtherLogged(cfg, s.tally.log, s.tally.dead[m], RetriesOf(s, m), m, Scheduled(x, cfg.backoff * Power2(r)));
    } else {
      OtherLogged(cfg, s.tally.log, s.tally.dead[m], RetriesOf(s, m), m,
                  Died(x, Letter(cfg, x, error, r, letterId)));
    }
  }

  /** Another message is in flight. */
  lemma OtherFinished(cfg: Config, s: State, x: Message, outcome: Outcome, letterId: string, m: Message)
    requires RetryOk(cfg, s, m) && s.inFlight == Some(x) && x.id != m.id
    ensures RetryOk(cfg, Finished(cfg, s, x, outcome, letterId), m)
  {
    var log, dead, counted := s.tally.log, s.tally.dead[m], RetriesOf(s, m);
    var e := Attempted(x, outcome);
    OtherLogged(cfg, log, dead, counted, m, e);
    match outcome {
      case Done =>
      case NonRetryable(error) =>
        OtherLogged(cfg, log + [e], dead, counted, m, Died(x, Letter(cfg, x, error, 0, letterId)));
      case Retryable(error) =>
        OtherRetried(cfg, s.(inFlight := None, tally := Note(s.tally, e)), x, error, letterId, m);
    }
  }

  lemma AttemptIsLogged(cfg: Config, s: State, m: Message, outcome: Outcome, letterId: string)
    requires s.inFlight == Some(m)
    ensures Attempted(m, outcome) in Finished(cfg, s, m, outcome, letterId).tally.log
  {
  }

  lemma OtherDelayOver(s: State, id: string)
    ensures DelayOver(s, id).tally.log == s.tally.log && DelayOver(s, id).retryCounts == s.retryCounts
    ensures DelayOver(s, id).tally.dead == s.tally.dead
  {
  }

  lemma OtherDelaySent(s: State, m: Message)
    ensures DelaySent(s, m).tally.log == s.tally.log && DelaySent(s, m).retryCounts == s.retryCounts
    ensures DelaySent(s, m).tally.dead == s.tally.dead
  {
  }

  lemma OtherStep(cfg: Config, s: State, a: Action)
    requires Enabled(s, a) && !a.Finish?
    ensures Step(cfg, s, a).tally.log == s.tally.log && Step(cfg, s, a).retryCounts == s.retryCounts
    ensures Step(cfg, s, a).tally.dead == s.tally.dead
  {
    match a {
      case DelayDue(id) => OtherDelayOver(s, id);
      case SendDelay(m) => OtherDelaySent(s, m);
      case _ =>
    }
  }

  lemma StepKeepsRetryOk(cfg: Config, s: State, a: Action, m: Message)
    requires QueueOk(s) && Enabled(s, a) && RetryOk(cfg, s, m)
    requires Unique(s, m) && FailsRetryably(Step(cfg, s, a).tally.log, m)
    ensures RetryOk(cfg, Step(cfg, s, a), m)
  {
    if a.Finish? {
      var x, outcome := s.inFlight.value, LastFailure(a.outcomes, |a.outcomes|);
      assert ConservedAt(s, x);
      assert x in s.tally.accepted;
      if x == m {
        AttemptIsLogged(cfg, s, m, outcome, a.letterId);
        FailedAgain(cfg, s, outcome.error, a.letterId, m);
      } else {
        OtherFinished(cfg, s, x, outcome, a.letterId, m);
      }
    } else {
      OtherStep(cfg, s, a);
    }
  }

  lemma FinishRecordsGrow(cfg: Config, s: State, outcome: Outcome, letterId: string)
    requires s.inFlight.Some?
    ensures s.tally.accepted <= Finished(cfg, s, s.inFlight.value, outcome, letterId).tally.accepted
    ensures s.tally.log <= Finished(cfg, s, s.inFlight.value, outcome, letterId).tally.log
  {
  }

  lemma RecordsGrow(cfg: Config, s: State, a: Action)
    requires Enabled(s, a)
    ensures s.tally.accepted <= Step(cfg, s, a).tally.accepted
    ensures s.tally.log <= Step(cfg, s, a).tally.log
  {
    if a.Finish? {
      FinishRecordsGrow(cfg, s, LastFailure(a.outcomes, |a.outcomes|), a.letterId);
    } else {
      OtherStep(cfg, s, a);
    }
  }

  lemma UniqueBefore(s: State, s': State, m: Message)
    requires s.tally.accepted <= s'.tally.accepted && Unique(s', m)
    ensures Unique(s, m)
  {
  }

  /** In every interleaving: the arithmetic of retries holds for each uniquely accepted message that always fails
      retryably. */
  lemma {:induction false} RetryArithmetic(cfg: Config, states: seq<State>, actions: seq<Action>, n: nat, m: Message)
    requires IsRun(cfg, states, actions) && n <= |actions|
    requires Unique(states[n], m) && FailsRetryably(states[n].tally.log, m)
    ensures RetryOk(cfg, states[n], m)
  {
    if n > 0 {
      RecordsGrow(cfg, states[n - 1], actions[n - 1]);
      UniqueBefore(states[n - 1], states[n], m);
      assert FailsRetryably(states[n - 1].tally.log, m);
      RetryArithmetic(cfg, states, actions, n - 1, m);
      AlwaysQueueOk(cfg, states, actions, n - 1);
      StepKeepsRetryOk(cfg, states[n - 1], actions[n - 1], m);
    }
  }

  /** Such a message is tried at most limit + 1 times; once it is nowhere on its way, and was neither cancelled nor
      lost, it was tried exactly that often, waited `backoff * (2^limit - 1)` in all and got exactly one letter. */
  lemma ExhaustedRetries(cfg: Config, states: seq<State>, actions: seq<Action>, n: nat, m: Message)
    requires IsRun(cfg, states, actions) && n <= |actions|
    requires Unique(states[n], m) && FailsRetryably(states[n].tally.log, m)
    ensures Attempts(states[n].tally.log, m, |states[n].tally.log|) <= Limit(cfg) + 1
    ensures states[n].tally.accepted[m] == 1 && PendingCount(states[n], m) == 0
            && states[n].tally.consumed[m] + states[n].tally.dropped[m] + states[n].tally.lost[m] == 0 ==>
              && Attempts(states[n].tally.log, m, |states[n].tally.log|) == Limit(cfg) + 1
              && DelaySum(states[n].tally.log, m, |states[n].tally.log|) == cfg.backoff * (Power2(Limit(cfg)) - 1)
              && Letters(states[n].tally.log, m, |states[n].tally.log|) == 1
              && LettersSay(states[n].tally.log, m, Limit(cfg))
  {
    RetryArithmetic(cfg, states, actions, n, m);
    AlwaysQueueOk(cfg, states, actions, n);
    assert ConservedAt(states[n], m);
  }
}

/** Cancellation: what a successful cancel promises. */
module QueueCancellation {
  import opened Options
  import opened QueueModel
  import opened QueueConservation
  import QueueRetries

  /** A message with this id is on its way to a handler. */
  ghost predicate OnItsWay(s: State, id: string) {
    || (exists m :: m in s.queue && m.id == id)
    || (s.inFlight.Some? && s.inFlight.value.id == id)
    || (exists m :: m in s.waiting && m.id == id)
  }

  /** No message with this id will reach a handler: none is on its way, and a delayed one is cancelled. */
  ghost predicate Barred(s: State, id: string) {
    !OnItsWay(s, id) && (id in s.delayed ==> id in s.cancelled)
  }

  /** Between the two states no message with this id was accepted. */
  ghost predicate NotReused(s: State, s': State, id: string) {
    forall x: Message | x.id == id :: s'.tally.accepted[x] == s.tally.accepted[x]
  }

  lemma LetterKeepsBarred(s: State, noted: State, s': State, m: Message, letter: Message, id: string)
    requires Barred(noted, id) && noted.tally.accepted == s.tally.accepted && s' == SentToDlq(noted, m, letter)
    requires NotReused(s, s', id)
    ensures Barred(s', id)
  {
    assert s'.tally.accepted[letter] == s.tally.accepted[letter] + 1;
  }

  lemma FinishKeepsBarred(cfg: Config, s: State, s': State, outcome: Outcome, letterId: string, id: string)
    requires s.inFlight.Some? && s' == Finished(cfg, s, s.inFlight.value, outcome, letterId)
    requires Barred(s, id) && NotReused(s, s', id)
    ensures Barred(s', id)
  {
    var m := s.inFlight.value;
    var noted := s.(inFlight := None, tally := Note(s.tally, Attempted(m, outcome)));
    match outcome {
      case Done =>
      case NonRetryable(error) =>
        LetterKeepsBarred(s, noted, s', m, Letter(cfg, m, error, 0, letterId), id);
      case Retryable(error) =>
        if RetriesOf(s, m) + 1 > cfg.maxRetries {
          LetterKeepsBarred(s, noted.(retryCounts := s.retryCounts - {m.id}), s', m,
                            Letter(cfg, m, error, RetriesOf(s, m), letterId), id);
        }
    }
  }

  lemma DelayKeepsBarred(s: State, other: string, id: string)
    requires DelayedOk(s) && Barred(s, id)
    ensures Barred(DelayOver(s, other), id)
  {
  }

  lemma OtherKeepsBarred(cfg: Config, s: State, s': State, a: Action, id: string)
    requires Enabled(s, a) && s' == Step(cfg, s, a) && Barred(s, id)
    requires a.Cancel? || a.Start? || a.Stop? || a.Take? || a.RetryDue?
    ensures Barred(s', id)
  {
    if a.Take? {
      assert s.queue[0] in s.queue;
    }
  }

  lemma NewKeepsBarred(s: State, m: Message, id: string)
    requires Barred(s, id) && m.id != id
    ensures Barred(s.(queue := s.queue + [m], tally := Accept(s.tally, m)), id) && Barred(DelaySent(s, m), id)
  {
  }

  lemma StepKeepsBarred(cfg: Config, s: State, s': State, a: Action, id: string)
    requires Enabled(s, a) && s' == Step(cfg, s, a)
    requires DelayedOk(s) && Barred(s, id) && NotReused(s, s', id)
    ensures Barred(s', id)
  {
    match a {
      case Publish(m) =>
        assert s'.tally.accepted[m] == s.tally.accepted[m] + 1;
        NewKeepsBarred(s, m, id);
      case SendDelay(m) =>
        assert s'.tally.accepted[m] == s.tally.accepted[m] + 1;
        NewKeepsBarred(s, m, id);
      case Finish(outcomes, letterId) =>
        FinishKeepsBarred(cfg, s, s', LastFailure(outcomes, |outcomes|), letterId, id);
      case DelayDue(other) =>
        DelayKeepsBarred(s, other, id);
      case _ =>
        OtherKeepsBarred(cfg, s, s', a, id);
    }
  }

  lemma {:induction false} AcceptedGrows(cfg: Config, states: seq<State>, actions: seq<Action>, k: nat, n: nat)
    requires IsRun(cfg, states, actions) && k <= n <= |actions|
    ensures states[k].tally.accepted <= states[n].tally.accepted
  {
    if k < n {
      AcceptedGrows(cfg, states, actions, k, n - 1);
      assert Enabled(states[n - 1], actions[n - 1]);
      QueueRetries.RecordsGrow(cfg, states[n - 1], actions[n - 1]);
    }
  }

  /** A delayed message that is the only one accepted with its id, and once, is nowhere else. */
  lemma OnlyDelayed(s: State, id: string)
    requires QueueOk(s) && id in s.delayed && QueueRetries.Unique(s, s.delayed[id])
    ensures s.tally.accepted[s.delayed[id]] == 1 && !OnItsWay(s, id)
  {
    var m := s.delayed[id];
    assert ConservedAt(s, m) && DelayedCount(s, m) == 1;
    forall x: Message | x.id == id ensures x !in s.queue && s.inFlight != Some(x) && x !in s.waiting {
      assert ConservedAt(s, x);
      assert x in s.queue ==> multiset(s.queue)[x] > 0;
    }
  }

  /** Nothing was accepted under the id of a message that is still the only one accepted with it. */
  lemma StillOnly(s: State, s': State, m: Message)
    requires s.tally.accepted[m] == 1 && s.tally.accepted <= s'.tally.accepted && QueueRetries.Unique(s', m)
    ensures NotReused(s, s', m.id)
  {
    forall x: Message | x.id == m.id ensures s'.tally.accepted[x] == s.tally.accepted[x] {
      if x != m {
        assert x !in s'.tally.accepted;
      }
    }
  }

  /** After a cancel that answered yes, no message with that id is ever handed to a handler, as long as ids are
      unique: as long as nothing else is accepted under the id of the cancelled message. */
  lemma {:induction false} CancelledIsNeverDelivered(cfg: Config, states: seq<State>, actions: seq<Action>, id: string,
                                                     k: nat, n: nat)
    requires IsRun(cfg, states, actions) && k < n <= |actions|
    requires actions[k] == Cancel(id) && id in states[k].delayed
    requires QueueRetries.Unique(states[n], states[k].delayed[id])
    ensures Barred(states[n], id)
  {
    var m := states[k].delayed[id];
    AlwaysQueueOk(cfg, states, actions, k);
    AlwaysQueueOk(cfg, states, actions, n - 1);
    AcceptedGrows(cfg, states, actions, k, n - 1);
    AcceptedGrows(cfg, states, actions, n - 1, n);
    QueueRetries.UniqueBefore(states[n - 1], states[n], m);
    QueueRetries.UniqueBefore(states[k], states[n - 1], m);
    OnlyDelayed(states[k], id);
    assert states[n] == Step(cfg, states[n - 1], actions[n - 1]) && Enabled(states[n - 1], actions[n - 1]);
    if n > k + 1 {
      CancelledIsNeverDelivered(cfg, states, actions, id, k, n - 1);
      StillOnly(states[n - 1], states[n], m);
      StepKeepsBarred(cfg, states[n - 1], states[n], actions[n - 1], id);
    }
  }
}
