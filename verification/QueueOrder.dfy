/** In which order messages are handled: the one worker takes them as they came in. */
module QueueOrder {
  import opened Options
  import opened QueueModel

  // ---- what comes in and what is taken ----

  /** The message that a handled one leaves in the queue at once: its dead letter, if it gets one. */
  function LetterOf(cfg: Config, s: State, m: Message, outcome: Outcome, letterId: string): seq<Message> {
    match outcome
    case Done => []
    case NonRetryable(error) => [Letter(cfg, m, error, 0, letterId)]
    case Retryable(error) =>
      if RetriesOf(s, m) + 1 <= cfg.maxRetries then [] else [Letter(cfg, m, error, RetriesOf(s, m), letterId)]
  }

  /** The messages that a step enqueues: published and due ones, retries and dead letters. */
  function Incoming(cfg: Config, s: State, a: Action): seq<Message> {
    match a
    case Publish(m) => [m]
    case RetryDue(m) => [m]
    case DelayDue(id) => if id in s.delayed && id !in s.cancelled then [s.delayed[id]] else []
    case Finish(outcomes, letterId) =>
      if s.inFlight.None? then []
      else LetterOf(cfg, s, s.inFlight.value, LastFailure(outcomes, |outcomes|), letterId)
    case _ => []
  }

  /** The message that a step takes from the queue. */
  function Outgoing(s: State, a: Action): seq<Message> {
    if a.Take? && s.queue != [] then [s.queue[0]] else []
  }

  /** All messages enqueued in the first `n` steps, in order. */
  function Enqueued(cfg: Config, states: seq<State>, actions: seq<Action>, n: nat): seq<Message>
    requires n <= |actions| < |states|
  {
    if n == 0 then []
    else Enqueued(cfg, states, actions, n - 1) + Incoming(cfg, states[n - 1], actions[n - 1])
  }

  /** All messages the worker took in the first `n` steps, in order. */
  function Taken(states: seq<State>, actions: seq<Action>, n: nat): seq<Message>
    requires n <= |actions| < |states|
  {
    if n == 0 then [] else Taken(states, actions, n - 1) + Outgoing(states[n - 1], actions[n - 1])
  }

  lemma FinishEnqueues(cfg: Config, s: State, m: Message, outcome: Outcome, letterId: string)
    ensures Finished(cfg, s, m, outcome, letterId).queue == s.queue + LetterOf(cfg, s, m, outcome, letterId)
  {
  }

  lemma DelayEnqueues(cfg: Config, s: State, id: string)
    ensures DelayOver(s, id).queue == s.queue + Incoming(cfg, s, DelayDue(id))
  {
  }

  lemma StepMovesQueue(cfg: Config, s: State, a: Action)
    requires Enabled(s, a)
    ensures s.queue + Incoming(cfg, s, a) == Outgoing(s, a) + Step(cfg, s, a).queue
  {
    match a {
      case Finish(outcomes, letterId) =>
        FinishEnqueues(cfg, s, s.inFlight.value, LastFailure(outcomes, |outcomes|), letterId);
      case DelayDue(id) => DelayEnqueues(cfg, s, id);
      case Take => assert s.queue == [s.queue[0]] + s.queue[1..];
      case _ =>
    }
  }

  ghost predicate QueueMoves(cfg: Config, states: seq<State>, actions: seq<Action>, k: nat)
    requires k < |actions| < |states|
  {
    states[k].queue + Incoming(cfg, states[k], actions[k]) == Outgoing(states[k], actions[k]) + states[k + 1].queue
  }

  lemma RunMovesQueue(cfg: Config, states: seq<State>, actions: seq<Action>)
    requires IsRun(cfg, states, actions)
    ensures states[0].queue == [] && forall k | 0 <= k < |actions| :: QueueMoves(cfg, states, actions, k)
  {
    forall k | 0 <= k < |actions| ensures QueueMoves(cfg, states, actions, k) {
      StepMovesQueue(cfg, states[k], actions[k]);
    }
  }

  lemma Appended(taken: seq<Message>, queue: seq<Message>, incoming: seq<Message>, outgoing: seq<Message>,
                 queue': seq<Message>)
    requires queue + incoming == outgoing + queue'
    ensures taken + outgoing + queue' == taken + queue + incoming
  {
    assert taken + outgoing + queue' == taken + (outgoing + queue');
    assert taken + queue + incoming == taken + (queue + incoming);
  }

  lemma {:induction false} MovesKeepOrder(cfg: Config, states: seq<State>, actions: seq<Action>, n: nat)
    requires n <= |actions| < |states| && states[0].queue == []
    requires forall k | 0 <= k < n :: QueueMoves(cfg, states, actions, k)
    ensures Taken(states, actions, n) + states[n].queue == Enqueued(cfg, states, actions, n)
  {
    if n > 0 {
      MovesKeepOrder(cfg, states, actions, n - 1);
      assert QueueMoves(cfg, states, actions, n - 1);
      Appended(Taken(states, actions, n - 1), states[n - 1].queue, Incoming(cfg, states[n - 1], actions[n - 1]),
               Outgoing(states[n - 1], actions[n - 1]), states[n].queue);
    }
  }

  /** In every run the messages taken so far, and after them those still queued, are the ones enqueued, in order. */
  lemma TakenAsEnqueued(cfg: Config, states: seq<State>, actions: seq<Action>, n: nat)
    requires IsRun(cfg, states, actions) && n <= |actions|
    ensures Taken(states, actions, n) + states[n].queue == Enqueued(cfg, states, actions, n)
  {
    RunMovesQueue(cfg, states, actions);
    MovesKeepOrder(cfg, states, actions, n);
  }

  // ---- partitions ----

  /** The messages of one partition, in order. */
  function Partition(ms: seq<Message>, partitionOf: Message -> int, partition: int): seq<Message> {
    if ms == [] then []
    else (if partitionOf(ms[0]) == partition then [ms[0]] else []) + Partition(ms[1..], partitionOf, partition)
  }

  lemma {:induction false} PartitionJoin(a: seq<Message>, b: seq<Message>, partitionOf: Message -> int, partition: int)
    ensures Partition(a + b, partitionOf, partition)
         == Partition(a, partitionOf, partition) + Partition(b, partitionOf, partition)
  {
    if a == [] {
      assert a + b == b;
    } else {
      assert (a + b)[1..] == a[1..] + b && (a + b)[0] == a[0];
      var head := if partitionOf(a[0]) == partition then [a[0]] else [];
      PartitionJoin(a[1..], b, partitionOf, partition);
      assert Partition(a + b, partitionOf, partition) == head + Partition(a[1..] + b, partitionOf, partition);
      assert Partition(a, partitionOf, partition) == head + Partition(a[1..], partitionOf, partition);
    }
  }

  /** Within each partition, however messages are assigned to partitions, the messages are taken in the order in which
      they were enqueued. */
  lemma PartitionInOrder(cfg: Config, states: seq<State>, actions: seq<Action>, n: nat, partitionOf: Message -> int,
                         partition: int)
    requires IsRun(cfg, states, actions) && n <= |actions|
    ensures Partition(Taken(states, actions, n), partitionOf, partition)
         <= Partition(Enqueued(cfg, states, actions, n), partitionOf, partition)
  {
    TakenAsEnqueued(cfg, states, actions, n);
    PartitionJoin(Taken(states, actions, n), states[n].queue, partitionOf, partition);
  }

  // ---- what is handled ----

  /** The messages among the first `n` events whose handlers have ended, in order. */
  function HandledTo(log: seq<Event>, n: nat): seq<Message>
    requires n <= |log|
  {
    if n == 0 then [] else HandledTo(log, n - 1) + (if log[n - 1].Attempted? then [log[n - 1].m] else [])
  }

  function Handled(log: seq<Event>): seq<Message> {
    HandledTo(log, |log|)
  }

  lemma {:induction false} HandledPrefix(log: seq<Event>, e: Event, n: nat)
    requires n <= |log|
    ensures HandledTo(log + [e], n) == HandledTo(log, n)
  {
    if n > 0 {
      HandledPrefix(log, e, n - 1);
    }
  }

  lemma HandledNote(t: Tally, e: Event)
    ensures Handled(Note(t, e).log) == Handled(t.log) + (if e.Attempted? then [e.m] else [])
  {
    HandledPrefix(t.log, e, |t.log|);
  }

  lemma RetryHandlesNothing(cfg: Config, s: State, m: Message, error: string, letterId: string)
    ensures Handled(Retried(cfg, s, m, error, letterId).tally.log) == Handled(s.tally.log)
    ensures Retried(cfg, s, m, error, letterId).inFlight == s.inFlight
  {
    var retries := RetriesOf(s, m) + 1;
    if retries <= cfg.maxRetries {
      HandledNote(s.tally, Scheduled(m, cfg.backoff * Power2(retries - 1)));
    } else {
      HandledNote(s.tally, Died(m, Letter(cfg, m, error, retries - 1, letterId)));
    }
  }

  lemma FinishHandles(cfg: Config, s: State, m: Message, outcome: Outcome, letterId: string)
    ensures Handled(Finished(cfg, s, m, outcome, letterId).tally.log) == Handled(s.tally.log) + [m]
    ensures Finished(cfg, s, m, outcome, letterId).inFlight.None?
  {
    var noted := Note(s.tally, Attempted(m, outcome));
    HandledNote(s.tally, Attempted(m, outcome));
    match outcome {
      case Done =>
      case NonRetryable(error) => HandledNote(noted, Died(m, Letter(cfg, m, error, 0, letterId)));
      case Retryable(error) => RetryHandlesNothing(cfg, s.(inFlight := None, tally := noted), m, error, letterId);
    }
  }

  function InHand(s: State): seq<Message> {
    if s.inFlight.Some? then [s.inFlight.value] else []
  }

  /** The step stops the worker while it handles a message. */
  predicate Interrupts(s: State, a: Action) {
    a.Stop? && s.running && s.inFlight.Some?
  }

  predicate InterruptsAt(states: seq<State>, actions: seq<Action>, k: nat)
    requires k < |actions| <= |states|
  {
    Interrupts(states[k], actions[k])
  }

  ghost predicate NeverInterrupted(states: seq<State>, actions: seq<Action>, n: nat)
    requires n <= |actions| <= |states|
  {
    forall k | 0 <= k < n :: !InterruptsAt(states, actions, k)
  }

  /** What has been handled or is being handled. */
  function Worked(s: State): seq<Message> {
    Handled(s.tally.log) + InHand(s)
  }

  lemma StepHandles(cfg: Config, s: State, a: Action)
    requires Enabled(s, a)
    ensures Worked(Step(cfg, s, a)) == (if Interrupts(s, a) then Handled(s.tally.log) else Worked(s)) + Outgoing(s, a)
  {
    if a.Finish? {
      FinishHandles(cfg, s, s.inFlight.value, LastFailure(a.outcomes, |a.outcomes|), a.letterId);
    }
  }

  /** `worked[k]` is what had been handled or was in hand before step `k`: a step that does not interrupt the worker
      adds what it takes, one that does drops what is in hand. */
  predicate WorkMoves(worked: seq<seq<Message>>, states: seq<State>, actions: seq<Action>, k: nat)
    requires k < |actions| < |states| == |worked|
  {
    if InterruptsAt(states, actions, k)
    then |worked[k + 1]| < |worked[k]| && Outgoing(states[k], actions[k]) == []
    else worked[k + 1] == worked[k] + Outgoing(states[k], actions[k])
  }

  ghost predicate AllWorkMoves(worked: seq<seq<Message>>, states: seq<State>, actions: seq<Action>) {
    && |actions| < |states| == |worked| && worked[0] == []
    && forall k | 0 <= k < |actions| :: WorkMoves(worked, states, actions, k)
  }

  lemma RunMovesWork(cfg: Config, states: seq<State>, actions: seq<Action>) returns (worked: seq<seq<Message>>)
    requires IsRun(cfg, states, actions)
    ensures AllWorkMoves(worked, states, actions)
    ensures forall k | 0 <= k < |states| :: worked[k] == Worked(states[k])
  {
    worked := seq(|states|, k requires 0 <= k < |states| => Worked(states[k]));
    forall k | 0 <= k < |actions| ensures WorkMoves(worked, states, actions, k) {
      StepHandles(cfg, states[k], actions[k]);
    }
  }

  lemma {:induction false} WorkedWhole(worked: seq<seq<Message>>, states: seq<State>, actions: seq<Action>, n: nat)
    requires AllWorkMoves(worked, states, actions) && n <= |actions| && NeverInterrupted(states, actions, n)
    ensures worked[n] == Taken(states, actions, n)
  {
    if n > 0 {
      WorkedWhole(worked, states, actions, n - 1);
      assert WorkMoves(worked, states, actions, n - 1) && !InterruptsAt(states, actions, n - 1);
    }
  }

  /** What was dropped once is missing for good. */
  lemma {:induction false} MissingGrows(worked: seq<seq<Message>>, states: seq<State>, actions: seq<Action>, m: nat,
                                        n: nat)
    requires AllWorkMoves(worked, states, actions) && m <= n <= |actions|
    ensures |Taken(states, actions, m)| - |worked[m]| <= |Taken(states, actions, n)| - |worked[n]|
  {
    if m < n {
      MissingGrows(worked, states, actions, m, n - 1);
      assert WorkMoves(worked, states, actions, n - 1);
    }
  }

  lemma WorkedIff(worked: seq<seq<Message>>, states: seq<State>, actions: seq<Action>, n: nat)
    requires AllWorkMoves(worked, states, actions) && n <= |actions|
    ensures worked[n] == Taken(states, actions, n) <==> NeverInterrupted(states, actions, n)
  {
    if NeverInterrupted(states, actions, n) {
      WorkedWhole(worked, states, actions, n);
    } else {
      var k :| 0 <= k < n && InterruptsAt(states, actions, k);
      MissingGrows(worked, states, actions, 0, k);
      assert WorkMoves(worked, states, actions, k);
      MissingGrows(worked, states, actions, k + 1, n);
    }
  }

  /** The messages taken are those that were handled or are being handled, in the same order, exactly if the worker was
      never stopped while handling one. */
  lemma HandledAsTakenIff(cfg: Config, states: seq<State>, actions: seq<Action>, n: nat)
    requires IsRun(cfg, states, actions) && n <= |actions|
    ensures Handled(states[n].tally.log) + InHand(states[n]) == Taken(states, actions, n)
       <==> NeverInterrupted(states, actions, n)
  {
    var worked := RunMovesWork(cfg, states, actions);
    WorkedIff(worked, states, actions, n);
    assert worked[n] == Worked(states[n]);
  }
}
