/** The queue object: its methods take exactly the steps of the model. */
module InMemoryMessageQueues {
  import opened Options
  import opened QueueModel

  class InMemoryMessageQueue {
    const cfg: Config
    var queue: seq<Message>
    var retryCounts: map<string, nat>
    var delayedMessages: map<string, Message>
    var cancelled: set<string>
    /** Whether the dispatch task exists, and the message it holds between two awaits. */
    var running: bool
    var inFlight: Option<Message>
    /** The sleeping tasks: delayed messages by id, retries by message. */
    ghost var timers: multiset<string>
    ghost var waiting: multiset<Message>
    ghost var tally: Tally

    ghost function View(): State
      reads this
    {
      State(queue, retryCounts, delayedMessages, cancelled, running, inFlight, timers, waiting, tally)
    }

    constructor (cfg: Config)
      ensures this.cfg == cfg && View() == INITIAL
    {
      this.cfg := cfg;
      queue, retryCounts, delayedMessages, cancelled := [], map[], map[], {};
      running, inFlight := false, None;
      timers, waiting, tally := INITIAL.timers, INITIAL.waiting, INITIAL.tally;
    }

    method Publish(m: Message) returns (id: string)
      modifies this
      ensures View() == Step(cfg, old(View()), Action.Publish(m)) && id == m.id
    {
      queue := queue + [m];
      tally := Accept(tally, m);
      id := m.id;
    }

    method SendDelay(m: Message) returns (id: string)
      modifies this
      ensures View() == Step(cfg, old(View()), Action.SendDelay(m)) && id == m.id
    {
      ghost var lost := if m.id in delayedMessages then tally.lost + multiset{delayedMessages[m.id]} else tally.lost;
      delayedMessages := delayedMessages[m.id := m];
      timers := timers + multiset{m.id};
      tally := Accept(tally, m).(lost := lost);
      id := m.id;
    }

    /** The sleep of a delayed message is over. */
    method DelayedDispatch(id: string)
      requires id in timers
      modifies this
      ensures View() == Step(cfg, old(View()), DelayDue(id))
    {
      PopDelayed(id);
    }

    method PopDelayed(id: string)
      requires id in timers
      modifies this
      ensures View() == DelayOver(old(View()), id)
    {
      timers := timers - multiset{id};
      if id in delayedMessages {
        var envelope := delayedMessages[id];
        delayedMessages := delayedMessages - {id};
        EnqueueUnlessCancelled(envelope, id);
      }
    }

    method EnqueueUnlessCancelled(envelope: Message, id: string)
      modifies this
      ensures View() == Due(old(View()), envelope, id)
    {
      if id in cancelled {
        cancelled := cancelled - {id};
        tally := tally.(dropped := tally.dropped + multiset{envelope});
      } else {
        queue := queue + [envelope];
      }
    }

    method CancelDelayed(id: string) returns (ok: bool)
      modifies this
      ensures View() == Step(cfg, old(View()), Cancel(id))
      ensures ok <==> id in old(delayedMessages)
    {
      if id in delayedMessages {
        cancelled := cancelled + {id};
        return true;
      }
      return false;
    }

    method StartLoop()
      modifies this
      ensures View() == Step(cfg, old(View()), Start)
    {
      if !running {
        running := true;
      }
    }

    method StopLoop()
      modifies this
      ensures View() == Step(cfg, old(View()), Stop)
    {
      if running {
        running := false;
        tally := if inFlight.Some? then tally.(lost := tally.lost + multiset{inFlight.value}) else tally;
        inFlight := None;
      }
    }

    /** The loop takes the next message. */
    method TakeNext()
      requires running && inFlight.None? && queue != []
      modifies this
      ensures View() == Step(cfg, old(View()), Take)
    {
      inFlight := Some(queue[0]);
      queue := queue[1..];
    }

    method LastFailed(outcomes: seq<Outcome>) returns (last: Outcome)
      ensures last == LastFailure(outcomes, |outcomes|)
      ensures last == Done <==> forall i | 0 <= i < |outcomes| :: outcomes[i] == Done
    {
      LastFailureIs(outcomes, |outcomes|);
      last := Done;
      for n := 0 to |outcomes|
        invariant last == LastFailure(outcomes, n)
      {
        if outcomes[n] != Done {
          last := outcomes[n];
        }
      }
    }

    /** All handlers of the message in flight have ended. */
    method FinishDispatch(outcomes: seq<Outcome>, letterId: string)
      requires inFlight.Some?
      modifies this
      ensures View() == Step(cfg, old(View()), Finish(outcomes, letterId))
    {
      var last := LastFailed(outcomes);
      var m := inFlight.value;
      inFlight := None;
      tally := Note(tally, Attempted(m, last));
      match last {
        case Done =>
          retryCounts := retryCounts - {m.id};
          tally := tally.(consumed := tally.consumed + multiset{m});
        case NonRetryable(error) => SendToDlq(m, error, 0, letterId);
        case Retryable(error) => RetryOrDlq(m, error, letterId);
      }
    }

    method RetryOrDlq(m: Message, error: string, letterId: string)
      modifies this
      ensures View() == Retried(cfg, old(View()), m, error, letterId)
    {
      var retries := (if m.id in retryCounts then retryCounts[m.id] else 0) + 1;
      if retries <= cfg.maxRetries {
        retryCounts := retryCounts[m.id := retries];
        var delay := cfg.backoff * Power2(retries - 1);
        waiting := waiting + multiset{m};
        tally := Note(tally, Scheduled(m, delay));
        return;
      }
      retryCounts := retryCounts - {m.id};
      SendToDlq(m, error, retries - 1, letterId);
    }

    /** The sleep of a retry is over. */
    method RequeueAfter(m: Message)
      requires m in waiting
      modifies this
      ensures View() == Step(cfg, old(View()), RetryDue(m))
    {
      waiting := waiting - multiset{m};
      queue := queue + [m];
    }

    method SendToDlq(m: Message, error: string, retryCount: int, letterId: string)
      modifies this
      ensures View() == SentToDlq(old(View()), m, Letter(cfg, m, error, retryCount, letterId))
      ensures |queue| == |old(queue)| + 1
      ensures var letter := queue[|old(queue)|];
              && letter.id == letterId && letter.topic == cfg.deadLetterTopic && letter.tag == m.tag
              && letter.body.DeadLetter?
              && letter.body.originalId == m.id && letter.body.originalTopic == m.topic
              && letter.body.retryCount == retryCount && letter.body.error == error && letter.body.payload == m.body
              && (forall biz :: BizId(m.body) == Some(biz) && biz != "" ==> letter.body.letterBizId == biz)
              && (BizId(m.body) == None || BizId(m.body) == Some("") ==> letter.body.letterBizId == m.id)
    {
      var letter := Letter(cfg, m, error, retryCount, letterId);
      queue := queue + [letter];
      tally := Accept(Note(tally, Died(m, letter)), letter).(dead := tally.dead + multiset{m});
    }
  }
}
