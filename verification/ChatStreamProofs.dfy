/** What every interleaving of the streaming protocol keeps. */
module ChatStreamProofs {
  import opened Common
  import opened StreamEvents
  import opened ChatStream

  /** How many items have ever been put on the queue: the tokens, then the verdict and "done". */
  function PutCount(sent: seq<string>, verdict: Option<Item>): nat {
    |sent| + if verdict.Some? then 2 else 0
  }

  /** The k-th item ever put. */
  function PutItem(sent: seq<string>, verdict: Option<Item>, k: nat): Item {
    if k < |sent| then TokenItem(sent[k]) else if k == |sent| && verdict.Some? then verdict.value else DoneItem
  }

  predicate InLoop(c: Consumer) {
    c.CheckingLoop? || c.Waiting? || c.AtYield?
  }

  predicate TookVerdict(s: State) {
    s.verdict.Some? && s.taken == |s.sent| + 1
  }

  /** The terminal event the client sees once the verdict has been received. */
  function Ending(p: Params, sent: seq<string>, verdict: Option<Item>, taken: nat): Option<Event> {
    if verdict.None? || taken != |sent| + 1 then None
    else match verdict.value
      case CompletedItem(id) => Some(Completed(id, p.provider))
      case ErrorItem => Some(Error(p.failure))
      case _ => None
  }

  function Ended(emitted: seq<Event>, ending: Option<Event>): seq<Event> {
    if ending.Some? then emitted + [ending.value] else emitted
  }

  /** The text of the one message a completed stream has committed. */
  ghost predicate CommittedExactly(s: State, id: string) {
    s.ended && s.sent == s.provided && s.committed == [Message(id, Concat(s.sent))]
  }

  ghost predicate ProducerInv(s: State) {
    && s.accumulated == Concat(s.sent)
    && s.sent <= s.provided
    && (s.producer.NotCreated? || s.producer.NotStarted? ==> s.provided == [] && !s.ended)
    && (s.producer.AwaitingChunk? ==> s.sent == s.provided && !s.ended)
    && (s.producer.CheckingChunk? ==> s.provided == s.sent + [s.producer.chunk] && !s.ended)
    && (s.producer.CheckingFinal? ==> s.disconnected || (s.ended && s.sent == s.provided))
    && (s.producer.Adding? || s.producer.Committing? ==> s.ended && s.sent == s.provided)
    && (s.producer.Saved? ==> CommittedExactly(s, s.producer.messageId))
    && (!s.producer.Saved? && !s.producer.Finished? ==> s.committed == [])
    && (s.verdict.Some? ==> s.producer.Finished?)
    && (s.producer.Finished? && s.verdict.None? ==> s.cancelRequested && s.sent == [] && s.committed == [])
    && (s.verdict.Some? ==>
          match s.verdict.value
          case CompletedItem(id) => CommittedExactly(s, id)
          case ErrorItem => s.committed == []
          case CancelledItem =>
            (s.stop || s.disconnected) &&
            (s.committed == [] || CommittedExactly(s, s.committed[0].id))
          case _ => false)
  }

  /** The queue is what was put and not yet taken. */
  ghost predicate QueueInv(queue: seq<Item>, sent: seq<string>, verdict: Option<Item>, taken: nat) {
    && taken + |queue| == PutCount(sent, verdict)
    && forall i :: 0 <= i < |queue| ==> queue[i] == PutItem(sent, verdict, taken + i)
  }

  ghost predicate ConsumerInv(s: State) {
    && (s.consumer.Initial? ==> s.emitted == [])
    && (s.emitted == [] ==> s.consumer.Initial? || s.consumer.Closed?)
    && QueueInv(s.queue, s.sent, s.verdict, s.taken)
    && (s.consumer.Initial? || s.consumer.FirstYield? ==> s.producer.NotCreated?)
    && (s.producer.NotCreated? ==> s.consumer.Initial? || s.consumer.FirstYield? || s.consumer.Closed?)
    && (s.producer.NotCreated? ==> !s.stop && s.taken == 0)
    && (s.cancelRequested ==> s.stop)
    && (s.stop ==> s.cancelRequested || s.producer.Finished?)
    && (s.stop ==> s.consumer.Draining? || s.consumer.Closed?)
    && (s.consumer.Draining? ==> s.stop && s.cancelRequested)
    && (InLoop(s.consumer) ==> s.taken <= |s.sent|)
    && (s.consumer.AtLastYield? ==> TookVerdict(s) && !s.verdict.value.CancelledItem?)
    && (s.taken <= |s.sent| || TookVerdict(s))
    && (s.consumer.Draining? || s.consumer.Closed? ==>
          s.aborted || s.disconnected || (TookVerdict(s) && !s.verdict.value.CancelledItem?))
  }

  /** conversation, then tokens and heartbeats, then the ending; the tokens are those received. */
  ghost predicate EmittedInv(p: Params, emitted: seq<Event>, sent: seq<string>, verdict: Option<Item>, taken: nat) {
    var ending := Ending(p, sent, verdict, taken);
    && (emitted == [] ==> taken == 0)
    && (emitted != [] ==> emitted[0] == Conversation(p.conversationId))
    && (forall i :: 0 < i < |emitted| - (if ending.Some? then 1 else 0) ==> emitted[i].Token? || emitted[i].Heartbeat?)
    && (ending.Some? ==> |emitted| > 1 && emitted[|emitted| - 1] == ending.value)
    && Tokens(emitted) == sent[..if taken <= |sent| then taken else |sent|]
  }

  ghost predicate Inv(p: Params, s: State) {
    ProducerInv(s) && ConsumerInv(s) && EmittedInv(p, s.emitted, s.sent, s.verdict, s.taken)
  }

  // ----- producer steps -----

  /** How a producer step moves the history: nothing, one more token, or the verdict. */
  ghost predicate HistoryMoves(s: State, t: State) {
    && t.consumer == s.consumer && t.emitted == s.emitted && t.taken == s.taken
    && t.stop == s.stop && t.disconnected == s.disconnected
    && t.aborted == s.aborted && t.cancelRequested == s.cancelRequested
    && (t.producer.NotCreated? <==> s.producer.NotCreated?)
    && (s.producer.Finished? ==> t.producer.Finished?)
    && (|| (t.sent == s.sent && t.verdict == s.verdict && t.queue == s.queue)
        || (s.verdict.None? && t.verdict.None? && |t.sent| == |s.sent| + 1 && s.sent <= t.sent &&
            t.queue == s.queue + [TokenItem(t.sent[|s.sent|])])
        || (s.verdict.None? && t.verdict.Some? && t.sent == s.sent &&
            t.queue == s.queue + [t.verdict.value, DoneItem]))
  }

  lemma FinishMovesHistory(s: State, verdict: Item)
    requires s.verdict.None? && !s.producer.NotCreated?
    ensures HistoryMoves(s, Finish(s, verdict))
  {
  }

  lemma AfterLoopMovesHistory(s: State)
    requires s.verdict.None? && InTry(s.producer)
    ensures HistoryMoves(s, AfterLoop(s))
  {
    FinishMovesHistory(s, CancelledItem);
  }

  lemma CheckMovesHistory(s: State)
    requires ProducerInv(s)
    ensures HistoryMoves(s, OnProducerChecked(s))
  {
    if s.producer.CheckingChunk? && s.disconnected {
      AfterLoopMovesHistory(s);
    } else if s.producer.CheckingFinal? && s.disconnected {
      FinishMovesHistory(s, CancelledItem);
    }
  }

  /** A producer step keeps the producer's invariant and moves the history. */
  ghost predicate GoodProducerStep(s: State, step: Step) {
    ProducerInv(ProducerStep(s, step)) && HistoryMoves(s, ProducerStep(s, step))
  }

  lemma ChunkIsGood(s: State, chunk: string)
    requires ProducerInv(s) && ConsumerInv(s)
    ensures GoodProducerStep(s, ProviderChunk(chunk))
  {
    if s.producer.AwaitingChunk? {
      AfterLoopMovesHistory(s.(provided := s.provided + [chunk]));
    }
  }

  lemma EndIsGood(s: State)
    requires ProducerInv(s) && ConsumerInv(s)
    ensures GoodProducerStep(s, ProviderEnd)
  {
    if s.producer.AwaitingChunk? {
      AfterLoopMovesHistory(s.(ended := true));
    }
  }

  lemma SendingKeepsProducerInv(s: State)
    requires ProducerInv(s) && s.producer.CheckingChunk? && !s.disconnected
    ensures ProducerInv(OnProducerChecked(s))
  {
    ConcatSnoc(s.sent, s.producer.chunk);
  }

  lemma StoppingKeepsProducerInv(s: State)
    requires ProducerInv(s) && (s.disconnected || !s.producer.CheckingChunk?)
    ensures ProducerInv(OnProducerChecked(s))
  {
  }

  lemma CheckKeepsProducerInv(s: State)
    requires ProducerInv(s)
    ensures ProducerInv(OnProducerChecked(s))
  {
    if s.producer.CheckingChunk? && !s.disconnected {
      SendingKeepsProducerInv(s);
    } else {
      StoppingKeepsProducerInv(s);
    }
  }

  lemma CheckStepIs(s: State)
    ensures ProducerStep(s, ProducerChecked) == if s.cancelRequested then s else OnProducerChecked(s)
  {
  }

  lemma CheckIsGood(s: State)
    requires ProducerInv(s)
    ensures GoodProducerStep(s, ProducerChecked)
  {
    CheckStepIs(s);
    CheckMovesHistory(s);
    CheckKeepsProducerInv(s);
  }

  lemma CommitIsGood(s: State, id: string)
    requires ProducerInv(s) && ConsumerInv(s)
    ensures GoodProducerStep(s, CommitTakesEffect(id))
  {
  }

  lemma CommittedIsGood(s: State)
    requires ProducerInv(s) && ConsumerInv(s)
    ensures GoodProducerStep(s, ProducerCommitted)
  {
    if s.producer.Saved? {
      FinishMovesHistory(s, CompletedItem(s.producer.messageId));
    }
  }

  lemma FailureIsGood(s: State)
    requires ProducerInv(s) && ConsumerInv(s)
    ensures GoodProducerStep(s, ProducerFails)
  {
    if InTry(s.producer) {
      FinishMovesHistory(s, ErrorItem);
    }
  }

  lemma CancellationIsGood(s: State)
    requires ProducerInv(s) && ConsumerInv(s)
    ensures GoodProducerStep(s, ProducerCancelled)
  {
    if InTry(s.producer) {
      FinishMovesHistory(s, CancelledItem);
    }
  }

  lemma ProducerStepIsGood(s: State, step: Step)
    requires ProducerInv(s) && ConsumerInv(s) && !IsConsumerStep(step)
    ensures GoodProducerStep(s, step)
  {
    match step {
      case ProviderChunk(chunk) => ChunkIsGood(s, chunk);
      case ProviderEnd => EndIsGood(s);
      case ProducerChecked => CheckIsGood(s);
      case CommitTakesEffect(id) => CommitIsGood(s, id);
      case ProducerCommitted => CommittedIsGood(s);
      case ProducerFails => FailureIsGood(s);
      case ProducerCancelled => CancellationIsGood(s);
      case ProducerStart =>
      case ProducerAdded =>
    }
  }

  lemma HistoryMovesKeepConsumer(p: Params, s: State, t: State)
    requires ConsumerInv(s) && HistoryMoves(s, t)
    requires EmittedInv(p, s.emitted, s.sent, s.verdict, s.taken)
    ensures ConsumerInv(t) && EmittedInv(p, t.emitted, t.sent, t.verdict, t.taken)
  {
  }

  lemma ProducerStepKeepsInv(p: Params, s: State, step: Step)
    requires Inv(p, s) && !IsConsumerStep(step)
    ensures Inv(p, ProducerStep(s, step))
  {
    ProducerStepIsGood(s, step);
    HistoryMovesKeepConsumer(p, s, ProducerStep(s, step));
  }

  // ----- consumer steps -----

  lemma DrainKeepsInv(p: Params, s: State)
    requires Inv(p, s) && (InLoop(s.consumer) || s.consumer.AtLastYield?)
    requires s.aborted || s.disconnected || s.consumer.AtLastYield?
    ensures Inv(p, Drain(s))
  {
    ProducerInvIsItsOwn(s, Drain(s));
  }

  lemma TokenEmitted(p: Params, emitted: seq<Event>, sent: seq<string>, verdict: Option<Item>, taken: nat)
    requires EmittedInv(p, emitted, sent, verdict, taken) && emitted != [] && taken < |sent|
    ensures EmittedInv(p, emitted + [Token(sent[taken])], sent, verdict, taken + 1)
  {
    TokensSnoc(emitted, Token(sent[taken]));
    assert sent[..taken + 1] == sent[..taken] + [sent[taken]];
  }

  /** The state after a token has been taken and is being shown. */
  function Showing(s: State): State
    requires s.queue != [] && s.queue[0].TokenItem?
  {
    s.(queue := s.queue[1..], taken := s.taken + 1,
       emitted := s.emitted + [Token(s.queue[0].content)], consumer := AtYield)
  }

  lemma ShowingKeepsConsumer(p: Params, s: State)
    requires Inv(p, s) && s.consumer.Waiting? && s.queue != [] && s.queue[0].TokenItem?
    ensures ConsumerInv(Showing(s))
  {
    NextIsToken(s);
    QueueTake(s.queue, s.sent, s.verdict, s.taken);
  }

  /** The producer's invariant does not depend on what only the consumer moves. */
  lemma ProducerInvIsItsOwn(s: State, t: State)
    requires ProducerInv(s)
    requires (t.producer, t.accumulated, t.provided, t.ended, t.committed, t.sent, t.verdict) ==
             (s.producer, s.accumulated, s.provided, s.ended, s.committed, s.sent, s.verdict)
    requires (s.stop ==> t.stop) && (s.disconnected ==> t.disconnected) && (s.cancelRequested ==> t.cancelRequested)
    ensures ProducerInv(t)
  {
  }

  lemma NextIsToken(s: State)
    requires ProducerInv(s) && ConsumerInv(s) && InLoop(s.consumer) && s.queue != [] && s.queue[0].TokenItem?
    ensures s.taken < |s.sent| && s.queue[0] == TokenItem(s.sent[s.taken])
  {
    assert s.queue[0] == PutItem(s.sent, s.verdict, s.taken + 0);
  }

  lemma ShowingKeepsEmitted(p: Params, s: State)
    requires Inv(p, s) && s.consumer.Waiting? && s.queue != [] && s.queue[0].TokenItem?
    ensures EmittedInv(p, Showing(s).emitted, s.sent, s.verdict, s.taken + 1)
  {
    NextIsToken(s);
    TokenEmitted(p, s.emitted, s.sent, s.verdict, s.taken);
  }

  lemma ShowingKeepsInv(p: Params, s: State)
    requires Inv(p, s) && s.consumer.Waiting? && s.queue != [] && s.queue[0].TokenItem?
    ensures Inv(p, Showing(s))
  {
    ShowingKeepsEmitted(p, s);
    ShowingKeepsConsumer(p, s);
    ProducerInvIsItsOwn(s, Showing(s));
  }

  lemma TokenTaken(p: Params, s: State)
    requires s.consumer.Waiting? && s.queue != [] && s.queue[0].TokenItem?
    ensures ConsumerStep(p, s, ConsumerGet) == Showing(s)
  {
  }

  /** What is next in the queue once every token has been taken. */
  lemma NextIsVerdict(s: State)
    requires ConsumerInv(s) && InLoop(s.consumer) && s.queue != [] && !s.queue[0].TokenItem?
    ensures s.taken == |s.sent| && s.verdict == Some(s.queue[0])
  {
    assert s.queue[0] == PutItem(s.sent, s.verdict, s.taken + 0);
  }

  lemma QueueTake(queue: seq<Item>, sent: seq<string>, verdict: Option<Item>, taken: nat)
    requires QueueInv(queue, sent, verdict, taken) && queue != []
    ensures QueueInv(queue[1..], sent, verdict, taken + 1)
  {
  }

  lemma EndingEmitted(p: Params, emitted: seq<Event>, sent: seq<string>, verdict: Option<Item>)
    requires EmittedInv(p, emitted, sent, verdict, |sent|) && emitted != [] && verdict.Some?
    ensures EmittedInv(p, Ended(emitted, Ending(p, sent, verdict, |sent| + 1)), sent, verdict, |sent| + 1)
  {
    var ending := Ending(p, sent, verdict, |sent| + 1);
    if ending.Some? {
      TokensSnoc(emitted, ending.value);
    }
  }

  lemma CancelledTaken(p: Params, s: State, t: State)
    requires Inv(p, s) && s.consumer.Waiting? && s.queue != [] && s.queue[0].CancelledItem?
    requires t == ConsumerStep(p, s, ConsumerGet)
    ensures ProducerInv(t) && ConsumerInv(t)
    ensures t.emitted == Ended(s.emitted, Ending(p, t.sent, t.verdict, t.taken))
  {
    NextIsVerdict(s);
    QueueTake(s.queue, s.sent, s.verdict, s.taken);
  }

  lemma ShownTaken(p: Params, s: State, t: State)
    requires Inv(p, s) && s.consumer.Waiting? && s.queue != []
    requires s.queue[0].CompletedItem? || s.queue[0].ErrorItem?
    requires t == ConsumerStep(p, s, ConsumerGet)
    ensures ProducerInv(t) && ConsumerInv(t)
    ensures t.emitted == Ended(s.emitted, Ending(p, t.sent, t.verdict, t.taken))
  {
    NextIsVerdict(s);
    QueueTake(s.queue, s.sent, s.verdict, s.taken);
  }

  lemma VerdictShown(p: Params, s: State, t: State)
    requires Inv(p, s) && s.consumer.Waiting? && s.queue != [] && !s.queue[0].TokenItem?
    requires t == ConsumerStep(p, s, ConsumerGet)
    ensures ProducerInv(t) && ConsumerInv(t)
    ensures t.sent == s.sent && t.verdict == s.verdict && t.taken == s.taken + 1 == |s.sent| + 1 && s.verdict.Some?
    ensures t.emitted == Ended(s.emitted, Ending(p, s.sent, s.verdict, |s.sent| + 1))
  {
    NextIsVerdict(s);
    if s.queue[0].CancelledItem? {
      CancelledTaken(p, s, t);
    } else {
      ShownTaken(p, s, t);
    }
  }

  lemma VerdictTaken(p: Params, s: State, t: State)
    requires Inv(p, s) && s.consumer.Waiting? && s.queue != [] && !s.queue[0].TokenItem?
    requires t == ConsumerStep(p, s, ConsumerGet)
    ensures Inv(p, t)
  {
    assert s.emitted != [];
    VerdictShown(p, s, t);
    EndingEmitted(p, s.emitted, s.sent, s.verdict);
  }

  lemma ConsumerStepKeepsInv(p: Params, s: State, step: Step)
    requires Inv(p, s) && IsConsumerStep(step)
    ensures Inv(p, ConsumerStep(p, s, step))
  {
    match step {
      case ConsumerGet =>
        if s.consumer.Waiting? && s.queue != [] {
          if s.queue[0].TokenItem? {
            ShowingKeepsInv(p, s);
            TokenTaken(p, s);
          } else {
            VerdictTaken(p, s, ConsumerStep(p, s, step));
          }
        }
      case ConsumerTimeout => TimeoutKeepsInv(p, s);
      case ConsumerStart => StartKeepsInv(p, s);
      case ConsumerDrained => DrainedKeepsInv(p, s);
      case Disconnect => DisconnectKeepsInv(p, s);
      case ConsumerChecked => CheckedKeepsInv(p, s);
      case Abort => AbortKeepsInv(p, s);
      case ConsumerResume => ResumeKeepsInv(p, s);
      case _ =>
    }
  }

  lemma HeartbeatKeepsEmitted(p: Params, emitted: seq<Event>, sent: seq<string>, verdict: Option<Item>, taken: nat)
    requires EmittedInv(p, emitted, sent, verdict, taken) && emitted != [] && taken <= |sent|
    ensures EmittedInv(p, emitted + [Heartbeat], sent, verdict, taken)
  {
    TokensSnoc(emitted, Heartbeat);
  }

  lemma TimeoutKeepsInv(p: Params, s: State)
    requires Inv(p, s)
    ensures Inv(p, ConsumerStep(p, s, ConsumerTimeout))
  {
    if s.consumer.Waiting? {
      HeartbeatKeepsEmitted(p, s.emitted, s.sent, s.verdict, s.taken);
      ProducerInvIsItsOwn(s, ConsumerStep(p, s, ConsumerTimeout));
    }
  }

  lemma CheckedKeepsInv(p: Params, s: State)
    requires Inv(p, s)
    ensures Inv(p, ConsumerStep(p, s, ConsumerChecked))
  {
    if s.consumer.CheckingLoop? && s.disconnected {
      DrainKeepsInv(p, s);
    }
  }

  lemma ResumeKeepsInv(p: Params, s: State)
    requires Inv(p, s)
    ensures Inv(p, ConsumerStep(p, s, ConsumerResume))
  {
    if s.consumer.AtLastYield? {
      DrainKeepsInv(p, s);
    }
  }

  lemma StartKeepsInv(p: Params, s: State)
    requires Inv(p, s)
    ensures Inv(p, ConsumerStep(p, s, ConsumerStart))
  {
    TokensSnoc([], Conversation(p.conversationId));
  }

  lemma DrainedKeepsInv(p: Params, s: State)
    requires Inv(p, s)
    ensures Inv(p, ConsumerStep(p, s, ConsumerDrained))
  {
  }

  lemma DisconnectKeepsInv(p: Params, s: State)
    requires Inv(p, s)
    ensures Inv(p, ConsumerStep(p, s, Disconnect))
  {
  }

  lemma AbortedKeepsInv(p: Params, s: State)
    requires Inv(p, s)
    ensures Inv(p, s.(aborted := true))
  {
    ProducerInvIsItsOwn(s, s.(aborted := true));
  }

  lemma ClosingKeepsInv(p: Params, s: State)
    requires Inv(p, s) && (s.consumer.Initial? || s.consumer.FirstYield? || s.consumer.Draining?)
    ensures Inv(p, s.(consumer := Closed, aborted := true))
  {
    ProducerInvIsItsOwn(s, s.(consumer := Closed, aborted := true));
  }

  lemma AbortIs(p: Params, s: State)
    ensures ConsumerStep(p, s, Abort)
         == if s.consumer.Closed? then s
            else if InLoop(s.consumer) || s.consumer.AtLastYield? then Drain(s.(aborted := true))
            else s.(consumer := Closed, aborted := true)
  {
  }

  lemma AbortKeepsInv(p: Params, s: State)
    requires Inv(p, s)
    ensures Inv(p, ConsumerStep(p, s, Abort))
  {
    AbortIs(p, s);
    if InLoop(s.consumer) || s.consumer.AtLastYield? {
      AbortedKeepsInv(p, s);
      DrainKeepsInv(p, s.(aborted := true));
    } else if !s.consumer.Closed? {
      ClosingKeepsInv(p, s);
    }
  }

  lemma StepKeepsInv(p: Params, s: State, step: Step)
    requires Inv(p, s)
    ensures Inv(p, Apply(p, s, step))
  {
    if IsConsumerStep(step) {
      ConsumerStepKeepsInv(p, s, step);
    } else {
      ProducerStepKeepsInv(p, s, step);
    }
  }

  lemma {:induction false} RunKeepsInv(p: Params, s: State, steps: seq<Step>)
    requires Inv(p, s)
    ensures Inv(p, Run(p, s, steps))
    decreases |steps|
  {
    if steps != [] {
      StepKeepsInv(p, s, steps[0]);
      RunKeepsInv(p, Apply(p, s, steps[0]), steps[1..]);
    }
  }

  lemma {:induction false} RunSnoc(p: Params, s: State, steps: seq<Step>, step: Step)
    ensures Run(p, s, steps + [step]) == Apply(p, Run(p, s, steps), step)
    decreases |steps|
  {
    if steps == [] {
      assert Run(p, s, [step]) == Run(p, Apply(p, s, step), [step][1..]);
    } else {
      assert (steps + [step])[1..] == steps[1..] + [step];
      RunSnoc(p, Apply(p, s, steps[0]), steps[1..], step);
    }
  }

  lemma ReachableStep(p: Params, s: State, step: Step) returns (t: State)
    requires Reachable(p, s)
    ensures t == Apply(p, s, step) && Reachable(p, t)
  {
    var steps :| s == Run(p, Start(), steps);
    RunSnoc(p, Start(), steps, step);
    t := Apply(p, s, step);
    assert t == Run(p, Start(), steps + [step]);
  }

  lemma ReachableInv(p: Params, s: State)
    requires Reachable(p, s)
    ensures Inv(p, s)
  {
    var steps :| s == Run(p, Start(), steps);
    RunKeepsInv(p, Start(), steps);
  }

  // ----- what the client sees -----

  /** conversation first, nothing but tokens and heartbeats after it, at most one terminal event, last. */
  ghost predicate WellOrdered(p: Params, es: seq<Event>) {
    && (es != [] ==> es[0] == Conversation(p.conversationId))
    && (forall i :: 0 < i < |es| ==> !es[i].Conversation? && !es[i].Unknown?)
    && (forall i :: 0 <= i < |es| - 1 ==> !IsTerminal(es[i]))
  }

  lemma EmittedIsWellOrdered(p: Params, emitted: seq<Event>, sent: seq<string>, verdict: Option<Item>, taken: nat)
    requires EmittedInv(p, emitted, sent, verdict, taken)
    ensures WellOrdered(p, emitted)
    ensures forall i :: 0 <= i < |emitted| && IsTerminal(emitted[i]) ==>
              Ending(p, sent, verdict, taken) == Some(emitted[i])
  {
  }

  lemma EmittedTokensAreProvided(p: Params, s: State)
    requires Inv(p, s)
    ensures Tokens(s.emitted) <= s.sent <= s.provided
  {
  }

  lemma CompletedMeansCommitted(p: Params, s: State, i: nat)
    requires Inv(p, s) && i < |s.emitted| && s.emitted[i].Completed?
    ensures s.verdict == Some(CompletedItem(s.emitted[i].messageId)) && s.taken == |s.sent| + 1
    ensures Tokens(s.emitted) == s.sent && CommittedExactly(s, s.emitted[i].messageId)
  {
    EmittedIsWellOrdered(p, s.emitted, s.sent, s.verdict, s.taken);
    assert s.sent[..|s.sent|] == s.sent;
  }

  lemma ErrorMeansNoneCommitted(p: Params, s: State, i: nat)
    requires Inv(p, s) && i < |s.emitted| && s.emitted[i].Error?
    ensures s.committed == [] && s.emitted[i].failure == p.failure
  {
    EmittedIsWellOrdered(p, s.emitted, s.sent, s.verdict, s.taken);
  }

  lemma EmittedStreamIsSound(p: Params, s: State)
    requires Reachable(p, s)
    ensures WellOrdered(p, s.emitted)
    ensures Tokens(s.emitted) <= s.provided
    ensures forall i :: 0 <= i < |s.emitted| && s.emitted[i].Completed? ==>
              Tokens(s.emitted) == s.provided && s.ended &&
              s.committed == [Message(s.emitted[i].messageId, Concat(Tokens(s.emitted)))]
    ensures forall i :: 0 <= i < |s.emitted| && s.emitted[i].Error? ==> s.committed == []
  {
    ReachableInv(p, s);
    EmittedIsWellOrdered(p, s.emitted, s.sent, s.verdict, s.taken);
    EmittedTokensAreProvided(p, s);
    forall i | 0 <= i < |s.emitted| && s.emitted[i].Completed?
      ensures Tokens(s.emitted) == s.provided && s.ended &&
              s.committed == [Message(s.emitted[i].messageId, Concat(Tokens(s.emitted)))]
    {
      CompletedMeansCommitted(p, s, i);
    }
    forall i | 0 <= i < |s.emitted| && s.emitted[i].Error?
      ensures s.committed == []
    {
      ErrorMeansNoneCommitted(p, s, i);
    }
  }

  lemma OnlyOneFailure(p: Params, s: State)
    requires Reachable(p, s)
    ensures forall i :: 0 <= i < |s.emitted| && s.emitted[i].Error? ==> s.emitted[i].failure == p.failure
  {
    ReachableInv(p, s);
    forall i | 0 <= i < |s.emitted| && s.emitted[i].Error?
      ensures s.emitted[i].failure == p.failure
    {
      ErrorMeansNoneCommitted(p, s, i);
    }
  }

  /** Every message the producer commits is the whole provider stream, and there is at most one. */
  lemma CommittedIsWholeStream(p: Params, s: State)
    requires Reachable(p, s) && s.committed != []
    ensures s.ended && |s.committed| == 1 && s.committed[0].content == Concat(s.provided)
  {
    ReachableInv(p, s);
  }

  lemma CleanStreamEndsWithVerdict(p: Params, s: State)
    requires Reachable(p, s) && s.consumer.Closed? && !s.aborted && !s.disconnected
    ensures s.emitted != [] && IsTerminal(s.emitted[|s.emitted| - 1])
  {
    ReachableInv(p, s);
  }

  // ----- progress of the consumer -----

  lemma ConsumerNeverStarves(p: Params, s: State)
    requires Reachable(p, s) && InLoop(s.consumer) && s.producer.Finished?
    ensures s.queue != []
    ensures exists i :: 0 <= i < |s.queue| && !s.queue[i].TokenItem?
  {
    ReachableInv(p, s);
    QueueHoldsVerdict(s);
  }

  lemma QueueHoldsVerdict(s: State)
    requires ProducerInv(s) && ConsumerInv(s) && InLoop(s.consumer) && s.producer.Finished?
    ensures s.verdict.Some? && |s.queue| == |s.sent| - s.taken + 2 && s.queue[|s.queue| - 2] == s.verdict.value
  {
    assert s.queue[|s.sent| - s.taken] == PutItem(s.sent, s.verdict, |s.sent|);
  }

  predicate IsOwnConsumerStep(step: Step) {
    step.ConsumerResume? || step.ConsumerChecked? || step.ConsumerGet? || step.ConsumerDrained?
  }

  ghost predicate ClosesBy(p: Params, s: State, steps: seq<Step>) {
    && (forall i :: 0 <= i < |steps| ==> IsOwnConsumerStep(steps[i]))
    && Run(p, s, steps).consumer.Closed?
  }

  /** How many own steps a finished producer leaves the consumer at most. */
  function Remaining(s: State): nat {
    match s.consumer
    case Closed => 0
    case Draining => 1
    case AtLastYield => 1
    case AtYield => 3 * |s.queue| + 3
    case CheckingLoop => 3 * |s.queue| + 2
    case _ => 3 * |s.queue| + 1
  }

  function OwnStep(c: Consumer): Step {
    match c
    case Draining => ConsumerDrained
    case Waiting => ConsumerGet
    case CheckingLoop => ConsumerChecked
    case _ => ConsumerResume
  }

  lemma TakingDecreases(p: Params, s: State)
    requires s.consumer.Waiting? && s.queue != [] && s.producer.Finished?
    ensures Apply(p, s, ConsumerGet).producer.Finished? && Remaining(Apply(p, s, ConsumerGet)) < Remaining(s)
  {
  }

  lemma OwnStepDecreases(p: Params, s: State)
    requires Inv(p, s) && s.producer.Finished? && !s.consumer.Closed?
    ensures Apply(p, s, OwnStep(s.consumer)).producer.Finished?
    ensures Remaining(Apply(p, s, OwnStep(s.consumer))) < Remaining(s)
  {
    if s.consumer.Waiting? {
      QueueHoldsVerdict(s);
      TakingDecreases(p, s);
    }
  }

  /** Once the producer has finished, the consumer closes by its own steps alone. */
  lemma {:induction false} FinishedProducerLetsConsumerClose(p: Params, s: State) returns (steps: seq<Step>)
    requires Inv(p, s) && s.producer.Finished?
    ensures ClosesBy(p, s, steps) && |steps| <= Remaining(s)
    decreases Remaining(s)
  {
    if s.consumer.Closed? {
      return [];
    }
    var step := OwnStep(s.consumer);
    ConsumerStepKeepsInv(p, s, step);
    OwnStepDecreases(p, s);
    var rest := FinishedProducerLetsConsumerClose(p, Apply(p, s, step));
    ClosesByCons(p, s, step, rest);
    steps := [step] + rest;
  }

  lemma DrainingFinishes(p: Params, s: State)
    requires Inv(p, s) && s.consumer.Draining?
    ensures var t := Apply(p, s, ProducerCancelled);
            t.producer.Finished? && t.consumer.Draining?
  {
  }

  /** A draining generator has asked the producer to cancel, and closes once that is delivered. */
  lemma DrainingCloses(p: Params, s: State)
    requires Reachable(p, s) && s.consumer.Draining?
    ensures Run(p, s, [ProducerCancelled, ConsumerDrained]).consumer.Closed?
  {
    ReachableInv(p, s);
    DrainingFinishes(p, s);
    var t, steps := Apply(p, s, ProducerCancelled), [ProducerCancelled, ConsumerDrained];
    assert steps[1..] == [ConsumerDrained];
    assert Run(p, t, [ConsumerDrained]) == Apply(p, t, ConsumerDrained);
  }

  lemma ClosesByCons(p: Params, s: State, step: Step, rest: seq<Step>)
    requires IsOwnConsumerStep(step) && ClosesBy(p, Apply(p, s, step), rest)
    ensures ClosesBy(p, s, [step] + rest)
  {
    assert ([step] + rest)[1..] == rest;
  }

  // ----- a connected client is told how its stream went -----

  /** The producer has reached its verdict, the client is connected, and the consumer has it or will take it. */
  ghost predicate WillShow(s: State) {
    s.producer.Finished? && s.verdict.Some? && !s.disconnected && (InLoop(s.consumer) || TookVerdict(s))
  }

  ghost predicate SameResult(s: State, t: State) {
    t.sent == s.sent && t.verdict == s.verdict && t.committed == s.committed
  }

  lemma TakingWillShow(p: Params, s: State)
    requires Inv(p, s) && WillShow(s) && s.consumer.Waiting? && s.queue != []
    ensures WillShow(Apply(p, s, ConsumerGet)) && SameResult(s, Apply(p, s, ConsumerGet))
  {
    if s.queue[0].TokenItem? {
      TokenTaken(p, s);
    } else {
      VerdictShown(p, s, ConsumerStep(p, s, ConsumerGet));
    }
  }

  lemma OwnStepWillShow(p: Params, s: State)
    requires Inv(p, s) && WillShow(s) && !s.consumer.Closed?
    ensures WillShow(Apply(p, s, OwnStep(s.consumer))) && SameResult(s, Apply(p, s, OwnStep(s.consumer)))
  {
    if s.consumer.Waiting? {
      QueueHoldsVerdict(s);
      TakingWillShow(p, s);
    }
  }

  lemma {:induction false} VerdictIsTaken(p: Params, s: State) returns (steps: seq<Step>)
    requires Inv(p, s) && WillShow(s)
    ensures ClosesBy(p, s, steps)
    ensures SameResult(s, Run(p, s, steps)) && TookVerdict(Run(p, s, steps))
    decreases Remaining(s)
  {
    if s.consumer.Closed? {
      return [];
    }
    var step := OwnStep(s.consumer);
    ConsumerStepKeepsInv(p, s, step);
    OwnStepDecreases(p, s);
    OwnStepWillShow(p, s);
    var rest := VerdictIsTaken(p, Apply(p, s, step));
    ClosesByCons(p, s, step, rest);
    steps := [step] + rest;
    assert steps[1..] == rest;
  }

  /** What the client has been shown of a stream: these tokens, and this event last. */
  ghost predicate Shown(emitted: seq<Event>, tokens: seq<string>, last: Event) {
    Tokens(emitted) == tokens && emitted != [] && emitted[|emitted| - 1] == last
  }

  lemma TakenVerdictIsShown(p: Params, s: State)
    requires Inv(p, s) && TookVerdict(s) && !s.verdict.value.CancelledItem?
    ensures s.verdict.value.CompletedItem? ==>
              Shown(s.emitted, s.sent, Completed(s.verdict.value.messageId, p.provider))
    ensures s.verdict.value.ErrorItem? ==> Shown(s.emitted, s.sent, Error(p.failure))
  {
    assert s.sent[..|s.sent|] == s.sent;
  }

  lemma VerdictIsShown(p: Params, s: State) returns (steps: seq<Step>)
    requires Inv(p, s) && WillShow(s) && InLoop(s.consumer)
    ensures ClosesBy(p, s, steps) && Run(p, s, steps).committed == s.committed
    ensures s.verdict.value.CompletedItem? ==>
              Shown(Run(p, s, steps).emitted, s.sent, Completed(s.verdict.value.messageId, p.provider))
    ensures s.verdict.value.ErrorItem? ==> Shown(Run(p, s, steps).emitted, s.sent, Error(p.failure))
  {
    steps := VerdictIsTaken(p, s);
    RunKeepsInv(p, s, steps);
    TakenVerdictIsShown(p, Run(p, s, steps));
  }

  lemma FailingFinishes(p: Params, s: State)
    requires Inv(p, s) && InTry(s.producer) && !s.producer.Saved? && InLoop(s.consumer) && !s.disconnected
    ensures var t := Apply(p, s, ProducerFails);
            WillShow(t) && InLoop(t.consumer) && t.verdict == Some(ErrorItem) && t.sent == s.sent && t.committed == []
  {
  }

  /**
   A provider or database call that fails before the commit took effect is reported to a connected client: the
   consumer's own steps show every token put so far and the error, and close; the producer has committed nothing.
   */
  lemma FailureIsReported(p: Params, s: State) returns (steps: seq<Step>)
    requires Reachable(p, s) && InTry(s.producer) && !s.producer.Saved? && InLoop(s.consumer) && !s.disconnected
    ensures var t := Apply(p, s, ProducerFails);
            ClosesBy(p, t, steps) && Run(p, t, steps).committed == [] &&
            Shown(Run(p, t, steps).emitted, s.sent, Error(p.failure))
    ensures s.producer.CheckingChunk? || s.sent == s.provided
  {
    ReachableInv(p, s);
    FailingFinishes(p, s);
    StepKeepsInv(p, s, ProducerFails);
    steps := VerdictIsShown(p, Apply(p, s, ProducerFails));
  }

  /** Some step made the producer fail inside its try block. */
  ghost predicate Failed(p: Params, steps: seq<Step>) {
    exists i :: 0 <= i < |steps| && steps[i].ProducerFails? && InTry(Run(p, Start(), steps[..i]).producer)
  }

  lemma OnlyFailureGivesError(s: State, step: Step)
    requires !IsConsumerStep(step) && s.verdict != Some(ErrorItem) && ProducerStep(s, step).verdict == Some(ErrorItem)
    ensures step.ProducerFails? && InTry(s.producer)
  {
  }

  lemma {:induction false} ErrorVerdictMeansFailed(p: Params, steps: seq<Step>)
    requires Run(p, Start(), steps).verdict == Some(ErrorItem)
    ensures Failed(p, steps)
    decreases |steps|
  {
    if steps != [] {
      var init, last := steps[..|steps| - 1], steps[|steps| - 1];
      assert steps == init + [last];
      var s := Run(p, Start(), init);
      RunSnoc(p, Start(), init, last);
      if s.verdict == Some(ErrorItem) {
        ErrorVerdictMeansFailed(p, init);
        var i :| 0 <= i < |init| && init[i].ProducerFails? && InTry(Run(p, Start(), init[..i]).producer);
        assert steps[..i] == init[..i];
        assert steps[i] == init[i];
      } else {
        assert !IsConsumerStep(last);
        OnlyFailureGivesError(s, last);
      }
    }
  }

  /** No other exit of the producer, and no disconnect or abort, is shown to the client as an error. */
  lemma ErrorMeansFailed(p: Params, steps: seq<Step>, i: nat)
    requires i < |Run(p, Start(), steps).emitted| && Run(p, Start(), steps).emitted[i].Error?
    ensures Failed(p, steps)
  {
    var s := Run(p, Start(), steps);
    RunKeepsInv(p, Start(), steps);
    EmittedIsWellOrdered(p, s.emitted, s.sent, s.verdict, s.taken);
    ErrorVerdictMeansFailed(p, steps);
  }

  lemma SavedFinishes(p: Params, s: State)
    requires Inv(p, s) && s.producer.Saved? && InLoop(s.consumer) && !s.disconnected
    ensures var t := Apply(p, s, ProducerCommitted);
            WillShow(t) && InLoop(t.consumer) && t.verdict == Some(CompletedItem(s.producer.messageId)) &&
            t.sent == s.sent == s.provided && t.committed == [Message(s.producer.messageId, Concat(s.provided))]
  {
  }

  /** A commit that took effect is reported to a connected client, with every chunk the provider gave. */
  lemma CommitIsReported(p: Params, s: State) returns (steps: seq<Step>)
    requires Reachable(p, s) && s.producer.Saved? && InLoop(s.consumer) && !s.disconnected
    ensures var t := Apply(p, s, ProducerCommitted);
            var id := s.producer.messageId;
            ClosesBy(p, t, steps) && Run(p, t, steps).committed == [Message(id, Concat(s.provided))] &&
            Shown(Run(p, t, steps).emitted, s.provided, Completed(id, p.provider))
  {
    ReachableInv(p, s);
    SavedFinishes(p, s);
    StepKeepsInv(p, s, ProducerCommitted);
    steps := VerdictIsShown(p, Apply(p, s, ProducerCommitted));
  }

  /** A queue that stays empty for the heartbeat interval costs the client nothing but a heartbeat. */
  lemma HeartbeatIsAllThatHappens(p: Params, s: State)
    requires s.consumer.Waiting? && !s.disconnected
    ensures Run(p, s, [ConsumerTimeout, ConsumerResume, ConsumerChecked]) == s.(emitted := s.emitted + [Heartbeat])
  {
    var steps := [ConsumerTimeout, ConsumerResume, ConsumerChecked];
    var t := Apply(p, s, ConsumerTimeout);
    assert steps[1..] == [ConsumerResume, ConsumerChecked];
    var u := Apply(p, t, ConsumerResume);
    assert steps[1..][1..] == [ConsumerChecked];
    assert Run(p, u, [ConsumerChecked]) == Apply(p, u, ConsumerChecked);
  }

  // ----- a client that has gone -----

  lemma OnlyCheckSends(s: State, step: Step)
    requires !IsConsumerStep(step) && ProducerStep(s, step).sent != s.sent
    ensures s.producer.CheckingChunk? && !s.cancelRequested && !s.disconnected
  {
  }

  lemma NothingSentStep(p: Params, s: State, step: Step)
    requires Inv(p, s) && (s.stop || s.disconnected)
    ensures Apply(p, s, step).sent == s.sent && (Apply(p, s, step).stop || Apply(p, s, step).disconnected)
  {
    if !IsConsumerStep(step) {
      ProducerStepIsGood(s, step);
      if ProducerStep(s, step).sent != s.sent {
        OnlyCheckSends(s, step);
      }
    }
  }

  /** Once the client has gone or the generator is ending, the producer puts no token on the queue. */
  lemma {:induction false} NothingSentAfterDisconnect(p: Params, s: State, steps: seq<Step>)
    requires Inv(p, s) && (s.stop || s.disconnected)
    ensures Run(p, s, steps).sent == s.sent
    decreases |steps|
  {
    if steps != [] {
      StepKeepsInv(p, s, steps[0]);
      NothingSentStep(p, s, steps[0]);
      NothingSentAfterDisconnect(p, Apply(p, s, steps[0]), steps[1..]);
    }
  }

  predicate IsEnding(c: Consumer) {
    c.Draining? || c.Closed?
  }

  ghost predicate StaysEnding(s: State, t: State) {
    t.emitted == s.emitted && IsEnding(t.consumer) && (s.consumer.Closed? ==> t.consumer.Closed?)
  }

  lemma SilentConsumerStep(p: Params, s: State, step: Step)
    requires IsEnding(s.consumer) && IsConsumerStep(step)
    ensures StaysEnding(s, ConsumerStep(p, s, step))
  {
  }

  lemma SilentStep(p: Params, s: State, step: Step)
    requires Inv(p, s) && IsEnding(s.consumer)
    ensures StaysEnding(s, Apply(p, s, step))
  {
    if IsConsumerStep(step) {
      SilentConsumerStep(p, s, step);
    } else {
      ProducerStepIsGood(s, step);
    }
  }

  lemma {:induction false} EndingIsSilent(p: Params, s: State, steps: seq<Step>)
    requires Inv(p, s) && IsEnding(s.consumer)
    ensures StaysEnding(s, Run(p, s, steps))
    decreases |steps|
  {
    if steps != [] {
      SilentStep(p, s, steps[0]);
      StepKeepsInv(p, s, steps[0]);
      EndingIsSilent(p, Apply(p, s, steps[0]), steps[1..]);
    }
  }

  lemma LeavingDrains(p: Params, s: State, step: Step)
    requires Inv(p, s)
    requires step.Abort? || (step.ConsumerChecked? && s.consumer.CheckingLoop? && s.disconnected)
    ensures var t := Apply(p, s, step);
            t.emitted == s.emitted && (t.consumer.Closed? || t.consumer.Draining?)
  {
  }

  /**
   A generator that is closed from outside, or finds at the top of its loop that the client has gone, emits nothing
   more in any run, and is closed by nothing but the delivery of its own cancellation of the producer.
   */
  lemma LeavingEndsStream(p: Params, s: State, step: Step, later: seq<Step>)
    requires Reachable(p, s)
    requires step.Abort? || (step.ConsumerChecked? && s.consumer.CheckingLoop? && s.disconnected)
    ensures Run(p, Apply(p, s, step), later).emitted == s.emitted
    ensures Run(p, Apply(p, s, step), [ProducerCancelled, ConsumerDrained]).consumer.Closed?
  {
    ReachableInv(p, s);
    LeavingDrains(p, s, step);
    var t := ReachableStep(p, s, step);
    StepKeepsInv(p, s, step);
    EndingIsSilent(p, t, later);
    if t.consumer.Draining? {
      DrainingCloses(p, t);
    } else {
      EndingIsSilent(p, t, [ProducerCancelled, ConsumerDrained]);
    }
  }

  // ----- every provider answer can be streamed to the end -----

  function TokenEvents(chunks: seq<string>): seq<Event> {
    seq(|chunks|, i requires 0 <= i < |chunks| => Token(chunks[i]))
  }

  /** Mid-stream: every chunk so far has been provided, sent and shown, and the consumer waits for more. */
  ghost predicate Streaming(p: Params, s: State, chunks: seq<string>) {
    s == Start().(producer := AwaitingChunk, consumer := Waiting, accumulated := Concat(chunks), provided := chunks,
                  emitted := [Conversation(p.conversationId)] + TokenEvents(chunks), sent := chunks, taken := |chunks|)
  }

  lemma StreamingBegins(p: Params) returns (s: State)
    ensures Reachable(p, s) && Streaming(p, s, [])
  {
    s := EmptyAnswerStarts(p);
    s := ReachableStep(p, s, ProducerStart);
    s := ReachableStep(p, s, ConsumerChecked);
    assert [Conversation(p.conversationId)] + TokenEvents([]) == [Conversation(p.conversationId)];
  }

  lemma ChunkIsSent(p: Params, s: State, chunk: string) returns (t: State)
    requires Reachable(p, s) && s.producer.AwaitingChunk? && !s.stop && !s.disconnected && !s.cancelRequested
    ensures Reachable(p, t)
    ensures t == s.(accumulated := s.accumulated + chunk, provided := s.provided + [chunk],
                    sent := s.sent + [chunk], queue := s.queue + [TokenItem(chunk)])
  {
    t := ReachableStep(p, s, ProviderChunk(chunk));
    assert t == s.(provided := s.provided + [chunk], producer := CheckingChunk(chunk));
    t := ReachableStep(p, t, ProducerChecked);
  }

  lemma ChunkIsShown(p: Params, s: State, chunk: string) returns (t: State)
    requires Reachable(p, s) && s.consumer.Waiting? && s.queue == [TokenItem(chunk)] && !s.disconnected
    ensures Reachable(p, t)
    ensures t == s.(queue := [], taken := s.taken + 1, emitted := s.emitted + [Token(chunk)])
  {
    t := ReachableStep(p, s, ConsumerGet);
    assert t == s.(queue := [], taken := s.taken + 1, emitted := s.emitted + [Token(chunk)], consumer := AtYield);
    t := ReachableStep(p, t, ConsumerResume);
    t := ReachableStep(p, t, ConsumerChecked);
  }

  lemma StreamingGoesOn(p: Params, s: State, chunks: seq<string>, chunk: string) returns (t: State)
    requires Reachable(p, s) && Streaming(p, s, chunks)
    ensures Reachable(p, t) && Streaming(p, t, chunks + [chunk])
  {
    t := ChunkIsSent(p, s, chunk);
    t := ChunkIsShown(p, t, chunk);
    ConcatSnoc(chunks, chunk);
    assert TokenEvents(chunks + [chunk]) == TokenEvents(chunks) + [Token(chunk)];
    assert s.emitted + [Token(chunk)] == [Conversation(p.conversationId)] + (TokenEvents(chunks) + [Token(chunk)]);
  }

  lemma {:induction false} StreamingReaches(p: Params, chunks: seq<string>) returns (s: State)
    ensures Reachable(p, s) && Streaming(p, s, chunks)
    decreases |chunks|
  {
    if chunks == [] {
      s := StreamingBegins(p);
    } else {
      var init := chunks[..|chunks| - 1];
      s := StreamingReaches(p, init);
      s := StreamingGoesOn(p, s, init, chunks[|chunks| - 1]);
      assert chunks == init + [chunks[|chunks| - 1]];
    }
  }

  lemma AddedReachesCommit(p: Params, s: State) returns (t: State)
    requires Reachable(p, s) && s.producer.Adding? && !s.cancelRequested
    ensures Reachable(p, t) && t == s.(producer := Committing)
  {
    t := ReachableStep(p, s, ProducerAdded);
  }

  lemma CommitLands(p: Params, s: State, id: string) returns (t: State)
    requires Reachable(p, s) && s.producer.Committing?
    ensures Reachable(p, t) && t == s.(producer := Saved(id), committed := s.committed + [Message(id, s.accumulated)])
  {
    t := ReachableStep(p, s, CommitTakesEffect(id));
  }

  lemma CommitIsAnnounced(p: Params, s: State) returns (t: State)
    requires Reachable(p, s) && s.producer.Saved? && !s.cancelRequested
    ensures Reachable(p, t) && t == Finish(s, CompletedItem(s.producer.messageId))
  {
    t := ReachableStep(p, s, ProducerCommitted);
  }

  lemma CompletedIsShown(p: Params, s: State, id: string) returns (t: State)
    requires Reachable(p, s) && s.consumer.Waiting? && s.queue != [] && s.queue[0] == CompletedItem(id)
    ensures Reachable(p, t) && t.committed == s.committed && t.emitted == s.emitted + [Completed(id, p.provider)]
  {
    t := ReachableStep(p, s, ConsumerGet);
  }

  lemma AddingCompletes(p: Params, s: State, id: string) returns (t: State)
    requires Reachable(p, s) && s.producer.Adding? && !s.cancelRequested && s.consumer.Waiting? && s.queue == []
    ensures Reachable(p, t) && t.committed == s.committed + [Message(id, s.accumulated)]
    ensures t.emitted == s.emitted + [Completed(id, p.provider)]
  {
    t := AddedReachesCommit(p, s);
    t := CommitLands(p, t, id);
    t := CommitIsAnnounced(p, t);
    t := CompletedIsShown(p, t, id);
  }

  lemma StreamingCompletes(p: Params, s: State, chunks: seq<string>, id: string) returns (t: State)
    requires Reachable(p, s) && Streaming(p, s, chunks)
    ensures Reachable(p, t) && t.committed == [Message(id, Concat(chunks))]
    ensures t.emitted == s.emitted + [Completed(id, p.provider)]
  {
    t := ReachableStep(p, s, ProviderEnd);
    t := ReachableStep(p, t, ProducerChecked);
    assert t == s.(producer := Adding, ended := true);
    t := AddingCompletes(p, t, id);
  }

  /** Whatever chunks the provider yields, some run shows them all and commits exactly their concatenation. */
  lemma EveryAnswerCanComplete(p: Params, chunks: seq<string>, id: string)
    ensures exists s :: Reachable(p, s) && s.committed == [Message(id, Concat(chunks))] &&
              s.emitted == [Conversation(p.conversationId)] + TokenEvents(chunks) + [Completed(id, p.provider)]
  {
    var s := StreamingReaches(p, chunks);
    var t := StreamingCompletes(p, s, chunks, id);
  }

  // ----- when a stream that is going away still persists a message -----

  /** The only way to saving: the stream ended and neither flag was up at the final check. */
  lemma FinalCheckGatesCommit(p: Params, s: State, step: Step)
    requires Reachable(p, s) && !s.producer.Adding? && Apply(p, s, step).producer.Adding?
    ensures s.producer.CheckingFinal? && s.ended && !s.stop && !s.disconnected
  {
    OnlyCheckEntersAdding(p, s, step);
    ReachableInv(p, s);
  }

  lemma OnlyCheckEntersAdding(p: Params, s: State, step: Step)
    requires !s.producer.Adding? && Apply(p, s, step).producer.Adding?
    ensures step.ProducerChecked? && s.producer.CheckingFinal? && !s.cancelRequested && !s.disconnected
  {
  }

  /** The producer can still save: its commit is in flight, or it is on the way there and not asked to cancel. */
  predicate CanStillSave(s: State) {
    s.producer.Committing? || (s.producer.Adding? && !s.cancelRequested)
  }

  /** Stop or disconnect came in time. */
  ghost predicate TooLateToSave(s: State) {
    (s.stop || s.disconnected) && !CanStillSave(s) && !s.producer.Saved? && s.committed == []
  }

  lemma TooLateProducerStep(p: Params, s: State, step: Step)
    requires Inv(p, s) && TooLateToSave(s) && !IsConsumerStep(step)
    ensures TooLateToSave(ProducerStep(s, step))
  {
  }

  lemma TooLateConsumerStep(p: Params, s: State, step: Step)
    requires TooLateToSave(s) && IsConsumerStep(step)
    ensures TooLateToSave(ConsumerStep(p, s, step))
  {
  }

  lemma TooLateStep(p: Params, s: State, step: Step)
    requires Inv(p, s) && TooLateToSave(s)
    ensures TooLateToSave(Apply(p, s, step))
  {
    if IsConsumerStep(step) {
      TooLateConsumerStep(p, s, step);
    } else {
      TooLateProducerStep(p, s, step);
    }
  }

  lemma {:induction false} TooLateStays(p: Params, s: State, steps: seq<Step>)
    requires Inv(p, s) && TooLateToSave(s)
    ensures TooLateToSave(Run(p, s, steps))
    decreases |steps|
  {
    if steps != [] {
      TooLateStep(p, s, steps[0]);
      StepKeepsInv(p, s, steps[0]);
      TooLateStays(p, Apply(p, s, steps[0]), steps[1..]);
    }
  }

  lemma AddingReachesCommit(p: Params, s: State) returns (steps: seq<Step>)
    requires CanStillSave(s)
    ensures Run(p, s, steps).committed != []
  {
    var commit := [CommitTakesEffect("id")];
    if s.producer.Committing? {
      steps := commit;
      assert Run(p, s, steps) == Apply(p, s, steps[0]);
    } else {
      steps := [ProducerAdded] + commit;
      var t := Apply(p, s, ProducerAdded);
      assert steps[1..] == commit;
      assert Run(p, t, commit) == Apply(p, t, commit[0]);
    }
  }

  /**
   A stream that is stopped or disconnected before it has committed can still commit exactly when its
   commit is in flight, or it is about to commit and has not been asked to cancel.
   */
  lemma LateCommitIff(p: Params, s: State)
    requires Reachable(p, s) && (s.stop || s.disconnected) && s.committed == []
    ensures (exists steps :: Run(p, s, steps).committed != []) <==>
              s.producer.Committing? || (s.producer.Adding? && !s.cancelRequested)
  {
    ReachableInv(p, s);
    if CanStillSave(s) {
      var steps := AddingReachesCommit(p, s);
    } else {
      forall steps
        ensures Run(p, s, steps).committed == []
      {
        TooLateStays(p, s, steps);
      }
    }
  }

  lemma EmptyAnswerStarts(p: Params) returns (s: State)
    ensures Reachable(p, s)
    ensures s == Start().(producer := NotStarted, consumer := CheckingLoop, emitted := [Conversation(p.conversationId)])
  {
    assert Start() == Run(p, Start(), []);
    s := ReachableStep(p, Start(), ConsumerStart);
    s := ReachableStep(p, s, ConsumerResume);
  }

  lemma EmptyAnswerEnds(p: Params) returns (s: State)
    ensures Reachable(p, s)
    ensures s == Start().(producer := CheckingFinal, consumer := CheckingLoop, ended := true,
                          emitted := [Conversation(p.conversationId)])
  {
    var begun := EmptyAnswerStarts(p);
    s := ReachableStep(p, begun, ProducerStart);
    s := ReachableStep(p, s, ProviderEnd);
  }

  lemma EmptyAnswerReachesCommit(p: Params) returns (s: State)
    ensures Reachable(p, s)
    ensures s == Start().(producer := Committing, consumer := CheckingLoop, ended := true,
                          emitted := [Conversation(p.conversationId)])
  {
    s := EmptyAnswerEnds(p);
    s := ReachableStep(p, s, ProducerChecked);
    s := AddedReachesCommit(p, s);
  }

  lemma DisconnectWhileCommitting(p: Params, s: State) returns (t: State)
    requires Reachable(p, s) && s.producer.Committing? && s.consumer.CheckingLoop?
    ensures Reachable(p, t)
    ensures t == s.(disconnected := true, producer := Saved("id"), consumer := Draining, stop := true,
                    cancelRequested := true, committed := s.committed + [Message("id", s.accumulated)])
  {
    t := ReachableStep(p, s, Disconnect);
    t := ReachableStep(p, t, CommitTakesEffect("id"));
    t := ReachableStep(p, t, ConsumerChecked);
  }

  /** A client that leaves while the commit is in flight: no terminal event, yet a message is kept. */
  lemma CancelledStreamMayPersist(p: Params)
    ensures exists s :: Reachable(p, s) && s.consumer.Closed? && s.producer.Finished? &&
              s.emitted == [Conversation(p.conversationId)] && s.committed == [Message("id", "")]
  {
    var s := EmptyAnswerReachesCommit(p);
    var t := DisconnectWhileCommitting(p, s);
    t := ReachableStep(p, t, ProducerCancelled);
    t := ReachableStep(p, t, ConsumerDrained);
  }
}
