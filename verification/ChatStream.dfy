/**
 The streaming protocol of ChatService.iter_stream_events: a producer task that reads the
 provider and fills an unbounded FIFO queue, and a consumer (the response generator) that turns
 queue items into server-sent events. One step runs one task from one suspension point to the
 next; the environment disconnects the client, closes the generator, lets a commit take effect
 and makes calls fail.
 */
module ChatStream {
  import opened Common
  import opened StreamEvents

  /** failure is the one code and message of every error event: LLM_STREAM_ERROR and its text. */
  datatype Params = Params(conversationId: string, provider: string, failure: Failure)

  datatype Message = Message(id: string, content: string)

  /** What the producer puts on the queue. */
  datatype Item =
    | TokenItem(content: string)
    | CompletedItem(messageId: string)
    | ErrorItem
    | CancelledItem
    | DoneItem

  /** Where the producer task is suspended. */
  datatype Producer =
    | NotCreated
    | NotStarted
    | AwaitingChunk               // inside provider.stream
    | CheckingChunk(chunk: string) // stop was clear; awaiting is_disconnected for this chunk
    | CheckingFinal               // stop was clear; awaiting is_disconnected after the loop
    | Adding                      // adding the message, its usage and the onboarding mark
    | Committing                  // inside session.commit, which has not taken effect yet
    | Saved(messageId: string)    // the commit took effect; the task has not resumed yet
    | Finished

  /** Where the consumer is suspended. */
  datatype Consumer =
    | Initial
    | FirstYield
    | CheckingLoop   // awaiting is_disconnected at the top of the loop
    | Waiting        // in wait_for(queue.get())
    | AtYield        // suspended at a yield inside the loop
    | AtLastYield    // suspended at the yield of a terminal event
    | Draining       // in the finally block, awaiting the producer
    | Closed

  /** sent, verdict and taken are history: tokens put so far, the item put after them, items received. */
  datatype State = State(
    producer: Producer,
    consumer: Consumer,
    queue: seq<Item>,
    stop: bool,
    disconnected: bool,
    cancelRequested: bool,
    aborted: bool,
    accumulated: string,
    provided: seq<string>,
    ended: bool,
    committed: seq<Message>,
    emitted: seq<Event>,
    sent: seq<string>,
    verdict: Option<Item>,
    taken: nat)

  datatype Step =
    | ConsumerStart
    | ConsumerResume
    | ConsumerChecked
    | ConsumerGet
    | ConsumerTimeout
    | ConsumerDrained
    | Abort
    | Disconnect
    | ProducerStart
    | ProviderChunk(chunk: string)
    | ProviderEnd
    | ProducerChecked
    | ProducerAdded
    | CommitTakesEffect(messageId: string)
    | ProducerCommitted
    | ProducerFails
    | ProducerCancelled

  function Start(): State {
    State(NotCreated, Initial, [], false, false, false, false, "", [], false, [], [], [], None, 0)
  }

  // ----- producer -----

  /** The producer's last act in every exit: its verdict, then "done" from the finally block. */
  function Finish(s: State, verdict: Item): State {
    s.(producer := Finished, queue := s.queue + [verdict, DoneItem], verdict := Some(verdict))
  }

  /** Leaving the chunk loop: the stop flag is read first, is_disconnected is awaited after it. */
  function AfterLoop(s: State): State {
    if s.stop then Finish(s, CancelledItem) else s.(producer := CheckingFinal)
  }

  function OnChunk(s: State, chunk: string): State {
    var s := s.(provided := s.provided + [chunk]);
    if s.stop then AfterLoop(s) else s.(producer := CheckingChunk(chunk))
  }

  function OnProducerChecked(s: State): State {
    match s.producer
    case CheckingChunk(chunk) =>
      if s.disconnected then AfterLoop(s)
      else s.(producer := AwaitingChunk,
              accumulated := s.accumulated + chunk,
              queue := s.queue + [TokenItem(chunk)],
              sent := s.sent + [chunk])
    case CheckingFinal =>
      if s.disconnected then Finish(s, CancelledItem) else s.(producer := Adding)
    case _ => s
  }

  /** The suspension points inside the producer's try block. */
  predicate InTry(p: Producer) {
    p.AwaitingChunk? || p.CheckingChunk? || p.CheckingFinal? || p.Adding? || p.Committing? || p.Saved?
  }

  /** A task that was asked to cancel resumes only with CancelledError (or another error). */
  function ProducerStep(s: State, step: Step): State {
    match step
    case ProducerStart =>
      if s.producer.NotStarted? && !s.cancelRequested then s.(producer := AwaitingChunk) else s
    case ProviderChunk(chunk) =>
      if s.producer.AwaitingChunk? && !s.cancelRequested then OnChunk(s, chunk) else s
    case ProviderEnd =>
      if s.producer.AwaitingChunk? && !s.cancelRequested then AfterLoop(s.(ended := true)) else s
    case ProducerChecked =>
      if !s.cancelRequested then OnProducerChecked(s) else s
    case ProducerAdded =>
      if s.producer.Adding? && !s.cancelRequested then s.(producer := Committing) else s
    case CommitTakesEffect(id) =>
      if s.producer.Committing?
      then s.(producer := Saved(id), committed := s.committed + [Message(id, s.accumulated)]) else s
    case ProducerCommitted =>
      if s.producer.Saved? && !s.cancelRequested then Finish(s, CompletedItem(s.producer.messageId)) else s
    case ProducerFails =>
      if InTry(s.producer) && !s.producer.Saved? then Finish(s, ErrorItem) else s
    case ProducerCancelled =>
      if !s.cancelRequested then s
      else if s.producer.NotStarted? then s.(producer := Finished)
      else if InTry(s.producer) then Finish(s, CancelledItem)
      else s
    case _ => s
  }

  // ----- consumer -----

  /** The consumer reaches the producer through the flags only, and never lowers one. */
  predicate Apart(s: State, t: State) {
    && t.producer == s.producer && t.committed == s.committed && t.provided == s.provided
    && t.sent == s.sent && t.verdict == s.verdict
    && (s.stop ==> t.stop) && t.disconnected == s.disconnected && (s.cancelRequested ==> t.cancelRequested)
  }

  /** Entering the finally block: set stop, and cancel the producer unless it is done. */
  function Drain(s: State): (t: State)
    ensures Apart(s, t)
  {
    if s.producer.Finished? then s.(stop := true, consumer := Closed)
    else s.(stop := true, cancelRequested := true, consumer := Draining)
  }

  function OnItem(p: Params, s: State, item: Item): (t: State)
    ensures Apart(s, t)
  {
    match item
    case TokenItem(content) => s.(emitted := s.emitted + [Token(content)], consumer := AtYield)
    case CompletedItem(id) => s.(emitted := s.emitted + [Completed(id, p.provider)], consumer := AtLastYield)
    case ErrorItem => s.(emitted := s.emitted + [Error(p.failure)], consumer := AtLastYield)
    case _ => Drain(s)
  }

  /** The generator is closed or cancelled from outside. */
  function OnAbort(s: State): (t: State)
    ensures Apart(s, t)
  {
    if s.consumer.Closed? then s
    else if s.consumer.Initial? || s.consumer.FirstYield? || s.consumer.Draining?
    then s.(consumer := Closed, aborted := true)
    else Drain(s.(aborted := true))
  }

  function ConsumerStep(p: Params, s: State, step: Step): (t: State)
    ensures t.producer == if s.consumer.FirstYield? && step.ConsumerResume? then NotStarted else s.producer
    ensures t.committed == s.committed && t.provided == s.provided && t.sent == s.sent && t.verdict == s.verdict
    ensures (s.stop ==> t.stop) && (s.disconnected ==> t.disconnected) && (s.cancelRequested ==> t.cancelRequested)
  {
    match step
    case ConsumerStart =>
      if s.consumer.Initial?
      then s.(emitted := [Conversation(p.conversationId)], consumer := FirstYield) else s
    case ConsumerResume =>
      if s.consumer.FirstYield? then s.(producer := NotStarted, consumer := CheckingLoop)
      else if s.consumer.AtYield? then s.(consumer := CheckingLoop)
      else if s.consumer.AtLastYield? then Drain(s)
      else s
    case ConsumerChecked =>
      if !s.consumer.CheckingLoop? then s
      else if s.disconnected then Drain(s)
      else s.(consumer := Waiting)
    case ConsumerGet =>
      if s.consumer.Waiting? && s.queue != []
      then OnItem(p, s.(queue := s.queue[1..], taken := s.taken + 1), s.queue[0]) else s
    case ConsumerTimeout =>
      if s.consumer.Waiting? then s.(emitted := s.emitted + [Heartbeat], consumer := AtYield) else s
    case ConsumerDrained =>
      if s.consumer.Draining? && s.producer.Finished? then s.(consumer := Closed) else s
    case Abort => OnAbort(s)
    case Disconnect => s.(disconnected := true)
    case _ => s
  }

  predicate IsConsumerStep(step: Step) {
    step.ConsumerStart? || step.ConsumerResume? || step.ConsumerChecked? || step.ConsumerGet? ||
    step.ConsumerTimeout? || step.ConsumerDrained? || step.Abort? || step.Disconnect?
  }

  /** One step; a step that is not enabled changes nothing. */
  function Apply(p: Params, s: State, step: Step): State {
    if IsConsumerStep(step) then ConsumerStep(p, s, step) else ProducerStep(s, step)
  }

  function Run(p: Params, s: State, steps: seq<Step>): State
    decreases |steps|
  {
    if steps == [] then s else Run(p, Apply(p, s, steps[0]), steps[1..])
  }

  ghost predicate Reachable(p: Params, s: State) {
    exists steps :: s == Run(p, Start(), steps)
  }
}
