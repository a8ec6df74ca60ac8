/** The bounded producer/consumer pipeline with its commit flag (native/engine/src/bounded_pipeline.rs) and
    the writer that consumes it (native/engine/src/converter.rs, native/engine/src/join.rs), as a step
    relation over all interleavings. Publishing the finished files is one step. */
module BoundedPipeline {
  import opened Wrappers

  datatype Message = Message(id: int, rows: nat)

  datatype Counts = Counts(batches: nat, rows: nat)

  datatype Stop = WriteFailed | Aborted | FinalizeFailed

  /** The thread that owns the pipeline. `finish` stores the flag, closes the channel and joins; dropping the
      pipeline, as any error on the way does, closes and joins without the flag. */
  datatype Producer =
    | Producing | Sending(message: Message) | Counting
    | Committed | Joining | Finished(outcome: Result<Counts, Stop>)
    | Dropping | Dropped

  /** The writer thread. */
  datatype Consumer = Receiving | Writing(message: Message) | Ended | Finalizing | Stopped(result: Result<Counts, Stop>)

  datatype State = State(
    capacity: nat, commit: bool, open: bool, queue: seq<Message>,
    producer: Producer, sent: seq<Message>, produced: Counts,
    consumer: Consumer, received: seq<Message>, written: seq<Message>, counted: Counts,
    published: bool)

  /** `start`: a capacity of at least one. */
  ghost predicate Init(s: State, requested: nat) {
    s == State(
      if requested > 1 then requested else 1, false, true, [],
      Producing, [], Counts(0, 0), Receiving, [], [], Counts(0, 0), false)
  }

  // ----- producer steps

  /** The rows are counted before the batch is sent. */
  ghost predicate BeginSend(s: State, s': State) {
    s.producer.Producing?
    && exists m: Message :: s' == s.(producer := Sending(m), produced := Counts(s.produced.batches, s.produced.rows + m.rows))
  }

  /** The channel accepts the message when it has room and the receiver still exists. */
  ghost predicate CompleteSend(s: State, s': State) {
    s.producer.Sending? && |s.queue| < s.capacity && !s.consumer.Stopped?
    && s' == s.(producer := Counting, queue := s.queue + [s.producer.message], sent := s.sent + [s.producer.message])
  }

  ghost predicate CountBatch(s: State, s': State) {
    s.producer.Counting? && s' == s.(producer := Producing, produced := Counts(s.produced.batches + 1, s.produced.rows))
  }

  /** Sending to a consumer that has stopped fails, and the error drops the pipeline. */
  ghost predicate SendFails(s: State, s': State) {
    s.producer.Sending? && s.consumer.Stopped? && s' == s.(producer := Dropping, open := false)
  }

  /** Any other error of the producer drops the pipeline too. */
  ghost predicate Drop(s: State, s': State) {
    (s.producer.Producing? || s.producer.Counting?) && s' == s.(producer := Dropping, open := false)
  }

  ghost predicate StoreCommit(s: State, s': State) {
    s.producer.Producing? && s' == s.(producer := Committed, commit := true)
  }

  ghost predicate CloseChannel(s: State, s': State) {
    s.producer.Committed? && s' == s.(producer := Joining, open := false)
  }

  ghost predicate Join(s: State, s': State) {
    s.consumer.Stopped?
    && ((s.producer.Joining? && s' == s.(producer := Finished(s.consumer.result)))
        || (s.producer.Dropping? && s' == s.(producer := Dropped)))
  }

  // ----- consumer steps

  ghost predicate Receive(s: State, s': State) {
    s.consumer.Receiving? && s.queue != []
    && s' == s.(consumer := Writing(s.queue[0]), queue := s.queue[1..], received := s.received + [s.queue[0]])
  }

  ghost predicate Write(s: State, s': State) {
    s.consumer.Writing?
    && s' == s.(consumer := Receiving, written := s.written + [s.consumer.message],
                counted := Counts(s.counted.batches + 1, s.counted.rows + s.consumer.message.rows))
  }

  /** A write error removes the temporary files and ends the thread. */
  ghost predicate WriteFails(s: State, s': State) {
    s.consumer.Writing? && s' == s.(consumer := Stopped(Failure(WriteFailed)))
  }

  /** The receive loop ends when the channel is closed and drained. */
  ghost predicate EndOfStream(s: State, s': State) {
    s.consumer.Receiving? && s.queue == [] && !s.open && s' == s.(consumer := Ended)
  }

  ghost predicate CheckCommit(s: State, s': State) {
    s.consumer.Ended? && s' == s.(consumer := if s.commit then Finalizing else Stopped(Failure(Aborted)))
  }

  ghost predicate Publish(s: State, s': State) {
    s.consumer.Finalizing? && s' == s.(consumer := Stopped(Success(s.counted)), published := true)
  }

  ghost predicate FinalizeFails(s: State, s': State) {
    s.consumer.Finalizing? && s' == s.(consumer := Stopped(Failure(FinalizeFailed)))
  }

  ghost predicate ProducerStep(s: State, s': State) {
    BeginSend(s, s') || CompleteSend(s, s') || CountBatch(s, s') || SendFails(s, s') || Drop(s, s')
    || StoreCommit(s, s') || CloseChannel(s, s') || Join(s, s')
  }

  ghost predicate ConsumerStep(s: State, s': State) {
    Receive(s, s') || Write(s, s') || WriteFails(s, s') || EndOfStream(s, s') || CheckCommit(s, s') || Publish(s, s')
    || FinalizeFails(s, s')
  }

  /** Any interleaving: one thread moves. */
  ghost predicate Next(s: State, s': State) { ProducerStep(s, s') || ConsumerStep(s, s') }

  /** A run from the start. */
  ghost predicate IsRun(run: seq<State>, requested: nat) {
    run != [] && Init(run[0], requested) && forall i :: 0 <= i < |run| - 1 ==> Next(run[i], run[i + 1])
  }

  // ----- the invariant

  function RowsOf(messages: seq<Message>): nat {
    if messages == [] then 0 else RowsOf(messages[..|messages| - 1]) + messages[|messages| - 1].rows
  }

  function CountsOf(messages: seq<Message>): Counts { Counts(|messages|, RowsOf(messages)) }

  lemma RowsPush(messages: seq<Message>, m: Message)
    ensures RowsOf(messages + [m]) == RowsOf(messages) + m.rows
  {
    assert (messages + [m])[..|messages|] == messages;
  }

  /** What the consumer has in hand. */
  ghost predicate ConsumerHolds(s: State) {
    match s.consumer
    case Receiving => s.written == s.received
    case Writing(m) => s.received == s.written + [m]
    case Ended => s.written == s.received
    case Finalizing => s.written == s.received
    case Stopped(Success(_)) => s.written == s.received
    case Stopped(Failure(_)) => s.written <= s.received
  }

  /** What the producer has counted. */
  ghost predicate ProducerHolds(s: State) {
    match s.producer
    case Sending(m) => s.produced == Counts(|s.sent|, RowsOf(s.sent) + m.rows)
    case Counting => s.sent != [] && s.produced == Counts(|s.sent| - 1, RowsOf(s.sent))
    case Dropping => true
    case Dropped => true
    case _ => s.produced == CountsOf(s.sent)
  }

  ghost predicate Inv(s: State) {
    && s.capacity >= 1 && |s.queue| <= s.capacity && s.received + s.queue == s.sent
    && ConsumerHolds(s) && ProducerHolds(s) && s.counted == CountsOf(s.written)
    && (s.open <==> s.producer.Producing? || s.producer.Sending? || s.producer.Counting? || s.producer.Committed?)
    && (s.commit <==> s.producer.Committed? || s.producer.Joining? || s.producer.Finished?)
    && (s.consumer.Ended? || s.consumer.Finalizing? ==> !s.open && s.queue == [])
    && (s.consumer.Finalizing? ==> s.commit)
    && (s.published <==> s.consumer.Stopped? && s.consumer.result.Success?)
    && (s.published ==> s.commit && !s.open && s.queue == [] && s.consumer.result == Success(s.counted))
    && (s.producer.Finished? ==> s.consumer.Stopped? && s.producer.outcome == s.consumer.result)
    && (s.producer.Dropped? ==> s.consumer.Stopped?)
  }

  lemma InitInv(s: State, requested: nat)
    requires Init(s, requested)
    ensures Inv(s)
  {
  }

  lemma ProducerStepInv(s: State, s': State)
    requires Inv(s) && ProducerStep(s, s')
    ensures Inv(s')
  {
    hide RowsOf;
    if CompleteSend(s, s') {
      RowsPush(s.sent, s.producer.message);
      assert s.received + (s.queue + [s.producer.message]) == s.sent + [s.producer.message];
    }
  }

  lemma ConsumerStepInv(s: State, s': State)
    requires Inv(s) && ConsumerStep(s, s')
    ensures Inv(s')
  {
    hide RowsOf;
    if Receive(s, s') {
      assert s.queue == [s.queue[0]] + s.queue[1..];
      assert s.received + [s.queue[0]] + s.queue[1..] == s.received + s.queue;
    }
    if Write(s, s') { RowsPush(s.written, s.consumer.message); }
  }

  lemma {:induction false} RunInv(run: seq<State>, requested: nat, i: nat)
    requires IsRun(run, requested) && i < |run|
    ensures Inv(run[i])
  {
    hide Inv, Next, Init;
    if i == 0 {
      InitInv(run[0], requested);
    } else {
      RunInv(run, requested, i - 1);
      assert Next(run[i - 1], run[i - 1 + 1]);
      StepInv(run[i - 1], run[i]);
    }
  }

  lemma StepInv(s: State, s': State)
    requires Inv(s) && Next(s, s')
    ensures Inv(s')
  {
    hide Inv, ProducerStep, ConsumerStep;
    if ProducerStep(s, s') { ProducerStepInv(s, s'); } else { ConsumerStepInv(s, s'); }
  }

  // ----- what every interleaving keeps

  /** Nothing is lost, duplicated or reordered, and the queue stays within its bound. Output is published
      only after `finish` with everything sent written, and a successful `finish` has published. */
  ghost predicate Safe(s: State) {
    && s.received + s.queue == s.sent && |s.queue| <= s.capacity && s.written <= s.received
    && (s.published ==> s.commit && s.written == s.sent && (s.producer.Joining? || s.producer.Finished?))
    && (s.producer.Finished? && s.producer.outcome.Success? ==> s.published)
  }

  lemma EveryRunIsSafe(run: seq<State>, requested: nat, i: nat)
    requires IsRun(run, requested) && i < |run|
    ensures Safe(run[i])
  {
    RunInv(run, requested, i);
  }

  /** The writer count mismatch cannot happen: when `finish` returns counts, they are what was produced. */
  lemma CountsAgree(run: seq<State>, requested: nat, i: nat)
    requires IsRun(run, requested) && i < |run|
    requires run[i].producer.Finished? && run[i].producer.outcome.Success?
    ensures run[i].producer.outcome.value == run[i].produced
  {
    hide IsRun, RowsOf;
    RunInv(run, requested, i);
    assert run[i].received + [] == run[i].received;
  }

  /** The pipeline was dropped without `finish`, or the consumer stopped with an error. */
  ghost predicate Lost(s: State) {
    s.producer.Dropping? || s.producer.Dropped? || (s.consumer.Stopped? && s.consumer.result.Failure?)
  }

  lemma LostStays(s: State, s': State)
    requires Inv(s) && Lost(s) && Next(s, s')
    ensures Lost(s')
  {
  }

  lemma LostIsUnpublished(s: State)
    requires Inv(s) && Lost(s)
    ensures !s.published
  {
  }

  /** Once dropped without `finish`, or after a consumer error, nothing is ever published. */
  lemma {:induction false} LostNeverPublishes(run: seq<State>, requested: nat, i: nat, j: nat)
    requires IsRun(run, requested) && i <= j < |run| && Lost(run[i])
    ensures Lost(run[j]) && !run[j].published
    decreases j
  {
    hide Inv, Next, Init, Lost;
    RunInv(run, requested, j);
    if i < j {
      LostNeverPublishes(run, requested, i, j - 1);
      RunInv(run, requested, j - 1);
      assert Next(run[j - 1], run[j - 1 + 1]);
      LostStays(run[j - 1], run[j]);
    }
    LostIsUnpublished(run[j]);
  }

  // ----- no interleaving gets stuck

  predicate Over(s: State) { s.producer.Finished? || s.producer.Dropped? }

  /** Steps that are no error of their own. (A send to a stopped consumer has to fail.) */
  ghost predicate Proceeds(s: State, s': State) {
    Next(s, s') && !WriteFails(s, s') && !FinalizeFails(s, s') && !Drop(s, s')
  }

  lemma ProducerCanMove(s: State)
    requires Inv(s) && !Over(s)
    requires !s.open ==> s.consumer.Stopped?
    requires s.producer.Sending? ==> s.consumer.Stopped? || |s.queue| < s.capacity
    ensures exists s' :: Proceeds(s, s')
  {
    match s.producer
    case Producing => assert Proceeds(s, s.(producer := Committed, commit := true));
    case Sending(m) =>
      if s.consumer.Stopped? {
        assert Proceeds(s, s.(producer := Dropping, open := false));
      } else {
        assert Proceeds(s, s.(producer := Counting, queue := s.queue + [m], sent := s.sent + [m]));
      }
    case Counting => assert Proceeds(s, s.(producer := Producing, produced := Counts(s.produced.batches + 1, s.produced.rows)));
    case Committed => assert Proceeds(s, s.(producer := Joining, open := false));
    case Joining => assert Proceeds(s, s.(producer := Finished(s.consumer.result)));
    case Dropping => assert Proceeds(s, s.(producer := Dropped));
  }

  lemma ConsumerCanMove(s: State)
    requires Inv(s) && !s.consumer.Stopped? && (!s.open || s.queue != [] || !s.consumer.Receiving?)
    ensures exists s' :: Proceeds(s, s')
  {
    match s.consumer
    case Receiving =>
      if s.queue != [] {
        assert Proceeds(s, s.(consumer := Writing(s.queue[0]), queue := s.queue[1..], received := s.received + [s.queue[0]]));
      } else {
        assert Proceeds(s, s.(consumer := Ended));
      }
    case Writing(m) =>
      assert Proceeds(s, s.(consumer := Receiving, written := s.written + [m],
                            counted := Counts(s.counted.batches + 1, s.counted.rows + m.rows)));
    case Ended => assert Proceeds(s, s.(consumer := if s.commit then Finalizing else Stopped(Failure(Aborted))));
    case Finalizing => assert Proceeds(s, s.(consumer := Stopped(Success(s.counted)), published := true));
  }

  /** Until the owner has joined, some thread can always move without an error of its own: a full queue is
      drained, a stopped consumer fails the send, a closed channel ends the receive loop. */
  lemma NeverStuck(run: seq<State>, requested: nat, i: nat)
    requires IsRun(run, requested) && i < |run| && !Over(run[i])
    ensures exists s' :: Proceeds(run[i], s')
  {
    hide IsRun, Inv, Proceeds;
    RunInv(run, requested, i);
    var s := run[i];
    CapacityIsPositive(s);
    if !s.consumer.Stopped? && (!s.open || s.queue != [] || !s.consumer.Receiving?) {
      ConsumerCanMove(s);
    } else {
      ProducerCanMove(s);
    }
  }

  lemma CapacityIsPositive(s: State)
    requires Inv(s)
    ensures s.capacity >= 1
  {
  }

  // ----- every interleaving ends once the channel is being closed

  /** `finish` was called or the pipeline is being dropped. */
  predicate Closing(s: State) { s.producer.Committed? || s.producer.Joining? || s.producer.Dropping? || Over(s) }

  function ConsumerSteps(c: Consumer): nat {
    match c
    case Writing(_) => 4
    case Receiving => 3
    case Ended => 2
    case Finalizing => 1
    case Stopped(_) => 0
  }

  /** How many steps are left at most. */
  function StepsLeft(s: State): nat {
    2 * |s.queue| + ConsumerSteps(s.consumer)
    + if s.producer.Committed? then 2 else if s.producer.Joining? || s.producer.Dropping? then 1 else 0
  }

  lemma ClosingProducerStep(s: State, s': State)
    requires Closing(s) && ProducerStep(s, s')
    ensures Closing(s') && StepsLeft(s') < StepsLeft(s)
  {
  }

  lemma ClosingConsumerStep(s: State, s': State)
    requires Closing(s) && ConsumerStep(s, s')
    ensures Closing(s') && StepsLeft(s') < StepsLeft(s)
  {
  }

  lemma ClosingStep(s: State, s': State)
    requires Closing(s) && Next(s, s')
    ensures Closing(s') && StepsLeft(s') < StepsLeft(s)
  {
    hide ProducerStep, ConsumerStep, Closing, StepsLeft;
    if ProducerStep(s, s') { ClosingProducerStep(s, s'); } else { ClosingConsumerStep(s, s'); }
  }

  lemma {:induction false} StepsRunDown(run: seq<State>, requested: nat, i: nat, j: nat)
    requires IsRun(run, requested) && i <= j < |run| && Closing(run[i])
    ensures Closing(run[j]) && StepsLeft(run[j]) + (j - i) <= StepsLeft(run[i])
    decreases j
  {
    hide Next, Init, Closing, StepsLeft;
    if i < j {
      StepsRunDown(run, requested, i, j - 1);
      assert Next(run[j - 1], run[j - 1 + 1]);
      ClosingStep(run[j - 1], run[j]);
    }
  }

  /** After `finish` or a drop, however the threads interleave, at most two steps for each queued message
      and six more are left: the longest runs drain a full queue, publish and join. */
  lemma ClosingRunsEnd(run: seq<State>, requested: nat, i: nat)
    requires IsRun(run, requested) && i < |run| && Closing(run[i])
    ensures |run| - 1 - i <= 2 * run[i].capacity + 6
  {
    hide IsRun, Closing;
    RunInv(run, requested, i);
    StepsRunDown(run, requested, i, |run| - 1);
  }
}
