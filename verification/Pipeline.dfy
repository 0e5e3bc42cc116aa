/** The agent's collection pipeline: file reader, 1000-slot channel, consumer goroutine, sender and the
    main goroutine that shuts them down, interleaved step by step with each other and with an
    environment that changes the tailed file.
 */
module Pipeline {
  import opened Lines
  import opened Batching
  import Tail
  import Rotation
  import S = SenderProtocol

  const CAPACITY := 1000

  /** The consumer (`processLogs`): at its `select`, between receiving and sending, or returned. */
  datatype Consumer = AtSelect | Carrying(line: string) | Finished

  /** `cmd/agent/main.go` stops the reader first, `cmd/agent.go` the sender. */
  datatype Order = ReaderFirst | SenderFirst

  /** The main goroutine: running, stopping component `stage` (then waiting for it), or finished.
      Stage 2 is the wait for the consumer. */
  datatype Main = Running | Stopping(stage: nat, waiting: bool) | Stopped

  /** What became of a dispatched batch; there is no retry. */
  datatype Outcome = Delivered | Dropped

  datatype State = State(
    tail: Tail.State, readerStop: bool,
    channel: seq<string>,
    consumer: Consumer, cancelled: bool,
    sender: S.State,
    order: Order, main: Main,
    outcomes: map<nat, Outcome>, received: seq<seq<string>>)
  {
    function Carried(): seq<string> {
      if consumer.Carrying? then [consumer.line] else []
    }

    /** Read from the file but not dispatched. */
    function Backlog(): seq<string> {
      sender.outbox.batch + Carried() + channel + tail.Held()
    }

    function DispatchedLines(): seq<string> {
      BatchLines(sender.outbox.dispatched)
    }
  }

  datatype Step =
    | World(change: Tail.Step)      // the environment changes the file
    | Reader(move: Tail.Step)       // the reader goroutine, except for the channel send
    | Push                          // the reader's send on the channel
    | Receive                       // the consumer takes a line from the channel
    | HandOver                      // the consumer's call of SendWithContext
    | ConsumerExit                  // the consumer sees the cancelled context
    | Sender(act: S.Step)           // flush loop and the locked section of Stop
    | Deliver(batch: nat, ok: bool) // a delivery goroutine finishes
    | Signal                        // cancel the context
    | MainMove
    | MainTimeout

  const MAIN: nat := 0

  predicate StopsReader(order: Order, stage: nat) {
    if order == ReaderFirst then stage == 0 else stage == 1
  }

  predicate Init(s: State) {
    && Tail.Started(s.tail) && S.Init(s.sender)
    && !s.readerStop && s.channel == [] && s.consumer == AtSelect && !s.cancelled && s.main == Running
    && s.outcomes == map[] && s.received == []
  }

  predicate Enabled(s: State, step: Step) {
    match step
    case World(change) => !Tail.IsReaderStep(change) && Tail.Enabled(s.tail, change)
    case Reader(move) =>
      && Tail.IsReaderStep(move) && move != Tail.Emit && Tail.Enabled(s.tail, move)
      && (move == Tail.BeginRead ==> !s.readerStop) && (move == Tail.Quit ==> s.readerStop)
    case Push => Tail.Enabled(s.tail, Tail.Emit) && |s.channel| < CAPACITY
    case Receive => s.consumer == AtSelect && s.channel != []
    case HandOver => s.consumer.Carrying?
    case ConsumerExit => s.consumer == AtSelect && s.cancelled
    case Sender(act) => !act.SendLine? && !act.CallStop? && S.Enabled(s.sender, act)
    case Deliver(i, _) => i < |s.sender.outbox.dispatched| && i !in s.outcomes
    case Signal => s.main == Running
    case MainMove =>
      && s.main.Stopping?
      && (if s.main.stage >= 2 then s.consumer == Finished
          else if !s.main.waiting then StopsReader(s.order, s.main.stage) || S.Enabled(s.sender, S.CallStop(MAIN))
          else if StopsReader(s.order, s.main.stage) then s.tail.phase == Tail.Done
          else MAIN in s.sender.stops && s.sender.stops[MAIN].Returned?)
    case MainTimeout => s.order == SenderFirst && s.main == Stopping(2, false)
  }

  function Apply(s: State, step: Step): State
    requires Enabled(s, step)
  {
    match step
    case World(change) => s.(tail := Tail.Apply(s.tail, change))
    case Reader(move) => s.(tail := Tail.Apply(s.tail, move))
    case Push => s.(tail := Tail.Apply(s.tail, Tail.Emit), channel := s.channel + [s.tail.phase.line])
    case Receive => s.(consumer := Carrying(s.channel[0]), channel := s.channel[1..])
    case HandOver => s.(consumer := AtSelect, sender := S.Apply(s.sender, S.SendLine(s.consumer.line)))
    case ConsumerExit => s.(consumer := Finished)
    case Sender(act) => s.(sender := S.Apply(s.sender, act))
    case Deliver(i, ok) =>
      if ok then s.(outcomes := s.outcomes[i := Delivered],
                    received := s.received + [s.sender.outbox.dispatched[i].lines])
      else s.(outcomes := s.outcomes[i := Dropped])
    case Signal => s.(cancelled := true, main := Stopping(0, false))
    case MainMove =>
      var stage := s.main.stage;
      if stage >= 2 then s.(main := Stopped)
      else if s.main.waiting then s.(main := Stopping(stage + 1, false))
      else
        var s' := s.(main := Stopping(stage, true));
        if StopsReader(s.order, stage) then s'.(readerStop := true)
        else s'.(sender := S.Apply(s.sender, S.CallStop(MAIN)))
    case MainTimeout => s.(main := Stopped)
  }

  ghost predicate Reaches(s: State, steps: seq<Step>, t: State)
    decreases |steps|
  {
    if steps == [] then s == t
    else Enabled(s, steps[0]) && Reaches(Apply(s, steps[0]), steps[1..], t)
  }

  // ----- Invariant -----

  /** Nothing between the reader and the sender is lost, repeated or reordered. */
  ghost predicate Flow(s: State) {
    && s.tail.emitted == s.sender.accepted + s.Carried() + s.channel
    && |s.channel| <= CAPACITY
  }

  /** What main has brought about by the time it reaches each stage. */
  ghost predicate Shutdown(s: State) {
    && s.sender.stops.Keys <= {MAIN}
    && (MAIN in s.sender.stops && s.sender.stops[MAIN].Calling? ==> s.sender.stopCloses == 0)
    && (s.sender.stopCloses > 0 ==> MAIN in s.sender.stops)
    && (MAIN in s.sender.stops && s.sender.stops[MAIN].Returned? ==> s.sender.stops[MAIN].closedIt)
    && (s.consumer == Finished ==> s.cancelled)
    && (s.main == Stopped || (s.main.Stopping? && s.main.stage >= 2) ==> ReaderGone(s) && SenderGone(s))
    && (s.main.Stopping? && s.main.stage == 1 ==>
          if s.order == ReaderFirst then ReaderGone(s) else SenderGone(s))
    && (s.main == Stopped && s.order == ReaderFirst ==> s.consumer == Finished)
  }

  predicate ReaderGone(s: State) { s.tail.phase == Tail.Done }

  predicate SenderGone(s: State) {
    MAIN in s.sender.stops && s.sender.stops[MAIN] == S.Returned(true)
  }

  /** Each batch is delivered at most once: what the server received is the delivered batches. */
  ghost predicate Deliveries(s: State) {
    && (forall i :: i in s.outcomes ==> i < |s.sender.outbox.dispatched|)
    && multiset(Flatten(s.received)) == LinesWith(s.sender.outbox.dispatched, s.outcomes, Some(Delivered))
  }

  /** The lines of the batches with the given outcome; those without one are still on their way. */
  function LinesWith(batches: seq<Batch>, outcomes: map<nat, Outcome>, o: Option<Outcome>): multiset<string> {
    if batches == [] then multiset{}
    else
      var last := |batches| - 1;
      LinesWith(batches[..last], outcomes, o)
      + (if OutcomeOf(outcomes, last) == o then multiset(batches[last].lines) else multiset{})
  }

  function OutcomeOf(outcomes: map<nat, Outcome>, i: nat): Option<Outcome> {
    if i in outcomes then Some(outcomes[i]) else None
  }

  ghost predicate Inv(s: State) {
    Tail.Inv(s.tail) && S.Inv(s.sender) && Flow(s) && Shutdown(s) && Deliveries(s)
  }

  lemma InitInv(s: State)
    requires Init(s)
    ensures Inv(s)
  {
    Tail.StartedInv(s.tail);
    S.InitInv(s.sender);
  }

  lemma StepKeepsParts(s: State, step: Step)
    requires Inv(s) && Enabled(s, step)
    ensures Tail.Inv(Apply(s, step).tail) && S.Inv(Apply(s, step).sender)
  {
    match step {
      case World(change) => Tail.StepKeepsInv(s.tail, change);
      case Reader(move) => Tail.StepKeepsInv(s.tail, move);
      case Push => Tail.StepKeepsInv(s.tail, Tail.Emit);
      case HandOver => S.StepKeepsInv(s.sender, S.SendLine(s.consumer.line));
      case Sender(act) => S.StepKeepsInv(s.sender, act);
      case MainMove =>
        if s.main.stage < 2 && !s.main.waiting && !StopsReader(s.order, s.main.stage) {
          S.StepKeepsInv(s.sender, S.CallStop(MAIN));
        }
      case _ =>
    }
  }

  lemma StepKeepsFlow(s: State, step: Step)
    requires Flow(s) && Enabled(s, step)
    ensures Flow(Apply(s, step))
  {
    hide Flow;
    match step {
      case Push => PushKeepsFlow(s);
      case Receive => ReceiveKeepsFlow(s);
      case HandOver => HandOverKeepsFlow(s);
      case _ => OthersKeepFlow(s, step);
    }
  }

  lemma PushKeepsFlow(s: State)
    requires Flow(s) && Enabled(s, Push)
    ensures Flow(Apply(s, Push))
  {
    var line := s.tail.phase.line;
    assert (s.sender.accepted + s.Carried() + s.channel) + [line]
        == s.sender.accepted + s.Carried() + (s.channel + [line]);
  }

  lemma ReceiveKeepsFlow(s: State)
    requires Flow(s) && Enabled(s, Receive)
    ensures Flow(Apply(s, Receive))
  {
    assert s.channel == [s.channel[0]] + s.channel[1..];
    assert s.tail.emitted == s.sender.accepted + [] + ([s.channel[0]] + s.channel[1..]);
  }

  lemma HandOverKeepsFlow(s: State)
    requires Flow(s) && Enabled(s, HandOver)
    ensures Flow(Apply(s, HandOver))
  {
    hide Sent;
    assert s.tail.emitted == (s.sender.accepted + [s.consumer.line]) + [] + s.channel;
  }

  lemma OthersKeepFlow(s: State, step: Step)
    requires Flow(s) && Enabled(s, step) && !step.Push? && !step.Receive? && !step.HandOver?
    ensures Flow(Apply(s, step))
  {
    var t := Apply(s, step);
    match step {
      case World(change) => OnlyEmitEmits(s.tail, change);
      case Reader(move) => OnlyEmitEmits(s.tail, move);
      case _ =>
    }
    assert t.sender.accepted == s.sender.accepted && t.channel == s.channel && t.Carried() == s.Carried();
  }

  lemma OnlyEmitEmits(s: Tail.State, step: Tail.Step)
    requires Tail.Enabled(s, step) && step != Tail.Emit
    ensures Tail.Apply(s, step).emitted == s.emitted
  {
  }

  lemma StepKeepsShutdown(s: State, step: Step)
    requires S.Inv(s.sender) && Shutdown(s) && Enabled(s, step)
    ensures Shutdown(Apply(s, step))
  {
    hide Shutdown;
    match step {
      case Reader(move) => ReaderKeepsShutdown(s, step);
      case World(change) => ReaderKeepsShutdown(s, step);
      case Sender(act) => SenderKeepsShutdown(s, act);
      case MainMove => MainKeepsShutdown(s);
      case _ => OthersKeepShutdown(s, step);
    }
  }

  lemma ReaderKeepsShutdown(s: State, step: Step)
    requires Shutdown(s) && Enabled(s, step) && (step.Reader? || step.World?)
    ensures Shutdown(Apply(s, step))
  {
    assert ReaderGone(s) ==> ReaderGone(Apply(s, step));
  }

  lemma SenderKeepsShutdown(s: State, act: S.Step)
    requires S.Inv(s.sender) && Shutdown(s) && Enabled(s, Sender(act))
    ensures Shutdown(Apply(s, Sender(act)))
  {
  }

  lemma MainKeepsShutdown(s: State)
    requires S.Inv(s.sender) && Shutdown(s) && Enabled(s, MainMove)
    ensures Shutdown(Apply(s, MainMove))
  {
  }

  lemma OthersKeepShutdown(s: State, step: Step)
    requires Shutdown(s) && Enabled(s, step)
    requires !step.Reader? && !step.World? && !step.Sender? && !step.MainMove?
    ensures Shutdown(Apply(s, step))
  {
  }

  lemma DeliverKeepsDeliveries(s: State, i: nat, ok: bool)
    requires Deliveries(s) && Enabled(s, Deliver(i, ok))
    ensures Deliveries(Apply(s, Deliver(i, ok)))
  {
    hide Flatten, LinesWith;
    var batches := s.sender.outbox.dispatched;
    Settle(batches, s.outcomes, i, if ok then Delivered else Dropped);
    FlattenPush(s.received, batches[i].lines);
  }

  lemma FlattenPush(groups: seq<seq<string>>, g: seq<string>)
    ensures Flatten(groups + [g]) == Flatten(groups) + g
  {
    FlattenAppend(groups, [g]);
    assert [g][1..] == [];
  }

  /** A locked section of the sender dispatches at most one batch. */
  lemma DispatchesAtMostOne(s: S.State, step: S.Step)
    requires S.Enabled(s, step)
    ensures var before, after := s.outbox.dispatched, S.Apply(s, step).outbox.dispatched;
            after == before || (|after| == |before| + 1 && after[..|before|] == before)
  {
  }

  lemma DispatchKeepsDeliveries(s: State, t: State)
    requires Deliveries(s) && t.outcomes == s.outcomes && t.received == s.received
    requires var before, after := s.sender.outbox.dispatched, t.sender.outbox.dispatched;
             after == before || (|after| == |before| + 1 && after[..|before|] == before)
    ensures Deliveries(t)
  {
    assert |s.sender.outbox.dispatched| !in s.outcomes;
  }

  lemma StepKeepsDeliveries(s: State, step: Step)
    requires Deliveries(s) && Enabled(s, step)
    ensures Deliveries(Apply(s, step))
  {
    hide Deliveries;
    match step {
      case Deliver(i, ok) => DeliverKeepsDeliveries(s, i, ok);
      case HandOver =>
        DispatchesAtMostOne(s.sender, S.SendLine(s.consumer.line));
        DispatchKeepsDeliveries(s, Apply(s, step));
      case Sender(act) =>
        DispatchesAtMostOne(s.sender, act);
        DispatchKeepsDeliveries(s, Apply(s, step));
      case _ => DispatchKeepsDeliveries(s, Apply(s, step));
    }
  }

  /** Settling one pending batch credits exactly its lines, or nothing. */
  lemma {:induction false} Settle(batches: seq<Batch>, outcomes: map<nat, Outcome>, i: nat, o: Outcome)
    requires i < |batches| && i !in outcomes
    ensures LinesWith(batches, outcomes[i := o], Some(Delivered)) ==
            LinesWith(batches, outcomes, Some(Delivered))
            + (if o == Delivered then multiset(batches[i].lines) else multiset{})
    decreases |batches|
  {
    var last := |batches| - 1;
    if i < last {
      Settle(batches[..last], outcomes, i, o);
    } else {
      SettleElsewhere(batches[..last], outcomes, i, o);
    }
  }

  lemma {:induction false} SettleElsewhere(batches: seq<Batch>, outcomes: map<nat, Outcome>, i: nat, o: Outcome)
    requires |batches| <= i
    ensures LinesWith(batches, outcomes[i := o], Some(Delivered)) == LinesWith(batches, outcomes, Some(Delivered))
    decreases |batches|
  {
    if batches != [] {
      SettleElsewhere(batches[..|batches| - 1], outcomes, i, o);
    }
  }

  lemma BatchLinesLast(batches: seq<Batch>)
    requires batches != []
    ensures var last := |batches| - 1;
            multiset(BatchLines(batches)) == multiset(BatchLines(batches[..last])) + multiset(batches[last].lines)
  {
  }

  /** Every batch is delivered, dropped or pending. */
  lemma {:induction false} OutcomesPartition(batches: seq<Batch>, outcomes: map<nat, Outcome>)
    ensures LinesWith(batches, outcomes, Some(Delivered)) + LinesWith(batches, outcomes, Some(Dropped))
            + LinesWith(batches, outcomes, None) == multiset(BatchLines(batches))
    decreases |batches|
  {
    if batches != [] {
      var last := |batches| - 1;
      OutcomesPartition(batches[..last], outcomes);
      BatchLinesLast(batches);
      hide BatchLines;
      match OutcomeOf(outcomes, last) {
        case None =>
        case Some(Delivered) =>
        case Some(Dropped) =>
      }
    }
  }

  lemma StepKeepsInv(s: State, step: Step)
    requires Inv(s) && Enabled(s, step)
    ensures Inv(Apply(s, step))
  {
    StepKeepsParts(s, step);
    StepKeepsFlow(s, step);
    StepKeepsShutdown(s, step);
    StepKeepsDeliveries(s, step);
  }

  lemma {:induction false} ReachesKeepsInv(s: State, steps: seq<Step>, t: State)
    requires Inv(s) && Reaches(s, steps, t)
    ensures Inv(t)
    decreases |steps|
  {
    if steps != [] {
      StepKeepsInv(s, steps[0]);
      ReachesKeepsInv(Apply(s, steps[0]), steps[1..], t);
    }
  }

  // ----- What the pipeline promises -----

  /** Conservation: in every reachable state the records read so far are, in order, the dispatched
      batches, the current batch, the line the consumer carries, the channel, and the line the reader
      is about to send.  So what is dispatched is always a prefix and anything lost a suffix. */
  lemma Conservation(s: State, steps: seq<Step>, t: State)
    requires Init(s) && Reaches(s, steps, t)
    ensures t.DispatchedLines() + t.Backlog() == Tail.EpochRecords(t.tail.epochs)
    ensures t.DispatchedLines() <= Tail.EpochRecords(t.tail.epochs)
  {
    InitInv(s);
    ReachesKeepsInv(s, steps, t);
    FlowAddsUp(t);
  }

  lemma FlowAddsUp(t: State)
    requires Inv(t)
    ensures t.DispatchedLines() + t.Backlog() == Tail.EpochRecords(t.tail.epochs)
  {
    Regroup(t.DispatchedLines(), t.sender.outbox.batch, t.Carried(), t.channel, t.tail.Held());
    hide BatchLines, Tail.EpochRecords, Deliveries, Shutdown, Tail.Faithful;
  }

  lemma Regroup(sent: seq<string>, batch: seq<string>, carried: seq<string>, channel: seq<string>, held: seq<string>)
    ensures sent + (batch + carried + channel + held) == ((sent + batch) + carried + channel) + held
  {
  }

  /** The tailing steps of a run. */
  function TailSteps(steps: seq<Step>): seq<Tail.Step> {
    if steps == [] then []
    else
      (match steps[0]
       case World(change) => [change]
       case Reader(move) => [move]
       case Push => [Tail.Emit]
       case _ => []) + TailSteps(steps[1..])
  }

  /** The pipeline drives the reader only through the tailing protocol. */
  lemma {:induction false} TailRun(s: State, steps: seq<Step>, t: State)
    requires Reaches(s, steps, t)
    ensures Tail.Reaches(s.tail, TailSteps(steps), t.tail)
    decreases |steps|
  {
    if steps != [] {
      var mid := Apply(s, steps[0]);
      TailRun(mid, steps[1..], t);
      hide Tail.Reaches, Reaches;
      match steps[0] {
        case World(change) => Tail.ReachesCons(s.tail, change, TailSteps(steps[1..]), t.tail);
        case Reader(move) => Tail.ReachesCons(s.tail, move, TailSteps(steps[1..]), t.tail);
        case Push => Tail.ReachesCons(s.tail, Tail.Emit, TailSteps(steps[1..]), t.tail);
        case _ =>
          assert mid.tail == s.tail;
          assert TailSteps(steps) == TailSteps(steps[1..]);
      }
    }
  }

  /** End to end on a growing file: with start size s0, the records of bytes [s0, offset) are what was
      dispatched followed by the backlog, under either stop order and at every moment of every run. */
  lemma EndToEnd(s: State, steps: seq<Step>, t: State)
    requires Init(s) && Reaches(s, steps, t)
    requires forall i :: 0 <= i < |TailSteps(steps)| ==> Tail.KeepsFile(TailSteps(steps)[i], s.tail.path.value)
    ensures var g, start := s.tail.path.value, s.tail.offset;
            && g < |t.tail.files| && start <= t.tail.offset <= |t.tail.files[g]|
            && t.DispatchedLines() + t.Backlog() == Records(t.tail.files[g][start..t.tail.offset])
            && t.DispatchedLines() <= Records(t.tail.files[g][start..])
  {
    TailRun(s, steps, t);
    Tail.TailsExactlyOnce(s.tail, TailSteps(steps), t.tail);
    Conservation(s, steps, t);
    InitInv(s);
    ReachesKeepsInv(s, steps, t);
    PrefixOfEmitted(t);
  }

  lemma PrefixOfEmitted(t: State)
    requires Inv(t)
    ensures t.DispatchedLines() <= t.tail.emitted
  {
  }

  /** End to end over orderly rotations and truncations: what was dispatched, with the backlog, is the records
      of every file given up followed by those of the current file up to the offset. */
  lemma EndToEndAcrossRotations(s: State, steps: seq<Step>, t: State)
    requires Init(s) && Reaches(s, steps, t) && Rotation.OrderlyRun(s.tail, TailSteps(steps))
    ensures Rotation.Rotated(t.tail)
    ensures var past, now := t.tail.epochs[..|t.tail.epochs| - 1], t.tail.Now();
            && t.DispatchedLines() + t.Backlog() == Rotation.FileRecords(t.tail.files, past) + Records(now.text)
            && (if now.carried.None? then
                  now.End() <= |t.tail.files[now.gen]| && now.text == t.tail.files[now.gen][now.start..now.End()]
                else now.text == "")
  {
    hide Reaches, Tail.Reaches, Rotation.OrderlyRun, Records, Tail.EpochRecords, BatchLines;
    TailRun(s, steps, t);
    Rotation.RotationLosesNothing(s.tail, TailSteps(steps), t.tail);
    Conservation(s, steps, t);
    Output(s, steps, t);
  }

  /** End to end over every run: what was dispatched, with the backlog, is the records of every file given up,
      in full, followed by those read from the current one, exactly when no file had a record left when it
      was given up for good. */
  lemma EndToEndIff(s: State, steps: seq<Step>, t: State)
    requires Init(s) && Reaches(s, steps, t)
    ensures Tail.Inv(t.tail)
    ensures Rotation.InFull(t.tail, t.DispatchedLines() + t.Backlog()) <==> Rotation.NothingMissed(t.tail)
  {
    assert Tail.Started(s.tail);
    hide *;
    TailRun(s, steps, t);
    Rotation.RotationIff(s.tail, TailSteps(steps), t.tail);
    Output(s, steps, t);
  }

  /** What the pipeline dispatched or holds is what its reader put out. */
  lemma Output(s: State, steps: seq<Step>, t: State)
    requires Init(s) && Reaches(s, steps, t)
    ensures t.DispatchedLines() + t.Backlog() == t.tail.emitted + t.tail.Held()
  {
    InitInv(s);
    ReachesKeepsInv(s, steps, t);
    FlowAddsUp(t);
  }

  lemma {:induction false} SettingsFixed(s: State, steps: seq<Step>, t: State)
    requires Reaches(s, steps, t)
    ensures t.sender.outbox.limit == s.sender.outbox.limit && t.order == s.order
    decreases |steps|
  {
    if steps != [] {
      SettingsFixed(Apply(s, steps[0]), steps[1..], t);
    }
  }

  /** Backlog bound: lines read but not dispatched never exceed the channel, a batch short of full, and
      one line in each goroutine's hands; without the latter once all three have finished. */
  lemma BacklogBound(s: State, steps: seq<Step>, t: State)
    requires Init(s) && Reaches(s, steps, t)
    ensures |Tail.EpochRecords(t.tail.epochs)| - |t.DispatchedLines()| == |t.Backlog()|
    ensures |t.Backlog()| <= 1000 + (s.sender.outbox.limit - 1) + 2
    ensures t.consumer == Finished && t.tail.phase == Tail.Done ==>
              |t.Backlog()| <= 1000 + (s.sender.outbox.limit - 1)
  {
    SettingsFixed(s, steps, t);
    InitInv(s);
    ReachesKeepsInv(s, steps, t);
    Conservation(s, steps, t);
  }

  /** Shutdown, in either order: when main is done, the reader has gone, every line the sender accepted
      before it was told to stop has been dispatched, and what is lost is exactly the backlog: for
      the reader-first order the last unfilled batch and what was left in the channel. */
  lemma ShutdownGuarantee(s: State, steps: seq<Step>, t: State)
    requires Init(s) && Reaches(s, steps, t) && t.main == Stopped
    ensures t.tail.phase == Tail.Done && t.sender.loop == S.Exited
    ensures t.sender.acceptedAtClose <= |t.sender.accepted|
    ensures t.sender.accepted[..t.sender.acceptedAtClose] <= t.DispatchedLines()
    ensures Tail.EpochRecords(t.tail.epochs) ==
            t.DispatchedLines() + (t.sender.outbox.batch + t.Carried() + t.channel)
    ensures t.order == ReaderFirst ==> t.Carried() == [] && t.consumer == Finished
  {
    InitInv(s);
    ReachesKeepsInv(s, steps, t);
    FlowAddsUp(t);
    assert t.Backlog() == t.sender.outbox.batch + t.Carried() + t.channel;
  }

  /** Every dispatched line is in exactly one of three places: received by the server, dropped with its batch,
      or in a batch still on its way. */
  lemma DeliveriesAddUp(s: State, steps: seq<Step>, t: State)
    requires Init(s) && Reaches(s, steps, t)
    ensures var batches := t.sender.outbox.dispatched;
            multiset(Flatten(t.received)) + LinesWith(batches, t.outcomes, Some(Dropped))
            + LinesWith(batches, t.outcomes, None) == multiset(t.DispatchedLines())
  {
    InitInv(s);
    ReachesKeepsInv(s, steps, t);
    OutcomesPartition(t.sender.outbox.dispatched, t.outcomes);
  }

  /** There is one attempt for each batch: its outcome, good or bad, is final. */
  lemma {:induction false} OneAttempt(s: State, i: nat, o: Outcome, steps: seq<Step>, t: State)
    requires OutcomeOf(s.outcomes, i) == Some(o) && Reaches(s, steps, t)
    ensures OutcomeOf(t.outcomes, i) == Some(o)
    ensures forall ok :: !Enabled(t, Deliver(i, ok))
    decreases |steps|
  {
    if steps != [] {
      OneAttempt(Apply(s, steps[0]), i, o, steps[1..], t);
    }
  }

  /** A batch that could not be delivered is dropped, and no later step brings its lines to the server. */
  lemma FailedBatchIsLost(s: State, i: nat, steps: seq<Step>, t: State)
    requires Enabled(s, Deliver(i, false)) && Reaches(Apply(s, Deliver(i, false)), steps, t)
    ensures OutcomeOf(t.outcomes, i) == Some(Dropped) && forall ok :: !Enabled(t, Deliver(i, ok))
  {
    OneAttempt(Apply(s, Deliver(i, false)), i, Dropped, steps, t);
  }

  /** At most once: the server never receives a record more often than it was read. */
  lemma DeliveredAtMostOnce(s: State, steps: seq<Step>, t: State)
    requires Init(s) && Reaches(s, steps, t)
    ensures multiset(Flatten(t.received)) <= multiset(Tail.EpochRecords(t.tail.epochs))
  {
    Conservation(s, steps, t);
    DeliveriesAddUp(s, steps, t);
  }
}
