/** When `FileReader.Stop` can return.  The reader's send on the channel does not watch `stopCh`, and the
    context is cancelled before the reader is told to stop, so the consumer may be gone by then.
 */
module StopProgress {
  import opened Lines
  import opened Batching
  import opened Pipeline
  import opened WorstCases
  import Tail
  import TailProgress
  import S = SenderProtocol

  /** What the open file, if any, still has to give. */
  function Unread(s: Tail.State): string {
    if s.handle.None? || s.handle.value.gen >= |s.files| then ""
    else Tail.Rest(s.handle.value, s.files[s.handle.value.gen])
  }

  predicate StartsWithLine(text: string) {
    '\n' in text && FirstNewline(text) > 0
  }

  /** The reader has a line to send, or is in a `readLine` that will find one. */
  predicate LineOnItsWay(s: Tail.State) {
    s.phase.Holding? || (s.phase == Tail.Reading && StartsWithLine(Unread(s)))
  }

  predicate NobodyReceives(s: State) {
    |s.channel| == CAPACITY && s.consumer == Finished
  }

  /** A line is on its way into a full channel that nobody empties any more. */
  predicate Doomed(s: State) {
    NobodyReceives(s) && LineOnItsWay(s.tail)
  }

  /** Nothing from outside comes to help: reads of the file do not fail and the file is left alone. */
  predicate Undisturbed(step: Step) {
    !step.World? && step != Reader(Tail.ReadError)
  }

  predicate UndisturbedRun(steps: seq<Step>) {
    forall i :: 0 <= i < |steps| ==> Undisturbed(steps[i])
  }

  // ----- Doom is for ever -----

  lemma FillKeepsUnread(s: Tail.State, k: nat)
    requires Tail.Enabled(s, Tail.Fill(k))
    ensures Unread(Tail.Apply(s, Tail.Fill(k))) == Unread(s)
  {
    TailProgress.RestAfterFill(s.handle.value, s.files[s.handle.value.gen], k);
    hide Tail.Rest;
  }

  lemma BufferedFirst(s: Tail.State)
    requires s.handle.Some? && s.handle.value.gen < |s.files| && '\n' in s.handle.value.buf
    ensures '\n' in Unread(s) && FirstNewline(Unread(s)) == FirstNewline(s.handle.value.buf)
  {
    var h := s.handle.value;
    FirstNewlineOfPrefix(h.buf, if h.pos <= |s.files[h.gen]| then s.files[h.gen][h.pos..] else "");
  }

  lemma DoomedReader(s: Tail.State, step: Tail.Step)
    requires LineOnItsWay(s) && Tail.Enabled(s, step) && Tail.IsReaderStep(step)
    requires step != Tail.Emit && step != Tail.ReadError
    ensures LineOnItsWay(Tail.Apply(s, step))
  {
    if s.phase == Tail.Reading {
      match step {
        case Fill(k) => FillKeepsUnread(s, k);
        case TakeLine => BufferedFirst(s);
        case _ =>
      }
    }
  }

  lemma DoomedStep(s: State, step: Step)
    requires Doomed(s) && Enabled(s, step) && Undisturbed(step)
    ensures Doomed(Apply(s, step))
  {
    if step.Reader? {
      DoomedReader(s.tail, step.move);
    }
  }

  lemma {:induction false} DoomedForever(s: State, steps: seq<Step>, t: State)
    requires Doomed(s) && Reaches(s, steps, t) && UndisturbedRun(steps)
    ensures Doomed(t) && t.tail.phase != Tail.Done
    decreases |steps|
  {
    if steps != [] {
      DoomedStep(s, steps[0]);
      DoomedForever(Apply(s, steps[0]), steps[1..], t);
    }
  }

  /** A line in the reader's hands cannot even be helped from outside. */
  lemma {:induction false} HoldingForever(s: State, steps: seq<Step>, t: State)
    requires NobodyReceives(s) && s.tail.phase.Holding? && Reaches(s, steps, t)
    ensures NobodyReceives(t) && t.tail.phase == s.tail.phase
    decreases |steps|
  {
    if steps != [] {
      HoldingForever(Apply(s, steps[0]), steps[1..], t);
    }
  }

  // ----- A way to the end from every state that is not doomed -----

  lemma Then(s: State, step: Step, steps: seq<Step>, t: State) returns (all: seq<Step>)
    requires Enabled(s, step) && Reaches(Apply(s, step), steps, t) && Undisturbed(step) && UndisturbedRun(steps)
    ensures Reaches(s, all, t) && UndisturbedRun(all)
  {
    all := [step] + steps;
    assert all[1..] == steps;
  }

  /** The reader has ended; the consumer may have taken lines on, and nothing else has changed. */
  predicate Ended(s: State, t: State) {
    && t.tail.phase == Tail.Done
    && t == s.(tail := t.tail, channel := t.channel, consumer := t.consumer, sender := t.sender)
    && S.OnlyTook(s.sender, t.sender)
  }

  lemma FromSelect(s: State) returns (steps: seq<Step>, t: State)
    requires s.readerStop && s.tail.phase == Tail.AtSelect
    ensures Reaches(s, steps, t) && UndisturbedRun(steps) && Ended(s, t)
  {
    t := Apply(s, Reader(Tail.Quit));
    steps := Then(s, Reader(Tail.Quit), [], t);
  }

  lemma FromWaiting(s: State) returns (steps: seq<Step>, t: State)
    requires s.readerStop && s.tail.phase == Tail.Waiting && Tail.Conserved(s.tail)
    ensures Reaches(s, steps, t) && UndisturbedRun(steps) && Ended(s, t)
  {
    hide Reaches;
    var step := Reader(Tail.Reopen(Tail.NoFault));
    steps, t := FromSelect(Apply(s, step));
    steps := Then(s, step, steps, t);
  }

  lemma FromHolding(s: State) returns (steps: seq<Step>, t: State)
    requires s.readerStop && s.tail.phase.Holding? && |s.channel| <= CAPACITY && !NobodyReceives(s)
    ensures Reaches(s, steps, t) && UndisturbedRun(steps) && Ended(s, t)
    decreases |s.channel|, if s.consumer.Carrying? then 1 else 0
  {
    hide Reaches;
    var step := if |s.channel| < CAPACITY then Push else if s.consumer.Carrying? then HandOver else Receive;
    if step == Push {
      steps, t := FromSelect(Apply(s, step));
    } else {
      steps, t := FromHolding(Apply(s, step));
    }
    steps := Then(s, step, steps, t);
  }

  /** With a newline in the buffer the line is taken. */
  lemma FromBuffered(s: State) returns (steps: seq<Step>, t: State)
    requires s.readerStop && s.tail.phase == Tail.Reading && Tail.Conserved(s.tail) && |s.channel| <= CAPACITY
    requires s.tail.handle.Some? && '\n' in s.tail.handle.value.buf && !Doomed(s)
    ensures Reaches(s, steps, t) && UndisturbedRun(steps) && Ended(s, t)
  {
    hide Reaches;
    BufferedFirst(s.tail);
    var next := Apply(s, Reader(Tail.TakeLine));
    if next.tail.phase == Tail.AtSelect {
      steps, t := FromSelect(next);
    } else {
      steps, t := FromHolding(next);
    }
    steps := Then(s, Reader(Tail.TakeLine), steps, t);
  }

  /** With everything read and no newline the end of file is met. */
  lemma FromEnd(s: State) returns (steps: seq<Step>, t: State)
    requires s.readerStop && s.tail.phase == Tail.Reading && Tail.Conserved(s.tail)
    requires Tail.Enabled(s.tail, Tail.EndOfFile)
    ensures Reaches(s, steps, t) && UndisturbedRun(steps) && Ended(s, t)
  {
    hide Reaches;
    var step := Reader(Tail.EndOfFile);
    Tail.StepConserves(s.tail, Tail.EndOfFile);
    steps, t := FromWaiting(Apply(s, step));
    steps := Then(s, step, steps, t);
  }

  /** The buffer has no newline: the rest of the file is read, and settles it. */
  lemma FromReading(s: State) returns (steps: seq<Step>, t: State)
    requires s.readerStop && s.tail.phase == Tail.Reading && Tail.Conserved(s.tail) && |s.channel| <= CAPACITY
    requires !Doomed(s)
    ensures Reaches(s, steps, t) && UndisturbedRun(steps) && Ended(s, t)
  {
    hide Reaches, Tail.Conserved;
    HandleOpen(s.tail);
    if s.tail.handle.None? {
      Tail.StepConserves(s.tail, Tail.FileClosed);
      steps, t := FromWaiting(Apply(s, Reader(Tail.FileClosed)));
      steps := Then(s, Reader(Tail.FileClosed), steps, t);
    } else if '\n' in s.tail.handle.value.buf {
      steps, t := FromBuffered(s);
    } else if Tail.Enabled(s.tail, Tail.EndOfFile) {
      steps, t := FromEnd(s);
    } else {
      var h := s.tail.handle.value;
      var step := Tail.Fill(|s.tail.files[h.gen]| - h.pos);
      Tail.StepConserves(s.tail, step);
      FillKeepsUnread(s.tail, step.count);
      var next := Apply(s, Reader(step));
      if '\n' in next.tail.handle.value.buf {
        steps, t := FromBuffered(next);
      } else {
        steps, t := FromEnd(next);
      }
      steps := Then(s, Reader(step), steps, t);
    }
  }

  lemma HandleOpen(s: Tail.State)
    requires Tail.Conserved(s)
    ensures s.handle.Some? ==> s.handle.value.gen < |s.files|
  {
  }

  lemma CanFinish(s: State) returns (steps: seq<Step>, t: State)
    requires Inv(s) && s.readerStop && !Doomed(s)
    ensures Reaches(s, steps, t) && UndisturbedRun(steps) && Ended(s, t)
  {
    match s.tail.phase {
      case AtSelect => steps, t := FromSelect(s);
      case Reading => steps, t := FromReading(s);
      case Holding(_) => steps, t := FromHolding(s);
      case Waiting => steps, t := FromWaiting(s);
      case Done => steps, t := [], s;
    }
  }

  /** Some continuation ends the reader goroutine without help from outside. */
  ghost predicate ReaderCanEnd(s: State) {
    exists steps: seq<Step>, t: State :: Reaches(s, steps, t) && UndisturbedRun(steps) && t.tail.phase == Tail.Done
  }

  /** In every reachable state where the reader was told to stop, its goroutine can still come to an end by
      itself, and so `Stop` return, exactly when it is not doomed: when there is room in the channel, or a
      consumer, or neither a line in its hands nor one that its present `readLine` will find. */
  lemma StopCanReturnIff(s0: State, before: seq<Step>, s: State)
    requires Init(s0) && Reaches(s0, before, s) && s.readerStop
    ensures ReaderCanEnd(s) <==> !Doomed(s)
  {
    InitInv(s0);
    ReachesKeepsInv(s0, before, s);
    if Doomed(s) {
      forall steps, t | Reaches(s, steps, t) && UndisturbedRun(steps) ensures t.tail.phase != Tail.Done {
        DoomedForever(s, steps, t);
      }
    } else {
      var steps, t := CanFinish(s);
      assert Reaches(s, steps, t) && UndisturbedRun(steps);
    }
  }

  // ----- How long it can take -----

  /** A step of the reader or of the consumer. */
  predicate IsMove(step: Step) {
    step.Reader? || step.Push? || step.Receive? || step.HandOver? || step.ConsumerExit?
  }

  function Moves(steps: seq<Step>): nat {
    if steps == [] then 0 else (if IsMove(steps[0]) then 1 else 0) + Moves(steps[1..])
  }

  predicate NoWorld(steps: seq<Step>) {
    forall i :: 0 <= i < |steps| ==> !steps[i].World?
  }

  /** Bytes of the open file not yet read. */
  function BytesLeft(s: Tail.State): nat {
    if s.handle.None? || s.handle.value.gen >= |s.files| || s.handle.value.pos > |s.files[s.handle.value.gen]| then 0
    else |s.files[s.handle.value.gen]| - s.handle.value.pos
  }

  function ReaderWork(s: Tail.State): nat {
    match s.phase
    case Done => 0
    case AtSelect => 1
    case Waiting => 2
    case Holding(_) => 4
    case Reading => 5 + BytesLeft(s)
  }

  /** What reader and consumer can still do once the reader was told to stop. */
  function Work(s: State): nat {
    ReaderWork(s.tail) + 2 * |s.channel|
    + match s.consumer { case Finished => 0 case AtSelect => 1 case Carrying(_) => 2 }
  }

  lemma MoveCosts(s: State, step: Step)
    requires Enabled(s, step) && s.readerStop && !step.World?
    ensures var t := Apply(s, step);
            t.readerStop && (if IsMove(step) then 1 else 0) + Work(t) <= Work(s)
  {
    hide Sent, Flushed, Tail.Extended, FirstNewline;
  }

  /** While the file is left alone, the reader and the consumer together make at most `Work(s)` more moves,
      however they are scheduled and whether or not reads fail. */
  lemma {:induction false} MovesBounded(s: State, steps: seq<Step>, t: State)
    requires Reaches(s, steps, t) && s.readerStop && NoWorld(steps)
    ensures Moves(steps) + Work(t) <= Work(s) && t.readerStop
    decreases |steps|
  {
    if steps != [] {
      MoveCosts(s, steps[0]);
      MovesBounded(Apply(s, steps[0]), steps[1..], t);
    }
  }

  predicate Stuck(s: State) {
    NobodyReceives(s) && s.tail.phase.Holding?
  }

  lemma SomeMove(s: State) returns (step: Step)
    requires Inv(s) && s.readerStop && s.tail.phase != Tail.Done && !Stuck(s)
    ensures IsMove(step) && Enabled(s, step)
  {
    RoomOrFull(s);
    hide Inv, Tail.Conserved, Enabled;
    match s.tail.phase {
      case AtSelect => step := QuitMove(s);
      case Waiting => step := WaitingMove(s);
      case Holding(_) => step := HoldingMove(s);
      case Reading => step := ReadingMove(s);
    }
  }

  lemma QuitMove(s: State) returns (step: Step)
    requires s.tail.phase == Tail.AtSelect && s.readerStop
    ensures IsMove(step) && Enabled(s, step)
  {
    step := Reader(Tail.Quit);
  }

  lemma HoldingMove(s: State) returns (step: Step)
    requires s.tail.phase.Holding? && |s.channel| <= CAPACITY && !NobodyReceives(s)
    ensures IsMove(step) && Enabled(s, step)
  {
    step := if |s.channel| < CAPACITY then Push else if s.consumer.Carrying? then HandOver else Receive;
  }

  lemma RoomOrFull(s: State)
    requires Inv(s)
    ensures |s.channel| <= CAPACITY && Tail.Conserved(s.tail)
  {
  }

  lemma WaitingMove(s: State) returns (step: Step)
    requires Tail.Conserved(s.tail) && s.tail.phase == Tail.Waiting
    ensures IsMove(step) && Enabled(s, step)
  {
    step := Reader(Tail.Reopen(Tail.NoFault));
  }

  lemma ReadingMove(s: State) returns (step: Step)
    requires Tail.Conserved(s.tail) && s.tail.phase == Tail.Reading
    ensures IsMove(step) && Enabled(s, step)
  {
    if s.tail.handle.None? {
      step := Reader(Tail.FileClosed);
    } else if '\n' in s.tail.handle.value.buf {
      step := Reader(Tail.TakeLine);
    } else if Tail.Enabled(s.tail, Tail.EndOfFile) {
      step := Reader(Tail.EndOfFile);
    } else {
      step := Reader(Tail.Fill(1));
    }
  }

  ghost predicate Quiescent(s: State) {
    forall step :: IsMove(step) ==> !Enabled(s, step)
  }

  /** Stopping settles: told to stop, and the file left alone, reader and consumer make a bounded number of
      moves; as long as the reader is not done there is a next one, unless it holds a line for a full channel
      that nobody empties, and then there is none. */
  lemma StopSettles(s0: State, before: seq<Step>, s: State, steps: seq<Step>, t: State)
    requires Init(s0) && Reaches(s0, before, s) && s.readerStop && Reaches(s, steps, t) && NoWorld(steps)
    ensures Moves(steps) <= Work(s)
    ensures t.tail.phase != Tail.Done ==> (Quiescent(t) <==> Stuck(t))
  {
    InitInv(s0);
    ReachesKeepsInv(s0, before, s);
    ReachesKeepsInv(s, steps, t);
    MovesBounded(s, steps, t);
    hide *;
    if t.tail.phase != Tail.Done {
      QuiescentIffStuck(t);
    }
  }

  lemma QuiescentIffStuck(s: State)
    requires Inv(s) && s.readerStop && s.tail.phase != Tail.Done
    ensures Quiescent(s) <==> Stuck(s)
  {
    if Stuck(s) {
      NoMove(s);
    } else {
      hide Inv, Enabled, Stuck;
      var step := SomeMove(s);
      assert IsMove(step) && Enabled(s, step);
    }
  }

  lemma NoMove(s: State)
    requires Stuck(s)
    ensures Quiescent(s)
  {
    forall step | IsMove(step) ensures !Enabled(s, step) {
    }
  }

  // ----- Doom is reachable -----

  /** Shutdown can hang for ever, in either order: from every start, some run fills the channel, cancels the
      context, lets the consumer go, and has main wait for a reader that no continuation can end. */
  lemma StopCanHang(s0: State) returns (steps: seq<Step>, t: State)
    requires Init(s0)
    ensures Reaches(s0, steps, t) && t.readerStop
    ensures t.main == Stopping(if t.order == ReaderFirst then 0 else 1, true) && t.order == s0.order
    ensures forall more, u :: Reaches(t, more, u) ==> u.tail.phase != Tail.Done && u.main != Stopped
  {
    steps, t := ConsumerGone(s0);
    if t.order == SenderFirst {
      steps, t := SenderStopped(s0, steps, t);
    }
    steps, t := Extend(s0, steps, t, MainMove);
    InitInv(s0);
    ReachesKeepsInv(s0, steps, t);
    forall more, u | Reaches(t, more, u) ensures u.tail.phase != Tail.Done && u.main != Stopped {
      HoldingForever(t, more, u);
      ReachesKeepsInv(t, more, u);
    }
  }

  /** The channel is full, the reader holds one more line, and the consumer has seen the signal. */
  lemma ConsumerGone(s0: State) returns (steps: seq<Step>, t: State)
    requires Init(s0)
    ensures Reaches(s0, steps, t) && NobodyReceives(t) && t.tail.phase.Holding?
    ensures t == s0.(tail := t.tail, channel := t.channel, consumer := Finished, cancelled := true,
                     main := Stopping(0, false))
  {
    assert CaughtUp(s0) && Reaches(s0, [], s0);
    hide Reaches, Tail.Started, S.Init, CaughtUp;
    steps, t := FillChannel(s0, [], s0, CAPACITY);
    steps, t := ReadOneLine(s0, steps, t);
    steps, t := Extend(s0, steps, t, Signal);
    steps, t := Extend(s0, steps, t, ConsumerExit);
  }
}
