/** `HTTPSender` under concurrency: any number of callers of `Send` and `Stop`, and the one
    `flushLoop` goroutine, as interleaved locked sections and channel operations.
 */
module SenderProtocol {
  import opened Batching

  /** `flushLoop`: at its `select`, about to flush for a tick, about to flush for the last time, about
      to close `stoppedCh`, or gone. */
  datatype Loop = AtSelect | TickTaken | StopTaken | Drained | Exited

  /** A call of `Stop`: waiting for the lock, waiting for `stoppedCh`, or returned. */
  datatype StopCall = Calling | AwaitingLoop | Returned(closedIt: bool)

  /** `accepted` records the lines in lock order and `acceptedAtClose` how many of them came before
      `stopCh` was closed; the two counters say how often each channel was closed. */
  datatype State = State(
    outbox: Outbox, loop: Loop, stops: map<nat, StopCall>,
    stopCloses: nat, stoppedCloses: nat,
    accepted: seq<string>, acceptedAtClose: nat)

  datatype Step =
    | SendLine(line: string)
    | TakeTick
    | FlushTick
    | TakeStop
    | FinalFlush
    | CloseStopped
    | CallStop(caller: nat)
    | LockStop(caller: nat)
    | ReturnStop(caller: nat)

  predicate Init(s: State) {
    && s.outbox.limit >= 1 && s.outbox.batch == [] && s.outbox.dispatched == []
    && s.loop == AtSelect && s.stops == map[]
    && s.stopCloses == 0 && s.stoppedCloses == 0
    && s.accepted == [] && s.acceptedAtClose == 0
  }

  predicate Enabled(s: State, step: Step) {
    match step
    case SendLine(_) => true
    case TakeTick => s.loop == AtSelect
    case FlushTick => s.loop == TickTaken
    case TakeStop => s.loop == AtSelect && s.stopCloses > 0
    case FinalFlush => s.loop == StopTaken
    case CloseStopped => s.loop == Drained
    case CallStop(c) => c !in s.stops
    case LockStop(c) => c in s.stops && s.stops[c] == Calling
    case ReturnStop(c) => c in s.stops && s.stops[c] == AwaitingLoop && s.stoppedCloses > 0
  }

  function Apply(s: State, step: Step): State
    requires Enabled(s, step)
  {
    match step
    case SendLine(line) => s.(outbox := Sent(s.outbox, line), accepted := s.accepted + [line])
    case TakeTick => s.(loop := TickTaken)
    case FlushTick => s.(loop := AtSelect, outbox := Flushed(s.outbox, false))
    case TakeStop => s.(loop := StopTaken)
    case FinalFlush => s.(loop := Drained, outbox := Flushed(s.outbox, false))
    case CloseStopped => s.(loop := Exited, stoppedCloses := s.stoppedCloses + 1)
    case CallStop(c) => s.(stops := s.stops[c := Calling])
    case LockStop(c) =>
      if s.stopCloses > 0 then s.(stops := s.stops[c := Returned(false)])
      else s.(stops := s.stops[c := AwaitingLoop], stopCloses := 1, acceptedAtClose := |s.accepted|)
    case ReturnStop(c) => s.(stops := s.stops[c := Returned(true)])
  }

  ghost predicate Reaches(s: State, steps: seq<Step>, t: State)
    decreases |steps|
  {
    if steps == [] then s == t
    else Enabled(s, steps[0]) && Reaches(Apply(s, steps[0]), steps[1..], t)
  }

  /** The call that closed `stopCh`, before or after it returned. */
  predicate IsCloser(call: StopCall) {
    call == AwaitingLoop || call == Returned(true)
  }

  ghost predicate Inv(s: State) {
    && s.outbox.Valid()
    && s.outbox.Contents() == s.accepted
    && s.stopCloses <= 1
    && s.stoppedCloses == (if s.loop == Exited then 1 else 0)
    && (s.loop.StopTaken? || s.loop.Drained? || s.loop.Exited? ==> s.stopCloses == 1)
    && s.acceptedAtClose <= |s.accepted|
    && (s.loop.Drained? || s.loop.Exited? ==>
          s.accepted[..s.acceptedAtClose] <= BatchLines(s.outbox.dispatched))
    && (forall c :: c in s.stops && IsCloser(s.stops[c]) ==> s.stopCloses == 1)
    && (forall c, d :: c in s.stops && d in s.stops && IsCloser(s.stops[c]) && IsCloser(s.stops[d]) ==> c == d)
    && (forall c :: c in s.stops && s.stops[c] == Returned(true) ==> s.loop == Exited)
  }

  lemma InitInv(s: State)
    requires Init(s)
    ensures Inv(s)
  {
  }

  lemma FlushKeepsInv(s: State, step: Step)
    requires Inv(s) && Enabled(s, step) && (step.FlushTick? || step.FinalFlush?)
    ensures Inv(Apply(s, step))
  {
    FlushKeeps(s.outbox, false);
  }

  lemma SendKeepsInv(s: State, line: string)
    requires Inv(s)
    ensures Inv(Apply(s, SendLine(line)))
  {
    var t := Apply(s, SendLine(line));
    SendKeeps(s.outbox, line);
    assert t.accepted[..s.acceptedAtClose] == s.accepted[..s.acceptedAtClose];
    BatchLinesGrow(s.outbox.dispatched, t.outbox.dispatched);
  }

  lemma {:induction false} BatchLinesGrow(a: seq<Batch>, b: seq<Batch>)
    requires a <= b
    ensures BatchLines(a) <= BatchLines(b)
    decreases |b|
  {
    if |a| < |b| {
      BatchLinesGrow(a, b[..|b| - 1]);
    } else {
      assert a == b;
    }
  }

  lemma StepKeepsInv(s: State, step: Step)
    requires Inv(s) && Enabled(s, step)
    ensures Inv(Apply(s, step))
  {
    match step {
      case SendLine(line) => SendKeepsInv(s, line);
      case FlushTick => FlushKeepsInv(s, step);
      case FinalFlush => FlushKeepsInv(s, step);
      case _ =>
    }
  }

  lemma {:induction false} ReachesKeepsInv(s: State, steps: seq<Step>, t: State)
    requires Inv(s) && Reaches(s, steps, t)
    ensures Inv(t)
    decreases |steps|
  {
    if steps != [] {
      StepKeepsInv(s, steps[0]);
      ReachesKeepsInv(Apply(s, steps[0]), steps[1..], t);
    }
  }

  /** Stop drains the sender: in every run, each channel is closed at most once, at most one `Stop`
      closes `stopCh`, and when that call has returned every line accepted before the close has been
      dispatched; the batches partition the accepted lines throughout. */
  lemma StopDrains(s: State, steps: seq<Step>, t: State)
    requires Init(s) && Reaches(s, steps, t)
    ensures t.stopCloses <= 1 && t.stoppedCloses <= 1
    ensures t.outbox.Valid() && t.outbox.Contents() == t.accepted
    ensures forall c, d | c in t.stops && d in t.stops :: IsCloser(t.stops[c]) && IsCloser(t.stops[d]) ==> c == d
    ensures forall c :: c in t.stops && t.stops[c] == Returned(true) ==>
              && t.acceptedAtClose <= |t.accepted|
              && t.accepted[..t.acceptedAtClose] <= BatchLines(t.outbox.dispatched)
  {
    InitInv(s);
    ReachesKeepsInv(s, steps, t);
  }

  /** The mark left at the close counts at least the lines accepted while `stopCh` was open. */
  lemma {:induction false} MarkCounts(s: State, steps: seq<Step>, t: State)
    requires Reaches(s, steps, t)
    ensures |s.accepted| <= |t.accepted| && s.accepted <= t.accepted
    ensures s.stopCloses == 0 && t.stopCloses > 0 ==> |s.accepted| <= t.acceptedAtClose
    ensures s.stopCloses > 0 ==> t.stopCloses > 0 && t.acceptedAtClose == s.acceptedAtClose
    decreases |steps|
  {
    if steps != [] {
      var mid := Apply(s, steps[0]);
      MarkCounts(mid, steps[1..], t);
      hide Sent, Flushed, Reaches;
    }
  }

  /** In every run, what was accepted while `stopCh` was open is dispatched once the call that closed it has
      returned. */
  lemma StopDispatches(s0: State, before: seq<Step>, s: State, after: seq<Step>, t: State, c: nat)
    requires Init(s0) && Reaches(s0, before, s) && s.stopCloses == 0 && Reaches(s, after, t)
    requires c in t.stops && t.stops[c] == Returned(true)
    ensures s.accepted <= BatchLines(t.outbox.dispatched)
  {
    InitInv(s0);
    ReachesKeepsInv(s0, before, s);
    ReachesKeepsInv(s, after, t);
    MarkCounts(s, after, t);
    hide Reaches, Apply, Enabled;
    assert IsCloser(t.stops[c]);
    assert s.accepted == t.accepted[..|s.accepted|] <= t.accepted[..t.acceptedAtClose];
  }

  // ----- What a flush achieves -----

  predicate IsFlush(step: Step) {
    step == FlushTick || step == FinalFlush
  }

  /** Right after the ticker's flush or the last one, everything accepted is dispatched. */
  lemma FlushDispatchesAll(s: State, step: Step)
    requires Inv(s) && Enabled(s, step) && IsFlush(step)
    ensures var t := Apply(s, step);
            t.outbox.batch == [] && BatchLines(t.outbox.dispatched) == t.accepted == s.accepted
  {
    FlushKeeps(s.outbox, false);
  }

  /** Lines are only added, to those accepted and to those dispatched. */
  lemma {:induction false} RunGrows(s: State, steps: seq<Step>, t: State)
    requires Inv(s) && Reaches(s, steps, t)
    ensures s.accepted <= t.accepted && BatchLines(s.outbox.dispatched) <= BatchLines(t.outbox.dispatched)
    decreases |steps|
  {
    if steps != [] {
      var mid := Apply(s, steps[0]);
      StepKeepsInv(s, steps[0]);
      StepGrows(s, steps[0]);
      RunGrows(mid, steps[1..], t);
      hide Reaches, Inv, Apply, BatchLines;
      PrefixTwice(s.accepted, mid.accepted, t.accepted);
      PrefixTwice(BatchLines(s.outbox.dispatched), BatchLines(mid.outbox.dispatched), BatchLines(t.outbox.dispatched));
    }
  }

  lemma PrefixTwice<T>(a: seq<T>, b: seq<T>, c: seq<T>)
    requires a <= b && b <= c
    ensures a <= c
  {
  }

  lemma StepGrows(s: State, step: Step)
    requires Enabled(s, step)
    ensures var t := Apply(s, step);
            s.accepted <= t.accepted && BatchLines(s.outbox.dispatched) <= BatchLines(t.outbox.dispatched)
  {
    var t := Apply(s, step);
    if t.outbox.dispatched != s.outbox.dispatched {
      var b := t.outbox.dispatched[|s.outbox.dispatched|];
      assert t.outbox.dispatched == s.outbox.dispatched + [b];
      BatchLinesPush(s.outbox.dispatched, b);
    }
  }

  /** In every run, what was accepted before a flush is among the dispatched lines from that flush on. */
  lemma FlushedForGood(s0: State, before: seq<Step>, s: State, step: Step, after: seq<Step>, t: State)
    requires Init(s0) && Reaches(s0, before, s) && Enabled(s, step) && IsFlush(step)
    requires Reaches(Apply(s, step), after, t)
    ensures s.accepted <= BatchLines(t.outbox.dispatched)
  {
    InitInv(s0);
    ReachesKeepsInv(s0, before, s);
    FlushDispatchesAll(s, step);
    StepKeepsInv(s, step);
    hide Inv, Reaches, Apply;
    RunGrows(Apply(s, step), after, t);
  }

  // ----- What the sender can always still do -----

  /** The sender took lines and did nothing else. */
  predicate OnlyTook(a: State, b: State) {
    b == a.(outbox := b.outbox, accepted := b.accepted)
  }

  /** Steps of the flush loop and of calls of `Stop` already made. */
  predicate Own(step: Step) {
    !step.SendLine? && !step.CallStop?
  }

  predicate OwnRun(steps: seq<Step>) {
    forall i :: 0 <= i < |steps| ==> Own(steps[i])
  }

  lemma Then(s: State, step: Step, steps: seq<Step>, t: State) returns (all: seq<Step>)
    requires Enabled(s, step) && Own(step) && Reaches(Apply(s, step), steps, t) && OwnRun(steps)
    ensures Reaches(s, all, t) && OwnRun(all)
  {
    all := [step] + steps;
    assert all[1..] == steps;
  }

  /** A tick can be taken at any time until the loop was told to stop, and flushes. */
  lemma CanFlush(s: State) returns (steps: seq<Step>, t: State)
    requires Inv(s) && (s.loop == AtSelect || s.loop == TickTaken)
    ensures Reaches(s, steps, t) && OwnRun(steps)
    ensures t == s.(outbox := t.outbox) || t == s.(outbox := t.outbox, loop := AtSelect)
    ensures t.outbox.batch == [] && BatchLines(t.outbox.dispatched) == s.accepted
  {
    var s1 := s.(loop := TickTaken);
    FlushDispatchesAll(s1, FlushTick);
    t := Apply(s1, FlushTick);
    assert Reaches(t, [], t);
    hide Reaches, BatchLines, Flushed;
    steps := Then(s1, FlushTick, [], t);
    if s.loop == AtSelect {
      steps := Then(s, TakeTick, steps, t);
    }
  }

  /** Once `stopCh` is closed the loop can end by itself. */
  lemma LoopCanEnd(s: State) returns (steps: seq<Step>, t: State)
    requires Inv(s) && s.stopCloses == 1
    ensures Reaches(s, steps, t) && OwnRun(steps) && Inv(t)
    ensures t == s.(outbox := t.outbox, loop := Exited, stoppedCloses := 1)
    decreases match s.loop {
      case TickTaken => 4 case AtSelect => 3 case StopTaken => 2 case Drained => 1 case Exited => 0 }
  {
    if s.loop == Exited {
      steps, t := [], s;
    } else {
      var step := match s.loop
        case TickTaken => FlushTick
        case AtSelect => TakeStop
        case StopTaken => FinalFlush
        case _ => CloseStopped;
      StepKeepsInv(s, step);
      hide Reaches, Inv, Flushed;
      steps, t := LoopCanEnd(Apply(s, step));
      steps := Then(s, step, steps, t);
    }
  }

  /** Every call of `Stop` can come to return, whatever the other calls do. */
  lemma StopCanReturn(s: State, c: nat) returns (steps: seq<Step>, t: State)
    requires Inv(s) && c in s.stops
    ensures Reaches(s, steps, t) && OwnRun(steps) && Inv(t)
    ensures c in t.stops && t.stops[c].Returned? && t.accepted == s.accepted
    ensures t.stops.Keys == s.stops.Keys && forall d :: d in s.stops && d != c ==> t.stops[d] == s.stops[d]
  {
    match s.stops[c] {
      case Returned(_) => steps, t := [], s;
      case Calling =>
        var s1 := Apply(s, LockStop(c));
        StepKeepsInv(s, LockStop(c));
        if s1.stops[c].Returned? {
          assert Reaches(s1, [], s1);
          steps, t := [], s1;
        } else {
          hide Reaches;
          steps, t := AwaitCanReturn(s1, c);
        }
        hide Reaches;
        steps := Then(s, LockStop(c), steps, t);
      case AwaitingLoop =>
        steps, t := AwaitCanReturn(s, c);
    }
  }

  lemma AwaitCanReturn(s: State, c: nat) returns (steps: seq<Step>, t: State)
    requires Inv(s) && c in s.stops && s.stops[c] == AwaitingLoop
    ensures Reaches(s, steps, t) && OwnRun(steps) && Inv(t)
    ensures t.stops == s.stops[c := Returned(true)] && t.accepted == s.accepted
  {
    var one, mid := LoopCanEnd(s);
    t := Apply(mid, ReturnStop(c));
    StepKeepsInv(mid, ReturnStop(c));
    assert Reaches(t, [], t);
    hide Reaches, Inv;
    var last := Then(mid, ReturnStop(c), [], t);
    steps := Join(s, one, mid, last, t);
  }

  lemma {:induction false} Join(s: State, one: seq<Step>, mid: State, two: seq<Step>, t: State) returns (all: seq<Step>)
    requires Reaches(s, one, mid) && Reaches(mid, two, t) && OwnRun(one) && OwnRun(two)
    ensures Reaches(s, all, t) && OwnRun(all)
    decreases |one|
  {
    if one == [] {
      all := two;
    } else {
      all := Join(Apply(s, one[0]), one[1..], mid, two, t);
      all := Then(s, one[0], all, t);
    }
  }
}
