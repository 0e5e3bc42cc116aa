/** Starting and stopping `WindowsEventLogReader` and `ContainerReader`: which channel is closed when.

    The two differ in when the running flag is cleared (by the goroutine on its way out, or by `Stop`),
    in whether `Stop` closes the `lines` channel, and in whether the goroutine may end by itself.
 */
module Lifecycle {

  datatype Kind = Windows | Container

  /** The goroutine: looping, with a line to send, about to clear the flag, about to close `stoppedCh`, gone. */
  datatype Worker = Looping | HasLine | Leaving | Closing | Gone

  /** A call of `Stop`: before the locked check, past it, waiting for `stoppedCh`, at its last action, returned. */
  datatype StopCall = Calling | Passed | Awaiting | LastAct | Returned

  datatype State = State(
    kind: Kind, running: bool, workers: seq<Worker>, stops: map<nat, StopCall>,
    stopCloses: nat, stoppedCloses: nat, linesCloses: nat, sendsAfterClose: nat)

  datatype Step =
    | Start
    | GetLine(worker: nat)
    | SendLine(worker: nat)
    | SkipLine(worker: nat)
    | SeeStop(worker: nat)
    | EndByItself(worker: nat)
    | ClearRunning(worker: nat)
    | CloseStopped(worker: nat)
    | CallStop(caller: nat)
    | CheckStop(caller: nat)
    | CloseStop(caller: nat)
    | AwaitStopped(caller: nat)
    | FinishStop(caller: nat)

  predicate Init(s: State) {
    && !s.running && s.workers == [] && s.stops == map[]
    && s.stopCloses == 0 && s.stoppedCloses == 0 && s.linesCloses == 0 && s.sendsAfterClose == 0
  }

  predicate WorkerIs(s: State, w: nat, state: Worker) {
    w < |s.workers| && s.workers[w] == state
  }

  predicate CallIs(s: State, c: nat, call: StopCall) {
    c in s.stops && s.stops[c] == call
  }

  predicate Enabled(s: State, step: Step) {
    match step
    case Start => true
    case GetLine(w) => WorkerIs(s, w, Looping)
    case SendLine(w) => WorkerIs(s, w, HasLine)
    case SkipLine(w) => WorkerIs(s, w, HasLine)
    case SeeStop(w) => (WorkerIs(s, w, Looping) || WorkerIs(s, w, HasLine)) && s.stopCloses > 0
    case EndByItself(w) => s.kind == Container && WorkerIs(s, w, Looping)
    case ClearRunning(w) => WorkerIs(s, w, Leaving)
    case CloseStopped(w) => WorkerIs(s, w, Closing)
    case CallStop(c) => c !in s.stops
    case CheckStop(c) => CallIs(s, c, Calling)
    case CloseStop(c) => CallIs(s, c, Passed)
    case AwaitStopped(c) => CallIs(s, c, Awaiting) && s.stoppedCloses > 0
    case FinishStop(c) => CallIs(s, c, LastAct)
  }

  function Apply(s: State, step: Step): State
    requires Enabled(s, step)
  {
    match step
    case Start => if s.running then s else s.(running := true, workers := s.workers + [Looping])
    case GetLine(w) => s.(workers := s.workers[w := HasLine])
    case SendLine(w) =>
      s.(workers := s.workers[w := Looping],
         sendsAfterClose := s.sendsAfterClose + if s.linesCloses > 0 then 1 else 0)
    case SkipLine(w) => s.(workers := s.workers[w := Looping])
    case SeeStop(w) => s.(workers := s.workers[w := if s.kind == Windows then Leaving else Closing])
    case EndByItself(w) => s.(workers := s.workers[w := Closing])
    case ClearRunning(w) => s.(workers := s.workers[w := Closing], running := false)
    case CloseStopped(w) => s.(workers := s.workers[w := Gone], stoppedCloses := s.stoppedCloses + 1)
    case CallStop(c) => s.(stops := s.stops[c := Calling])
    case CheckStop(c) => s.(stops := s.stops[c := if s.running then Passed else Returned])
    case CloseStop(c) => s.(stops := s.stops[c := Awaiting], stopCloses := s.stopCloses + 1)
    case AwaitStopped(c) => s.(stops := s.stops[c := LastAct])
    case FinishStop(c) =>
      var s' := s.(stops := s.stops[c := Returned]);
      if s.kind == Windows then s'.(linesCloses := s.linesCloses + 1) else s'.(running := false)
  }

  /** The callers' discipline: `Stop` calls do not overlap, and nothing is started once `stopCh` is closed. */
  predicate Disciplined(s: State, step: Step) {
    match step
    case Start => s.stopCloses == 0
    case CallStop(_) => AllReturned(s)
    case _ => true
  }

  predicate AllReturned(s: State) {
    forall c :: c in s.stops ==> s.stops[c] == Returned
  }

  /** Stopped for good: `stopCh` is closed and the flag is cleared. */
  predicate Closed(s: State) {
    s.stopCloses == 1 && !s.running
  }

  /** What is harmless besides: `Start` while the reader runs, and overlapping `Stop` calls once it is closed. */
  predicate Careful(s: State, step: Step) {
    match step
    case Start => s.stopCloses == 0 || s.running
    case CallStop(_) => AllReturned(s) || Closed(s)
    case _ => true
  }

  ghost predicate Reaches(s: State, steps: seq<Step>, t: State)
    decreases |steps|
  {
    if steps == [] then s == t
    else Enabled(s, steps[0]) && Reaches(Apply(s, steps[0]), steps[1..], t)
  }

  ghost predicate DisciplinedRun(s: State, steps: seq<Step>)
    decreases |steps|
  {
    steps != [] ==>
      Enabled(s, steps[0]) && Disciplined(s, steps[0]) && DisciplinedRun(Apply(s, steps[0]), steps[1..])
  }

  ghost predicate CarefulRun(s: State, steps: seq<Step>)
    decreases |steps|
  {
    steps != [] ==>
      Enabled(s, steps[0]) && Careful(s, steps[0]) && CarefulRun(Apply(s, steps[0]), steps[1..])
  }

  lemma {:induction false} DisciplinedIsCareful(s: State, steps: seq<Step>)
    requires DisciplinedRun(s, steps)
    ensures CarefulRun(s, steps)
    decreases |steps|
  {
    if steps != [] {
      DisciplinedIsCareful(Apply(s, steps[0]), steps[1..]);
    }
  }

  /** No close of a closed channel and no send on one has happened. */
  predicate Safe(s: State) {
    s.stopCloses <= 1 && s.stoppedCloses <= 1 && s.linesCloses <= 1 && s.sendsAfterClose == 0
  }

  /** No `Stop` is between closing `stopCh` and returning. */
  predicate NoneWaiting(s: State) {
    forall c :: c in s.stops ==> s.stops[c] != Awaiting && s.stops[c] != LastAct
  }

  ghost predicate Inv(s: State) {
    && Safe(s)
    && OneStop(s)
    && |s.workers| <= 1
    && (s.workers == [] ==> !s.running && s.stopCloses == 0 && s.stoppedCloses == 0)
    && (s.workers != [] ==> WorkerInv(s, s.workers[0]))
    && (s.stopCloses == 1 && NoneWaiting(s) ==> !s.running)
    && (s.linesCloses == 1 ==> s.kind == Windows && s.stoppedCloses == 1 && s.stopCloses == 1)
  }

  /** Past its locked check and not yet returned. */
  predicate Engaged(call: StopCall) {
    call != Calling && call != Returned
  }

  /** Until the reader is closed at most one `Stop` is under way; at most one ever gets past its check. */
  ghost predicate OneStop(s: State) {
    && (forall c, d :: c in s.stops && d in s.stops && Engaged(s.stops[c]) && Engaged(s.stops[d]) ==> c == d)
    && (!Closed(s) ==> forall c, d ::
          c in s.stops && d in s.stops && s.stops[c] != Returned && s.stops[d] != Returned ==> c == d)
    && (forall c :: c in s.stops ==> CallInv(s, s.stops[c]))
  }

  predicate CallInv(s: State, call: StopCall) {
    match call
    case Calling => true
    case Passed => s.stopCloses == 0 && s.running && s.workers != []
    case Awaiting => s.stopCloses == 1 && s.linesCloses == 0
    case LastAct => s.stopCloses == 1 && s.stoppedCloses == 1 && s.linesCloses == 0
    case Returned => true
  }

  predicate WorkerInv(s: State, w: Worker) {
    && s.stoppedCloses == (if w == Gone then 1 else 0)
    && match s.kind
       case Windows =>
         && (s.running <==> w == Looping || w == HasLine || w == Leaving)
         && (w != Looping && w != HasLine ==> s.stopCloses == 1)
       case Container => w != Leaving && (s.stopCloses == 0 ==> s.running) && (!s.running ==> w == Gone)
  }

  predicate IsCallStep(step: Step) {
    step.FinishStop? || step.CheckStop? || step.CloseStop? || step.AwaitStopped? || step.CallStop?
  }

  lemma StepKeepsInv(s: State, step: Step)
    requires Inv(s) && Enabled(s, step) && Careful(s, step)
    ensures Inv(Apply(s, step))
  {
    var t := Apply(s, step);
    if IsCallStep(step) {
      CallStepKeepsInv(s, step);
    } else {
      assert t.stops == s.stops;
    }
  }

  lemma CallStepKeepsInv(s: State, step: Step)
    requires Inv(s) && Enabled(s, step) && Careful(s, step) && IsCallStep(step)
    ensures Inv(Apply(s, step))
  {
    var t := Apply(s, step);
    OneStopKept(s, step);
    WaitingKept(s, step);
    if step.CheckStop? || step.CloseStop? {
      OnlyCall(s, step.caller);
    }
    hide OneStop, NoneWaiting;
  }

  /** A call that finds the flag set, or is past its check before `stopCh` is closed, is the only one. */
  lemma OnlyCall(s: State, c: nat)
    requires Inv(s) && (CallIs(s, c, Calling) || CallIs(s, c, Passed))
    ensures !Closed(s) ==> forall d :: d in s.stops && d != c ==> s.stops[d] == Returned
    ensures s.running ==> s.stopCloses == 0
    ensures CallIs(s, c, Passed) ==> s.stopCloses == 0 && s.linesCloses == 0
  {
    if s.running && s.stopCloses == 1 {
      assert NoneWaiting(s);
    }
  }

  lemma WaitingKept(s: State, step: Step)
    requires Inv(s) && Enabled(s, step) && IsCallStep(step)
    ensures var t := Apply(s, step);
            t.stopCloses == 1 && NoneWaiting(t) ==> !t.running
  {
    var t := Apply(s, step);
    if t.stopCloses == 1 && NoneWaiting(t) && t.running {
      assert t.stops[step.caller] != Awaiting && t.stops[step.caller] != LastAct;
      assert forall d :: d in s.stops && d != step.caller ==> t.stops[d] == s.stops[d];
      if !step.FinishStop? {
        assert NoneWaiting(s);
      }
    }
  }

  lemma OneStopKept(s: State, step: Step)
    requires Inv(s) && Enabled(s, step) && Careful(s, step) && IsCallStep(step)
    ensures OneStop(Apply(s, step))
  {
    var t, c := Apply(s, step), step.caller;
    assert forall d :: d in t.stops && d != c ==> d in s.stops && t.stops[d] == s.stops[d];
    if (step.CheckStop? && s.running) || step.CloseStop? {
      OnlyCall(s, c);
      assert forall d :: d in t.stops && d != c ==> t.stops[d] == Returned;
    } else {
      assert t.stopCloses == s.stopCloses;
      assert Engaged(t.stops[c]) ==> c in s.stops && Engaged(s.stops[c]);
      OneStopStays(s, t, c);
    }
  }

  /** A call that did not get past its check just now leaves the others as they were. */
  lemma OneStopStays(s: State, t: State, c: nat)
    requires OneStop(s) && c in t.stops && CallInv(t, t.stops[c])
    requires forall d :: d in t.stops && d != c ==> d in s.stops && t.stops[d] == s.stops[d]
    requires Engaged(t.stops[c]) ==> c in s.stops && Engaged(s.stops[c])
    requires forall d :: d in t.stops && d != c ==> CallInv(t, t.stops[d])
    requires !Closed(t) ==> !Closed(s) && (t.stops[c] == Returned || (c in s.stops && s.stops[c] != Returned)
                                           || AllReturned(s))
    ensures OneStop(t)
  {
  }

  /** Channel-close safety: in every careful run of either reader, so in every disciplined one, no channel is
      closed twice and nothing is sent on `lines` after it is closed, even if the goroutine ends by itself. */
  lemma {:induction false} ChannelsAreSafe(s: State, steps: seq<Step>, t: State)
    requires (Init(s) || Inv(s)) && Reaches(s, steps, t) && CarefulRun(s, steps)
    ensures Inv(t) && Safe(t)
    decreases |steps|
  {
    if steps != [] {
      StepKeepsInv(s, steps[0]);
      ChannelsAreSafe(Apply(s, steps[0]), steps[1..], t);
    }
  }

  // ----- The discipline is exact -----

  /** After the step, callers who are careful from then on can still meet a misused channel. */
  ghost predicate UnsafeAfter(s: State, step: Step)
    requires Enabled(s, step)
  {
    exists steps: seq<Step>, t: State ::
      Reaches(Apply(s, step), steps, t) && CarefulRun(Apply(s, step), steps) && !Safe(t)
  }

  /** Exactness: a step is safe to take exactly when it is careful. */
  lemma CarefulIff(s: State, step: Step)
    requires Inv(s) && Enabled(s, step)
    ensures UnsafeAfter(s, step) <==> !Careful(s, step)
  {
    var s1 := Apply(s, step);
    if Careful(s, step) {
      StepKeepsInv(s, step);
      forall steps, t | Reaches(s1, steps, t) && CarefulRun(s1, steps) ensures Safe(t) {
        ChannelsAreSafe(s1, steps, t);
      }
    } else {
      var steps, t;
      if step == Start {
        steps, t := AfterRestart(s);
      } else {
        steps, t := AfterOverlap(s, step.caller);
      }
      assert Reaches(s1, steps, t) && CarefulRun(s1, steps);
    }
  }

  /** Starting again with `stopCh` closed is unsafe exactly when the flag is cleared. */
  lemma RestartIff(s: State)
    requires Inv(s) && s.stopCloses == 1
    ensures UnsafeAfter(s, Start) <==> !s.running
  {
    CarefulIff(s, Start);
  }

  /** A `Stop` that overlaps another is unsafe exactly until `stopCh` is closed and the flag cleared. */
  lemma OverlapIff(s: State, c: nat, d: nat)
    requires Inv(s) && c in s.stops && s.stops[c] != Returned && d !in s.stops
    ensures UnsafeAfter(s, CallStop(d)) <==> s.stopCloses == 0 || s.running
  {
    CarefulIff(s, CallStop(d));
  }

  /** Steps that callers do not choose. */
  predicate Internal(step: Step) {
    step != Start && !step.CallStop?
  }

  lemma Then(s: State, step: Step, steps: seq<Step>, t: State) returns (all: seq<Step>)
    requires Enabled(s, step) && Careful(s, step) && Reaches(Apply(s, step), steps, t)
    requires CarefulRun(Apply(s, step), steps)
    ensures Reaches(s, all, t) && CarefulRun(s, all)
  {
    all := [step] + steps;
    assert all[1..] == steps;
  }

  /** Takes the given steps, none of which is up to the callers. */
  lemma {:induction false} Internally(s: State, steps: seq<Step>)
    requires forall i :: 0 <= i < |steps| ==> Internal(steps[i])
    requires exists t :: Reaches(s, steps, t)
    ensures CarefulRun(s, steps)
    decreases |steps|
  {
    if steps != [] {
      var t :| Reaches(s, steps, t);
      assert Reaches(Apply(s, steps[0]), steps[1..], t);
      Internally(Apply(s, steps[0]), steps[1..]);
    }
  }

  /** The second goroutine closes `stoppedCh` again. */
  lemma AfterRestart(s: State) returns (steps: seq<Step>, t: State)
    requires Inv(s) && Closed(s)
    ensures Reaches(Apply(s, Start), steps, t) && CarefulRun(Apply(s, Start), steps) && t.stoppedCloses == 2
  {
    hide Reaches;
    var s1 := Apply(s, Start);
    steps, t := FirstStep(s1, SeeStop(1));
    if s.kind == Windows {
      steps, t := Extend(s1, steps, t, ClearRunning(1));
    }
    if s.workers[0] == Closing {
      steps, t := Extend(s1, steps, t, CloseStopped(0));
    }
    steps, t := Extend(s1, steps, t, CloseStopped(1));
    Internally(s1, steps);
  }

  /** Both calls close `stopCh`. */
  lemma AfterOverlap(s: State, d: nat) returns (steps: seq<Step>, t: State)
    requires Inv(s) && d !in s.stops && !AllReturned(s) && !Closed(s)
    ensures Reaches(Apply(s, CallStop(d)), steps, t) && CarefulRun(Apply(s, CallStop(d)), steps)
    ensures t.stopCloses == 2
  {
    var c :| c in s.stops && s.stops[c] != Returned;
    var s1 := Apply(s, CallStop(d));
    if s.stops[c] == Calling {
      OnlyCall(s, c);
      assert s.stopCloses == 1 ==> NoneWaiting(s);
    }
    if s.running {
      steps, t := BothClose(s1, c, d);
    } else {
      steps, t := BothClose(Apply(s1, Start), c, d);
      steps := Then(s1, Start, steps, t);
    }
  }

  lemma BothClose(s: State, c: nat, d: nat) returns (steps: seq<Step>, t: State)
    requires s.running && c != d && CallIs(s, d, Calling) && c in s.stops && s.stops[c] != Returned
    requires s.stopCloses == if s.stops[c] == Awaiting || s.stops[c] == LastAct then 1 else 0
    ensures Reaches(s, steps, t) && CarefulRun(s, steps) && t.stopCloses == 2
  {
    hide Reaches;
    steps, t := FirstStep(s, CheckStop(d));
    if s.stops[c] == Calling {
      steps, t := Extend(s, steps, t, CheckStop(c));
    }
    if !(s.stops[c] == Awaiting || s.stops[c] == LastAct) {
      steps, t := Extend(s, steps, t, CloseStop(c));
    }
    steps, t := Extend(s, steps, t, CloseStop(d));
    Internally(s, steps);
  }

  /** A container reader whose goroutine ends by itself, its pod being gone, closes `stoppedCh` but still counts
      as running, so that it cannot be started again until it is stopped. */
  lemma EndedContainerReader(s: State) returns (steps: seq<Step>, t: State)
    requires Init(s) && s.kind == Container
    ensures Reaches(s, steps, t) && t.running && t.workers == [Gone] && t.stoppedCloses == 1 && t.stopCloses == 0
    ensures Apply(t, Start) == t
  {
    hide Reaches;
    steps, t := FirstStep(s, Start);
    steps, t := Extend(s, steps, t, EndByItself(0));
    steps, t := Extend(s, steps, t, CloseStopped(0));
  }

  /** A goroutine with a line goes back to its loop, whether it could send the line or has to skip it. */
  lemma LineDealtWith(s: State, w: nat, skip: bool)
    requires WorkerIs(s, w, HasLine)
    ensures var step := if skip then SkipLine(w) else SendLine(w);
            && Enabled(s, step) && WorkerIs(Apply(s, step), w, Looping)
            && (skip || s.linesCloses == 0 ==> Apply(s, step).sendsAfterClose == s.sendsAfterClose)
            && Apply(s, step).stops == s.stops && Apply(s, step).running == s.running
  {
  }

  // ----- Stopping works -----

  /** Stopped for good, with the goroutine gone and, for the Windows reader, `lines` closed. */
  predicate FullyStopped(s: State) {
    && Closed(s) && s.stoppedCloses == 1 && (forall w :: 0 <= w < |s.workers| ==> s.workers[w] == Gone)
    && (s.kind == Windows ==> s.linesCloses == 1)
  }

  /** A careful run of steps that callers do not choose. */
  ghost predicate ByItself(s: State, steps: seq<Step>, t: State) {
    Reaches(s, steps, t) && CarefulRun(s, steps) && forall i :: 0 <= i < |steps| ==> Internal(steps[i])
  }

  lemma First(s: State, step: Step, steps: seq<Step>, t: State) returns (all: seq<Step>)
    requires Enabled(s, step) && Internal(step) && ByItself(Apply(s, step), steps, t)
    ensures ByItself(s, all, t)
  {
    all := [step] + steps;
    assert all[1..] == steps;
  }

  lemma LastActs(s: State, c: nat) returns (steps: seq<Step>, t: State)
    requires Inv(s) && CallIs(s, c, Awaiting) && s.workers[0] == Gone
    ensures ByItself(s, steps, t) && CallIs(t, c, Returned) && FullyStopped(t)
  {
    var s1 := Apply(s, AwaitStopped(c));
    t := Apply(s1, FinishStop(c));
    assert ByItself(t, [], t);
    hide ByItself;
    steps := First(s1, FinishStop(c), [], t);
    steps := First(s, AwaitStopped(c), steps, t);
  }

  /** Once `stopCh` is closed the goroutine can come to its end, and the waiting call return. */
  lemma AwaitedReturns(s: State, c: nat) returns (steps: seq<Step>, t: State)
    requires Inv(s) && CallIs(s, c, Awaiting)
    ensures ByItself(s, steps, t) && CallIs(t, c, Returned) && FullyStopped(t)
    decreases match s.workers[0] { case HasLine => 3 case Looping => 3 case Leaving => 2 case Closing => 1 case Gone => 0 }
  {
    var w := s.workers[0];
    if w == Gone {
      steps, t := LastActs(s, c);
    } else {
      var step := if w == Leaving then ClearRunning(0) else if w == Closing then CloseStopped(0) else SeeStop(0);
      StepKeepsInv(s, step);
      hide ByItself;
      steps, t := AwaitedReturns(Apply(s, step), c);
      steps := First(s, step, steps, t);
    }
  }

  /** Every call of `Stop` can come to return by itself; one that found the reader running, or is past its
      check, leaves it fully stopped. */
  lemma StopCanReturn(s: State, c: nat) returns (steps: seq<Step>, t: State)
    requires Inv(s) && c in s.stops
    ensures ByItself(s, steps, t) && CallIs(t, c, Returned)
    ensures Engaged(s.stops[c]) || (s.stops[c] == Calling && s.running) ==> FullyStopped(t)
    decreases match s.stops[c] { case Calling => 3 case Passed => 2 case Awaiting => 1 case LastAct => 1 case Returned => 0 }
  {
    match s.stops[c] {
      case Returned => steps, t := [], s;
      case Awaiting => steps, t := AwaitedReturns(s, c);
      case LastAct =>
        t := Apply(s, FinishStop(c));
        assert ByItself(t, [], t);
        steps := First(s, FinishStop(c), [], t);
      case Calling =>
        StepKeepsInv(s, CheckStop(c));
        hide ByItself;
        steps, t := StopCanReturn(Apply(s, CheckStop(c)), c);
        steps := First(s, CheckStop(c), steps, t);
      case Passed =>
        StepKeepsInv(s, CloseStop(c));
        hide ByItself;
        steps, t := StopCanReturn(Apply(s, CloseStop(c)), c);
        steps := First(s, CloseStop(c), steps, t);
    }
  }

  lemma Extend(s: State, steps: seq<Step>, t: State, step: Step) returns (steps': seq<Step>, t': State)
    requires Reaches(s, steps, t) && Enabled(t, step)
    ensures steps' == steps + [step] && t' == Apply(t, step) && Reaches(s, steps', t')
    decreases |steps|
  {
    steps', t' := steps + [step], Apply(t, step);
    if steps == [] {
      assert Reaches(t', [step][1..], t');
    } else {
      var rest, _ := Extend(Apply(s, steps[0]), steps[1..], t, step);
      assert steps'[1..] == rest;
    }
  }

  /** Overlapping `Stop` calls close `stopCh` twice, for both readers. */
  lemma OverlappingStops(s: State) returns (steps: seq<Step>, t: State)
    requires Init(s)
    ensures Reaches(s, steps, t) && t.stopCloses == 2
  {
    hide Reaches;
    steps, t := FirstStep(s, Start);
    steps, t := Extend(s, steps, t, CallStop(0));
    steps, t := Extend(s, steps, t, CallStop(1));
    steps, t := Extend(s, steps, t, CheckStop(0));
    steps, t := Extend(s, steps, t, CheckStop(1));
    steps, t := Extend(s, steps, t, CloseStop(0));
    steps, t := Extend(s, steps, t, CloseStop(1));
  }

  /** Starting a stopped Windows reader again sends on the closed `lines` channel. */
  lemma RestartedWindowsReader(s: State) returns (steps: seq<Step>, t: State)
    requires Init(s) && s.kind == Windows
    ensures Reaches(s, steps, t) && t.sendsAfterClose == 1
  {
    hide Reaches;
    steps, t := StartedAndStopping(s);
    steps, t := Extend(s, steps, t, ClearRunning(0));
    steps, t := Extend(s, steps, t, CloseStopped(0));
    steps, t := Extend(s, steps, t, AwaitStopped(0));
    steps, t := Extend(s, steps, t, FinishStop(0));
    steps, t := Extend(s, steps, t, Start);
    steps, t := Extend(s, steps, t, GetLine(1));
    steps, t := Extend(s, steps, t, SendLine(1));
  }

  /** Starting a stopped container reader again closes `stoppedCh` twice. */
  lemma RestartedContainerReader(s: State) returns (steps: seq<Step>, t: State)
    requires Init(s) && s.kind == Container
    ensures Reaches(s, steps, t) && t.stoppedCloses == 2
  {
    hide Reaches;
    steps, t := StartedAndStopping(s);
    steps, t := Extend(s, steps, t, CloseStopped(0));
    steps, t := Extend(s, steps, t, AwaitStopped(0));
    steps, t := Extend(s, steps, t, FinishStop(0));
    steps, t := Extend(s, steps, t, Start);
    steps, t := Extend(s, steps, t, SeeStop(1));
    steps, t := Extend(s, steps, t, CloseStopped(1));
  }

  lemma StartedAndStopping(s: State) returns (steps: seq<Step>, t: State)
    requires Init(s)
    ensures Reaches(s, steps, t)
    ensures t == State(s.kind, true, [if s.kind == Windows then Leaving else Closing], map[0 := Awaiting], 1, 0, 0, 0)
  {
    hide Reaches;
    steps, t := FirstStep(s, Start);
    steps, t := Extend(s, steps, t, CallStop(0));
    steps, t := Extend(s, steps, t, CheckStop(0));
    steps, t := Extend(s, steps, t, CloseStop(0));
    steps, t := Extend(s, steps, t, SeeStop(0));
  }

  lemma FirstStep(s: State, step: Step) returns (steps: seq<Step>, t: State)
    requires Enabled(s, step)
    ensures steps == [step] && t == Apply(s, step) && Reaches(s, steps, t)
  {
    assert Reaches(s, [], s);
    steps, t := Extend(s, [], s, step);
  }
}
