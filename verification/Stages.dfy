/** How far the shutdown has come: what each stage of the main goroutine says about the other parts. */
module Stages {
  import opened Pipeline
  import Tail
  import S = SenderProtocol

  function ReaderStage(order: Order): nat {
    if order == ReaderFirst then 0 else 1
  }

  function SenderStage(order: Order): nat {
    1 - ReaderStage(order)
  }

  /** Main has told the component of this stage to stop. */
  predicate Told(s: State, stage: nat) {
    || s.main == Stopped
    || (s.main.Stopping? && (s.main.stage > stage || (s.main.stage == stage && s.main.waiting)))
  }

  ghost predicate Staged(s: State) {
    && (s.cancelled <==> s.main != Running)
    && (s.readerStop <==> Told(s, ReaderStage(s.order)))
    && s.sender.stops.Keys == (if Told(s, SenderStage(s.order)) then {MAIN} else {})
    && (s.tail.phase == Tail.Done ==> s.readerStop)
    && (s.main.Stopping? ==> s.main.stage <= 2 && (s.main.stage == 2 ==> !s.main.waiting))
  }

  lemma StepKeepsStaged(s: State, step: Step)
    requires Staged(s) && Enabled(s, step)
    ensures Staged(Apply(s, step))
  {
    match step {
      case Sender(act) => SenderKeepsStaged(s, act);
      case MainMove => MainKeepsStaged(s);
      case World(_) => TailKeepsStaged(s, step);
      case Reader(_) => TailKeepsStaged(s, step);
      case _ =>
    }
  }

  lemma TailKeepsStaged(s: State, step: Step)
    requires Staged(s) && Enabled(s, step) && (step.World? || step.Reader?)
    ensures Staged(Apply(s, step))
  {
    var t := Apply(s, step);
    assert t == s.(tail := t.tail);
    assert t.tail.phase == Tail.Done ==> s.tail.phase == Tail.Done || step == Reader(Tail.Quit);
  }

  lemma SenderKeepsStaged(s: State, act: S.Step)
    requires Staged(s) && Enabled(s, Sender(act))
    ensures Staged(Apply(s, Sender(act)))
  {
    assert Apply(s, Sender(act)).sender.stops.Keys == s.sender.stops.Keys;
  }

  lemma MainKeepsStaged(s: State)
    requires Staged(s) && Enabled(s, MainMove)
    ensures Staged(Apply(s, MainMove))
  {
  }

  lemma {:induction false} ReachesKeepsStaged(s: State, steps: seq<Step>, t: State)
    requires Staged(s) && Reaches(s, steps, t)
    ensures Staged(t)
    decreases |steps|
  {
    if steps != [] {
      StepKeepsStaged(s, steps[0]);
      ReachesKeepsStaged(Apply(s, steps[0]), steps[1..], t);
    }
  }

  /** In every reachable state the flags, the calls and the stage of main agree. */
  lemma ReachableIsStaged(s0: State, steps: seq<Step>, s: State)
    requires Init(s0) && Reaches(s0, steps, s)
    ensures Inv(s) && Staged(s)
  {
    InitInv(s0);
    ReachesKeepsInv(s0, steps, s);
    ReachesKeepsStaged(s0, steps, s);
  }
}
