/** When shutting the agent down comes to an end. */
module ShutdownProgress {
  import opened Pipeline
  import opened Stages
  import opened StopProgress
  import Delivery
  import Tail
  import S = SenderProtocol

  /** Some continuation without outside help brings main to its end. */
  ghost predicate CanComplete(s: State) {
    exists steps: seq<Step>, t: State :: Reaches(s, steps, t) && UndisturbedRun(steps) && t.main == Stopped
  }

  lemma Extended(s: State, steps: seq<Step>, t: State, step: Step) returns (all: seq<Step>, u: State)
    requires Reaches(s, steps, t) && UndisturbedRun(steps) && Enabled(t, step) && Undisturbed(step)
    ensures u == Apply(t, step) && Reaches(s, all, u) && UndisturbedRun(all)
  {
    u := Apply(t, step);
    assert Reaches(u, [], u);
    hide Reaches;
    var one := StopProgress.Then(t, step, [], u);
    all := Joined(s, steps, t, one, u);
  }

  lemma {:induction false} Joined(s: State, one: seq<Step>, mid: State, two: seq<Step>, t: State)
    returns (all: seq<Step>)
    requires Reaches(s, one, mid) && Reaches(mid, two, t) && UndisturbedRun(one) && UndisturbedRun(two)
    ensures Reaches(s, all, t) && UndisturbedRun(all)
    decreases |one|
  {
    if one == [] {
      all := two;
    } else {
      all := Joined(Apply(s, one[0]), one[1..], mid, two, t);
      all := StopProgress.Then(s, one[0], all, t);
    }
  }

  /** Main tells the reader to stop, if it has not yet; the reader ends; main goes on. */
  lemma PassesReader(s: State) returns (steps: seq<Step>, t: State)
    requires Inv(s) && Staged(s) && !Doomed(s) && s.main.Stopping? && s.main.stage == ReaderStage(s.order)
    ensures Reaches(s, steps, t) && UndisturbedRun(steps)
    ensures t.main == Stopping(s.main.stage + 1, false) && !Doomed(t) && t.order == s.order
  {
    hide *;
    if s.main.waiting {
      ReaderTold(s);
      steps, t := ReaderReturns(s);
    } else {
      MainTellsReader(s);
      var u := Apply(s, MainMove);
      StepKeepsInv(s, MainMove);
      SameDoom(s, u);
      var more;
      more, t := ReaderReturns(u);
      SenderUndisturbed([]);
      steps := StopProgress.Then(s, MainMove, more, t);
    }
  }

  lemma ReaderReturns(s: State) returns (steps: seq<Step>, t: State)
    requires Inv(s) && !Doomed(s) && s.main.Stopping? && s.main.stage == ReaderStage(s.order) && s.main.waiting
    requires s.readerStop
    ensures Reaches(s, steps, t) && UndisturbedRun(steps)
    ensures t.main == Stopping(s.main.stage + 1, false) && !Doomed(t) && t.order == s.order
  {
    hide *;
    var more, u := CanFinish(s);
    EndedReader(s, u);
    SenderUndisturbed([]);
    steps, t := Extended(s, more, u, MainMove);
    DoneNotDoomed(t);
  }

  lemma EndedReader(s: State, u: State)
    requires Ended(s, u) && s.main.Stopping? && s.main.stage == ReaderStage(s.order) && s.main.waiting
    ensures Enabled(u, MainMove)
    ensures Apply(u, MainMove) == u.(main := Stopping(s.main.stage + 1, false))
    ensures u.order == s.order && u.tail.phase == Tail.Done
  {
  }

  lemma ReaderTold(s: State)
    requires Staged(s) && s.main.Stopping? && s.main.stage == ReaderStage(s.order) && s.main.waiting
    ensures s.readerStop
  {
  }

  lemma MainTellsReader(s: State)
    requires s.main.Stopping? && s.main.stage == ReaderStage(s.order) && !s.main.waiting
    ensures Enabled(s, MainMove)
    ensures Apply(s, MainMove) == s.(main := Stopping(s.main.stage, true), readerStop := true)
  {
  }

  lemma SameDoom(s: State, t: State)
    requires t.tail == s.tail && t.channel == s.channel && t.consumer == s.consumer
    ensures Doomed(t) <==> Doomed(s)
  {
  }

  lemma DoneNotDoomed(s: State)
    requires s.tail.phase == Tail.Done
    ensures !Doomed(s)
  {
  }

  /** Main calls `Stop` on the sender, if it has not yet; the call returns; main goes on. */
  lemma PassesSender(s: State) returns (steps: seq<Step>, t: State)
    requires Inv(s) && Staged(s) && s.main.Stopping? && s.main.stage == SenderStage(s.order)
    ensures Reaches(s, steps, t) && UndisturbedRun(steps)
    ensures t == s.(sender := t.sender, main := Stopping(s.main.stage + 1, false))
  {
    hide *;
    if s.main.waiting {
      SenderTold(s);
      Delivery.SenderInv(s);
      steps, t := SenderReturns(s);
    } else {
      MainCallsStop(s);
      var u := Apply(s, MainMove);
      StepKeepsInv(s, MainMove);
      Delivery.SenderInv(u);
      var more;
      more, t := SenderReturns(u);
      SenderUndisturbed([]);
      steps := StopProgress.Then(s, MainMove, more, t);
    }
  }

  lemma SenderReturns(s: State) returns (steps: seq<Step>, t: State)
    requires S.Inv(s.sender) && s.main.Stopping? && s.main.stage == SenderStage(s.order) && s.main.waiting
    requires MAIN in s.sender.stops
    ensures Reaches(s, steps, t) && UndisturbedRun(steps)
    ensures t == s.(sender := t.sender, main := Stopping(s.main.stage + 1, false))
  {
    hide *;
    var acts, sender := MainReturns(s.sender);
    var more := Delivery.SenderAlone(s, acts, sender);
    SenderUndisturbed(more);
    var u := s.(sender := sender);
    MainGoesOn(u);
    steps, t := Extended(s, more, u, MainMove);
  }

  lemma MainReturns(s: S.State) returns (acts: seq<S.Step>, t: S.State)
    requires S.Inv(s) && MAIN in s.stops
    ensures S.Reaches(s, acts, t) && S.OwnRun(acts) && MAIN in t.stops && t.stops[MAIN].Returned?
  {
    acts, t := S.StopCanReturn(s, MAIN);
  }

  lemma SenderTold(s: State)
    requires Staged(s) && s.main.Stopping? && s.main.stage == SenderStage(s.order) && s.main.waiting
    ensures MAIN in s.sender.stops
  {
  }

  lemma SenderUndisturbed(steps: seq<Step>)
    requires forall i :: 0 <= i < |steps| ==> steps[i].Sender?
    ensures UndisturbedRun(steps) && Undisturbed(MainMove)
  {
  }

  lemma MainCallsStop(s: State)
    requires Staged(s) && s.main.Stopping? && s.main.stage == SenderStage(s.order) && !s.main.waiting
    ensures Enabled(s, MainMove)
    ensures var t := Apply(s, MainMove);
            t == s.(sender := t.sender, main := Stopping(s.main.stage, true)) && MAIN in t.sender.stops
  {
  }

  lemma MainGoesOn(s: State)
    requires s.main.Stopping? && s.main.stage == SenderStage(s.order) && s.main.waiting
    requires MAIN in s.sender.stops && s.sender.stops[MAIN].Returned?
    ensures Enabled(s, MainMove) && Apply(s, MainMove) == s.(main := Stopping(s.main.stage + 1, false))
  {
  }

  /** In the last stage main waits for the consumer, and in the sender-first order not for ever. */
  lemma PassesConsumer(s: State) returns (steps: seq<Step>, t: State)
    requires s.cancelled && s.main == Stopping(2, false)
    ensures Reaches(s, steps, t) && UndisturbedRun(steps) && t.main == Stopped
  {
    assert Reaches(s, [], s);
    steps, t := [], s;
    hide Reaches;
    if s.consumer.Carrying? {
      steps, t := Extended(s, steps, t, HandOver);
    }
    if t.consumer == AtSelect {
      steps, t := Extended(s, steps, t, ConsumerExit);
    }
    steps, t := Extended(s, steps, t, MainMove);
  }

  /** From every stage main can come to its end unless the reader is doomed. */
  lemma Completes(s: State) returns (steps: seq<Step>, t: State)
    requires Inv(s) && Staged(s) && !Doomed(s) && s.main.Stopping?
    ensures Reaches(s, steps, t) && UndisturbedRun(steps) && t.main == Stopped
    decreases 3 - s.main.stage
  {
    hide Inv, Doomed, Reaches;
    if s.main.stage == 2 {
      steps, t := PassesConsumer(s);
    } else {
      var mid;
      if s.main.stage == ReaderStage(s.order) {
        steps, mid := PassesReader(s);
      } else {
        steps, mid := PassesSender(s);
        SameDoom(s, mid);
      }
      ReachesKeepsInv(s, steps, mid);
      ReachesKeepsStaged(s, steps, mid);
      hide Staged;
      var more;
      more, t := Completes(mid);
      steps := Joined(s, steps, mid, more, t);
    }
  }

  /** Shutdown, exactly: in every reachable state after the signal and in either order, main can still come to
      its end, the file being left alone and readable, if and only if the reader is not doomed. */
  lemma ShutdownCompletesIff(s0: State, before: seq<Step>, s: State)
    requires Init(s0) && Reaches(s0, before, s) && s.main != Running
    ensures CanComplete(s) <==> !Doomed(s)
  {
    ReachableIsStaged(s0, before, s);
    if Doomed(s) {
      hide Doomed, Staged;
      NeverStopped(s);
    } else {
      hide Inv, Staged, Doomed;
      assert Reaches(s, [], s);
      var steps, t := [], s;
      if s.main.Stopping? {
        steps, t := Completes(s);
      }
      assert Reaches(s, steps, t) && UndisturbedRun(steps);
    }
  }

  lemma NeverStopped(s: State)
    requires Inv(s) && Doomed(s)
    ensures !CanComplete(s)
  {
    hide Inv, Doomed, Reaches;
    forall steps, t | Reaches(s, steps, t) && UndisturbedRun(steps) ensures t.main != Stopped {
      DoomedForever(s, steps, t);
      ReachesKeepsInv(s, steps, t);
      if t.main == Stopped {
        StoppedMeansGone(t);
      }
    }
  }

  lemma StoppedMeansGone(s: State)
    requires Inv(s) && s.main == Stopped
    ensures s.tail.phase == Tail.Done
  {
  }

  /** So from every start, in either order, some run is shut down completely. */
  lemma ShutdownHappens(s0: State) returns (steps: seq<Step>, t: State)
    requires Init(s0)
    ensures Reaches(s0, steps, t) && t.main == Stopped && UndisturbedRun(steps)
  {
    assert Reaches(s0, [], s0);
    hide Reaches;
    var s;
    steps, s := Extended(s0, [], s0, Signal);
    ReachableIsStaged(s0, steps, s);
    assert !Doomed(s);
    hide Inv, Staged, Doomed;
    var more;
    more, t := Completes(s);
    steps := Joined(s0, steps, s, more, t);
  }

  /** In the sender-first order main does not depend on the consumer: in every reachable state of its last
      stage it can stop at once; in the reader-first order exactly when the consumer has finished. */
  lemma LastStage(s0: State, before: seq<Step>, s: State)
    requires Init(s0) && Reaches(s0, before, s) && s.main.Stopping? && s.main.stage == 2
    ensures s.order == SenderFirst ==> Enabled(s, MainTimeout) && Apply(s, MainTimeout) == s.(main := Stopped)
    ensures s.order == ReaderFirst ==> !Enabled(s, MainTimeout)
    ensures Enabled(s, MainMove) <==> s.consumer == Finished
    ensures Enabled(s, MainMove) ==> Apply(s, MainMove) == s.(main := Stopped)
  {
    ReachableIsStaged(s0, before, s);
    assert s.main == Stopping(2, false);
    hide *;
    LastStageSteps(s);
  }

  lemma LastStageSteps(s: State)
    requires s.main == Stopping(2, false)
    ensures s.order == SenderFirst ==> Enabled(s, MainTimeout) && Apply(s, MainTimeout) == s.(main := Stopped)
    ensures s.order == ReaderFirst ==> !Enabled(s, MainTimeout)
    ensures Enabled(s, MainMove) <==> s.consumer == Finished
    ensures Enabled(s, MainMove) ==> Apply(s, MainMove) == s.(main := Stopped)
  {
  }
}
