/** That lines get through: before the shutdown, the agent's own steps can bring every record of the file to
    the server.
 */
module Delivery {
  import opened Lines
  import opened Batching
  import opened Pipeline
  import opened Stages
  import Tail
  import TailProgress
  import S = SenderProtocol

  // ----- Dispatching after a flush -----

  /** The pipeline drives the sender only through its protocol. */
  lemma {:induction false} SenderRun(s: State, steps: seq<Step>, t: State) returns (acts: seq<S.Step>)
    requires Reaches(s, steps, t)
    ensures S.Reaches(s.sender, acts, t.sender)
    decreases |steps|
  {
    if steps == [] {
      acts := [];
    } else {
      var mid := Apply(s, steps[0]);
      acts := SenderRun(mid, steps[1..], t);
      hide Reaches, S.Reaches, S.Apply;
      match steps[0] {
        case HandOver => acts := SenderFirst(s.sender, S.SendLine(s.consumer.line), acts, t.sender);
        case Sender(act) => acts := SenderFirst(s.sender, act, acts, t.sender);
        case MainMove =>
          if s.main.stage < 2 && !s.main.waiting && !StopsReader(s.order, s.main.stage) {
            acts := SenderFirst(s.sender, S.CallStop(MAIN), acts, t.sender);
          }
        case _ =>
      }
    }
  }

  lemma SenderFirst(s: S.State, act: S.Step, acts: seq<S.Step>, t: S.State) returns (all: seq<S.Step>)
    requires S.Enabled(s, act) && S.Reaches(S.Apply(s, act), acts, t)
    ensures S.Reaches(s, all, t)
  {
    all := [act] + acts;
    assert all[1..] == acts;
  }

  /** In every run, whatever the consumer handed over before a flush of the sender is among the dispatched
      lines from that flush on. */
  lemma FlushedForGood(s0: State, before: seq<Step>, s: State, act: S.Step, after: seq<Step>, t: State)
    requires Init(s0) && Reaches(s0, before, s) && S.IsFlush(act) && Enabled(s, Sender(act))
    requires Reaches(Apply(s, Sender(act)), after, t)
    ensures s.sender.accepted <= t.DispatchedLines()
    ensures Apply(s, Sender(act)).sender.outbox.batch == []
  {
    InitInv(s0);
    var mid := Apply(s, Sender(act));
    assert S.Enabled(s.sender, act) && mid.sender == S.Apply(s.sender, act);
    hide *;
    ReachesKeepsInv(s0, before, s);
    SenderInv(s);
    S.FlushDispatchesAll(s.sender, act);
    var acts1 := SenderRun(s0, before, s);
    var acts2 := SenderRun(mid, after, t);
    SenderStarts(s0);
    S.FlushedForGood(s0.sender, acts1, s.sender, act, acts2, t.sender);
    Dispatched(t);
  }

  lemma SenderStarts(s: State)
    requires Init(s)
    ensures S.Init(s.sender)
  {
  }

  lemma Dispatched(s: State)
    ensures s.DispatchedLines() == BatchLines(s.sender.outbox.dispatched)
  {
  }

  /** In every run that is shut down completely, whatever the consumer handed over while the sender's `stopCh`
      was open has been dispatched. */
  lemma ShutdownDispatches(s0: State, before: seq<Step>, s: State, after: seq<Step>, t: State)
    requires Init(s0) && Reaches(s0, before, s) && s.sender.stopCloses == 0
    requires Reaches(s, after, t) && t.main == Stopped
    ensures s.sender.accepted <= t.DispatchedLines()
  {
    InitInv(s0);
    ReachesKeepsInv(s0, before, s);
    ReachesKeepsInv(s, after, t);
    MainReturned(t);
    hide *;
    var acts1 := SenderRun(s0, before, s);
    var acts2 := SenderRun(s, after, t);
    SenderStarts(s0);
    S.StopDispatches(s0.sender, acts1, s.sender, acts2, t.sender, MAIN);
    Dispatched(t);
  }

  lemma MainReturned(s: State)
    requires Inv(s) && s.main == Stopped
    ensures MAIN in s.sender.stops && s.sender.stops[MAIN] == S.Returned(true)
  {
  }

  // ----- Running parts of the pipeline -----

  predicate NoWorld(steps: seq<Step>) {
    forall i :: 0 <= i < |steps| ==> !steps[i].World?
  }

  lemma Then(s: State, step: Step, steps: seq<Step>, t: State) returns (all: seq<Step>)
    requires Enabled(s, step) && !step.World? && Reaches(Apply(s, step), steps, t) && NoWorld(steps)
    ensures Reaches(s, all, t) && NoWorld(all)
  {
    all := [step] + steps;
    assert all[1..] == steps;
  }

  lemma {:induction false} Join(s: State, one: seq<Step>, mid: State, two: seq<Step>, t: State) returns (all: seq<Step>)
    requires Reaches(s, one, mid) && Reaches(mid, two, t) && NoWorld(one) && NoWorld(two)
    ensures all == one + two && Reaches(s, all, t) && NoWorld(all)
    decreases |one|
  {
    if one == [] {
      all := two;
      assert one + two == two;
    } else {
      var rest := Join(Apply(s, one[0]), one[1..], mid, two, t);
      all := [one[0]] + rest;
      assert all == one + two && all[1..] == rest;
    }
  }

  /** The sender makes its steps while everything else rests. */
  lemma {:induction false} SenderAlone(s: State, acts: seq<S.Step>, sender: S.State) returns (steps: seq<Step>)
    requires S.Reaches(s.sender, acts, sender) && S.OwnRun(acts)
    ensures Reaches(s, steps, s.(sender := sender)) && NoWorld(steps)
    ensures forall i :: 0 <= i < |steps| ==> steps[i].Sender?
    decreases |acts|
  {
    if acts == [] {
      steps := [];
    } else {
      var mid := Apply(s, Sender(acts[0]));
      var rest := SenderAlone(mid, acts[1..], sender);
      assert s.(sender := sender) == mid.(sender := sender);
      hide S.Reaches, S.Apply;
      steps := [Sender(acts[0])] + rest;
      assert steps[1..] == rest;
    }
  }

  /** The consumer hands over everything it can get. */
  lemma EmptiesChannel(s: State) returns (steps: seq<Step>, t: State)
    requires s.consumer != Finished
    ensures Reaches(s, steps, t) && NoWorld(steps)
    ensures t == s.(channel := [], consumer := AtSelect, sender := t.sender) && S.OnlyTook(s.sender, t.sender)
    decreases |s.channel|, if s.consumer.Carrying? then 1 else 0
  {
    if s.consumer == AtSelect && s.channel == [] {
      steps, t := [], s;
    } else {
      hide Reaches, Sent;
      var step := if s.consumer.Carrying? then HandOver else Receive;
      steps, t := EmptiesChannel(Apply(s, step));
      steps := Then(s, step, steps, t);
    }
  }

  /** The reader makes its steps, and the consumer takes every line it sends. */
  lemma {:induction false} ReaderThrough(s: State, moves: seq<Tail.Step>, tail: Tail.State)
    returns (steps: seq<Step>, t: State)
    requires Tail.Reaches(s.tail, moves, tail) && TailProgress.UnaidedRun(moves)
    requires s.channel == [] && s.consumer == AtSelect && !s.readerStop
    ensures Reaches(s, steps, t) && NoWorld(steps)
    ensures t == s.(tail := tail, sender := t.sender) && S.OnlyTook(s.sender, t.sender)
    decreases |moves|
  {
    if moves == [] {
      steps, t := [], s;
    } else {
      var one, mid := OneMove(s, moves[0]);
      hide Reaches, Tail.Apply, Tail.Enabled;
      var rest;
      rest, t := ReaderThrough(mid, moves[1..], tail);
      steps := Join(s, one, mid, rest, t);
    }
  }

  lemma OneMove(s: State, move: Tail.Step) returns (steps: seq<Step>, t: State)
    requires Tail.Enabled(s.tail, move) && TailProgress.Unaided(move)
    requires s.channel == [] && s.consumer == AtSelect && !s.readerStop
    ensures Reaches(s, steps, t) && NoWorld(steps)
    ensures t == s.(tail := Tail.Apply(s.tail, move), sender := t.sender) && S.OnlyTook(s.sender, t.sender)
  {
    hide Tail.Apply;
    if move == Tail.Emit {
      hide Reaches;
      var s1 := Apply(s, Push);
      steps, t := EmptiesChannel(s1);
      steps := Then(s, Push, steps, t);
    } else {
      t := Apply(s, Reader(move));
      assert Reaches(t, [], t);
      steps := Then(s, Reader(move), [], t);
    }
  }

  // ----- Everything gets through -----

  /** Before the shutdown nothing has ended. */
  lemma AllAtWork(s: State)
    requires Inv(s) && Staged(s) && s.main == Running
    ensures s.consumer != Finished && !s.readerStop && s.tail.phase != Tail.Done
    ensures s.sender.loop == S.AtSelect || s.sender.loop == S.TickTaken
    ensures Tail.Inv(s.tail) && S.Inv(s.sender)
  {
  }

  /** The reader comes to the end of the file, the consumer empties the channel and a tick flushes. */
  lemma DispatchesAll(s: State) returns (steps: seq<Step>, t: State)
    requires Inv(s) && Staged(s) && s.main == Running && s.tail.path.Some?
    ensures s.tail.path.value < |s.tail.files|
    ensures Reaches(s, steps, t) && NoWorld(steps)
    ensures t.main == Running && t.tail.files == s.tail.files && t.tail.path == s.tail.path && t.Backlog() == []
    ensures t.outcomes == s.outcomes && t.received == s.received
    ensures t.tail.seenEnd == Some(Tail.Mark(s.tail.path.value, |s.tail.files[s.tail.path.value]|))
  {
    AllAtWork(s);
    hide Inv, Reaches, Staged, S.Inv, Tail.Inv;
    var one, s1 := EmptiesChannel(s);
    var moves, tail := TailProgress.ComesToTheEnd(s.tail);
    var two, s2 := ReaderThrough(s1, moves, tail);
    steps := Join(s, one, s1, two, s2);
    ReachesKeepsInv(s, steps, s2);
    SenderInv(s2);
    var acts, sender := S.CanFlush(s2.sender);
    var three := SenderAlone(s2, acts, sender);
    t := s2.(sender := sender);
    steps := Join(s, steps, s2, three, t);
  }

  lemma SenderInv(s: State)
    requires Inv(s)
    ensures S.Inv(s.sender)
  {
  }

  /** End to end, everything: in every state of every run on a growing file, until the shutdown begins and
      unless the file is away just then, the agent's own steps can dispatch every record written since it
      started, and have nothing left over. */
  lemma EverythingGetsThrough(s0: State, before: seq<Step>, s: State) returns (steps: seq<Step>, t: State)
    requires Init(s0) && Reaches(s0, before, s) && s.main == Running && s.tail.path.Some?
    requires forall i :: 0 <= i < |TailSteps(before)| ==> Tail.KeepsFile(TailSteps(before)[i], s0.tail.path.value)
    ensures Reaches(s, steps, t) && NoWorld(steps) && t.main == Running && t.Backlog() == []
    ensures t.outcomes == s.outcomes && t.received == s.received
    ensures var g, start := s0.tail.path.value, s0.tail.offset;
            && g < |s.tail.files| && start <= |s.tail.files[g]|
            && t.DispatchedLines() == Records(s.tail.files[g][start..])
  {
    ReachableIsStaged(s0, before, s);
    steps, t := DispatchesAll(s);
    var g := s0.tail.path.value;
    SamePath(s0, before, s);
    TailRun(s0, before, s);
    TailRun(s, steps, t);
    OwnStepsKeep(s, steps, t, g);
    Tail.ReachesAppend(s0.tail, TailSteps(before), s.tail, TailSteps(steps), t.tail);
    Tail.TailsExactlyOnce(s0.tail, TailSteps(before) + TailSteps(steps), t.tail);
    ReachesKeepsInv(s, steps, t);
    FlowAddsUp(t);
    Conserved(t);
    hide *;
    assert t.DispatchedLines() + [] == t.DispatchedLines();
  }

  lemma Conserved(t: State)
    requires Inv(t)
    ensures Tail.EpochRecords(t.tail.epochs) == t.tail.emitted + t.tail.Held()
  {
  }

  /** The path, when there is one, still names the file that was opened. */
  lemma SamePath(s0: State, before: seq<Step>, s: State)
    requires Init(s0) && Reaches(s0, before, s)
    requires forall i :: 0 <= i < |TailSteps(before)| ==> Tail.KeepsFile(TailSteps(before)[i], s0.tail.path.value)
    ensures s.tail.path.None? || s.tail.path == s0.tail.path
  {
    var g, start := s0.tail.path.value, s0.tail.offset;
    TailRun(s0, before, s);
    Tail.StartedInv(s0.tail);
    hide Reaches, Tail.Reaches;
    Tail.RunOnEpoch(s0.tail, TailSteps(before), s.tail, [], Tail.Epoch(g, start, None, ""));
  }

  lemma {:induction false} OwnStepsKeep(s: State, steps: seq<Step>, t: State, g: nat)
    requires Reaches(s, steps, t) && NoWorld(steps)
    ensures forall i :: 0 <= i < |TailSteps(steps)| ==> Tail.KeepsFile(TailSteps(steps)[i], g)
    decreases |steps|
  {
    if steps != [] {
      OwnStepsKeep(Apply(s, steps[0]), steps[1..], t, g);
    }
  }

  // ----- All the way to the server -----

  /** The delivery goroutines of the first `n` batches have finished. */
  predicate Settled(s: State, n: nat) {
    forall i :: 0 <= i < n ==> i in s.outcomes
  }

  /** Every batch still on its way can be delivered. */
  lemma DeliversRest(s: State, n: nat) returns (steps: seq<Step>, t: State)
    requires Settled(s, n) && n <= |s.sender.outbox.dispatched|
    ensures Reaches(s, steps, t) && NoWorld(steps) && Settled(t, |t.sender.outbox.dispatched|)
    ensures t == s.(outcomes := t.outcomes, received := t.received)
    ensures forall i :: i in t.outcomes && t.outcomes[i] == Dropped ==> i in s.outcomes && s.outcomes[i] == Dropped
    decreases |s.sender.outbox.dispatched| - n
  {
    if n == |s.sender.outbox.dispatched| {
      steps, t := [], s;
    } else if n in s.outcomes {
      steps, t := DeliversRest(s, n + 1);
    } else {
      hide Reaches;
      steps, t := DeliversRest(Apply(s, Deliver(n, true)), n + 1);
      steps := Then(s, Deliver(n, true), steps, t);
    }
  }

  /** Batches without a given outcome add no lines to it. */
  lemma {:induction false} NoLinesWith(batches: seq<Batch>, outcomes: map<nat, Outcome>, o: Option<Outcome>)
    requires forall i :: 0 <= i < |batches| ==> OutcomeOf(outcomes, i) != o
    ensures LinesWith(batches, outcomes, o) == multiset{}
    decreases |batches|
  {
    if batches != [] {
      NoLinesWith(batches[..|batches| - 1], outcomes, o);
    }
  }

  /** Exactly once, all the way: if no delivery has failed so far, the agent's own steps and successful deliveries
      can bring every record written since the start to the server, each exactly as often as it is in the file. */
  lemma EverythingArrives(s0: State, before: seq<Step>, s: State) returns (steps: seq<Step>, t: State)
    requires Init(s0) && Reaches(s0, before, s) && s.main == Running && s.tail.path.Some?
    requires forall i :: 0 <= i < |TailSteps(before)| ==> Tail.KeepsFile(TailSteps(before)[i], s0.tail.path.value)
    requires forall i :: i in s.outcomes ==> s.outcomes[i] == Delivered
    ensures Reaches(s, steps, t) && NoWorld(steps) && t.main == Running
    ensures var g, start := s0.tail.path.value, s0.tail.offset;
            && g < |s.tail.files| && start <= |s.tail.files[g]|
            && multiset(Flatten(t.received)) == multiset(Records(s.tail.files[g][start..]))
  {
    ReachableIsStaged(s0, before, s);
    hide *;
    var one, mid := EverythingGetsThrough(s0, before, s);
    ReachesKeepsInv(s, one, mid);
    var two;
    two, t := RestArrives(mid);
    steps := Join(s, one, mid, two, t);
  }

  lemma RestArrives(s: State) returns (steps: seq<Step>, t: State)
    requires Inv(s) && forall i :: i in s.outcomes ==> s.outcomes[i] == Delivered
    ensures Reaches(s, steps, t) && NoWorld(steps) && t.main == s.main
    ensures multiset(Flatten(t.received)) == multiset(s.DispatchedLines())
  {
    hide Inv, Reaches, Flatten, LinesWith, BatchLines;
    steps, t := DeliversRest(s, 0);
    ReachesKeepsInv(s, steps, t);
    AllReceived(t);
  }

  lemma AllReceived(t: State)
    requires Inv(t) && Settled(t, |t.sender.outbox.dispatched|)
    requires forall i :: i in t.outcomes ==> t.outcomes[i] == Delivered
    ensures multiset(Flatten(t.received)) == multiset(t.DispatchedLines())
  {
    var batches := t.sender.outbox.dispatched;
    OutcomesPartition(batches, t.outcomes);
    NoLinesWith(batches, t.outcomes, None);
    NoLinesWith(batches, t.outcomes, Some(Dropped));
  }
}
