/** Runs that bring the pipeline to its limits: a full channel, a batch one short of full, a line in every
    goroutine's hands.
 */
module WorstCases {
  import opened Lines
  import opened Batching
  import opened Pipeline
  import Tail
  import S = SenderProtocol

  /** The reader has read the whole file and has not been told to stop. */
  predicate CaughtUp(s: State) {
    TailCaughtUp(s.tail) && s.tail.handle.Some? && !s.readerStop
  }

  lemma Extend(s: State, steps: seq<Step>, t: State, step: Step) returns (steps': seq<Step>, t': State)
    requires Reaches(s, steps, t) && Enabled(t, step)
    ensures t' == Apply(t, step) && Reaches(s, steps', t')
    decreases |steps|
  {
    steps', t' := steps + [step], Apply(t, step);
    if steps == [] {
      assert Reaches(t', steps'[1..], t');
    } else {
      var rest, _ := Extend(Apply(s, steps[0]), steps[1..], t, step);
      steps' := [steps[0]] + rest;
      assert steps'[1..] == rest;
    }
  }

  predicate TailCaughtUp(s: Tail.State) {
    && s.handle.Some? && s.phase == Tail.AtSelect && s.epochs != []
    && var h := s.handle.value;
    && h.gen < |s.files| && h.pos == |s.files[h.gen]| && h.buf == ""
  }

  /** The reader with a whole line in its buffer takes it. */
  lemma TakesLine(s: Tail.State)
    requires s.phase == Tail.Reading && s.handle.Some? && s.epochs != [] && s.handle.value.buf == "x\n"
    requires var h := s.handle.value; h.gen < |s.files| && h.pos == |s.files[h.gen]|
    ensures Tail.Enabled(s, Tail.TakeLine)
    ensures var t := Tail.Apply(s, Tail.TakeLine);
            t.phase == Tail.Holding("x") && TailCaughtUp(t.(phase := Tail.AtSelect))
  {
    FirstNewlineUnique("x\n", 1);
    assert "x\n"[..1] == "x" && "x\n"[2..] == "";
  }

  /** A line appended to a file that was read to its end is read whole. */
  lemma BuffersLine(s: Tail.State)
    requires TailCaughtUp(s)
    ensures var g := s.handle.value.gen;
            && Tail.Enabled(s, Tail.Append(g, "x\n"))
            && var s1 := Tail.Apply(s, Tail.Append(g, "x\n"));
            && Tail.Enabled(s1, Tail.BeginRead)
            && var s2 := Tail.Apply(s1, Tail.BeginRead);
            && Tail.Enabled(s2, Tail.Fill(2))
            && var s3 := Tail.Apply(s2, Tail.Fill(2));
            && s3.phase == Tail.Reading && s3.epochs != [] && s3.handle.Some? && s3.handle.value.buf == "x\n"
            && s3.handle.value.gen < |s3.files| && s3.handle.value.pos == |s3.files[s3.handle.value.gen]|
  {
    var h := s.handle.value;
    var content := s.files[h.gen] + "x\n";
    assert content[h.pos..h.pos + 2] == "x\n";
  }

  /** One line is appended and read: the reader holds it. */
  lemma ReadOneLine(s0: State, before: seq<Step>, s: State) returns (steps: seq<Step>, t: State)
    requires Reaches(s0, before, s) && CaughtUp(s)
    ensures Reaches(s0, steps, t) && t.tail.phase == Tail.Holding("x")
    ensures t == s.(tail := t.tail) && TailCaughtUp(t.tail.(phase := Tail.AtSelect))
  {
    hide Reaches, Tail.Enabled, Tail.Apply, TailCaughtUp;
    var g := s.tail.handle.value.gen;
    BuffersLine(s.tail);
    steps, t := Extend(s0, before, s, World(Tail.Append(g, "x\n")));
    steps, t := Extend(s0, steps, t, Reader(Tail.BeginRead));
    steps, t := Extend(s0, steps, t, Reader(Tail.Fill(2)));
    TakesLine(t.tail);
    steps, t := Extend(s0, steps, t, Reader(Tail.TakeLine));
  }

  lemma FillChannel(s0: State, before: seq<Step>, s: State, k: nat) returns (steps: seq<Step>, t: State)
    requires Reaches(s0, before, s) && CaughtUp(s) && |s.channel| <= k <= CAPACITY
    ensures Reaches(s0, steps, t) && CaughtUp(t) && |t.channel| == k
    ensures t == s.(tail := t.tail, channel := t.channel)
    decreases k - |s.channel|
  {
    hide Reaches;
    steps, t := before, s;
    if |s.channel| < k {
      steps, t := ReadOneLine(s0, before, s);
      steps, t := Extend(s0, steps, t, Push);
      steps, t := FillChannel(s0, steps, t, k);
    }
  }

  /** The sender's loop takes the signal and ends. */
  lemma SenderLoopEnds(s0: State, before: seq<Step>, s: State) returns (steps: seq<Step>, t: State)
    requires Reaches(s0, before, s) && s.sender.loop == S.AtSelect && s.sender.stopCloses > 0
    ensures Reaches(s0, steps, t) && t == s.(sender := t.sender)
    ensures t.sender.loop == S.Exited && t.sender.stops == s.sender.stops && t.sender.stoppedCloses > 0
    ensures t.sender.outbox == Flushed(s.sender.outbox, false)
  {
    hide Reaches, Flushed;
    steps, t := Extend(s0, before, s, Sender(S.TakeStop));
    steps, t := Extend(s0, steps, t, Sender(S.FinalFlush));
    steps, t := Extend(s0, steps, t, Sender(S.CloseStopped));
  }

  /** Main's call of `Stop` closes `stopCh`. */
  lemma SenderToldToStop(s0: State, before: seq<Step>, s: State) returns (steps: seq<Step>, t: State)
    requires Reaches(s0, before, s) && s.order == SenderFirst && s.main == Stopping(0, false)
    requires S.Init(s.sender)
    ensures Reaches(s0, steps, t) && t == s.(sender := t.sender, main := Stopping(0, true))
    ensures t.sender.loop == S.AtSelect && t.sender.stopCloses > 0 && t.sender.stops == map[MAIN := S.AwaitingLoop]
    ensures t.sender.outbox == s.sender.outbox
  {
    hide Reaches, Flushed, Sent;
    steps, t := Extend(s0, before, s, MainMove);
    steps, t := Extend(s0, steps, t, Sender(S.LockStop(MAIN)));
  }

  /** The sender is stopped while the reader still holds its line. */
  lemma SenderStopped(s0: State, before: seq<Step>, s: State) returns (steps: seq<Step>, t: State)
    requires Reaches(s0, before, s) && s.order == SenderFirst && s.main == Stopping(0, false)
    requires S.Init(s.sender)
    ensures Reaches(s0, steps, t) && t == s.(sender := t.sender, main := Stopping(1, false))
    ensures t.sender.outbox == Flushed(s.sender.outbox, false)
  {
    hide Reaches, Flushed, Sent;
    steps, t := SenderToldToStop(s0, before, s);
    steps, t := SenderLoopEnds(s0, steps, t);
    steps, t := Extend(s0, steps, t, Sender(S.ReturnStop(MAIN)));
    steps, t := Extend(s0, steps, t, MainMove);
  }

  // ----- The backlog bounds are attained -----

  /** One line is read and handed to the sender. */
  lemma PassOn(s0: State, before: seq<Step>, s: State) returns (steps: seq<Step>, t: State)
    requires Reaches(s0, before, s) && CaughtUp(s) && s.consumer == AtSelect && s.channel == []
    ensures Reaches(s0, steps, t) && CaughtUp(t) && t == s.(tail := t.tail, sender := t.sender)
    ensures t.sender.outbox == Sent(s.sender.outbox, "x")
  {
    hide Reaches, Sent, Tail.Apply, Tail.Enabled, TailCaughtUp;
    steps, t := ReadOneLine(s0, before, s);
    steps, t := PushOne(s0, steps, t);
    steps, t := Extend(s0, steps, t, Receive);
    steps, t := Extend(s0, steps, t, HandOver);
  }

  lemma PushOne(s0: State, before: seq<Step>, s: State) returns (steps: seq<Step>, t: State)
    requires Reaches(s0, before, s) && s.tail.phase == Tail.Holding("x") && |s.channel| < CAPACITY && !s.readerStop
    requires TailCaughtUp(s.tail.(phase := Tail.AtSelect))
    ensures Reaches(s0, steps, t) && CaughtUp(t) && t == s.(tail := t.tail, channel := s.channel + ["x"])
  {
    hide Reaches;
    steps, t := Extend(s0, before, s, Push);
  }

  lemma FillBatch(s0: State, before: seq<Step>, s: State, k: nat) returns (steps: seq<Step>, t: State)
    requires Reaches(s0, before, s) && CaughtUp(s) && s.consumer == AtSelect && s.channel == []
    requires |s.sender.outbox.batch| <= k < s.sender.outbox.limit
    ensures Reaches(s0, steps, t) && CaughtUp(t) && t == s.(tail := t.tail, sender := t.sender)
    ensures |t.sender.outbox.batch| == k
    decreases k - |s.sender.outbox.batch|
  {
    hide Reaches, CaughtUp;
    steps, t := before, s;
    if |s.sender.outbox.batch| < k {
      steps, t := PassOn(s0, before, s);
      steps, t := FillBatch(s0, steps, t, k);
    }
  }

  /** Full backlog: from every start, some run has a line in the reader's hands, a full channel, a line in the
      consumer's hands and a batch one short of full. */
  lemma BacklogAttained(s0: State) returns (steps: seq<Step>, t: State)
    requires Init(s0)
    ensures Reaches(s0, steps, t) && |t.Backlog()| == 1000 + (s0.sender.outbox.limit - 1) + 2
  {
    assert CaughtUp(s0) && Reaches(s0, [], s0);
    hide Reaches, Tail.Started, TailCaughtUp;
    steps, t := FillBatch(s0, [], s0, s0.sender.outbox.limit - 1);
    steps, t := ReadOneLine(s0, steps, t);
    steps, t := PushOne(s0, steps, t);
    steps, t := Extend(s0, steps, t, Receive);
    hide CaughtUp;
    steps, t := FillChannel(s0, steps, t, CAPACITY);
    steps, t := ReadOneLine(s0, steps, t);
  }

  /** And from every start, in either stop order, some run ends with reader and consumer finished, a full
      channel and a batch one short of full. */
  lemma FinishedBacklogAttained(s0: State) returns (steps: seq<Step>, t: State)
    requires Init(s0)
    ensures Reaches(s0, steps, t) && t.consumer == Finished && t.tail.phase == Tail.Done
    ensures |t.Backlog()| == 1000 + (s0.sender.outbox.limit - 1)
  {
    assert CaughtUp(s0) && Reaches(s0, [], s0);
    hide Reaches, Tail.Started, CaughtUp, TailCaughtUp;
    steps, t := Extend(s0, [], s0, Signal);
    if s0.order == SenderFirst {
      steps, t := SenderStopped(s0, steps, t);
    }
    SameCaughtUp(s0, t);
    steps, t := FillBatch(s0, steps, t, s0.sender.outbox.limit - 1);
    steps, t := FillChannel(s0, steps, t, CAPACITY);
    steps, t := BothFinish(s0, steps, t);
  }

  lemma SameCaughtUp(s: State, t: State)
    requires CaughtUp(s) && t.tail == s.tail && t.readerStop == s.readerStop
    ensures CaughtUp(t)
  {
  }

  lemma BothFinish(s0: State, before: seq<Step>, s: State) returns (steps: seq<Step>, t: State)
    requires Reaches(s0, before, s) && CaughtUp(s) && s.consumer == AtSelect && s.cancelled
    requires s.main == Stopping(if s.order == ReaderFirst then 0 else 1, false)
    ensures Reaches(s0, steps, t) && t.consumer == Finished && t.tail.phase == Tail.Done
    ensures t.channel == s.channel && t.sender == s.sender
  {
    hide Reaches;
    steps, t := Extend(s0, before, s, ConsumerExit);
    steps, t := Extend(s0, steps, t, MainMove);
    steps, t := Extend(s0, steps, t, Reader(Tail.Quit));
  }
}
