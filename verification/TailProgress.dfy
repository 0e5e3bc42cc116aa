/** What the tailer can do by itself: whenever the file is there, its own steps bring it to the end of it. */
module TailProgress {
  import opened Lines
  import opened Tail

  /** Steps of the reader alone, none of them a failure. */
  predicate Unaided(step: Step) {
    IsReaderStep(step) && step != Quit && step != ReadError && (step.Reopen? ==> step.fault == NoFault)
  }

  predicate UnaidedRun(steps: seq<Step>) {
    forall i :: 0 <= i < |steps| ==> Unaided(steps[i])
  }

  lemma Then(s: State, step: Step, steps: seq<Step>, t: State) returns (all: seq<Step>)
    requires Enabled(s, step) && Unaided(step) && Reaches(Apply(s, step), steps, t) && UnaidedRun(steps)
    ensures Reaches(s, all, t) && UnaidedRun(all)
  {
    all := [step] + steps;
    ReachesCons(s, step, steps, t);
  }

  function Gained(line: string): seq<string> {
    if line == "" then [] else [line]
  }

  /** With a newline in the buffer the line is taken and sent, and the next read begins. */
  lemma SendsOne(s: State) returns (steps: seq<Step>, t: State)
    requires s.phase == Reading && s.handle.Some? && s.epochs != [] && '\n' in s.handle.value.buf
    ensures Reaches(s, steps, t) && UnaidedRun(steps)
    ensures var h, i := s.handle.value, FirstNewline(s.handle.value.buf);
            && t.phase == Reading && t.epochs != [] && t.files == s.files && t.path == s.path
            && t.handle == Some(h.(buf := h.buf[i + 1..])) && t.emitted == s.emitted + Gained(h.buf[..i])
  {
    hide FirstNewline, Reaches;
    var s1 := Apply(s, TakeLine);
    assert s1.emitted + s1.Held() == s.emitted + Gained(s.handle.value.buf[..FirstNewline(s.handle.value.buf)]);
    steps, t := NextRead(s1);
    steps := Then(s, TakeLine, steps, t);
  }

  /** The line at hand, if any, is sent and the next read begins. */
  lemma NextRead(s: State) returns (steps: seq<Step>, t: State)
    requires s.phase == AtSelect || s.phase.Holding?
    ensures Reaches(s, steps, t) && UnaidedRun(steps)
    ensures t == s.(phase := Reading, emitted := s.emitted + s.Held())
  {
    if s.phase == AtSelect {
      t := Apply(s, BeginRead);
      ReachesOne(s, BeginRead);
      steps := [BeginRead];
      assert s.emitted + [] == s.emitted;
    } else {
      var s1 := Apply(s, Emit);
      t := Apply(s1, BeginRead);
      ReachesOne(s1, BeginRead);
      hide Reaches;
      steps := Then(s, Emit, [BeginRead], t);
    }
  }

  function BytesLeft(h: Handle, content: string): nat {
    if h.pos <= |content| then |content| - h.pos else 0
  }

  /** A read that has begun can go on to the end of the open file, sending every record on the way. */
  lemma ReadsToTheEnd(s: State) returns (steps: seq<Step>, t: State)
    requires s.phase == Reading && s.handle.Some? && s.handle.value.gen < |s.files| && s.epochs != []
    ensures Reaches(s, steps, t) && UnaidedRun(steps)
    ensures var h := s.handle.value;
            && t.phase == Waiting && t.epochs != [] && t.files == s.files && t.path == s.path
            && t.emitted == s.emitted + Records(Rest(h, s.files[h.gen]))
            && t.seenEnd == Some(Mark(h.gen, |s.files[h.gen]|))
    decreases |Rest(s.handle.value, s.files[s.handle.value.gen])|,
              BytesLeft(s.handle.value, s.files[s.handle.value.gen])
  {
    hide Reaches, Rest, Records, Apply, Enabled;
    var h := s.handle.value;
    var content := s.files[h.gen];
    if '\n' in h.buf {
      LineFirst(h, content, FirstNewline(h.buf));
      var one, mid := SendsOne(s);
      var rest, end := ReadsToTheEnd(mid);
      steps, t := one + rest, end;
      ReachesAppend(s, one, mid, rest, end);
    } else if |content| <= h.pos {
      t := MeetsEnd(s);
      steps := [EndOfFile];
    } else {
      var k := |content| - h.pos;
      var mid := FillsAll(s, k);
      steps, t := ReadsToTheEnd(mid);
      steps := Then(s, Fill(k), steps, t);
    }
  }

  lemma MeetsEnd(s: State) returns (t: State)
    requires s.phase == Reading && s.handle.Some? && s.handle.value.gen < |s.files|
    requires var h := s.handle.value; '\n' !in h.buf && |s.files[h.gen]| <= h.pos
    ensures Reaches(s, [EndOfFile], t) && Records(Rest(s.handle.value, s.files[s.handle.value.gen])) == []
    ensures t == s.(phase := Waiting, seenEnd := Some(Mark(s.handle.value.gen, |s.files[s.handle.value.gen]|)))
  {
    t := Apply(s, EndOfFile);
    ReachesOne(s, EndOfFile);
    var h := s.handle.value;
    assert Rest(h, s.files[h.gen]) == h.buf;
    Unterminated(h.buf);
  }

  lemma FillsAll(s: State, k: nat) returns (t: State)
    requires s.phase == Reading && s.handle.Some? && s.handle.value.gen < |s.files| && 0 < k
    requires var h := s.handle.value; '\n' !in h.buf && h.pos + k == |s.files[h.gen]|
    ensures Enabled(s, Fill(k)) && t == Apply(s, Fill(k)) == s.(handle := t.handle) && t.handle.Some?
    ensures var h, h', c := s.handle.value, t.handle.value, s.files[s.handle.value.gen];
            h'.gen == h.gen && Rest(h', c) == Rest(h, c) && BytesLeft(h', c) == 0 && h'.pos == |c|
  {
    var h := s.handle.value;
    t := Apply(s, Fill(k));
    RestAfterFill(h, s.files[h.gen], k);
    hide Rest;
  }

  lemma RestAfterFill(h: Handle, content: string, k: nat)
    requires h.pos + k <= |content|
    ensures Rest(h.(pos := h.pos + k, buf := h.buf + content[h.pos..h.pos + k]), content) == Rest(h, content)
  {
    assert content[h.pos..] == content[h.pos..h.pos + k] + content[h.pos + k..];
  }

  lemma LineFirst(h: Handle, content: string, i: nat)
    requires '\n' in h.buf && i == FirstNewline(h.buf)
    ensures var rest := Rest(h.(buf := h.buf[i + 1..]), content);
            |rest| < |Rest(h, content)| && Records(Rest(h, content)) == Gained(h.buf[..i]) + Records(rest)
  {
    hide Records;
    var rest := Rest(h.(buf := h.buf[i + 1..]), content);
    CutAt(h.buf, i);
    assert Rest(h, content) == h.buf[..i] + "\n" + rest;
    RecordsCons(h.buf[..i], rest);
  }

  /** Progress: a reader about to reopen a file that is there can, by its own steps, send every record of it
      that lies after the saved offset, or all of them if the file is shorter than that. */
  lemma CatchesUp(s: State) returns (steps: seq<Step>, t: State)
    requires Inv(s) && s.phase == Waiting && s.path.Some?
    ensures s.path.value < |s.files|
    ensures Reaches(s, steps, t) && UnaidedRun(steps)
    ensures var content := s.files[s.path.value];
            var from := if |content| < s.offset then 0 else s.offset;
            && t.emitted == s.emitted + Records(content[from..])
            && t.phase == Waiting && t.files == s.files && t.path == s.path
            && t.seenEnd == Some(Mark(s.path.value, |content|))
  {
    hide Faithful;
    var s1 := Apply(s, Reopen(NoFault));
    var s2 := Apply(s1, BeginRead);
    var content := s.files[s.path.value];
    assert s2.handle == Some(Handle(s.path.value, s2.offset, ""));
    assert Rest(s2.handle.value, content) == content[s2.offset..];
    hide Reaches, Inv, Conserved, Records, Rest;
    steps, t := ReadsToTheEnd(s2);
    steps := Then(s1, BeginRead, steps, t);
    steps := Then(s, Reopen(NoFault), steps, t);
  }

  /** From wherever it is, a reader that has not ended can come to wait at the end of the file. */
  lemma ComesToTheEnd(s: State) returns (steps: seq<Step>, t: State)
    requires Inv(s) && s.phase != Done && s.path.Some?
    ensures s.path.value < |s.files|
    ensures Reaches(s, steps, t) && UnaidedRun(steps)
    ensures t.phase == Waiting && t.files == s.files && t.path == s.path
    ensures t.seenEnd == Some(Mark(s.path.value, |s.files[s.path.value]|))
  {
    var one, mid := ComesToWait(s);
    ReachesKeepsInv(s, one, mid);
    hide *;
    var rest, end := CatchesUp(mid);
    ReachesAppend(s, one, mid, rest, end);
    steps, t := one + rest, end;
  }

  lemma ComesToWait(s: State) returns (steps: seq<Step>, t: State)
    requires Inv(s) && s.phase != Done
    ensures Reaches(s, steps, t) && UnaidedRun(steps)
    ensures t.phase == Waiting && t.files == s.files && t.path == s.path
    decreases match s.phase { case Holding(_) => 3 case AtSelect => 2 case Reading => 1 case _ => 0 }
  {
    match s.phase {
      case Waiting =>
        steps, t := [], s;
      case Reading =>
        if s.handle.None? {
          t := Apply(s, FileClosed);
          ReachesOne(s, FileClosed);
          steps := [FileClosed];
        } else {
          hide Reaches, Records;
          steps, t := ReadsToTheEnd(s);
        }
      case AtSelect =>
        StepKeepsInv(s, BeginRead);
        hide Reaches, Inv;
        steps, t := ComesToWait(Apply(s, BeginRead));
        steps := Then(s, BeginRead, steps, t);
      case Holding(_) =>
        StepKeepsInv(s, Emit);
        hide Reaches, Inv;
        steps, t := ComesToWait(Apply(s, Emit));
        steps := Then(s, Emit, steps, t);
    }
  }

  /** A file that is removed and comes back: the reader finds nothing to open and keeps its place; once there is
      a file again it can send what lies after that place, or all of it if it is shorter. */
  lemma RemovedAndBack(s: State, content: string) returns (gone: State, back: State, steps: seq<Step>, t: State)
    requires Inv(s) && s.phase == Waiting
    ensures Reaches(s, [Remove, Reopen(NoFault)], gone)
    ensures gone.path.None? && gone.handle.None? && gone.offset == s.offset && gone.emitted == s.emitted
    ensures Reaches(gone, [BeginRead, FileClosed, Create(content)], back) && back.path == Some(|s.files|)
    ensures Reaches(back, steps, t) && UnaidedRun(steps)
    ensures t.emitted == s.emitted + Records(content[if |content| < s.offset then 0 else s.offset..])
  {
    gone := Removed(s);
    back := Back(gone, content);
    ReachesKeepsInv(s, [Remove, Reopen(NoFault)], gone);
    ReachesKeepsInv(gone, [BeginRead, FileClosed, Create(content)], back);
    hide *;
    steps, t := CatchesUp(back);
  }

  lemma Removed(s: State) returns (gone: State)
    requires s.phase == Waiting && s.epochs != []
    ensures Reaches(s, [Remove, Reopen(NoFault)], gone)
    ensures gone == s.(path := None, handle := None, phase := AtSelect)
  {
    var s1 := Apply(s, Remove);
    gone := Apply(s1, Reopen(NoFault));
    ReachesOne(s1, Reopen(NoFault));
    ReachesCons(s, Remove, [Reopen(NoFault)], gone);
  }

  lemma Back(s: State, content: string) returns (back: State)
    requires s.phase == AtSelect && s.handle.None?
    ensures Reaches(s, [BeginRead, FileClosed, Create(content)], back)
    ensures back == s.(files := s.files + [content], path := Some(|s.files|), phase := Waiting)
  {
    var s1 := Apply(s, BeginRead);
    var s2 := Apply(s1, FileClosed);
    back := Apply(s2, Create(content));
    ReachesOne(s2, Create(content));
    hide Reaches;
    ReachesCons(s1, FileClosed, [Create(content)], back);
    ReachesCons(s, BeginRead, [FileClosed, Create(content)], back);
  }
}
