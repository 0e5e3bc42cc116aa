/** What the tailer makes of files that are truncated under it, replaced, or away for a while: exactly when
    nothing is lost.
 */
module Rotation {
  import opened Lines
  import opened Tail

  // ----- A file truncated under the reader -----

  /** From the truncation until the file is reopened or truncated again, the reader sends the records of what
      it had in its buffer followed by what the truncated file holds from the old read position on. */
  lemma TruncatedReadsOn(s: State, size: nat, steps: seq<Step>, v: State)
    requires Inv(s) && Enabled(s, Truncate(size)) && Tears(s)
    requires Reaches(AfterTruncate(s, size), steps, v)
    requires forall i :: 0 <= i < |steps| ==> !steps[i].Reopen? && !steps[i].Truncate?
    ensures var g, h := |s.files|, s.handle.value;
            && g < |v.files| && s.offset <= v.offset && v.offset - s.offset <= |Rest(h, v.files[g])|
            && v.emitted + v.Held() == s.emitted + s.Held() + Records(Rest(h, v.files[g])[..v.offset - s.offset])
  {
    hide Inv, Reaches, AfterTruncate, OnEpoch, Records, Enabled;
    var t := AfterTruncate(s, size);
    var begun := TearBegins(s, size);
    ReadsOn(t, steps, v, s.epochs, begun);
    assert Source(v.files, begun) == Rest(s.handle.value, v.files[|s.files|]);
  }

  lemma TearBegins(s: State, size: nat) returns (begun: Epoch)
    requires Inv(s) && Enabled(s, Truncate(size)) && Tears(s)
    ensures var t := AfterTruncate(s, size);
            && OnEpoch(t, s.epochs, begun) && begun.carried.Some?
            && t.offset == s.offset == begun.start && t.emitted + t.Held() == s.emitted + s.Held()
    ensures begun.Opened() == s.handle.value.(gen := |s.files|)
  {
    StepKeepsInv(s, Truncate(size));
    OffsetIsEnd(s);
    Position(s.files, s.Now(), s.handle.value);
    hide Inv, Placed;
    var t := AfterTruncate(s, size);
    begun := t.Now();
    assert t.epochs[..|s.epochs|] == s.epochs;
  }

  /** A successful `reopen`, after whatever came before: while the file only grows, what is added is the
      records of its bytes from 0 on if it was shorter than the offset, and from the offset on otherwise. */
  lemma ReopenedReadsOn(s: State, fault: ReopenFault, steps: seq<Step>, u: State)
    requires Inv(s) && Enabled(s, Reopen(fault)) && AfterReopen(s, fault).handle.Some?
    requires Reaches(AfterReopen(s, fault), steps, u)
    requires forall i :: 0 <= i < |steps| ==> KeepsFile(steps[i], s.path.value)
    ensures var g := s.path.value;
            var from := if |s.files[g]| < s.offset then 0 else s.offset;
            && g < |u.files| && from <= u.offset <= |u.files[g]|
            && u.emitted + u.Held() == s.emitted + Records(u.files[g][from..u.offset])
  {
    var t, g := AfterReopen(s, fault), s.path.value;
    StepKeepsInv(s, Reopen(fault));
    ReopenEffect(s, fault);
    var past := t.epochs[..|t.epochs| - 1];
    assert t.Now().gen == g && OnEpoch(t, past, t.Now());
    ReadsOnFile(t, steps, u, past, t.Now());
    assert t.emitted + t.Held() == s.emitted;
  }

  /** A truncated file is read in full, from byte 0 and with nothing else in between, exactly when what the
      reader sent before it reopened the file stands in for the records before the place it then read from:
      for a file shorter than the offset by then, exactly when that was nothing. */
  lemma TruncatedReadInFull(
    s: State, size: nat, steps: seq<Step>, v: State, fault: ReopenFault, more: seq<Step>, u: State)
    requires Inv(s) && Enabled(s, Truncate(size)) && Tears(s)
    requires Reaches(AfterTruncate(s, size), steps, v) && v.path == Some(|s.files|)
    requires forall i :: 0 <= i < |steps| ==> !steps[i].Reopen? && !steps[i].Truncate?
    requires Enabled(v, Reopen(fault)) && AfterReopen(v, fault).handle.Some?
    requires Reaches(AfterReopen(v, fault), more, u)
    requires forall i :: 0 <= i < |more| ==> KeepsFile(more[i], |s.files|)
    ensures var g, h := |s.files|, s.handle.value;
            && g < |v.files| && g < |u.files|
            && s.offset <= v.offset && v.offset - s.offset <= |Rest(h, v.files[g])|
            && var between := Records(Rest(h, v.files[g])[..v.offset - s.offset]);
            var c, from := u.files[g], if |v.files[g]| < v.offset then 0 else v.offset;
            && from <= u.offset <= |c|
            && u.emitted + u.Held() == s.emitted + s.Held() + (between + Records(c[from..u.offset]))
            && (u.emitted + u.Held() == s.emitted + s.Held() + Records(c[..u.offset]) <==>
                  Replaces(between, c[..from], c[from..u.offset]))
            && (|v.files[g]| < v.offset ==> (Replaces(between, c[..from], c[from..u.offset]) <==> between == []))
  {
    assert Apply(s, Truncate(size)) == AfterTruncate(s, size) && v.phase == Waiting;
    hide Inv, Reaches, AfterTruncate, AfterReopen, Apply, Enabled, Records, Rest, Tears, KeepsFile;
    StepKeepsInv(s, Truncate(size));
    ReachesKeepsInv(AfterTruncate(s, size), steps, v);
    TruncatedReadsOn(s, size, steps, v);
    ReopenedReadsOn(v, fault, more, u);
    NothingHeld(v);
    hide *;
    var g := |s.files|;
    var between := Records(Rest(s.handle.value, v.files[g])[..v.offset - s.offset]);
    BetweenIff(s.emitted + s.Held(), between, u.files[g], if |v.files[g]| < v.offset then 0 else v.offset, u.offset);
  }

  lemma BetweenIff(before: seq<string>, between: seq<string>, c: string, from: nat, end: nat)
    requires from <= end <= |c|
    ensures (before + between) + Records(c[from..end]) == before + (between + Records(c[from..end]))
    ensures before + between + Records(c[from..end]) == before + Records(c[..end]) <==>
            Replaces(between, c[..from], c[from..end])
    ensures from == 0 ==> (Replaces(between, c[..from], c[from..end]) <==> between == [])
  {
    hide Records, Remainder;
    assert (before + between) + Records(c[from..end]) == before + (between + Records(c[from..end]));
    assert c[..end] == c[..from] + c[from..end];
    ReplacedPrefix(between, c[..from], c[from..end]);
    SameSuffix(before, between + Records(c[from..end]), Records(c[..end]));
    NoRecords();
    assert from == 0 ==> c[..from] == "";
  }

  // ----- Rotation -----

  /** Whether this `reopen` starts reading another file, or the same one from another place. */
  predicate Switches(s: State, fault: ReopenFault)
    requires Enabled(s, Reopen(fault))
  {
    |AfterReopen(s, fault).epochs| > |s.epochs|
  }

  /** Nothing complete is left unread in the file about to be given up; one truncated under the reader was
      given up already. */
  predicate EndSeen(s: State)
    requires s.epochs != []
  {
    var e := s.Now();
    e.carried.Some? || (e.gen < |s.files| && s.seenEnd == Some(Mark(e.gen, |s.files[e.gen]|)))
  }

  /** A rotation the reader can follow: nothing is appended to a file once it was given up; when the reader
      moves to a replacement, or its file is truncated, the old content has not grown since the reader met
      its end; a replacement is shorter than the saved offset; and from a file truncated under the reader no
      line is taken until it is reopened. */
  predicate Orderly(s: State, step: Step)
    requires Enabled(s, step) && s.epochs != []
  {
    match step
    case Append(g, _) => forall i :: 0 <= i < |s.epochs| - 1 && s.epochs[i].carried.None? ==> s.epochs[i].gen != g
    case Truncate(_) => Tears(s) ==> EndSeen(s)
    case TakeLine => s.Now().carried.None?
    case Reopen(fault) =>
      Switches(s, fault) ==>
        s.path.Some? && (|s.files[s.path.value]| < s.offset || s.offset == 0) && EndSeen(s)
    case _ => true
  }

  ghost predicate OrderlyRun(s: State, steps: seq<Step>)
    decreases |steps|
  {
    steps != [] ==>
      && s.epochs != [] && Enabled(s, steps[0]) && Orderly(s, steps[0])
      && OrderlyRun(Apply(s, steps[0]), steps[1..])
  }

  /** Every file given up was read to the end of its last line; every replacement from byte 0; and a file
      truncated under the reader not before it was reopened. */
  ghost predicate Rotated(s: State) {
    && Inv(s)
    && (forall i :: 0 < i < |s.epochs| ==> FromTheTop(s.epochs[i]))
    && (forall i :: 0 <= i < |s.epochs| - 1 ==> Finished(s.files, s.epochs[i]))
  }

  predicate FromTheTop(e: Epoch) {
    if e.carried.None? then e.start == 0 else e.text == ""
  }

  predicate Finished(files: seq<string>, e: Epoch) {
    e.carried.None? ==> AllRead(files, e)
  }

  lemma LastFinished(s: State)
    requires Rotated(s) && EndSeen(s)
    ensures forall i :: 0 <= i < |s.epochs| ==> Finished(s.files, s.epochs[i])
  {
    hide Conserved, Placed, InFile, AllRead;
    assert Finished(s.files, s.Now());
  }

  /** A new epoch begins once the one before it is finished. */
  lemma NextRotated(s: State, t: State)
    requires |s.files| <= |t.files| && t.files[..|s.files|] == s.files
    requires |t.epochs| == |s.epochs| + 1 && t.epochs[..|s.epochs|] == s.epochs
    requires forall i :: 0 < i < |s.epochs| ==> FromTheTop(s.epochs[i])
    requires forall i :: 0 <= i < |s.epochs| ==> Finished(s.files, s.epochs[i])
    requires FromTheTop(t.Now())
    ensures forall i :: 0 < i < |t.epochs| ==> FromTheTop(t.epochs[i])
    ensures forall i :: 0 <= i < |t.epochs| - 1 ==> Finished(t.files, t.epochs[i])
  {
    assert forall g :: 0 <= g < |s.files| ==> t.files[g] == s.files[g];
    forall i | 0 <= i < |t.epochs| - 1 ensures Finished(t.files, t.epochs[i]) {
      assert t.epochs[i] == s.epochs[i] && Finished(s.files, s.epochs[i]);
    }
    forall i | 0 < i < |t.epochs| ensures FromTheTop(t.epochs[i]) {
      assert i < |s.epochs| ==> t.epochs[i] == s.epochs[i];
    }
  }

  lemma ReopenRotated(s: State, fault: ReopenFault)
    requires Rotated(s) && Enabled(s, Reopen(fault)) && Orderly(s, Reopen(fault))
    ensures Rotated(AfterReopen(s, fault))
  {
    StepKeepsInv(s, Reopen(fault));
    ReopenEffect(s, fault);
    if Switches(s, fault) {
      LastFinished(s);
      SwitchEffect(s, fault);
      hide Inv, Finished, AfterReopen, Switches, EndSeen, Enabled, Apply;
      NextRotated(s, AfterReopen(s, fault));
    } else {
      hide Inv, Finished, AfterReopen, Enabled, Apply;
    }
  }

  /** An orderly `reopen` of another file begins at its byte 0. */
  lemma SwitchEffect(s: State, fault: ReopenFault)
    requires Enabled(s, Reopen(fault)) && Orderly(s, Reopen(fault)) && Switches(s, fault)
    ensures var t := AfterReopen(s, fault);
            && t.files[..|s.files|] == s.files && |t.epochs| == |s.epochs| + 1
            && t.epochs[..|s.epochs|] == s.epochs && FromTheTop(t.Now())
  {
  }

  lemma TearRotated(s: State, size: nat)
    requires Rotated(s) && Enabled(s, Truncate(size)) && Tears(s) && EndSeen(s)
    ensures Rotated(AfterTruncate(s, size))
  {
    StepKeepsInv(s, Truncate(size));
    LastFinished(s);
    TearEffect(s, size);
    hide Inv, Finished, AfterTruncate, Enabled, Tears, EndSeen;
    NextRotated(s, AfterTruncate(s, size));
  }

  lemma TearEffect(s: State, size: nat)
    requires Enabled(s, Truncate(size)) && Tears(s)
    ensures var t := AfterTruncate(s, size);
            && |s.files| <= |t.files| && t.files[..|s.files|] == s.files && |t.epochs| == |s.epochs| + 1
            && t.epochs[..|s.epochs|] == s.epochs && FromTheTop(t.Now())
  {
  }

  lemma StepRotated(s: State, step: Step)
    requires Rotated(s) && Enabled(s, step) && s.epochs != [] && Orderly(s, step)
    ensures Rotated(Apply(s, step))
  {
    hide Rotated;
    if step.Reopen? {
      ReopenRotated(s, step.fault);
    } else if step.Truncate? && Tears(s) {
      TearRotated(s, step.size);
    } else {
      OtherStepRotated(s, step);
    }
  }

  lemma OtherStepRotated(s: State, step: Step)
    requires Rotated(s) && Enabled(s, step) && s.epochs != [] && Orderly(s, step)
    requires !step.Reopen? && !(step.Truncate? && Tears(s))
    ensures Rotated(Apply(s, step))
  {
    hide Inv, Apply, Enabled, Orderly, FromTheTop, Finished, PastKept, Tears;
    StepKeepsInv(s, step);
    PastUntouched(s, step);
    RotatedStays(s, Apply(s, step));
  }

  /** An orderly step leaves the files given up, and their epochs, alone. */
  lemma PastUntouched(s: State, step: Step)
    requires s.epochs != [] && Enabled(s, step) && Orderly(s, step) && !step.Reopen?
    requires !(step.Truncate? && Tears(s))
    ensures var t := Apply(s, step);
            && |t.epochs| == |s.epochs| && (FromTheTop(s.Now()) ==> FromTheTop(t.Now()))
            && forall i :: 0 <= i < |s.epochs| - 1 ==> PastKept(s, t, i)
  {
    StepFrame(s, step);
    hide Apply, Enabled;
  }

  predicate PastKept(s: State, t: State, i: nat)
    requires i < |s.epochs| == |t.epochs|
  {
    var e := s.epochs[i];
    && t.epochs[i] == e
    && (e.carried.None? && e.gen < |s.files| ==> e.gen < |t.files| && t.files[e.gen] == s.files[e.gen])
  }

  lemma RotatedStays(s: State, t: State)
    requires s.epochs != [] && |t.epochs| == |s.epochs| && (FromTheTop(s.Now()) ==> FromTheTop(t.Now()))
    requires forall i :: 0 < i < |s.epochs| ==> FromTheTop(s.epochs[i])
    requires forall i :: 0 <= i < |s.epochs| - 1 ==> Finished(s.files, s.epochs[i])
    requires forall i :: 0 <= i < |s.epochs| - 1 ==> PastKept(s, t, i)
    ensures forall i :: 0 < i < |t.epochs| ==> FromTheTop(t.epochs[i])
    ensures forall i :: 0 <= i < |t.epochs| - 1 ==> Finished(t.files, t.epochs[i])
  {
    forall i | 0 <= i < |t.epochs| - 1 ensures Finished(t.files, t.epochs[i]) {
      assert PastKept(s, t, i) && Finished(s.files, s.epochs[i]);
    }
    forall i | 0 < i < |t.epochs| ensures FromTheTop(t.epochs[i]) {
      assert i < |t.epochs| - 1 ==> PastKept(s, t, i);
    }
  }

  lemma {:induction false} RunRotated(s: State, steps: seq<Step>, t: State)
    requires Rotated(s) && Reaches(s, steps, t) && OrderlyRun(s, steps)
    ensures Rotated(t)
    decreases |steps|
  {
    if steps != [] {
      StepRotated(s, steps[0]);
      RunRotated(Apply(s, steps[0]), steps[1..], t);
    }
  }

  /** The records of each file read, from where its epoch began to the end of the file; and of one truncated
      under the reader, whatever was read from it before it was opened anew. */
  ghost function FileRecords(files: seq<string>, epochs: seq<Epoch>): seq<string>
    requires forall i :: 0 <= i < |epochs| ==> InFile(files, epochs[i])
  {
    if epochs == [] then []
    else
      FileRecords(files, epochs[..|epochs| - 1]) + Records(Due(files, epochs[|epochs| - 1]))
  }

  function Due(files: seq<string>, e: Epoch): string
    requires InFile(files, e)
  {
    if e.carried.None? then files[e.gen][e.start..] else e.text
  }

  /** No record of the file came after what was read from it. */
  predicate NothingLeft(files: seq<string>, e: Epoch)
    requires InFile(files, e)
  {
    e.carried.None? ==> Records(Source(files, e)[|e.text|..]) == []
  }

  lemma LeftInFile(files: seq<string>, e: Epoch)
    requires InFile(files, e) && e.carried.None? && Remainder(e.text) == ""
    ensures e.End() <= |files[e.gen]|
    ensures Records(files[e.gen][e.start..]) == Records(e.text) + Records(files[e.gen][e.End()..])
    ensures NothingLeft(files, e) <==> Records(files[e.gen][e.End()..]) == []
    ensures AllRead(files, e) ==> NothingLeft(files, e)
  {
    hide Records, Remainder;
    SliceOfFile(files, e);
    var c := files[e.gen];
    assert c[e.start..] == e.text + c[e.End()..];
    RecordsAppend(e.text, c[e.End()..]);
    if AllRead(files, e) {
      Unterminated(c[e.End()..]);
    }
  }

  /** What was read falls short of the files' records exactly when some file had records left. */
  lemma {:induction false} ReadInFull(files: seq<string>, epochs: seq<Epoch>)
    requires forall i :: 0 <= i < |epochs| ==> InFile(files, epochs[i]) && Remainder(epochs[i].text) == ""
    ensures |EpochRecords(epochs)| <= |FileRecords(files, epochs)|
    ensures EpochRecords(epochs) == FileRecords(files, epochs) <==>
            forall i :: 0 <= i < |epochs| ==> NothingLeft(files, epochs[i])
    decreases |epochs|
  {
    hide Records, Remainder, InFile, NothingLeft, Due;
    if epochs != [] {
      hide EpochRecords, FileRecords;
      var n := |epochs| - 1;
      var past, e := epochs[..n], epochs[n];
      assert forall i :: 0 <= i < n ==> past[i] == epochs[i];
      ReadInFull(files, past);
      var left := LeftOver(files, e);
      RecordsLast(files, epochs);
      Falls(EpochRecords(past), FileRecords(files, past), Records(e.text), left);
      ForAllSplit(files, epochs);
    }
  }

  lemma RecordsLast(files: seq<string>, epochs: seq<Epoch>)
    requires epochs != [] && forall i :: 0 <= i < |epochs| ==> InFile(files, epochs[i])
    ensures var past, e := epochs[..|epochs| - 1], epochs[|epochs| - 1];
            && (forall i :: 0 <= i < |past| ==> InFile(files, past[i]))
            && FileRecords(files, epochs) == FileRecords(files, past) + Records(Due(files, e))
            && EpochRecords(epochs) == EpochRecords(past) + Records(e.text)
  {
    hide Records, InFile;
  }

  lemma ForAllSplit(files: seq<string>, epochs: seq<Epoch>)
    requires epochs != [] && forall i :: 0 <= i < |epochs| ==> InFile(files, epochs[i])
    ensures var past := epochs[..|epochs| - 1];
            && (forall i :: 0 <= i < |past| ==> InFile(files, past[i]))
            && ((forall i :: 0 <= i < |epochs| ==> NothingLeft(files, epochs[i])) <==>
                  (forall i :: 0 <= i < |past| ==> NothingLeft(files, past[i]))
                  && NothingLeft(files, epochs[|epochs| - 1]))
  {
    hide InFile, NothingLeft;
    var past := epochs[..|epochs| - 1];
    assert forall i :: 0 <= i < |past| ==> past[i] == epochs[i];
  }

  lemma LeftOver(files: seq<string>, e: Epoch) returns (left: seq<string>)
    requires InFile(files, e) && Remainder(e.text) == ""
    ensures Records(Due(files, e)) == Records(e.text) + left
    ensures NothingLeft(files, e) <==> left == []
  {
    hide Records, Remainder;
    if e.carried.None? {
      LeftInFile(files, e);
      left := Records(files[e.gen][e.End()..]);
    } else {
      left := [];
    }
  }

  lemma Falls(a: seq<string>, b: seq<string>, r: seq<string>, left: seq<string>)
    requires |a| <= |b|
    ensures |a + r| <= |b + (r + left)|
    ensures a + r == b + (r + left) <==> a == b && left == []
  {
    if a + r == b + (r + left) {
      assert |left| == 0 && |a| == |b|;
      assert (a + r)[..|a|] == a && (b + (r + left))[..|b|] == b;
    }
  }

  /** The lines are the records of each file given up, in full and in order, and then those read from the
      current one. */
  ghost predicate InFull(t: State, lines: seq<string>)
    requires Inv(t)
  {
    lines == FileRecords(t.files, t.epochs[..|t.epochs| - 1]) + Records(t.Now().text)
  }

  /** No file has a record after the place where it was given up. */
  ghost predicate NothingMissed(t: State)
    requires Inv(t)
  {
    var past := t.epochs[..|t.epochs| - 1];
    forall i :: 0 <= i < |past| ==> NothingLeft(t.files, past[i])
  }

  /** Loss at rotations, exactly: over every run, whatever the environment does, the output is the records of
      each file given up, in full and in order, followed by those read from the current one, exactly when
      no file had a record left when it was given up for good. */
  lemma RotationIff(s: State, steps: seq<Step>, t: State)
    requires Started(s) && Reaches(s, steps, t)
    ensures Inv(t)
    ensures InFull(t, t.emitted + t.Held()) <==> NothingMissed(t)
  {
    StartedInv(s);
    ReachesKeepsInv(s, steps, t);
    InFullIff(t);
  }

  lemma InFullIff(t: State)
    requires Inv(t)
    ensures InFull(t, t.emitted + t.Held()) <==> NothingMissed(t)
  {
    hide Records, Remainder, InFile, NothingLeft;
    var past := t.epochs[..|t.epochs| - 1];
    assert forall i :: 0 <= i < |past| ==> past[i] == t.epochs[i];
    ReadInFull(t.files, past);
    SameEnding(EpochRecords(past), FileRecords(t.files, past), Records(t.Now().text));
  }

  /** Rotation: over any number of orderly rotations and truncations the output is the records of each file
      given up, in order (the first from the start size, the others from byte 0), followed by the records
      of the current file up to the offset, and up to its end once that end has been seen. */
  lemma RotationLosesNothing(s: State, steps: seq<Step>, t: State)
    requires Started(s) && Reaches(s, steps, t) && OrderlyRun(s, steps)
    ensures Rotated(t)
    ensures var past, now := t.epochs[..|t.epochs| - 1], t.Now();
            && t.emitted + t.Held() == FileRecords(t.files, past) + Records(now.text)
            && (if now.carried.None? then
                  now.End() <= |t.files[now.gen]| && now.text == t.files[now.gen][now.start..now.End()]
                else now.text == "")
            && (t.seenEnd == Some(Mark(now.gen, |t.files[now.gen]|)) ==>
                  t.emitted + t.Held() == FileRecords(t.files, t.epochs))
  {
    StartedInv(s);
    RunRotated(s, steps, t);
    FirstIsOpened(s, steps, t);
    NowInFile(t);
    InFullIff(t);
    PastLeavesNothing(t);
    hide Rotated, Records, Reaches, NothingLeft;
    if EndSeen(t) {
      SeenToTheEnd(t);
    }
  }

  lemma {:induction false} FirstIsOpened(s: State, steps: seq<Step>, t: State)
    requires s.epochs != [] && s.epochs[0].carried.None? && Reaches(s, steps, t)
    ensures t.epochs != [] && t.epochs[0].carried.None?
    decreases |steps|
  {
    if steps != [] {
      FirstIsOpened(Apply(s, steps[0]), steps[1..], t);
    }
  }

  lemma PastLeavesNothing(t: State)
    requires Rotated(t)
    ensures var past := t.epochs[..|t.epochs| - 1];
            forall i :: 0 <= i < |past| ==> InFile(t.files, past[i]) && NothingLeft(t.files, past[i])
  {
    hide Records, Remainder, InFile, Finished, NothingLeft;
    var past := t.epochs[..|t.epochs| - 1];
    forall i | 0 <= i < |past| ensures InFile(t.files, past[i]) && NothingLeft(t.files, past[i]) {
      assert past[i] == t.epochs[i] && Finished(t.files, t.epochs[i]) && InFile(t.files, t.epochs[i]);
      FinishedLeavesNothing(t.files, past[i]);
    }
  }

  lemma SeenToTheEnd(t: State)
    requires Inv(t) && EndSeen(t)
    ensures FileRecords(t.files, t.epochs) == FileRecords(t.files, t.epochs[..|t.epochs| - 1]) + Records(t.Now().text)
  {
    hide Records, Remainder, EpochRecords, Placed;
    var now := t.Now();
    assert Remainder(t.epochs[|t.epochs| - 1].text) == "" && InFile(t.files, t.epochs[|t.epochs| - 1]);
    FinishedLeavesNothing(t.files, now);
    var left := LeftOver(t.files, now);
    assert Records(now.text) + [] == Records(now.text);
  }

  lemma NowInFile(t: State)
    requires Rotated(t) && (|t.epochs| == 1 ==> t.Now().carried.None?)
    ensures var now := t.Now();
            InFile(t.files, now)
            && if now.carried.None? then
                 now.End() <= |t.files[now.gen]| && now.text == t.files[now.gen][now.start..now.End()]
               else now.text == ""
  {
    var now := t.Now();
    assert InFile(t.files, now);
    if now.carried.None? {
      SliceOfFile(t.files, now);
    }
  }

  lemma FinishedLeavesNothing(files: seq<string>, e: Epoch)
    requires InFile(files, e) && Remainder(e.text) == "" && Finished(files, e)
    ensures NothingLeft(files, e)
  {
    if e.carried.None? {
      LeftInFile(files, e);
    }
  }

  /** Rotation is detected by size alone.  After a successful `reopen`, and however the file grows from
      then on, the output is what it was followed by the records of the file from byte 0 exactly when the
      file was shorter than the saved offset, or the bytes skipped hold no record and do not cut one. */
  lemma ReplacementReadInFull(s: State, fault: ReopenFault, steps: seq<Step>, u: State)
    requires Inv(s) && Enabled(s, Reopen(fault)) && AfterReopen(s, fault).handle.Some?
    requires Reaches(AfterReopen(s, fault), steps, u)
    requires forall i :: 0 <= i < |steps| ==> KeepsFile(steps[i], s.path.value)
    ensures var g := s.path.value;
            && g < |u.files| && u.offset <= |u.files[g]| && (s.offset <= |s.files[g]| ==> s.offset <= u.offset)
            && var c := u.files[g];
            (u.emitted + u.Held() == s.emitted + Records(c[..u.offset]) <==>
              (|s.files[g]| < s.offset
               || (Records(c[..s.offset]) == []
                   && (Remainder(c[..s.offset]) == "" || '\n' !in c[s.offset..u.offset]))))
  {
    ReopenedReadsOn(s, fault, steps, u);
    hide Records, Remainder, Reaches, Inv, AfterReopen, Apply;
    var g := s.path.value;
    var c, from := u.files[g], if |s.files[g]| < s.offset then 0 else s.offset;
    SkippedBytes(s.emitted, c, from, u.offset);
    assert from == 0 ==> c[..from] == "";
    NoRecords();
  }

  /** Reading `c` up to `end` from byte `from` on gives its records exactly when nothing was missed. */
  lemma SkippedBytes(before: seq<string>, c: string, from: nat, end: nat)
    requires from <= end <= |c|
    ensures before + Records(c[from..end]) == before + Records(c[..end]) <==>
              (Records(c[..from]) == [] && (Remainder(c[..from]) == "" || '\n' !in c[from..end]))
  {
    SkippedPrefix(c[..from], c[from..end]);
    hide Records, Remainder;
    assert c[..end] == c[..from] + c[from..end];
    SameSuffix(before, Records(c[from..end]), Records(c[..end]));
  }

  lemma SameSuffix(before: seq<string>, a: seq<string>, b: seq<string>)
    ensures before + a == before + b <==> a == b
  {
    assert (before + a)[|before|..] == a && (before + b)[|before|..] == b;
  }

  /** The file may be missing: the environment only appends to files without a name. */
  predicate LeavesMissing(step: Step) {
    IsReaderStep(step) || step.Append? || step.Remove?
  }

  /** A spell with the file missing changes nothing: from the moment the reader is about to reopen it, and
      for as long as it stays away, nothing is emitted and the reader keeps its place, so that the first
      successful `reopen` afterwards finds the offset and the epochs as they were. */
  lemma {:induction false} MissingFileChangesNothing(s: State, steps: seq<Step>, t: State)
    requires s.path.None? && (s.phase == Waiting || (s.handle.None? && !s.phase.Holding?))
    requires Reaches(s, steps, t) && forall i :: 0 <= i < |steps| ==> LeavesMissing(steps[i])
    ensures t.offset == s.offset && t.epochs == s.epochs && t.emitted == s.emitted && t.Held() == []
    ensures t.path.None? && (t.phase == Waiting || t.handle.None?)
    decreases |steps|
  {
    if steps != [] {
      MissingFileChangesNothing(Apply(s, steps[0]), steps[1..], t);
    }
  }

  /** A replacement no shorter than the saved offset is mistaken for the old file: here its only line
      is never emitted although the reader has met its end. */
  lemma RotationMissedExample(s: State) returns (steps: seq<Step>, t: State)
    requires Started(s) && s.files == ["a\n"]
    ensures Reaches(s, steps, t)
    ensures t.path == Some(1) && t.files == ["a\n", "b\n"] && Records("b\n") == ["b"]
    ensures t.seenEnd == Some(Mark(1, 2)) && t.emitted + t.Held() == []
  {
    RecordsCons("b", "");
    assert "b" + "\n" + "" == "b\n";
    var before, mid := MissedSwitch(s);
    t := MissedEnd(mid);
    steps := before + [BeginRead, EndOfFile];
    ReachesAppend(s, before, mid, [BeginRead, EndOfFile], t);
  }

  lemma MissedSwitch(s: State) returns (steps: seq<Step>, t: State)
    requires Started(s) && s.files == ["a\n"]
    ensures Reaches(s, steps, t)
    ensures t.files == ["a\n", "b\n"] && t.path == Some(1) && t.offset == 2 && t.emitted == []
    ensures t.handle == Some(Handle(1, 2, "")) && t.phase == AtSelect
  {
    hide Reaches, Apply;
    var s1, s2 := s.(phase := Reading), s.(phase := Waiting, seenEnd := Some(Mark(0, 2)));
    var s3 := s2.(files := ["a\n", "b\n"], path := Some(1));
    t := AfterReopen(s3, NoFault);
    StepIs(s, BeginRead, s1);
    StepIs(s1, EndOfFile, s2);
    StepIs(s2, Create("b\n"), s3);
    StepIs(s3, Reopen(NoFault), t);
    ReachesOne(s3, Reopen(NoFault));
    ReachesCons(s2, Create("b\n"), [Reopen(NoFault)], t);
    steps := [Create("b\n")] + [Reopen(NoFault)];
    ReachesCons(s1, EndOfFile, steps, t);
    ReachesCons(s, BeginRead, [EndOfFile] + steps, t);
    steps := [BeginRead] + ([EndOfFile] + steps);
  }

  lemma StepIs(s: State, step: Step, t: State)
    requires Enabled(s, step)
    requires match step
             case BeginRead => t == s.(phase := Reading)
             case EndOfFile =>
               t == s.(phase := Waiting, seenEnd := Some(Mark(s.handle.value.gen, |s.files[s.handle.value.gen]|)))
             case Create(c) => t == s.(files := s.files + [c], path := Some(|s.files|))
             case Reopen(fault) => t == AfterReopen(s, fault)
             case _ => false
    ensures Apply(s, step) == t
  {
  }

  lemma MissedEnd(s: State) returns (t: State)
    requires s.files == ["a\n", "b\n"] && s.handle == Some(Handle(1, 2, "")) && s.phase == AtSelect
    ensures Reaches(s, [BeginRead, EndOfFile], t)
    ensures t == s.(phase := Waiting, seenEnd := Some(Mark(1, 2)))
  {
    var s1 := s.(phase := Reading);
    t := s.(phase := Waiting, seenEnd := Some(Mark(1, 2)));
    ReachesOne(s1, EndOfFile);
    ReachesCons(s, BeginRead, [EndOfFile], t);
  }

  /** A file truncated to nothing and written anew while the reader has it open is read on from the old
      position: here the reader sends the end of a line as if it were a line. */
  lemma CutLineExample(s: State) returns (steps: seq<Step>, t: State)
    requires Started(s) && s.files == ["a\n"]
    ensures Reaches(s, steps, t)
    ensures t.files == ["a\n", "hello\n"] && t.emitted + t.Held() == ["llo"]
  {
    hide Reaches, Apply, Enabled;
    var mid := TruncatedAndWritten(s);
    t := CutLine(mid);
    steps := [Truncate(0), Append(1, "hello\n")] + [BeginRead, Fill(4), TakeLine];
    ReachesAppend(s, [Truncate(0), Append(1, "hello\n")], mid, [BeginRead, Fill(4), TakeLine], t);
  }

  lemma CutLine(s: State) returns (t: State)
    requires s.files == ["a\n", "hello\n"] && s.offset == 2 && s.handle == Some(Handle(1, 2, ""))
    requires s.phase == AtSelect && s.epochs != [] && s.emitted == []
    ensures Reaches(s, [BeginRead, Fill(4), TakeLine], t) && t.files == s.files && t.emitted + t.Held() == ["llo"]
  {
    var s1 := s.(phase := Reading);
    var s2 := s1.(handle := Some(Handle(1, 6, "llo\n")));
    assert "" + "hello\n"[2..6] == "llo\n" && Apply(s1, Fill(4)) == s2;
    FirstNewlineUnique("llo\n", 3);
    assert "llo\n"[..3] == "llo";
    t := AfterLine(s2);
    ReachesOne(s2, TakeLine);
    hide Reaches;
    ReachesCons(s1, Fill(4), [TakeLine], t);
    ReachesCons(s, BeginRead, [Fill(4)] + [TakeLine], t);
    assert [BeginRead] + ([Fill(4)] + [TakeLine]) == [BeginRead, Fill(4), TakeLine];
  }

  lemma TruncatedAndWritten(s: State) returns (t: State)
    requires Started(s) && s.files == ["a\n"]
    ensures Reaches(s, [Truncate(0), Append(1, "hello\n")], t)
    ensures t.files == ["a\n", "hello\n"] && t.offset == 2 && t.handle == Some(Handle(1, 2, ""))
    ensures t.phase == AtSelect && t.epochs != [] && t.emitted == []
  {
    var s1 := Apply(s, Truncate(0));
    t := Apply(s1, Append(1, "hello\n"));
    ReachesOne(s1, Append(1, "hello\n"));
    ReachesCons(s, Truncate(0), [Append(1, "hello\n")], t);
    assert "a\n"[..0] + "hello\n" == "hello\n";
  }

  /** A line written after the reader met the end of the file, and before the file is replaced, is lost even
      when the replacement is recognised: while only the replacement is written, it is never sent. */
  lemma UnreadLineExample(s: State) returns (steps: seq<Step>, t: State)
    requires Started(s) && s.files == ["a\n"]
    ensures Reaches(s, steps, t) && Inv(t)
    ensures t.files == ["a\nb\n", ""] && t.path == Some(1) && t.offset == 0 && t.emitted + t.Held() == []
    ensures Records("a\nb\n"[2..]) == ["b"] && !NothingLeft(t.files, t.epochs[0])
    ensures forall more, u :: Reaches(t, more, u) && (forall i :: 0 <= i < |more| ==> KeepsFile(more[i], 1)) ==>
              1 < |u.files| && u.offset <= |u.files[1]| && u.emitted + u.Held() == Records(u.files[1][..u.offset])
  {
    StartedInv(s);
    steps, t := UnreadLine(s);
    ReachesKeepsInv(s, steps, t);
    BLeft(t.files, t.epochs[0]);
    assert t.epochs[..1] == [t.epochs[0]];
    assert OnEpoch(t, [t.epochs[0]], t.epochs[1]);
    hide *;
    forall more, u | Reaches(t, more, u) && (forall i :: 0 <= i < |more| ==> KeepsFile(more[i], 1))
      ensures 1 < |u.files| && u.offset <= |u.files[1]| && u.emitted + u.Held() == Records(u.files[1][..u.offset])
    {
      ReadsOnFile(t, more, u, [t.epochs[0]], t.epochs[1]);
      assert [] + Records(u.files[1][0..u.offset]) == Records(u.files[1][..u.offset]);
    }
  }

  lemma BLeft(files: seq<string>, e: Epoch)
    requires files == ["a\nb\n", ""] && e == Epoch(0, 2, None, "")
    ensures Records("a\nb\n"[2..]) == ["b"] && InFile(files, e) && !NothingLeft(files, e)
  {
    hide Records;
    var rest := "a\nb\n"[2..];
    assert rest == "b" + "\n" + "";
    RecordsCons("b", "");
    NoRecords();
    assert Source(files, e) == "" + rest && Source(files, e)[|e.text|..] == rest;
  }

  lemma UnreadLine(s: State) returns (steps: seq<Step>, t: State)
    requires Started(s) && s.files == ["a\n"]
    ensures Reaches(s, steps, t)
    ensures t == State(["a\nb\n", ""], Some(1), 0, Some(Handle(1, 0, "")), AtSelect, [],
                       [Epoch(0, 2, None, ""), Epoch(1, 0, None, "")], None)
  {
    hide Reaches;
    ReachesOne(s, BeginRead);
    steps, t := [BeginRead], Apply(s, BeginRead);
    steps, t := Extend(s, steps, t, EndOfFile);
    steps, t := Extend(s, steps, t, Append(0, "b\n"));
    assert "a\n" + "b\n" == "a\nb\n" && t.files == ["a\nb\n"];
    steps, t := Extend(s, steps, t, Create(""));
    steps, t := Extend(s, steps, t, Reopen(NoFault));
  }
}
