/** The file tailer as a step-wise protocol: the reader goroutine of `FileReader` interleaved with an
    environment that appends to, replaces, truncates and removes the tailed file.

    Files are kept as *generations*: `files[g]` is the content of generation `g` and only ever grows.
    Replacing the file links the path to another generation; truncating it in place starts a new
    generation and takes an open handle along.
 */
module Tail {
  import opened Lines

  /** An open file with the `bufio.Reader` on it: bytes up to `pos` were read, `buf` is not consumed yet. */
  datatype Handle = Handle(gen: nat, pos: nat, buf: string)

  /** What an open file with the given content still has to give: buffered bytes, then the rest of the file. */
  function Rest(h: Handle, content: string): string {
    h.buf + if h.pos <= |content| then content[h.pos..] else ""
  }

  /** Where the goroutine is: at the `select`, inside `readLine`, about to send, or asleep before `reopen`. */
  datatype Phase = AtSelect | Reading | Holding(line: string) | Waiting | Done

  datatype ReopenFault = NoFault | OpenFails | StatFails | SeekFails

  /** A stretch read from one open file without a gap: `text` was consumed from offset `start` on.  `carried`
      is the buffer the reader had when the file was truncated under it; a file just opened has none. */
  datatype Epoch = Epoch(gen: nat, start: nat, carried: Option<string>, text: string) {
    function End(): nat { start + |text| }

    /** The open file as it was when the stretch began. */
    function Opened(): Handle {
      var buf := if carried.Some? then carried.value else "";
      Handle(gen, start + |buf|, buf)
    }
  }

  datatype Mark = Mark(gen: nat, size: nat)

  /** `files` and `path` belong to the environment; `offset`, `handle` and `phase` to the reader;
      `emitted`, `epochs` and `seenEnd` record the history. */
  datatype State = State(
    files: seq<string>, path: Option<nat>,
    offset: nat, handle: Option<Handle>, phase: Phase,
    emitted: seq<string>, epochs: seq<Epoch>, seenEnd: Option<Mark>)
  {
    /** The epoch being read. */
    function Now(): Epoch
      requires epochs != []
    {
      epochs[|epochs| - 1]
    }

    function Held(): seq<string> {
      if phase.Holding? then [phase.line] else []
    }
  }

  datatype Step =
    | Append(gen: nat, data: string)   // environment
    | Create(content: string)
    | Relink(gen: nat)
    | Remove
    | Truncate(size: nat)
    | BeginRead                        // reader
    | Fill(count: nat)
    | TakeLine
    | FileClosed
    | EndOfFile
    | ReadError
    | Reopen(fault: ReopenFault)
    | Emit
    | Quit

  /** `Start`: open the file and seek to its end. */
  predicate Started(s: State) {
    && s.path.Some? && s.path.value < |s.files|
    && s.offset == |s.files[s.path.value]|
    && s.handle == Some(Handle(s.path.value, s.offset, ""))
    && s.phase == AtSelect
    && s.emitted == [] && s.epochs == [Epoch(s.path.value, s.offset, None, "")]
    && s.seenEnd == None
  }

  /** The outcome of `reopen`: the new offset and the newly opened file, if any. */
  function Reopened(files: seq<string>, path: Option<nat>, offset: nat, fault: ReopenFault)
    : (r: (nat, Option<Handle>))
    requires path.Some? ==> path.value < |files|
    ensures r.1.Some? <==> path.Some? && fault.NoFault?
    ensures r.1.Some? ==> r.1 == Some(Handle(path.value, r.0, "")) && r.0 <= |files[path.value]|
    ensures r.0 == offset || (r.0 == 0 && path.Some? && |files[path.value]| < offset)
    ensures path.None? || fault.OpenFails? || fault.StatFails? ==> r == (offset, None)
  {
    if path.None? || fault.OpenFails? || fault.StatFails? then (offset, None)
    else
      var offset' := if |files[path.value]| < offset then 0 else offset;
      if fault.SeekFails? then (offset', None)
      else (offset', Some(Handle(path.value, offset', "")))
  }

  predicate Enabled(s: State, step: Step) {
    match step
    case Append(g, _) => g < |s.files|
    case Create(_) => true
    case Relink(g) => g < |s.files|
    case Remove => true
    case Truncate(size) => s.path.Some? && s.path.value < |s.files| && size <= |s.files[s.path.value]|
    case BeginRead => s.phase == AtSelect
    case Fill(k) =>
      && s.phase == Reading && s.handle.Some?
      && var h := s.handle.value;
      && '\n' !in h.buf && 0 < k && h.gen < |s.files| && h.pos + k <= |s.files[h.gen]|
    case TakeLine => s.phase == Reading && s.handle.Some? && '\n' in s.handle.value.buf && s.epochs != []
    case FileClosed => s.phase == Reading && s.handle.None?
    case EndOfFile =>
      && s.phase == Reading && s.handle.Some?
      && var h := s.handle.value;
      && '\n' !in h.buf && h.gen < |s.files| && |s.files[h.gen]| <= h.pos
    case ReadError => s.phase == Reading && s.handle.Some? && '\n' !in s.handle.value.buf
    case Reopen(_) => s.phase == Waiting && s.epochs != [] && (s.path.Some? ==> s.path.value < |s.files|)
    case Emit => s.phase.Holding?
    case Quit => s.phase == AtSelect
  }

  predicate IsReaderStep(step: Step) {
    !(step.Append? || step.Create? || step.Relink? || step.Remove? || step.Truncate?)
  }

  /** One line leaves the buffer: the offset moves past its newline; an empty line is not emitted. */
  function AfterLine(s: State): State
    requires Enabled(s, TakeLine)
  {
    var h := s.handle.value;
    var i := FirstNewline(h.buf);
    var line := h.buf[..i];
    s.(offset := s.offset + i + 1,
       handle := Some(h.(buf := h.buf[i + 1..])),
       phase := if line == "" then AtSelect else Holding(line),
       epochs := Extended(s.epochs, line))
  }

  function AfterReopen(s: State, fault: ReopenFault): State
    requires Enabled(s, Reopen(fault))
  {
    var (offset, handle) := Reopened(s.files, s.path, s.offset, fault);
    var s' := s.(offset := offset, handle := handle, phase := AtSelect);
    if handle.Some? && !(s.Now().carried.None? && handle.value.gen == s.Now().gen && offset == s.Now().End()) then
      s'.(epochs := s.epochs + [Epoch(handle.value.gen, offset, None, "")], seenEnd := None)
    else s'
  }

  /** A truncation now would pull the file away under a reader that goes on with its open handle. */
  predicate Tears(s: State) {
    s.handle.Some? && s.path == Some(s.handle.value.gen) && s.phase != Waiting && s.phase != Done
  }

  function AfterTruncate(s: State, size: nat): State
    requires Enabled(s, Truncate(size))
  {
    var p, g := s.path.value, |s.files|;
    var s' := s.(files := s.files + [s.files[p][..size]], path := Some(g));
    if s.handle.None? || s.handle.value.gen != p then s'
    else
      var h := s.handle.value.(gen := g);
      if Tears(s) then
        s'.(handle := Some(h), epochs := s.epochs + [Epoch(g, s.offset, Some(h.buf), "")], seenEnd := None)
      else s'.(handle := Some(h))
  }

  function Apply(s: State, step: Step): State
    requires Enabled(s, step)
  {
    match step
    case Append(g, data) => s.(files := s.files[g := s.files[g] + data])
    case Create(content) => s.(files := s.files + [content], path := Some(|s.files|))
    case Relink(g) => s.(path := Some(g))
    case Remove => s.(path := None)
    case Truncate(size) => AfterTruncate(s, size)
    case BeginRead => s.(phase := Reading)
    case Fill(k) =>
      var h := s.handle.value;
      s.(handle := Some(h.(pos := h.pos + k, buf := h.buf + s.files[h.gen][h.pos..h.pos + k])))
    case TakeLine => AfterLine(s)
    case FileClosed => s.(phase := Waiting)
    case EndOfFile =>
      var g := s.handle.value.gen;
      s.(phase := Waiting, seenEnd := Some(Mark(g, |s.files[g]|)))
    case ReadError => s.(phase := Waiting)
    case Reopen(fault) => AfterReopen(s, fault)
    case Emit => s.(phase := AtSelect, emitted := s.emitted + [s.phase.line])
    case Quit => s.(phase := Done, handle := None)
  }

  /** `t` is reached from `s` by the given interleaving of reader and environment steps. */
  ghost predicate Reaches(s: State, steps: seq<Step>, t: State)
    decreases |steps|
  {
    if steps == [] then s == t
    else Enabled(s, steps[0]) && Reaches(Apply(s, steps[0]), steps[1..], t)
  }

  /** The records read so far, epoch by epoch. */
  function EpochRecords(epochs: seq<Epoch>): seq<string> {
    if epochs == [] then []
    else EpochRecords(epochs[..|epochs| - 1]) + Records(epochs[|epochs| - 1].text)
  }

  // ----- What every step keeps, whatever the environment does -----

  /** Nothing is lost, repeated or reordered: what was emitted, with the line about to be sent, is
      the records of the consumed text; consumption always stops just after a newline. */
  ghost predicate Conserved(s: State) {
    && s.epochs != []
    && s.emitted + s.Held() == EpochRecords(s.epochs)
    && (forall i :: 0 <= i < |s.epochs| ==> Remainder(s.epochs[i].text) == "")
    && (s.phase.Holding? ==> s.phase.line != "" && '\n' !in s.phase.line)
    && (s.path.Some? ==> s.path.value < |s.files|)
    && (s.handle.Some? ==> s.handle.value.gen < |s.files|)
    && (s.offset == s.Now().End() || (s.offset == 0 && s.handle.None?))
    && (s.phase.Holding? ==> s.handle.Some?)
  }

  /** What the open file of an epoch has to give, from the beginning of the epoch on. */
  function Source(files: seq<string>, e: Epoch): string
    requires e.gen < |files|
  {
    Rest(e.Opened(), files[e.gen])
  }

  /** The text of every epoch is what its file had to give, and the reader goes on where the text ends. */
  ghost predicate Faithful(s: State) {
    && s.epochs != []
    && (forall i :: 0 <= i < |s.epochs| ==> InFile(s.files, s.epochs[i]))
    && (s.handle.Some? && s.phase != Waiting && s.phase != Done ==> Placed(s.files, s.Now(), s.handle.value))
    && (s.seenEnd.Some? ==>
          && var m := s.seenEnd.value;
          && m.gen == s.Now().gen && m.gen < |s.files| && m.size <= |s.files[m.gen]|
          && (|s.files[m.gen]| == m.size ==> AllRead(s.files, s.Now())))
  }

  predicate InFile(files: seq<string>, e: Epoch) {
    e.gen < |files| && e.text <= Source(files, e) && (e.carried.None? ==> e.start <= |files[e.gen]|)
  }

  /** Everything up to the last newline was consumed. */
  predicate AllRead(files: seq<string>, e: Epoch) {
    e.gen < |files| && |e.text| <= |Source(files, e)| && '\n' !in Source(files, e)[|e.text|..]
  }

  predicate Placed(files: seq<string>, e: Epoch, h: Handle) {
    e.gen < |files| && Fed(e.Opened(), e.text, h, files[e.gen])
  }

  /** `h` is `h0` after some bytes were read into the buffer and `text` was taken from it. */
  predicate Fed(h0: Handle, text: string, h: Handle, content: string) {
    && h.gen == h0.gen && h0.pos <= h.pos
    && if h.pos == h0.pos then text + h.buf == h0.buf
       else h.pos <= |content| && text + h.buf == h0.buf + content[h0.pos..h.pos]
  }

  lemma FedRest(h0: Handle, text: string, h: Handle, content: string)
    requires Fed(h0, text, h, content)
    ensures text + Rest(h, content) == Rest(h0, content)
  {
    var tail := if h.pos <= |content| then content[h.pos..] else "";
    assert text + Rest(h, content) == (text + h.buf) + tail;
    if h.pos != h0.pos {
      assert content[h0.pos..] == content[h0.pos..h.pos] + tail;
    }
  }

  lemma FedGrows(h0: Handle, text: string, h: Handle, before: string, after: string)
    requires Fed(h0, text, h, before) && before <= after
    ensures Fed(h0, text, h, after)
  {
    if h.pos != h0.pos {
      assert after[h0.pos..h.pos] == before[h0.pos..h.pos];
    }
  }

  lemma FedMore(h0: Handle, text: string, h: Handle, content: string, k: nat)
    requires Fed(h0, text, h, content) && 0 < k && h.pos + k <= |content|
    ensures Fed(h0, text, h.(pos := h.pos + k, buf := h.buf + content[h.pos..h.pos + k]), content)
  {
    assert text + (h.buf + content[h.pos..h.pos + k]) == (text + h.buf) + content[h.pos..h.pos + k];
    if h.pos != h0.pos {
      assert content[h0.pos..h.pos] + content[h.pos..h.pos + k] == content[h0.pos..h.pos + k];
    }
  }

  lemma FedTaken(h0: Handle, text: string, h: Handle, content: string, i: nat)
    requires Fed(h0, text, h, content) && i < |h.buf| && h.buf[i] == '\n'
    ensures Fed(h0, text + h.buf[..i] + "\n", h.(buf := h.buf[i + 1..]), content)
  {
    assert text + h.buf[..i] + "\n" + h.buf[i + 1..] == text + h.buf;
  }

  /** An epoch begun by opening a file is a slice of that file. */
  lemma SliceOfFile(files: seq<string>, e: Epoch)
    requires InFile(files, e) && e.carried.None?
    ensures e.End() <= |files[e.gen]| && e.text == files[e.gen][e.start..e.End()]
    ensures Source(files, e) == files[e.gen][e.start..]
    ensures Source(files, e)[|e.text|..] == files[e.gen][e.End()..]
  {
    assert Source(files, e) == files[e.gen][e.start..];
    assert e.text == files[e.gen][e.start..][..|e.text|];
  }

  /** While the reader is at work, its position is the offset plus what it has in its buffer. */
  lemma Position(files: seq<string>, e: Epoch, h: Handle)
    requires Placed(files, e, h)
    ensures h.gen == e.gen && h.pos == e.End() + |h.buf|
  {
    var h0 := e.Opened();
    assert |e.text + h.buf| == |e.text| + |h.buf|;
    assert h0.pos == e.start + |h0.buf|;
  }

  ghost predicate Inv(s: State) {
    Conserved(s) && Faithful(s)
  }

  lemma EpochRecordsPush(epochs: seq<Epoch>, e: Epoch)
    ensures EpochRecords(epochs + [e]) == EpochRecords(epochs) + Records(e.text)
  {
    assert (epochs + [e])[..|epochs|] == epochs;
  }

  lemma LastEpochRecords(epochs: seq<Epoch>, e: Epoch)
    requires epochs != []
    ensures EpochRecords(epochs[|epochs| - 1 := e]) == EpochRecords(epochs[..|epochs| - 1]) + Records(e.text)
  {
    assert epochs[|epochs| - 1 := e][..|epochs| - 1] == epochs[..|epochs| - 1];
  }

  lemma LastEpochGains(epochs: seq<Epoch>, e: Epoch, more: seq<string>)
    requires epochs != [] && Records(e.text) == Records(epochs[|epochs| - 1].text) + more
    ensures EpochRecords(epochs[|epochs| - 1 := e]) == EpochRecords(epochs) + more
  {
    hide Records, EpochRecords;
    var past, now := EpochRecords(epochs[..|epochs| - 1]), epochs[|epochs| - 1];
    LastEpochRecords(epochs, now);
    LastEpochRecords(epochs, e);
    assert epochs[|epochs| - 1 := now] == epochs;
    assert past + (Records(now.text) + more) == (past + Records(now.text)) + more;
  }

  /** The epochs after one more line was consumed. */
  function Extended(epochs: seq<Epoch>, line: string): seq<Epoch>
    requires epochs != []
  {
    var now := epochs[|epochs| - 1];
    epochs[|epochs| - 1 := now.(text := now.text + line + "\n")]
  }

  lemma ExtendedRecords(epochs: seq<Epoch>, line: string)
    requires epochs != [] && Remainder(epochs[|epochs| - 1].text) == "" && '\n' !in line
    ensures EpochRecords(Extended(epochs, line)) == EpochRecords(epochs) + (if line == "" then [] else [line])
    ensures Remainder(Extended(epochs, line)[|epochs| - 1].text) == ""
  {
    var now := epochs[|epochs| - 1];
    RecordsStep(now.text, line);
    LastEpochGains(epochs, now.(text := now.text + line + "\n"), if line == "" then [] else [line]);
  }

  lemma NothingHeld(s: State)
    requires !s.phase.Holding?
    ensures s.emitted + s.Held() == s.emitted
  {
  }

  lemma TakeLineConserves(s: State)
    requires Conserved(s) && Enabled(s, TakeLine)
    ensures Conserved(AfterLine(s))
  {
    hide EpochRecords, Records, Remainder;
    var t, buf := AfterLine(s), s.handle.value.buf;
    var line := buf[..FirstNewline(buf)];
    ExtendedRecords(s.epochs, line);
    NothingHeld(s);
    assert t.Held() == if line == "" then [] else [line];
    assert t.Now().End() == s.Now().End() + |line| + 1;
    hide FirstNewline, Extended;
    forall i | 0 <= i < |t.epochs| ensures Remainder(t.epochs[i].text) == "" {
      assert i < |t.epochs| - 1 ==> t.epochs[i] == s.epochs[i];
    }
  }

  /** What `reopen` changes: the handle, the offset, the phase, and the epochs by at most a new empty one. */
  lemma ReopenEffect(s: State, fault: ReopenFault)
    requires Enabled(s, Reopen(fault))
    ensures var t := AfterReopen(s, fault);
            && t.files == s.files && t.phase == AtSelect && t.epochs != []
            && ((t.epochs == s.epochs && t.seenEnd == s.seenEnd)
                || (t.handle.Some? && t.seenEnd == None
                    && t.epochs == s.epochs + [Epoch(t.handle.value.gen, t.offset, None, "")]))
            && (t.handle.Some? ==>
                  && t.Now().carried.None?
                  && t.handle.value == Handle(t.Now().gen, t.offset, "")
                  && t.Now().gen < |t.files| && t.offset <= |t.files[t.Now().gen]| && t.offset == t.Now().End())
            && t.emitted == s.emitted && t.path == s.path && (t.offset == s.offset || t.offset == 0)
  {
  }

  lemma ReopenConserves(s: State, fault: ReopenFault)
    requires Conserved(s) && Enabled(s, Reopen(fault))
    ensures Conserved(AfterReopen(s, fault))
  {
    ReopenEffect(s, fault);
    assert Records("") == [] && Remainder("") == "";
    hide AfterReopen, Records, Remainder;
    var t := AfterReopen(s, fault);
    if t.epochs != s.epochs {
      EpochRecordsPush(s.epochs, t.Now());
    }
    hide EpochRecords;
    assert s.Held() == t.Held() == [];
    forall i | 0 <= i < |t.epochs| ensures Remainder(t.epochs[i].text) == "" {
      assert i < |s.epochs| ==> t.epochs[i] == s.epochs[i];
    }
  }

  lemma EmitConserves(s: State)
    requires Conserved(s) && Enabled(s, Emit)
    ensures Conserved(Apply(s, Emit))
  {
    assert (s.emitted + [s.phase.line]) + [] == s.emitted + s.Held();
  }

  lemma StepConserves(s: State, step: Step)
    requires Conserved(s) && Enabled(s, step)
    ensures Conserved(Apply(s, step))
  {
    match step {
      case TakeLine => TakeLineConserves(s);
      case Reopen(fault) => ReopenConserves(s, fault);
      case Emit => EmitConserves(s);
      case Truncate(size) => TruncateConserves(s, size);
      case _ => OthersConserve(s, step);
    }
  }

  lemma TruncateConserves(s: State, size: nat)
    requires Conserved(s) && Enabled(s, Truncate(size))
    ensures Conserved(AfterTruncate(s, size))
  {
    assert Records("") == [] && Remainder("") == "";
    hide Records, Remainder;
    var t := AfterTruncate(s, size);
    if Tears(s) {
      EpochRecordsPush(s.epochs, t.Now());
    }
    hide EpochRecords;
    forall i | 0 <= i < |t.epochs| ensures Remainder(t.epochs[i].text) == "" {
      assert i < |s.epochs| ==> t.epochs[i] == s.epochs[i];
    }
  }

  /** All other steps leave the text read and the lines sent alone. */
  lemma OthersConserve(s: State, step: Step)
    requires Conserved(s) && Enabled(s, step)
    requires !step.TakeLine? && !step.Reopen? && !step.Emit? && !step.Truncate?
    ensures Conserved(Apply(s, step))
  {
    hide EpochRecords, Records, Remainder;
    var t := Apply(s, step);
    assert t.epochs == s.epochs && t.emitted == s.emitted && t.offset == s.offset && t.Held() == s.Held();
    assert t.handle.Some? ==> s.handle.Some?;
  }

  /** Generations are only added and extended. */
  ghost predicate Grows(files: seq<string>, files': seq<string>) {
    |files| <= |files'| && forall g :: 0 <= g < |files| ==> files[g] <= files'[g]
  }

  lemma FilesGrow(s: State, step: Step)
    requires Enabled(s, step)
    ensures Grows(s.files, Apply(s, step).files)
  {
  }

  lemma SourceGrows(files: seq<string>, files': seq<string>, e: Epoch)
    requires Grows(files, files') && e.gen < |files|
    ensures Source(files, e) <= Source(files', e)
    ensures files[e.gen] == files'[e.gen] ==> Source(files, e) == Source(files', e)
  {
    var h := e.Opened();
    assert files[e.gen] <= files'[e.gen];
    if h.pos <= |files[e.gen]| {
      assert files'[e.gen][h.pos..][..|files[e.gen]| - h.pos] == files[e.gen][h.pos..];
    }
  }

  lemma InFileGrows(files: seq<string>, files': seq<string>, e: Epoch)
    requires Grows(files, files') && InFile(files, e)
    ensures InFile(files', e)
  {
    SourceGrows(files, files', e);
    assert files[e.gen] <= files'[e.gen];
  }

  /** What is true of the bytes read stays true when files grow. */
  lemma GrowthKeepsFaithful(s: State, t: State)
    requires Faithful(s) && Grows(s.files, t.files)
    requires t == s.(files := t.files, path := t.path, handle := t.handle)
    requires t.handle == s.handle || s.phase == Waiting || s.phase == Done
    ensures Faithful(t)
  {
    forall i | 0 <= i < |t.epochs| ensures InFile(t.files, t.epochs[i]) {
      InFileGrows(s.files, t.files, s.epochs[i]);
    }
    hide InFile;
    if s.handle.Some? && s.phase != Waiting && s.phase != Done {
      var e := s.Now();
      FedGrows(e.Opened(), e.text, s.handle.value, s.files[e.gen], t.files[e.gen]);
    }
    hide Fed;
    if s.seenEnd.Some? {
      var m := s.seenEnd.value;
      assert s.files[m.gen] <= t.files[m.gen];
      assert |t.files[m.gen]| == m.size ==> t.files[m.gen] == s.files[m.gen];
      SourceGrows(s.files, t.files, s.Now());
    }
  }

  lemma EnvironmentKeepsFaithful(s: State, step: Step)
    requires Conserved(s) && Faithful(s) && Enabled(s, step) && !IsReaderStep(step)
    ensures Faithful(Apply(s, step))
  {
    hide Conserved, Faithful;
    var t := Apply(s, step);
    FilesGrow(s, step);
    if step.Truncate? && Tears(s) {
      TearKeepsFaithful(s, step.size);
    } else {
      assert t == s.(files := t.files, path := t.path, handle := t.handle);
      assert t.handle == s.handle || s.phase == Waiting || s.phase == Done;
      GrowthKeepsFaithful(s, t);
    }
  }

  lemma TearKeepsFaithful(s: State, size: nat)
    requires Conserved(s) && Faithful(s) && Enabled(s, Truncate(size)) && Tears(s)
    ensures Faithful(AfterTruncate(s, size))
  {
    hide Conserved, InFile, AllRead, Placed;
    FilesGrow(s, Truncate(size));
    OffsetIsEnd(s);
    var t := AfterTruncate(s, size);
    Position(s.files, s.Now(), s.handle.value);
    CarriesOn(t.files, t.Now(), t.handle.value);
    forall i | 0 <= i < |t.epochs| ensures InFile(t.files, t.epochs[i]) {
      if i < |s.epochs| {
        InFileGrows(s.files, t.files, s.epochs[i]);
      }
    }
  }

  /** A truncated file is read on with the buffer there was. */
  lemma CarriesOn(files: seq<string>, e: Epoch, h: Handle)
    requires e.gen < |files| && e.text == "" && e.carried.Some? && e.Opened() == h
    ensures InFile(files, e) && Placed(files, e, h)
  {
    assert "" + h.buf == h.buf;
  }

  lemma FillKeepsFaithful(s: State, k: nat)
    requires Conserved(s) && Faithful(s) && Enabled(s, Fill(k))
    ensures Faithful(Apply(s, Fill(k)))
  {
    hide Conserved, InFile, AllRead;
    var e, h := s.Now(), s.handle.value;
    FedMore(e.Opened(), e.text, h, s.files[e.gen], k);
    hide Fed;
  }

  lemma TakeLineKeepsFaithful(s: State)
    requires Conserved(s) && Faithful(s) && Enabled(s, TakeLine)
    ensures Faithful(AfterLine(s))
  {
    hide Conserved, InFile, AllRead;
    var t, e, h := AfterLine(s), s.Now(), s.handle.value;
    var i := FirstNewline(h.buf);
    FedTaken(e.Opened(), e.text, h, s.files[e.gen], i);
    assert t.Now() == e.(text := e.text + h.buf[..i] + "\n") && t.Now().Opened() == e.Opened();
    hide FirstNewline, Fed;
    assert InFile(s.files, e);
    PlacedInFile(t.files, e, t.Now(), t.handle.value);
    forall j | 0 <= j < |t.epochs| ensures InFile(t.files, t.epochs[j]) {
      if j < |s.epochs| - 1 {
        assert t.epochs[j] == s.epochs[j] && InFile(s.files, s.epochs[j]);
      }
    }
    NewlineBuffered(s.files, e, h);
  }

  /** What was read into the buffer and taken from it is what the file had to give. */
  lemma PlacedInFile(files: seq<string>, before: Epoch, e: Epoch, h: Handle)
    requires InFile(files, before) && e == before.(text := e.text) && Placed(files, e, h)
    ensures InFile(files, e)
  {
    FedRest(e.Opened(), e.text, h, files[e.gen]);
  }

  lemma NewlineBuffered(files: seq<string>, e: Epoch, h: Handle)
    requires Placed(files, e, h)
    ensures AllRead(files, e) ==> '\n' !in h.buf
    ensures '\n' !in h.buf && |files[e.gen]| <= h.pos ==> AllRead(files, e)
  {
    FedRest(e.Opened(), e.text, h, files[e.gen]);
    assert Source(files, e)[|e.text|..] == Rest(h, files[e.gen]);
    assert forall j :: 0 <= j < |h.buf| ==> h.buf[j] == Rest(h, files[e.gen])[j];
  }

  lemma OffsetIsEnd(s: State)
    requires Conserved(s) && s.handle.Some?
    ensures s.offset == s.Now().End()
  {
  }

  lemma EndOfFileKeepsFaithful(s: State)
    requires Conserved(s) && Faithful(s) && Enabled(s, EndOfFile)
    ensures Faithful(Apply(s, EndOfFile))
    ensures AllRead(s.files, s.Now())
  {
    hide Conserved, InFile;
    NewlineBuffered(s.files, s.Now(), s.handle.value);
    Position(s.files, s.Now(), s.handle.value);
    hide Fed, AllRead;
  }

  lemma ReopenKeepsFaithful(s: State, fault: ReopenFault)
    requires Faithful(s) && Enabled(s, Reopen(fault))
    ensures Faithful(AfterReopen(s, fault))
  {
    ReopenEffect(s, fault);
    hide AfterReopen, AllRead;
    var t := AfterReopen(s, fault);
    if t.handle.Some? {
      ReopenPlaced(s, t);
    }
    hide Placed, InFile;
    forall i | 0 <= i < |t.epochs| ensures InFile(t.files, t.epochs[i]) {
      if i < |s.epochs| {
        assert InFile(s.files, s.epochs[i]);
      }
    }
  }

  /** A file just opened is read from the offset on. */
  lemma ReopenPlaced(s: State, t: State)
    requires t.epochs != [] && t.Now().carried.None? && t.offset == t.Now().End()
    requires t.Now().gen < |t.files| && t.offset <= |t.files[t.Now().gen]|
    requires t.handle == Some(Handle(t.Now().gen, t.offset, ""))
    requires t.Now().text == "" || InFile(t.files, t.Now())
    ensures Placed(t.files, t.Now(), t.handle.value) && InFile(t.files, t.Now())
  {
    var e, c := t.Now(), t.files[t.Now().gen];
    if e.text != "" {
      SliceOfFile(t.files, e);
      assert e.text + "" == "" + c[e.start..e.End()];
    }
  }

  lemma StepKeepsInv(s: State, step: Step)
    requires Inv(s) && Enabled(s, step)
    ensures Inv(Apply(s, step))
  {
    StepConserves(s, step);
    StepKeepsFaithful(s, step);
  }

  lemma StepKeepsFaithful(s: State, step: Step)
    requires Conserved(s) && Faithful(s) && Enabled(s, step)
    ensures Faithful(Apply(s, step))
  {
    hide Faithful, Conserved, AfterReopen, AfterTruncate;
    match step {
      case Fill(k) => FillKeepsFaithful(s, k);
      case TakeLine => TakeLineKeepsFaithful(s);
      case EndOfFile => EndOfFileKeepsFaithful(s);
      case Reopen(fault) => ReopenKeepsFaithful(s, fault);
      case Append(_, _) => EnvironmentKeepsFaithful(s, step);
      case Create(_) => EnvironmentKeepsFaithful(s, step);
      case Relink(_) => EnvironmentKeepsFaithful(s, step);
      case Remove => EnvironmentKeepsFaithful(s, step);
      case Truncate(_) => EnvironmentKeepsFaithful(s, step);
      case _ => PhaseChangeKeepsFaithful(s, step);
    }
  }

  /** The remaining steps move the goroutine on without touching a file or the offset. */
  lemma PhaseChangeKeepsFaithful(s: State, step: Step)
    requires Conserved(s) && Faithful(s) && Enabled(s, step)
    requires step.BeginRead? || step.FileClosed? || step.ReadError? || step.Emit? || step.Quit?
    ensures Faithful(Apply(s, step))
  {
    hide Placed, InFile, AllRead;
  }

  lemma StartedInv(s: State)
    requires Started(s)
    ensures Inv(s)
  {
    assert s.files[s.path.value][s.offset..s.offset] == "";
    assert EpochRecords(s.epochs) == [] by {
      assert s.epochs[..0] == [];
    }
  }

  lemma {:induction false} ReachesKeepsInv(s: State, steps: seq<Step>, t: State)
    requires Inv(s) && Reaches(s, steps, t)
    ensures Inv(t)
    decreases |steps|
  {
    if steps != [] {
      StepKeepsInv(s, steps[0]);
      ReachesKeepsInv(Apply(s, steps[0]), steps[1..], t);
    }
  }

  // ----- One stretch of reading: every record exactly once -----

  /** The environment only appends, or removes the file for a while and puts it back. */
  predicate KeepsFile(step: Step, g: nat) {
    IsReaderStep(step) || step.Append? || step.Remove? || step == Relink(g)
  }

  /** The reader stays on the epoch that began as `begun`: a file just opened, while it only grows or is away
      for a while; one truncated under the reader, until it is reopened or truncated again. */
  predicate StaysOn(step: Step, begun: Epoch) {
    if begun.carried.None? then KeepsFile(step, begun.gen) else !step.Reopen? && !step.Truncate?
  }

  /** After the epochs in `past`, the reader is on one that began as `begun`. */
  ghost predicate OnEpoch(s: State, past: seq<Epoch>, begun: Epoch) {
    && Inv(s)
    && |s.epochs| == |past| + 1 && s.epochs[..|past|] == past
    && s.Now() == begun.(text := s.Now().text)
    && (begun.carried.None? ==> s.path.None? || s.path.value == begun.gen)
    && s.offset == s.Now().End()
  }

  lemma StepOnEpoch(s: State, step: Step, past: seq<Epoch>, begun: Epoch)
    requires OnEpoch(s, past, begun) && Enabled(s, step) && StaysOn(step, begun)
    ensures OnEpoch(Apply(s, step), past, begun)
    ensures s.offset <= Apply(s, step).offset
  {
    hide Inv, Apply, Enabled;
    StepKeepsInv(s, step);
    if step.Reopen? {
      ReopenStaysOn(s, step.fault, past, begun);
    } else {
      EpochsNotEmpty(s);
      StepFrame(s, step);
      PathKept(s, step);
      assert Apply(s, step).epochs[..|past|] == past;
    }
  }

  lemma EpochsNotEmpty(s: State)
    requires Inv(s)
    ensures s.epochs != []
  {
  }

  /** The file is no shorter than the offset, so `reopen` goes on where reading stopped. */
  lemma ReopenStaysOn(s: State, fault: ReopenFault, past: seq<Epoch>, begun: Epoch)
    requires OnEpoch(s, past, begun) && Enabled(s, Reopen(fault)) && begun.carried.None?
    ensures var t := Apply(s, Reopen(fault));
            t.epochs == s.epochs && t.offset == s.offset && t.path == s.path
  {
    hide Inv, OnEpoch;
    EpochFits(s, past, begun);
  }

  lemma EpochFits(s: State, past: seq<Epoch>, begun: Epoch)
    requires OnEpoch(s, past, begun) && begun.carried.None?
    ensures s.epochs != [] && s.Now().carried.None? && s.Now().gen == begun.gen < |s.files|
    ensures s.offset == s.Now().End() <= |s.files[begun.gen]|
    ensures s.path.None? || s.path.value == begun.gen
  {
    hide Conserved, Placed, AllRead;
    assert InFile(s.files, s.epochs[|s.epochs| - 1]);
    SliceOfFile(s.files, s.Now());
  }

  lemma PathKept(s: State, step: Step)
    requires Enabled(s, step)
    ensures forall g :: KeepsFile(step, g) ==> Apply(s, step).path in {s.path, None, Some(g)}
  {
  }

  /** Only an append changes a generation, and only `reopen`, a line taken and a truncation under the reader
      change the epochs. */
  lemma StepFrame(s: State, step: Step)
    requires Enabled(s, step) && !step.Reopen? && s.epochs != [] && !(step.Truncate? && Tears(s))
    ensures var t := Apply(s, step);
            && |t.epochs| == |s.epochs| && |s.files| <= |t.files|
            && (forall i :: 0 <= i < |s.epochs| - 1 ==> t.epochs[i] == s.epochs[i])
            && t.Now() == s.Now().(text := t.Now().text)
            && (!step.TakeLine? ==> t.Now() == s.Now())
            && s.offset <= t.offset && t.offset - s.offset == t.Now().End() - s.Now().End()
            && (forall g :: 0 <= g < |s.files| && !(step.Append? && step.gen == g) ==> t.files[g] == s.files[g])
  {
  }

  lemma {:induction false} RunOnEpoch(s: State, steps: seq<Step>, t: State, past: seq<Epoch>, begun: Epoch)
    requires OnEpoch(s, past, begun) && Reaches(s, steps, t)
    requires forall i :: 0 <= i < |steps| ==> StaysOn(steps[i], begun)
    ensures OnEpoch(t, past, begun)
    ensures s.offset <= t.offset && Grows(s.files, t.files)
    decreases |steps|
  {
    if steps != [] {
      var mid := Apply(s, steps[0]);
      StepOnEpoch(s, steps[0], past, begun);
      FilesGrow(s, steps[0]);
      RunOnEpoch(mid, steps[1..], t, past, begun);
      hide OnEpoch, Apply, Reaches;
      GrowsTransitively(s.files, mid.files, t.files);
    }
  }

  lemma GrowsTransitively(a: seq<string>, b: seq<string>, c: seq<string>)
    requires Grows(a, b) && Grows(b, c)
    ensures Grows(a, c)
  {
    forall g | 0 <= g < |a| ensures a[g] <= c[g] {
      assert a[g] <= b[g] && b[g] <= c[g];
    }
  }

  /** What is emitted on an epoch: the records of the earlier ones, then those of the bytes read. */
  lemma EmittedOnEpoch(t: State, past: seq<Epoch>, begun: Epoch)
    requires OnEpoch(t, past, begun)
    ensures begun.gen < |t.files| && begun.start <= t.offset
    ensures t.offset - begun.start <= |Source(t.files, begun)|
    ensures var text := Source(t.files, begun)[..t.offset - begun.start];
            t.emitted + t.Held() == EpochRecords(past) + Records(text) && Remainder(text) == ""
  {
    hide Records, Remainder, EpochRecords;
    var now := t.Now();
    assert InFile(t.files, now) && Source(t.files, now) == Source(t.files, begun);
    assert now.text == Source(t.files, begun)[..t.offset - begun.start];
    assert t.epochs == past + [now];
    EpochRecordsPush(past, now);
    assert Remainder(t.epochs[|past|].text) == "";
  }

  /** Reading on: whatever was emitted before, a stretch adds exactly the records of what its file had to
      give between the offset then and the offset now. */
  lemma ReadsOn(s: State, steps: seq<Step>, t: State, past: seq<Epoch>, begun: Epoch)
    requires OnEpoch(s, past, begun) && Reaches(s, steps, t)
    requires forall i :: 0 <= i < |steps| ==> StaysOn(steps[i], begun)
    ensures begun.gen < |t.files| && begun.start <= s.offset <= t.offset
    ensures t.offset - begun.start <= |Source(t.files, begun)|
    ensures t.emitted + t.Held() ==
            s.emitted + s.Held() + Records(Source(t.files, begun)[s.offset - begun.start..t.offset - begun.start])
  {
    hide Records, Remainder, EpochRecords, OnEpoch, Reaches, StaysOn, Source;
    RunOnEpoch(s, steps, t, past, begun);
    EmittedOnEpoch(s, past, begun);
    EmittedOnEpoch(t, past, begun);
    SourceGrows(s.files, t.files, begun);
    var c, mid := Source(t.files, begun), s.offset - begun.start;
    assert Source(s.files, begun)[..mid] == c[..mid];
    RecordsGrow(EpochRecords(past), c, mid, t.offset - begun.start);
  }

  lemma RecordsGrow(before: seq<string>, c: string, mid: nat, end: nat)
    requires mid <= end <= |c| && Remainder(c[..mid]) == ""
    ensures before + Records(c[..end]) == before + Records(c[..mid]) + Records(c[mid..end])
  {
    hide Records, Remainder;
    assert c[..end] == c[..mid] + c[mid..end];
    RecordsAppend(c[..mid], c[mid..end]);
  }

  /** The same for a file that was opened, in terms of its bytes. */
  lemma ReadsOnFile(s: State, steps: seq<Step>, t: State, past: seq<Epoch>, begun: Epoch)
    requires OnEpoch(s, past, begun) && Reaches(s, steps, t) && begun.carried.None?
    requires forall i :: 0 <= i < |steps| ==> KeepsFile(steps[i], begun.gen)
    ensures begun.gen < |t.files| && s.offset <= t.offset <= |t.files[begun.gen]|
    ensures t.emitted + t.Held() == s.emitted + s.Held() + Records(t.files[begun.gen][s.offset..t.offset])
  {
    hide Records, OnEpoch, Reaches, Source, KeepsFile, Grows;
    ReadsOn(s, steps, t, past, begun);
    RunOnEpoch(s, steps, t, past, begun);
    OpenedInside(t, past, begun);
    var c, start := t.files[begun.gen], begun.start;
    assert c[start..][s.offset - start..t.offset - start] == c[s.offset..t.offset];
  }

  lemma OpenedInside(t: State, past: seq<Epoch>, begun: Epoch)
    requires OnEpoch(t, past, begun) && begun.carried.None?
    ensures begun.gen < |t.files| && begun.start <= |t.files[begun.gen]|
    ensures Source(t.files, begun) == t.files[begun.gen][begun.start..]
  {
    var now := t.Now();
    assert InFile(t.files, now);
    SliceOfFile(t.files, now);
  }

  /** Tailing exactly once: however the appends are cut and however often the end of file is met, the
      lines emitted (with the one about to be sent) are the records between the start size and the
      offset; the offset is the start size or just past a newline and is where reading resumes; and
      once the end of the current content has been seen, nothing of it is missing. */
  lemma TailsExactlyOnce(s: State, steps: seq<Step>, t: State)
    requires Started(s) && Reaches(s, steps, t)
    requires forall i :: 0 <= i < |steps| ==> KeepsFile(steps[i], s.path.value)
    ensures var g, start := s.path.value, s.offset;
            && g < |t.files| && start <= t.offset <= |t.files[g]|
            && t.emitted + t.Held() == Records(t.files[g][start..t.offset])
            && (t.offset == start || t.files[g][t.offset - 1] == '\n')
            && (t.handle.Some? && (t.phase == AtSelect || t.phase == Reading) ==>
                  t.handle.value.gen == g && t.handle.value.pos - |t.handle.value.buf| == t.offset)
            && t.emitted <= Records(t.files[g][start..])
            && (t.seenEnd == Some(Mark(g, |t.files[g]|)) ==>
                  t.emitted + t.Held() == Records(t.files[g][start..]))
  {
    var g, start := s.path.value, s.offset;
    StartedInv(s);
    RunOnEpoch(s, steps, t, [], Epoch(g, start, None, ""));
    hide Records, Inv, Reaches;
    FirstEpochRecords(t, g, start);
    FirstEpochPosition(t, g, start);
  }

  lemma FirstEpochPosition(t: State, g: nat, start: nat)
    requires OnEpoch(t, [], Epoch(g, start, None, ""))
    ensures t.handle.Some? && (t.phase == AtSelect || t.phase == Reading) ==>
              t.handle.value.gen == g && t.handle.value.pos - |t.handle.value.buf| == t.offset
    ensures g < |t.files| && (t.seenEnd == Some(Mark(g, |t.files[g]|)) ==> AllRead(t.files, t.epochs[0]))
  {
    var e := t.epochs[0];
    assert InFile(t.files, e);
    if t.handle.Some? && (t.phase == AtSelect || t.phase == Reading) {
      Position(t.files, e, t.handle.value);
    }
    hide Conserved, AllRead, Fed;
  }

  lemma FirstEpochRecords(t: State, g: nat, start: nat)
    requires OnEpoch(t, [], Epoch(g, start, None, ""))
    ensures g < |t.files| && start <= t.offset <= |t.files[g]|
    ensures t.emitted + t.Held() == Records(t.files[g][start..t.offset])
    ensures t.offset == start || t.files[g][t.offset - 1] == '\n'
    ensures t.emitted <= Records(t.files[g][start..])
    ensures AllRead(t.files, t.epochs[0]) ==> t.emitted + t.Held() == Records(t.files[g][start..])
  {
    hide Records, Remainder;
    var e, content := t.epochs[0], t.files[g];
    assert InFile(t.files, e) && Remainder(e.text) == "";
    OneEpoch(t);
    assert t.emitted + t.Held() == Records(e.text) && t.offset == e.End();
    hide OnEpoch, InFile, AllRead;
    SliceOfFile(t.files, e);
    EndsAfterNewline(e.text);
    assert e.text != "" ==> e.text[|e.text| - 1] == content[t.offset - 1];
    RestOfFile(t.files, e);
    assert t.emitted <= Records(e.text);
  }

  lemma RestOfFile(files: seq<string>, e: Epoch)
    requires InFile(files, e) && e.carried.None? && Remainder(e.text) == ""
    ensures Records(e.text) <= Records(files[e.gen][e.start..])
    ensures AllRead(files, e) ==> Records(e.text) == Records(files[e.gen][e.start..])
  {
    hide Records, Remainder;
    SliceOfFile(files, e);
    var rest := files[e.gen][e.End()..];
    assert files[e.gen][e.start..] == e.text + rest;
    RecordsAppend(e.text, rest);
    if AllRead(files, e) {
      RecordsOfUnterminated(e.text, rest);
    }
  }

  lemma OneEpoch(t: State)
    requires |t.epochs| == 1
    ensures EpochRecords(t.epochs) == Records(t.epochs[0].text)
  {
    assert t.epochs[..0] == [];
  }

  // ----- Composing runs -----

  lemma Extend(s: State, steps: seq<Step>, t: State, step: Step) returns (steps': seq<Step>, t': State)
    requires Reaches(s, steps, t) && Enabled(t, step)
    ensures steps' == steps + [step] && t' == Apply(t, step) && Reaches(s, steps', t')
  {
    steps', t' := steps + [step], Apply(t, step);
    ReachesOne(t, step);
    ReachesAppend(s, steps, t, [step], t');
  }

  lemma {:induction false} ReachesAppend(s: State, before: seq<Step>, mid: State, after: seq<Step>, t: State)
    requires Reaches(s, before, mid) && Reaches(mid, after, t)
    ensures Reaches(s, before + after, t)
    decreases |before|
  {
    if before == [] {
      assert before + after == after;
    } else {
      ReachesAppend(Apply(s, before[0]), before[1..], mid, after, t);
      assert (before + after)[1..] == before[1..] + after;
    }
  }

  lemma ReachesOne(s: State, step: Step)
    requires Enabled(s, step)
    ensures Reaches(s, [step], Apply(s, step))
  {
    assert Reaches(Apply(s, step), [step][1..], Apply(s, step));
  }

  lemma ReachesCons(s: State, step: Step, steps: seq<Step>, t: State)
    requires Enabled(s, step) && Reaches(Apply(s, step), steps, t)
    ensures Reaches(s, [step] + steps, t)
  {
    assert ([step] + steps)[1..] == steps;
  }
}
