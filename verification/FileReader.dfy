/** The sequential operations of `FileReader` on its own fields, each shown to be a run of the
    tailing protocol in module `Tail`.
 */
module FileReaders {
  import opened Lines
  import opened Tail

  /** The part of the file system the reader sees. */
  class Disk {
    var files: seq<string>
    var path: Option<nat>

    constructor (files: seq<string>, path: Option<nat>)
      ensures this.files == files && this.path == path
    {
      this.files, this.path := files, path;
    }

    /** Another process changes the file system. */
    method Change(change: Step)
      modifies this
      ensures forall s: State :: s.files == old(files) && s.path == old(path) ==>
                Changed(s, change).files == files && Changed(s, change).path == path
    {
      var s := Changed(State(files, path, 0, None, Done, [], [], None), change);
      files, path := s.files, s.path;
    }
  }

  /** The effect of a change by another process; other steps have none. */
  function Changed(s: State, change: Step): State {
    if Enabled(s, change) && !IsReaderStep(change) then Apply(s, change) else s
  }

  lemma ChangeEffect(s: State, change: Step)
    requires s.path.Some? ==> s.path.value < |s.files|
    ensures var t := Changed(s, change);
            && Grows(s.files, t.files)
            && (t.path.Some? ==> t.path.value < |t.files|)
            && t.offset == s.offset && t.phase == s.phase && (s.epochs != [] ==> t.epochs != [])
            && t.handle == (if change.Truncate? && |s.files| < |t.files| && s.handle.Some?
                               && s.path == Some(s.handle.value.gen)
                            then Some(s.handle.value.(gen := |s.files|)) else s.handle)
  {
  }

  /** `h` has what `h0` had in its buffer, and perhaps more bytes read after it. */
  predicate ReadFurther(h0: Handle, h: Handle) {
    h0.buf <= h.buf && h.pos - |h.buf| == h0.pos - |h0.buf|
  }

  lemma FedFurther(h0: Handle, h: Handle, h': Handle, content: string)
    requires ReadFurther(h0, h) && Fed(h, "", h', content)
    ensures ReadFurther(h0, h')
  {
    assert "" + h'.buf == h'.buf;
    assert h.buf <= h'.buf;
  }

  /** No file is truncated while it is being read. */
  predicate NoTruncation(changes: seq<Step>) {
    forall i :: 0 <= i < |changes| ==> !changes[i].Truncate?
  }

  /** The environment's part of a run. */
  predicate OnlyChanges(steps: seq<Step>, changes: seq<Step>) {
    forall i :: 0 <= i < |steps| && !IsReaderStep(steps[i]) ==> steps[i] in changes
  }

  class FileReader {
    const disk: Disk
    var offset: nat
    var file: Option<Handle>

    constructor (disk: Disk)
      ensures this.disk == disk && offset == 0 && file == None
    {
      this.disk, offset, file := disk, 0, None;
    }

    ghost predicate Valid()
      reads this, disk
    {
      && (disk.path.Some? ==> disk.path.value < |disk.files|)
      && (file.Some? ==> file.value.gen < |disk.files|)
    }

    /** The protocol state `s` describes this reader and its disk. */
    ghost predicate Matches(s: State)
      reads this, disk
    {
      s.files == disk.files && s.path == disk.path && s.offset == offset && s.handle == file
    }

    ghost function Unread(): string
      requires Valid() && file.Some?
      reads this, disk
    {
      Rest(file.value, disk.files[file.value.gen])
    }

    method Start(openFails: bool, seekFails: bool) returns (ok: bool, ghost s: State)
      requires Valid()
      modifies this
      ensures ok <==> disk.path.Some? && !openFails && !seekFails
      ensures ok ==> Valid() && Started(s) && Matches(s)
    {
      s := State(disk.files, disk.path, 0, None, Done, [], [], None);
      if disk.path.None? || openFails {
        file := None;
        return false, s;
      }
      var g := disk.path.value;
      if seekFails {
        offset := 0;
        return false, s;
      }
      offset := |disk.files[g]|;
      file := Some(Handle(g, offset, ""));
      return true, State(disk.files, disk.path, offset, file, AtSelect, [], [Epoch(g, offset, None, "")], None);
    }

    /** `readLine`: the next newline-terminated line of what is unread, if there is one; an unterminated
        line is an error and leaves the offset alone.  The file system may change before every read of the
        file: the open file may grow, and what counts is the content when the call ends; or it may be
        truncated, and then the line comes from `h`, the open file as the last truncation left it.
        `errorAfter` says after how many reads, if ever, the operating system reports an error. */
    method ReadLine(errorAfter: Option<nat>, changes: seq<Step>, ghost s: State)
      returns (line: Option<string>, ghost h: Handle, ghost steps: seq<Step>, ghost t: State)
      requires Valid() && Matches(s) && s.phase == Reading && s.epochs != []
      modifies this, disk
      ensures Valid() && Grows(old(disk.files), disk.files)
      ensures old(file).Some? ==>
                && file.Some? && h.gen == file.value.gen && ReadFurther(old(file).value, h)
                && (NoTruncation(changes) ==> h == old(file).value)
      ensures line.Some? ==>
                && old(file).Some? && '\n' !in line.value
                && Rest(h, disk.files[h.gen]) == line.value + "\n" + Unread()
                && offset == old(offset) + |line.value| + 1
      ensures line.None? ==> offset == old(offset)
      ensures old(file).Some? && errorAfter.None? ==> (line.Some? <==> '\n' in Rest(h, disk.files[h.gen]))
      ensures Reaches(s, steps, t) && Matches(t) && OnlyChanges(steps, changes)
      ensures changes == [] ==> disk.files == old(disk.files) && disk.path == old(disk.path)
      ensures t.phase == if line.None? then Waiting
                         else if line.value == "" then AtSelect else Holding(line.value)
    {
      if file.None? {
        steps, t := Extend(s, [], s, FileClosed);
        return None, Handle(0, 0, ""), steps, t;
      }
      var found;
      found, h, steps, t := BufferLine(errorAfter, changes, s);
      if !found {
        return None, h, steps, t;
      }
      steps, t := Extend(s, steps, t, TakeLine);
      hide Reaches, ReadFurther;
      var text := TakeBuffered();
      line := Some(text);
    }

    /** Cuts the first line off the buffer and moves the offset past it. */
    method TakeBuffered() returns (line: string)
      requires Valid() && file.Some? && '\n' in file.value.buf
      modifies this
      ensures Valid() && file.Some? && '\n' !in line
      ensures old(Unread()) == line + "\n" + Unread()
      ensures var h := old(file).value;
              var i := FirstNewline(h.buf);
              line == h.buf[..i] && offset == old(offset) + i + 1 && file == Some(h.(buf := h.buf[i + 1..]))
    {
      var h := file.value;
      var i := FirstNewline(h.buf);
      CutAt(h.buf, i);
      offset := offset + i + 1;
      file := Some(h.(buf := h.buf[i + 1..]));
      line := h.buf[..i];
      assert old(Unread()) == line + "\n" + Unread();
    }

    /** The inside of `bufio.Reader.ReadString`: read until the buffer holds a newline or a read fails. */
    method BufferLine(errorAfter: Option<nat>, changes: seq<Step>, ghost s: State)
      returns (found: bool, ghost h: Handle, ghost steps: seq<Step>, ghost t: State)
      requires Valid() && Matches(s) && s.phase == Reading && s.epochs != [] && file.Some?
      modifies this`file, disk
      ensures Valid() && file.Some? && Grows(old(disk.files), disk.files)
      ensures h.gen == file.value.gen && ReadFurther(old(file).value, h)
      ensures NoTruncation(changes) ==> h == old(file).value
      ensures Unread() == Rest(h, disk.files[h.gen])
      ensures found ==> '\n' in file.value.buf
      ensures errorAfter.None? ==> (found <==> '\n' in Unread())
      ensures Reaches(s, steps, t) && Matches(t) && t.epochs != [] && OnlyChanges(steps, changes)
      ensures changes == [] ==> disk.files == old(disk.files) && disk.path == old(disk.path)
      ensures t.phase == if found then Reading else Waiting
    {
      hide Reaches, Enabled, Apply, Rest, OnlyChanges, Changed, Fed, Grows;
      FedNothing(file.value, disk.files[file.value.gen]);
      NothingGrows(disk.files);
      NothingYet(s, changes);
      t, steps := s, [];
      h := file.value;
      var tries := 0;
      while '\n' !in file.value.buf
        invariant Valid() && file.Some? && Matches(t) && Reaches(s, steps, t)
        invariant t.phase == Reading && t.epochs != [] && OnlyChanges(steps, changes)
        invariant Grows(old(disk.files), disk.files)
        invariant h.gen == file.value.gen && Fed(h, "", file.value, disk.files[h.gen])
        invariant ReadFurther(old(file).value, h) && (NoTruncation(changes) ==> h == old(file).value)
        invariant changes == [] ==> disk.files == old(disk.files) && disk.path == old(disk.path)
        decreases if tries < |changes| then |changes| - tries else 0, |disk.files[file.value.gen]| - file.value.pos
      {
        if tries < |changes| {
          ghost var before := disk.files;
          FedFurther(old(file).value, h, file.value, before[h.gen]);
          h, steps, t := Meanwhile(changes[tries], h, changes, s, steps, t);
          GrowsTransitively(old(disk.files), before, disk.files);
        }
        ghost var h1 := file.value;
        var more;
        more, steps, t := Read(errorAfter == Some(tries), s, changes, steps, t);
        if !more {
          FedRest(h, "", h1, disk.files[h.gen]);
          return false, h, steps, t;
        }
        FedMore(h, "", h1, disk.files[h.gen], file.value.pos - h1.pos);
        tries := tries + 1;
      }
      FedRest(h, "", file.value, disk.files[h.gen]);
      BufferedFirst(file.value, disk.files[h.gen]);
      return true, h, steps, t;
    }

    /** One read of the file into the buffer: some bytes, or the end of file, or an error. */
    method Read(fails: bool, ghost s: State, ghost changes: seq<Step>, ghost before: seq<Step>, ghost mid: State)
      returns (more: bool, ghost steps: seq<Step>, ghost t: State)
      requires Valid() && file.Some? && '\n' !in file.value.buf
      requires Matches(mid) && mid.phase == Reading && mid.epochs != []
      requires Reaches(s, before, mid) && OnlyChanges(before, changes)
      modifies this`file
      ensures Valid() && file.Some?
      ensures var h, content := old(file).value, disk.files[old(file).value.gen];
              if more then
                && h.pos < file.value.pos <= |content|
                && file == Some(h.(pos := file.value.pos, buf := h.buf + content[h.pos..file.value.pos]))
              else
                && file == Some(h)
                && (!fails ==> '\n' !in Rest(h, content))
      ensures Matches(t) && t.phase == (if more then Reading else Waiting) && t.epochs != []
      ensures Reaches(s, steps, t) && OnlyChanges(steps, changes)
    {
      hide Reaches;
      var h := file.value;
      var content := disk.files[h.gen];
      if fails {
        steps, t := Extend(s, before, mid, ReadError);
        return false, steps, t;
      }
      if |content| <= h.pos {
        steps, t := Extend(s, before, mid, EndOfFile);
        assert Rest(h, content) == h.buf;
        return false, steps, t;
      }
      var k :| 1 <= k <= |content| - h.pos;
      steps, t := Extend(s, before, mid, Fill(k));
      file := Some(h.(pos := h.pos + k, buf := h.buf + content[h.pos..h.pos + k]));
      return true, steps, t;
    }

    /** Another process makes a change while a call is under way; a truncation takes the open file along. */
    method Meanwhile(
      change: Step, ghost h: Handle, ghost changes: seq<Step>, ghost s: State, ghost before: seq<Step>, ghost mid: State)
      returns (ghost h': Handle, ghost steps: seq<Step>, ghost t: State)
      requires Valid() && file.Some? && Matches(mid) && mid.epochs != []
      requires h.gen == file.value.gen && Fed(h, "", file.value, disk.files[h.gen])
      requires Reaches(s, before, mid) && OnlyChanges(before, changes) && change in changes
      modifies this`file, disk
      ensures Valid() && file.Some? && Grows(old(disk.files), disk.files)
      ensures file.value.buf == old(file).value.buf
      ensures h' == h || (change.Truncate? && h' == file.value && ReadFurther(old(file).value, h'))
      ensures h'.gen == file.value.gen && Fed(h', "", file.value, disk.files[h'.gen])
      ensures Matches(t) && t.phase == mid.phase && t.epochs != []
      ensures Reaches(s, steps, t) && OnlyChanges(steps, changes)
    {
      hide Reaches;
      var path, size := disk.path, |disk.files|;
      ChangeEffect(mid, change);
      disk.Change(change);
      h' := h;
      if change.Truncate? && size < |disk.files| && path == Some(file.value.gen) {
        file := Some(file.value.(gen := size));
        h' := file.value;
      } else {
        FedGrows(h, "", file.value, old(disk.files)[h.gen], disk.files[h.gen]);
      }
      t, steps := Changed(mid, change), before;
      if Enabled(mid, change) && !IsReaderStep(change) {
        steps, t := Extend(s, before, mid, change);
      }
    }

    /** `reopen`: a file shorter than the offset is taken for a new one and read from its start. */
    method Reopen(fault: ReopenFault, ghost s: State) returns (ghost t: State)
      requires Valid() && Matches(s) && s.phase == Waiting && s.epochs != []
      modifies this
      ensures Valid() && Reaches(s, [Tail.Reopen(fault)], t) && Matches(t)
      ensures t.phase == AtSelect
      ensures file.Some? <==> disk.path.Some? && fault == NoFault
      ensures file.Some? ==>
                && file.value.gen == disk.path.value
                && offset == (if |disk.files[file.value.gen]| < old(offset) then 0 else old(offset))
                && Unread() == disk.files[file.value.gen][offset..]
      ensures disk.path.None? || fault == OpenFails || fault == StatFails ==> offset == old(offset)
    {
      t := Apply(s, Tail.Reopen(fault));
      ReachesOne(s, Tail.Reopen(fault));
      if file.Some? {
        file := None;
      }
      if disk.path.None? || fault == OpenFails {
        return;
      }
      var g := disk.path.value;
      if fault == StatFails {
        return;
      }
      var size := |disk.files[g]|;
      if size < offset {
        offset := 0;
      }
      if fault == SeekFails {
        return;
      }
      file := Some(Handle(g, offset, ""));
    }
  }

  lemma FedNothing(h: Handle, content: string)
    ensures Fed(h, "", h, content)
  {
    assert "" + h.buf == h.buf;
  }

  lemma NothingGrows(files: seq<string>)
    ensures Grows(files, files)
  {
  }

  lemma NothingYet(s: State, changes: seq<Step>)
    ensures Reaches(s, [], s) && OnlyChanges([], changes)
  {
  }

  lemma BufferedFirst(h: Handle, content: string)
    ensures '\n' in h.buf ==> '\n' in Rest(h, content)
  {
  }
}
