/** The container log stream splitter: `LogLineReader` reads an arbitrary `io.Reader` in chunks of at
    most 1024 bytes and must cut it into the same lines as splitting the whole stream at once.
 */
module LogLineReaders {
  import opened Lines

  const CHUNK := 1024

  datatype ReadError = NoError | EndOfFile | ReadFailed

  /** One answer of the underlying reader: bytes with a nil or `io.EOF` error, or bytes with another error. */
  datatype ReadEvent = Data(bytes: string, eof: bool) | Fault(bytes: string)

  datatype LineResult = Line(text: string) | Eof | Failed

  /** The `io.Reader` contract for a 1024-byte buffer: no more bytes than fit, and `(0, EOF)` only
      at the end of the stream, which is where the script ends. */
  predicate WellFormed(script: seq<ReadEvent>) {
    forall i :: 0 <= i < |script| ==> |script[i].bytes| <= CHUNK && script[i] != Data("", true)
  }

  /** The bytes that arrived with no error or with `io.EOF`. */
  function Accepted(script: seq<ReadEvent>): string {
    if script == [] then ""
    else (if script[0].Data? then script[0].bytes else "") + Accepted(script[1..])
  }

  /** All bytes the reader handed over, including those that came with an error. */
  function Delivered(script: seq<ReadEvent>): string {
    if script == [] then "" else script[0].bytes + Delivered(script[1..])
  }

  function Faults(script: seq<ReadEvent>): nat {
    if script == [] then 0
    else (if script[0].Fault? then 1 else 0) + Faults(script[1..])
  }

  /** Every failed read came without bytes. */
  predicate FaultsCarryNothing(script: seq<ReadEvent>) {
    forall i :: 0 <= i < |script| && script[i].Fault? ==> script[i].bytes == ""
  }

  /** What one call must return when `pending` is all that is still to come. */
  function NextLine(pending: string): (r: Option<(string, string)>)
    ensures r.Some? ==> |r.value.1| < |pending|
    ensures AllLines(pending) == if r.None? then [] else [r.value.0] + AllLines(r.value.1)
  {
    if '\n' in pending then
      var i := FirstNewline(pending);
      assert AllLines(pending) == [pending[..i]] + AllLines(pending[i + 1..]);
      Some((pending[..i], pending[i + 1..]))
    else if pending == "" then None
    else Some((pending, ""))
  }

  /** An arbitrary chunked reader, given by the answers it will produce. */
  class ByteSource {
    var script: seq<ReadEvent>

    constructor (script: seq<ReadEvent>)
      ensures this.script == script
    {
      this.script := script;
    }

    method Read(chunk: array<char>) returns (n: nat, err: ReadError)
      requires WellFormed(script) && chunk.Length == CHUNK
      modifies this, chunk
      ensures old(script) == [] ==> n == 0 && err == EndOfFile && script == []
      ensures old(script) != [] ==>
                && script == old(script)[1..]
                && n == |old(script)[0].bytes| <= CHUNK
                && chunk[..n] == old(script)[0].bytes
                && err == match old(script)[0] {
                            case Data(_, eof) => if eof then EndOfFile else NoError
                            case Fault(_) => ReadFailed
                          }
    {
      if script == [] {
        return 0, EndOfFile;
      }
      var event := script[0];
      script := script[1..];
      n := |event.bytes|;
      forall i | 0 <= i < n {
        chunk[i] := event.bytes[i];
      }
      err := match event {
        case Data(_, eof) => if eof then EndOfFile else NoError
        case Fault(_) => ReadFailed
      };
    }
  }

  class LogLineReader {
    const source: ByteSource
    var buffer: string

    constructor (source: ByteSource)
      ensures this.source == source && buffer == ""
    {
      this.source := source;
      buffer := "";
    }

    /** Everything that is still to be returned as lines. */
    ghost function Pending(): string
      reads this, source
    {
      buffer + Accepted(source.script)
    }

    method ReadLine() returns (r: LineResult)
      requires WellFormed(source.script)
      modifies this, source
      ensures WellFormed(source.script)
      ensures r.Line? ==> NextLine(old(Pending())) == Some((r.text, Pending()))
      ensures r.Eof? ==> old(Pending()) == "" && Pending() == "" && source.script == []
      ensures r.Failed? ==> Pending() == old(Pending())
      ensures Faults(source.script) == old(Faults(source.script)) - (if r.Failed? then 1 else 0)
    {
      var chunk := new char[CHUNK];
      while true
        invariant fresh(chunk) && WellFormed(source.script)
        invariant Pending() == old(Pending())
        invariant Faults(source.script) == old(Faults(source.script))
        decreases |source.script|
      {
        var i := 0;
        while i < |buffer|
          invariant i <= |buffer| && '\n' !in buffer[..i]
        {
          if buffer[i] == '\n' {
            TakeFirst(buffer, Accepted(source.script), i);
            r := Line(buffer[..i]);
            buffer := buffer[i + 1..];
            return;
          }
          i := i + 1;
        }
        assert buffer[..i] == buffer;

        var n, err := source.Read(chunk);
        if err == ReadFailed {
          return Failed;
        }
        if n == 0 && err == EndOfFile {
          assert old(Pending()) == buffer;
          if |buffer| > 0 {
            r := Line(buffer);
            buffer := "";
            return;
          }
          return Eof;
        }
        buffer := buffer + chunk[..n];
      }
    }

    /** Calls `ReadLine` until it reports the end of the stream, trying again after every failed read. */
    method ReadAll() returns (lines: seq<string>)
      requires WellFormed(source.script)
      modifies this, source
      ensures lines == AllLines(old(Pending()))
      ensures Pending() == "" && source.script == []
    {
      lines := [];
      while true
        invariant WellFormed(source.script)
        invariant lines + AllLines(Pending()) == AllLines(old(Pending()))
        decreases Faults(source.script) + |Pending()|
      {
        ghost var pending := Pending();
        var r := ReadLine();
        match r {
          case Line(text) =>
            Accumulate(lines, pending, text, Pending());
            lines := lines + [text];
          case Eof =>
            return;
          case Failed =>
        }
      }
    }

    /** The inner loop of `tailContainer`: lines are passed on until the first error, whichever it is. */
    method ReadUntilError() returns (lines: seq<string>, failed: bool)
      requires WellFormed(source.script)
      modifies this, source
      ensures lines + AllLines(Pending()) == AllLines(old(Pending()))
      ensures !failed ==> lines == AllLines(old(Pending()))
      ensures old(Faults(source.script)) == 0 ==> !failed
    {
      lines := [];
      while true
        invariant WellFormed(source.script)
        invariant Faults(source.script) == old(Faults(source.script))
        invariant lines + AllLines(Pending()) == AllLines(old(Pending()))
        decreases |Pending()|
      {
        ghost var pending := Pending();
        var r := ReadLine();
        match r {
          case Line(text) =>
            Accumulate(lines, pending, text, Pending());
            lines := lines + [text];
          case Eof =>
            return lines, false;
          case Failed =>
            return lines, true;
        }
      }
    }
  }

  /** The first line of the buffer is the first line of everything pending. */
  lemma TakeFirst(buffer: string, rest: string, i: nat)
    requires i < |buffer| && buffer[i] == '\n' && '\n' !in buffer[..i]
    ensures NextLine(buffer + rest) == Some((buffer[..i], buffer[i + 1..] + rest))
  {
    var s := buffer + rest;
    assert s[..i] == buffer[..i] && s[i + 1..] == buffer[i + 1..] + rest;
    FirstNewlineUnique(s, i);
  }

  lemma Accumulate(lines: seq<string>, pending: string, text: string, rest: string)
    requires NextLine(pending) == Some((text, rest))
    ensures lines + [text] + AllLines(rest) == lines + AllLines(pending)
    ensures |rest| < |pending|
  {
  }

  /** Chunk independence: however the reader cuts the stream, and whatever failures are interspersed,
      repeated `ReadLine` returns the lines of the accepted bytes. */
  method SplitStream(script: seq<ReadEvent>) returns (lines: seq<string>)
    requires WellFormed(script)
    ensures lines == AllLines(Accepted(script))
  {
    var source := new ByteSource(script);
    var reader := new LogLineReader(source);
    assert reader.Pending() == Accepted(script);
    lines := reader.ReadAll();
  }

  lemma {:induction false} DeliveredLength(script: seq<ReadEvent>)
    ensures |Accepted(script)| <= |Delivered(script)|
    ensures Accepted(script) == Delivered(script) <==> FaultsCarryNothing(script)
    ensures |Accepted(script)| == |Delivered(script)| <==> FaultsCarryNothing(script)
  {
    if script != [] {
      DeliveredLength(script[1..]);
      var head, tail := script[0], script[1..];
      if FaultsCarryNothing(tail) && (head.Fault? ==> head.bytes == "") {
        assert forall i :: 0 < i < |script| ==> script[i] == tail[i - 1];
        assert FaultsCarryNothing(script);
      }
      if FaultsCarryNothing(script) {
        assert forall i :: 0 <= i < |tail| ==> tail[i] == script[i + 1];
      }
    }
  }

  /** Bytes that arrive together with an error are dropped.  The lines are still those of the whole
      stream exactly when no failure carries bytes, or when the one byte lost is the newline that
      would have ended the last line. */
  lemma LostBytes(script: seq<ReadEvent>)
    ensures AllLines(Accepted(script)) == AllLines(Delivered(script)) <==>
            (FaultsCarryNothing(script)
             || (Remainder(Accepted(script)) != "" && Delivered(script) == Accepted(script) + "\n"))
  {
    var a, d := Accepted(script), Delivered(script);
    DeliveredLength(script);
    SameLines(a, d);
    if Remainder(a) != "" && d == a + "\n" {
      EndsAfterNewline(d);
    }
  }

  /** A failed read that carries bytes can lose a line. */
  lemma LostBytesExample()
    ensures var script := [Fault("a\n"), Data("b\n", false)];
            WellFormed(script) && AllLines(Accepted(script)) != AllLines(Delivered(script))
  {
    hide AllLines, Remainder;
    var script := [Fault("a\n"), Data("b\n", false)];
    assert Accepted(script[1..]) == "b\n" && Accepted(script) == "b\n";
    assert Delivered(script[1..]) == "b\n" && Delivered(script) == "a\nb\n";
    LostBytes(script);
    assert script[0].Fault? && script[0].bytes != "";
  }
}
