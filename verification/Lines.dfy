/** Splitting a byte stream into newline-terminated lines.

    Go strings are byte sequences; here one `char` stands for one byte.  This module is the
    reference meaning of "line" shared by the file tailer, the container log reader and the
    rendered agent configuration.
 */
module Lines {

  datatype Option<+T> = None | Some(value: T)

  /** The position of the first newline. */
  function FirstNewline(s: string): (i: nat)
    requires '\n' in s
    ensures i < |s| && s[i] == '\n' && '\n' !in s[..i]
  {
    if s[0] == '\n' then 0 else 1 + FirstNewline(s[1..])
  }

  /** The newline-terminated lines of `s`, without their newlines. */
  function CompleteLines(s: string): seq<string>
    decreases |s|
  {
    if '\n' !in s then []
    else
      var i := FirstNewline(s);
      [s[..i]] + CompleteLines(s[i + 1..])
  }

  /** What follows the last newline of `s`. */
  function Remainder(s: string): string
    decreases |s|
  {
    if '\n' !in s then s else Remainder(s[FirstNewline(s) + 1..])
  }

  /** All lines of a finished stream: a non-empty unterminated tail is the last line. */
  function AllLines(s: string): seq<string> {
    CompleteLines(s) + (if Remainder(s) == "" then [] else [Remainder(s)])
  }

  function NonEmpty(lines: seq<string>): seq<string> {
    if lines == [] then []
    else (if lines[0] == "" then [] else [lines[0]]) + NonEmpty(lines[1..])
  }

  /** The log records of `s`: its complete lines, the empty ones skipped. */
  function Records(s: string): seq<string> {
    NonEmpty(CompleteLines(s))
  }

  /** The inverse of splitting: every line followed by a newline. */
  function Unlines(lines: seq<string>): string {
    if lines == [] then "" else lines[0] + "\n" + Unlines(lines[1..])
  }

  function Flatten<T>(groups: seq<seq<T>>): seq<T> {
    if groups == [] then [] else groups[0] + Flatten(groups[1..])
  }

  predicate NewlineFree(lines: seq<string>) {
    forall i :: 0 <= i < |lines| ==> '\n' !in lines[i]
  }

  lemma FirstNewlineUnique(s: string, i: nat)
    requires i < |s| && s[i] == '\n' && '\n' !in s[..i]
    ensures FirstNewline(s) == i
  {
  }

  lemma FirstNewlineOfPrefix(a: string, b: string)
    requires '\n' in a
    ensures FirstNewline(a + b) == FirstNewline(a)
  {
    var i := FirstNewline(a);
    assert (a + b)[..i] == a[..i];
    FirstNewlineUnique(a + b, i);
  }

  /** Splitting may be resumed from the unterminated remainder: where the stream is cut does not matter. */
  lemma {:induction false} SplitAppend(a: string, b: string)
    ensures CompleteLines(a + b) == CompleteLines(a) + CompleteLines(Remainder(a) + b)
    ensures Remainder(a + b) == Remainder(Remainder(a) + b)
    decreases |a|
  {
    if '\n' in a {
      var i := FirstNewline(a);
      FirstNewlineOfPrefix(a, b);
      assert (a + b)[..i] == a[..i];
      assert (a + b)[i + 1..] == a[i + 1..] + b;
      SplitAppend(a[i + 1..], b);
    }
  }

  /** One terminated line in front of `rest`. */
  lemma SplitCons(line: string, rest: string)
    requires '\n' !in line
    ensures CompleteLines(line + "\n" + rest) == [line] + CompleteLines(rest)
    ensures Remainder(line + "\n" + rest) == Remainder(rest)
  {
    var s := line + "\n" + rest;
    assert s[..|line|] == line && s[|line| + 1..] == rest;
    FirstNewlineUnique(s, |line|);
  }

  /** Splitting is the inverse of joining, and the only one: `lines` and `rest` are the split of `s`
      exactly when they are newline-free and join back to `s`. */
  lemma {:induction false} SplitCharacterised(s: string, lines: seq<string>, rest: string)
    ensures (NewlineFree(lines) && '\n' !in rest && s == Unlines(lines) + rest)
       <==> (lines == CompleteLines(s) && rest == Remainder(s))
    decreases |lines|
  {
    SplitJoins(s);
    SplitNewlineFree(s);
    if NewlineFree(lines) && '\n' !in rest && s == Unlines(lines) + rest && lines != [] {
      var s' := Unlines(lines[1..]) + rest;
      assert s == lines[0] + "\n" + s';
      SplitCharacterised(s', lines[1..], rest);
      SplitCons(lines[0], s');
    }
  }

  lemma JoinAssociates(line: string, u: string, r: string)
    ensures (line + "\n" + u) + r == line + "\n" + (u + r)
  {
  }

  lemma CutAt(s: string, i: nat)
    requires i < |s| && s[i] == '\n'
    ensures s == s[..i] + "\n" + s[i + 1..]
  {
  }

  lemma UnlinesCons(line: string, lines: seq<string>)
    ensures Unlines([line] + lines) == line + "\n" + Unlines(lines)
  {
    assert ([line] + lines)[1..] == lines;
  }

  lemma {:induction false} SplitNewlineFree(s: string)
    ensures NewlineFree(CompleteLines(s)) && '\n' !in Remainder(s)
    decreases |s|
  {
    if '\n' in s {
      SplitNewlineFree(s[FirstNewline(s) + 1..]);
    }
  }

  lemma {:induction false} SplitJoins(s: string)
    ensures s == Unlines(CompleteLines(s)) + Remainder(s)
    decreases |s|
  {
    if '\n' in s {
      var i := FirstNewline(s);
      var rest := s[i + 1..];
      SplitJoins(rest);
      UnlinesCons(s[..i], CompleteLines(rest));
      JoinAssociates(s[..i], Unlines(CompleteLines(rest)), Remainder(rest));
      CutAt(s, i);
    }
  }

  lemma {:induction false} NonEmptyAppend(a: seq<string>, b: seq<string>)
    ensures NonEmpty(a + b) == NonEmpty(a) + NonEmpty(b)
  {
    if a == [] {
      assert a + b == b;
    } else {
      assert (a + b)[1..] == a[1..] + b;
      NonEmptyAppend(a[1..], b);
    }
  }

  lemma {:induction false} FlattenAppend<T>(a: seq<seq<T>>, b: seq<seq<T>>)
    ensures Flatten(a + b) == Flatten(a) + Flatten(b)
  {
    if a == [] {
      assert a + b == b;
    } else {
      assert (a + b)[1..] == a[1..] + b;
      FlattenAppend(a[1..], b);
    }
  }

  /** Records of a stream cut anywhere. */
  lemma RecordsCut(a: string, b: string)
    ensures Records(a + b) == Records(a) + Records(Remainder(a) + b)
  {
    SplitAppend(a, b);
    NonEmptyAppend(CompleteLines(a), CompleteLines(Remainder(a) + b));
  }

  /** Records of a stream cut just after a newline. */
  lemma RecordsAppend(a: string, b: string)
    requires Remainder(a) == ""
    ensures Records(a + b) == Records(a) + Records(b)
    ensures Remainder(a + b) == Remainder(b)
  {
    SplitAppend(a, b);
    assert Remainder(a) + b == b;
    NonEmptyAppend(CompleteLines(a), CompleteLines(b));
  }

  /** Consuming one more line adds it to the records unless it is empty. */
  lemma RecordsStep(a: string, line: string)
    requires Remainder(a) == "" && '\n' !in line
    ensures Records(a + line + "\n") == Records(a) + (if line == "" then [] else [line])
    ensures Remainder(a + line + "\n") == ""
  {
    SplitCons(line, "");
    assert line + "\n" + "" == line + "\n";
    assert a + line + "\n" == a + (line + "\n");
    RecordsAppend(a, line + "\n");
    assert CompleteLines(line + "\n") == [line];
    OneLine(line);
  }

  /** A newline-free suffix holds no record. */
  lemma RecordsOfUnterminated(a: string, b: string)
    requires Remainder(a) == "" && '\n' !in b
    ensures Records(a + b) == Records(a)
  {
    RecordsAppend(a, b);
  }

  /** `d` stands in for the records that `a` contributes in front of `b`: they are the same, and `a` does not
      end inside a record of `a + b`; or the cut is just before that record's newline and `d` has it whole. */
  predicate Replaces(d: seq<string>, a: string, b: string) {
    if Remainder(a) == "" || '\n' !in b then d == Records(a)
    else b[0] == '\n' && d == Records(a + "\n")
  }

  lemma ReplacedPrefix(d: seq<string>, a: string, b: string)
    ensures d + Records(b) == Records(a + b) <==> Replaces(d, a, b)
  {
    hide Records, CompleteLines;
    SplitNewlineFree(a);
    if Remainder(a) == "" {
      RecordsAppend(a, b);
      SameEnding(d, Records(a), Records(b));
    } else if '\n' !in b {
      RecordsCut(a, b);
      Unterminated(Remainder(a) + b);
      Unterminated(b);
      assert d + [] == d && Records(a) + [] == Records(a);
    } else {
      CutRecord(d, a, b);
    }
  }

  lemma Unterminated(b: string)
    requires '\n' !in b
    ensures Records(b) == []
  {
  }

  lemma NoRecords()
    ensures Records("") == [] && Remainder("") == ""
  {
  }

  lemma SameEnding<T>(x: seq<T>, y: seq<T>, end: seq<T>)
    ensures x + end == y + end <==> x == y
  {
    if x + end == y + end {
      assert |x| == |y|;
      assert (x + end)[..|x|] == x && (y + end)[..|y|] == y;
    }
  }

  lemma CutRecord(d: seq<string>, a: string, b: string)
    requires Remainder(a) != "" && '\n' in b
    ensures d + Records(b) == Records(a + b) <==> b[0] == '\n' && d == Records(a + "\n")
  {
    hide Records, CompleteLines;
    SplitNewlineFree(a);
    var i, r := FirstNewline(b), Remainder(a);
    var line, rest := b[..i], b[i + 1..];
    CutAt(b, i);
    RecordsCons(line, rest);
    RecordsCut(a, b);
    assert r + b == (r + line) + "\n" + rest;
    RecordsCons(r + line, rest);
    RecordsCut(a, "\n");
    assert r + "\n" == r + "\n" + "";
    RecordsCons(r, "");
    NoRecords();
    assert Records(a + "\n") == Records(a) + [r];
    assert Records(a + b) == (Records(a) + [r + line]) + Records(rest);
    if line == "" {
      assert r + line == r && Records(b) == Records(rest);
      SameEnding(d, Records(a) + [r], Records(rest));
    } else {
      assert b[0] == line[0] != '\n';
      assert d + Records(b) == (d + [line]) + Records(rest);
      SameEnding(d + [line], Records(a) + [r + line], Records(rest));
      LastDiffers(d, line, Records(a), r + line);
    }
  }

  lemma LastDiffers<T>(x: seq<T>, a: T, y: seq<T>, b: T)
    requires a != b
    ensures x + [a] != y + [b]
  {
    var p, q := x + [a], y + [b];
    assert p[|p| - 1] == a && q[|q| - 1] == b;
  }

  /** Skipping the first bytes of a file is harmless exactly when they hold no record and do not cut one. */
  lemma SkippedPrefix(a: string, b: string)
    ensures Records(a + b) == Records(b) <==> Records(a) == [] && (Remainder(a) == "" || '\n' !in b)
  {
    hide Records;
    ReplacedPrefix([], a, b);
    assert [] + Records(b) == Records(b);
    if Remainder(a) != "" {
      SplitNewlineFree(a);
      RecordsCut(a, "\n");
      assert Remainder(a) + "\n" == Remainder(a) + "\n" + "";
      RecordsCons(Remainder(a), "");
    }
  }

  lemma RecordsCons(line: string, rest: string)
    requires '\n' !in line
    ensures Records(line + "\n" + rest) == (if line == "" then [] else [line]) + Records(rest)
  {
    SplitCons(line, rest);
    NonEmptyAppend([line], CompleteLines(rest));
    OneLine(line);
  }

  lemma OneLine(line: string)
    ensures NonEmpty([line]) == if line == "" then [] else [line]
  {
    assert [line][1..] == [];
  }

  lemma {:induction false} EndsAfterNewline(a: string)
    ensures Remainder(a) == "" <==> a == "" || a[|a| - 1] == '\n'
    decreases |a|
  {
    if '\n' in a {
      var i := FirstNewline(a);
      var rest := a[i + 1..];
      EndsAfterNewline(rest);
      assert Remainder(a) == Remainder(rest);
      hide Remainder, FirstNewline;
      assert if rest == "" then a[|a| - 1] == a[i] else a[|a| - 1] == rest[|rest| - 1];
    }
  }

  lemma {:induction false} UnlinesAppend(a: seq<string>, b: seq<string>)
    ensures Unlines(a + b) == Unlines(a) + Unlines(b)
  {
    if a == [] {
      assert a + b == b;
    } else {
      assert (a + b)[1..] == a[1..] + b;
      UnlinesAppend(a[1..], b);
    }
  }

  /** `s` with its last line terminated. */
  function Terminated(s: string): string {
    if Remainder(s) == "" then s else s + "\n"
  }

  lemma UnlinesOfAllLines(s: string)
    ensures Unlines(AllLines(s)) == Terminated(s)
  {
    SplitJoins(s);
    var lines, r := CompleteLines(s), Remainder(s);
    if r == "" {
      assert AllLines(s) == lines;
    } else {
      UnlinesAppend(lines, [r]);
      UnlinesCons(r, []);
      assert [r] + [] == [r];
      assert Unlines(lines) + (r + "\n") == (Unlines(lines) + r) + "\n";
    }
  }

  lemma AllLinesOfTerminated(s: string)
    ensures AllLines(Terminated(s)) == AllLines(s)
  {
    var r := Remainder(s);
    if r != "" {
      SplitNewlineFree(s);
      SplitAppend(s, "\n");
      SplitCons(r, "");
      assert r + "\n" + "" == r + "\n";
    }
  }

  /** Two streams have the same lines exactly when they differ at most in the newline that ends the last one. */
  lemma SameLines(a: string, b: string)
    ensures AllLines(a) == AllLines(b) <==> Terminated(a) == Terminated(b)
  {
    UnlinesOfAllLines(a);
    UnlinesOfAllLines(b);
    AllLinesOfTerminated(a);
    AllLinesOfTerminated(b);
  }
}
