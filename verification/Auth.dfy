/** Base64 with the standard alphabet and padding (section 4 of RFC 4648), as Go's `StdEncoding` does it. */
module Base64 {

  newtype byte = x: int | 0 <= x < 256

  type Sextet = x: int | 0 <= x < 64

  datatype Decoded = Ok(bytes: seq<byte>) | Corrupt

  function Letter(n: Sextet): char {
    if n < 26 then (n + 'A' as int) as char
    else if n < 52 then (n - 26 + 'a' as int) as char
    else if n < 62 then (n - 52 + '0' as int) as char
    else if n == 62 then '+' else '/'
  }

  predicate IsLetter(c: char) {
    'A' <= c <= 'Z' || 'a' <= c <= 'z' || '0' <= c <= '9' || c == '+' || c == '/'
  }

  function Index(c: char): Sextet
    requires IsLetter(c)
  {
    if 'A' <= c <= 'Z' then c as int - 'A' as int
    else if 'a' <= c <= 'z' then c as int - 'a' as int + 26
    else if '0' <= c <= '9' then c as int - '0' as int + 52
    else if c == '+' then 62 else 63
  }

  /** Three bytes become four letters; a shorter last group is padded with '='. */
  function Encode(b: seq<byte>): string {
    if b == [] then ""
    else if |b| == 1 then
      var x := b[0] as int;
      [Letter(x / 4), Letter(x % 4 * 16), '=', '=']
    else if |b| == 2 then
      var x, y := b[0] as int, b[1] as int;
      [Letter(x / 4), Letter(x % 4 * 16 + y / 16), Letter(y % 16 * 4), '=']
    else
      Group(b[0], b[1], b[2]) + Encode(b[3..])
  }

  function Group(a: byte, b: byte, c: byte): string {
    var x, y, z := a as int, b as int, c as int;
    [Letter(x / 4), Letter(x % 4 * 16 + y / 16), Letter(y % 16 * 4 + z / 64), Letter(z % 64)]
  }

  function First(p: Sextet, q: Sextet): byte { (p * 4 + q / 16) as byte }

  function Second(q: Sextet, r: Sextet): byte { (q % 16 * 16 + r / 4) as byte }

  function Third(r: Sextet, s: Sextet): byte { (r % 4 * 64 + s) as byte }

  /** The decoder skips carriage returns and newlines. */
  function Stripped(s: string): string {
    if s == "" then ""
    else (if s[0] == '\r' || s[0] == '\n' then "" else [s[0]]) + Stripped(s[1..])
  }

  /** Groups of four; padding only in the last one; unused bits are not checked. */
  function DecodeGroups(s: string): Decoded {
    if s == "" then Ok([])
    else if |s| < 4 || !IsLetter(s[0]) || !IsLetter(s[1]) then Corrupt
    else
      var p, q := Index(s[0]), Index(s[1]);
      if |s| == 4 && s[2] == '=' && s[3] == '=' then Ok([First(p, q)])
      else if !IsLetter(s[2]) then Corrupt
      else
        var r := Index(s[2]);
        if |s| == 4 && s[3] == '=' then Ok([First(p, q), Second(q, r)])
        else if !IsLetter(s[3]) then Corrupt
        else
          match DecodeGroups(s[4..])
          case Corrupt => Corrupt
          case Ok(rest) => Ok([First(p, q), Second(q, r), Third(r, Index(s[3]))] + rest)
  }

  function Decode(s: string): Decoded {
    DecodeGroups(Stripped(s))
  }

  lemma LetterIndex(n: Sextet)
    ensures IsLetter(Letter(n)) && Index(Letter(n)) == n
    ensures Letter(n) != '=' && Letter(n) != '\r' && Letter(n) != '\n'
  {
  }

  /** The alphabet of table 1 of RFC 4648, in three parts. */
  lemma CapitalLetters()
    ensures [Letter(0), Letter(1), Letter(2), Letter(3), Letter(4), Letter(5), Letter(6), Letter(7), Letter(8),
             Letter(9), Letter(10), Letter(11), Letter(12), Letter(13), Letter(14), Letter(15), Letter(16),
             Letter(17), Letter(18), Letter(19), Letter(20), Letter(21), Letter(22), Letter(23), Letter(24),
             Letter(25)]
            == "ABCDEFGHIJKLMNOPQRSTUVWXYZ"
  {
  }

  lemma SmallLetters()
    ensures [Letter(26), Letter(27), Letter(28), Letter(29), Letter(30), Letter(31), Letter(32), Letter(33),
             Letter(34), Letter(35), Letter(36), Letter(37), Letter(38), Letter(39), Letter(40), Letter(41),
             Letter(42), Letter(43), Letter(44), Letter(45), Letter(46), Letter(47), Letter(48), Letter(49),
             Letter(50), Letter(51)]
            == "abcdefghijklmnopqrstuvwxyz"
  {
  }

  lemma DigitsAndSigns()
    ensures [Letter(52), Letter(53), Letter(54), Letter(55), Letter(56), Letter(57), Letter(58), Letter(59),
             Letter(60), Letter(61), Letter(62), Letter(63)]
            == "0123456789+/"
  {
  }

  function NumberOf(letters: string): int
    requires forall i :: 0 <= i < |letters| ==> IsLetter(letters[i])
  {
    if letters == "" then 0 else 64 * NumberOf(letters[..|letters| - 1]) + Index(letters[|letters| - 1])
  }

  /** The bit grouping of section 4 of RFC 4648 as numbers: the letters of a group, in base 64, denote the bytes
      in base 256, filled up with zero bits in a short group, whose missing letters are padding. */
  lemma GroupDenotes(a: byte, b: byte, c: byte)
    ensures var s := Encode([a, b, c]);
            && |s| == 4 && (forall i :: 0 <= i < 4 ==> IsLetter(s[i]))
            && NumberOf(s) == (a as int * 256 + b as int) * 256 + c as int
  {
    hide Letter, Index, IsLetter, NumberOf;
    var x, y, z, s := a as int, b as int, c as int, Encode([a, b, c]);
    LetterIndex(x / 4);
    LetterIndex(x % 4 * 16 + y / 16);
    LetterIndex(y % 16 * 4 + z / 64);
    LetterIndex(z % 64);
    assert [a, b, c][3..] == [] && Encode([]) == "" && s == Group(a, b, c) + "" == Group(a, b, c);
    NumberOfFour(s[0], s[1], s[2], s[3]);
    assert s == [s[0], s[1], s[2], s[3]];
  }

  lemma ShortGroupsDenote(a: byte, b: byte)
    ensures var s := Encode([a, b]);
            && |s| == 4 && (forall i :: 0 <= i < 3 ==> IsLetter(s[i])) && s[3] == '='
            && NumberOf(s[..3]) == (a as int * 256 + b as int) * 4
    ensures var s := Encode([a]);
            && |s| == 4 && (forall i :: 0 <= i < 2 ==> IsLetter(s[i])) && s[2..] == "=="
            && NumberOf(s[..2]) == a as int * 16
  {
    hide Letter, Index, IsLetter, NumberOf;
    var x, y, two, one := a as int, b as int, Encode([a, b]), Encode([a]);
    LetterIndex(x / 4);
    LetterIndex(x % 4 * 16 + y / 16);
    LetterIndex(x % 4 * 16);
    LetterIndex(y % 16 * 4);
    NumberOfFour(two[0], two[1], two[2], 'A');
    assert two[..3] == [two[0], two[1], two[2]];
    NumberOfFour(one[0], one[1], 'A', 'A');
    assert one[..2] == [one[0], one[1]] && one[2..] == "==";
  }

  lemma NumberOfFour(p: char, q: char, r: char, s: char)
    requires IsLetter(p) && IsLetter(q)
    ensures NumberOf([p, q]) == 64 * Index(p) + Index(q)
    ensures IsLetter(r) ==> NumberOf([p, q, r]) == 64 * (64 * Index(p) + Index(q)) + Index(r)
    ensures IsLetter(r) && IsLetter(s) ==>
              NumberOf([p, q, r, s]) == 64 * (64 * (64 * Index(p) + Index(q)) + Index(r)) + Index(s)
  {
    hide IsLetter, Index;
    assert [p, q, r, s][..3] == [p, q, r] && [p, q, r][..2] == [p, q] && [p, q][..1] == [p] && [p][..0] == [];
    assert NumberOf([]) == 0 && NumberOf([p]) == Index(p);
  }

  /** A longer string is encoded group by group. */
  lemma EncodesInGroups(b: seq<byte>)
    requires |b| >= 3
    ensures Encode(b) == Encode(b[..3]) + Encode(b[3..])
  {
    var g := b[..3];
    assert g[3..] == [] && g[0] == b[0] && g[1] == b[1] && g[2] == b[2];
    assert Group(b[0], b[1], b[2]) + "" == Group(b[0], b[1], b[2]);
  }

  /** The three bytes of a group from its sextets. */
  lemma GroupBits(a: byte, b: byte, c: byte)
    ensures var x, y, z := a as int, b as int, c as int;
            && First(x / 4, x % 4 * 16 + y / 16) == a
            && Second(x % 4 * 16 + y / 16, y % 16 * 4 + z / 64) == b
            && Third(y % 16 * 4 + z / 64, z % 64) == c
  {
  }

  lemma DecodesGroup(a: byte, b: byte, c: byte, rest: string, bytes: seq<byte>)
    requires DecodeGroups(rest) == Ok(bytes)
    ensures DecodeGroups(Group(a, b, c) + rest) == Ok([a, b, c] + bytes)
  {
    hide Letter, Index, IsLetter, First, Second, Third;
    var x, y, z := a as int, b as int, c as int;
    LetterIndex(x / 4);
    LetterIndex(x % 4 * 16 + y / 16);
    LetterIndex(y % 16 * 4 + z / 64);
    LetterIndex(z % 64);
    GroupBits(a, b, c);
    assert (Group(a, b, c) + rest)[4..] == rest;
  }

  /** Whole groups of letters, of which the last may end in one or two padding characters. */
  predicate WellShaped(s: string) {
    exists pad :: 0 <= pad <= 2 && pad <= |s| && |s| % 4 == 0 && Padded(s, pad)
  }

  predicate Padded(s: string, pad: nat) {
    && pad <= |s|
    && (forall i :: 0 <= i < |s| - pad ==> IsLetter(s[i]))
    && (forall i :: |s| - pad <= i < |s| ==> s[i] == '=')
  }

  /** Exactly the well-shaped texts are decoded; everything else is an error. */
  lemma {:induction false} DecodesIff(s: string)
    ensures DecodeGroups(s).Ok? <==> WellShaped(s)
    decreases |s|
  {
    if s == "" {
      assert Padded(s, 0);
    } else if |s| == 4 {
      OneGroup(s);
    } else if |s| > 4 {
      DecodesIff(s[4..]);
      MoreGroups(s);
      MoreShaped(s);
    }
  }

  lemma OneGroup(s: string)
    requires |s| == 4
    ensures DecodeGroups(s).Ok? <==> WellShaped(s)
  {
    PaddingIsNoLetter();
    assert DecodeGroups(s[4..]) == Ok([]);
    hide IsLetter, Index, First, Second, Third;
    if WellShaped(s) {
      var pad :| 0 <= pad <= 2 && pad <= |s| && |s| % 4 == 0 && Padded(s, pad);
      assert IsLetter(s[0]) && IsLetter(s[1]);
    }
    if DecodeGroups(s).Ok? {
      assert Padded(s, if s[2] == '=' then 2 else if s[3] == '=' then 1 else 0);
    }
  }

  lemma PaddingIsNoLetter()
    ensures !IsLetter('=')
  {
  }

  predicate FourLetters(s: string) {
    |s| >= 4 && IsLetter(s[0]) && IsLetter(s[1]) && IsLetter(s[2]) && IsLetter(s[3])
  }

  lemma MoreGroups(s: string)
    requires |s| > 4
    ensures DecodeGroups(s).Ok? <==> FourLetters(s) && DecodeGroups(s[4..]).Ok?
  {
    hide IsLetter, Index, First, Second, Third;
  }

  lemma MoreShaped(s: string)
    requires |s| > 4
    ensures WellShaped(s) <==> FourLetters(s) && WellShaped(s[4..])
  {
    hide Padded, FourLetters;
    var rest := s[4..];
    assert |s| % 4 == |rest| % 4 && (|s| % 4 == 0 ==> |s| >= 8);
    if WellShaped(s) {
      var pad :| 0 <= pad <= 2 && pad <= |s| && |s| % 4 == 0 && Padded(s, pad);
      PaddedRest(s, pad);
      assert Padded(rest, pad);
    }
    if FourLetters(s) && WellShaped(rest) {
      var pad :| 0 <= pad <= 2 && pad <= |rest| && |rest| % 4 == 0 && Padded(rest, pad);
      PaddedRest(s, pad);
      assert Padded(s, pad);
    }
  }

  lemma PaddedRest(s: string, pad: nat)
    requires pad <= 2 && |s| >= 8
    ensures Padded(s, pad) <==> FourLetters(s) && Padded(s[4..], pad)
  {
    hide IsLetter;
    var rest := s[4..];
    assert forall i :: 4 <= i < |s| ==> s[i] == rest[i - 4];
    assert forall i :: 0 <= i < |rest| ==> rest[i] == s[i + 4];
  }

  lemma DecodesNone()
    ensures DecodeGroups(Encode([])) == Ok([])
  {
  }

  lemma DecodesOne(a: byte)
    ensures DecodeGroups(Encode([a])) == Ok([a])
  {
    hide Letter, Index, IsLetter;
    var x := a as int;
    LetterIndex(x / 4);
    LetterIndex(x % 4 * 16);
  }

  lemma DecodesTwo(a: byte, b: byte)
    ensures DecodeGroups(Encode([a, b])) == Ok([a, b])
  {
    hide Letter, Index, IsLetter, First, Second, DecodeGroups;
    var x, y := a as int, b as int;
    LetterIndex(x / 4);
    LetterIndex(x % 4 * 16 + y / 16);
    LetterIndex(y % 16 * 4);
    GroupBits(a, b, 0);
    ThreeLetters(Letter(x / 4), Letter(x % 4 * 16 + y / 16), Letter(y % 16 * 4));
  }

  lemma ThreeLetters(p: char, q: char, r: char)
    requires IsLetter(p) && IsLetter(q) && IsLetter(r) && r != '='
    ensures DecodeGroups([p, q, r, '=']) == Ok([First(Index(p), Index(q)), Second(Index(q), Index(r))])
  {
    hide Index, IsLetter, First, Second;
  }

  lemma {:induction false} DecodesGroups(b: seq<byte>)
    ensures DecodeGroups(Encode(b)) == Ok(b)
    decreases |b|
  {
    hide DecodeGroups, Group, Letter;
    if b == [] {
      DecodesNone();
    } else if |b| == 1 {
      DecodesOne(b[0]);
      assert b == [b[0]];
    } else if |b| == 2 {
      DecodesTwo(b[0], b[1]);
      assert b == [b[0], b[1]];
    } else if |b| > 2 {
      DecodesGroups(b[3..]);
      DecodesGroup(b[0], b[1], b[2], Encode(b[3..]), b[3..]);
      assert b == [b[0], b[1], b[2]] + b[3..];
    }
  }

  lemma {:induction false} StrippedLetters(s: string)
    requires '\r' !in s && '\n' !in s
    ensures Stripped(s) == s
  {
    if s != "" {
      StrippedLetters(s[1..]);
    }
  }

  lemma {:induction false} EncodedLetters(b: seq<byte>)
    ensures '\r' !in Encode(b) && '\n' !in Encode(b)
    decreases |b|
  {
    if |b| > 2 {
      EncodedLetters(b[3..]);
    }
  }

  /** Decoding undoes encoding, for every byte string. */
  lemma RoundTrip(b: seq<byte>)
    ensures Decode(Encode(b)) == Ok(b)
  {
    EncodedLetters(b);
    StrippedLetters(Encode(b));
    DecodesGroups(b);
  }
}

/** Request authentication: basic credentials (section 2 of RFC 7617) and custom headers. */
module Auth {
  import opened Base64

  /** `http.CanonicalHeaderKey`: unless the name holds a byte that no header name may have, upper case
      for its first letter and every letter after a hyphen, lower case for the others. */
  function Canonical(name: string): string {
    if IsToken(name) then Cased(name, true) else name
  }

  function Cased(name: string, upper: bool): string {
    if name == "" then ""
    else [if upper then Upper(name[0]) else Lower(name[0])] + Cased(name[1..], name[0] == '-')
  }

  function Upper(c: char): char {
    if 'a' <= c <= 'z' then (c as int - 32) as char else c
  }

  function Lower(c: char): char {
    if 'A' <= c <= 'Z' then (c as int + 32) as char else c
  }

  predicate IsTokenChar(c: char) {
    'a' <= c <= 'z' || 'A' <= c <= 'Z' || '0' <= c <= '9' || c in "!#$%&'*+-.^_`|~"
  }

  predicate IsToken(name: string) {
    forall i :: 0 <= i < |name| ==> IsTokenChar(name[i])
  }

  /** Letter by letter: capitals at the beginning and after hyphens, small letters elsewhere. */
  lemma {:induction false} CasedAt(name: string, upper: bool, i: nat)
    requires i < |name|
    ensures |Cased(name, upper)| == |name|
    ensures Cased(name, upper)[i] ==
            if (if i == 0 then upper else name[i - 1] == '-') then Upper(name[i]) else Lower(name[i])
  {
    if |name| > 1 {
      CasedAt(name[1..], name[0] == '-', if i == 0 then 0 else i - 1);
    }
  }

  /** Two header names denote the same header exactly when they differ at most in the case of their letters,
      unless one of them is no proper name, which only denotes itself. */
  lemma CanonicalIff(a: string, b: string)
    ensures IsToken(a) && IsToken(b) ==> (Canonical(a) == Canonical(b) <==> SameButCase(a, b))
    ensures !IsToken(a) ==> Canonical(a) == a
    ensures IsToken(Canonical(a)) <==> IsToken(a)
    ensures Canonical(Canonical(a)) == Canonical(a)
  {
    hide IsTokenChar, Cased, Lower;
    if IsToken(a) {
      CasedKeeps(a);
      CasedSameIff(Cased(a, true), a);
      if IsToken(b) {
        CasedSameIff(a, b);
      }
    }
  }

  lemma CasedKeeps(name: string)
    requires IsToken(name)
    ensures IsToken(Cased(name, true)) && SameButCase(Cased(name, true), name)
  {
    hide Cased;
    CasedLength(name, true);
    forall i | 0 <= i < |name|
      ensures IsTokenChar(Cased(name, true)[i]) && Lower(Cased(name, true)[i]) == Lower(name[i])
    {
      CasedAt(name, true, i);
    }
  }

  predicate SameButCase(a: string, b: string) {
    |a| == |b| && forall i :: 0 <= i < |a| ==> Lower(a[i]) == Lower(b[i])
  }

  lemma {:induction false} CasedLength(name: string, upper: bool)
    ensures |Cased(name, upper)| == |name|
  {
    if name != "" {
      CasedLength(name[1..], name[0] == '-');
    }
  }

  lemma CasedSameIff(a: string, b: string)
    ensures Cased(a, true) == Cased(b, true) <==> SameButCase(a, b)
  {
    CasedLength(a, true);
    CasedLength(b, true);
    if |a| == |b| {
      forall i | 0 <= i < |a|
        ensures SameButCase(a, b) ==> Cased(a, true)[i] == Cased(b, true)[i]
        ensures Cased(a, true)[i] == Cased(b, true)[i] ==> Lower(a[i]) == Lower(b[i])
      {
        CasedAt(a, true, i);
        CasedAt(b, true, i);
        Cases(a[i], b[i]);
        if i > 0 {
          Cases(a[i - 1], b[i - 1]);
        }
      }
    }
  }

  /** Case is all that `Upper` and `Lower` change. */
  lemma Cases(x: char, y: char)
    ensures Upper(x) == Upper(y) <==> Lower(x) == Lower(y)
    ensures Upper(x) == Lower(y) ==> Lower(x) == Lower(y)
    ensures Lower(x) == Lower(y) ==> (x == '-' <==> y == '-')
  {
  }

  lemma AuthorizationIsCanonical()
    ensures Canonical("Authorization") == "Authorization"
  {
    hide Canonical;
    CapitalThenSmall("Authorization");
  }

  lemma CapitalThenSmall(name: string)
    requires name != "" && 'A' <= name[0] <= 'Z' && forall i :: 1 <= i < |name| ==> 'a' <= name[i] <= 'z'
    ensures Canonical(name) == name
  {
    LettersAreToken(name);
    CasedSmall(name[1..]);
    hide IsToken;
    assert Cased(name, true) == [name[0]] + Cased(name[1..], false);
  }

  lemma LettersAreToken(name: string)
    requires forall i :: 0 <= i < |name| ==> 'A' <= name[i] <= 'Z' || 'a' <= name[i] <= 'z'
    ensures IsToken(name)
  {
  }

  /** Small letters without a hyphen stay as they are. */
  lemma {:induction false} CasedSmall(name: string)
    requires forall i :: 0 <= i < |name| ==> 'a' <= name[i] <= 'z'
    ensures Cased(name, false) == name
  {
    if name != "" {
      CasedSmall(name[1..]);
    }
  }

  class Request {
    var headers: map<string, string>

    constructor (headers: map<string, string>)
      ensures this.headers == headers
    {
      this.headers := headers;
    }

    method SetHeader(name: string, value: string)
      modifies this
      ensures headers == old(headers)[Canonical(name) := value]
    {
      headers := headers[Canonical(name) := value];
    }

    /** A missing header reads as the empty string. */
    function Header(name: string): string
      reads this
    {
      if Canonical(name) in headers then headers[Canonical(name)] else ""
    }
  }

  datatype Verdict = Accepted | Rejected | Malformed

  const COLON: byte := ':' as int as byte
  const AUTHORIZATION := "Authorization"
  const BASIC := "Basic "

  /** The value `AddAuthentication` puts into the header. */
  function BasicHeader(user: seq<byte>, password: seq<byte>): string {
    BASIC + Encode(user + [COLON] + password)
  }

  function FirstColon(b: seq<byte>): (i: nat)
    requires COLON in b
    ensures i < |b| && b[i] == COLON && COLON !in b[..i]
  {
    if b[0] == COLON then 0 else 1 + FirstColon(b[1..])
  }

  /** A user name without a colon ends at the first one. */
  lemma Split(user: seq<byte>, password: seq<byte>)
    ensures var payload := user + [COLON] + password;
            && payload[|user|] == COLON
            && payload[..|user|] == user && payload[|user| + 1..] == password
            && (COLON !in user ==> FirstColon(payload) == |user|)
  {
    var payload := user + [COLON] + password;
    assert payload[|user|] == COLON && payload[..|user|] == user;
    if COLON !in user {
      FirstColonUnique(payload, |user|);
    }
  }

  lemma FirstColonUnique(b: seq<byte>, i: nat)
    requires i < |b| && b[i] == COLON && COLON !in b[..i]
    ensures FirstColon(b) == i
  {
  }

  /** `Authenticate` on a header value, cutting the decoded payload at its first colon. */
  function CheckBasic(user: seq<byte>, password: seq<byte>, header: string): (v: Verdict)
    ensures v == Accepted <==>
            BASIC <= header && Decode(header[|BASIC|..]) == Ok(user + [COLON] + password) && COLON !in user
    ensures v == Malformed <==> BASIC <= header && Decode(header[|BASIC|..]) == Corrupt
  {
    if !(BASIC <= header) then Rejected
    else
      match Decode(header[|BASIC|..])
      case Corrupt => Malformed
      case Ok(payload) => CheckPayload(user, password, payload)
  }

  function CheckPayload(user: seq<byte>, password: seq<byte>, payload: seq<byte>): (v: Verdict)
    ensures v == if payload == user + [COLON] + password && COLON !in user then Accepted else Rejected
  {
    Split(user, password);
    if COLON !in payload then Rejected
    else
      var i := FirstColon(payload);
      assert payload == payload[..i] + [COLON] + payload[i + 1..];
      if payload[..i] == user && payload[i + 1..] == password then Accepted else Rejected
  }

  class BasicAuthProvider {
    const user: seq<byte>
    const password: seq<byte>

    constructor (user: seq<byte>, password: seq<byte>)
      ensures this.user == user && this.password == password
    {
      this.user, this.password := user, password;
    }

    method AddAuthentication(req: Request)
      modifies req
      ensures req.headers == old(req.headers)[Canonical(AUTHORIZATION) := BasicHeader(user, password)]
      ensures req.headers == old(req.headers)["Authorization" := "Basic " + Encode(user + [COLON] + password)]
    {
      AuthorizationIsCanonical();
      req.SetHeader(AUTHORIZATION, BasicHeader(user, password));
    }

    function Authenticate(req: Request): Verdict
      reads req
    {
      CheckBasic(user, password, req.Header(AUTHORIZATION))
    }
  }

  /** Credentials `u:p` pass a check for `user:password` exactly when they spell the same and the expected
      user name has no colon; what `AddAuthentication` wrote is never malformed. */
  lemma BasicAcceptedIff(u: seq<byte>, p: seq<byte>, user: seq<byte>, password: seq<byte>)
    ensures CheckBasic(user, password, BasicHeader(u, p)) == Accepted <==>
            COLON !in user && u + [COLON] + p == user + [COLON] + password
    ensures CheckBasic(user, password, BasicHeader(u, p)) != Malformed
  {
    hide Encode, Decode;
    var payload := u + [COLON] + p;
    RoundTrip(payload);
    assert BasicHeader(u, p)[|BASIC|..] == Encode(payload);
  }

  /** Basic round trip: on any request, adding credentials and checking them succeeds exactly when the user
      name has no colon. */
  method BasicRoundTrip(user: seq<byte>, password: seq<byte>, sent: map<string, string>) returns (v: Verdict)
    ensures v == if COLON in user then Rejected else Accepted
  {
    var provider := new BasicAuthProvider(user, password);
    var req := new Request(sent);
    provider.AddAuthentication(req);
    v := provider.Authenticate(req);
    BasicAcceptedIff(user, password, user, password);
  }

  /** Among colon-free user names no other credentials are accepted. */
  lemma BasicDistinguishes(u: seq<byte>, p: seq<byte>, user: seq<byte>, password: seq<byte>)
    requires COLON !in u && COLON !in user
    ensures CheckBasic(user, password, BasicHeader(u, p)) == Accepted <==> u == user && p == password
  {
    BasicAcceptedIff(u, p, user, password);
    Split(u, p);
    Split(user, password);
  }

  /** No two configured names denote the same header with different values. */
  predicate Consistent(headers: map<string, string>) {
    forall a, b :: a in headers && b in headers && Canonical(a) == Canonical(b) ==> headers[a] == headers[b]
  }

  class HeaderAuthProvider {
    const headers: map<string, string>

    constructor (headers: map<string, string>)
      ensures this.headers == headers
    {
      this.headers := headers;
    }

    /** The map is visited in an order of the runtime's choosing: for each header the last name wins. */
    method AddAuthentication(req: Request)
      modifies req
      ensures forall k :: k in headers ==> Canonical(k) in req.headers
      ensures old(req.headers).Keys <= req.headers.Keys
      ensures forall h :: h in req.headers ==>
                || (h in old(req.headers) && req.headers[h] == old(req.headers)[h]
                    && forall k :: k in headers ==> Canonical(k) != h)
                || (exists k :: k in headers && Canonical(k) == h && headers[k] == req.headers[h])
    {
      var left := headers.Keys;
      while left != {}
        invariant left <= headers.Keys && old(req.headers).Keys <= req.headers.Keys
        invariant forall k :: k in headers && k !in left ==> Canonical(k) in req.headers
        invariant forall h :: h in req.headers ==>
                    || (h in old(req.headers) && req.headers[h] == old(req.headers)[h]
                        && forall k :: k in headers && k !in left ==> Canonical(k) != h)
                    || (exists k :: k in headers && Canonical(k) == h && headers[k] == req.headers[h])
        decreases |left|
      {
        var k :| k in left;
        req.SetHeader(k, headers[k]);
        left := left - {k};
      }
    }

    method Authenticate(req: Request) returns (ok: bool)
      ensures ok <==> forall k :: k in headers ==> req.Header(k) == headers[k]
    {
      var left := headers.Keys;
      while left != {}
        invariant left <= headers.Keys
        invariant forall k :: k in headers && k !in left ==> req.Header(k) == headers[k]
        decreases |left|
      {
        var k :| k in left;
        if req.Header(k) != headers[k] {
          return false;
        }
        left := left - {k};
      }
      return true;
    }
  }

  /** Header round trip: on any request and whatever the two iteration orders, adding the configured headers
      and checking them succeeds exactly when no two names with the same canonical form carry different
      values. */
  method HeaderRoundTrip(headers: map<string, string>, sent: map<string, string>) returns (ok: bool)
    ensures ok <==> Consistent(headers)
  {
    var provider := new HeaderAuthProvider(headers);
    var req := new Request(sent);
    provider.AddAuthentication(req);
    ok := provider.Authenticate(req);
    if Consistent(headers) {
      forall k | k in headers ensures req.Header(k) == headers[k] {
        var h := Canonical(k);
        assert h in req.headers;
      }
    } else {
      var a, b :| a in headers && b in headers && Canonical(a) == Canonical(b) && headers[a] != headers[b];
      assert req.Header(a) == req.Header(b);
    }
  }
}
