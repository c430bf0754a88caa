/** What the chunked reader accepts, by grammar: size lines, chunks and trailers, and where a body goes wrong. */
module ChunkGrammar {
  import opened Bytes
  import opened Chunked
  import opened Numerals
  import opened Wrappers

  // ---- Numerals -------------------------------------------------------------

  const DIGITS := "0123456789abcdef"
  const CAPITALS := "0123456789ABCDEF"

  /** A character is worth `d` when it is the digit `d`, in either case. */
  lemma DigitExactly(c: char, d: nat)
    ensures DigitValue(c) == Some(d) <==> d < 16 && (c == DIGITS[d] || c == CAPITALS[d])
  {
  }

  predicate Hexadecimal(c: char) {
    DigitValue(c).Some?
  }

  function Worth(c: char): nat
    requires Hexadecimal(c)
  {
    DigitValue(c).value
  }

  lemma HexadecimalExactly(c: char)
    ensures IsDigit(c, 16) <==> Hexadecimal(c)
  {
  }

  predicate HexDigits(s: string) {
    forall i :: 0 <= i < |s| ==> Hexadecimal(s[i])
  }

  function Value(s: string): nat
    requires HexDigits(s)
  {
    if s == [] then 0 else Value(s[..|s| - 1]) * 16 + Worth(s[|s| - 1])
  }

  /** A digit, or an underscore between two digits. */
  predicate Fits(s: string, i: nat)
    requires i < |s|
  {
    Hexadecimal(s[i])
    || (s[i] == '_' && 0 < i < |s| - 1 && Hexadecimal(s[i - 1]) && Hexadecimal(s[i + 1]))
  }

  predicate Groups(s: string) {
    s != [] && forall i: nat :: i < |s| ==> Fits(s, i)
  }

  /** The digits alone. */
  function Ungrouped(s: string): (r: string)
    ensures HexDigits(r)
  {
    if s == [] then []
    else Ungrouped(s[..|s| - 1]) + if Hexadecimal(s[|s| - 1]) then [s[|s| - 1]] else []
  }

  lemma UngroupedLast(s: string, c: char)
    requires Hexadecimal(c)
    ensures Ungrouped(s + [c]) == Ungrouped(s) + [c] && Ungrouped(s + ['_']) == Ungrouped(s)
  {
    assert (s + [c])[..|s|] == s && (s + ['_'])[..|s|] == s;
  }

  lemma GroupsDigitLast(s: string, c: char)
    requires s != [] && Hexadecimal(c) && s[|s| - 1] != '_'
    ensures Groups(s + [c]) <==> Groups(s)
  {
    var t := s + [c];
    forall i: nat | i < |s|
      ensures Fits(t, i) <==> Fits(s, i)
    {
      assert t[i] == s[i] && (i < |s| - 1 ==> t[i + 1] == s[i + 1]);
    }
    assert Fits(t, |s|);
  }

  lemma GroupsPairLast(s: string, c: char)
    requires Hexadecimal(c)
    ensures Groups(s + ['_', c]) <==> Groups(s)
  {
    var t := s + ['_', c];
    if s != [] {
      GroupsEnd(s);
      assert Fits(t, |s|) <==> Hexadecimal(s[|s| - 1]);
      forall i: nat | i < |s| - 1
        ensures Fits(t, i) <==> Fits(s, i)
      {
        assert t[i] == s[i] && t[i + 1] == s[i + 1];
      }
      assert !Hexadecimal(s[|s| - 1]) ==> !Fits(t, |s| - 1);
    } else {
      assert !Fits(t, 0);
    }
  }

  lemma GroupsEnd(s: string)
    ensures Groups(s) ==> Hexadecimal(s[|s| - 1])
  {
    if Groups(s) {
      assert Fits(s, |s| - 1);
    }
  }

  lemma ValueLast(s: string, c: char)
    requires HexDigits(s) && Hexadecimal(c)
    ensures Value(s + [c]) == Value(s) * 16 + Worth(c)
  {
    assert (s + [c])[..|s|] == s;
  }

  function More(high: Option<nat>, d: nat): Option<nat> {
    match high case None => None case Some(n) => Some(n * 16 + d)
  }

  lemma GroupedOne(c: char)
    requires Hexadecimal(c)
    ensures Grouped([c]) == Some(Worth(c))
  {
    HexadecimalExactly(c);
  }

  lemma GroupedDigit(s: string, c: char)
    requires Hexadecimal(c) && s != [] && s[|s| - 1] != '_'
    ensures Grouped(s + [c]) == More(Grouped(s), Worth(c))
  {
    HexadecimalExactly(c);
    var all := s + [c];
    assert all[..|all| - 1] == s && all[|all| - 1] == c;
  }

  lemma GroupedPair(s: string, c: char)
    requires Hexadecimal(c)
    ensures Grouped(s + ['_', c]) == More(Grouped(s), Worth(c))
  {
    HexadecimalExactly(c);
    var all := s + ['_', c];
    assert all[..|all| - 2] == s && all[|all| - 2] == '_' && all[|all| - 1] == c;
  }

  /** What grouped digits are worth. */
  function Worths(s: string): Option<nat> {
    if Groups(s) then Some(Value(Ungrouped(s))) else None
  }

  lemma WorthsOne(c: char)
    requires Hexadecimal(c)
    ensures Worths([c]) == Some(Worth(c))
  {
    assert Fits([c], 0) && [] + [c] == [c];
    UngroupedLast([], c);
    ValueLast([], c);
  }

  lemma WorthsDigit(s: string, c: char)
    requires Hexadecimal(c) && s != [] && s[|s| - 1] != '_'
    ensures Worths(s + [c]) == More(Worths(s), Worth(c))
  {
    GroupsDigitLast(s, c);
    UngroupedLast(s, c);
    ValueLast(Ungrouped(s), c);
  }

  lemma WorthsPair(s: string, c: char)
    requires Hexadecimal(c)
    ensures Worths(s + ['_', c]) == More(Worths(s), Worth(c))
  {
    GroupsPairLast(s, c);
    UngroupedLast(s, c);
    assert s + ['_', c] == s + ['_'] + [c];
    UngroupedLast(s + ['_'], c);
    ValueLast(Ungrouped(s), c);
  }

  /** Grouped digits read as what they are worth, and nothing else reads. */
  lemma {:induction false} GroupedExactly(s: string)
    ensures Grouped(s) == Worths(s)
    decreases |s|
  {
    if s != [] {
      var n, c := |s| - 1, s[|s| - 1];
      if !Hexadecimal(c) {
        HexadecimalExactly(c);
        GroupsEnd(s);
      } else if n == 0 {
        assert s == [c];
        GroupedOne(c);
        WorthsOne(c);
      } else if s[n - 1] == '_' {
        assert s == s[..n - 1] + ['_', c];
        GroupedExactly(s[..n - 1]);
        GroupedPair(s[..n - 1], c);
        WorthsPair(s[..n - 1], c);
      } else {
        assert s == s[..n] + [c];
        GroupedExactly(s[..n]);
        GroupedDigit(s[..n], c);
        WorthsDigit(s[..n], c);
      }
    }
  }

  predicate IsSign(s: string) {
    s in {"", "+", "-"}
  }

  predicate IsPrefix(s: string) {
    s in {"", "0x", "0X", "0x_", "0X_"}
  }

  /** A numeral as it is written: a sign, a base prefix, grouped digits. */
  predicate Spelled(s: string, sign: string, prefix: string, digits: string) {
    s == sign + (prefix + digits) && IsSign(sign) && IsPrefix(prefix) && Groups(digits)
  }

  function Signed(sign: string, n: nat): int {
    if sign == "-" then -1 * n else n
  }

  ghost predicate Denotes(s: string, v: int) {
    exists sign, prefix, digits :: Spelled(s, sign, prefix, digits) && v == Signed(sign, Value(Ungrouped(digits)))
  }

  /** What `ParseInt` takes for the digits of an unsigned numeral. */
  function DigitsOf(body: string): string {
    if |body| >= 2 && body[0] == '0' && body[1] in "xX" then
      if |body| >= 3 && body[2] == '_' then body[3..] else body[2..]
    else body
  }

  function BodyOf(s: string): string
    requires s != []
  {
    if s[0] in "+-" then s[1..] else s
  }

  lemma PrefixOf(body: string) returns (prefix: string)
    ensures IsPrefix(prefix) && body == prefix + DigitsOf(body)
  {
    if |body| >= 2 && body[0] == '0' && body[1] in "xX" {
      if |body| >= 3 && body[2] == '_' {
        prefix := if body[1] == 'x' then "0x_" else "0X_";
      } else {
        prefix := if body[1] == 'x' then "0x" else "0X";
      }
    } else {
      prefix := "";
    }
  }

  lemma DigitsAfter(prefix: string, digits: string)
    requires IsPrefix(prefix) && Groups(digits)
    ensures DigitsOf(prefix + digits) == digits && (prefix + digits)[0] !in "+-"
  {
    assert Fits(digits, 0);
    assert |digits| > 1 ==> Fits(digits, 1);
    assert (prefix + digits)[|prefix|..] == digits;
  }

  lemma BodyAfter(sign: string, body: string)
    requires IsSign(sign) && body != [] && body[0] !in "+-"
    ensures BodyOf(sign + body) == body && (sign == "-" <==> (sign + body)[0] == '-')
  {
    assert (sign + body)[|sign|..] == body;
  }

  lemma ParseBy(s: string)
    requires s != []
    ensures ParseInt(s) == match Worths(DigitsOf(BodyOf(s)))
                           case None => None
                           case Some(n) => Some(if s[0] == '-' then -1 * n else n)
  {
    GroupedExactly(DigitsOf(BodyOf(s)));
  }

  lemma SignOf(s: string) returns (sign: string)
    requires s != []
    ensures IsSign(sign) && s == sign + BodyOf(s) && (sign == "-" <==> s[0] == '-')
  {
    sign := if s[0] == '-' then "-" else if s[0] == '+' then "+" else "";
  }

  lemma ParsedDenotes(s: string, v: int)
    requires ParseInt(s) == Some(v)
    ensures Denotes(s, v)
  {
    ParseBy(s);
    var sign := SignOf(s);
    var prefix := PrefixOf(BodyOf(s));
    var digits := DigitsOf(BodyOf(s));
    assert Spelled(s, sign, prefix, digits);
    assert v == Signed(sign, Value(Ungrouped(digits)));
  }

  lemma SpelledParses(s: string, sign: string, prefix: string, digits: string)
    requires Spelled(s, sign, prefix, digits)
    ensures ParseInt(s) == Some(Signed(sign, Value(Ungrouped(digits))))
  {
    DigitsAfter(prefix, digits);
    BodyAfter(sign, prefix + digits);
    ParseBy(s);
  }

  /** `int(s, 16)` reads a spelled numeral as what it denotes, and nothing else. */
  lemma IntExactly(s: string, v: int)
    ensures ParseInt(s) == Some(v) <==> Denotes(s, v)
  {
    if ParseInt(s) == Some(v) {
      ParsedDenotes(s, v);
    }
    if Denotes(s, v) {
      var sign, prefix, digits :|
        Spelled(s, sign, prefix, digits) && v == Signed(sign, Value(Ungrouped(digits)));
      SpelledParses(s, sign, prefix, digits);
    }
  }

  // ---- Lines ----------------------------------------------------------------

  predicate BreakAt(s: bytes, i: nat) {
    i + 1 < |s| && s[i] == 13 && s[i + 1] == 10
  }

  /** Ends with the first CR LF there is in it. */
  ghost predicate IsLine(line: bytes) {
    |line| >= 2 && BreakAt(line, |line| - 2) && forall i: nat :: BreakAt(line, i) ==> i == |line| - 2
  }

  ghost predicate NoBreak(s: bytes) {
    forall i: nat :: !BreakAt(s, i)
  }

  lemma {:induction false} LineExactly(s: bytes)
    ensures Line(s).None? <==> NoBreak(s)
    ensures Line(s).Some? ==> IsLine(Line(s).value.0)
    decreases |s|
  {
    if |s| >= 2 {
      if s[..2] == CRLF {
        assert s[..2] == [s[0], s[1]];
        assert BreakAt(s, 0);
        BlankLine();
      } else {
        LineExactly(s[1..]);
        BreaksShift(s);
        if Line(s).Some? {
          LineLonger(s[0], Line(s[1..]).value.0, s);
          assert BreakAt(s, |Line(s).value.0| - 2);
        }
      }
    }
  }

  lemma BreaksShift(s: bytes)
    requires |s| >= 2 && s[..2] != CRLF
    ensures forall i: nat :: BreakAt(s, i) <==> i > 0 && BreakAt(s[1..], i - 1)
  {
    assert s[..2] == [s[0], s[1]];
  }

  lemma BlankLine()
    ensures IsLine(CRLF)
  {
    assert BreakAt(CRLF, 0);
  }

  /** A line with one more octet in front, unless the two make a break. */
  lemma LineLonger(b: byte, line: bytes, s: bytes)
    requires IsLine(line) && |s| >= 2 && s[0] == b && s[1] == line[0] && s[..2] != CRLF
    ensures IsLine([b] + line)
  {
    var longer := [b] + line;
    assert longer[1..] == line && longer[..2] == s[..2];
    BreaksShift(longer);
    assert BreakAt(longer, |longer| - 2);
  }

  /** A line is read as far as it goes. */
  lemma LineReads(line: bytes, rest: bytes)
    requires IsLine(line)
    ensures Line(line + rest) == Some((line, rest))
  {
    var s := line + rest;
    LineExactly(s);
    assert BreakAt(s, |line| - 2);
    var found := Line(s).value.0;
    assert found + Line(s).value.1 == line + rest;
    assert BreakAt(s, |found| - 2);
    SameBreak(line, found, s);
    assert |found| == |line|;
    assert found == s[..|line|] == line && s[|line|..] == rest;
  }

  lemma SameBreak(a: bytes, b: bytes, s: bytes)
    requires IsLine(a) && IsLine(b) && |a| <= |s| && |b| <= |s| && s[..|a|] == a && s[..|b|] == b
    ensures |a| == |b|
  {
    assert |a| <= |b| ==> BreakAt(b, |a| - 2);
    assert |b| <= |a| ==> BreakAt(a, |b| - 2);
  }

  predicate Blanks(s: bytes) {
    forall i :: 0 <= i < |s| ==> Blank(s[i])
  }

  lemma {:induction false} StripLeftAway(w: bytes, s: bytes)
    requires Blanks(w) && (s == [] || !Blank(s[0]))
    ensures StripLeft(w + s) == s
    decreases |w|
  {
    if w == [] {
      assert w + s == s;
    } else {
      assert (w + s)[1..] == w[1..] + s;
      StripLeftAway(w[1..], s);
    }
  }

  lemma {:induction false} StripRightAway(s: bytes, w: bytes)
    requires Blanks(w) && (s == [] || !Blank(s[|s| - 1]))
    ensures StripRight(s + w) == s
    decreases |w|
  {
    if w == [] {
      assert s + w == s;
    } else {
      assert (s + w)[..|s + w| - 1] == s + w[..|w| - 1];
      StripRightAway(s, w[..|w| - 1]);
    }
  }

  lemma {:induction false} ExtensionsCut(s: bytes, ext: bytes)
    requires 59 !in s && (ext == [] || ext[0] == 59)
    ensures BeforeExtensions(s + ext) == s
    decreases |s|
  {
    if s == [] {
      assert s + ext == ext;
    } else {
      assert (s + ext)[1..] == s[1..] + ext;
      ExtensionsCut(s[1..], ext);
    }
  }

  /** The size of a line is its numeral, whatever the whitespace around it and the extensions behind it. */
  lemma SizeWritten(before: bytes, numeral: bytes, after: bytes, ext: bytes)
    requires Blanks(before) && Blanks(after) && 59 !in numeral && (ext == [] || ext[0] == 59)
    requires numeral != [] && !Blank(numeral[0]) && !Blank(numeral[|numeral| - 1])
    ensures SizeOf(before + (numeral + after) + ext) == ParseInt(Text(numeral))
  {
    assert 59 !in before + (numeral + after);
    ExtensionsCut(before + (numeral + after), ext);
    StripLeftAway(before, numeral + after);
    StripRightAway(numeral, after);
  }

  // ---- Bodies ---------------------------------------------------------------

  datatype Chunk = Chunk(line: bytes, data: bytes)

  ghost predicate ChunkOk(c: Chunk) {
    IsLine(c.line) && c.data != [] && SizeOf(c.line) == Some(|c.data|)
  }

  function ChunksBytes(cs: seq<Chunk>): bytes {
    if cs == [] then [] else cs[0].line + (cs[0].data + (CRLF + ChunksBytes(cs[1..])))
  }

  function DataOf(cs: seq<Chunk>): bytes {
    if cs == [] then [] else cs[0].data + DataOf(cs[1..])
  }

  ghost predicate ChunksOk(cs: seq<Chunk>) {
    forall i :: 0 <= i < |cs| ==> ChunkOk(cs[i])
  }

  ghost predicate TrailersOk(ts: seq<bytes>) {
    forall i :: 0 <= i < |ts| ==> IsLine(ts[i]) && ts[i] != CRLF
  }

  /** A size of zero, trailer fields, a blank line, and the rest of the connection. */
  ghost predicate Ends(tail: bytes, rest: bytes) {
    exists last, ts :: IsLine(last) && SizeOf(last) == Some(0) && TrailersOk(ts)
                       && tail == last + (Joined(ts) + (CRLF + rest))
  }

  /** Trailer fields and then no line at all. */
  ghost predicate NeverEnds(s: bytes) {
    exists ts, left :: TrailersOk(ts) && NoBreak(left) && s == Joined(ts) + left
  }

  ghost predicate SizedLine(tail: bytes, line: bytes, rest: bytes) {
    tail == line + rest && IsLine(line)
  }

  /** What is wrong with the octets a body stops at. */
  ghost predicate GoesWrong(tail: bytes, e: ChunkError) {
    match e
    case Truncated =>
      || NoBreak(tail)
      || exists line, rest :: SizedLine(tail, line, rest) && CutShort(SizeOf(line), rest)
    case BadSize =>
      exists line, rest :: SizedLine(tail, line, rest) && (SizeOf(line).None? || SizeOf(line).value < 0)
    case BadTerminator =>
      exists line, rest :: SizedLine(tail, line, rest) && NotTerminated(SizeOf(line), rest)
  }

  ghost predicate CutShort(size: Option<int>, rest: bytes) {
    size.Some? && if size.value == 0 then NeverEnds(rest) else size.value > 0 && |rest| < size.value + 2
  }

  predicate NotTerminated(size: Option<int>, rest: bytes) {
    size.Some? && size.value > 0 && |rest| >= size.value + 2 && rest[size.value..size.value + 2] != CRLF
  }

  lemma {:induction false} TrailersRead(ts: seq<bytes>, left: bytes)
    requires TrailersOk(ts)
    ensures AfterTrailers(Joined(ts) + left) == AfterTrailers(left)
    decreases |ts|
  {
    if ts == [] {
      assert Joined(ts) + left == left;
    } else {
      assert Joined(ts) + left == ts[0] + (Joined(ts[1..]) + left);
      LineReads(ts[0], Joined(ts[1..]) + left);
      TrailersRead(ts[1..], left);
    }
  }

  lemma BlankLineEnds(rest: bytes)
    ensures AfterTrailers(CRLF + rest) == Some(rest)
  {
    BlankLine();
    LineReads(CRLF, rest);
  }

  lemma {:induction false} TrailersFound(s: bytes) returns (ts: seq<bytes>)
    ensures TrailersOk(ts)
    ensures match AfterTrailers(s)
      case Some(rest) => s == Joined(ts) + (CRLF + rest)
      case None => exists left :: NoBreak(left) && s == Joined(ts) + left
    decreases |s|
  {
    LineExactly(s);
    if Line(s).None? || Line(s).value.0 == CRLF {
      ts := [];
      assert Joined(ts) + s == s;
    } else {
      var (line, rest) := Line(s).value;
      var more := TrailersFound(rest);
      ts := [line] + more;
      match AfterTrailers(s)
      case Some(end) => JoinedFirst(line, more, CRLF + end);
      case None =>
        var left :| NoBreak(left) && rest == Joined(more) + left;
        JoinedFirst(line, more, left);
    }
  }

  lemma JoinedFirst(line: bytes, more: seq<bytes>, left: bytes)
    ensures Joined([line] + more) + left == line + (Joined(more) + left)
  {
    assert ([line] + more)[1..] == more;
  }

  lemma TrailersExactly(s: bytes)
    ensures AfterTrailers(s).None? <==> NeverEnds(s)
  {
    if AfterTrailers(s).None? {
      var ts := TrailersFound(s);
    }
    if NeverEnds(s) {
      var ts, left :| TrailersOk(ts) && NoBreak(left) && s == Joined(ts) + left;
      TrailersRead(ts, left);
      LineExactly(left);
    }
  }

  // ---- What is read ---------------------------------------------------------

  lemma BadSizeRead(line: bytes, rest: bytes)
    requires IsLine(line) && (SizeOf(line).None? || SizeOf(line).value < 0)
    ensures Dechunk(line + rest) == Err(BadSize)
  {
    LineReads(line, rest);
  }

  lemma LastRead(line: bytes, rest: bytes)
    requires IsLine(line) && SizeOf(line) == Some(0)
    ensures Dechunk(line + rest)
      == match AfterTrailers(rest) case None => Err(Truncated) case Some(after) => Ok(Body([], after))
  {
    LineReads(line, rest);
  }

  lemma CutRead(line: bytes, rest: bytes)
    requires IsLine(line) && CutShort(SizeOf(line), rest)
    ensures Dechunk(line + rest) == Err(Truncated)
  {
    LineReads(line, rest);
    if SizeOf(line) == Some(0) {
      LastRead(line, rest);
      TrailersExactly(rest);
    }
  }

  lemma NotTerminatedRead(line: bytes, rest: bytes)
    requires IsLine(line) && NotTerminated(SizeOf(line), rest)
    ensures Dechunk(line + rest) == Err(BadTerminator)
  {
    LineReads(line, rest);
  }

  lemma WrongRead(tail: bytes, e: ChunkError)
    requires GoesWrong(tail, e)
    ensures Dechunk(tail) == Err(e)
  {
    match e
    case Truncated =>
      if NoBreak(tail) {
        LineExactly(tail);
      } else {
        var line, rest :| SizedLine(tail, line, rest) && CutShort(SizeOf(line), rest);
        CutRead(line, rest);
      }
    case BadSize =>
      var line, rest :| SizedLine(tail, line, rest) && (SizeOf(line).None? || SizeOf(line).value < 0);
      BadSizeRead(line, rest);
    case BadTerminator =>
      var line, rest :| SizedLine(tail, line, rest) && NotTerminated(SizeOf(line), rest);
      NotTerminatedRead(line, rest);
  }

  lemma EndRead(tail: bytes, rest: bytes)
    requires Ends(tail, rest)
    ensures Dechunk(tail) == Ok(Body([], rest))
  {
    var last, ts :| IsLine(last) && SizeOf(last) == Some(0) && TrailersOk(ts)
                    && tail == last + (Joined(ts) + (CRLF + rest));
    LastRead(last, Joined(ts) + (CRLF + rest));
    TrailersRead(ts, CRLF + rest);
    BlankLineEnds(rest);
  }

  lemma ChunkRead(c: Chunk, rest: bytes)
    requires ChunkOk(c)
    ensures Dechunk(c.line + (c.data + (CRLF + rest))) == Prepend(c.data, Dechunk(rest))
  {
    var behind := c.data + (CRLF + rest);
    LineReads(c.line, behind);
    assert behind[..|c.data|] == c.data;
    assert behind[|c.data|..|c.data| + 2] == CRLF && behind[|c.data| + 2..] == rest;
  }

  lemma {:induction false} ChunksRead(cs: seq<Chunk>, tail: bytes)
    requires ChunksOk(cs)
    ensures Dechunk(ChunksBytes(cs) + tail) == Prepend(DataOf(cs), Dechunk(tail))
    decreases |cs|
  {
    if cs == [] {
      assert ChunksBytes(cs) + tail == tail;
      PrependNothing(Dechunk(tail));
    } else {
      var behind := ChunksBytes(cs[1..]) + tail;
      assert ChunksBytes(cs) + tail == cs[0].line + (cs[0].data + (CRLF + behind));
      ChunkRead(cs[0], behind);
      ChunksRead(cs[1..], tail);
      PrependTwice(cs[0].data, DataOf(cs[1..]), Dechunk(tail));
    }
  }

  /** What a stream is made of: chunks, and what stops the body. */
  ghost predicate Parsed(s: bytes, cs: seq<Chunk>, tail: bytes) {
    ChunksOk(cs) && s == ChunksBytes(cs) + tail
  }

  ghost predicate Stops(tail: bytes) {
    (exists rest :: Ends(tail, rest)) || exists e :: GoesWrong(tail, e)
  }

  /** Where the body does not stop there is a whole chunk. */
  lemma FrontOf(s: bytes) returns (c: Chunk, rest: bytes)
    requires !Stops(s)
    ensures ChunkOk(c) && s == c.line + (c.data + (CRLF + rest))
  {
    LineExactly(s);
    assert !GoesWrong(s, Truncated) && !GoesWrong(s, BadSize) && !GoesWrong(s, BadTerminator);
    var (line, behind) := Line(s).value;
    assert SizedLine(s, line, behind);
    NotLast(s, line, behind);
    c, rest := ChunkAt(line, behind);
  }

  lemma ChunkAt(line: bytes, behind: bytes) returns (c: Chunk, rest: bytes)
    requires IsLine(line) && SizeOf(line).Some? && SizeOf(line).value > 0
    requires !CutShort(SizeOf(line), behind) && !NotTerminated(SizeOf(line), behind)
    ensures ChunkOk(c) && c.line == line && behind == c.data + (CRLF + rest)
  {
    var n := SizeOf(line).value;
    c, rest := Chunk(line, behind[..n]), behind[n + 2..];
    assert behind == behind[..n] + (behind[n..n + 2] + behind[n + 2..]);
  }

  lemma NotLast(s: bytes, line: bytes, behind: bytes)
    requires SizedLine(s, line, behind) && !CutShort(SizeOf(line), behind) && forall rest :: !Ends(s, rest)
    ensures SizeOf(line) != Some(0)
  {
    if SizeOf(line) == Some(0) {
      TrailersExactly(behind);
      var ts := TrailersFound(behind);
      assert s == line + (Joined(ts) + (CRLF + AfterTrailers(behind).value));
      assert Ends(s, AfterTrailers(behind).value);
    }
  }

  lemma {:induction false} Found(s: bytes) returns (cs: seq<Chunk>, tail: bytes)
    ensures Parsed(s, cs, tail) && Stops(tail)
    decreases |s|
  {
    if Stops(s) {
      cs, tail := [], s;
      assert ChunksBytes(cs) + s == s;
    } else {
      var c, rest := FrontOf(s);
      var more;
      more, tail := Found(rest);
      cs := [c] + more;
      ChunksFirst(c, more, tail);
    }
  }

  lemma ChunksFirst(c: Chunk, more: seq<Chunk>, tail: bytes)
    requires ChunkOk(c) && ChunksOk(more)
    ensures ChunksOk([c] + more)
    ensures ChunksBytes([c] + more) + tail == c.line + (c.data + (CRLF + (ChunksBytes(more) + tail)))
  {
    assert ([c] + more)[1..] == more;
  }

  /** A body is read exactly when the stream is chunks, a last one, trailers and a blank line; its data are theirs. */
  lemma BodyExactly(s: bytes, data: bytes, rest: bytes)
    ensures Dechunk(s) == Ok(Body(data, rest)) <==>
      exists cs, tail :: Parsed(s, cs, tail) && Ends(tail, rest) && data == DataOf(cs)
  {
    if Dechunk(s) == Ok(Body(data, rest)) {
      var cs, tail := Found(s);
      ChunksRead(cs, tail);
      StopRead(tail);
      if rest' :| Ends(tail, rest') {
        EndRead(tail, rest');
        assert DataOf(cs) + [] == DataOf(cs);
      }
    }
    if cs, tail :| Parsed(s, cs, tail) && Ends(tail, rest) && data == DataOf(cs) {
      ChunksRead(cs, tail);
      EndRead(tail, rest);
      assert data + [] == data;
    }
  }

  lemma StopRead(tail: bytes)
    ensures (exists e :: GoesWrong(tail, e)) ==> Dechunk(tail).Err?
    ensures (exists rest :: Ends(tail, rest)) ==> Dechunk(tail).Ok?
  {
    if e :| GoesWrong(tail, e) { WrongRead(tail, e); }
    if rest :| Ends(tail, rest) { EndRead(tail, rest); }
  }

  /** And it is refused exactly for what is wrong behind some whole chunks. */
  lemma ErrorExactly(s: bytes, e: ChunkError)
    ensures Dechunk(s) == Err(e) <==> exists cs, tail :: Parsed(s, cs, tail) && GoesWrong(tail, e)
  {
    if Dechunk(s) == Err(e) {
      var cs, tail := Found(s);
      ChunksRead(cs, tail);
      StopRead(tail);
      if e' :| GoesWrong(tail, e') {
        WrongRead(tail, e');
      }
    }
    if cs, tail :| Parsed(s, cs, tail) && GoesWrong(tail, e) {
      ChunksRead(cs, tail);
      WrongRead(tail, e);
    }
  }
}
