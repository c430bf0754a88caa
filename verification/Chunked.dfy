/** Chunked transfer coding, section 7.1 of RFC 9112: the response writer, and the test client's reader. */
module Chunked {
  import opened Bytes
  import opened Numerals
  import opened Wrappers

  const CRLF: bytes := [13, 10]

  // ---- The numerals of the size line ----------------------------------------

  function Ascii(s: string): (r: bytes)
    requires forall i :: 0 <= i < |s| ==> (s[i] as int) < 256
    ensures |r| == |s|
  {
    seq(|s|, i requires 0 <= i < |s| => s[i] as int)
  }

  function Text(s: bytes): (r: string)
    ensures |r| == |s|
  {
    seq(|s|, i requires 0 <= i < |s| => s[i] as char)
  }

  function Hex(n: nat): (s: bytes)
    ensures s != [] && Text(s) == Numeral(n, 16)
  {
    var digits := Numeral(n, 16);
    assert forall i :: 0 <= i < |digits| ==> IsDigit(digits[i], 16);
    Ascii(digits)
  }

  /** Hexadecimal digits with single underscores between them, which Python accepts in a numeral. */
  function Grouped(s: string): Option<nat> {
    if s == [] || !IsDigit(s[|s| - 1], 16) then None
    else
      var last := DigitValue(s[|s| - 1]).value;
      if |s| == 1 then Some(last)
      else
        var high := Grouped(if s[|s| - 2] == '_' then s[..|s| - 2] else s[..|s| - 1]);
        if high.None? then None else Some(high.value * 16 + last)
  }

  /** `int(s, 16)`: an optional sign, an optional `0x`, then digits. */
  function ParseInt(s: string): Option<int> {
    if s == [] then None
    else
      var body := if s[0] in "+-" then s[1..] else s;
      var prefixed := |body| >= 2 && body[0] == '0' && body[1] in "xX";
      var digits := if !prefixed then body else if |body| >= 3 && body[2] == '_' then body[3..] else body[2..];
      match Grouped(digits)
      case None => None
      case Some(n) => Some(if s[0] == '-' then -(n as int) else n as int)
  }

  lemma {:induction false} GroupedPlain(s: string)
    requires forall i :: 0 <= i < |s| ==> IsDigit(s[i], 16)
    ensures Grouped(s) == ParseNumeral(s, 16)
  {
    if |s| > 1 {
      assert IsDigit(s[|s| - 2], 16);
      GroupedPlain(s[..|s| - 1]);
    }
  }

  /** Plain digits carry neither a sign nor a prefix. */
  lemma PlainParses(s: string)
    requires s != [] && forall i :: 0 <= i < |s| ==> IsDigit(s[i], 16)
    ensures ParseInt(s) == match Grouped(s) case None => None case Some(n) => Some(n as int)
  {
    assert s[0] !in "+-" by { NoMark(s[0]); }
    assert |s| >= 2 ==> s[1] !in "xX" by {
      if |s| >= 2 { NoMark(s[1]); }
    }
  }

  lemma NoMark(c: char)
    requires IsDigit(c, 16)
    ensures c !in "+-" && c !in "xX"
  {
  }

  /** A size prints to digits that read back as the same size. */
  lemma HexReads(n: nat)
    ensures ParseInt(Text(Hex(n))) == Some(n)
  {
    var s := Numeral(n, 16);
    GroupedPlain(s);
    NumeralRoundTrip(n, 16);
    PlainParses(s);
  }

  // ---- Writing --------------------------------------------------------------

  /** An empty chunk is skipped: its framing would end the body. */
  function Framed(chunk: bytes): bytes {
    if chunk == [] then [] else Hex(|chunk|) + CRLF + chunk + CRLF
  }

  function FramedEach(chunks: seq<bytes>): seq<bytes> {
    seq(|chunks|, i requires 0 <= i < |chunks| => Framed(chunks[i]))
  }

  function Joined(chunks: seq<bytes>): bytes {
    if chunks == [] then [] else chunks[0] + Joined(chunks[1..])
  }

  function FramedAll(chunks: seq<bytes>): bytes {
    Joined(FramedEach(chunks))
  }

  const LAST_CHUNK: bytes := [48] + CRLF + CRLF

  function Encode(chunks: seq<bytes>): bytes {
    FramedAll(chunks) + LAST_CHUNK
  }

  class Transport {
    var output: bytes

    method Write(data: bytes)
      modifies this
      ensures output == old(output) + data
    {
      output := output + data;
    }
  }

  lemma {:induction false} JoinedLast(parts: seq<bytes>, last: bytes)
    ensures Joined(parts + [last]) == Joined(parts) + last
  {
    var all := parts + [last];
    if parts == [] {
      assert all[1..] == [];
    } else {
      JoinedLast(parts[1..], last);
      assert all[1..] == parts[1..] + [last];
      Regroup(parts[0], Joined(parts[1..]), last);
    }
  }

  lemma FramedAllLast(chunks: seq<bytes>, last: bytes)
    ensures FramedAll(chunks + [last]) == FramedAll(chunks) + Framed(last)
  {
    assert FramedEach(chunks + [last]) == FramedEach(chunks) + [Framed(last)];
    JoinedLast(FramedEach(chunks), Framed(last));
  }

  lemma FramedAllFirst(chunks: seq<bytes>)
    requires chunks != []
    ensures FramedAll(chunks) == Framed(chunks[0]) + FramedAll(chunks[1..])
  {
    assert FramedEach(chunks)[1..] == FramedEach(chunks[1..]);
  }

  lemma Regroup(a: bytes, b: bytes, c: bytes)
    ensures a + (b + c) == a + b + c
  {
  }

  /** `_write_chunked` */
  method WriteChunked(transport: Transport, chunks: seq<bytes>)
    modifies transport
    ensures transport.output == old(transport.output) + Encode(chunks)
  {
    for i := 0 to |chunks|
      invariant transport.output == old(transport.output) + FramedAll(chunks[..i])
    {
      assert chunks[..i + 1] == chunks[..i] + [chunks[i]];
      FramedAllLast(chunks[..i], chunks[i]);
      WriteChunk(transport, chunks[i]);
      Regroup(old(transport.output), FramedAll(chunks[..i]), Framed(chunks[i]));
    }
    assert chunks[..|chunks|] == chunks;
    transport.Write(LAST_CHUNK);
    Regroup(old(transport.output), FramedAll(chunks), LAST_CHUNK);
  }

  method WriteChunk(transport: Transport, chunk: bytes)
    modifies transport
    ensures transport.output == old(transport.output) + Framed(chunk)
  {
    if chunk != [] {
      transport.Write(Hex(|chunk|) + CRLF + chunk + CRLF);
    }
  }

  // ---- Reading --------------------------------------------------------------

  datatype ChunkError = Truncated | BadSize | BadTerminator

  datatype Body = Body(data: bytes, rest: bytes)

  /** `readuntil(b"\r\n")`: the line with its terminator, and what follows. */
  function Line(s: bytes): (r: Option<(bytes, bytes)>)
    ensures r.Some? ==> |r.value.0| >= 2 && r.value.0 + r.value.1 == s && |r.value.1| < |s|
  {
    if |s| < 2 then None
    else if s[..2] == CRLF then Some((s[..2], s[2..]))
    else
      match Line(s[1..])
      case None => None
      case Some((line, rest)) => Some(([s[0]] + line, rest))
  }

  predicate Blank(b: byte) {
    b == 32 || 9 <= b <= 13
  }

  function StripLeft(s: bytes): bytes {
    if s != [] && Blank(s[0]) then StripLeft(s[1..]) else s
  }

  function StripRight(s: bytes): bytes {
    if s != [] && Blank(s[|s| - 1]) then StripRight(s[..|s| - 1]) else s
  }

  /** `line.split(b";", 1)[0]` */
  function BeforeExtensions(s: bytes): bytes {
    if s == [] || s[0] == 59 then [] else [s[0]] + BeforeExtensions(s[1..])
  }

  function SizeOf(line: bytes): Option<int> {
    ParseInt(Text(StripRight(StripLeft(BeforeExtensions(line)))))
  }

  /** Past the trailer fields and the blank line that ends them. */
  function AfterTrailers(s: bytes): (r: Option<bytes>)
    ensures r.Some? ==> |r.value| < |s|
    decreases |s|
  {
    match Line(s)
    case None => None
    case Some((line, rest)) => if line == CRLF then Some(rest) else AfterTrailers(rest)
  }

  function Prepend(data: bytes, r: Result<Body, ChunkError>): Result<Body, ChunkError> {
    if r.Ok? then Ok(Body(data + r.value.data, r.value.rest)) else r
  }

  /** A chunked body at the front of a stream, and the octets behind it. */
  function Dechunk(s: bytes): Result<Body, ChunkError>
    decreases |s|
  {
    match Line(s)
    case None => Err(Truncated)
    case Some((line, rest)) =>
      var size := SizeOf(line);
      if size.None? || size.value < 0 then Err(BadSize)
      else if size.value == 0 then
        match AfterTrailers(rest)
        case None => Err(Truncated)
        case Some(after) => Ok(Body([], after))
      else if |rest| < size.value + 2 then Err(Truncated)
      else if rest[size.value..size.value + 2] != CRLF then Err(BadTerminator)
      else Prepend(rest[..size.value], Dechunk(rest[size.value + 2..]))
  }

  class Reader {
    var pending: bytes

    /** `readuntil(b"\r\n")`; `None` when the stream ends first. */
    method ReadLine() returns (r: Option<bytes>)
      modifies this
      ensures r == match Line(old(pending)) case None => None case Some((line, rest)) => Some(line)
      ensures r.Some? ==> pending == Line(old(pending)).value.1 && |pending| < |old(pending)|
    {
      match Line(pending)
      case None => r := None;
      case Some((line, rest)) =>
        r, pending := Some(line), rest;
    }

    method ReadExactly(n: nat) returns (r: Option<bytes>)
      modifies this
      ensures r.Some? <==> n <= |old(pending)|
      ensures r.Some? ==> r.value == old(pending)[..n] && pending == old(pending)[n..]
    {
      if |pending| < n { return None; }
      r, pending := Some(pending[..n]), pending[n..];
    }
  }

  /** One turn of the reading loop: a chunk, or nothing once the last chunk and its trailers are past. */
  method ReadChunk(reader: Reader) returns (r: Result<Option<bytes>, ChunkError>)
    modifies reader
    ensures match r
      case Err(e) => Dechunk(old(reader.pending)) == Err(e)
      case Ok(None) => Dechunk(old(reader.pending)) == Ok(Body([], reader.pending))
      case Ok(Some(chunk)) =>
        Dechunk(old(reader.pending)) == Prepend(chunk, Dechunk(reader.pending))
            && |reader.pending| < |old(reader.pending)|
  {
    var line := reader.ReadLine();
    if line.None? { return Err(Truncated); }
    var size := SizeOf(line.value);
    if size.None? || size.value < 0 { return Err(BadSize); }
    if size.value == 0 {
      var ended := SkipTrailers(reader);
      return if ended then Ok(None) else Err(Truncated);
    }
    ghost var rest := reader.pending;
    var chunk := reader.ReadExactly(size.value);
    if chunk.None? { return Err(Truncated); }
    var terminator := reader.ReadExactly(2);
    if terminator.None? { return Err(Truncated); }
    assert terminator.value == rest[size.value..size.value + 2];
    assert reader.pending == rest[size.value + 2..];
    if terminator.value != CRLF { return Err(BadTerminator); }
    return Ok(chunk);
  }

  /** `_read_chunked_body`; after a success the reader stands right behind the body. */
  method ReadChunkedBody(reader: Reader) returns (r: Result<bytes, ChunkError>)
    modifies reader
    ensures r == match Dechunk(old(reader.pending)) case Err(e) => Err(e) case Ok(body) => Ok(body.data)
    ensures r.Ok? ==> reader.pending == Dechunk(old(reader.pending)).value.rest
  {
    ghost var whole := Dechunk(reader.pending);
    var body: bytes := [];
    PrependNothing(whole);
    while true
      invariant whole == Prepend(body, Dechunk(reader.pending))
      decreases |reader.pending|
    {
      var turn := ReadChunk(reader);
      if turn.Err? { return Err(turn.error); }
      if turn.value.None? {
        assert body + [] == body;
        return Ok(body);
      }
      PrependTwice(body, turn.value.value, Dechunk(reader.pending));
      body := body + turn.value.value;
    }
  }

  lemma PrependNothing(r: Result<Body, ChunkError>)
    ensures Prepend([], r) == r
  {
    if r.Ok? {
      assert [] + r.value.data == r.value.data;
    }
  }

  lemma PrependTwice(a: bytes, b: bytes, r: Result<Body, ChunkError>)
    ensures Prepend(a, Prepend(b, r)) == Prepend(a + b, r)
  {
    if r.Ok? {
      assert a + (b + r.value.data) == a + b + r.value.data;
    }
  }

  method SkipTrailers(reader: Reader) returns (ok: bool)
    modifies reader
    ensures ok == AfterTrailers(old(reader.pending)).Some?
    ensures ok ==> reader.pending == AfterTrailers(old(reader.pending)).value
  {
    while true
      invariant AfterTrailers(reader.pending) == AfterTrailers(old(reader.pending))
      decreases |reader.pending|
    {
      var line := reader.ReadLine();
      if line.None? { return false; }
      if line.value == CRLF { return true; }
    }
  }

  // ---- Round trip -----------------------------------------------------------

  predicate Plain(s: bytes) {
    forall i :: 0 <= i < |s| ==> s[i] !in {10, 13, 59} && !Blank(s[i])
  }

  lemma HexPlain(n: nat)
    ensures Plain(Hex(n))
  {
    var h, digits := Hex(n), Numeral(n, 16);
    forall i | 0 <= i < |h|
      ensures h[i] !in {10, 13, 59} && !Blank(h[i])
    {
      assert Text(h)[i] == digits[i] && IsDigit(digits[i], 16);
    }
  }

  lemma {:induction false} PlainLine(s: bytes, rest: bytes)
    requires Plain(s)
    ensures Line(s + CRLF + rest) == Some((s + CRLF, rest))
  {
    var all := s + CRLF + rest;
    if s == [] {
      assert all[..2] == CRLF && all[2..] == rest;
    } else {
      assert all[0] == s[0] && all[..2] != CRLF;
      assert all[1..] == s[1..] + CRLF + rest;
      PlainLine(s[1..], rest);
      assert [s[0]] + (s[1..] + CRLF) == s + CRLF;
    }
  }

  lemma {:induction false} PlainExtensions(s: bytes)
    requires Plain(s)
    ensures BeforeExtensions(s + CRLF) == s + CRLF
  {
    var all := s + CRLF;
    if s == [] {
      assert all == [13, 10] && all[1..] == [10] && all[1..][1..] == [];
      assert BeforeExtensions([10]) == [10];
    } else {
      assert all[1..] == s[1..] + CRLF;
      PlainExtensions(s[1..]);
    }
  }

  lemma PlainStrips(s: bytes)
    requires Plain(s) && s != []
    ensures StripRight(StripLeft(s + CRLF)) == s
  {
    var all := s + CRLF;
    assert all[0] == s[0];
    assert all[..|all| - 1][..|all| - 2] == s;
    assert StripRight(all[..|all| - 1]) == StripRight(s) == s;
  }

  lemma HexLine(n: nat, rest: bytes)
    ensures Line(Hex(n) + CRLF + rest) == Some((Hex(n) + CRLF, rest)) && SizeOf(Hex(n) + CRLF) == Some(n)
  {
    HexPlain(n);
    PlainLine(Hex(n), rest);
    PlainExtensions(Hex(n));
    PlainStrips(Hex(n));
    HexReads(n);
  }

  lemma ChunkReads(chunk: bytes, rest: bytes)
    requires chunk != []
    ensures Dechunk(Framed(chunk) + rest) == Prepend(chunk, Dechunk(rest))
  {
    var behind := chunk + CRLF + rest;
    assert Framed(chunk) + rest == Hex(|chunk|) + CRLF + behind;
    HexLine(|chunk|, behind);
    assert behind[..|chunk|] == chunk;
    assert behind[|chunk|..|chunk| + 2] == CRLF;
    assert behind[|chunk| + 2..] == rest;
  }

  lemma LastChunkReads(rest: bytes)
    ensures Dechunk(LAST_CHUNK + rest) == Ok(Body([], rest))
  {
    assert Numeral(0, 16) == "0" && Hex(0) == [48];
    assert LAST_CHUNK + rest == Hex(0) + CRLF + (CRLF + rest);
    HexLine(0, CRLF + rest);
    assert (CRLF + rest)[..2] == CRLF && (CRLF + rest)[2..] == rest;
  }

  lemma EncodeFirst(chunks: seq<bytes>, rest: bytes)
    requires chunks != []
    ensures Encode(chunks) + rest == Framed(chunks[0]) + (Encode(chunks[1..]) + rest)
  {
    FramedAllFirst(chunks);
    Regroup(Framed(chunks[0]), FramedAll(chunks[1..]), LAST_CHUNK);
    Regroup(Framed(chunks[0]), Encode(chunks[1..]), rest);
  }

  /** Reading what was written gives the chunks joined, whatever follows on the connection. */
  lemma {:induction false} ChunkedRoundTrip(chunks: seq<bytes>, rest: bytes)
    ensures Dechunk(Encode(chunks) + rest) == Ok(Body(Joined(chunks), rest))
  {
    if chunks == [] {
      LastChunkReads(rest);
      assert FramedAll(chunks) == [] && Encode(chunks) == LAST_CHUNK;
    } else {
      var behind := Encode(chunks[1..]) + rest;
      EncodeFirst(chunks, rest);
      ChunkedRoundTrip(chunks[1..], rest);
      if chunks[0] == [] {
        assert Framed(chunks[0]) + behind == behind;
        assert Joined(chunks) == Joined(chunks[1..]);
      } else {
        ChunkReads(chunks[0], behind);
      }
    }
  }
}
