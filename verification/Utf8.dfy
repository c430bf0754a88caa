/** The incremental UTF-8 validator of streamed TEXT payloads, against the grammar of section 4 of RFC 3629. */
module Utf8 {
  import opened Bytes
  import opened Wrappers

  // ---- The grammar ----------------------------------------------------------

  predicate Tail(b: byte) {
    0x80 <= b <= 0xBF
  }

  /** UTF8-char */
  predicate Utf8Char(s: bytes) {
    || (|s| == 1 && s[0] <= 0x7F)
    || (|s| == 2 && 0xC2 <= s[0] <= 0xDF && Tail(s[1]))
    || (|s| == 3 && Tail(s[2]) &&
        (|| (s[0] == 0xE0 && 0xA0 <= s[1] <= 0xBF)
         || (0xE1 <= s[0] <= 0xEC && Tail(s[1]))
         || (s[0] == 0xED && 0x80 <= s[1] <= 0x9F)
         || (0xEE <= s[0] <= 0xEF && Tail(s[1]))))
    || (|s| == 4 && Tail(s[2]) && Tail(s[3]) &&
        (|| (s[0] == 0xF0 && 0x90 <= s[1] <= 0xBF)
         || (0xF1 <= s[0] <= 0xF3 && Tail(s[1]))
         || (s[0] == 0xF4 && 0x80 <= s[1] <= 0x8F)))
  }

  /** UTF8-octets: a possibly empty run of characters. */
  predicate WellFormed(s: bytes) {
    s == [] || exists n :: 1 <= n <= |s| && Utf8Char(s[..n]) && WellFormed(s[n..])
  }

  // ---- The grammar generates exactly the encodings of scalar values ---------

  predicate Scalar(c: int) {
    0 <= c <= 0xD7FF || 0xE000 <= c <= 0x10FFFF
  }

  /** Section 3 of RFC 3629. */
  function EncodeScalar(c: nat): bytes
    requires Scalar(c)
  {
    var c1, c2, c3 := c / 64, c / 64 / 64, c / 64 / 64 / 64;
    if c <= 0x7F then [c]
    else if c <= 0x7FF then [0xC0 + c1, 0x80 + c % 64]
    else if c <= 0xFFFF then [0xE0 + c2, 0x80 + c1 % 64, 0x80 + c % 64]
    else [0xF0 + c3, 0x80 + c2 % 64, 0x80 + c1 % 64, 0x80 + c % 64]
  }

  predicate AllScalars(text: seq<nat>) {
    forall i :: 0 <= i < |text| ==> Scalar(text[i])
  }

  /** `str.encode("utf-8")` of a text without lone surrogates. */
  function Encode(text: seq<nat>): bytes
    requires AllScalars(text)
  {
    if text == [] then [] else EncodeScalar(text[0]) + Encode(text[1..])
  }

  /** Appends the six payload bits of a continuation octet. */
  function Bits(high: int, tail: byte): int {
    high * 64 + (tail as int - 0x80)
  }

  function DecodeChar(s: bytes): int
    requires Utf8Char(s)
  {
    var lead: int := s[0];
    if |s| == 1 then lead
    else if |s| == 2 then Bits(lead - 0xC0, s[1])
    else if |s| == 3 then Bits(Bits(lead - 0xE0, s[1]), s[2])
    else Bits(Bits(Bits(lead - 0xF0, s[1]), s[2]), s[3])
  }

  lemma ScalarIsChar(c: nat)
    requires Scalar(c)
    ensures Utf8Char(EncodeScalar(c)) && DecodeChar(EncodeScalar(c)) == c
  {
  }

  lemma BitsSplit(high: nat, tail: byte)
    requires Tail(tail)
    ensures Bits(high, tail) / 64 == high && Bits(high, tail) % 64 == tail as int - 0x80
  {
  }

  lemma ThreeOctets(s: bytes)
    requires Utf8Char(s) && |s| == 3
    ensures Scalar(DecodeChar(s)) && EncodeScalar(DecodeChar(s)) == s
  {
    var high := Bits(s[0] as int - 0xE0, s[1]);
    BitsSplit(s[0] as int - 0xE0, s[1]);
    BitsSplit(high, s[2]);
    assert 0x800 / 64 <= high <= 0xFFFF / 64;
  }

  lemma FourOctets(s: bytes)
    requires Utf8Char(s) && |s| == 4
    ensures Scalar(DecodeChar(s)) && EncodeScalar(DecodeChar(s)) == s
  {
    var lead := s[0] as int - 0xF0;
    var high := Bits(lead, s[1]);
    var middle := Bits(high, s[2]);
    var c := Bits(middle, s[3]);
    assert 16 <= high < 272;
    assert 0x10000 <= c <= 0x10FFFF;
    assert c / 64 == middle && c % 64 == s[3] as int - 0x80 by { BitsSplit(middle, s[3]); }
    assert middle / 64 == high && middle % 64 == s[2] as int - 0x80 by { BitsSplit(high, s[2]); }
    assert high / 64 == lead && high % 64 == s[1] as int - 0x80 by { BitsSplit(lead, s[1]); }
    assert EncodeScalar(c) == [0xF0 + lead, s[1], s[2], s[3]];
  }

  lemma CharIsScalar(s: bytes)
    requires Utf8Char(s)
    ensures Scalar(DecodeChar(s)) && EncodeScalar(DecodeChar(s)) == s
  {
    if |s| == 2 {
      BitsSplit(s[0] as int - 0xC0, s[1]);
    } else if |s| == 3 {
      ThreeOctets(s);
    } else if |s| == 4 {
      FourOctets(s);
    }
  }

  lemma {:induction false} EncodingWellFormed(text: seq<nat>)
    requires AllScalars(text)
    ensures WellFormed(Encode(text))
  {
    if text != [] {
      EncodingWellFormed(text[1..]);
      ScalarIsChar(text[0]);
      var s := Encode(text);
      var n := |EncodeScalar(text[0])|;
      assert s[..n] == EncodeScalar(text[0]) && s[n..] == Encode(text[1..]);
    }
  }

  /** The length of a character is fixed by its first octet. */
  function Length(b: byte): nat {
    if b <= 0x7F then 1 else if b <= 0xDF then 2 else if b <= 0xEF then 3 else 4
  }

  lemma FirstChar(s: bytes)
    requires s != []
    ensures WellFormed(s) <==> Length(s[0]) <= |s| && Utf8Char(s[..Length(s[0])]) && WellFormed(s[Length(s[0])..])
  {
    if WellFormed(s) {
      var n :| 1 <= n <= |s| && Utf8Char(s[..n]) && WellFormed(s[n..]);
      assert n == Length(s[0]);
    }
  }

  /** `bytes.decode("utf-8")`; `None` is the `UnicodeDecodeError`. */
  function Decode(s: bytes): Option<seq<nat>> {
    if s == [] then Some([])
    else if Length(s[0]) > |s| || !Utf8Char(s[..Length(s[0])]) then None
    else
      match Decode(s[Length(s[0])..])
      case None => None
      case Some(rest) => Some([DecodeChar(s[..Length(s[0])]) as nat] + rest)
  }

  /** Decoding succeeds exactly on well-formed strings, and inverts the encoding. */
  lemma {:induction false} DecodeExact(s: bytes)
    ensures Decode(s).Some? <==> WellFormed(s)
    ensures Decode(s).Some? ==> AllScalars(Decode(s).value) && Encode(Decode(s).value) == s
  {
    if s != [] {
      FirstChar(s);
      var n := Length(s[0]);
      if n <= |s| && Utf8Char(s[..n]) {
        DecodeExact(s[n..]);
        CharIsScalar(s[..n]);
        if Decode(s).Some? {
          assert Decode(s).value[1..] == Decode(s[n..]).value;
          assert s == s[..n] + s[n..];
        }
      }
    }
  }

  lemma EncodeFirst(text: seq<nat>)
    requires AllScalars(text) && text != []
    ensures Encode(text) != []
    ensures var n := Length(Encode(text)[0]);
      n <= |Encode(text)| && Encode(text)[..n] == EncodeScalar(text[0]) && Encode(text)[n..] == Encode(text[1..])
  {
    ScalarIsChar(text[0]);
  }

  lemma {:induction false} EncodeRoundTrip(text: seq<nat>)
    requires AllScalars(text)
    ensures Decode(Encode(text)) == Some(text)
  {
    if text != [] {
      EncodeFirst(text);
      ScalarIsChar(text[0]);
      EncodeRoundTrip(text[1..]);
      assert [text[0]] + text[1..] == text;
    }
  }

  ghost predicate Encodes(s: bytes, text: seq<nat>) {
    AllScalars(text) && Encode(text) == s
  }

  /** A byte string is well formed exactly when it encodes some text. */
  lemma WellFormedIsEncoded(s: bytes)
    ensures WellFormed(s) <==> exists text :: Encodes(s, text)
  {
    DecodeExact(s);
    if WellFormed(s) {
      assert Encodes(s, Decode(s).value);
    }
    forall text | Encodes(s, text)
      ensures WellFormed(s)
    {
      EncodingWellFormed(text);
    }
  }

  /** The first octet in which they differ is the smaller one. */
  ghost predicate Before(a: bytes, b: bytes) {
    exists i :: 0 <= i < |a| && i < |b| && a[i] < b[i] && a[..i] == b[..i]
  }

  lemma SixBits(x: nat, y: nat)
    requires x < y
    ensures x / 64 < y / 64 || (x / 64 == y / 64 && x % 64 < y % 64)
  {
  }

  lemma DiffersAt(a: bytes, b: bytes, i: nat)
    requires i < |a| && i < |b| && a[i] < b[i] && forall j :: 0 <= j < i ==> a[j] == b[j]
    ensures Before(a, b)
  {
    assert a[..i] == b[..i];
  }

  lemma LongerLater(c: nat, d: nat)
    requires Scalar(c) && Scalar(d) && c < d && |EncodeScalar(c)| != |EncodeScalar(d)|
    ensures EncodeScalar(c)[0] < EncodeScalar(d)[0]
  {
  }

  lemma OrderShort(c: nat, d: nat)
    requires c < d <= 0x7FF && |EncodeScalar(c)| == |EncodeScalar(d)|
    ensures Before(EncodeScalar(c), EncodeScalar(d))
  {
    SixBits(c, d);
    DiffersAt(EncodeScalar(c), EncodeScalar(d), if EncodeScalar(c)[0] < EncodeScalar(d)[0] then 0 else 1);
  }

  lemma OrderThree(c: nat, d: nat)
    requires Scalar(c) && Scalar(d) && 0x7FF < c < d <= 0xFFFF
    ensures Before(EncodeScalar(c), EncodeScalar(d))
  {
    var a, b := EncodeScalar(c), EncodeScalar(d);
    SixBits(c, d);
    if c / 64 < d / 64 { SixBits(c / 64, d / 64); }
    DiffersAt(a, b, if a[0] < b[0] then 0 else if a[1] < b[1] then 1 else 2);
  }

  lemma OrderFour(c: nat, d: nat)
    requires Scalar(c) && Scalar(d) && 0xFFFF < c < d
    ensures Before(EncodeScalar(c), EncodeScalar(d))
  {
    var a, b := EncodeScalar(c), EncodeScalar(d);
    SixBits(c, d);
    if c / 64 < d / 64 { SixBits(c / 64, d / 64); }
    if c / 64 / 64 < d / 64 / 64 { SixBits(c / 64 / 64, d / 64 / 64); }
    DiffersAt(a, b, if a[0] < b[0] then 0 else if a[1] < b[1] then 1 else if a[2] < b[2] then 2 else 3);
  }

  /** The encoding keeps the order of the code points, which leaves one bijection onto the well-formed characters. */
  lemma OrderKept(c: nat, d: nat)
    requires Scalar(c) && Scalar(d) && c < d
    ensures Before(EncodeScalar(c), EncodeScalar(d))
  {
    if |EncodeScalar(c)| != |EncodeScalar(d)| {
      LongerLater(c, d);
      DiffersAt(EncodeScalar(c), EncodeScalar(d), 0);
    } else if d <= 0x7FF {
      OrderShort(c, d);
    } else if d <= 0xFFFF {
      OrderThree(c, d);
    } else {
      OrderFour(c, d);
    }
  }

  // ---- The automaton --------------------------------------------------------

  /** Continuation octets still expected, and the range of the next one. */
  datatype State = State(need: nat, lo: byte, hi: byte)

  const START := State(0, 0x80, 0xBF)

  function Step(u: State, b: byte): Option<State> {
    if u.need == 0 then
      if b < 0x80 then Some(u)
      else if 0xC2 <= b <= 0xDF then Some(State(1, 0x80, 0xBF))
      else if b == 0xE0 then Some(State(2, 0xA0, 0xBF))
      else if 0xE1 <= b <= 0xEC || b in {0xEE, 0xEF} then Some(State(2, 0x80, 0xBF))
      else if b == 0xED then Some(State(2, 0x80, 0x9F))
      else if b == 0xF0 then Some(State(3, 0x90, 0xBF))
      else if 0xF1 <= b <= 0xF3 then Some(State(3, 0x80, 0xBF))
      else if b == 0xF4 then Some(State(3, 0x80, 0x8F))
      else None
    else if b < u.lo || b > u.hi then None
    else Some(State(u.need - 1, 0x80, 0xBF))
  }

  function Scan(u: State, s: bytes): Option<State>
    decreases |s|
  {
    if s == [] then Some(u)
    else
      match Step(u, s[0])
      case None => None
      case Some(v) => Scan(v, s[1..])
  }

  lemma {:induction false} ScanAppend(u: State, s: bytes, t: bytes)
    ensures Scan(u, s + t) == match Scan(u, s) case None => None case Some(v) => Scan(v, t)
    decreases |s|
  {
    if s == [] {
      assert s + t == t;
    } else {
      assert (s + t)[1..] == s[1..] + t;
      if Step(u, s[0]).Some? {
        ScanAppend(Step(u, s[0]).value, s[1..], t);
      }
    }
  }

  /** What may follow in state `u` for the whole to be well formed. */
  predicate Completes(u: State, t: bytes) {
    if u.need == 0 then WellFormed(t)
    else
      && u.need <= |t| && u.lo <= t[0] <= u.hi
      && (forall k :: 1 <= k < u.need ==> Tail(t[k]))
      && WellFormed(t[u.need..])
  }

  predicate Reached(u: State) {
    u.need <= 3 && u.lo <= u.hi && 0x80 <= u.lo && u.hi <= 0xBF
  }

  lemma StepReached(u: State, b: byte)
    requires Reached(u)
    ensures Step(u, b).Some? ==> Reached(Step(u, b).value)
  {
  }

  /** In the middle of a character. */
  lemma StepInside(u: State, b: byte, t: bytes)
    requires Reached(u) && u.need > 0
    ensures Completes(u, [b] + t) <==> Step(u, b).Some? && Completes(Step(u, b).value, t)
  {
    var s := [b] + t;
    if u.need <= |s| {
      assert s[u.need..] == t[u.need - 1..];
      assert forall k :: 1 <= k < u.need ==> s[k] == t[k - 1];
      if u.need > 1 {
        assert t[0] == s[1];
        assert forall k :: 1 <= k < u.need - 1 ==> t[k] == s[k + 1];
      }
    }
  }

  /** At a character boundary. */
  lemma StepBoundary(u: State, b: byte, t: bytes)
    requires Reached(u) && u.need == 0
    ensures Completes(u, [b] + t) <==> Step(u, b).Some? && Completes(Step(u, b).value, t)
  {
    var s := [b] + t;
    var n := Length(b);
    FirstChar(s);
    if n <= |s| {
      assert s[n..] == t[n - 1..];
      assert forall k :: 1 <= k < n ==> s[..n][k] == t[k - 1];
    }
  }

  lemma {:induction false} ScanCompletes(u: State, s: bytes, t: bytes)
    requires Reached(u)
    ensures Completes(u, s + t) <==> Scan(u, s).Some? && Completes(Scan(u, s).value, t)
    ensures Scan(u, s).Some? ==> Reached(Scan(u, s).value)
    decreases |s|
  {
    if s == [] {
      assert s + t == t;
    } else {
      assert s + t == [s[0]] + (s[1..] + t);
      StepReached(u, s[0]);
      if u.need == 0 {
        StepBoundary(u, s[0], s[1..] + t);
      } else {
        StepInside(u, s[0], s[1..] + t);
      }
      if Step(u, s[0]).Some? {
        ScanCompletes(Step(u, s[0]).value, s[1..], t);
      }
    }
  }

  lemma SomeCompletion(u: State) returns (t: bytes)
    requires Reached(u)
    ensures Completes(u, t)
  {
    t := if u.need == 0 then [] else [u.lo] + seq(u.need - 1, _ => 0x80);
    assert t[u.need..] == [];
  }

  ghost predicate Prefix(s: bytes) {
    exists t :: WellFormed(s + t)
  }

  /** A fresh validator accepts exactly the prefixes of well-formed strings, and is done exactly on those. */
  lemma ValidatorExact(s: bytes)
    ensures Scan(START, s).Some? <==> Prefix(s)
    ensures Scan(START, s).Some? && Scan(START, s).value.need == 0 <==> WellFormed(s)
  {
    assert s + [] == s;
    ScanCompletes(START, s, []);
    if Scan(START, s).Some? {
      var t := SomeCompletion(Scan(START, s).value);
      ScanCompletes(START, s, t);
      assert WellFormed(s + t);
    }
    forall t | WellFormed(s + t)
      ensures Scan(START, s).Some?
    {
      ScanCompletes(START, s, t);
    }
  }

  function Concat(chunks: seq<bytes>): bytes {
    if chunks == [] then [] else Concat(chunks[..|chunks| - 1]) + chunks[|chunks| - 1]
  }

  /** `_Utf8Validator` */
  class Validator {
    var need: nat
    var lo: byte
    var hi: byte

    constructor ()
      ensures View() == START
    {
      need, lo, hi := 0, 0x80, 0xBF;
    }

    function View(): State
      reads this
    {
      State(need, lo, hi)
    }

    predicate Done()
      reads this
    {
      need == 0
    }

    /** Consumes a chunk; a chunk with an offending octet leaves the state as it was. */
    method Feed(chunk: bytes) returns (ok: bool)
      modifies this
      ensures ok == Scan(old(View()), chunk).Some?
      ensures View() == if ok then Scan(old(View()), chunk).value else old(View())
    {
      var n, l, h := need, lo, hi;
      for i := 0 to |chunk|
        invariant Scan(old(View()), chunk) == Scan(State(n, l, h), chunk[i..])
        invariant View() == old(View())
      {
        var b := chunk[i];
        assert chunk[i..][1..] == chunk[i + 1..];
        if n == 0 {
          if b < 0x80 { continue; }
          if 0xC2 <= b <= 0xDF {
            n, l, h := 1, 0x80, 0xBF;
          } else if b == 0xE0 {
            n, l, h := 2, 0xA0, 0xBF;
          } else if 0xE1 <= b <= 0xEC || b in {0xEE, 0xEF} {
            n, l, h := 2, 0x80, 0xBF;
          } else if b == 0xED {
            n, l, h := 2, 0x80, 0x9F;
          } else if b == 0xF0 {
            n, l, h := 3, 0x90, 0xBF;
          } else if 0xF1 <= b <= 0xF3 {
            n, l, h := 3, 0x80, 0xBF;
          } else if b == 0xF4 {
            n, l, h := 3, 0x80, 0x8F;
          } else {
            return false;
          }
        } else {
          if b < l || b > h { return false; }
          n := n - 1;
          l, h := 0x80, 0xBF;
        }
      }
      need, lo, hi := n, l, h;
      return true;
    }
  }

  /** The validator over a whole fragmented message: it stops at the first refused fragment. */
  method ValidateFragments(chunks: seq<bytes>) returns (ok: bool, done: bool)
    ensures ok <==> Prefix(Concat(chunks))
    ensures ok && done <==> WellFormed(Concat(chunks))
  {
    var v := new Validator();
    ok := true;
    for i := 0 to |chunks|
      invariant ok ==> Scan(START, Concat(chunks[..i])) == Some(v.View())
      invariant ok
    {
      assert chunks[..i + 1][..i] == chunks[..i];
      ScanAppend(START, Concat(chunks[..i]), chunks[i]);
      ok := v.Feed(chunks[i]);
      if !ok {
        RefusedStays(chunks, i + 1);
        ValidatorExact(Concat(chunks));
        return false, false;
      }
    }
    assert chunks[..|chunks|] == chunks;
    ValidatorExact(Concat(chunks));
    done := v.Done();
  }

  lemma {:induction false} RefusedStays(chunks: seq<bytes>, i: nat)
    requires i <= |chunks| && Scan(START, Concat(chunks[..i])).None?
    ensures Scan(START, Concat(chunks)).None?
    decreases |chunks| - i
  {
    if i == |chunks| {
      assert chunks[..i] == chunks;
    } else {
      assert chunks[..i + 1][..i] == chunks[..i];
      ScanAppend(START, Concat(chunks[..i]), chunks[i]);
      RefusedStays(chunks, i + 1);
    }
  }
}
