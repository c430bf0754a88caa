/** The quoted-string-aware walker of header parameter lists; section 5.6.4 of RFC 9110. */
module HeaderParams {

  const QUOTE: char := '"'
  const BACKSLASH: char := '\\'

  /** What `str.strip` removes. */
  predicate Space(c: char) {
    var k := c as int;
    || 9 <= k <= 13 || 28 <= k <= 32 || k == 0x85 || k == 0xA0 || k == 0x1680 || 0x2000 <= k <= 0x200A
    || k == 0x2028 || k == 0x2029 || k == 0x202F || k == 0x205F || k == 0x3000
  }

  function Lstrip(s: string): string {
    if s != [] && Space(s[0]) then Lstrip(s[1..]) else s
  }

  function Rstrip(s: string): string {
    if s != [] && Space(s[|s| - 1]) then Rstrip(s[..|s| - 1]) else s
  }

  function Strip(s: string): string {
    Rstrip(Lstrip(s))
  }

  /** `str.lower`, whose treatment of non-ASCII characters is left to the caller. */
  type Lowering = string -> string

  /** Where the first `c` is, or the length. */
  function Index(s: string, c: char): (i: nat)
    ensures i <= |s| && (i < |s| ==> s[i] == c) && (i == |s| <==> c !in s)
  {
    if s == [] then 0 else if s[0] == c then 0 else 1 + Index(s[1..], c)
  }

  function Max(a: int, b: int): int {
    if a >= b then a else b
  }

  /** Python's `s[i:j]` for non-negative bounds. */
  function Slice(s: string, i: nat, j: nat): string {
    var hi := if j <= |s| then j else |s|;
    if i <= hi then s[i..hi] else []
  }

  // ---- The walk over the characters -----------------------------------------

  /** A token with its quotes removed, and where its quoted region began and ended; -1 for none. */
  datatype Token = Token(raw: string, open: int, close: int)

  function Walk(s: string, delimiter: char, unescape: bool, t: Token, inQuotes: bool): seq<Token>
    decreases |s|
  {
    if s == [] then [t]
    else if inQuotes then
      if s[0] == BACKSLASH && |s| >= 2 then
        Walk(s[2..], delimiter, unescape, t.(raw := t.raw + if unescape then [s[1]] else s[..2]), true)
      else if s[0] == QUOTE then Walk(s[1..], delimiter, unescape, t.(close := |t.raw|), false)
      else Walk(s[1..], delimiter, unescape, t.(raw := t.raw + [s[0]]), true)
    else if s[0] == QUOTE then
      Walk(s[1..], delimiter, unescape, t.(open := if t.open < 0 then |t.raw| else t.open), true)
    else if s[0] == delimiter then [t] + Walk(s[1..], delimiter, unescape, EMPTY, false)
    else Walk(s[1..], delimiter, unescape, t.(raw := t.raw + [s[0]]), false)
  }

  const EMPTY := Token([], -1, -1)

  // ---- The fold over the tokens ---------------------------------------------

  datatype Parsed = Parsed(prefix: string, params: map<string, string>, first: bool)

  const START := Parsed("", map[], true)

  /** The value of a token, with whitespace outside its quoted region trimmed. */
  function ValueOf(t: Token, value: string): string {
    if t.close < 0 then Strip(value)
    else
      var offset := |t.raw| - |value|;
      var headEnd, tailStart := Max(t.open - offset, 0), Max(t.close - offset, 0);
      Lstrip(Slice(value, 0, headEnd)) + Slice(value, headEnd, tailStart) + Rstrip(Slice(value, tailStart, |value|))
  }

  function Take(lower: Lowering, p: Parsed, t: Token): Parsed {
    var eq := Index(t.raw, '=');
    if eq == |t.raw| then
      var stripped := Strip(t.raw);
      p.(prefix := if stripped != [] && p.first then stripped else p.prefix, first := false)
    else
      var key := lower(Strip(t.raw[..eq]));
      if key == [] then p.(first := false)
      else p.(first := false, params := p.params[key := ValueOf(t, t.raw[eq + 1..])])
  }

  function Fold(lower: Lowering, tokens: seq<Token>): Parsed {
    if tokens == [] then START else Take(lower, Fold(lower, tokens[..|tokens| - 1]), tokens[|tokens| - 1])
  }

  /** `parse_header_params` */
  function Parse(lower: Lowering, value: string, delimiter: char, unescape: bool): (string, map<string, string>) {
    var p := Fold(lower, Walk(value, delimiter, unescape, EMPTY, false));
    (p.prefix, p.params)
  }

  method Tokenise(value: string, delimiter: char, unescape: bool) returns (tokens: seq<Token>)
    ensures tokens == Walk(value, delimiter, unescape, EMPTY, false)
  {
    tokens := [];
    var buf: string := [];
    var firstOpen, lastClose, inQuotes := -1, -1, false;
    var i, n := 0, |value|;
    assert value[0..] == value;
    while i < n
      invariant 0 <= i <= n
      invariant tokens + Walk(value[i..], delimiter, unescape, Token(buf, firstOpen, lastClose), inQuotes)
             == Walk(value, delimiter, unescape, EMPTY, false)
    {
      var ch := value[i];
      assert value[i..][1..] == value[i + 1..];
      if inQuotes {
        if ch == BACKSLASH && i + 1 < n {
          assert value[i..][2..] == value[i + 2..] && value[i..][..2] == [ch, value[i + 1]];
          if unescape {
            buf := buf + [value[i + 1]];
          } else {
            buf := buf + [ch, value[i + 1]];
          }
          i := i + 2;
          continue;
        }
        if ch == QUOTE {
          inQuotes, lastClose := false, |buf|;
          i := i + 1;
          continue;
        }
        buf := buf + [ch];
        i := i + 1;
        continue;
      }
      if ch == QUOTE {
        inQuotes := true;
        if firstOpen < 0 { firstOpen := |buf|; }
        i := i + 1;
        continue;
      }
      if ch == delimiter {
        Regroup(tokens, [Token(buf, firstOpen, lastClose)],
                Walk(value[i + 1..], delimiter, unescape, EMPTY, false));
        tokens := tokens + [Token(buf, firstOpen, lastClose)];
        buf, firstOpen, lastClose := [], -1, -1;
        i := i + 1;
        continue;
      }
      buf := buf + [ch];
      i := i + 1;
    }
    tokens := tokens + [Token(buf, firstOpen, lastClose)];
  }

  lemma Regroup(a: seq<Token>, b: seq<Token>, c: seq<Token>)
    ensures a + (b + c) == a + b + c
  {
  }

  /** One turn of the loop over the tokens. */
  method TakeToken(lower: Lowering, p: Parsed, t: Token) returns (r: Parsed)
    ensures r == Take(lower, p, t)
  {
    var eq := Index(t.raw, '=');
    if eq == |t.raw| {
      var stripped := Strip(t.raw);
      if stripped != [] && p.first {
        return p.(prefix := stripped, first := false);
      }
      return p.(first := false);
    }
    var key := lower(Strip(t.raw[..eq]));
    if key == [] { return p.(first := false); }
    return p.(first := false, params := p.params[key := ValueOf(t, t.raw[eq + 1..])]);
  }

  method ParseHeaderParams(lower: Lowering, value: string, delimiter: char, unescape: bool)
    returns (prefix: string, params: map<string, string>)
    ensures (prefix, params) == Parse(lower, value, delimiter, unescape)
  {
    var tokens := Tokenise(value, delimiter, unescape);
    var p := START;
    for i := 0 to |tokens|
      invariant p == Fold(lower, tokens[..i])
    {
      assert tokens[..i + 1][..i] == tokens[..i];
      p := TakeToken(lower, p, tokens[i]);
    }
    assert tokens[..|tokens|] == tokens;
    return p.prefix, p.params;
  }

  // ---- Printing -------------------------------------------------------------

  function Replace(s: string, c: char, put: string): string {
    if s == [] then [] else (if s[0] == c then put else [s[0]]) + Replace(s[1..], c, put)
  }

  /** `_quote_header_value`: the backslash first. */
  function QuoteValue(v: string): string {
    Replace(Replace(v, BACKSLASH, [BACKSLASH, BACKSLASH]), QUOTE, [BACKSLASH, QUOTE])
  }

  /** A quoted-pair for each backslash and each quote. */
  function Escaped(v: string): string {
    if v == [] then [] else (if v[0] in {BACKSLASH, QUOTE} then [BACKSLASH, v[0]] else [v[0]]) + Escaped(v[1..])
  }

  lemma {:induction false} ReplaceSplit(a: string, b: string, c: char, put: string)
    ensures Replace(a + b, c, put) == Replace(a, c, put) + Replace(b, c, put)
    decreases |a|
  {
    if a == [] {
      assert a + b == b;
    } else {
      assert (a + b)[0] == a[0] && (a + b)[1..] == a[1..] + b;
      ReplaceSplit(a[1..], b, c, put);
    }
  }

  /** Escaping in this order touches every character once. */
  lemma {:induction false} QuotedOnce(v: string)
    ensures QuoteValue(v) == Escaped(v)
  {
    if v != [] {
      var head := if v[0] == BACKSLASH then [BACKSLASH, BACKSLASH] else [v[0]];
      QuotedOnce(v[1..]);
      ReplaceSplit(head, Replace(v[1..], BACKSLASH, [BACKSLASH, BACKSLASH]), QUOTE, [BACKSLASH, QUOTE]);
      HeadReplaced(head);
    }
  }

  lemma HeadReplaced(head: string)
    requires head == [BACKSLASH, BACKSLASH] || (|head| == 1 && head[0] != BACKSLASH)
    ensures Replace(head, QUOTE, [BACKSLASH, QUOTE]) == if head == [QUOTE] then [BACKSLASH, QUOTE] else head
  {
    if |head| == 2 {
      assert head[1..] == [BACKSLASH] && head[1..][1..] == [];
    } else {
      assert head[1..] == [];
    }
  }

  datatype Param = Param(key: string, value: string)

  /** `; key="value"` */
  function ParamText(p: Param): string {
    "; " + p.key + "=" + [QUOTE] + QuoteValue(p.value) + [QUOTE]
  }

  /** The parameters, one after the other. */
  function ParamsText(ps: seq<Param>): string {
    if ps == [] then []
    else ParamText(ps[0]) + ParamsText(ps[1..])
  }

  /** A character of an RFC 9110 token, as far as this grammar needs it. */
  predicate TokenChar(c: char) {
    !Space(c) && c !in {QUOTE, BACKSLASH, ';', '='}
  }

  predicate IsToken(s: string) {
    s != [] && forall i :: 0 <= i < |s| ==> TokenChar(s[i])
  }

  // ---- Round trip -----------------------------------------------------------

  /** Outside quotes everything but a quote and the delimiter is taken as it is. */
  lemma {:induction false} WalkPlain(p: string, rest: string, delimiter: char, unescape: bool, t: Token)
    requires forall i :: 0 <= i < |p| ==> p[i] !in {QUOTE, delimiter}
    ensures Walk(p + rest, delimiter, unescape, t, false)
      == Walk(rest, delimiter, unescape, t.(raw := t.raw + p), false)
    decreases |p|
  {
    if p == [] {
      assert p + rest == rest && t.raw + p == t.raw;
    } else {
      assert (p + rest)[0] == p[0] && (p + rest)[1..] == p[1..] + rest;
      assert t.raw + [p[0]] + p[1..] == t.raw + p;
      WalkPlain(p[1..], rest, delimiter, unescape, t.(raw := t.raw + [p[0]]));
    }
  }

  /** What is kept of a quoted value: the value, or its escaped form. */
  function Kept(v: string, unescape: bool): string {
    if unescape then v else Escaped(v)
  }

  /** A quoted value is taken back verbatim, up to its closing quote. */
  lemma {:induction false} WalkQuoted(v: string, rest: string, delimiter: char, unescape: bool, t: Token)
    ensures Walk(Escaped(v) + [QUOTE] + rest, delimiter, unescape, t, true)
      == Walk(rest, delimiter, unescape,
              Token(t.raw + Kept(v, unescape), t.open, |t.raw + Kept(v, unescape)|), false)
    decreases |v|
  {
    var s := Escaped(v) + [QUOTE] + rest;
    if v == [] {
      assert s[1..] == rest && t.raw + v == t.raw;
    } else {
      var tail := Escaped(v[1..]) + [QUOTE] + rest;
      var head := if v[0] in {BACKSLASH, QUOTE} && !unescape then [BACKSLASH, v[0]] else [v[0]];
      assert t.raw + head + Kept(v[1..], unescape) == t.raw + Kept(v, unescape);
      if v[0] in {BACKSLASH, QUOTE} {
        assert s == [BACKSLASH, v[0]] + tail;
        assert s[2..] == tail && s[..2] == [BACKSLASH, v[0]];
      } else {
        assert s == [v[0]] + tail;
        assert s[1..] == tail;
      }
      WalkQuoted(v[1..], rest, delimiter, unescape, t.(raw := t.raw + head));
    }
  }

  function TokenOf(p: Param): Token {
    Token(" " + p.key + "=" + p.value, |p.key| + 2, |p.key| + 2 + |p.value|)
  }

  function TokensOf(ps: seq<Param>): seq<Token> {
    if ps == [] then [] else [TokenOf(ps[0])] + TokensOf(ps[1..])
  }

  predicate KeysOk(ps: seq<Param>) {
    forall i :: 0 <= i < |ps| ==> IsToken(ps[i].key)
  }

  lemma ParamPieces(p: Param, rest: string)
    ensures ParamText(p) + rest == ";" + (" " + p.key + "=" + ([QUOTE] + (Escaped(p.value) + [QUOTE] + rest)))
  {
    QuotedOnce(p.value);
  }

  /** An opening quote. */
  lemma WalkOpening(p: Param, behind: string)
    requires IsToken(p.key)
    ensures Walk(" " + p.key + "=" + ([QUOTE] + behind), ';', true, EMPTY, false)
      == Walk(behind, ';', true, Token(" " + p.key + "=", |p.key| + 2, -1), true)
  {
    var head := " " + p.key + "=";
    WalkPlain(head, [QUOTE] + behind, ';', true, EMPTY);
    assert EMPTY.raw + head == head;
    assert ([QUOTE] + behind)[1..] == behind;
  }

  lemma WalkParam(p: Param, rest: string, t: Token)
    requires IsToken(p.key)
    ensures Walk(ParamText(p) + rest, ';', true, t, false) == [t] + Walk(rest, ';', true, TokenOf(p), false)
  {
    var behind := Escaped(p.value) + [QUOTE] + rest;
    var inner := " " + p.key + "=" + ([QUOTE] + behind);
    ParamPieces(p, rest);
    assert (";" + inner)[1..] == inner;
    WalkOpening(p, behind);
    WalkQuoted(p.value, rest, ';', true, Token(" " + p.key + "=", |p.key| + 2, -1));
  }

  lemma {:induction false} WalkParams(ps: seq<Param>, t: Token)
    requires KeysOk(ps)
    ensures Walk(ParamsText(ps), ';', true, t, false) == [t] + TokensOf(ps)
    decreases |ps|
  {
    if ps != [] {
      WalkParam(ps[0], ParamsText(ps[1..]), t);
      WalkParams(ps[1..], TokenOf(ps[0]));
    }
  }

  lemma StripToken(s: string)
    requires IsToken(s)
    ensures Strip(s) == s && Strip(" " + s) == s
  {
    assert (" " + s)[1..] == s;
  }

  lemma IndexAfter(a: string, c: char, b: string)
    requires c !in a
    ensures Index(a + [c] + b, c) == |a|
  {
    var s := a + [c] + b;
    var i := Index(s, c);
    assert s[|a|] == c;
    IndexLeast(s, c, |a|);
    assert forall j :: 0 <= j < |a| ==> s[j] == a[j];
  }

  lemma {:induction false} IndexLeast(s: string, c: char, n: nat)
    requires n < |s| && s[n] == c
    ensures Index(s, c) <= n
  {
    if s[0] != c {
      IndexLeast(s[1..], c, n - 1);
    }
  }

  /** The quoted region of a printed parameter is its whole value. */
  lemma ValueWhole(q: Param)
    ensures ValueOf(TokenOf(q), q.value) == q.value
  {
    assert Slice(q.value, 0, 0) == [] && Slice(q.value, 0, |q.value|) == q.value;
    assert Slice(q.value, |q.value|, |q.value|) == [];
    assert [] + q.value + [] == q.value;
  }

  lemma TakeParam(lower: Lowering, p: Parsed, q: Param)
    requires IsToken(q.key) && lower(q.key) == q.key
    ensures Take(lower, p, TokenOf(q)) == p.(first := false, params := p.params[q.key := q.value])
  {
    var t, head := TokenOf(q), " " + q.key;
    assert t.raw == head + ['='] + q.value;
    assert '=' !in head;
    IndexAfter(head, '=', q.value);
    assert t.raw[..|head|] == head && t.raw[|head| + 1..] == q.value;
    StripToken(q.key);
    ValueWhole(q);
  }

  function ToMap(ps: seq<Param>): map<string, string> {
    if ps == [] then map[] else ToMap(ps[..|ps| - 1])[ps[|ps| - 1].key := ps[|ps| - 1].value]
  }

  lemma {:induction false} TokensLast(ps: seq<Param>)
    requires ps != []
    ensures TokensOf(ps) == TokensOf(ps[..|ps| - 1]) + [TokenOf(ps[|ps| - 1])]
  {
    var n := |ps| - 1;
    if n > 0 {
      TokensLast(ps[1..]);
      assert ps[1..][..n - 1] == ps[..n][1..];
    }
  }

  predicate Lowercase(lower: Lowering, ps: seq<Param>) {
    forall i :: 0 <= i < |ps| ==> lower(ps[i].key) == ps[i].key
  }

  lemma {:induction false} FoldParams(lower: Lowering, prefix: Token, ps: seq<Param>)
    requires IsToken(prefix.raw) && prefix == Token(prefix.raw, -1, -1)
    requires KeysOk(ps) && Lowercase(lower, ps)
    ensures Fold(lower, [prefix] + TokensOf(ps)) == Parsed(prefix.raw, ToMap(ps), false)
  {
    var tokens := [prefix] + TokensOf(ps);
    var n := |ps| - 1;
    if ps == [] {
      assert tokens == [prefix] && tokens[..0] == [];
      StripToken(prefix.raw);
      assert Index(prefix.raw, '=') == |prefix.raw|;
    } else {
      TokensLast(ps);
      assert tokens[..|tokens| - 1] == [prefix] + TokensOf(ps[..n]);
      FoldParams(lower, prefix, ps[..n]);
      TakeParam(lower, Fold(lower, [prefix] + TokensOf(ps[..n])), ps[n]);
    }
  }

  /** Printing a prefix and parameters, whatever their values, and parsing that gives both back. */
  lemma HeaderRoundTrip(lower: Lowering, prefix: string, ps: seq<Param>)
    requires IsToken(prefix) && KeysOk(ps) && Lowercase(lower, ps)
    ensures Parse(lower, prefix + ParamsText(ps), ';', true) == (prefix, ToMap(ps))
  {
    WalkPlain(prefix, ParamsText(ps), ';', true, EMPTY);
    assert [] + prefix == prefix;
    WalkParams(ps, Token(prefix, -1, -1));
    FoldParams(lower, Token(prefix, -1, -1), ps);
  }

  /** With distinct keys no parameter is lost. */
  lemma {:induction false} DistinctKept(ps: seq<Param>, i: nat)
    requires i < |ps| && forall a, b :: 0 <= a < b < |ps| ==> ps[a].key != ps[b].key
    ensures ps[i].key in ToMap(ps) && ToMap(ps)[ps[i].key] == ps[i].value
  {
    if i < |ps| - 1 {
      DistinctKept(ps[..|ps| - 1], i);
    }
  }

  // ---- The fast path --------------------------------------------------------

  /** `s.split(c)` */
  function Split(s: string, c: char): (parts: seq<string>)
    ensures parts != []
  {
    var i := Index(s, c);
    if i == |s| then [s] else [s[..i]] + Split(s[i + 1..], c)
  }

  /** One chunk of the quote-free path of `parse_media_type_params`. */
  function TakeChunk(lower: Lowering, params: map<string, string>, chunk: string): map<string, string> {
    var eq := Index(chunk, '=');
    if eq == |chunk| then params
    else
      var key := lower(Strip(chunk[..eq]));
      if key == [] then params else params[key := Strip(chunk[eq + 1..])]
  }

  function FoldChunks(lower: Lowering, chunks: seq<string>): map<string, string> {
    if chunks == [] then map[]
    else TakeChunk(lower, FoldChunks(lower, chunks[..|chunks| - 1]), chunks[|chunks| - 1])
  }

  /** One turn of the quote-free loop. */
  method CollectChunk(lower: Lowering, params: map<string, string>, chunk: string) returns (r: map<string, string>)
    ensures r == TakeChunk(lower, params, chunk)
  {
    var eq := Index(chunk, '=');
    if eq == |chunk| { return params; }
    var key := lower(Strip(chunk[..eq]));
    if key == [] { return params; }
    return params[key := Strip(chunk[eq + 1..])];
  }

  /** `parse_media_type_params`, its pairs collected into a dictionary. */
  method ParseMediaTypeParams(lower: Lowering, rest: string) returns (params: map<string, string>)
    ensures params == Parse(lower, rest, ';', true).1
  {
    if QUOTE !in rest {
      var chunks := Split(rest, ';');
      params := map[];
      for i := 0 to |chunks|
        invariant params == FoldChunks(lower, chunks[..i])
      {
        assert chunks[..i + 1][..i] == chunks[..i];
        params := CollectChunk(lower, params, chunks[i]);
      }
      assert chunks[..|chunks|] == chunks;
      FastPathAgrees(lower, rest);
    } else {
      var prefix;
      prefix, params := ParseHeaderParams(lower, rest, ';', true);
    }
  }

  function Unquoted(parts: seq<string>): (r: seq<Token>)
    ensures |r| == |parts|
  {
    seq(|parts|, i requires 0 <= i < |parts| => Token(parts[i], -1, -1))
  }

  lemma HeadPlain(s: string)
    requires QUOTE !in s
    ensures forall j :: 0 <= j < Index(s, ';') ==> s[j] !in {QUOTE, ';'}
  {
    forall j | 0 <= j < Index(s, ';')
      ensures s[j] !in {QUOTE, ';'}
    {
      if s[j] == ';' { IndexLeast(s, ';', j); }
    }
  }

  lemma UnquotedFirst(head: string, parts: seq<string>)
    ensures Unquoted([head] + parts) == [Token(head, -1, -1)] + Unquoted(parts)
  {
  }

  lemma WalkHead(head: string, rest: string)
    requires forall i :: 0 <= i < |head| ==> head[i] !in {QUOTE, ';'}
    ensures Walk(head + rest, ';', true, EMPTY, false) == Walk(rest, ';', true, Token(head, -1, -1), false)
  {
    WalkPlain(head, rest, ';', true, EMPTY);
    assert EMPTY.raw + head == head;
  }

  /** A chunk that ends the value. */
  lemma WalkLastChunk(head: string)
    requires forall i :: 0 <= i < |head| ==> head[i] !in {QUOTE, ';'}
    ensures Walk(head, ';', true, EMPTY, false) == [Token(head, -1, -1)]
  {
    WalkHead(head, []);
    assert head + [] == head;
  }

  /** A chunk up to its delimiter. */
  lemma WalkChunk(head: string, tail: string)
    requires forall i :: 0 <= i < |head| ==> head[i] !in {QUOTE, ';'}
    ensures Walk(head + ([';'] + tail), ';', true, EMPTY, false)
      == [Token(head, -1, -1)] + Walk(tail, ';', true, EMPTY, false)
  {
    WalkHead(head, [';'] + tail);
    assert ([';'] + tail)[1..] == tail;
  }

  /** Without a quote the walk only splits. */
  lemma {:induction false} WalkSplits(s: string)
    requires QUOTE !in s
    ensures Walk(s, ';', true, EMPTY, false) == Unquoted(Split(s, ';'))
    decreases |s|
  {
    var i := Index(s, ';');
    HeadPlain(s);
    if i == |s| {
      WalkLastChunk(s);
      assert Unquoted([s]) == [Token(s, -1, -1)];
    } else {
      var head, tail := s[..i], s[i + 1..];
      assert s == head + ([';'] + tail);
      WalkChunk(head, tail);
      WalkSplits(tail);
      UnquotedFirst(head, Split(tail, ';'));
    }
  }

  lemma TakeAgrees(lower: Lowering, p: Parsed, chunk: string)
    ensures Take(lower, p, Token(chunk, -1, -1)).params == TakeChunk(lower, p.params, chunk)
  {
  }

  lemma {:induction false} FoldAgrees(lower: Lowering, parts: seq<string>)
    ensures Fold(lower, Unquoted(parts)).params == FoldChunks(lower, parts)
  {
    var tokens := Unquoted(parts);
    if parts == [] {
      assert tokens == [];
    } else {
      var n := |parts| - 1;
      FoldAgrees(lower, parts[..n]);
      assert tokens[..n] == Unquoted(parts[..n]) && tokens[n] == Token(parts[n], -1, -1);
      TakeAgrees(lower, Fold(lower, Unquoted(parts[..n])), parts[n]);
    }
  }

  lemma FastPathAgrees(lower: Lowering, rest: string)
    requires QUOTE !in rest
    ensures FoldChunks(lower, Split(rest, ';')) == Parse(lower, rest, ';', true).1
  {
    WalkSplits(rest);
    FoldAgrees(lower, Split(rest, ';'));
  }

  // ---- Splitting without unquoting ------------------------------------------

  /** The raw parts of `s` behind `buf`, and whether a quoted string is still open at the end. */
  function SplitParts(s: string, delimiter: char, buf: string, inQuotes: bool): (seq<string>, bool)
    decreases |s|
  {
    if s == [] then ([buf], inQuotes)
    else if inQuotes && s[0] == BACKSLASH && |s| >= 2 then SplitParts(s[2..], delimiter, buf + s[..2], true)
    else if s[0] == QUOTE then SplitParts(s[1..], delimiter, buf + [s[0]], !inQuotes)
    else if s[0] == delimiter && !inQuotes then
      var (rest, open) := SplitParts(s[1..], delimiter, [], false);
      ([buf] + rest, open)
    else SplitParts(s[1..], delimiter, buf + [s[0]], inQuotes)
  }

  /** `split_outside_quotes_checked` */
  method SplitOutsideQuotes(value: string, delimiter: char) returns (parts: seq<string>, open: bool)
    ensures (parts, open) == SplitParts(value, delimiter, [], false)
  {
    parts, open := [], false;
    var buf: string := [];
    var i, n := 0, |value|;
    ghost var whole := SplitParts(value, delimiter, [], false);
    assert value[0..] == value && parts + whole.0 == whole.0;
    while i < n
      invariant 0 <= i <= n
      invariant parts + SplitParts(value[i..], delimiter, buf, open).0 == whole.0
      invariant SplitParts(value[i..], delimiter, buf, open).1 == whole.1
    {
      var ch := value[i];
      assert value[i..][1..] == value[i + 1..];
      if open && ch == BACKSLASH && i + 1 < n {
        assert value[i..][2..] == value[i + 2..] && value[i..][..2] == [ch] + [value[i + 1]];
        assert buf + [ch] + [value[i + 1]] == buf + ([ch] + [value[i + 1]]);
        buf := buf + [ch] + [value[i + 1]];
        i := i + 2;
        continue;
      }
      if ch == QUOTE {
        open := !open;
        buf := buf + [ch];
        i := i + 1;
        continue;
      }
      if ch == delimiter && !open {
        ghost var rest := SplitParts(value[i + 1..], delimiter, [], false).0;
        assert parts + ([buf] + rest) == parts + [buf] + rest;
        parts := parts + [buf];
        buf := [];
        i := i + 1;
        continue;
      }
      buf := buf + [ch];
      i := i + 1;
    }
    parts := parts + [buf];
  }

  function JoinParts(parts: seq<string>, delimiter: char): string {
    if parts == [] then [] else if |parts| == 1 then parts[0]
        else parts[0] + [delimiter] + JoinParts(parts[1..], delimiter)
  }

  /** Nothing is lost: joining the parts with the delimiter gives the value back. */
  lemma {:induction false} SplitLossless(s: string, delimiter: char, buf: string, inQuotes: bool)
    ensures SplitParts(s, delimiter, buf, inQuotes).0 != []
    ensures JoinParts(SplitParts(s, delimiter, buf, inQuotes).0, delimiter) == buf + s
    decreases |s|
  {
    if s == [] {
      assert buf + s == buf;
    } else if inQuotes && s[0] == BACKSLASH && |s| >= 2 {
      SplitLossless(s[2..], delimiter, buf + s[..2], true);
      assert buf + s[..2] + s[2..] == buf + s;
    } else if s[0] == delimiter && !inQuotes && s[0] != QUOTE {
      SplitLossless(s[1..], delimiter, [], false);
      var rest := SplitParts(s[1..], delimiter, [], false).0;
      assert ([buf] + rest)[1..] == rest;
      assert buf + [delimiter] + ([] + s[1..]) == buf + s;
    } else {
      SplitLossless(s[1..], delimiter, buf + [s[0]], if s[0] == QUOTE then !inQuotes else inQuotes);
      assert buf + [s[0]] + s[1..] == buf + s;
    }
  }

  /** Walking `buf` from a fresh token leaves the walker at `t`. */
  ghost predicate Consumes(buf: string, delimiter: char, unescape: bool, t: Token, inQuotes: bool) {
    forall rest :: Walk(buf + rest, delimiter, unescape, EMPTY, false) == Walk(rest, delimiter, unescape, t, inQuotes)
  }

  lemma ConsumesMore(buf: string, x: string, delimiter: char, unescape: bool, t: Token, q: bool, t': Token, q': bool)
    requires Consumes(buf, delimiter, unescape, t, q)
    requires forall rest :: Walk(x + rest, delimiter, unescape, t, q) == Walk(rest, delimiter, unescape, t', q')
    ensures Consumes(buf + x, delimiter, unescape, t', q')
  {
    forall rest
      ensures Walk(buf + x + rest, delimiter, unescape, EMPTY, false) == Walk(rest, delimiter, unescape, t', q')
    {
      assert buf + x + rest == buf + (x + rest);
    }
  }

  lemma ConsumesNothing(delimiter: char, unescape: bool)
    ensures Consumes([], delimiter, unescape, EMPTY, false)
  {
    assert forall rest: string :: [] + rest == rest;
  }

  /** One character, other than a backslash inside quotes or a delimiter outside. */
  function AfterChar(t: Token, c: char, inQuotes: bool): Token {
    if c != QUOTE then t.(raw := t.raw + [c])
    else if inQuotes then t.(close := |t.raw|)
    else t.(open := if t.open < 0 then |t.raw| else t.open)
  }

  lemma ConsumesChar(buf: string, c: char, delimiter: char, unescape: bool, t: Token, inQuotes: bool)
    requires Consumes(buf, delimiter, unescape, t, inQuotes)
    requires !(inQuotes && c == BACKSLASH) && !(c == delimiter && !inQuotes && c != QUOTE)
    ensures Consumes(buf + [c], delimiter, unescape, AfterChar(t, c, inQuotes), if c == QUOTE then !inQuotes
      else inQuotes)
  {
    forall rest
      ensures Walk([c] + rest, delimiter, unescape, t, inQuotes)
        == Walk(rest, delimiter, unescape, AfterChar(t, c, inQuotes), if c == QUOTE then !inQuotes else inQuotes)
    {
      assert ([c] + rest)[1..] == rest;
    }
    ConsumesMore(buf, [c], delimiter, unescape, t, inQuotes, AfterChar(t, c, inQuotes), if c == QUOTE then !inQuotes
        else inQuotes);
  }

  lemma ConsumesPair(buf: string, pair: string, delimiter: char, unescape: bool, t: Token)
    requires Consumes(buf, delimiter, unescape, t, true) && |pair| == 2 && pair[0] == BACKSLASH
    ensures Consumes(buf + pair, delimiter, unescape, t.(raw := t.raw + if unescape then [pair[1]] else pair), true)
  {
    var t' := t.(raw := t.raw + if unescape then [pair[1]] else pair);
    forall rest
      ensures Walk(pair + rest, delimiter, unescape, t, true) == Walk(rest, delimiter, unescape, t', true)
    {
      assert (pair + rest)[2..] == rest && (pair + rest)[..2] == pair && (pair + rest)[1] == pair[1];
    }
    ConsumesMore(buf, pair, delimiter, unescape, t, true, t', true);
  }

  /** Part by part, the walker makes of a part what it makes of that stretch of the whole. */
  predicate Match(parts: seq<string>, tokens: seq<Token>, delimiter: char, unescape: bool) {
    |parts| == |tokens| && forall i :: 0 <= i < |parts| ==>
      Walk(parts[i], delimiter, unescape, EMPTY, false) == [tokens[i]]
  }

  lemma LastPart(buf: string, s: string, delimiter: char, unescape: bool, t: Token, inQuotes: bool)
    requires Consumes(buf, delimiter, unescape, t, inQuotes)
    ensures Walk(buf + s, delimiter, unescape, EMPTY, false) == Walk(s, delimiter, unescape, t, inQuotes)
    ensures Walk(buf, delimiter, unescape, EMPTY, false) == [t]
  {
    assert buf + [] == buf;
    assert Walk(buf + [], delimiter, unescape, EMPTY, false) == Walk([], delimiter, unescape, t, inQuotes);
  }

  /** What the splitter and the walker make of `s` behind `buf`. */
  predicate Agree(s: string, delimiter: char, unescape: bool, buf: string, t: Token, inQuotes: bool) {
    Match(SplitParts(s, delimiter, buf, inQuotes).0, Walk(s, delimiter, unescape, t, inQuotes), delimiter, unescape)
  }

  lemma AgreeAtEnd(delimiter: char, unescape: bool, buf: string, t: Token, inQuotes: bool)
    requires Consumes(buf, delimiter, unescape, t, inQuotes)
    ensures Agree([], delimiter, unescape, buf, t, inQuotes)
  {
    LastPart(buf, [], delimiter, unescape, t, inQuotes);
  }

  lemma AgreeAtPair(s: string, delimiter: char, unescape: bool, buf: string, t: Token)
    requires |s| >= 2 && s[0] == BACKSLASH
    requires Agree(s[2..], delimiter, unescape, buf + s[..2], t.(raw := t.raw + if unescape then [s[1]] else s[..2]),
      true)
    ensures Agree(s, delimiter, unescape, buf, t, true)
  {
  }

  /** A backslash that ends the value inside quotes is an ordinary character. */
  lemma AgreeAtLoneBackslash(s: string, delimiter: char, unescape: bool, buf: string, t: Token)
    requires s == [BACKSLASH] && Consumes(buf, delimiter, unescape, t, true)
    ensures Agree(s, delimiter, unescape, buf, t, true)
  {
    LastPart(buf, s, delimiter, unescape, t, true);
    var t' := t.(raw := t.raw + s);
    assert s[1..] == [] && buf + [s[0]] == buf + s;
    assert Walk(s, delimiter, unescape, t, true) == Walk([], delimiter, unescape, t', true) == [t'];
    assert SplitParts(s, delimiter, buf, true).0 == [buf + s];
  }

  lemma AgreeAtDelimiter(s: string, delimiter: char, unescape: bool, buf: string, t: Token)
    requires s != [] && s[0] == delimiter && s[0] != QUOTE && Consumes(buf, delimiter, unescape, t, false)
    requires Agree(s[1..], delimiter, unescape, [], EMPTY, false)
    ensures Agree(s, delimiter, unescape, buf, t, false)
  {
    LastPart(buf, s, delimiter, unescape, t, false);
    var parts, tokens := SplitParts(s[1..], delimiter, [], false).0, Walk(s[1..], delimiter, unescape, EMPTY, false);
    assert SplitParts(s, delimiter, buf, false).0 == [buf] + parts;
    assert Walk(s, delimiter, unescape, t, false) == [t] + tokens;
  }

  lemma AgreeAtChar(s: string, delimiter: char, unescape: bool, buf: string, t: Token, inQuotes: bool)
    requires s != [] && !(inQuotes && s[0] == BACKSLASH) && !(s[0] == delimiter && !inQuotes && s[0] != QUOTE)
    requires Agree(s[1..], delimiter, unescape, buf + [s[0]], AfterChar(t, s[0], inQuotes),
                   if s[0] == QUOTE then !inQuotes else inQuotes)
    ensures Agree(s, delimiter, unescape, buf, t, inQuotes)
  {
  }

  /** The splitter and the walker cut a value at the same places. */
  lemma {:induction false} SplitMatchesWalk(s: string, delimiter: char, unescape: bool, buf: string, t: Token,
                                            inQuotes: bool)
    requires Consumes(buf, delimiter, unescape, t, inQuotes)
    ensures Agree(s, delimiter, unescape, buf, t, inQuotes)
    decreases |s|
  {
    if s == [] {
      AgreeAtEnd(delimiter, unescape, buf, t, inQuotes);
    } else if inQuotes && s[0] == BACKSLASH && |s| >= 2 {
      ConsumesPair(buf, s[..2], delimiter, unescape, t);
      SplitMatchesWalk(s[2..], delimiter, unescape, buf + s[..2],
                       t.(raw := t.raw + if unescape then [s[1]] else s[..2]), true);
      AgreeAtPair(s, delimiter, unescape, buf, t);
    } else if inQuotes && s[0] == BACKSLASH {
      AgreeAtLoneBackslash(s, delimiter, unescape, buf, t);
    } else if s[0] == delimiter && !inQuotes && s[0] != QUOTE {
      ConsumesNothing(delimiter, unescape);
      SplitMatchesWalk(s[1..], delimiter, unescape, [], EMPTY, false);
      AgreeAtDelimiter(s, delimiter, unescape, buf, t);
    } else {
      ConsumesChar(buf, s[0], delimiter, unescape, t, inQuotes);
      SplitMatchesWalk(s[1..], delimiter, unescape, buf + [s[0]], AfterChar(t, s[0], inQuotes),
                       if s[0] == QUOTE then !inQuotes else inQuotes);
      AgreeAtChar(s, delimiter, unescape, buf, t, inQuotes);
    }
  }

  /** Each raw part of a value parses to exactly the token the walker finds there, and the parts join to the value. */
  lemma SplitterAgrees(value: string, delimiter: char, unescape: bool)
    ensures var parts := SplitParts(value, delimiter, [], false).0;
      JoinParts(parts, delimiter) == value && Match(parts, Walk(value, delimiter, unescape, EMPTY, false), delimiter,
          unescape)
  {
    ConsumesNothing(delimiter, unescape);
    SplitMatchesWalk(value, delimiter, unescape, [], EMPTY, false);
    SplitLossless(value, delimiter, [], false);
    assert [] + value == value;
  }
}
