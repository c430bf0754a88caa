/** What a header value means, read off how it is written: words, `key = value` items and quoted regions. */
module HeaderMeaning {
  import opened HeaderParams

  // ---- How a value is written -----------------------------------------------

  /** A quoted string, and the bare text behind it. */
  datatype Region = Region(quoted: string, behind: string)

  /** The right-hand side of a parameter: bare text, or quoted regions behind some bare text. */
  datatype Value =
    | Bare(body: string)
    | Mixed(head: string, regions: seq<Region>)

  /** What stands between two delimiters; `before`, `after`, `gap` and `end` are its whitespace. */
  datatype Item =
    | Word(before: string, body: string, end: string)
    | Assigned(before: string, key: string, after: string, gap: string, value: Value, end: string)

  predicate Blank(s: string) {
    forall i :: 0 <= i < |s| ==> Space(s[i])
  }

  predicate Outside(s: string, delimiter: char) {
    forall i :: 0 <= i < |s| ==> s[i] !in {QUOTE, delimiter}
  }

  predicate OpensTight(s: string) {
    s == [] || !Space(s[0])
  }

  predicate EndsTight(s: string) {
    s == [] || !Space(s[|s| - 1])
  }

  predicate Delimits(delimiter: char) {
    !Space(delimiter) && delimiter !in {QUOTE, '='}
  }

  predicate ValueOk(v: Value, delimiter: char) {
    match v
    case Bare(body) => Outside(body, delimiter) && OpensTight(body) && EndsTight(body)
    case Mixed(head, regions) =>
      && Outside(head, delimiter) && OpensTight(head)
      && regions != [] && EndsTight(regions[|regions| - 1].behind)
      && forall i :: 0 <= i < |regions| ==> Outside(regions[i].behind, delimiter)
  }

  predicate ItemOk(x: Item, delimiter: char) {
    match x
    case Word(before, body, end) =>
      && Blank(before) && Blank(end) && '=' !in body
      && Outside(body, delimiter) && OpensTight(body) && EndsTight(body)
    case Assigned(before, key, after, gap, value, end) =>
      && Blank(before) && Blank(after) && Blank(gap) && Blank(end) && '=' !in key
      && Outside(key, delimiter) && OpensTight(key) && EndsTight(key) && ValueOk(value, delimiter)
  }

  function RegionText(r: Region): string {
    [QUOTE] + (QuoteValue(r.quoted) + [QUOTE] + r.behind)
  }

  function RegionsText(rs: seq<Region>): string {
    if rs == [] then [] else RegionText(rs[0]) + RegionsText(rs[1..])
  }

  function ValueText(v: Value): string {
    match v
    case Bare(body) => body
    case Mixed(head, regions) => head + RegionsText(regions)
  }

  function ItemText(x: Item): string {
    match x
    case Word(before, body, end) => before + body + end
    case Assigned(before, key, after, gap, value, end) =>
      before + key + after + ['='] + gap + (ValueText(value) + end)
  }

  function Text(items: seq<Item>, delimiter: char): string {
    if items == [] then [] else if |items| == 1 then ItemText(items[0])
    else ItemText(items[0]) + ([delimiter] + Text(items[1..], delimiter))
  }

  // ---- What it means --------------------------------------------------------

  function RegionsMean(rs: seq<Region>, unescape: bool): string {
    if rs == [] then [] else Kept(rs[0].quoted, unescape) + rs[0].behind + RegionsMean(rs[1..], unescape)
  }

  /** Whitespace inside and between the quoted regions belongs to the value. */
  function ValueMeans(v: Value, unescape: bool): string {
    match v
    case Bare(body) => body
    case Mixed(head, regions) => head + RegionsMean(regions, unescape)
  }

  function PrefixOf(items: seq<Item>): string {
    if items != [] && items[0].Word? then items[0].body else []
  }

  /** The item is a parameter under the name `k`; a parameter without a name does not count. */
  predicate Names(lower: Lowering, x: Item, k: string) {
    x.Assigned? && lower(x.key) == k && k != []
  }

  predicate LastToName(lower: Lowering, items: seq<Item>, i: int, k: string) {
    && 0 <= i < |items| && Names(lower, items[i], k)
    && forall j :: i < j < |items| ==> !Names(lower, items[j], k)
  }

  function ParamsOf(lower: Lowering, items: seq<Item>, unescape: bool): map<string, string> {
    if items == [] then map[]
    else
      var params, x := ParamsOf(lower, items[..|items| - 1], unescape), items[|items| - 1];
      if x.Assigned? && lower(x.key) != [] then params[lower(x.key) := ValueMeans(x.value, unescape)] else params
  }

  /** Without an item that names it there is no such parameter. */
  lemma {:induction false} Unnamed(lower: Lowering, items: seq<Item>, unescape: bool, k: string)
    requires forall i :: 0 <= i < |items| ==> !Names(lower, items[i], k)
    ensures k !in ParamsOf(lower, items, unescape)
  {
    if items != [] {
      Unnamed(lower, items[..|items| - 1], unescape, k);
      assert !Names(lower, items[|items| - 1], k);
    }
  }

  /** A parameter has the value of the last item that names it. */
  lemma {:induction false} LastNamed(lower: Lowering, items: seq<Item>, unescape: bool, i: nat, k: string)
    requires LastToName(lower, items, i, k)
    ensures k in ParamsOf(lower, items, unescape)
    ensures ParamsOf(lower, items, unescape)[k] == ValueMeans(items[i].value, unescape)
  {
    var n := |items| - 1;
    if i < n {
      assert !Names(lower, items[n], k);
      LastNamed(lower, items[..n], unescape, i, k);
    }
  }

  // ---- Trimming -------------------------------------------------------------

  lemma {:induction false} LstripAway(w: string, s: string)
    requires Blank(w) && OpensTight(s)
    ensures Lstrip(w + s) == s
    decreases |w|
  {
    if w == [] {
      assert w + s == s;
    } else {
      assert (w + s)[1..] == w[1..] + s;
      LstripAway(w[1..], s);
    }
  }

  lemma {:induction false} RstripAway(s: string, w: string)
    requires Blank(w) && EndsTight(s)
    ensures Rstrip(s + w) == s
    decreases |w|
  {
    if w == [] {
      assert s + w == s;
    } else {
      assert (s + w)[..|s + w| - 1] == s + w[..|w| - 1];
      RstripAway(s, w[..|w| - 1]);
    }
  }

  lemma StripAway(w: string, s: string, w': string)
    requires Blank(w) && OpensTight(s) && EndsTight(s) && Blank(w')
    ensures Strip(w + s + w') == s
  {
    if s == [] {
      LstripAway(w + w', []);
      assert w + s + w' == w + w' + [];
    } else {
      assert w + s + w' == w + (s + w');
      LstripAway(w, s + w');
      RstripAway(s, w');
    }
  }

  // ---- The walk over one item -----------------------------------------------

  function Opened(t: Token): int {
    if t.open < 0 then |t.raw| else t.open
  }

  lemma Chained(a: string, b: string, c: string, d: string)
    ensures a + b + c + d == a + (b + c + d) && a + b + c + d == a + b + (c + d)
  {
  }

  function AfterRegion(t: Token, r: Region, unescape: bool): Token {
    var raw := t.raw + Kept(r.quoted, unescape);
    Token(raw + r.behind, Opened(t), |raw|)
  }

  function AfterRegions(t: Token, rs: seq<Region>, unescape: bool): Token
    decreases |rs|
  {
    if rs == [] then t else AfterRegions(AfterRegion(t, rs[0], unescape), rs[1..], unescape)
  }

  lemma WalkRegion(r: Region, rest: string, delimiter: char, unescape: bool, t: Token)
    requires Outside(r.behind, delimiter)
    ensures Walk(RegionText(r) + rest, delimiter, unescape, t, false)
      == Walk(rest, delimiter, unescape, AfterRegion(t, r, unescape), false)
  {
    QuotedOnce(r.quoted);
    var behind := Escaped(r.quoted) + [QUOTE] + (r.behind + rest);
    assert RegionText(r) + rest == [QUOTE] + behind;
    assert ([QUOTE] + behind)[1..] == behind;
    var t' := t.(open := Opened(t));
    WalkQuoted(r.quoted, r.behind + rest, delimiter, unescape, t');
    var kept := Kept(r.quoted, unescape);
    WalkPlain(r.behind, rest, delimiter, unescape, Token(t.raw + kept, t'.open, |t.raw + kept|));
  }

  lemma {:induction false} WalkRegions(rs: seq<Region>, rest: string, delimiter: char, unescape: bool, t: Token)
    requires forall i :: 0 <= i < |rs| ==> Outside(rs[i].behind, delimiter)
    ensures Walk(RegionsText(rs) + rest, delimiter, unescape, t, false)
      == Walk(rest, delimiter, unescape, AfterRegions(t, rs, unescape), false)
    decreases |rs|
  {
    if rs == [] {
      assert RegionsText(rs) + rest == rest;
    } else {
      var more := RegionsText(rs[1..]) + rest;
      assert RegionsText(rs) + rest == RegionText(rs[0]) + more;
      WalkRegion(rs[0], more, delimiter, unescape, t);
      WalkRegions(rs[1..], rest, delimiter, unescape, AfterRegion(t, rs[0], unescape));
    }
  }

  /** The quoted part runs from the first opening quote to the last closing one. */
  lemma {:induction false} RegionsSpan(rs: seq<Region>, unescape: bool, t: Token)
    requires rs != []
    ensures var raw := t.raw + RegionsMean(rs, unescape);
      AfterRegions(t, rs, unescape) == Token(raw, Opened(t), |raw| - |rs[|rs| - 1].behind|)
    decreases |rs|
  {
    var kept, t' := Kept(rs[0].quoted, unescape), AfterRegion(t, rs[0], unescape);
    Chained(t.raw, kept, rs[0].behind, RegionsMean(rs[1..], unescape));
    if |rs| == 1 {
      assert t'.raw + [] == t'.raw;
    } else {
      RegionsSpan(rs[1..], unescape, t');
    }
  }

  /** What stands before the value of a parameter. */
  function Front(x: Item): string
    requires x.Assigned?
  {
    x.before + x.key + x.after + ['=']
  }

  function TokenFor(x: Item, unescape: bool): Token {
    match x
    case Word(before, body, end) => Token(before + body + end, -1, -1)
    case Assigned(before, key, after, gap, value, end) =>
      var raw := Front(x) + (gap + ValueMeans(value, unescape) + end);
      match value
      case Bare(_) => Token(raw, -1, -1)
      case Mixed(head, rs) =>
        Token(raw, |Front(x)| + |gap + head|,
              |raw| - |end| - if rs == [] then 0 else |rs[|rs| - 1].behind|)
  }

  lemma BlankOutside(w: string, delimiter: char)
    requires Blank(w) && Delimits(delimiter)
    ensures Outside(w, delimiter) && '=' !in w
  {
  }

  lemma OutsideBoth(a: string, b: string, delimiter: char)
    requires Outside(a, delimiter) && Outside(b, delimiter)
    ensures Outside(a + b, delimiter)
  {
  }

  lemma FrontOutside(x: Item, delimiter: char)
    requires Delimits(delimiter) && ItemOk(x, delimiter) && x.Assigned?
    ensures Outside(Front(x) + x.gap, delimiter)
  {
    BlankOutside(x.before, delimiter);
    BlankOutside(x.after, delimiter);
    BlankOutside(x.gap, delimiter);
  }

  lemma WalkBare(pieces: string, rest: string, delimiter: char, unescape: bool)
    requires Outside(pieces, delimiter)
    ensures Walk(pieces + rest, delimiter, unescape, EMPTY, false)
      == Walk(rest, delimiter, unescape, Token(pieces, -1, -1), false)
  {
    WalkPlain(pieces, rest, delimiter, unescape, EMPTY);
    assert EMPTY.raw + pieces == pieces;
  }

  lemma WalkMixed(front: string, rs: seq<Region>, end: string, rest: string, delimiter: char, unescape: bool)
    requires rs != [] && Outside(front, delimiter) && Outside(end, delimiter)
    requires forall i :: 0 <= i < |rs| ==> Outside(rs[i].behind, delimiter)
    ensures var raw := front + RegionsMean(rs, unescape);
      Walk(front + (RegionsText(rs) + (end + rest)), delimiter, unescape, EMPTY, false)
        == Walk(rest, delimiter, unescape, Token(raw + end, |front|, |raw| - |rs[|rs| - 1].behind|), false)
  {
    WalkBare(front, RegionsText(rs) + (end + rest), delimiter, unescape);
    WalkRegions(rs, end + rest, delimiter, unescape, Token(front, -1, -1));
    RegionsSpan(rs, unescape, Token(front, -1, -1));
    var raw := front + RegionsMean(rs, unescape);
    WalkPlain(end, rest, delimiter, unescape, Token(raw, |front|, |raw| - |rs[|rs| - 1].behind|));
  }

  lemma Laid(front: string, gap: string, head: string, body: string, end: string, rest: string)
    ensures front + gap + (head + body + end) + rest == front + gap + head + (body + (end + rest))
    ensures front + (gap + (head + body) + end) == front + gap + head + body + end
    ensures head == [] ==> front + gap + (body + end) == front + gap + body + end
    ensures head == [] ==> front + (gap + body + end) == front + gap + body + end
  {
  }

  lemma WalkAssigned(x: Item, rest: string, delimiter: char, unescape: bool)
    requires Delimits(delimiter) && ItemOk(x, delimiter) && x.Assigned?
    ensures Walk(ItemText(x) + rest, delimiter, unescape, EMPTY, false)
      == Walk(rest, delimiter, unescape, TokenFor(x, unescape), false)
  {
    var front, end := Front(x) + x.gap, x.end;
    FrontOutside(x, delimiter);
    BlankOutside(end, delimiter);
    match x.value
    case Bare(body) =>
      OutsideBoth(front, body, delimiter);
      OutsideBoth(front + body, end, delimiter);
      Laid(Front(x), x.gap, [], body, end, []);
      WalkBare(front + body + end, rest, delimiter, unescape);
    case Mixed(head, rs) =>
      OutsideBoth(front, head, delimiter);
      Laid(Front(x), x.gap, head, RegionsText(rs), end, rest);
      Laid(Front(x), x.gap, head, RegionsMean(rs, unescape), end, []);
      WalkMixed(front + head, rs, end, rest, delimiter, unescape);
  }

  lemma WalkItem(x: Item, rest: string, delimiter: char, unescape: bool)
    requires Delimits(delimiter) && ItemOk(x, delimiter)
    ensures Walk(ItemText(x) + rest, delimiter, unescape, EMPTY, false)
      == Walk(rest, delimiter, unescape, TokenFor(x, unescape), false)
  {
    match x
    case Word(before, body, end) =>
      BlankOutside(before, delimiter);
      BlankOutside(end, delimiter);
      OutsideBoth(before, body, delimiter);
      OutsideBoth(before + body, end, delimiter);
      WalkBare(before + body + end, rest, delimiter, unescape);
    case Assigned(_, _, _, _, _, _) => WalkAssigned(x, rest, delimiter, unescape);
  }

  function TokensFor(items: seq<Item>, unescape: bool): (ts: seq<Token>)
    ensures |ts| == |items|
  {
    seq(|items|, i requires 0 <= i < |items| => TokenFor(items[i], unescape))
  }

  lemma {:induction false} WalkItems(items: seq<Item>, delimiter: char, unescape: bool)
    requires items != [] && Delimits(delimiter) && forall i :: 0 <= i < |items| ==> ItemOk(items[i], delimiter)
    ensures Walk(Text(items, delimiter), delimiter, unescape, EMPTY, false) == TokensFor(items, unescape)
    decreases |items|
  {
    if |items| == 1 {
      WalkItem(items[0], [], delimiter, unescape);
      assert ItemText(items[0]) + [] == ItemText(items[0]);
    } else {
      var more := Text(items[1..], delimiter);
      WalkItem(items[0], [delimiter] + more, delimiter, unescape);
      assert ([delimiter] + more)[1..] == more;
      WalkItems(items[1..], delimiter, unescape);
      assert TokensFor(items, unescape) == [TokenFor(items[0], unescape)] + TokensFor(items[1..], unescape);
    }
  }

  // ---- The fold over the tokens ---------------------------------------------

  lemma {:induction false} RegionsLast(rs: seq<Region>, unescape: bool) returns (quotedPart: string)
    requires rs != []
    ensures RegionsMean(rs, unescape) == quotedPart + rs[|rs| - 1].behind
    decreases |rs|
  {
    var kept := Kept(rs[0].quoted, unescape);
    if |rs| == 1 {
      quotedPart := kept;
    } else {
      var more := RegionsLast(rs[1..], unescape);
      quotedPart := kept + rs[0].behind + more;
      Chained(kept, rs[0].behind, more, rs[|rs| - 1].behind);
    }
  }

  /** Trimming leaves the quoted part alone. */
  lemma MixedTrimmed(t: Token, value: string, gap: string, head: string, middle: string, last: string, end: string)
    requires Blank(gap) && OpensTight(head) && EndsTight(last) && Blank(end)
    requires value == (gap + head) + middle + (last + end) && |value| <= |t.raw|
    requires t.open == |t.raw| - |value| + |gap + head| && t.close == t.open + |middle|
    ensures ValueOf(t, value) == head + middle + last
  {
    Sliced(gap + head, middle, last + end);
    LstripAway(gap, head);
    RstripAway(last, end);
  }

  /** The value of a parameter, trimmed outside its quoted part only. */
  lemma ValueTrimmed(x: Item, delimiter: char, unescape: bool)
    requires ItemOk(x, delimiter) && x.Assigned?
    ensures ValueOf(TokenFor(x, unescape), x.gap + ValueMeans(x.value, unescape) + x.end)
      == ValueMeans(x.value, unescape)
  {
    match x.value
    case Bare(body) => StripAway(x.gap, body, x.end);
    case Mixed(head, rs) =>
      var m := RegionsMean(rs, unescape);
      var last := rs[|rs| - 1].behind;
      var middle := RegionsLast(rs, unescape);
      var value := x.gap + (head + m) + x.end;
      Regrouped(x.gap, head, middle, last, x.end);
      MixedTrimmed(TokenFor(x, unescape), value, x.gap, head, middle, last, x.end);
  }

  lemma Regrouped(gap: string, head: string, middle: string, last: string, end: string)
    ensures gap + (head + (middle + last)) + end == (gap + head) + middle + (last + end)
    ensures head + middle + last == head + (middle + last)
  {
  }

  lemma Sliced(a: string, b: string, c: string)
    ensures var s := a + b + c;
      Slice(s, 0, |a|) == a && Slice(s, |a|, |a| + |b|) == b && Slice(s, |a| + |b|, |s|) == c
  {
  }

  lemma KeyTrimmed(x: Item, delimiter: char, unescape: bool)
    requires Delimits(delimiter) && ItemOk(x, delimiter) && x.Assigned?
    ensures var raw := TokenFor(x, unescape).raw; var eq := Index(raw, '=');
      && eq < |raw| && Strip(raw[..eq]) == x.key
      && raw[eq + 1..] == x.gap + ValueMeans(x.value, unescape) + x.end
  {
    var raw, name := TokenFor(x, unescape).raw, x.before + x.key + x.after;
    var behind := x.gap + ValueMeans(x.value, unescape) + x.end;
    BlankOutside(x.before, delimiter);
    BlankOutside(x.after, delimiter);
    assert raw == name + ['='] + behind;
    IndexAfter(name, '=', behind);
    assert raw[..|name|] == name && raw[|name| + 1..] == behind;
    StripAway(x.before, x.key, x.after);
  }

  lemma TakeItem(lower: Lowering, p: Parsed, x: Item, delimiter: char, unescape: bool)
    requires Delimits(delimiter) && ItemOk(x, delimiter)
    ensures Take(lower, p, TokenFor(x, unescape)) ==
      if x.Word? then Parsed(if p.first && x.body != [] then x.body else p.prefix, p.params, false)
      else Parsed(p.prefix, if lower(x.key) == [] then p.params
                            else p.params[lower(x.key) := ValueMeans(x.value, unescape)], false)
  {
    match x
    case Word(before, body, end) =>
      BlankOutside(before, delimiter);
      BlankOutside(end, delimiter);
      assert '=' !in before + body + end;
      StripAway(before, body, end);
    case Assigned(_, _, _, _, _, _) =>
      KeyTrimmed(x, delimiter, unescape);
      ValueTrimmed(x, delimiter, unescape);
  }

  lemma {:induction false} FoldItems(lower: Lowering, items: seq<Item>, delimiter: char, unescape: bool)
    requires Delimits(delimiter) && forall i :: 0 <= i < |items| ==> ItemOk(items[i], delimiter)
    ensures Fold(lower, TokensFor(items, unescape))
      == Parsed(PrefixOf(items), ParamsOf(lower, items, unescape), items == [])
  {
    var tokens := TokensFor(items, unescape);
    if items == [] {
      assert tokens == [];
    } else {
      var n := |items| - 1;
      FoldItems(lower, items[..n], delimiter, unescape);
      assert tokens[..n] == TokensFor(items[..n], unescape) && tokens[n] == TokenFor(items[n], unescape);
      TakeItem(lower, Fold(lower, tokens[..n]), items[n], delimiter, unescape);
    }
  }

  /** Any value written as items between delimiters, with whatever whitespace around their parts, is read as it
      means. */
  lemma ParseMeans(lower: Lowering, items: seq<Item>, delimiter: char, unescape: bool)
    requires items != [] && Delimits(delimiter) && forall i :: 0 <= i < |items| ==> ItemOk(items[i], delimiter)
    ensures Parse(lower, Text(items, delimiter), delimiter, unescape)
      == (PrefixOf(items), ParamsOf(lower, items, unescape))
  {
    WalkItems(items, delimiter, unescape);
    FoldItems(lower, items, delimiter, unescape);
  }
}
