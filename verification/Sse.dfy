/** Server-sent events: the encoder, read back by the event-stream rules of section 9.2.6 of the HTML standard. */
module Sse {
  import opened Numerals
  import opened Wrappers

  const LF: char := '\n'
  const CR: char := '\r'

  // ---- The events -----------------------------------------------------------

  /** A `ServerSentEvent` that its constructor accepted, or the arguments it was given. */
  datatype ServerSentEvent = ServerSentEvent(
    data: Option<string>,
    event: Option<string>,
    id: Option<string>,
    retry: Option<int>,
    comment: Option<string>)

  predicate OneLine(s: string) {
    LF !in s && CR !in s
  }

  /** The checks of the constructor. */
  predicate Accepted(e: ServerSentEvent) {
    && (e.event.Some? ==> OneLine(e.event.value))
    && (e.id.Some? ==> OneLine(e.id.value) && '\0' !in e.id.value)
  }

  /** `s.replace("\r\n", "\n")` */
  function FoldPairs(s: string): string {
    if s == [] then []
    else if |s| >= 2 && s[0] == CR && s[1] == LF then [LF] + FoldPairs(s[2..])
    else [s[0]] + FoldPairs(s[1..])
  }

  /** `s.replace("\r", "\n")` */
  function FoldReturns(s: string): string {
    if s == [] then [] else [if s[0] == CR then LF else s[0]] + FoldReturns(s[1..])
  }

  /** Every line ending becomes a line feed. */
  function Normalised(s: string): string {
    FoldReturns(FoldPairs(s))
  }

  /** `s.split("\n")` */
  function Split(s: string): (lines: seq<string>)
    ensures lines != []
    decreases |s|
  {
    if s == [] then [[]]
    else
      var lines := Split(s[1..]);
      if s[0] == LF then [[]] + lines else [[s[0]] + lines[0]] + lines[1..]
  }

  function Field(name: string, value: string): string {
    name + ": " + value
  }

  function Fields(name: string, values: seq<string>): seq<string> {
    if values == [] then [] else Fields(name, values[..|values| - 1]) + [Field(name, values[|values| - 1])]
  }

  /** `str(n)` */
  function Printed(n: int): string {
    if n < 0 then "-" + Decimal(-n) else Decimal(n)
  }

  function CommentLines(e: ServerSentEvent): seq<string> {
    if e.comment.None? then [] else Fields("", Split(Normalised(e.comment.value)))
  }

  function HeadLines(e: ServerSentEvent): seq<string> {
    (if e.id.None? then [] else [Field("id", e.id.value)])
    + (if e.event.None? then [] else [Field("event", e.event.value)])
    + (if e.retry.None? then [] else [Field("retry", Printed(e.retry.value))])
  }

  function DataLines(e: ServerSentEvent): seq<string> {
    if e.data.None? then [] else Fields("data", Split(Normalised(e.data.value)))
  }

  function LinesOf(e: ServerSentEvent): seq<string> {
    CommentLines(e) + HeadLines(e) + DataLines(e)
  }

  /** Each line with its terminator. */
  function Terminated(lines: seq<string>, ending: string): string {
    if lines == [] then [] else lines[0] + ending + Terminated(lines[1..], ending)
  }

  /** The event's lines and the empty line that dispatches it. */
  function Wire(e: ServerSentEvent): string {
    Terminated(LinesOf(e) + [""], [LF])
  }

  /** `"\n".join(lines)` */
  function Join(lines: seq<string>): string {
    if lines == [] then [] else if |lines| == 1 then lines[0] else lines[0] + [LF] + Join(lines[1..])
  }

  lemma {:induction false} JoinTerminates(lines: seq<string>)
    ensures Join(lines + ["", ""]) == Terminated(lines + [""], [LF])
  {
    var all := lines + ["", ""];
    if lines == [] {
      assert all[1..] == [""];
      assert (lines + [""])[1..] == [];
    } else {
      JoinTerminates(lines[1..]);
      assert all[1..] == lines[1..] + ["", ""];
      assert (lines + [""])[1..] == lines[1..] + [""];
    }
  }

  lemma {:induction false} SplitSingle(s: string)
    requires LF !in s
    ensures Split(s) == [s]
  {
    if s != [] {
      SplitSingle(s[1..]);
      assert [s[0]] + s[1..] == s;
    }
  }

  /** The lines one text field contributes, appended in order. */
  method AppendFields(lines: seq<string>, name: string, text: string) returns (r: seq<string>)
    ensures r == lines + Fields(name, Split(Normalised(text)))
  {
    var folded := Normalised(text);
    if LF !in folded {
      SplitSingle(folded);
      assert Fields(name, [folded]) == Fields(name, [folded][..0]) + [Field(name, folded)];
      return lines + [Field(name, folded)];
    }
    var parts := Split(folded);
    r := lines;
    for i := 0 to |parts|
      invariant r == lines + Fields(name, parts[..i])
    {
      assert parts[..i + 1][..i] == parts[..i];
      r := r + [Field(name, parts[i])];
    }
    assert parts[..|parts|] == parts;
  }

  /** `ServerSentEvent.encode`, before the UTF-8 encoding. */
  method Encode(e: ServerSentEvent) returns (text: string)
    ensures text == Wire(e)
  {
    var lines: seq<string> := [];
    if e.comment.Some? {
      lines := AppendFields(lines, "", e.comment.value);
    }
    assert lines == CommentLines(e);
    if e.id.Some? {
      lines := lines + [Field("id", e.id.value)];
    }
    if e.event.Some? {
      lines := lines + [Field("event", e.event.value)];
    }
    if e.retry.Some? {
      lines := lines + [Field("retry", Printed(e.retry.value))];
    }
    assert lines == CommentLines(e) + HeadLines(e);
    if e.data.Some? {
      lines := AppendFields(lines, "data", e.data.value);
    }
    assert lines == LinesOf(e);
    JoinTerminates(lines);
    text := Join(lines + ["", ""]);
  }

  // ---- A client of the standard ---------------------------------------------

  /** A dispatched event. */
  datatype Event = Event(kind: string, data: string, lastId: string)

  /** The buffers of the interpreter, and what it has dispatched. */
  datatype Client = Client(data: string, kind: string, idBuffer: string, retry: Option<nat>, events: seq<Event>)

  const START := Client("", "", "", None, [])

  function Index(s: string, c: char): nat
    ensures Index(s, c) <= |s|
  {
    if s == [] || s[0] == c then 0 else 1 + Index(s[1..], c)
  }

  function Process(c: Client, field: string, value: string): Client {
    if field == "event" then c.(kind := value)
    else if field == "data" then c.(data := c.data + value + [LF])
    else if field == "id" then if '\0' in value then c else c.(idBuffer := value)
    else if field == "retry" then
      if ParseNumeral(value, 10).Some? then c.(retry := ParseNumeral(value, 10)) else c
    else c
  }

  function Dispatch(c: Client): Client {
    if c.data == "" then c.(kind := "")
    else
      var data := if c.data[|c.data| - 1] == LF then c.data[..|c.data| - 1] else c.data;
      c.(data := "", kind := "",
         events := c.events + [Event(if c.kind == "" then "message" else c.kind, data, c.idBuffer)])
  }

  function Interpret(c: Client, line: string): Client {
    if line == "" then Dispatch(c)
    else
      var colon := Index(line, ':');
      if colon == 0 then c
      else if colon == |line| then Process(c, line, "")
      else
        var value := line[colon + 1..];
        Process(c, line[..colon], if value != [] && value[0] == ' ' then value[1..] else value)
  }

  /** The first line, ended by CR LF, LF or CR; nothing while it is incomplete. */
  function FirstLine(s: string): (r: Option<(string, string)>)
    ensures r.Some? ==> |r.value.1| < |s|
  {
    if s == [] then None
    else if s[0] == LF then Some(("", s[1..]))
    else if s[0] == CR then Some(("", if |s| >= 2 && s[1] == LF then s[2..] else s[1..]))
    else
      match FirstLine(s[1..])
      case None => None
      case Some((line, rest)) => Some(([s[0]] + line, rest))
  }

  function Decode(c: Client, s: string): Client
    decreases |s|
  {
    match FirstLine(s)
    case None => c
    case Some((line, rest)) => Decode(Interpret(c, line), rest)
  }

  // ---- What the server sends, and what the client should make of it ---------

  /** An event, or a keep-alive comment (`_PING_FRAME`, or the configured one). */
  datatype Sent = Message(e: ServerSentEvent) | KeepAlive(comment: string)

  predicate SentOk(m: Sent) {
    match m
    case Message(e) => Accepted(e)
    case KeepAlive(comment) => OneLine(comment)
  }

  function SentWire(m: Sent): string {
    match m
    case Message(e) => Wire(e)
    case KeepAlive(comment) => ": " + comment + [CR, LF, CR, LF]
  }

  function StreamWire(ms: seq<Sent>): string {
    if ms == [] then [] else SentWire(ms[0]) + StreamWire(ms[1..])
  }

  function Given<T>(o: Option<T>, otherwise: T): T {
    if o.Some? then o.value else otherwise
  }

  /** Between events the data and type buffers are empty. */
  predicate Idle(c: Client) {
    c.data == "" && c.kind == ""
  }

  /** An event with data is dispatched once, as it was meant; one without only updates the id and the delay. */
  function Expected(c: Client, e: ServerSentEvent): Client {
    var id := Given(e.id, c.idBuffer);
    var kind := if Given(e.event, "") == "" then "message" else e.event.value;
    c.(idBuffer := id,
       retry := if e.retry.Some? && e.retry.value >= 0 then Some(e.retry.value) else c.retry,
       events := c.events + if e.data.Some? then [Event(kind, Normalised(e.data.value), id)] else [])
  }

  function ExpectedAll(c: Client, ms: seq<Sent>): Client
    decreases |ms|
  {
    if ms == [] then c
    else ExpectedAll(match ms[0] case Message(e) => Expected(c, e) case KeepAlive(_) => c, ms[1..])
  }

  // ---- Lines ----------------------------------------------------------------

  lemma {:induction false} FirstLineTaken(line: string, ending: string, rest: string)
    requires OneLine(line) && ending in {[LF], [CR, LF]}
    ensures FirstLine(line + ending + rest) == Some((line, rest))
  {
    var s := line + ending + rest;
    if line == [] {
      if ending == [LF] {
        assert s[1..] == rest;
      } else {
        assert s[2..] == rest;
      }
    } else {
      assert s[1..] == line[1..] + ending + rest;
      FirstLineTaken(line[1..], ending, rest);
      assert [line[0]] + line[1..] == line && s[0] == line[0];
    }
  }

  function InterpretAll(c: Client, lines: seq<string>): Client
    decreases |lines|
  {
    if lines == [] then c else InterpretAll(Interpret(c, lines[0]), lines[1..])
  }

  predicate AllOneLine(lines: seq<string>) {
    forall i :: 0 <= i < |lines| ==> OneLine(lines[i])
  }

  lemma {:induction false} DecodeTerminated(c: Client, lines: seq<string>, ending: string, rest: string)
    requires AllOneLine(lines) && ending in {[LF], [CR, LF]}
    ensures Decode(c, Terminated(lines, ending) + rest) == Decode(InterpretAll(c, lines), rest)
    decreases |lines|
  {
    if lines == [] {
      assert Terminated(lines, ending) + rest == rest;
    } else {
      var behind := Terminated(lines[1..], ending) + rest;
      assert Terminated(lines, ending) + rest == lines[0] + ending + behind;
      FirstLineTaken(lines[0], ending, behind);
      DecodeTerminated(Interpret(c, lines[0]), lines[1..], ending, rest);
    }
  }

  lemma {:induction false} InterpretSplit(c: Client, a: seq<string>, b: seq<string>)
    ensures InterpretAll(c, a + b) == InterpretAll(InterpretAll(c, a), b)
    decreases |a|
  {
    if a == [] {
      assert a + b == b;
    } else {
      assert (a + b)[0] == a[0] && (a + b)[1..] == a[1..] + b;
      InterpretSplit(Interpret(c, a[0]), a[1..], b);
    }
  }

  lemma {:induction false} IndexOf(name: string, rest: string)
    requires ':' !in name
    ensures Index(name + ":" + rest, ':') == |name|
  {
    if name != [] {
      assert (name + ":" + rest)[1..] == name[1..] + ":" + rest;
      IndexOf(name[1..], rest);
    }
  }

  /** A written field is read back whole, leading spaces of its value included. */
  lemma FieldReads(c: Client, name: string, value: string)
    requires ':' !in name
    ensures Interpret(c, Field(name, value)) == if name == "" then c else Process(c, name, value)
  {
    var line := Field(name, value);
    assert line == name + ":" + (" " + value);
    IndexOf(name, " " + value);
    assert line[..|name|] == name;
    assert line[|name| + 1..] == " " + value;
    assert (" " + value)[1..] == value;
  }

  lemma {:induction false} FoldedOneLine(s: string)
    ensures CR !in FoldReturns(s)
  {
    if s != [] {
      FoldedOneLine(s[1..]);
    }
  }

  lemma {:induction false} SplitOneLine(s: string)
    requires CR !in s
    ensures AllOneLine(Split(s))
  {
    if s != [] {
      SplitOneLine(s[1..]);
    }
  }

  lemma TerminatedCons(line: string, lines: seq<string>, ending: string)
    ensures Terminated([line] + lines, ending) == line + ending + Terminated(lines, ending)
  {
    assert ([line] + lines)[1..] == lines;
  }

  lemma Regroup(a: string, b: string, c: string, d: string)
    ensures (a + b) + c + d == a + (b + c + d)
  {
  }

  /** Splitting loses nothing. */
  lemma {:induction false} SplitTerminated(s: string)
    ensures Terminated(Split(s), [LF]) == s + [LF]
  {
    if s != [] {
      SplitTerminated(s[1..]);
      var lines := Split(s[1..]);
      assert s + [LF] == [s[0]] + (s[1..] + [LF]);
      if s[0] == LF {
        TerminatedCons([], lines, [LF]);
        assert [] + [LF] == [LF];
      } else {
        assert lines == [lines[0]] + lines[1..];
        TerminatedCons(lines[0], lines[1..], [LF]);
        TerminatedCons([s[0]] + lines[0], lines[1..], [LF]);
        Regroup([s[0]], lines[0], [LF], Terminated(lines[1..], [LF]));
      }
    }
  }

  lemma {:induction false} FieldsOneLine(name: string, values: seq<string>)
    requires OneLine(name) && AllOneLine(values)
    ensures AllOneLine(Fields(name, values))
  {
    if values != [] {
      FieldsOneLine(name, values[..|values| - 1]);
    }
  }

  lemma {:induction false} FieldsFirst(name: string, values: seq<string>)
    requires values != []
    ensures Fields(name, values) == [Field(name, values[0])] + Fields(name, values[1..])
  {
    var n := |values| - 1;
    if n > 0 {
      FieldsFirst(name, values[..n]);
      assert values[..n][1..] == values[1..][..n - 1];
    }
  }

  /** `data` lines collect their values, each followed by a line feed; comment lines do nothing. */
  lemma {:induction false} FieldsCollect(c: Client, name: string, values: seq<string>)
    requires name == "" || name == "data"
    ensures InterpretAll(c, Fields(name, values))
      == if name == "" then c else c.(data := c.data + Terminated(values, [LF]))
    decreases |values|
  {
    if values == [] {
      assert c.data + [] == c.data;
    } else {
      FieldsFirst(name, values);
      FieldReads(c, name, values[0]);
      var fields := Fields(name, values);
      assert fields[0] == Field(name, values[0]) && fields[1..] == Fields(name, values[1..]);
      FieldsCollect(Interpret(c, fields[0]), name, values[1..]);
      assert c.data + values[0] + [LF] + Terminated(values[1..], [LF]) == c.data + Terminated(values, [LF]);
    }
  }

  // ---- One event ------------------------------------------------------------

  lemma PrintedReads(n: int)
    ensures ParseNumeral(Printed(n), 10) == if n >= 0 then Some(n as nat) else None
    ensures OneLine(Printed(n))
  {
    if n >= 0 {
      NumeralRoundTrip(n, 10);
      NumeralOneLine(n);
    } else {
      var digits := Decimal(-n);
      NumeralOneLine(-n);
      SignRefused(digits);
    }
  }

  lemma NumeralOneLine(n: nat)
    ensures OneLine(Decimal(n))
  {
    var s := Decimal(n);
    assert forall i :: 0 <= i < |s| ==> IsDigit(s[i], 10);
  }

  lemma {:induction false} SignRefused(digits: string)
    ensures ParseNumeral("-" + digits, 10) == None
  {
    var s := "-" + digits;
    if digits != [] {
      assert s[..|s| - 1] == "-" + digits[..|digits| - 1];
      SignRefused(digits[..|digits| - 1]);
    }
  }

  lemma HeadOneLine(e: ServerSentEvent)
    requires Accepted(e)
    ensures AllOneLine(HeadLines(e))
  {
    if e.retry.Some? {
      PrintedReads(e.retry.value);
    }
  }

  lemma HeadReads(c: Client, e: ServerSentEvent)
    requires Accepted(e) && Idle(c)
    ensures InterpretAll(c, HeadLines(e))
      == c.(idBuffer := Given(e.id, c.idBuffer), kind := Given(e.event, ""),
            retry := if e.retry.Some? && e.retry.value >= 0 then Some(e.retry.value) else c.retry)
  {
    var ids := if e.id.None? then [] else [Field("id", e.id.value)];
    var kinds := if e.event.None? then [] else [Field("event", e.event.value)];
    var delays := if e.retry.None? then [] else [Field("retry", Printed(e.retry.value))];
    var c1 := c.(idBuffer := Given(e.id, c.idBuffer));
    var c2 := c1.(kind := Given(e.event, ""));
    if e.id.Some? {
      FieldReads(c, "id", e.id.value);
      InterpretOne(c, ids[0]);
    }
    if e.event.Some? {
      FieldReads(c1, "event", e.event.value);
      InterpretOne(c1, kinds[0]);
    }
    if e.retry.Some? {
      PrintedReads(e.retry.value);
      FieldReads(c2, "retry", Printed(e.retry.value));
      InterpretOne(c2, delays[0]);
    }
    assert InterpretAll(c, ids) == c1 && InterpretAll(c1, kinds) == c2;
    InterpretSplit(c, ids, kinds);
    InterpretSplit(c, ids + kinds, delays);
  }

  lemma InterpretOne(c: Client, line: string)
    ensures InterpretAll(c, [line]) == Interpret(c, line)
  {
    assert [line][1..] == [];
  }

  lemma TextReads(c: Client, name: string, text: string)
    requires name == "" || name == "data"
    ensures AllOneLine(Fields(name, Split(Normalised(text))))
    ensures InterpretAll(c, Fields(name, Split(Normalised(text))))
      == if name == "" then c else c.(data := c.data + (Normalised(text) + [LF]))
  {
    var lines := Split(Normalised(text));
    FoldedOneLine(FoldPairs(text));
    SplitOneLine(Normalised(text));
    SplitTerminated(Normalised(text));
    FieldsOneLine(name, lines);
    FieldsCollect(c, name, lines);
  }

  /** All the lines of an event, from an idle client. */
  lemma LinesRead(c: Client, e: ServerSentEvent)
    requires Accepted(e) && Idle(c)
    ensures AllOneLine(LinesOf(e))
    ensures InterpretAll(c, LinesOf(e))
      == c.(idBuffer := Given(e.id, c.idBuffer), kind := Given(e.event, ""),
            retry := if e.retry.Some? && e.retry.value >= 0 then Some(e.retry.value) else c.retry,
            data := if e.data.Some? then Normalised(e.data.value) + [LF] else "")
  {
    if e.comment.Some? {
      TextReads(c, "", e.comment.value);
    }
    HeadOneLine(e);
    HeadReads(c, e);
    var headed := InterpretAll(c, HeadLines(e));
    if e.data.Some? {
      TextReads(headed, "data", e.data.value);
      assert "" + (Normalised(e.data.value) + [LF]) == Normalised(e.data.value) + [LF];
    }
    InterpretSplit(c, CommentLines(e), HeadLines(e));
    InterpretSplit(c, CommentLines(e) + HeadLines(e), DataLines(e));
  }

  lemma EventReads(c: Client, e: ServerSentEvent, rest: string)
    requires Accepted(e) && Idle(c)
    ensures Decode(c, Wire(e) + rest) == Decode(Expected(c, e), rest) && Idle(Expected(c, e))
  {
    LinesRead(c, e);
    var lines := LinesOf(e);
    InterpretSplit(c, lines, [""]);
    InterpretOne(InterpretAll(c, lines), "");
    DecodeTerminated(c, lines + [""], [LF], rest);
    if e.data.Some? {
      var data := Normalised(e.data.value) + [LF];
      assert data[..|data| - 1] == Normalised(e.data.value);
    } else {
      assert c.events + [] == c.events;
    }
  }

  lemma KeepAliveReads(c: Client, comment: string, rest: string)
    requires OneLine(comment) && Idle(c)
    ensures Decode(c, SentWire(KeepAlive(comment)) + rest) == Decode(c, rest)
  {
    var lines := [Field("", comment), ""];
    var ending := [CR, LF];
    assert Field("", comment) == ": " + comment;
    assert lines[1..] == [""] && lines[1..][1..] == [];
    assert Terminated([""], ending) == ending;
    assert Terminated(lines, ending) == SentWire(KeepAlive(comment));
    DecodeTerminated(c, lines, ending, rest);
    FieldReads(c, "", comment);
    InterpretOne(c, "");
  }

  /** Whatever events are sent, keep-alives between them, the client dispatches exactly those, in order. */
  lemma {:induction false} StreamReads(c: Client, ms: seq<Sent>)
    requires Idle(c) && forall i :: 0 <= i < |ms| ==> SentOk(ms[i])
    ensures Decode(c, StreamWire(ms)) == ExpectedAll(c, ms)
    decreases |ms|
  {
    if ms != [] {
      match ms[0]
      case Message(e) =>
        EventReads(c, e, StreamWire(ms[1..]));
        StreamReads(Expected(c, e), ms[1..]);
      case KeepAlive(comment) =>
        KeepAliveReads(c, comment, StreamWire(ms[1..]));
        StreamReads(c, ms[1..]);
    }
  }
}
