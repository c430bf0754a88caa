/**
  * End-to-end framing: what a conforming client sends, masked, fragmented anywhere and interleaved with
  * control frames, arrives as the messages it meant; sections 5.2 to 5.5 of RFC 6455.
  */
module Framing {
  import opened Bytes
  import opened Chunking
  import opened Frames
  import opened Sessions
  import opened Utf8
  import opened Wrappers

  // ---- What the client means, and what it puts on the wire ------------------

  datatype Control = Ping(payload: bytes, mask: bytes) | Pong(payload: bytes, mask: bytes)

  /** One fragment of a message, and the control frames sent just before it. */
  datatype Part = Part(before: seq<Control>, data: bytes, mask: bytes)

  datatype Sent = Alone(control: Control) | InParts(text: bool, parts: seq<Part>)

  function ControlFrame(c: Control): ClientFrame {
    ClientFrame(true, if c.Ping? then OP_PING else OP_PONG, c.payload, c.mask)
  }

  predicate ControlOk(c: Control) {
    |c.payload| <= CONTROL_BUDGET && |c.mask| == 4
  }

  predicate ControlsOk(cs: seq<Control>) {
    forall i :: 0 <= i < |cs| ==> ControlOk(cs[i])
  }

  predicate PartsOk(parts: seq<Part>) {
    forall i :: 0 <= i < |parts| ==>
      ControlsOk(parts[i].before) && |parts[i].mask| == 4 && |parts[i].data| <= MAX_FRAME_SIZE
  }

  /** The payloads of the first `n` parts, joined. */
  function Joined(parts: seq<Part>, n: nat): bytes
    requires n <= |parts|
  {
    if n == 0 then [] else Joined(parts, n - 1) + parts[n - 1].data
  }

  /** A message within the limits; a text is UTF-8, though no part of it need be. */
  predicate SentOk(m: Sent) {
    match m
    case Alone(c) => ControlOk(c)
    case InParts(text, parts) =>
      && parts != [] && PartsOk(parts)
      && |Joined(parts, |parts|)| <= MAX_MESSAGE_SIZE
      && (text ==> WellFormed(Joined(parts, |parts|)))
  }

  function PartFrame(text: bool, parts: seq<Part>, i: nat): ClientFrame
    requires i < |parts|
  {
    ClientFrame(i == |parts| - 1, if i > 0 then OP_CONT else if text then OP_TEXT else OP_BINARY,
                parts[i].data, parts[i].mask)
  }

  function ControlsWire(cs: seq<Control>): bytes
    requires ControlsOk(cs)
  {
    if cs == [] then [] else ClientWire(ControlFrame(cs[0])) + ControlsWire(cs[1..])
  }

  /** The parts from the i-th on. */
  function PartsWire(text: bool, parts: seq<Part>, i: nat): bytes
    requires PartsOk(parts) && i <= |parts|
    decreases |parts| - i
  {
    if i == |parts| then []
    else ControlsWire(parts[i].before) + ClientWire(PartFrame(text, parts, i)) + PartsWire(text, parts, i + 1)
  }

  function SentWire(m: Sent): bytes
    requires SentOk(m)
  {
    match m
    case Alone(c) => ClientWire(ControlFrame(c))
    case InParts(text, parts) => PartsWire(text, parts, 0)
  }

  predicate AllOk(ms: seq<Sent>) {
    forall i :: 0 <= i < |ms| ==> SentOk(ms[i])
  }

  function StreamWire(ms: seq<Sent>): bytes
    requires AllOk(ms)
  {
    if ms == [] then [] else SentWire(ms[0]) + StreamWire(ms[1..])
  }

  // ---- What should come out -------------------------------------------------

  function Messages(ms: seq<Sent>): seq<Message> {
    if ms == [] then []
    else (match ms[0]
          case Alone(_) => []
          case InParts(text, parts) => [Message(text, Joined(parts, |parts|))]) + Messages(ms[1..])
  }

  function PingsIn(cs: seq<Control>): seq<bytes> {
    if cs == [] then [] else (if cs[0].Ping? then [cs[0].payload] else []) + PingsIn(cs[1..])
  }

  function PartPings(parts: seq<Part>, i: nat): seq<bytes>
    requires i <= |parts|
    decreases |parts| - i
  {
    if i == |parts| then [] else PingsIn(parts[i].before) + PartPings(parts, i + 1)
  }

  /** The PING payloads in the order they are sent. */
  function Pings(ms: seq<Sent>): seq<bytes> {
    if ms == [] then []
    else (match ms[0]
          case Alone(c) => PingsIn([c])
          case InParts(_, parts) => PartPings(parts, 0)) + Pings(ms[1..])
  }

  /** One PONG per PING, with the PING's own payload, for each query the write gate answers with yes. */
  function Answers(k: Config, asked: nat, pings: seq<bytes>): seq<Frame>
    decreases |pings|
  {
    if pings == [] then []
    else (if k.gate(asked) then [Frame(OP_PONG, pings[0])] else []) + Answers(k, asked + 1, pings[1..])
  }

  /** The latest PING the gate held back. */
  function HeldBack(k: Config, asked: nat, pings: seq<bytes>, pending: Option<bytes>): Option<bytes>
    decreases |pings|
  {
    if pings == [] then pending
    else HeldBack(k, asked + 1, pings[1..], if k.gate(asked) then pending else Some(pings[0]))
  }

  function Queued(messages: seq<Message>): seq<Item> {
    if messages == [] then [] else [Data(messages[0].payload)] + Queued(messages[1..])
  }

  /** The messages were queued in order and the pings answered; nothing else but an answered probe changed. */
  predicate Moved(k: Config, s: Session, t: Session, messages: seq<Message>, pings: seq<bytes>) {
    && t.inbox == Inbox(s.inbox.queue + Queued(messages), s.inbox.delivered + messages)
    && t.outbox == Outbox(s.outbox.written + Answers(k, s.outbox.asked, pings),
                          HeldBack(k, s.outbox.asked, pings, s.outbox.pendingPong), s.outbox.asked + |pings|)
    && t.closing == s.closing
    && (t.timer == s.timer || t.timer == s.timer.(token := None))
  }

  lemma {:induction false} AnswersSplit(k: Config, asked: nat, p: seq<bytes>, q: seq<bytes>, pending: Option<bytes>)
    ensures Answers(k, asked, p + q) == Answers(k, asked, p) + Answers(k, asked + |p|, q)
    ensures HeldBack(k, asked, p + q, pending) == HeldBack(k, asked + |p|, q, HeldBack(k, asked, p, pending))
    decreases |p|
  {
    if p == [] {
      assert p + q == q;
    } else {
      assert (p + q)[1..] == p[1..] + q;
      AnswersSplit(k, asked + 1, p[1..], q, if k.gate(asked) then pending else Some(p[0]));
    }
  }

  lemma {:induction false} QueuedSplit(m: seq<Message>, n: seq<Message>)
    ensures Queued(m + n) == Queued(m) + Queued(n)
    decreases |m|
  {
    if m == [] {
      assert m + n == n;
    } else {
      assert (m + n)[1..] == m[1..] + n;
      QueuedSplit(m[1..], n);
    }
  }

  lemma MovedTwice(k: Config, s: Session, t: Session, u: Session,
                   m: seq<Message>, p: seq<bytes>, n: seq<Message>, q: seq<bytes>)
    requires Moved(k, s, t, m, p) && Moved(k, t, u, n, q)
    ensures Moved(k, s, u, m + n, p + q)
  {
    AnswersSplit(k, s.outbox.asked, p, q, s.outbox.pendingPong);
    QueuedSplit(m, n);
  }

  /** Control frames queue nothing. */
  lemma MovedQuietly(k: Config, s: Session, t: Session, u: Session, p: seq<bytes>, n: seq<Message>, q: seq<bytes>)
    requires Moved(k, s, t, [], p) && Moved(k, t, u, n, q)
    ensures Moved(k, s, u, n, p + q)
  {
    MovedTwice(k, s, t, u, [], p, n, q);
    assert [] + n == n;
  }

  // ---- One frame, then many -------------------------------------------------

  /** Wherever it stands in the stream, `wire` takes the connection from `s` to `t`. */
  ghost predicate Takes(k: Config, s: Session, wire: bytes, t: Session) {
    forall rest :: Drain(k, s, wire + rest) == Drain(k, t, rest)
  }

  lemma TakesThen(k: Config, s: Session, x: bytes, t: Session, y: bytes, u: Session)
    requires Takes(k, s, x, t) && Takes(k, t, y, u)
    ensures Takes(k, s, x + y, u)
  {
    forall rest
      ensures Drain(k, s, x + y + rest) == Drain(k, u, rest)
    {
      assert x + y + rest == x + (y + rest);
    }
  }

  lemma TakesNothing(k: Config, s: Session)
    ensures Takes(k, s, [], s) && Moved(k, s, s, [], [])
  {
    assert forall rest: bytes :: [] + rest == rest;
  }

  lemma FrameTaken(k: Config, s: Session, f: ClientFrame)
    requires !s.closing.closed && Sendable(f) && f.opcode != OP_CLOSE
    requires Handle(k, s, f.fin, f.opcode, f.payload).1
    ensures Takes(k, s, ClientWire(f), Handle(k, s, f.fin, f.opcode, f.payload).0)
  {
    forall rest
      ensures Drain(k, s, ClientWire(f) + rest) == Drain(k, Handle(k, s, f.fin, f.opcode, f.payload).0, rest)
    {
      ClientFrameReads(f, rest);
      assert (ClientWire(f) + rest)[|ClientWire(f)|..] == rest;
    }
  }

  lemma ControlMoves(k: Config, s: Session, c: Control)
    ensures var t := Handle(k, s, true, ControlFrame(c).opcode, c.payload).0;
      t.fragment == s.fragment && Moved(k, s, t, [], PingsIn([c]))
  {
    assert PingsIn([c]) == if c.Ping? then [c.payload] else [];
    assert Answers(k, s.outbox.asked, []) == [];
    if c.Ping? {
      assert [c.payload][1..] == [];
      assert Answers(k, s.outbox.asked, [c.payload]) == if k.gate(s.outbox.asked) then [Frame(OP_PONG, c.payload)]
          else [];
    }
  }

  lemma ControlTaken(k: Config, s: Session, c: Control) returns (t: Session)
    requires !s.closing.closed && ControlOk(c)
    ensures Takes(k, s, ClientWire(ControlFrame(c)), t)
    ensures t.fragment == s.fragment && Moved(k, s, t, [], PingsIn([c]))
  {
    ControlMoves(k, s, c);
    FrameTaken(k, s, ControlFrame(c));
    t := Handle(k, s, true, ControlFrame(c).opcode, c.payload).0;
  }

  lemma PingsFirst(cs: seq<Control>)
    requires cs != []
    ensures PingsIn(cs) == PingsIn([cs[0]]) + PingsIn(cs[1..])
  {
    assert [cs[0]][1..] == [];
  }

  lemma {:induction false} ControlsMove(k: Config, s: Session, cs: seq<Control>) returns (t: Session)
    requires !s.closing.closed && ControlsOk(cs)
    ensures Takes(k, s, ControlsWire(cs), t)
    ensures t.fragment == s.fragment && Moved(k, s, t, [], PingsIn(cs))
    decreases |cs|
  {
    if cs == [] {
      t := s;
      TakesNothing(k, s);
    } else {
      var u := ControlTaken(k, s, cs[0]);
      t := ControlsMove(k, u, cs[1..]);
      TakesThen(k, s, ClientWire(ControlFrame(cs[0])), u, ControlsWire(cs[1..]), t);
      MovedQuietly(k, s, u, t, PingsIn([cs[0]]), [], PingsIn(cs[1..]));
      PingsFirst(cs);
    }
  }

  /** The reassembly state after the first `n` parts. */
  function FragmentAt(text: bool, parts: seq<Part>, n: nat): Option<Fragment>
    requires n <= |parts|
  {
    if n == 0 then None
    else
      Some(Fragment(if text then OP_TEXT else OP_BINARY, Joined(parts, n),
                    if text then Scan(START, Joined(parts, n)) else None))
  }

  lemma {:induction false} JoinedGrows(parts: seq<Part>, n: nat)
    requires n <= |parts|
    ensures Joined(parts, n) <= Joined(parts, |parts|)
    decreases |parts| - n
  {
    if n < |parts| {
      JoinedGrows(parts, n + 1);
      assert Joined(parts, n + 1) == Joined(parts, n) + parts[n].data;
    }
  }

  /** A cut inside a character is still a prefix the validator accepts. */
  lemma PrefixAccepted(parts: seq<Part>, n: nat)
    requires n <= |parts| && WellFormed(Joined(parts, |parts|))
    ensures Scan(START, Joined(parts, n)).Some?
    ensures n == |parts| ==> Scan(START, Joined(parts, n)).value.need == 0
  {
    var whole := Joined(parts, |parts|);
    JoinedGrows(parts, n);
    ValidatorExact(whole);
    ScanAppend(START, Joined(parts, n), whole[|Joined(parts, n)|..]);
    assert Joined(parts, n) + whole[|Joined(parts, n)|..] == whole;
  }

  /** The session once part `i` has been handled. */
  function AfterPart(s: Session, text: bool, parts: seq<Part>, i: nat): Session
    requires i < |parts|
  {
    var whole := Joined(parts, |parts|);
    if i < |parts| - 1 then s.(fragment := FragmentAt(text, parts, i + 1))
    else
      s.(fragment := None,
         inbox := Inbox(s.inbox.queue + [Data(whole)], s.inbox.delivered + [Message(text, whole)]))
  }

  lemma PartHandled(k: Config, s: Session, text: bool, parts: seq<Part>, i: nat)
    requires SentOk(InParts(text, parts)) && i < |parts|
    requires s.fragment == FragmentAt(text, parts, i) && !Full(k, s.inbox)
    ensures var f := PartFrame(text, parts, i);
      Handle(k, s, f.fin, f.opcode, f.payload) == (AfterPart(s, text, parts, i), true)
  {
    JoinedGrows(parts, i + 1);
    if text {
      PrefixAccepted(parts, i);
      PrefixAccepted(parts, i + 1);
      ScanAppend(START, Joined(parts, i), parts[i].data);
    }
    if i == 0 {
      assert Joined(parts, 1) == parts[0].data;
    }
  }

  /** One part with the control frames before it; `u` is the session between the two. */
  lemma PartTaken(k: Config, s: Session, text: bool, parts: seq<Part>, i: nat) returns (u: Session)
    requires SentOk(InParts(text, parts)) && i < |parts|
    requires !s.closing.closed && s.fragment == FragmentAt(text, parts, i) && !Full(k, s.inbox)
    ensures Takes(k, s, ControlsWire(parts[i].before) + ClientWire(PartFrame(text, parts, i)),
      AfterPart(u, text, parts, i))
    ensures Moved(k, s, u, [], PingsIn(parts[i].before)) && u.inbox == s.inbox
  {
    var f := PartFrame(text, parts, i);
    u := ControlsMove(k, s, parts[i].before);
    assert s.inbox.queue + Queued([]) == s.inbox.queue;
    PartHandled(k, u, text, parts, i);
    FrameTaken(k, u, f);
    TakesThen(k, s, ControlsWire(parts[i].before), u, ClientWire(f), AfterPart(u, text, parts, i));
  }

  /** From part `i` on, the message is completed and queued. */
  lemma {:induction false} PartsMove(k: Config, s: Session, text: bool, parts: seq<Part>, i: nat) returns (t: Session)
    requires SentOk(InParts(text, parts)) && i < |parts|
    requires !s.closing.closed && s.fragment == FragmentAt(text, parts, i) && !Full(k, s.inbox)
    ensures Takes(k, s, PartsWire(text, parts, i), t)
    ensures t.fragment == None && Moved(k, s, t, [Message(text, Joined(parts, |parts|))], PartPings(parts, i))
    decreases |parts| - i
  {
    var u := PartTaken(k, s, text, parts, i);
    var m := [Message(text, Joined(parts, |parts|))];
    var v := AfterPart(u, text, parts, i);
    var wire := ControlsWire(parts[i].before) + ClientWire(PartFrame(text, parts, i));
    if i == |parts| - 1 {
      t := v;
      LastMoves(k, u, t, m[0]);
      MovedQuietly(k, s, u, t, PingsIn(parts[i].before), m, []);
      assert PartPings(parts, i) == PingsIn(parts[i].before) + [];
      assert PartsWire(text, parts, i + 1) == [];
      assert PartsWire(text, parts, i) == wire;
    } else {
      t := PartsMove(k, v, text, parts, i + 1);
      MovedQuietly(k, s, u, t, PingsIn(parts[i].before), m, PartPings(parts, i + 1));
      TakesThen(k, s, wire, v, PartsWire(text, parts, i + 1), t);
      assert PartsWire(text, parts, i) == wire + PartsWire(text, parts, i + 1);
    }
  }

  lemma LastMoves(k: Config, u: Session, t: Session, m: Message)
    requires t == u.(fragment := None, inbox := Inbox(u.inbox.queue + [Data(m.payload)], u.inbox.delivered + [m]))
    ensures Moved(k, u, t, [m], [])
  {
    assert Queued([m]) == [Data(m.payload)];
  }

  predicate Room(k: Config, s: Session, n: nat) {
    k.queueMax > 0 ==> |s.inbox.queue| + n <= k.queueMax
  }

  lemma {:induction false} QueuedLength(m: seq<Message>)
    ensures |Queued(m)| == |m|
  {
    if m != [] {
      QueuedLength(m[1..]);
    }
  }

  lemma SentMoves(k: Config, s: Session, m: Sent) returns (t: Session, messages: seq<Message>, pings: seq<bytes>)
    requires SentOk(m) && !s.closing.closed && s.fragment == None
    requires m.InParts? ==> !Full(k, s.inbox)
    ensures Takes(k, s, SentWire(m), t)
    ensures t.fragment == None && Moved(k, s, t, messages, pings)
    ensures m.Alone? ==> messages == [] && pings == PingsIn([m.control])
    ensures m.InParts? ==> messages == [Message(m.text, Joined(m.parts, |m.parts|))] && pings == PartPings(m.parts, 0)
  {
    match m
    case Alone(c) =>
      t := ControlTaken(k, s, c);
      messages, pings := [], PingsIn([c]);
    case InParts(text, parts) =>
      t := PartsMove(k, s, text, parts, 0);
      messages, pings := [Message(text, Joined(parts, |parts|))], PartPings(parts, 0);
  }

  lemma {:induction false} StreamMoves(k: Config, s: Session, ms: seq<Sent>) returns (t: Session)
    requires AllOk(ms) && !s.closing.closed && s.fragment == None && Room(k, s, |Messages(ms)|)
    ensures Takes(k, s, StreamWire(ms), t)
    ensures t.fragment == None && Moved(k, s, t, Messages(ms), Pings(ms))
    decreases |ms|
  {
    if ms == [] {
      t := s;
      TakesNothing(k, s);
    } else {
      var u, m, p := SentMoves(k, s, ms[0]);
      QueuedLength(m);
      t := StreamMoves(k, u, ms[1..]);
      MovedTwice(k, s, u, t, m, p, Messages(ms[1..]), Pings(ms[1..]));
      TakesThen(k, s, SentWire(ms[0]), u, StreamWire(ms[1..]), t);
    }
  }

  /**
    * Whatever a conforming client sends, cut anywhere by the transport, is queued message by message in
    * order, and every PING the gate lets through is answered with its own payload, in order.
    */
  lemma EndToEnd(k: Config, s: Session, ms: seq<Sent>, chunks: seq<bytes>)
    requires AllOk(ms) && Concat(chunks) == StreamWire(ms) && ms != []
    requires !s.closing.closed && s.fragment == None && Room(k, s, |Messages(ms)|)
    ensures var l := FeedAll(k, s, [], chunks);
      && l.buffer == [] && l.raised == None && l.s.fragment == None
      && Moved(k, NoteInbound(k, s), l.s, Messages(ms), Pings(ms))
  {
    ChunkingInvariance(k, s, [], chunks);
    var wire := StreamWire(ms);
    var n := NoteInbound(k, s);
    var t := StreamMoves(k, n, ms);
    assert wire + [] == wire && [] + wire == wire;
    StreamNonEmpty(ms);
  }

  lemma StreamNonEmpty(ms: seq<Sent>)
    requires AllOk(ms) && ms != []
    ensures StreamWire(ms) != []
  {
    match ms[0]
    case Alone(c) =>
    case InParts(text, parts) => assert PartsWire(text, parts, 0) != [];
  }

  /** With the gate open, each PING is answered at once by a PONG carrying its payload. */
  lemma {:induction false} OpenGateAnswers(k: Config, asked: nat, pings: seq<bytes>, pending: Option<bytes>)
    requires forall n :: asked <= n < asked + |pings| ==> k.gate(n)
    ensures |Answers(k, asked, pings)| == |pings| && HeldBack(k, asked, pings, pending) == pending
    ensures forall i :: 0 <= i < |pings| ==> Answers(k, asked, pings)[i] == Frame(OP_PONG, pings[i])
    decreases |pings|
  {
    if pings != [] {
      OpenGateAnswers(k, asked + 1, pings[1..], pending);
    }
  }
}
