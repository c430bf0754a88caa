/** How the connection answers one client frame, each case by what is in the frame. */
module FrameAnswers {
  import opened Bytes
  import opened CloseCodes
  import opened Frames
  import opened MessageSafety
  import opened Sessions
  import opened SessionSafety
  import opened Utf8
  import opened Wrappers

  /** One frame fed at a frame boundary. */
  function Fed(k: Config, s: Session, f: ClientFrame): Link
    requires Sendable(f)
  {
    FeedData(k, s, [], ClientWire(f))
  }

  lemma FrontRead(k: Config, s: Session, f: ClientFrame)
    requires Sendable(f)
    ensures ClientWire(f) != [] && ReadFront(ClientWire(f)) == Whole(f.fin, f.opcode, f.payload, |ClientWire(f)|)
    ensures Fed(k, s, f) == Drain(k, NoteInbound(k, s), ClientWire(f))
  {
    ClientFrameReads(f, []);
    assert ClientWire(f) + [] == ClientWire(f) && [] + ClientWire(f) == ClientWire(f);
  }

  lemma FedClose(k: Config, s: Session, f: ClientFrame)
    requires Sendable(f) && !s.closing.closed && f.opcode == OP_CLOSE
    ensures var c := HandleClose(k, PeerClosed(NoteInbound(k, s)), f.payload);
      Fed(k, s, f) == Link(c, ClientWire(f),
        Some(if c.closing.code.Some? && c.closing.code.value != 0 then c.closing.code.value else 1000))
  {
    FrontRead(k, s, f);
    assert !NoteInbound(k, s).closing.closed;
  }

  lemma NothingLeft(k: Config, s: Session)
    ensures Drain(k, s, []) == Link(s, [], None)
  {
  }

  lemma FedOther(k: Config, s: Session, f: ClientFrame)
    requires Sendable(f) && !s.closing.closed && f.opcode != OP_CLOSE
    ensures Fed(k, s, f).s == Handle(k, NoteInbound(k, s), f.fin, f.opcode, f.payload).0
    ensures Fed(k, s, f).raised == None
  {
    FrontRead(k, s, f);
    var noted, wire := NoteInbound(k, s), ClientWire(f);
    var (c, consumed) := Handle(k, noted, f.fin, f.opcode, f.payload);
    assert Parse(k, noted, wire) == Parsed(c, if consumed then |wire| else 0, None);
    if consumed {
      assert wire[|wire|..] == [];
      NothingLeft(k, c);
    }
  }

  // ---- Closing answers ------------------------------------------------------

  /** The queue has the sentinel behind what was there, unless it is full. */
  predicate Roused(k: Config, s: Session, t: Session) {
    && t.inbox.delivered == s.inbox.delivered
    && t.inbox.queue == if k.queueMax > 0 && |s.inbox.queue| >= k.queueMax then s.inbox.queue
                        else s.inbox.queue + [Disconnected]
  }

  /** Closed: one Close frame with `onWire`, `code` and `reason` recorded, the transport dropped, the timer disarmed and
      a parked receiver woken. */
  predicate ClosedWith(k: Config, s: Session, t: Session, onWire: nat, code: nat, reason: seq<nat>) {
    && t.outbox.written == s.outbox.written + [Frame(OP_CLOSE, BigEndian(onWire, 2))]
    && t.closing.closed && t.closing.sent && t.closing.dropped
    && t.closing.code == Some(code) && t.closing.reason == reason
    && !t.timer.armed && t.timer.token == None && Roused(k, s, t)
  }

  /** A code as the two octets of a Close frame. */
  lemma OnWire(n: nat)
    requires n < 65536
    ensures BigEndian(n, 2) == [n / 256, n % 256]
  {
    assert BigEndian(n / 256, 1) == BigEndian(n / 256 / 256, 0) + [n / 256 % 256];
  }

  lemma Terminated(k: Config, s: Session, t: Session, onWire: nat, code: Option<nat>, reason: seq<nat>)
    requires t.outbox == s.outbox && t.inbox == s.inbox && code.Some?
    ensures ClosedWith(k, s, Terminate(k, t, onWire, code, reason), onWire, code.value, reason)
  {
  }

  /** The codes of section 7.4 of RFC 6455 and its registry that an endpoint may send: assigned ones but those that are
      never on the wire (1004, 1005, 1006, 1015), registered ones and private ones. */
  predicate MaySend(c: int) {
    (1000 <= c <= 1014 && c != 1004 && c != 1005 && c != 1006) || 3000 <= c < 5000
  }

  lemma LegalMaySend(c: int)
    ensures LegalCode(c) <==> MaySend(c)
  {
  }

  lemma FirstTwo(payload: bytes)
    requires |payload| >= 2
    ensures FromBigEndian(payload[..2]) == payload[0] as nat * 256 + payload[1] as nat
  {
    assert payload[..2][..1] == [payload[0]] && [payload[0]][..0] == [];
    assert FromBigEndian([payload[0]]) == FromBigEndian([]) * 256 + payload[0];
  }

  /** What a Close frame of at least two octets is answered with. */
  ghost predicate CodeAnswered(k: Config, s: Session, t: Session, code: nat, text: bytes) {
    if !MaySend(code) then ClosedWith(k, s, t, 1002, 1002, s.closing.reason)
    else if !WellFormed(text) then ClosedWith(k, s, t, 1007, 1007, s.closing.reason)
    else
      && AllScalars(t.closing.reason) && Encode(t.closing.reason) == text
      && ClosedWith(k, s, t, code, code, t.closing.reason)
  }

  lemma CodedClose(k: Config, s: Session, t: Session, payload: bytes)
    requires |payload| >= 2 && t.outbox == s.outbox && t.inbox == s.inbox && t.closing.reason == s.closing.reason
    ensures CodeAnswered(k, s, HandleClose(k, t, payload), payload[0] as nat * 256 + payload[1] as nat, payload[2..])
  {
    var code := payload[0] as nat * 256 + payload[1] as nat;
    FirstTwo(payload);
    LegalMaySend(code);
    DecodeExact(payload[2..]);
    Terminated(k, s, t, 1002, Some(1002), s.closing.reason);
    Terminated(k, s, t, 1007, Some(1007), s.closing.reason);
    if Decode(payload[2..]).Some? {
      Terminated(k, s, t, code, Some(code), Decode(payload[2..]).value);
    }
  }

  /** A peer's Close frame: what is written, what is recorded, and the code of the disconnect raised. */
  lemma CloseAnswered(k: Config, s: Session, payload: bytes, mask: bytes)
    requires !s.closing.closed && |payload| <= CONTROL_BUDGET && |mask| == 4
    ensures var end := Fed(k, s, ClientFrame(true, OP_CLOSE, payload, mask));
      && end.s.closing.byPeer && end.raised == end.s.closing.code
      && if |payload| == 0 then ClosedWith(k, s, end.s, 1000, 1005, s.closing.reason)
         else if |payload| == 1 then ClosedWith(k, s, end.s, 1002, 1002, s.closing.reason)
         else CodeAnswered(k, s, end.s, payload[0] as nat * 256 + payload[1] as nat, payload[2..])
  {
    var t := PeerClosed(NoteInbound(k, s));
    FedClose(k, s, ClientFrame(true, OP_CLOSE, payload, mask));
    Terminated(k, s, t, 1000, Some(1005), s.closing.reason);
    Terminated(k, s, t, 1002, Some(1002), s.closing.reason);
    if |payload| >= 2 {
      CodedClose(k, s, t, payload);
    }
    assert HandleClose(k, t, payload).closing.byPeer;
  }

  // ---- Data frames ----------------------------------------------------------

  /** Nothing is written and nothing closes. */
  predicate StaysOpen(s: Session, t: Session) {
    t.closing == s.closing && t.outbox == s.outbox
  }

  /** Refused with `code`, which the peer is told and the connection records. */
  predicate RefusedWith(k: Config, s: Session, t: Session, code: nat) {
    ClosedWith(k, s, t, code, code, s.closing.reason)
  }

  /** The message is queued behind the others, or refused when there is no room for it. */
  predicate QueuedOrFull(k: Config, s: Session, t: Session, m: Message) {
    if k.queueMax > 0 && |s.inbox.queue| >= k.queueMax then RefusedWith(k, s, t, 1009)
    else
      && StaysOpen(s, t)
      && t.inbox == Inbox(s.inbox.queue + [Data(m.payload)], s.inbox.delivered + [m])
  }

  lemma Enqueued(k: Config, s: Session, t: Session, m: Message)
    requires t.outbox == s.outbox && t.inbox == s.inbox && t.closing == s.closing
    ensures QueuedOrFull(k, s, Enqueue(k, t, m), m)
  {
    Terminated(k, s, t, 1009, Some(1009), s.closing.reason);
  }

  /** The opening frame of a message. */
  lemma OpeningAnswered(k: Config, s: Session, f: ClientFrame)
    requires Sendable(f) && !s.closing.closed && f.opcode in {OP_TEXT, OP_BINARY}
    ensures var t, text := Fed(k, s, f).s, f.opcode == OP_TEXT;
      if s.fragment.Some? then RefusedWith(k, s, t, 1002)
      else if text && !Prefix(f.payload) then RefusedWith(k, s, t, 1007)
      else if f.fin then
        if text && !WellFormed(f.payload) then RefusedWith(k, s, t, 1007)
        else t.fragment == None && QueuedOrFull(k, s, t, Message(text, f.payload))
      else
        && StaysOpen(s, t) && t.inbox == s.inbox
        && t.fragment.Some? && t.fragment.value.opcode == f.opcode && t.fragment.value.data == f.payload
        && FragmentSound(t.fragment.value)
  {
    var noted := NoteInbound(k, s);
    FedOther(k, s, f);
    Terminated(k, s, noted, 1002, Some(1002), s.closing.reason);
    Terminated(k, s, noted, 1007, Some(1007), s.closing.reason);
    ValidatorExact(f.payload);
    Enqueued(k, s, noted, Message(f.opcode == OP_TEXT, f.payload));
  }

  /** A continuation: `data` is what the message has so far. */
  lemma ContinuationAnswered(k: Config, s: Session, f: ClientFrame)
    requires Sendable(f) && !s.closing.closed && f.opcode == OP_CONT
    requires s.fragment.Some? ==> FragmentSound(s.fragment.value)
    ensures var t := Fed(k, s, f).s;
      if s.fragment.None? then RefusedWith(k, s, t, 1002)
      else
        var whole, text := s.fragment.value.data + f.payload, s.fragment.value.opcode == OP_TEXT;
        if text && !Prefix(whole) then RefusedWith(k, s, t, 1007)
        else if |whole| > MAX_MESSAGE_SIZE then RefusedWith(k, s, t, 1009)
        else if !f.fin then
          && StaysOpen(s, t) && t.inbox == s.inbox
          && t.fragment.Some? && t.fragment.value.opcode == s.fragment.value.opcode && t.fragment.value.data == whole
          && FragmentSound(t.fragment.value)
        else if text && !WellFormed(whole) then RefusedWith(k, s, t, 1007)
        else t.fragment == None && QueuedOrFull(k, s, t, Message(text, whole))
  {
    var noted := NoteInbound(k, s);
    FedOther(k, s, f);
    if s.fragment.None? {
      Terminated(k, s, noted, 1002, Some(1002), s.closing.reason);
    } else {
      var Fragment(opcode, data, validator) := s.fragment.value;
      var v := if validator.Some? then Scan(validator.value, f.payload) else None;
      var grown := noted.(fragment := Some(Fragment(opcode, data + f.payload, v)));
      Terminated(k, s, noted, 1007, Some(1007), s.closing.reason);
      Terminated(k, s, grown, 1007, Some(1007), s.closing.reason);
      Terminated(k, s, grown, 1009, Some(1009), s.closing.reason);
      ScanAppend(START, data, f.payload);
      ValidatorExact(data + f.payload);
      Enqueued(k, s, grown, Message(opcode == OP_TEXT, data + f.payload));
    }
  }

  // ---- Control frames and the header ----------------------------------------

  /** A PING is answered with its own payload, or held back for later in the place of any before it. */
  lemma PingAnswered(k: Config, s: Session, payload: bytes, mask: bytes)
    requires !s.closing.closed && |payload| <= CONTROL_BUDGET && |mask| == 4
    ensures var t := Fed(k, s, ClientFrame(true, OP_PING, payload, mask)).s;
      && t.closing == s.closing && t.inbox == s.inbox && t.fragment == s.fragment
      && if k.gate(s.outbox.asked) then
           && t.outbox.written == s.outbox.written + [Frame(OP_PONG, payload)]
           && t.outbox.pendingPong == s.outbox.pendingPong
         else t.outbox.written == s.outbox.written && t.outbox.pendingPong == Some(payload)
  {
    FedOther(k, s, ClientFrame(true, OP_PING, payload, mask));
  }

  /** A PONG clears the pending token when it carries it, and changes nothing else. */
  lemma PongAnswered(k: Config, s: Session, payload: bytes, mask: bytes)
    requires !s.closing.closed && |payload| <= CONTROL_BUDGET && |mask| == 4
    ensures var t := Fed(k, s, ClientFrame(true, OP_PONG, payload, mask)).s;
      && StaysOpen(s, t) && t.inbox == s.inbox && t.fragment == s.fragment && t.timer.armed == s.timer.armed
      && t.timer.token == if s.timer.token.Some? && payload == BigEndian(s.timer.token.value, 4) then None
                          else s.timer.token
  {
    FedOther(k, s, ClientFrame(true, OP_PONG, payload, mask));
  }

  /** A frame with any other opcode is dropped. */
  lemma ReservedIgnored(k: Config, s: Session, f: ClientFrame)
    requires Sendable(f) && !s.closing.closed
    requires f.opcode !in {OP_CONT, OP_TEXT, OP_BINARY, OP_CLOSE, OP_PING, OP_PONG}
    ensures var end := Fed(k, s, f);
      StaysOpen(s, end.s) && end.s.inbox == s.inbox && end.s.fragment == s.fragment && end.buffer == []
  {
    FedOther(k, s, f);
    FrontRead(k, s, f);
    var noted, wire := NoteInbound(k, s), ClientWire(f);
    assert wire[|wire|..] == [];
    NothingLeft(k, noted);
  }

  lemma RefusedFront(k: Config, s: Session, buf: bytes, code: nat)
    requires !s.closing.closed && buf != [] && ReadFront(buf) == Refused(code)
    ensures RefusedWith(k, s, FeedData(k, s, [], buf).s, code)
  {
    assert [] + buf == buf;
    Terminated(k, s, NoteInbound(k, s), code, Some(code), s.closing.reason);
  }

  /** A header is refused for a reserved bit, a missing mask or a bad control frame, and for its length alone. */
  lemma HeaderAnswered(k: Config, s: Session, head: byte, n: nat, masked: bool, rest: bytes)
    requires !s.closing.closed && n < 0x1_0000_0000_0000_0000
    ensures var t := FeedData(k, s, [], [head] + LengthField(n, if masked then 128 else 0) + rest).s;
      if head / 16 % 8 != 0 || !masked then RefusedWith(k, s, t, 1002)
      else if n > MAX_FRAME_SIZE then RefusedWith(k, s, t, 1009)
      else head % 16 >= 8 && head % 16 <= 10 && (n > 125 || head < 128) ==> RefusedWith(k, s, t, 1002)
  {
    var flag := if masked then 128 else 0;
    var buf := [head] + LengthField(n, flag) + rest;
    LengthReads(n, flag, head, rest);
    if head / 16 % 8 != 0 || !masked {
      RefusedFront(k, s, buf, 1002);
    } else if n > MAX_FRAME_SIZE {
      RefusedFront(k, s, buf, 1009);
    } else if IsControl(head % 16) && (n > 125 || head < 128) {
      RefusedFront(k, s, buf, 1002);
    }
  }

  // ---- What the connection does by itself -----------------------------------

  /** A tick that probes writes a PING whose echo clears it, and moves on to another token. */
  lemma ProbeEchoed(k: Config, s: Session, mask: bytes)
    requires TimerSound(k, s) && s.timer.armed && !s.timer.sawInbound && s.timer.token.None? && |mask| == 4
    ensures var t := Tick(k, s);
      var payload := t.outbox.written[|s.outbox.written|..][0].payload;
      && t.outbox.written == s.outbox.written + [Frame(OP_PING, payload)]
      && t.timer.token.Some? && t.timer.token.value != t.timer.nextToken
      && |payload| == 4 && Fed(k, t, ClientFrame(true, OP_PONG, payload, mask)).s.timer.token == None
  {
    var t := Tick(k, s);
    var payload := BigEndian(s.timer.nextToken, 4);
    assert t.outbox.written[|s.outbox.written|..] == [Frame(OP_PING, payload)];
    PongAnswered(k, t, payload, mask);
  }

  /** A local close of a connection that sent no Close frame: the code if it may be sent, else 1000, and as much of the
      reason as fits 123 octets without cutting a character. */
  lemma CloseWritten(k: Config, w: World, code: int, reason: seq<nat>)
    requires !w.s.closing.sent && AllScalars(reason)
    ensures var t := Next(k, w, Close(code, reason)).s;
      var onWire := if MaySend(code) then code else 1000;
      && (exists kept :: LongestFitting(reason, kept)
           && t.outbox.written == w.s.outbox.written + [Frame(OP_CLOSE, BigEndian(onWire, 2) + Encode(kept))])
      && t.closing.closed && t.closing.sent && t.closing.dropped && t.closing.code == w.s.closing.code
      && t.inbox == w.s.inbox && !t.timer.armed
  {
    LegalMaySend(code);
    TruncatedLongest(reason);
    assert LongestFitting(reason, Truncated(reason));
  }

  /** The PONG held back is written once; without one nothing is. */
  lemma FlushWrites(k: Config, w: World)
    ensures var t := Next(k, w, Flush).s;
      && t.outbox.pendingPong == None
      && t.outbox.written == if w.s.outbox.pendingPong.None? then w.s.outbox.written
                             else w.s.outbox.written + [Frame(OP_PONG, w.s.outbox.pendingPong.value)]
  {
  }
}
