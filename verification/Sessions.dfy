/** The raw-transport connection as a state machine: what each parsed frame, timer tick and close call does. */
module Sessions {
  import opened Bytes
  import opened CloseCodes
  import opened Frames
  import opened Utf8
  import opened Wrappers

  /** A reassembled message; the receive queue keeps only the payload. */
  datatype Message = Message(text: bool, payload: bytes)

  /** An entry of the receive queue: a payload, or the sentinel that wakes a parked receiver. */
  datatype Item = Data(payload: bytes) | Disconnected

  /** The message being reassembled; the validator is absent for binary. */
  datatype Fragment = Fragment(opcode: nat, data: bytes, validator: Option<State>)

  /** `gate(n)` is what the n-th query of the write gate answers; `queueMax <= 0` is an unbounded queue. */
  datatype Config = Config(heartbeat: bool, queueMax: int, gate: nat -> bool)

  /** The receive queue, and every message ever put on it. */
  datatype Inbox = Inbox(queue: seq<Item>, delivered: seq<Message>)

  /** The frames written so far, the PONG held back, and how often the write gate was asked. */
  datatype Outbox = Outbox(written: seq<Frame>, pendingPong: Option<bytes>, asked: nat)

  datatype Closing = Closing(closed: bool, sent: bool, byPeer: bool, code: Option<nat>, reason: seq<nat>, dropped: bool)

  datatype Timer = Timer(armed: bool, token: Option<nat>, nextToken: nat, sawInbound: bool)

  datatype Session = Session(fragment: Option<Fragment>, inbox: Inbox, outbox: Outbox, closing: Closing, timer: Timer)

  const FRESH := Session(None, Inbox([], []), Outbox([], None, 0), Closing(false, false, false, None, [], false),
                         Timer(false, None, 0, false))

  predicate Full(k: Config, inbox: Inbox) {
    k.queueMax > 0 && |inbox.queue| >= k.queueMax
  }

  function Write(out: Outbox, opcode: nat, payload: bytes): Outbox {
    Outbox(out.written + [Frame(opcode, payload)], out.pendingPong, out.asked)
  }

  /** `_cancel_heartbeat` */
  function Cancelled(t: Timer): Timer {
    Timer(false, None, t.nextToken, false)
  }

  /** `_wake_raw_receiver` */
  function Woken(k: Config, inbox: Inbox): Inbox {
    if Full(k, inbox) then inbox else Inbox(inbox.queue + [Disconnected], inbox.delivered)
  }

  /** `_terminate_raw`, recording `code` and `reason` as what the connection closed with. */
  function Terminate(k: Config, s: Session, onWire: nat, code: Option<nat>, reason: seq<nat>): Session {
    Session(s.fragment, Woken(k, s.inbox), Write(s.outbox, OP_CLOSE, BigEndian(onWire, 2)),
            Closing(true, true, s.closing.byPeer, code, reason, true), Cancelled(s.timer))
  }

  /** `_close_control` */
  function Fail(k: Config, s: Session, code: nat): Session {
    Terminate(k, s, code, Some(code), s.closing.reason)
  }

  /** `_enqueue_or_close` */
  function Enqueue(k: Config, s: Session, m: Message): Session {
    if Full(k, s.inbox) then Fail(k, s, 1009)
    else s.(inbox := Inbox(s.inbox.queue + [Data(m.payload)], s.inbox.delivered + [m]))
  }

  /** `_handle_close_frame` */
  function HandleClose(k: Config, s: Session, payload: bytes): Session {
    if payload == [] then Terminate(k, s, 1000, Some(1005), s.closing.reason)
    else if |payload| == 1 then Fail(k, s, 1002)
    else
      var code := FromBigEndian(payload[..2]);
      if !LegalCode(code) then Fail(k, s, 1002)
      else
        match Decode(payload[2..])
        case None => Fail(k, s, 1007)
        case Some(reason) => Terminate(k, s, code, Some(code), reason)
  }

  function HandlePing(k: Config, s: Session, payload: bytes): Session {
    var out := s.outbox.(asked := s.outbox.asked + 1);
    s.(outbox := if k.gate(s.outbox.asked) then Write(out, OP_PONG, payload) else out.(pendingPong := Some(payload)))
  }

  function HandlePong(s: Session, payload: bytes): Session {
    if s.timer.token.Some? && payload == BigEndian(s.timer.token.value, 4) then s.(timer := s.timer.(token := None))
    else s
  }

  /** The payload so far ends between characters, or the message is binary. */
  predicate Finished(v: Option<State>) {
    v.Some? ==> v.value.need == 0
  }

  /** The opening frame of a message; the flag is false when the frame was refused. */
  function HandleOpening(k: Config, s: Session, fin: bool, opcode: nat, payload: bytes): (Session, bool) {
    if s.fragment.Some? then (Fail(k, s, 1002), false)
    else
      var text := opcode == OP_TEXT;
      var v := if text then Scan(START, payload) else None;
      if text && v.None? then (Fail(k, s, 1007), false)
      else if fin then
        if !Finished(v) then (Fail(k, s, 1007), false)
        else (Enqueue(k, s, Message(text, payload)), true)
      else
        var started := s.(fragment := Some(Fragment(opcode, payload, v)));
        if |payload| > MAX_MESSAGE_SIZE then (Fail(k, started, 1009), false)
        else (started, true)
  }

  /** The size cap, and the end of the message if this was its last frame. */
  function Extended(k: Config, s: Session, fin: bool): (Session, bool)
    requires s.fragment.Some?
  {
    var Fragment(opcode, data, validator) := s.fragment.value;
    if |data| > MAX_MESSAGE_SIZE then (Fail(k, s, 1009), false)
    else if !fin then (s, true)
    else if !Finished(validator) then (Fail(k, s, 1007), false)
    else (Enqueue(k, s, Message(opcode == OP_TEXT, data)).(fragment := None), true)
  }

  function HandleContinuation(k: Config, s: Session, fin: bool, payload: bytes): (Session, bool) {
    if s.fragment.None? then (Fail(k, s, 1002), false)
    else
      var Fragment(opcode, data, validator) := s.fragment.value;
      var v := if validator.Some? then Scan(validator.value, payload) else None;
      if validator.Some? && v.None? then (Fail(k, s, 1007), false)
      else Extended(k, s.(fragment := Some(Fragment(opcode, data + payload, v))), fin)
  }

  /** Every frame but Close; reserved opcodes are consumed silently. */
  function Handle(k: Config, s: Session, fin: bool, opcode: nat, payload: bytes): (Session, bool) {
    if opcode == OP_PING then (HandlePing(k, s, payload), true)
    else if opcode == OP_PONG then (HandlePong(s, payload), true)
    else if opcode == OP_TEXT || opcode == OP_BINARY then HandleOpening(k, s, fin, opcode, payload)
    else if opcode == OP_CONT then HandleContinuation(k, s, fin, payload)
    else (s, true)
  }

  function PeerClosed(s: Session): Session {
    s.(closing := s.closing.(byPeer := true))
  }

  /** `_parse_frame`: the new state, the octets consumed, and the code of a raised disconnect. */
  datatype Parsed = Parsed(s: Session, consumed: nat, raised: Option<nat>)

  function Parse(k: Config, s: Session, buf: bytes): (r: Parsed)
    ensures r.consumed <= |buf|
  {
    match ReadFront(buf)
    case Incomplete => Parsed(s, 0, None)
    case Refused(code) => Parsed(Fail(k, s, code), 0, None)
    case Whole(fin, opcode, payload, size) =>
      if opcode == OP_CLOSE then
        var c := HandleClose(k, PeerClosed(s), payload);
        Parsed(c, 0, Some(if c.closing.code.Some? && c.closing.code.value != 0 then c.closing.code.value else 1000))
      else
        var (c, consumed) := Handle(k, s, fin, opcode, payload);
        Parsed(c, if consumed then size else 0, None)
  }

  /** The connection with its receive buffer; `raised` is the disconnect the last feed ended with. */
  datatype Link = Link(s: Session, buffer: bytes, raised: Option<nat>)

  /** The parsing loop of `feed_data`. */
  function Drain(k: Config, s: Session, buf: bytes): Link
    decreases |buf|
  {
    if s.closing.closed then Link(s, buf, None)
    else
      var r := Parse(k, s, buf);
      if r.raised.Some? || r.consumed == 0 then Link(r.s, buf, r.raised)
      else Drain(k, r.s, buf[r.consumed..])
  }

  /** `_note_heartbeat_inbound` */
  function NoteInbound(k: Config, s: Session): Session {
    if k.heartbeat && s.timer.armed then s.(timer := s.timer.(sawInbound := true)) else s
  }

  /** `feed_data` */
  function FeedData(k: Config, s: Session, buffer: bytes, data: bytes): Link {
    if data == [] then Link(s, buffer, None)
    else Drain(k, NoteInbound(k, s), buffer + data)
  }

  // ---- Timers and local calls -----------------------------------------------

  /** `start_heartbeat` */
  function StartHeartbeat(k: Config, s: Session): Session {
    if !k.heartbeat || s.closing.closed then s else s.(timer := s.timer.(armed := true))
  }

  /** `_close_heartbeat_timeout`: no Close frame, and 1006 recorded. */
  function TimedOut(k: Config, s: Session): Session {
    s.(inbox := Woken(k, s.inbox), timer := Cancelled(s.timer),
       closing := s.closing.(closed := true, code := Some(1006), dropped := true))
  }

  /** A probe with the next token, which is echoed by the peer's PONG. */
  function Probe(s: Session): Session {
    var token := s.timer.nextToken;
    s.(outbox := Write(s.outbox, OP_PING, BigEndian(token, 4)),
       timer := Timer(true, Some(token), (token + 1) % 0x1_0000_0000, s.timer.sawInbound))
  }

  /** `_heartbeat_tick`; it only fires while the timer is armed. */
  function Tick(k: Config, s: Session): Session {
    if !s.timer.armed then s
    else if s.closing.closed then s.(timer := s.timer.(armed := false))
    else if s.timer.sawInbound then s.(timer := s.timer.(sawInbound := false, token := None))
    else if s.timer.token.Some? then TimedOut(k, s)
    else Probe(s)
  }

  /** `close` up to the wait for the peer, with the sanitised code and reason. */
  function CloseLocally(s: Session, code: nat, reason: seq<nat>): Session
    requires AllScalars(reason)
  {
    if s.closing.sent then s
    else
      s.(outbox := Write(s.outbox, OP_CLOSE, BigEndian(code, 2) + Encode(reason)), timer := Cancelled(s.timer),
         closing := s.closing.(closed := true, sent := true, dropped := true))
  }

  /** `flush_pending_pong` */
  function FlushPong(s: Session): Session {
    match s.outbox.pendingPong
    case None => s
    case Some(payload) => s.(outbox := Write(s.outbox.(pendingPong := None), OP_PONG, payload))
  }
}
