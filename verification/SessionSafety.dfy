/** What holds after every run of a raw-transport connection, whatever the peer, the timers and the handler do. */
module SessionSafety {
  import opened Bytes
  import opened CloseCodes
  import opened Frames
  import opened Sessions
  import opened Utf8
  import opened Wrappers

  // ---- Runs -----------------------------------------------------------------

  datatype Act =
    | Feed(data: bytes)
    | TimerFires
    | StartTimer
    | Close(code: int, reason: seq<nat>)
    | Flush
    | Send(text: bool, payload: bytes)
    | Receive
    | Resume
    | GiveUp

  /** The connection, its receive buffer, what the handler has taken off the queue, and how many of its
      receives are parked on an empty queue. */
  datatype World = World(s: Session, buffer: bytes, received: seq<Item>, parked: nat)

  const NEW := World(FRESH, [], [], 0)

  const MAX_WRITABLE: nat := 0x1_0000_0000_0000_0000

  /** The oldest item of the queue goes to a receiver. */
  function Hand(w: World): World
    requires w.s.inbox.queue != []
  {
    var inbox := w.s.inbox;
    w.(s := w.s.(inbox := Inbox(inbox.queue[1..], inbox.delivered)), received := w.received + [inbox.queue[0]])
  }

  /** A send or a new receive on a closed connection raises, as does a close reason with a lone surrogate.
      A receiver that was already parked is resumed whatever has happened since, or gives up on its deadline. */
  function Next(k: Config, w: World, a: Act): World {
    match a
    case Feed(data) =>
      var l := FeedData(k, w.s, w.buffer, data);
      w.(s := l.s, buffer := l.buffer)
    case TimerFires => w.(s := Tick(k, w.s))
    case StartTimer => w.(s := StartHeartbeat(k, w.s))
    case Close(code, reason) =>
      if AllScalars(reason) then w.(s := CloseLocally(w.s, SafeCode(code), Truncated(reason))) else w
    case Flush => w.(s := FlushPong(w.s))
    case Send(text, payload) =>
      if w.s.closing.closed || |payload| >= MAX_WRITABLE then w
      else w.(s := w.s.(outbox := Write(w.s.outbox, if text then OP_TEXT else OP_BINARY, payload)))
    case Receive =>
      if w.s.closing.closed then w
      else if w.s.inbox.queue == [] then w.(parked := w.parked + 1)
      else Hand(w)
    case Resume =>
      if w.parked == 0 || w.s.inbox.queue == [] then w else Hand(w).(parked := w.parked - 1)
    case GiveUp => if w.parked == 0 then w else w.(parked := w.parked - 1)
  }

  function After(k: Config, w: World, acts: seq<Act>): World {
    if acts == [] then w else Next(k, After(k, w, acts[..|acts| - 1]), acts[|acts| - 1])
  }

  function Run(k: Config, acts: seq<Act>): World {
    After(k, NEW, acts)
  }

  lemma FirstAct(k: Config, a: Act)
    ensures Run(k, [a]) == Next(k, NEW, a)
  {
    var acts := [a];
    assert acts[..|acts| - 1] == [] && After(k, NEW, []) == NEW;
    assert After(k, NEW, acts) == Next(k, After(k, NEW, acts[..|acts| - 1]), acts[|acts| - 1]);
  }

  // ---- The wire -------------------------------------------------------------

  /** Sections 5.5.1 and 7.4.1: a legal status code and a UTF-8 reason within the control-frame budget. */
  predicate CloseOk(payload: bytes) {
    2 <= |payload| <= CONTROL_BUDGET && LegalCode(FromBigEndian(payload[..2])) && WellFormed(payload[2..])
  }

  predicate FrameOk(f: Frame) {
    match f.opcode
    case 1 => |f.payload| < MAX_WRITABLE
    case 2 => |f.payload| < MAX_WRITABLE
    case 8 => CloseOk(f.payload)
    case 9 => |f.payload| <= CONTROL_BUDGET
    case 10 => |f.payload| <= CONTROL_BUDGET
    case _ => false
  }

  predicate IsClose(f: Frame) {
    f.opcode == OP_CLOSE
  }

  /** Nothing but PONGs follows a Close frame; in particular there is at most one. */
  predicate ClosedOnce(frames: seq<Frame>) {
    forall i, j :: 0 <= i < j < |frames| && IsClose(frames[i]) ==> frames[j].opcode == OP_PONG
  }

  predicate AnyClose(frames: seq<Frame>) {
    exists i :: 0 <= i < |frames| && IsClose(frames[i])
  }

  predicate WireSafe(out: Outbox, c: Closing) {
    && (forall i :: 0 <= i < |out.written| ==> FrameOk(out.written[i]))
    && ClosedOnce(out.written)
    && (AnyClose(out.written) <==> c.sent)
    && (c.sent ==> c.closed)
    && (out.pendingPong.Some? ==> |out.pendingPong.value| <= CONTROL_BUDGET)
  }

  lemma WriteSafe(out: Outbox, c: Closing, opcode: nat, payload: bytes, d: Closing)
    requires WireSafe(out, c) && FrameOk(Frame(opcode, payload))
    requires c.sent ==> opcode == OP_PONG
    requires d.sent == (c.sent || opcode == OP_CLOSE) && (d.sent ==> d.closed)
    ensures WireSafe(Write(out, opcode, payload), d)
  {
    var w, v := out.written, Write(out, opcode, payload).written;
    assert forall i :: 0 <= i < |w| ==> v[i] == w[i];
    assert v[|w|] == Frame(opcode, payload);
    if AnyClose(w) {
      var i :| 0 <= i < |w| && IsClose(w[i]);
      assert IsClose(v[i]);
    }
    if opcode == OP_CLOSE {
      assert IsClose(v[|w|]);
    }
  }

  lemma CodeOnWire(code: nat, reason: bytes)
    requires LegalCode(code) && |reason| <= REASON_BUDGET && WellFormed(reason)
    ensures CloseOk(BigEndian(code, 2) + reason)
  {
    WidthBounds();
    BigEndianRoundTrip(code, 2);
    var p := BigEndian(code, 2) + reason;
    assert p[..2] == BigEndian(code, 2) && p[2..] == reason;
  }

  lemma TerminateWire(k: Config, s: Session, onWire: nat, code: Option<nat>, reason: seq<nat>)
    requires WireSafe(s.outbox, s.closing) && !s.closing.closed && LegalCode(onWire)
    ensures var t := Terminate(k, s, onWire, code, reason); WireSafe(t.outbox, t.closing)
  {
    CodeOnWire(onWire, []);
    assert BigEndian(onWire, 2) + [] == BigEndian(onWire, 2);
    WriteSafe(s.outbox, s.closing, OP_CLOSE, BigEndian(onWire, 2), Terminate(k, s, onWire, code, reason).closing);
  }

  predicate Wired(s: Session) {
    WireSafe(s.outbox, s.closing)
  }

  lemma FailWire(k: Config, s: Session)
    requires Wired(s) && !s.closing.closed
    ensures Wired(Fail(k, s, 1002)) && Wired(Fail(k, s, 1007)) && Wired(Fail(k, s, 1009))
  {
    TerminateWire(k, s, 1002, Some(1002), s.closing.reason);
    TerminateWire(k, s, 1007, Some(1007), s.closing.reason);
    TerminateWire(k, s, 1009, Some(1009), s.closing.reason);
  }

  lemma HandleCloseWire(k: Config, s: Session, payload: bytes)
    requires Wired(s) && !s.closing.closed
    ensures Wired(HandleClose(k, s, payload))
  {
    FailWire(k, s);
    if payload == [] {
      TerminateWire(k, s, 1000, Some(1005), s.closing.reason);
    } else if |payload| > 1 && LegalCode(FromBigEndian(payload[..2])) {
      match Decode(payload[2..])
      case None =>
      case Some(reason) =>
        TerminateWire(k, s, FromBigEndian(payload[..2]), Some(FromBigEndian(payload[..2])), reason);
    }
  }

  /** A data frame writes nothing, or a Close frame with one of three codes. */
  lemma DataWire(k: Config, s: Session, fin: bool, opcode: nat, payload: bytes)
    requires Wired(s) && !s.closing.closed
    ensures Wired(HandleOpening(k, s, fin, opcode, payload).0)
    ensures Wired(HandleContinuation(k, s, fin, payload).0)
  {
    FailWire(k, s);
  }

  lemma ParseWire(k: Config, s: Session, buf: bytes)
    requires Wired(s) && !s.closing.closed
    ensures Wired(Parse(k, s, buf).s)
  {
    ReadFrontBounds(buf);
    FailWire(k, s);
    match ReadFront(buf)
    case Incomplete =>
    case Refused(code) =>
    case Whole(fin, opcode, payload, size) =>
      if opcode == OP_CLOSE {
        HandleCloseWire(k, PeerClosed(s), payload);
      } else if opcode == OP_PING {
        WriteSafe(s.outbox.(asked := s.outbox.asked + 1), s.closing, OP_PONG, payload, s.closing);
      } else {
        DataWire(k, s, fin, opcode, payload);
      }
  }

  lemma {:induction false} DrainWire(k: Config, s: Session, buf: bytes)
    requires Wired(s)
    ensures Wired(Drain(k, s, buf).s)
    decreases |buf|
  {
    if !s.closing.closed {
      ParseWire(k, s, buf);
      var r := Parse(k, s, buf);
      if r.raised.None? && r.consumed > 0 {
        DrainWire(k, r.s, buf[r.consumed..]);
      }
    }
  }

  lemma ProbeWire(s: Session)
    requires Wired(s) && !s.closing.closed
    ensures Wired(Probe(s))
  {
    WriteSafe(s.outbox, s.closing, OP_PING, BigEndian(s.timer.nextToken, 4), s.closing);
  }

  lemma CloseWire(s: Session, code: int, reason: seq<nat>)
    requires Wired(s) && AllScalars(reason)
    ensures Wired(CloseLocally(s, SafeCode(code), Truncated(reason)))
  {
    if !s.closing.sent {
      TruncatedLongest(reason);
      EncodingWellFormed(Truncated(reason));
      CodeOnWire(SafeCode(code), Encode(Truncated(reason)));
      WriteSafe(s.outbox, s.closing, OP_CLOSE, BigEndian(SafeCode(code), 2) + Encode(Truncated(reason)),
                CloseLocally(s, SafeCode(code), Truncated(reason)).closing);
    }
  }

  lemma FlushWire(s: Session)
    requires Wired(s)
    ensures Wired(FlushPong(s))
  {
    if s.outbox.pendingPong.Some? {
      WriteSafe(s.outbox.(pendingPong := None), s.closing, OP_PONG, s.outbox.pendingPong.value, s.closing);
    }
  }

  lemma StepWire(k: Config, w: World, a: Act)
    requires Wired(w.s)
    ensures Wired(Next(k, w, a).s)
  {
    match a
    case Feed(data) => DrainWire(k, NoteInbound(k, w.s), w.buffer + data);
    case TimerFires => if !w.s.closing.closed { ProbeWire(w.s); }
    case StartTimer =>
    case Close(code, reason) => if AllScalars(reason) { CloseWire(w.s, code, reason); }
    case Flush => FlushWire(w.s);
    case Send(text, payload) =>
      if !w.s.closing.closed && |payload| < MAX_WRITABLE {
        WriteSafe(w.s.outbox, w.s.closing, if text then OP_TEXT else OP_BINARY, payload, w.s.closing);
      }
    case Receive =>
    case Resume =>
    case GiveUp =>
  }

  /** Over every run: at most one Close frame, well formed, with nothing but PONGs behind it. */
  lemma {:induction false} CloseSafety(k: Config, acts: seq<Act>)
    ensures Wired(Run(k, acts).s)
  {
    if acts != [] {
      CloseSafety(k, acts[..|acts| - 1]);
      StepWire(k, Run(k, acts[..|acts| - 1]), acts[|acts| - 1]);
    }
  }

  /** In so many words: no second Close frame is ever attempted, and the one there may be is legal. */
  lemma AtMostOneClose(k: Config, acts: seq<Act>)
    ensures var written := Run(k, acts).s.outbox.written;
      && (forall i, j :: 0 <= i < |written| && 0 <= j < |written| && IsClose(written[i]) && IsClose(written[j]) ==>
           i == j)
      && (forall i :: 0 <= i < |written| && IsClose(written[i]) ==> CloseOk(written[i].payload))
  {
    CloseSafety(k, acts);
    assert forall i :: 0 <= i < |Run(k, acts).s.outbox.written| ==> FrameOk(Run(k, acts).s.outbox.written[i]);
  }

  // ---- What may still be written once the connection is closed --------------

  /** Behind its Close frame a connection writes only when it flushes a PONG it had held back. */
  lemma WritesBehindClose(k: Config, w: World, a: Act)
    requires Wired(w.s) && w.s.closing.sent
    ensures Next(k, w, a).s.outbox.written != w.s.outbox.written <==> a.Flush? && w.s.outbox.pendingPong.Some?
  {
    if a.Flush? && w.s.outbox.pendingPong.Some? {
      assert |Next(k, w, a).s.outbox.written| == |w.s.outbox.written| + 1;
    }
  }

  /** A masked PING without a payload. */
  const EMPTY_PING: bytes := [0x89, 0x80, 0, 0, 0, 0]

  /** It does happen: a PING held back by the gate, a close, and then the flush. */
  lemma PongBehindClose()
    ensures var k := Config(false, 0, n => false);
      Run(k, [Feed(EMPTY_PING), Close(1000, []), Flush]).s.outbox.written
        == [Frame(OP_CLOSE, BigEndian(1000, 2)), Frame(OP_PONG, [])]
  {
    var k := Config(false, 0, n => false);
    var acts := [Feed(EMPTY_PING), Close(1000, []), Flush];
    assert acts[..2] == [Feed(EMPTY_PING), Close(1000, [])] && acts[..2][..1] == [Feed(EMPTY_PING)];
    assert acts[..2][..1][..0] == [];
    PingHeldBack(k);
    var held := Run(k, [Feed(EMPTY_PING)]);
    assert Truncated([]) == [] && Encode([]) == [];
    assert BigEndian(1000, 2) + [] == BigEndian(1000, 2);
    var closed := Next(k, held, Close(1000, []));
    assert Run(k, acts[..2]) == closed;
    assert Run(k, acts) == Next(k, closed, Flush);
  }

  lemma EmptyPingReads()
    ensures ReadFront(EMPTY_PING) == Whole(true, OP_PING, [], 6)
  {
    assert EMPTY_PING[0] == 0x89 && EMPTY_PING[1] == 0x80 && |EMPTY_PING| == 6;
    assert EMPTY_PING[6..6] == [];
  }

  /** A parse that takes the whole buffer ends the feed. */
  lemma DrainsWhole(k: Config, s: Session, buf: bytes, next: Session)
    requires !s.closing.closed && buf != [] && Parse(k, s, buf) == Parsed(next, |buf|, None)
    ensures Drain(k, s, buf) == Link(next, [], None)
  {
    assert buf[|buf|..] == [];
    assert Drain(k, next, []) == Link(next, [], None);
  }

  lemma PingHeldBack(k: Config)
    requires !k.gate(0) && !k.heartbeat
    ensures Run(k, [Feed(EMPTY_PING)]) == NEW.(s := FRESH.(outbox := Outbox([], Some([]), 1)))
  {
    var held := FRESH.(outbox := Outbox([], Some([]), 1));
    EmptyPingReads();
    assert HandlePing(k, FRESH, []) == held;
    assert Handle(k, FRESH, true, OP_PING, []) == (held, true);
    DrainsWhole(k, FRESH, EMPTY_PING, held);
    assert NEW.buffer + EMPTY_PING == EMPTY_PING;
    assert NoteInbound(k, FRESH) == FRESH;
    assert FeedData(k, FRESH, NEW.buffer, EMPTY_PING) == Link(held, [], None);
    FirstAct(k, Feed(EMPTY_PING));
  }

  /** A local close on a closed connection attempts a Close frame exactly when none has been. */
  lemma LateCloseWrites(k: Config, w: World, code: int, reason: seq<nat>)
    requires w.s.closing.closed && AllScalars(reason)
    ensures Next(k, w, Close(code, reason)).s.outbox.written != w.s.outbox.written <==> !w.s.closing.sent
  {
    if !w.s.closing.sent {
      assert |Next(k, w, Close(code, reason)).s.outbox.written| == |w.s.outbox.written| + 1;
    }
  }

  lemma ParseCloses(k: Config, s: Session, buf: bytes)
    requires !s.closing.closed
    ensures Parse(k, s, buf).s.closing.closed ==> Parse(k, s, buf).s.closing.sent
  {
  }

  lemma {:induction false} DrainCloses(k: Config, s: Session, buf: bytes)
    requires !s.closing.closed
    ensures Drain(k, s, buf).s.closing.closed ==> Drain(k, s, buf).s.closing.sent
    decreases |buf|
  {
    ParseCloses(k, s, buf);
    var r := Parse(k, s, buf);
    if r.raised.None? && r.consumed > 0 && !r.s.closing.closed {
      DrainCloses(k, r.s, buf[r.consumed..]);
    }
  }

  /** An open connection is closed without a Close frame by a heartbeat timeout and by nothing else. */
  lemma ClosedUnsent(k: Config, w: World, a: Act)
    requires !w.s.closing.closed && Next(k, w, a).s.closing.closed && !w.s.closing.sent
    ensures !Next(k, w, a).s.closing.sent <==> a.TimerFires?
    ensures a.TimerFires? ==> Next(k, w, a).s == TimedOut(k, w.s) && Next(k, w, a).s.closing.code == Some(1006)
  {
    if a.Feed? && a.data != [] {
      DrainCloses(k, NoteInbound(k, w.s), w.buffer + a.data);
    }
  }

  /** Closed with no Close frame attempted is closed by a timeout, in every run. */
  lemma {:induction false} UnsentMeansTimeout(k: Config, acts: seq<Act>)
    ensures var c := Run(k, acts).s.closing; c.closed && !c.sent ==> c.code == Some(1006) && c.dropped
  {
    if acts != [] {
      var front, last := acts[..|acts| - 1], acts[|acts| - 1];
      UnsentMeansTimeout(k, front);
      CloseSafety(k, front);
      var w := Run(k, front);
      if !w.s.closing.closed && Next(k, w, last).s.closing.closed {
        ClosedUnsent(k, w, last);
      }
    }
  }

  /** Two silent windows time the peer out without a Close frame; the handler's `close` then attempts one. */
  lemma CloseBehindTimeout()
    ensures var k := Config(true, 0, n => true);
      var timedOut := Run(k, [StartTimer, TimerFires, TimerFires]).s;
      var closed := Run(k, [StartTimer, TimerFires, TimerFires, Close(1000, [])]).s;
      && timedOut.closing.closed && timedOut.closing.code == Some(1006)
      && timedOut.outbox.written == [Frame(OP_PING, BigEndian(0, 4))]
      && closed.outbox.written == [Frame(OP_PING, BigEndian(0, 4)), Frame(OP_CLOSE, BigEndian(1000, 2))]
  {
    var k := Config(true, 0, n => true);
    var acts := [StartTimer, TimerFires, TimerFires, Close(1000, [])];
    assert acts[..3] == [StartTimer, TimerFires, TimerFires] && acts[..3][..2] == [StartTimer, TimerFires];
    assert acts[..3][..2][..1] == [StartTimer] && acts[..3][..2][..1][..0] == [];
    var armed := Next(k, NEW, StartTimer);
    assert Run(k, [StartTimer]) == armed;
    assert Run(k, [StartTimer, TimerFires]) == Next(k, armed, TimerFires);
    assert Run(k, acts[..3]) == Next(k, Next(k, armed, TimerFires), TimerFires);
    assert Truncated([]) == [] && Encode([]) == [];
    assert BigEndian(1000, 2) + [] == BigEndian(1000, 2);
  }
}
