/** The raw-transport `WebSocket` object, proved to take the steps of the session state machine. */
module WebSockets {
  import opened Bytes
  import opened CloseCodes
  import opened Frames
  import opened Sessions
  import opened Unmask
  import opened Utf8
  import opened Wrappers

  lemma HeaderBytes(opcode: nat, data: bytes, header: bytes)
    requires Writable(Frame(opcode, data))
    requires header == [128 + opcode] +
      (if |data| < 126 then [|data|] else if |data| < 65536 then [126] + BigEndian(|data|, 2)
          else [127] + BigEndian(|data|, 8))
    ensures header + data == Wire(Frame(opcode, data))
  {
    assert header == [128 + opcode] + LengthField(|data|, 0);
  }

  lemma SliceOfTail(buf: bytes, start: nat, i: nat, j: nat)
    requires start + j <= |buf| && i <= j
    ensures buf[start + i..start + j] == buf[start..][i..j]
    ensures start + j == |buf| ==> buf[start + i..] == buf[start..][i..]
  {
  }

  /** One more frame on the transport. */
  lemma Appended(written: seq<Frame>, f: Frame, output: bytes, wire: bytes)
    requires AllWritable(written) && Writable(f) && output == WireAll(written) && wire == Wire(f)
    ensures AllWritable(written + [f]) && output + wire == WireAll(written + [f])
  {
    WireAllLast(written, f);
  }

  /** Draining what is left of the buffer ends in `end`, whatever the transport still adds to both. */
  ghost predicate Ends(k: Config, s: Session, left: bytes, end: Link) {
    forall none: bytes :: none == [] ==> Drain(k, s, left + none) == end
  }

  lemma EndsIn(k: Config, s: Session, left: bytes, end: Link)
    ensures Ends(k, s, left, end) <==> Drain(k, s, left) == end
  {
    assert left + [] == left;
  }

  /** One turn of the parsing loop. */
  lemma EndsTurn(k: Config, s: Session, left: bytes, end: Link)
    requires !s.closing.closed && Ends(k, s, left, end)
    ensures var r := Parse(k, s, left);
      if r.raised.Some? || r.consumed == 0 then Link(r.s, left, r.raised) == end
      else Ends(k, r.s, left[r.consumed..], end)
  {
    EndsIn(k, s, left, end);
    var r := Parse(k, s, left);
    if r.raised.None? && r.consumed > 0 {
      EndsIn(k, r.s, left[r.consumed..], end);
    }
  }

  /** The same at an offset into the buffer. */
  lemma EndsTurnAt(k: Config, s: Session, buf: bytes, pos: nat, end: Link, r: Parsed)
    requires pos <= |buf| && !s.closing.closed && Ends(k, s, buf[pos..], end) && r == Parse(k, s, buf[pos..])
    ensures if r.raised.Some? || r.consumed == 0 then Link(r.s, buf[pos..], r.raised) == end
      else pos + r.consumed <= |buf| && Ends(k, r.s, buf[pos + r.consumed..], end)
  {
    EndsTurn(k, s, buf[pos..], end);
    SliceOfTail(buf, pos, r.consumed, |buf| - pos);
  }

  lemma EndsClosed(k: Config, s: Session, left: bytes, end: Link)
    requires s.closing.closed && Ends(k, s, left, end)
    ensures Link(s, left, None) == end
  {
    EndsIn(k, s, left, end);
  }

  class WebSocket {
    const config: Config
    var recvBuffer: bytes
    var fragOpcode: Option<nat>
    var fragBuffer: bytes
    var fragValidator: Validator?
    /** `_receive_queue`, with the log of what was put on it. */
    var inbox: Inbox
    /** `_pending_pong`, the answers used up from the write gate, and the frames handed to the transport. */
    var outbox: Outbox
    /** The octets written to the transport. */
    var output: bytes
    /** `_closed`, `_close_frame_sent`, `_peer_closed`, `close_code` and `close_reason`. */
    var closing: Closing
    /** The `_hb_*` fields. */
    var timer: Timer

    ghost predicate Valid()
      reads `fragOpcode, `fragBuffer, `fragValidator, `outbox, `output
    {
      && (fragOpcode.None? ==> fragBuffer == [] && fragValidator == null)
      && AllWritable(outbox.written) && output == WireAll(outbox.written)
      && (outbox.pendingPong.Some? ==> |outbox.pendingPong.value| <= CONTROL_BUDGET)
    }

    ghost function View(): Session
      reads this, fragValidator
    {
      Session(
        if fragOpcode.None? then None
        else Some(Fragment(fragOpcode.value, fragBuffer, if fragValidator == null then None
            else Some(fragValidator.View()))),
        inbox, outbox, closing, timer)
    }

    constructor (k: Config)
      ensures Valid() && config == k && recvBuffer == [] && View() == FRESH
    {
      config := k;
      recvBuffer, fragOpcode, fragBuffer, fragValidator := [], None, [], null;
      inbox, outbox, output, closing, timer := FRESH.inbox, FRESH.outbox, [], FRESH.closing, FRESH.timer;
    }

    // ---- Writing and closing ------------------------------------------------

    /** `_send_frame` */
    method SendFrame(data: bytes, opcode: nat)
      requires Valid() && Writable(Frame(opcode, data))
      modifies this`output, this`outbox
      ensures Valid() && outbox == Write(old(outbox), opcode, data)
      ensures output == old(output) + Wire(Frame(opcode, data))
    {
      var header := FrameHeader(opcode, data);
      Appended(outbox.written, Frame(opcode, data), output, header + data);
      output := output + (header + data);
      outbox := Write(outbox, opcode, data);
    }

    static method FrameHeader(opcode: nat, data: bytes) returns (header: bytes)
      requires Writable(Frame(opcode, data))
      ensures header + data == Wire(Frame(opcode, data))
    {
      var length := |data|;
      header := [128 + opcode];
      if length < 126 {
        header := header + [length];
      } else if length < 65536 {
        header := header + [126] + BigEndian(length, 2);
      } else {
        header := header + [127] + BigEndian(length, 8);
      }
      HeaderBytes(opcode, data, header);
    }

    method CancelHeartbeat()
      modifies this`timer
      ensures timer == Cancelled(old(timer))
    {
      timer := timer.(armed := false, token := None, sawInbound := false);
    }

    method WakeRawReceiver()
      modifies this`inbox
      ensures inbox == Woken(config, old(inbox))
    {
      if !(config.queueMax > 0 && |inbox.queue| >= config.queueMax) {
        inbox := inbox.(queue := inbox.queue + [Disconnected]);
      }
    }

    /** `_terminate_raw`; the recorded code is left to the caller unless `record`. */
    method TerminateRaw(code: nat, record: bool)
      requires Valid()
      modifies this
      ensures Valid() && recvBuffer == old(recvBuffer) && fragValidator == old(fragValidator)
      ensures View() == Terminate(config, old(View()), code, if record then Some(code) else old(closing.code),
        old(closing.reason))
    {
      SendStatus(code);
      MarkTerminated(if record then Some(code) else closing.code);
    }

    /** A Close frame with a status code and no reason. */
    method SendStatus(code: nat)
      requires Valid()
      modifies this`output, this`outbox
      ensures Valid() && outbox == Write(old(outbox), OP_CLOSE, BigEndian(code, 2))
    {
      SendFrame(BigEndian(code, 2), OP_CLOSE);
    }

    /** The rest of `_terminate_raw`, once the Close frame is written. */
    method MarkTerminated(code: Option<nat>)
      modifies this`timer, this`closing, this`inbox
      ensures timer == Cancelled(old(timer)) && inbox == Woken(config, old(inbox))
      ensures closing == Closing(true, true, old(closing.byPeer), code, old(closing.reason), true)
    {
      CancelHeartbeat();
      closing := closing.(code := code);
      closing := closing.(closed := true, sent := true);
      WakeRawReceiver();
      closing := closing.(dropped := true);
    }

    method CloseControl(code: nat)
      requires Valid()
      modifies this
      ensures Valid() && recvBuffer == old(recvBuffer) && fragValidator == old(fragValidator)
      ensures View() == Fail(config, old(View()), code)
    {
      TerminateRaw(code, true);
    }

    method HandleCloseFrame(payload: bytes)
      requires Valid()
      modifies this
      ensures Valid() && recvBuffer == old(recvBuffer) && fragValidator == old(fragValidator)
      ensures View() == HandleClose(config, old(View()), payload)
    {
      var n := |payload|;
      if n == 0 {
        closing := closing.(code := Some(1005));
        TerminateRaw(1000, false);
        return;
      }
      if n == 1 {
        CloseControl(1002);
        return;
      }
      var code := FromBigEndian(payload[..2]);
      LegalCodeTest(code);
      if code > 4999 || (code < 3000 && code !in ASSIGNED) {
        CloseControl(1002);
        return;
      }
      var reason := Decode(payload[2..]);
      if reason.None? {
        CloseControl(1007);
        return;
      }
      closing := closing.(code := Some(code), reason := reason.value);
      TerminateRaw(code, false);
    }

    /** `_enqueue_or_close` of a completed message; the queue does not keep its kind, the log does. */
    method EnqueueOrClose(payload: bytes, text: bool)
      requires Valid()
      modifies this
      ensures Valid() && recvBuffer == old(recvBuffer) && fragValidator == old(fragValidator)
      ensures View() == Enqueue(config, old(View()), Message(text, payload))
    {
      if config.queueMax > 0 && |inbox.queue| >= config.queueMax {
        CloseControl(1009);
      } else {
        inbox := Inbox(inbox.queue + [Data(payload)], inbox.delivered + [Message(text, payload)]);
      }
    }

    static method ClosePayload(code: nat, reason: seq<nat>) returns (payload: bytes)
      requires AllScalars(reason)
      ensures payload == BigEndian(code, 2) + Encode(reason)
    {
      payload := BigEndian(code, 2);
      if reason != [] {
        payload := payload + Encode(reason);
      }
      assert payload == BigEndian(code, 2) + Encode(reason);
    }

    /** `close`, up to the wait for the peer's reply; `false` is the raised `UnicodeEncodeError`. */
    method Close(code: int, reason: seq<nat>) returns (ok: bool)
      requires Valid()
      modifies this
      ensures Valid() && recvBuffer == old(recvBuffer)
      ensures ok <==> AllScalars(reason)
      ensures View() == if ok then CloseLocally(old(View()), SafeCode(code), Truncated(reason)) else old(View())
    {
      var clean := SanitiseClose(code, reason);
      if clean.None? { return false; }
      if closing.sent { return true; }
      closing := closing.(closed := true, sent := true);
      CancelHeartbeat();
      var payload := ClosePayload(clean.value.0, clean.value.1);
      SendFrame(payload, OP_CLOSE);
      closing := closing.(dropped := true);
      return true;
    }

    // ---- The parser ---------------------------------------------------------

    /** An opening data frame. */
    method ParseOpening(fin: bool, opcode: nat, payload: bytes) returns (ok: bool)
      requires Valid() && opcode in {OP_TEXT, OP_BINARY}
      modifies this
      ensures Valid() && recvBuffer == old(recvBuffer)
      ensures fragValidator == old(fragValidator) || fragValidator == null || fresh(fragValidator)
      ensures (View(), ok) == HandleOpening(config, old(View()), fin, opcode, payload)
    {
      if fragOpcode.Some? {
        CloseControl(1002);
        return false;
      }
      var validator: Validator? := null;
      if opcode == OP_TEXT {
        validator := new Validator();
        var fed := validator.Feed(payload);
        if !fed {
          CloseControl(1007);
          return false;
        }
      }
      if fin {
        if validator != null && !validator.Done() {
          CloseControl(1007);
          return false;
        }
        EnqueueOrClose(payload, opcode == OP_TEXT);
        return true;
      }
      fragOpcode, fragBuffer, fragValidator := Some(opcode), payload, validator;
      if |fragBuffer| > MAX_MESSAGE_SIZE {
        CloseControl(1009);
        return false;
      }
      return true;
    }

    method ParseContinuation(fin: bool, payload: bytes) returns (ok: bool)
      requires Valid()
      modifies this, fragValidator
      ensures Valid() && recvBuffer == old(recvBuffer)
      ensures fragValidator == old(fragValidator) || fragValidator == null
      ensures (View(), ok) == HandleContinuation(config, old(View()), fin, payload)
    {
      if fragOpcode.None? {
        CloseControl(1002);
        return false;
      }
      if fragValidator != null {
        var fed := fragValidator.Feed(payload);
        if !fed {
          CloseControl(1007);
          return false;
        }
      }
      fragBuffer := fragBuffer + payload;
      ok := ExtendFragment(fin);
    }

    /** What `_parse_frame` does once a continuation has been appended. */
    method ExtendFragment(fin: bool) returns (ok: bool)
      requires Valid() && fragOpcode.Some?
      modifies this
      ensures Valid() && recvBuffer == old(recvBuffer)
      ensures fragValidator == old(fragValidator) || fragValidator == null
      ensures (View(), ok) == Extended(config, old(View()), fin)
    {
      if |fragBuffer| > MAX_MESSAGE_SIZE {
        CloseControl(1009);
        return false;
      }
      if fin {
        if fragValidator != null && !fragValidator.Done() {
          CloseControl(1007);
          return false;
        }
        EnqueueOrClose(fragBuffer, fragOpcode.value == OP_TEXT);
        fragOpcode, fragBuffer, fragValidator := None, [], null;
      }
      return true;
    }

    method ParsePing(payload: bytes)
      requires Valid() && |payload| <= CONTROL_BUDGET
      modifies this
      ensures Valid() && recvBuffer == old(recvBuffer) && fragValidator == old(fragValidator)
      ensures View() == HandlePing(config, old(View()), payload)
    {
      var open := config.gate(outbox.asked);
      outbox := outbox.(asked := outbox.asked + 1);
      ghost var asked := View();
      assert Valid() && asked == old(View()).(outbox := outbox);
      if open {
        assert Writable(Frame(OP_PONG, payload));
        SendFrame(payload, OP_PONG);
      } else {
        outbox := outbox.(pendingPong := Some(payload));
        assert Valid();
      }
      assert View() == asked.(outbox := outbox);
    }

    /** What the rest of `_parse_frame` does with a whole frame. */
    method ParseWhole(fin: bool, opcode: nat, payload: bytes) returns (ok: bool)
      requires Valid() && opcode != OP_CLOSE && (IsControl(opcode) ==> |payload| <= CONTROL_BUDGET)
      modifies this, fragValidator
      ensures Valid() && recvBuffer == old(recvBuffer)
      ensures fragValidator == old(fragValidator) || fragValidator == null || fresh(fragValidator)
      ensures (View(), ok) == Handle(config, old(View()), fin, opcode, payload)
    {
      ok := true;
      if opcode == OP_PING {
        ParsePing(payload);
      } else if opcode == OP_PONG {
        if timer.token.Some? && payload == BigEndian(timer.token.value, 4) {
          timer := timer.(token := None);
        }
      } else if opcode == OP_TEXT || opcode == OP_BINARY {
        ok := ParseOpening(fin, opcode, payload);
      } else if opcode == OP_CONT {
        ok := ParseContinuation(fin, payload);
      }
    }

    /** The payload length and where it ends, once the buffer holds all of it. */
    method ReadLength(start: nat) returns (r: Option<(nat, nat)>)
      requires start + 2 <= |recvBuffer|
      ensures var front, short := recvBuffer[start..], recvBuffer[start + 1] % 128;
        if |front| < 2 + ExtendedLength(short) then r == None
        else r == Some((PayloadLength(front, short), 2 + ExtendedLength(short)))
    {
      var n := |recvBuffer| - start;
      var length: nat := recvBuffer[start + 1] % 128;
      if length == 126 {
        if n < 4 { return None; }
        SliceOfTail(recvBuffer, start, 2, 4);
        return Some((FromBigEndian(recvBuffer[start + 2..start + 4]), 4));
      }
      if length == 127 {
        if n < 10 { return None; }
        SliceOfTail(recvBuffer, start, 2, 10);
        return Some((FromBigEndian(recvBuffer[start + 2..start + 10]), 10));
      }
      return Some((length, 2));
    }

    /** The header and payload of the frame at `start`, read out of the receive buffer. */
    method ReadFrame(start: nat) returns (r: Front)
      requires start <= |recvBuffer|
      ensures r == ReadFront(recvBuffer[start..])
    {
      var n := |recvBuffer| - start;
      if n < 2 { return Incomplete; }
      var fin := recvBuffer[start] >= 128;
      var opcode := recvBuffer[start] % 16;
      var masked := recvBuffer[start + 1] >= 128;
      if recvBuffer[start] / 16 % 8 != 0 { return Refused(1002); }
      if !masked { return Refused(1002); }
      var extended := ReadLength(start);
      if extended.None? { return Incomplete; }
      var (length, offset) := extended.value;
      if length > MAX_FRAME_SIZE { return Refused(1009); }
      if opcode in {8, 9, 10} && (length > 125 || !fin) { return Refused(1002); }
      if n < offset + 4 { return Incomplete; }
      SliceOfTail(recvBuffer, start, offset, offset + 4);
      var mask := recvBuffer[start + offset..start + offset + 4];
      offset := offset + 4;
      var frameLength := offset + length;
      if n < frameLength { return Incomplete; }
      SliceOfTail(recvBuffer, start, offset, offset + length);
      var payload := recvBuffer[start + offset..start + offset + length];
      FrontWhole(recvBuffer[start..], offset, length);
      if length > 0 {
        payload := UnmaskPayload(payload, mask);
      }
      return Whole(fin, opcode, payload, frameLength);
    }

    /** `_parse_frame`; `raised` is the code of the `WebSocketDisconnect` of a Close frame. */
    method ParseFrame(start: nat) returns (consumed: nat, raised: Option<nat>)
      requires Valid() && start <= |recvBuffer|
      modifies this, fragValidator
      ensures Valid() && recvBuffer == old(recvBuffer)
      ensures fragValidator == old(fragValidator) || fragValidator == null || fresh(fragValidator)
      ensures Parsed(View(), consumed, raised) == Parse(config, old(View()), recvBuffer[start..])
    {
      ReadFrontBounds(recvBuffer[start..]);
      var front := ReadFrame(start);
      match front
      case Incomplete =>
        return 0, None;
      case Refused(code) =>
        CloseControl(code);
        return 0, None;
      case Whole(fin, opcode, payload, size) =>
        if opcode == OP_CLOSE {
          closing := closing.(byPeer := true);
          HandleCloseFrame(payload);
          return 0, Some(if closing.code.Some? && closing.code.value != 0 then closing.code.value else 1000);
        }
        var ok := ParseWhole(fin, opcode, payload);
        return if ok then size else 0, None;
    }

    /** One turn of the loop: parse at `pos`, on the way to where the draining ends. */
    method ParseTurn(pos: nat, ghost end: Link) returns (consumed: nat, raised: Option<nat>)
      requires Valid() && pos <= |recvBuffer| && !closing.closed && Ends(config, View(), recvBuffer[pos..], end)
      modifies this, fragValidator
      ensures Valid() && recvBuffer == old(recvBuffer)
      ensures fragValidator == old(fragValidator) || fragValidator == null || fresh(fragValidator)
      ensures if raised.Some? || consumed == 0 then Link(View(), recvBuffer[pos..], raised) == end
        else pos + consumed <= |recvBuffer| && Ends(config, View(), recvBuffer[pos + consumed..], end)
    {
      ghost var before := View();
      consumed, raised := ParseFrame(pos);
      EndsTurnAt(config, before, recvBuffer, pos, end, Parsed(View(), consumed, raised));
    }

    /** The parsing loop: whole frames are taken at a moving offset, which is returned. */
    method ParseFrames(ghost end: Link) returns (pos: nat, raised: Option<nat>)
      requires Valid() && Ends(config, View(), recvBuffer, end)
      modifies this, fragValidator
      ensures Valid() && recvBuffer == old(recvBuffer) && pos <= |recvBuffer|
      ensures Link(View(), recvBuffer[pos..], raised) == end
    {
      pos := 0;
      assert recvBuffer[0..] == recvBuffer;
      while !closing.closed
        invariant Valid() && recvBuffer == old(recvBuffer) && pos <= |recvBuffer|
        invariant fragValidator == old(fragValidator) || fragValidator == null || fresh(fragValidator)
        invariant Ends(config, View(), recvBuffer[pos..], end)
        decreases |recvBuffer| - pos
      {
        var consumed, r := ParseTurn(pos, end);
        if r.Some? || consumed == 0 { return pos, r; }
        pos := pos + consumed;
      }
      EndsClosed(config, View(), recvBuffer[pos..], end);
      raised := None;
    }

    /** `feed_data`: the buffer is compacted once, when the loop has ended or raised. */
    method FeedData(data: bytes) returns (raised: Option<nat>)
      requires Valid()
      modifies this, fragValidator
      ensures Valid()
      ensures Link(View(), recvBuffer, raised) == Sessions.FeedData(config, old(View()), old(recvBuffer), data)
    {
      if data == [] { return None; }
      NoteHeartbeatInbound();
      recvBuffer := recvBuffer + data;
      ghost var end := Drain(config, View(), recvBuffer);
      EndsIn(config, View(), recvBuffer, end);
      var pos;
      pos, raised := ParseFrames(end);
      recvBuffer := recvBuffer[pos..];
    }

    method NoteHeartbeatInbound()
      modifies this`timer
      ensures View() == NoteInbound(config, old(View()))
    {
      if config.heartbeat && timer.armed {
        timer := timer.(sawInbound := true);
      }
    }

    // ---- The heartbeat ------------------------------------------------------

    method StartHeartbeat()
      requires Valid()
      modifies this
      ensures Valid() && recvBuffer == old(recvBuffer)
      ensures View() == Sessions.StartHeartbeat(config, old(View()))
    {
      if !config.heartbeat || closing.closed { return; }
      if timer.armed { return; }
      timer := timer.(armed := true);
    }

    /** `_heartbeat_tick`, run by the armed timer. */
    method HeartbeatTick()
      requires Valid() && timer.armed
      modifies this
      ensures Valid() && recvBuffer == old(recvBuffer)
      ensures View() == Tick(config, old(View()))
    {
      timer := timer.(armed := false);
      if closing.closed { return; }
      if timer.sawInbound {
        timer := timer.(sawInbound := false, token := None, armed := true);
        return;
      }
      if timer.token.Some? {
        CloseHeartbeatTimeout();
        return;
      }
      SendProbe();
      timer := timer.(armed := true);
    }

    /** The probe of a silent window. */
    method SendProbe()
      requires Valid()
      modifies this
      ensures Valid() && recvBuffer == old(recvBuffer)
      ensures View() == Probe(old(View())).(timer := Probe(old(View())).timer.(armed := old(timer.armed)))
    {
      var token := timer.nextToken;
      timer := timer.(nextToken := (token + 1) % 0x1_0000_0000, token := Some(token));
      SendFrame(BigEndian(token, 4), OP_PING);
    }

    method CloseHeartbeatTimeout()
      requires Valid()
      modifies this
      ensures Valid() && recvBuffer == old(recvBuffer) && View() == TimedOut(config, old(View()))
    {
      CancelHeartbeat();
      closing := closing.(closed := true, code := Some(1006));
      WakeRawReceiver();
      closing := closing.(dropped := true);
    }

    method FlushPendingPong()
      requires Valid()
      modifies this
      ensures Valid() && recvBuffer == old(recvBuffer) && View() == FlushPong(old(View()))
    {
      var payload := outbox.pendingPong;
      outbox := outbox.(pendingPong := None);
      if payload.Some? {
        SendFrame(payload.value, OP_PONG);
      }
    }
  }
}
