/** Reassembly over every run: text is UTF-8, buffers and queue stay bounded, messages keep their order. */
module MessageSafety {
  import opened Bytes
  import opened Frames
  import opened Sessions
  import opened SessionSafety
  import opened Utf8
  import opened Wrappers

  predicate FragmentSound(f: Fragment) {
    && f.opcode in {OP_TEXT, OP_BINARY}
    && (f.validator.Some? <==> f.opcode == OP_TEXT)
    && (f.validator.Some? ==> Scan(START, f.data) == f.validator)
  }

  predicate MessageSound(m: Message) {
    (m.text ==> WellFormed(m.payload)) && |m.payload| <= MAX_MESSAGE_SIZE
  }

  /** What the queue has ever received: every delivered message in order, then at most one sentinel. */
  predicate InOrder(received: seq<Item>, inbox: Inbox, closed: bool) {
    var items := received + inbox.queue;
    || items == AsItems(inbox.delivered)
    || (closed && items == AsItems(inbox.delivered) + [Disconnected])
  }

  function AsItems(messages: seq<Message>): (r: seq<Item>)
    ensures |r| == |messages|
  {
    seq(|messages|, i requires 0 <= i < |messages| => Data(messages[i].payload))
  }

  predicate Sound(k: Config, received: seq<Item>, s: Session) {
    && (s.fragment.Some? ==> FragmentSound(s.fragment.value))
    && (s.fragment.Some? && !s.closing.closed ==> |s.fragment.value.data| <= MAX_MESSAGE_SIZE)
    && (forall i :: 0 <= i < |s.inbox.delivered| ==> MessageSound(s.inbox.delivered[i]))
    && (k.queueMax > 0 ==> |s.inbox.queue| <= k.queueMax)
    && InOrder(received, s.inbox, s.closing.closed)
  }

  /** The timer is armed only on an open connection that asked for it, and holds tokens only while armed. */
  predicate TimerSound(k: Config, s: Session) {
    && (s.timer.armed ==> k.heartbeat && !s.closing.closed)
    && (s.timer.token.Some? || s.timer.sawInbound ==> s.timer.armed)
    && (s.timer.token.Some? ==> s.timer.token.value < 0x1_0000_0000)
    && s.timer.nextToken < 0x1_0000_0000
  }

  lemma WokenInOrder(k: Config, received: seq<Item>, inbox: Inbox)
    requires InOrder(received, inbox, false)
    ensures InOrder(received, Woken(k, inbox), true)
  {
    if !Full(k, inbox) {
      assert received + (inbox.queue + [Disconnected]) == received + inbox.queue + [Disconnected];
    }
  }

  /** Refusing a frame keeps whatever fragment the refusal left behind. */
  lemma FailSound(k: Config, received: seq<Item>, s: Session, onWire: nat, code: Option<nat>, reason: seq<nat>)
    requires !s.closing.closed && InOrder(received, s.inbox, false)
    requires s.fragment.Some? ==> FragmentSound(s.fragment.value)
    requires forall i :: 0 <= i < |s.inbox.delivered| ==> MessageSound(s.inbox.delivered[i])
    requires k.queueMax > 0 ==> |s.inbox.queue| <= k.queueMax
    ensures Sound(k, received, Terminate(k, s, onWire, code, reason))
  {
    WokenInOrder(k, received, s.inbox);
  }

  lemma EnqueueSound(k: Config, received: seq<Item>, s: Session, m: Message)
    requires Sound(k, received, s) && !s.closing.closed && MessageSound(m)
    ensures Sound(k, received, Enqueue(k, s, m))
  {
    if Full(k, s.inbox) {
      FailSound(k, received, s, 1009, Some(1009), s.closing.reason);
    } else {
      var inbox := s.inbox;
      assert received + (inbox.queue + [Data(m.payload)]) == received + inbox.queue + [Data(m.payload)];
      assert AsItems(inbox.delivered + [m]) == AsItems(inbox.delivered) + [Data(m.payload)];
    }
  }

  /** Dropping the fragment once its message is queued. */
  lemma ForgetSound(k: Config, received: seq<Item>, s: Session)
    requires Sound(k, received, s)
    ensures Sound(k, received, s.(fragment := None))
  {
  }

  lemma OpeningSound(k: Config, received: seq<Item>, s: Session, fin: bool, opcode: nat, payload: bytes)
    requires Sound(k, received, s) && !s.closing.closed
    requires opcode in {OP_TEXT, OP_BINARY} && |payload| <= MAX_FRAME_SIZE
    ensures Sound(k, received, HandleOpening(k, s, fin, opcode, payload).0)
  {
    FailSound(k, received, s, 1002, Some(1002), s.closing.reason);
    FailSound(k, received, s, 1007, Some(1007), s.closing.reason);
    var text := opcode == OP_TEXT;
    ValidatorExact(payload);
    if s.fragment.None? && (text ==> WellFormed(payload)) {
      EnqueueSound(k, received, s, Message(text, payload));
    }
  }

  /** The validator of a grown fragment is where a fresh one would be after the whole of it. */
  lemma GrownSound(f: Fragment, payload: bytes, v: Option<State>)
    requires FragmentSound(f)
    requires v == if f.validator.Some? then Scan(f.validator.value, payload) else None
    requires f.validator.Some? ==> v.Some?
    ensures FragmentSound(Fragment(f.opcode, f.data + payload, v))
    ensures f.opcode == OP_TEXT && Finished(v) ==> WellFormed(f.data + payload)
  {
    ScanAppend(START, f.data, payload);
    ValidatorExact(f.data + payload);
  }

  lemma ContinuationSound(k: Config, received: seq<Item>, s: Session, fin: bool, payload: bytes)
    requires Sound(k, received, s) && !s.closing.closed
    ensures Sound(k, received, HandleContinuation(k, s, fin, payload).0)
  {
    FailSound(k, received, s, 1002, Some(1002), s.closing.reason);
    FailSound(k, received, s, 1007, Some(1007), s.closing.reason);
    if s.fragment.Some? {
      var Fragment(opcode, data, validator) := s.fragment.value;
      var v := if validator.Some? then Scan(validator.value, payload) else None;
      if validator.Some? ==> v.Some? {
        GrownSound(s.fragment.value, payload, v);
        var grown := s.(fragment := Some(Fragment(opcode, data + payload, v)));
        FailSound(k, received, grown, 1009, Some(1009), s.closing.reason);
        FailSound(k, received, grown, 1007, Some(1007), s.closing.reason);
        if |data + payload| <= MAX_MESSAGE_SIZE && Finished(v) {
          var m := Message(opcode == OP_TEXT, data + payload);
          EnqueueSound(k, received, grown, m);
          ForgetSound(k, received, Enqueue(k, grown, m));
        }
      }
    }
  }

  lemma CloseFrameSound(k: Config, received: seq<Item>, s: Session, payload: bytes)
    requires Sound(k, received, s) && !s.closing.closed
    ensures Sound(k, received, HandleClose(k, s, payload))
  {
    forall onWire, code, reason
      ensures Sound(k, received, Terminate(k, s, onWire, code, reason))
    {
      FailSound(k, received, s, onWire, code, reason);
    }
  }

  lemma ParseSound(k: Config, received: seq<Item>, s: Session, buf: bytes)
    requires Sound(k, received, s) && !s.closing.closed
    ensures Sound(k, received, Parse(k, s, buf).s)
  {
    ReadFrontBounds(buf);
    match ReadFront(buf)
    case Incomplete =>
    case Refused(code) => FailSound(k, received, s, code, Some(code), s.closing.reason);
    case Whole(fin, opcode, payload, size) =>
      if opcode == OP_CLOSE {
        CloseFrameSound(k, received, PeerClosed(s), payload);
      } else if opcode in {OP_TEXT, OP_BINARY} {
        OpeningSound(k, received, s, fin, opcode, payload);
      } else {
        ContinuationSound(k, received, s, fin, payload);
      }
  }

  /** An open connection never holds a complete frame. */
  lemma {:induction false} DrainSound(k: Config, received: seq<Item>, s: Session, buf: bytes)
    requires Sound(k, received, s)
    ensures Sound(k, received, Drain(k, s, buf).s)
    ensures !Drain(k, s, buf).s.closing.closed ==> ReadFront(Drain(k, s, buf).buffer).Incomplete?
    decreases |buf|
  {
    if !s.closing.closed {
      ParseSound(k, received, s, buf);
      var r := Parse(k, s, buf);
      if r.raised.None? && r.consumed > 0 {
        DrainSound(k, received, r.s, buf[r.consumed..]);
      } else {
        ParseStopsClosed(k, s, buf);
      }
    }
  }

  lemma ParseStopsClosed(k: Config, s: Session, buf: bytes)
    requires Parse(k, s, buf).raised.Some? || Parse(k, s, buf).consumed == 0
    ensures Parse(k, s, buf).s.closing.closed || (ReadFront(buf).Incomplete? && Parse(k, s, buf).raised.None?)
  {
    ReadFrontBounds(buf);
  }

  lemma ParseTimer(k: Config, s: Session, buf: bytes)
    requires TimerSound(k, s) && !s.closing.closed
    ensures TimerSound(k, Parse(k, s, buf).s)
  {
    match ReadFront(buf)
    case Incomplete =>
    case Refused(code) =>
    case Whole(fin, opcode, payload, size) =>
      if opcode != OP_CLOSE {
        HandleTimer(k, s, fin, opcode, payload);
      }
  }

  lemma HandleTimer(k: Config, s: Session, fin: bool, opcode: nat, payload: bytes)
    requires TimerSound(k, s) && !s.closing.closed
    ensures TimerSound(k, Handle(k, s, fin, opcode, payload).0)
  {
  }

  lemma {:induction false} DrainTimer(k: Config, s: Session, buf: bytes)
    requires TimerSound(k, s)
    ensures TimerSound(k, Drain(k, s, buf).s)
    decreases |buf|
  {
    if !s.closing.closed {
      ParseTimer(k, s, buf);
      var r := Parse(k, s, buf);
      if r.raised.None? && r.consumed > 0 {
        DrainTimer(k, r.s, buf[r.consumed..]);
      }
    }
  }

  predicate WorldSound(k: Config, w: World) {
    && Sound(k, w.received, w.s)
    && TimerSound(k, w.s)
    && (!w.s.closing.closed ==> ReadFront(w.buffer).Incomplete?)
  }

  lemma FeedSound(k: Config, w: World, data: bytes)
    requires WorldSound(k, w)
    ensures WorldSound(k, Next(k, w, Feed(data)))
  {
    var noted := NoteInbound(k, w.s);
    DrainSound(k, w.received, noted, w.buffer + data);
    DrainTimer(k, noted, w.buffer + data);
  }

  /** Handing out an item takes it from the front of what was queued. */
  lemma HandSound(k: Config, w: World)
    requires WorldSound(k, w) && w.s.inbox.queue != []
    ensures WorldSound(k, Hand(w))
    ensures Hand(w).received + Hand(w).s.inbox.queue == w.received + w.s.inbox.queue
  {
    var queue := w.s.inbox.queue;
    assert w.received + [queue[0]] + queue[1..] == w.received + queue;
  }

  lemma ReceiveSound(k: Config, w: World)
    requires WorldSound(k, w)
    ensures WorldSound(k, Next(k, w, Receive)) && WorldSound(k, Next(k, w, Resume))
  {
    if w.s.inbox.queue != [] {
      HandSound(k, w);
    }
  }

  lemma TimerSteps(k: Config, w: World)
    requires WorldSound(k, w)
    ensures WorldSound(k, Next(k, w, TimerFires)) && WorldSound(k, Next(k, w, StartTimer))
  {
    if !w.s.closing.closed {
      WokenInOrder(k, w.received, w.s.inbox);
    }
  }

  lemma StepSound(k: Config, w: World, a: Act)
    requires WorldSound(k, w)
    ensures WorldSound(k, Next(k, w, a))
  {
    match a
    case Feed(data) => FeedSound(k, w, data);
    case TimerFires => TimerSteps(k, w);
    case StartTimer => TimerSteps(k, w);
    case Close(code, reason) =>
    case Flush =>
    case Send(text, payload) =>
    case Receive => ReceiveSound(k, w);
    case Resume => ReceiveSound(k, w);
    case GiveUp =>
  }

  lemma {:induction false} RunSound(k: Config, acts: seq<Act>)
    ensures WorldSound(k, Run(k, acts))
  {
    if acts == [] {
      assert AsItems(FRESH.inbox.delivered) == [];
    } else {
      RunSound(k, acts[..|acts| - 1]);
      StepSound(k, Run(k, acts[..|acts| - 1]), acts[|acts| - 1]);
    }
  }

  /** What an open connection may hold back, and what a handler may ever be given. */
  lemma BoundsAndText(k: Config, acts: seq<Act>)
    ensures var w: World := Run(k, acts);
      && (!w.s.closing.closed ==> |w.buffer| < 14 + MAX_FRAME_SIZE)
      && (!w.s.closing.closed && w.s.fragment.Some? ==> |w.s.fragment.value.data| <= MAX_MESSAGE_SIZE)
      && (k.queueMax > 0 ==> |w.s.inbox.queue| <= k.queueMax)
      && (forall i :: 0 <= i < |w.s.inbox.delivered| && w.s.inbox.delivered[i].text ==>
           WellFormed(w.s.inbox.delivered[i].payload))
      && InOrder(w.received, w.s.inbox, w.s.closing.closed)
  {
    RunSound(k, acts);
    ReadFrontBounds(Run(k, acts).buffer);
  }

  /** Closing is final: nothing more is delivered, and the recorded code stays. */
  lemma ClosedIsFinal(k: Config, w: World, a: Act)
    requires w.s.closing.closed
    ensures var v: World := Next(k, w, a);
      v.s.closing.closed && v.s.inbox.delivered == w.s.inbox.delivered && v.s.closing.code == w.s.closing.code
  {
  }

  // ---- What reaches the handler ---------------------------------------------

  /** On a closed connection an item is handed out exactly when a receiver parked before is resumed and finds one. */
  lemma ClosedHandsOut(k: Config, w: World, a: Act)
    requires w.s.closing.closed
    ensures Next(k, w, a).received != w.received <==> a.Resume? && w.parked > 0 && w.s.inbox.queue != []
    ensures Next(k, w, a).received + Next(k, w, a).s.inbox.queue == w.received + w.s.inbox.queue
    ensures |Next(k, w, a).received| + Next(k, w, a).parked <= |w.received| + w.parked
  {
    if a.Resume? && w.parked > 0 && w.s.inbox.queue != [] {
      var queue := w.s.inbox.queue;
      assert |Next(k, w, a).received| == |w.received| + 1;
      assert w.received + [queue[0]] + queue[1..] == w.received + queue;
    }
  }

  /**
    * From its closing on, a connection hands out a prefix of what was then queued, no longer than the number of
    * receivers parked at that moment. With none parked, whatever was still queued is never received.
    */
  lemma {:induction false} HandedAfterClosing(k: Config, w: World, acts: seq<Act>)
    requires w.s.closing.closed
    ensures var v := After(k, w, acts);
      && v.s.closing.closed
      && v.received + v.s.inbox.queue == w.received + w.s.inbox.queue
      && |w.received| <= |v.received| && |v.received| + v.parked <= |w.received| + w.parked
  {
    if acts != [] {
      var front, last := acts[..|acts| - 1], acts[|acts| - 1];
      HandedAfterClosing(k, w, front);
      ClosedIsFinal(k, After(k, w, front), last);
      ClosedHandsOut(k, After(k, w, front), last);
    }
  }

  /** A masked, empty text message, and a masked Close frame without a status. */
  const EMPTY_TEXT: bytes := [0x81, 0x80, 0, 0, 0, 0]
  const EMPTY_CLOSE: bytes := [0x88, 0x80, 0, 0, 0, 0]

  /** The message is queued, and the Close behind it closes the connection. */
  lemma TextThenClose(k: Config, data: bytes)
    requires !k.heartbeat && k.queueMax <= 0 && data == EMPTY_TEXT + EMPTY_CLOSE
    ensures var l := FeedData(k, FRESH, [], data);
      l.s.closing.closed && l.s.inbox == Inbox([Data([]), Disconnected], [Message(true, [])])
  {
    assert [] + data == data && data[6..] == EMPTY_CLOSE;
    assert ReadFront(EMPTY_TEXT) == Whole(true, OP_TEXT, [], 6);
    ReadFrontStable(EMPTY_TEXT, EMPTY_CLOSE);
    assert ReadFront(EMPTY_CLOSE) == Whole(true, OP_CLOSE, [], 6);
    var taken := FRESH.(inbox := Inbox([Data([])], [Message(true, [])]));
    assert Scan(START, []) == Some(START);
    assert Enqueue(k, FRESH, Message(true, [])) == taken;
    assert HandleOpening(k, FRESH, true, OP_TEXT, []) == (taken, true);
    assert Handle(k, FRESH, true, OP_TEXT, []) == (taken, true);
    assert Parse(k, FRESH, data) == Parsed(taken, 6, None);
    assert Drain(k, FRESH, data) == Drain(k, taken, EMPTY_CLOSE);
    var closed := HandleClose(k, PeerClosed(taken), []);
    assert Parse(k, taken, EMPTY_CLOSE) == Parsed(closed, 0, Some(1005));
    assert Drain(k, taken, EMPTY_CLOSE).s == closed;
  }

  /** A message arriving in one read with the peer's Close, and no receiver parked: queued, and never received. */
  lemma QueuedButNeverReceived(acts: seq<Act>)
    ensures var k := Config(false, 0, n => true);
      var w: World := Run(k, [Feed(EMPTY_TEXT + EMPTY_CLOSE)]);
      w.s.inbox.delivered == [Message(true, [])] && After(k, w, acts).received == []
  {
    var k := Config(false, 0, n => true);
    var data := EMPTY_TEXT + EMPTY_CLOSE;
    FirstAct(k, Feed(data));
    TextThenClose(k, data);
    HandedAfterClosing(k, Run(k, [Feed(data)]), acts);
  }
}
