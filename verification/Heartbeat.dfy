/** Liveness probing: who is dropped, and how soon. */
module Heartbeat {
  import opened Bytes
  import opened Frames
  import opened MessageSafety
  import opened Sessions
  import opened SessionSafety
  import opened Wrappers

  predicate Heard(a: Act) {
    a.Feed? && a.data != []
  }

  /** No timer fires: the acts between two ticks. */
  predicate OneWindow(acts: seq<Act>) {
    TimerFires !in acts
  }

  predicate Silent(acts: seq<Act>) {
    forall i :: 0 <= i < |acts| ==> !Heard(acts[i])
  }

  predicate Watched(s: Session) {
    !s.closing.closed && s.timer.armed
  }

  /** From `s` to `t` within a window: still watched, no new probe, and inbound traffic is not forgotten. */
  predicate Within(s: Session, t: Session) {
    && Watched(t)
    && (t.timer.token.Some? ==> t.timer.token == s.timer.token)
    && (s.timer.sawInbound ==> t.timer.sawInbound)
  }

  lemma ParseWithin(k: Config, s: Session, buf: bytes)
    requires Watched(s) && !Parse(k, s, buf).s.closing.closed
    ensures Within(s, Parse(k, s, buf).s)
  {
    match ReadFront(buf)
    case Incomplete =>
    case Refused(code) =>
    case Whole(fin, opcode, payload, size) =>
      if opcode != OP_CLOSE {
        HandleWithin(k, s, fin, opcode, payload);
      }
  }

  lemma HandleWithin(k: Config, s: Session, fin: bool, opcode: nat, payload: bytes)
    requires Watched(s) && !Handle(k, s, fin, opcode, payload).0.closing.closed
    ensures Within(s, Handle(k, s, fin, opcode, payload).0)
  {
    if opcode == OP_TEXT || opcode == OP_BINARY {
      assert HandleOpening(k, s, fin, opcode, payload).0.timer == s.timer;
    } else if opcode == OP_CONT {
      assert HandleContinuation(k, s, fin, payload).0.timer == s.timer;
    }
  }

  lemma {:induction false} DrainWithin(k: Config, s: Session, buf: bytes)
    requires Watched(s) && !Drain(k, s, buf).s.closing.closed
    ensures Within(s, Drain(k, s, buf).s)
    decreases |buf|
  {
    var r := Parse(k, s, buf);
    if r.raised.None? && r.consumed > 0 {
      ParseWithin(k, s, buf);
      DrainWithin(k, r.s, buf[r.consumed..]);
    } else {
      ParseWithin(k, s, buf);
    }
  }

  /** One act of a window on a connection that stays open. */
  lemma ActWithin(k: Config, w: World, a: Act)
    requires WorldSound(k, w) && Watched(w.s) && a != TimerFires && !Next(k, w, a).s.closing.closed
    ensures Within(w.s, Next(k, w, a).s)
    ensures Heard(a) ==> Next(k, w, a).s.timer.sawInbound
    ensures !Heard(a) ==> Next(k, w, a).s.timer == w.s.timer
  {
    if Heard(a) {
      DrainWithin(k, NoteInbound(k, w.s), w.buffer + a.data);
    }
  }

  lemma {:induction false} WindowWithin(k: Config, w: World, acts: seq<Act>)
    requires WorldSound(k, w) && Watched(w.s) && OneWindow(acts) && !After(k, w, acts).s.closing.closed
    ensures WorldSound(k, After(k, w, acts)) && Within(w.s, After(k, w, acts).s)
    ensures !Silent(acts) ==> After(k, w, acts).s.timer.sawInbound
    ensures Silent(acts) ==> After(k, w, acts).s.timer == w.s.timer
  {
    if acts != [] {
      var front, last := acts[..|acts| - 1], acts[|acts| - 1];
      var v := After(k, w, front);
      assert last in acts;
      if v.s.closing.closed {
        ClosedIsFinal(k, v, last);
      } else {
        WindowWithin(k, w, front);
        ActWithin(k, v, last);
        StepSound(k, v, last);
        if Silent(acts) {
          assert forall i :: 0 <= i < |front| ==> front[i] == acts[i];
        } else if Heard(last) {
        } else {
          var i :| 0 <= i < |acts| && Heard(acts[i]);
          assert front[i] == acts[i];
        }
      }
    }
  }

  /** What one tick may do to a watched connection. */
  lemma TickCases(k: Config, s: Session)
    requires Watched(s)
    ensures var t := Tick(k, s);
      && (t.closing.closed <==> !s.timer.sawInbound && s.timer.token.Some?)
      && (t.closing.closed ==> t.closing.code == Some(1006) && t.outbox == s.outbox && t.closing.sent == s.closing.sent)
      && (!t.closing.closed ==> Watched(t) && !t.timer.sawInbound && (t.timer.token.None? || t == Probe(s)))
  {
  }

  /**
    * A tick drops the peer only when the tick before it wrote a probe and not one octet arrived
    * in between; it records 1006 and writes nothing.
    */
  lemma DropNeedsSilentWindow(k: Config, w: World, window: seq<Act>)
    requires WorldSound(k, w) && Watched(w.s) && OneWindow(window)
    requires var v := After(k, Next(k, w, TimerFires), window);
      !v.s.closing.closed && Next(k, v, TimerFires).s.closing.closed
    ensures Next(k, w, TimerFires).s == Probe(w.s) && Silent(window)
    ensures var v := After(k, Next(k, w, TimerFires), window);
      Next(k, v, TimerFires).s.closing.code == Some(1006) && Next(k, v, TimerFires).s.outbox == v.s.outbox
  {
    var first := Next(k, w, TimerFires);
    TickCases(k, w.s);
    StepSound(k, w, TimerFires);
    if first.s.closing.closed {
      StaysClosed(k, first, window);
    } else {
      WindowWithin(k, first, window);
      TickCases(k, After(k, first, window).s);
    }
  }

  lemma {:induction false} StaysClosed(k: Config, w: World, acts: seq<Act>)
    requires w.s.closing.closed
    ensures After(k, w, acts).s.closing.closed
  {
    if acts != [] {
      StaysClosed(k, w, acts[..|acts| - 1]);
      ClosedIsFinal(k, After(k, w, acts[..|acts| - 1]), acts[|acts| - 1]);
    }
  }

  /** Before its first tick a connection has no probe outstanding. */
  lemma {:induction false} NoProbeYet(k: Config, acts: seq<Act>)
    requires OneWindow(acts)
    ensures Run(k, acts).s.timer.token == None
  {
    if acts != [] {
      var front, last := acts[..|acts| - 1], acts[|acts| - 1];
      assert last in acts;
      NoProbeYet(k, front);
      TokenKept(k, Run(k, front), last);
    }
  }

  /** Only a tick sets a probe. */
  lemma TokenKept(k: Config, w: World, a: Act)
    requires a != TimerFires && w.s.timer.token == None
    ensures Next(k, w, a).s.timer.token == None
  {
    if a.Feed? {
      DrainToken(k, NoteInbound(k, w.s), w.buffer + a.data);
    }
  }

  lemma ParseToken(k: Config, s: Session, buf: bytes)
    requires s.timer.token == None
    ensures Parse(k, s, buf).s.timer.token == None
  {
  }

  lemma {:induction false} DrainToken(k: Config, s: Session, buf: bytes)
    requires s.timer.token == None
    ensures Drain(k, s, buf).s.timer.token == None
    decreases |buf|
  {
    if !s.closing.closed {
      ParseToken(k, s, buf);
      var r := Parse(k, s, buf);
      if r.raised.None? && r.consumed > 0 {
        DrainToken(k, r.s, buf[r.consumed..]);
      }
    }
  }

  lemma AfterLast(k: Config, w: World, acts: seq<Act>, before: World, a: Act)
    requires After(k, w, acts) == before
    ensures After(k, w, acts + [a]) == Next(k, before, a)
  {
    assert (acts + [a])[..|acts|] == acts;
  }

  lemma {:induction false} AfterSplit(k: Config, w: World, a: seq<Act>, b: seq<Act>, end: World)
    requires After(k, After(k, w, a), b) == end
    ensures After(k, w, a + b) == end
    decreases |b|
  {
    if b == [] {
      assert a + b == a;
    } else {
      var front, last := b[..|b| - 1], b[|b| - 1];
      var before := After(k, After(k, w, a), front);
      AfterSplit(k, w, a, front, before);
      AfterLast(k, w, a + front, before, last);
      assert a + b == a + front + [last];
    }
  }

  lemma {:induction false} TokenStaysNone(k: Config, w: World, acts: seq<Act>)
    requires OneWindow(acts) && w.s.timer.token == None
    ensures After(k, w, acts).s.timer.token == None
  {
    if acts != [] {
      assert acts[|acts| - 1] in acts;
      TokenStaysNone(k, w, acts[..|acts| - 1]);
      TokenKept(k, After(k, w, acts[..|acts| - 1]), acts[|acts| - 1]);
    }
  }

  function LastTick(acts: seq<Act>): (i: nat)
    requires TimerFires in acts
    ensures i < |acts| && acts[i] == TimerFires && OneWindow(acts[i + 1..])
  {
    if acts[|acts| - 1] == TimerFires then |acts| - 1
    else
      var i := LastTick(acts[..|acts| - 1]);
      assert acts[i + 1..] == acts[..|acts| - 1][i + 1..] + [acts[|acts| - 1]];
      i
  }

  /**
    * In every run: a tick that drops the peer is not the first one. The tick before it wrote a probe, and not one
    * octet arrived since.
    */
  lemma DropInAnyRun(k: Config, acts: seq<Act>) returns (i: nat)
    requires !Run(k, acts).s.closing.closed && Next(k, Run(k, acts), TimerFires).s.closing.closed
    ensures i < |acts| && acts[i] == TimerFires && OneWindow(acts[i + 1..]) && Silent(acts[i + 1..])
    ensures Run(k, acts[..i + 1]).s == Probe(Run(k, acts[..i]).s)
  {
    RunSound(k, acts);
    if TimerFires !in acts {
      NoProbeYet(k, acts);
      TickCases(k, Run(k, acts).s);
    }
    i := LastTick(acts);
    var w, window := Run(k, acts[..i]), acts[i + 1..];
    var first := Next(k, w, TimerFires);
    assert acts[..i + 1][..i] == acts[..i];
    assert Run(k, acts[..i + 1]) == first;
    assert acts == acts[..i + 1] + window;
    AfterSplit(k, NEW, acts[..i + 1], window, After(k, first, window));
    RunSound(k, acts[..i]);
    if Watched(w.s) {
      DropNeedsSilentWindow(k, w, window);
    } else {
      IdleTick(k, w.s);
      TokenStaysNone(k, first, window);
      TickCases(k, Run(k, acts).s);
    }
  }

  /** A tick that finds nothing to watch leaves no probe behind. */
  lemma IdleTick(k: Config, s: Session)
    requires TimerSound(k, s) && !Watched(s)
    ensures Tick(k, s).timer.token == None
  {
  }

  /** A tick and the silent window behind it. */
  function Window(k: Config, w: World, window: seq<Act>): World {
    After(k, Next(k, w, TimerFires), window)
  }

  /** The window leaves the timer as the tick set it, unless the connection closed. */
  lemma SilentWindow(k: Config, w: World, window: seq<Act>)
    requires WorldSound(k, w) && Watched(w.s) && OneWindow(window) && Silent(window)
    requires !Window(k, w, window).s.closing.closed
    ensures WorldSound(k, Window(k, w, window)) && Watched(Window(k, w, window).s)
    ensures Window(k, w, window).s.timer == Tick(k, w.s).timer
  {
    var first := Next(k, w, TimerFires);
    StepSound(k, w, TimerFires);
    TickCases(k, w.s);
    if first.s.closing.closed {
      StaysClosed(k, first, window);
    } else {
      WindowWithin(k, first, window);
    }
  }

  /** A peer that has gone silent for good is dropped by the third tick. */
  lemma SilentPeerDropped(k: Config, w: World, window1: seq<Act>, window2: seq<Act>)
    requires WorldSound(k, w) && Watched(w.s)
    requires OneWindow(window1) && Silent(window1) && OneWindow(window2) && Silent(window2)
    ensures Next(k, Window(k, Window(k, w, window1), window2), TimerFires).s.closing.closed
  {
    var w1 := Window(k, w, window1);
    if w1.s.closing.closed {
      ClosedIsFinal(k, w1, TimerFires);
      StaysClosed(k, Next(k, w1, TimerFires), window2);
    } else {
      SilentWindow(k, w, window1);
      TickCases(k, w.s);
      var w2 := Window(k, w1, window2);
      if !w2.s.closing.closed {
        SilentWindow(k, w1, window2);
        TickCases(k, w1.s);
        TickCases(k, w2.s);
      }
    }
    var w2 := Window(k, w1, window2);
    if w2.s.closing.closed {
      ClosedIsFinal(k, w2, TimerFires);
    }
  }
}
