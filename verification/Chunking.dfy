/** How the transport cuts the byte stream makes no difference to a connection. */
module Chunking {
  import opened Bytes
  import opened Frames
  import opened Sessions
  import opened Utf8
  import opened Wrappers

  lemma ParseStable(k: Config, s: Session, x: bytes, y: bytes)
    ensures !ReadFront(x).Incomplete? ==> Parse(k, s, x + y) == Parse(k, s, x)
    ensures ReadFront(x).Incomplete? ==> Parse(k, s, x) == Parsed(s, 0, None)
  {
    if !ReadFront(x).Incomplete? {
      ReadFrontStable(x, y);
    }
  }

  /** The timer is off, or nothing about it changed. */
  predicate TimerKept(s: Session, t: Session) {
    t.timer.armed ==> s.timer.armed && t.timer.sawInbound == s.timer.sawInbound
  }

  lemma OpeningSteps(k: Config, s: Session, fin: bool, opcode: nat, payload: bytes)
    ensures var (c, consumed) := HandleOpening(k, s, fin, opcode, payload);
      TimerKept(s, c) && (!consumed ==> c.closing.closed)
  {
  }

  lemma ContinuationSteps(k: Config, s: Session, fin: bool, payload: bytes)
    ensures var (c, consumed) := HandleContinuation(k, s, fin, payload);
      TimerKept(s, c) && (!consumed ==> c.closing.closed)
  {
  }

  lemma CloseSteps(k: Config, s: Session, payload: bytes)
    ensures TimerKept(s, HandleClose(k, s, payload)) && HandleClose(k, s, payload).closing.closed
  {
  }

  /** A parse that neither raised nor consumed anything closed the connection, unless the frame is incomplete. */
  lemma ParseSteps(k: Config, s: Session, x: bytes)
    ensures TimerKept(s, Parse(k, s, x).s)
    ensures !ReadFront(x).Incomplete? && (Parse(k, s, x).raised.Some? || Parse(k, s, x).consumed == 0)
      ==> Parse(k, s, x).s.closing.closed
  {
    match ReadFront(x)
    case Incomplete =>
    case Refused(code) =>
    case Whole(fin, opcode, payload, size) =>
      ReadFrontBounds(x);
      OpeningSteps(k, s, fin, opcode, payload);
      ContinuationSteps(k, s, fin, payload);
      CloseSteps(k, PeerClosed(s), payload);
  }

  /** Draining `x` and then the rest is draining it all at once. */
  lemma {:induction false} DrainSplit(k: Config, s: Session, x: bytes, y: bytes)
    ensures var first := Drain(k, s, x);
      var then_ := Drain(k, first.s, first.buffer + y);
      Drain(k, s, x + y) == if first.raised.Some? then then_.(raised := first.raised) else then_
    decreases |x|
  {
    if !s.closing.closed {
      ParseStable(k, s, x, y);
      var r := Parse(k, s, x);
      if ReadFront(x).Whole? && r.raised.None? && r.consumed > 0 {
        assert (x + y)[r.consumed..] == x[r.consumed..] + y;
        DrainSplit(k, r.s, x[r.consumed..], y);
      } else if !ReadFront(x).Incomplete? {
        ParseSteps(k, s, x);
      }
    }
  }

  /** No further octet would change the inbound flag. */
  predicate Noted(k: Config, s: Session) {
    NoteInbound(k, s) == s
  }

  lemma {:induction false} DrainNoted(k: Config, s: Session, x: bytes)
    requires Noted(k, s)
    ensures Noted(k, Drain(k, s, x).s)
    decreases |x|
  {
    if !s.closing.closed {
      ParseSteps(k, s, x);
      var r := Parse(k, s, x);
      if r.raised.None? && r.consumed > 0 {
        DrainNoted(k, r.s, x[r.consumed..]);
      }
    }
  }

  lemma FeedTwice(k: Config, s: Session, buffer: bytes, x: bytes, y: bytes)
    ensures var first := FeedData(k, s, buffer, x);
      var then_ := FeedData(k, first.s, first.buffer, y);
      FeedData(k, s, buffer, x + y) == if first.raised.Some? then then_.(raised := first.raised) else then_
  {
    if x == [] {
      assert x + y == y;
    } else if y == [] {
      assert x + y == x;
    } else {
      var n := NoteInbound(k, s);
      assert buffer + (x + y) == buffer + x + y;
      DrainSplit(k, n, buffer + x, y);
      DrainNoted(k, n, buffer + x);
    }
  }

  /** One `feed_data` per chunk, with nothing dequeued in between; the first disconnect raised is kept. */
  function FeedAll(k: Config, s: Session, buffer: bytes, chunks: seq<bytes>): Link {
    if chunks == [] then Link(s, buffer, None)
    else
      var before := FeedAll(k, s, buffer, chunks[..|chunks| - 1]);
      var after := FeedData(k, before.s, before.buffer, chunks[|chunks| - 1]);
      if before.raised.Some? then after.(raised := before.raised) else after
  }

  /** Every cutting of a byte string has the effect of feeding it whole. */
  lemma {:induction false} ChunkingInvariance(k: Config, s: Session, buffer: bytes, chunks: seq<bytes>)
    ensures FeedAll(k, s, buffer, chunks) == FeedData(k, s, buffer, Concat(chunks))
  {
    if chunks != [] {
      var n := |chunks| - 1;
      ChunkingInvariance(k, s, buffer, chunks[..n]);
      FeedTwice(k, s, buffer, Concat(chunks[..n]), chunks[n]);
    }
  }
}
