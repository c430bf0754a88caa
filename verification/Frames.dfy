/** The frame layout of section 5.2 of RFC 6455, in both directions. */
module Frames {
  import opened Bytes
  import opened Unmask
  import opened Wrappers

  const MAX_FRAME_SIZE: nat := 16777216
  const MAX_MESSAGE_SIZE: nat := 16777216
  const CONTROL_BUDGET: nat := 125

  const OP_CONT: nat := 0
  const OP_TEXT: nat := 1
  const OP_BINARY: nat := 2
  const OP_CLOSE: nat := 8
  const OP_PING: nat := 9
  const OP_PONG: nat := 10

  predicate IsControl(opcode: nat) {
    opcode in {OP_CLOSE, OP_PING, OP_PONG}
  }

  // ---- Reading what a client sent -------------------------------------------

  /** What the front of the receive buffer holds. */
  datatype Front =
    | Incomplete
    | Refused(code: nat)
    | Whole(fin: bool, opcode: nat, payload: bytes, size: nat)

  function ExtendedLength(short: nat): nat {
    if short == 126 then 2 else if short == 127 then 8 else 0
  }

  function PayloadLength(s: bytes, short: nat): nat
    requires |s| >= 2 + ExtendedLength(short)
  {
    if ExtendedLength(short) == 0 then short else FromBigEndian(s[2..2 + ExtendedLength(short)])
  }

  /** The checks of `_parse_frame` in their order, up to the unmasked payload. */
  function ReadFront(s: bytes): Front {
    if |s| < 2 then Incomplete
    else if s[0] / 16 % 8 != 0 then Refused(1002)
    else if s[1] < 128 then Refused(1002)
    else
      var fin, opcode, short := s[0] >= 128, s[0] % 16, s[1] % 128;
      if |s| < 2 + ExtendedLength(short) then Incomplete
      else
        var start := 2 + ExtendedLength(short) + 4;
        var length := PayloadLength(s, short);
        if length > MAX_FRAME_SIZE then Refused(1009)
        else if IsControl(opcode) && (length > CONTROL_BUDGET || !fin) then Refused(1002)
        else if |s| < start + length then Incomplete
        else Whole(fin, opcode, Unmasked(s[start..start + length], s[start - 4..start]), start + length)
  }

  lemma FrontWhole(s: bytes, start: nat, length: nat)
    requires 2 <= |s| && start + length <= |s| && s[0] / 16 % 8 == 0 && s[1] >= 128
    requires start == 2 + ExtendedLength(s[1] % 128) + 4 && length == PayloadLength(s, s[1] % 128) <= MAX_FRAME_SIZE
    requires IsControl(s[0] % 16) ==> length <= CONTROL_BUDGET && s[0] >= 128
    ensures ReadFront(s)
      == Whole(s[0] >= 128, s[0] % 16, Unmasked(s[start..start + length], s[start - 4..start]), start + length)
  {
  }

  /** A verdict on the front of the buffer does not depend on what follows. */
  lemma ReadFrontStable(s: bytes, t: bytes)
    requires !ReadFront(s).Incomplete?
    ensures ReadFront(s + t) == ReadFront(s)
  {
    if s[0] / 16 % 8 == 0 && s[1] >= 128 {
      var short := s[1] % 128;
      var start := 2 + ExtendedLength(short) + 4;
      assert (s + t)[2..2 + ExtendedLength(short)] == s[2..2 + ExtendedLength(short)];
      if ReadFront(s).Whole? {
        var end := start + PayloadLength(s, short);
        assert (s + t)[start..end] == s[start..end];
        assert (s + t)[start - 4..start] == s[start - 4..start];
      }
    }
  }

  lemma ReadFrontBounds(s: bytes)
    ensures ReadFront(s).Incomplete? ==> |s| < 14 + MAX_FRAME_SIZE
    ensures ReadFront(s).Whole? ==> 0 < ReadFront(s).size <= |s| && |ReadFront(s).payload| <= MAX_FRAME_SIZE
    ensures ReadFront(s).Whole? && IsControl(ReadFront(s).opcode) ==>
      |ReadFront(s).payload| <= CONTROL_BUDGET && ReadFront(s).fin
    ensures ReadFront(s).Refused? ==> ReadFront(s).code in {1002, 1009}
  {
  }

  // ---- Writing --------------------------------------------------------------

  /** The length field, with `flag` (0 or 128) in the mask bit. */
  function LengthField(n: nat, flag: nat): (s: bytes)
    requires n < 0x1_0000_0000_0000_0000 && flag in {0, 128}
    ensures s != [] && |s| == 1 + ExtendedLength(s[0] % 128) && flag <= s[0] < flag + 128
  {
    if n < 126 then [n + flag]
    else if n < 65536 then [126 + flag] + BigEndian(n, 2)
    else [127 + flag] + BigEndian(n, 8)
  }

  lemma WidthBounds()
    ensures Power256(2) == 65536 && Power256(8) == 0x1_0000_0000_0000_0000
  {
    assert Power256(4) == 0x1_0000_0000;
  }

  lemma LengthReads(n: nat, flag: nat, head: byte, rest: bytes)
    requires n < 0x1_0000_0000_0000_0000 && flag in {0, 128}
    ensures var s := [head] + LengthField(n, flag) + rest;
      var short := s[1] % 128;
      |s| >= 2 + ExtendedLength(short) && PayloadLength(s, short) == n
  {
    WidthBounds();
    var field := LengthField(n, flag);
    var s := [head] + field + rest;
    if n >= 126 {
      var w := if n < 65536 then 2 else 8;
      BigEndianRoundTrip(n, w);
      assert s[2..2 + w] == field[1..] == BigEndian(n, w);
    }
  }

  lemma Cut(a: bytes, b: bytes, c: bytes)
    ensures (a + b + c)[|a|..|a| + |b|] == b
  {
  }

  /** A frame as a client sends it. */
  datatype ClientFrame = ClientFrame(fin: bool, opcode: nat, payload: bytes, mask: bytes)

  predicate Sendable(f: ClientFrame) {
    && f.opcode < 16 && |f.mask| == 4
    && |f.payload| <= MAX_FRAME_SIZE
    && (IsControl(f.opcode) ==> |f.payload| <= CONTROL_BUDGET && f.fin)
  }

  function ClientHead(f: ClientFrame): (s: bytes)
    requires Sendable(f)
  {
    [(if f.fin then 128 else 0) + f.opcode] + LengthField(|f.payload|, 128) + f.mask
  }

  function ClientWire(f: ClientFrame): (s: bytes)
    requires Sendable(f)
  {
    ClientHead(f) + Unmasked(f.payload, f.mask)
  }

  /** Where the key and the masked payload lie. */
  lemma ClientSlices(head: byte, field: bytes, mask: bytes, masked: bytes, rest: bytes)
    ensures var s := [head] + field + mask + masked + rest;
      var start := 1 + |field| + |mask|;
      s[start - |mask|..start] == mask && s[start..start + |masked|] == masked
    ensures [head] + field + mask + masked + rest == [head] + field + (mask + masked + rest)
  {
    var s := [head] + field + mask + masked + rest;
    assert s == [head] + field + mask + (masked + rest);
    Cut([head] + field, mask, masked + rest);
    Cut([head] + field + mask, masked, rest);
  }

  lemma ClientHeader(n: nat, head: byte, field: bytes, s: bytes, rest: bytes)
    requires n < 0x1_0000_0000_0000_0000 && field == LengthField(n, 128) && s == [head] + field + rest
    ensures s[0] == head && s[1] >= 128 && 1 + |field| == 2 + ExtendedLength(s[1] % 128) <= |s|
    ensures PayloadLength(s, s[1] % 128) == n
  {
    LengthReads(n, 128, head, rest);
    assert s[1] == field[0];
  }

  /** The parser reads back every frame a conforming client may send. */
  lemma ClientFrameReads(f: ClientFrame, rest: bytes)
    requires Sendable(f)
    ensures ReadFront(ClientWire(f) + rest) == Whole(f.fin, f.opcode, f.payload, |ClientWire(f)|)
  {
    var field, masked := LengthField(|f.payload|, 128), Unmasked(f.payload, f.mask);
    var head: byte := (if f.fin then 128 else 0) + f.opcode;
    var s := ClientWire(f) + rest;
    var start := 1 + |field| + 4;
    assert s == [head] + field + f.mask + masked + rest;
    ClientSlices(head, field, f.mask, masked, rest);
    ClientHeader(|masked|, head, field, s, f.mask + masked + rest);
    UnmaskInvolution(f.payload, f.mask);
    FrontWhole(s, start, |masked|);
  }

  /** A frame as the server sends it (`_send_frame`): final and unmasked. */
  datatype Frame = Frame(opcode: nat, payload: bytes)

  predicate Writable(f: Frame) {
    f.opcode < 16 && |f.payload| < 0x1_0000_0000_0000_0000
  }

  function Wire(f: Frame): bytes
    requires Writable(f)
  {
    [128 + f.opcode] + LengthField(|f.payload|, 0) + f.payload
  }

  /** How a client takes one unmasked, final frame off the stream. */
  function ReadServer(s: bytes): Option<(Frame, bytes)> {
    if |s| < 2 || s[1] >= 128 || |s| < 2 + ExtendedLength(s[1]) then None
    else
      var start, length := 2 + ExtendedLength(s[1]), PayloadLength(s, s[1]);
      if |s| < start + length || s[0] < 128 || s[0] / 16 % 8 != 0 then None
      else Some((Frame(s[0] % 16, s[start..start + length]), s[start + length..]))
  }

  lemma ServerFrameReads(f: Frame, rest: bytes)
    requires Writable(f)
    ensures ReadServer(Wire(f) + rest) == Some((f, rest))
  {
    var field := LengthField(|f.payload|, 0);
    var s := Wire(f) + rest;
    LengthReads(|f.payload|, 0, 128 + f.opcode, f.payload + rest);
    assert s == [128 + f.opcode] + field + (f.payload + rest);
    var start := 1 + |field|;
    assert s[start..start + |f.payload|] == f.payload;
    assert s[start + |f.payload|..] == rest;
  }

  predicate AllWritable(frames: seq<Frame>) {
    forall i :: 0 <= i < |frames| ==> Writable(frames[i])
  }

  function WireAll(frames: seq<Frame>): bytes
    requires AllWritable(frames)
  {
    if frames == [] then [] else WireAll(frames[..|frames| - 1]) + Wire(frames[|frames| - 1])
  }

  lemma WireAllLast(front: seq<Frame>, last: Frame)
    requires AllWritable(front) && Writable(last)
    ensures WireAll(front + [last]) == WireAll(front) + Wire(last)
  {
    assert (front + [last])[..|front|] == front;
  }

  /** The client's reading of a whole stream; `None` on a truncated or malformed one. */
  function ReadServerAll(s: bytes): Option<seq<Frame>>
    decreases |s|
  {
    if s == [] then Some([])
    else
      match ReadServer(s)
      case None => None
      case Some((f, rest)) =>
        match ReadServerAll(rest)
        case None => None
        case Some(fs) => Some([f] + fs)
  }

  lemma WireOne(f: Frame)
    requires Writable(f)
    ensures WireAll([f]) == Wire(f) + WireAll([])
  {
    WireAllLast([], f);
    assert [] + [f] == [f];
    assert WireAll([]) == [];
  }

  lemma Regroup(a: bytes, b: bytes, c: bytes)
    ensures (a + b) + c == a + (b + c)
  {
  }

  lemma {:induction false} WireAllFirst(frames: seq<Frame>)
    requires AllWritable(frames) && frames != []
    ensures WireAll(frames) == Wire(frames[0]) + WireAll(frames[1..])
  {
    var n := |frames|;
    if n == 1 {
      assert frames == [frames[0]] && frames[1..] == [];
      WireOne(frames[0]);
    } else {
      var front, last := frames[..n - 1], frames[n - 1];
      WireAllFirst(front);
      assert front[0] == frames[0] && frames[1..] == front[1..] + [last];
      WireAllLast(front[1..], last);
      assert WireAll(frames) == WireAll(front) + Wire(last);
      Regroup(Wire(frames[0]), WireAll(front[1..]), Wire(last));
    }
  }

  /** Everything written can be read back, frame by frame. */
  lemma {:induction false} ServerStreamReads(frames: seq<Frame>)
    requires AllWritable(frames)
    ensures ReadServerAll(WireAll(frames)) == Some(frames)
  {
    if frames != [] {
      WireAllFirst(frames);
      ServerFrameReads(frames[0], WireAll(frames[1..]));
      ServerStreamReads(frames[1..]);
      assert [frames[0]] + frames[1..] == frames;
    }
  }
}
