/** Removing the mask of a client frame (`_unmask`): big-integer XOR over blocks, against section 5.3 of RFC 6455. */
module Unmask {
  import opened Bytes

  const UNMASK_BLOCK: nat := 16384

  /** Python's `^` on non-negative integers: the bits that differ. */
  function Xor(x: nat, y: nat): nat
    decreases x + y
  {
    if x == 0 && y == 0 then 0 else 2 * Xor(x / 2, y / 2) + Differ(x % 2, y % 2)
  }

  function Differ(a: nat, b: nat): nat {
    if a == b then 0 else 1
  }

  lemma XorHalf(x: nat, y: nat)
    ensures Xor(x, y) == 2 * Xor(x / 2, y / 2) + Differ(x % 2, y % 2)
    ensures Xor(x, y) / 2 == Xor(x / 2, y / 2) && Xor(x, y) % 2 == Differ(x % 2, y % 2)
  {
  }

  lemma {:induction false} XorInvolution(x: nat, y: nat)
    ensures Xor(Xor(x, y), y) == x
    decreases x + y
  {
    if x + y > 0 {
      XorInvolution(x / 2, y / 2);
      XorHalf(x, y);
      XorHalf(Xor(x, y), y);
    }
  }

  /** `x << k` */
  function Shift(x: nat, k: nat): nat {
    if k == 0 then x else 2 * Shift(x, k - 1)
  }

  lemma {:induction false} ShiftIsProduct(x: nat, k: nat)
    ensures Shift(x, k) == x * Shift(1, k)
  {
    if k == 0 {
      assert Shift(1, 0) == 1;
    } else {
      ShiftIsProduct(x, k - 1);
      var h := Shift(1, k - 1);
      assert 2 * (x * h) == x * (2 * h);
    }
  }

  /** The lowest digit of a XOR, when it is not in the upper blocks. */
  lemma XorLowest(m: nat, p: nat, n: nat, q: nat)
    ensures Xor(2 * m + p, 2 * n + q) == 2 * Xor(m + p / 2, n + q / 2) + Differ(p % 2, q % 2)
  {
    XorHalf(2 * m + p, 2 * n + q);
    assert (2 * m + p) / 2 == m + p / 2 && (2 * n + q) / 2 == n + q / 2;
    assert (2 * m + p) % 2 == p % 2 && (2 * n + q) % 2 == q % 2;
  }

  lemma XorDouble(a: nat, m: nat, p: nat, b: nat, n: nat, q: nat, z: nat)
    requires a == 2 * m + p && b == 2 * n + q && Xor(m + p / 2, n + q / 2) == z + Xor(p / 2, q / 2)
    ensures Xor(a, b) == 2 * z + Xor(p, q)
  {
    XorLowest(m, p, n, q);
    XorHalf(p, q);
  }

  lemma {:induction false} XorBelow(p: nat, q: nat, k: nat)
    requires p < Shift(1, k) && q < Shift(1, k)
    ensures Xor(p, q) < Shift(1, k)
    decreases k
  {
    if k == 0 {
      assert Xor(0, 0) == 0;
    } else {
      XorBelow(p / 2, q / 2, k - 1);
      XorHalf(p, q);
    }
  }

  /** XOR works on blocks of `k` bits independently. */
  lemma {:induction false} XorDigits(x: nat, p: nat, y: nat, q: nat, k: nat)
    requires p < Shift(1, k) && q < Shift(1, k)
    ensures Xor(Shift(x, k) + p, Shift(y, k) + q) == Shift(Xor(x, y), k) + Xor(p, q)
    decreases k
  {
    if k == 0 {
      assert p == 0 && q == 0 && Xor(0, 0) == 0;
    } else {
      XorDigits(x, p / 2, y, q / 2, k - 1);
      var m, n, z := Shift(x, k - 1), Shift(y, k - 1), Shift(Xor(x, y), k - 1);
      assert Shift(x, k) == 2 * m && Shift(y, k) == 2 * n && Shift(Xor(x, y), k) == 2 * z;
      XorDouble(Shift(x, k) + p, m, p, Shift(y, k) + q, n, q, z);
    }
  }

  lemma Octet(x: nat)
    ensures Shift(x, 8) == x * 256
  {
    ShiftIsProduct(x, 8);
    assert Shift(1, 4) == 16 && Shift(1, 8) == 256;
  }

  function XorByte(x: byte, y: byte): (r: byte)
    ensures r as nat == Xor(x, y)
  {
    Octet(1);
    XorBelow(x, y, 8);
    Xor(x, y)
  }

  lemma XorOctet(x: nat, p: byte, y: nat, q: byte)
    ensures Xor(x * 256 + p, y * 256 + q) == Xor(x, y) * 256 + XorByte(p, q)
  {
    Octet(1);
    Octet(x);
    Octet(y);
    Octet(Xor(x, y));
    XorBelow(p, q, 8);
    XorDigits(x, p, y, q, 8);
  }

  /** The i-th octet of the payload is masked with the octet `i mod 4` of the key. */
  function Unmasked(payload: bytes, mask: bytes): (r: bytes)
    requires |mask| == 4
    ensures |r| == |payload|
  {
    seq(|payload|, i requires 0 <= i < |payload| => XorByte(payload[i], mask[i % 4]))
  }

  function XorSeq(a: bytes, b: bytes): (r: bytes)
    requires |a| == |b|
    ensures |r| == |a|
  {
    seq(|a|, i requires 0 <= i < |a| => XorByte(a[i], b[i]))
  }

  /** One big-integer XOR is the octet-wise one. */
  lemma {:induction false} BigXor(a: bytes, b: bytes)
    requires |a| == |b|
    ensures BigEndian(Xor(FromBigEndian(a), FromBigEndian(b)), |a|) == XorSeq(a, b)
    ensures FromBigEndian(XorSeq(a, b)) == Xor(FromBigEndian(a), FromBigEndian(b))
  {
    var n := |a|;
    if n > 0 {
      BigXor(a[..n - 1], b[..n - 1]);
      var s := XorSeq(a, b);
      assert s[..n - 1] == XorSeq(a[..n - 1], b[..n - 1]);
      XorOctet(FromBigEndian(a[..n - 1]), a[n - 1], FromBigEndian(b[..n - 1]), b[n - 1]);
      FromBigEndianRoundTrip(s);
    }
  }

  /** `mask * k` */
  function Repeat(mask: bytes, k: nat): (r: bytes)
    requires |mask| == 4
    ensures |r| == 4 * k
    ensures Tiled(r, mask)
  {
    if k == 0 then []
    else
      var r := Repeat(mask, k - 1);
      assert forall i :: 4 * (k - 1) <= i < 4 * k ==> i - 4 * (k - 1) == i % 4;
      r + mask
  }

  /** `(int.from_bytes(data) ^ int.from_bytes(key)).to_bytes(len(data))` */
  function XorBlock(data: bytes, key: bytes): bytes {
    BigEndian(Xor(FromBigEndian(data), FromBigEndian(key)), |data|)
  }

  lemma Phase(pos: nat, i: nat)
    requires pos % 4 == 0
    ensures (pos + i) % 4 == i % 4
  {
  }

  /** `key` is the repeated mask. */
  predicate Tiled(key: bytes, mask: bytes)
    requires |mask| == 4
  {
    forall i :: 0 <= i < |key| ==> key[i] == mask[i % 4]
  }

  lemma BlockUnmasked(payload: bytes, mask: bytes, pos: nat, end: nat, key: bytes)
    requires |mask| == 4 && pos <= end <= |payload| && pos % 4 == 0
    requires |key| == end - pos && Tiled(key, mask)
    ensures XorBlock(payload[pos..end], key) == Unmasked(payload, mask)[pos..end]
  {
    BigXor(payload[pos..end], key);
    var x, y := XorSeq(payload[pos..end], key), Unmasked(payload, mask)[pos..end];
    forall i | 0 <= i < end - pos
      ensures x[i] == y[i]
    {
      Phase(pos, i);
      assert y[i] == Unmasked(payload, mask)[pos + i];
    }
    assert x == y;
  }

  /** `_unmask` */
  method UnmaskPayload(payload: bytes, mask: bytes) returns (r: bytes)
    requires |mask| == 4
    ensures r == Unmasked(payload, mask)
  {
    var length := |payload|;
    if length <= UNMASK_BLOCK {
      var tiled := Repeat(mask, (length + 3) / 4)[..length];
      BlockUnmasked(payload, mask, 0, length, tiled);
      assert payload[0..length] == payload;
      assert Unmasked(payload, mask)[0..length] == Unmasked(payload, mask);
      return XorBlock(payload, tiled);
    }
    var blockMask := Repeat(mask, UNMASK_BLOCK / 4);
    var out := new byte[length](_ => 0);
    var pos := 0;
    ghost var whole := Unmasked(payload, mask);
    while pos + UNMASK_BLOCK < length
      invariant pos < length && pos % UNMASK_BLOCK == 0
      invariant out[..pos] == whole[..pos]
      decreases length - pos
    {
      var end := pos + UNMASK_BLOCK;
      MultipleOfFour(pos);
      BlockUnmasked(payload, mask, pos, end, blockMask);
      WriteSlice(out, pos, XorBlock(payload[pos..end], blockMask), whole);
      pos := end;
    }
    var tail := length - pos;
    var tiled := Repeat(mask, (tail + 3) / 4)[..tail];
    MultipleOfFour(pos);
    BlockUnmasked(payload, mask, pos, length, tiled);
    WriteSlice(out, pos, XorBlock(payload[pos..length], tiled), whole);
    return out[..length];
  }

  lemma MultipleOfFour(pos: nat)
    requires pos % UNMASK_BLOCK == 0
    ensures pos % 4 == 0
  {
    assert pos == 4 * (4096 * (pos / UNMASK_BLOCK));
  }

  /** Slice assignment `out[pos:pos + len(block)] = block`, where the block is the next part of `whole`. */
  method WriteSlice(out: array<byte>, pos: nat, block: bytes, ghost whole: bytes)
    requires pos + |block| <= out.Length == |whole|
    requires out[..pos] == whole[..pos] && block == whole[pos..pos + |block|]
    modifies out
    ensures out[..pos + |block|] == whole[..pos + |block|]
  {
    forall i | pos <= i < pos + |block| {
      out[i] := block[i - pos];
    }
    assert out[..pos] == whole[..pos];
    forall i | 0 <= i < pos + |block|
      ensures out[i] == whole[i]
    {
      if i < pos {
        assert out[i] == out[..pos][i] == whole[..pos][i];
      }
    }
  }

  /** Masking and unmasking are the same operation, and it is its own inverse. */
  lemma UnmaskInvolution(payload: bytes, mask: bytes)
    requires |mask| == 4
    ensures Unmasked(Unmasked(payload, mask), mask) == payload
  {
    forall i | 0 <= i < |payload|
      ensures Unmasked(Unmasked(payload, mask), mask)[i] == payload[i]
    {
      XorInvolution(payload[i], mask[i % 4]);
    }
  }
}
