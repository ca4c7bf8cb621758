/** Byte strings and their big-endian reading. */
module Bytes {

  type byte = x: int | 0 <= x < 256
  type Bytes = seq<byte>

  const U64_LIMIT := 0x1_0000_0000_0000_0000
  /** A Rust slice holds at most `isize::MAX` bytes. */
  const SLICE_LIMIT := 0x8000_0000_0000_0000

  function Pow256(n: nat): (p: nat)
    ensures p >= 1
  {
    if n == 0 then 1 else 256 * Pow256(n - 1)
  }

  function Nat(b: Bytes): (n: nat)
    ensures n < Pow256(|b|)
  {
    if b == [] then 0 else Nat(b[..|b| - 1]) * 256 + b[|b| - 1]
  }

  /** `n` in exactly `width` bytes, big-endian (truncating, as a cast would). */
  function BigEndian(n: nat, width: nat): (b: Bytes)
    ensures |b| == width
  {
    if width == 0 then [] else BigEndian(n / 256, width - 1) + [n % 256]
  }

  function Zeros(n: nat): (b: Bytes)
    ensures |b| == n
  {
    seq(n, i => 0)
  }

  /** The bytes from the first non-zero one on. */
  function Trim(b: Bytes): (r: Bytes)
    ensures |r| <= |b|
    ensures r == b[|b| - |r|..]
    ensures r == [] || r[0] != 0
    ensures forall i :: 0 <= i < |b| - |r| ==> b[i] == 0
  {
    if b == [] || b[0] != 0 then b else Trim(b[1..])
  }

  lemma {:induction false} NatBigEndian(n: nat, width: nat)
    requires n < Pow256(width)
    ensures Nat(BigEndian(n, width)) == n
  {
    if width > 0 {
      NatBigEndian(n / 256, width - 1);
      var b := BigEndian(n, width);
      assert b[..width - 1] == BigEndian(n / 256, width - 1);
    }
  }

  lemma {:induction false} BigEndianNat(b: Bytes)
    ensures BigEndian(Nat(b), |b|) == b
  {
    if b == [] {
    } else {
      BigEndianNat(b[..|b| - 1]);
      assert b == b[..|b| - 1] + [b[|b| - 1]];
    }
  }

  lemma NatLast(a: Bytes, d: byte)
    ensures Nat(a + [d]) == Nat(a) * 256 + d
  {
    assert (a + [d])[..|a|] == a;
  }

  lemma MulShift(x: nat, p: nat)
    ensures x * (256 * p) == (x * p) * 256
  {
  }

  lemma {:induction false} NatAppend(a: Bytes, b: Bytes)
    ensures Nat(a + b) == Nat(a) * Pow256(|b|) + Nat(b)
  {
    if b == [] {
      assert a + b == a;
    } else {
      var c, d := b[..|b| - 1], b[|b| - 1];
      assert b == c + [d] && a + b == (a + c) + [d] && |b| == |c| + 1;
      assert Pow256(|b|) == 256 * Pow256(|c|);
      hide Nat, Pow256;
      NatAppend(a, c);
      NatLast(c, d);
      NatLast(a + c, d);
      MulShift(Nat(a), Pow256(|c|));
    }
  }

  lemma {:induction false} NatZeros(n: nat)
    ensures Nat(Zeros(n)) == 0
  {
    if n > 0 {
      assert Zeros(n)[..n - 1] == Zeros(n - 1);
      NatZeros(n - 1);
    }
  }

  lemma TrimSplit(b: Bytes)
    ensures b == Zeros(|b| - |Trim(b)|) + Trim(b)
  {
  }

  lemma NatTrim(b: Bytes)
    ensures Nat(Trim(b)) == Nat(b)
  {
    hide *;
    TrimSplit(b);
    NatAppend(Zeros(|b| - |Trim(b)|), Trim(b));
    NatZeros(|b| - |Trim(b)|);
  }

  /** `b` with zeros in front, up to `width` bytes. */
  function PadLeft(b: Bytes, width: nat): (r: Bytes)
    requires |b| <= width
    ensures |r| == width
  {
    Zeros(width - |b|) + b
  }

  lemma PadTrim(b: Bytes)
    ensures PadLeft(Trim(b), |b|) == b
  {
    TrimSplit(b);
  }

  lemma {:induction false} NatPositive(b: Bytes)
    requires b != [] && b[0] != 0
    ensures Nat(b) > 0
  {
    if |b| > 1 {
      NatPositive(b[..|b| - 1]);
    }
  }

  /** `b` repeated byte `0` up to the next multiple of 32. */
  function PadTo32(b: Bytes): (r: Bytes)
    ensures |r| % 32 == 0 && |b| <= |r| < |b| + 32
    ensures r[..|b|] == b
  {
    if |b| % 32 == 0 then b else b + Zeros(32 - |b| % 32)
  }

  lemma Assoc(a: Bytes, b: Bytes, c: Bytes)
    ensures (a + b) + c == a + (b + c)
  {
  }

  lemma Regroup(a: Bytes, b: Bytes, c: Bytes, d: Bytes)
    ensures a + b + c + d == a + b + (c + d)
  {
  }

  lemma Reassociate(a: Bytes, b: Bytes, c: Bytes, d: Bytes)
    ensures a + (b + (c + d)) == a + b + c + d
  {
    Assoc(a, b, c + d);
    Assoc(a + b, c, d);
  }

  lemma SliceOfAppend(a: Bytes, b: Bytes, c: Bytes)
    ensures (a + b + c)[|a|..|a| + |b|] == b
    ensures (a + b + c)[|a|..] == b + c
  {
  }
}
