/** The two sets of hand-written RLP encoders of the Rust node, both appending to a byte buffer:
    one in the transaction signer, one in the event processor. */
module TxEncoding {
  import opened Bytes
  import opened Rlp

  class Buffer {
    var bytes: Bytes

    constructor ()
      ensures bytes == []
    {
      bytes := [];
    }

    method Push(b: byte)
      modifies this
      ensures bytes == old(bytes) + [b]
    {
      bytes := bytes + [b];
    }

    method Extend(more: Bytes)
      modifies this
      ensures bytes == old(bytes) + more
    {
      bytes := bytes + more;
    }
  }

  /** Index of the first non-zero byte. */
  method FirstNonZero(b: Bytes) returns (start: nat)
    ensures start <= |b| && b[start..] == Trim(b)
  {
    start := 0;
    while start < |b| && b[start] == 0
      invariant 0 <= start <= |b|
      invariant Trim(b[start..]) == Trim(b)
    {
      assert b[start..][1..] == b[start + 1..];
      start := start + 1;
    }
  }

  // ---------- What the encoders produce ----------

  lemma MinimalZero()
    ensures Minimal(0) == []
  {
    NatBigEndian(0, 8) by { Pow256Is(); }
    NatTrim(BigEndian(0, 8));
    var m := Minimal(0);
    if m != [] {
      NatPositive(m);
    }
  }

  /** One-byte numbers have one digit; larger ones never look like a single byte. */
  lemma MinimalDigits(val: nat)
    requires 0 < val < U64_LIMIT
    ensures val < 256 ==> Minimal(val) == [val]
    ensures Minimal(val) != [] && (val >= 0x80 && |Minimal(val)| == 1 ==> Minimal(val)[0] >= 0x80)
  {
    MinimalNat(val);
    var m := Minimal(val);
    if |m| == 1 {
      OneByte(m);
    } else if val < 256 {
      NatAtLeast(m);
    }
  }

  lemma OneByte(m: Bytes)
    requires |m| == 1
    ensures Nat(m) == m[0]
  {
    assert m[..0] == [];
  }

  lemma NatAtLeast(m: Bytes)
    requires |m| >= 2 && m[0] != 0
    ensures Nat(m) >= 256
  {
    NatPositive(m[..|m| - 1]);
  }

  /** The shapes of an encoded string. */
  lemma StringShape(b: Bytes)
    ensures b == [] ==> EncodeString(b) == [0x80]
    ensures |b| == 1 && b[0] < 0x80 ==> EncodeString(b) == b
    ensures 1 <= |b| <= 55 && !(|b| == 1 && b[0] < 0x80) ==> EncodeString(b) == [0x80 + |b|] + b
    ensures |b| > 55 ==> EncodeString(b) == LengthPrefix(|b|, 0x80) + b
    ensures |b| > 55 ==> LengthPrefix(|b|, 0x80) == [0xb7 + |Minimal(|b|)|] + Minimal(|b|)
  {
    hide Minimal;
    if b == [] { assert LengthPrefix(0, 0x80) + b == [0x80]; }
  }

  // ---------- Encoders of the transaction signer ----------

  method EncodeU64(buf: Buffer, val: nat)
    requires val < U64_LIMIT
    modifies buf
    ensures buf.bytes == old(buf.bytes) + EncodeString(Minimal(val))
  {
    hide EncodeString, BigEndian, Trim;
    MinimalZero();
    StringShape(Minimal(val));
    if val == 0 {
      buf.Push(0x80);
    } else {
      MinimalDigits(val);
      if val < 128 {
        buf.Push(val);
      } else {
        var bytes := BigEndian(val, 8);
        var start := FirstNonZero(bytes);
        var len := 8 - start;
        Assoc(buf.bytes, [0x80 + len], bytes[start..]);
        buf.Push(0x80 + len);
        buf.Extend(bytes[start..]);
      }
    }
  }

  method EncodeAddress(buf: Buffer, addr: Bytes)
    requires |addr| == 20
    modifies buf
    ensures buf.bytes == old(buf.bytes) + EncodeString(addr)
  {
    hide EncodeString;
    StringShape(addr);
    Assoc(buf.bytes, [0x80 + 20], addr);
    buf.Push(0x80 + 20);
    buf.Extend(addr);
  }

  method EncodeU256Bytes(buf: Buffer, bytes: Bytes)
    requires |bytes| == 32
    modifies buf
    ensures buf.bytes == old(buf.bytes) + EncodeString(Trim(bytes))
  {
    hide EncodeString, Trim;
    StringShape(Trim(bytes));
    var start := FirstNonZero(bytes);
    var significant := bytes[start..];
    if significant == [] {
      buf.Push(0x80);
    } else if |significant| == 1 && significant[0] < 128 {
      assert significant == [significant[0]];
      buf.Push(significant[0]);
    } else {
      Assoc(buf.bytes, [0x80 + |significant|], significant);
      buf.Push(0x80 + |significant|);
      buf.Extend(significant);
    }
  }

  /** The digits of a length of 56 or more, behind the byte that counts them. */
  method PushLongLength(buf: Buffer, base: byte, len: nat)
    requires 0 < len < U64_LIMIT && (base == 0xb7 || base == 0xf7)
    modifies buf
    ensures buf.bytes == old(buf.bytes) + ([base + |Minimal(len)|] + Minimal(len))
  {
    hide BigEndian, Trim;
    var lenBytes := BigEndian(len, 8);
    var lenStart := FirstNonZero(lenBytes);
    Assoc(buf.bytes, [base + (8 - lenStart)], lenBytes[lenStart..]);
    buf.Push(base + (8 - lenStart));
    buf.Extend(lenBytes[lenStart..]);
  }

  method EncodeBytes(buf: Buffer, data: Bytes)
    requires |data| < SLICE_LIMIT
    modifies buf
    ensures buf.bytes == old(buf.bytes) + EncodeString(data)
  {
    hide EncodeString, LengthPrefix, Minimal;
    StringShape(data);
    if data == [] {
      buf.Push(0x80);
    } else if |data| == 1 && data[0] < 128 {
      assert data == [data[0]];
      buf.Push(data[0]);
    } else if |data| < 56 {
      Assoc(buf.bytes, [0x80 + |data|], data);
      buf.Push(0x80 + |data|);
      buf.Extend(data);
    } else {
      Assoc(buf.bytes, LengthPrefix(|data|, 0x80), data);
      PushLongLength(buf, 0xb7, |data|);
      buf.Extend(data);
    }
  }

  method EncodeListHeader(buf: Buffer, contentLen: nat)
    requires contentLen < U64_LIMIT
    modifies buf
    ensures buf.bytes == old(buf.bytes) + LengthPrefix(contentLen, 0xc0)
  {
    hide Minimal;
    if contentLen < 56 {
      buf.Push(0xc0 + contentLen);
    } else {
      PushLongLength(buf, 0xf7, contentLen);
    }
  }

  // ---------- Encoders of the event processor ----------

  method U64Trimmed(val: nat) returns (b: Bytes)
    requires val < U64_LIMIT
    ensures b == Minimal(val)
  {
    if val == 0 {
      MinimalZero();
      return [];
    }
    var bytes := BigEndian(val, 8);
    var start := FirstNonZero(bytes);
    return bytes[start..];
  }

  method EncodeRlpLength(len: nat, offset: byte, out: Buffer)
    requires len < U64_LIMIT && (offset == 0x80 || offset == 0xc0)
    modifies out
    ensures out.bytes == old(out.bytes) + LengthPrefix(len, offset)
  {
    hide Minimal;
    if len <= 55 {
      out.Push(offset + len);
    } else {
      var lenBytes := U64Trimmed(len);
      Assoc(out.bytes, [offset + 55 + |lenBytes|], lenBytes);
      out.Push(offset + 55 + |lenBytes|);
      out.Extend(lenBytes);
    }
  }

  method RlpEncodeItem(data: Bytes, out: Buffer)
    requires |data| < SLICE_LIMIT
    modifies out
    ensures out.bytes == old(out.bytes) + EncodeString(data)
  {
    hide Minimal;
    if |data| == 1 && data[0] <= 0x7f {
      assert data == [data[0]];
      out.Push(data[0]);
    } else if data == [] {
      StringShape(data);
      out.Push(0x80);
    } else {
      Assoc(out.bytes, LengthPrefix(|data|, 0x80), data);
      EncodeRlpLength(|data|, 0x80, out);
      out.Extend(data);
    }
  }
}
