/** 32-byte words and the dynamic sections of the Solidity ABI ("Formal Specification of the
    Encoding" in the Contract ABI Specification). */
module Abi {
  import opened Bytes
  import opened Rlp
  import opened Wrappers

  function Word(n: nat): (b: Bytes)
    ensures |b| == 32
  {
    BigEndian(n, 32)
  }

  function Words(ns: seq<nat>): (b: Bytes)
    ensures |b| == 32 * |ns|
  {
    if ns == [] then [] else Word(ns[0]) + Words(ns[1..])
  }

  ghost predicate Fits(ns: seq<nat>) {
    forall i :: 0 <= i < |ns| ==> ns[i] < Pow256(32)
  }

  /** A `bytes` section: its length, then the contents padded to whole words. */
  function BytesSection(data: Bytes): (r: Bytes)
    ensures |r| == 32 + |PadTo32(data)|
  {
    Word(|data|) + PadTo32(data)
  }

  /** A `uint256[]` section: its length, then the elements. */
  function ArraySection(ns: seq<nat>): (r: Bytes)
    ensures |r| == 32 + 32 * |ns|
  {
    Word(|ns|) + Words(ns)
  }

  // ---------- Reading ----------

  /** The word at `at`; reading past the end is an error. */
  function ReadWord(data: Bytes, at: nat): Result<nat> {
    if at + 32 <= |data| then Ok(Nat(data[at..at + 32])) else Err
  }

  /** A word used as a size or an offset: the conversion of a larger one panics. */
  function ReadUsize(data: Bytes, at: nat): Result<nat> {
    var n :- ReadWord(data, at);
    if n < U64_LIMIT then Ok(n) else Err
  }

  /** The Rust decoder of a `bytes` section. */
  function DecodeBytes(data: Bytes): Result<Bytes> {
    if |data| < 32 then Ok([])
    else
      var len :- ReadUsize(data, 0);
      if |data| < 32 + len then Err else Ok(data[32..32 + len])
  }

  /** At most `len` words, as many as there are. */
  function Scan(data: Bytes, len: nat): seq<nat> {
    if len == 0 || |data| < 32 then [] else [Nat(data[..32])] + Scan(data[32..], len - 1)
  }

  /** The Rust decoder of a `uint256[]` section: it reserves room for the stated number of elements
      first, which panics when that is more than a vector can hold. */
  function ScanArray(data: Bytes): Result<seq<nat>> {
    if |data| < 32 then Ok([])
    else
      var len :- ReadUsize(data, 0);
      if len * 32 >= SLICE_LIMIT then Err else Ok(Scan(data[32..], len))
  }

  /** The loop of the array decoder. */
  method DecodeUint256Array(data: Bytes) returns (r: Result<seq<nat>>)
    ensures r == ScanArray(data)
  {
    hide Scan;
    if |data| < 32 {
      return Ok([]);
    }
    var size := ReadUsize(data, 0);
    if size.Err? || size.value * 32 >= SLICE_LIMIT {
      return Err;
    }
    var len := size.value;
    var result: seq<nat> := [];
    var i := 0;
    ScanEnds(data[32..], len);
    assert [] + Scan(data[32..], len) == Scan(data[32..], len);
    while i < len && 32 + i * 32 + 32 <= |data|
      invariant 0 <= i <= len && 32 + i * 32 <= |data|
      invariant Scan(data[32..], len) == result + Scan(data[32 + i * 32..], len - i)
    {
      var offset := 32 + i * 32;
      ScanStep(data, offset, len - i);
      Shift(result, Nat(data[offset..offset + 32]), Scan(data[offset + 32..], len - i - 1));
      result := result + [Nat(data[offset..offset + 32])];
      i := i + 1;
    }
    ScanEnds(data[32 + i * 32..], len - i);
    assert result + [] == result;
    return Ok(result);
  }

  lemma Shift(a: seq<nat>, n: nat, b: seq<nat>)
    ensures a + ([n] + b) == (a + [n]) + b
  {
  }

  lemma ScanEnds(data: Bytes, len: nat)
    ensures len == 0 || |data| < 32 ==> Scan(data, len) == []
  {
  }

  lemma ScanStep(data: Bytes, at: nat, len: nat)
    requires len > 0 && at + 32 <= |data|
    ensures Scan(data[at..], len) == [Nat(data[at..at + 32])] + Scan(data[at + 32..], len - 1)
  {
    SliceSuffix(data, at, 32);
  }

  // ---------- Reading what was written ----------

  lemma Wide(n: nat)
    requires n < U64_LIMIT
    ensures n < Pow256(32)
  {
    Pow256Is();
    Widen(8, 32);
  }

  lemma {:induction false} Widen(a: nat, b: nat)
    requires a <= b
    ensures Pow256(a) <= Pow256(b)
  {
    if b <= a {
    } else {
      Widen(a, b - 1);
    }
  }

  /** A size written into the low eight bytes of a zeroed word. */
  function EncodeU256(val: nat): (b: Bytes)
    requires val < U64_LIMIT
    ensures b == Word(val)
  {
    NarrowWord(val, 8);
    Zeros(24) + BigEndian(val, 8)
  }

  lemma NarrowWord(n: nat, width: nat)
    requires width <= 32
    requires width == 8 ==> n < U64_LIMIT
    requires width != 8 ==> n < Pow256(width)
    ensures Zeros(32 - width) + BigEndian(n, width) == Word(n)
  {
    hide *;
    Pow256Is();
    var b := Zeros(32 - width) + BigEndian(n, width);
    NatAppend(Zeros(32 - width), BigEndian(n, width));
    NatZeros(32 - width);
    NatBigEndian(n, width);
    BigEndianNat(b);
    assert Word(Nat(b)) == b by { WordIs(Nat(b)); }
  }

  lemma WordIs(n: nat)
    ensures Word(n) == BigEndian(n, 32)
  {
  }

  /** Twelve zero bytes and an address are one word. */
  lemma AddressWord(addr: Bytes)
    requires |addr| == 20
    ensures Zeros(12) + addr == Word(Nat(addr)) && Nat(addr) < Pow256(32)
    ensures Word(Nat(addr))[12..] == addr
  {
    hide Nat, Word, Pow256, BigEndian;
    NarrowWord(Nat(addr), 20);
    BigEndianNat(addr);
    Widen(20, 32);
    assert (Zeros(12) + addr)[12..] == addr;
  }

  lemma WordReads(n: nat, rest: Bytes)
    requires n < Pow256(32)
    ensures ReadWord(Word(n) + rest, 0) == Ok(n)
  {
    hide Nat, Pow256, BigEndian;
    NatBigEndian(n, 32);
    assert (Word(n) + rest)[0..32] == Word(n);
  }

  lemma {:induction false} WordAt(ns: seq<nat>, rest: Bytes, k: nat)
    requires k < |ns|
    ensures (Words(ns) + rest)[32 * k..32 * k + 32] == Word(ns[k])
    decreases k
  {
    hide Word;
    var data := Words(ns) + rest;
    Assoc(Word(ns[0]), Words(ns[1..]), rest);
    if k == 0 {
      assert (Word(ns[0]) + (Words(ns[1..]) + rest))[..32] == Word(ns[0]);
    } else {
      WordAt(ns[1..], rest, k - 1);
      SliceBehind(Word(ns[0]), Words(ns[1..]) + rest, 32 * (k - 1), 32 * k);
    }
  }

  lemma SliceBehind(a: Bytes, b: Bytes, lo: nat, hi: nat)
    requires lo <= hi <= |b|
    ensures (a + b)[|a| + lo..|a| + hi] == b[lo..hi]
  {
  }

  lemma ReadAt(ns: seq<nat>, rest: Bytes, k: nat)
    requires k < |ns| && ns[k] < Pow256(32)
    ensures ReadWord(Words(ns) + rest, 32 * k) == Ok(ns[k])
  {
    hide Nat, Pow256, Words, BigEndian;
    WordAt(ns, rest, k);
    NatBigEndian(ns[k], 32);
  }

  lemma BytesRead(data: Bytes, rest: Bytes)
    requires |data| < U64_LIMIT
    ensures DecodeBytes(BytesSection(data) + rest) == Ok(data)
  {
    hide ReadWord, Word;
    Wide(|data|);
    var e := BytesSection(data) + rest;
    Assoc(Word(|data|), PadTo32(data), rest);
    WordReads(|data|, PadTo32(data) + rest);
    SliceBehind(Word(|data|), PadTo32(data) + rest, 0, |data|);
    assert (PadTo32(data) + rest)[0..|data|] == PadTo32(data)[..|data|];
  }

  lemma ScanCons(n: nat, tail: Bytes, len: nat)
    requires n < Pow256(32)
    ensures Scan(Word(n) + tail, len + 1) == [n] + Scan(tail, len)
  {
    hide Word, Nat, Pow256;
    WordReads(n, tail);
    var data := Word(n) + tail;
    assert data[..32] == data[0..32] && data[32..] == tail;
  }

  lemma {:induction false} ScanWords(ns: seq<nat>, rest: Bytes)
    requires Fits(ns)
    ensures Scan(Words(ns) + rest, |ns|) == ns
  {
    hide Word, Pow256, Scan;
    if ns == [] {
      ScanEnds(Words(ns) + rest, 0);
    } else {
      var tail := Words(ns[1..]) + rest;
      Assoc(Word(ns[0]), Words(ns[1..]), rest);
      ScanCons(ns[0], tail, |ns| - 1);
      ScanWords(ns[1..], rest);
      assert ns == [ns[0]] + ns[1..];
    }
  }

  lemma ArrayRead(ns: seq<nat>, rest: Bytes)
    requires Fits(ns) && |ns| * 32 < SLICE_LIMIT
    ensures ScanArray(ArraySection(ns) + rest) == Ok(ns)
  {
    hide ReadWord, Word, Words, Scan, Fits;
    Wide(|ns|);
    var e := ArraySection(ns) + rest;
    Assoc(Word(|ns|), Words(ns), rest);
    WordReads(|ns|, Words(ns) + rest);
    assert (Word(|ns|) + (Words(ns) + rest))[32..] == Words(ns) + rest;
    ScanWords(ns, rest);
  }

  // ---------- Where everything stands ----------

  predicate WordStands(b: Bytes, at: nat, n: nat) {
    at + 32 <= |b| && Nat(b[at..at + 32]) == n
  }

  /** These words stand at `at`, one behind the other. */
  predicate WordsStand(b: Bytes, at: nat, ns: seq<nat>) {
    forall k :: 0 <= k < |ns| ==> WordStands(b, at + 32 * k, ns[k])
  }

  /** The length up to the next multiple of 32. */
  function Padded(len: nat): (p: nat)
    ensures len <= p < len + 32 && p % 32 == 0
  {
    (len + 31) / 32 * 32
  }

  /** The length of `data`, `data` and zeros up to a whole word stand at `at`. */
  predicate BytesStand(b: Bytes, at: nat, data: Bytes) {
    && at + 32 + Padded(|data|) <= |b|
    && WordStands(b, at, |data|) && b[at + 32..at + 32 + |data|] == data
    && forall k :: at + 32 + |data| <= k < at + 32 + Padded(|data|) ==> b[k] == 0
  }

  lemma WordNat(n: nat)
    requires n < Pow256(32)
    ensures Nat(Word(n)) == n
  {
    hide *;
    WordIs(n);
    NatBigEndian(n, 32);
  }

  lemma WordPlaced(before: Bytes, n: nat, rest: Bytes)
    requires n < Pow256(32)
    ensures WordStands(before + (Word(n) + rest), |before|, n)
  {
    hide Nat, Pow256, Word;
    WordNat(n);
    Assoc(before, Word(n), rest);
    SliceOfAppend(before, Word(n), rest);
  }

  lemma {:induction false} WordsPlaced(before: Bytes, ns: seq<nat>, rest: Bytes)
    requires Fits(ns)
    ensures WordsStand(before + (Words(ns) + rest), |before|, ns)
    ensures (before + (Words(ns) + rest))[|before| + 32 * |ns|..] == rest
    decreases |ns|
  {
    hide WordStands, Pow256, Word;
    RestPlaced(before, Words(ns), rest);
    if ns == [] {
    } else {
      var (n, more) := (ns[0], ns[1..]);
      WordPlaced(before, n, Words(more) + rest);
      WordsPlaced(before + Word(n), more, rest);
      Assoc(Word(n), Words(more), rest);
      Assoc(before, Word(n), Words(more) + rest);
      var b := before + (Words(ns) + rest);
      forall k | 0 <= k < |ns| ensures WordStands(b, |before| + 32 * k, ns[k]) {
        if k > 0 { assert WordStands(b, |before| + 32 + 32 * (k - 1), more[k - 1]); }
      }
    }
  }

  lemma RestPlaced(a: Bytes, b: Bytes, c: Bytes)
    ensures (a + (b + c))[|a| + |b|..] == c
  {
  }

  lemma PaddedSize(data: Bytes)
    ensures |PadTo32(data)| == Padded(|data|)
    ensures PadTo32(data) == data + Zeros(Padded(|data|) - |data|)
  {
  }

  lemma SectionPlaced(before: Bytes, data: Bytes, rest: Bytes)
    requires |data| < U64_LIMIT
    ensures var (b, at) := (before + (BytesSection(data) + rest), |before|);
            BytesStand(b, at, data) && b[at + 32 + Padded(|data|)..] == rest
  {
    hide Nat, Pow256, BigEndian, PadTo32, Padded;
    var zeros := Zeros(Padded(|data|) - |data|);
    PaddedSize(data);
    Wide(|data|);
    NatBigEndian(|data|, 32);
    var b := before + (BytesSection(data) + rest);
    assert b == before + Word(|data|) + data + zeros + rest;
    assert b[|before|..|before| + 32] == Word(|data|);
  }
}
