/** Actions, their ABI encoding by the Rust event processor and their decoding by the watcher. */
module Actions {
  import opened Abi
  import opened Bytes
  import opened TxEncoding
  import opened Wrappers

  const CALL := 0
  const RESULT := 1
  const L2TX := 2
  /** The largest action type the contracts know. */
  const REVERT_CONTINUE := 4

  const ZERO_ADDRESS: Bytes := Zeros(20)

  datatype Action = Action(actionType: nat, rollupId: nat, destination: Bytes, value: nat, data: Bytes,
                           failed: bool, sourceAddress: Bytes, sourceRollup: nat, scope: seq<nat>)

  /** What the argument types of the encoder admit. */
  ghost predicate ValidAction(a: Action) {
    && a.actionType < 256 && |a.destination| == 20 && |a.sourceAddress| == 20
    && a.rollupId < Pow256(32) && a.value < Pow256(32) && a.sourceRollup < Pow256(32)
    && |a.data| < SLICE_LIMIT && Fits(a.scope) && |a.scope| * 32 < SLICE_LIMIT
  }

  // ---------- Specification ----------

  function ScopeOffset(data: Bytes): nat {
    9 * 32 + |BytesSection(data)|
  }

  /** The nine words of the head. */
  function Head(a: Action): (r: seq<nat>)
    ensures |r| == 9
  {
    [a.actionType, a.rollupId, Nat(a.destination), a.value, 9 * 32,
     if a.failed then 1 else 0, Nat(a.sourceAddress), a.sourceRollup, ScopeOffset(a.data)]
  }

  /** The tuple (uint8, uint256, address, uint256, bytes, bool, address, uint256, uint256[]). */
  function EncodeAction(a: Action): (r: Bytes)
    ensures |r| >= 11 * 32
  {
    Words(Head(a)) + BytesSection(a.data) + ArraySection(a.scope)
  }

  /** `abi.encode` of one action: an offset, then the tuple. */
  function AbiEncode(a: Action): Bytes {
    Word(0x20) + EncodeAction(a)
  }

  function ActionHash(keccak: Bytes -> Bytes, a: Action): Bytes {
    keccak(AbiEncode(a))
  }

  /** Type bytes the watcher does not know count as results. */
  function ActionTypeFrom(v: nat): nat {
    if v <= REVERT_CONTINUE then v else RESULT
  }

  function DataAt(data: Bytes, offset: nat): Result<Bytes> {
    if offset > 0 && |data| > offset then DecodeBytes(data[offset..]) else Ok([])
  }

  function ScopeAt(data: Bytes, offset: nat): Result<seq<nat>> {
    if offset > 0 && |data| > offset then ScanArray(data[offset..]) else Ok([])
  }

  /** The watcher's decoder of the tuple. */
  function DecodeAction(data: Bytes): Result<Action> {
    if |data| < 9 * 32 then Err
    else
      var dataOffset :- ReadUsize(data, 128);
      var bytes :- DataAt(data, dataOffset);
      var scopeOffset :- ReadUsize(data, 256);
      var scope :- ScopeAt(data, scopeOffset);
      Ok(Action(ActionTypeFrom(data[31]), Nat(data[32..64]), data[76..96], Nat(data[96..128]), bytes,
                data[191] != 0, data[204..224], Nat(data[224..256]), scope))
  }

  datatype Consumed = Consumed(actionHash: Bytes, action: Action)

  function DecodeExecutionConsumed(data: Bytes, actionHash: Bytes): Result<Consumed> {
    var start :- ReadUsize(data, 0);
    if |data| < start + 9 * 32 then Err
    else
      var action :- DecodeAction(data[start..]);
      Ok(Consumed(actionHash, action))
  }

  // ---------- The encoder ----------

  /** A one-byte value at the end of a zeroed word. */
  function LastByte(b: byte): (r: Bytes)
    ensures r == Word(b)
  {
    ByteWord(b);
    Zeros(31) + [b]
  }

  lemma ByteWord(b: byte)
    ensures Zeros(31) + [b] == Word(b) && Word(b)[31] == b
    ensures b < Pow256(32)
  {
    hide Word, Zeros;
    OneDigit(b);
    NarrowWord(b, 1);
    Wide(b);
  }

  lemma OneDigit(b: byte)
    ensures BigEndian(b, 1) == [b] && b < Pow256(1)
  {
    assert BigEndian(b / 256, 0) == [];
  }

  method AbiEncodeAction(a: Action) returns (r: Bytes)
    requires ValidAction(a)
    ensures r == EncodeAction(a)
  {
    hide Word, Words, BytesSection, ArraySection, Fits, LastByte, EncodeU256, Nat, Pow256;
    var result := new Buffer();
    EncodeHead(a, result);
    EncodeDynamic(a, result);
    Assoc(Words(Head(a)), BytesSection(a.data), ArraySection(a.scope));
    r := result.bytes;
  }

  method EncodeHead(a: Action, result: Buffer)
    requires ValidAction(a) && result.bytes == []
    modifies result
    ensures result.bytes == Words(Head(a))
  {
    hide Word, Words, BytesSection, Fits, LastByte, EncodeU256, Nat, Pow256, Zeros, BigEndian, PadTo32;
    AddressWord(a.destination);
    AddressWord(a.sourceAddress);
    ghost var done := NoWords();
    result.Extend(LastByte(a.actionType));
    done := MoreWords(done, a.actionType);
    result.Extend(BigEndian(a.rollupId, 32));
    WordIs(a.rollupId);
    done := MoreWords(done, a.rollupId);
    result.Extend(Zeros(12) + a.destination);
    done := MoreWords(done, Nat(a.destination));
    result.Extend(BigEndian(a.value, 32));
    WordIs(a.value);
    done := MoreWords(done, a.value);
    result.Extend(EncodeU256(9 * 32));
    done := MoreWords(done, 9 * 32);
    EncodeHeadEnd(a, result, done);
  }

  /** Words 5 to 8 of the head. */
  method EncodeHeadEnd(a: Action, result: Buffer, ghost start: seq<nat>)
    requires ValidAction(a) && result.bytes == Words(start) && start == Head(a)[..5]
    modifies result
    ensures result.bytes == Words(Head(a))
  {
    hide Word, Words, BytesSection, Fits, LastByte, EncodeU256, Nat, Pow256, Zeros, BigEndian;
    AddressWord(a.sourceAddress);
    result.Extend(LastByte(if a.failed then 1 else 0));
    ghost var done := MoreWords(start, if a.failed then 1 else 0);
    result.Extend(Zeros(12) + a.sourceAddress);
    done := MoreWords(done, Nat(a.sourceAddress));
    result.Extend(BigEndian(a.sourceRollup, 32));
    WordIs(a.sourceRollup);
    done := MoreWords(done, a.sourceRollup);
    var dataPaddedLen := if a.data == [] then 0 else (|a.data| + 31) / 32 * 32;
    var scopeOffset := 9 * 32 + 32 + dataPaddedLen;
    PaddedLength(a.data);
    result.Extend(EncodeU256(scopeOffset));
    done := MoreWords(done, scopeOffset);
    assert done == Head(a);
  }

  method EncodeDynamic(a: Action, result: Buffer)
    requires ValidAction(a)
    modifies result
    ensures result.bytes == old(result.bytes) + (BytesSection(a.data) + ArraySection(a.scope))
  {
    hide Word, Words, EncodeU256, BigEndian, PadTo32, Fits, Pow256;
    ghost var before := result.bytes;
    result.Extend(EncodeU256(|a.data|));
    if a.data != [] {
      result.Extend(PadTo32(a.data));
    }
    EmptyPad();
    Assoc(before, Word(|a.data|), PadTo32(a.data));
    assert result.bytes == before + BytesSection(a.data);
    result.Extend(EncodeU256(|a.scope|));
    ghost var base := result.bytes;
    ghost var none := NoWords();
    assert base + [] == base;
    for i := 0 to |a.scope|
      invariant result.bytes == base + Words(a.scope[..i])
    {
      result.Extend(BigEndian(a.scope[i], 32));
      WordIs(a.scope[i]);
      ghost var more := MoreWords(a.scope[..i], a.scope[i]);
      assert more == a.scope[..i + 1];
      Assoc(base, Words(a.scope[..i]), Word(a.scope[i]));
    }
    assert a.scope[..|a.scope|] == a.scope;
    Regroup(before, BytesSection(a.data), Word(|a.scope|), Words(a.scope));
    Assoc(before, BytesSection(a.data), ArraySection(a.scope));
  }

  lemma EmptyPad()
    ensures forall b: Bytes :: b == [] ==> PadTo32(b) == []
  {
  }

  lemma NoWords() returns (r: seq<nat>)
    ensures r == [] && Words(r) == []
  {
    r := [];
  }

  lemma {:induction false} WordsAppend(a: seq<nat>, b: seq<nat>)
    ensures Words(a + b) == Words(a) + Words(b)
  {
    hide Word;
    if a == [] {
      assert a + b == b;
    } else {
      assert (a + b)[1..] == a[1..] + b;
      WordsAppend(a[1..], b);
    }
  }

  lemma MoreWords(done: seq<nat>, n: nat) returns (more: seq<nat>)
    ensures more == done + [n] && Words(more) == Words(done) + Word(n)
  {
    more := done + [n];
    WordsAppend(done, [n]);
    OneWord(n);
  }

  lemma PaddedLength(data: Bytes)
    ensures (if data == [] then 0 else (|data| + 31) / 32 * 32) == |PadTo32(data)|
  {
  }

  // ---------- Where everything stands ----------

  /** The encoded tuple at `at`, place by place: the nine words of the head in the order of the struct, the two
      offsets counted from its start, then the data and the scope. */
  ghost predicate ActionStands(b: Bytes, at: nat, a: Action) {
    var scopeAt := 320 + Padded(|a.data|);
    && |b| == at + scopeAt + 32 + 32 * |a.scope|
    && WordsStand(b, at, [a.actionType, a.rollupId, Nat(a.destination), a.value, 288, if a.failed then 1 else 0,
                          Nat(a.sourceAddress), a.sourceRollup, scopeAt])
    && BytesStand(b, at + 288, a.data) && WordsStand(b, at + scopeAt, [|a.scope|] + a.scope)
  }

  lemma ActionPlaced(before: Bytes, a: Action)
    requires ValidAction(a)
    ensures ActionStands(before + EncodeAction(a), |before|, a)
  {
    hide Nat, Pow256, Words, BytesStand, WordsStand, Padded, PadTo32, Fits, Word;
    HeadFits(a);
    PaddedSize(a.data);
    var (head, bytes, scope) := (Words(Head(a)), BytesSection(a.data), ArraySection(a.scope));
    Assoc(head, bytes, scope);
    WordsPlaced(before, Head(a), bytes + scope);
    Assoc(before, head, bytes + scope);
    SectionPlaced(before + head, a.data, scope);
    ScopePlaced(before + head + bytes, a.scope);
    Assoc(before + head, bytes, scope);
  }

  lemma ScopePlaced(before: Bytes, ns: seq<nat>)
    requires Fits(ns) && |ns| < U64_LIMIT
    ensures WordsStand(before + ArraySection(ns), |before|, [|ns|] + ns)
  {
    hide Nat, Pow256, Words, WordsStand, Word;
    Wide(|ns|);
    WordsAppend([|ns|], ns);
    OneWord(|ns|);
    WordsPlaced(before, [|ns|] + ns, []);
    assert Words([|ns|] + ns) + [] == ArraySection(ns);
  }

  lemma OneWord(n: nat)
    ensures Words([n]) == Word(n)
  {
    assert [n][1..] == [];
  }

  /** `abi.encode` of one action: an offset of 32, then the tuple. */
  lemma ActionLayout(a: Action)
    requires ValidAction(a)
    ensures WordsStand(AbiEncode(a), 0, [32]) && ActionStands(AbiEncode(a), 32, a)
  {
    hide Nat, Pow256, Words, WordsStand, Word, EncodeAction, ActionStands;
    Wide(0x20);
    OneWord(0x20);
    WordsPlaced([], [0x20], EncodeAction(a));
    ActionPlaced(Word(0x20), a);
    assert [] + AbiEncode(a) == AbiEncode(a);
  }

  // ---------- Round trips ----------

  lemma HeadFits(a: Action)
    requires ValidAction(a)
    ensures Fits(Head(a))
  {
    hide Nat, Pow256;
    AddressWord(a.destination);
    AddressWord(a.sourceAddress);
    Wide(a.actionType);
    Wide(9 * 32);
    Wide(1);
    Wide(0);
    Wide(ScopeOffset(a.data));
  }

  /** The fixed fields, read at their places. */
  lemma HeadReads(a: Action, rest: Bytes)
    requires ValidAction(a)
    ensures var e := Words(Head(a)) + rest;
            && e[31] == a.actionType && Nat(e[32..64]) == a.rollupId && e[76..96] == a.destination
            && Nat(e[96..128]) == a.value && (e[191] != 0 <==> a.failed) && e[204..224] == a.sourceAddress
            && Nat(e[224..256]) == a.sourceRollup
            && ReadWord(e, 128) == Ok(9 * 32) && ReadWord(e, 256) == Ok(ScopeOffset(a.data))
  {
    hide Nat, Pow256, Words, Word, Fits, BytesSection;
    var h, e := Head(a), Words(Head(a)) + rest;
    HeadFits(a);
    FitsAt(h, 1);
    FitsAt(h, 3);
    FitsAt(h, 4);
    FitsAt(h, 7);
    FitsAt(h, 8);
    ReadAt(h, rest, 1);
    ReadAt(h, rest, 3);
    ReadAt(h, rest, 4);
    ReadAt(h, rest, 7);
    ReadAt(h, rest, 8);
    LastByteAt(h, rest, 0);
    LastByteAt(h, rest, 5);
    AddressAt(h, rest, 2, a.destination);
    AddressAt(h, rest, 6, a.sourceAddress);
  }

  lemma FitsAt(ns: seq<nat>, k: nat)
    requires Fits(ns) && k < |ns|
    ensures ns[k] < Pow256(32)
  {
  }

  lemma LastByteAt(ns: seq<nat>, rest: Bytes, k: nat)
    requires k < |ns| && ns[k] < 256
    ensures (Words(ns) + rest)[32 * k + 31] == ns[k]
  {
    hide Words, Word;
    WordAt(ns, rest, k);
    ByteWord(ns[k]);
    assert (Words(ns) + rest)[32 * k..32 * k + 32][31] == Word(ns[k])[31];
  }

  lemma AddressAt(ns: seq<nat>, rest: Bytes, k: nat, addr: Bytes)
    requires k < |ns| && |addr| == 20 && ns[k] == Nat(addr)
    ensures (Words(ns) + rest)[32 * k + 12..32 * k + 32] == addr
  {
    hide Words, Word, Nat;
    WordAt(ns, rest, k);
    AddressWord(addr);
    var e := Words(ns) + rest;
    assert e[32 * k..32 * k + 32][12..] == e[32 * k + 12..32 * k + 32];
  }

  /** Decoding what was encoded gives the action back, except that unknown types become results;
      nothing behind the encoding is read. */
  lemma DecodeEncodedAction(a: Action, rest: Bytes)
    requires ValidAction(a)
    ensures DecodeAction(EncodeAction(a) + rest) == Ok(if a.actionType <= 4 then a else a.(actionType := 1))
  {
    hide Nat, Pow256, Words, Word, Fits, BytesSection, ArraySection, ReadWord, DecodeBytes, ScanArray;
    var head, bytes, scope := Words(Head(a)), BytesSection(a.data), ArraySection(a.scope);
    var e := EncodeAction(a) + rest;
    assert e == head + (bytes + (scope + rest)) by {
      Assoc(head + bytes, scope, rest);
      Assoc(head, bytes, scope + rest);
    }
    HeadReads(a, bytes + (scope + rest));
    assert e[9 * 32..] == bytes + (scope + rest);
    assert e[ScopeOffset(a.data)..] == scope + rest;
    BytesRead(a.data, scope + rest);
    ArrayRead(a.scope, rest);
  }

  /** Decoding inverts encoding exactly on the action types of the contracts. */
  lemma ActionRoundTrip(a: Action, rest: Bytes)
    requires ValidAction(a)
    ensures DecodeAction(EncodeAction(a) + rest) == Ok(a) <==> a.actionType <= 4
  {
    hide DecodeAction, EncodeAction, ValidAction;
    DecodeEncodedAction(a, rest);
  }

  /** The event data, which is the form that is hashed, decodes to the action. */
  lemma ConsumedRoundTrip(a: Action, actionHash: Bytes)
    requires ValidAction(a) && a.actionType <= REVERT_CONTINUE
    ensures DecodeExecutionConsumed(AbiEncode(a), actionHash) == Ok(Consumed(actionHash, a))
  {
    hide DecodeAction, EncodeAction, ReadWord, Word;
    var e := EncodeAction(a);
    Wide(0x20);
    WordReads(0x20, e);
    assert (Word(0x20) + e)[32..] == e && e + [] == e;
    ActionRoundTrip(a, []);
  }

  /** Equal hashes mean equal actions, if the hash tells these two encodings apart. */
  lemma EqualHashesEqualActions(keccak: Bytes -> Bytes, a: Action, b: Action)
    requires ValidAction(a) && ValidAction(b) && a.actionType <= REVERT_CONTINUE && b.actionType <= REVERT_CONTINUE
    requires keccak(AbiEncode(a)) == keccak(AbiEncode(b)) ==> AbiEncode(a) == AbiEncode(b)
    ensures ActionHash(keccak, a) == ActionHash(keccak, b) <==> a == b
  {
    hide AbiEncode, DecodeExecutionConsumed, ValidAction;
    ConsumedRoundTrip(a, []);
    ConsumedRoundTrip(b, []);
  }

  // ---------- Decoding any tuple ----------

  /** What the decoder makes of any data: each fixed field from its own place, the flag set by any non-zero byte, and
      types above 4 read as RESULT. */
  lemma DecodedFields(data: Bytes)
    requires DecodeAction(data).Ok?
    ensures var a := DecodeAction(data).value;
            && |data| >= 288 && a.actionType == (if data[31] <= 4 then data[31] else 1)
            && WordStands(data, 32, a.rollupId) && a.destination == data[76..96] && WordStands(data, 96, a.value)
            && (a.failed <==> data[191] != 0) && a.sourceAddress == data[204..224] && WordStands(data, 224, a.sourceRollup)
    ensures var (a, dataAt, scopeAt) := (DecodeAction(data).value, Nat(data[128..160]), Nat(data[256..288]));
            && dataAt < 0x1_0000_0000_0000_0000 && scopeAt < 0x1_0000_0000_0000_0000
            && Ok(a.data) == DataAt(data, dataAt) && Ok(a.scope) == ScopeAt(data, scopeAt)
  {
    hide Nat, DecodeBytes, ScanArray;
  }

  /** The data at an offset: nothing at offset 0 or with less than a word behind it, otherwise as many bytes as the
      word tells, all of which must be there. */
  lemma DataExactly(b: Bytes, at: nat, data: Bytes)
    ensures DataAt(b, at) == Ok(data) <==>
            if at == 0 || |b| < at + 32 then data == []
            else
              && WordStands(b, at, |data|) && |data| < 0x1_0000_0000_0000_0000
              && at + 32 + |data| <= |b| && b[at + 32..at + 32 + |data|] == data
  {
    hide Nat;
    if at > 0 && |b| > at {
      var tail := b[at..];
      if |tail| >= 32 {
        assert tail[0..32] == b[at..at + 32];
        if 32 + |data| <= |tail| { assert tail[32..32 + |data|] == b[at + 32..at + 32 + |data|]; }
      }
    }
  }

  /** The scope at an offset: as many words as are stated or present. */
  lemma {:induction false} ScanExactly(b: Bytes, len: nat)
    ensures var (ns, n) := (Scan(b, len), |b| / 32);
            |ns| == (if len < n then len else n) && WordsStand(b, 0, ns)
    decreases len
  {
    if len == 0 || |b| < 32 {
    } else {
      ScanExactly(b[32..], len - 1);
      var ns := Scan(b, len);
      forall k | 0 <= k < |ns| ensures WordStands(b, 0 + 32 * k, ns[k]) {
        if k > 0 {
          assert WordStands(b[32..], 0 + 32 * (k - 1), ns[1..][k - 1]);
          assert b[32..][32 * (k - 1)..32 * (k - 1) + 32] == b[32 * k..32 * k + 32];
        } else {
          assert b[..32] == b[0..32];
        }
      }
    }
  }
}
