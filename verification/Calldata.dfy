/** The calldata that the Rust event processor builds and takes apart, against a decoder that follows
    every offset of the ABI. */
module Calldata {
  import opened Abi
  import opened Actions
  import opened Bytes
  import opened Entries
  import opened TxEncoding
  import opened Wrappers

  const SELECTOR_SIZE := 4

  // ---------- A dynamic bytes parameter ----------

  /** Of the sums of 64-bit sizes only the first can wrap around and still be in range. */
  function DecodeBytesParam(calldata: Bytes, paramIndex: nat): Result<Bytes> {
    var offset :- ReadUsize(calldata, SELECTOR_SIZE + paramIndex * 32);
    var dataStart := (SELECTOR_SIZE + offset) % U64_LIMIT;
    var length :- ReadUsize(calldata, dataStart);
    if |calldata| < dataStart + 32 + length then Err
    else Ok(calldata[dataStart + 32..dataStart + 32 + length])
  }

  /** Parameter `k` is `offset`, and there, counted from behind the selector, a length and the bytes `data` stand. */
  predicate ParamStands(calldata: Bytes, k: nat, offset: nat, data: Bytes) {
    var at := (4 + offset) % 0x1_0000_0000_0000_0000;
    && WordStands(calldata, 4 + 32 * k, offset) && WordStands(calldata, at, |data|)
    && offset < 0x1_0000_0000_0000_0000 && |data| < 0x1_0000_0000_0000_0000
    && at + 32 + |data| <= |calldata| && calldata[at + 32..at + 32 + |data|] == data
  }

  lemma WordRead(b: Bytes, at: nat, n: nat)
    requires n < U64_LIMIT
    ensures ReadUsize(b, at) == Ok(n) <==> WordStands(b, at, n)
  {
    hide Nat;
  }

  lemma ParamRead(calldata: Bytes, k: nat, offset: nat, data: Bytes)
    requires ParamStands(calldata, k, offset, data)
    ensures DecodeBytesParam(calldata, k) == Ok(data)
  {
    WordRead(calldata, SELECTOR_SIZE + k * 32, offset);
    WordRead(calldata, (4 + offset) % 0x1_0000_0000_0000_0000, |data|);
    hide ReadUsize, WordStands;
  }

  lemma ParamStood(calldata: Bytes, k: nat, data: Bytes) returns (offset: nat)
    requires DecodeBytesParam(calldata, k) == Ok(data)
    ensures ParamStands(calldata, k, offset, data)
  {
    offset := ReadUsize(calldata, SELECTOR_SIZE + k * 32).value;
    SmallSize(calldata, SELECTOR_SIZE + k * 32);
    SmallSize(calldata, (4 + offset) % 0x1_0000_0000_0000_0000);
    WordRead(calldata, SELECTOR_SIZE + k * 32, offset);
    hide ReadUsize, WordStands;
    WordRead(calldata, (4 + offset) % 0x1_0000_0000_0000_0000, |data|);
  }

  lemma SmallSize(b: Bytes, at: nat)
    ensures ReadUsize(b, at).Ok? ==> ReadUsize(b, at).value < U64_LIMIT
  {
  }

  /** Nothing else is read, and anything else is an error. */
  lemma ParamExactly(calldata: Bytes, k: nat, data: Bytes)
    ensures DecodeBytesParam(calldata, k) == Ok(data) <==> exists offset: nat :: ParamStands(calldata, k, offset, data)
  {
    hide *;
    if DecodeBytesParam(calldata, k) == Ok(data) {
      var offset := ParamStood(calldata, k, data);
    }
    forall offset: nat | ParamStands(calldata, k, offset, data) ensures DecodeBytesParam(calldata, k) == Ok(data) {
      ParamRead(calldata, k, offset, data);
    }
  }

  lemma ReadBehind(a: Bytes, b: Bytes, at: nat)
    ensures ReadWord(a + b, |a| + at) == ReadWord(b, at)
  {
    hide Nat;
    if at + 32 <= |b| {
      SliceBehind(a, b, at, at + 32);
    }
  }

  /** A section is read from where it starts. */
  lemma SectionFound(before: Bytes, data: Bytes, rest: Bytes)
    requires |data| < U64_LIMIT
    ensures var e := before + (BytesSection(data) + rest);
            && ReadUsize(e, |before|) == Ok(|data|) && |before| + 32 + |data| <= |e|
            && e[|before| + 32..|before| + 32 + |data|] == data
  {
    hide ReadWord, Word, Pow256, PadTo32;
    var behind := PadTo32(data) + rest;
    Assoc(Word(|data|), PadTo32(data), rest);
    ReadBehind(before, Word(|data|) + behind, 0);
    Wide(|data|);
    WordReads(|data|, behind);
    SliceBehind(before, Word(|data|) + behind, 32, 32 + |data|);
    SliceBehind(Word(|data|), behind, 0, |data|);
    assert behind[0..|data|] == PadTo32(data)[..|data|];
  }

  lemma ParamPointsAt(calldata: Bytes, before: Bytes, data: Bytes, rest: Bytes, k: nat)
    requires |data| < U64_LIMIT && SELECTOR_SIZE <= |before| < U64_LIMIT
    requires calldata == before + (BytesSection(data) + rest)
    requires ReadWord(calldata, SELECTOR_SIZE + 32 * k) == Ok(|before| - SELECTOR_SIZE)
    ensures DecodeBytesParam(calldata, k) == Ok(data)
  {
    hide ReadWord, BytesSection;
    SectionFound(before, data, rest);
  }

  /** A parameter whose head word points at its section is found, whatever lies between and behind. */
  lemma BytesParam(selector: Bytes, head: seq<nat>, between: Bytes, data: Bytes, rest: Bytes, k: nat)
    requires |selector| == SELECTOR_SIZE && k < |head| && |data| < U64_LIMIT
    requires head[k] == 32 * |head| + |between| && SELECTOR_SIZE + head[k] < U64_LIMIT
    ensures DecodeBytesParam(selector + (Words(head) + (between + (BytesSection(data) + rest))), k) == Ok(data)
  {
    hide ReadWord, Words, Pow256, BytesSection, DecodeBytesParam;
    var tail := between + (BytesSection(data) + rest);
    Wide(head[k]);
    ReadBehind(selector, Words(head) + tail, 32 * k);
    ReadAt(head, tail, k);
    Reassociate(selector, Words(head), between, BytesSection(data) + rest);
    ParamPointsAt(selector + (Words(head) + tail), selector + Words(head) + between, data, rest, k);
  }

  /** `executeL2TX(rollupId, rlpEncodedTx)` as the ABI encodes it. */
  function ExecuteL2TxCalldata(selector: Bytes, rollupId: nat, rlp: Bytes): Bytes {
    selector + (Words([rollupId, 0x40]) + BytesSection(rlp))
  }

  /** Selector, rollup, the offset of the transaction and the transaction. */
  lemma TransactionLayout(selector: Bytes, rollupId: nat, rlp: Bytes)
    requires |selector| == 4 && |rlp| < U64_LIMIT && rollupId < Pow256(32)
    ensures var b := ExecuteL2TxCalldata(selector, rollupId, rlp);
            b[..4] == selector && WordsStand(b, 4, [rollupId, 64]) && BytesStand(b, 68, rlp) && |b| == 100 + Padded(|rlp|)
  {
    hide BytesSection, Words, WordsStand, BytesStand, Pow256, Padded;
    Wide(0x40);
    WordsPlaced(selector, [rollupId, 0x40], BytesSection(rlp));
    SectionPlaced(selector + Words([rollupId, 0x40]), rlp, []);
    PaddedSize(rlp);
    assert BytesSection(rlp) + [] == BytesSection(rlp);
    Assoc(selector, Words([rollupId, 0x40]), BytesSection(rlp));
    SectionSize(rlp);
  }

  lemma SectionSize(data: Bytes)
    ensures |BytesSection(data)| == 32 + Padded(|data|)
  {
    PaddedSize(data);
  }

  /** The transaction inside an `executeL2TX` call comes out as it went in. */
  lemma TransactionFound(selector: Bytes, rollupId: nat, rlp: Bytes)
    requires |selector| == SELECTOR_SIZE && |rlp| < U64_LIMIT
    ensures DecodeBytesParam(ExecuteL2TxCalldata(selector, rollupId, rlp), 1) == Ok(rlp)
  {
    hide BytesSection, DecodeBytesParam, Words;
    BytesParam(selector, [rollupId, 0x40], [], rlp, [], 1);
    assert [] + (BytesSection(rlp) + []) == BytesSection(rlp);
  }

  // ---------- executeIncomingCrossChainCall ----------

  datatype Incoming = Incoming(destination: Bytes, value: nat, data: Bytes,
                               sourceAddress: Bytes, sourceRollup: nat, scope: seq<nat>)

  ghost predicate ValidIncoming(c: Incoming) {
    && |c.destination| == 20 && |c.sourceAddress| == 20 && c.value < Pow256(32) && c.sourceRollup < Pow256(32)
    && |c.data| < SLICE_LIMIT && c.scope == []
  }

  function IncomingHead(c: Incoming): (r: seq<nat>)
    ensures |r| == 6
  {
    [Nat(c.destination), c.value, 0xC0, Nat(c.sourceAddress), c.sourceRollup, 0xC0 + |BytesSection(c.data)|]
  }

  function IncomingCalldata(selector: Bytes, c: Incoming): Bytes {
    selector + (Words(IncomingHead(c)) + (BytesSection(c.data) + ArraySection([])))
  }

  method BuildExecuteIncomingCalldata(selector: Bytes, destination: Bytes, value: nat, callData: Bytes,
                                      sourceAddress: Bytes, sourceRollup: nat) returns (calldata: Bytes)
    requires ValidIncoming(Incoming(destination, value, callData, sourceAddress, sourceRollup, []))
    ensures calldata == IncomingCalldata(selector, Incoming(destination, value, callData, sourceAddress, sourceRollup, []))
  {
    hide Word, Words, Nat, Pow256, BigEndian, Zeros, PadTo32, EncodeU256;
    ghost var c := Incoming(destination, value, callData, sourceAddress, sourceRollup, []);
    var out := new Buffer();
    out.Extend(selector);
    assert out.bytes == selector;
    AddressWord(destination);
    AddressWord(sourceAddress);
    ghost var done := NoWords();
    assert selector + [] == selector;
    out.Extend(Zeros(12) + destination);
    done := WordBehind(selector, done, Nat(destination));
    out.Extend(BigEndian(value, 32));
    WordIs(value);
    done := WordBehind(selector, done, value);
    out.Extend(EncodeU256(0xC0));
    done := WordBehind(selector, done, 0xC0);
    out.Extend(Zeros(12) + sourceAddress);
    done := WordBehind(selector, done, Nat(sourceAddress));
    out.Extend(BigEndian(sourceRollup, 32));
    WordIs(sourceRollup);
    done := WordBehind(selector, done, sourceRollup);
    var paddedLen := if callData == [] then 0 else (|callData| + 31) / 32 * 32;
    PaddedLength(callData);
    out.Extend(EncodeU256(0xC0 + 32 + paddedLen));
    done := WordBehind(selector, done, 0xC0 + 32 + paddedLen);
    assert done == IncomingHead(c);
    AppendCallData(out, callData, paddedLen);
    Assoc(selector, Words(done), BytesSection(callData) + ArraySection([]));
    calldata := out.bytes;
  }

  method AppendCallData(out: Buffer, callData: Bytes, paddedLen: nat)
    requires |callData| < SLICE_LIMIT && paddedLen == |PadTo32(callData)|
    modifies out
    ensures out.bytes == old(out.bytes) + (BytesSection(callData) + ArraySection([]))
  {
    hide Word, Words, EncodeU256;
    ghost var before := out.bytes;
    out.Extend(EncodeU256(|callData|));
    ghost var start := out.bytes;
    if callData != [] {
      out.Extend(callData);
      var padding := paddedLen - |callData|;
      out.Extend(Zeros(padding));
    }
    PadIs(start, callData);
    assert out.bytes == start + PadTo32(callData);
    Assoc(before, Word(|callData|), PadTo32(callData));
    out.Extend(EncodeU256(0));
    NoElements();
    Assoc(before, BytesSection(callData), ArraySection([]));
  }

  lemma PadIs(start: Bytes, data: Bytes)
    ensures data == [] ==> start + PadTo32(data) == start
    ensures start + data + Zeros(|PadTo32(data)| - |data|) == start + PadTo32(data)
  {
  }

  lemma NoElements()
    ensures ArraySection([]) == Word(0)
  {
    assert Words([]) == [];
  }

  lemma WordBehind(base: Bytes, done: seq<nat>, n: nat) returns (more: seq<nat>)
    ensures more == done + [n] && base + Words(more) == base + Words(done) + Word(n)
  {
    more := MoreWords(done, n);
    Assoc(base, Words(done), Word(n));
  }

  /** Selector, the six words of the head, the data and an empty scope. */
  predicate IncomingStands(b: Bytes, selector: Bytes, c: Incoming) {
    var scopeAt := 224 + Padded(|c.data|);
    && |b| == 4 + scopeAt + 32 && b[..4] == selector
    && WordsStand(b, 4, [Nat(c.destination), c.value, 192, Nat(c.sourceAddress), c.sourceRollup, scopeAt])
    && BytesStand(b, 196, c.data) && WordsStand(b, 4 + scopeAt, [0])
  }

  lemma IncomingLayout(selector: Bytes, c: Incoming)
    requires |selector| == 4 && ValidIncoming(c)
    ensures IncomingStands(IncomingCalldata(selector, c), selector, c)
  {
    hide Nat, Pow256, Words, Word, BytesSection, ArraySection, WordsStand, BytesStand, Padded;
    AddressWord(c.destination);
    AddressWord(c.sourceAddress);
    Wide(0xC0);
    Wide(0xC0 + |BytesSection(c.data)|);
    var (head, bytes, scope) := (Words(IncomingHead(c)), BytesSection(c.data), ArraySection([]));
    WordsPlaced(selector, IncomingHead(c), bytes + scope);
    Assoc(selector, head, bytes + scope);
    SectionPlaced(selector + head, c.data, scope);
    SectionSize(c.data);
    ScopePlaced(selector + head + bytes, []);
    var none: seq<nat> := [];
    assert [|none|] + none == [0];
    Assoc(selector + head, bytes, scope);
  }

  /** The six arguments, each dynamic one reached through its offset. */
  function DecodeIncoming(calldata: Bytes): Result<Incoming> {
    if |calldata| < SELECTOR_SIZE + 6 * 32 then Err
    else
      var args := calldata[SELECTOR_SIZE..];
      var dataOffset :- ReadUsize(args, 64);
      var scopeOffset :- ReadUsize(args, 160);
      if |args| < dataOffset + 32 || |args| < scopeOffset + 32 then Err
      else
        var data :- DecodeBytes(args[dataOffset..]);
        var scope :- ScanArray(args[scopeOffset..]);
        Ok(Incoming(args[12..32], Nat(args[32..64]), data, args[108..128], Nat(args[128..160]), scope))
  }

  /** The built call carries its arguments, for every length of the data: the data is found again by
      the parameter decoder, and the offset of the scope lands on an empty array. */
  lemma IncomingRoundTrip(selector: Bytes, c: Incoming)
    requires |selector| == SELECTOR_SIZE && ValidIncoming(c)
    ensures DecodeBytesParam(IncomingCalldata(selector, c), 2) == Ok(c.data)
    ensures DecodeIncoming(IncomingCalldata(selector, c)) == Ok(c)
  {
    hide Nat, Pow256, Words, Word, BytesSection, ArraySection, DecodeBytesParam;
    var bytes, scope := BytesSection(c.data), ArraySection([]);
    BytesParam(selector, IncomingHead(c), [], c.data, scope, 2);
    assert [] + (bytes + scope) == bytes + scope;
    IncomingFields(c);
    IncomingSections(c);
    IncomingParts(selector, c);
  }

  function IncomingArgs(c: Incoming): Bytes {
    Words(IncomingHead(c)) + (BytesSection(c.data) + ArraySection([]))
  }

  lemma IncomingParts(selector: Bytes, c: Incoming)
    requires |selector| == SELECTOR_SIZE && ValidIncoming(c)
    requires var args := IncomingArgs(c);
             && args[12..32] == c.destination && Nat(args[32..64]) == c.value && args[108..128] == c.sourceAddress
             && Nat(args[128..160]) == c.sourceRollup
             && ReadUsize(args, 64) == Ok(0xC0) && ReadUsize(args, 160) == Ok(0xC0 + |BytesSection(c.data)|)
    requires DecodeBytes(IncomingArgs(c)[0xC0..]) == Ok(c.data)
    requires ScanArray(IncomingArgs(c)[0xC0 + |BytesSection(c.data)|..]) == Ok([])
    ensures DecodeIncoming(IncomingCalldata(selector, c)) == Ok(c)
  {
    hide Nat, Pow256, Words, Word, BytesSection, ArraySection, ReadUsize, DecodeBytes, ScanArray;
    assert IncomingCalldata(selector, c)[SELECTOR_SIZE..] == IncomingArgs(c);
  }

  lemma IncomingFields(c: Incoming)
    requires ValidIncoming(c)
    ensures var args := IncomingArgs(c);
            && args[12..32] == c.destination && Nat(args[32..64]) == c.value && args[108..128] == c.sourceAddress
            && Nat(args[128..160]) == c.sourceRollup
            && ReadUsize(args, 64) == Ok(0xC0) && ReadUsize(args, 160) == Ok(0xC0 + |BytesSection(c.data)|)
  {
    hide Nat, Pow256, Words, Word, BytesSection, ArraySection, ReadWord;
    var h, rest := IncomingHead(c), BytesSection(c.data) + ArraySection([]);
    AddressAt(h, rest, 0, c.destination);
    AddressAt(h, rest, 3, c.sourceAddress);
    Wide(h[2]);
    Wide(h[5]);
    IncomingWords(h, rest);
  }

  lemma IncomingSections(c: Incoming)
    requires ValidIncoming(c)
    ensures DecodeBytes(IncomingArgs(c)[0xC0..]) == Ok(c.data)
    ensures ScanArray(IncomingArgs(c)[0xC0 + |BytesSection(c.data)|..]) == Ok([])
  {
    hide Words, Word, BytesSection, ArraySection, DecodeBytes, ScanArray, IncomingHead;
    var bytes, scope := BytesSection(c.data), ArraySection([]);
    var args := IncomingArgs(c);
    assert args[0xC0..] == bytes + scope;
    assert args[0xC0 + |bytes|..] == scope && scope + [] == scope;
    BytesRead(c.data, scope);
    ArrayRead([], []);
  }

  lemma IncomingWords(h: seq<nat>, rest: Bytes)
    requires |h| == 6 && h[1] < Pow256(32) && h[2] < Pow256(32) && h[4] < Pow256(32) && h[5] < Pow256(32)
    ensures var args := Words(h) + rest;
            && Nat(args[32..64]) == h[1] && Nat(args[128..160]) == h[4]
            && ReadWord(args, 64) == Ok(h[2]) && ReadWord(args, 160) == Ok(h[5])
  {
    hide Words, Nat, Pow256;
    ReadAt(h, rest, 1);
    ReadAt(h, rest, 2);
    ReadAt(h, rest, 4);
    ReadAt(h, rest, 5);
  }

  // ---------- loadExecutionTable ----------

  function ResultAction(data: Bytes, failed: bool): Action {
    Action(RESULT, 0, ZERO_ADDRESS, 0, data, failed, ZERO_ADDRESS, 0, [])
  }

  /** One entry without state deltas. */
  function LoadCalldata(selector: Bytes, actionHash: Bytes, next: Action): Bytes {
    selector + (Words([0x20, 1, 0x20, 0x60, Nat(actionHash), 0x80, 0]) + EncodeAction(next))
  }

  /** Selector, the offset of the array and its one element's, the element's head with no deltas, and the next
      action. */
  lemma LoadLayout(selector: Bytes, actionHash: Bytes, next: Action)
    requires |selector| == 4 && |actionHash| == 32 && ValidAction(next)
    ensures var b := LoadCalldata(selector, actionHash, next);
            b[..4] == selector && WordsStand(b, 4, [32, 1, 32, 96, Nat(actionHash), 128, 0]) && ActionStands(b, 228, next)
  {
    hide Nat, Pow256, Words, WordsStand, ActionStands, EncodeAction;
    Wide(0x80);
    Wide(0x60);
    Wide(0x20);
    Wide(1);
    Wide(0);
    HashWord(actionHash);
    var head := [0x20, 1, 0x20, 0x60, Nat(actionHash), 0x80, 0];
    WordsPlaced(selector, head, EncodeAction(next));
    ActionPlaced(selector + Words(head), next);
    Assoc(selector, Words(head), EncodeAction(next));
  }

  /** The words in front of the action, which both builders write alike. */
  method PushLoadHead(out: Buffer, selector: Bytes, actionHash: Bytes)
    requires |actionHash| == 32 && out.bytes == []
    modifies out
    ensures out.bytes == selector + Words([0x20, 1, 0x20, 0x60, Nat(actionHash), 0x80, 0])
  {
    hide Word, Words, Nat, Pow256, EncodeU256;
    out.Extend(selector);
    assert out.bytes == selector && selector + [] == selector;
    ghost var done := NoWords();
    out.Extend(EncodeU256(0x20));
    done := WordBehind(selector, done, 0x20);
    out.Extend(EncodeU256(1));
    done := WordBehind(selector, done, 1);
    out.Extend(EncodeU256(0x20));
    done := WordBehind(selector, done, 0x20);
    out.Extend(EncodeU256(0x60));
    done := WordBehind(selector, done, 0x60);
    out.Extend(actionHash);
    HashWord(actionHash);
    done := WordBehind(selector, done, Nat(actionHash));
    out.Extend(EncodeU256(0x80));
    done := WordBehind(selector, done, 0x80);
    out.Extend(EncodeU256(0));
    done := WordBehind(selector, done, 0);
    assert done == [0x20, 1, 0x20, 0x60, Nat(actionHash), 0x80, 0];
  }

  method BuildL2ToL1LoadCalldata(selector: Bytes, callHash: Bytes, resultData: Bytes, resultFailed: bool)
    returns (calldata: Bytes)
    requires |callHash| == 32 && |resultData| < SLICE_LIMIT
    ensures calldata == LoadCalldata(selector, callHash, ResultAction(resultData, resultFailed))
  {
    hide Words, Nat, Pow256, EncodeAction;
    var out := new Buffer();
    PushLoadHead(out, selector, callHash);
    ghost var head := [0x20, 1, 0x20, 0x60, Nat(callHash), 0x80, 0];
    ValidResult(resultData, resultFailed);
    var action := AbiEncodeAction(Action(1, 0, Zeros(20), 0, resultData, resultFailed, Zeros(20), 0, []));
    Assoc(selector, Words(head), action);
    out.Extend(action);
    calldata := out.bytes;
  }

  /** The builder for L1 to L2 calls: a terminal result without data. */
  method BuildLoadExecutionTableCalldata(selector: Bytes, resultHash: Bytes) returns (calldata: Bytes)
    requires |resultHash| == 32
    ensures calldata == LoadCalldata(selector, resultHash, ResultAction([], false))
  {
    hide Words, Nat, Pow256, EncodeAction;
    var out := new Buffer();
    PushLoadHead(out, selector, resultHash);
    ghost var head := [0x20, 1, 0x20, 0x60, Nat(resultHash), 0x80, 0];
    ValidResult([], false);
    var action := AbiEncodeAction(Action(1, 0, Zeros(20), 0, [], false, Zeros(20), 0, []));
    Assoc(selector, Words(head), action);
    out.Extend(action);
    calldata := out.bytes;
  }

  lemma ValidResult(data: Bytes, failed: bool)
    requires |data| < SLICE_LIMIT
    ensures ValidAction(ResultAction(data, failed))
  {
    Wide(0);
  }

  /** State deltas at the start of `data`: a count, then four words each. */
  function DecodeDeltas(data: Bytes): Result<seq<StateDelta>> {
    var n :- ReadUsize(data, 0);
    DeltasFrom(data, 32, n)
  }

  function DeltasFrom(data: Bytes, at: nat, n: nat): Result<seq<StateDelta>>
    decreases n
  {
    if n == 0 then Ok([])
    else
      var a :- ReadWord(data, at);
      var b :- ReadWord(data, at + 32);
      var c :- ReadWord(data, at + 64);
      var d :- ReadWord(data, at + 96);
      var rest :- DeltasFrom(data, at + 128, n - 1);
      Ok(DeltasOf([a, b, c, d]) + rest)
  }

  /** The entry at the start of `data`: its three head words and what they point at. */
  function DecodeEntry(data: Bytes): Result<Entry> {
    var deltasOffset :- ReadUsize(data, 0);
    var hash :- ReadWord(data, 32);
    var actionOffset :- ReadUsize(data, 64);
    if |data| < deltasOffset || |data| < actionOffset then Err
    else
      var deltas :- DecodeDeltas(data[deltasOffset..]);
      var action :- DecodeAction(data[actionOffset..]);
      Ok(Entry(deltas, data[32..64], action))
  }

  function EntriesFrom(area: Bytes, i: nat, n: nat): Result<seq<Entry>>
    requires i <= n
    decreases n - i
  {
    if i == n then Ok([])
    else
      var offset :- ReadUsize(area, 32 * i);
      if |area| < offset then Err
      else
        var entry :- DecodeEntry(area[offset..]);
        var rest :- EntriesFrom(area, i + 1, n);
        Ok([entry] + rest)
  }

  /** The argument of `loadExecutionTable`. */
  function DecodeLoad(calldata: Bytes): Result<seq<Entry>> {
    if |calldata| < SELECTOR_SIZE then Err
    else
      var args := calldata[SELECTOR_SIZE..];
      var arrayOffset :- ReadUsize(args, 0);
      var n :- ReadUsize(args, arrayOffset);
      EntriesFrom(args[arrayOffset + 32..], 0, n)
  }

  lemma WordsSplit(ns: seq<nat>, k: nat, rest: Bytes)
    requires k <= |ns|
    ensures (Words(ns) + rest)[32 * k..] == Words(ns[k..]) + rest
  {
    hide Words;
    assert ns == ns[..k] + ns[k..];
    WordsAppend(ns[..k], ns[k..]);
    Assoc(Words(ns[..k]), Words(ns[k..]), rest);
    assert (Words(ns[..k]) + (Words(ns[k..]) + rest))[32 * k..] == Words(ns[k..]) + rest;
  }

  /** The entry, from its head on. */
  lemma EntryReads(hash: Bytes, next: Action)
    requires |hash| == 32 && ValidAction(next) && next.actionType <= REVERT_CONTINUE
    ensures DecodeEntry(Words([0x60, Nat(hash), 0x80, 0]) + EncodeAction(next)) == Ok(Entry([], hash, next))
  {
    hide Words, Word, Nat, Pow256, EncodeAction, DecodeAction, ReadWord;
    var ns, e := [0x60, Nat(hash), 0x80, 0], EncodeAction(next);
    var data := Words(ns) + e;
    Wide(0x60);
    Wide(0x80);
    Wide(0);
    HashWord(hash);
    ReadAt(ns, e, 0);
    ReadAt(ns, e, 1);
    ReadAt(ns, e, 2);
    WordAt(ns, e, 1);
    WordsSplit(ns, 3, e);
    WordsSplit(ns, 4, e);
    assert ns[3..] == [0] && ns[4..] == [];
    ReadAt([0], e, 0);
    NothingBefore(e);
    ActionRoundTrip(next, []);
    assert e + [] == e;
  }

  lemma NothingBefore(e: Bytes)
    ensures Words([]) + e == e
  {
  }

  /** Following every offset of the built calldata reaches exactly one entry, without deltas, under
      the given hash and with the given next action. */
  lemma LoadRoundTrip(selector: Bytes, hash: Bytes, next: Action)
    requires |selector| == SELECTOR_SIZE && |hash| == 32 && ValidAction(next) && next.actionType <= REVERT_CONTINUE
    ensures DecodeLoad(LoadCalldata(selector, hash, next)) == Ok([Entry([], hash, next)])
  {
    hide Words, Word, Nat, Pow256, EncodeAction, DecodeEntry, ReadWord, ValidAction;
    var ns, e := [0x20, 1, 0x20, 0x60, Nat(hash), 0x80, 0], EncodeAction(next);
    var args := Words(ns) + e;
    assert LoadCalldata(selector, hash, next)[SELECTOR_SIZE..] == args;
    Wide(0x20);
    Wide(1);
    ReadAt(ns, e, 0);
    ReadAt(ns, e, 1);
    WordsSplit(ns, 2, e);
    WordsSplit(ns, 3, e);
    assert ns[2..] == [0x20, 0x60, Nat(hash), 0x80, 0] && ns[3..] == [0x60, Nat(hash), 0x80, 0];
    var area := Words(ns[2..]) + e;
    ReadAt(ns[2..], e, 0);
    WordsSplit(ns[2..], 1, e);
    assert ns[2..][1..] == ns[3..];
    EntryReads(hash, next);
    OneEntry(area, 0x20, Entry([], hash, next));
  }

  lemma OneEntry(area: Bytes, offset: nat, entry: Entry)
    requires ReadUsize(area, 0) == Ok(offset) && offset <= |area| && DecodeEntry(area[offset..]) == Ok(entry)
    ensures EntriesFrom(area, 0, 1) == Ok([entry])
  {
    hide DecodeEntry, ReadUsize;
    assert EntriesFrom(area, 1, 1) == Ok([]);
    assert [entry] + [] == [entry];
  }

  /** What the node preloads before an L2 to L1 call, decoded as the contract does. */
  lemma PreloadIsOneResult(selector: Bytes, callHash: Bytes, resultData: Bytes, failed: bool)
    requires |selector| == SELECTOR_SIZE && |callHash| == 32 && |resultData| < SLICE_LIMIT
    ensures DecodeLoad(LoadCalldata(selector, callHash, ResultAction(resultData, failed))) ==
            Ok([Entry(deltas := [], actionHash := callHash,
                      nextAction := Action(actionType := 1, rollupId := 0, destination := Zeros(20), value := 0,
                                           data := resultData, failed := failed, sourceAddress := Zeros(20),
                                           sourceRollup := 0, scope := []))])
  {
    ValidResult(resultData, failed);
    LoadRoundTrip(selector, callHash, ResultAction(resultData, failed));
  }
}
