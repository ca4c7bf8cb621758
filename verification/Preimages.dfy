/** The concatenations that the proof generator hashes, and what they determine. */
module Preimages {
  import opened Abi
  import opened Actions
  import opened Bytes
  import opened Entries
  import opened Wrappers

  /** An entry with the verification key of each of its deltas. */
  datatype Keyed = Keyed(entry: Entry, keys: seq<Bytes>)

  datatype Batch = Batch(parentHash: Bytes, blockNumber: nat, entries: seq<Keyed>, blobHashes: seq<Bytes>, callData: Bytes)

  ghost predicate Hashes(hs: seq<Bytes>) {
    |hs| < U64_LIMIT && forall i :: 0 <= i < |hs| ==> |hs[i]| == 32
  }

  ghost predicate ValidKeyed(k: Keyed) {
    && ValidDeltas(k.entry.deltas) && |k.entry.deltas| < U64_LIMIT && Hashes(k.keys) && |k.entry.actionHash| == 32
    && ValidAction(k.entry.nextAction) && k.entry.nextAction.actionType <= REVERT_CONTINUE
  }

  ghost predicate ValidBatch(b: Batch) {
    && |b.parentHash| == 32 && b.blockNumber < Pow256(32) && |b.entries| < U64_LIMIT && Hashes(b.blobHashes)
    && forall i :: 0 <= i < |b.entries| ==> ValidKeyed(b.entries[i])
  }

  // ---------- Encoding ----------

  function HashWords(hs: seq<Bytes>): (r: seq<nat>)
    ensures |r| == |hs| && forall i :: 0 <= i < |hs| ==> r[i] == Nat(hs[i])
  {
    seq(|hs|, i requires 0 <= i < |hs| => Nat(hs[i]))
  }

  /** `abi.encode` of one array with `n` elements that take `ws` words. */
  function EncodeArray(n: nat, ws: seq<nat>): (r: Bytes)
    ensures |r| == 64 + 32 * |ws|
  {
    Words([0x20, n]) + Words(ws)
  }

  function EncodeHashes(hs: seq<Bytes>): Bytes {
    EncodeArray(|hs|, HashWords(hs))
  }

  function EntryPreimage(k: Keyed): Bytes
    requires ValidKeyed(k)
  {
    EncodeArray(|k.entry.deltas|, AllDeltaWords(k.entry.deltas)) + EncodeHashes(k.keys)
    + k.entry.actionHash + AbiEncode(k.entry.nextAction)
  }

  function EntryHash(keccak: Bytes -> Bytes, k: Keyed): Bytes
    requires ValidKeyed(k)
  {
    keccak(EntryPreimage(k))
  }

  function EntryHashes(keccak: Bytes -> Bytes, ks: seq<Keyed>): (r: seq<Bytes>)
    requires forall i :: 0 <= i < |ks| ==> ValidKeyed(ks[i])
    ensures |r| == |ks| && forall i :: 0 <= i < |ks| ==> r[i] == EntryHash(keccak, ks[i])
  {
    seq(|ks|, i requires 0 <= i < |ks| => EntryHash(keccak, ks[i]))
  }

  function PublicInputs(parentHash: Bytes, blockNumber: nat, entryHashes: seq<Bytes>, blobHashes: seq<Bytes>,
                        callDataHash: Bytes): Bytes
  {
    parentHash + Word(blockNumber) + EncodeHashes(entryHashes) + EncodeHashes(blobHashes) + callDataHash
  }

  function BatchInputs(keccak: Bytes -> Bytes, b: Batch): Bytes
    requires ValidBatch(b)
  {
    PublicInputs(b.parentHash, b.blockNumber, EntryHashes(keccak, b.entries), b.blobHashes, keccak(b.callData))
  }

  function PublicInputsHash(keccak: Bytes -> Bytes, b: Batch): Bytes
    requires ValidBatch(b)
  {
    keccak(BatchInputs(keccak, b))
  }

  // ---------- Parsing ----------

  /** An array with elements of `size` words at the start of `b`, and what follows it. */
  function ParseArray(b: Bytes, size: nat): Result<(seq<nat>, Bytes)> {
    var n :- ReadWord(b, 32);
    var end := 64 + 32 * (size * n);
    if |b| < end then Err else Ok((Scan(b[64..], size * n), b[end..]))
  }

  function ParseHashes(b: Bytes): Result<(seq<Bytes>, Bytes)> {
    var (ws, rest) :- ParseArray(b, 1);
    Ok((seq(|ws|, i requires 0 <= i < |ws| => Word(ws[i])), rest))
  }

  function ParseEntry(b: Bytes): Result<Keyed> {
    var (ws, afterDeltas) :- ParseArray(b, 4);
    var (keys, afterKeys) :- ParseHashes(afterDeltas);
    if |afterKeys| < 32 then Err
    else
      var consumed :- DecodeExecutionConsumed(afterKeys[32..], afterKeys[..32]);
      Ok(Keyed(Entry(DeltasOf(ws), consumed.actionHash, consumed.action), keys))
  }

  datatype Inputs = Inputs(parentHash: Bytes, blockNumber: nat, entryHashes: seq<Bytes>, blobHashes: seq<Bytes>,
                           callDataHash: Bytes)

  function ParseInputs(b: Bytes): Result<Inputs> {
    var blockNumber :- ReadWord(b, 32);
    var (entryHashes, afterEntries) :- ParseHashes(b[64..]);
    var (blobHashes, callDataHash) :- ParseHashes(afterEntries);
    Ok(Inputs(b[..32], blockNumber, entryHashes, blobHashes, callDataHash))
  }

  lemma ArrayParsed(n: nat, ws: seq<nat>, size: nat, rest: Bytes)
    requires n < Pow256(32) && Fits(ws) && |ws| == size * n
    ensures ParseArray(EncodeArray(n, ws) + rest, size) == Ok((ws, rest))
  {
    hide Pow256, Words, ReadWord, Scan;
    var b := EncodeArray(n, ws) + rest;
    Assoc(Words([0x20, n]), Words(ws), rest);
    ReadAt([0x20, n], Words(ws) + rest, 1);
    ScanWords(ws, rest);
    assert b[64..] == Words(ws) + rest;
    assert b[64 + 32 * |ws|..] == rest;
  }

  lemma HashWordsFit(hs: seq<Bytes>)
    requires Hashes(hs)
    ensures Fits(HashWords(hs))
    ensures forall i :: 0 <= i < |hs| ==> Word(HashWords(hs)[i]) == hs[i]
  {
    hide Word, Pow256, Nat;
    forall i | 0 <= i < |hs| ensures HashWords(hs)[i] < Pow256(32) && Word(HashWords(hs)[i]) == hs[i] {
      HashWord(hs[i]);
    }
  }

  lemma HashesParsed(hs: seq<Bytes>, rest: Bytes)
    requires Hashes(hs)
    ensures ParseHashes(EncodeHashes(hs) + rest) == Ok((hs, rest))
  {
    hide Pow256, Word, Nat, EncodeArray, ParseArray, Fits;
    Wide(|hs|);
    HashWordsFit(hs);
    ArrayParsed(|hs|, HashWords(hs), 1, rest);
    assert seq(|hs|, i requires 0 <= i < |hs| => Word(HashWords(hs)[i])) == hs;
  }

  /** The hashed concatenation of an entry parses back to the entry and its keys. */
  lemma EntryParsed(k: Keyed)
    requires ValidKeyed(k)
    ensures ParseEntry(EntryPreimage(k)) == Ok(k)
  {
    hide EncodeArray, EncodeHashes, AbiEncode, ParseArray, ParseHashes, DecodeExecutionConsumed;
    hide DeltasOf, AllDeltaWords, Pow256, Fits, ValidAction;
    var e := k.entry;
    var action := AbiEncode(e.nextAction);
    Wide(|e.deltas|);
    DeltasBack(e.deltas);
    Reassociate(EncodeArray(|e.deltas|, AllDeltaWords(e.deltas)), EncodeHashes(k.keys), e.actionHash, action);
    ArrayParsed(|e.deltas|, AllDeltaWords(e.deltas), 4, EncodeHashes(k.keys) + (e.actionHash + action));
    HashesParsed(k.keys, e.actionHash + action);
    assert (e.actionHash + action)[..32] == e.actionHash && (e.actionHash + action)[32..] == action;
    ConsumedRoundTrip(e.nextAction, e.actionHash);
  }

  lemma InputsParsed(i: Inputs)
    requires |i.parentHash| == 32 && i.blockNumber < Pow256(32) && Hashes(i.entryHashes) && Hashes(i.blobHashes)
    ensures ParseInputs(PublicInputs(i.parentHash, i.blockNumber, i.entryHashes, i.blobHashes, i.callDataHash)) == Ok(i)
  {
    hide EncodeHashes, ParseHashes, Pow256, Word, Nat, Hashes, ReadWord;
    var entries, blobs := EncodeHashes(i.entryHashes), EncodeHashes(i.blobHashes);
    var tail := entries + (blobs + i.callDataHash);
    var b := i.parentHash + Word(i.blockNumber) + tail;
    assert PublicInputs(i.parentHash, i.blockNumber, i.entryHashes, i.blobHashes, i.callDataHash) == b by {
      Reassociate(i.parentHash + Word(i.blockNumber), entries, blobs, i.callDataHash);
    }
    BlockNumberRead(i.parentHash, i.blockNumber, tail);
    assert b[64..] == tail && b[..32] == i.parentHash;
    HashesParsed(i.entryHashes, blobs + i.callDataHash);
    HashesParsed(i.blobHashes, i.callDataHash);
  }

  lemma BlockNumberRead(parentHash: Bytes, blockNumber: nat, tail: Bytes)
    requires |parentHash| == 32 && blockNumber < Pow256(32)
    ensures ReadWord(parentHash + Word(blockNumber) + tail, 32) == Ok(blockNumber)
  {
    hide Pow256, Nat;
    SliceOfAppend(parentHash, Word(blockNumber), tail);
    NatBigEndian(blockNumber, 32);
  }

  // ---------- Where everything stands ----------

  lemma ArrayLayout(before: Bytes, n: nat, ws: seq<nat>, rest: Bytes)
    requires n < Pow256(32)
    ensures var (b, at) := (before + (EncodeArray(n, ws) + rest), |before|);
            && at + 64 + 32 * |ws| <= |b|
            && Nat(b[at..at + 32]) == 32 && Nat(b[at + 32..at + 64]) == n
            && (forall k :: 0 <= k < |ws| ==> b[at + 64 + 32 * k..at + 96 + 32 * k] == Word(ws[k]))
            && b[at + 64 + 32 * |ws|..] == rest
  {
    hide Nat, Pow256, Word, Words;
    var (b, at, inner) := (before + (EncodeArray(n, ws) + rest), |before|, EncodeArray(n, ws) + rest);
    Wide(32);
    Assoc(Words([0x20, n]), Words(ws), rest);
    ReadAt([0x20, n], Words(ws) + rest, 0);
    ReadAt([0x20, n], Words(ws) + rest, 1);
    SliceBehind(before, inner, 0, 32);
    SliceBehind(before, inner, 32, 64);
    forall k | 0 <= k < |ws| ensures b[at + 64 + 32 * k..at + 96 + 32 * k] == Word(ws[k]) {
      WordAt(ws, rest, k);
      SliceBehind(Words([0x20, n]), Words(ws) + rest, 32 * k, 32 * k + 32);
      SliceBehind(before, inner, 64 + 32 * k, 96 + 32 * k);
    }
    assert b[at + 64 + 32 * |ws|..] == rest;
  }

  lemma {:induction false} DeltaWordAt(ds: seq<StateDelta>, i: nat, c: nat)
    requires ValidDeltas(ds) && i < |ds| && c < 4
    ensures AllDeltaWords(ds)[4 * i + c] == DeltaWords(ds[i])[c]
  {
    hide DeltaWords;
    if i == 0 {
    } else {
      DeltaWordAt(ds[1..], i - 1, c);
    }
  }

  /** The four words of a state delta at `at`: rollup, state before, state after, and the ether amount in
      two's complement. */
  ghost predicate DeltaStands(b: Bytes, at: nat, d: StateDelta) {
    && at + 128 <= |b|
    && Nat(b[at..at + 32]) == d.rollupId && b[at + 32..at + 64] == d.currentState && b[at + 64..at + 96] == d.newState
    && Nat(b[at + 96..at + 128]) == if d.etherDelta < 0 then Pow256(32) + d.etherDelta else d.etherDelta
  }

  lemma DeltaFields(b: Bytes, at: nat, d: StateDelta)
    requires ValidDelta(d) && at + 128 <= |b|
    requires forall c :: 0 <= c < 4 ==> b[at + 32 * c..at + 32 + 32 * c] == Word(DeltaWords(d)[c])
    ensures DeltaStands(b, at, d)
  {
    hide Pow256, Nat, BigEndian;
    var ws := DeltaWords(d);
    assert b[at + 32 * 0..at + 32 + 32 * 0] == Word(ws[0]) && b[at + 32 * 1..at + 32 + 32 * 1] == Word(ws[1]);
    assert b[at + 32 * 2..at + 32 + 32 * 2] == Word(ws[2]) && b[at + 32 * 3..at + 32 + 32 * 3] == Word(ws[3]);
    NatBigEndian(ws[0], 32);
    HashWord(d.currentState);
    HashWord(d.newState);
    NatBigEndian(ws[3], 32);
  }

  lemma DeltaAt(ds: seq<StateDelta>, b: Bytes, i: nat)
    requires ValidDeltas(ds) && i < |ds| && 64 + 128 * |ds| <= |b|
    requires forall k :: 0 <= k < 4 * |ds| ==> b[64 + 32 * k..96 + 32 * k] == Word(AllDeltaWords(ds)[k])
    ensures DeltaStands(b, 64 + 128 * i, ds[i])
  {
    hide Word, DeltaStands, DeltaWords, AllDeltaWords;
    var at := 64 + 128 * i;
    forall c | 0 <= c < 4 ensures b[at + 32 * c..at + 32 + 32 * c] == Word(DeltaWords(ds[i])[c]) {
      DeltaWordAt(ds, i, c);
      assert b[64 + 32 * (4 * i + c)..96 + 32 * (4 * i + c)] == Word(AllDeltaWords(ds)[4 * i + c]);
    }
    DeltaFields(b, at, ds[i]);
  }

  lemma DeltasLayout(ds: seq<StateDelta>, rest: Bytes)
    requires ValidDeltas(ds) && |ds| < U64_LIMIT
    ensures var b := EncodeArray(|ds|, AllDeltaWords(ds)) + rest;
            && 64 + 128 * |ds| <= |b| && Nat(b[0..32]) == 32 && Nat(b[32..64]) == |ds|
            && (forall i: nat :: i < |ds| ==> DeltaStands(b, 64 + 128 * i, ds[i]))
            && b[64 + 128 * |ds|..] == rest
  {
    hide Nat, Pow256, Word, EncodeArray, DeltaStands, AllDeltaWords, ValidDeltas;
    var b := EncodeArray(|ds|, AllDeltaWords(ds)) + rest;
    Wide(|ds|);
    assert [] + b == b;
    ArrayLayout([], |ds|, AllDeltaWords(ds), rest);
    forall k | 0 <= k < 4 * |ds| ensures b[64 + 32 * k..96 + 32 * k] == Word(AllDeltaWords(ds)[k]) {
      assert b[0 + 64 + 32 * k..0 + 96 + 32 * k] == Word(AllDeltaWords(ds)[k]);
    }
    forall i: nat | i < |ds| ensures DeltaStands(b, 64 + 128 * i, ds[i]) {
      DeltaAt(ds, b, i);
    }
  }

  lemma KeysLayout(before: Bytes, keys: seq<Bytes>, rest: Bytes)
    requires Hashes(keys)
    ensures var (b, at) := (before + (EncodeHashes(keys) + rest), |before|);
            && at + 64 + 32 * |keys| <= |b| && Nat(b[at..at + 32]) == 32 && Nat(b[at + 32..at + 64]) == |keys|
            && (forall j :: 0 <= j < |keys| ==> b[at + 64 + 32 * j..at + 96 + 32 * j] == keys[j])
            && b[at + 64 + 32 * |keys|..] == rest
  {
    hide Nat, Pow256, Word, EncodeArray, Hashes;
    KeysFit(keys);
    ArrayLayout(before, |keys|, HashWords(keys), rest);
  }

  /** The hashed concatenation of an entry, place by place: the deltas and the keys, each as an ABI array, then
      the action hash, then the encoded next action. */
  lemma EntryLayout(k: Keyed)
    requires ValidKeyed(k)
    ensures var (b, ds, keys) := (EntryPreimage(k), k.entry.deltas, k.keys);
            var keysAt := 64 + 128 * |ds|;
            var hashAt := keysAt + 64 + 32 * |keys|;
            && hashAt + 32 <= |b|
            && Nat(b[0..32]) == 32 && Nat(b[32..64]) == |ds|
            && (forall i: nat :: i < |ds| ==> DeltaStands(b, 64 + 128 * i, ds[i]))
            && Nat(b[keysAt..keysAt + 32]) == 32 && Nat(b[keysAt + 32..keysAt + 64]) == |keys|
            && (forall j :: 0 <= j < |keys| ==> b[keysAt + 64 + 32 * j..keysAt + 96 + 32 * j] == keys[j])
            && b[hashAt..hashAt + 32] == k.entry.actionHash && b[hashAt + 32..] == AbiEncode(k.entry.nextAction)
  {
    hide Nat, EncodeHashes, AbiEncode, ValidAction, DeltaStands, AllDeltaWords, ValidDeltas, Hashes;
    var (ds, keys, hash, action) := (k.entry.deltas, k.keys, k.entry.actionHash, AbiEncode(k.entry.nextAction));
    var (first, second) := (EncodeArray(|ds|, AllDeltaWords(ds)), EncodeHashes(keys));
    Reassociate(first, second, hash, action);
    hide EncodeArray;
    DeltasLayout(ds, second + (hash + action));
    KeysLayout(first, keys, hash + action);
    TwoParts(EntryPreimage(k), 64 + 128 * |ds| + 64 + 32 * |keys|, hash, action);
  }

  lemma TwoParts(b: Bytes, at: nat, x: Bytes, y: Bytes)
    requires at <= |b| && b[at..] == x + y
    ensures |b| == at + |x| + |y| && b[at..at + |x|] == x && b[at + |x|..] == y
  {
    assert b == b[..at] + (x + y);
  }

  lemma KeysFit(keys: seq<Bytes>)
    requires Hashes(keys)
    ensures |keys| < Pow256(32) && forall i :: 0 <= i < |keys| ==> Word(HashWords(keys)[i]) == keys[i]
  {
    hide Pow256, Word, Nat;
    Wide(|keys|);
    HashWordsFit(keys);
  }

  /** The public inputs, place by place: parent hash, block number, the two arrays of hashes, and the hash of the
      call data. */
  lemma InputsLayout(i: Inputs)
    requires |i.parentHash| == 32 && i.blockNumber < Pow256(32) && Hashes(i.entryHashes) && Hashes(i.blobHashes)
    ensures var b := PublicInputs(i.parentHash, i.blockNumber, i.entryHashes, i.blobHashes, i.callDataHash);
            var (n, m) := (|i.entryHashes|, |i.blobHashes|);
            var (blobsAt, end) := (128 + 32 * n, 192 + 32 * n + 32 * m);
            && end <= |b| && b[0..32] == i.parentHash && Nat(b[32..64]) == i.blockNumber
            && Nat(b[64..96]) == 32 && Nat(b[96..128]) == n
            && (forall k :: 0 <= k < n ==> b[128 + 32 * k..160 + 32 * k] == i.entryHashes[k])
            && Nat(b[blobsAt..blobsAt + 32]) == 32 && Nat(b[blobsAt + 32..blobsAt + 64]) == m
            && (forall k :: 0 <= k < m ==> b[blobsAt + 64 + 32 * k..blobsAt + 96 + 32 * k] == i.blobHashes[k])
            && b[end..] == i.callDataHash
  {
    hide Nat, Pow256, Word, EncodeArray, Hashes, ReadWord;
    var b := PublicInputs(i.parentHash, i.blockNumber, i.entryHashes, i.blobHashes, i.callDataHash);
    var (head, first, second, last) := (i.parentHash + Word(i.blockNumber), EncodeHashes(i.entryHashes),
                                        EncodeHashes(i.blobHashes), i.callDataHash);
    Reassociate(head, first, second, last);
    assert b == head + (first + (second + last)) == (head + first) + (second + last);
    NumberRead(i.parentHash, i.blockNumber, first + (second + last));
    KeysLayout(head, i.entryHashes, second + last);
    KeysLayout(head + first, i.blobHashes, last);
    assert b[0..32] == i.parentHash;
  }

  lemma NumberRead(parentHash: Bytes, blockNumber: nat, tail: Bytes)
    requires |parentHash| == 32 && blockNumber < Pow256(32)
    ensures var b := parentHash + Word(blockNumber) + tail; Nat(b[32..64]) == blockNumber
  {
    BlockNumberRead(parentHash, blockNumber, tail);
  }

  // ---------- What a signature covers ----------

  /** No two of these byte strings share a hash. */
  ghost predicate TellsApart(keccak: Bytes -> Bytes, s: set<Bytes>) {
    forall a, b :: a in s && b in s && keccak(a) == keccak(b) ==> a == b
  }

  /** Everything that is hashed on the way to the hash of a batch. */
  ghost function Hashed(keccak: Bytes -> Bytes, b: Batch): set<Bytes>
    requires ValidBatch(b)
  {
    {BatchInputs(keccak, b), b.callData} + set i | 0 <= i < |b.entries| :: EntryPreimage(b.entries[i])
  }

  lemma HashesOfEntries(keccak: Bytes -> Bytes, ks: seq<Keyed>)
    requires (forall b: Bytes :: |keccak(b)| == 32) && |ks| < U64_LIMIT
    requires forall i :: 0 <= i < |ks| ==> ValidKeyed(ks[i])
    ensures Hashes(EntryHashes(keccak, ks))
  {
    hide EntryPreimage;
  }

  /** The signed hash determines the whole batch: parent block, block number, every state delta with
      its signed ether amount, every verification key, action hash and next action, the blobs and
      the call data, as long as the hash collides on none of the strings hashed for the two. */
  lemma SignatureDeterminesBatch(keccak: Bytes -> Bytes, a: Batch, b: Batch)
    requires ValidBatch(a) && ValidBatch(b) && forall s: Bytes :: |keccak(s)| == 32
    requires TellsApart(keccak, Hashed(keccak, a) + Hashed(keccak, b))
    ensures PublicInputsHash(keccak, a) == PublicInputsHash(keccak, b) <==> a == b
  {
    hide PublicInputs, EntryHashes, EntryPreimage, Hashes, ValidKeyed, ParseInputs;
    if PublicInputsHash(keccak, a) == PublicInputsHash(keccak, b) {
      assert BatchInputs(keccak, a) == BatchInputs(keccak, b);
      HashesOfEntries(keccak, a.entries);
      HashesOfEntries(keccak, b.entries);
      InputsParsed(Inputs(a.parentHash, a.blockNumber, EntryHashes(keccak, a.entries), a.blobHashes, keccak(a.callData)));
      InputsParsed(Inputs(b.parentHash, b.blockNumber, EntryHashes(keccak, b.entries), b.blobHashes, keccak(b.callData)));
      assert a.callData == b.callData;
      SameEntries(keccak, a, b);
    }
  }

  lemma SamePreimage(keccak: Bytes -> Bytes, x: Keyed, y: Keyed, s: set<Bytes>)
    requires ValidKeyed(x) && ValidKeyed(y) && TellsApart(keccak, s)
    requires EntryPreimage(x) in s && EntryPreimage(y) in s && EntryHash(keccak, x) == EntryHash(keccak, y)
    ensures x == y
  {
    hide EntryPreimage, ParseEntry, ValidKeyed;
    EntryParsed(x);
    EntryParsed(y);
  }

  lemma SameEntries(keccak: Bytes -> Bytes, a: Batch, b: Batch)
    requires ValidBatch(a) && ValidBatch(b)
    requires TellsApart(keccak, Hashed(keccak, a) + Hashed(keccak, b))
    requires EntryHashes(keccak, a.entries) == EntryHashes(keccak, b.entries)
    ensures a.entries == b.entries
  {
    hide EntryPreimage, ParseEntry, ValidKeyed, BatchInputs, TellsApart, EntryHash;
    assert |a.entries| == |EntryHashes(keccak, a.entries)| == |b.entries|;
    forall i | 0 <= i < |a.entries| ensures a.entries[i] == b.entries[i] {
      assert EntryHashes(keccak, a.entries)[i] == EntryHashes(keccak, b.entries)[i];
      SamePreimage(keccak, a.entries[i], b.entries[i], Hashed(keccak, a) + Hashed(keccak, b));
    }
  }

  // ---------- The signer ----------

  datatype EcdsaParams = EcdsaParams(targetBlockNumber: nat, parentBlockHash: Bytes)

  function KeysFor(rollups: nat -> Bytes, ds: seq<StateDelta>): (r: seq<Bytes>)
    ensures |r| == |ds|
  {
    seq(|ds|, i requires 0 <= i < |ds| => rollups(ds[i].rollupId))
  }

  function WithKeys(rollups: nat -> Bytes, entries: seq<Entry>): (r: seq<Keyed>)
    ensures |r| == |entries|
    ensures forall i :: 0 <= i < |r| ==> r[i] == Keyed(entries[i], KeysFor(rollups, entries[i].deltas))
  {
    seq(|entries|, i requires 0 <= i < |entries| => Keyed(entries[i], KeysFor(rollups, entries[i].deltas)))
  }

  ghost predicate ValidEntries(rollups: nat -> Bytes, entries: seq<Entry>) {
    |entries| < U64_LIMIT && forall i :: 0 <= i < |entries| ==> ValidKeyed(WithKeys(rollups, entries)[i])
  }

  /** The batch that is signed: neither blobs nor call data. */
  function SignedBatch(rollups: nat -> Bytes, entries: seq<Entry>, params: EcdsaParams): Batch {
    Batch(params.parentBlockHash, params.targetBlockNumber, WithKeys(rollups, entries), [], [])
  }

  /** Key `i` of an entry is that of the rollup that delta `i` belongs to. */
  lemma KeyOfDelta(rollups: nat -> Bytes, entries: seq<Entry>, e: nat, i: nat)
    requires e < |entries| && i < |entries[e].deltas|
    ensures var k := WithKeys(rollups, entries)[e];
            k.entry == entries[e] && |k.keys| == |k.entry.deltas| && k.keys[i] == rollups(k.entry.deltas[i].rollupId)
  {
  }

  /** What is hashed for the signature, place by place: the target's parent and number, the hash of each entry, no
      blob, and the hash of empty call data. */
  lemma SignedLayout(keccak: Bytes -> Bytes, rollups: nat -> Bytes, entries: seq<Entry>, p: EcdsaParams)
    requires ValidBatch(SignedBatch(rollups, entries, p)) && forall s: Bytes :: |keccak(s)| == 32
    ensures var (b, n) := (BatchInputs(keccak, SignedBatch(rollups, entries, p)), |entries|);
            && 192 + 32 * n <= |b| && b[0..32] == p.parentBlockHash && Nat(b[32..64]) == p.targetBlockNumber
            && Nat(b[64..96]) == 32 && Nat(b[96..128]) == n
            && (forall i :: 0 <= i < n ==>
                  b[128 + 32 * i..160 + 32 * i] == keccak(EntryPreimage(WithKeys(rollups, entries)[i])))
            && Nat(b[128 + 32 * n..160 + 32 * n]) == 32 && Nat(b[160 + 32 * n..192 + 32 * n]) == 0
            && b[192 + 32 * n..] == keccak([])
  {
    hide ValidKeyed, EntryPreimage, PublicInputs, Nat, KeysFor, Pow256;
    var batch := SignedBatch(rollups, entries, p);
    HashesOfEntries(keccak, batch.entries);
    InputsLayout(Inputs(p.parentBlockHash, p.targetBlockNumber, EntryHashes(keccak, batch.entries), [], keccak([])));
  }

  /** The verification key of the rollup behind each delta. */
  method CollectKeys(rollups: nat -> Bytes, ds: seq<StateDelta>) returns (keys: seq<Bytes>)
    ensures keys == KeysFor(rollups, ds)
  {
    keys := [];
    for i := 0 to |ds|
      invariant keys == KeysFor(rollups, ds)[..i]
    {
      keys := keys + [rollups(ds[i].rollupId)];
    }
  }

  /** The hash that goes into the signature: over the public inputs, or, without a target block, over
      the entry hashes alone. */
  method SignPostBatchProof(keccak: Bytes -> Bytes, rollups: nat -> Bytes, entries: seq<Entry>,
                            params: Option<EcdsaParams>) returns (hash: Bytes)
    requires ValidEntries(rollups, entries)
    requires params.Some? ==> |params.value.parentBlockHash| == 32 && params.value.targetBlockNumber < Pow256(32)
    ensures params.Some? ==>
              ValidBatch(SignedBatch(rollups, entries, params.value))
              && hash == PublicInputsHash(keccak, SignedBatch(rollups, entries, params.value))
    ensures params.None? ==> hash == keccak(EncodeHashes(EntryHashes(keccak, WithKeys(rollups, entries))))
  {
    hide EncodeHashes, EntryHash, ValidKeyed, KeysFor, Pow256, Word;
    ghost var all := EntryHashes(keccak, WithKeys(rollups, entries));
    var entryHashes: seq<Bytes> := [];
    for i := 0 to |entries|
      invariant entryHashes == all[..i]
    {
      var keys := CollectKeys(rollups, entries[i].deltas);
      assert WithKeys(rollups, entries)[i] == Keyed(entries[i], keys);
      var entryHash := EntryHash(keccak, Keyed(entries[i], keys));
      entryHashes := entryHashes + [entryHash];
    }
    assert entryHashes == all;
    match params
    case Some(p) =>
      hash := keccak(PublicInputs(p.parentBlockHash, p.targetBlockNumber, entryHashes, [], keccak([])));
    case None =>
      hash := keccak(EncodeHashes(entryHashes));
  }

  /** Entries without a place in the chain. */
  function Bare(ks: seq<Keyed>): Batch {
    Batch(Zeros(32), 0, ks, [], [])
  }

  /** Without a target block the signature still covers every entry. */
  lemma FallbackDeterminesEntries(keccak: Bytes -> Bytes, xs: seq<Keyed>, ys: seq<Keyed>)
    requires ValidBatch(Bare(xs)) && ValidBatch(Bare(ys)) && forall s: Bytes :: |keccak(s)| == 32
    requires TellsApart(keccak, Hashed(keccak, Bare(xs)) + Hashed(keccak, Bare(ys))
                                + {EncodeHashes(EntryHashes(keccak, xs)), EncodeHashes(EntryHashes(keccak, ys))})
    ensures keccak(EncodeHashes(EntryHashes(keccak, xs))) == keccak(EncodeHashes(EntryHashes(keccak, ys))) <==> xs == ys
  {
    hide EncodeHashes, EntryHashes, Hashes, ValidKeyed, EntryPreimage, BatchInputs, ParseHashes;
    var hx, hy := EntryHashes(keccak, xs), EntryHashes(keccak, ys);
    if keccak(EncodeHashes(hx)) == keccak(EncodeHashes(hy)) {
      assert EncodeHashes(hx) == EncodeHashes(hy);
      HashesOfEntries(keccak, xs);
      HashesOfEntries(keccak, ys);
      HashesParsed(hx, []);
      HashesParsed(hy, []);
      SameEntries(keccak, Bare(xs), Bare(ys));
    }
  }
}
