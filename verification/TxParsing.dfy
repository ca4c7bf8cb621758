/** Parsing raw transactions and recovering their senders, as the Rust event processor does, and
    the round trips with the signer. */
module TxParsing {
  import opened Bytes
  import opened Rlp
  import opened TxEncoding
  import opened Transactions
  import opened Wrappers

  datatype ParsedTx = ParsedTx(to: Option<Bytes>, sender: Bytes, data: Bytes, value: nat)

  // ---------- Specification ----------

  /** A scalar in exactly 32 bytes; longer strings are cut. */
  function Fit(b: Bytes): (r: Bytes)
    ensures |r| == 32
  {
    if |b| <= 32 then PadLeft(b, 32) else b[..32]
  }

  function Recover(crypto: Crypto, hash: Bytes, v: nat, r: Bytes, s: Bytes): Result<Bytes> {
    crypto.recover(hash, v % 2 == 1, Fit(r), Fit(s))
  }

  function WrapList(content: Bytes): Bytes {
    LengthPrefix(|content|, 0xc0) + content
  }

  /** The raw items behind the header of an encoded list. */
  function RawItems(data: Bytes): Result<seq<Bytes>> {
    var (payload, _) :- DecodeLength(data);
    var found :- Walk(payload);
    Ok(Raws(found))
  }

  /** What the sender of a type 2 transaction signed: the first nine fields, taken over raw. */
  function Eip1559Preimage(raw: Bytes): Result<Bytes>
    requires raw != []
  {
    var items :- RawItems(raw[1..]);
    if |items| < 12 then Err else Ok([0x02] + WrapList(Concat(items[..9])))
  }

  /** The three fields that EIP-155 appends before signing. */
  function ChainFields(chainId: nat): seq<Item> {
    if chainId > 0 then [Str(Minimal(chainId)), Str([]), Str([])] else []
  }

  /** What the sender of a legacy transaction signed. */
  function LegacyPreimage(raw: Bytes, chainId: nat): Result<Bytes> {
    var items :- RawItems(raw);
    if |items| < 9 then Err else Ok(WrapList(Concat(items[..6]) + EncodeAll(ChainFields(chainId))))
  }

  function Destination(field: Bytes): Option<Bytes> {
    if field == [] then None else Some(field)
  }

  /** Chain id and parity in a legacy `v`; the subtraction wraps below 27. */
  function LegacyV(v: nat): (r: (nat, nat))
    ensures v >= 35 ==> v == 35 + 2 * r.0 + r.1 && r.1 <= 1
  {
    if v >= 35 then ((v - 35) / 2, (v - 35) % 2) else (0, (v - 27) % U64_LIMIT)
  }

  function ParseEip1559(crypto: Crypto, raw: Bytes): Result<ParsedTx>
    requires raw != []
  {
    var items :- DecodeList(raw[1..]);
    if |items| < 12 then Err
    else
      var preimage :- Eip1559Preimage(raw);
      var sender :- Recover(crypto, crypto.keccak(preimage), Nat(items[9]) % U64_LIMIT, items[10], items[11]);
      Ok(ParsedTx(Destination(items[5]), sender, items[7], Nat(Fit(items[6]))))
  }

  function ParseLegacy(crypto: Crypto, raw: Bytes): Result<ParsedTx> {
    var items :- DecodeList(raw);
    if |items| < 9 then Err
    else
      var (chainId, v) := LegacyV(Nat(items[6]) % U64_LIMIT);
      var preimage :- LegacyPreimage(raw, chainId);
      var sender :- Recover(crypto, crypto.keccak(preimage), v, items[7], items[8]);
      Ok(ParsedTx(Destination(items[3]), sender, items[5], Nat(Fit(items[4]))))
  }

  function Parse(crypto: Crypto, raw: Bytes): Result<ParsedTx> {
    if raw == [] then Err
    else if raw[0] == 0x02 then ParseEip1559(crypto, raw)
    else ParseLegacy(crypto, raw)
  }

  /** What is read of any transaction: type 2 from behind its first byte, all others as legacy ones.  The destination
      may be missing, and items behind the signature are ignored. */
  lemma ParsedFields(crypto: Crypto, raw: Bytes)
    requires Parse(crypto, raw).Ok?
    ensures raw != []
    ensures var (tx, typed) := (Parse(crypto, raw).value, raw[0] == 2);
            var (list, at, least) := if typed then (raw[1..], 5, 12) else (raw, 3, 9);
            && DecodeList(list).Ok?
            && var items := DecodeList(list).value;
               && |items| >= least && tx.to == (if items[at] == [] then None else Some(items[at]))
               && (|items[at + 1]| <= 32 ==> tx.value == Nat(items[at + 1])) && tx.data == items[at + 2]
  {
    hide DecodeList, Eip1559Preimage, LegacyPreimage, Recover, Nat, Pow256;
    var (list, at) := if raw[0] == 2 then (raw[1..], 5) else (raw, 3);
    var value := DecodeList(list).value[at + 1];
    if |value| <= 32 { PaddedReads(value, 32); }
  }

  lemma PaddedReads(b: Bytes, width: nat)
    requires |b| <= width
    ensures Nat(PadLeft(b, width)) == Nat(b)
  {
    hide Nat, Pow256;
    NatAppend(Zeros(width - |b|), b);
    NatZeros(width - |b|);
  }

  // ---------- The parser ----------

  lemma Remainder(q: nat, r: nat)
    requires r < U64_LIMIT
    ensures (q * U64_LIMIT + r) % U64_LIMIT == r
  {
  }

  /** Shifting a wrapped value left by a byte forgets the same high digits. */
  lemma ShiftIn(x: nat, b: byte)
    ensures (x % U64_LIMIT * 256) % U64_LIMIT + b == (x * 256 + b) % U64_LIMIT
  {
    var q, r := x / U64_LIMIT, x % U64_LIMIT;
    var q2, r2 := r / 0x100_0000_0000_0000, r % 0x100_0000_0000_0000;
    Remainder(q2, r2 * 256);
    Remainder(q * 256 + q2, r2 * 256 + b);
    assert r * 256 == q2 * U64_LIMIT + r2 * 256;
  }

  method RlpBytesToU64(bytes: Bytes) returns (val: nat)
    ensures val == Nat(bytes) % U64_LIMIT
  {
    val := 0;
    for i := 0 to |bytes|
      invariant val == Nat(bytes[..i]) % U64_LIMIT
    {
      assert bytes[..i + 1] == bytes[..i] + [bytes[i]];
      NatLast(bytes[..i], bytes[i]);
      ShiftIn(Nat(bytes[..i]), bytes[i]);
      val := (val * 256) % U64_LIMIT + bytes[i];
    }
    assert bytes[..|bytes|] == bytes;
  }

  method DecodeRlpList(data: Bytes) returns (r: Result<seq<Bytes>>)
    ensures r == DecodeList(data)
  {
    var outer := DecodeLength(data);
    if outer.Err? {
      return Err;
    }
    r := CollectItems(outer.value.0);
  }

  method DecodeRawItems(data: Bytes) returns (r: Result<seq<Bytes>>)
    ensures r == RawItems(data)
    ensures r.Ok? ==> |Concat(r.value)| <= |data|
  {
    hide DecodeLength, Walk;
    var outer := DecodeLength(data);
    if outer.Err? {
      return Err;
    }
    r := CollectRaw(outer.value.0);
    if r.Ok? {
      PayloadShorter(data);
      WalkExact(outer.value.0);
    }
  }

  lemma PayloadShorter(data: Bytes)
    requires DecodeLength(data).Ok?
    ensures |DecodeLength(data).value.0| <= |data|
  {
  }

  lemma ConcatPrefix(items: seq<Bytes>, n: nat)
    requires n <= |items|
    ensures |Concat(items[..n])| <= |Concat(items)|
  {
    if n > 0 {
      assert items[..n][1..] == items[1..][..n - 1];
      ConcatPrefix(items[1..], n - 1);
    }
  }

  lemma {:induction false} ConcatLast(items: seq<Bytes>, last: Bytes)
    ensures Concat(items + [last]) == Concat(items) + last
  {
    if items == [] {
      assert [last][1..] == [];
    } else {
      assert (items + [last])[1..] == items[1..] + [last];
      ConcatLast(items[1..], last);
    }
  }

  /** The raw items one behind the other. */
  method Concatenate(items: seq<Bytes>) returns (content: Buffer)
    ensures fresh(content) && content.bytes == Concat(items)
  {
    content := new Buffer();
    for i := 0 to |items|
      invariant content.bytes == Concat(items[..i])
    {
      assert items[..i + 1] == items[..i] + [items[i]];
      ConcatLast(items[..i], items[i]);
      content.Extend(items[i]);
    }
    assert items[..|items|] == items;
  }

  method WrapBuffer(content: Buffer, out: Buffer)
    requires content != out && |content.bytes| < U64_LIMIT
    modifies out
    ensures out.bytes == old(out.bytes) + WrapList(content.bytes)
  {
    Assoc(out.bytes, LengthPrefix(|content.bytes|, 0xc0), content.bytes);
    EncodeRlpLength(|content.bytes|, 0xc0, out);
    out.Extend(content.bytes);
  }

  method RecoverEip1559Sender(crypto: Crypto, raw: Bytes, v: nat, r: Bytes, s: Bytes) returns (sender: Result<Bytes>)
    requires raw != [] && |raw| < SLICE_LIMIT
    ensures sender == (var preimage :- Eip1559Preimage(raw); Recover(crypto, crypto.keccak(preimage), v, r, s))
  {
    hide LengthPrefix, RawItems, Concat, Fit;
    var items := DecodeRawItems(raw[1..]);
    if items.Err? || |items.value| < 12 {
      return Err;
    }
    ConcatPrefix(items.value, 9);
    var unsigned := Concatenate(items.value[..9]);
    var toHash := new Buffer();
    toHash.Push(0x02);
    assert toHash.bytes == [0x02];
    WrapBuffer(unsigned, toHash);
    sender := Recover(crypto, crypto.keccak(toHash.bytes), v, r, s);
  }

  lemma ChainFieldsEncoded(chainId: nat, content: Bytes)
    requires 0 < chainId < U64_LIMIT
    ensures content + EncodeString(Minimal(chainId)) + EncodeString([]) + EncodeString([]) ==
            content + EncodeAll(ChainFields(chainId))
    ensures |EncodeAll(ChainFields(chainId))| <= 123
  {
    hide EncodeString, Minimal;
    NoItems();
    var one := Appended([], Minimal(chainId));
    var two := Appended(one, []);
    var three := Appended(two, []);
    assert three == ChainFields(chainId);
    SizeOf(three);
    var m, z := EncodeString(Minimal(chainId)), EncodeString([]);
    assert [] + m + z + z == m + z + z;
    Assoc(content, m, z);
    Assoc(content, m + z, z);
  }

  method RecoverLegacySender(crypto: Crypto, raw: Bytes, chainId: nat, v: nat, r: Bytes, s: Bytes) returns (sender: Result<Bytes>)
    requires |raw| < SLICE_LIMIT && chainId < U64_LIMIT
    ensures sender == (var preimage :- LegacyPreimage(raw, chainId); Recover(crypto, crypto.keccak(preimage), v, r, s))
  {
    hide LengthPrefix, RawItems, Concat, Fit, EncodeAll, EncodeString, Minimal, ChainFields;
    var items := DecodeRawItems(raw);
    if items.Err? || |items.value| < 9 {
      return Err;
    }
    ConcatPrefix(items.value, 6);
    var unsigned := Concatenate(items.value[..6]);
    ghost var content := unsigned.bytes;
    if chainId > 0 {
      ChainFieldsEncoded(chainId, content);
      var chainBytes := U64Trimmed(chainId);
      RlpEncodeItem(chainBytes, unsigned);
      RlpEncodeItem([], unsigned);
      RlpEncodeItem([], unsigned);
    } else {
      NoChainFields(content);
    }
    var toHash := new Buffer();
    WrapBuffer(unsigned, toHash);
    assert [] + WrapList(unsigned.bytes) == WrapList(unsigned.bytes);
    sender := Recover(crypto, crypto.keccak(toHash.bytes), v, r, s);
  }

  lemma NoChainFields(content: Bytes)
    ensures content + EncodeAll(ChainFields(0)) == content
  {
  }

  method DecodeEip1559(crypto: Crypto, raw: Bytes) returns (r: Result<ParsedTx>)
    requires raw != [] && |raw| < SLICE_LIMIT
    ensures r == ParseEip1559(crypto, raw)
  {
    hide DecodeList, Eip1559Preimage, Recover, Nat, Fit;
    var items := DecodeRlpList(raw[1..]);
    if items.Err? || |items.value| < 12 {
      return Err;
    }
    var f := items.value;
    var v := RlpBytesToU64(f[9]);
    var sender := RecoverEip1559Sender(crypto, raw, v, f[10], f[11]);
    if sender.Err? {
      return Err;
    }
    return Ok(ParsedTx(Destination(f[5]), sender.value, f[7], Nat(Fit(f[6]))));
  }

  function SplitV(vRaw: nat): (r: (nat, nat))
    requires vRaw < U64_LIMIT
    ensures r == LegacyV(vRaw) && r.0 < U64_LIMIT
  {
    var chainId := if vRaw >= 35 then (vRaw - 35) / 2 else 0;
    (chainId, if vRaw >= 35 then vRaw - chainId * 2 - 35 else (vRaw - 27) % U64_LIMIT)
  }

  method DecodeLegacy(crypto: Crypto, raw: Bytes) returns (r: Result<ParsedTx>)
    requires |raw| < SLICE_LIMIT
    ensures r == ParseLegacy(crypto, raw)
  {
    hide DecodeList, LegacyPreimage, Recover, Nat, Fit, LegacyV, SplitV;
    var items := DecodeRlpList(raw);
    if items.Err? || |items.value| < 9 {
      return Err;
    }
    var f := items.value;
    var vRaw := RlpBytesToU64(f[6]);
    var (chainId, v) := SplitV(vRaw);
    var sender := RecoverLegacySender(crypto, raw, chainId, v, f[7], f[8]);
    if sender.Err? {
      return Err;
    }
    return Ok(ParsedTx(Destination(f[3]), sender.value, f[5], Nat(Fit(f[4]))));
  }

  method RlpDecodeTxMinimal(crypto: Crypto, raw: Bytes) returns (r: Result<ParsedTx>)
    requires |raw| < SLICE_LIMIT
    ensures r == Parse(crypto, raw)
  {
    hide ParseEip1559, ParseLegacy;
    if raw == [] {
      return Err;
    }
    if raw[0] == 0x02 {
      r := DecodeEip1559(crypto, raw);
    } else {
      r := DecodeLegacy(crypto, raw);
    }
  }

  // ---------- Round trips ----------

  /** The items of an encoded list come back, decoded and raw. */
  lemma ListFound(items: seq<Item>)
    requires Encodable(items) && |EncodeAll(items)| < U64_LIMIT
    ensures DecodeList(Encode(List(items))) == Ok(Payloads(Expected(items)))
    ensures RawItems(Encode(List(items))) == Ok(Raws(Expected(items)))
  {
    hide DecodeLength, EncodeAll, Walk;
    var e := Encode(List(items));
    ListItems(items);
    DecodeEncoded(List(items), []);
    assert e + [] == e;
    PayloadOfList(items);
    WalkEncoded(items);
  }

  lemma {:induction false} RawsConcat(items: seq<Item>)
    ensures Concat(Raws(Expected(items))) == EncodeAll(items)
    decreases |items|
  {
    hide Encode;
    if items == [] {
      assert Raws(Expected(items)) == [];
    } else {
      RawsConcat(items[1..]);
      var raws := Raws(Expected(items));
      assert raws[0] == Encode(items[0]) && raws[1..] == Raws(Expected(items[1..]));
    }
  }

  lemma RawsPrefix(items: seq<Item>, n: nat)
    requires n <= |items|
    ensures Raws(Expected(items))[..n] == Raws(Expected(items[..n]))
  {
  }

  /** Taking over the raw items of a type 2 transaction rebuilds, byte for byte, the envelope of its
      first nine fields, access lists and all. */
  lemma PreimageRebuilt(items: seq<Item>)
    requires |items| >= 12 && Encodable(items) && |EncodeAll(items)| < U64_LIMIT
    ensures Eip1559Preimage(Envelope(items)) == Ok(Envelope(items[..9]))
  {
    hide Encode, EncodeAll, RawItems, Concat, Expected, LengthPrefix;
    var raw := Envelope(items);
    assert raw[1..] == Encode(List(items));
    ListFound(items);
    RawsPrefix(items, 9);
    RawsConcat(items[..9]);
    EncodeList(items[..9]);
  }

  lemma EncodeList(items: seq<Item>)
    ensures Encode(List(items)) == WrapList(EncodeAll(items))
  {
  }

  lemma LegacyRebuilt(items: seq<Item>, chainId: nat)
    requires |items| >= 9 && Encodable(items) && |EncodeAll(items)| < U64_LIMIT
    ensures LegacyPreimage(Encode(List(items)), chainId) == Ok(Encode(List(items[..6] + ChainFields(chainId))))
  {
    hide Encode, EncodeAll, RawItems, Concat, Expected, LengthPrefix, ChainFields;
    ListFound(items);
    RawsPrefix(items, 6);
    RawsConcat(items[..6]);
    EncodeAllAppend(items[..6], ChainFields(chainId));
    EncodeList(items[..6] + ChainFields(chainId));
  }

  lemma FitTrim(b: Bytes)
    requires |b| == 32
    ensures Fit(Trim(b)) == b
  {
    PadTrim(b);
  }

  lemma MinimalReads(val: nat)
    requires val < U64_LIMIT
    ensures Nat(Minimal(val)) % U64_LIMIT == val
  {
    hide Minimal;
    if val == 0 {
      MinimalZero();
    } else {
      MinimalNat(val);
      Remainder(0, val);
    }
  }

  lemma ValueReads(value: nat)
    requires value < Pow256(32)
    ensures Nat(Fit(Trim(BigEndian(value, 32)))) == value
  {
    hide *;
    FitTrim(BigEndian(value, 32));
    NatBigEndian(value, 32);
  }

  lemma SignatureReads(crypto: Crypto, address: Bytes, hash: Bytes)
    requires Recovers(crypto, address)
    ensures var sig := crypto.sign(hash);
            && Recover(crypto, hash, sig.v, Trim(sig.r), Trim(sig.s)) == Ok(address)
            && sig.v <= 1
  {
    hide Fit, Trim;
    var sig := crypto.sign(hash);
    FitTrim(sig.r);
    FitTrim(sig.s);
  }

  lemma SignedEncodable(tx: Tx, sig: Signature)
    requires ValidTx(tx) && IsSignature(sig)
    ensures Encodable(Fields(tx) + SignatureFields(sig))
  {
    FieldsEncodable(tx);
    SignatureCarries(sig);
    hide Fields, SignatureFields, Payload;
  }

  /** Whatever the signer emits parses back to its destination, value and data, and the recovered
      sender is the signer: the preimage rebuilt from the raw bytes is the one that was signed. */
  lemma SignedParses(crypto: Crypto, address: Bytes, tx: Tx)
    requires ValidTx(tx) && Recovers(crypto, address)
    ensures Eip1559Preimage(SignedTx(crypto, tx)) == Ok(Envelope(Fields(tx)))
    ensures Parse(crypto, SignedTx(crypto, tx)) == Ok(ParsedTx(Some(tx.to), address, tx.data, tx.value))
  {
    hide Encode, EncodeAll, Trim, Minimal, BigEndian, Pow256, Nat, Fit, Recover, DecodeList, Eip1559Preimage;
    var sig := SignedBy(crypto, tx);
    var items := Fields(tx) + SignatureFields(sig);
    var raw := SignedTx(crypto, tx);
    var hash := crypto.keccak(Envelope(Fields(tx)));
    SignatureReads(crypto, address, hash);
    SignedEncodable(tx, sig);
    SignedSize(tx, sig);
    assert items[..9] == Fields(tx);
    PreimageRebuilt(items);
    assert raw[1..] == Encode(List(items));
    ListFound(items);
    MinimalReads(sig.v);
    ValueReads(tx.value);
    assert Payload(items[5]) == tx.to && Payload(items[6]) == Trim(BigEndian(tx.value, 32)) && Payload(items[7]) == tx.data;
    assert Payload(items[9]) == Minimal(sig.v) && Payload(items[10]) == Trim(sig.r) && Payload(items[11]) == Trim(sig.s);
  }

  // ---------- Legacy transactions ----------

  datatype LegacyTx = LegacyTx(nonce: nat, gasPrice: Bytes, gasLimit: nat, to: Option<Bytes>, value: nat, data: Bytes)

  ghost predicate ValidLegacy(tx: LegacyTx) {
    && tx.nonce < U64_LIMIT && tx.gasLimit < U64_LIMIT && |tx.gasPrice| <= 32
    && (tx.to.Some? ==> |tx.to.value| == 20) && tx.value < Pow256(32) && |tx.data| < SLICE_LIMIT
  }

  function LegacyFields(tx: LegacyTx): (r: seq<Item>)
    ensures |r| == 6
  {
    [Str(Minimal(tx.nonce)), Str(tx.gasPrice), Str(Minimal(tx.gasLimit)),
     Str(if tx.to.Some? then tx.to.value else []), Str(Trim(BigEndian(tx.value, 32))), Str(tx.data)]
  }

  /** `v` of a legacy signature: with the chain id (EIP-155), or 27/28 without one. */
  function VOf(chainId: nat, parity: nat): nat {
    if chainId > 0 then 35 + 2 * chainId + parity else 27 + parity
  }

  /** What is hashed and signed. */
  function UnsignedLegacy(tx: LegacyTx, chainId: nat): Bytes {
    Encode(List(LegacyFields(tx) + ChainFields(chainId)))
  }

  /** A legacy transaction signed for chain `chainId`, or for no chain when that is 0. */
  function SignedLegacy(crypto: Crypto, tx: LegacyTx, chainId: nat): Bytes {
    var sig := crypto.sign(crypto.keccak(UnsignedLegacy(tx, chainId)));
    Encode(List(LegacyFields(tx) + [Str(Minimal(VOf(chainId, sig.v))), Str(Trim(sig.r)), Str(Trim(sig.s))]))
  }

  /** The first six items: nonce, gas price, gas limit, destination if there is one, value and data. */
  predicate CarriesLegacy(items: seq<Found>, tx: LegacyTx) {
    && |items| >= 6
    && Reads(items[0].payload, tx.nonce) && items[1].payload == tx.gasPrice && Reads(items[2].payload, tx.gasLimit)
    && items[3].payload == (match tx.to { case Some(to) => to case None => [] })
    && Reads(items[4].payload, tx.value) && items[5].payload == tx.data
  }

  /** With a chain id the hashed list goes on with that and two empty strings (EIP-155). */
  predicate CarriesChain(items: seq<Found>, chainId: nat) {
    if chainId == 0 then items == []
    else |items| == 3 && Reads(items[0].payload, chainId) && items[1].raw == [0x80] && items[2].raw == [0x80]
  }

  /** The nine items of a signed legacy transaction, and those that were hashed. */
  ghost predicate EmittedLegacy(crypto: Crypto, raw: Bytes, tx: LegacyTx, chainId: nat) {
    var unsigned := UnsignedLegacy(tx, chainId);
    var sig := crypto.sign(crypto.keccak(unsigned));
    && Opened(raw).Ok? && Opened(unsigned).Ok?
    && var (items, hashed) := (Opened(raw).value, Opened(unsigned).value);
       && |items| == 9 && CarriesLegacy(items, tx) && |hashed| >= 6 && hashed[..6] == items[..6]
       && CarriesChain(hashed[6..], chainId)
       && Reads(items[6].payload, if chainId == 0 then 27 + sig.v else 35 + 2 * chainId + sig.v)
       && Reads(items[7].payload, Nat(sig.r)) && Reads(items[8].payload, Nat(sig.s))
  }

  lemma LegacyFieldsCarry(tx: LegacyTx)
    requires ValidLegacy(tx)
    ensures Encodable(LegacyFields(tx)) && CarriesLegacy(Expected(LegacyFields(tx)), tx)
  {
    hide Minimal, Trim, BigEndian, Pow256, EncodeAll, Encode, Reads;
    MinimalIs(tx.nonce);
    MinimalIs(tx.gasLimit);
    TrimmedIs(tx.value);
  }

  lemma ChainFieldsCarry(chainId: nat)
    requires chainId < U64_LIMIT
    ensures Encodable(ChainFields(chainId)) && CarriesChain(Expected(ChainFields(chainId)), chainId)
  {
    hide Minimal, EncodeAll, Reads;
    MinimalIs(chainId);
  }

  lemma VFieldsCarry(v: nat, sig: Signature)
    requires v < U64_LIMIT && IsSignature(sig)
    ensures var items := [Str(Minimal(v)), Str(Trim(sig.r)), Str(Trim(sig.s))];
            && Encodable(items) && Reads(Expected(items)[0].payload, v)
            && Reads(Expected(items)[1].payload, Nat(sig.r)) && Reads(Expected(items)[2].payload, Nat(sig.s))
  {
    hide Minimal, Trim, Nat, EncodeAll, Encode;
    MinimalIs(v);
    NatTrim(sig.r);
    NatTrim(sig.s);
  }

  lemma VReads(chainId: nat, parity: nat)
    requires parity <= 1 && VOf(chainId, parity) < U64_LIMIT
    ensures LegacyV(VOf(chainId, parity)) == (chainId, parity)
  {
  }

  lemma VBound(chainId: nat, parity: nat)
    requires parity <= 1
    ensures VOf(chainId, parity) <= VOf(chainId, 1)
  {
  }

  lemma LegacySize(tx: LegacyTx, v: nat, r: Bytes, s: Bytes)
    requires ValidLegacy(tx) && |r| == 32 && |s| == 32
    ensures var items := LegacyFields(tx) + [Str(Minimal(v)), Str(Trim(r)), Str(Trim(s))];
            Encodable(items) && |EncodeAll(items)| + 123 < U64_LIMIT
  {
    hide EncodeAll, Minimal, Trim, BigEndian, Pow256, EncodeString;
    var small, sig := LegacyFields(tx)[..5], [Str(Minimal(v)), Str(Trim(r)), Str(Trim(s))];
    SizeOf(small);
    var withData := Appended(small, tx.data);
    assert withData == LegacyFields(tx);
    SizeOf(sig);
    EncodeAllAppend(withData, sig);
    assert |EncodeString(tx.data)| <= |tx.data| + 9;
  }

  lemma UnsignedSize(tx: LegacyTx, chainId: nat)
    requires ValidLegacy(tx) && chainId < U64_LIMIT
    ensures |EncodeAll(LegacyFields(tx) + ChainFields(chainId))| < U64_LIMIT
  {
    hide EncodeAll, Encode, Minimal, LegacyFields, Trim;
    LegacySize(tx, 0, Zeros(32), Zeros(32));
    EncodeAllAppend(LegacyFields(tx), [Str(Minimal(0)), Str(Trim(Zeros(32))), Str(Trim(Zeros(32)))]);
    EncodeAllAppend(LegacyFields(tx), ChainFields(chainId));
    if chainId > 0 {
      ChainFieldsEncoded(chainId, []);
    } else {
      NoChainFields([]);
    }
  }

  lemma TwoLists(f: seq<Item>, g: seq<Item>)
    requires Encodable(f) && Encodable(g) && |EncodeAll(f + g)| < U64_LIMIT
    ensures Opened(Encode(List(f + g))) == Ok(Expected(f) + Expected(g))
  {
    hide EncodeAll, Encode, Opened, Payload;
    ListItems(f + g);
    ItemsAppend(f, g);
  }

  lemma LegacyMore(items: seq<Found>, more: seq<Found>, tx: LegacyTx)
    requires |items| == 6 && CarriesLegacy(items, tx)
    ensures CarriesLegacy(items + more, tx) && (items + more)[..6] == items && (items + more)[6..] == more
  {
  }

  lemma LegacyLayout(crypto: Crypto, tx: LegacyTx, chainId: nat)
    requires ValidLegacy(tx) && VOf(chainId, 1) < U64_LIMIT && forall h: Bytes :: IsSignature(crypto.sign(h))
    ensures EmittedLegacy(crypto, SignedLegacy(crypto, tx, chainId), tx, chainId)
  {
    var sig := crypto.sign(crypto.keccak(UnsignedLegacy(tx, chainId)));
    VBound(chainId, sig.v);
    var v := VOf(chainId, sig.v);
    hide LegacyFields, ChainFields, EncodeAll, Encode, Expected, Opened, CarriesLegacy, CarriesChain, Reads;
    hide ValidLegacy, Encodable, Minimal, Trim;
    var (f, g, h) := (LegacyFields(tx), ChainFields(chainId), [Str(Minimal(v)), Str(Trim(sig.r)), Str(Trim(sig.s))]);
    LegacyFieldsCarry(tx);
    ChainFieldsCarry(chainId);
    VFieldsCarry(v, sig);
    LegacySize(tx, v, sig.r, sig.s);
    UnsignedSize(tx, chainId);
    TwoLists(f, g);
    TwoLists(f, h);
    LegacyAssembled(crypto, tx, chainId, Expected(f), Expected(g), Expected(h));
  }

  lemma LegacyAssembled(crypto: Crypto, tx: LegacyTx, chainId: nat, f: seq<Found>, g: seq<Found>, h: seq<Found>)
    requires var sig := crypto.sign(crypto.keccak(UnsignedLegacy(tx, chainId)));
             && |h| == 3 && Reads(h[0].payload, VOf(chainId, sig.v))
             && Reads(h[1].payload, Nat(sig.r)) && Reads(h[2].payload, Nat(sig.s))
    requires Opened(SignedLegacy(crypto, tx, chainId)) == Ok(f + h) && Opened(UnsignedLegacy(tx, chainId)) == Ok(f + g)
    requires |f| == 6 && CarriesLegacy(f, tx) && CarriesChain(g, chainId)
    ensures EmittedLegacy(crypto, SignedLegacy(crypto, tx, chainId), tx, chainId)
  {
    LegacyMore(f, g, tx);
    LegacyMore(f, h, tx);
    hide Opened, CarriesLegacy, CarriesChain, Reads, SignedLegacy, UnsignedLegacy, Nat;
  }

  lemma ListFirstByte(items: seq<Item>)
    requires |EncodeAll(items)| < U64_LIMIT
    ensures Encode(List(items))[0] >= 0xc0
  {
  }

  /** Legacy transactions, signed with or without a chain id, parse back to their contents and
      their signer, contract creations included. */
  lemma LegacyParses(crypto: Crypto, address: Bytes, tx: LegacyTx, chainId: nat)
    requires ValidLegacy(tx) && Recovers(crypto, address) && VOf(chainId, 1) < U64_LIMIT
    ensures Parse(crypto, SignedLegacy(crypto, tx, chainId)) == Ok(ParsedTx(tx.to, address, tx.data, tx.value))
  {
    hide Encode, EncodeAll, Trim, Minimal, BigEndian, Pow256, Nat, Fit, Recover, DecodeList, LegacyPreimage;
    hide ChainFields, LegacyV, VOf;
    var fields := LegacyFields(tx);
    var preimage := Encode(List(fields + ChainFields(chainId)));
    var sig := crypto.sign(crypto.keccak(preimage));
    SignatureReads(crypto, address, crypto.keccak(preimage));
    var v := VOf(chainId, sig.v);
    assert v < U64_LIMIT by { VBound(chainId, sig.v); }
    var items := fields + [Str(Minimal(v)), Str(Trim(sig.r)), Str(Trim(sig.s))];
    LegacySize(tx, v, sig.r, sig.s);
    ListFirstByte(items);
    assert items[..6] == fields;
    LegacyRebuilt(items, chainId);
    ListFound(items);
    MinimalReads(v);
    VReads(chainId, sig.v);
    ValueReads(tx.value);
    assert Payload(items[3]) == (if tx.to.Some? then tx.to.value else []);
    assert Payload(items[4]) == Trim(BigEndian(tx.value, 32)) && Payload(items[5]) == tx.data;
    assert Payload(items[6]) == Minimal(v) && Payload(items[7]) == Trim(sig.r) && Payload(items[8]) == Trim(sig.s);
  }
}
