/** Signing a transaction in one module, parsing it and recovering its sender in another. */
module Transactions {
  import opened Bytes
  import opened Rlp
  import opened TxEncoding
  import opened Wrappers

  /** An ECDSA signature: the parity of the curve point and two 32-byte scalars. */
  datatype Signature = Signature(v: nat, r: Bytes, s: Bytes)

  /** The hash and the signature scheme are arbitrary functions. */
  datatype Crypto = Crypto(keccak: Bytes -> Bytes,
                           sign: Bytes -> Signature,
                           recover: (Bytes, bool, Bytes, Bytes) -> Result<Bytes>)

  ghost predicate IsSignature(sig: Signature) {
    sig.v <= 1 && |sig.r| == 32 && |sig.s| == 32
  }

  /** Recovering from the signature of a hash gives the signer's address. */
  ghost predicate Recovers(crypto: Crypto, address: Bytes) {
    forall h: Bytes :: var sig := crypto.sign(h);
      IsSignature(sig) && crypto.recover(h, sig.v == 1, sig.r, sig.s) == Ok(address)
  }

  // ---------- The transaction ----------

  datatype Tx = Tx(chainId: nat, nonce: nat, maxFee: nat, gasLimit: nat, to: Bytes, value: nat, data: Bytes)

  /** What the argument types of the signer admit. */
  ghost predicate ValidTx(tx: Tx) {
    && tx.chainId < U64_LIMIT && tx.nonce < U64_LIMIT && tx.maxFee < U64_LIMIT && tx.gasLimit < U64_LIMIT
    && |tx.to| == 20 && tx.value < Pow256(32) && |tx.data| < SLICE_LIMIT
  }

  /** The fields of an EIP-1559 transaction with no tip and an empty access list. */
  function Fields(tx: Tx): (r: seq<Item>)
    ensures |r| == 9
  {
    [Str(Minimal(tx.chainId)), Str(Minimal(tx.nonce)), Str(Minimal(0)), Str(Minimal(tx.maxFee)), Str(Minimal(tx.gasLimit)),
     Str(tx.to), Str(Trim(BigEndian(tx.value, 32))), Str(tx.data), List([])]
  }

  function SignatureFields(sig: Signature): (r: seq<Item>)
    ensures |r| == 3
  {
    [Str(Minimal(sig.v)), Str(Trim(sig.r)), Str(Trim(sig.s))]
  }

  /** EIP-2718 envelope of type 2 around an RLP list. */
  function Envelope(items: seq<Item>): Bytes {
    [0x02] + Encode(List(items))
  }

  /** What is hashed and signed. */
  function Unsigned(tx: Tx): Bytes {
    Envelope(Fields(tx))
  }

  function SignedBy(crypto: Crypto, tx: Tx): Signature {
    crypto.sign(crypto.keccak(Unsigned(tx)))
  }

  function SignedTx(crypto: Crypto, tx: Tx): Bytes {
    Envelope(Fields(tx) + SignatureFields(SignedBy(crypto, tx)))
  }

  // ---------- What a receiver reads ----------

  /** A number as a receiver reads it: big-endian, no leading zero. */
  predicate Reads(field: Bytes, n: nat) {
    Nat(field) == n && (field == [] || field[0] != 0)
  }

  /** The items of `b` if that is exactly one list. */
  function Opened(b: Bytes): Result<seq<Found>> {
    var (payload, total) :- DecodeLength(b);
    if total == |b| && b[0] >= 0xc0 then Walk(payload) else Err
  }

  /** The first nine items are those of EIP-1559, in its order: chain id, nonce, tip, fee, gas limit,
      destination, value, data and, as an empty list, the access list. */
  predicate Carries(items: seq<Found>, tx: Tx) {
    && |items| >= 9
    && Reads(items[0].payload, tx.chainId) && Reads(items[1].payload, tx.nonce) && Reads(items[2].payload, 0)
    && Reads(items[3].payload, tx.maxFee) && Reads(items[4].payload, tx.gasLimit)
    && items[5].payload == tx.to && Reads(items[6].payload, tx.value) && items[7].payload == tx.data && items[8].raw == [0xc0]
  }

  /** The emitted bytes are a type 2 envelope of twelve items that carry the transaction and the signature of
      the hash of an envelope of the nine items alone. */
  ghost predicate Emitted(crypto: Crypto, raw: Bytes, tx: Tx) {
    && raw != [] && raw[0] == 2 && Opened(raw[1..]).Ok?
    && var items := Opened(raw[1..]).value;
       && |items| == 12 && Carries(items, tx)
       && var unsigned := Unsigned(tx);
          && unsigned != [] && unsigned[0] == 2 && Opened(unsigned[1..]) == Ok(items[..9])
          && var sig := crypto.sign(crypto.keccak(unsigned));
             && Reads(items[9].payload, sig.v) && Reads(items[10].payload, Nat(sig.r)) && Reads(items[11].payload, Nat(sig.s))
  }

  lemma MinimalIs(n: nat)
    requires n < U64_LIMIT
    ensures Reads(Minimal(n), n)
  {
    NatBigEndian(n, 8) by { Pow256Is(); }
    NatTrim(BigEndian(n, 8));
  }

  lemma TrimmedIs(n: nat)
    requires n < Pow256(32)
    ensures Reads(Trim(BigEndian(n, 32)), n)
  {
    hide Pow256;
    NatBigEndian(n, 32);
    NatTrim(BigEndian(n, 32));
  }

  /** The items of an encoded list come back. */
  lemma ListItems(items: seq<Item>)
    requires Encodable(items) && |EncodeAll(items)| < U64_LIMIT
    ensures Opened(Encode(List(items))) == Ok(Expected(items))
    ensures DecodeList(Encode(List(items))) == Ok(Payloads(Expected(items)))
  {
    hide DecodeLength, EncodeAll, Walk;
    var e := Encode(List(items));
    DecodeEncoded(List(items), []);
    assert e + [] == e;
    PayloadOfList(items);
    WalkEncoded(items);
  }

  lemma PayloadOfList(items: seq<Item>)
    ensures Payload(List(items)) == EncodeAll(items)
  {
  }

  lemma EmptyPayload()
    ensures Payload(List([])) == []
  {
  }

  lemma FieldsEncodable(tx: Tx)
    requires ValidTx(tx)
    ensures Encodable(Fields(tx))
  {
    hide Minimal, Trim, BigEndian, Pow256, EncodeAll, Encode;
    EmptyPayload();
  }

  lemma FieldsCarry(tx: Tx)
    requires ValidTx(tx)
    ensures Carries(Expected(Fields(tx)), tx)
  {
    hide Minimal, Trim, BigEndian, Pow256, EncodeAll, Encode, Reads;
    EmptyList();
    MinimalIs(tx.chainId);
    MinimalIs(tx.nonce);
    MinimalIs(0);
    MinimalIs(tx.maxFee);
    MinimalIs(tx.gasLimit);
    TrimmedIs(tx.value);
  }

  lemma SignatureCarries(sig: Signature)
    requires IsSignature(sig)
    ensures Encodable(SignatureFields(sig))
    ensures var items := Expected(SignatureFields(sig));
            Reads(items[0].payload, sig.v) && Reads(items[1].payload, Nat(sig.r)) && Reads(items[2].payload, Nat(sig.s))
  {
    hide Minimal, Trim, Nat, EncodeAll, Encode;
    MinimalIs(sig.v);
    NatTrim(sig.r);
    NatTrim(sig.s);
  }

  lemma ItemsAppend(a: seq<Item>, b: seq<Item>)
    ensures Expected(a + b) == Expected(a) + Expected(b)
  {
    hide Encode, EncodeAll;
  }

  lemma SignedEmitted(crypto: Crypto, tx: Tx)
    requires ValidTx(tx) && forall h: Bytes :: IsSignature(crypto.sign(h))
    ensures Emitted(crypto, SignedTx(crypto, tx), tx)
  {
    var sig := SignedBy(crypto, tx);
    hide Fields, SignatureFields, Encode, EncodeAll, Expected, Opened, Carries, Reads, ValidTx, Envelope, Encodable;
    var (f, g) := (Fields(tx), SignatureFields(sig));
    FieldsEncodable(tx);
    FieldsCarry(tx);
    SignatureCarries(sig);
    SignedSize(tx, sig);
    FieldsSize(tx);
    DataBound(tx);
    BothEncodable(f, g);
    EnvelopeOpened(f);
    EnvelopeOpened(f + g);
    ItemsAppend(f, g);
    CarriesMore(Expected(f), Expected(g), tx);
    assert (Expected(f) + Expected(g))[..9] == Expected(f);
  }

  lemma BothEncodable(a: seq<Item>, b: seq<Item>)
    requires Encodable(a) && Encodable(b)
    ensures Encodable(a + b)
  {
    hide Payload;
  }

  lemma EnvelopeOpened(items: seq<Item>)
    requires Encodable(items) && |EncodeAll(items)| < U64_LIMIT
    ensures var e := Envelope(items); e != [] && e[0] == 2 && Opened(e[1..]) == Ok(Expected(items))
  {
    hide EncodeAll, Opened, Encode;
    ListItems(items);
    assert Envelope(items)[1..] == Encode(List(items));
  }

  lemma DataBound(tx: Tx)
    requires ValidTx(tx)
    ensures |tx.data| < SLICE_LIMIT
  {
  }

  lemma CarriesMore(items: seq<Found>, more: seq<Found>, tx: Tx)
    requires Carries(items, tx)
    ensures Carries(items + more, tx)
  {
  }

  // ---------- The signer ----------

  class TxSigner {
    const crypto: Crypto
    const address: Bytes
    const chainId: nat
    var nonce: nat

    constructor (crypto: Crypto, address: Bytes, chainId: nat, initialNonce: nat)
      ensures this.crypto == crypto && this.address == address && this.chainId == chainId && nonce == initialNonce
    {
      this.crypto := crypto;
      this.address := address;
      this.chainId := chainId;
      nonce := initialNonce;
    }

    /** Signs and encodes a transaction with the next nonce. */
    method SignTx(to: Bytes, data: Bytes, value: nat, gasLimit: nat, maxFee: nat) returns (raw: Bytes)
      requires nonce + 1 < U64_LIMIT && ValidTx(Tx(chainId, nonce, maxFee, gasLimit, to, value, data))
      requires forall h: Bytes :: IsSignature(crypto.sign(h))
      modifies this
      ensures nonce == old(nonce) + 1
      ensures raw == SignedTx(crypto, Tx(chainId, old(nonce), maxFee, gasLimit, to, value, data))
      ensures Emitted(crypto, raw, Tx(chainId, old(nonce), maxFee, gasLimit, to, value, data))
    {
      hide EncodeString, Encode, EncodeAll, Minimal, BigEndian, Trim, Pow256, Emitted;
      ghost var tx := Tx(chainId, nonce, maxFee, gasLimit, to, value, data);
      var txNonce := nonce;
      nonce := nonce + 1;
      var inner := EncodeFields(chainId, txNonce, maxFee, gasLimit, to, value, data);
      FieldsSize(tx);
      var signing := WrapEnvelope(inner, Fields(tx));
      var sig := crypto.sign(crypto.keccak(signing));
      var signedInner := AppendSignature(inner, Fields(tx), sig);
      SignedSize(tx, sig);
      raw := WrapEnvelope(signedInner, Fields(tx) + SignatureFields(sig));
      SignedEmitted(crypto, tx);
    }
  }

  method EncodeFields(chainId: nat, nonce: nat, maxFee: nat, gasLimit: nat, to: Bytes, value: nat, data: Bytes)
    returns (inner: Bytes)
    requires ValidTx(Tx(chainId, nonce, maxFee, gasLimit, to, value, data))
    ensures inner == EncodeAll(Fields(Tx(chainId, nonce, maxFee, gasLimit, to, value, data)))
  {
    hide EncodeString, EncodeAll, Minimal, BigEndian, Trim, Pow256, LengthPrefix;
    var buf := new Buffer();
    NoItems();
    EncodeU64(buf, chainId);
    ghost var done := Appended([], Minimal(chainId));
    EncodeU64(buf, nonce);
    done := Appended(done, Minimal(nonce));
    EncodeU64(buf, 0);
    done := Appended(done, Minimal(0));
    EncodeU64(buf, maxFee);
    done := Appended(done, Minimal(maxFee));
    EncodeU64(buf, gasLimit);
    done := Appended(done, Minimal(gasLimit));
    EncodeAddress(buf, to);
    done := Appended(done, to);
    EncodeU256Bytes(buf, BigEndian(value, 32));
    done := Appended(done, Trim(BigEndian(value, 32)));
    EncodeBytes(buf, data);
    done := Appended(done, data);
    buf.Push(0xc0);
    EmptyList();
    EncodeAllAppend(done, [List([])]);
    EncodeOne(List([]));
    assert done + [List([])] == Fields(Tx(chainId, nonce, maxFee, gasLimit, to, value, data));
    inner := buf.bytes;
  }

  lemma NoItems()
    ensures EncodeAll([]) == []
  {
  }

  lemma EmptyList()
    ensures Encode(List([])) == [0xc0]
  {
    assert EncodeAll([]) == [];
  }

  /** One more string behind the items encoded so far. */
  lemma Appended(done: seq<Item>, b: Bytes) returns (more: seq<Item>)
    ensures more == done + [Str(b)]
    ensures EncodeAll(more) == EncodeAll(done) + EncodeString(b)
  {
    more := done + [Str(b)];
    EncodeAllAppend(done, [Str(b)]);
    EncodeOne(Str(b));
  }

  method WrapEnvelope(inner: Bytes, ghost items: seq<Item>) returns (raw: Bytes)
    requires inner == EncodeAll(items) && |inner| < U64_LIMIT
    ensures raw == Envelope(items)
  {
    hide LengthPrefix, EncodeAll;
    var buf := new Buffer();
    buf.Push(0x02);
    EncodeListHeader(buf, |inner|);
    buf.Extend(inner);
    Assoc([0x02], LengthPrefix(|inner|, 0xc0), inner);
    raw := buf.bytes;
  }

  method AppendSignature(inner: Bytes, ghost items: seq<Item>, sig: Signature) returns (signedInner: Bytes)
    requires inner == EncodeAll(items) && IsSignature(sig)
    ensures signedInner == EncodeAll(items + SignatureFields(sig))
  {
    hide EncodeString, EncodeAll, Minimal, Trim;
    var buf := new Buffer();
    buf.Extend(inner);
    EncodeU64(buf, sig.v);
    ghost var done := Appended(items, Minimal(sig.v));
    EncodeU256Bytes(buf, sig.r);
    done := Appended(done, Trim(sig.r));
    EncodeU256Bytes(buf, sig.s);
    done := Appended(done, Trim(sig.s));
    assert done == items + SignatureFields(sig);
    signedInner := buf.bytes;
  }

  // ---------- Sizes ----------

  lemma {:induction false} SizeOf(items: seq<Item>)
    requires forall i :: 0 <= i < |items| ==> items[i].Str? && |items[i].bytes| <= 32
    ensures |EncodeAll(items)| <= 41 * |items|
    decreases |items|
  {
    hide EncodeString;
    if items == [] {
    } else {
      SizeOf(items[1..]);
      assert |EncodeString(items[0].bytes)| <= 41;
    }
  }

  lemma FieldsSize(tx: Tx)
    requires ValidTx(tx)
    ensures |EncodeAll(Fields(tx))| < |tx.data| + 400
  {
    hide EncodeAll, Minimal, Trim, BigEndian, Pow256;
    var small := [Str(Minimal(tx.chainId)), Str(Minimal(tx.nonce)), Str(Minimal(0)), Str(Minimal(tx.maxFee)),
                  Str(Minimal(tx.gasLimit)), Str(tx.to), Str(Trim(BigEndian(tx.value, 32)))];
    SizeOf(small);
    var withData := Appended(small, tx.data);
    assert Fields(tx) == withData + [List([])];
    EncodeAllAppend(withData, [List([])]);
    EncodeOne(List([]));
    EmptyList();
  }

  lemma SignedSize(tx: Tx, sig: Signature)
    requires ValidTx(tx) && IsSignature(sig)
    ensures |EncodeAll(Fields(tx) + SignatureFields(sig))| < |tx.data| + 600
  {
    hide EncodeAll, Minimal, Trim, BigEndian, Pow256, Fields;
    FieldsSize(tx);
    EncodeAllAppend(Fields(tx), SignatureFields(sig));
    SizeOf(SignatureFields(sig));
  }
}
