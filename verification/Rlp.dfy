/** Recursive Length Prefix: the encoding of Appendix B of the Yellow Paper, and the walk that the
    Rust node performs over encoded payloads. */
module Rlp {
  import opened Bytes
  import opened Wrappers

  datatype Item = Str(bytes: Bytes) | List(items: seq<Item>)

  // ---------- Encoding ----------

  /** `val` big-endian without leading zeros. */
  function Minimal(val: nat): (b: Bytes)
    ensures |b| <= 8
  {
    Trim(BigEndian(val, 8))
  }

  /** The prefix of a payload of `len` bytes: `offset` is 0x80 for strings, 0xc0 for lists. */
  function LengthPrefix(len: nat, offset: byte): (b: Bytes)
    requires offset == 0x80 || offset == 0xc0
    ensures 1 <= |b| <= 9
  {
    if len <= 55 then [offset + len] else [offset + 55 + |Minimal(len)|] + Minimal(len)
  }

  function EncodeString(b: Bytes): (r: Bytes)
    ensures |b| <= |r| <= |b| + 9 && 1 <= |r|
  {
    if |b| == 1 && b[0] < 0x80 then b else LengthPrefix(|b|, 0x80) + b
  }

  function Encode(i: Item): (r: Bytes)
    ensures 1 <= |r|
    decreases i, 1
  {
    match i
    case Str(b) => EncodeString(b)
    case List(items) => LengthPrefix(|EncodeAll(items)|, 0xc0) + EncodeAll(items)
  }

  function EncodeAll(items: seq<Item>): Bytes
    decreases items, 0
  {
    if items == [] then [] else Encode(items[0]) + EncodeAll(items[1..])
  }

  /** What stands behind the prefix. */
  function Payload(i: Item): Bytes {
    match i
    case Str(b) => b
    case List(items) => EncodeAll(items)
  }

  /** The forms of the Yellow Paper: a single byte below 0x80 is its own encoding; up to 55 bytes the first byte
      tells the length; otherwise it tells how many bytes of length follow, and these have no leading zero. */
  lemma EncodingForms(i: Item)
    requires |Payload(i)| < U64_LIMIT
    ensures var (p, e) := (Payload(i), Encode(i));
            var base := if i.Str? then 0x80 else 0xc0;
            if i.Str? && |p| == 1 && p[0] <= 0x7f then e == p
            else if |p| <= 55 then e == [base + |p|] + p
            else var n := |e| - |p| - 1;
                 1 <= n <= 8 && e[0] == base + 55 + n && Nat(e[1..1 + n]) == |p| && e[1] != 0 && e[1 + n..] == p
  {
    hide EncodeAll, Nat;
    var p := Payload(i);
    if |p| > 55 {
      MinimalNat(|p|);
      var m := Minimal(|p|);
      assert Encode(i)[1..1 + |m|] == m;
    }
  }

  lemma {:induction false} EncodeAllAppend(a: seq<Item>, b: seq<Item>)
    ensures EncodeAll(a + b) == EncodeAll(a) + EncodeAll(b)
  {
    if a == [] {
      assert a + b == b;
    } else {
      assert (a + b)[0] == a[0] && (a + b)[1..] == a[1..] + b;
      EncodeAllAppend(a[1..], b);
    }
  }

  lemma EncodeOne(i: Item)
    ensures EncodeAll([i]) == Encode(i)
  {
    assert EncodeAll([i][1..]) == [];
  }

  // ---------- Decoding ----------

  datatype Span = Span(start: nat, end: nat)

  /** Where the payload of the first item lies.  Reading or slicing out of range panics in the
      source and is an error here. */
  function DecodeSpan(data: Bytes): (r: Result<Span>)
    ensures r.Ok? ==> r.value.start <= r.value.end <= |data| && 1 <= r.value.end
  {
    if data == [] then Err
    else
      var prefix := data[0];
      if prefix <= 0x7f then Ok(Span(0, 1))
      else if prefix <= 0xb7 then Checked(data, 1, prefix - 0x80)
      else if prefix <= 0xbf then LongSpan(data, prefix - 0xb7)
      else if prefix <= 0xf7 then Checked(data, 1, prefix - 0xc0)
      else LongSpan(data, prefix - 0xf7)
  }

  function Checked(data: Bytes, start: nat, len: nat): (r: Result<Span>)
    ensures r == if start + len <= |data| then Ok(Span(start, start + len)) else Err
  {
    if start + len <= |data| then Ok(Span(start, start + len)) else Err
  }

  function LongSpan(data: Bytes, lenBytes: nat): (r: Result<Span>)
    ensures r.Ok? ==> r.value.start == 1 + lenBytes <= r.value.end <= |data|
  {
    if 1 + lenBytes > |data| then Err else Checked(data, 1 + lenBytes, Nat(data[1..1 + lenBytes]))
  }

  /** The payload of the first item and the number of bytes it occupies. */
  function DecodeLength(data: Bytes): (r: Result<(Bytes, nat)>)
    ensures r.Ok? ==> 1 <= r.value.1 <= |data|
  {
    var span :- DecodeSpan(data);
    Ok((data[span.start..span.end], span.end))
  }

  /** An item found on the walk: its payload and its raw bytes with the prefix. */
  datatype Found = Found(payload: Bytes, raw: Bytes)

  function Walk(data: Bytes): (r: Result<seq<Found>>) {
    if data == [] then Ok([])
    else
      var (payload, total) :- DecodeLength(data);
      var rest :- Walk(data[total..]);
      Ok([Found(payload, data[..total])] + rest)
  }

  function Payloads(found: seq<Found>): (r: seq<Bytes>)
    ensures |r| == |found| && forall i :: 0 <= i < |r| ==> r[i] == found[i].payload
  {
    seq(|found|, i requires 0 <= i < |found| => found[i].payload)
  }

  function Raws(found: seq<Found>): (r: seq<Bytes>)
    ensures |r| == |found| && forall i :: 0 <= i < |r| ==> r[i] == found[i].raw
  {
    seq(|found|, i requires 0 <= i < |found| => found[i].raw)
  }

  function Concat(parts: seq<Bytes>): Bytes {
    if parts == [] then [] else parts[0] + Concat(parts[1..])
  }

  /** The items of an encoded list. */
  function DecodeList(data: Bytes): Result<seq<Bytes>> {
    var (payload, total) :- DecodeLength(data);
    var found :- Walk(payload);
    Ok(Payloads(found))
  }

  // ---------- The walk as loops ----------

  /** The loop of the list decoder. */
  method CollectItems(payload: Bytes) returns (r: Result<seq<Bytes>>)
    ensures r == (var found :- Walk(payload); Ok(Payloads(found)))
  {
    hide Walk, After, DecodeLength;
    var items, pos := [], 0;
    ghost var done: seq<Found> := [];
    AfterEnds(payload, []);
    while pos < |payload|
      invariant 0 <= pos <= |payload|
      invariant items == Payloads(done)
      invariant Walk(payload) == After(done, payload[pos..])
    {
      var step := DecodeLength(payload[pos..]);
      AfterStep(done, payload, pos);
      if step.Err? {
        return Err;
      }
      var (item, total) := step.value;
      done := done + [Found(item, payload[pos..pos + total])];
      items := items + [item];
      pos := pos + total;
    }
    AfterEnds(payload, done);
    return Ok(items);
  }

  /** The loop of the sender recovery: raw bytes instead of payloads. */
  method CollectRaw(payload: Bytes) returns (r: Result<seq<Bytes>>)
    ensures r == (var found :- Walk(payload); Ok(Raws(found)))
  {
    hide Walk, After, DecodeLength;
    var items, pos := [], 0;
    ghost var done: seq<Found> := [];
    AfterEnds(payload, []);
    while pos < |payload|
      invariant 0 <= pos <= |payload|
      invariant items == Raws(done)
      invariant Walk(payload) == After(done, payload[pos..])
    {
      var step := DecodeLength(payload[pos..]);
      AfterStep(done, payload, pos);
      if step.Err? {
        return Err;
      }
      var total := step.value.1;
      done := done + [Found(step.value.0, payload[pos..pos + total])];
      items := items + [payload[pos..pos + total]];
      pos := pos + total;
    }
    AfterEnds(payload, done);
    return Ok(items);
  }

  /** The items found so far and those still ahead. */
  function After(done: seq<Found>, data: Bytes): Result<seq<Found>> {
    var rest :- Walk(data);
    Ok(done + rest)
  }

  lemma AfterEnds(data: Bytes, done: seq<Found>)
    ensures Walk(data) == After([], data[0..])
    ensures After(done, data[|data|..]) == Ok(done)
  {
    assert data[0..] == data && data[|data|..] == [];
    if Walk(data).Ok? { assert [] + Walk(data).value == Walk(data).value; }
    assert done + [] == done;
  }

  lemma AfterStep(done: seq<Found>, payload: Bytes, pos: nat)
    requires pos < |payload|
    ensures DecodeLength(payload[pos..]).Err? ==> After(done, payload[pos..]) == Err
    ensures DecodeLength(payload[pos..]).Ok? ==>
              var (item, total) := DecodeLength(payload[pos..]).value;
              && pos + total <= |payload|
              && After(done, payload[pos..]) == After(done + [Found(item, payload[pos..pos + total])], payload[pos + total..])
  {
    hide DecodeLength;
    var tail := payload[pos..];
    if DecodeLength(tail).Ok? {
      var (item, total) := DecodeLength(tail).value;
      SliceSuffix(payload, pos, total);
      var f := Found(item, payload[pos..pos + total]);
      if Walk(tail[total..]).Ok? {
        var rest := Walk(tail[total..]).value;
        assert done + ([f] + rest) == (done + [f]) + rest;
      }
    }
  }

  lemma SliceSuffix(s: Bytes, a: nat, n: nat)
    requires a + n <= |s|
    ensures s[a..][..n] == s[a..a + n] && s[a..][n..] == s[a + n..]
  {
  }

  lemma SlicePrefix(s: Bytes, end: nat, a: nat, b: nat)
    requires a <= b <= end <= |s|
    ensures s[..end][a..b] == s[a..b]
  {
  }

  // ---------- Encoding then walking ----------

  lemma MinimalNat(len: nat)
    requires 0 < len < U64_LIMIT
    ensures 1 <= |Minimal(len)| && Nat(Minimal(len)) == len
  {
    assert Pow256(8) == U64_LIMIT by { Pow256Is(); }
    NatBigEndian(len, 8);
    NatTrim(BigEndian(len, 8));
    assert Nat([]) == 0;
  }

  lemma Pow256Is()
    ensures Pow256(8) == U64_LIMIT
  {
    assert Pow256(2) == 0x1_0000;
    assert Pow256(4) == 0x1_0000_0000;
    assert Pow256(6) == 0x1_0000_0000_0000;
  }

  lemma LongSpanOf(data: Bytes, digits: Bytes, len: nat)
    requires 1 + |digits| + len <= |data| && data[1..1 + |digits|] == digits && Nat(digits) == len
    ensures LongSpan(data, |digits|) == Ok(Span(1 + |digits|, 1 + |digits| + len))
  {
  }

  lemma LongPrefix(b: Bytes, digits: Bytes, first: byte, rest: Bytes)
    requires Nat(digits) == |b|
    ensures LongSpan([first] + digits + b + rest, |digits|) == Ok(Span(1 + |digits|, 1 + |digits| + |b|))
  {
    hide LongSpan, Nat;
    var data := [first] + digits + b + rest;
    Regroup([first], digits, b, rest);
    SliceOfAppend([first], digits, b + rest);
    LongSpanOf(data, digits, |b|);
  }

  lemma PrefixedSpan(b: Bytes, offset: byte, rest: Bytes)
    requires offset == 0x80 || offset == 0xc0
    requires |b| < U64_LIMIT
    ensures var prefix := LengthPrefix(|b|, offset);
            DecodeSpan(prefix + b + rest) == Ok(Span(|prefix|, |prefix| + |b|))
  {
    hide LongSpan, Nat, Minimal;
    var prefix := LengthPrefix(|b|, offset);
    var data := prefix + b + rest;
    assert data[0] == prefix[0];
    if |b| > 55 {
      MinimalNat(|b|);
      LongPrefix(b, Minimal(|b|), prefix[0], rest);
    }
  }

  /** The first item of an encoding is found whole, whatever follows it. */
  lemma DecodeEncoded(i: Item, rest: Bytes)
    requires |Payload(i)| < U64_LIMIT
    ensures DecodeLength(Encode(i) + rest) == Ok((Payload(i), |Encode(i)|))
  {
    var b := Payload(i);
    if i.Str? && |b| == 1 && b[0] < 0x80 {
      assert (b + rest)[0..1] == b;
    } else {
      var offset := if i.Str? then 0x80 else 0xc0;
      var prefix := LengthPrefix(|b|, offset);
      assert Encode(i) == prefix + b;
      PrefixedSpan(b, offset, rest);
      assert (prefix + b + rest)[|prefix|..|prefix| + |b|] == b;
    }
  }

  ghost predicate Encodable(items: seq<Item>) {
    forall i :: 0 <= i < |items| ==> |Payload(items[i])| < U64_LIMIT
  }

  function Expected(items: seq<Item>): (r: seq<Found>)
    ensures |r| == |items| && forall i :: 0 <= i < |items| ==> r[i] == Found(Payload(items[i]), Encode(items[i]))
  {
    seq(|items|, i requires 0 <= i < |items| => Found(Payload(items[i]), Encode(items[i])))
  }

  /** Encoding any byte strings and nested lists and walking over the result yields the items in
      order: their payloads and their own encodings. */
  lemma {:induction false} WalkEncoded(items: seq<Item>)
    requires Encodable(items)
    ensures Walk(EncodeAll(items)) == Ok(Expected(items))
    decreases |items|
  {
    hide Encode, Payload, DecodeLength;
    if items == [] {
      assert Expected(items) == [];
    } else {
      var head, rest := Encode(items[0]), EncodeAll(items[1..]);
      DecodeEncoded(items[0], rest);
      WalkEncoded(items[1..]);
      FirstFound(head, rest, Payload(items[0]));
      assert Expected(items) == [Found(Payload(items[0]), head)] + Expected(items[1..]);
    }
  }

  lemma FirstFound(head: Bytes, rest: Bytes, payload: Bytes)
    requires DecodeLength(head + rest) == Ok((payload, |head|))
    ensures Walk(head + rest) == (var more :- Walk(rest); Ok([Found(payload, head)] + more))
  {
    hide DecodeLength;
    assert (head + rest)[|head|..] == rest && (head + rest)[..|head|] == head;
  }

  // ---------- Walking any payload ----------

  lemma LongLocal(data: Bytes, lenBytes: nat)
    requires LongSpan(data, lenBytes).Ok?
    ensures LongSpan(data[..LongSpan(data, lenBytes).value.end], lenBytes) == LongSpan(data, lenBytes)
  {
    SlicePrefix(data, LongSpan(data, lenBytes).value.end, 1, 1 + lenBytes);
  }

  /** Decoding an item reads nothing behind it. */
  lemma DecodeLocal(data: Bytes)
    requires DecodeLength(data).Ok?
    ensures var (payload, total) := DecodeLength(data).value;
            DecodeLength(data[..total]) == Ok((payload, total))
  {
    hide LongSpan;
    var span := DecodeSpan(data).value;
    var prefix := data[0];
    if 0xb7 < prefix <= 0xbf {
      LongLocal(data, prefix - 0xb7);
    } else if 0xf7 < prefix {
      LongLocal(data, prefix - 0xf7);
    }
    SlicePrefix(data, span.end, span.start, span.end);
  }

  ghost predicate Stands(f: Found) {
    f.raw != [] && DecodeLength(f.raw) == Ok((f.payload, |f.raw|))
  }

  /** On any payload on which the walk completes, the raw spans concatenate to the payload, none
      of them is empty, and each decodes on its own to the payload found beside it. */
  lemma {:induction false} WalkExact(data: Bytes)
    requires Walk(data).Ok?
    ensures var found := Walk(data).value;
            Concat(Raws(found)) == data && forall i :: 0 <= i < |found| ==> Stands(found[i])
    decreases |data|
  {
    hide DecodeLength;
    if data == [] {
    } else {
      var (payload, total) := DecodeLength(data).value;
      DecodeLocal(data);
      WalkExact(data[total..]);
      var first, rest := Found(payload, data[..total]), Walk(data[total..]).value;
      assert Stands(first);
      RawsStep(first, rest);
      assert data == data[..total] + data[total..];
    }
  }

  lemma RawsStep(first: Found, rest: seq<Found>)
    ensures Concat(Raws([first] + rest)) == first.raw + Concat(Raws(rest))
  {
    assert Raws([first] + rest)[1..] == Raws(rest);
  }
}
