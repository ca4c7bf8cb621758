/** State deltas and execution entries, in words. */
module Entries {
  import opened Abi
  import opened Actions
  import opened Bytes

  datatype StateDelta = StateDelta(rollupId: nat, currentState: Bytes, newState: Bytes, etherDelta: int)

  datatype Entry = Entry(deltas: seq<StateDelta>, actionHash: Bytes, nextAction: Action)

  /** Half of the range of a word: 2^255. */
  function Half(): (h: int)
    ensures 2 * h == Pow256(32)
  {
    128 * Pow256(31)
  }

  /** A signed 256-bit number in two's complement. */
  function TwosComplement(d: int): (n: nat)
    requires -Half() <= d < Half()
    ensures n < Pow256(32)
  {
    if d >= 0 then d else Pow256(32) + d
  }

  function Signed(n: nat): int {
    if n < Half() then n else n - Pow256(32)
  }

  lemma SignedBack(d: int)
    requires -Half() <= d < Half()
    ensures Signed(TwosComplement(d)) == d
  {
  }

  ghost predicate ValidDelta(d: StateDelta) {
    && d.rollupId < Pow256(32) && |d.currentState| == 32 && |d.newState| == 32
    && -Half() <= d.etherDelta < Half()
  }

  ghost predicate ValidDeltas(ds: seq<StateDelta>) {
    forall i :: 0 <= i < |ds| ==> ValidDelta(ds[i])
  }

  function DeltaWords(d: StateDelta): (r: seq<nat>)
    requires ValidDelta(d)
    ensures |r| == 4
  {
    [d.rollupId, Nat(d.currentState), Nat(d.newState), TwosComplement(d.etherDelta)]
  }

  function AllDeltaWords(ds: seq<StateDelta>): (r: seq<nat>)
    requires ValidDeltas(ds)
    ensures |r| == 4 * |ds|
  {
    if ds == [] then [] else DeltaWords(ds[0]) + AllDeltaWords(ds[1..])
  }

  /** Four words read as one delta each; a rest of fewer is dropped. */
  function DeltasOf(ws: seq<nat>): seq<StateDelta> {
    if |ws| < 4 then []
    else [StateDelta(ws[0], Word(ws[1]), Word(ws[2]), Signed(ws[3]))] + DeltasOf(ws[4..])
  }

  lemma HashWord(hash: Bytes)
    requires |hash| == 32
    ensures Word(Nat(hash)) == hash && Nat(hash) < Pow256(32)
  {
    BigEndianNat(hash);
  }

  lemma {:induction false} DeltasBack(ds: seq<StateDelta>)
    requires ValidDeltas(ds)
    ensures DeltasOf(AllDeltaWords(ds)) == ds && Fits(AllDeltaWords(ds))
  {
    hide Word, Nat, Pow256, TwosComplement, Signed;
    if ds == [] {
    } else {
      HashWord(ds[0].currentState);
      HashWord(ds[0].newState);
      SignedBack(ds[0].etherDelta);
      DeltasBack(ds[1..]);
      var head, tail := DeltaWords(ds[0]), AllDeltaWords(ds[1..]);
      assert (head + tail)[4..] == tail;
      assert ds == [ds[0]] + ds[1..];
    }
  }
}
