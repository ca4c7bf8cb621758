/** The base fee of the next L2 block, computed in three places: by the reth-based node in big
    integers, by the ethrex-based node in 64 and 128 bits, and as an estimate by the builder. */
module BaseFee {
  import opened Wrappers

  const U64 := 0x1_0000_0000_0000_0000
  const U128 := 0x1_0000_0000_0000_0000_0000_0000_0000_0000

  /** By how much a fee of `fee` moves when the gas used is `gap` away from `target`. */
  function Delta(fee: nat, gap: nat, target: nat): nat
    requires target > 0
  {
    fee * gap / target / 8
  }

  /** The big-integer version. */
  function NextFee(fee: nat, used: nat, limit: nat): nat {
    var target := limit / 2;
    if target == 0 || used == target then fee
    else if used > target then
      var delta := Delta(fee, used - target, target);
      fee + if delta > 0 then delta else 1
    else
      var next := fee - Delta(fee, target - used, target);
      if next > 0 then next else 0
  }

  /** The fixed-width version: products and sums in 128 bits, the result cut to 64. */
  function NextFeeU64(fee: nat, used: nat, limit: nat): nat {
    var target := limit / 2;
    if target == 0 || used == target then fee
    else if used > target then
      var delta := (fee * (used - target)) % U128 / target / 8;
      ((fee + if delta > 0 then delta else 1) % U128) % U64
    else
      var delta := (fee * (target - used)) % U128 / target / 8;
      var next := (fee - delta) % U128;
      if next > 0 then next % U64 else 0
  }

  /** The builder's estimate; dividing by a target of zero throws. */
  function Estimate(fee: nat, used: nat, limit: nat): Option<nat> {
    var target := limit / 2;
    if used > target && target == 0 then None
    else
      var next := if used > target then fee + Delta(fee, used - target, target)
                  else if used < target then fee - Delta(fee, target - used, target)
                  else fee;
      Some(if next < 1 then 1 else next)
  }

  // ---------- Division ----------

  lemma DivMono(a: nat, b: nat, t: nat)
    requires a <= b && t > 0
    ensures a / t <= b / t
  {
    if a / t > b / t {
      MulMono(b / t + 1, a / t, t);
    }
  }

  lemma MulMono(a: nat, b: nat, t: nat)
    requires a <= b
    ensures a * t <= b * t
  {
  }

  lemma DivAdd(a: nat, e: nat, t: nat)
    requires t > 0
    ensures (a + e * t) / t == a / t + e
  {
    var q, r := a / t, a % t;
    assert a + e * t == (q + e) * t + r;
    DivUnique(a + e * t, q + e, r, t);
  }

  lemma DivUnique(n: nat, q: nat, r: nat, t: nat)
    requires t > 0 && r < t && n == q * t + r
    ensures n / t == q
  {
    if n / t > q {
      MulMono(q + 1, n / t, t);
    } else if n / t < q {
      MulMono(n / t + 1, q, t);
    }
  }

  /** A gap of at most `k` targets moves the fee by at most `k` eighths. */
  lemma DeltaBound(fee: nat, gap: nat, target: nat, k: nat)
    requires target > 0 && gap <= k * target
    ensures Delta(fee, gap, target) <= fee * k / 8
  {
    MulMono(gap, k * target, fee);
    assert fee * gap <= 0 + (fee * k) * target by { Regroup(fee, k, target); }
    DivMono(fee * gap, 0 + (fee * k) * target, target);
    DivAdd(0, fee * k, target);
    DivMono(fee * gap / target, fee * k, 8);
  }

  lemma Regroup(a: nat, b: nat, c: nat)
    ensures (b * c) * a == (a * b) * c
  {
  }

  lemma DeltaGrows(fee: nat, gap: nat, more: nat, target: nat)
    requires target > 0 && gap <= more
    ensures Delta(fee, gap, target) <= Delta(fee, more, target)
  {
    MulMono(gap, more, fee);
    DivMono(fee * gap, fee * more, target);
    DivMono(fee * gap / target, fee * more / target, 8);
  }

  /** A higher fee moves further, but never by more than the difference. */
  lemma DeltaOfHigher(fee: nat, higher: nat, gap: nat, target: nat)
    requires target > 0 && fee <= higher
    ensures Delta(fee, gap, target) <= Delta(higher, gap, target)
    ensures gap <= target ==> Delta(higher, gap, target) <= Delta(fee, gap, target) + (higher - fee)
  {
    MulMono(fee, higher, gap);
    DivMono(fee * gap, higher * gap, target);
    DivMono(fee * gap / target, higher * gap / target, 8);
    if gap <= target {
      var e := higher - fee;
      MulMono(gap, target, e);
      assert higher * gap == fee * gap + e * gap;
      DivMono(higher * gap, fee * gap + e * target, target);
      DivAdd(fee * gap, e, target);
      DivMono(higher * gap / target, fee * gap / target + 8 * e, 8);
      DivAdd(fee * gap / target, e, 8);
    }
  }

  // ---------- The two nodes ----------

  /** The largest product of two 64-bit numbers. */
  const MAX_PRODUCT := 0xFFFF_FFFF_FFFF_FFFE_0000_0000_0000_0001

  lemma ProductBound(fee: nat, gap: nat)
    requires fee < U64 && gap < U64
    ensures fee * gap <= MAX_PRODUCT
  {
    MulMono(fee, U64 - 1, gap);
    assert (U64 - 1) * gap <= MAX_PRODUCT;
  }

  lemma NoOverflow(fee: nat, gap: nat, target: nat)
    requires fee < U64 && gap < U64 && target > 0
    ensures (fee * gap) % U128 == fee * gap
  {
    ProductBound(fee, gap);
    Small(fee * gap);
  }

  lemma Small(n: nat)
    requires n <= MAX_PRODUCT
    ensures n % U128 == n
  {
  }

  lemma Quotients(fee: nat, gap: nat, target: nat)
    requires target > 0
    ensures Delta(fee, gap, target) <= fee * gap
  {
    DivMono(fee * gap, fee * gap * target, target) by { MulMono(1, target, fee * gap); }
    DivAdd(0, fee * gap, target);
  }

  /** The fixed-width steps up and down. */
  lemma StepUp(fee: nat, gap: nat, target: nat)
    requires fee < U64 && gap < U64 && target > 0
    ensures (fee * gap) % U128 / target / 8 == Delta(fee, gap, target)
    ensures var d := Delta(fee, gap, target);
            (fee + if d > 0 then d else 1) % U128 == fee + if d > 0 then d else 1
  {
    hide Delta;
    NoOverflow(fee, gap, target);
    DeltaIs(fee, gap, target);
    SumFits(fee, gap, target);
  }

  lemma StepDown(fee: nat, gap: nat, target: nat)
    requires fee < U64 && gap <= target < U64 && target > 0
    ensures (fee * gap) % U128 / target / 8 == Delta(fee, gap, target)
    ensures 0 <= fee - Delta(fee, gap, target) < U64
    ensures (fee - Delta(fee, gap, target)) % U128 == fee - Delta(fee, gap, target)
  {
    hide Delta;
    NoOverflow(fee, gap, target);
    DeltaIs(fee, gap, target);
    DeltaBound(fee, gap, target, 1);
  }

  lemma CutBack(n: nat)
    ensures n % U64 == n <==> n < U64
  {
  }

  /** On all 64-bit inputs no intermediate result overflows: the fixed-width version is the other one
      cut to 64 bits, so the two agree exactly when the result fits. */
  lemma FixedWidthCuts(fee: nat, used: nat, limit: nat)
    requires fee < 0x1_0000_0000_0000_0000 && used < 0x1_0000_0000_0000_0000 && limit < 0x1_0000_0000_0000_0000
    ensures NextFeeU64(fee, used, limit) == NextFee(fee, used, limit) % 0x1_0000_0000_0000_0000
    ensures NextFeeU64(fee, used, limit) == NextFee(fee, used, limit) <==> NextFee(fee, used, limit) < 0x1_0000_0000_0000_0000
  {
    var target := limit / 2;
    if target == 0 || used == target {
      CutBack(fee);
    } else if used > target {
      CutUp(fee, used, limit);
      CutBack(NextFee(fee, used, limit));
    } else {
      CutDown(fee, used, limit);
      CutBack(NextFee(fee, used, limit));
    }
  }

  lemma CutUp(fee: nat, used: nat, limit: nat)
    requires fee < U64 && used < U64 && limit < U64 && 0 < limit / 2 < used
    ensures NextFeeU64(fee, used, limit) == NextFee(fee, used, limit) % U64
  {
    hide Delta;
    StepUp(fee, used - limit / 2, limit / 2);
  }

  lemma CutDown(fee: nat, used: nat, limit: nat)
    requires fee < U64 && used < limit / 2 < U64
    ensures NextFeeU64(fee, used, limit) == NextFee(fee, used, limit) % U64 && NextFee(fee, used, limit) < U64
  {
    hide Delta;
    StepDown(fee, limit / 2 - used, limit / 2);
    CutBack(fee - Delta(fee, limit / 2 - used, limit / 2));
  }

  lemma DeltaIs(fee: nat, gap: nat, target: nat)
    requires target > 0
    ensures Delta(fee, gap, target) == fee * gap / target / 8
  {
  }

  lemma SumFits(fee: nat, gap: nat, target: nat)
    requires fee < U64 && gap < U64 && target > 0
    ensures fee + Delta(fee, gap, target) + 1 < U128
  {
    hide Delta;
    ProductBound(fee, gap);
    Quotients(fee, gap, target);
  }

  /** Up to a parent fee of 2^63, and with no more gas used than allowed, the result fits. */
  lemma NodesAgree(fee: nat, used: nat, limit: nat)
    requires fee <= 0x8000_0000_0000_0000 && used <= limit < 0x1_0000_0000_0000_0000
    ensures NextFeeU64(fee, used, limit) == NextFee(fee, used, limit)
  {
    hide Delta;
    FixedWidthCuts(fee, used, limit);
    var target := limit / 2;
    if target > 0 && used > target {
      DeltaBound(fee, used - target, target, 2);
    }
  }

  // ---------- The shape of the rule ----------

  lemma MonotoneInGas(fee: nat, used: nat, more: nat, limit: nat)
    requires used <= more
    ensures NextFee(fee, used, limit) <= NextFee(fee, more, limit)
  {
    hide Delta;
    var target := limit / 2;
    if target > 0 {
      if more < target {
        DeltaGrows(fee, target - more, target - used, target);
      } else if used > target {
        DeltaGrows(fee, used - target, more - target, target);
      }
    }
  }

  lemma MonotoneInFee(fee: nat, higher: nat, used: nat, limit: nat)
    requires fee <= higher
    ensures NextFee(fee, used, limit) <= NextFee(higher, used, limit)
  {
    hide Delta;
    var target := limit / 2;
    if target > 0 {
      DeltaOfHigher(fee, higher, if used > target then used - target else target - used, target);
    }
  }

  /** `step` is what EIP-1559 asks for: an eighth of the fee, scaled by how far the gas used is from the
      target, rounded down. */
  predicate ScaledEighth(fee: nat, gap: nat, target: nat, step: nat) {
    8 * target * step <= fee * gap < 8 * target * (step + 1)
  }

  lemma DeltaScales(fee: nat, gap: nat, target: nat)
    requires target > 0
    ensures ScaledEighth(fee, gap, target, Delta(fee, gap, target))
  {
    var n := fee * gap;
    var q := n / target;
    var d := q / 8;
    assert target * q <= n < target * (q + 1) by { DivBounds(n, target); }
    MulMono(8 * d, q, target);
    MulMono(q + 1, 8 * (d + 1), target);
    Regrouped(d, target);
    Regrouped(d + 1, target);
  }

  lemma DivBounds(n: nat, t: nat)
    requires t > 0
    ensures t * (n / t) <= n < t * (n / t + 1)
  {
  }

  lemma Regrouped(d: nat, t: nat)
    ensures 8 * d * t == 8 * t * d
  {
  }

  /** The rule, exactly: unchanged at the target, up by the scaled eighth but by at least one above it, down by
      the scaled eighth below. */
  lemma NextFeeExact(fee: nat, used: nat, limit: nat)
    ensures var (t, next) := (limit / 2, NextFee(fee, used, limit));
            if t == 0 || used == t then next == fee
            else if used > t then
              && next > fee
              && (ScaledEighth(fee, used - t, t, next - fee) || (next == fee + 1 && ScaledEighth(fee, used - t, t, 0)))
            else
              next <= fee && ScaledEighth(fee, t - used, t, fee - next)
  {
    hide Delta, ScaledEighth;
    var t := limit / 2;
    if t > 0 && used != t {
      var gap := if used > t then used - t else t - used;
      DeltaScales(fee, gap, t);
      if used < t { DeltaBound(fee, gap, t, 1); }
    }
  }

  /** The builder's estimate, exactly: the same without the minimal rise, and never below one. */
  lemma EstimateExact(fee: nat, used: nat, limit: nat) returns (step: nat)
    requires Estimate(fee, used, limit).Some?
    ensures var (t, estimate) := (limit / 2, Estimate(fee, used, limit).value);
            if used == t then estimate == if fee == 0 then 1 else fee
            else if used > t then
              ScaledEighth(fee, used - t, t, step) && estimate == if fee + step == 0 then 1 else fee + step
            else
              step <= fee && ScaledEighth(fee, t - used, t, step) && estimate == if fee == step then 1 else fee - step
  {
    hide Delta, ScaledEighth;
    var t := limit / 2;
    step := 0;
    if used != t {
      var gap := if used > t then used - t else t - used;
      step := Delta(fee, gap, t);
      DeltaScales(fee, gap, t);
      if used < t { DeltaBound(fee, gap, t, 1); }
    }
  }

  /** With an even gas limit a block moves the fee by at most an eighth, or by one. */
  lemma MovesByAnEighth(fee: nat, used: nat, limit: nat)
    requires used <= limit && limit % 2 == 0
    ensures var step := if fee / 8 > 1 then fee / 8 else 1;
            fee - step <= NextFee(fee, used, limit) <= fee + step
  {
    hide Delta;
    var target := limit / 2;
    if target > 0 {
      DeltaBound(fee, if used > target then used - target else target - used, target, 1);
    }
  }

  /** The guard against negative fees never acts, and a positive fee stays positive. */
  lemma GuardIsDead(fee: nat, used: nat, limit: nat)
    requires limit / 2 > 0 && used < limit / 2
    ensures NextFee(fee, used, limit) == fee - Delta(fee, limit / 2 - used, limit / 2)
    ensures NextFee(fee, used, limit) > 0 <==> fee > 0
  {
    hide Delta;
    DeltaBound(fee, limit / 2 - used, limit / 2, 1);
  }

  /** The fees of a run of blocks with the given gas used and limit. */
  function FeeAfter(fee: nat, blocks: seq<(nat, nat)>): nat
    decreases |blocks|
  {
    if blocks == [] then fee else FeeAfter(NextFee(fee, blocks[0].0, blocks[0].1), blocks[1..])
  }

  /** From 7 on the fee never falls below 7, so no run from the genesis fee does. */
  lemma {:induction false} NeverBelowSeven(fee: nat, blocks: seq<(nat, nat)>)
    requires fee >= 7
    ensures FeeAfter(fee, blocks) >= 7
    decreases |blocks|
  {
    hide Delta;
    if blocks == [] {
    } else {
      var (used, limit) := blocks[0];
      var target := limit / 2;
      if target > 0 && used < target {
        DeltaBound(fee, target - used, target, 1);
      }
      NeverBelowSeven(NextFee(fee, used, limit), blocks[1..]);
    }
  }

  lemma GenesisRun(blocks: seq<(nat, nat)>)
    ensures FeeAfter(1_000_000_000, blocks) >= 7
  {
    NeverBelowSeven(1_000_000_000, blocks);
  }

  /** The builder signs with twice its estimate.  The estimate exists unless gas was used under a
      limit below 2, and then twice it always covers the next fee. */
  lemma EstimateCovers(fee: nat, used: nat, limit: nat)
    ensures Estimate(fee, used, limit).None? <==> limit < 2 && used > 0
    ensures Estimate(fee, used, limit).Some? ==> NextFee(fee, used, limit) <= 2 * Estimate(fee, used, limit).value
  {
    hide Delta;
    var target := limit / 2;
    if target > 0 && used < target {
      DeltaBound(fee, target - used, target, 1);
    }
  }
}
