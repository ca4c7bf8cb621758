/** Splicing immutable values into deployed bytecode, digit by digit, in both full nodes. */
module Genesis {
  import opened Wrappers
  import Sorting

  /** A place in the code, in bytes; the code itself is a string of hex digits. */
  datatype Ref = Ref(start: nat, length: nat)

  /** The places of one immutable, with its value if the node knows one by that name. */
  datatype Immutable = Immutable(value: Option<string>, refs: seq<Ref>)

  datatype Patch = Patch(at: Ref, value: string)

  /** The value right-aligned in its slot. */
  function Padded(p: Patch): (r: string)
    ensures |p.value| <= 2 * p.at.length ==> |r| == 2 * p.at.length
  {
    if |p.value| < 2 * p.at.length then seq(2 * p.at.length - |p.value|, i => '0') + p.value else p.value
  }

  function First(p: Patch): nat {
    2 * p.at.start
  }

  function Behind(p: Patch): nat {
    2 * (p.at.start + p.at.length)
  }

  function Min(a: nat, b: nat): nat {
    if a <= b then a else b
  }

  /** Slices of strings are cut to the string's length. */
  function SpliceTs(code: string, p: Patch): string {
    code[..Min(First(p), |code|)] + Padded(p) + code[Min(Behind(p), |code|)..]
  }

  /** Replacing a range outside the string panics. */
  function SpliceRust(code: string, p: Patch): Result<string> {
    if Behind(p) > |code| then Err else Ok(code[..First(p)] + Padded(p) + code[Behind(p)..])
  }

  function Patches(refs: seq<Ref>, value: string): (r: seq<Patch>)
    ensures |r| == |refs| && forall i :: 0 <= i < |r| ==> r[i] == Patch(refs[i], value)
  {
    seq(|refs|, i requires 0 <= i < |refs| => Patch(refs[i], value))
  }

  function PatchesOf(i: Immutable): seq<Patch> {
    if i.value.Some? then Patches(i.refs, i.value.value) else []
  }

  function AllPatches(immutables: seq<Immutable>): seq<Patch> {
    if immutables == [] then [] else AllPatches(immutables[..|immutables| - 1]) + PatchesOf(immutables[|immutables| - 1])
  }

  function ApplyTs(code: string, ps: seq<Patch>): string {
    if ps == [] then code else SpliceTs(ApplyTs(code, ps[..|ps| - 1]), ps[|ps| - 1])
  }

  function ApplyRust(code: string, ps: seq<Patch>): Result<string> {
    if ps == [] then Ok(code)
    else
      var before :- ApplyRust(code, ps[..|ps| - 1]);
      SpliceRust(before, ps[|ps| - 1])
  }

  // ---------- The loops ----------

  lemma PatchMore(ps: seq<Patch>, p: Patch, code: string)
    ensures ApplyTs(code, ps + [p]) == SpliceTs(ApplyTs(code, ps), p)
    ensures ApplyRust(code, ps + [p]) == (var before :- ApplyRust(code, ps); SpliceRust(before, p))
  {
    hide SpliceTs, SpliceRust;
    assert (ps + [p])[..|ps|] == ps;
  }

  lemma {:induction false} StuckStays(code: string, ps: seq<Patch>, qs: seq<Patch>)
    requires ApplyRust(code, ps).Err?
    ensures ApplyRust(code, ps + qs).Err?
  {
    if qs == [] {
      assert ps + qs == ps;
    } else {
      var init, last := qs[..|qs| - 1], qs[|qs| - 1];
      StuckStays(code, ps, init);
      assert ps + qs == (ps + init) + [last];
      PatchMore(ps + init, last, code);
    }
  }

  method SpliceImmutablesTs(bytecode: string, immutables: seq<Immutable>) returns (code: string)
    ensures code == ApplyTs(bytecode, AllPatches(immutables))
  {
    hide ApplyTs, ApplyRust, SpliceTs;
    code := bytecode;
    NoPatches(bytecode);
    for i := 0 to |immutables|
      invariant code == ApplyTs(bytecode, AllPatches(immutables[..i]))
    {
      ghost var done := AllPatches(immutables[..i]);
      ImmutablesMore(immutables, i);
      if immutables[i].value.None? {
        assert done + [] == done;
        continue;
      }
      var value := immutables[i].value.value;
      ghost var all := Patches(immutables[i].refs, value);
      assert done + all[..0] == done;
      for j := 0 to |immutables[i].refs|
        invariant code == ApplyTs(bytecode, done + all[..j])
      {
        assert done + all[..j + 1] == (done + all[..j]) + [all[j]];
        PatchMore(done + all[..j], all[j], bytecode);
        code := SpliceTs(code, Patch(immutables[i].refs[j], value));
      }
      assert all[..|all|] == all;
    }
    assert immutables[..|immutables|] == immutables;
  }

  method SpliceImmutablesRust(bytecode: string, immutables: seq<Immutable>) returns (r: Result<string>)
    ensures r == ApplyRust(bytecode, AllPatches(immutables))
  {
    hide ApplyTs, ApplyRust, SpliceRust, AllPatches;
    var code := bytecode;
    NoPatches(bytecode);
    for i := 0 to |immutables|
      invariant Ok(code) == ApplyRust(bytecode, AllPatches(immutables[..i]))
    {
      ghost var done := AllPatches(immutables[..i]);
      ImmutablesMore(immutables, i);
      if immutables[i].value.None? {
        assert done + [] == done;
        continue;
      }
      var value := immutables[i].value.value;
      ghost var all := Patches(immutables[i].refs, value);
      assert done + all[..0] == done;
      for j := 0 to |immutables[i].refs|
        invariant Ok(code) == ApplyRust(bytecode, done + all[..j])
      {
        assert done + all[..j + 1] == (done + all[..j]) + [all[j]];
        PatchMore(done + all[..j], all[j], bytecode);
        var next := SpliceRust(code, Patch(immutables[i].refs[j], value));
        if next.Err? {
          Stuck(bytecode, immutables, i, all, j);
          return Err;
        }
        code := next.value;
      }
      assert all[..|all|] == all;
    }
    assert immutables[..|immutables|] == immutables;
    return Ok(code);
  }

  lemma NoPatches(code: string)
    ensures AllPatches([]) == [] && ApplyTs(code, []) == code && ApplyRust(code, []) == Ok(code)
  {
  }

  lemma ImmutablesMore(immutables: seq<Immutable>, i: nat)
    requires i < |immutables|
    ensures AllPatches(immutables[..i + 1]) == AllPatches(immutables[..i]) + PatchesOf(immutables[i])
    ensures immutables[..0] == []
  {
    assert immutables[..i + 1][..i] == immutables[..i];
  }

  lemma {:induction false} PatchesSplit(immutables: seq<Immutable>, i: nat) returns (rest: seq<Patch>)
    requires i <= |immutables|
    ensures AllPatches(immutables) == AllPatches(immutables[..i]) + rest
    decreases |immutables|
  {
    if i == |immutables| {
      rest := [];
      assert immutables[..i] == immutables;
    } else {
      var init := immutables[..|immutables| - 1];
      var r := PatchesSplit(init, i);
      assert init[..i] == immutables[..i];
      rest := r + PatchesOf(immutables[|immutables| - 1]);
    }
  }

  /** A patch that does not fit stops the whole splicing. */
  lemma Stuck(code: string, immutables: seq<Immutable>, i: nat, all: seq<Patch>, j: nat)
    requires i < |immutables| && j < |all| && PatchesOf(immutables[i]) == all
    requires ApplyRust(code, AllPatches(immutables[..i]) + all[..j + 1]).Err?
    ensures ApplyRust(code, AllPatches(immutables)).Err?
  {
    hide ApplyRust, AllPatches, PatchesOf;
    var rest := PatchesSplit(immutables, i + 1);
    ImmutablesMore(immutables, i);
    var done := AllPatches(immutables[..i]);
    assert done + all + rest == (done + all[..j + 1]) + (all[j + 1..] + rest);
    StuckStays(code, done + all[..j + 1], all[j + 1..] + rest);
  }

  // ---------- What splicing does ----------

  predicate Covers(p: Patch, k: nat) {
    First(p) <= k < Behind(p)
  }

  /** Slots inside the code that no value outgrows and no two of which overlap. */
  ghost predicate Fitting(size: nat, ps: seq<Patch>) {
    && (forall i :: 0 <= i < |ps| ==> Behind(ps[i]) <= size && |ps[i].value| <= 2 * ps[i].at.length)
    && (forall i, j :: 0 <= i < j < |ps| ==> Behind(ps[i]) <= First(ps[j]) || Behind(ps[j]) <= First(ps[i]))
  }

  lemma OneSplice(code: string, p: Patch)
    requires Behind(p) <= |code| && |p.value| <= 2 * p.at.length
    ensures SpliceRust(code, p) == Ok(SpliceTs(code, p)) && |SpliceTs(code, p)| == |code|
    ensures forall k :: 0 <= k < |code| ==>
              SpliceTs(code, p)[k] == if Covers(p, k) then Padded(p)[k - First(p)] else code[k]
  {
    hide Padded;
  }

  /** With fitting slots both nodes produce the same code, of unchanged length: the padded value of
      each slot in the slot, and every other digit as before. */
  lemma {:induction false} SplicedDigits(code: string, ps: seq<Patch>)
    requires Fitting(|code|, ps)
    ensures ApplyRust(code, ps) == Ok(ApplyTs(code, ps)) && |ApplyTs(code, ps)| == |code|
    ensures forall i, k :: 0 <= i < |ps| && First(ps[i]) <= k < Behind(ps[i]) ==>
              ApplyTs(code, ps)[k] == Padded(ps[i])[k - First(ps[i])]
    ensures forall k :: 0 <= k < |code| && (forall i :: 0 <= i < |ps| ==> !Covers(ps[i], k)) ==>
              ApplyTs(code, ps)[k] == code[k]
  {
    hide Padded, SpliceTs, SpliceRust;
    if ps == [] {
    } else {
      var before, p := ps[..|ps| - 1], ps[|ps| - 1];
      SplicedDigits(code, before);
      OneSplice(ApplyTs(code, before), p);
      forall k | 0 <= k < |code| && (forall i :: 0 <= i < |ps| ==> !Covers(ps[i], k)) ensures ApplyTs(code, ps)[k] == code[k] {
        assert forall i :: 0 <= i < |before| ==> before[i] == ps[i];
        assert !Covers(ps[|ps| - 1], k);
      }
      forall i, k | 0 <= i < |ps| && First(ps[i]) <= k < Behind(ps[i])
        ensures ApplyTs(code, ps)[k] == Padded(ps[i])[k - First(ps[i])]
      {
        if i < |before| {
          assert before[i] == ps[i] && !Covers(p, k);
        }
      }
    }
  }

  lemma PaddedDigits(p: Patch)
    requires |p.value| <= 2 * p.at.length
    ensures var zeros := 2 * p.at.length - |p.value|;
            && |Padded(p)| == 2 * p.at.length
            && forall d :: 0 <= d < 2 * p.at.length ==> Padded(p)[d] == if d < zeros then '0' else p.value[d - zeros]
  {
  }

  /** The digits in the place of a patch: zeros, then the value, up to the end of the slot. */
  predicate Filled(code: string, p: Patch)
    requires |p.value| <= 2 * p.at.length
  {
    var (from, zeros) := (2 * p.at.start, 2 * p.at.length - |p.value|);
    && from + 2 * p.at.length <= |code|
    && forall k :: from <= k < from + 2 * p.at.length ==>
         code[k] == if k < from + zeros then '0' else p.value[k - from - zeros]
  }

  predicate Untouched(ps: seq<Patch>, k: nat) {
    forall i :: 0 <= i < |ps| ==> k < 2 * ps[i].at.start || k >= 2 * ps[i].at.start + 2 * ps[i].at.length
  }

  /** Each slot is filled, and nothing else changes. */
  lemma SlotDigits(code: string, ps: seq<Patch>)
    requires Fitting(|code|, ps)
    ensures |ApplyTs(code, ps)| == |code| && ApplyRust(code, ps) == Ok(ApplyTs(code, ps))
    ensures forall i :: 0 <= i < |ps| ==> Filled(ApplyTs(code, ps), ps[i])
    ensures forall k :: 0 <= k < |code| && Untouched(ps, k) ==> ApplyTs(code, ps)[k] == code[k]
  {
    hide ApplyTs, ApplyRust, Padded;
    SplicedDigits(code, ps);
    forall i | 0 <= i < |ps| ensures Filled(ApplyTs(code, ps), ps[i]) {
      PaddedDigits(ps[i]);
    }
    forall k | 0 <= k < |code| && Untouched(ps, k) ensures ApplyTs(code, ps)[k] == code[k] {
      assert forall i :: 0 <= i < |ps| ==> !Covers(ps[i], k);
    }
  }

  /** The immutable has a known value, which belongs at the place of the patch. */
  predicate WantsPatch(im: Immutable, p: Patch) {
    im.value == Some(p.value) && p.at in im.refs
  }

  /** There is one slot to fill for each place of each immutable whose value is known, and no other. */
  lemma {:induction false} PatchesExactly(immutables: seq<Immutable>, p: Patch)
    ensures p in AllPatches(immutables) <==> exists im :: im in immutables && WantsPatch(im, p)
  {
    hide PatchesOf, WantsPatch;
    if immutables == [] {
    } else {
      var n := |immutables| - 1;
      PatchesExactly(immutables[..n], p);
      OwnPatches(immutables[n], p);
      assert immutables == immutables[..n] + [immutables[n]];
    }
  }

  lemma OwnPatches(im: Immutable, p: Patch)
    ensures p in PatchesOf(im) <==> WantsPatch(im, p)
  {
    if im.value.Some? {
      var ps := Patches(im.refs, im.value.value);
      if WantsPatch(im, p) {
        var j :| 0 <= j < |im.refs| && im.refs[j] == p.at;
        assert ps[j] == p;
      }
    }
  }

  /** Out of range the nodes differ: one pushes what fits to the end of the code, the other stops. */
  lemma OutOfRange(code: string, p: Patch)
    requires 2 * (p.at.start + p.at.length) > |code| && |p.value| <= 2 * p.at.length
    ensures SpliceRust(code, p).Err?
    ensures var kept := if 2 * p.at.start <= |code| then 2 * p.at.start else |code|;
            && |SpliceTs(code, p)| == kept + 2 * p.at.length
            && SpliceTs(code, p)[..kept] == code[..kept] && SpliceTs(code, p)[kept..] == Padded(p)
  {
  }

  /** The order in which the slots are filled does not matter. */
  lemma OrderIrrelevant(code: string, ps: seq<Patch>, qs: seq<Patch>)
    requires Fitting(|code|, ps) && Fitting(|code|, qs) && multiset(ps) == multiset(qs)
    ensures ApplyTs(code, ps) == ApplyTs(code, qs) && ApplyRust(code, qs) == Ok(ApplyTs(code, ps))
  {
    hide ApplyTs, ApplyRust, Padded, Fitting;
    SplicedDigits(code, ps);
    SplicedDigits(code, qs);
    forall k | 0 <= k < |code| ensures ApplyTs(code, ps)[k] == ApplyTs(code, qs)[k] {
      if i :| 0 <= i < |ps| && Covers(ps[i], k) {
        var j := Sorting.Member(ps, qs, i);
      } else {
        forall j | 0 <= j < |qs| ensures !Covers(qs[j], k) {
          var i := Sorting.Member(qs, ps, j);
        }
      }
    }
  }

  lemma FittingAny(size: nat, ps: seq<Patch>, qs: seq<Patch>)
    requires Fitting(size, ps) && multiset(ps) == multiset(qs) && forall i :: 0 <= i < |ps| ==> ps[i].at.length > 0
    ensures Fitting(size, qs)
  {
    forall i | 0 <= i < |qs| ensures Behind(qs[i]) <= size && |qs[i].value| <= 2 * qs[i].at.length {
      var k := Sorting.Member(qs, ps, i);
    }
    forall i, j | 0 <= i < j < |qs| ensures Behind(qs[i]) <= First(qs[j]) || Behind(qs[j]) <= First(qs[i]) {
      var a := Sorting.Member(qs, ps, i);
      var b := Sorting.Member(qs, ps, j);
      if a == b {
        Twice(qs, i, j);
        Once(ps, a);
      }
    }
  }

  lemma Twice(qs: seq<Patch>, i: nat, j: nat)
    requires i < j < |qs| && qs[i] == qs[j]
    ensures multiset(qs)[qs[i]] >= 2
  {
    assert qs == qs[..i] + [qs[i]] + qs[i + 1..j] + [qs[j]] + qs[j + 1..];
  }

  /** Slots that do not overlap and are not empty are all different. */
  lemma Once(ps: seq<Patch>, a: nat)
    requires a < |ps| && ps[a].at.length > 0
    requires forall i, j :: 0 <= i < j < |ps| ==> Behind(ps[i]) <= First(ps[j]) || Behind(ps[j]) <= First(ps[i])
    ensures multiset(ps)[ps[a]] == 1
  {
    assert ps == ps[..a] + [ps[a]] + ps[a + 1..];
    assert ps[a] !in ps[..a];
    assert ps[a] !in ps[a + 1..];
  }

  lemma Without<T>(s: seq<T>, k: nat)
    requires k < |s|
    ensures multiset(s) == multiset(s[..k] + s[k + 1..]) + multiset{s[k]}
    ensures s == s[..k] + ([s[k]] + s[k + 1..])
  {
    assert s == s[..k] + [s[k]] + s[k + 1..];
  }

  lemma OneImmutable(i: Immutable)
    ensures AllPatches([i]) == PatchesOf(i)
  {
    assert [i][..0] == [] && [] + PatchesOf(i) == PatchesOf(i);
  }

  lemma {:induction false} AllPatchesAppend(a: seq<Immutable>, b: seq<Immutable>)
    ensures AllPatches(a + b) == AllPatches(a) + AllPatches(b)
  {
    hide PatchesOf;
    if b == [] {
      assert a + b == a;
    } else {
      var init, last := b[..|b| - 1], b[|b| - 1];
      AllPatchesAppend(a, init);
      assert (a + b)[..|a + b| - 1] == a + init && (a + b)[|a + b| - 1] == last;
      Associate(AllPatches(a), AllPatches(init), PatchesOf(last));
    }
  }

  lemma Associate(a: seq<Patch>, b: seq<Patch>, c: seq<Patch>)
    ensures (a + b) + c == a + (b + c)
  {
  }

  /** Taking out one immutable takes out its patches. */
  lemma PatchesWithout(s: seq<Immutable>, k: nat)
    requires k < |s|
    ensures multiset(AllPatches(s)) == multiset(AllPatches(s[..k] + s[k + 1..])) + multiset(PatchesOf(s[k]))
  {
    hide AllPatches, PatchesOf;
    Without(s, k);
    OneImmutable(s[k]);
    AllPatchesAppend(s[..k], [s[k]] + s[k + 1..]);
    AllPatchesAppend([s[k]], s[k + 1..]);
    AllPatchesAppend(s[..k], s[k + 1..]);
  }

  lemma Cancel<T>(a: multiset<T>, b: multiset<T>, c: multiset<T>)
    requires a + c == b + c
    ensures a == b
  {
    assert a == (a + c) - c && b == (b + c) - c;
  }

  lemma {:induction false} PatchesPermute(gs: seq<Immutable>, hs: seq<Immutable>)
    requires multiset(gs) == multiset(hs)
    ensures multiset(AllPatches(gs)) == multiset(AllPatches(hs))
    decreases |gs|
  {
    hide AllPatches, PatchesOf;
    assert |gs| == |multiset(gs)| == |multiset(hs)| == |hs|;
    if gs != [] {
      assert gs[0] in multiset(hs);
      var k :| 0 <= k < |hs| && hs[k] == gs[0];
      Without(gs, 0);
      Without(hs, k);
      PatchesWithout(gs, 0);
      PatchesWithout(hs, k);
      var x, y := gs[..0] + gs[0 + 1..], hs[..k] + hs[k + 1..];
      Cancel(multiset(x), multiset(y), multiset{gs[0]});
      PatchesPermute(x, y);
    } else {
      assert hs == [];
    }
  }

  /** The two nodes iterate over the immutables in different orders, and build the same code. */
  lemma NodesBuildSameCode(code: string, ts: seq<Immutable>, rust: seq<Immutable>)
    requires multiset(ts) == multiset(rust) && Fitting(|code|, AllPatches(ts))
    requires forall i :: 0 <= i < |AllPatches(ts)| ==> AllPatches(ts)[i].at.length > 0
    ensures ApplyRust(code, AllPatches(rust)) == Ok(ApplyTs(code, AllPatches(ts)))
  {
    PatchesPermute(ts, rust);
    FittingAny(|code|, AllPatches(ts), AllPatches(rust));
    OrderIrrelevant(code, AllPatches(ts), AllPatches(rust));
  }
}
