/** The bounded records a full node keeps so that it can recover from an L1 reorg: a window of
    block hashes and a list of checkpoints. */
module NodeHistory {
  import opened EventReplay

  const MAX_REORG_HISTORY := 128
  const REORG_CHECK_DEPTH := 8
  const FETCH_BATCH := 10000

  /** Rollback target: the tracked root and the head L2 block number before the events of
      `l1Block` were processed. */
  datatype Checkpoint = Checkpoint(l1Block: nat, l2Block: int, root: string)

  type History = map<int, string>

  // ---------- Block hashes ----------

  /** The history holds exactly the blocks `lo` to `hi`. */
  ghost predicate Window(h: History, lo: int, hi: int) {
    forall k :: k in h <==> lo <= k <= hi
  }

  lemma {:induction false} RangeSize(s: set<int>, lo: int, hi: int)
    requires lo <= hi + 1
    requires forall k :: k in s <==> lo <= k <= hi
    ensures |s| == hi - lo + 1
    decreases hi - lo + 1
  {
    if lo == hi + 1 {
      assert forall k :: k !in s;
    } else {
      RangeSize(s - {hi}, lo, hi - 1);
      assert s == (s - {hi}) + {hi};
    }
  }

  lemma WindowSize(h: History, lo: int, hi: int)
    requires Window(h, lo, hi) && lo <= hi + 1
    ensures |h| == hi - lo + 1
  {
    RangeSize(h.Keys, lo, hi);
    assert |h| == |h.Keys|;
  }

  /** `h` is `h0` with the hashes of blocks `eff` to `upto` recorded, trimmed to the newest
      `MAX_REORG_HISTORY` keys: `cut` is where the kept part begins. */
  ghost predicate Trimmed(h0: History, c: Chain, eff: int, upto: int, cut: int, h: History) {
    && (forall k :: k in h <==> (k in h0 || eff <= k <= upto) && cut <= k)
    && (forall k :: k in h ==> if k in h0 then h[k] == h0[k] else 0 <= k < |c| && h[k] == c[k].hash)
    && |h| <= MAX_REORG_HISTORY
    && (|h| == MAX_REORG_HISTORY || ((forall k :: k in h0 ==> cut <= k) && (eff <= upto ==> cut <= eff)))
  }

  lemma TrimmedByPruning(h0: History, c: Chain, eff: int, upto: int, recorded: History, cut: int, h: History)
    requires forall k :: k in recorded <==> k in h0 || eff <= k <= upto
    requires forall k :: k in recorded ==>
      if k in h0 then recorded[k] == h0[k] else 0 <= k < |c| && recorded[k] == c[k].hash
    requires forall k :: k in h <==> k in recorded && cut <= k
    requires forall k :: k in h ==> h[k] == recorded[k]
    requires |h| <= MAX_REORG_HISTORY && (|h| == MAX_REORG_HISTORY || h == recorded)
    ensures Trimmed(h0, c, eff, upto, cut, h)
  {
    if h == recorded {
      forall k | k in h0 ensures cut <= k {
        assert k in recorded && k in h;
      }
      if eff <= upto { assert eff in recorded && eff in h; }
    }
  }

  lemma Inhabited(s: set<int>)
    ensures s == {} || exists k :: k in s
  {
    if forall k :: k !in s { assert s == {}; }
  }

  lemma {:induction false} HasMin(s: set<int>) returns (m: int)
    requires exists k :: k in s
    ensures m in s && forall k :: k in s ==> m <= k
  {
    var p :| p in s;
    m := p;
    var rest := s - {p};
    Inhabited(rest);
    if rest != {} {
      m := HasMin(rest);
      if p < m { m := p; }
    }
    assert forall k :: k in s ==> k == p || k in rest;
  }

  /** The keys in ascending order. */
  method SortedKeys(s: set<int>) returns (a: seq<int>)
    ensures forall i, j :: 0 <= i < j < |a| ==> a[i] < a[j]
    ensures forall k :: k in a <==> k in s
    ensures |a| == |s|
  {
    a := [];
    var rest := s;
    while rest != {}
      invariant rest <= s
      invariant forall i, j :: 0 <= i < j < |a| ==> a[i] < a[j]
      invariant forall k :: k in s <==> k in a || k in rest
      invariant forall i, r :: 0 <= i < |a| && r in rest ==> a[i] < r
      invariant |a| + |rest| == |s|
      decreases rest
    {
      Inhabited(rest);
      ghost var least := HasMin(rest);
      var m :| m in rest && forall k :: k in rest ==> m <= k;
      a := a + [m];
      rest := rest - {m};
    }
  }

  /** Block `k` of the history is still on chain `c`. */
  predicate Canonical(h: History, c: Chain, k: int)
    requires k in h
  {
    0 <= k < |c| && c[k].hash == h[k]
  }

  /** A node that followed L1 holds canonical hashes, except for one run of stale ones. */
  ghost predicate OneStaleRun(h: History, c: Chain) {
    forall j, k, b :: j in h && k in h && b in h && j < k < b && !Canonical(h, c, b) && Canonical(h, c, k) ==> Canonical(h, c, j)
  }

  /** A block hash commits to everything below it. */
  ghost predicate HashChained(c: Chain, d: Chain) {
    forall n :: 0 <= n < |c| && n < |d| && c[n].hash == d[n].hash ==> c[..n + 1] == d[..n + 1]
  }

  /** The chains coincide below block `n`. */
  predicate Agree(c: Chain, d: Chain, n: int) {
    0 <= n <= |c| && n <= |d| && c[..n] == d[..n]
  }

  lemma AgreeBelow(c: Chain, d: Chain, m: int, n: int)
    requires Agree(c, d, n) && 0 <= m <= n
    ensures Agree(c, d, m)
  {
    assert c[..m] == c[..n][..m] == d[..n][..m] == d[..m];
  }

  lemma AgreeAt(c: Chain, d: Chain, n: int, k: int)
    requires Agree(c, d, n) && 0 <= k < n
    ensures c[k] == d[k]
  {
    assert c[..n][k] == d[..n][k];
  }

  lemma AgreeEvents(c: Chain, d: Chain, a: int, n: int)
    requires Agree(c, d, n)
    ensures SameEvents(c, d, a, n)
  {
    forall k | 0 <= k && a <= k < n ensures c[k].events == d[k].events {
      AgreeAt(c, d, n, k);
    }
  }

  // ---------- Checkpoints ----------

  ghost predicate InOrder(cps: seq<Checkpoint>) {
    forall i, j :: 0 <= i < j < |cps| ==> cps[i].l1Block < cps[j].l1Block
  }

  /** The newest checkpoints: what is left after shifting out the oldest. */
  function Newest(cps: seq<Checkpoint>): (r: seq<Checkpoint>)
    ensures |r| == if |cps| <= 128 then |cps| else 128
    ensures r == cps[|cps| - |r|..]
  {
    if |cps| > MAX_REORG_HISTORY then cps[|cps| - MAX_REORG_HISTORY..] else cps
  }

  lemma NewestAppend(a: seq<Checkpoint>, b: seq<Checkpoint>)
    ensures Newest(Newest(a) + b) == Newest(a + b)
  {
    hide Newest;
    NewestDropped(a, 0);
    if |a| > MAX_REORG_HISTORY {
      var dropped := |a| - MAX_REORG_HISTORY;
      DropAppend(a, b, dropped);
      NewestDropped(a + b, dropped);
    }
  }

  lemma NewestDropped(s: seq<Checkpoint>, n: nat)
    requires n == 0 || n + MAX_REORG_HISTORY <= |s|
    ensures n <= |s| && Newest(s[n..]) == Newest(s)
    ensures Newest(s) == if |s| > MAX_REORG_HISTORY then s[|s| - MAX_REORG_HISTORY..] else s
  {
    if n == 0 {
      assert s[0..] == s;
    } else {
      DropTwice(s, n, |s| - n - MAX_REORG_HISTORY);
    }
  }

  lemma DropAppend<T>(a: seq<T>, b: seq<T>, n: nat)
    requires n <= |a|
    ensures a[n..] + b == (a + b)[n..]
  {
  }

  lemma DropTwice<T>(s: seq<T>, n: nat, m: nat)
    requires n + m <= |s|
    ensures s[n..][m..] == s[n + m..]
  {
  }

  lemma NewestGrows(cps: seq<Checkpoint>, a: seq<Checkpoint>, b: seq<Checkpoint>, more: seq<Checkpoint>)
    requires more == a + b
    ensures Newest(Newest(cps + a) + b) == Newest(cps + more)
  {
    NewestAppend(cps + a, b);
    assert (cps + a) + b == cps + more;
  }

  /** What is saved before block `n` is processed in view `w`: nothing if `n` has no events. */
  function CheckpointAt(w: View, c: Chain, n: nat): (r: seq<Checkpoint>)
    requires n < |c|
  {
    if c[n].events == [] then [] else [Checkpoint(n, |w.l2| - 1, w.root)]
  }

  /** One checkpoint for every block from `from` to `end` that carries events. */
  function NewCheckpoints(x: Executor, v: View, c: Chain, from: nat, end: nat): (r: seq<Checkpoint>)
    requires end <= |c|
    decreases end
  {
    if end <= from then []
    else NewCheckpoints(x, v, c, from, end - 1) + CheckpointAt(ReplayOn(x, v, c, from, end - 1), c, end - 1)
  }

  lemma {:induction false} NewCheckpointsAscend(x: Executor, v: View, c: Chain, from: nat, end: nat)
    requires end <= |c|
    ensures forall cp :: cp in NewCheckpoints(x, v, c, from, end) ==> from <= cp.l1Block < end
    ensures InOrder(NewCheckpoints(x, v, c, from, end))
    decreases end
  {
    if end <= from {
    } else {
      NewCheckpointsAscend(x, v, c, from, end - 1);
    }
  }

  /** The checkpoint holds the outcome of replaying exactly the blocks strictly below it,
      and the L2 chain still has that outcome as a prefix. */
  ghost predicate CheckpointOk(x: Executor, v: View, c: Chain, from: nat, l2: seq<string>, cp: Checkpoint) {
    && from <= cp.l1Block <= |c|
    && 0 <= cp.l2Block < |l2|
    && View(cp.root, l2[..cp.l2Block + 1]) == ReplayOn(x, v, c, from, cp.l1Block)
  }

  lemma PrefixKeeps(x: Executor, v: View, c: Chain, from: nat, l2: seq<string>, m2: seq<string>, cp: Checkpoint)
    requires CheckpointOk(x, v, c, from, l2, cp)
    requires l2 <= m2
    ensures CheckpointOk(x, v, c, from, m2, cp)
  {
    assert m2[..cp.l2Block + 1] == l2[..cp.l2Block + 1];
  }

  lemma {:induction false} NewCheckpointsOk(x: Executor, v: View, c: Chain, from: nat, end: nat, cp: Checkpoint)
    requires from <= end <= |c| && v.l2 != []
    requires cp in NewCheckpoints(x, v, c, from, end)
    ensures CheckpointOk(x, v, c, from, ReplayOn(x, v, c, from, end).l2, cp)
    decreases end
  {
    hide ReplayOn, CheckpointOk, NewCheckpoints;
    if from == end {
      NoNewCheckpoints(x, v, c, from);
    } else {
      var w := ReplayOn(x, v, c, from, end - 1);
      NewCheckpointsStep(x, v, c, from, end - 1);
      ReplayGrows(x, v, c, from, end - 1);
      LastBlockGrows(x, v, c, from, end);
      if cp in NewCheckpoints(x, v, c, from, end - 1) {
        NewCheckpointsOk(x, v, c, from, end - 1, cp);
      } else {
        LatestOk(x, v, c, from, end - 1, cp);
      }
      PrefixKeeps(x, v, c, from, w.l2, ReplayOn(x, v, c, from, end).l2, cp);
    }
  }

  lemma LastBlockGrows(x: Executor, v: View, c: Chain, from: nat, end: nat)
    requires from < end <= |c|
    ensures ReplayOn(x, v, c, from, end - 1).l2 <= ReplayOn(x, v, c, from, end).l2
  {
    EventsGrow(x, ReplayOn(x, v, c, from, end - 1), c[end - 1].events);
  }

  lemma LatestOk(x: Executor, v: View, c: Chain, from: nat, n: nat, cp: Checkpoint)
    requires from <= n < |c| && ReplayOn(x, v, c, from, n).l2 != []
    requires cp in CheckpointAt(ReplayOn(x, v, c, from, n), c, n)
    ensures CheckpointOk(x, v, c, from, ReplayOn(x, v, c, from, n).l2, cp)
  {
    hide ReplayOn;
    var w := ReplayOn(x, v, c, from, n);
    assert w.l2[..cp.l2Block + 1] == w.l2;
  }

  lemma NewCheckpointsStep(x: Executor, v: View, c: Chain, from: nat, end: nat)
    requires from <= end < |c|
    ensures NewCheckpoints(x, v, c, from, end + 1) ==
            NewCheckpoints(x, v, c, from, end) + CheckpointAt(ReplayOn(x, v, c, from, end), c, end)
  {
  }

  lemma {:induction false} NewCheckpointsSplit(x: Executor, v: View, c: Chain, a: nat, b: nat, d: nat)
    requires a <= b <= d <= |c|
    ensures NewCheckpoints(x, v, c, a, d) ==
            NewCheckpoints(x, v, c, a, b) + NewCheckpoints(x, ReplayOn(x, v, c, a, b), c, b, d)
    decreases d
  {
    hide *;
    var w := ReplayOn(x, v, c, a, b);
    if b < d {
      NewCheckpointsSplit(x, v, c, a, b, d - 1);
      ReplaySplits(x, v, c, a, b, d - 1);
      NewCheckpointsStep(x, v, c, a, d - 1);
      NewCheckpointsStep(x, w, c, b, d - 1);
      var p, q, last := NewCheckpoints(x, v, c, a, b), NewCheckpoints(x, w, c, b, d - 1),
                        CheckpointAt(ReplayOn(x, w, c, b, d - 1), c, d - 1);
      assert (p + q) + last == p + (q + last);
    } else {
      NoNewCheckpoints(x, w, c, b);
      assert NewCheckpoints(x, v, c, a, b) + [] == NewCheckpoints(x, v, c, a, b);
    }
  }

  lemma NoNewCheckpoints(x: Executor, v: View, c: Chain, n: nat)
    requires n <= |c|
    ensures NewCheckpoints(x, v, c, n, n) == []
  {
  }

  /** Blocks without events neither move the view nor get a checkpoint. */
  lemma {:induction false} SkipEmpty(x: Executor, v: View, c: Chain, from: nat, b: nat, n: nat, end: nat)
    requires from <= b <= n <= end <= |c|
    requires forall k :: b <= k < n ==> c[k].events == []
    ensures ReplayOn(x, v, c, from, n) == ReplayOn(x, v, c, from, b)
    ensures NewCheckpoints(x, v, c, from, n) == NewCheckpoints(x, v, c, from, b)
    ensures EventsIn(c, b, end) == EventsIn(c, n, end)
    decreases n - b
  {
    if n <= b {
    } else {
      SkipEmpty(x, v, c, from, b, n - 1, end);
      assert c[n - 1].events == [];
    }
  }

  /** The next event of a range tells which blocks are empty. */
  lemma {:induction false} NextBlock(c: Chain, b: nat, end: nat)
    requires end <= |c| && WellFormed(c)
    requires EventsIn(c, b, end) != []
    ensures var n := EventsIn(c, b, end)[0].block;
            b <= n < end && c[n].events != [] && forall k :: b <= k < n ==> c[k].events == []
    decreases end - b
  {
    assert BlockEvents(c[b], b);
    if c[b].events == [] {
      NextBlock(c, b + 1, end);
    } else {
      assert EventsIn(c, b, end)[0] in c[b].events;
    }
  }

  lemma {:induction false} NoEvents(c: Chain, b: nat, end: nat)
    requires end <= |c| && EventsIn(c, b, end) == []
    ensures forall k :: b <= k < end ==> c[k].events == []
    decreases end - b
  {
    if end <= b {
    } else {
      NoEvents(c, b + 1, end);
    }
  }

  /** A checkpoint taken on one chain is good on another that has the same events below it, and
      after blocks were appended to the L2 chain. */
  lemma CheckpointMoves(x: Executor, v: View, c: Chain, d: Chain, from: nat, l2: seq<string>, m2: seq<string>, cp: Checkpoint)
    requires CheckpointOk(x, v, c, from, l2, cp)
    requires SameEvents(c, d, from, cp.l1Block)
    requires cp.l2Block < |m2| && m2[..cp.l2Block + 1] == l2[..cp.l2Block + 1]
    ensures CheckpointOk(x, v, d, from, m2, cp)
  {
    ReplayLocal(x, v, c, d, from, cp.l1Block);
  }

  lemma {:induction false} BasedCheckpoints(x: Executor, base: Ground, v: View, c: Chain, from: nat, end: nat)
    requires end <= |c|
    ensures NewCheckpoints(Based(x, base), v, c, from, end) == NewCheckpoints(x, v, c, from, end)
    decreases end
  {
    hide ReplayOn, Based;
    if end <= from {
    } else {
      BasedCheckpoints(x, base, v, c, from, end - 1);
      BasedReplay(x, base, v, c, from, end - 1);
    }
  }
}
