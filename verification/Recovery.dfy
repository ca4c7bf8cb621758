/** Facts about the hash window and the checkpoints that reorg recovery relies on. */
module Recovery {
  import opened EventReplay
  import opened NodeHistory
  import opened Wrappers

  /** The first block of a fetch whose hash is recorded: blocks far below the tip are skipped. */
  function StartRecording(from: nat, c: Chain): int {
    if from >= |c| - 1 - 2 * MAX_REORG_HISTORY then from else |c| - 1 - 2 * MAX_REORG_HISTORY
  }

  lemma SubsetSize(a: set<int>, b: set<int>)
    requires a <= b
    ensures |a| <= |b|
  {
    assert |b| == |a| + |b - a| by { assert b == a + (b - a); }
  }

  lemma HistorySubset(g: History, h: History)
    requires forall k :: k in g ==> k in h
    ensures |g| <= |h|
  {
    assert forall k :: k in g.Keys ==> k in h.Keys;
    SubsetSize(g.Keys, h.Keys);
  }

  lemma SomeKey(h: History) returns (k: int)
    requires |h| > 0
    ensures k in h
  {
    Inhabited(h.Keys);
    assert |h.Keys| == |h| && h.Keys != {};
    k :| k in h;
  }

  /** Trimming after each of two adjoining fetches is trimming once after both. */
  lemma TrimAgain(h0: History, c: Chain, eff: int, e: int, cut1: int, h1: History, upto: int, cut2: int, h2: History)
    returns (cut: int)
    requires Trimmed(h0, c, eff, e - 1, cut1, h1)
    requires Trimmed(h1, c, if eff > e then eff else e, upto, cut2, h2)
    requires e - 1 <= upto && forall k :: k in h0 ==> k < e
    ensures Trimmed(h0, c, eff, upto, cut, h2)
  {
    if |h1| == MAX_REORG_HISTORY {
      var k := SomeKey(h1);
      assert cut1 <= k < e;
      cut := if cut1 > cut2 then cut1 else cut2;
      if |h2| < MAX_REORG_HISTORY {
        HistorySubset(h1, h2);
      }
    } else {
      cut := cut2;
      if |h2| < MAX_REORG_HISTORY {
        if eff <= e - 1 { assert eff in h1; }
        forall k | k in h0 ensures cut2 <= k { assert k in h1; }
      }
    }
  }

  /** After a fetch up to the tip the history is one window ending at the tip, as long as the
      bound allows. */
  lemma WindowAfterFetch(h0: History, c: Chain, lo: int, from: nat, cut: int, h: History)
    requires Window(h0, lo, from - 1) && lo <= from < |c|
    requires Trimmed(h0, c, StartRecording(from, c), |c| - 1, cut, h)
    ensures Window(h, |c| - |h|, |c| - 1)
    ensures 0 < |h| <= MAX_REORG_HISTORY
    ensures lo <= |c| - |h|
    ensures |c| - |h| <= (if lo > |c| - MAX_REORG_HISTORY then lo else |c| - MAX_REORG_HISTORY)
  {
    var eff := StartRecording(from, c);
    if eff == from {
      var start := if cut > lo then cut else lo;
      assert Window(h, start, |c| - 1);
      if |h| == MAX_REORG_HISTORY {
        var k := SomeKey(h);
        assert start <= k <= |c| - 1;
      } else {
        assert lo == from || lo in h0;
        assert start == lo;
      }
      WindowSize(h, start, |c| - 1);
    } else {
      if cut <= eff {
        var recent := map k | eff <= k < |c| :: h[k];
        assert Window(recent, eff, |c| - 1);
        WindowSize(recent, eff, |c| - 1);
        HistorySubset(recent, h);
        assert false;
      }
      assert |h| == MAX_REORG_HISTORY;
      var k := SomeKey(h);
      assert Window(h, cut, |c| - 1);
      WindowSize(h, cut, |c| - 1);
    }
  }

  // ---------- Checkpoints ----------

  /** The newest checkpoint below an L1 block; checkpoints are in chronological order. */
  function CheckpointBefore(cps: seq<Checkpoint>, l1Block: int): (r: Option<Checkpoint>)
    ensures r.Some? ==> r.value in cps && r.value.l1Block < l1Block
    ensures r.None? ==> forall cp :: cp in cps ==> cp.l1Block >= l1Block
  {
    if cps == [] then None
    else if cps[|cps| - 1].l1Block < l1Block then Some(cps[|cps| - 1])
    else CheckpointBefore(cps[..|cps| - 1], l1Block)
  }

  lemma {:induction false} CheckpointBeforeIsNewest(cps: seq<Checkpoint>, l1Block: int)
    requires InOrder(cps)
    ensures var r := CheckpointBefore(cps, l1Block);
            forall cp :: cp in cps && cp.l1Block < l1Block ==> r.Some? && cp.l1Block <= r.value.l1Block
  {
    if cps != [] && cps[|cps| - 1].l1Block >= l1Block {
      CheckpointBeforeIsNewest(cps[..|cps| - 1], l1Block);
      assert cps == cps[..|cps| - 1] + [cps[|cps| - 1]];
    }
  }

  function Below(cps: seq<Checkpoint>, l1Block: int): (r: seq<Checkpoint>)
    ensures forall cp :: cp in r <==> cp in cps && cp.l1Block < l1Block
    ensures |r| <= |cps|
  {
    if cps == [] then []
    else (if cps[0].l1Block < l1Block then [cps[0]] else []) + Below(cps[1..], l1Block)
  }

  lemma {:induction false} BelowInOrder(cps: seq<Checkpoint>, l1Block: int)
    requires InOrder(cps)
    ensures InOrder(Below(cps, l1Block))
  {
    if cps == [] {
    } else {
      BelowInOrder(cps[1..], l1Block);
      var rest := Below(cps[1..], l1Block);
      forall j | 0 <= j < |rest| ensures cps[0].l1Block < rest[j].l1Block {
        assert rest[j] in rest;
      }
    }
  }

  /** All checkpoints hold replays of chain `c`, in order, at blocks `from` and up. */
  ghost predicate CheckpointsOk(x: Executor, v: View, c: Chain, from: nat, l2: seq<string>, cps: seq<Checkpoint>) {
    |cps| <= MAX_REORG_HISTORY && InOrder(cps) && forall cp :: cp in cps ==> CheckpointOk(x, v, c, from, l2, cp)
  }

  /** Fetching more blocks keeps the checkpoints good. */
  lemma CheckpointsExtend(x: Executor, v: View, c: Chain, deploy: nat, from: nat, w: View, cps: seq<Checkpoint>)
    requires deploy <= from <= |c| && v.l2 != []
    requires w == ReplayOn(x, v, c, deploy, from)
    requires CheckpointsOk(x, v, c, deploy, w.l2, cps) && forall cp :: cp in cps ==> cp.l1Block < from
    ensures CheckpointsOk(x, v, c, deploy, ReplayOn(x, v, c, deploy, |c|).l2,
                          Newest(cps + NewCheckpoints(x, w, c, from, |c|)))
    ensures forall cp :: cp in Newest(cps + NewCheckpoints(x, w, c, from, |c|)) ==> cp.l1Block < |c|
  {
    hide ReplayOn, NewCheckpoints, CheckpointOk;
    var added, end := NewCheckpoints(x, w, c, from, |c|), ReplayOn(x, v, c, deploy, |c|);
    NewCheckpointsAscend(x, w, c, from, |c|);
    AppendInOrder(cps, added, from);
    ReplaySplits(x, v, c, deploy, from, |c|);
    ReplayGrows(x, w, c, from, |c|);
    ReplayGrows(x, v, c, deploy, from);
    forall cp | cp in Newest(cps + added) ensures CheckpointOk(x, v, c, deploy, end.l2, cp) && cp.l1Block < |c| {
      assert cp in cps + added;
      if cp in cps {
        PrefixKeeps(x, v, c, deploy, w.l2, end.l2, cp);
      } else {
        NewCheckpointsOk(x, w, c, from, |c|, cp);
        Rebase(x, v, c, deploy, from, w, end.l2, cp);
      }
    }
  }

  lemma AppendInOrder(a: seq<Checkpoint>, b: seq<Checkpoint>, mid: nat)
    requires InOrder(a) && InOrder(b)
    requires forall cp :: cp in a ==> cp.l1Block < mid
    requires forall cp :: cp in b ==> mid <= cp.l1Block
    ensures InOrder(Newest(a + b))
  {
    forall i, j | 0 <= i < j < |a + b| ensures (a + b)[i].l1Block < (a + b)[j].l1Block {
      if i < |a| <= j { assert a[i] in a && b[j - |a|] in b; }
    }
  }

  lemma Rebase(x: Executor, v: View, c: Chain, deploy: nat, from: nat, w: View, l2: seq<string>, cp: Checkpoint)
    requires deploy <= from <= |c| && w == ReplayOn(x, v, c, deploy, from)
    requires CheckpointOk(x, w, c, from, l2, cp)
    ensures CheckpointOk(x, v, c, deploy, l2, cp)
  {
    ReplaySplits(x, v, c, deploy, from, cp.l1Block);
  }

  // ---------- Where the chain forked ----------

  /** What the fork search takes for unchanged: a canonical hash, or no hash at all. */
  predicate SeemsFine(h: History, c: Chain, k: int) {
    k !in h || Canonical(h, c, k)
  }

  /** `f` is the least block of the history that is no longer canonical. */
  ghost predicate LeastStale(h: History, c: Chain, f: int) {
    f in h && !Canonical(h, c, f) && forall k :: k in h && k < f ==> Canonical(h, c, k)
  }

  /** A hash above block `floor` is stale. */
  ghost predicate StaleAbove(h: History, c: Chain, floor: int) {
    exists k :: k in h && floor < k && !Canonical(h, c, k)
  }

  /** A chain that ends below the last processed block leaves a stale hash near the tip. */
  lemma ShorterIsStale(deploy: nat, m: Memory, c: Chain)
    requires m.HistoryWindow(deploy) && |c| <= m.last
    ensures m.history == map[] || StaleAbove(m.history, c, m.last - REORG_CHECK_DEPTH)
  {
    if |m.history| > 0 {
      assert m.last in m.history;
      assert !Canonical(m.history, c, m.last);
    }
  }

  /** The history holds the hashes of chain `prev`. */
  ghost predicate HashesOf(h: History, prev: Chain) {
    forall k :: k in h ==> Canonical(h, prev, k)
  }

  /** Hashes of an earlier chain go stale from some block on. */
  lemma ChainedHashes(h: History, prev: Chain, c: Chain)
    requires HashesOf(h, prev) && HashChained(prev, c)
    ensures forall k :: k in h && Canonical(h, c, k) ==> Agree(prev, c, k + 1)
    ensures OneStaleRun(h, c)
  {
    forall j, k | j in h && k in h && j < k && Canonical(h, c, k) ensures Canonical(h, c, j) {
      assert prev[..k + 1][j] == c[..k + 1][j];
      assert Canonical(h, prev, j);
    }
  }

  /** Every checkpoint below a detected fork was taken on blocks the two chains share, unless
      it is older than every stored hash. */
  lemma BelowForkShared(h: History, prev: Chain, c: Chain, lo: int, hi: int, f: int, at: nat)
    requires Window(h, lo, hi) && HashesOf(h, prev) && HashChained(prev, c)
    requires LeastStale(h, c, f) && lo <= at < f
    ensures Agree(prev, c, at)
  {
    assert at in h && Canonical(h, c, at);
    ChainedHashes(h, prev, c);
    AgreeBelow(prev, c, at, at + 1);
  }

  lemma CheckpointsMove(x: Executor, v: View, prev: Chain, c: Chain, from: nat, l2: seq<string>, cps: seq<Checkpoint>, fork: int)
    requires CheckpointsOk(x, v, prev, from, l2, cps)
    requires forall cp :: cp in cps && cp.l1Block < fork ==> SameEvents(prev, c, from, cp.l1Block)
    ensures forall cp :: cp in cps && cp.l1Block < fork ==> CheckpointOk(x, v, c, from, l2, cp)
  {
    forall cp | cp in cps && cp.l1Block < fork ensures CheckpointOk(x, v, c, from, l2, cp) {
      CheckpointMoves(x, v, prev, c, from, l2, l2, cp);
    }
  }

  // ---------- What a node knows ----------

  /** The in-memory state of a node, with its L2 chain. */
  datatype Memory = Memory(last: int, history: History, checkpoints: seq<Checkpoint>, view: View) {
    function Oldest(): int {
      last + 1 - |history|
    }

    /** The hashes form one window ending at the last processed block. */
    ghost predicate HistoryWindow(deploy: nat) {
      Window(history, Oldest(), last) && |history| <= MAX_REORG_HISTORY && deploy <= Oldest()
    }
  }

  function Max(a: int, b: int): int {
    if a > b then a else b
  }

  /** The memory is that of a node which has processed exactly the blocks of `c` below `n`. */
  ghost predicate KnowsBelow(x: Executor, deploy: nat, c: Chain, n: int, m: Memory) {
    && m.last + 1 == n && deploy <= n <= Max(|c|, deploy)
    && m.view == ReplayOn(x, Initial(x), c, deploy, if n <= |c| then n else 0)
    && m.HistoryWindow(deploy) && HashesOf(m.history, c)
    && CheckpointsOk(x, Initial(x), c, deploy, m.view.l2, m.checkpoints)
    && forall cp :: cp in m.checkpoints ==> cp.l1Block < n
  }

  /** The memory is that of a node which has processed chain `c` to its tip. */
  ghost predicate Knows(x: Executor, deploy: nat, c: Chain, m: Memory) {
    KnowsBelow(x, deploy, c, Max(|c|, deploy), m) && (|c| > deploy ==> |m.history| > 0)
  }

  /** What that means, written out: the state is one replay, the hashes are those of the newest blocks
      without a gap, and each checkpoint holds the root and the L2 height of replaying exactly the
      blocks strictly below its own. */
  lemma SyncedInvariant(x: Executor, deploy: nat, c: Chain, m: Memory)
    requires Knows(x, deploy, c, m)
    ensures m.last == Max(|c|, deploy) - 1 && m.view == Replay(x, c, deploy)
    ensures |m.history| <= 128 && forall k :: k in m.history <==> m.last - |m.history| < k <= m.last
    ensures forall k :: k in m.history ==> 0 <= k < |c| && m.history[k] == c[k].hash
    ensures |m.checkpoints| <= 128
    ensures forall i, j :: 0 <= i < j < |m.checkpoints| ==> m.checkpoints[i].l1Block < m.checkpoints[j].l1Block
    ensures forall cp :: cp in m.checkpoints ==> deploy <= cp.l1Block <= |c|
    ensures forall cp :: cp in m.checkpoints ==>
              var below := ReplayOn(x, Initial(x), c, deploy, cp.l1Block);
              cp.root == below.root && cp.l2Block == |below.l2| - 1 && below.l2 <= m.view.l2
  {
    forall cp | cp in m.checkpoints
      ensures deploy <= cp.l1Block <= |c|
      ensures var below := ReplayOn(x, Initial(x), c, deploy, cp.l1Block);
              cp.root == below.root && cp.l2Block == |below.l2| - 1 && below.l2 <= m.view.l2
    {
      hide ReplayOn, Knows;
      CheckpointView(x, Initial(x), c, deploy, m.view.l2, cp) by { hide *; KnownCheckpoint(x, deploy, c, m, cp); }
    }
  }

  lemma KnownCheckpoint(x: Executor, deploy: nat, c: Chain, m: Memory, cp: Checkpoint)
    requires Knows(x, deploy, c, m) && cp in m.checkpoints
    ensures CheckpointOk(x, Initial(x), c, deploy, m.view.l2, cp)
  {
  }

  /** `b` results from `a` by fetching everything from the next block to the tip. */
  ghost predicate Fetched(x: Executor, c: Chain, a: Memory, cut: int, b: Memory) {
    && 0 <= a.last + 1 < |c| && b.last == |c| - 1
    && b.view == ReplayOn(x, a.view, c, a.last + 1, |c|)
    && b.checkpoints == Newest(a.checkpoints + NewCheckpoints(x, a.view, c, a.last + 1, |c|))
    && Trimmed(a.history, c, StartRecording(a.last + 1, c), |c| - 1, cut, b.history)
  }

  lemma FetchedHashes(x: Executor, c: Chain, a: Memory, cut: int, b: Memory, deploy: nat)
    requires Fetched(x, c, a, cut, b) && a.HistoryWindow(deploy)
    ensures b.HistoryWindow(deploy) && |b.history| > 0
    ensures b.Oldest() <= Max(a.Oldest(), |c| - MAX_REORG_HISTORY)
    ensures HashesOf(a.history, c) ==> HashesOf(b.history, c)
  {
    hide ReplayOn, NewCheckpoints, Newest;
    WindowAfterFetch(a.history, c, a.Oldest(), a.last + 1, cut, b.history);
  }

  /** A fetch takes a node that is right about the blocks below to one right about the chain. */
  lemma FetchCompletes(x: Executor, deploy: nat, c: Chain, a: Memory, cut: int, b: Memory)
    requires Fetched(x, c, a, cut, b) && KnowsBelow(x, deploy, c, a.last + 1, a)
    ensures Knows(x, deploy, c, b)
    ensures b.Oldest() <= Max(a.Oldest(), |c| - MAX_REORG_HISTORY)
  {
    hide Trimmed, Window, InOrder, HashesOf, CheckpointsOk, ReplayOn, NewCheckpoints, Newest;
    var n: nat := a.last + 1;
    FetchedHashes(x, c, a, cut, b, deploy);
    ReplaySplits(x, Initial(x), c, deploy, n, |c|);
    CheckpointsExtend(x, Initial(x), c, deploy, n, a.view, a.checkpoints);
  }

  /** What a node knows about a chain it knows about every chain with the same blocks. */
  lemma KnowsShared(x: Executor, deploy: nat, prev: Chain, c: Chain, m: Memory)
    requires Knows(x, deploy, prev, m)
    requires |prev| <= deploy || Agree(prev, c, |prev|)
    ensures KnowsBelow(x, deploy, c, m.last + 1, m)
  {
    var n: nat := Max(|prev|, deploy);
    if |prev| <= deploy {
      assert m.last + 1 == deploy && |m.history| == 0;
      assert forall k :: k !in m.history;
    } else {
      AgreeEvents(prev, c, deploy, n);
      ReplayLocal(x, Initial(x), prev, c, deploy, n);
      forall k | k in m.history ensures Canonical(m.history, c, k) {
        assert Canonical(m.history, prev, k);
        assert prev[..n][k] == c[..n][k];
      }
      CheckpointsMove(x, Initial(x), prev, c, deploy, m.view.l2, m.checkpoints, n);
    }
  }

  /** The records are in shape, whatever chain they are of. */
  ghost predicate WellKept(deploy: nat, m: Memory) {
    && m.HistoryWindow(deploy) && InOrder(m.checkpoints) && |m.checkpoints| <= MAX_REORG_HISTORY
    && forall cp :: cp in m.checkpoints ==> deploy <= cp.l1Block <= m.last && 0 <= cp.l2Block < |m.view.l2|
  }

  /** Only the hashes and checkpoints below block `n`. */
  function HistoryBelow(h: History, n: int): History {
    map k | k in h && k < n :: h[k]
  }

  lemma IsHistoryBelow(g: History, h: History, n: int)
    requires forall k :: k in g <==> k in h && k < n
    requires forall k :: k in g ==> g[k] == h[k]
    ensures g == HistoryBelow(h, n)
  {
    var b := HistoryBelow(h, n);
    assert forall k :: k in b <==> k in g;
    assert forall k :: k in b ==> b[k] == g[k];
  }

  /** The memory after unwinding the L2 chain to a checkpoint. */
  function UnwoundTo(m: Memory, cp: Checkpoint): Memory
    requires 0 <= cp.l2Block < |m.view.l2|
  {
    Memory(cp.l1Block - 1, HistoryBelow(m.history, cp.l1Block), Below(m.checkpoints, cp.l1Block),
           View(cp.root, m.view.l2[..cp.l2Block + 1]))
  }

  /** The memory after recovery has rolled back from block `fork`: to the newest checkpoint below it, or
      to nothing when there is none or the L2 engine cannot unwind. */
  function RolledBack(x: Executor, deploy: nat, m: Memory, fork: int, unwindSucceeds: bool): Memory
    requires WellKept(deploy, m)
  {
    var cp := CheckpointBefore(m.checkpoints, fork);
    if cp.Some? && unwindSucceeds then UnwoundTo(m, cp.value) else FreshMemory(x, deploy)
  }

  /** `b` results from `a` by fetching what is left of chain `c`, if anything is. */
  ghost predicate CaughtUp(x: Executor, c: Chain, a: Memory, cut: int, b: Memory) {
    if a.last + 1 < |c| then Fetched(x, c, a, cut, b) else b == a
  }

  /** The node may return to checkpoint `cp` on chain `c`: what it recorded up to there is of `c`. */
  ghost predicate Recoverable(x: Executor, deploy: nat, c: Chain, m: Memory, cp: Checkpoint) {
    && WellKept(deploy, m) && cp in m.checkpoints
    && (forall k :: k in m.history && k < cp.l1Block ==> Canonical(m.history, c, k))
    && forall q :: q in m.checkpoints && q.l1Block <= cp.l1Block ==> CheckpointOk(x, Initial(x), c, deploy, m.view.l2, q)
  }

  /** Rolling back to such a checkpoint leaves a node that is right about every block below it. */
  lemma RollBackKnows(x: Executor, deploy: nat, c: Chain, m: Memory, cp: Checkpoint)
    requires Recoverable(x, deploy, c, m, cp)
    ensures KnowsBelow(x, deploy, c, cp.l1Block, UnwoundTo(m, cp))
    ensures UnwoundTo(m, cp).Oldest() <= m.Oldest()
  {
    hide ReplayOn, Window, CheckpointOk, InOrder;
    var b := UnwoundTo(m, cp);
    HistorySubset(b.history, m.history);
    WindowBelow(m.history, m.Oldest(), m.last, cp.l1Block, b.history);
    BelowInOrder(m.checkpoints, cp.l1Block);
    forall q | q in b.checkpoints ensures CheckpointOk(x, Initial(x), c, deploy, b.view.l2, q) {
      EarlierCheckpoint(x, Initial(x), c, deploy, m.view.l2, q, cp);
    }
    CheckpointView(x, Initial(x), c, deploy, m.view.l2, cp);
  }

  lemma CheckpointView(x: Executor, v: View, c: Chain, from: nat, l2: seq<string>, cp: Checkpoint)
    requires CheckpointOk(x, v, c, from, l2, cp)
    ensures from <= cp.l1Block <= |c|
    ensures 0 <= cp.l2Block < |l2| && View(cp.root, l2[..cp.l2Block + 1]) == ReplayOn(x, v, c, from, cp.l1Block)
  {
  }

  /** Unwinding the L2 chain to a checkpoint keeps the earlier ones good. */
  lemma EarlierCheckpoint(x: Executor, v: View, c: Chain, from: nat, l2: seq<string>, q: Checkpoint, cp: Checkpoint)
    requires CheckpointOk(x, v, c, from, l2, q) && CheckpointOk(x, v, c, from, l2, cp)
    requires q.l1Block < cp.l1Block
    ensures CheckpointOk(x, v, c, from, l2[..cp.l2Block + 1], q)
  {
    hide ReplayOn;
    ReplaySplits(x, v, c, from, q.l1Block, cp.l1Block);
    ReplayGrows(x, ReplayOn(x, v, c, from, q.l1Block), c, q.l1Block, cp.l1Block);
    assert l2[..cp.l2Block + 1][..q.l2Block + 1] == l2[..q.l2Block + 1];
  }

  lemma WindowBelow(h: History, lo: int, hi: int, end: int, g: History)
    requires Window(h, lo, hi) && lo <= hi + 1 && end <= hi + 1
    requires forall k :: k in g <==> k in h && k < end
    ensures Window(g, end - |g|, end - 1)
    ensures end - |g| == if lo < end then lo else end
  {
    if lo <= end {
      WindowSize(g, lo, end - 1);
    } else {
      WindowSize(g, end, end - 1);
    }
  }

  lemma KnowsBounds(x: Executor, deploy: nat, c: Chain, m: Memory)
    requires KnowsBelow(x, deploy, c, m.last + 1, m)
    ensures deploy <= m.last + 1 <= Max(|c|, deploy)
    ensures |m.history| <= MAX_REORG_HISTORY && |m.checkpoints| <= MAX_REORG_HISTORY
    ensures forall k :: k in m.history ==> k < m.last + 1
    ensures m.last + 1 <= |c| ==> m.view == ReplayOn(x, Initial(x), c, deploy, m.last + 1)
  {
  }

  lemma KnowsAll(x: Executor, deploy: nat, c: Chain, m: Memory)
    requires KnowsBelow(x, deploy, c, m.last + 1, m)
    requires m.last + 1 == deploy && |c| <= deploy
    ensures Knows(x, deploy, c, m)
  {
  }

  /** The memory of a node that has processed nothing. */
  function FreshMemory(x: Executor, deploy: nat): Memory {
    Memory(deploy - 1, map[], [], Initial(x))
  }

  lemma FreshKnows(x: Executor, deploy: nat, c: Chain)
    ensures KnowsBelow(x, deploy, c, deploy, FreshMemory(x, deploy))
    ensures FreshMemory(x, deploy).Oldest() == deploy
  {
  }

  /** The shape that a fetch needs is left behind by every roll back. */
  lemma RolledBackShape(x: Executor, deploy: nat, m: Memory, fork: int, unwindSucceeds: bool)
    requires WellKept(deploy, m)
    ensures var b := RolledBack(x, deploy, m, fork, unwindSucceeds);
            && |b.history| <= MAX_REORG_HISTORY && |b.checkpoints| <= MAX_REORG_HISTORY
            && -1 <= b.last && forall k :: k in b.history ==> k <= b.last
  {
    var b := RolledBack(x, deploy, m, fork, unwindSucceeds);
    HistorySubset(b.history, m.history);
  }

  /** Fetching the rest of the chain completes what the node knows below. */
  lemma CatchUpCompletes(x: Executor, deploy: nat, c: Chain, a: Memory, cut: int, b: Memory)
    requires KnowsBelow(x, deploy, c, a.last + 1, a) && CaughtUp(x, c, a, cut, b)
    ensures a.last + 1 < |c| || |c| <= deploy ==> Knows(x, deploy, c, b)
    ensures b.view == Replay(x, c, deploy)
    ensures b.Oldest() <= Max(a.Oldest(), |c| - MAX_REORG_HISTORY)
  {
    hide Fetched, ReplayOn;
    KnowsBounds(x, deploy, c, a);
    if a.last + 1 < |c| {
      FetchCompletes(x, deploy, c, a, cut, b);
      hide KnowsBelow;
      SyncedView(x, deploy, c, b);
    } else if |c| <= deploy {
      KnowsAll(x, deploy, c, a);
      SyncedView(x, deploy, c, b);
    }
  }

  lemma SyncedView(x: Executor, deploy: nat, c: Chain, m: Memory)
    requires Knows(x, deploy, c, m)
    ensures m.view == Replay(x, c, deploy)
  {
  }

  // ---------- From one chain to the next ----------

  lemma KnowsKept(x: Executor, deploy: nat, c: Chain, m: Memory)
    requires Knows(x, deploy, c, m)
    ensures WellKept(deploy, m)
  {
    hide ReplayOn;
    assert forall cp :: cp in m.checkpoints ==> CheckpointOk(x, Initial(x), c, deploy, m.view.l2, cp);
  }

  /** Every stored hash below block `n` is still on chain `c`. */
  ghost predicate CanonicalBelow(h: History, c: Chain, n: int) {
    forall k :: k in h && k < n ==> Canonical(h, c, k)
  }

  /** A node that knows `prev` may return to every checkpoint up to which `c` has the same events. */
  lemma SharedRecoverable(x: Executor, deploy: nat, prev: Chain, c: Chain, m: Memory, cp: Checkpoint)
    requires Knows(x, deploy, prev, m) && cp in m.checkpoints
    requires CanonicalBelow(m.history, c, cp.l1Block) && SameEvents(prev, c, deploy, cp.l1Block)
    ensures Recoverable(x, deploy, c, m, cp)
  {
    KnowsKept(x, deploy, prev, m);
    hide ReplayOn, CheckpointOk, WellKept, Window, InOrder;
    CheckpointsMove(x, Initial(x), prev, c, deploy, m.view.l2, m.checkpoints, cp.l1Block + 1);
  }

  lemma UnwoundView(x: Executor, c: Chain, m: Memory, cp: Checkpoint, cut: int, b: Memory)
    requires 0 <= cp.l2Block < |m.view.l2| && CaughtUp(x, c, UnwoundTo(m, cp), cut, b)
    ensures var start := View(cp.root, m.view.l2[..cp.l2Block + 1]);
            b.view == if cp.l1Block < |c| then ReplayOn(x, start, c, cp.l1Block, |c|) else start
  {
    hide ReplayOn, Trimmed, NewCheckpoints, Newest;
  }

  /** A checkpoint to return to, on a chain that goes on above it. */
  lemma UnwoundCompletes(x: Executor, deploy: nat, c: Chain, m: Memory, cp: Checkpoint, cut: int, b: Memory)
    requires Recoverable(x, deploy, c, m, cp) && CaughtUp(x, c, UnwoundTo(m, cp), cut, b)
    ensures cp.l1Block < |c| ==> Knows(x, deploy, c, b)
    ensures b.view == Replay(x, c, deploy)
    ensures b.Oldest() <= Max(m.Oldest(), |c| - MAX_REORG_HISTORY)
  {
    RollBackKnows(x, deploy, c, m, cp);
    var l1Block := cp.l1Block;
    assert UnwoundTo(m, cp).last + 1 == l1Block;
    hide Knows, KnowsBelow, Recoverable, CaughtUp, ReplayOn, UnwoundTo;
    CatchUpCompletes(x, deploy, c, UnwoundTo(m, cp), cut, b);
  }

  /** Recovery forgets everything: no checkpoint is old enough, or the L2 engine cannot unwind. */
  predicate Wipes(m: Memory, fork: int, unwindSucceeds: bool) {
    CheckpointBefore(m.checkpoints, fork).None? || !unwindSucceeds
  }

  /** The L2 chain on which the replay stands after recovery, when it stood on `base` before. */
  function BaseAfter(x: Executor, base: Ground, m: Memory, fork: int, unwindSucceeds: bool): Ground {
    if Wipes(m, fork, unwindSucceeds) then x.genesis else base
  }

  /** What recovery from a reorg comes to, for every block the fork search may name: the node follows `c`
      if it starts from nothing, or from a checkpoint up to which the two chains have the same events and
      above which `c` goes on; otherwise it replays the rest of `c`, if any, on the stale checkpoint. */
  predicate Recovers(deploy: nat, prev: Chain, c: Chain, m: Memory, fork: int, unwindSucceeds: bool) {
    || Wipes(m, fork, unwindSucceeds)
    || var n := CheckpointBefore(m.checkpoints, fork).value.l1Block;
       n < |c| && SameEvents(prev, c, deploy, n)
  }

  lemma RecoveryExact(x: Executor, base: Ground, deploy: nat, prev: Chain, c: Chain, m: Memory, fork: int,
                      unwindSucceeds: bool, cut: int, b: Memory)
    requires Knows(Based(x, base), deploy, prev, m) && WellKept(deploy, m) && CanonicalBelow(m.history, c, fork)
    requires CaughtUp(x, c, RolledBack(x, deploy, m, fork, unwindSucceeds), cut, b)
    ensures Recovers(deploy, prev, c, m, fork, unwindSucceeds) ==>
              && Knows(Based(x, BaseAfter(x, base, m, fork, unwindSucceeds)), deploy, c, b)
              && b.Oldest() <= Max(m.Oldest(), |c| - MAX_REORG_HISTORY)
    ensures !Recovers(deploy, prev, c, m, fork, unwindSucceeds) ==>
              var cp := CheckpointBefore(m.checkpoints, fork).value;
              var start := View(cp.root, m.view.l2[..cp.l2Block + 1]);
              && start == ReplayOn(x, Initial(Based(x, base)), prev, deploy, cp.l1Block)
              && b.view == (if cp.l1Block < |c| then ReplayOn(x, start, c, cp.l1Block, |c|) else start)
              && (SameEvents(prev, c, deploy, cp.l1Block) ==> b.view == Replay(Based(x, base), c, deploy))
  {
    hide Knows, WellKept, CaughtUp, ReplayOn, CheckpointBefore;
    var found := CheckpointBefore(m.checkpoints, fork);
    KeptOldest(deploy, m);
    if Wipes(m, fork, unwindSucceeds) {
      OwnBase(x);
      FreshRecovers(x, deploy, c, m, cut, b);
    } else {
      var cp, y := found.value, Based(x, base);
      BasedCaughtUp(x, base, c, UnwoundTo(m, cp), cut, b);
      CheckpointRecovers(y, deploy, prev, c, m, cp, cut, b);
      BasedStart(x, base, deploy, prev, c, m, cp);
    }
  }

  lemma OwnBase(x: Executor)
    ensures Based(x, x.genesis) == x
  {
  }

  /** A fetch does not depend on where the engine once started. */
  lemma BasedCaughtUp(x: Executor, base: Ground, c: Chain, a: Memory, cut: int, b: Memory)
    requires CaughtUp(x, c, a, cut, b)
    ensures CaughtUp(Based(x, base), c, a, cut, b)
  {
    hide ReplayOn, NewCheckpoints, Trimmed, Newest;
    if 0 <= a.last + 1 < |c| {
      BasedReplay(x, base, a.view, c, a.last + 1, |c|);
      BasedCheckpoints(x, base, a.view, c, a.last + 1, |c|);
    }
  }

  lemma BasedStart(x: Executor, base: Ground, deploy: nat, prev: Chain, c: Chain, m: Memory, cp: Checkpoint)
    requires 0 <= cp.l2Block < |m.view.l2| && cp.l1Block <= |prev|
    ensures var start := View(cp.root, m.view.l2[..cp.l2Block + 1]);
            && ReplayOn(Based(x, base), Initial(Based(x, base)), prev, deploy, cp.l1Block)
               == ReplayOn(x, Initial(Based(x, base)), prev, deploy, cp.l1Block)
            && ReplayOn(Based(x, base), start, c, cp.l1Block, |c|) == ReplayOn(x, start, c, cp.l1Block, |c|)
  {
    hide ReplayOn;
    BasedReplay(x, base, Initial(Based(x, base)), prev, deploy, cp.l1Block);
    BasedReplay(x, base, View(cp.root, m.view.l2[..cp.l2Block + 1]), c, cp.l1Block, |c|);
  }

  lemma FreshRecovers(x: Executor, deploy: nat, c: Chain, m: Memory, cut: int, b: Memory)
    requires CaughtUp(x, c, FreshMemory(x, deploy), cut, b) && deploy <= m.Oldest()
    ensures Knows(x, deploy, c, b) && b.Oldest() <= Max(m.Oldest(), |c| - MAX_REORG_HISTORY)
  {
    hide Knows, KnowsBelow, Fetched;
    FreshKnows(x, deploy, c);
    CatchUpCompletes(x, deploy, c, FreshMemory(x, deploy), cut, b);
  }

  lemma CheckpointRecovers(x: Executor, deploy: nat, prev: Chain, c: Chain, m: Memory, cp: Checkpoint, cut: int, b: Memory)
    requires Knows(x, deploy, prev, m) && WellKept(deploy, m) && cp in m.checkpoints
    requires CanonicalBelow(m.history, c, cp.l1Block) && CaughtUp(x, c, UnwoundTo(m, cp), cut, b)
    ensures 0 <= cp.l2Block < |m.view.l2| && cp.l1Block <= |prev|
    ensures SameEvents(prev, c, deploy, cp.l1Block) && cp.l1Block < |c| ==>
              Knows(x, deploy, c, b) && b.Oldest() <= Max(m.Oldest(), |c| - MAX_REORG_HISTORY)
    ensures var start := View(cp.root, m.view.l2[..cp.l2Block + 1]);
            && start == ReplayOn(x, Initial(x), prev, deploy, cp.l1Block)
            && b.view == (if cp.l1Block < |c| then ReplayOn(x, start, c, cp.l1Block, |c|) else start)
            && (SameEvents(prev, c, deploy, cp.l1Block) ==> b.view == Replay(x, c, deploy))
  {
    KnownCheckpoint(x, deploy, prev, m, cp);
    CheckpointView(x, Initial(x), prev, deploy, m.view.l2, cp);
    hide Knows, ReplayOn, WellKept, CheckpointOk, Recoverable, CaughtUp, UnwoundTo, CanonicalBelow;
    UnwoundView(x, c, m, cp, cut, b);
    if SameEvents(prev, c, deploy, cp.l1Block) {
      SharedRecoverable(x, deploy, prev, c, m, cp);
      UnwoundCompletes(x, deploy, c, m, cp, cut, b);
    }
  }

  /** Inside the hash window the checkpoint is always a shared one. */
  lemma ForkInWindow(x: Executor, deploy: nat, prev: Chain, c: Chain, m: Memory, fork: int, unwindSucceeds: bool)
    requires Knows(x, deploy, prev, m) && HashChained(prev, c)
    requires LeastStale(m.history, c, fork) || (m.history == map[] && fork == |c|)
    requires m.Oldest() <= deploy || Agree(prev, c, m.Oldest())
    ensures Recovers(deploy, prev, c, m, fork, unwindSucceeds)
  {
    hide ReplayOn, CheckpointOk, SameEvents;
    var found := CheckpointBefore(m.checkpoints, fork);
    if m.history == map[] {
      NoCheckpoints(x, deploy, prev, m);
    } else if found.Some? {
      var cp := found.value;
      KnownCheckpoint(x, deploy, prev, m, cp);
      CheckpointView(x, Initial(x), prev, deploy, m.view.l2, cp);
      if m.Oldest() <= cp.l1Block {
        BelowForkShared(m.history, prev, c, m.Oldest(), m.last, fork, cp.l1Block);
        assert Canonical(m.history, c, cp.l1Block);
      } else {
        AgreeBelow(prev, c, cp.l1Block, m.Oldest());
      }
      AgreeEvents(prev, c, deploy, cp.l1Block);
    }
  }

  lemma NoCheckpoints(x: Executor, deploy: nat, prev: Chain, m: Memory)
    requires Knows(x, deploy, prev, m) && m.history == map[]
    ensures |prev| <= deploy && forall cp :: cp !in m.checkpoints
  {
    hide ReplayOn;
    assert m.last == deploy - 1;
    assert forall cp :: cp in m.checkpoints ==> CheckpointOk(x, Initial(x), prev, deploy, m.view.l2, cp);
  }

  /** No stale hash near the tip means that the chain was only extended. */
  lemma OnlyExtended(x: Executor, deploy: nat, prev: Chain, c: Chain, m: Memory)
    requires Knows(x, deploy, prev, m) && HashChained(prev, c)
    requires !StaleAbove(m.history, c, m.last - REORG_CHECK_DEPTH)
    ensures |prev| <= deploy || Agree(prev, c, |prev|)
  {
    hide ReplayOn, CheckpointsOk;
    if |prev| > deploy {
      assert m.last in m.history;
      assert Canonical(m.history, c, m.last);
      ChainedHashes(m.history, prev, c);
    }
  }

  /** Reading only the newest 8 hashes settles the whole history: none of them
      is stale exactly if every stored hash is still canonical. */
  lemma DetectionExact(x: Executor, deploy: nat, prev: Chain, c: Chain, m: Memory)
    requires Knows(x, deploy, prev, m) && HashChained(prev, c)
    ensures !StaleAbove(m.history, c, m.last - 8) <==> HashesOf(m.history, c)
  {
    hide ReplayOn, CheckpointsOk;
    ChainedHashes(m.history, prev, c);
    if !StaleAbove(m.history, c, m.last - REORG_CHECK_DEPTH) && |prev| > deploy {
      assert m.last in m.history && Canonical(m.history, c, m.last);
      forall k | k in m.history ensures Canonical(m.history, c, k) {
        AgreeAt(prev, c, m.last + 1, k);
        assert Canonical(m.history, prev, k);
      }
    }
  }

  /** `c` extends `prev`, as far as the rollup is concerned. */
  predicate Unbroken(deploy: nat, prev: Chain, c: Chain) {
    |prev| <= deploy || Agree(prev, c, |prev|)
  }

  // ---------- Restarting over a reorg that happened while the node was down ----------

  /** A node that knew `prev` has fetched the blocks of `c` above it without looking back. */
  ghost predicate FetchedAbove(x: Executor, deploy: nat, prev: Chain, c: Chain, a: Memory, cut: int, b: Memory) {
    Knows(x, deploy, prev, a) && HashChained(prev, c) && Fetched(x, c, a, cut, b)
  }

  lemma MixedHashes(x: Executor, deploy: nat, prev: Chain, c: Chain, a: Memory, cut: int, b: Memory)
    requires FetchedAbove(x, deploy, prev, c, a, cut, b)
    ensures b.HistoryWindow(deploy) && |b.history| > 0
    ensures b.Oldest() <= Max(a.Oldest(), |c| - MAX_REORG_HISTORY)
    ensures forall k :: k in b.history && k > a.last ==> Canonical(b.history, c, k)
    ensures forall k :: k in b.history && k <= a.last && Canonical(b.history, c, k) ==> Agree(prev, c, k + 1)
    ensures OneStaleRun(b.history, c)
  {
    hide ReplayOn, NewCheckpoints, Newest, CheckpointsOk;
    FetchedHashes(x, c, a, cut, b, deploy);
    forall k | k in b.history && k <= a.last && Canonical(b.history, c, k)
      ensures Agree(prev, c, k + 1)
    {
      assert k in a.history && Canonical(a.history, prev, k);
    }
    forall j, k, f | j in b.history && k in b.history && f in b.history && j < k < f
                     && !Canonical(b.history, c, f) && Canonical(b.history, c, k)
      ensures Canonical(b.history, c, j)
    {
      assert prev[..k + 1][j] == c[..k + 1][j];
      assert j in a.history && Canonical(a.history, prev, j);
    }
  }

  /** The next poll notices the reorg exactly if fewer than 8 blocks came on
      top of the last block processed before the downtime. */
  lemma DowntimeDetection(x: Executor, deploy: nat, prev: Chain, c: Chain, a: Memory, cut: int, b: Memory)
    requires FetchedAbove(x, deploy, prev, c, a, cut, b)
    ensures StaleAbove(b.history, c, b.last - 8) <==>
            !Unbroken(deploy, prev, c) && |c| - |prev| < 8
  {
    hide ReplayOn, NewCheckpoints, Newest, CheckpointsOk, Trimmed;
    MixedHashes(x, deploy, prev, c, a, cut, b);
    if !Unbroken(deploy, prev, c) && |c| - |prev| < REORG_CHECK_DEPTH {
      assert a.last == |prev| - 1 && a.Oldest() <= a.last;
      assert a.last in b.history;
      assert !Canonical(b.history, c, a.last);
    }
    if StaleAbove(b.history, c, b.last - 8) {
      var k :| k in b.history && b.last - 8 < k && !Canonical(b.history, c, k);
      StaleMeansBroken(x, deploy, prev, c, a, cut, b, k);
    }
  }

  lemma StaleMeansBroken(x: Executor, deploy: nat, prev: Chain, c: Chain, a: Memory, cut: int, b: Memory, k: int)
    requires FetchedAbove(x, deploy, prev, c, a, cut, b)
    requires k in b.history && !Canonical(b.history, c, k)
    ensures !Unbroken(deploy, prev, c) && k <= a.last == |prev| - 1
  {
    hide ReplayOn, NewCheckpoints, Newest, CheckpointsOk;
    MixedHashes(x, deploy, prev, c, a, cut, b);
    assert k in a.history && Canonical(a.history, prev, k);
    if Agree(prev, c, |prev|) {
      AgreeAt(prev, c, |prev|, k);
    }
  }

  lemma MixedKept(x: Executor, deploy: nat, prev: Chain, c: Chain, a: Memory, cut: int, b: Memory)
    requires FetchedAbove(x, deploy, prev, c, a, cut, b)
    ensures WellKept(deploy, b)
  {
    hide FetchedAbove, InOrder, Window, ReplayOn, Newest, NewCheckpoints;
    MixedHashes(x, deploy, prev, c, a, cut, b);
    FetchedCheckpoints(x, deploy, prev, c, a, cut, b);
    forall cp | cp in b.checkpoints ensures deploy <= cp.l1Block && 0 <= cp.l2Block < |b.view.l2| {
      if cp in a.checkpoints {
        FetchedParts(x, deploy, prev, c, a, cut, b);
        OldView(x, deploy, prev, c, a, b.view, cp);
      } else {
        AddedCheckpoint(x, deploy, prev, c, a, cut, b, cp);
      }
    }
  }

  lemma FetchedParts(x: Executor, deploy: nat, prev: Chain, c: Chain, a: Memory, cut: int, b: Memory)
    requires FetchedAbove(x, deploy, prev, c, a, cut, b)
    ensures deploy <= a.last + 1 < |c| && b.view == ReplayOn(x, a.view, c, a.last + 1, |c|)
    ensures b.checkpoints == Newest(a.checkpoints + NewCheckpoints(x, a.view, c, a.last + 1, |c|))
    ensures Knows(x, deploy, prev, a)
  {
    hide ReplayOn, NewCheckpoints, Newest, Trimmed, CheckpointsOk, HashesOf, HashChained, Window;
  }

  lemma AddedCheckpoint(x: Executor, deploy: nat, prev: Chain, c: Chain, a: Memory, cut: int, b: Memory, cp: Checkpoint)
    requires FetchedAbove(x, deploy, prev, c, a, cut, b) && cp in b.checkpoints && cp !in a.checkpoints
    ensures deploy <= cp.l1Block && 0 <= cp.l2Block < |b.view.l2|
  {
    FetchedParts(x, deploy, prev, c, a, cut, b);
    NotEmpty(x, deploy, prev, a);
    hide FetchedAbove, ReplayOn, NewCheckpoints, Newest, Knows;
    var added := NewCheckpoints(x, a.view, c, a.last + 1, |c|);
    assert cp in a.checkpoints + added;
    NewCheckpointsOk(x, a.view, c, a.last + 1, |c|, cp);
  }

  lemma NotEmpty(x: Executor, deploy: nat, prev: Chain, m: Memory)
    requires Knows(x, deploy, prev, m)
    ensures m.view.l2 != []
  {
    ReplayGrows(x, Initial(x), prev, deploy, |prev|);
    hide ReplayOn;
    SyncedView(x, deploy, prev, m);
    assert Initial(x).l2 <= m.view.l2;
  }

  /** After downtime: a checkpoint up to which the chains have the same events is one to return to. */
  lemma DowntimeRecoverable(x: Executor, deploy: nat, prev: Chain, c: Chain, a: Memory, cut: int, b: Memory, cp: Checkpoint)
    requires FetchedAbove(x, deploy, prev, c, a, cut, b)
    requires cp in b.checkpoints && cp.l1Block <= a.last
    requires CanonicalBelow(b.history, c, cp.l1Block) && SameEvents(prev, c, deploy, cp.l1Block)
    ensures Recoverable(x, deploy, c, b, cp)
  {
    MixedKept(x, deploy, prev, c, a, cut, b);
    FetchedCheckpoints(x, deploy, prev, c, a, cut, b);
    hide ReplayOn, NewCheckpoints, CheckpointOk, Newest, WellKept, HashChained, Knows, Fetched;
    forall q | q in b.checkpoints && q.l1Block <= cp.l1Block ensures CheckpointOk(x, Initial(x), c, deploy, b.view.l2, q) {
      KeptCheckpoint(x, deploy, prev, c, a, cut, b, q);
    }
  }

  /** If the two chains agree below the stored hashes, every checkpoint below the named fork is such a
      one, and `c` goes on above it. */
  lemma DowntimeForkInWindow(x: Executor, deploy: nat, prev: Chain, c: Chain, a: Memory, cut: int, b: Memory, fork: int,
                             unwindSucceeds: bool)
    requires FetchedAbove(x, deploy, prev, c, a, cut, b)
    requires b.Oldest() <= deploy || Agree(prev, c, b.Oldest())
    requires LeastStale(b.history, c, fork)
    ensures Recovers(deploy, prev, c, b, fork, unwindSucceeds)
  {
    hide ReplayOn, NewCheckpoints, CheckpointOk, Trimmed, Newest, SameEvents;
    MixedHashes(x, deploy, prev, c, a, cut, b);
    assert fork <= a.last;
    FetchedCheckpoints(x, deploy, prev, c, a, cut, b);
    var found := CheckpointBefore(b.checkpoints, fork);
    if found.Some? {
      var cp := found.value;
      assert cp in a.checkpoints;
      CheckpointView(x, Initial(x), prev, deploy, a.view.l2, cp);
      if cp.l1Block < b.Oldest() {
        AgreeBelow(prev, c, cp.l1Block, b.Oldest());
      } else {
        assert (cp.l1Block as int) in b.history;
        AgreeBelow(prev, c, cp.l1Block, cp.l1Block + 1);
      }
      AgreeEvents(prev, c, deploy, cp.l1Block);
    }
  }

  lemma KeptCheckpoint(x: Executor, deploy: nat, prev: Chain, c: Chain, a: Memory, cut: int, b: Memory, cp: Checkpoint)
    requires FetchedAbove(x, deploy, prev, c, a, cut, b)
    requires cp in a.checkpoints && SameEvents(prev, c, deploy, cp.l1Block)
    ensures CheckpointOk(x, Initial(x), c, deploy, b.view.l2, cp)
  {
    hide ReplayOn, NewCheckpoints, CheckpointOk, Trimmed, Newest, Window, HashesOf;
    ReplayGrows(x, a.view, c, a.last + 1, |c|);
    PrefixKeeps(x, Initial(x), prev, deploy, a.view.l2, b.view.l2, cp);
    CheckpointView(x, Initial(x), prev, deploy, b.view.l2, cp);
    CheckpointMoves(x, Initial(x), prev, c, deploy, b.view.l2, b.view.l2, cp);
  }

  lemma FetchedCheckpoints(x: Executor, deploy: nat, prev: Chain, c: Chain, a: Memory, cut: int, b: Memory)
    requires FetchedAbove(x, deploy, prev, c, a, cut, b)
    ensures InOrder(b.checkpoints) && |b.checkpoints| <= MAX_REORG_HISTORY
    ensures forall cp :: cp in b.checkpoints ==> cp.l1Block <= b.last && (cp in a.checkpoints || cp.l1Block > a.last)
  {
    hide ReplayOn, NewCheckpoints, CheckpointOk, Trimmed, Window, HashesOf, HashChained, Newest;
    var added := NewCheckpoints(x, a.view, c, a.last + 1, |c|);
    NewCheckpointsAscend(x, a.view, c, a.last + 1, |c|);
    AppendInOrder(a.checkpoints, added, a.last + 1);
    forall cp | cp in b.checkpoints ensures cp.l1Block <= b.last && (cp in a.checkpoints || cp.l1Block > a.last) {
      assert cp in a.checkpoints + added;
    }
  }

  /** What recovery comes to after downtime: as without, the chains now being the one followed before and
      the one found after. */
  lemma DowntimeExact(x: Executor, base: Ground, deploy: nat, prev: Chain, c: Chain, a: Memory, cut: int, b: Memory,
                      fork: int, unwindSucceeds: bool, more: int, d: Memory)
    requires FetchedAbove(Based(x, base), deploy, prev, c, a, cut, b) && WellKept(deploy, b)
    requires fork <= a.last && CanonicalBelow(b.history, c, fork)
    requires CaughtUp(x, c, RolledBack(x, deploy, b, fork, unwindSucceeds), more, d)
    ensures Recovers(deploy, prev, c, b, fork, unwindSucceeds) ==>
              && Knows(Based(x, BaseAfter(x, base, b, fork, unwindSucceeds)), deploy, c, d)
              && d.Oldest() <= Max(b.Oldest(), |c| - MAX_REORG_HISTORY)
    ensures !Recovers(deploy, prev, c, b, fork, unwindSucceeds) ==>
              var cp := CheckpointBefore(b.checkpoints, fork).value;
              var start := View(cp.root, b.view.l2[..cp.l2Block + 1]);
              && start == ReplayOn(x, Initial(Based(x, base)), prev, deploy, cp.l1Block)
              && d.view == (if cp.l1Block < |c| then ReplayOn(x, start, c, cp.l1Block, |c|) else start)
  {
    hide FetchedAbove, Knows, ReplayOn, WellKept, CaughtUp, CheckpointBefore;
    var found := CheckpointBefore(b.checkpoints, fork);
    KeptOldest(deploy, b);
    if Wipes(b, fork, unwindSucceeds) {
      OwnBase(x);
      FreshRecovers(x, deploy, c, b, more, d);
    } else {
      BasedCaughtUp(x, base, c, UnwoundTo(b, found.value), more, d);
      DowntimeUnwound(Based(x, base), deploy, prev, c, a, cut, b, found.value, more, d);
      BasedStart(x, base, deploy, prev, c, b, found.value);
    }
  }

  lemma KeptOldest(deploy: nat, m: Memory)
    requires WellKept(deploy, m)
    ensures deploy <= m.Oldest() && forall cp :: cp in m.checkpoints ==> 0 <= cp.l2Block < |m.view.l2|
  {
  }

  lemma DowntimeUnwound(x: Executor, deploy: nat, prev: Chain, c: Chain, a: Memory, cut: int, b: Memory,
                        cp: Checkpoint, more: int, d: Memory)
    requires FetchedAbove(x, deploy, prev, c, a, cut, b) && WellKept(deploy, b)
    requires cp in b.checkpoints && cp.l1Block <= a.last && CaughtUp(x, c, UnwoundTo(b, cp), more, d)
    requires CanonicalBelow(b.history, c, cp.l1Block)
    ensures cp.l1Block <= |prev|
    ensures SameEvents(prev, c, deploy, cp.l1Block) && cp.l1Block < |c| ==>
              Knows(x, deploy, c, d) && d.Oldest() <= Max(b.Oldest(), |c| - MAX_REORG_HISTORY)
    ensures var start := View(cp.root, b.view.l2[..cp.l2Block + 1]);
            && start == ReplayOn(x, Initial(x), prev, deploy, cp.l1Block)
            && d.view == (if cp.l1Block < |c| then ReplayOn(x, start, c, cp.l1Block, |c|) else start)
  {
    KeptView(x, deploy, prev, c, a, cut, b, cp);
    KeptOldest(deploy, b);
    hide FetchedAbove, Knows, ReplayOn, WellKept, Recoverable, CaughtUp, UnwoundTo, CanonicalBelow, SameEvents;
    UnwoundView(x, c, b, cp, more, d);
    if SameEvents(prev, c, deploy, cp.l1Block) && cp.l1Block < |c| {
      DowntimeRecoverable(x, deploy, prev, c, a, cut, b, cp);
      UnwoundCompletes(x, deploy, c, b, cp, more, d);
    }
  }

  lemma KeptView(x: Executor, deploy: nat, prev: Chain, c: Chain, a: Memory, cut: int, b: Memory, cp: Checkpoint)
    requires FetchedAbove(x, deploy, prev, c, a, cut, b)
    requires cp in b.checkpoints && cp.l1Block <= a.last
    ensures deploy <= cp.l1Block <= |prev| && 0 <= cp.l2Block < |b.view.l2|
    ensures View(cp.root, b.view.l2[..cp.l2Block + 1]) == ReplayOn(x, Initial(x), prev, deploy, cp.l1Block)
  {
    hide FetchedAbove, InOrder, ReplayOn;
    FetchedCheckpoints(x, deploy, prev, c, a, cut, b);
    FetchedParts(x, deploy, prev, c, a, cut, b);
    OldView(x, deploy, prev, c, a, b.view, cp);
  }

  lemma OldView(x: Executor, deploy: nat, prev: Chain, c: Chain, a: Memory, v: View, cp: Checkpoint)
    requires Knows(x, deploy, prev, a) && cp in a.checkpoints
    requires 0 <= a.last + 1 < |c| && v == ReplayOn(x, a.view, c, a.last + 1, |c|)
    ensures deploy <= cp.l1Block <= |prev| && 0 <= cp.l2Block < |v.l2|
    ensures View(cp.root, v.l2[..cp.l2Block + 1]) == ReplayOn(x, Initial(x), prev, deploy, cp.l1Block)
  {
    hide Knows, CheckpointOk, ReplayOn;
    KnownCheckpoint(x, deploy, prev, a, cp);
    ReplayGrows(x, a.view, c, a.last + 1, |c|);
    PrefixKeeps(x, Initial(x), prev, deploy, a.view.l2, v.l2, cp);
    CheckpointView(x, Initial(x), prev, deploy, v.l2, cp);
  }

  // ---------- Restarting on an L2 chain with another root ----------

  /** A restart drops what was saved for `prev`: the L2 chain reports another root than the tracked one. */
  predicate Discards(x: Executor, deploy: nat, prev: Chain) {
    |prev| > deploy && x.stateRoot(Replay(x, prev, deploy).l2) != Replay(x, prev, deploy).root
  }

  /** The memory after such a restart: nothing is known, but the L2 chain is still there. */
  function Forgotten(x: Executor, deploy: nat, l2: seq<string>): Memory {
    Memory(deploy - 1, map[], [], View(x.initialRoot, l2))
  }

  /** Such a node is a new one, on the L2 chain it found. */
  lemma ForgottenIsFresh(x: Executor, deploy: nat, base: Ground)
    ensures Forgotten(x, deploy, base) == FreshMemory(Based(x, base), deploy)
  {
  }
}
