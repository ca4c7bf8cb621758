/** The reth-based full node as a state machine over L1 polls. */
module FullNode {
  import opened EventReplay
  import opened NodeHistory
  import opened Wrappers
  import opened Recovery
  import opened Sorting

  /** What is written to disk after each fetch and each recovery. */
  datatype SyncState = SyncState(last: int, root: string, history: History, checkpoints: seq<Checkpoint>)

  function EventKey(e: Event): Key {
    (e.block, e.logIndex)
  }

  function Updates(evs: seq<Event>): seq<Event> {
    if evs == [] then [] else (if evs[0].StateUpdated? then [evs[0]] else []) + Updates(evs[1..])
  }

  function Executions(evs: seq<Event>): seq<Event> {
    if evs == [] then [] else (if evs[0].Performed? then [evs[0]] else []) + Executions(evs[1..])
  }

  lemma {:induction false} UpdatesAndExecutions(evs: seq<Event>)
    ensures multiset(Updates(evs) + Executions(evs)) == multiset(evs)
  {
    if evs == [] {
    } else {
      UpdatesAndExecutions(evs[1..]);
      assert evs == [evs[0]] + evs[1..];
    }
  }

  lemma {:induction false} EventsAscend(c: Chain, from: nat, end: nat)
    requires end <= |c| && WellFormed(c)
    ensures Sorting.Ascending(EventKey, EventsIn(c, from, end))
    decreases end - from
  {
    if end <= from {
    } else {
      assert BlockEvents(c[from], from);
      EventsAscend(c, from + 1, end);
      EventsBlock(c, from + 1, end);
      var a, b := c[from].events, EventsIn(c, from + 1, end);
      forall i, j | 0 <= i < j < |a + b| ensures Sorting.Below(EventKey((a + b)[i]), EventKey((a + b)[j])) {
        if j < |a| {
          assert a[i] in a && a[j] in a;
        } else {
          assert b[j - |a|] in b;
          if i < |a| { assert a[i] in a; } else { assert b[i - |a|] == (a + b)[i]; }
        }
      }
    }
  }

  /** Two event queries, sorted by block and log index, give the chain's own order. */
  lemma FetchOrder(c: Chain, from: nat, end: nat)
    requires end <= |c| && WellFormed(c)
    ensures var evs := EventsIn(c, from, end); Sort(EventKey, Updates(evs) + Executions(evs)) == evs
  {
    var evs := EventsIn(c, from, end);
    EventsAscend(c, from, end);
    UpdatesAndExecutions(evs);
    SortRestoresOrder(EventKey, Updates(evs) + Executions(evs), evs);
  }

  /** The first step on the rest of a block is not affected by the blocks after it. */
  lemma StepLocal(x: Executor, v: View, rest: seq<Event>, tail: seq<Event>)
    requires rest != []
    requires forall e, f :: e in rest && f in tail ==> e.block != f.block
    ensures StepLength(rest + tail) == StepLength(rest)
    ensures ApplyStep(x, v, rest + tail) == ApplyStep(x, v, rest)
  {
    assert (rest + tail)[0] == rest[0];
    if tail != [] { assert rest[0] in rest && tail[0] in tail; }
    RunLengthAppend(rest, tail, rest[0].block);
    var n := StepLength(rest);
    assert (rest + tail)[..n] == rest[..n];
  }

  lemma AccountingFrom(x: Executor, v: View, evs: seq<Event>, k: nat)
    requires k < |evs|
    ensures ApplyAll(x, v, Accounting(evs[k..])) ==
            ApplyAll(x, if IsChange(evs[k]) then v else ApplyOne(x, v, evs[k]), Accounting(evs[k + 1..]))
  {
    assert evs[k..][1..] == evs[k + 1..];
    var rest := Accounting(evs[k + 1..]);
    if IsChange(evs[k]) {
      assert Accounting(evs[k..]) == [] + rest == rest;
    } else {
      assert Accounting(evs[k..]) == [evs[k]] + rest;
      assert ([evs[k]] + rest)[1..] == rest;
    }
  }

  lemma DropSmallest(h: History, keys: set<int>, sorted: seq<int>, i: nat)
    requires i + 1 < |sorted|
    requires forall j, k :: 0 <= j < k < |sorted| ==> sorted[j] < sorted[k]
    requires forall k :: k in sorted <==> k in keys
    requires forall k :: k in h <==> k in keys && sorted[i] <= k
    ensures var less := map k | k in h && k != sorted[i] :: h[k];
            |less| == |h| - 1 && forall k :: k in less <==> k in keys && sorted[i + 1] <= k
  {
    var less := map k | k in h && k != sorted[i] :: h[k];
    assert sorted[i] in sorted;
    assert less.Keys == h.Keys - {sorted[i]};
    assert |less| == |less.Keys| && |h| == |h.Keys|;
    forall k | k in keys && sorted[i] < k ensures sorted[i + 1] <= k {
      var j :| 0 <= j < |sorted| && sorted[j] == k;
    }
  }

  // ---------- A fetch half way ----------

  /** `pending` are the events still to process: `rest` of block `b - 1`, then blocks `b` on. */
  ghost predicate Fetching(x: Executor, v0: View, c: Chain, from: nat, end: nat, b: nat, rest: seq<Event>, v: View,
                           pending: seq<Event>)
  {
    && from <= b <= end <= |c| && WellFormed(c)
    && pending == rest + EventsIn(c, b, end)
    && (forall e :: e in rest ==> e.block + 1 == b)
    && ApplyEvents(x, v, rest) == ReplayOn(x, v0, c, from, b)
  }

  lemma StartFetch(x: Executor, v: View, c: Chain, from: nat, end: nat, cps: seq<Checkpoint>)
    requires from <= end <= |c| && WellFormed(c) && |cps| <= MAX_REORG_HISTORY
    ensures Fetching(x, v, c, from, end, from, [], v, EventsIn(c, from, end))
    ensures cps == Newest(cps + NewCheckpoints(x, v, c, from, from))
  {
    assert cps + [] == cps;
  }

  /** Checkpoints and position after block `n` has been entered. */
  lemma EnterBlockCheckpoint(x: Executor, v0: View, c: Chain, from: nat, b: nat, n: nat, v: View, cps: seq<Checkpoint>)
      returns (b': nat, rest: seq<Event>)
    requires n < |c| && b <= n
    requires NewCheckpoints(x, v0, c, from, n + 1) == NewCheckpoints(x, v0, c, from, b) + [Checkpoint(n, |v.l2| - 1, v.root)]
    ensures b' == n + 1 && rest == c[n].events
    ensures Newest(Newest(cps + NewCheckpoints(x, v0, c, from, b)) + [Checkpoint(n, |v.l2| - 1, v.root)])
         == Newest(cps + NewCheckpoints(x, v0, c, from, b'))
  {
    b', rest := n + 1, c[n].events;
    NewestGrows(cps, NewCheckpoints(x, v0, c, from, b), [Checkpoint(n, |v.l2| - 1, v.root)],
                NewCheckpoints(x, v0, c, from, n + 1));
  }

  lemma AtBoundary(x: Executor, v0: View, c: Chain, from: nat, end: nat, b: nat, v: View, pending: seq<Event>)
    requires Fetching(x, v0, c, from, end, b, [], v, pending)
    ensures pending == EventsIn(c, b, end) && v == ReplayOn(x, v0, c, from, b)
    ensures from <= b <= end <= |c| && WellFormed(c)
  {
  }

  /** The next event opens a new block: the view is the replay of everything below it. */
  lemma EnterBlock(x: Executor, v0: View, c: Chain, from: nat, end: nat, b: nat, v: View, pending: seq<Event>)
    requires Fetching(x, v0, c, from, end, b, [], v, pending) && pending != []
    ensures var n := pending[0].block;
            && b <= n < end
            && Fetching(x, v0, c, from, end, n + 1, c[n].events, v, pending)
            && c[n].events != [] && c[n].events[0] == pending[0]
            && NewCheckpoints(x, v0, c, from, n + 1) == NewCheckpoints(x, v0, c, from, b) + [Checkpoint(n, |v.l2| - 1, v.root)]
  {
    hide *;
    AtBoundary(x, v0, c, from, end, b, v, pending);
    NextBlock(c, b, end);
    var n := pending[0].block;
    SkipEmpty(x, v0, c, from, b, n, end);
    EnterNonEmpty(x, v0, c, from, end, n, v);
    NewCheckpointsStep(x, v0, c, from, n);
  }

  lemma EnterNonEmpty(x: Executor, v0: View, c: Chain, from: nat, end: nat, n: nat, v: View)
    requires from <= n < end <= |c| && WellFormed(c) && c[n].events != []
    requires v == ReplayOn(x, v0, c, from, n)
    ensures Fetching(x, v0, c, from, end, n + 1, c[n].events, v, EventsIn(c, n, end))
    ensures EventsIn(c, n, end) != [] && EventsIn(c, n, end)[0] == c[n].events[0]
    ensures CheckpointAt(v, c, n) == [Checkpoint(n, |v.l2| - 1, v.root)]
  {
    assert BlockEvents(c[n], n);
  }

  /** The next event belongs to the block being processed, or opens a later one. */
  lemma NextEvent(x: Executor, v0: View, c: Chain, from: nat, end: nat, b: nat, rest: seq<Event>, v: View, pending: seq<Event>)
    requires Fetching(x, v0, c, from, end, b, rest, v, pending) && pending != []
    ensures if rest == [] then pending[0].block >= b else pending[0].block + 1 == b
  {
    EventsBlock(c, b, end);
    if rest != [] { assert pending[0] == rest[0]; } else { assert pending[0] in EventsIn(c, b, end); }
  }

  lemma StepInBlock(x: Executor, v0: View, c: Chain, from: nat, end: nat, b: nat, rest: seq<Event>, v: View, pending: seq<Event>)
    requires Fetching(x, v0, c, from, end, b, rest, v, pending) && rest != []
    ensures StepLength(pending) == StepLength(rest)
    ensures Fetching(x, v0, c, from, end, b, rest[StepLength(rest)..], ApplyStep(x, v, pending), pending[StepLength(rest)..])
  {
    var tail := EventsIn(c, b, end);
    EventsBlock(c, b, end);
    StepLocal(x, v, rest, tail);
    var n := StepLength(rest);
    assert pending[n..] == rest[n..] + tail;
  }

  lemma FinishFetch(x: Executor, v0: View, c: Chain, from: nat, end: nat, b: nat, rest: seq<Event>, v: View)
    requires Fetching(x, v0, c, from, end, b, rest, v, [])
    ensures v == ReplayOn(x, v0, c, from, end)
    ensures NewCheckpoints(x, v0, c, from, end) == NewCheckpoints(x, v0, c, from, b)
  {
    assert rest == [] && EventsIn(c, b, end) == [];
    NoEvents(c, b, end);
    SkipEmpty(x, v0, c, from, b, end, end);
  }

  // ---------- A sequence of fetches ----------

  lemma StartBatches(x: Executor, v: View, c: Chain, from: nat, cps: seq<Checkpoint>)
    requires from <= |c| && |cps| <= MAX_REORG_HISTORY
    ensures ReplayOn(x, v, c, from, from) == v
    ensures Newest(cps + NewCheckpoints(x, v, c, from, from)) == cps
  {
    assert cps + [] == cps;
  }

  lemma NextBatch(x: Executor, v: View, c: Chain, from: nat, mid: nat, end: nat, cps: seq<Checkpoint>)
    requires from <= mid <= end <= |c|
    ensures var w := ReplayOn(x, v, c, from, mid);
            && ReplayOn(x, v, c, from, end) == ReplayOn(x, w, c, mid, end)
            && Newest(Newest(cps + NewCheckpoints(x, v, c, from, mid)) + NewCheckpoints(x, w, c, mid, end))
            == Newest(cps + NewCheckpoints(x, v, c, from, end))
  {
    hide *;
    ReplaySplits(x, v, c, from, mid, end);
    NewCheckpointsSplit(x, v, c, from, mid, end);
    NewestGrows(cps, NewCheckpoints(x, v, c, from, mid), NewCheckpoints(x, ReplayOn(x, v, c, from, mid), c, mid, end),
                NewCheckpoints(x, v, c, from, end));
  }

  lemma NextTrim(h0: History, c: Chain, from: nat, mid: nat, upto: nat, cut1: int, h1: History, cut2: int, h2: History)
    returns (cut: int)
    requires from <= mid <= upto < |c| && forall k :: k in h0 ==> k < from
    requires if mid == from then h1 == h0 else Trimmed(h0, c, StartRecording(from, c), mid - 1, cut1, h1)
    requires Trimmed(h1, c, StartRecording(mid, c), upto, cut2, h2)
    ensures Trimmed(h0, c, StartRecording(from, c), upto, cut, h2)
  {
    if mid == from {
      cut := cut2;
    } else {
      cut := TrimAgain(h0, c, StartRecording(from, c), mid, cut1, h1, upto, cut2, h2);
    }
  }

  lemma Lowest(s: set<int>) returns (m: int)
    ensures forall k :: k in s ==> m <= k
  {
    Inhabited(s);
    if s == {} { m := 0; } else { m := HasMin(s); }
  }

  /** Blocks `from` to `end` (exclusive) in adjoining ranges of 10000, the last one shorter if need be. */
  ghost predicate Adjoining(from: nat, end: nat, ranges: seq<(nat, nat)>) {
    && end <= from + 10000 * |ranges|
    && forall i :: 0 <= i < |ranges| ==>
         && ranges[i].0 == from + 10000 * i < end
         && ranges[i].1 == if ranges[i].0 + 9999 < end then ranges[i].0 + 9999 else end - 1
  }

  class Node {
    const x: Executor
    const deploy: nat

    var last: int
    var history: History
    var checkpoints: seq<Checkpoint>
    var root: string
    var l2: seq<string>
    var disk: Option<SyncState>

    constructor (x: Executor, deploy: nat)
      ensures this.x == x && this.deploy == deploy
      ensures Mem() == FreshMemory(x, deploy) && disk == None
    {
      this.x := x;
      this.deploy := deploy;
      last := deploy - 1;
      history := map[];
      checkpoints := [];
      root := x.initialRoot;
      l2 := x.genesis;
      disk := None;
    }

    function Tracked(): View
      reads this
    {
      View(root, l2)
    }

    function Mem(): Memory
      reads this
    {
      Memory(last, history, checkpoints, Tracked())
    }

    // ---------- Processing events ----------

    method ProcessEvent(e: Event)
      modifies this`root, this`l2
      ensures Tracked() == ApplyOne(x, old(Tracked()), e)
    {
      if e.Performed? && e.currentState != e.newState {
        l2 := l2 + x.single(l2, e);
      }
      root := e.newState;
    }

    method ProcessEach(evs: seq<Event>)
      modifies this`root, this`l2
      ensures Tracked() == ApplyAll(x, old(Tracked()), evs)
    {
      var k := 0;
      while k < |evs|
        invariant 0 <= k <= |evs|
        invariant ApplyAll(x, Tracked(), evs[k..]) == ApplyAll(x, old(Tracked()), evs)
      {
        ProcessEvent(evs[k]);
        assert evs[k..][1..] == evs[k + 1..];
        k := k + 1;
      }
    }

    method ProcessAccounting(evs: seq<Event>)
      modifies this`root, this`l2
      ensures Tracked() == ApplyAll(x, old(Tracked()), Accounting(evs))
    {
      var k := 0;
      while k < |evs|
        invariant 0 <= k <= |evs|
        invariant ApplyAll(x, Tracked(), Accounting(evs[k..])) == ApplyAll(x, old(Tracked()), Accounting(evs))
      {
        AccountingFrom(x, Tracked(), evs, k);
        if !IsChange(evs[k]) {
          ProcessEvent(evs[k]);
        }
        k := k + 1;
      }
    }

    method ReplayBatch(batch: seq<Event>)
      requires batch != []
      modifies this`root, this`l2
      ensures Tracked() == ApplyBatch(x, old(Tracked()), batch)
    {
      l2 := l2 + x.batch(l2, batch);
      for k := 0 to |batch|
        invariant l2 == old(l2) + x.batch(old(l2), batch)
        invariant k > 0 ==> root == batch[k - 1].newState
      {
        root := batch[k].newState;
      }
    }

    /** The executions of one L1 block that follow each other in the event list. */
    method CollectConsecutive(all: seq<Event>, i: nat) returns (consecutive: seq<Event>)
      requires i < |all| && all[i].Performed?
      ensures consecutive == all[i..][..RunLength(all[i..], all[i].block)] && consecutive != []
    {
      var n := 1;
      while i + n < |all| && all[i + n].Performed? && all[i + n].block == all[i].block
        invariant 1 <= n && i + n <= |all|
        invariant n <= RunLength(all[i..], all[i].block)
        decreases |all| - n
      {
        n := n + 1;
      }
      consecutive := all[i..i + n];
      assert n == RunLength(all[i..], all[i].block);
    }

    /** Two or more state changes are replayed as a batch, the accounting events after them. */
    method ProcessGroup(consecutive: seq<Event>)
      requires consecutive != []
      modifies this`root, this`l2
      ensures Tracked() == ApplyGroup(x, old(Tracked()), consecutive)
    {
      var batch := Changes(consecutive);
      if |batch| > 1 {
        ReplayBatch(batch);
        ProcessAccounting(consecutive);
      } else {
        ProcessEach(consecutive);
      }
    }

    /** One round of the processing loop, on the events from position `i`. */
    method ProcessStep(all: seq<Event>, i: nat) returns (n: nat)
      requires i < |all|
      modifies this`root, this`l2
      ensures n == StepLength(all[i..]) && i + n <= |all|
      ensures Tracked() == ApplyStep(x, old(Tracked()), all[i..])
    {
      if all[i].Performed? {
        var consecutive := CollectConsecutive(all, i);
        n := |consecutive|;
        ProcessGroup(consecutive);
      } else {
        n := 1;
        ProcessEvent(all[i]);
      }
    }

    // ---------- Records ----------

    method SaveCheckpoint(l1Block: nat)
      modifies this`checkpoints
      ensures checkpoints == Newest(old(checkpoints) + [Checkpoint(l1Block, |l2| - 1, root)])
    {
      checkpoints := checkpoints + [Checkpoint(l1Block, |l2| - 1, root)];
      ghost var all := checkpoints;
      while |checkpoints| > MAX_REORG_HISTORY
        invariant Newest(checkpoints) == Newest(all)
      {
        assert checkpoints[1..][|checkpoints| - 1 - MAX_REORG_HISTORY..] == checkpoints[|checkpoints| - MAX_REORG_HISTORY..];
        checkpoints := checkpoints[1..];
      }
    }

    /** Deletes the oldest hashes until `MAX_REORG_HISTORY` are left. */
    method PruneBlockHashHistory() returns (ghost cut: int)
      modifies this`history
      ensures forall k :: k in history <==> k in old(history) && cut <= k
      ensures forall k :: k in history ==> history[k] == old(history)[k]
      ensures |history| == if |old(history)| > MAX_REORG_HISTORY then MAX_REORG_HISTORY else |old(history)|
      ensures |history| == MAX_REORG_HISTORY || history == old(history)
    {
      if |history| <= MAX_REORG_HISTORY {
        cut := Lowest(history.Keys);
        return;
      }
      var sortedKeys := SortedKeys(history.Keys);
      var cutoff := |sortedKeys| - MAX_REORG_HISTORY;
      cut := sortedKeys[cutoff];
      for i := 0 to cutoff
        invariant forall k :: k in history <==> k in old(history) && sortedKeys[i] <= k
        invariant forall k :: k in history ==> history[k] == old(history)[k]
        invariant |history| == |sortedKeys| - i
      {
        DropSmallest(history, old(history).Keys, sortedKeys, i);
        history := map k | k in history && k != sortedKeys[i] :: history[k];
      }
    }

    /** Records the hashes of blocks `from` to `upto`, skipping blocks far below the tip. */
    method RecordBlockHashes(from: nat, upto: nat, c: Chain) returns (ghost cut: int)
      requires from <= upto < |c|
      requires |history| <= MAX_REORG_HISTORY
      modifies this`history
      ensures Trimmed(old(history), c, StartRecording(from, c), upto, cut, history)
    {
      var currentBlock := |c| - 1;
      var reorgWindow := MAX_REORG_HISTORY * 2;
      var startRecording := if from >= currentBlock - reorgWindow then from else currentBlock - reorgWindow;
      if startRecording > upto {
        cut := Lowest(history.Keys);
        TrimmedByPruning(history, c, startRecording, upto, history, cut, history);
        return;
      }
      for blockNum := startRecording to upto + 1
        invariant forall k :: k in history <==> k in old(history) || startRecording <= k < blockNum
        invariant forall k :: k in history ==>
          if k in old(history) then history[k] == old(history)[k] else 0 <= k < |c| && history[k] == c[k].hash
      {
        if blockNum !in history {
          history := history[blockNum := c[blockNum].hash];
        }
      }
      ghost var recorded := history;
      cut := PruneBlockHashHistory();
      TrimmedByPruning(old(history), c, startRecording, upto, recorded, cut, history);
    }

    method SaveSyncState()
      modifies this`disk
      ensures disk == Some(SyncState(last, root, history, checkpoints))
    {
      disk := Some(SyncState(last, root, history, checkpoints));
    }

    /** The processing loop: a checkpoint before each block with events, then its groups. */
    method ProcessFetched(all: seq<Event>, ghost c: Chain, ghost from: nat, ghost end: nat)
      requires from <= end <= |c| && WellFormed(c)
      requires all == EventsIn(c, from, end)
      requires |checkpoints| <= MAX_REORG_HISTORY
      modifies this`checkpoints, this`root, this`l2
      ensures Tracked() == ReplayOn(x, old(Tracked()), c, from, end)
      ensures checkpoints == Newest(old(checkpoints) + NewCheckpoints(x, old(Tracked()), c, from, end))
    {
      hide Fetching, Newest, NewCheckpoints, ApplyStep, StepLength, ApplyEvents, EventsIn, ReplayOn, WellFormed;
      ghost var v0, cps := Tracked(), checkpoints;
      StartFetch(x, v0, c, from, end, cps);
      var lastCheckpointed: int := -1;
      var i := 0;
      ghost var b: nat, rest := from, [];
      while i < |all|
        invariant 0 <= i <= |all| && from <= b <= end
        invariant Fetching(x, v0, c, from, end, b, rest, Tracked(), all[i..])
        invariant lastCheckpointed < b && (rest != [] ==> lastCheckpointed == b - 1)
        invariant checkpoints == Newest(cps + NewCheckpoints(x, v0, c, from, b))
      {
        NextEvent(x, v0, c, from, end, b, rest, Tracked(), all[i..]);
        if all[i].block != lastCheckpointed {
          EnterBlock(x, v0, c, from, end, b, Tracked(), all[i..]);
          lastCheckpointed := all[i].block;
          SaveCheckpoint(all[i].block);
          b, rest := EnterBlockCheckpoint(x, v0, c, from, b, all[i].block, Tracked(), cps);
        }
        StepInBlock(x, v0, c, from, end, b, rest, Tracked(), all[i..]);
        var n := ProcessStep(all, i);
        assert all[i..][n..] == all[i + n..];
        rest := rest[n..];
        i := i + n;
      }
      assert all[i..] == [];
      FinishFetch(x, v0, c, from, end, b, rest, Tracked());
    }

    /** Fetches the events of blocks `from` to `upto` and replays them. */
    method FetchAndProcessEvents(from: nat, upto: nat, c: Chain) returns (ghost cut: int)
      requires from <= upto < |c| && WellFormed(c)
      requires |history| <= MAX_REORG_HISTORY && |checkpoints| <= MAX_REORG_HISTORY
      modifies this`last, this`history, this`checkpoints, this`root, this`l2, this`disk
      ensures last == upto && disk == Some(SyncState(last, root, history, checkpoints))
      ensures Tracked() == ReplayOn(x, old(Tracked()), c, from, upto + 1)
      ensures checkpoints == Newest(old(checkpoints) + NewCheckpoints(x, old(Tracked()), c, from, upto + 1))
      ensures Trimmed(old(history), c, StartRecording(from, c), upto, cut, history)
    {
      hide Trimmed, ReplayOn, NewCheckpoints, Newest, EventsIn, Sort, Updates, Executions, WellFormed;
      cut := RecordBlockHashes(from, upto, c);
      var events := EventsIn(c, from, upto + 1);
      var all := Sort(EventKey, Updates(events) + Executions(events));
      FetchOrder(c, from, upto + 1);
      ProcessFetched(all, c, from, upto + 1);
      last := upto;
      SaveSyncState();
    }

    /** Fetches everything from block `from` to the tip, in ranges of bounded size. */
    method FetchInBatches(from: nat, c: Chain) returns (ghost cut: int, ghost ranges: seq<(nat, nat)>)
      requires from <= |c| && WellFormed(c) && last == from - 1
      requires |history| <= MAX_REORG_HISTORY && |checkpoints| <= MAX_REORG_HISTORY
      requires forall k :: k in history ==> k < from
      modifies this`last, this`history, this`checkpoints, this`root, this`l2, this`disk
      ensures last == |c| - 1 && Adjoining(from, |c|, ranges)
      ensures Tracked() == ReplayOn(x, old(Tracked()), c, from, |c|)
      ensures checkpoints == Newest(old(checkpoints) + NewCheckpoints(x, old(Tracked()), c, from, |c|))
      ensures if from == |c| then history == old(history) && disk == old(disk)
              else Trimmed(old(history), c, StartRecording(from, c), |c| - 1, cut, history)
                   && disk == Some(SyncState(last, root, history, checkpoints))
    {
      hide Trimmed, ReplayOn, NewCheckpoints, Newest, WellFormed;
      ghost var v0, h0, cps := Tracked(), history, checkpoints;
      StartBatches(x, v0, c, from, cps);
      var fromBlock := from;
      cut, ranges := 0, [];
      while fromBlock < |c|
        invariant from <= fromBlock <= |c| && last == fromBlock - 1
        invariant fromBlock < |c| ==> fromBlock == from + 10000 * |ranges|
        invariant Adjoining(from, fromBlock, ranges)
        invariant |history| <= MAX_REORG_HISTORY && |checkpoints| <= MAX_REORG_HISTORY
        invariant Tracked() == ReplayOn(x, v0, c, from, fromBlock)
        invariant checkpoints == Newest(cps + NewCheckpoints(x, v0, c, from, fromBlock))
        invariant if fromBlock == from then history == h0 && disk == old(disk)
                  else Trimmed(h0, c, StartRecording(from, c), fromBlock - 1, cut, history)
                       && disk == Some(SyncState(last, root, history, checkpoints))
      {
        var toBlock := if fromBlock + FETCH_BATCH - 1 < |c| - 1 then fromBlock + FETCH_BATCH - 1 else |c| - 1;
        ghost var h1 := history;
        ghost var more := FetchAndProcessEvents(fromBlock, toBlock, c);
        NextBatch(x, v0, c, from, fromBlock, toBlock + 1, cps);
        cut := NextTrim(h0, c, from, fromBlock, toBlock, cut, h1, more, history);
        ranges := ranges + [(fromBlock, toBlock)];
        fromBlock := toBlock + 1;
      }
    }

    // ---------- Reorg detection ----------

    /** Whatever seems fine below the known bad block has only canonical hashes below it; so the history has
        no gap between a stale hash and that block. */
    predicate StaleUpTo(knownBadBlock: int, c: Chain)
      reads this
    {
      forall j, k :: j in history && j < k < knownBadBlock && SeemsFine(history, c, k) ==> Canonical(history, c, j)
    }

    /** Binary search for the first stored block whose hash is no longer canonical.  It finds one such that
        the block below seems fine, and the least of all if nothing seems fine above a stale hash. */
    method FindForkPoint(knownBadBlock: int, c: Chain) returns (fork: int)
      requires knownBadBlock in history && !Canonical(history, c, knownBadBlock)
      ensures fork <= knownBadBlock && fork in history && !Canonical(history, c, fork)
      ensures SeemsFine(history, c, fork - 1) || forall k :: k in history ==> fork <= k
      ensures StaleUpTo(knownBadBlock, c) ==> LeastStale(history, c, fork)
    {
      var keys := SortedKeys(history.Keys);
      assert knownBadBlock in keys;
      var lo, hi := keys[0], knownBadBlock;
      while lo < hi
        invariant lo <= hi <= knownBadBlock
        invariant hi in history && !Canonical(history, c, hi)
        invariant SeemsFine(history, c, lo - 1) || forall k :: k in history ==> lo <= k
        invariant StaleUpTo(knownBadBlock, c) ==> forall k :: k in history && k < lo ==> Canonical(history, c, k)
      {
        var mid := (lo + hi) / 2;
        assert SeemsFine(history, c, mid) <==> mid !in history || (0 <= mid < |c| && c[mid].hash == history[mid]);
        if mid !in history {
          lo := mid + 1;
        } else if 0 <= mid < |c| && c[mid].hash == history[mid] {
          lo := mid + 1;
        } else {
          hi := mid;
        }
      }
      fork := lo;
    }

    /** Compares the newest stored hashes with L1.  Only 8 of them are read,
        yet the answer names the least stale block of the whole history. */
    method DetectReorg(c: Chain) returns (fork: Option<int>)
      requires Mem().HistoryWindow(deploy) && OneStaleRun(history, c)
      ensures fork.Some? <==> StaleAbove(history, c, last - 8)
      ensures fork.Some? ==> LeastStale(history, c, fork.value)
    {
      if |history| == 0 {
        return None;
      }
      var checkDepth := if REORG_CHECK_DEPTH < |history| then REORG_CHECK_DEPTH else |history|;
      var i := 0;
      while i < checkDepth
        invariant 0 <= i <= checkDepth
        invariant forall k :: k in history && k > last - i ==> Canonical(history, c, k)
      {
        var blockNum := last - i;
        if blockNum in history && !Canonical(history, c, blockNum) {
          var f := FindForkPoint(blockNum, c);
          return Some(f);
        }
        i := i + 1;
      }
      return None;
    }

    // ---------- Reorg recovery ----------

    method FindCheckpointBefore(l1Block: int) returns (best: Option<Checkpoint>)
      requires InOrder(checkpoints)
      ensures best == CheckpointBefore(checkpoints, l1Block)
    {
      best := None;
      for i := 0 to |checkpoints|
        invariant best == CheckpointBefore(checkpoints[..i], l1Block)
      {
        assert checkpoints[..i + 1][..i] == checkpoints[..i];
        if checkpoints[i].l1Block < l1Block {
          best := Some(checkpoints[i]);
        }
      }
      assert checkpoints[..|checkpoints|] == checkpoints;
    }

    method PruneFromBlock(l1Block: nat)
      modifies this`history, this`checkpoints
      ensures forall k :: k in history <==> k in old(history) && k < l1Block
      ensures forall k :: k in history ==> history[k] == old(history)[k]
      ensures checkpoints == Recovery.Below(old(checkpoints), l1Block)
    {
      history := map k | k in history && k < l1Block :: history[k];
      checkpoints := Recovery.Below(checkpoints, l1Block);
    }

    /** The node's state is what one replay of chain `c` from the deployment block gives on top of the
        L2 chain `base`, its records allow recovery from the next reorg, and a restart finds all of
        it again. */
    ghost predicate SyncedOn(base: Ground, c: Chain)
      reads this
    {
      Knows(Based(x, base), deploy, c, Mem()) && Saved()
    }

    /** The same with nothing but genesis below: the node follows L1. */
    ghost predicate SyncedTo(c: Chain)
      reads this
    {
      SyncedOn(x.genesis, c)
    }

    /** What is on disk is the node's memory, or is of no use to a node that remembers nothing. */
    ghost predicate Saved()
      reads this
    {
      if disk == None then Mem() == Forgotten(x, deploy, l2)
      else
        disk == Some(SyncState(last, root, history, checkpoints))
        || (Mem() == Forgotten(x, deploy, l2) && x.stateRoot(l2) != disk.value.root)
    }

    /** Unwinds the L2 engine to a checkpoint and restores the tracked state. */
    method UnwindTo(cp: Checkpoint)
      requires 0 <= cp.l2Block < |l2|
      modifies this`last, this`history, this`checkpoints, this`root, this`l2
      ensures Mem() == UnwoundTo(old(Mem()), cp)
    {
      l2 := l2[..cp.l2Block + 1];
      root := cp.root;
      PruneFromBlock(cp.l1Block);
      IsHistoryBelow(history, old(history), cp.l1Block);
      last := cp.l1Block - 1;
    }

    /** Wipes the L2 engine and resets the tracked state. */
    method Wipe()
      modifies this`last, this`history, this`checkpoints, this`root, this`l2
      ensures Mem() == FreshMemory(x, deploy)
    {
      l2 := x.genesis;
      root := x.initialRoot;
      history := map[];
      checkpoints := [];
      last := deploy - 1;
    }

    /** Rolls the node back: to a checkpoint if there is one below the fork and the L2 engine
        can unwind to it, to nothing otherwise. */
    method RollBack(forkBlock: int, unwindSucceeds: bool)
      requires WellKept(deploy, Mem())
      modifies this`last, this`history, this`checkpoints, this`root, this`l2
      ensures Mem() == RolledBack(x, deploy, old(Mem()), forkBlock, unwindSucceeds)
    {
      hide InOrder, Window, Recovery.Below;
      var checkpoint := FindCheckpointBefore(forkBlock);
      if checkpoint.Some? && unwindSucceeds {
        UnwindTo(checkpoint.value);
      } else {
        Wipe();
      }
    }

    /** Processes the blocks of `c` that the node does not know yet. */
    method CatchUp(c: Chain) returns (ghost cut: int)
      requires WellFormed(c) && -1 <= last && forall k :: k in history ==> k <= last
      requires |history| <= MAX_REORG_HISTORY && |checkpoints| <= MAX_REORG_HISTORY
      modifies this`last, this`history, this`checkpoints, this`root, this`l2, this`disk
      ensures CaughtUp(x, c, old(Mem()), cut, Mem())
      ensures if old(last) + 1 < |c| then disk == Some(SyncState(last, root, history, checkpoints)) else disk == old(disk)
    {
      hide Trimmed, Newest, NewCheckpoints, ReplayOn, WellFormed;
      cut := 0;
      if |c| - 1 > last {
        ghost var ranges;
        cut, ranges := FetchInBatches(last + 1, c);
      }
    }

    /** Recovers from a reorg whose first replaced block is taken to be `forkBlock`: rolls back, and
        processes the rest of the chain on top of that, whether or not the chains agree there. */
    method HandleReorg(forkBlock: int, c: Chain, unwindSucceeds: bool) returns (ghost cut: int)
      requires WellFormed(c) && WellKept(deploy, Mem())
      modifies this`last, this`history, this`checkpoints, this`root, this`l2, this`disk
      ensures CaughtUp(x, c, RolledBack(x, deploy, old(Mem()), forkBlock, unwindSucceeds), cut, Mem())
      ensures Saved()
    {
      hide WellKept, RolledBack, CaughtUp, WellFormed;
      RolledBackShape(x, deploy, Mem(), forkBlock, unwindSucceeds);
      RollBack(forkBlock, unwindSucceeds);
      cut := CatchUp(c);
      SaveSyncState();
    }

    // ---------- Polling ----------

    /** One poll of L1.  `fork` is where it takes the chains to have parted, if it recovers; `cut` is the
        lowest hash kept by the fetch. */
    method Poll(c: Chain, unwindSucceeds: bool) returns (ghost fork: Option<int>, ghost cut: int)
      requires WellFormed(c) && WellKept(deploy, Mem()) && OneStaleRun(history, c)
      modifies this`last, this`history, this`checkpoints, this`root, this`l2, this`disk
      ensures fork.Some? <==> old(StaleAbove(history, c, last - 8)) || |c| <= old(last)
      ensures fork.Some? ==>
                old(LeastStale(history, c, fork.value)) || (old(history) == map[] && fork.value == |c|)
      ensures fork.Some? && old(StaleAbove(history, c, last - 8)) ==> old(LeastStale(history, c, fork.value))
      ensures fork.Some? ==>
                CaughtUp(x, c, RolledBack(x, deploy, old(Mem()), fork.value, unwindSucceeds), cut, Mem()) && Saved()
      ensures fork.None? && |c| == old(last) + 1 ==> Mem() == old(Mem()) && disk == old(disk)
      ensures fork.None? && |c| > old(last) + 1 ==> Fetched(x, c, old(Mem()), cut, Mem()) && Saved()
    {
      hide LeastStale, Trimmed, Newest, NewCheckpoints, ReplayOn, WellFormed, RolledBack, CaughtUp, InOrder;
      cut := 0;
      var forkBlock := DetectReorg(c);
      if forkBlock.Some? {
        fork := forkBlock;
        cut := HandleReorg(forkBlock.value, c, unwindSucceeds);
        return;
      }
      var currentBlock := |c| - 1;
      if currentBlock < last {
        ShorterIsStale(deploy, Mem(), c);
        fork := Some(currentBlock + 1);
        cut := HandleReorg(currentBlock + 1, c, unwindSucceeds);
        return;
      }
      fork := None;
      if currentBlock > last {
        cut := FetchAndProcessEvents(last + 1, currentBlock, c);
      }
    }

    // ---------- Restarting ----------

    method SetResumeState(s: SyncState)
      modifies this`last, this`history, this`checkpoints, this`root
      ensures last == s.last && root == s.root && history == s.history && checkpoints == s.checkpoints
    {
      last := s.last;
      root := s.root;
      history := s.history;
      checkpoints := s.checkpoints;
    }

    /** What a new process starts from: the saved state if the L2 chain reports the saved root, nothing
        otherwise.  Either way the L2 chain is the one it finds. */
    function Started(): Memory
      reads this
    {
      if disk.Some? && x.stateRoot(l2) == disk.value.root
      then Memory(disk.value.last, disk.value.history, disk.value.checkpoints, View(disk.value.root, l2))
      else Forgotten(x, deploy, l2)
    }

    /** A new process resumes or starts over, and fetches what it does not know before the first poll. */
    method Restart(c: Chain) returns (ghost cut: int)
      requires WellFormed(c) && -1 <= Started().last && forall k :: k in Started().history ==> k <= Started().last
      requires |Started().history| <= MAX_REORG_HISTORY && |Started().checkpoints| <= MAX_REORG_HISTORY
      modifies this`last, this`history, this`checkpoints, this`root, this`l2, this`disk
      ensures CaughtUp(x, c, old(Started()), cut, Mem())
      ensures if old(Started()).last + 1 < |c| then Saved() else disk == old(disk)
    {
      hide CaughtUp, WellFormed;
      last := deploy - 1;
      history := map[];
      checkpoints := [];
      root := x.initialRoot;
      if disk.Some? && x.stateRoot(l2) == disk.value.root {
        SetResumeState(disk.value);
      }
      assert Mem() == old(Started());
      cut := CatchUp(c);
    }
  }
}
