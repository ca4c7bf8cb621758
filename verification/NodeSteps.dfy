/** One step of a full node as a function of what it remembers: a poll, or a restart and the first poll
    after it. */
module NodeSteps {
  import opened EventReplay
  import opened NodeHistory
  import opened Recovery
  import opened Wrappers

  // ---------- Fetching what is left ----------

  /** The hashes after a fetch up to the tip: those of the newest `MAX_REORG_HISTORY` blocks from `oldest` on,
      where known ones are not looked up again. */
  function Refetched(h: History, oldest: int, c: Chain): History {
    map k | 0 <= k < |c| && Max(oldest, |c| - MAX_REORG_HISTORY) <= k :: if k in h then h[k] else c[k].hash
  }

  /** The memory after fetching what is left of `c`, if anything is. */
  function Caught(x: Executor, c: Chain, m: Memory): Memory {
    if 0 <= m.last + 1 < |c| then
      Memory(|c| - 1, Refetched(m.history, m.Oldest(), c),
             Newest(m.checkpoints + NewCheckpoints(x, m.view, c, m.last + 1, |c|)),
             ReplayOn(x, m.view, c, m.last + 1, |c|))
    else m
  }

  /** A fetch leaves nothing open. */
  lemma CaughtIs(x: Executor, deploy: nat, c: Chain, m: Memory, cut: int, b: Memory)
    requires m.HistoryWindow(deploy) && CaughtUp(x, c, m, cut, b)
    ensures b == Caught(x, c, m)
  {
    hide ReplayOn, NewCheckpoints, Newest;
    if 0 <= m.last + 1 < |c| {
      WindowAfterFetch(m.history, c, m.Oldest(), m.last + 1, cut, b.history);
      SameHistory(b.history, m.history, m.Oldest(), c);
    }
  }

  /** And it is one. */
  lemma CaughtHolds(x: Executor, deploy: nat, c: Chain, m: Memory) returns (cut: int)
    requires m.HistoryWindow(deploy) && -1 <= m.last
    ensures CaughtUp(x, c, m, cut, Caught(x, c, m))
  {
    hide ReplayOn, NewCheckpoints, Newest;
    cut := Max(m.Oldest(), |c| - MAX_REORG_HISTORY);
    if m.last + 1 < |c| {
      RefetchedTrims(m.history, m.Oldest(), m.last, c, cut);
    }
  }

  lemma RefetchedTrims(h: History, oldest: int, last: int, c: Chain, cut: int)
    requires 0 <= oldest <= last + 1 < |c| && Window(h, oldest, last) && cut == Max(oldest, |c| - MAX_REORG_HISTORY)
    ensures Trimmed(h, c, StartRecording(last + 1, c), |c| - 1, cut, Refetched(h, oldest, c))
  {
    var g := Refetched(h, oldest, c);
    WindowSize(g, cut, |c| - 1);
  }

  lemma SameHistory(b: History, h: History, oldest: int, c: Chain)
    requires 0 <= oldest && Window(b, Max(oldest, |c| - MAX_REORG_HISTORY), |c| - 1)
    requires forall k :: k in b ==> if k in h then b[k] == h[k] else 0 <= k < |c| && b[k] == c[k].hash
    ensures b == Refetched(h, oldest, c)
  {
    var r := Refetched(h, oldest, c);
    assert forall k :: k in r <==> k in b;
    assert forall k :: k in r ==> r[k] == b[k];
  }

  // ---------- Looking back ----------

  /** Where a poll takes the chains to have parted, if it notices that they have. */
  ghost function ForkSeen(m: Memory, c: Chain): Option<int> {
    if StaleAbove(m.history, c, m.last - REORG_CHECK_DEPTH) then
      if exists f :: LeastStale(m.history, c, f) then
        var f :| LeastStale(m.history, c, f);
        Some(f)
      else None
    else if |c| <= m.last then Some(|c|)
    else None
  }

  lemma ForkIs(deploy: nat, m: Memory, c: Chain, fork: Option<int>)
    requires m.HistoryWindow(deploy)
    requires fork.Some? <==> StaleAbove(m.history, c, m.last - REORG_CHECK_DEPTH) || |c| <= m.last
    requires fork.Some? ==> LeastStale(m.history, c, fork.value) || (m.history == map[] && fork.value == |c|)
    requires fork.Some? && StaleAbove(m.history, c, m.last - REORG_CHECK_DEPTH) ==> LeastStale(m.history, c, fork.value)
    ensures ForkSeen(m, c) == fork
  {
    if |c| <= m.last {
      ShorterIsStale(deploy, m, c);
    }
    if fork.Some? && LeastStale(m.history, c, fork.value) {
      OneLeast(m.history, c, fork.value);
    }
  }

  lemma OneLeast(h: History, c: Chain, f: int)
    requires LeastStale(h, c, f)
    ensures forall g :: LeastStale(h, c, g) ==> g == f
  {
  }

  /** The memory of a node, and the L2 chain on which its replay stands. */
  datatype State = State(memory: Memory, base: Ground)

  /** What the rolling back of a poll leaves. */
  ghost function Unwinds(x: Executor, deploy: nat, m: Memory, c: Chain, unwindSucceeds: bool): Memory
    requires WellKept(deploy, m)
  {
    var fork := ForkSeen(m, c);
    if fork.Some? then RolledBack(x, deploy, m, fork.value, unwindSucceeds) else m
  }

  ghost function AfterPoll(x: Executor, deploy: nat, s: State, c: Chain, unwindSucceeds: bool): State {
    if !WellKept(deploy, s.memory) then s
    else
      var fork := ForkSeen(s.memory, c);
      State(Caught(x, c, Unwinds(x, deploy, s.memory, c, unwindSucceeds)),
            if fork.Some? then BaseAfter(x, s.base, s.memory, fork.value, unwindSucceeds) else s.base)
  }

  // ---------- Restarting ----------

  /** A restart drops what was saved: the L2 chain reports another root than the tracked one. */
  predicate Drops(x: Executor, deploy: nat, m: Memory) {
    m.last >= deploy && x.stateRoot(m.view.l2) != m.view.root
  }

  /** What a restarted node knows when it first looks back. */
  function Resumed(x: Executor, deploy: nat, s: State, c: Chain): State {
    var (m, l2) := (s.memory, s.memory.view.l2);
    if Drops(x, deploy, m) && l2 != [] then State(Caught(x, c, Forgotten(x, deploy, l2)), l2)
    else State(Caught(x, c, m), s.base)
  }

  lemma DropsIs(x: Executor, base: Ground, deploy: nat, prev: Chain, m: Memory)
    requires Knows(Based(x, base), deploy, prev, m)
    ensures Drops(x, deploy, m) <==> Discards(Based(x, base), deploy, prev)
    ensures m.view == Replay(Based(x, base), prev, deploy) && m.view.l2 != []
  {
    hide ReplayOn;
    SyncedView(Based(x, base), deploy, prev, m);
    NotEmpty(Based(x, base), deploy, prev, m);
  }
}
