/** Whole runs of the full node: L1 extends, shrinks and reorgs between polls, the L2 engine
    may fail to unwind, and the node may be restarted. */
module NodeRuns {
  import opened EventReplay
  import opened NodeHistory
  import opened Recovery
  import opened NodeSteps
  import opened FullNode
  import opened WrongStarts
  import opened Wrappers

  // ---------- Polls ----------

  /** The view on which recovery from block `fork` replays the rest of the chain, when there is a
      checkpoint below. */
  function Unwound(m: Memory, fork: int): View
    requires CheckpointBefore(m.checkpoints, fork).Some?
    requires 0 <= CheckpointBefore(m.checkpoints, fork).value.l2Block < |m.view.l2|
  {
    var cp := CheckpointBefore(m.checkpoints, fork).value;
    View(cp.root, m.view.l2[..cp.l2Block + 1])
  }

  /** What recovery leaves when it is not right: the blocks of `c` above the checkpoint, replayed on what
      `prev` had led to there. */
  ghost predicate Misled(x: Executor, base: Ground, deploy: nat, prev: Chain, c: Chain, m: Memory, fork: int, v: View) {
    && CheckpointBefore(m.checkpoints, fork).Some?
    && var cp := CheckpointBefore(m.checkpoints, fork).value;
       && 0 <= cp.l2Block < |m.view.l2| && cp.l1Block <= |prev|
       && Unwound(m, fork) == ReplayOn(x, Initial(Based(x, base)), prev, deploy, cp.l1Block)
       && v == if cp.l1Block < |c| then ReplayOn(x, Unwound(m, fork), c, cp.l1Block, |c|) else Unwound(m, fork)
  }

  /** A poll of a node that knows `m` is followed: it notices nothing, and there was nothing to notice, or
      it recovers. */
  ghost predicate Followed(deploy: nat, prev: Chain, c: Chain, m: Memory, unwindSucceeds: bool) {
    var fork := ForkSeen(m, c);
    if fork.Some? then Recovers(deploy, prev, c, m, fork.value, unwindSucceeds) else Unbroken(deploy, prev, c)
  }

  lemma KnowsWindow(x: Executor, deploy: nat, c: Chain, m: Memory)
    requires Knows(x, deploy, c, m)
    ensures m.HistoryWindow(deploy) && HashesOf(m.history, c) && |m.checkpoints| <= MAX_REORG_HISTORY
    ensures m.last + 1 == Max(|c|, deploy) && (forall k :: k in m.history ==> k <= m.last)
    ensures (m.history == map[] <==> |c| <= deploy) && m.view == Replay(x, c, deploy)
  {
  }

  /** What a poll can name as the fork. */
  lemma ForkNamed(x: Executor, deploy: nat, prev: Chain, c: Chain, m: Memory)
    requires Knows(x, deploy, prev, m) && HashChained(prev, c)
    ensures var fork := ForkSeen(m, c);
            && (fork.Some? <==> !HashesOf(m.history, c) || |c| <= m.last)
            && (fork.Some? ==> LeastStale(m.history, c, fork.value) || (m.history == map[] && fork.value == |c|))
            && (fork.Some? ==> CanonicalBelow(m.history, c, fork.value))
            && (fork.None? ==> Unbroken(deploy, prev, c))
  {
    DetectionExact(x, deploy, prev, c, m);
    KnowsWindow(x, deploy, prev, m);
    hide Knows, HashChained, HashesOf;
    if StaleAbove(m.history, c, m.last - REORG_CHECK_DEPTH) {
      HasLeastStale(m.history, c);
    } else {
      OnlyExtended(x, deploy, prev, c, m);
      if |c| <= m.last { ShorterIsStale(deploy, m, c); }
    }
  }

  lemma HasLeastStale(h: History, c: Chain)
    requires exists k :: k in h && !Canonical(h, c, k)
    ensures exists f :: LeastStale(h, c, f)
  {
    var k :| k in h && !Canonical(h, c, k);
    var stale := set j | j in h && !Canonical(h, c, j);
    assert k in stale;
    var f := HasMin(stale);
    forall j | j in h && j < f ensures Canonical(h, c, j) {
      assert j !in stale;
    }
    assert LeastStale(h, c, f);
  }

  /** One poll of a node that knows `prev`, in terms of its memory. */
  lemma PollExact(x: Executor, base: Ground, deploy: nat, prev: Chain, c: Chain, m: Memory, unwindSucceeds: bool,
                  cut: int, b: Memory)
    requires Knows(Based(x, base), deploy, prev, m) && HashChained(prev, c) && WellKept(deploy, m)
    requires CaughtUp(x, c, Unwinds(x, deploy, m, c, unwindSucceeds), cut, b)
    ensures var after, fork := AfterPoll(x, deploy, State(m, base), c, unwindSucceeds), ForkSeen(m, c);
            if Followed(deploy, prev, c, m, unwindSucceeds)
            then Knows(Based(x, after.base), deploy, c, b) && b.Oldest() <= Max(m.Oldest(), |c| - MAX_REORG_HISTORY)
            else fork.Some? && Misled(x, base, deploy, prev, c, m, fork.value, b.view)
  {
    var fork := ForkSeen(m, c);
    ForkNamed(Based(x, base), deploy, prev, c, m);
    hide Knows, HashChained, WellKept, CaughtUp, LeastStale, HashesOf, CanonicalBelow, ForkSeen, Recovers, Unbroken;
    hide Misled, RolledBack, BaseAfter, Based, Caught;
    if fork.Some? {
      RecoveredPoll(x, base, deploy, prev, c, m, fork.value, unwindSucceeds, cut, b);
    } else {
      ExtendedPoll(x, base, deploy, prev, c, m, cut, b);
    }
  }

  lemma RecoveredPoll(x: Executor, base: Ground, deploy: nat, prev: Chain, c: Chain, m: Memory, fork: int,
                      unwindSucceeds: bool, cut: int, b: Memory)
    requires Knows(Based(x, base), deploy, prev, m) && WellKept(deploy, m) && CanonicalBelow(m.history, c, fork)
    requires CaughtUp(x, c, RolledBack(x, deploy, m, fork, unwindSucceeds), cut, b)
    ensures if Recovers(deploy, prev, c, m, fork, unwindSucceeds)
            then Knows(Based(x, BaseAfter(x, base, m, fork, unwindSucceeds)), deploy, c, b)
                 && b.Oldest() <= Max(m.Oldest(), |c| - MAX_REORG_HISTORY)
            else Misled(x, base, deploy, prev, c, m, fork, b.view)
  {
    hide Knows, WellKept, CaughtUp, ReplayOn, CanonicalBelow, Recovers, BaseAfter, RolledBack, Based;
    hide CheckpointBefore, SameEvents;
    RecoveryExact(x, base, deploy, prev, c, m, fork, unwindSucceeds, cut, b);
    PrevCheckpoint(Based(x, base), deploy, prev, m, fork);
    NothingBelow(deploy, prev, c, m, fork, unwindSucceeds);
  }

  lemma ExtendedPoll(x: Executor, base: Ground, deploy: nat, prev: Chain, c: Chain, m: Memory, cut: int, b: Memory)
    requires Knows(Based(x, base), deploy, prev, m) && Unbroken(deploy, prev, c) && |c| > m.last
    requires CaughtUp(x, c, m, cut, b)
    ensures Knows(Based(x, base), deploy, c, b) && b.Oldest() <= Max(m.Oldest(), |c| - MAX_REORG_HISTORY)
  {
    var y := Based(x, base);
    KnowsWindow(y, deploy, prev, m);
    BasedCaughtUp(x, base, c, m, cut, b);
    hide KnowsBelow, Fetched, ReplayOn, Based;
    KnowsShared(y, deploy, prev, c, m);
    CatchUpCompletes(y, deploy, c, m, cut, b);
    if m.last + 1 == |c| {
      KnowsSame(y, deploy, prev, c, m);
    }
  }

  lemma NothingBelow(deploy: nat, prev: Chain, c: Chain, m: Memory, fork: int, unwindSucceeds: bool)
    ensures !Recovers(deploy, prev, c, m, fork, unwindSucceeds) ==> CheckpointBefore(m.checkpoints, fork).Some?
  {
  }

  lemma PrevCheckpoint(x: Executor, deploy: nat, prev: Chain, m: Memory, fork: int)
    requires Knows(x, deploy, prev, m)
    ensures var found := CheckpointBefore(m.checkpoints, fork);
            found.Some? ==> 0 <= found.value.l2Block < |m.view.l2| && found.value.l1Block <= |prev|
  {
    var found := CheckpointBefore(m.checkpoints, fork);
    if found.Some? {
      KnownCheckpoint(x, deploy, prev, m, found.value);
    }
  }

  lemma KnowsSame(x: Executor, deploy: nat, prev: Chain, c: Chain, m: Memory)
    requires Knows(x, deploy, prev, m) && KnowsBelow(x, deploy, c, m.last + 1, m) && |c| == m.last + 1
    ensures Knows(x, deploy, c, m)
  {
    hide ReplayOn, CheckpointsOk;
  }

  lemma RolledBackWindow(x: Executor, deploy: nat, m: Memory, fork: int, unwindSucceeds: bool)
    requires WellKept(deploy, m)
    ensures RolledBack(x, deploy, m, fork, unwindSucceeds).HistoryWindow(deploy)
  {
    var b := RolledBack(x, deploy, m, fork, unwindSucceeds);
    if !Wipes(m, fork, unwindSucceeds) {
      var n := CheckpointBefore(m.checkpoints, fork).value.l1Block;
      HistorySubset(b.history, m.history);
      WindowBelow(m.history, m.Oldest(), m.last, n, b.history);
    }
  }

  /** The node's own poll, as a step of its memory. */
  method PollOnce(node: Node, c: Chain, unwindSucceeds: bool) returns (ghost cut: int)
    requires WellFormed(c) && WellKept(node.deploy, node.Mem()) && OneStaleRun(node.history, c)
    modifies node
    ensures var m := old(node.Mem());
            var unwound := Unwinds(node.x, node.deploy, m, c, unwindSucceeds);
            CaughtUp(node.x, c, unwound, cut, node.Mem()) && node.Mem() == Caught(node.x, c, unwound)
    ensures old(node.Saved()) ==> node.Saved()
  {
    hide WellKept, RolledBack, CaughtUp, Fetched, WellFormed, LeastStale, StaleAbove, Caught, ForkSeen, Forgotten;
    ghost var m, x, deploy := node.Mem(), node.x, node.deploy;
    KeptWindow(deploy, m);
    ghost var fork;
    fork, cut := node.Poll(c, unwindSucceeds);
    ForkIs(deploy, m, c, fork);
    if fork.Some? {
      RolledBackWindow(x, deploy, m, fork.value, unwindSucceeds);
    } else {
      FetchedOrSame(x, c, m, cut, node.Mem());
    }
    CaughtIs(x, deploy, c, Unwinds(x, deploy, m, c, unwindSucceeds), cut, node.Mem());
  }

  lemma KeptWindow(deploy: nat, m: Memory)
    requires WellKept(deploy, m)
    ensures m.HistoryWindow(deploy)
  {
  }

  lemma FetchedOrSame(x: Executor, c: Chain, m: Memory, cut: int, b: Memory)
    requires if |c| > m.last + 1 then Fetched(x, c, m, cut, b) else b == m
    ensures CaughtUp(x, c, m, cut, b)
  {
  }

  /** One poll of a node synced to `prev`, exactly.  It notices if a stored hash is no longer canonical or
      the chain is shorter; it is then synced to `c` if it can start from nothing, or from a checkpoint up
      to which the chains have the same events and above which `c` goes on, and misled by the checkpoint
      otherwise. */
  method FollowPoll(node: Node, ghost base: Ground, ghost prev: Chain, c: Chain, unwindSucceeds: bool)
    requires node.SyncedOn(base, prev) && WellFormed(c) && HashChained(prev, c)
    modifies node
    ensures var m := old(node.Mem());
            var (after, fork) := (AfterPoll(node.x, node.deploy, State(m, base), c, unwindSucceeds), ForkSeen(m, c));
            && node.Mem() == after.memory
            && (fork.Some? <==> !HashesOf(m.history, c) || |c| <= m.last)
            && (fork.Some? ==> LeastStale(m.history, c, fork.value) || (m.history == map[] && fork.value == |c|))
            && (if Followed(node.deploy, prev, c, m, unwindSucceeds)
                then node.SyncedOn(after.base, c) && node.Mem().Oldest() <= Max(m.Oldest(), |c| - MAX_REORG_HISTORY)
                else fork.Some? && Misled(node.x, base, node.deploy, prev, c, m, fork.value, node.Tracked()))
            && (fork.Some? && (!unwindSucceeds || m.checkpoints == []) ==>
                  node.SyncedTo(c) && node.Tracked() == Replay(node.x, c, node.deploy))
  {
    hide Knows, HashChained, WellFormed, LeastStale, WellKept, CaughtUp, Followed, Misled, ForkSeen, HashesOf, Caught;
    hide ReplayOn, Unwinds, OneStaleRun, Based;
    ghost var m, x, deploy := node.Mem(), node.x, node.deploy;
    KnowsWindow(Based(x, base), deploy, prev, m);
    KnowsKept(Based(x, base), deploy, prev, m);
    ChainedHashes(m.history, prev, c);
    ForkNamed(Based(x, base), deploy, prev, c, m);
    ghost var cut := PollOnce(node, c, unwindSucceeds);
    PollExact(x, base, deploy, prev, c, m, unwindSucceeds, cut, node.Mem());
    if ForkSeen(m, c).Some? && (!unwindSucceeds || m.checkpoints == []) {
      StartedOver(x, base, deploy, prev, c, m, unwindSucceeds, node.Mem());
    }
  }

  /** Recovery that cannot go back to a checkpoint is right whatever the node had followed. */
  lemma StartedOver(x: Executor, base: Ground, deploy: nat, prev: Chain, c: Chain, m: Memory, unwindSucceeds: bool, b: Memory)
    requires WellKept(deploy, m) && ForkSeen(m, c).Some? && (!unwindSucceeds || m.checkpoints == [])
    ensures Followed(deploy, prev, c, m, unwindSucceeds)
    ensures AfterPoll(x, deploy, State(m, base), c, unwindSucceeds).base == x.genesis
    ensures Knows(Based(x, x.genesis), deploy, c, b) ==> b.view == Replay(x, c, deploy)
  {
    hide ForkSeen, WellKept, Caught, Knows, ReplayOn, Unwinds, RolledBack;
    OwnBase(x);
    if Knows(Based(x, x.genesis), deploy, c, b) {
      SyncedView(x, deploy, c, b);
    }
  }

  /** With the fork not below the oldest stored hash the node follows. */
  lemma InWindow(x: Executor, deploy: nat, prev: Chain, c: Chain, m: Memory, unwindSucceeds: bool)
    requires Knows(x, deploy, prev, m) && HashChained(prev, c)
    requires m.Oldest() <= deploy || Agree(prev, c, m.Oldest())
    ensures Followed(deploy, prev, c, m, unwindSucceeds)
  {
    hide Knows, HashChained, LeastStale, Agree, Recovers, ForkSeen, Unbroken, CanonicalBelow;
    ForkNamed(x, deploy, prev, c, m);
    if ForkSeen(m, c).Some? {
      ForkInWindow(x, deploy, prev, c, m, ForkSeen(m, c).value, unwindSucceeds);
    }
  }

  // ---------- Restarts ----------

  lemma NoMember(cps: seq<Checkpoint>)
    ensures cps == [] || exists cp :: cp in cps
  {
    if cps != [] {
      assert cps[0] in cps;
    }
  }

  lemma BeforeDeployment(x: Executor, deploy: nat, prev: Chain, m: Memory)
    requires Knows(x, deploy, prev, m)
    ensures |prev| <= deploy ==> m == FreshMemory(x, deploy)
    ensures |prev| > deploy ==> m != FreshMemory(x, deploy)
  {
    if |prev| <= deploy {
      assert |m.history| == 0;
      NoCheckpoints(x, deploy, prev, m);
      NoMember(m.checkpoints);
    }
  }

  /** Where a restarted node starts from. */
  function StartOf(x: Executor, deploy: nat, m: Memory): Memory {
    if Drops(x, deploy, m) then Forgotten(x, deploy, m.view.l2) else m
  }

  lemma StartsFrom(node: Node, base: Ground, prev: Chain)
    requires node.SyncedOn(base, prev)
    ensures node.Started() == StartOf(node.x, node.deploy, node.Mem())
    ensures Drops(node.x, node.deploy, node.Mem()) ==>
              node.disk.Some? && node.x.stateRoot(node.l2) != node.disk.value.root
  {
    hide ReplayOn;
    var x, m := Based(node.x, base), node.Mem();
    BeforeDeployment(x, node.deploy, prev, m);
    KnowsWindow(x, node.deploy, prev, m);
    hide Knows;
    if m.last < node.deploy {
      assert m.view.l2 == base;
      assert m == Forgotten(node.x, node.deploy, m.view.l2);
    }
  }

  lemma StartShape(x: Executor, base: Ground, deploy: nat, prev: Chain, m: Memory)
    requires Knows(Based(x, base), deploy, prev, m)
    ensures var started := StartOf(x, deploy, m);
            && |started.history| <= MAX_REORG_HISTORY && |started.checkpoints| <= MAX_REORG_HISTORY
            && -1 <= started.last && (forall k :: k in started.history ==> k <= started.last)
            && started.HistoryWindow(deploy) && m.view.l2 != []
  {
    DropsIs(x, base, deploy, prev, m);
    KnowsWindow(Based(x, base), deploy, prev, m);
    hide Knows;
  }

  /** The node's own restart, as a step of its memory. */
  method RestartOnce(node: Node, ghost base: Ground, ghost prev: Chain, c: Chain) returns (ghost cut: int)
    requires node.SyncedOn(base, prev) && WellFormed(c)
    modifies node
    ensures var m := old(node.Mem());
            && CaughtUp(node.x, c, StartOf(node.x, node.deploy, m), cut, node.Mem())
            && node.Mem() == Resumed(node.x, node.deploy, State(m, base), c).memory && node.Saved()
  {
    hide Knows, CaughtUp, WellFormed, Caught;
    StartsFrom(node, base, prev);
    StartShape(node.x, base, node.deploy, prev, node.Mem());
    ghost var m, started, disk := node.Mem(), node.Started(), node.disk;
    cut := node.Restart(c);
    CaughtIs(node.x, node.deploy, c, started, cut, node.Mem());
    if started.last + 1 >= |c| {
      NothingFetched(node.x, c, started, cut, node.Mem());
    }
  }

  lemma NothingFetched(x: Executor, c: Chain, m: Memory, cut: int, b: Memory)
    requires CaughtUp(x, c, m, cut, b) && m.last + 1 >= |c|
    ensures b == m
  {
  }

  /** What a restarted node ends with if its first poll does not set it right. */
  ghost predicate WrongAfter(x: Executor, base: Ground, deploy: nat, prev: Chain, c: Chain, seen: Memory, v: View) {
    var fork := ForkSeen(seen, c);
    if fork.Some? then Misled(x, base, deploy, prev, c, seen, fork.value, v)
    else |prev| <= |c| && v == ReplayOn(x, Replay(Based(x, base), prev, deploy), c, |prev|, |c|)
  }

  lemma SelfFollowed(x: Executor, deploy: nat, c: Chain, m: Memory, unwindSucceeds: bool)
    requires Knows(x, deploy, c, m)
    ensures Followed(deploy, c, c, m, unwindSucceeds)
  {
    KnowsWindow(x, deploy, c, m);
    hide Knows, Followed;
    InWindow(x, deploy, c, c, m, unwindSucceeds);
  }

  /** A node that starts over knows L1, on top of the L2 chain that it found. */
  lemma StartsOver(x: Executor, deploy: nat, l2: Ground, c: Chain, cut: int, seen: Memory)
    requires CaughtUp(x, c, Forgotten(x, deploy, l2), cut, seen)
    ensures Knows(Based(x, l2), deploy, c, seen)
  {
    var y := Based(x, l2);
    ForgottenIsFresh(x, deploy, l2);
    BasedCaughtUp(x, l2, c, Forgotten(x, deploy, l2), cut, seen);
    FreshKnows(y, deploy, c);
    hide Knows, KnowsBelow, CaughtUp, Based, Forgotten;
    CatchUpCompletes(y, deploy, c, FreshMemory(y, deploy), cut, seen);
  }

  /** A node that kept what it saved knows L1, unless that broke off while it was down. */
  lemma GoesOn(x: Executor, deploy: nat, prev: Chain, c: Chain, m: Memory, cut: int, seen: Memory)
    requires Knows(x, deploy, prev, m) && Unbroken(deploy, prev, c) && |c| > Max(|prev|, deploy)
    requires CaughtUp(x, c, m, cut, seen)
    ensures Knows(x, deploy, c, seen) && seen.Oldest() <= Max(m.Oldest(), |c| - MAX_REORG_HISTORY)
  {
    KnowsWindow(x, deploy, prev, m);
    hide KnowsBelow, Fetched, ReplayOn;
    KnowsShared(x, deploy, prev, c, m);
    CatchUpCompletes(x, deploy, c, m, cut, seen);
  }

  /** In shape for the poll that follows. */
  lemma SeenShape(x: Executor, base: Ground, deploy: nat, prev: Chain, c: Chain, m: Memory, cut: int, seen: Memory)
    requires Knows(Based(x, base), deploy, prev, m) && HashChained(prev, c) && m.view.l2 != []
    requires CaughtUp(x, c, StartOf(x, deploy, m), cut, seen)
    ensures WellKept(deploy, seen) && OneStaleRun(seen.history, c)
  {
    var y := Based(x, base);
    KnowsWindow(y, deploy, prev, m);
    hide Knows, HashChained, CaughtUp, WellKept, Drops, Based, Forgotten;
    if Drops(x, deploy, m) {
      StartsOver(x, deploy, m.view.l2, c, cut, seen);
      KnownShape(Based(x, m.view.l2), deploy, c, c, seen);
    } else if |c| <= Max(|prev|, deploy) {
      NothingFetched(x, c, m, cut, seen);
      KnownShape(y, deploy, prev, c, m);
    } else {
      BasedCaughtUp(x, base, c, m, cut, seen);
      IsFetchedAbove(y, deploy, prev, c, m, cut, seen);
      MixedHashes(y, deploy, prev, c, m, cut, seen);
      MixedKept(y, deploy, prev, c, m, cut, seen);
    }
  }

  lemma KnownShape(x: Executor, deploy: nat, prev: Chain, c: Chain, m: Memory)
    requires Knows(x, deploy, prev, m) && HashChained(prev, c)
    ensures WellKept(deploy, m) && OneStaleRun(m.history, c)
  {
    KnowsKept(x, deploy, prev, m);
    KnowsWindow(x, deploy, prev, m);
    hide Knows, WellKept;
    ChainedHashes(m.history, prev, c);
  }

  lemma IsFetchedAbove(x: Executor, deploy: nat, prev: Chain, c: Chain, m: Memory, cut: int, seen: Memory)
    requires Knows(x, deploy, prev, m) && HashChained(prev, c) && |c| > Max(|prev|, deploy)
    requires CaughtUp(x, c, m, cut, seen)
    ensures FetchedAbove(x, deploy, prev, c, m, cut, seen) && seen.last == |c| - 1
  {
    KnowsWindow(x, deploy, prev, m);
    hide Knows, HashChained, ReplayOn, NewCheckpoints, Trimmed;
  }

  /** The first poll after a restart in which L1 broke off while the node was down. */
  lemma BrokenPoll(x: Executor, base: Ground, deploy: nat, prev: Chain, c: Chain, m: Memory, cut: int, seen: Memory,
                   unwindSucceeds: bool, more: int, b: Memory)
    requires FetchedAbove(Based(x, base), deploy, prev, c, m, cut, seen) && WellKept(deploy, seen)
    requires seen.last == |c| - 1 && m.last + 1 == Max(|prev|, deploy) && !Unbroken(deploy, prev, c)
    requires CaughtUp(x, c, Unwinds(x, deploy, seen, c, unwindSucceeds), more, b)
    ensures var (after, fork) := (AfterPoll(x, deploy, State(seen, base), c, unwindSucceeds), ForkSeen(seen, c));
            && (fork.Some? <==> |c| - |prev| < 8)
            && (if Followed(deploy, prev, c, seen, unwindSucceeds)
                then Knows(Based(x, after.base), deploy, c, b) && b.Oldest() <= Max(seen.Oldest(), |c| - MAX_REORG_HISTORY)
                else WrongAfter(x, base, deploy, prev, c, seen, b.view))
  {
    var y, fork := Based(x, base), ForkSeen(seen, c);
    hide FetchedAbove, Knows, WellKept, RolledBack, Recovers, ReplayOn, Caught, BaseAfter, Based, CheckpointBefore, Misled;
    DowntimeDetection(y, deploy, prev, c, m, cut, seen);
    if StaleAbove(seen.history, c, seen.last - REORG_CHECK_DEPTH) {
      HasLeastStale(seen.history, c);
      hide LeastStale, StaleAbove, Unbroken, CaughtUp;
      BrokenNoticed(x, base, deploy, prev, c, m, cut, seen, fork.value, unwindSucceeds, more, b);
    } else {
      hide LeastStale, StaleAbove, Unbroken;
      UnnoticedView(x, base, deploy, prev, c, m, cut, seen);
    }
  }

  lemma UnnoticedView(x: Executor, base: Ground, deploy: nat, prev: Chain, c: Chain, m: Memory, cut: int, seen: Memory)
    requires FetchedAbove(Based(x, base), deploy, prev, c, m, cut, seen) && |prev| > deploy
    ensures |prev| <= |c| && seen.view == ReplayOn(x, Replay(Based(x, base), prev, deploy), c, |prev|, |c|)
  {
    var y := Based(x, base);
    hide FetchedAbove, ReplayOn;
    FetchedParts(y, deploy, prev, c, m, cut, seen);
    KnowsWindow(y, deploy, prev, m);
    BasedReplay(x, base, m.view, c, m.last + 1, |c|);
  }

  lemma BrokenNoticed(x: Executor, base: Ground, deploy: nat, prev: Chain, c: Chain, m: Memory, cut: int, seen: Memory,
                      fork: int, unwindSucceeds: bool, more: int, b: Memory)
    requires FetchedAbove(Based(x, base), deploy, prev, c, m, cut, seen) && WellKept(deploy, seen)
    requires LeastStale(seen.history, c, fork)
    requires CaughtUp(x, c, RolledBack(x, deploy, seen, fork, unwindSucceeds), more, b)
    ensures if Recovers(deploy, prev, c, seen, fork, unwindSucceeds)
            then Knows(Based(x, BaseAfter(x, base, seen, fork, unwindSucceeds)), deploy, c, b)
                 && b.Oldest() <= Max(seen.Oldest(), |c| - MAX_REORG_HISTORY)
            else Misled(x, base, deploy, prev, c, seen, fork, b.view)
  {
    var y := Based(x, base);
    hide FetchedAbove, Knows, WellKept, RolledBack, Recovers, ReplayOn, CaughtUp, BaseAfter, Based, CheckpointBefore;
    StaleFork(y, deploy, prev, c, m, cut, seen, fork);
    DowntimeExact(x, base, deploy, prev, c, m, cut, seen, fork, unwindSucceeds, more, b);
    MisledCheckpoint(y, deploy, prev, c, m, cut, seen, fork);
    NothingBelow(deploy, prev, c, seen, fork, unwindSucceeds);
  }

  lemma StaleFork(x: Executor, deploy: nat, prev: Chain, c: Chain, a: Memory, cut: int, b: Memory, fork: int)
    requires FetchedAbove(x, deploy, prev, c, a, cut, b) && LeastStale(b.history, c, fork)
    ensures fork <= a.last
  {
    hide FetchedAbove;
    StaleMeansBroken(x, deploy, prev, c, a, cut, b, fork);
  }

  lemma MisledCheckpoint(x: Executor, deploy: nat, prev: Chain, c: Chain, a: Memory, cut: int, b: Memory, fork: int)
    requires FetchedAbove(x, deploy, prev, c, a, cut, b) && fork <= a.last
    ensures var found := CheckpointBefore(b.checkpoints, fork);
            found.Some? ==> 0 <= found.value.l2Block < |b.view.l2| && found.value.l1Block <= |prev|
  {
    hide FetchedAbove, ReplayOn;
    var found := CheckpointBefore(b.checkpoints, fork);
    if found.Some? {
      KeptView(x, deploy, prev, c, a, cut, b, found.value);
    }
  }

  /** What the first poll after a restart leads to. */
  lemma RestartedPoll(x: Executor, base: Ground, deploy: nat, prev: Chain, c: Chain, m: Memory, cut: int, seen: Memory,
                      unwindSucceeds: bool, more: int, b: Memory)
    requires Knows(Based(x, base), deploy, prev, m) && HashChained(prev, c) && WellKept(deploy, seen) && m.view.l2 != []
    requires CaughtUp(x, c, StartOf(x, deploy, m), cut, seen)
    requires CaughtUp(x, c, Unwinds(x, deploy, seen, c, unwindSucceeds), more, b)
    ensures var stands: Ground := if Drops(x, deploy, m) then m.view.l2 else base;
            var after := AfterPoll(x, deploy, State(seen, stands), c, unwindSucceeds);
            && (Drops(x, deploy, m) ==>
                  && Knows(Based(x, after.base), deploy, c, b)
                  && after.base == if |c| >= deploy then m.view.l2 else x.genesis)
            && (!Drops(x, deploy, m) ==>
                  if Followed(deploy, prev, c, seen, unwindSucceeds)
                  then Knows(Based(x, after.base), deploy, c, b) && b.Oldest() <= Max(m.Oldest(), |c| - MAX_REORG_HISTORY)
                  else WrongAfter(x, base, deploy, prev, c, seen, b.view))
    ensures !Drops(x, deploy, m) && |c| > Max(|prev|, deploy) ==>
              (ForkSeen(seen, c).Some? <==> !Unbroken(deploy, prev, c) && |c| - |prev| < 8)
  {
    KnowsWindow(Based(x, base), deploy, prev, m);
    hide Knows, HashChained, WellKept, CaughtUp, Drops, Based, Forgotten, AfterPoll;
    hide Followed, WrongAfter, Unbroken, Unwinds, ForkSeen;
    if Drops(x, deploy, m) {
      StartsOver(x, deploy, m.view.l2, c, cut, seen);
      SelfPoll(x, m.view.l2, deploy, c, seen, unwindSucceeds, more, b);
    } else if |c| <= Max(|prev|, deploy) {
      NothingFetched(x, c, m, cut, seen);
      PollExact(x, base, deploy, prev, c, m, unwindSucceeds, more, b);
      MisledIsWrong(x, base, deploy, prev, c, m, b);
    } else if Unbroken(deploy, prev, c) {
      BasedCaughtUp(x, base, c, m, cut, seen);
      GoesOn(Based(x, base), deploy, prev, c, m, cut, seen);
      SelfPoll(x, base, deploy, c, seen, unwindSucceeds, more, b);
      NothingSeen(Based(x, base), deploy, prev, c, seen, unwindSucceeds);
    } else {
      BasedCaughtUp(x, base, c, m, cut, seen);
      IsFetchedAbove(Based(x, base), deploy, prev, c, m, cut, seen);
      MixedHashes(Based(x, base), deploy, prev, c, m, cut, seen);
      BrokenPoll(x, base, deploy, prev, c, m, cut, seen, unwindSucceeds, more, b);
    }
  }

  lemma MisledIsWrong(x: Executor, base: Ground, deploy: nat, prev: Chain, c: Chain, m: Memory, b: Memory)
    ensures ForkSeen(m, c).Some? && Misled(x, base, deploy, prev, c, m, ForkSeen(m, c).value, b.view) ==>
              WrongAfter(x, base, deploy, prev, c, m, b.view)
  {
  }

  /** Nothing is noticed by a node that knows the chain already. */
  lemma NothingSeen(x: Executor, deploy: nat, prev: Chain, c: Chain, seen: Memory, unwindSucceeds: bool)
    requires Knows(x, deploy, c, seen) && Unbroken(deploy, prev, c) && |c| > deploy
    ensures ForkSeen(seen, c).None? && Followed(deploy, prev, c, seen, unwindSucceeds)
  {
    KnowsWindow(x, deploy, c, seen);
    hide Knows;
  }

  lemma SelfPoll(x: Executor, base: Ground, deploy: nat, c: Chain, m: Memory, unwindSucceeds: bool, cut: int, b: Memory)
    requires Knows(Based(x, base), deploy, c, m) && WellKept(deploy, m)
    requires CaughtUp(x, c, Unwinds(x, deploy, m, c, unwindSucceeds), cut, b)
    ensures Knows(Based(x, AfterPoll(x, deploy, State(m, base), c, unwindSucceeds).base), deploy, c, b)
    ensures b.Oldest() <= Max(m.Oldest(), |c| - MAX_REORG_HISTORY)
    ensures AfterPoll(x, deploy, State(m, base), c, unwindSucceeds).base == if |c| >= deploy then base else x.genesis
  {
    SelfBase(x, base, deploy, c, m, unwindSucceeds);
    hide Knows, WellKept, CaughtUp, Based, AfterPoll, Followed, Unwinds, ForkSeen, HashChained, Misled;
    assert HashChained(c, c) by { OwnChain(c); }
    SelfFollowed(Based(x, base), deploy, c, m, unwindSucceeds);
    PollExact(x, base, deploy, c, c, m, unwindSucceeds, cut, b);
  }

  lemma SelfBase(x: Executor, base: Ground, deploy: nat, c: Chain, m: Memory, unwindSucceeds: bool)
    requires Knows(Based(x, base), deploy, c, m) && WellKept(deploy, m)
    ensures AfterPoll(x, deploy, State(m, base), c, unwindSucceeds).base == if |c| >= deploy then base else x.genesis
  {
    KnowsWindow(Based(x, base), deploy, c, m);
    if |c| <= deploy {
      NoCheckpoints(Based(x, base), deploy, c, m);
    }
    hide Knows, WellKept, Caught, RolledBack, Based;
  }

  lemma OwnChain(c: Chain)
    ensures HashChained(c, c)
  {
  }

  /** A restart and the first poll after it, exactly.

      The process resumes if the L2 chain reports the saved root.  It then fetches before it looks back, so a
      reorg during downtime goes unnoticed once 8 blocks came on top of the last block
      processed: it keeps the state of blocks that L1 has dropped.

      Otherwise it drops what was saved and replays every block on the L2 chain it finds: it knows L1, on
      top of that chain, or on genesis if L1 has not reached the deployment block and the poll wipes it. */
  method FollowRestart(node: Node, ghost base: Ground, ghost prev: Chain, c: Chain, unwindSucceeds: bool)
    requires node.SyncedOn(base, prev) && WellFormed(c) && HashChained(prev, c)
    modifies node
    ensures var (x, deploy, m) := (node.x, node.deploy, old(node.Mem()));
            var seen := Resumed(x, deploy, State(m, base), c);
            var after := AfterPoll(x, deploy, seen, c, unwindSucceeds);
            && node.Mem() == after.memory
            && (Drops(x, deploy, m) ==>
                  node.SyncedOn(after.base, c) && after.base == if |c| >= deploy then m.view.l2 else x.genesis)
            && (!Drops(x, deploy, m) ==>
                  seen.base == base &&
                  if Followed(deploy, prev, c, seen.memory, unwindSucceeds)
                  then node.SyncedOn(after.base, c) && node.Mem().Oldest() <= Max(m.Oldest(), |c| - MAX_REORG_HISTORY)
                  else WrongAfter(x, base, deploy, prev, c, seen.memory, node.Tracked()))
            && (!Drops(x, deploy, m) && |c| > Max(|prev|, deploy) ==>
                  (ForkSeen(seen.memory, c).Some? <==> !Unbroken(deploy, prev, c) && |c| - |prev| < 8))
  {
    hide Knows, HashChained, WellFormed, WellKept, CaughtUp, Followed, WrongAfter, ForkSeen, Caught, Unbroken;
    hide Unwinds, OneStaleRun, Based, Node.Saved, Drops, Forgotten;
    ghost var m, x, deploy := node.Mem(), node.x, node.deploy;
    StartShape(x, base, deploy, prev, m);
    ghost var cut := RestartOnce(node, base, prev, c);
    ghost var seen := node.Mem();
    SeenShape(x, base, deploy, prev, c, m, cut, seen);
    ghost var more := PollOnce(node, c, unwindSucceeds);
    RestartedPoll(x, base, deploy, prev, c, m, cut, seen, unwindSucceeds, more, node.Mem());
  }

  // ---------- Runs ----------

  /** What happens next: a poll, or a restart together with the first poll after it, each
      against the L1 chain of that moment. */
  datatype Input = Polled(chain: Chain, unwindSucceeds: bool) | Restarted(chain: Chain, unwindSucceeds: bool)

  /** What a node knows when it looks back in this step. */
  function Looking(x: Executor, deploy: nat, s: State, input: Input): State {
    if input.Restarted? then Resumed(x, deploy, s, input.chain) else s
  }

  ghost function After(x: Executor, deploy: nat, s: State, input: Input): State {
    AfterPoll(x, deploy, Looking(x, deploy, s, input), input.chain, input.unwindSucceeds)
  }

  /** The condition under which a step is followed. */
  ghost predicate Follows(x: Executor, deploy: nat, prev: Chain, s: State, input: Input) {
    && WellFormed(input.chain) && HashChained(prev, input.chain)
    && ((input.Restarted? && Drops(x, deploy, s.memory))
        || Followed(deploy, prev, input.chain, Looking(x, deploy, s, input).memory, input.unwindSucceeds))
  }

  /** It is met if the fork is not below the oldest hash stored when the node looks back, and a restart
      after a reorg finds fewer than 8 blocks on top. */
  lemma FollowsInWindow(x: Executor, deploy: nat, prev: Chain, s: State, input: Input)
    requires Knows(Based(x, s.base), deploy, prev, s.memory)
    requires WellFormed(input.chain) && HashChained(prev, input.chain)
    requires var (c, oldest) := (input.chain, Looking(x, deploy, s, input).memory.Oldest());
             || Unbroken(deploy, prev, c)
             || (input.Restarted? && Drops(x, deploy, s.memory))
             || ((oldest <= deploy || Agree(prev, c, oldest))
                 && (input.Restarted? && |c| > Max(|prev|, deploy) ==> |c| - |prev| < 8))
    ensures Follows(x, deploy, prev, s, input)
  {
    var (c, m, y) := (input.chain, s.memory, Based(x, s.base));
    KnowsWindow(y, deploy, prev, m);
    hide Knows, WellFormed, HashChained, Agree, Unbroken, Followed, Drops, Forgotten, Based;
    if input.Polled? {
      SoundPoll(y, deploy, prev, c, m, input.unwindSucceeds);
    } else if !Drops(x, deploy, m) {
      var seen := Caught(x, c, m);
      var cut := CaughtHolds(x, deploy, c, m);
      hide CaughtUp, Caught;
      if |c| <= Max(|prev|, deploy) {
        NothingFetched(x, c, m, cut, seen);
        SoundPoll(y, deploy, prev, c, m, input.unwindSucceeds);
      } else {
        BasedCaughtUp(x, s.base, c, m, cut, seen);
        SoundRestart(y, deploy, prev, c, m, cut, seen, input.unwindSucceeds);
      }
    }
  }

  lemma SoundPoll(x: Executor, deploy: nat, prev: Chain, c: Chain, m: Memory, unwindSucceeds: bool)
    requires Knows(x, deploy, prev, m) && HashChained(prev, c)
    requires Unbroken(deploy, prev, c) || m.Oldest() <= deploy || Agree(prev, c, m.Oldest())
    ensures Followed(deploy, prev, c, m, unwindSucceeds)
  {
    KnowsWindow(x, deploy, prev, m);
    hide Knows, HashChained, Followed;
    if |prev| > deploy && Agree(prev, c, |prev|) {
      AgreeBelow(prev, c, m.Oldest(), |prev|);
    }
    InWindow(x, deploy, prev, c, m, unwindSucceeds);
  }

  lemma SoundRestart(x: Executor, deploy: nat, prev: Chain, c: Chain, m: Memory, cut: int, seen: Memory, unwindSucceeds: bool)
    requires Knows(x, deploy, prev, m) && HashChained(prev, c) && |c| > Max(|prev|, deploy) && CaughtUp(x, c, m, cut, seen)
    requires || Unbroken(deploy, prev, c)
             || ((seen.Oldest() <= deploy || Agree(prev, c, seen.Oldest())) && |c| - |prev| < 8)
    ensures Followed(deploy, prev, c, seen, unwindSucceeds)
  {
    hide Knows, HashChained, CaughtUp, Recovers, Agree;
    if Unbroken(deploy, prev, c) {
      GoesOn(x, deploy, prev, c, m, cut, seen);
      NothingSeen(x, deploy, prev, c, seen, unwindSucceeds);
    } else {
      IsFetchedAbove(x, deploy, prev, c, m, cut, seen);
      hide FetchedAbove, Unbroken, LeastStale;
      DowntimeDetection(x, deploy, prev, c, m, cut, seen);
      HasLeastStale(seen.history, c);
      DowntimeForkInWindow(x, deploy, prev, c, m, cut, seen, ForkSeen(seen, c).value, unwindSucceeds);
    }
  }

  /** One step of a run. */
  method FollowStep(node: Node, ghost s: State, ghost prev: Chain, input: Input)
    requires node.SyncedOn(s.base, prev) && node.Mem() == s.memory && Follows(node.x, node.deploy, prev, s, input)
    modifies node
    ensures node.SyncedOn(After(node.x, node.deploy, s, input).base, input.chain)
    ensures node.Mem() == After(node.x, node.deploy, s, input).memory
  {
    hide Node.SyncedOn, HashChained, WellFormed, Followed, WrongAfter, ForkSeen, Unbroken, AfterPoll, Resumed, Misled, LeastStale;
    match input {
      case Polled(c, unwindSucceeds) =>
        FollowPoll(node, s.base, prev, c, unwindSucceeds);
      case Restarted(c, unwindSucceeds) =>
        FollowRestart(node, s.base, prev, c, unwindSucceeds);
    }
  }

  /** The chain the node followed before step `i`, and its state then. */
  function ChainBefore(inputs: seq<Input>, i: nat): Chain
    requires i <= |inputs|
  {
    if i == 0 then [] else inputs[i - 1].chain
  }

  ghost function StateBefore(x: Executor, deploy: nat, inputs: seq<Input>, i: nat): State
    requires i <= |inputs|
  {
    if i == 0 then State(FreshMemory(x, deploy), x.genesis)
    else After(x, deploy, StateBefore(x, deploy, inputs, i - 1), inputs[i - 1])
  }

  ghost predicate FollowedRun(x: Executor, deploy: nat, inputs: seq<Input>) {
    forall i :: 0 <= i < |inputs| ==>
      Follows(x, deploy, ChainBefore(inputs, i), StateBefore(x, deploy, inputs, i), inputs[i])
  }

  lemma RunStart(x: Executor, deploy: nat, inputs: seq<Input>)
    ensures ChainBefore(inputs, 0) == [] && StateBefore(x, deploy, inputs, 0) == State(FreshMemory(x, deploy), x.genesis)
  {
  }

  lemma RunStep(x: Executor, deploy: nat, inputs: seq<Input>, i: nat)
    requires FollowedRun(x, deploy, inputs) && i < |inputs|
    ensures Follows(x, deploy, ChainBefore(inputs, i), StateBefore(x, deploy, inputs, i), inputs[i])
    ensures ChainBefore(inputs, i + 1) == inputs[i].chain
    ensures StateBefore(x, deploy, inputs, i + 1) == After(x, deploy, StateBefore(x, deploy, inputs, i), inputs[i])
  {
  }

  lemma StepView(node: Node, base: Ground, c: Chain)
    requires node.SyncedOn(base, c) && WellFormed(c)
    ensures node.Tracked() == Replay(Based(node.x, base), c, node.deploy)
    ensures Skips(node.x) && Harmless(node.x, base, node.deploy, c) ==> node.Tracked() == Replay(node.x, c, node.deploy)
  {
    hide Replay, Harmless, Skips, WellFormed, Based;
    SyncedView(Based(node.x, base), node.deploy, c, node.Mem());
    hide Node.SyncedOn;
    if Skips(node.x) && Harmless(node.x, base, node.deploy, c) {
      ForgettingHarmless(node.x, base, node.deploy, c);
    }
  }

  /** Over every run that is followed, after every step, the tracked root and the L2 chain are those of one
      replay of the current L1 chain from the deployment block, on top of the L2 chain that the last
      restart had to start over on.  That is the replay from genesis if this chain is harmless. */
  method Follow(x: Executor, deploy: nat, inputs: seq<Input>) returns (views: seq<View>)
    requires FollowedRun(x, deploy, inputs)
    ensures |views| == |inputs|
    ensures forall i :: 0 <= i < |inputs| ==>
              views[i] == Replay(Based(x, StateBefore(x, deploy, inputs, i + 1).base), inputs[i].chain, deploy)
    ensures forall i :: 0 <= i < |inputs| ==>
              Skips(x) && Harmless(x, StateBefore(x, deploy, inputs, i + 1).base, deploy, inputs[i].chain) ==>
                views[i] == Replay(x, inputs[i].chain, deploy)
  {
    hide FollowedRun, Follows, After, ChainBefore, StateBefore, Node.SyncedOn, Replay, Skips, Harmless, Based;
    RunStart(x, deploy, inputs);
    var node := StartNode(x, deploy);
    views := [];
    for i := 0 to |inputs|
      invariant node.x == x && node.deploy == deploy
      invariant node.SyncedOn(StateBefore(x, deploy, inputs, i).base, ChainBefore(inputs, i))
      invariant node.Mem() == StateBefore(x, deploy, inputs, i).memory
      invariant |views| == i
      invariant forall j :: 0 <= j < i ==>
                  views[j] == Replay(Based(x, StateBefore(x, deploy, inputs, j + 1).base), inputs[j].chain, deploy)
      invariant forall j :: 0 <= j < i ==>
                  Skips(x) && Harmless(x, StateBefore(x, deploy, inputs, j + 1).base, deploy, inputs[j].chain) ==>
                    views[j] == Replay(x, inputs[j].chain, deploy)
    {
      RunStep(x, deploy, inputs, i);
      FollowStep(node, StateBefore(x, deploy, inputs, i), ChainBefore(inputs, i), inputs[i]);
      StepView(node, StateBefore(x, deploy, inputs, i + 1).base, inputs[i].chain);
      views := views + [node.Tracked()];
    }
  }

  method StartNode(x: Executor, deploy: nat) returns (node: Node)
    ensures fresh(node) && node.x == x && node.deploy == deploy
    ensures node.SyncedOn(x.genesis, []) && node.Mem() == FreshMemory(x, deploy)
  {
    node := new Node(x, deploy);
    FreshStart(node);
  }

  lemma FreshStart(node: Node)
    requires node.Mem() == FreshMemory(node.x, node.deploy) && node.disk == None
    ensures node.SyncedOn(node.x.genesis, [])
  {
    OwnBase(node.x);
  }
}
