/** Where following L1 fails, and where it barely does not: the node's own methods on concrete chains. */
module NodeLimits {
  import opened EventReplay
  import opened NodeHistory
  import opened Wrappers
  import opened Recovery
  import opened FullNode
  import opened NodeSteps
  import opened NodeRuns

  function Last(l2: seq<string>): string {
    if l2 == [] then "" else l2[|l2| - 1]
  }

  /** An L2 whose blocks are named by the root they lead to. */
  const NAMED: Executor := Executor(["I"], "I",
                                    (l2, e: Event) => if Last(l2) == e.newState then [] else [e.newState],
                                    (l2, b: seq<Event>) => if b == [] then [] else [b[|b| - 1].newState],
                                    l2 => Last(l2))

  function EmptyBlocks(hash: string, n: nat): Chain {
    seq(n, i => L1Block(hash, []))
  }

  lemma EmptyReplay(v: View, c: Chain, from: nat)
    requires from <= |c| && forall k :: from <= k < |c| ==> c[k].events == []
    ensures ReplayOn(NAMED, v, c, from, |c|) == v
    ensures NewCheckpoints(NAMED, v, c, from, |c|) == []
  {
    SkipEmpty(NAMED, v, c, from, from, |c|, |c|);
  }

  lemma OneEvent(v: View, e: Event)
    ensures ApplyEvents(NAMED, v, [e]) == ApplyOne(NAMED, v, e)
  {
    var evs := [e];
    assert evs[1..] == [] && evs[..1] == evs;
    assert e.Performed? ==> RunLength(evs, e.block) == 1;
    assert StepLength(evs) == 1;
    assert ApplyAll(NAMED, ApplyOne(NAMED, v, e), evs[1..]) == ApplyOne(NAMED, v, e);
  }

  lemma OneBlock(v: View, c: Chain, from: nat, n: nat, e: Event)
    requires from <= n < |c| && c[n].events == [e]
    ensures ReplayOn(NAMED, v, c, from, n + 1) == ApplyOne(NAMED, ReplayOn(NAMED, v, c, from, n), e)
  {
    OneEvent(ReplayOn(NAMED, v, c, from, n), e);
  }

  /** A node that has followed `c` from the start. */
  method StartOn(c: Chain) returns (node: Node)
    requires WellFormed(c) && c != []
    ensures fresh(node) && node.x == NAMED && node.deploy == 0 && node.SyncedTo(c)
    ensures exists cut :: Fetched(NAMED, c, FreshMemory(NAMED, 0), cut, node.Mem())
  {
    hide Knows, KnowsBelow, Trimmed, NewCheckpoints, Newest, ReplayOn, WellFormed, CaughtUp, RolledBack;
    node := new Node(NAMED, 0);
    FreshKept();
    ghost var fork, cut := node.Poll(c, true);
    FreshKnows(NAMED, 0, c);
    FetchCompletes(NAMED, 0, c, FreshMemory(NAMED, 0), cut, node.Mem());
  }

  lemma FreshKept()
    ensures WellKept(0, FreshMemory(NAMED, 0)) && OneStaleRun(map[], [])
  {
  }

  // ---------- A fork below the hash window ----------

  /** Blocks 1 and 2 of the first chain post roots "A" and "B"; the second chain replaces
      everything from block 1 on. */
  function Posted(): Chain {
    [L1Block("0", []), L1Block("a", [StateUpdated(1, 0, "A")]), L1Block("a", [StateUpdated(2, 0, "B")])]
    + EmptyBlocks("a", 197)
  }

  function Replaced(): Chain {
    [L1Block("0", [])] + EmptyBlocks("c", 199)
  }

  lemma PostedBlocks()
    ensures var c := Posted();
            && |c| == 200 && c[0].events == []
            && c[1].events == [StateUpdated(1, 0, "A")] && c[2].events == [StateUpdated(2, 0, "B")]
            && forall k :: 3 <= k < 200 ==> c[k].events == []
  {
    forall k | 3 <= k < 200 ensures Posted()[k].events == [] {
      assert Posted()[k] == EmptyBlocks("a", 197)[k - 3];
    }
  }

  lemma Updated(v: View, n: nat, root: string)
    ensures ApplyOne(NAMED, v, StateUpdated(n, 0, root)) == View(root, v.l2)
  {
  }

  lemma PostedReplay()
    ensures var c := Posted();
            && |c| == 200 && Replay(NAMED, c, 0) == View("B", ["I"])
            && NewCheckpoints(NAMED, Initial(NAMED), c, 0, 200) == [Checkpoint(1, 0, "I"), Checkpoint(2, 0, "A")]
  {
    hide ReplayOn, NewCheckpoints, Posted, ApplyOne;
    PostedBlocks();
    var c, v := Posted(), Initial(NAMED);
    NothingReplayed(v, c, 0);
    SkipEmpty(NAMED, v, c, 0, 0, 1, 1);
    OneBlock(v, c, 0, 1, StateUpdated(1, 0, "A"));
    Updated(v, 1, "A");
    OneBlock(v, c, 0, 2, StateUpdated(2, 0, "B"));
    Updated(View("A", ["I"]), 2, "B");
    ReplaySplits(NAMED, v, c, 0, 3, 200);
    EmptyReplay(View("B", ["I"]), c, 3);
    PostedCheckpoints();
  }

  lemma PostedCheckpoints()
    requires ReplayOn(NAMED, Initial(NAMED), Posted(), 0, 1) == View("I", ["I"])
    requires |Posted()| == 200
    requires ReplayOn(NAMED, Initial(NAMED), Posted(), 0, 2) == View("A", ["I"])
    requires ReplayOn(NAMED, Initial(NAMED), Posted(), 0, 3) == View("B", ["I"])
    ensures NewCheckpoints(NAMED, Initial(NAMED), Posted(), 0, 200) == [Checkpoint(1, 0, "I"), Checkpoint(2, 0, "A")]
  {
    hide ReplayOn, NewCheckpoints, Posted;
    PostedBlocks();
    var c, v := Posted(), Initial(NAMED);
    NewCheckpointsSplit(NAMED, v, c, 0, 3, 200);
    EmptyReplay(View("B", ["I"]), c, 3);
    NewCheckpointsStep(NAMED, v, c, 0, 2);
    NewCheckpointsStep(NAMED, v, c, 0, 1);
    NewCheckpointsStep(NAMED, v, c, 0, 0);
    NoNewCheckpoints(NAMED, v, c, 0);
  }

  lemma NothingReplayed(v: View, c: Chain, n: nat)
    requires n <= |c|
    ensures ReplayOn(NAMED, v, c, n, n) == v
  {
  }

  lemma BothWellFormed()
    ensures WellFormed(Posted()) && WellFormed(Replaced())
  {
    var c, d := Posted(), Replaced();
    forall n | 0 <= n < |c| ensures BlockEvents(c[n], n) {
      if n > 2 { assert c[n] == EmptyBlocks("a", 197)[n - 3]; }
    }
    forall n | 0 <= n < |d| ensures BlockEvents(d[n], n) {
      if n > 0 { assert d[n] == EmptyBlocks("c", 199)[n - 1]; }
    }
  }

  lemma ReplacedFromOne()
    ensures |Posted()| == |Replaced()| == 200 && Replaced()[0] == Posted()[0] == L1Block("0", [])
    ensures forall k :: 1 <= k < 200 ==> Replaced()[k] == L1Block("c", []) && Posted()[k].hash == "a"
  {
    var c, d := Posted(), Replaced();
    forall k | 1 <= k < 200 ensures d[k] == L1Block("c", []) && c[k].hash == "a" {
      assert d[k] == EmptyBlocks("c", 199)[k - 1];
      if k > 2 { assert c[k] == EmptyBlocks("a", 197)[k - 3]; }
    }
  }

  lemma ReplacedChained()
    ensures HashChained(Posted(), Replaced()) && !SameEvents(Posted(), Replaced(), 0, 2)
  {
    hide Posted, Replaced;
    ReplacedFromOne();
    assert Posted()[..1] == [Posted()[0]] == Replaced()[..1];
    PostedBlocks();
    assert Posted()[1].events != Replaced()[1].events;
  }

  lemma NoHashes(h: History)
    requires forall k :: k !in h
    ensures |h| == 0
  {
    assert forall k :: k in h.Keys ==> k in h;
    Inhabited(h.Keys);
    assert |h| == |h.Keys|;
  }

  /** Of 200 blocks the hashes of the last 128 are kept. */
  lemma PostedHistory(m: Memory, cut: int)
    requires Fetched(NAMED, Posted(), FreshMemory(NAMED, 0), cut, m)
    ensures Window(m.history, 72, 199)
    ensures m.checkpoints == [Checkpoint(1, 0, "I"), Checkpoint(2, 0, "A")] && m.view == View("B", ["I"])
  {
    hide Posted, NewCheckpoints, ReplayOn;
    PostedReplay();
    assert StartRecording(0, Posted()) == 0;
    var lo := if cut < 0 then 0 else cut;
    assert |m.history| > 0 || lo == 200 || cut > 199;
    if lo <= 199 {
      WindowSize(m.history, lo, 199);
    } else {
      NoHashes(m.history);
    }
    var added := [Checkpoint(1, 0, "I"), Checkpoint(2, 0, "A")];
    assert [] + added == added;
  }

  lemma DeepForkOutcome(m: Memory, cut: int, fork: Option<int>, view: View)
    requires Knows(NAMED, 0, Posted(), m) && Fetched(NAMED, Posted(), FreshMemory(NAMED, 0), cut, m)
    requires fork.Some? <==> !HashesOf(m.history, Replaced()) || |Replaced()| <= m.last
    requires fork.Some? ==> LeastStale(m.history, Replaced(), fork.value) || (m.history == map[] && fork.value == |Replaced()|)
    requires fork.Some? && !Recovers(0, Posted(), Replaced(), m, fork.value, true) ==>
               Misled(NAMED, ["I"], 0, Posted(), Replaced(), m, fork.value, view)
    ensures view == View("A", ["I"]) && Replay(NAMED, Replaced(), 0) == View("I", ["I"])
  {
    KnowsWindow(NAMED, 0, Posted(), m);
    hide *;
    PostedHistory(m, cut);
    Bottomed(m, fork);
    MisledView(m, view);
    ReplacedEnds();
  }

  lemma MisledView(m: Memory, view: View)
    requires Misled(NAMED, ["I"], 0, Posted(), Replaced(), m, 72, view)
    requires CheckpointBefore(m.checkpoints, 72) == Some(Checkpoint(2, 0, "A")) && m.view.l2 == ["I"]
    ensures view == ReplayOn(NAMED, View("A", ["I"]), Replaced(), 2, |Replaced()|)
  {
    hide Posted, Replaced, ReplayOn;
    ReplacedFromOne();
    assert ["I"][..1] == ["I"];
  }

  lemma ReplacedEnds()
    ensures |Replaced()| == 200 && ReplayOn(NAMED, View("A", ["I"]), Replaced(), 2, |Replaced()|) == View("A", ["I"])
    ensures Replay(NAMED, Replaced(), 0) == View("I", ["I"])
  {
    hide Posted, Replaced, ReplayOn, NewCheckpoints;
    ReplacedFromOne();
    var d := Replaced();
    assert forall k :: 0 <= k < |d| ==> d[k].events == [];
    EmptyReplay(View("A", ["I"]), d, 2);
    EmptyReplay(Initial(NAMED), d, 0);
  }

  /** The search bottoms out at the oldest stored hash, the checkpoint below it was taken on replaced blocks,
      and recovery ends at a root that the new chain never had. */
  method DeepForkGoesWrong() returns (view: View)
    ensures view == View("A", ["I"]) && Replay(NAMED, Replaced(), 0) == View("I", ["I"])
  {
    hide Posted, Replaced, Knows, WellFormed, HashChained, LeastStale, ReplayOn, Fetched, Recovers, Misled, Node.Saved;
    hide HashesOf, Replay, Agree;
    BothWellFormed();
    ReplacedFromOne();
    ReplacedChained();
    var node := StartOn(Posted());
    ghost var m := node.Mem();
    ghost var cut :| Fetched(NAMED, Posted(), FreshMemory(NAMED, 0), cut, m);
    OwnBase(NAMED);
    FollowPoll(node, ["I"], Posted(), Replaced(), true);
    view := node.Tracked();
    DeepForkOutcome(m, cut, ForkSeen(m, Replaced()), view);
  }

  lemma Bottomed(m: Memory, fork: Option<int>)
    requires Window(m.history, 72, 199)
    requires m.checkpoints == [Checkpoint(1, 0, "I"), Checkpoint(2, 0, "A")] && m.view == View("B", ["I"])
    requires HashesOf(m.history, Posted())
    requires fork.Some? <==> !HashesOf(m.history, Replaced()) || |Replaced()| <= m.last
    requires fork.Some? ==> LeastStale(m.history, Replaced(), fork.value) || (m.history == map[] && fork.value == |Replaced()|)
    ensures fork == Some(72) && CheckpointBefore(m.checkpoints, 72) == Some(Checkpoint(2, 0, "A"))
    ensures Unwound(m, 72) == View("A", ["I"])
    ensures !Recovers(0, Posted(), Replaced(), m, 72, true)
  {
    hide Posted, Replaced;
    ReplacedFromOne();
    ReplacedChained();
    assert !Canonical(m.history, Replaced(), 72);
    assert 72 in m.history;
    var cps := m.checkpoints;
    assert cps[..1] == [Checkpoint(1, 0, "I")] && cps[..1][..0] == [];
    assert CheckpointBefore(cps[..1], 72) == Some(Checkpoint(1, 0, "I"));
    assert ["I"][..1] == ["I"];
  }

  // ---------- A reorg during downtime ----------

  function Dropped(): Chain {
    [L1Block("a", [Performed(0, 0, "t", "I", "A")])]
  }

  lemma DroppedReplay()
    ensures Replay(NAMED, Dropped(), 0) == View("A", ["I", "A"]) && WellFormed(Dropped())
  {
    var e := Performed(0, 0, "t", "I", "A");
    NothingReplayed(Initial(NAMED), Dropped(), 0);
    OneBlock(Initial(NAMED), Dropped(), 0, 0, e);
    assert BlockEvents(Dropped()[0], 0);
  }

  lemma DroppedChained(n: nat)
    requires n > 0
    ensures var prev, c := Dropped(), EmptyBlocks("c", n);
            WellFormed(c) && HashChained(prev, c) && !Unbroken(0, prev, c)
  {
    var prev, c := Dropped(), EmptyBlocks("c", n);
    assert prev[..1][0].hash == "a" && c[..1][0].hash == "c";
  }

  /** What a node that follows `prev` knows before a restart. */
  lemma BeforeRestart(node: Node, prev: Chain)
    requires node.x == NAMED && node.deploy == 0 && node.SyncedTo(prev) && prev != []
    ensures node.SyncedOn(["I"], prev) && node.Mem().view == Replay(NAMED, prev, 0)
    ensures Drops(NAMED, 0, node.Mem()) <==> Last(Replay(NAMED, prev, 0).l2) != Replay(NAMED, prev, 0).root
    ensures Replay(Based(NAMED, ["I"]), prev, 0) == Replay(NAMED, prev, 0)
  {
    OwnBase(NAMED);
    KnowsWindow(NAMED, 0, prev, node.Mem());
  }

  /** Eight empty blocks on top of a block that replaced the one the node had processed: the node resumes,
      notices nothing, and keeps a root and an L2 block that L1 has dropped. */
  method DowntimeReorgGoesWrong() returns (view: View)
    ensures view == View("A", ["I", "A"]) && Replay(NAMED, EmptyBlocks("c", 9), 0) == View("I", ["I"])
  {
    hide Dropped, ReplayOn, NewCheckpoints, WellFormed, HashChained, Unbroken, Knows, Drops, ForkSeen, Caught, AfterPoll;
    hide Node.SyncedOn, Node.SyncedTo, Based, Misled;
    var c := EmptyBlocks("c", 9);
    DroppedReplay();
    DroppedChained(9);
    NotEmptyChain();
    var node := StartOn(Dropped());
    BeforeRestart(node, Dropped());
    FollowRestart(node, ["I"], Dropped(), c, true);
    EmptyReplay(View("A", ["I", "A"]), c, 1);
    EmptyReplay(Initial(NAMED), c, 0);
    view := node.Tracked();
  }

  /** With one block less on top the first poll notices, and the node starts over: a root and an L2 chain
      that L1 never left. */
  method DowntimeReorgNoticed() returns (view: View)
    ensures view == View("I", ["I"]) == Replay(NAMED, EmptyBlocks("c", 8), 0)
  {
    hide Dropped, ReplayOn, NewCheckpoints, WellFormed, HashChained, Unbroken, Knows, Drops, ForkSeen, Caught, AfterPoll;
    hide Node.SyncedTo, Based, Misled, Followed, Node.Saved, WrongAfter;
    var c := EmptyBlocks("c", 8);
    DroppedReplay();
    DroppedChained(8);
    NotEmptyChain();
    EmptyReplay(Initial(NAMED), c, 0);
    var node := StartOn(Dropped());
    BeforeRestart(node, Dropped());
    SevenOnTop(node.Mem());
    FollowRestart(node, ["I"], Dropped(), c, true);
    view := node.Tracked();
    KeptAnd(node, ["I"], c);
  }

  /** Every hash is still there when the node first looks back, so it recovers. */
  lemma SevenOnTop(m: Memory)
    requires Knows(Based(NAMED, ["I"]), 0, Dropped(), m) && !Drops(NAMED, 0, m)
    ensures var (s, c) := (State(m, ["I"]), EmptyBlocks("c", 8));
            && Followed(0, Dropped(), c, Resumed(NAMED, 0, s, c).memory, true)
            && AfterPoll(NAMED, 0, Resumed(NAMED, 0, s, c), c, true).base == ["I"]
  {
    hide ReplayOn, NewCheckpoints, Newest, Caught, WellFormed, HashChained, Drops, Followed, Based, CheckpointsOk;
    var s, c := State(m, ["I"]), EmptyBlocks("c", 8);
    DroppedReplay();
    DroppedChained(8);
    NotEmptyChain();
    KnowsWindow(Based(NAMED, ["I"]), 0, Dropped(), m);
    assert m.Oldest() == 0;
    hide Knows;
    var cut := CaughtHolds(NAMED, 0, c, m);
    FetchedHashes(NAMED, c, m, cut, Caught(NAMED, c, m), 0);
    FollowsInWindow(NAMED, 0, Dropped(), s, Restarted(c, true));
  }

  lemma NotEmptyChain()
    ensures |Dropped()| == 1
  {
  }

  // ---------- A root that the L2 chain does not report ----------

  /** Two executions, and a correction of the root by the owner. */
  function Corrected(): Chain {
    [L1Block("a", [Performed(0, 0, "t", "I", "A")]), L1Block("b", [Performed(1, 0, "u", "A", "B")]),
     L1Block("c", [StateUpdated(2, 0, "D")])]
  }

  lemma CorrectedBlocks()
    ensures var c := Corrected();
            && |c| == 3 && c[0].events == [Performed(0, 0, "t", "I", "A")] && c[1].events == [Performed(1, 0, "u", "A", "B")]
            && c[2].events == [StateUpdated(2, 0, "D")] && WellFormed(c)
  {
    var c := Corrected();
    forall n | 0 <= n < |c| ensures BlockEvents(c[n], n) {
    }
  }

  lemma Executed(v: View, n: nat, tx: string, from: string, next: string)
    requires from != next && Last(v.l2) != next
    ensures ApplyOne(NAMED, v, Performed(n, 0, tx, from, next)) == View(next, v.l2 + [next])
  {
  }

  lemma CorrectedReplay(l2: seq<string>)
    requires l2 != [] && Last(l2) != "A"
    ensures WellFormed(Corrected()) && |Corrected()| == 3
    ensures ReplayOn(NAMED, View("I", l2), Corrected(), 0, 3) == View("D", l2 + ["A", "B"])
  {
    hide Corrected, ReplayOn, ApplyOne, WellFormed;
    CorrectedBlocks();
    var c, v := Corrected(), View("I", l2);
    NothingReplayed(v, c, 0);
    OneBlock(v, c, 0, 0, Performed(0, 0, "t", "I", "A"));
    Executed(v, 0, "t", "I", "A");
    OneBlock(v, c, 0, 1, Performed(1, 0, "u", "A", "B"));
    Executed(View("A", l2 + ["A"]), 1, "u", "A", "B");
    OneBlock(v, c, 0, 2, StateUpdated(2, 0, "D"));
    Updated(View("B", l2 + ["A"] + ["B"]), 2, "D");
    assert (l2 + ["A"]) + ["B"] == l2 + ["A", "B"];
  }

  lemma SameChained(c: Chain)
    ensures HashChained(c, c)
  {
  }

  /** Restarting on an unchanged chain at which the L2 chain reports another root. */
  method RestartOn(c: Chain) returns (view: View)
    requires WellFormed(c) && c != [] && Last(Replay(NAMED, c, 0).l2) != Replay(NAMED, c, 0).root
    ensures view == ReplayOn(NAMED, View("I", Replay(NAMED, c, 0).l2), c, 0, |c|)
  {
    hide ReplayOn, NewCheckpoints, WellFormed, HashChained, Unbroken, Knows, Drops, ForkSeen, Caught, AfterPoll, Misled;
    hide Node.SyncedOn, Node.SyncedTo, Based;
    SameChained(c);
    var node := StartOn(c);
    BeforeRestart(node, c);
    ghost var l2 := node.l2;
    FollowRestart(node, ["I"], c, c, true);
    view := node.Tracked();
    KeptAnd(node, l2, c);
  }

  lemma KeptAnd(node: Node, l2: Ground, c: Chain)
    requires node.x == NAMED && node.deploy == 0 && node.SyncedOn(l2, c)
    ensures node.Tracked() == ReplayOn(NAMED, View("I", l2), c, 0, |c|)
  {
    SyncedView(Based(NAMED, l2), 0, c, node.Mem());
    BasedReplay(NAMED, l2, View("I", l2), c, 0, |c|);
  }

  /** A restart on an unchanged L1 chain whose owner has corrected the root: the L2 chain reports the root of
      the last execution, the saved state is dropped, and both executions are mined a second time. */
  method DiscardGoesWrong() returns (view: View)
    ensures view == View("D", ["I", "A", "B", "A", "B"])
    ensures Replay(NAMED, Corrected(), 0) == View("D", ["I", "A", "B"])
  {
    hide Corrected, ReplayOn, WellFormed;
    CorrectedReplay(["I"]);
    CorrectedReplay(["I", "A", "B"]);
    assert ["I"] + ["A", "B"] == ["I", "A", "B"];
    assert ["I", "A", "B"] + ["A", "B"] == ["I", "A", "B", "A", "B"];
    view := RestartOn(Corrected());
  }

  /** One execution and a correction. */
  function CorrectedOnce(): Chain {
    [L1Block("a", [Performed(0, 0, "t", "I", "A")]), L1Block("c", [StateUpdated(1, 0, "D")])]
  }

  lemma OnceReplay(l2: seq<string>)
    requires l2 == ["I"] || l2 == ["I", "A"]
    ensures WellFormed(CorrectedOnce()) && |CorrectedOnce()| == 2
    ensures ReplayOn(NAMED, View("I", l2), CorrectedOnce(), 0, 2) == View("D", ["I", "A"])
  {
    var c, v := CorrectedOnce(), View("I", l2);
    forall n | 0 <= n < |c| ensures BlockEvents(c[n], n) {
    }
    hide CorrectedOnce, ReplayOn, ApplyEvents, WellFormed;
    NothingReplayed(v, c, 0);
    OneBlock(v, c, 0, 0, Performed(0, 0, "t", "I", "A"));
    assert ApplyOne(NAMED, v, Performed(0, 0, "t", "I", "A")) == View("A", ["I", "A"]);
    OneBlock(v, c, 0, 1, StateUpdated(1, 0, "D"));
    Updated(View("A", ["I", "A"]), 1, "D");
  }

  /** With a single execution the same restart does no harm: the L2 chain already has its outcome. */
  method OneCallSurvives() returns (view: View)
    ensures view == Replay(NAMED, CorrectedOnce(), 0) == View("D", ["I", "A"])
  {
    hide CorrectedOnce, ReplayOn, WellFormed;
    OnceReplay(["I"]);
    OnceReplay(["I", "A"]);
    view := RestartOn(CorrectedOnce());
  }
}
