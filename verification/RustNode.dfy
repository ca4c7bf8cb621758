/** The ethrex-based full node's processing loop, and its agreement with the reth-based one. */
module RustNode {
  import opened EventReplay
  import opened ReplayCalls
  import opened WrongStarts
  import FullNode
  import Sorting

  lemma RestOfRun(evs: seq<Event>, n: nat)
    requires evs != [] && evs[0].Performed? && n == RunLength(evs, evs[0].block) && n > 1
    ensures |evs| > 1 && evs[1].Performed? && StepLength(evs[1..]) == n - 1
    ensures evs[1..][..n - 1] == evs[..n][1..] && evs[1..][n - 1..] == evs[n..]
  {
    var rest, block := evs[1..], evs[0].block;
    RunUnfold(evs, block);
    SliceTail(evs, n);
    hide RunLength;
    assert RunLength(rest, block) == n - 1;
    assert rest[0].Performed? && rest[0].block == block && rest[0] == evs[1];
  }

  lemma RunUnfold(evs: seq<Event>, block: nat)
    requires RunLength(evs, block) > 0
    ensures RunLength(evs, block) == 1 + RunLength(evs[1..], block)
  {
  }

  lemma SliceTail<T>(s: seq<T>, n: nat)
    requires 1 <= n <= |s|
    ensures s[1..][..n - 1] == s[..n][1..] && s[1..][n - 1..] == s[n..]
  {
  }

  lemma FewChangesLeft(x: Executor, v: View, g: seq<Event>)
    requires g != [] && |Changes(g)| <= 1
    ensures ApplyGroup(x, v, g) == ApplyAll(x, ApplyOne(x, v, g[0]), g[1..])
    ensures ApplyGroup(x, ApplyOne(x, v, g[0]), g[1..]) == ApplyAll(x, ApplyOne(x, v, g[0]), g[1..])
  {
    hide ApplyOne;
    assert |Changes(g[1..])| <= |Changes(g)|;
  }

  /** A group with at most one state change may be processed event by event. */
  lemma PeelSingle(x: Executor, v: View, evs: seq<Event>)
    requires evs != [] && evs[0].Performed?
    requires |Changes(evs[..RunLength(evs, evs[0].block)])| <= 1
    ensures ApplyEvents(x, v, evs) == ApplyEvents(x, ApplyOne(x, v, evs[0]), evs[1..])
  {
    hide ApplyGroup, ApplyAll, ApplyOne, Changes, RunLength;
    var n := RunLength(evs, evs[0].block);
    assert n == StepLength(evs) >= 1;
    var g := evs[..n];
    FewChangesLeft(x, v, g);
    var w := ApplyOne(x, v, evs[0]);
    if n > 1 {
      RestOfRun(evs, n);
      assert ApplyStep(x, w, evs[1..]) == ApplyGroup(x, w, g[1..]);
    } else {
      assert g[1..] == [];
      NoneLeft(x, w);
    }
  }

  lemma NoneLeft(x: Executor, v: View)
    ensures ApplyAll(x, v, []) == v
  {
  }

  class Processor {
    const x: Executor
    var trackedStateRoot: string
    var l2: seq<string>

    constructor (x: Executor)
      ensures this.x == x && Tracked() == Initial(x)
    {
      this.x := x;
      trackedStateRoot := x.initialRoot;
      l2 := x.genesis;
    }

    function Tracked(): View
      reads this
    {
      View(trackedStateRoot, l2)
    }

    /** The executions at position `i` and after that belong to the same L1 block. */
    method CollectBatch(events: seq<Event>, i: nat) returns (batch: seq<Event>)
      requires i < |events| && events[i].Performed?
      ensures batch == events[i..][..RunLength(events[i..], events[i].block)] && batch != []
    {
      batch := [events[i]];
      while i + |batch| < |events| && events[i + |batch|].Performed? && events[i + |batch|].block == events[i].block
        invariant 1 <= |batch| && i + |batch| <= |events| && batch == events[i..][..|batch|]
        invariant |batch| <= RunLength(events[i..], events[i].block)
        decreases |events| - |batch|
      {
        batch := batch + [events[i + |batch|]];
      }
      assert |batch| == RunLength(events[i..], events[i].block);
    }

    /** Two or more state changes: replay them together, then take over the accounting states. */
    method ProcessBatch(batch: seq<Event>)
      requires |Changes(batch)| > 1
      modifies this
      ensures Tracked() == ApplyGroup(x, old(Tracked()), batch)
    {
      var replayEvents := Changes(batch);
      l2 := l2 + x.batch(l2, replayEvents);
      trackedStateRoot := replayEvents[|replayEvents| - 1].newState;
      TakeAccounting(batch);
    }

    method TakeAccounting(batch: seq<Event>)
      modifies this`trackedStateRoot
      ensures Tracked() == ApplyAll(x, old(Tracked()), Accounting(batch))
    {
      hide ApplyAll, Accounting;
      var k := 0;
      AccountingDone(x, Tracked(), batch);
      while k < |batch|
        invariant 0 <= k <= |batch|
        invariant ApplyAll(x, Tracked(), Accounting(batch[k..])) == ApplyAll(x, old(Tracked()), Accounting(batch))
      {
        FullNode.AccountingFrom(x, Tracked(), batch, k);
        if !(batch[k].Performed? && batch[k].currentState != batch[k].newState) {
          trackedStateRoot := batch[k].newState;
        }
        k := k + 1;
      }
      AccountingDone(x, Tracked(), batch);
    }

    method ProcessSingle(e: Event)
      modifies this
      ensures Tracked() == ApplyOne(x, old(Tracked()), e)
    {
      if e.Performed? && e.currentState != e.newState {
        l2 := l2 + x.single(l2, e);
      }
      trackedStateRoot := e.newState;
    }

    /** One poll cycle over the events that the watcher returned. */
    method ProcessCycle(events: seq<Event>) returns (processed: bool)
      modifies this
      ensures processed == (events != [])
      ensures Tracked() == ApplyEvents(x, old(Tracked()), events)
    {
      hide ApplyOne, ApplyGroup, ApplyEvents, Changes, RunLength;
      if events == [] {
        NothingLeft(x, Tracked(), events);
        return false;
      }
      var i := 0;
      while i < |events|
        invariant 0 <= i <= |events|
        invariant ApplyEvents(x, Tracked(), events[i..]) == ApplyEvents(x, old(Tracked()), events)
      {
        SliceAgain(events, i);
        if events[i].Performed? {
          var batch := CollectBatch(events, i);
          if |batch| > 1 && |Changes(batch)| > 1 {
            BatchStep(x, Tracked(), events, i, |batch|);
            ProcessBatch(batch);
            i := i + |batch|;
            continue;
          }
          FewChanges(batch);
          PeelSingle(x, Tracked(), events[i..]);
        } else {
          UpdateStep(x, Tracked(), events[i..]);
        }
        ProcessSingle(events[i]);
        i := i + 1;
      }
      NothingLeft(x, Tracked(), events);
      return true;
    }
  }

  lemma SliceAgain<T>(s: seq<T>, i: nat)
    requires i < |s|
    ensures s[i..] != [] && s[i..][0] == s[i] && s[i..][1..] == s[i + 1..]
  {
  }

  lemma AccountingDone(x: Executor, v: View, batch: seq<Event>)
    ensures batch[0..] == batch && ApplyAll(x, v, Accounting(batch[|batch|..])) == v
  {
  }

  lemma NothingLeft(x: Executor, v: View, events: seq<Event>)
    ensures ApplyEvents(x, v, events[|events|..]) == v
  {
  }

  lemma BatchStep(x: Executor, v: View, events: seq<Event>, i: nat, n: nat)
    requires i < |events| && events[i].Performed? && n == RunLength(events[i..], events[i].block)
    ensures i + n <= |events|
    ensures ApplyEvents(x, v, events[i..]) == ApplyEvents(x, ApplyGroup(x, v, events[i..][..n]), events[i + n..])
  {
    hide ApplyGroup, RunLength;
    assert events[i..][n..] == events[i + n..];
  }

  lemma FewChanges(batch: seq<Event>)
    ensures |batch| <= 1 ==> |Changes(batch)| <= 1
  {
  }

  lemma UpdateStep(x: Executor, v: View, evs: seq<Event>)
    requires evs != [] && evs[0].StateUpdated?
    ensures ApplyEvents(x, v, evs) == ApplyEvents(x, ApplyOne(x, v, evs[0]), evs[1..])
  {
  }

  // ---------- The two nodes on one fetch ----------

  /** The Rust watcher hands over the state updates of a range before its executions. */
  function WatcherOrder(evs: seq<Event>): seq<Event> {
    FullNode.Updates(evs) + FullNode.Executions(evs)
  }

  lemma {:induction false} OnlyUpdates(evs: seq<Event>)
    ensures forall e :: e in FullNode.Updates(evs) ==> e.StateUpdated?
    ensures FullNode.Executions(evs) == [] ==> FullNode.Updates(evs) == evs
  {
    if evs == [] {
    } else {
      OnlyUpdates(evs[1..]);
      assert evs == [evs[0]] + evs[1..];
      assert [] + FullNode.Executions(evs[1..]) == FullNode.Executions(evs[1..]);
    }
  }

  lemma {:induction false} UpdatesCallNothing(us: seq<Event>, rest: seq<Event>)
    requires forall e :: e in us ==> e.StateUpdated?
    ensures Calls(us + rest) == Calls(rest)
  {
    if us == [] {
      assert us + rest == rest;
    } else {
      assert us[0] in us && forall e :: e in us[1..] ==> e in us;
      assert (us + rest)[0] == us[0] && (us + rest)[1..] == us[1..] + rest;
      UpdatesCallNothing(us[1..], rest);
      assert [] + Calls(us[1..] + rest) == Calls(us[1..] + rest);
    }
  }

  lemma WatcherCalls(evs: seq<Event>)
    ensures Calls(WatcherOrder(evs)) == Calls(FullNode.Executions(evs))
  {
    OnlyUpdates(evs);
    UpdatesCallNothing(FullNode.Updates(evs), FullNode.Executions(evs));
  }

  /** An engine that mines one block for every call. */
  lemma OneEach(v: View, evs: seq<Event>)
    ensures |ApplyEvents(Telling([], ""), v, evs).l2| == |v.l2| + |Calls(evs)|
  {
    hide ApplyEvents, Calls;
    ChainOfCalls(Telling([], ""), v, evs);
    CallsHold(evs);
    TellingRun([], "", v.l2, Calls(evs));
  }

  /** The watcher's order leads to the same L2 chain, for every engine and from every state, exactly if no
      state update stands between two state changes of one L1 block: such an update parts them into
      separate calls in the reth-based node, while the ethrex-based node replays them as one batch. */
  lemma ChainsAgreeExactly(evs: seq<Event>)
    requires BlockOrder(evs)
    ensures Undivided(evs) <==>
            forall x: Executor, v: View :: ApplyEvents(x, v, evs).l2 == ApplyEvents(x, v, WatcherOrder(evs)).l2
  {
    hide Undivided, ApplyEvents, Calls, RunCalls;
    WatcherCalls(evs);
    CallsExactly(evs);
    forall x: Executor, v: View | Undivided(evs)
      ensures ApplyEvents(x, v, evs).l2 == ApplyEvents(x, v, WatcherOrder(evs)).l2
    {
      ChainOfCalls(x, v, evs);
      ChainOfCalls(x, v, WatcherOrder(evs));
    }
    var x := Telling([], "");
    OneEach(Initial(x), evs);
    OneEach(Initial(x), WatcherOrder(evs));
  }

  /** The executions alone lead to the same tracked root as with the updates where they are. */
  predicate RootsMeet(evs: seq<Event>) {
    var es := FullNode.Executions(evs);
    es == [] || evs == [] || FinalRoot(evs) == FinalRoot(es)
  }

  lemma {:induction false} LastExecution(evs: seq<Event>)
    requires evs != [] && evs[|evs| - 1].Performed?
    ensures var es := FullNode.Executions(evs); es != [] && es[|es| - 1] == evs[|evs| - 1]
  {
    if |evs| > 1 {
      LastExecution(evs[1..]);
    }
  }

  /** The executions of a list keep what was last in their blocks. */
  lemma {:induction false} StillLast(evs: seq<Event>)
    requires AccountingLast(evs)
    ensures AccountingLast(FullNode.Executions(evs))
  {
    if evs == [] {
    } else {
      var rest := evs[1..];
      StillLast(rest);
      InExecutions(rest);
      var es := FullNode.Executions(rest);
      forall e | e in es && evs[0].Performed? && !IsChange(evs[0]) && e.block == evs[0].block ensures !IsChange(e) {
        var k :| 0 <= k < |rest| && rest[k] == e;
        assert evs[k + 1] == e;
      }
    }
  }

  lemma {:induction false} UpdatesThen(y: Executor, v: View, us: seq<Event>, rest: seq<Event>)
    requires forall e :: e in us ==> e.StateUpdated?
    ensures ApplyEvents(y, v, us + rest) == ApplyEvents(y, ApplyEvents(y, v, us), rest)
    decreases |us|
  {
    if us == [] {
      assert us + rest == rest;
    } else {
      assert us[0] in us && forall e :: e in us[1..] ==> e in us;
      assert (us + rest)[0] == us[0] && (us + rest)[1..] == us[1..] + rest;
      UpdatesThen(y, ApplyOne(y, v, us[0]), us[1..], rest);
    }
  }

  /** Where the tracked root of the ethrex-based node ends: its executions come last, if there are any. */
  lemma WatcherRoot(evs: seq<Event>)
    requires evs != []
    ensures var es := FullNode.Executions(evs);
            && WatcherOrder(evs) != []
            && FinalRoot(WatcherOrder(evs)) == if es == [] then FinalRoot(evs) else FinalRoot(es)
  {
    var us, es := FullNode.Updates(evs), FullNode.Executions(evs);
    OnlyUpdates(evs);
    hide ApplyEvents, FinalRoot;
    if es == [] {
      assert us + es == us == evs;
    } else {
      var x := Telling([], "");
      var v := Initial(x);
      FinalRootIs(x, v, us + es);
      UpdatesThen(x, v, us, es);
      FinalRootIs(x, ApplyEvents(x, v, us), es);
    }
  }

  /** After one fetch the tracked roots are equal exactly if the executions alone lead to the same root. */
  lemma RootsAgreeExactly(x: Executor, y: Executor, v: View, w: View, evs: seq<Event>)
    requires evs != []
    ensures ApplyEvents(x, v, evs).root == ApplyEvents(y, w, WatcherOrder(evs)).root <==> RootsMeet(evs)
  {
    hide ApplyEvents, WatcherOrder, FinalRoot;
    WatcherRoot(evs);
    FinalRootIs(x, v, evs);
    FinalRootIs(y, w, WatcherOrder(evs));
  }

  /** Where accounting comes last in its block, that is so exactly if the range has no execution, or ends with
      one, or its last execution already has the state of its last update. */
  lemma RootsMeetSimply(evs: seq<Event>)
    requires evs != [] && AccountingLast(evs)
    ensures var es := FullNode.Executions(evs);
            RootsMeet(evs) <==>
            es == [] || evs[|evs| - 1].Performed? || es[|es| - 1].newState == evs[|evs| - 1].newState
  {
    hide AccountingLast, ApplyEvents, FinalRoot;
    var es, x := FullNode.Executions(evs), Telling([], "");
    TrackedRootFollowsL1(x, Initial(x), evs);
    StillLast(evs);
    if es != [] {
      TrackedRootFollowsL1(x, Initial(x), es);
    }
    if evs[|evs| - 1].Performed? {
      LastExecution(evs);
    }
  }

  /** The smallest range in which the roots differ: an execution, then a state update. */
  lemma UpdateOrderMatters(x: Executor, y: Executor, v: View, w: View)
    ensures var evs := [Performed(5, 0, "t", "A", "B"), StateUpdated(5, 1, "C")];
            && ApplyEvents(x, v, evs).root == "C"
            && ApplyEvents(y, w, WatcherOrder(evs)).root == "B"
  {
    hide ApplyEvents, WatcherOrder, FinalRoot, AccountingLast;
    var p, u := Performed(5, 0, "t", "A", "B"), StateUpdated(5, 1, "C");
    var evs := [p, u];
    assert evs[1..] == [u];
    assert FullNode.Executions([u]) == [] by { assert [u][1..] == []; }
    assert FullNode.Executions(evs) == [p] + FullNode.Executions([u]) == [p];
    PairLast(p, u);
    TrackedRootFollowsL1(x, v, evs);
    WatcherRoot(evs);
    FinalRootIs(y, w, WatcherOrder(evs));
    TrackedRootFollowsL1(y, w, [p]);
  }

  lemma PairLast(p: Event, u: Event)
    requires u.StateUpdated?
    ensures AccountingLast([p, u]) && AccountingLast([p])
  {
  }

  /** A range that ends with an execution and still leads to two roots: the update parts two changes, and with
      it gone they are batched in front of the accounting event between them. */
  lemma BatchingMatters(x: Executor, y: Executor, v: View, w: View)
    ensures var evs := [Performed(5, 0, "t", "A", "B"), StateUpdated(5, 1, "D"),
                        Performed(5, 2, "a", "D", "D"), Performed(5, 3, "u", "D", "F")];
            && ApplyEvents(x, v, evs).root == "F"
            && ApplyEvents(y, w, WatcherOrder(evs)).root == "D"
  {
    hide ApplyEvents, WatcherOrder;
    var (p, u, a, q) := (Performed(5, 0, "t", "A", "B"), StateUpdated(5, 1, "D"),
                         Performed(5, 2, "a", "D", "D"), Performed(5, 3, "u", "D", "F"));
    var evs := [p, u, a, q];
    FinalRootIs(x, v, evs);
    BatchingRoots(p, u, a, q);
    WatcherRoot(evs);
    FinalRootIs(y, w, WatcherOrder(evs));
  }

  lemma BatchingRoots(p: Event, u: Event, a: Event, q: Event)
    requires p.Performed? && u.StateUpdated? && a.Performed? && q.Performed?
    requires p.block == a.block == q.block && IsChange(p) && !IsChange(a) && IsChange(q)
    ensures FinalRoot([p, u, a, q]) == q.newState
    ensures FullNode.Executions([p, u, a, q]) == [p, a, q] && FinalRoot([p, a, q]) == a.newState
  {
    hide RunLength, LastRun, Changes, Accounting, IsChange, FullNode.Executions;
    ExecutionsLeft(p, u, a, q);
    WholeBlock([p, a, q], p.block);
    WholeBlock([a, q], p.block);
    LastPair(p, u, [a, q]);
    assert [p, u] + [a, q] == [p, u, a, q];
    ThreeFiltered(p, a, q);
  }

  lemma {:induction false} WholeBlock(g: seq<Event>, block: nat)
    requires forall e :: e in g ==> e.Performed? && e.block == block
    ensures RunLength(g, block) == |g| && (g != [] ==> LastRun(g) == g)
    decreases |g|
  {
    if g == [] {
    } else {
      assert g[0] in g && forall e :: e in g[1..] ==> e in g;
      WholeBlock(g[1..], block);
    }
  }

  lemma LastPair(p: Event, u: Event, g: seq<Event>)
    requires p.Performed? && u.StateUpdated? && g != []
    ensures LastRun([p, u] + g) == LastRun(g)
  {
    var evs, rest := [p, u] + g, [u] + g;
    assert evs[1..] == rest && rest[1..] == g;
    assert RunLength(rest, p.block) == 0;
    assert StepLength(evs) == 1 && StepLength(rest) == 1;
    assert LastRun(evs) == LastRun(rest) == LastRun(g);
  }

  lemma ThreeFiltered(p: Event, a: Event, q: Event)
    requires IsChange(p) && !IsChange(a) && IsChange(q)
    ensures Changes([p, a, q]) == [p, q] && Accounting([p, a, q]) == [a]
    ensures |Changes([a, q])| == 1
  {
    hide IsChange;
    FilterMore([p, a, q]);
    FilterMore([a, q]);
    FilterMore([q]);
    assert [p, a, q][1..] == [a, q] && [a, q][1..] == [q] && [q][1..] == [];
    hide Changes, Accounting;
  }

  lemma ExecutionsLeft(p: Event, u: Event, a: Event, q: Event)
    requires p.Performed? && u.StateUpdated? && a.Performed? && q.Performed?
    ensures FullNode.Executions([p, u, a, q]) == [p, a, q]
  {
    assert [p, u, a, q][1..] == [u, a, q] && [u, a, q][1..] == [a, q] && [a, q][1..] == [q] && [q][1..] == [];
    assert FullNode.Executions([q]) == [q];
    assert FullNode.Executions([a, q]) == [a, q];
    assert FullNode.Executions([u, a, q]) == [a, q];
  }

  // ---------- Whole runs of fetches ----------

  /** The block numbers at which a node cut the chain into fetches. */
  ghost predicate Cuts(c: Chain, cuts: seq<nat>) {
    cuts != [] && cuts[|cuts| - 1] <= |c| && forall i, j :: 0 <= i < j < |cuts| ==> cuts[i] <= cuts[j]
  }

  function RethRun(x: Executor, v: View, c: Chain, cuts: seq<nat>): View
    requires Cuts(c, cuts)
    decreases |cuts|
  {
    if |cuts| == 1 then v else RethRun(x, ApplyEvents(x, v, EventsIn(c, cuts[0], cuts[1])), c, cuts[1..])
  }

  function EthrexRun(y: Executor, v: View, c: Chain, cuts: seq<nat>): View
    requires Cuts(c, cuts)
    decreases |cuts|
  {
    if |cuts| == 1 then v else EthrexRun(y, ApplyEvents(y, v, WatcherOrder(EventsIn(c, cuts[0], cuts[1]))), c, cuts[1..])
  }

  /** The events of the last fetch that had any. */
  function LastFetch(c: Chain, cuts: seq<nat>): seq<Event>
    requires Cuts(c, cuts)
    decreases |cuts|
  {
    if |cuts| == 1 then []
    else if LastFetch(c, cuts[1..]) != [] then LastFetch(c, cuts[1..])
    else EventsIn(c, cuts[0], cuts[1])
  }

  /** The reth-based node's fetches amount to one replay. */
  lemma {:induction false} RethRunReplays(x: Executor, v: View, c: Chain, cuts: seq<nat>)
    requires Cuts(c, cuts) && WellFormed(c)
    ensures RethRun(x, v, c, cuts) == ReplayOn(x, v, c, cuts[0], cuts[|cuts| - 1])
    decreases |cuts|
  {
    hide ApplyEvents, EventsIn, WellFormed;
    if |cuts| == 1 {
      assert ReplayOn(x, v, c, cuts[0], cuts[0]) == v;
    } else {
      RangeReplay(x, v, c, cuts[0], cuts[1]);
      hide ReplayOn;
      RethRunReplays(x, ApplyEvents(x, v, EventsIn(c, cuts[0], cuts[1])), c, cuts[1..]);
      ReplaySplits(x, v, c, cuts[0], cuts[1], cuts[|cuts| - 1]);
    }
  }

  /** Between two blocks a range falls into its parts. */
  lemma {:induction false} EventsSplit(c: Chain, a: nat, b: nat, d: nat)
    requires a <= b <= d <= |c|
    ensures EventsIn(c, a, d) == EventsIn(c, a, b) + EventsIn(c, b, d)
    decreases b - a
  {
    if a < b {
      EventsSplit(c, a + 1, b, d);
      var (p, q, r) := (c[a].events, EventsIn(c, a + 1, b), EventsIn(c, b, d));
      assert p + (q + r) == (p + q) + r;
    } else {
      assert [] + EventsIn(c, b, d) == EventsIn(c, b, d);
    }
  }

  lemma PartUndivided(a: seq<Event>, b: seq<Event>)
    requires Undivided(a + b)
    ensures Undivided(a) && Undivided(b)
  {
    forall i: nat, j: nat, k: nat ensures Divides(a, i, j, k) ==> Divides(a + b, i, j, k) {
    }
    forall i: nat, j: nat, k: nat ensures Divides(b, i, j, k) ==> Divides(a + b, i + |a|, j + |a|, k + |a|) {
    }
  }

  lemma RangeOrder(c: Chain, from: nat, end: nat)
    requires end <= |c| && WellFormed(c)
    ensures BlockOrder(EventsIn(c, from, end))
  {
    FullNode.EventsAscend(c, from, end);
    var evs := EventsIn(c, from, end);
    forall i, j | 0 <= i < j < |evs| ensures evs[i].block <= evs[j].block {
      assert Sorting.Below(FullNode.EventKey(evs[i]), FullNode.EventKey(evs[j]));
    }
  }

  /** The ethrex-based node's fetches, wherever cut, mine the L2 chain of one replay. */
  lemma {:induction false} EthrexRunChain(y: Executor, v: View, w: View, c: Chain, cuts: seq<nat>)
    requires Cuts(c, cuts) && WellFormed(c) && v.l2 == w.l2
    requires Undivided(EventsIn(c, cuts[0], cuts[|cuts| - 1]))
    ensures EthrexRun(y, v, c, cuts).l2 == ReplayOn(y, w, c, cuts[0], cuts[|cuts| - 1]).l2
    decreases |cuts|
  {
    hide ApplyEvents, EventsIn, WellFormed, WatcherOrder, Undivided, Calls;
    if |cuts| == 1 {
      assert ReplayOn(y, w, c, cuts[0], cuts[0]) == w;
    } else {
      var a, b, d := cuts[0], cuts[1], cuts[|cuts| - 1];
      var evs := EventsIn(c, a, b);
      EventsSplit(c, a, b, d);
      PartUndivided(evs, EventsIn(c, b, d));
      RangeOrder(c, a, b);
      RangeReplay(y, w, c, a, b);
      hide ReplayOn;
      WatcherCalls(evs);
      CallsExactly(evs);
      ChainOfCalls(y, v, WatcherOrder(evs));
      ChainOfCalls(y, w, evs);
      EthrexRunChain(y, ApplyEvents(y, v, WatcherOrder(evs)), ReplayOn(y, w, c, a, b), c, cuts[1..]);
      ReplaySplits(y, w, c, a, b, d);
    }
  }

  /** Each node's tracked root is that of the last fetch that had events. */
  lemma {:induction false} RethRunRoot(x: Executor, v: View, c: Chain, cuts: seq<nat>)
    requires Cuts(c, cuts)
    ensures var evs := LastFetch(c, cuts);
            RethRun(x, v, c, cuts).root == if evs == [] then v.root else FinalRoot(evs)
    decreases |cuts|
  {
    hide ApplyEvents, EventsIn, FinalRoot;
    if |cuts| == 1 {
    } else {
      var evs := EventsIn(c, cuts[0], cuts[1]);
      var w := ApplyEvents(x, v, evs);
      RethRunRoot(x, w, c, cuts[1..]);
      if evs == [] {
        NoEventsLeft(x, v);
      } else {
        FinalRootIs(x, v, evs);
      }
    }
  }

  lemma {:induction false} EthrexRunRoot(y: Executor, v: View, c: Chain, cuts: seq<nat>)
    requires Cuts(c, cuts)
    ensures var evs := LastFetch(c, cuts);
            EthrexRun(y, v, c, cuts).root ==
            if evs == [] then v.root else if WatcherOrder(evs) == [] then "" else FinalRoot(WatcherOrder(evs))
    decreases |cuts|
  {
    hide ApplyEvents, EventsIn, FinalRoot, WatcherOrder;
    if |cuts| == 1 {
    } else {
      var evs := EventsIn(c, cuts[0], cuts[1]);
      var w := ApplyEvents(y, v, WatcherOrder(evs));
      EthrexRunRoot(y, w, c, cuts[1..]);
      if evs == [] {
        NothingOrdered();
        NoEventsLeft(y, v);
      } else {
        WatcherRoot(evs);
        FinalRootIs(y, v, WatcherOrder(evs));
      }
    }
  }

  lemma NothingOrdered()
    ensures WatcherOrder([]) == []
  {
  }

  /** Where an update divides the changes of a block, the ethrex-based node makes fewer calls. */
  lemma {:induction false} EthrexRunCounts(v: View, w: View, c: Chain, cuts: seq<nat>)
    requires Cuts(c, cuts) && WellFormed(c)
    ensures var (reth, ethrex) := (RethRun(Telling([], ""), v, c, cuts), EthrexRun(Telling([], ""), w, c, cuts));
            && |ethrex.l2| - |w.l2| <= |reth.l2| - |v.l2|
            && (!Undivided(EventsIn(c, cuts[0], cuts[|cuts| - 1])) ==> |ethrex.l2| - |w.l2| < |reth.l2| - |v.l2|)
    decreases |cuts|
  {
    hide ApplyEvents, EventsIn, WellFormed, WatcherOrder, Undivided, Calls, Telling;
    var x := Telling([], "");
    if |cuts| == 1 {
      NoRange(c, cuts[0]);
      NothingDivided();
    } else {
      var a, b, d := cuts[0], cuts[1], cuts[|cuts| - 1];
      var evs := EventsIn(c, a, b);
      EventsSplit(c, a, b, d);
      RangeOrder(c, a, b);
      WatcherCalls(evs);
      CallsExactly(evs);
      OneEach(v, evs);
      OneEach(w, WatcherOrder(evs));
      EthrexRunCounts(ApplyEvents(x, v, evs), ApplyEvents(x, w, WatcherOrder(evs)), c, cuts[1..]);
      DividedPart(c, a, b, d);
    }
  }

  lemma NothingDivided()
    ensures Undivided([])
  {
  }

  /** An update divides a block of one of two adjoining ranges if it does so in both together. */
  lemma DividedPart(c: Chain, a: nat, b: nat, d: nat)
    requires a <= b <= d <= |c| && WellFormed(c)
    ensures !Undivided(EventsIn(c, a, d)) ==> !Undivided(EventsIn(c, a, b)) || !Undivided(EventsIn(c, b, d))
  {
    hide EventsIn;
    EventsSplit(c, a, b, d);
    EventsBlock(c, a, b);
    EventsBlock(c, b, d);
    var p, q := EventsIn(c, a, b), EventsIn(c, b, d);
    hide WellFormed;
    forall i: nat, j: nat, k: nat
      ensures Divides(p + q, i, j, k) ==> Divides(p, i, j, k) || (i >= |p| && Divides(q, i - |p|, j - |p|, k - |p|))
    {
      if i < |p| <= k < |p + q| {
        assert (p + q)[i] in p && (p + q)[k] in q;
      }
    }
  }

  lemma NoRange(c: Chain, n: nat)
    requires n <= |c|
    ensures EventsIn(c, n, n) == []
  {
  }

  /** The two nodes over one range of L1 blocks, each with its own engine and its own fetches.  The L2 chains
      agree if no state update stands between two state changes of a block and the engines mine alike for
      the calls that are replayed; the tracked roots agree exactly if they meet in the last fetch of the
      ethrex-based node that had events. */
  lemma NodesAgree(x: Executor, y: Executor, v: View, c: Chain, reth: seq<nat>, ethrex: seq<nat>)
    requires WellFormed(c) && Cuts(c, reth) && Cuts(c, ethrex)
    requires reth[0] == ethrex[0] && reth[|reth| - 1] == ethrex[|ethrex| - 1]
    ensures var evs := EventsIn(c, reth[0], reth[|reth| - 1]);
            && (Undivided(evs) && SameCalls(x, y, Calls(evs)) ==>
                  RethRun(x, v, c, reth).l2 == EthrexRun(y, v, c, ethrex).l2)
            && (RethRun(x, v, c, reth).root == EthrexRun(y, v, c, ethrex).root <==> RootsMeet(LastFetch(c, ethrex)))
  {
    hide *;
    CutsAscend(c, reth);
    CutsAscend(c, ethrex);
    var evs := EventsIn(c, reth[0], reth[|reth| - 1]);
    if Undivided(evs) && SameCalls(x, y, Calls(evs)) {
      ChainsOfRuns(x, y, v, c, reth, ethrex);
    }
    RootsOfRuns(x, y, v, c, reth, ethrex);
  }

  /** With one and the same engine, whichever it is, the L2 chains agree exactly if no state update stands
      between two state changes of a block, however each node cuts L1 into fetches. */
  lemma NodesChainExactly(c: Chain, reth: seq<nat>, ethrex: seq<nat>)
    requires WellFormed(c) && Cuts(c, reth) && Cuts(c, ethrex)
    requires reth[0] == ethrex[0] && reth[|reth| - 1] == ethrex[|ethrex| - 1]
    ensures Undivided(EventsIn(c, reth[0], reth[|reth| - 1])) <==>
            forall x: Executor, v: View :: RethRun(x, v, c, reth).l2 == EthrexRun(x, v, c, ethrex).l2
  {
    hide *;
    CutsAscend(c, reth);
    CutsAscend(c, ethrex);
    var evs := EventsIn(c, reth[0], reth[|reth| - 1]);
    forall x: Executor, v: View | Undivided(evs) ensures RethRun(x, v, c, reth).l2 == EthrexRun(x, v, c, ethrex).l2 {
      assert SameCalls(x, x, Calls(evs)) by { SameEngine(x, Calls(evs)); }
      ChainsOfRuns(x, x, v, c, reth, ethrex);
    }
    var x := Telling([], "");
    var v := Initial(x);
    EthrexRunCounts(v, v, c, ethrex);
    RethRunReplays(x, v, c, reth);
    RethRunReplays(x, v, c, ethrex);
  }

  lemma SameEngine(x: Executor, calls: seq<seq<Event>>)
    ensures SameCalls(x, x, calls)
  {
  }

  lemma CutsAscend(c: Chain, cuts: seq<nat>)
    requires Cuts(c, cuts)
    ensures cuts != [] && cuts[0] <= cuts[|cuts| - 1] <= |c|
  {
  }

  lemma ChainsOfRuns(x: Executor, y: Executor, v: View, c: Chain, reth: seq<nat>, ethrex: seq<nat>)
    requires WellFormed(c) && Cuts(c, reth) && Cuts(c, ethrex)
    requires reth[0] == ethrex[0] <= reth[|reth| - 1] == ethrex[|ethrex| - 1]
    requires var evs := EventsIn(c, reth[0], reth[|reth| - 1]); Undivided(evs) && SameCalls(x, y, Calls(evs))
    ensures RethRun(x, v, c, reth).l2 == EthrexRun(y, v, c, ethrex).l2
  {
    hide RethRun, EthrexRun, EventsIn, ReplayOn, WellFormed, Undivided, SameCalls, Calls, ApplyEvents, RunCalls;
    var from, end := reth[0], reth[|reth| - 1];
    var evs := EventsIn(c, from, end);
    RethRunReplays(x, v, c, reth);
    RangeReplay(x, v, c, from, end);
    EthrexRunChain(y, v, v, c, ethrex);
    RangeReplay(y, v, c, from, end);
    ChainOfCalls(x, v, evs);
    ChainOfCalls(y, v, evs);
    SameChain(x, y, v.l2, Calls(evs));
  }

  lemma RootsOfRuns(x: Executor, y: Executor, v: View, c: Chain, reth: seq<nat>, ethrex: seq<nat>)
    requires WellFormed(c) && Cuts(c, reth) && Cuts(c, ethrex)
    requires reth[0] == ethrex[0] && reth[|reth| - 1] == ethrex[|ethrex| - 1]
    ensures RethRun(x, v, c, reth).root == EthrexRun(y, v, c, ethrex).root <==> RootsMeet(LastFetch(c, ethrex))
  {
    hide RethRun, EthrexRun, LastFetch, EventsIn, ReplayOn, WellFormed, FinalRoot, WatcherOrder;
    RethRunReplays(x, v, c, reth);
    RethRunReplays(x, v, c, ethrex);
    RethRunRoot(x, v, c, ethrex);
    EthrexRunRoot(y, v, c, ethrex);
    var evs := LastFetch(c, ethrex);
    if evs != [] {
      WatcherRoot(evs);
    }
  }
}
