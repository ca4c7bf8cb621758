/** The replay of L1 events on the L2 chain, shared by both full nodes.

    An L1 block carries the rollup's events in log order.  Processing them moves a `View`:
    the tracked state root and the L2 chain.  What the L2 execution engine mines for an
    event, or for a batch of events, is an arbitrary deterministic `Executor`. */
module EventReplay {

  datatype Event =
    | StateUpdated(block: nat, logIndex: nat, newState: string)
    | Performed(block: nat, logIndex: nat, tx: string, currentState: string, newState: string)

  datatype L1Block = L1Block(hash: string, events: seq<Event>)

  type Chain = seq<L1Block>

  /** An L2 chain to start from: at least a genesis block. */
  type Ground = l2: seq<string> | |l2| > 0 witness ["genesis"]

  /** `single` and `batch` give the L2 blocks mined on top of an L2 chain.  `stateRoot` is the root that the
      chain itself reports; nothing forces it to be the root posted on L1.  A new engine holds `genesis`,
      in practice one block. */
  datatype Executor = Executor(genesis: Ground, initialRoot: string,
                               single: (seq<string>, Event) -> seq<string>,
                               batch: (seq<string>, seq<Event>) -> seq<string>,
                               stateRoot: seq<string> -> string)

  datatype View = View(root: string, l2: seq<string>)

  function Initial(x: Executor): View {
    View(x.initialRoot, x.genesis)
  }

  /** The same engine with another L2 chain to start from. */
  function Based(x: Executor, base: Ground): Executor {
    x.(genesis := base)
  }

  /** An event that moves the state, as opposed to L1-only accounting. */
  predicate IsChange(e: Event) {
    e.Performed? && e.currentState != e.newState
  }

  function Changes(evs: seq<Event>): (r: seq<Event>)
    ensures forall e :: e in r ==> e in evs && IsChange(e)
    ensures |r| <= |evs|
  {
    if evs == [] then []
    else (if IsChange(evs[0]) then [evs[0]] else []) + Changes(evs[1..])
  }

  function Accounting(evs: seq<Event>): (r: seq<Event>)
    ensures forall e :: e in r ==> e in evs && !IsChange(e)
  {
    if evs == [] then []
    else (if IsChange(evs[0]) then [] else [evs[0]]) + Accounting(evs[1..])
  }

  /** One event processed on its own. */
  function ApplyOne(x: Executor, v: View, e: Event): (r: View)
  {
    View(e.newState, if IsChange(e) then v.l2 + x.single(v.l2, e) else v.l2)
  }

  function ApplyAll(x: Executor, v: View, evs: seq<Event>): (r: View)
    decreases |evs|
  {
    if evs == [] then v else ApplyAll(x, ApplyOne(x, v, evs[0]), evs[1..])
  }

  function ApplyBatch(x: Executor, v: View, batch: seq<Event>): (r: View)
    requires batch != []
  {
    View(batch[|batch| - 1].newState, v.l2 + x.batch(v.l2, batch))
  }

  /** A run of executions of one L1 block: two or more state changes are mined together and
      the accounting events follow; otherwise every event is processed on its own. */
  function ApplyGroup(x: Executor, v: View, group: seq<Event>): (r: View)
  {
    var changes := Changes(group);
    if |changes| > 1 then ApplyAll(x, ApplyBatch(x, v, changes), Accounting(group))
    else ApplyAll(x, v, group)
  }

  /** How many events at the front of `evs` are executions of L1 block `block`. */
  function RunLength(evs: seq<Event>, block: nat): (n: nat)
    ensures n <= |evs|
    ensures forall k :: 0 <= k < n ==> evs[k].Performed? && evs[k].block == block
    ensures n < |evs| ==> !(evs[n].Performed? && evs[n].block == block)
  {
    if evs != [] && evs[0].Performed? && evs[0].block == block then 1 + RunLength(evs[1..], block) else 0
  }

  /** The number of events consumed by one round of the processing loop. */
  function StepLength(evs: seq<Event>): (n: nat)
    requires evs != []
    ensures 1 <= n <= |evs|
  {
    if evs[0].Performed? then RunLength(evs, evs[0].block) else 1
  }

  function ApplyStep(x: Executor, v: View, evs: seq<Event>): (r: View)
    requires evs != []
  {
    if evs[0].Performed? then ApplyGroup(x, v, evs[..StepLength(evs)]) else ApplyOne(x, v, evs[0])
  }

  function ApplyEvents(x: Executor, v: View, evs: seq<Event>): (r: View)
    decreases |evs|
  {
    if evs == [] then v else ApplyEvents(x, ApplyStep(x, v, evs), evs[StepLength(evs)..])
  }

  // ---------- Chains ----------

  predicate StrictlyOrdered(evs: seq<Event>) {
    forall i, j :: 0 <= i < j < |evs| ==> evs[i].logIndex < evs[j].logIndex
  }

  /** Every event knows the number of the block that carries it, and log order is strict. */
  ghost predicate WellFormed(c: Chain) {
    forall n :: 0 <= n < |c| ==> BlockEvents(c[n], n)
  }

  ghost predicate BlockEvents(b: L1Block, n: nat) {
    StrictlyOrdered(b.events) && forall e :: e in b.events ==> e.block == n
  }

  /** The rollup's events in blocks `from` (inclusive) to `end` (exclusive). */
  function EventsIn(c: Chain, from: nat, end: nat): seq<Event>
    requires end <= |c|
    decreases end - from
  {
    if end <= from then [] else c[from].events + EventsIn(c, from + 1, end)
  }

  /** Replaying blocks `from` to `end` (exclusive) one L1 block at a time. */
  function ReplayOn(x: Executor, v: View, c: Chain, from: nat, end: nat): (r: View)
    requires end <= |c|
    decreases end
  {
    if end <= from then v else ApplyEvents(x, ReplayOn(x, v, c, from, end - 1), c[end - 1].events)
  }

  /** The node's target: one replay of the chain from the deployment block. */
  function Replay(x: Executor, c: Chain, deploy: nat): View {
    ReplayOn(x, Initial(x), c, deploy, |c|)
  }

  /** Processing only ever appends to the L2 chain. */
  lemma {:induction false} ApplyAllGrows(x: Executor, v: View, evs: seq<Event>)
    ensures v.l2 <= ApplyAll(x, v, evs).l2
    decreases |evs|
  {
    if evs == [] {
    } else {
      ApplyAllGrows(x, ApplyOne(x, v, evs[0]), evs[1..]);
    }
  }

  lemma StepGrows(x: Executor, v: View, evs: seq<Event>)
    requires evs != []
    ensures v.l2 <= ApplyStep(x, v, evs).l2
  {
    if evs[0].Performed? {
      var group := evs[..StepLength(evs)];
      var changes := Changes(group);
      if |changes| > 1 {
        ApplyAllGrows(x, ApplyBatch(x, v, changes), Accounting(group));
      } else {
        ApplyAllGrows(x, v, group);
      }
    }
  }

  lemma {:induction false} EventsGrow(x: Executor, v: View, evs: seq<Event>)
    ensures v.l2 <= ApplyEvents(x, v, evs).l2
    decreases |evs|
  {
    if evs == [] {
    } else {
      StepGrows(x, v, evs);
      EventsGrow(x, ApplyStep(x, v, evs), evs[StepLength(evs)..]);
    }
  }

  lemma {:induction false} ReplayGrows(x: Executor, v: View, c: Chain, from: nat, end: nat)
    requires end <= |c|
    ensures v.l2 <= ReplayOn(x, v, c, from, end).l2
    decreases end
  {
    if end <= from {
    } else {
      ReplayGrows(x, v, c, from, end - 1);
      EventsGrow(x, ReplayOn(x, v, c, from, end - 1), c[end - 1].events);
    }
  }

  /** A replay can be cut at any L1 block. */
  lemma {:induction false} ReplaySplits(x: Executor, v: View, c: Chain, a: nat, b: nat, d: nat)
    requires a <= b <= d <= |c|
    ensures ReplayOn(x, v, c, a, d) == ReplayOn(x, ReplayOn(x, v, c, a, b), c, b, d)
    decreases d
  {
    hide ApplyEvents;
    if d == b {
    } else {
      ReplaySplits(x, v, c, a, b, d - 1);
    }
  }

  /** Blocks `a` to `b` (exclusive) carry the same events on both chains, whatever their hashes. */
  predicate SameEvents(c: Chain, d: Chain, a: int, b: int) {
    b <= |c| && b <= |d| && forall n :: 0 <= n && a <= n < b ==> c[n].events == d[n].events
  }

  /** A replay reads nothing but the events of the blocks it replays. */
  lemma {:induction false} ReplayLocal(x: Executor, v: View, c: Chain, d: Chain, a: nat, b: nat)
    requires SameEvents(c, d, a, b)
    ensures ReplayOn(x, v, c, a, b) == ReplayOn(x, v, d, a, b)
    decreases b
  {
    if b <= a {
      assert ReplayOn(x, v, c, a, b) == v;
    } else {
      ReplayLocal(x, v, c, d, a, b - 1);
    }
  }

  /** The engine's own starting chain plays no part in a replay from a given view. */
  lemma {:induction false} BasedAll(x: Executor, base: Ground, v: View, evs: seq<Event>)
    ensures ApplyAll(Based(x, base), v, evs) == ApplyAll(x, v, evs)
    decreases |evs|
  {
    if evs == [] {
    } else {
      assert ApplyOne(Based(x, base), v, evs[0]) == ApplyOne(x, v, evs[0]);
      BasedAll(x, base, ApplyOne(x, v, evs[0]), evs[1..]);
    }
  }

  lemma BasedStep(x: Executor, base: Ground, v: View, evs: seq<Event>)
    requires evs != []
    ensures ApplyStep(Based(x, base), v, evs) == ApplyStep(x, v, evs)
  {
    if evs[0].Performed? {
      var g := evs[..StepLength(evs)];
      if |Changes(g)| > 1 {
        BasedAll(x, base, ApplyBatch(x, v, Changes(g)), Accounting(g));
      } else {
        BasedAll(x, base, v, g);
      }
    }
  }

  lemma {:induction false} BasedEvents(x: Executor, base: Ground, v: View, evs: seq<Event>)
    ensures ApplyEvents(Based(x, base), v, evs) == ApplyEvents(x, v, evs)
    decreases |evs|
  {
    hide ApplyStep, Based;
    if evs == [] {
    } else {
      BasedStep(x, base, v, evs);
      BasedEvents(x, base, ApplyStep(x, v, evs), evs[StepLength(evs)..]);
    }
  }

  lemma {:induction false} BasedReplay(x: Executor, base: Ground, v: View, c: Chain, from: nat, end: nat)
    requires end <= |c|
    ensures ReplayOn(Based(x, base), v, c, from, end) == ReplayOn(x, v, c, from, end)
    decreases end
  {
    hide ApplyEvents, Based;
    if end <= from {
    } else {
      BasedReplay(x, base, v, c, from, end - 1);
      BasedEvents(x, base, ReplayOn(x, v, c, from, end - 1), c[end - 1].events);
    }
  }

  lemma {:induction false} EventsBlock(c: Chain, from: nat, end: nat)
    requires end <= |c| && WellFormed(c)
    ensures forall e :: e in EventsIn(c, from, end) ==> from <= e.block < end
    decreases end - from
  {
    if end <= from {
    } else {
      assert BlockEvents(c[from], from);
      EventsBlock(c, from + 1, end);
    }
  }

  // ---------- The fold over events is the fold over blocks ----------

  lemma {:induction false} RunLengthAppend(a: seq<Event>, b: seq<Event>, block: nat)
    requires b == [] || b[0].block != block
    ensures RunLength(a + b, block) == RunLength(a, block)
  {
    if a == [] {
    } else {
      assert (a + b)[1..] == a[1..] + b;
      RunLengthAppend(a[1..], b, block);
    }
  }

  /** Cutting an event list between two L1 blocks does not change what it does. */
  lemma {:induction false} ApplyEventsAppend(x: Executor, v: View, a: seq<Event>, b: seq<Event>)
    requires forall e, f :: e in a && f in b ==> e.block != f.block
    ensures ApplyEvents(x, v, a + b) == ApplyEvents(x, ApplyEvents(x, v, a), b)
    decreases |a|
  {
    if a == [] {
      assert a + b == b;
    } else {
      var n := StepLength(a);
      if b != [] { assert a[0] in a && b[0] in b; }
      RunLengthAppend(a, b, a[0].block);
      assert (a + b)[0] == a[0];
      assert StepLength(a + b) == n;
      assert (a + b)[..n] == a[..n];
      assert (a + b)[n..] == a[n..] + b;
      ApplyEventsAppend(x, ApplyStep(x, v, a), a[n..], b);
    }
  }

  /** However a range of blocks is fetched, processing the fetched events is the block replay. */
  lemma {:induction false} RangeReplay(x: Executor, v: View, c: Chain, from: nat, end: nat)
    requires from <= end <= |c| && WellFormed(c)
    ensures ApplyEvents(x, v, EventsIn(c, from, end)) == ReplayOn(x, v, c, from, end)
    decreases end - from
  {
    if end <= from {
    } else {
      assert BlockEvents(c[from], from);
      EventsBlock(c, from + 1, end);
      ApplyEventsAppend(x, v, c[from].events, EventsIn(c, from + 1, end));
      var w := ApplyEvents(x, v, c[from].events);
      RangeReplay(x, w, c, from + 1, end);
      ReplaySplits(x, v, c, from, from + 1, end);
      assert ReplayOn(x, v, c, from, from) == v;
    }
  }

  /** Any split of a range into fetches replays the same. */
  lemma FetchSplitIrrelevant(x: Executor, v: View, c: Chain, from: nat, mid: nat, end: nat)
    requires from <= mid <= end <= |c| && WellFormed(c)
    ensures ApplyEvents(x, ApplyEvents(x, v, EventsIn(c, from, mid)), EventsIn(c, mid, end))
         == ApplyEvents(x, v, EventsIn(c, from, end))
  {
    RangeReplay(x, v, c, from, mid);
    RangeReplay(x, ReplayOn(x, v, c, from, mid), c, mid, end);
    RangeReplay(x, v, c, from, end);
    ReplaySplits(x, v, c, from, mid, end);
  }

  // ---------- The tracked root ----------

  lemma {:induction false} ApplyAllRoot(x: Executor, v: View, evs: seq<Event>)
    requires evs != []
    ensures ApplyAll(x, v, evs).root == evs[|evs| - 1].newState
    decreases |evs|
  {
    if |evs| == 1 {
      assert evs[1..] == [];
    } else {
      ApplyAllRoot(x, ApplyOne(x, v, evs[0]), evs[1..]);
    }
  }

  lemma {:induction false} FilterLast(evs: seq<Event>)
    requires evs != []
    ensures var last := evs[|evs| - 1];
            if IsChange(last) then Changes(evs) != [] && Changes(evs)[|Changes(evs)| - 1] == last
            else Accounting(evs) != [] && Accounting(evs)[|Accounting(evs)| - 1] == last
  {
    hide IsChange, Changes, Accounting;
    FilterMore(evs);
    if |evs| == 1 {
      assert evs[1..] == [];
    } else {
      FilterLast(evs[1..]);
    }
  }

  lemma FilterMore(evs: seq<Event>)
    requires evs != []
    ensures Changes(evs) == (if IsChange(evs[0]) then [evs[0]] else []) + Changes(evs[1..])
    ensures Accounting(evs) == (if IsChange(evs[0]) then [] else [evs[0]]) + Accounting(evs[1..])
    ensures Changes([]) == [] && Accounting([]) == []
  {
  }

  lemma {:induction false} NoAccounting(evs: seq<Event>)
    requires forall e :: e in evs ==> IsChange(e)
    ensures Accounting(evs) == []
  {
    if evs == [] {
    } else {
      assert evs[0] in evs;
      assert forall e :: e in evs[1..] ==> e in evs;
      NoAccounting(evs[1..]);
    }
  }

  /** The root after a group: the newest accounting state if the group was batched and had
      one, the newest state otherwise. */
  function GroupEnd(g: seq<Event>): string
    requires g != []
  {
    var accounting := Accounting(g);
    if |Changes(g)| > 1 && accounting != [] then accounting[|accounting| - 1].newState else g[|g| - 1].newState
  }

  lemma GroupRoot(x: Executor, v: View, g: seq<Event>)
    requires g != []
    ensures ApplyGroup(x, v, g).root == GroupEnd(g)
  {
    FilterLast(g);
    if |Changes(g)| > 1 {
      if Accounting(g) != [] {
        ApplyAllRoot(x, ApplyBatch(x, v, Changes(g)), Accounting(g));
      }
    } else {
      ApplyAllRoot(x, v, g);
    }
  }

  /** What the processing loop takes up last. */
  function LastRun(evs: seq<Event>): (g: seq<Event>)
    requires evs != []
    ensures 1 <= |g| <= |evs| && g == evs[|evs| - |g|..]
    decreases |evs|
  {
    var n := StepLength(evs);
    if n == |evs| then evs else LastRun(evs[n..])
  }

  /** Nothing in front of position `at` belongs to the run that event `e` ends. */
  predicate RunStarts(evs: seq<Event>, at: nat, e: Event)
    requires at <= |evs|
  {
    at > 0 ==> !(evs[at - 1].Performed? && evs[at - 1].block == e.block)
  }

  /** Events from `at` on are a state update alone, or as many executions of one block as there are. */
  predicate RunFrom(evs: seq<Event>, at: nat)
    requires at < |evs|
  {
    var last := evs[|evs| - 1];
    && (last.StateUpdated? ==> at == |evs| - 1)
    && (last.Performed? ==>
          (forall i :: at <= i < |evs| ==> evs[i].Performed? && evs[i].block == last.block) && RunStarts(evs, at, last))
  }

  lemma {:induction false} LastRunIs(evs: seq<Event>)
    requires evs != []
    ensures RunFrom(evs, |evs| - |LastRun(evs)|)
    decreases |evs|
  {
    hide *;
    LastRunStep(evs);
    var n, size := StepLength(evs), |LastRun(evs)|;
    if n == |evs| {
      WholeRun(evs);
    } else {
      LastRunIs(evs[n..]);
      LongerRun(evs, n, |evs| - size);
    }
  }

  lemma LastRunStep(evs: seq<Event>)
    requires evs != []
    ensures var n := StepLength(evs);
            |LastRun(evs)| == if n == |evs| then |evs| else |LastRun(evs[n..])|
  {
    hide StepLength;
  }

  lemma LongerRun(evs: seq<Event>, n: nat, at: nat)
    requires evs != [] && n == StepLength(evs) <= at < |evs| && RunFrom(evs[n..], at - n)
    ensures RunFrom(evs, at)
  {
    var rest := evs[n..];
    hide StepLength;
    assert rest[|rest| - 1] == evs[|evs| - 1];
    forall i | at <= i < |evs| ensures rest[i - n] == evs[i] {
    }
    if at == n {
      if evs[n].Performed? { RunEnds(evs); }
    } else {
      assert rest[at - n - 1] == evs[at - 1];
    }
  }

  lemma WholeRun(evs: seq<Event>)
    requires evs != [] && StepLength(evs) == |evs|
    ensures RunFrom(evs, 0)
  {
  }

  lemma RunEnds(evs: seq<Event>)
    requires evs != [] && StepLength(evs) < |evs| && evs[StepLength(evs)].Performed?
    ensures RunStarts(evs, StepLength(evs), evs[StepLength(evs)])
  {
  }

  /** The root a node tracks after these events, whatever engine it has and whatever it tracked before. */
  function FinalRoot(evs: seq<Event>): string
    requires evs != []
  {
    GroupEnd(LastRun(evs))
  }

  lemma StepRoot(x: Executor, v: View, evs: seq<Event>)
    requires evs != []
    ensures ApplyStep(x, v, evs).root == GroupEnd(evs[..StepLength(evs)])
  {
    if evs[0].Performed? {
      GroupRoot(x, v, evs[..StepLength(evs)]);
    } else {
      OnlyUpdate(evs[..1]);
    }
  }

  lemma {:induction false} FinalRootIs(x: Executor, v: View, evs: seq<Event>)
    requires evs != []
    ensures ApplyEvents(x, v, evs).root == FinalRoot(evs)
    decreases |evs|
  {
    hide ApplyStep, GroupEnd;
    var n := StepLength(evs);
    if n == |evs| {
      StepRoot(x, v, evs);
      assert evs[..n] == evs && evs[n..] == [];
    } else {
      FinalRootIs(x, ApplyStep(x, v, evs), evs[n..]);
    }
  }

  /** The tracked root is L1's newest state exactly if the last run was not batched, has no
      accounting event, or its newest accounting event already carries that state. */
  lemma TrackedRootExactly(x: Executor, v: View, evs: seq<Event>)
    requires evs != []
    ensures var (g, newest) := (LastRun(evs), evs[|evs| - 1].newState);
            ApplyEvents(x, v, evs).root == newest <==>
            |Changes(g)| <= 1 || Accounting(g) == [] || Accounting(g)[|Accounting(g)| - 1].newState == newest
  {
    FinalRootIs(x, v, evs);
  }

  /** Within an L1 block no state change follows an accounting event. */
  predicate AccountingLast(evs: seq<Event>) {
    forall i, j :: 0 <= i < j < |evs| && evs[i].block == evs[j].block && evs[i].Performed? && !IsChange(evs[i]) ==>
      !IsChange(evs[j])
  }

  lemma AccountingLastGroup(g: seq<Event>)
    requires g != [] && RunFrom(g, 0) && AccountingLast(g)
    ensures GroupEnd(g) == g[|g| - 1].newState
  {
    FilterLast(g);
    if IsChange(g[|g| - 1]) {
      forall e | e in g ensures IsChange(e) {
        var i :| 0 <= i < |g| && g[i] == e;
      }
      NoAccounting(g);
    } else if g[0].StateUpdated? {
      OnlyUpdate(g);
    }
  }

  lemma OnlyUpdate(g: seq<Event>)
    requires |g| == 1 && !IsChange(g[0])
    ensures GroupEnd(g) == g[0].newState
  {
    assert g[1..] == [] && Changes(g[1..]) == [];
  }

  lemma LastPart(evs: seq<Event>, at: nat)
    requires at < |evs| && RunFrom(evs, at) && AccountingLast(evs)
    ensures RunFrom(evs[at..], 0) && AccountingLast(evs[at..])
  {
    var g := evs[at..];
    forall i | 0 <= i < |g| ensures g[i] == evs[at + i] {
    }
  }

  /** When accounting comes last in its L1 block, the tracked root ends at the newest state posted
      on L1, whatever mix of paths was taken. */
  lemma TrackedRootFollowsL1(x: Executor, v: View, evs: seq<Event>)
    requires evs != [] && AccountingLast(evs)
    ensures FinalRoot(evs) == ApplyEvents(x, v, evs).root == evs[|evs| - 1].newState
  {
    hide RunFrom, AccountingLast, ApplyEvents, GroupEnd;
    FinalRootIs(x, v, evs);
    LastRunIs(evs);
    var g := LastRun(evs);
    LastPart(evs, |evs| - |g|);
    AccountingLastGroup(g);
  }
}
