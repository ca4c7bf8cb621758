/** The two full nodes end to end: engines made of the two schedules, events made by the watcher, and what
    both make of a batch that the builder planned. */
module Agreement {
  import opened Actions
  import opened Bytes
  import opened Entries
  import opened EventReplay
  import opened ReplayCalls
  import opened WrongStarts
  import opened Wrappers
  import Calldata
  import FullNode
  import Plans
  import RustNode
  import Schedule
  import Watcher

  // ---------- Two engines from two schedules ----------

  /** What stands behind the events, and how an L2 chain is written down.  `info` is the L1 transaction of an
      event, `time` the timestamp of an L1 block if it was found.  A chain determines its head and blocks
      (`chain`); `mined` names the blocks that were added. */
  datatype Source = Source(genesis: Ground, initialRoot: string, stateRoot: seq<string> -> string,
                           info: Event -> Schedule.BatchEvent, time: nat -> Option<nat>,
                           chain: seq<string> -> Schedule.L2, mined: (Schedule.L2, Schedule.L2) -> seq<string>)

  function Added(src: Source, before: Schedule.L2, after: Result<Schedule.L2>): seq<string> {
    if after.Err? then [] else src.mined(before, after.value)
  }

  function InfosOf(src: Source, g: seq<Event>): (r: seq<Schedule.BatchEvent>)
    ensures |r| == |g| && forall i :: 0 <= i < |r| ==> r[i] == src.info(g[i])
  {
    seq(|g|, i requires 0 <= i < |g| => src.info(g[i]))
  }

  /** A single event in the reth-based node, unless the L2 chain already has its outcome. */
  function RethSingle(env: Schedule.Env, src: Source, l2: seq<string>, e: Event): seq<string> {
    if src.stateRoot(l2) == e.newState then []
    else Added(src, src.chain(l2), Schedule.TsEventReplay(env, src.chain(l2), src.info(e), src.time(e.block)))
  }

  /** In the ethrex-based node. */
  function EthrexSingle(env: Schedule.Env, src: Source, l2: seq<string>, e: Event): seq<string> {
    var t := Schedule.RustTime(src.time(e.block));
    if src.stateRoot(l2) == e.newState then []
    else Added(src, src.chain(l2), Schedule.RustEventReplay(env, src.chain(l2), src.info(e), t))
  }

  function RethBatch(env: Schedule.Env, src: Source, l2: seq<string>, g: seq<Event>): seq<string> {
    if g == [] then []
    else
      var l := src.chain(l2);
      Added(src, l, Schedule.TsReplay(env, l, InfosOf(src, g), src.time(g[0].block)))
  }

  function EthrexBatch(env: Schedule.Env, src: Source, l2: seq<string>, g: seq<Event>): seq<string> {
    if g == [] then []
    else
      var l := src.chain(l2);
      Added(src, l, Schedule.RustReplay(env, l, InfosOf(src, g), Schedule.RustTime(src.time(g[0].block))))
  }

  function Reth(env: Schedule.Env, src: Source): Executor {
    Executor(src.genesis, src.initialRoot, (l2, e) => RethSingle(env, src, l2, e),
             (l2, g) => RethBatch(env, src, l2, g), src.stateRoot)
  }

  function Ethrex(env: Schedule.Env, src: Source): Executor {
    Executor(src.genesis, src.initialRoot, (l2, e) => EthrexSingle(env, src, l2, e),
             (l2, g) => EthrexBatch(env, src, l2, g), src.stateRoot)
  }

  /** A single event on which the nodes agree, whatever the L2 chain. */
  ghost predicate SameSingle(env: Schedule.Env, b: Schedule.BatchEvent) {
    if Schedule.TakenForCall(b) then forall blocks: seq<Schedule.Block> :: Schedule.SameIncoming(env, blocks, b)
    else Schedule.SameTransaction(env, b) && Schedule.SameResult(b) && Schedule.Compatible(env, b.input)
  }

  /** A batch on which they do. */
  ghost predicate SameBatch(env: Schedule.Env, bs: seq<Schedule.BatchEvent>) {
    && (forall b :: b in bs ==> Schedule.SameResult(b) && Schedule.Compatible(env, b.input))
    && (Schedule.Mines(Schedule.TsItems(env, bs)) <==> Schedule.Mines(Schedule.RustItems(env, bs)))
    && (Schedule.Mines(Schedule.TsItems(env, bs)) ==> Schedule.Agreeable(env, Schedule.TsItems(env, bs).value))
  }

  ghost predicate MinedAlike(env: Schedule.Env, src: Source, g: seq<Event>) {
    if |g| == 1 then SameSingle(env, src.info(g[0]))
    else SameBatch(env, InfosOf(src, g))
  }

  /** What the engine of the reth-based node mines for a call: what its replay of these events mines on that chain,
      at the time of their L1 block; nothing for a single event whose outcome is there. */
  lemma RethMines(env: Schedule.Env, src: Source, l2: seq<string>, g: seq<Event>, infos: seq<Schedule.BatchEvent>)
    requires g != [] && |infos| == |g| && forall i :: 0 <= i < |g| ==> infos[i] == src.info(g[i])
    ensures var (l, t) := (src.chain(l2), src.time(g[0].block));
            var r := if |g| == 1 then Schedule.TsEventReplay(env, l, infos[0], t) else Schedule.TsReplay(env, l, infos, t);
            Call(Reth(env, src), l2, g) ==
            l2 + if (|g| == 1 && src.stateRoot(l2) == g[0].newState) || r.Err? then [] else src.mined(l, r.value)
  {
    hide Schedule.TsEventReplay, Schedule.TsReplay;
    assert InfosOf(src, g) == infos;
  }

  lemma EthrexMines(env: Schedule.Env, src: Source, l2: seq<string>, g: seq<Event>, infos: seq<Schedule.BatchEvent>)
    requires g != [] && |infos| == |g| && forall i :: 0 <= i < |g| ==> infos[i] == src.info(g[i])
    ensures var (l, t) := (src.chain(l2), match src.time(g[0].block) { case Some(n) => n case None => 0 });
            var r := if |g| == 1 then Schedule.RustEventReplay(env, l, infos[0], t) else Schedule.RustReplay(env, l, infos, t);
            Call(Ethrex(env, src), l2, g) ==
            l2 + if (|g| == 1 && src.stateRoot(l2) == g[0].newState) || r.Err? then [] else src.mined(l, r.value)
  {
    hide Schedule.RustEventReplay, Schedule.RustReplay;
    assert InfosOf(src, g) == infos;
  }

  lemma SinglesAlike(env: Schedule.Env, src: Source, l2: seq<string>, e: Event)
    requires SameSingle(env, src.info(e))
    ensures RethSingle(env, src, l2, e) == EthrexSingle(env, src, l2, e)
  {
    var l, b := src.chain(l2), src.info(e);
    hide Schedule.TsEventReplay, Schedule.RustEventReplay, Schedule.Compatible, Schedule.SameResult, Schedule.RustTime;
    hide Schedule.SameTransaction, Schedule.TakenForCall, Schedule.SameIncoming;
    assert Schedule.TakenForCall(b) ==> Schedule.SameIncoming(env, l.blocks, b);
    Schedule.SingleEventsAgree(env, l, b, src.time(e.block));
  }

  lemma CallsAlike(env: Schedule.Env, src: Source, l2: seq<string>, g: seq<Event>)
    requires g != [] && MinedAlike(env, src, g)
    ensures Call(Reth(env, src), l2, g) == Call(Ethrex(env, src), l2, g)
  {
    hide RethSingle, EthrexSingle, SameSingle;
    if |g| == 1 {
      SinglesAlike(env, src, l2, g[0]);
    } else {
      hide Schedule.TsReplay, Schedule.RustReplay, Schedule.TsItems, Schedule.RustItems, Schedule.Compatible, Schedule.SameResult;
      hide Schedule.RustTime, Schedule.Agreeable;
      Schedule.EventBatchesAgree(env, src.chain(l2), InfosOf(src, g), src.time(g[0].block));
    }
  }

  /** Both nodes, each with its own schedule, its own reading of L1 and its own fetches, mine the same L2
      chain from the same L1 blocks, if no state update stands between two state changes of a block and
      each single event and each batch is one on which the schedules agree. */
  lemma NodesMineTheSame(env: Schedule.Env, src: Source, v: View, c: Chain, reth: seq<nat>, ethrex: seq<nat>)
    requires WellFormed(c) && RustNode.Cuts(c, reth) && RustNode.Cuts(c, ethrex)
    requires reth[0] == ethrex[0] && reth[|reth| - 1] == ethrex[|ethrex| - 1]
    requires var evs := EventsIn(c, reth[0], reth[|reth| - 1]);
             Undivided(evs) && forall g :: g in Calls(evs) ==> g != [] && MinedAlike(env, src, g)
    ensures RustNode.RethRun(Reth(env, src), v, c, reth).l2 == RustNode.EthrexRun(Ethrex(env, src), v, c, ethrex).l2
  {
    var x, y, calls := Reth(env, src), Ethrex(env, src), Calls(EventsIn(c, reth[0], reth[|reth| - 1]));
    hide Reth, Ethrex, MinedAlike, Calls, Undivided, RustNode.RethRun, RustNode.EthrexRun, Call;
    forall l2: seq<string>, g | g in calls ensures Call(x, l2, g) == Call(y, l2, g) {
      CallsAlike(env, src, l2, g);
    }
    assert SameCalls(x, y, calls);
    RustNode.NodesAgree(x, y, v, c, reth, ethrex);
  }

  // ---------- A restart of the reth-based node ----------

  /** Every block added to a chain has one name. */
  ghost predicate OneNameEach(src: Source) {
    forall a: Schedule.L2, b: Schedule.L2 :: a.blocks <= b.blocks ==> |src.mined(a, b)| == |b.blocks| - |a.blocks|
  }

  lemma RethSkips(env: Schedule.Env, src: Source)
    ensures Skips(Reth(env, src))
  {
    hide Schedule.TsEventReplay;
  }

  /** Whether a replay can be carried out, and how many blocks it mines, does not depend on the chain below. */
  ghost predicate AsMany(l: Schedule.L2, r: Result<Schedule.L2>, m: Schedule.L2, q: Result<Schedule.L2>) {
    && r.Ok? == q.Ok?
    && (r.Ok? ==>
          && l.blocks <= r.value.blocks && m.blocks <= q.value.blocks
          && |r.value.blocks| - |l.blocks| == |q.value.blocks| - |m.blocks|)
  }

  lemma SingleCounts(env: Schedule.Env, l: Schedule.L2, m: Schedule.L2, b: Schedule.BatchEvent, t: Option<nat>)
    ensures AsMany(l, Schedule.TsEventReplay(env, l, b, t), m, Schedule.TsEventReplay(env, m, b, t))
  {
    hide Schedule.MineTime, Schedule.TsRead, Schedule.EntryFor, Schedule.IncomingTxs, Schedule.TsResult;
  }

  lemma BatchCounts(env: Schedule.Env, l: Schedule.L2, m: Schedule.L2, bs: seq<Schedule.BatchEvent>, t: Option<nat>)
    ensures AsMany(l, Schedule.TsReplay(env, l, bs, t), m, Schedule.TsReplay(env, m, bs, t))
  {
    hide Schedule.MineTime, Schedule.TsItems, Schedule.Preloads, Schedule.ProxyMap, Schedule.Sent;
    hide Schedule.Calls, Schedule.Deploys, Schedule.Others;
  }

  lemma AddedCounts(src: Source, l: Schedule.L2, r: Result<Schedule.L2>, m: Schedule.L2, q: Result<Schedule.L2>)
    requires OneNameEach(src) && AsMany(l, r, m, q)
    ensures |Added(src, l, r)| == |Added(src, m, q)|
  {
  }

  lemma RethSteady(env: Schedule.Env, src: Source)
    requires OneNameEach(src)
    ensures SteadyCalls(Reth(env, src))
  {
    var x := Reth(env, src);
    forall a: seq<string>, b: seq<string>, g: seq<Event> | !Reached(x, a, g) && !Reached(x, b, g)
      ensures |Call(x, a, g)| - |a| == |Call(x, b, g)| - |b|
    {
      RethCounts(env, src, a, b, g);
    }
  }

  lemma RethCounts(env: Schedule.Env, src: Source, a: seq<string>, b: seq<string>, g: seq<Event>)
    requires OneNameEach(src) && !Reached(Reth(env, src), a, g) && !Reached(Reth(env, src), b, g)
    ensures |Call(Reth(env, src), a, g)| - |a| == |Call(Reth(env, src), b, g)| - |b|
  {
    hide Schedule.TsEventReplay, Schedule.TsReplay, Added, OneNameEach, AsMany;
    var l, m := src.chain(a), src.chain(b);
    if |g| == 1 {
      var info, t := src.info(g[0]), src.time(g[0].block);
      SingleCounts(env, l, m, info, t);
      AddedCounts(src, l, Schedule.TsEventReplay(env, l, info, t), m, Schedule.TsEventReplay(env, m, info, t));
    } else if g != [] {
      var infos, t := InfosOf(src, g), src.time(g[0].block);
      BatchCounts(env, l, m, infos, t);
      AddedCounts(src, l, Schedule.TsReplay(env, l, infos, t), m, Schedule.TsReplay(env, m, infos, t));
    }
  }

  /** The reth-based node with its own schedule, started over on the L2 chain `base` that it found: right exactly
      if `base` is bare or holds just what the first call of `c` mines in any case. */
  lemma RethStartsOver(env: Schedule.Env, src: Source, base: Ground, deploy: nat, c: Chain)
    requires WellFormed(c) && src.genesis <= base && OneNameEach(src)
    requires var (x, calls) := (Reth(env, src), Calls(EventsIn(c, deploy, |c|)));
             Moving(calls) && RunReaches(x, x.genesis, calls) && RunStrays(x, base, calls, calls)
    ensures var x := Reth(env, src);
            Replay(Based(x, base), c, deploy) == Replay(x, c, deploy) <==> Harmless(x, base, deploy, c)
  {
    RethSkips(env, src);
    RethSteady(env, src);
    var x := Reth(env, src);
    assert x.genesis == src.genesis;
    hide *;
    ForgettingExact(x, base, deploy, c);
  }

  // ---------- The watcher's events are those of the chain ----------

  /** What a node needs of an event; `show` writes a 32-byte word down. */
  datatype Seen = SeenUpdate(root: string)
                | SeenExecution(block: nat, index: nat, tx: string, currentState: string, newState: string)

  function SeenOf(e: Event): Seen {
    if e.StateUpdated? then SeenUpdate(e.newState)
    else SeenExecution(e.block, e.logIndex, e.tx, e.currentState, e.newState)
  }

  function SeenIn(show: Bytes -> string, e: Watcher.L1Event): Seen {
    if e.StateUpdated? then SeenUpdate(show(e.newStateRoot))
    else
      var p := e.performed;
      SeenExecution(p.block, p.index, show(p.tx), show(p.currentState), show(p.newState))
  }

  function AllSeenOf(es: seq<Event>): (r: seq<Seen>)
    ensures |r| == |es| && forall i :: 0 <= i < |r| ==> r[i] == SeenOf(es[i])
  {
    seq(|es|, i requires 0 <= i < |es| => SeenOf(es[i]))
  }

  function AllSeenIn(show: Bytes -> string, es: seq<Watcher.L1Event>): (r: seq<Seen>)
    ensures |r| == |es| && forall i :: 0 <= i < |r| ==> r[i] == SeenIn(show, es[i])
  {
    seq(|es|, i requires 0 <= i < |es| => SeenIn(show, es[i]))
  }

  /** The rollup's events in a list of logs, as the chain carries them. */
  function ChainEvents(c: Watcher.Config, show: Bytes -> string, logs: seq<Watcher.Log>): seq<Event> {
    if logs == [] then []
    else
      var before, log := ChainEvents(c, show, logs[..|logs| - 1]), logs[|logs| - 1];
      if Watcher.OfOurRollup(c, log, c.performedSig, 64)
      then before + [Performed(log.block, log.index, show(log.tx), show(log.data[..32]), show(log.data[32..64]))]
      else if Watcher.OfOurRollup(c, log, c.updatedSig, 32)
      then before + [StateUpdated(log.block, log.index, show(log.data[..32]))]
      else before
  }

  lemma {:induction false} SplitMore(evs: seq<Event>, e: Event)
    ensures FullNode.Updates(evs + [e]) == FullNode.Updates(evs) + if e.StateUpdated? then [e] else []
    ensures FullNode.Executions(evs + [e]) == FullNode.Executions(evs) + if e.Performed? then [e] else []
  {
    if evs == [] {
      assert evs + [e] == [e] && [e][1..] == [];
    } else {
      assert (evs + [e])[0] == evs[0] && (evs + [e])[1..] == evs[1..] + [e];
      SplitMore(evs[1..], e);
    }
  }

  lemma {:induction false} UpdatesSeen(c: Watcher.Config, show: Bytes -> string, logs: seq<Watcher.Log>)
    requires Watcher.ValidConfig(c)
    ensures AllSeenIn(show, Watcher.AllUpdates(c, logs)) == AllSeenOf(FullNode.Updates(ChainEvents(c, show, logs)))
  {
    if logs == [] {
    } else {
      var before, log := logs[..|logs| - 1], logs[|logs| - 1];
      UpdatesSeen(c, show, before);
      var evs, all := ChainEvents(c, show, before), ChainEvents(c, show, logs);
      if all != evs {
        SplitMore(evs, all[|all| - 1]);
      }
    }
  }

  /** One log more: no event, or one of either kind. */
  lemma ChainMore(c: Watcher.Config, times: nat -> Option<nat>, show: Bytes -> string, logs: seq<Watcher.Log>)
    requires Watcher.ValidConfig(c) && logs != []
    ensures var (evs, p) := (ChainEvents(c, show, logs[..|logs| - 1]), Watcher.PerformedIn(c, times, logs[|logs| - 1]));
            var es := FullNode.Executions(ChainEvents(c, show, logs));
            if p.None? then es == FullNode.Executions(evs)
            else |es| == |FullNode.Executions(evs)| + 1 && es[..|es| - 1] == FullNode.Executions(evs)
                 && es[|es| - 1].Performed?
                 && SeenOf(es[|es| - 1]) == SeenExecution(p.value.block, p.value.index, show(p.value.tx),
                                                         show(p.value.currentState), show(p.value.newState))
  {
    hide FullNode.Executions, FullNode.Updates;
    var evs, all := ChainEvents(c, show, logs[..|logs| - 1]), ChainEvents(c, show, logs);
    if all != evs {
      SplitMore(evs, all[|all| - 1]);
      assert FullNode.Executions(evs) + [] == FullNode.Executions(evs);
    }
  }

  lemma SeenMore(show: Bytes -> string, ls: seq<Watcher.L1Event>, bs: seq<Event>)
    requires ls != [] && bs != [] && AllSeenIn(show, ls[..|ls| - 1]) == AllSeenOf(bs[..|bs| - 1])
    requires SeenIn(show, ls[|ls| - 1]) == SeenOf(bs[|bs| - 1])
    ensures AllSeenIn(show, ls) == AllSeenOf(bs)
  {
    hide SeenOf, SeenIn;
    assert AllSeenIn(show, ls) == AllSeenIn(show, ls[..|ls| - 1]) + [SeenIn(show, ls[|ls| - 1])];
    assert AllSeenOf(bs) == AllSeenOf(bs[..|bs| - 1]) + [SeenOf(bs[|bs| - 1])];
  }

  lemma {:induction false} ExecutionsSeen(c: Watcher.Config, times: nat -> Option<nat>, show: Bytes -> string,
                                          consumed: Bytes -> seq<Consumed>, logs: seq<Watcher.Log>)
    requires Watcher.ValidConfig(c)
    ensures AllSeenIn(show, Watcher.Expected(Watcher.AllPerformed(c, times, logs), consumed)) ==
            AllSeenOf(FullNode.Executions(ChainEvents(c, show, logs)))
  {
    if logs == [] {
      assert AllSeenOf(FullNode.Executions(ChainEvents(c, show, []))) == [];
      assert AllSeenIn(show, Watcher.Expected(Watcher.AllPerformed(c, times, []), consumed)) == [];
    } else {
      var before, log := logs[..|logs| - 1], logs[|logs| - 1];
      ExecutionsSeen(c, times, show, consumed, before);
      ChainMore(c, times, show, logs);
      var ps, p := Watcher.AllPerformed(c, times, before), Watcher.PerformedIn(c, times, log);
      hide Watcher.Pair, Watcher.PerformedIn, ChainEvents, FullNode.Executions, AllSeenIn, AllSeenOf;
      if p.Some? {
        assert (ps + [p.value])[..|ps|] == ps;
        var es := Watcher.Expected(ps + [p.value], consumed);
        assert es[..|es| - 1] == Watcher.Expected(ps, consumed);
        SeenMore(show, es, FullNode.Executions(ChainEvents(c, show, logs)));
      }
    }
  }

  /** The list that the watcher returns is, event by event, the chain's own list in the watcher's order. */
  lemma WatcherSees(c: Watcher.Config, times: nat -> Option<nat>, show: Bytes -> string, logs: seq<Watcher.Log>)
    requires Watcher.ValidConfig(c)
    ensures AllSeenIn(show, Watcher.Events(c, times, logs)) == AllSeenOf(RustNode.WatcherOrder(ChainEvents(c, show, logs)))
  {
    hide Watcher.AllUpdates, Watcher.AllPerformed, Watcher.Expected, ChainEvents, SeenOf, SeenIn;
    hide FullNode.Updates, FullNode.Executions;
    var consumed := tx => Watcher.ConsumedOf(c, logs, tx);
    UpdatesSeen(c, show, logs);
    ExecutionsSeen(c, times, show, consumed, logs);
  }

  // ---------- A batch planned by the builder ----------

  /** The events that the entries of a plan lead to on L1, one execution each in one block. */
  function PlanEvents(show: Bytes -> string, l1Tx: nat -> string, block: nat, entries: seq<Entry>): (r: seq<Event>)
    requires forall i :: 0 <= i < |entries| ==> entries[i].deltas != []
    ensures |r| == |entries|
  {
    seq(|entries|, i requires 0 <= i < |entries| =>
      Performed(block, i, l1Tx(i), show(entries[i].deltas[0].currentState), show(entries[i].deltas[0].newState)))
  }

  lemma {:induction false} OnlyFirst(evs: seq<Event>)
    requires forall i :: 0 < i < |evs| ==> !IsChange(evs[i])
    ensures AccountingLast(evs)
    ensures Changes(evs) == if evs != [] && IsChange(evs[0]) then [evs[0]] else []
  {
    if evs == [] {
    } else {
      NoneChange(evs[1..]);
      assert [evs[0]] + [] == [evs[0]];
    }
  }

  lemma {:induction false} NoneChange(evs: seq<Event>)
    requires forall i :: 0 <= i < |evs| ==> !IsChange(evs[i])
    ensures Changes(evs) == []
  {
    if evs == [] {
    } else {
      NoneChange(evs[1..]);
    }
  }

  /** Of a planned batch the nodes replay the first transaction, on its own, if it moves the state, and
      nothing else: all further entries look like accounting. */
  lemma PlannedCalls(keccak: Bytes -> Bytes, rollupId: nat, txs: seq<Bytes>, current: Bytes, next: Bytes,
                     show: Bytes -> string, l1Tx: nat -> string, block: nat)
    requires txs != []
    ensures var evs := PlanEvents(show, l1Tx, block, Plans.BatchEntries(keccak, rollupId, txs, current, next));
            && |evs| == |txs| && AccountingLast(evs) && BlockEvents(L1Block("", evs), block)
            && Calls(evs) == if show(current) == show(next) then [] else [[evs[0]]]
  {
    hide ActionHash;
    var evs := PlanEvents(show, l1Tx, block, Plans.BatchEntries(keccak, rollupId, txs, current, next));
    OneRun(evs, block);
    assert evs[..|evs|] == evs && evs[|evs|..] == [];
    OnlyFirst(evs);
  }

  lemma {:induction false} OneRun(evs: seq<Event>, block: nat)
    requires forall i :: 0 <= i < |evs| ==> evs[i].Performed? && evs[i].block == block
    ensures RunLength(evs, block) == |evs|
  {
    if evs == [] {
    } else {
      OneRun(evs[1..], block);
    }
  }

  /** What the builder's own node mines while the batch is planned. */
  function BuilderBatch(l: Schedule.L2, txs: seq<Bytes>, t: Option<nat>): Schedule.L2 {
    Schedule.MineOn(l, multiset(RawsOf(txs)), t)
  }

  function RawsOf(txs: seq<Bytes>): (r: seq<Schedule.L2Tx>)
    ensures |r| == |txs| && forall i :: 0 <= i < |r| ==> r[i] == Schedule.Raw(txs[i])
  {
    seq(|txs|, i requires 0 <= i < |txs| => Schedule.Raw(txs[i]))
  }

  /** How the first transaction of a planned batch reaches the nodes: wrapped into `executeL2TX`, with its own
      action consumed, and read by the library of the reth-based node. */
  ghost predicate FirstPosted(env: Schedule.Env, b: Schedule.BatchEvent, tx: Bytes) {
    && b.input == Calldata.ExecuteL2TxCalldata(env.executeL2Tx, env.rollupId, tx)
    && b.position == 0 && b.consumed == [Plans.L2TxAction(env.rollupId, tx)]
    && env.tsCall(b.input) == Ok(Some(tx)) && env.tsParse(tx).Ok?
    && |env.executeL2Tx| == Calldata.SELECTOR_SIZE && |tx| < U64_LIMIT
  }

  lemma FirstReplayed(env: Schedule.Env, l: Schedule.L2, b: Schedule.BatchEvent, tx: Bytes, t: Option<nat>)
    requires FirstPosted(env, b, tx)
    ensures Schedule.TsEventReplay(env, l, b, t) == Ok(BuilderBatch(l, [tx], t))
    ensures Schedule.RustEventReplay(env, l, b, Schedule.RustTime(t)) == Ok(BuilderBatch(l, [tx], t))
  {
    hide Schedule.MineOn, Calldata.ExecuteL2TxCalldata, Schedule.RustCall, Schedule.RustTime;
    Schedule.CallFound(env, tx, env.rollupId);
    assert Schedule.TsResult(b) == None;
    assert Schedule.FirstResult(b.consumed) == Schedule.FirstResult(b.consumed[1..]) == None;
    Schedule.SingleIff(env, l, Schedule.Item(tx, env.tsParse(tx).value, None), t);
    assert RawsOf([tx]) == [Schedule.Raw(tx)];
  }

  /** The blocks of the builder and of one transaction differ as soon as there is a second one. */
  lemma BuilderMore(l: Schedule.L2, txs: seq<Bytes>, t: Option<nat>)
    requires txs != []
    ensures BuilderBatch(l, txs, t) == BuilderBatch(l, [txs[0]], t) <==> |txs| == 1
  {
    hide Schedule.MineTime;
    var at := |l.blocks|;
    assert |multiset(RawsOf(txs))| == |txs| && |multiset(RawsOf([txs[0]]))| == 1;
    assert BuilderBatch(l, txs, t).blocks[at].txs == multiset(RawsOf(txs));
    assert BuilderBatch(l, [txs[0]], t).blocks[at].txs == multiset(RawsOf([txs[0]]));
    if |txs| == 1 {
      assert txs == [txs[0]];
    }
  }

  /** A planned batch from the builder to both nodes.  While planning, the builder mines all transactions in
      one block.  From the events on L1 both nodes mine a block with the first one alone, and yet
      track the root of all of them.  So builder and nodes have the same block exactly if the batch is one
      transaction. */
  lemma PlannedBatchReplayed(keccak: Bytes -> Bytes, env: Schedule.Env, src: Source, v: View, txs: seq<Bytes>,
                             current: Bytes, next: Bytes, show: Bytes -> string, l1Tx: nat -> string, block: nat)
    requires txs != [] && show(current) != show(next) && src.stateRoot(v.l2) != show(next)
    requires var evs := PlanEvents(show, l1Tx, block, Plans.BatchEntries(keccak, env.rollupId, txs, current, next));
             FirstPosted(env, src.info(evs[0]), txs[0])
    ensures var evs := PlanEvents(show, l1Tx, block, Plans.BatchEntries(keccak, env.rollupId, txs, current, next));
            var (l, t) := (src.chain(v.l2), src.time(block));
            var after := View(show(next), v.l2 + src.mined(l, BuilderBatch(l, [txs[0]], t)));
            && ApplyEvents(Reth(env, src), v, evs) == after
            && ApplyEvents(Ethrex(env, src), v, RustNode.WatcherOrder(evs)) == after
            && (BuilderBatch(l, txs, t) == BuilderBatch(l, [txs[0]], t) <==> |txs| == 1)
  {
    hide ActionHash, ApplyEvents, Calls, FirstPosted, BuilderBatch, AccountingLast, IsChange, RustNode.WatcherOrder;
    hide RethSingle, EthrexSingle;
    hide Schedule.TsEventReplay, Schedule.RustEventReplay, Schedule.RustTime;
    var evs := PlanEvents(show, l1Tx, block, Plans.BatchEntries(keccak, env.rollupId, txs, current, next));
    var (l, t, e) := (src.chain(v.l2), src.time(block), evs[0]);
    BuilderMore(l, txs, t);
    PlannedCalls(keccak, env.rollupId, txs, current, next, show, l1Tx, block);
    FirstReplayed(env, l, src.info(e), txs[0], t);
    OnlyExecutions(evs);
    ReplayedOne(Reth(env, src), v, evs);
    ReplayedOne(Ethrex(env, src), v, evs);
    SinglesMine(env, src, v.l2, e, txs[0]);
  }

  lemma SinglesMine(env: Schedule.Env, src: Source, l2: seq<string>, e: Event, tx: Bytes)
    requires FirstPosted(env, src.info(e), tx) && src.stateRoot(l2) != e.newState
    ensures var (l, t) := (src.chain(l2), src.time(e.block));
            && RethSingle(env, src, l2, e) == src.mined(l, BuilderBatch(l, [tx], t))
            && EthrexSingle(env, src, l2, e) == src.mined(l, BuilderBatch(l, [tx], t))
  {
    hide BuilderBatch, Schedule.TsEventReplay, Schedule.RustEventReplay, Schedule.RustTime;
    hide Calldata.ExecuteL2TxCalldata;
    FirstReplayed(env, src.chain(l2), src.info(e), tx, src.time(e.block));
  }

  lemma {:induction false} OnlyExecutions(evs: seq<Event>)
    requires forall i :: 0 <= i < |evs| ==> evs[i].Performed?
    ensures FullNode.Updates(evs) == [] && FullNode.Executions(evs) == evs && RustNode.WatcherOrder(evs) == evs
  {
    if evs == [] {
    } else {
      OnlyExecutions(evs[1..]);
      assert evs == [evs[0]] + evs[1..];
      assert [] + evs == evs;
    }
  }

  /** Events of which one is replayed lead to what it mines, and to the state of the last one. */
  lemma ReplayedOne(x: Executor, v: View, evs: seq<Event>)
    requires evs != [] && Calls(evs) == [[evs[0]]] && AccountingLast(evs)
    ensures ApplyEvents(x, v, evs) == View(evs[|evs| - 1].newState, v.l2 + x.single(v.l2, evs[0]))
  {
    hide ApplyEvents, Calls, AccountingLast;
    ChainOfCalls(x, v, evs);
    TrackedRootFollowsL1(x, v, evs);
    assert [[evs[0]]][1..] == [];
  }
}
