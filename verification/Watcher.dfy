/** The ethrex-based node's watcher: from the raw logs of a block range to the events to replay.
    It groups executions by L1 transaction in a hash map, whose iteration order is arbitrary. */
module Watcher {
  import opened Actions
  import opened Bytes
  import opened Sorting
  import opened Wrappers
  import Schedule

  datatype Log = Log(topics: seq<Bytes>, data: Bytes, block: nat, index: nat, tx: Bytes)

  /** The signatures of the three events, and the rollup the node follows. */
  datatype Config = Config(performedSig: Bytes, consumedSig: Bytes, updatedSig: Bytes, rollupId: nat)

  ghost predicate ValidConfig(c: Config) {
    c.performedSig != c.consumedSig && c.performedSig != c.updatedSig && c.consumedSig != c.updatedSig
  }

  datatype Performed = Performed(currentState: Bytes, newState: Bytes, block: nat, tx: Bytes, timestamp: nat, index: nat)

  datatype L1Event =
    | StateUpdated(newStateRoot: Bytes)
    | L2Execution(performed: Performed, consumed: Option<Consumed>, result: Option<Consumed>)

  predicate OfOurRollup(c: Config, log: Log, sig: Bytes, size: nat) {
    |log.topics| >= 2 && log.topics[0] == sig && Nat(log.topics[1]) == c.rollupId && |log.data| >= size
  }

  /** The execution in a log, if there is one of our rollup; a block whose timestamp is unknown
      counts as mined at 0. */
  function PerformedIn(c: Config, times: nat -> Option<nat>, log: Log): Option<Performed> {
    if OfOurRollup(c, log, c.performedSig, 64)
    then Some(Performed(log.data[..32], log.data[32..64], log.block, log.tx,
                        if times(log.block).Some? then times(log.block).value else 0, log.index))
    else None
  }

  function UpdateIn(c: Config, log: Log): Option<L1Event> {
    if OfOurRollup(c, log, c.updatedSig, 32) then Some(StateUpdated(log.data[..32])) else None
  }

  /** The consumed action in a log, of whichever rollup; undecodable ones are skipped. */
  function ConsumedIn(c: Config, log: Log): Option<Consumed> {
    if log.topics != [] && log.topics[0] == c.consumedSig then
      var r := DecodeExecutionConsumed(log.data, if |log.topics| > 1 then log.topics[1] else Zeros(32));
      if r.Ok? then Some(r.value) else None
    else None
  }

  // ---------- Specification ----------

  function AllPerformed(c: Config, times: nat -> Option<nat>, logs: seq<Log>): seq<Performed> {
    if logs == [] then []
    else
      var before, p := AllPerformed(c, times, logs[..|logs| - 1]), PerformedIn(c, times, logs[|logs| - 1]);
      if p.Some? then before + [p.value] else before
  }

  function AllUpdates(c: Config, logs: seq<Log>): seq<L1Event> {
    if logs == [] then []
    else
      var before, u := AllUpdates(c, logs[..|logs| - 1]), UpdateIn(c, logs[|logs| - 1]);
      if u.Some? then before + [u.value] else before
  }

  /** What was consumed in L1 transaction `tx`, in log order. */
  function ConsumedOf(c: Config, logs: seq<Log>, tx: Bytes): seq<Consumed> {
    if logs == [] then []
    else
      var before, last := ConsumedOf(c, logs[..|logs| - 1], tx), logs[|logs| - 1];
      var x := ConsumedIn(c, last);
      if last.tx == tx && x.Some? then before + [x.value] else before
  }

  function OfTx(ps: seq<Performed>, tx: Bytes): (r: seq<Performed>)
    ensures |r| <= |ps|
  {
    if ps == [] then []
    else
      var before, p := OfTx(ps[..|ps| - 1], tx), ps[|ps| - 1];
      if p.tx == tx then before + [p] else before
  }

  function FirstResult(list: seq<Consumed>): Option<Consumed> {
    if list == [] then None
    else if list[0].action.actionType == RESULT then Some(list[0])
    else FirstResult(list[1..])
  }

  /** Execution number `i` of its L1 transaction: it goes with the action consumed at the same
      position, and the first one also with the result of the L1 call. */
  function Pair(p: Performed, i: nat, list: seq<Consumed>): (e: L1Event)
    ensures e.L2Execution? && e.performed == p
  {
    L2Execution(p, if i < |list| then Some(list[i]) else None, if i == 0 then FirstResult(list) else None)
  }

  function ActionsOf(list: seq<Consumed>): (r: seq<Action>)
    ensures |r| == |list| && forall i :: 0 <= i < |r| ==> r[i] == list[i].action
  {
    seq(|list|, i requires 0 <= i < |list| => list[i].action)
  }

  lemma {:induction false} FirstResultAction(list: seq<Consumed>)
    ensures var r := FirstResult(list);
            Schedule.FirstResult(ActionsOf(list)) == if r.Some? then Some(r.value.action) else None
  {
    if list == [] {
    } else {
      FirstResultAction(list[1..]);
      assert ActionsOf(list)[1..] == ActionsOf(list[1..]);
    }
  }

  /** What the watcher attaches is what the schedule of the ethrex-based node starts from. */
  lemma AttachesScheduledResult(p: Performed, i: nat, list: seq<Consumed>)
    ensures var r := Pair(p, i, list).result;
            Schedule.RustResult(Schedule.BatchEvent([], i, ActionsOf(list))) == if r.Some? then Some(r.value.action) else None
  {
    FirstResultAction(list);
  }

  /** The executions in chain order, each paired within its own transaction. */
  function Expected(ps: seq<Performed>, consumed: Bytes -> seq<Consumed>): (r: seq<L1Event>)
    ensures |r| == |ps| && forall i :: 0 <= i < |r| ==> r[i].L2Execution? && r[i].performed == ps[i]
  {
    if ps == [] then []
    else
      var before, p := ps[..|ps| - 1], ps[|ps| - 1];
      Expected(before, consumed) + [Pair(p, |OfTx(before, p.tx)|, consumed(p.tx))]
  }

  function Events(c: Config, times: nat -> Option<nat>, logs: seq<Log>): seq<L1Event> {
    AllUpdates(c, logs) + Expected(AllPerformed(c, times, logs), tx => ConsumedOf(c, logs, tx))
  }

  // ---------- What each log leads to ----------

  /** How many logs have the property. */
  function Count(p: Log -> bool, logs: seq<Log>): nat {
    if logs == [] then 0 else Count(p, logs[..|logs| - 1]) + if p(logs[|logs| - 1]) then 1 else 0
  }

  /** A log with the signature `sig` of our rollup and at least `size` bytes. */
  predicate IsOurs(c: Config, log: Log, sig: Bytes, size: nat) {
    |log.topics| >= 2 && log.topics[0] == sig && Nat(log.topics[1]) == c.rollupId && |log.data| >= size
  }

  function IsUpdate(c: Config): Log -> bool {
    (log: Log) => IsOurs(c, log, c.updatedSig, 32)
  }

  function IsExecution(c: Config): Log -> bool {
    (log: Log) => IsOurs(c, log, c.performedSig, 64)
  }

  function IsExecutionOf(c: Config, tx: Bytes): Log -> bool {
    (log: Log) => IsOurs(c, log, c.performedSig, 64) && log.tx == tx
  }

  /** A log that tells what was consumed in L1 transaction `tx`, for whichever rollup. */
  function IsConsumptionOf(c: Config, tx: Bytes): Log -> bool {
    (log: Log) => log.topics != [] && log.topics[0] == c.consumedSig && log.tx == tx
           && DecodeExecutionConsumed(log.data, if |log.topics| == 1 then Zeros(32) else log.topics[1]).Ok?
  }

  /** The execution of a log, field by field: with its own block's timestamp, or 0 if that is unknown. */
  predicate Tells(times: nat -> Option<nat>, log: Log, p: Performed)
    requires |log.data| >= 64
  {
    && p.currentState == log.data[0..32] && p.newState == log.data[32..64]
    && p.block == log.block && p.tx == log.tx && p.index == log.index
    && p.timestamp == match times(log.block) { case Some(t) => t case None => 0 }
  }

  lemma {:induction false} PerformedCounts(c: Config, times: nat -> Option<nat>, logs: seq<Log>, tx: Bytes)
    ensures |AllPerformed(c, times, logs)| == Count(IsExecution(c), logs)
    ensures |OfTx(AllPerformed(c, times, logs), tx)| == Count(IsExecutionOf(c, tx), logs)
  {
    if logs == [] {
    } else {
      var n := |logs| - 1;
      PerformedCounts(c, times, logs[..n], tx);
      var before, p := AllPerformed(c, times, logs[..n]), PerformedIn(c, times, logs[n]);
      if p.Some? {
        assert (before + [p.value])[..|before|] == before;
      }
    }
  }

  lemma Shorter(logs: seq<Log>, k: nat)
    requires k < |logs|
    ensures logs[..|logs| - 1][..k] == logs[..k]
  {
  }

  /** The consumed actions of one L1 transaction are listed one for each of their logs, in log order. */
  lemma {:induction false} ConsumedAt(c: Config, logs: seq<Log>, tx: Bytes, k: nat)
    ensures |ConsumedOf(c, logs, tx)| == Count(IsConsumptionOf(c, tx), logs)
    ensures k < |logs| && IsConsumptionOf(c, tx)(logs[k]) ==>
              var (at, log) := (Count(IsConsumptionOf(c, tx), logs[..k]), logs[k]);
              var consumed := DecodeExecutionConsumed(log.data, if |log.topics| == 1 then Zeros(32) else log.topics[1]);
              at < |ConsumedOf(c, logs, tx)| && Ok(ConsumedOf(c, logs, tx)[at]) == consumed
  {
    hide DecodeExecutionConsumed;
    if logs == [] {
    } else {
      ConsumedAt(c, logs[..|logs| - 1], tx, k);
      if k < |logs| { Shorter(logs, k); }
    }
  }

  /** Log `k`, an execution of our rollup, leads to exactly one event, at the place that the executions before
      it leave: its own fields, the action consumed at the same position in its L1 transaction if there is
      one, and, for the first execution there, the first result that was consumed. */
  lemma {:induction false} ExecutionAt(c: Config, times: nat -> Option<nat>, logs: seq<Log>, k: nat,
                                       consumed: Bytes -> seq<Consumed>)
    requires k < |logs| && IsExecution(c)(logs[k])
    ensures var es := Expected(AllPerformed(c, times, logs), consumed);
            var (at, i) := (Count(IsExecution(c), logs[..k]), Count(IsExecutionOf(c, logs[k].tx), logs[..k]));
            var list := consumed(logs[k].tx);
            && at < |es| && es[at].L2Execution? && Tells(times, logs[k], es[at].performed)
            && es[at].consumed == (if i < |list| then Some(list[i]) else None)
            && es[at].result == (if i == 0 then FirstResult(list) else None)
  {
    hide FirstResult, Count, OfTx, Tells, IsExecution, IsExecutionOf, Expected, AllPerformed;
    var n := |logs| - 1;
    if k < n {
      Shorter(logs, k);
      ExecutionAt(c, times, logs[..n], k, consumed);
      EarlierExpected(c, times, logs, consumed);
      ExecutionSize(c, logs[k]);
    } else {
      PerformedCounts(c, times, logs[..n], logs[k].tx);
      LatestExpected(c, times, logs, consumed);
    }
  }

  lemma ExecutionSize(c: Config, log: Log)
    requires IsExecution(c)(log)
    ensures |log.data| >= 64
  {
  }

  lemma EarlierExpected(c: Config, times: nat -> Option<nat>, logs: seq<Log>, consumed: Bytes -> seq<Consumed>)
    requires logs != []
    ensures var (es, all) := (Expected(AllPerformed(c, times, logs[..|logs| - 1]), consumed),
                              Expected(AllPerformed(c, times, logs), consumed));
            |es| <= |all| && forall i :: 0 <= i < |es| ==> all[i] == es[i]
  {
    hide Pair;
    var ps, all := AllPerformed(c, times, logs[..|logs| - 1]), AllPerformed(c, times, logs);
    if all != ps {
      assert all[..|all| - 1] == ps;
    }
  }

  lemma LatestExpected(c: Config, times: nat -> Option<nat>, logs: seq<Log>, consumed: Bytes -> seq<Consumed>)
    requires logs != [] && IsExecution(c)(logs[|logs| - 1])
    ensures var (ps, log) := (AllPerformed(c, times, logs[..|logs| - 1]), logs[|logs| - 1]);
            var (es, i, list) := (Expected(AllPerformed(c, times, logs), consumed), |OfTx(ps, log.tx)|, consumed(log.tx));
            && |es| == |ps| + 1 && es[|ps|].L2Execution? && Tells(times, log, es[|ps|].performed)
            && es[|ps|].consumed == (if i < |list| then Some(list[i]) else None)
            && es[|ps|].result == (if i == 0 then FirstResult(list) else None)
  {
    hide FirstResult, OfTx;
    var ps, all := AllPerformed(c, times, logs[..|logs| - 1]), AllPerformed(c, times, logs);
    assert all[..|all| - 1] == ps;
  }

  /** That result is the first action of type RESULT, if there is one. */
  lemma {:induction false} FirstResultIs(list: seq<Consumed>) returns (m: nat)
    ensures m <= |list| && forall j :: 0 <= j < m ==> list[j].action.actionType != 1
    ensures m < |list| ==> list[m].action.actionType == 1
    ensures FirstResult(list) == if m < |list| then Some(list[m]) else None
  {
    if list == [] || list[0].action.actionType == 1 {
      m := 0;
    } else {
      var k := FirstResultIs(list[1..]);
      m := k + 1;
      forall j | 0 <= j < m ensures list[j].action.actionType != 1 {
        if j > 0 { assert list[j] == list[1..][j - 1]; }
      }
    }
  }

  /** The event that the watcher returns for an execution, from the logs alone.  It is taken for a call from
      L1 exactly if the action consumed at its position is one. */
  lemma EventOfLog(c: Config, times: nat -> Option<nat>, logs: seq<Log>, k: nat, input: Bytes)
    requires k < |logs| && IsExecution(c)(logs[k])
    ensures var (list, events, tx) := (ConsumedOf(c, logs, logs[k].tx), Events(c, times, logs), logs[k].tx);
            var at := Count(IsUpdate(c), logs) + Count(IsExecution(c), logs[..k]);
            var i := Count(IsExecutionOf(c, tx), logs[..k]);
            && at < |events| && events[at].L2Execution? && Tells(times, logs[k], events[at].performed)
            && (events[at].consumed.Some? <==> i < Count(IsConsumptionOf(c, tx), logs))
            && (i < |list| ==> events[at].consumed == Some(list[i]))
            && events[at].result == (if i == 0 then FirstResult(list) else None)
            && (Schedule.TakenForCall(Schedule.BatchEvent(input, i, ActionsOf(list))) <==>
                  events[at].consumed.Some? && events[at].consumed.value.action.actionType == 0)
  {
    hide AllUpdates, AllPerformed, Expected, Count, IsExecution, IsExecutionOf, IsConsumptionOf, FirstResult, ConsumedOf, Tells;
    var tx := logs[k].tx;
    UpdateAt(c, logs, 0);
    ConsumedAt(c, logs, tx, 0);
    ExecutionAt(c, times, logs, k, tx => ConsumedOf(c, logs, tx));
  }

  /** The state updates of our rollup, in log order. */
  lemma {:induction false} UpdateAt(c: Config, logs: seq<Log>, k: nat)
    ensures |AllUpdates(c, logs)| == Count(IsUpdate(c), logs)
    ensures k < |logs| && IsUpdate(c)(logs[k]) ==>
              var at := Count(IsUpdate(c), logs[..k]);
              at < |AllUpdates(c, logs)| && AllUpdates(c, logs)[at] == StateUpdated(logs[k].data[0..32])
  {
    if logs == [] {
    } else {
      UpdateAt(c, logs[..|logs| - 1], k);
      if k < |logs| { Shorter(logs, k); }
    }
  }

  /** The list holds nothing else. */
  lemma EventsCounted(c: Config, times: nat -> Option<nat>, logs: seq<Log>)
    ensures |Events(c, times, logs)| == Count(IsUpdate(c), logs) + Count(IsExecution(c), logs)
    ensures AllUpdates(c, logs) <= Events(c, times, logs)
  {
    hide AllUpdates, AllPerformed, Expected, Count, IsExecution, IsUpdate;
    UpdateAt(c, logs, 0);
    PerformedCounts(c, times, logs, []);
  }

  // ---------- Grouping by transaction ----------

  /** The pairs of one transaction. */
  function Pairs(list: seq<Performed>, consumed: seq<Consumed>): (r: seq<L1Event>)
    ensures |r| == |list| && forall i :: 0 <= i < |r| ==> r[i] == Pair(list[i], i, consumed)
  {
    seq(|list|, i requires 0 <= i < |list| => Pair(list[i], i, consumed))
  }

  predicate InTxs(e: L1Event, txs: set<Bytes>) {
    e.L2Execution? && e.performed.tx in txs
  }

  /** The events of `es` outside the transactions `txs`. */
  function Outside(es: seq<L1Event>, txs: set<Bytes>): seq<L1Event> {
    if es == [] then []
    else
      var before, e := Outside(es[..|es| - 1], txs), es[|es| - 1];
      if InTxs(e, txs) then before else before + [e]
  }

  function Inside(es: seq<L1Event>, tx: Bytes): seq<L1Event> {
    if es == [] then []
    else
      var before, e := Inside(es[..|es| - 1], tx), es[|es| - 1];
      if InTxs(e, {tx}) then before + [e] else before
  }

  lemma {:induction false} OneTxMore(es: seq<L1Event>, txs: set<Bytes>, tx: Bytes)
    requires tx in txs
    ensures multiset(Outside(es, txs - {tx})) == multiset(Outside(es, txs)) + multiset(Inside(es, tx))
  {
    if es == [] {
    } else {
      OneTxMore(es[..|es| - 1], txs, tx);
      var e := es[|es| - 1];
      assert InTxs(e, txs - {tx}) <==> InTxs(e, txs) && !InTxs(e, {tx});
      assert InTxs(e, {tx}) ==> InTxs(e, txs);
    }
  }

  lemma {:induction false} NoneLeftOut(es: seq<L1Event>)
    ensures Outside(es, {}) == es
  {
    if es == [] {
    } else {
      NoneLeftOut(es[..|es| - 1]);
      assert es == es[..|es| - 1] + [es[|es| - 1]];
    }
  }

  lemma {:induction false} AllLeftOut(es: seq<L1Event>, txs: set<Bytes>)
    requires forall i :: 0 <= i < |es| ==> InTxs(es[i], txs)
    ensures Outside(es, txs) == []
  {
    if es == [] {
    } else {
      AllLeftOut(es[..|es| - 1], txs);
    }
  }

  /** The events of one transaction are the pairs of its own list. */
  lemma {:induction false} InsideIsPairs(ps: seq<Performed>, consumed: Bytes -> seq<Consumed>, tx: Bytes)
    ensures Inside(Expected(ps, consumed), tx) == Pairs(OfTx(ps, tx), consumed(tx))
  {
    hide Pair;
    if ps == [] {
    } else {
      var before, p := ps[..|ps| - 1], ps[|ps| - 1];
      InsideIsPairs(before, consumed, tx);
      var es := Expected(ps, consumed);
      assert es[..|es| - 1] == Expected(before, consumed);
      assert InTxs(es[|es| - 1], {tx}) <==> p.tx == tx;
    }
  }

  lemma {:induction false} InSomeGroup(ps: seq<Performed>, i: nat)
    requires i < |ps|
    ensures OfTx(ps, ps[i].tx) != []
  {
    if i < |ps| - 1 {
      InSomeGroup(ps[..|ps| - 1], i);
    }
  }

  // ---------- The watcher's loops ----------

  function KeyOf(e: L1Event): Key {
    if e.L2Execution? then (e.performed.block, e.performed.index) else (0, 0)
  }

  /** `groups` holds exactly the non-empty groups of `ps`. */
  ghost predicate Grouped(groups: map<Bytes, seq<Performed>>, ps: seq<Performed>) {
    && (forall tx :: tx in groups ==> groups[tx] == OfTx(ps, tx))
    && (forall tx: Bytes :: OfTx(ps, tx) != [] ==> tx in groups)
  }

  lemma GroupedMore(groups: map<Bytes, seq<Performed>>, ps: seq<Performed>, p: Performed)
    requires Grouped(groups, ps)
    ensures Grouped(groups[p.tx := (if p.tx in groups then groups[p.tx] else []) + [p]], ps + [p])
  {
    assert (ps + [p])[..|ps|] == ps;
    forall tx: Bytes ensures OfTx(ps + [p], tx) == if p.tx == tx then OfTx(ps, tx) + [p] else OfTx(ps, tx) {
    }
  }

  /** First pass: executions by transaction, and state updates. */
  method FirstPass(c: Config, times: nat -> Option<nat>, logs: seq<Log>)
    returns (groups: map<Bytes, seq<Performed>>, events: seq<L1Event>)
    requires ValidConfig(c)
    ensures Grouped(groups, AllPerformed(c, times, logs)) && events == AllUpdates(c, logs)
  {
    hide Grouped, PerformedIn, UpdateIn;
    groups, events := map[], [];
    assert logs[..0] == [] && Grouped(groups, []) by { NoGroups(); }
    for i := 0 to |logs|
      invariant Grouped(groups, AllPerformed(c, times, logs[..i])) && events == AllUpdates(c, logs[..i])
    {
      assert logs[..i + 1][..i] == logs[..i] && logs[..i + 1][i] == logs[i];
      KindsDiffer(c, times, logs[i]);
      var p := PerformedIn(c, times, logs[i]);
      if p.Some? {
        GroupedMore(groups, AllPerformed(c, times, logs[..i]), p.value);
        groups := groups[p.value.tx := (if p.value.tx in groups then groups[p.value.tx] else []) + [p.value]];
      } else {
        var u := UpdateIn(c, logs[i]);
        if u.Some? {
          events := events + [u.value];
        }
      }
    }
    assert logs[..|logs|] == logs;
  }

  lemma NoGroups()
    ensures Grouped(map[], [])
  {
  }

  lemma KindsDiffer(c: Config, times: nat -> Option<nat>, log: Log)
    requires ValidConfig(c)
    ensures PerformedIn(c, times, log).None? || UpdateIn(c, log).None?
  {
  }

  ghost predicate Indexed(byTx: map<Bytes, seq<Consumed>>, c: Config, logs: seq<Log>) {
    && (forall tx :: tx in byTx ==> byTx[tx] == ConsumedOf(c, logs, tx))
    && (forall tx: Bytes :: ConsumedOf(c, logs, tx) != [] ==> tx in byTx)
  }

  lemma IndexedMore(byTx: map<Bytes, seq<Consumed>>, c: Config, logs: seq<Log>, i: nat)
    requires i < |logs| && Indexed(byTx, c, logs[..i])
    ensures var (x, tx) := (ConsumedIn(c, logs[i]), logs[i].tx);
            Indexed(if x.None? then byTx else byTx[tx := (if tx in byTx then byTx[tx] else []) + [x.value]], c, logs[..i + 1])
  {
    hide ConsumedIn;
    assert logs[..i + 1][..i] == logs[..i] && logs[..i + 1][i] == logs[i];
    forall tx: Bytes
      ensures ConsumedOf(c, logs[..i + 1], tx) ==
              if logs[i].tx == tx && ConsumedIn(c, logs[i]).Some?
              then ConsumedOf(c, logs[..i], tx) + [ConsumedIn(c, logs[i]).value]
              else ConsumedOf(c, logs[..i], tx)
    {
    }
  }

  /** Second pass: consumed actions by transaction. */
  method SecondPass(c: Config, logs: seq<Log>) returns (byTx: map<Bytes, seq<Consumed>>)
    ensures Indexed(byTx, c, logs)
  {
    hide Indexed, ConsumedIn;
    byTx := map[];
    assert logs[..0] == [] && Indexed(byTx, c, []) by { NothingIndexed(c); }
    for i := 0 to |logs|
      invariant Indexed(byTx, c, logs[..i])
    {
      IndexedMore(byTx, c, logs, i);
      var x := ConsumedIn(c, logs[i]);
      if x.Some? {
        var tx := logs[i].tx;
        byTx := byTx[tx := (if tx in byTx then byTx[tx] else []) + [x.value]];
      }
    }
    assert logs[..|logs|] == logs;
  }

  lemma NothingIndexed(c: Config)
    ensures Indexed(map[], c, [])
  {
  }

  method PairGroup(list: seq<Performed>, consumed: seq<Consumed>) returns (r: seq<L1Event>)
    ensures r == Pairs(list, consumed)
  {
    r := [];
    for i := 0 to |list|
      invariant r == Pairs(list, consumed)[..i]
    {
      r := r + [Pair(list[i], i, consumed)];
    }
  }

  lemma PickOne(txs: set<Bytes>)
    ensures txs == {} || exists tx :: tx in txs
  {
    if forall tx :: tx !in txs { assert txs == {}; }
  }

  /** The groups in any order, all their pairs. */
  method PairAll(groups: map<Bytes, seq<Performed>>, byTx: map<Bytes, seq<Consumed>>,
                 ghost ps: seq<Performed>, ghost consumed: Bytes -> seq<Consumed>) returns (execs: seq<L1Event>)
    requires Grouped(groups, ps)
    requires forall tx: Bytes :: consumed(tx) == if tx in byTx then byTx[tx] else []
    ensures multiset(execs) == multiset(Expected(ps, consumed))
  {
    hide Expected, Outside, Inside, Pairs, OfTx;
    execs := [];
    ghost var all := Expected(ps, consumed);
    var left := groups.Keys;
    EveryoneGrouped(groups, ps, consumed);
    while left != {}
      invariant left <= groups.Keys
      invariant multiset(execs) == multiset(Outside(all, left))
      decreases left
    {
      PickOne(left);
      var tx :| tx in left;
      OneTxMore(all, left, tx);
      InsideIsPairs(ps, consumed, tx);
      var pairs := PairGroup(groups[tx], if tx in byTx then byTx[tx] else []);
      execs := execs + pairs;
      left := left - {tx};
    }
    NoneLeftOut(all);
  }

  lemma EveryoneGrouped(groups: map<Bytes, seq<Performed>>, ps: seq<Performed>, consumed: Bytes -> seq<Consumed>)
    requires Grouped(groups, ps)
    ensures Outside(Expected(ps, consumed), groups.Keys) == []
  {
    hide Expected, Outside, OfTx;
    var es := Expected(ps, consumed);
    forall i | 0 <= i < |es| ensures InTxs(es[i], groups.Keys) {
      InSomeGroup(ps, i);
    }
    AllLeftOut(es, groups.Keys);
  }

  // ---------- Chain order ----------

  ghost predicate ChainOrder(logs: seq<Log>) {
    forall i, j :: 0 <= i < j < |logs| ==> Below((logs[i].block, logs[i].index), (logs[j].block, logs[j].index))
  }

  function PlaceOf(p: Performed): Key {
    (p.block, p.index)
  }

  ghost predicate AllBelow(ps: seq<Performed>, bound: Key) {
    forall i :: 0 <= i < |ps| ==> Below(PlaceOf(ps[i]), bound)
  }

  lemma {:induction false} PerformedBelow(c: Config, times: nat -> Option<nat>, logs: seq<Log>, bound: Key)
    requires forall i :: 0 <= i < |logs| ==> Below((logs[i].block, logs[i].index), bound)
    ensures AllBelow(AllPerformed(c, times, logs), bound)
  {
    if logs == [] {
    } else {
      PerformedBelow(c, times, logs[..|logs| - 1], bound);
    }
  }

  lemma {:induction false} PerformedAscend(c: Config, times: nat -> Option<nat>, logs: seq<Log>)
    requires ChainOrder(logs)
    ensures Ascending(PlaceOf, AllPerformed(c, times, logs))
  {
    if logs == [] {
    } else {
      var before, last := logs[..|logs| - 1], logs[|logs| - 1];
      PerformedAscend(c, times, before);
      PerformedBelow(c, times, before, (last.block, last.index));
      var ps, all := AllPerformed(c, times, before), AllPerformed(c, times, logs);
      assert all == ps || (|all| == |ps| + 1 && PlaceOf(all[|ps|]) == (last.block, last.index));
      forall i, j | 0 <= i < j < |all| ensures Below(PlaceOf(all[i]), PlaceOf(all[j])) {
        assert all[i] == ps[i];
        if j < |ps| { assert all[j] == ps[j]; }
      }
    }
  }

  lemma ExpectedAscend(ps: seq<Performed>, consumed: Bytes -> seq<Consumed>)
    requires Ascending(PlaceOf, ps)
    ensures Ascending(KeyOf, Expected(ps, consumed))
  {
    hide Expected;
  }

  /** Whatever order the hash map yields its groups in, the watcher returns the same events: the state
      updates of our rollup, then its executions in chain order, each with the action consumed at its
      position in its own L1 transaction. */
  method GetEvents(c: Config, times: nat -> Option<nat>, logs: seq<Log>) returns (events: seq<L1Event>)
    requires ValidConfig(c) && ChainOrder(logs)
    ensures events == Events(c, times, logs)
  {
    hide Expected, AllPerformed, AllUpdates, ConsumedOf, Sort, Ascending, ChainOrder;
    var groups, updates := FirstPass(c, times, logs);
    var byTx := SecondPass(c, logs);
    ghost var ps := AllPerformed(c, times, logs);
    ghost var consumed := tx => ConsumedOf(c, logs, tx);
    var execs := PairAll(groups, byTx, ps, consumed);
    PerformedAscend(c, times, logs);
    ExpectedAscend(ps, consumed);
    SortRestoresOrder(KeyOf, execs, Expected(ps, consumed));
    events := updates + Sort(KeyOf, execs);
  }
}
