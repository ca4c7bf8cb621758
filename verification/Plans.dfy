/** The plans of the builder: chained entries, the actions that unlock them, and their consumption. */
module Plans {
  import opened Abi
  import opened Actions
  import opened Bytes
  import opened Entries
  import opened ExecutionCache
  import opened Wrappers

  function L2TxAction(rollupId: nat, rlp: Bytes): Action {
    Action(L2TX, rollupId, ZERO_ADDRESS, 0, rlp, false, ZERO_ADDRESS, 0, [])
  }

  function ResultOf(rollupId: nat, data: Bytes, failed: bool): Action {
    Action(RESULT, rollupId, ZERO_ADDRESS, 0, data, failed, ZERO_ADDRESS, 0, [])
  }

  function CallAction(rollupId: nat, destination: Bytes, value: nat, data: Bytes, source: Bytes): Action {
    Action(CALL, rollupId, destination, value, data, false, source, rollupId, [])
  }

  datatype Plan = Plan(entries: seq<Entry>, rootActions: seq<Action>)

  // ---------- Consuming a plan ----------

  /** The state after an entry's deltas for our rollup. */
  function NextState(rollupId: nat, deltas: seq<StateDelta>, state: Bytes): Bytes {
    if deltas == [] then state
    else NextState(rollupId, deltas[1..], if deltas[0].rollupId == rollupId then deltas[0].newState else state)
  }

  function AfterEntry(rollupId: nat, e: Entry, state: Bytes): Bytes {
    NextState(rollupId, e.deltas, state)
  }

  /** That is the new state of the last delta for our rollup; those of other rollups play no part. */
  lemma {:induction false} LastOwnDelta(rollupId: nat, deltas: seq<StateDelta>, state: Bytes) returns (k: int)
    ensures -1 <= k < |deltas| && forall j :: k < j < |deltas| ==> deltas[j].rollupId != rollupId
    ensures k >= 0 ==> deltas[k].rollupId == rollupId
    ensures NextState(rollupId, deltas, state) == if k >= 0 then deltas[k].newState else state
  {
    if deltas == [] {
      k := -1;
    } else {
      k := LastOwnDelta(rollupId, deltas[1..], if deltas[0].rollupId == rollupId then deltas[0].newState else state);
      forall j | k + 1 < j < |deltas| ensures deltas[j].rollupId != rollupId {
        assert deltas[j] == deltas[1..][j - 1];
      }
      k := if k >= 0 then k + 1 else if deltas[0].rollupId == rollupId then 0 else -1;
    }
  }

  /** Consumes one entry per action hash, moving the state along; an action without one sticks. */
  function Drain(rollupId: nat, log: seq<Entry>, hashes: seq<Bytes>, state: Bytes): Result<(seq<Entry>, seq<Entry>, Bytes)>
    decreases |hashes|
  {
    if hashes == [] then Ok(([], log, state))
    else
      var (found, rest) := Consume(rollupId, log, hashes[0], state);
      if found.None? then Err
      else
        var (more, left, end) :- Drain(rollupId, rest, hashes[1..], AfterEntry(rollupId, found.value, state));
        Ok(([found.value] + more, left, end))
  }

  function ActionHashes(keccak: Bytes -> Bytes, actions: seq<Action>): (r: seq<Bytes>)
    ensures |r| == |actions| && forall i :: 0 <= i < |r| ==> r[i] == ActionHash(keccak, actions[i])
  {
    seq(|actions|, i requires 0 <= i < |actions| => ActionHash(keccak, actions[i]))
  }

  /** Each entry starts where the one before it ended. */
  ghost predicate Chained(rollupId: nat, entries: seq<Entry>, state: Bytes)
    decreases |entries|
  {
    entries == []
    || (Matches(rollupId, entries[0], state) && Chained(rollupId, entries[1..], AfterEntry(rollupId, entries[0], state)))
  }

  function EndState(rollupId: nat, entries: seq<Entry>, state: Bytes): Bytes
    decreases |entries|
  {
    if entries == [] then state else EndState(rollupId, entries[1..], AfterEntry(rollupId, entries[0], state))
  }

  /** No entry cached before is wanted in place of one of the plan. */
  ghost predicate Undisturbed(rollupId: nat, prior: seq<Entry>, entries: seq<Entry>, state: Bytes)
    decreases |entries|
  {
    entries == []
    || ((forall e :: e in prior ==> !Wanted(rollupId, e, entries[0].actionHash, state))
        && Undisturbed(rollupId, prior, entries[1..], AfterEntry(rollupId, entries[0], state)))
  }

  function Hashes(entries: seq<Entry>): (r: seq<Bytes>)
    ensures |r| == |entries| && forall i :: 0 <= i < |r| ==> r[i] == entries[i].actionHash
  {
    seq(|entries|, i requires 0 <= i < |entries| => entries[i].actionHash)
  }

  lemma TakesFirst(rollupId: nat, prior: seq<Entry>, entries: seq<Entry>, state: Bytes)
    requires entries != [] && Matches(rollupId, entries[0], state)
    requires forall e :: e in prior ==> !Wanted(rollupId, e, entries[0].actionHash, state)
    ensures Consume(rollupId, prior + entries, entries[0].actionHash, state) == (Some(entries[0]), prior + entries[1..])
  {
    hide Matches, Consume;
    var log := prior + entries;
    var i := ConsumesEarliest(rollupId, log, entries[0].actionHash, state);
    assert log[|prior|] == entries[0];
    assert forall j :: 0 <= j < |prior| ==> log[j] == prior[j] && prior[j] in prior;
    assert log[..i] + log[i + 1..] == prior + entries[1..];
  }

  /** Chained entries are consumed in order, and nothing else is. */
  lemma {:induction false} ChainDrains(rollupId: nat, prior: seq<Entry>, entries: seq<Entry>, state: Bytes)
    requires Chained(rollupId, entries, state) && Undisturbed(rollupId, prior, entries, state)
    ensures Drain(rollupId, prior + entries, Hashes(entries), state) == Ok((entries, prior, EndState(rollupId, entries, state)))
    decreases |entries|
  {
    hide Matches, Consume, Wanted, AfterEntry;
    if entries == [] {
      assert prior + entries == prior;
    } else {
      TakesFirst(rollupId, prior, entries, state);
      ChainDrains(rollupId, prior, entries[1..], AfterEntry(rollupId, entries[0], state));
      assert Hashes(entries)[1..] == Hashes(entries[1..]);
      assert entries == [entries[0]] + entries[1..];
    }
  }

  function EtherOf(deltas: seq<StateDelta>): int {
    if deltas == [] then 0 else deltas[0].etherDelta + EtherOf(deltas[1..])
  }

  function EtherSum(entries: seq<Entry>): int {
    if entries == [] then 0 else EtherOf(entries[0].deltas) + EtherSum(entries[1..])
  }

  // ---------- A batch of L2 transactions ----------

  function BatchEntry(keccak: Bytes -> Bytes, rollupId: nat, tx: Bytes, current: Bytes, next: Bytes): Entry {
    Entry([StateDelta(rollupId, current, next, 0)], ActionHash(keccak, L2TxAction(rollupId, tx)), ResultOf(rollupId, [], false))
  }

  /** One entry per transaction; the first carries the whole state transition. */
  function BatchEntries(keccak: Bytes -> Bytes, rollupId: nat, txs: seq<Bytes>, current: Bytes, next: Bytes): (r: seq<Entry>)
    ensures |r| == |txs|
    ensures forall i :: 0 <= i < |r| ==>
              r[i] == BatchEntry(keccak, rollupId, txs[i], if i == 0 then current else next, next) && r[i].deltas != []
  {
    seq(|txs|, i requires 0 <= i < |txs| => BatchEntry(keccak, rollupId, txs[i], if i == 0 then current else next, next))
  }

  // ---------- The actions, field by field ----------

  /** Action type 2: the L2 transaction `rlp` of our rollup, and nothing else. */
  predicate SaysTransaction(a: Action, rollupId: nat, rlp: Bytes) {
    a == Action(actionType := 2, rollupId := rollupId, destination := Zeros(20), value := 0, data := rlp, failed := false,
                sourceAddress := Zeros(20), sourceRollup := 0, scope := [])
  }

  /** Action type 1: what a call returned, and whether it failed. */
  predicate SaysResult(a: Action, rollupId: nat, data: Bytes, failed: bool) {
    a == Action(actionType := 1, rollupId := rollupId, destination := Zeros(20), value := 0, data := data, failed := failed,
                sourceAddress := Zeros(20), sourceRollup := 0, scope := [])
  }

  /** Action type 0: a call by `source` of our rollup. */
  predicate SaysCall(a: Action, rollupId: nat, destination: Bytes, value: nat, data: Bytes, source: Bytes) {
    a == Action(actionType := 0, rollupId := rollupId, destination := destination, value := value, data := data, failed := false,
                sourceAddress := source, sourceRollup := rollupId, scope := [])
  }

  /** Different transactions have different action hashes, where the hash tells their encodings apart. */
  lemma TransactionsTold(keccak: Bytes -> Bytes, rollupId: nat, a: Action, b: Action, x: Bytes, y: Bytes)
    requires SaysTransaction(a, rollupId, x) && SaysTransaction(b, rollupId, y)
    requires rollupId < Pow256(32) && |x| < SLICE_LIMIT && |y| < SLICE_LIMIT
    requires keccak(AbiEncode(a)) == keccak(AbiEncode(b)) ==> AbiEncode(a) == AbiEncode(b)
    ensures ActionHash(keccak, a) == ActionHash(keccak, b) <==> x == y
  {
    hide AbiEncode, ActionHash, ValidAction, Pow256;
    ValidTransaction(a, rollupId, x);
    ValidTransaction(b, rollupId, y);
    EqualHashesEqualActions(keccak, a, b);
  }

  lemma ValidTransaction(a: Action, rollupId: nat, x: Bytes)
    requires SaysTransaction(a, rollupId, x) && rollupId < Pow256(32) && |x| < SLICE_LIMIT
    ensures ValidAction(a)
  {
    hide Pow256;
    Wide(0);
  }

  method PlanL2Batch(keccak: Bytes -> Bytes, rollupId: nat, signedTxs: seq<Bytes>, current: Bytes, next: Bytes)
    returns (plan: Plan)
    ensures |plan.entries| == |plan.rootActions| == |signedTxs|
    ensures forall i :: 0 <= i < |signedTxs| ==>
              EntrySays(keccak, rollupId, plan.entries[i], plan.rootActions[i], signedTxs[i],
                        if i == 0 then current else next, next)
    ensures plan.entries == BatchEntries(keccak, rollupId, signedTxs, current, next)
    ensures BatchPlanned(keccak, rollupId, plan, current, next)
  {
    hide *;
    var entries: seq<Entry> := [];
    for i := 0 to |signedTxs|
      invariant entries == BatchEntries(keccak, rollupId, signedTxs, current, next)[..i]
    {
      BatchEntryIs(keccak, rollupId, signedTxs[i], if i == 0 then current else next, next);
      var actionHash := ActionHash(keccak, L2TxAction(rollupId, signedTxs[i]));
      var result := ResultOf(rollupId, [], false);
      if i == 0 {
        entries := entries + [Entry([StateDelta(rollupId, current, next, 0)], actionHash, result)];
      } else {
        entries := entries + [Entry([StateDelta(rollupId, next, next, 0)], actionHash, result)];
      }
    }
    plan := Plan(entries, seq(|signedTxs|, i requires 0 <= i < |signedTxs| => L2TxAction(rollupId, signedTxs[i])));
    BatchChained(keccak, rollupId, plan, signedTxs, current, next);
    forall i | 0 <= i < |signedTxs|
      ensures EntrySays(keccak, rollupId, plan.entries[i], plan.rootActions[i], signedTxs[i],
                        if i == 0 then current else next, next)
    {
      EntryFields(keccak, rollupId, signedTxs[i], if i == 0 then current else next, next);
    }
  }

  predicate EntrySays(keccak: Bytes -> Bytes, rollupId: nat, e: Entry, a: Action, tx: Bytes, current: Bytes, next: Bytes) {
    && SaysTransaction(a, rollupId, tx) && e.actionHash == keccak(AbiEncode(a))
    && e.deltas == [StateDelta(rollupId := rollupId, currentState := current, newState := next, etherDelta := 0)]
    && SaysResult(e.nextAction, rollupId, [], false)
  }

  lemma EntryFields(keccak: Bytes -> Bytes, rollupId: nat, tx: Bytes, current: Bytes, next: Bytes)
    ensures EntrySays(keccak, rollupId, BatchEntry(keccak, rollupId, tx, current, next), L2TxAction(rollupId, tx), tx,
                      current, next)
  {
    hide AbiEncode;
  }

  lemma BatchEntryIs(keccak: Bytes -> Bytes, rollupId: nat, tx: Bytes, current: Bytes, next: Bytes)
    ensures BatchEntry(keccak, rollupId, tx, current, next) ==
            Entry([StateDelta(rollupId, current, next, 0)], ActionHash(keccak, L2TxAction(rollupId, tx)),
                  ResultOf(rollupId, [], false))
  {
  }

  /** A plan whose entries answer its root actions, form a chain from `start` to `end`, and move
      `ether` in total. */
  ghost predicate Planned(keccak: Bytes -> Bytes, rollupId: nat, plan: Plan, start: Bytes, end: Bytes, ether: int) {
    && Hashes(plan.entries) == ActionHashes(keccak, plan.rootActions)
    && Chained(rollupId, plan.entries, start) && EndState(rollupId, plan.entries, start) == end
    && EtherSum(plan.entries) == ether
  }

  ghost predicate BatchPlanned(keccak: Bytes -> Bytes, rollupId: nat, plan: Plan, current: Bytes, next: Bytes) {
    Planned(keccak, rollupId, plan, current, if plan.entries == [] then current else next, 0)
  }

  lemma OneDelta(rollupId: nat, e: Entry, d: StateDelta)
    requires e.deltas == [d] && d.rollupId == rollupId
    ensures Matches(rollupId, e, d.currentState) && AfterEntry(rollupId, e, d.currentState) == d.newState
    ensures EtherOf(e.deltas) == d.etherDelta
  {
    assert e.deltas[1..] == [];
    assert NextState(rollupId, [], d.newState) == d.newState;
  }

  lemma NoDelta(rollupId: nat, e: Entry, state: Bytes)
    requires e.deltas == []
    ensures Matches(rollupId, e, state) && AfterEntry(rollupId, e, state) == state && EtherOf(e.deltas) == 0
  {
  }

  lemma {:induction false} Idle(rollupId: nat, entries: seq<Entry>, state: Bytes)
    requires forall i :: 0 <= i < |entries| ==> entries[i].deltas == [StateDelta(rollupId, state, state, 0)]
    ensures Chained(rollupId, entries, state) && EndState(rollupId, entries, state) == state && EtherSum(entries) == 0
    decreases |entries|
  {
    hide Matches, AfterEntry, EtherOf;
    if entries == [] {
    } else {
      OneDelta(rollupId, entries[0], StateDelta(rollupId, state, state, 0));
      Idle(rollupId, entries[1..], state);
    }
  }

  lemma BatchChained(keccak: Bytes -> Bytes, rollupId: nat, plan: Plan, txs: seq<Bytes>, current: Bytes, next: Bytes)
    requires plan.entries == BatchEntries(keccak, rollupId, txs, current, next) && |plan.rootActions| == |txs|
    requires forall i :: 0 <= i < |txs| ==> plan.rootActions[i] == L2TxAction(rollupId, txs[i])
    ensures BatchPlanned(keccak, rollupId, plan, current, next)
  {
    hide Matches, AfterEntry, EtherOf, ActionHash, L2TxAction, ResultOf;
    var entries := plan.entries;
    assert Hashes(entries) == ActionHashes(keccak, plan.rootActions);
    if entries != [] {
      OneDelta(rollupId, entries[0], StateDelta(rollupId, current, next, 0));
      Idle(rollupId, entries[1..], next);
    }
  }

  // ---------- A call from L2 to L1 ----------

  /** What the builder asks for an L2 to L1 call, with what its own node and L1 answered: the state
      after the proxy deploy, the state after the transaction if the simulation reports one, and the
      outcome of the call on L1. */
  datatype Request = Request(tx: Bytes, deploy: Option<(Bytes, Bytes)>, target: Bytes, data: Bytes, value: nat, sender: Bytes,
                             simulated: Option<Bytes>, returnData: Bytes, failed: bool)

  /** The stand-in for a state the simulation does not report. */
  function ComputeNewState(keccak: Bytes -> Bytes, state: Bytes, actionHash: Bytes): Bytes {
    keccak(state + actionHash)
  }

  function UserStart(r: Request, current: Bytes): Bytes {
    if r.deploy.Some? then r.deploy.value.1 else current
  }

  function UserEnd(keccak: Bytes -> Bytes, rollupId: nat, r: Request, current: Bytes): Bytes {
    if r.simulated.Some? then r.simulated.value
    else ComputeNewState(keccak, UserStart(r, current), ActionHash(keccak, L2TxAction(rollupId, r.tx)))
  }

  /** The user's transaction leads to the call on L1, from the state behind the proxy deploy to the state that
      was simulated, or to a hash that stands in for it. */
  predicate UserSays(keccak: Bytes -> Bytes, rollupId: nat, r: Request, start: Bytes, e: Entry, a: Action) {
    var current := match r.deploy { case Some((_, state)) => state case None => start };
    && SaysTransaction(a, rollupId, r.tx) && e.actionHash == keccak(AbiEncode(a))
    && SaysCall(e.nextAction, rollupId, r.target, r.value, r.data, r.sender)
    && |e.deltas| == 1 && e.deltas[0].rollupId == rollupId && e.deltas[0].currentState == current && e.deltas[0].etherDelta == 0
    && e.deltas[0].newState == match r.simulated { case Some(state) => state case None => keccak(current + e.actionHash) }
  }

  /** What the call returned on L1 unlocks the last entry, which moves the value out without moving the state. */
  predicate ReturnSays(keccak: Bytes -> Bytes, rollupId: nat, r: Request, state: Bytes, e: Entry, a: Action) {
    && SaysResult(a, rollupId, r.returnData, r.failed) && e.actionHash == keccak(AbiEncode(a))
    && SaysResult(e.nextAction, rollupId, r.returnData, r.failed)
    && e.deltas == if r.value == 0 then []
                   else [StateDelta(rollupId := rollupId, currentState := state, newState := state, etherDelta := 0 - r.value)]
  }

  predicate CallPlanned(keccak: Bytes -> Bytes, rollupId: nat, r: Request, start: Bytes, plan: Plan) {
    var n := if r.deploy.Some? then 3 else 2;
    && |plan.entries| == |plan.rootActions| == n
    && UserSays(keccak, rollupId, r, start, plan.entries[n - 2], plan.rootActions[n - 2])
    && ReturnSays(keccak, rollupId, r, plan.entries[n - 2].deltas[0].newState, plan.entries[n - 1], plan.rootActions[n - 1])
    && (r.deploy.Some? ==>
          EntrySays(keccak, rollupId, plan.entries[0], plan.rootActions[0], r.deploy.value.0, start, r.deploy.value.1))
  }

  lemma UserFields(keccak: Bytes -> Bytes, rollupId: nat, r: Request, start: Bytes)
    ensures var a := L2TxAction(rollupId, r.tx);
            var delta := StateDelta(rollupId, UserStart(r, start), UserEnd(keccak, rollupId, r, start), 0);
            UserSays(keccak, rollupId, r, start,
                     Entry([delta], ActionHash(keccak, a), CallAction(rollupId, r.target, r.value, r.data, r.sender)), a)
  {
    hide AbiEncode;
  }

  lemma ReturnFields(keccak: Bytes -> Bytes, rollupId: nat, r: Request, state: Bytes)
    ensures var a := ResultOf(rollupId, r.returnData, r.failed);
            var deltas := if r.value > 0 then [StateDelta(rollupId, state, state, 0 - r.value)] else [];
            ReturnSays(keccak, rollupId, r, state, Entry(deltas, ActionHash(keccak, a), a), a)
  {
    hide AbiEncode;
  }

  method PlanL2ToL1Call(keccak: Bytes -> Bytes, rollupId: nat, r: Request, start: Bytes) returns (plan: Plan)
    ensures Planned(keccak, rollupId, plan, start, UserEnd(keccak, rollupId, r, start), 0 - r.value)
    ensures CallPlanned(keccak, rollupId, r, start, plan)
  {
    hide Matches, AfterEntry, EtherOf, ActionHash, L2TxAction, ResultOf, CallAction, Chained, EndState, EtherSum, NextState;
    hide UserSays, ReturnSays, EntrySays;
    UserFields(keccak, rollupId, r, start);
    ReturnFields(keccak, rollupId, r, UserEnd(keccak, rollupId, r, start));
    var entries: seq<Entry>, rootActions: seq<Action> := [], [];
    var current := start;
    if r.deploy.Some? {
      var deployAction := L2TxAction(rollupId, r.deploy.value.0);
      var postDeploy := r.deploy.value.1;
      var delta := StateDelta(rollupId, current, postDeploy, 0);
      entries := entries + [Entry([delta], ActionHash(keccak, deployAction), ResultOf(rollupId, [], false))];
      rootActions := rootActions + [deployAction];
      current := postDeploy;
    }
    var action := L2TxAction(rollupId, r.tx);
    var actionHash := ActionHash(keccak, action);
    var post := if r.simulated.Some? then r.simulated.value else ComputeNewState(keccak, current, actionHash);
    var call := CallAction(rollupId, r.target, r.value, r.data, r.sender);
    var user := Entry([StateDelta(rollupId, current, post, 0)], actionHash, call);
    entries := entries + [user];
    rootActions := rootActions + [action];
    var result := ResultOf(rollupId, r.returnData, r.failed);
    var deltas := if r.value > 0 then [StateDelta(rollupId, post, post, 0 - r.value)] else [];
    var last := Entry(deltas, ActionHash(keccak, result), result);
    entries := entries + [last];
    rootActions := rootActions + [result];
    plan := Plan(entries, rootActions);
    assert Hashes(entries) == ActionHashes(keccak, rootActions);
    CallChained(rollupId, [user, last], current, post, r.value);
    if r.deploy.Some? {
      assert entries[1..] == [user, last];
      OneDelta(rollupId, entries[0], StateDelta(rollupId, start, current, 0));
      EntryFields(keccak, rollupId, r.deploy.value.0, start, current);
      BatchEntryIs(keccak, rollupId, r.deploy.value.0, start, current);
      ChainStep(rollupId, entries, start);
    } else {
      assert entries == [user, last];
    }
  }

  lemma ChainStep(rollupId: nat, entries: seq<Entry>, state: Bytes)
    requires entries != [] && Matches(rollupId, entries[0], state)
    requires Chained(rollupId, entries[1..], AfterEntry(rollupId, entries[0], state))
    ensures Chained(rollupId, entries, state)
    ensures EndState(rollupId, entries, state) == EndState(rollupId, entries[1..], AfterEntry(rollupId, entries[0], state))
    ensures EtherSum(entries) == EtherOf(entries[0].deltas) + EtherSum(entries[1..])
  {
  }

  lemma CallChained(rollupId: nat, entries: seq<Entry>, current: Bytes, post: Bytes, value: nat)
    requires |entries| == 2 && entries[0].deltas == [StateDelta(rollupId, current, post, 0)]
    requires entries[1].deltas == if value > 0 then [StateDelta(rollupId, post, post, 0 - value)] else []
    ensures Chained(rollupId, entries, current) && EndState(rollupId, entries, current) == post && EtherSum(entries) == 0 - value
  {
    hide Matches, AfterEntry, EtherOf;
    OneDelta(rollupId, entries[0], StateDelta(rollupId, current, post, 0));
    if value > 0 {
      OneDelta(rollupId, entries[1], StateDelta(rollupId, post, post, 0 - value));
    } else {
      NoDelta(rollupId, entries[1], post);
    }
    assert entries[1..][0] == entries[1] && entries[1..][1..] == [];
    NothingMore(rollupId, post);
    ChainStep(rollupId, entries[1..], post);
    ChainStep(rollupId, entries, current);
  }

  lemma NothingMore(rollupId: nat, state: Bytes)
    ensures Chained(rollupId, [], state) && EndState(rollupId, [], state) == state && EtherSum([]) == 0
  {
  }

  // ---------- Plans drain ----------

  /** Caching a plan behind whatever is cached and consuming its root actions in order from its start
      never sticks: it serves exactly the plan's entries in order, duplicate transactions included,
      ends at the planned state and leaves the earlier entries behind. */
  lemma PlanDrains(keccak: Bytes -> Bytes, rollupId: nat, plan: Plan, start: Bytes, end: Bytes, ether: int, prior: seq<Entry>)
    requires Planned(keccak, rollupId, plan, start, end, ether) && Undisturbed(rollupId, prior, plan.entries, start)
    ensures Drain(rollupId, prior + plan.entries, ActionHashes(keccak, plan.rootActions), start) == Ok((plan.entries, prior, end))
  {
    ChainDrains(rollupId, prior, plan.entries, start);
  }

  /** An empty cache disturbs nothing, and neither do entries under other hashes. */
  lemma {:induction false} OtherHashes(rollupId: nat, prior: seq<Entry>, entries: seq<Entry>, state: Bytes)
    requires forall e, f :: e in prior && f in entries ==> e.actionHash != f.actionHash
    ensures Undisturbed(rollupId, prior, entries, state)
    decreases |entries|
  {
    hide Matches, AfterEntry;
    if entries == [] {
    } else {
      assert entries[0] in entries;
      OtherHashes(rollupId, prior, entries[1..], AfterEntry(rollupId, entries[0], state));
    }
  }
}
