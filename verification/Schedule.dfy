/** Which L2 blocks are mined for the same L1 events by the reth-based node, by the ethrex-based node
    and by the builder while it plans: their timestamps and their transactions. */
module Schedule {
  import opened Abi
  import opened Actions
  import opened Bytes
  import opened TxParsing
  import opened Wrappers
  import Calldata
  import Rlp
  import Transactions

  // ---------- The L2 chain ----------

  /** A user's transaction, the operator's call that loads one execution entry or makes a call from L1, or an
      L1 transaction sent again by the operator. */
  datatype L2Tx = Raw(bytes: Bytes) | Preload(call: Action, next: Action)
                | IncomingCall(incoming: Calldata.Incoming) | Forwarded(input: Bytes)

  datatype Block = Block(timestamp: nat, txs: multiset<L2Tx>)

  /** The timestamp of the head and the blocks on top of genesis. */
  datatype L2 = L2(head: nat, blocks: seq<Block>)

  /** A block is never older than its parent. */
  function MineTime(head: nat, given: Option<nat>): (t: nat)
    ensures t > head
    ensures given.Some? && given.value > head ==> t == given.value
    ensures given.None? || given.value <= head ==> t == head + 1
  {
    var t := if given.Some? then given.value else head + 1;
    if t <= head then head + 1 else t
  }

  function MineOn(l: L2, txs: multiset<L2Tx>, given: Option<nat>): L2 {
    var t := MineTime(l.head, given);
    L2(t, l.blocks + [Block(t, txs)])
  }

  ghost predicate InOrder(l: L2) {
    && (forall i, j :: 0 <= i < j < |l.blocks| ==> l.blocks[i].timestamp < l.blocks[j].timestamp)
    && (l.blocks != [] ==> l.blocks[|l.blocks| - 1].timestamp == l.head)
  }

  function MineAll(l: L2, run: seq<(multiset<L2Tx>, Option<nat>)>): L2
    decreases |run|
  {
    if run == [] then l else MineAll(MineOn(l, run[0].0, run[0].1), run[1..])
  }

  /** L2 timestamps strictly increase over every run, whatever timestamps are asked for. */
  lemma {:induction false} TimestampsIncrease(l: L2, run: seq<(multiset<L2Tx>, Option<nat>)>)
    requires InOrder(l)
    ensures InOrder(MineAll(l, run)) && MineAll(l, run).head >= l.head + |run|
    ensures |MineAll(l, run).blocks| == |l.blocks| + |run| && l.blocks <= MineAll(l, run).blocks
    decreases |run|
  {
    if run == [] {
    } else {
      TimestampsIncrease(MineOn(l, run[0].0, run[0].1), run[1..]);
    }
  }

  /** The execution engine behind a node: a pool of pending transactions and a chain. */
  class Engine {
    var pool: multiset<L2Tx>
    var head: nat
    var blocks: seq<Block>

    ghost predicate Valid()
      reads this
    {
      InOrder(Chain())
    }

    function Chain(): L2
      reads this
    {
      L2(head, blocks)
    }

    constructor (genesisTimestamp: nat)
      ensures Valid() && pool == multiset{} && Chain() == L2(genesisTimestamp, [])
    {
      pool := multiset{};
      head := genesisTimestamp;
      blocks := [];
    }

    method Send(tx: L2Tx)
      modifies this`pool
      ensures pool == old(pool) + multiset{tx}
    {
      pool := pool + multiset{tx};
    }

    /** Mines everything that is pending. */
    method MineBlock(given: Option<nat>)
      requires Valid()
      modifies this
      ensures Valid() && pool == multiset{}
      ensures Chain() == MineOn(old(Chain()), old(pool), given)
    {
      var timestamp := if given.Some? then given.value else head + 1;
      if timestamp <= head {
        timestamp := head + 1;
      }
      blocks := blocks + [Block(timestamp, pool)];
      head := timestamp;
      pool := multiset{};
    }
  }

  // ---------- Batches of L2 transactions ----------

  /** What the nodes look up outside the batch: `proxyOf` is the deterministic address of a proxy,
      `registered` the manager contract's table on an L2 chain.  The ethrex-based node reads transactions with
      the parser of this repository, which needs `crypto`; what the library of the reth-based node makes of
      call data (`tsCall`) and of transactions (`tsParse`) is arbitrary.  So is what each node's engine
      answers to a trial of a call from L1: the return data, and whether the call failed. */
  datatype Env = Env(rollups: Bytes, createProxy: Bytes, executeL2Tx: Bytes, rollupId: nat, crypto: Transactions.Crypto,
                     tsCall: Bytes -> Result<Option<Bytes>>, tsParse: Bytes -> Result<ParsedTx>,
                     tsTrial: (seq<Block>, Action) -> (Bytes, bool), rustTrial: (seq<Block>, Action) -> (Bytes, bool),
                     proxyOf: (Bytes, nat) -> Bytes, registered: (seq<Block>, Bytes) -> (Bytes, nat))

  /** A transaction of the batch, with the result of its L1 call if it made one. */
  datatype Item = Item(raw: Bytes, tx: ParsedTx, result: Option<Action>)

  /** A performed event: the call data of its L1 transaction, its position among the performed events of
      that transaction, and the actions consumed there. */
  datatype BatchEvent = BatchEvent(input: Bytes, position: nat, consumed: seq<Action>)

  // ---------- Reading L1 call data ----------

  /** The transaction in the call data if that is an `executeL2TX`; malformed call data fails. */
  function RustCall(env: Env, input: Bytes): Result<Option<Bytes>> {
    if |input| < Calldata.SELECTOR_SIZE || input[..Calldata.SELECTOR_SIZE] != env.executeL2Tx then Ok(None)
    else
      var raw :- Calldata.DecodeBytesParam(input, 1);
      Ok(Some(raw))
  }

  function RustRead(env: Env, input: Bytes): Result<Option<(Bytes, ParsedTx)>> {
    var call :- RustCall(env, input);
    if call.None? then Ok(None)
    else
      var tx :- Parse(env.crypto, call.value);
      Ok(Some((call.value, tx)))
  }

  function TsRead(env: Env, input: Bytes): Result<Option<(Bytes, ParsedTx)>> {
    var call :- env.tsCall(input);
    if call.None? then Ok(None)
    else
      var tx :- env.tsParse(call.value);
      Ok(Some((call.value, tx)))
  }

  /** Where both nodes can read, they read the same. */
  ghost predicate Compatible(env: Env, input: Bytes) {
    && (env.tsCall(input).Ok? && RustCall(env, input).Ok? ==> env.tsCall(input) == RustCall(env, input))
    && (env.tsCall(input).Ok? && env.tsCall(input).value.Some? ==>
          var raw := env.tsCall(input).value.value;
          env.tsParse(raw).Ok? && Parse(env.crypto, raw).Ok? ==> env.tsParse(raw) == Parse(env.crypto, raw))
  }

  /** So they do if the library reads everything as this parser does, or call data not at all. */
  lemma AlikeCompatible(env: Env, input: Bytes)
    ensures env.tsCall(input).Err? ==> Compatible(env, input)
    ensures env.tsCall(input) == RustCall(env, input) && (forall raw :: env.tsParse(raw) == Parse(env.crypto, raw)) ==>
              Compatible(env, input)
  {
    hide Parse, RustCall;
  }

  lemma CallFound(env: Env, raw: Bytes, rollupId: nat)
    requires |env.executeL2Tx| == Calldata.SELECTOR_SIZE && |raw| < U64_LIMIT
    ensures RustCall(env, Calldata.ExecuteL2TxCalldata(env.executeL2Tx, rollupId, raw)) == Ok(Some(raw))
  {
    hide Calldata.DecodeBytesParam, Abi.Words, Abi.BytesSection;
    Calldata.TransactionFound(env.executeL2Tx, rollupId, raw);
    var rest := Abi.Words([rollupId, 0x40]) + Abi.BytesSection(raw);
    assert (env.executeL2Tx + rest)[..Calldata.SELECTOR_SIZE] == env.executeL2Tx;
  }

  /** From one signer to the other nodes: a transaction that was signed, wrapped into `executeL2TX` and
      posted on L1 enters the batch with its own bytes, contents and sender. */
  lemma PostedTransactionRead(env: Env, address: Bytes, tx: Transactions.Tx, rollupId: nat)
    requires Transactions.ValidTx(tx) && Transactions.Recovers(env.crypto, address) && |env.executeL2Tx| == Calldata.SELECTOR_SIZE
    ensures var raw := Transactions.SignedTx(env.crypto, tx);
            RustRead(env, Calldata.ExecuteL2TxCalldata(env.executeL2Tx, rollupId, raw)) ==
            Ok(Some((raw, ParsedTx(Some(tx.to), address, tx.data, tx.value))))
  {
    hide *;
    var raw := Transactions.SignedTx(env.crypto, tx);
    SignedTxSize(env.crypto, address, tx);
    CallFound(env, raw, rollupId);
    SignedParses(env.crypto, address, tx);
    BothRead(env, Calldata.ExecuteL2TxCalldata(env.executeL2Tx, rollupId, raw), raw);
  }

  lemma BothRead(env: Env, input: Bytes, raw: Bytes)
    requires RustCall(env, input) == Ok(Some(raw)) && Parse(env.crypto, raw).Ok?
    ensures RustRead(env, input) == Ok(Some((raw, Parse(env.crypto, raw).value)))
  {
    hide RustCall, Parse;
  }

  lemma SignedTxSize(crypto: Transactions.Crypto, address: Bytes, tx: Transactions.Tx)
    requires Transactions.ValidTx(tx) && Transactions.Recovers(crypto, address)
    ensures |Transactions.SignedTx(crypto, tx)| < U64_LIMIT
  {
    hide Rlp.EncodeAll, Transactions.Fields, Transactions.SignatureFields, Rlp.LengthPrefix, Pow256;
    var sig := Transactions.SignedBy(crypto, tx);
    Transactions.SignedSize(tx, sig);
    EncodeList(Transactions.Fields(tx) + Transactions.SignatureFields(sig));
  }

  /** The ethrex-based node cannot read any typed transaction but type 2. */
  lemma OtherTypesUnread(crypto: Transactions.Crypto, raw: Bytes)
    requires raw != [] && raw[0] <= 0x7f && raw[0] != 0x02
    ensures Parse(crypto, raw) == Err
  {
    hide Eip1559Preimage, LegacyPreimage, Recover;
    var one := raw[0..1];
    assert Rlp.DecodeLength(raw) == Ok((one, 1));
    assert Rlp.DecodeLength(one) == Ok((one[0..1], 1)) && one[1..] == [];
    assert Rlp.Walk(one) == Ok([Rlp.Found(one[0..1], one[..1])] + []) by {
      assert Rlp.Walk([]) == Ok([]);
    }
  }

  // ---------- The result of an L1 call ----------

  function TsResult(e: BatchEvent): Option<Action> {
    if |e.consumed| >= 2 then Some(e.consumed[1]) else None
  }

  function FirstResult(consumed: seq<Action>): (r: Option<Action>)
    ensures r.Some? ==> r.value in consumed && r.value.actionType == RESULT
    ensures r.None? ==> forall a :: a in consumed ==> a.actionType != RESULT
  {
    if consumed == [] then None
    else if consumed[0].actionType == RESULT then Some(consumed[0])
    else FirstResult(consumed[1..])
  }

  function RustResult(e: BatchEvent): Option<Action> {
    if e.position == 0 then FirstResult(e.consumed) else None
  }

  /** Both nodes take the same action for the result of the L1 call, or none. */
  predicate SameResult(e: BatchEvent) {
    if |e.consumed| >= 2 then
      && e.position == 0
      && if e.consumed[0].actionType == RESULT then e.consumed[0] == e.consumed[1] else e.consumed[1].actionType == RESULT
    else
      e.position != 0 || e.consumed == [] || e.consumed[0].actionType != RESULT
  }

  lemma ResultsAgreeExactly(e: BatchEvent)
    ensures TsResult(e) == RustResult(e) <==> SameResult(e)
  {
    if |e.consumed| >= 2 {
      assert e.consumed[1..][0] == e.consumed[1];
      assert FirstResult(e.consumed[1..]) == Some(e.consumed[1]) || e.consumed[1].actionType != RESULT;
    } else if |e.consumed| == 1 {
      assert FirstResult(e.consumed[1..]) == None;
    }
  }

  /** The transactions of the batch; other L1 calls are skipped, one that cannot be read fails the batch. */
  function Items(events: seq<BatchEvent>, read: Bytes -> Result<Option<(Bytes, ParsedTx)>>,
                 result: BatchEvent -> Option<Action>): Result<seq<Item>>
  {
    if events == [] then Ok([])
    else
      var before :- Items(events[..|events| - 1], read, result);
      var e := events[|events| - 1];
      var call :- read(e.input);
      Ok(if call.None? then before else before + [Item(call.value.0, call.value.1, result(e))])
  }

  function TsItems(env: Env, events: seq<BatchEvent>): Result<seq<Item>> {
    Items(events, input => TsRead(env, input), e => TsResult(e))
  }

  function RustItems(env: Env, events: seq<BatchEvent>): Result<seq<Item>> {
    Items(events, input => RustRead(env, input), e => RustResult(e))
  }

  predicate IsDeploy(env: Env, i: Item) {
    i.tx.to == Some(env.rollups) && |i.tx.data| >= 4 && i.tx.data[..4] == env.createProxy
  }

  predicate IsCall(i: Item) {
    i.result.Some?
  }

  predicate IsOther(env: Env, i: Item) {
    !IsCall(i) && !IsDeploy(env, i)
  }

  function Filter<T>(f: T -> bool, s: seq<T>): (r: seq<T>)
    ensures forall x :: x in r ==> x in s && f(x)
    ensures forall x :: x in s && f(x) ==> x in r
  {
    if s == [] then [] else (if f(s[0]) then [s[0]] else []) + Filter(f, s[1..])
  }

  function Deploys(env: Env, items: seq<Item>): seq<Item> {
    Filter(i => IsDeploy(env, i), items)
  }

  function Calls(items: seq<Item>): seq<Item> {
    Filter(i => IsCall(i), items)
  }

  function Others(env: Env, items: seq<Item>): seq<Item> {
    Filter(i => IsOther(env, i), items)
  }

  function Raws(items: seq<Item>): (r: seq<L2Tx>)
    ensures |r| == |items| && forall i :: 0 <= i < |r| ==> r[i] == Raw(items[i].raw)
  {
    seq(|items|, i requires 0 <= i < |items| => Raw(items[i].raw))
  }

  function Sent(items: seq<Item>): multiset<L2Tx> {
    multiset(Raws(items))
  }

  /** Original address and rollup of a proxy, from the call that deploys it. */
  function DeployInfo(env: Env, i: Item): Option<(Bytes, nat)> {
    if IsDeploy(env, i) && |i.tx.data| >= 68 then Some((i.tx.data[16..36], Nat(i.tx.data[36..68]))) else None
  }

  /** `createCrossChainProxy(original, rollup)` as the ABI encodes it. */
  function CreateProxyCalldata(selector: Bytes, original: Bytes, rollup: nat): Bytes {
    selector + Words([Nat(original), rollup])
  }

  predicate DeploysProxy(env: Env, i: Item, original: Bytes, rollup: nat) {
    i.tx.to == Some(env.rollups) && i.tx.data == CreateProxyCalldata(env.createProxy, original, rollup)
  }

  /** A deploy, that is the selector and two words, is recognised and its proxy known for what it stands for. */
  lemma DeployRead(env: Env, i: Item, original: Bytes, rollup: nat)
    requires |env.createProxy| == 4 && |original| == 20 && rollup < Pow256(32)
    requires DeploysProxy(env, i, original, rollup)
    ensures |i.tx.data| == 68 && i.tx.data[..4] == env.createProxy && WordsStand(i.tx.data, 4, [Nat(original), rollup])
    ensures IsDeploy(env, i) && DeployInfo(env, i) == Some((original, rollup))
  {
    hide Words, Nat, Pow256, BigEndian, WordsStand;
    var ws := [Nat(original), rollup];
    var args := Words(ws);
    assert args + [] == args;
    AddressWord(original);
    WordsPlaced(env.createProxy, ws, []);
    AddressAt(ws, [], 0, original);
    WordAt(ws, [], 1);
    NatBigEndian(rollup, 32);
    SliceBehind(env.createProxy, args, 12, 32);
    SliceBehind(env.createProxy, args, 32, 64);
    assert (env.createProxy + args)[..4] == env.createProxy;
  }

  /** The proxies that the batch deploys; a later deploy replaces an earlier one. */
  function ProxyMap(env: Env, items: seq<Item>): map<Bytes, (Bytes, nat)> {
    if items == [] then map[]
    else
      var m, last := ProxyMap(env, items[..|items| - 1]), DeployInfo(env, items[|items| - 1]);
      if last.None? then m else m[env.proxyOf(last.value.0, last.value.1) := last.value]
  }

  /** The entry that lets the call through the proxy `proxy` find the result it had on L1. */
  function EntryFor(env: Env, blocks: seq<Block>, proxies: map<Bytes, (Bytes, nat)>,
                    tx: ParsedTx, proxy: Bytes, result: Action): L2Tx
  {
    var info := if proxy in proxies then proxies[proxy] else env.registered(blocks, proxy);
    Preload(Action(CALL, info.1, info.0, tx.value, tx.data, false, tx.sender, env.rollupId, []),
            Calldata.ResultAction(result.data, result.failed))
  }

  function Preloads(env: Env, blocks: seq<Block>, proxies: map<Bytes, (Bytes, nat)>, items: seq<Item>): seq<L2Tx> {
    if items == [] then []
    else
      var i, rest := items[0], Preloads(env, blocks, proxies, items[1..]);
      if i.result.Some? && i.tx.to.Some?
      then [EntryFor(env, blocks, proxies, i.tx, i.tx.to.value, i.result.value)] + rest
      else rest
  }

  /** An absent L1 timestamp, and a zero one, stay absent when counted up. */
  function Later(t: Option<nat>, n: nat): Option<nat> {
    if t.Some? && t.value != 0 then Some(t.value + n) else None
  }

  /** The reth-based node. */
  function TsBatch(env: Env, l: L2, items: seq<Item>, t: Option<nat>): Result<L2> {
    if Calls(items) != [] then
      var deploys, calls := Deploys(env, items), Calls(items);
      var one := if deploys == [] then l else MineOn(l, Sent(deploys) + Sent(Others(env, items)), t);
      var two := MineOn(one, multiset(Preloads(env, one.blocks, ProxyMap(env, items), calls)), Later(t, 1));
      Ok(MineOn(two, Sent(calls), Later(t, 2)))
    else if items == [] then Err
    else Ok(MineOn(l, Sent(items), t))
  }

  predicate GoesFirst(env: Env, i: Item) {
    IsDeploy(env, i) || !IsCall(i)
  }

  function First(env: Env, items: seq<Item>): seq<Item> {
    Filter(i => GoesFirst(env, i), items)
  }

  /** The ethrex-based node. */
  function RustBatch(env: Env, l: L2, items: seq<Item>, t: nat): Result<L2> {
    if items == [] then Err
    else if Calls(items) != [] then
      var first, calls := First(env, items), Calls(items);
      var one := if first == [] then l else MineOn(l, Sent(first), Some(t));
      var two := MineOn(one, multiset(Preloads(env, one.blocks, ProxyMap(env, items), calls)), Some(t + 1));
      Ok(MineOn(two, Sent(calls), Some(t + 2)))
    else Ok(MineOn(l, Sent(items), Some(t)))
  }

  /** The ethrex-based watcher uses 0 for the timestamp of a block it could not fetch. */
  function RustTime(t: Option<nat>): nat {
    if t.Some? then t.value else 0
  }

  // ---------- Agreement on batches ----------

  lemma SentMore(i: Item, rest: seq<Item>)
    ensures Sent([i] + rest) == multiset{Raw(i.raw)} + Sent(rest)
  {
    assert Raws([i] + rest) == [Raw(i.raw)] + Raws(rest);
  }

  lemma FilterStep(f: Item -> bool, items: seq<Item>)
    requires items != []
    ensures Sent(Filter(f, items)) ==
            (if f(items[0]) then multiset{Raw(items[0].raw)} else multiset{}) + Sent(Filter(f, items[1..]))
    ensures Filter(f, items) == [] <==> !f(items[0]) && Filter(f, items[1..]) == []
  {
    hide Sent;
    var rest := Filter(f, items[1..]);
    assert Filter(f, items) == if f(items[0]) then [items[0]] + rest else [] + rest;
    assert [] + rest == rest;
    SentMore(items[0], rest);
  }

  /** What goes first in the ethrex-based node are the deploys and the others of the reth-based one. */
  lemma {:induction false} FirstSplits(env: Env, items: seq<Item>)
    ensures Sent(First(env, items)) == Sent(Deploys(env, items)) + Sent(Others(env, items))
    ensures First(env, items) == [] <==> Deploys(env, items) == [] && Others(env, items) == []
  {
    hide IsDeploy, Sent, Filter;
    if items == [] {
      NothingSent(env);
    } else {
      FirstSplits(env, items[1..]);
      FilterStep(i => GoesFirst(env, i), items);
      FilterStep(i => IsDeploy(env, i), items);
      FilterStep(i => IsOther(env, i), items);
    }
  }

  lemma NothingSent(env: Env)
    ensures First(env, []) == [] && Deploys(env, []) == [] && Others(env, []) == [] && Sent([]) == multiset{}
  {
  }

  /** Which given timestamps lead to the same block time. */
  lemma SameTime(head: nat, t: Option<nat>)
    ensures MineTime(head, t) == MineTime(head, Some(RustTime(t)))
    ensures MineTime(head, Later(t, 1)) == MineTime(head, Some(RustTime(t) + 1))
    ensures head >= 1 ==> MineTime(head, Later(t, 2)) == MineTime(head, Some(RustTime(t) + 2))
  {
  }

  /** The two nodes mine the same blocks, with the same timestamps and transactions, exactly when the
      batch makes no L1 call, or deploys a proxy, or holds no other transaction.  In the remaining
      case the reth-based node never sends the other transactions. */
  lemma BatchesAgree(env: Env, l: L2, items: seq<Item>, t: Option<nat>)
    ensures TsBatch(env, l, items, t) == RustBatch(env, l, items, RustTime(t)) <==>
            Calls(items) == [] || Deploys(env, items) != [] || Others(env, items) == []
  {
    hide Filter, Calls, Deploys, Others, First, Preloads, ProxyMap, MineTime, Later, RustTime, Sent;
    FirstSplits(env, items);
    NoItems();
    if Calls(items) == [] {
      SameTime(l.head, t);
    } else {
      var calls, first := Calls(items), First(env, items);
      var one := if first == [] then l else MineOn(l, Sent(first), t);
      var two := MineOn(one, multiset(Preloads(env, one.blocks, ProxyMap(env, items), calls)), Later(t, 1));
      SameTime(l.head, t);
      SameTime(one.head, t);
      SameTime(two.head, t);
    }
  }

  lemma NoItems()
    ensures Calls([]) == []
  {
  }

  // ---------- Single executions ----------

  /** One `executeL2TX` on its own, in the reth-based node. */
  function TsSingle(env: Env, l: L2, i: Item, t: Option<nat>): L2 {
    if i.result.Some? && i.tx.to.Some? then
      var entry := EntryFor(env, l.blocks, map[], i.tx, i.tx.to.value, i.result.value);
      MineOn(MineOn(l, multiset{entry}, t), multiset{Raw(i.raw)}, Later(t, 1))
    else MineOn(l, multiset{Raw(i.raw)}, t)
  }

  /** The same in the ethrex-based node, which splits even when there is nothing to preload. */
  function RustSingle(env: Env, l: L2, i: Item, t: nat): L2 {
    if i.result.Some? then
      var entries := if i.tx.to.Some?
                     then multiset{EntryFor(env, l.blocks, map[], i.tx, i.tx.to.value, i.result.value)}
                     else multiset{};
      MineOn(MineOn(l, entries, Some(t)), multiset{Raw(i.raw)}, Some(t + 1))
    else MineOn(l, multiset{Raw(i.raw)}, Some(t))
  }

  /** On its own the two nodes treat a transaction alike, unless it creates a contract and yet has
      the result of an L1 call. */
  lemma SinglesAgree(env: Env, l: L2, i: Item, t: Option<nat>)
    ensures TsSingle(env, l, i, t) == RustSingle(env, l, i, RustTime(t)) <==> i.result.None? || i.tx.to.Some?
  {
    hide EntryFor, MineTime, Later, RustTime;
    SameTime(l.head, t);
    SameTime(MineTime(l.head, t), t);
  }

  // ---------- From L1 events ----------

  function TsReplay(env: Env, l: L2, events: seq<BatchEvent>, t: Option<nat>): Result<L2> {
    var items :- TsItems(env, events);
    TsBatch(env, l, items, t)
  }

  function RustReplay(env: Env, l: L2, events: seq<BatchEvent>, t: nat): Result<L2> {
    var items :- RustItems(env, events);
    RustBatch(env, l, items, t)
  }

  /** A batch is read if and only if each of its events is. */
  lemma {:induction false} ItemsRead(events: seq<BatchEvent>, read: Bytes -> Result<Option<(Bytes, ParsedTx)>>,
                                     result: BatchEvent -> Option<Action>)
    ensures Items(events, read, result).Ok? <==> forall e :: e in events ==> read(e.input).Ok?
  {
    if events == [] {
    } else {
      var before, last := events[..|events| - 1], events[|events| - 1];
      ItemsRead(before, read, result);
      assert events == before + [last];
    }
  }

  lemma SameRead(env: Env, input: Bytes)
    requires Compatible(env, input) && TsRead(env, input).Ok? && RustRead(env, input).Ok?
    ensures TsRead(env, input) == RustRead(env, input)
  {
    hide Parse, RustCall;
  }

  lemma {:induction false} ItemsAgree(env: Env, events: seq<BatchEvent>)
    requires forall e :: e in events ==> SameResult(e) && Compatible(env, e.input)
    requires TsItems(env, events).Ok? && RustItems(env, events).Ok?
    ensures TsItems(env, events) == RustItems(env, events)
  {
    hide TsRead, RustRead, TsResult, RustResult, SameResult, Compatible;
    if events == [] {
    } else {
      var before, last := events[..|events| - 1], events[|events| - 1];
      assert last in events && forall e :: e in before ==> e in events;
      ItemsAgree(env, before);
      SameRead(env, last.input);
      ResultsAgreeExactly(last);
    }
  }

  /** The schedules of a batch in which both nodes see the same transactions agree. */
  predicate Agreeable(env: Env, items: seq<Item>) {
    Calls(items) == [] || Deploys(env, items) != [] || Others(env, items) == []
  }

  predicate Mines(items: Result<seq<Item>>) {
    items.Ok? && items.value != []
  }

  /** From the L1 events of a block to the L2 blocks: the nodes mine the same if and only if both can read the
      whole batch or neither mines anything, and the batch they read is agreeable. */
  lemma EventBatchesAgree(env: Env, l: L2, events: seq<BatchEvent>, t: Option<nat>)
    requires forall e :: e in events ==> SameResult(e) && Compatible(env, e.input)
    ensures TsReplay(env, l, events, t) == RustReplay(env, l, events, RustTime(t)) <==>
            && (Mines(TsItems(env, events)) <==> Mines(RustItems(env, events)))
            && (Mines(TsItems(env, events)) ==> Agreeable(env, TsItems(env, events).value))
  {
    hide TsItems, RustItems, Agreeable, SameResult, Compatible, Filter, Calls, Deploys, Others, First;
    if TsItems(env, events).Ok? && RustItems(env, events).Ok? {
      ItemsAgree(env, events);
      BatchIff(env, l, TsItems(env, events).value, t);
    }
    if TsItems(env, events).Ok? {
      EmptyFails(env, l, TsItems(env, events).value, t);
    }
    if RustItems(env, events).Ok? {
      EmptyFails(env, l, RustItems(env, events).value, t);
    }
  }

  lemma BatchIff(env: Env, l: L2, items: seq<Item>, t: Option<nat>)
    ensures TsBatch(env, l, items, t) == RustBatch(env, l, items, RustTime(t)) <==> Agreeable(env, items)
  {
    hide TsBatch, RustBatch, Calls, Deploys, Others;
    BatchesAgree(env, l, items, t);
  }

  lemma EmptyFails(env: Env, l: L2, items: seq<Item>, t: Option<nat>)
    ensures TsBatch(env, l, items, t).Err? <==> items == []
    ensures RustBatch(env, l, items, RustTime(t)).Err? <==> items == []
  {
    if items == [] { NoItems(); }
  }

  /** One EIP-2930 transaction, or one of any other type than 2, in a batch that the reth-based node can read:
      that node mines the batch, the ethrex-based one drops all of it. */
  lemma TypedBatchDiverges(env: Env, l: L2, events: seq<BatchEvent>, t: Option<nat>, e: BatchEvent, raw: Bytes)
    requires Mines(TsItems(env, events)) && e in events && RustCall(env, e.input) == Ok(Some(raw))
    requires raw != [] && raw[0] <= 0x7f && raw[0] != 0x02
    ensures TsReplay(env, l, events, t).Ok? && RustReplay(env, l, events, RustTime(t)) == Err
  {
    hide RustCall, TsItems, Parse, RustBatch;
    OtherTypesUnread(env.crypto, raw);
    assert RustRead(env, e.input) == Err;
    ItemsRead(events, input => RustRead(env, input), x => RustResult(x));
    EmptyFails(env, l, TsItems(env, events).value, t);
  }

  /** The ethrex-based node takes the event for a call from L1, before it looks at the L1 call data. */
  predicate TakenForCall(e: BatchEvent) {
    e.position < |e.consumed| && e.consumed[e.position].actionType == CALL
  }

  /** One `executeL2TX` on its own, in the reth-based node: the transaction is parsed in any case. */
  function TsSingleReplay(env: Env, l: L2, e: BatchEvent, t: Option<nat>): Result<L2> {
    var call :- TsRead(env, e.input);
    if call.None? then Err else Ok(TsSingle(env, l, Item(call.value.0, call.value.1, TsResult(e)), t))
  }

  /** In the ethrex-based node it is parsed only if there is a result. */
  function RustSingleReplay(env: Env, l: L2, e: BatchEvent, t: nat): Result<L2> {
    var call :- RustCall(env, e.input);
    if call.None? then Err
    else if RustResult(e).None? then Ok(MineOn(l, multiset{Raw(call.value)}, Some(t)))
    else
      var tx :- Parse(env.crypto, call.value);
      Ok(RustSingle(env, l, Item(call.value, tx, RustResult(e)), t))
  }

  /** What the ethrex-based node must be able to read of a single event. */
  predicate RustReadsSingle(env: Env, e: BatchEvent) {
    && RustCall(env, e.input).Ok? && RustCall(env, e.input).value.Some?
    && (RustResult(e).Some? ==> Parse(env.crypto, RustCall(env, e.input).value.value).Ok?)
  }

  predicate TsReadsSingle(env: Env, e: BatchEvent) {
    TsRead(env, e.input).Ok? && TsRead(env, e.input).value.Some?
  }

  /** The call as the operator makes it on L2. */
  function IncomingOf(a: Action): Calldata.Incoming {
    Calldata.Incoming(a.destination, a.value, a.data, a.sourceAddress, a.sourceRollup, [])
  }

  /** The two transactions of a call from L1: the entry for the result that the trial promised, and the call. */
  function IncomingTxs(env: Env, a: Action, trial: (Bytes, bool)): multiset<L2Tx> {
    var promised := Action(RESULT, env.rollupId, ZERO_ADDRESS, 0, trial.0, trial.1, ZERO_ADDRESS, 0, []);
    multiset{Preload(promised, Calldata.ResultAction([], false)), IncomingCall(IncomingOf(a))}
  }

  /** Any single event in the reth-based node: the L1 call data decide first, then the first action consumed. */
  function TsEventReplay(env: Env, l: L2, e: BatchEvent, t: Option<nat>): Result<L2> {
    var call :- env.tsCall(e.input);
    if call.Some? then TsSingleReplay(env, l, e, t)
    else if e.consumed != [] && e.consumed[0].actionType == CALL then
      Ok(MineOn(l, IncomingTxs(env, e.consumed[0], env.tsTrial(l.blocks, e.consumed[0])), t))
    else Ok(MineOn(l, multiset{Forwarded(e.input)}, t))
  }

  /** In the ethrex-based node the action at the event's own position decides first. */
  function RustEventReplay(env: Env, l: L2, e: BatchEvent, t: nat): Result<L2> {
    if TakenForCall(e) then
      var a := e.consumed[e.position];
      Ok(MineOn(l, IncomingTxs(env, a, env.rustTrial(l.blocks, a)), Some(t)))
    else RustSingleReplay(env, l, e, t)
  }

  /** Both nodes take the event for the same call from L1, and their trials promise the same result. */
  predicate SameIncoming(env: Env, blocks: seq<Block>, e: BatchEvent) {
    && TakenForCall(e) && env.tsCall(e.input) == Ok(None) && e.consumed[0].actionType == CALL
    && IncomingOf(e.consumed[0]) == IncomingOf(e.consumed[e.position])
    && env.tsTrial(blocks, e.consumed[0]) == env.rustTrial(blocks, e.consumed[e.position])
  }

  /** Both nodes take it for an `executeL2TX`, or for nothing; each can read what it needs of it or neither can;
      and the transaction does not create a contract while having a result. */
  predicate SameTransaction(env: Env, e: BatchEvent) {
    && !TakenForCall(e) && env.tsCall(e.input) != Ok(None)
    && (TsReadsSingle(env, e) <==> RustReadsSingle(env, e))
    && (TsReadsSingle(env, e) && TsResult(e).Some? ==> TsRead(env, e.input).value.value.1.to.Some?)
  }

  lemma SameTxs(env: Env, a: Action, b: Action, p: (Bytes, bool), q: (Bytes, bool))
    ensures IncomingTxs(env, a, p) == IncomingTxs(env, b, q) <==> IncomingOf(a) == IncomingOf(b) && p == q
  {
    var s, r := IncomingTxs(env, a, p), IncomingTxs(env, b, q);
    if s == r {
      assert IncomingCall(IncomingOf(a)) in s && IncomingCall(IncomingOf(a)) in r;
      var promised := Action(RESULT, env.rollupId, ZERO_ADDRESS, 0, p.0, p.1, ZERO_ADDRESS, 0, []);
      assert Preload(promised, Calldata.ResultAction([], false)) in s;
      assert Preload(promised, Calldata.ResultAction([], false)) in r;
    }
  }

  lemma MinedTwice(l: L2, s: multiset<L2Tx>, r: multiset<L2Tx>, t: Option<nat>)
    ensures MineOn(l, s, t) == MineOn(l, r, Some(RustTime(t))) <==> s == r
  {
    SameTime(l.head, t);
    var at := |l.blocks|;
    assert MineOn(l, s, t).blocks[at].txs == s && MineOn(l, r, Some(RustTime(t))).blocks[at].txs == r;
  }

  /** Every single event: the nodes mine the same if and only if both take it for the same call from L1, or
      both for a transaction on which they agree. */
  lemma SingleEventsAgree(env: Env, l: L2, e: BatchEvent, t: Option<nat>)
    requires TakenForCall(e) || (SameResult(e) && Compatible(env, e.input))
    ensures TsEventReplay(env, l, e, t) == RustEventReplay(env, l, e, RustTime(t)) <==>
            SameIncoming(env, l.blocks, e) || SameTransaction(env, e)
  {
    hide MineOn, RustTime, SameResult, Compatible, TsReadsSingle, RustReadsSingle, TsResult, RustResult;
    if TakenForCall(e) {
      hide TsRead;
      CallAgrees(env, l, e, t);
    } else if env.tsCall(e.input) == Ok(None) {
      NotATransaction(env, l, e, RustTime(t));
    } else {
      hide TsSingleReplay, RustSingleReplay;
      NoSingle(env, l, e, t);
      EventSinglesAgree(env, l, e, t);
    }
  }

  lemma NoSingle(env: Env, l: L2, e: BatchEvent, t: Option<nat>)
    ensures env.tsCall(e.input).Err? ==> TsSingleReplay(env, l, e, t) == Err
  {
  }

  lemma NotATransaction(env: Env, l: L2, e: BatchEvent, t: nat)
    requires env.tsCall(e.input) == Ok(None) && Compatible(env, e.input)
    ensures RustSingleReplay(env, l, e, t) == Err
  {
    hide RustCall;
  }

  lemma CallAgrees(env: Env, l: L2, e: BatchEvent, t: Option<nat>)
    requires TakenForCall(e)
    ensures TsEventReplay(env, l, e, t) == RustEventReplay(env, l, e, RustTime(t)) <==> SameIncoming(env, l.blocks, e)
  {
    var a := e.consumed[e.position];
    var r := IncomingTxs(env, a, env.rustTrial(l.blocks, a));
    hide MineOn, RustTime;
    if env.tsCall(e.input).Ok? {
      if env.tsCall(e.input).value.Some? {
        LastMined(env, l, e, t);
        assert |r| == 2;
        LastOf(l, r, Some(RustTime(t)));
      } else if e.consumed[0].actionType == CALL {
        var s := IncomingTxs(env, e.consumed[0], env.tsTrial(l.blocks, e.consumed[0]));
        SameTxs(env, e.consumed[0], a, env.tsTrial(l.blocks, e.consumed[0]), env.rustTrial(l.blocks, a));
        MinedTwice(l, s, r, t);
      } else {
        assert |multiset{Forwarded(e.input)}| == 1 && |r| == 2;
        MinedTwice(l, multiset{Forwarded(e.input)}, r, t);
      }
    }
  }

  lemma LastOf(l: L2, txs: multiset<L2Tx>, t: Option<nat>)
    ensures var m := MineOn(l, txs, t); m.blocks != [] && m.blocks[|m.blocks| - 1].txs == txs
  {
  }

  /** An `executeL2TX` ends with a block that holds one transaction. */
  lemma LastMined(env: Env, l: L2, e: BatchEvent, t: Option<nat>)
    ensures var r := TsSingleReplay(env, l, e, t);
            r.Ok? ==> r.value.blocks != [] && |r.value.blocks[|r.value.blocks| - 1].txs| == 1
  {
    hide MineTime, TsRead, EntryFor;
  }

  /** A single `executeL2TX`: the nodes mine the same if and only if both can read what each of them needs or
      neither can, and the transaction does not create a contract while having a result. */
  lemma EventSinglesAgree(env: Env, l: L2, e: BatchEvent, t: Option<nat>)
    requires SameResult(e) && Compatible(env, e.input) && !TakenForCall(e)
    ensures TsSingleReplay(env, l, e, t) == RustSingleReplay(env, l, e, RustTime(t)) <==>
            && (TsReadsSingle(env, e) <==> RustReadsSingle(env, e))
            && (TsReadsSingle(env, e) && TsResult(e).Some? ==> TsRead(env, e.input).value.value.1.to.Some?)
  {
    hide Parse, RustCall, EntryFor, MineOn, TsResult, RustResult, SameResult, RustTime;
    ResultsAgreeExactly(e);
    if TsReadsSingle(env, e) && RustReadsSingle(env, e) {
      var (raw, tx) := TsRead(env, e.input).value.value;
      assert RustCall(env, e.input) == Ok(Some(raw));
      if RustResult(e).Some? {
        assert Parse(env.crypto, raw) == Ok(tx);
      }
      hide TsSingle, RustSingle;
      SingleIff(env, l, Item(raw, tx, TsResult(e)), t);
    }
  }

  lemma SingleIff(env: Env, l: L2, i: Item, t: Option<nat>)
    ensures TsSingle(env, l, i, t) == RustSingle(env, l, i, RustTime(t)) <==> i.result.None? || i.tx.to.Some?
    ensures i.result.None? ==> RustSingle(env, l, i, RustTime(t)) == MineOn(l, multiset{Raw(i.raw)}, Some(RustTime(t)))
  {
    hide MineOn, EntryFor;
    SinglesAgree(env, l, i, t);
  }

  // ---------- The builder ----------

  /** What the builder mines on its own node while it plans an L2 to L1 call. */
  function BuilderBlocks(env: Env, l: L2, deploy: Option<Bytes>, target: Bytes, user: Item,
                         next: Action, t: Option<nat>): L2
  {
    var one := if deploy.Some? then MineOn(l, multiset{Raw(deploy.value)}, t) else l;
    var call := Action(CALL, 0, target, user.tx.value, user.tx.data, false, user.tx.sender, env.rollupId, []);
    var two := MineOn(one, multiset{Preload(call, next)}, t);
    MineOn(two, multiset{Raw(user.raw)}, Later(t, 1))
  }

  lemma BuilderTimes(head: nat, t: Option<nat>)
    ensures var one := MineTime(head, t);
            && MineTime(one, t) == MineTime(one, Later(t, 1))
            && MineTime(MineTime(one, t), Later(t, 1)) == MineTime(MineTime(one, t), Later(t, 2))
  {
  }

  /** With a proxy deploy the builder mines what both nodes later replay from the batch: the same
      three blocks with the same timestamps and contents. */
  lemma BuilderMatchesBatch(env: Env, l: L2, deploy: Item, user: Item, target: Bytes, t: Option<nat>)
    requires |env.createProxy| == Calldata.SELECTOR_SIZE && |target| == 20
    requires DeploysProxy(env, deploy, target, 0) && deploy.result.None?
    requires user.result.Some? && user.tx.to == Some(env.proxyOf(target, 0)) && !IsDeploy(env, user)
    ensures var next := Calldata.ResultAction(user.result.value.data, user.result.value.failed);
            var mined := BuilderBlocks(env, l, Some(deploy.raw), target, user, next, t);
            && TsBatch(env, l, [deploy, user], t) == Ok(mined)
            && RustBatch(env, l, [deploy, user], RustTime(t)) == Ok(mined)
  {
    hide MineTime, Later, RustTime, IsDeploy, DeployInfo, DeploysProxy, Sent, ProxyMap, Preloads;
    hide Filter, Deploys, Calls, Others, RustBatch, Pow256;
    var items := [deploy, user];
    DeployRead(env, deploy, target, 0);
    TwoFiltered(env, deploy, user);
    TwoProxies(env, deploy, user);
    OneSent(deploy);
    OneSent(user);
    NothingSent(env);
    var one := MineOn(l, multiset{Raw(deploy.raw)}, t);
    OnePreload(env, one.blocks, ProxyMap(env, items), user);
    BuilderTimes(l.head, t);
    assert Sent([deploy]) + Sent([]) == multiset{Raw(deploy.raw)};
    BatchesAgree(env, l, items, t);
  }

  lemma TwoFiltered(env: Env, deploy: Item, user: Item)
    requires IsDeploy(env, deploy) && deploy.result.None? && user.result.Some? && !IsDeploy(env, user)
    ensures Deploys(env, [deploy, user]) == [deploy] && Calls([deploy, user]) == [user] && Others(env, [deploy, user]) == []
  {
    hide IsDeploy, Filter;
    FilterTwo(i => IsDeploy(env, i), deploy, user);
    FilterTwo(i => IsCall(i), deploy, user);
    FilterTwo(i => IsOther(env, i), deploy, user);
  }

  lemma FilterTwo(f: Item -> bool, a: Item, b: Item)
    ensures Filter(f, [a, b]) == (if f(a) then [a] else []) + (if f(b) then [b] else [])
  {
    assert [a, b][1..] == [b] && [b][1..] == [];
    assert Filter(f, [b]) == if f(b) then [b] else [];
  }

  lemma TwoProxies(env: Env, deploy: Item, user: Item)
    requires DeployInfo(env, deploy).Some? && !IsDeploy(env, user)
    ensures var info := DeployInfo(env, deploy).value;
            ProxyMap(env, [deploy, user]) == map[env.proxyOf(info.0, info.1) := info]
  {
    assert [deploy, user][..1] == [deploy] && [deploy][..0] == [];
    assert ProxyMap(env, []) == map[];
    var info := DeployInfo(env, deploy).value;
    assert ProxyMap(env, [deploy]) == map[env.proxyOf(info.0, info.1) := info];
  }

  lemma OneSent(i: Item)
    ensures Sent([i]) == multiset{Raw(i.raw)}
  {
    assert Raws([i]) == [Raw(i.raw)];
  }

  lemma OnePreload(env: Env, blocks: seq<Block>, proxies: map<Bytes, (Bytes, nat)>, user: Item)
    requires user.result.Some? && user.tx.to.Some?
    ensures multiset(Preloads(env, blocks, proxies, [user])) ==
            multiset{EntryFor(env, blocks, proxies, user.tx, user.tx.to.value, user.result.value)}
  {
    hide EntryFor;
    assert [user][1..] == [];
    assert Preloads(env, blocks, proxies, [user]) ==
           [EntryFor(env, blocks, proxies, user.tx, user.tx.to.value, user.result.value)];
  }

  /** Without one it mines what both nodes replay from the single execution. */
  lemma BuilderMatchesSingle(env: Env, l: L2, user: Item, target: Bytes, t: Option<nat>)
    requires user.result.Some? && user.tx.to.Some? && env.registered(l.blocks, user.tx.to.value) == (target, 0)
    ensures var next := Calldata.ResultAction(user.result.value.data, user.result.value.failed);
            var mined := BuilderBlocks(env, l, None, target, user, next, t);
            && TsSingle(env, l, user, t) == mined
            && RustSingle(env, l, user, RustTime(t)) == mined
  {
    hide MineTime, Later, RustTime;
    SinglesAgree(env, l, user, t);
  }
}
