/** What both nodes mine, written out block by block and transaction by transaction. */
module MinedBlocks {
  import opened Actions
  import opened Bytes
  import opened Replayers
  import opened Schedule
  import opened TxParsing
  import opened Wrappers
  import Calldata

  /** One block on top: not older than asked for, younger than its parent, and holding exactly `txs`. */
  predicate OneBlockOn(l: L2, m: L2, t: nat, txs: multiset<L2Tx>) {
    && m.head == (if t > l.head then t else l.head + 1)
    && m.blocks == l.blocks + [Block(m.head, txs)]
  }

  /** The L2 transactions of a call from L1, field by field: what is called with what by whom, and the
      entry that promises its result and ends with an empty one. */
  predicate MakesCall(env: Env, a: Action, trial: (Bytes, bool), txs: multiset<L2Tx>) {
    var called := Calldata.Incoming(destination := a.destination, value := a.value, data := a.data,
                                    sourceAddress := a.sourceAddress, sourceRollup := a.sourceRollup, scope := []);
    var promised := Action(actionType := 1, rollupId := env.rollupId, destination := Zeros(20), value := 0, data := trial.0,
                           failed := trial.1, sourceAddress := Zeros(20), sourceRollup := 0, scope := []);
    var end := Action(actionType := 1, rollupId := 0, destination := Zeros(20), value := 0, data := [], failed := false,
                      sourceAddress := Zeros(20), sourceRollup := 0, scope := []);
    txs == multiset{IncomingCall(called), Preload(promised, end)}
  }

  /** `m` is `l` and one block with that call. */
  predicate CallMined(env: Env, l: L2, m: L2, t: nat, a: Action, trial: (Bytes, bool)) {
    && m.blocks != [] && OneBlockOn(l, m, t, m.blocks[|m.blocks| - 1].txs)
    && MakesCall(env, a, trial, m.blocks[|m.blocks| - 1].txs)
  }

  lemma CallSent(env: Env, l: L2, t: Option<nat>, a: Action, trial: (Bytes, bool))
    ensures CallMined(env, l, MineOn(l, IncomingTxs(env, a, trial), t), RustTime(t), a, trial)
  {
  }

  /** Whenever a node takes an event for a call from L1, that is an action of type 0, it mines one block with
      that call. */
  lemma CallFromL1(env: Env, l: L2, e: BatchEvent, t: nat)
    ensures e.position < |e.consumed| && e.consumed[e.position].actionType == 0 ==>
              var (a, r) := (e.consumed[e.position], RustEventReplay(env, l, e, t));
              r.Ok? && CallMined(env, l, r.value, t, a, env.rustTrial(l.blocks, a))
    ensures env.tsCall(e.input) == Ok(None) && e.consumed != [] && e.consumed[0].actionType == 0 ==>
              var (a, r) := (e.consumed[0], TsEventReplay(env, l, e, Some(t)));
              r.Ok? && CallMined(env, l, r.value, t, a, env.tsTrial(l.blocks, a))
  {
    hide TsSingleReplay, RustSingleReplay, CallMined, MineOn, IncomingTxs;
    if e.position < |e.consumed| {
      CallSent(env, l, Some(t), e.consumed[e.position], env.rustTrial(l.blocks, e.consumed[e.position]));
    }
    if e.consumed != [] {
      CallSent(env, l, Some(t), e.consumed[0], env.tsTrial(l.blocks, e.consumed[0]));
    }
  }

  // ---------- A single executeL2TX ----------

  /** The entry that lets a call to a proxy of `info` find the result it had on L1, field by field. */
  predicate IsEntry(env: Env, tx: ParsedTx, result: Action, info: (Bytes, nat), p: L2Tx) {
    p == Preload(call := Action(actionType := 0, rollupId := info.1, destination := info.0, value := tx.value, data := tx.data,
                                failed := false, sourceAddress := tx.sender, sourceRollup := env.rollupId, scope := []),
                 next := Action(actionType := 1, rollupId := 0, destination := Zeros(20), value := 0, data := result.data,
                                failed := result.failed, sourceAddress := Zeros(20), sourceRollup := 0, scope := []))
  }

  /** The entry for the registered proxy in one block, and the transaction alone in the next. */
  ghost predicate InTwoBlocks(env: Env, l: L2, m: L2, t: nat, raw: Bytes, tx: ParsedTx, result: Action)
    requires tx.to.Some?
  {
    exists one: L2, p: L2Tx ::
      && IsEntry(env, tx, result, env.registered(l.blocks, tx.to.value), p)
      && OneBlockOn(l, one, t, multiset{p}) && OneBlockOn(one, m, t + 1, multiset{Raw(raw)})
  }

  /** A transaction without the result of an L1 call is mined alone; with one, behind the entry that it needs.
      For the reth-based node that is the second action consumed, unless the transaction creates a contract. */
  lemma TsSingleMined(env: Env, l: L2, e: BatchEvent, t: Option<nat>, raw: Bytes, tx: ParsedTx)
    requires env.tsCall(e.input) == Ok(Some(raw)) && env.tsParse(raw) == Ok(tx)
    ensures var (r, time) := (TsEventReplay(env, l, e, t), match t { case Some(n) => n case None => 0 });
            r.Ok? && if |e.consumed| >= 2 && tx.to.Some? then InTwoBlocks(env, l, r.value, time, raw, tx, e.consumed[1])
                     else OneBlockOn(l, r.value, time, multiset{Raw(raw)})
  {
    hide IsEntry, EntryFor;
    if |e.consumed| >= 2 && tx.to.Some? {
      EntryIs(env, l.blocks, map[], tx, tx.to.value, e.consumed[1]);
      var p := EntryFor(env, l.blocks, map[], tx, tx.to.value, e.consumed[1]);
      assert OneBlockOn(l, MineOn(l, multiset{p}, t), match t { case Some(n) => n case None => 0 }, multiset{p});
    }
  }

  /** For the ethrex-based node it is the first RESULT, and only for the first execution of the L1 transaction. */
  lemma RustSingleMined(env: Env, l: L2, e: BatchEvent, t: nat, raw: Bytes, tx: ParsedTx)
    requires RustCall(env, e.input) == Ok(Some(raw)) && Parse(env.crypto, raw) == Ok(tx) && !TakenForCall(e)
    ensures var (r, result) := (RustEventReplay(env, l, e, t), if e.position == 0 then FirstResult(e.consumed) else None);
            r.Ok? && if result.None? then OneBlockOn(l, r.value, t, multiset{Raw(raw)})
                     else if tx.to.Some? then InTwoBlocks(env, l, r.value, t, raw, tx, result.value)
                     else exists one :: OneBlockOn(l, one, t, multiset{}) && OneBlockOn(one, r.value, t + 1, multiset{Raw(raw)})
  {
    hide RustCall, Parse, FirstResult, IsEntry, EntryFor;
    if RustResult(e).Some? {
      if tx.to.Some? {
        EntryIs(env, l.blocks, map[], tx, tx.to.value, RustResult(e).value);
        var p := EntryFor(env, l.blocks, map[], tx, tx.to.value, RustResult(e).value);
        assert OneBlockOn(l, MineOn(l, multiset{p}, Some(t)), t, multiset{p});
      } else {
        assert OneBlockOn(l, MineOn(l, multiset{}, Some(t)), t, multiset{});
      }
    }
  }

  lemma EntryIs(env: Env, blocks: seq<Block>, proxies: map<Bytes, (Bytes, nat)>, tx: ParsedTx, proxy: Bytes, result: Action)
    ensures IsEntry(env, tx, result, if proxy in proxies then proxies[proxy] else env.registered(blocks, proxy),
                    EntryFor(env, blocks, proxies, tx, proxy, result))
  {
  }

  /** Without a result the ethrex-based node does not look into the transaction; what it cannot use it leaves out. */
  lemma RustOtherwise(env: Env, l: L2, e: BatchEvent, t: nat)
    requires !(e.position < |e.consumed| && e.consumed[e.position].actionType == 0)
    ensures var (r, call) := (RustEventReplay(env, l, e, t), RustCall(env, e.input));
            match call
            case Err => r == Err
            case Ok(None) => r == Err
            case Ok(Some(raw)) =>
              var result := if e.position == 0 then FirstResult(e.consumed) else None;
              if result.None? then r.Ok? && OneBlockOn(l, r.value, t, multiset{Raw(raw)}) else r.Ok? == Parse(env.crypto, raw).Ok?
  {
    hide RustCall, Parse, FirstResult, EntryFor;
  }

  /** The reth-based node sends the L1 call data again if they are no executeL2TX and no call was consumed. */
  lemma TsOtherwise(env: Env, l: L2, e: BatchEvent, t: Option<nat>)
    ensures var (r, time) := (TsEventReplay(env, l, e, t), match t { case Some(n) => n case None => 0 });
            match env.tsCall(e.input)
            case Err => r == Err
            case Ok(None) =>
              e.consumed == [] || e.consumed[0].actionType != 0 ==>
                r.Ok? && OneBlockOn(l, r.value, time, multiset{Forwarded(e.input)})
            case Ok(Some(raw)) => r.Ok? == env.tsParse(raw).Ok?
  {
    hide EntryFor, TsResult;
  }

  // ---------- A batch ----------

  /** How many items have the property. */
  function Tally(p: Item -> bool, items: seq<Item>): nat {
    if items == [] then 0 else (if p(items[0]) then 1 else 0) + Tally(p, items[1..])
  }

  /** A call of the rollups contract that starts with the selector, whatever follows. */
  predicate Deploying(env: Env, i: Item) {
    i.tx.to == Some(env.rollups) && |i.tx.data| >= 4 && i.tx.data[0..4] == env.createProxy
  }

  /** It deploys the proxy `proxy`, which stands for the address and the rollup in `info`. */
  predicate DeploysAt(env: Env, i: Item, proxy: Bytes, info: (Bytes, nat)) {
    && Deploying(env, i) && |i.tx.data| >= 68
    && info.0 == i.tx.data[16..36] && info.1 == Nat(i.tx.data[36..68]) && env.proxyOf(info.0, info.1) == proxy
  }

  /** No transaction of the batch deploys the proxy. */
  ghost predicate NotDeployed(env: Env, items: seq<Item>, proxy: Bytes) {
    forall k, info :: 0 <= k < |items| ==> !DeploysAt(env, items[k], proxy, info)
  }

  /** The last transaction that deploys the proxy says what `info` says. */
  ghost predicate LastSays(env: Env, items: seq<Item>, proxy: Bytes, info: (Bytes, nat)) {
    exists k :: 0 <= k < |items| && DeploysAt(env, items[k], proxy, info) && NotDeployed(env, items[k + 1..], proxy)
  }

  /** What a proxy stands for: what the last transaction of the batch that deploys it says, and the manager
      contract if there is none. */
  ghost predicate StandsFor(env: Env, blocks: seq<Block>, items: seq<Item>, proxy: Bytes, info: (Bytes, nat)) {
    || (NotDeployed(env, items, proxy) && info == env.registered(blocks, proxy))
    || LastSays(env, items, proxy, info)
  }

  /** `i` called L1, and `p` is the entry for that. */
  ghost predicate Needs(env: Env, blocks: seq<Block>, items: seq<Item>, i: Item, p: L2Tx) {
    && i.result.Some? && i.tx.to.Some?
    && exists info :: StandsFor(env, blocks, items, i.tx.to.value, info) && IsEntry(env, i.tx, i.result.value, info, p)
  }

  ghost function Needing(env: Env, blocks: seq<Block>, items: seq<Item>, p: L2Tx): Item -> bool {
    (i: Item) => Needs(env, blocks, items, i, p)
  }

  function Carrying(which: Item -> bool, raw: Bytes): Item -> bool {
    (i: Item) => which(i) && i.raw == raw
  }

  /** The raw transactions of these items, each as often as it occurs, and nothing else. */
  ghost predicate HoldsRaws(which: Item -> bool, items: seq<Item>, txs: multiset<L2Tx>) {
    forall p :: txs[p] == if p.Raw? then Tally(Carrying(which, p.bytes), items) else 0
  }

  /** The entries that these items need, each as often as it is needed, and nothing else. */
  ghost predicate HoldsEntries(env: Env, blocks: seq<Block>, items: seq<Item>, txs: multiset<L2Tx>) {
    forall p :: txs[p] == Tally(Needing(env, blocks, items, p), items)
  }

  predicate CalledL1(i: Item) {
    i.result.Some?
  }

  /** Proxies are deployed, and transactions without an L1 call sent, in the first block. */
  function Early(env: Env): Item -> bool {
    (i: Item) => Deploying(env, i) || !CalledL1(i)
  }

  /** The block on top of `l` in `m`. */
  function Next(l: L2, m: L2): multiset<L2Tx> {
    if |l.blocks| < |m.blocks| then m.blocks[|l.blocks|].txs else multiset{}
  }

  /** `m` results from `l` by three blocks, or by two if nothing goes first: early transactions, entries, calls. */
  ghost predicate InThreeBlocks(env: Env, l: L2, one: L2, two: L2, m: L2, t: nat, items: seq<Item>, opens: bool) {
    && (if opens then OneBlockOn(l, one, t, Next(l, one)) && HoldsRaws(Early(env), items, Next(l, one)) else one == l)
    && OneBlockOn(one, two, t + 1, Next(one, two)) && HoldsEntries(env, one.blocks, items, Next(one, two))
    && OneBlockOn(two, m, t + 2, Next(two, m)) && HoldsRaws(i => CalledL1(i), items, Next(two, m))
  }

  lemma {:induction false} RawsCounted(which: Item -> bool, items: seq<Item>, p: L2Tx)
    ensures Sent(Filter(which, items))[p] == if p.Raw? then Tally(Carrying(which, p.bytes), items) else 0
  {
    hide Filter, Sent;
    if items == [] {
      NoneFiltered(which);
    } else {
      RawsCounted(which, items[1..], p);
      FilterStep(which, items);
    }
  }

  lemma {:induction false} SameTally(p: Item -> bool, q: Item -> bool, items: seq<Item>)
    requires forall i :: i in items ==> p(i) == q(i)
    ensures Tally(p, items) == Tally(q, items)
  {
    if items == [] {
    } else {
      assert items[0] in items && forall i :: i in items[1..] ==> i in items;
      SameTally(p, q, items[1..]);
    }
  }

  lemma RawsHeld(which: Item -> bool, same: Item -> bool, items: seq<Item>)
    requires forall i :: which(i) == same(i)
    ensures HoldsRaws(which, items, Sent(Filter(same, items)))
  {
    hide Filter, Sent, Tally;
    forall p ensures Sent(Filter(same, items))[p] == if p.Raw? then Tally(Carrying(which, p.bytes), items) else 0 {
      RawsCounted(same, items, p);
      if p.Raw? {
        SameTally(Carrying(same, p.bytes), Carrying(which, p.bytes), items);
      }
    }
  }

  lemma {:induction false} EntriesCounted(env: Env, blocks: seq<Block>, proxies: map<Bytes, (Bytes, nat)>,
                                          items: seq<Item>, p: L2Tx)
    ensures multiset(Preloads(env, blocks, proxies, items))[p] ==
            Tally((i: Item) => i.result.Some? && i.tx.to.Some?
                               && EntryFor(env, blocks, proxies, i.tx, i.tx.to.value, i.result.value) == p, items)
  {
    hide EntryFor;
    if items == [] {
    } else {
      EntriesCounted(env, blocks, proxies, items[1..], p);
      assert items[0..] == items;
      PreloadStep(env, blocks, proxies, items, 0);
    }
  }

  lemma LastMore(env: Env, items: seq<Item>, last: Item, proxy: Bytes)
    ensures forall info :: DeploysAt(env, last, proxy, info) ==> LastSays(env, items + [last], proxy, info)
    ensures NotDeployed(env, [last], proxy) ==>
              && (NotDeployed(env, items, proxy) ==> NotDeployed(env, items + [last], proxy))
              && forall info :: LastSays(env, items, proxy, info) ==> LastSays(env, items + [last], proxy, info)
  {
    hide DeploysAt;
    var all := items + [last];
    forall info | DeploysAt(env, last, proxy, info) ensures LastSays(env, all, proxy, info) {
      assert all[|items|] == last && all[|items| + 1..] == [];
    }
    if NotDeployed(env, [last], proxy) {
      assert forall info :: !DeploysAt(env, [last][0], proxy, info);
      forall info | LastSays(env, items, proxy, info) ensures LastSays(env, all, proxy, info) {
        var k :| 0 <= k < |items| && DeploysAt(env, items[k], proxy, info) && NotDeployed(env, items[k + 1..], proxy);
        assert all[k] == items[k] && all[k + 1..] == items[k + 1..] + [last];
      }
    }
  }

  /** The proxy map holds the last deploy of each proxy. */
  lemma {:induction false} LastDeploy(env: Env, items: seq<Item>, proxy: Bytes)
    ensures var proxies := ProxyMap(env, items);
            if proxy in proxies then LastSays(env, items, proxy, proxies[proxy]) else NotDeployed(env, items, proxy)
  {
    if items == [] {
    } else {
      var before, last := items[..|items| - 1], items[|items| - 1];
      LastDeploy(env, before, proxy);
      assert items == before + [last];
      LastMore(env, before, last, proxy);
      InfoIs(env, last, proxy);
      hide DeploysAt, LastSays, NotDeployed, DeployInfo;
    }
  }

  lemma InfoIs(env: Env, i: Item, proxy: Bytes)
    ensures var info := DeployInfo(env, i);
            if info.Some? && env.proxyOf(info.value.0, info.value.1) == proxy then DeploysAt(env, i, proxy, info.value)
            else NotDeployed(env, [i], proxy)
  {
  }

  lemma OneMeaning(env: Env, blocks: seq<Block>, items: seq<Item>, proxy: Bytes, info: (Bytes, nat))
    ensures var proxies := ProxyMap(env, items);
            StandsFor(env, blocks, items, proxy, info) <==>
            info == if proxy in proxies then proxies[proxy] else env.registered(blocks, proxy)
  {
    LastDeploy(env, items, proxy);
    hide ProxyMap;
    var proxies := ProxyMap(env, items);
    if proxy in proxies {
      var k :| 0 <= k < |items| && DeploysAt(env, items[k], proxy, proxies[proxy]) && NotDeployed(env, items[k + 1..], proxy);
      forall j | 0 <= j < |items| && DeploysAt(env, items[j], proxy, info) && NotDeployed(env, items[j + 1..], proxy)
        ensures info == proxies[proxy]
      {
        SameDeploy(env, items, proxy, k, j, proxies[proxy], info);
      }
    }
  }

  lemma SameDeploy(env: Env, items: seq<Item>, proxy: Bytes, k: nat, j: nat, a: (Bytes, nat), b: (Bytes, nat))
    requires k < |items| && DeploysAt(env, items[k], proxy, a) && NotDeployed(env, items[k + 1..], proxy)
    requires j < |items| && DeploysAt(env, items[j], proxy, b) && NotDeployed(env, items[j + 1..], proxy)
    ensures a == b
  {
    NotBehind(env, items, proxy, k, j, b);
    NotBehind(env, items, proxy, j, k, a);
  }

  lemma NotBehind(env: Env, items: seq<Item>, proxy: Bytes, k: nat, j: nat, info: (Bytes, nat))
    requires k < |items| && NotDeployed(env, items[k + 1..], proxy)
    requires j < |items| && DeploysAt(env, items[j], proxy, info)
    ensures j <= k
  {
    var behind := items[k + 1..];
    assert forall i :: k < i < |items| ==> items[i] == behind[i - k - 1];
  }

  lemma NeedsIs(env: Env, blocks: seq<Block>, items: seq<Item>, i: Item, p: L2Tx)
    ensures Needs(env, blocks, items, i, p) <==>
            && i.result.Some? && i.tx.to.Some?
            && EntryFor(env, blocks, ProxyMap(env, items), i.tx, i.tx.to.value, i.result.value) == p
  {
    hide ProxyMap, StandsFor, EntryFor;
    if i.result.Some? && i.tx.to.Some? {
      var (proxies, proxy) := (ProxyMap(env, items), i.tx.to.value);
      EntryIs(env, blocks, proxies, i.tx, proxy, i.result.value);
      OneMeaning(env, blocks, items, proxy, if proxy in proxies then proxies[proxy] else env.registered(blocks, proxy));
      forall info ensures StandsFor(env, blocks, items, proxy, info) ==>
                            info == if proxy in proxies then proxies[proxy] else env.registered(blocks, proxy) {
        OneMeaning(env, blocks, items, proxy, info);
      }
    }
  }

  lemma EntriesHeld(env: Env, blocks: seq<Block>, items: seq<Item>)
    ensures HoldsEntries(env, blocks, items, multiset(Preloads(env, blocks, ProxyMap(env, items), Calls(items))))
  {
    hide Preloads, ProxyMap, EntryFor, Tally, Needs, Calls;
    PreloadsOfCalls(env, blocks, ProxyMap(env, items), items);
    var txs := multiset(Preloads(env, blocks, ProxyMap(env, items), items));
    forall p ensures txs[p] == Tally(Needing(env, blocks, items, p), items) {
      EntriesCounted(env, blocks, ProxyMap(env, items), items, p);
      var needs := (i: Item) => i.result.Some? && i.tx.to.Some?
                                && EntryFor(env, blocks, ProxyMap(env, items), i.tx, i.tx.to.value, i.result.value) == p;
      forall i | i in items ensures needs(i) == Needing(env, blocks, items, p)(i) {
        NeedsIs(env, blocks, items, i, p);
      }
      SameTally(needs, Needing(env, blocks, items, p), items);
    }
  }

  lemma MinedOn(l: L2, txs: multiset<L2Tx>, given: Option<nat>, t: nat)
    requires MineTime(l.head, given) == MineTime(l.head, Some(t))
    ensures var m := MineOn(l, txs, given); OneBlockOn(l, m, t, txs) && Next(l, m) == txs
  {
  }

  lemma ThreeMined(env: Env, l: L2, one: L2, two: L2, items: seq<Item>, first: multiset<L2Tx>, given: seq<Option<nat>>, t: nat,
                   opens: bool)
    requires |given| == 3 && HoldsRaws(Early(env), items, first)
    requires one == if opens then MineOn(l, first, given[0]) else l
    requires two == MineOn(one, multiset(Preloads(env, one.blocks, ProxyMap(env, items), Calls(items))), given[1])
    requires MineTime(l.head, given[0]) == MineTime(l.head, Some(t))
    requires MineTime(one.head, given[1]) == MineTime(one.head, Some(t + 1))
    requires MineTime(two.head, given[2]) == MineTime(two.head, Some(t + 2))
    ensures InThreeBlocks(env, l, one, two, MineOn(two, Sent(Calls(items)), given[2]), t, items, opens)
  {
    hide Preloads, ProxyMap, Sent, HoldsRaws, HoldsEntries, MineTime, MineOn, Filter, OneBlockOn, Early;
    MinedOn(l, first, given[0], t);
    MinedOn(one, multiset(Preloads(env, one.blocks, ProxyMap(env, items), Calls(items))), given[1], t + 1);
    MinedOn(two, Sent(Calls(items)), given[2], t + 2);
    EntriesHeld(env, one.blocks, items);
    RawsHeld(i => CalledL1(i), i => IsCall(i), items);
  }

  lemma EarlyHeld(env: Env, items: seq<Item>)
    ensures HoldsRaws(Early(env), items, Sent(First(env, items)))
    ensures HoldsRaws(Early(env), items, Sent(Deploys(env, items)) + Sent(Others(env, items)))
  {
    FirstSplits(env, items);
    RawsHeld(Early(env), i => GoesFirst(env, i), items);
  }

  lemma AllHeld(items: seq<Item>)
    ensures HoldsRaws(i => true, items, Sent(items))
  {
    hide Sent, HoldsRaws;
    NoneLeftOut(items);
    RawsHeld(i => true, i => true, items);
  }

  lemma {:induction false} NoneLeftOut(items: seq<Item>)
    ensures Filter(i => true, items) == items
  {
    if items == [] {
    } else {
      NoneLeftOut(items[1..]);
    }
  }

  lemma Found(f: Item -> bool, items: seq<Item>)
    ensures Filter(f, items) != [] <==> exists i :: i in items && f(i)
  {
    if Filter(f, items) != [] {
      assert Filter(f, items)[0] in items;
    }
  }

  ghost predicate SomeCall(items: seq<Item>) {
    exists i :: i in items && i.result.Some?
  }

  ghost predicate SomeDeploy(env: Env, items: seq<Item>) {
    exists i :: i in items && Deploying(env, i)
  }

  ghost predicate SomeEarly(env: Env, items: seq<Item>) {
    exists i :: i in items && (Deploying(env, i) || i.result.None?)
  }

  lemma Present(env: Env, items: seq<Item>)
    ensures Calls(items) != [] <==> SomeCall(items)
    ensures Deploys(env, items) != [] <==> SomeDeploy(env, items)
    ensures First(env, items) != [] <==> SomeEarly(env, items)
  {
    hide Filter;
    Found(i => IsCall(i), items);
    Found(i => IsDeploy(env, i), items);
    Found(i => GoesFirst(env, i), items);
  }

  lemma MinedAfter(l: L2, txs: multiset<L2Tx>, given: Option<nat>)
    ensures MineOn(l, txs, given).head >= 1
  {
  }

  /** All transactions in one block. */
  ghost predicate InOneBlock(l: L2, m: L2, t: nat, items: seq<Item>) {
    OneBlockOn(l, m, t, Next(l, m)) && HoldsRaws(i => true, items, Next(l, m))
  }

  lemma OneMined(l: L2, items: seq<Item>, given: Option<nat>, t: nat)
    requires MineTime(l.head, given) == MineTime(l.head, Some(t))
    ensures InOneBlock(l, MineOn(l, Sent(items), given), t, items)
  {
    hide Sent, HoldsRaws, MineTime, MineOn, OneBlockOn;
    AllHeld(items);
    MinedOn(l, Sent(items), given, t);
  }

  lemma TsThree(env: Env, l: L2, items: seq<Item>, t: Option<nat>) returns (one: L2, two: L2)
    requires Calls(items) != []
    ensures TsBatch(env, l, items, t).Ok?
    ensures InThreeBlocks(env, l, one, two, TsBatch(env, l, items, t).value, RustTime(t), items, Deploys(env, items) != [])
  {
    hide Preloads, ProxyMap, Sent, HoldsRaws, MineTime, Later, RustTime, InThreeBlocks, MineOn, Filter, Deploys, Calls, Others;
    var (deploys, first) := (Deploys(env, items), Sent(Deploys(env, items)) + Sent(Others(env, items)));
    one := if deploys == [] then l else MineOn(l, first, t);
    var entries := multiset(Preloads(env, one.blocks, ProxyMap(env, items), Calls(items)));
    two := MineOn(one, entries, Later(t, 1));
    SameTime(l.head, t);
    SameTime(one.head, t);
    SameTime(two.head, t);
    MinedAfter(one, entries, Later(t, 1));
    EarlyHeld(env, items);
    ThreeMined(env, l, one, two, items, first, [t, Later(t, 1), Later(t, 2)], RustTime(t), deploys != []);
  }

  lemma RustThree(env: Env, l: L2, items: seq<Item>, t: nat) returns (one: L2, two: L2)
    requires items != [] && Calls(items) != []
    ensures RustBatch(env, l, items, t).Ok?
    ensures InThreeBlocks(env, l, one, two, RustBatch(env, l, items, t).value, t, items, First(env, items) != [])
  {
    hide Preloads, ProxyMap, Sent, HoldsRaws, MineTime, InThreeBlocks, MineOn, Filter, First, Calls;
    var first := First(env, items);
    one := if first == [] then l else MineOn(l, Sent(first), Some(t));
    two := MineOn(one, multiset(Preloads(env, one.blocks, ProxyMap(env, items), Calls(items))), Some(t + 1));
    EarlyHeld(env, items);
    ThreeMined(env, l, one, two, items, Sent(first), [Some(t), Some(t + 1), Some(t + 2)], t, first != []);
  }

  /** What the reth-based node makes of a batch: one block with all transactions if none called L1; otherwise the
      three blocks, where the first is mined only if a proxy is deployed. */
  lemma TsBatchMined(env: Env, l: L2, items: seq<Item>, t: Option<nat>) returns (one: L2, two: L2)
    requires items != []
    ensures var (r, time) := (TsBatch(env, l, items, t), match t { case Some(n) => n case None => 0 });
            r.Ok? && if SomeCall(items) then InThreeBlocks(env, l, one, two, r.value, time, items, SomeDeploy(env, items))
                     else InOneBlock(l, r.value, time, items)
  {
    Present(env, items);
    SameTime(l.head, t);
    hide InThreeBlocks, InOneBlock, SomeCall, SomeDeploy, SomeEarly, MineOn, Sent, MineTime, Deploys, Calls, Others;
    hide Preloads, ProxyMap;
    one, two := l, l;
    if Calls(items) != [] {
      one, two := TsThree(env, l, items, t);
    } else {
      OneMined(l, items, t, RustTime(t));
    }
  }

  /** The ethrex-based node: the first of the three blocks is mined if any transaction is early. */
  lemma RustBatchMined(env: Env, l: L2, items: seq<Item>, t: nat) returns (one: L2, two: L2)
    requires items != []
    ensures var r := RustBatch(env, l, items, t);
            r.Ok? && if SomeCall(items) then InThreeBlocks(env, l, one, two, r.value, t, items, SomeEarly(env, items))
                     else InOneBlock(l, r.value, t, items)
  {
    Present(env, items);
    hide InThreeBlocks, InOneBlock, SomeCall, SomeDeploy, SomeEarly, MineOn, Sent, MineTime, First, Calls, Preloads, ProxyMap;
    one, two := l, l;
    if Calls(items) != [] {
      one, two := RustThree(env, l, items, t);
    } else {
      OneMined(l, items, Some(t), t);
    }
  }

  // ---------- No transaction is lost ----------

  lemma {:induction false} TallySplits(p: Item -> bool, a: Item -> bool, b: Item -> bool, items: seq<Item>)
    requires forall i :: i in items ==> if p(i) then a(i) != b(i) else !a(i) && !b(i)
    ensures Tally(p, items) == Tally(a, items) + Tally(b, items)
  {
    if items == [] {
    } else {
      assert items[0] in items && forall i :: i in items[1..] ==> i in items;
      TallySplits(p, a, b, items[1..]);
    }
  }

  lemma {:induction false} TallyPositive(p: Item -> bool, items: seq<Item>, i: Item)
    requires i in items && p(i)
    ensures Tally(p, items) > 0
  {
    if items[0] != i {
      TallyPositive(p, items[1..], i);
    }
  }

  /** How often a raw transaction is mined in the first and the last of the three blocks. */
  function MinedTimes(l: L2, one: L2, two: L2, m: L2, raw: Bytes): nat {
    Next(l, one)[Raw(raw)] + Next(two, m)[Raw(raw)]
  }

  /** Unless a transaction both deploys a proxy and called L1, every transaction of the batch is mined as often as
      it occurs there, exactly if the first block is mined or nothing had to go into it. */
  lemma NoneLost(env: Env, l: L2, one: L2, two: L2, m: L2, t: nat, items: seq<Item>, opens: bool)
    requires InThreeBlocks(env, l, one, two, m, t, items, opens)
    requires forall i :: i in items ==> !(Deploying(env, i) && i.result.Some?)
    ensures (forall raw :: MinedTimes(l, one, two, m, raw) == Tally(Carrying(i => true, raw), items)) <==>
            opens || !SomeEarly(env, items)
  {
    hide Deploying, OneBlockOn, HoldsEntries, Next, SomeEarly;
    var last := i => CalledL1(i);
    forall raw
      ensures Tally(Carrying(i => true, raw), items) ==
              Tally(Carrying(Early(env), raw), items) + Tally(Carrying(last, raw), items)
      ensures MinedTimes(l, one, two, m, raw) ==
              (if opens then Tally(Carrying(Early(env), raw), items) else 0) + Tally(Carrying(last, raw), items)
    {
      TallySplits(Carrying(i => true, raw), Carrying(Early(env), raw), Carrying(last, raw), items);
      NothingNext(l);
    }
    EarlyTallied(env, items);
  }

  lemma NothingNext(l: L2)
    ensures Next(l, l) == multiset{}
  {
  }

  lemma EarlyTallied(env: Env, items: seq<Item>)
    ensures SomeEarly(env, items) <==> exists raw :: Tally(Carrying(Early(env), raw), items) > 0
  {
    hide Deploying;
    if i :| i in items && (Deploying(env, i) || i.result.None?) {
      TallyPositive(Carrying(Early(env), i.raw), items, i);
    }
    forall raw | !SomeEarly(env, items) ensures Tally(Carrying(Early(env), raw), items) == 0 {
      NothingTallied(Carrying(Early(env), raw), items);
    }
  }

  lemma {:induction false} NothingTallied(p: Item -> bool, items: seq<Item>)
    requires forall i :: i in items ==> !p(i)
    ensures Tally(p, items) == 0
  {
    if items == [] {
    } else {
      assert items[0] in items && forall i :: i in items[1..] ==> i in items;
      NothingTallied(p, items[1..]);
    }
  }

  // ---------- The transactions of a batch ----------

  /** How many of these events are read as transactions. */
  function Readable(read: Bytes -> Result<Option<(Bytes, ParsedTx)>>, events: seq<BatchEvent>): nat {
    if events == [] then 0
    else
      var call := read(events[|events| - 1].input);
      Readable(read, events[..|events| - 1]) + if call.Ok? && call.value.Some? then 1 else 0
  }

  lemma {:induction false} ItemAt(events: seq<BatchEvent>, read: Bytes -> Result<Option<(Bytes, ParsedTx)>>,
                                  result: BatchEvent -> Option<Action>, k: nat)
    requires Items(events, read, result).Ok?
    ensures var items := Items(events, read, result).value;
            && |items| == Readable(read, events)
            && (k < |events| && read(events[k].input).Ok? && read(events[k].input).value.Some? ==>
                  var ((raw, tx), at) := (read(events[k].input).value.value, Readable(read, events[..k]));
                  at < |items| && items[at] == Item(raw, tx, result(events[k])))
  {
    if events == [] {
    } else {
      ItemAt(events[..|events| - 1], read, result, k);
      if k < |events| { assert events[..|events| - 1][..k] == events[..k]; }
    }
  }

  /** The reth-based node reads each executeL2TX of the batch as one transaction, in order; its result is the
      second action consumed. */
  lemma TsItemAt(env: Env, events: seq<BatchEvent>, k: nat, raw: Bytes, tx: ParsedTx)
    requires TsItems(env, events).Ok? && k < |events|
    requires env.tsCall(events[k].input) == Ok(Some(raw)) && env.tsParse(raw) == Ok(tx)
    ensures var (items, at, e) := (TsItems(env, events).value, Readable(input => TsRead(env, input), events[..k]), events[k]);
            && |items| == Readable(input => TsRead(env, input), events) && at < |items|
            && items[at] == Item(raw := raw, tx := tx, result := if |e.consumed| >= 2 then Some(e.consumed[1]) else None)
  {
    hide Items, Readable;
    ItemAt(events, input => TsRead(env, input), e => TsResult(e), k);
  }

  /** So does the ethrex-based node; there the first execution of an L1 transaction has the first result. */
  lemma RustItemAt(env: Env, events: seq<BatchEvent>, k: nat, raw: Bytes, tx: ParsedTx)
    requires RustItems(env, events).Ok? && k < |events|
    requires RustCall(env, events[k].input) == Ok(Some(raw)) && Parse(env.crypto, raw) == Ok(tx)
    ensures var (items, at, e) := (RustItems(env, events).value, Readable(input => RustRead(env, input), events[..k]), events[k]);
            && |items| == Readable(input => RustRead(env, input), events) && at < |items|
            && items[at] == Item(raw := raw, tx := tx, result := if e.position == 0 then FirstResult(e.consumed) else None)
  {
    hide Items, Readable, RustCall, Parse, FirstResult;
    ItemAt(events, input => RustRead(env, input), e => RustResult(e), k);
  }

  /** Call data without the selector of executeL2TX in front is no transaction, however long it is. */
  lemma OtherCallsSkipped(env: Env, input: Bytes)
    requires |env.executeL2Tx| == 4 && !(env.executeL2Tx <= input)
    ensures RustRead(env, input) == Ok(None)
  {
  }
}
