/** The replay methods of both nodes as they drive the execution engine, against the schedules. */
module Replayers {
  import opened Actions
  import opened Bytes
  import opened Schedule
  import opened TxParsing
  import opened Wrappers
  import Calldata

  // ---------- Passes over the events and the decoded transactions ----------

  lemma ItemsMore(events: seq<BatchEvent>, i: nat, read: Bytes -> Result<Option<(Bytes, ParsedTx)>>,
                  result: BatchEvent -> Option<Action>)
    requires i < |events|
    ensures Items(events[..i + 1], read, result) ==
            (var before :- Items(events[..i], read, result);
             var call :- read(events[i].input);
             Ok(if call.None? then before else before + [Item(call.value.0, call.value.1, result(events[i]))]))
  {
    assert events[..i + 1][..i] == events[..i] && events[..i + 1][i] == events[i];
  }

  /** One event that cannot be read is enough. */
  lemma Unread(events: seq<BatchEvent>, i: nat, read: Bytes -> Result<Option<(Bytes, ParsedTx)>>,
               result: BatchEvent -> Option<Action>)
    requires i < |events| && read(events[i].input).Err?
    ensures Items(events, read, result).Err?
  {
    ItemsRead(events, read, result);
    assert events[i] in events;
  }

  lemma ProxyMore(env: Env, items: seq<Item>, item: Item)
    ensures var m, last := ProxyMap(env, items), DeployInfo(env, item);
            ProxyMap(env, items + [item]) ==
            if last.None? then m else m[env.proxyOf(last.value.0, last.value.1) := last.value]
  {
    hide DeployInfo;
    assert (items + [item])[..|items|] == items;
  }

  /** First pass of the reth-based node: decode, and note the proxies being deployed. */
  method DecodeAndTrack(env: Env, events: seq<BatchEvent>) returns (decoded: Result<seq<Item>>, proxies: map<Bytes, (Bytes, nat)>)
    ensures decoded == TsItems(env, events)
    ensures decoded.Ok? ==> proxies == ProxyMap(env, decoded.value)
  {
    hide DeployInfo, Items, ProxyMap, TsResult;
    ghost var read, result := input => TsRead(env, input), e => TsResult(e);
    var items: seq<Item> := [];
    proxies := map[];
    NothingFound(read, result);
    NothingTracked(env);
    for i := 0 to |events|
      invariant Ok(items) == Items(events[..i], read, result) && proxies == ProxyMap(env, items)
    {
      var e := events[i];
      ItemsMore(events, i, read, result);
      var call := env.tsCall(e.input);
      if call.Err? {
        Unread(events, i, read, result);
        return Err, proxies;
      }
      if call.value.Some? {
        var tx := env.tsParse(call.value.value);
        if tx.Err? {
          Unread(events, i, read, result);
          return Err, proxies;
        }
        var item := Item(call.value.value, tx.value, TsResult(e));
        ProxyMore(env, items, item);
        items := items + [item];
        var info := DeployInfo(env, item);
        if info.Some? {
          proxies := proxies[env.proxyOf(info.value.0, info.value.1) := info.value];
        }
      }
    }
    assert events[..|events|] == events;
    decoded := Ok(items);
  }

  lemma NothingTracked(env: Env)
    ensures ProxyMap(env, []) == map[]
  {
  }

  lemma NothingFound(read: Bytes -> Result<Option<(Bytes, ParsedTx)>>, result: BatchEvent -> Option<Action>)
    ensures Items([], read, result) == Ok([])
  {
  }

  /** First pass of the ethrex-based node. */
  method Decode(env: Env, events: seq<BatchEvent>) returns (decoded: Result<seq<Item>>)
    ensures decoded == RustItems(env, events)
  {
    hide Items, RustResult, RustCall, Parse;
    ghost var read, result := input => RustRead(env, input), e => RustResult(e);
    var items: seq<Item> := [];
    NothingFound(read, result);
    for i := 0 to |events|
      invariant Ok(items) == Items(events[..i], read, result)
    {
      var e := events[i];
      ItemsMore(events, i, read, result);
      var call := RustCall(env, e.input);
      if call.Err? {
        Unread(events, i, read, result);
        return Err;
      }
      if call.value.Some? {
        var tx := Parse(env.crypto, call.value.value);
        if tx.Err? {
          Unread(events, i, read, result);
          return Err;
        }
        items := items + [Item(call.value.value, tx.value, RustResult(e))];
      }
    }
    assert events[..|events|] == events;
    decoded := Ok(items);
  }

  /** Its second pass, over the deploys. */
  method TrackProxies(env: Env, decoded: seq<Item>) returns (proxies: map<Bytes, (Bytes, nat)>)
    ensures proxies == ProxyMap(env, decoded)
  {
    hide DeployInfo, ProxyMap;
    proxies := map[];
    NothingTracked(env);
    for i := 0 to |decoded|
      invariant proxies == ProxyMap(env, decoded[..i])
    {
      ProxyMore(env, decoded[..i], decoded[i]);
      assert decoded[..i] + [decoded[i]] == decoded[..i + 1];
      var info := DeployInfo(env, decoded[i]);
      if info.Some? {
        proxies := proxies[env.proxyOf(info.value.0, info.value.1) := info.value];
      }
    }
    assert decoded[..|decoded|] == decoded;
  }

  lemma Rest<T>(s: seq<T>, i: nat)
    requires i < |s|
    ensures s[i..] == [s[i]] + s[i + 1..] && s[i..][0] == s[i] && s[i..][1..] == s[i + 1..]
  {
  }

  method SendAll(engine: Engine, items: seq<Item>)
    modifies engine`pool
    ensures engine.pool == old(engine.pool) + Sent(items)
  {
    hide Sent;
    assert items[0..] == items;
    for i := 0 to |items|
      invariant engine.pool + Sent(items[i..]) == old(engine.pool) + Sent(items)
    {
      Rest(items, i);
      SentMore(items[i], items[i + 1..]);
      engine.Send(Raw(items[i].raw));
    }
    assert Sent([]) == multiset{} by { NoneSent(); }
    assert items[|items|..] == [];
  }

  lemma NoneSent()
    ensures Sent([]) == multiset{}
  {
  }

  /** Sends the transactions for which `f` holds and counts them. */
  method SendWhere(engine: Engine, items: seq<Item>, f: Item -> bool) returns (count: nat)
    modifies engine`pool
    ensures engine.pool == old(engine.pool) + Sent(Filter(f, items))
    ensures count == 0 <==> Filter(f, items) == []
  {
    hide Sent, Filter;
    count := 0;
    assert items[0..] == items;
    for i := 0 to |items|
      invariant engine.pool + Sent(Filter(f, items[i..])) == old(engine.pool) + Sent(Filter(f, items))
      invariant count == 0 && Filter(f, items[i..]) == [] <==> Filter(f, items) == []
    {
      Rest(items, i);
      FilterStep(f, items[i..]);
      if f(items[i]) {
        engine.Send(Raw(items[i].raw));
        count := count + 1;
      }
    }
    assert items[|items|..] == [];
    NoneFiltered(f);
  }

  lemma NoneFiltered(f: Item -> bool)
    ensures Filter(f, []) == [] && Sent([]) == multiset{}
  {
  }

  lemma PreloadStep(env: Env, blocks: seq<Block>, proxies: map<Bytes, (Bytes, nat)>, items: seq<Item>, i: nat)
    requires i < |items|
    ensures multiset(Preloads(env, blocks, proxies, items[i..])) ==
            (if items[i].result.Some? && items[i].tx.to.Some?
             then multiset{EntryFor(env, blocks, proxies, items[i].tx, items[i].tx.to.value, items[i].result.value)}
             else multiset{})
            + multiset(Preloads(env, blocks, proxies, items[i + 1..]))
  {
    hide EntryFor;
    Rest(items, i);
  }

  lemma NonePreloaded(env: Env, blocks: seq<Block>, proxies: map<Bytes, (Bytes, nat)>)
    ensures multiset(Preloads(env, blocks, proxies, [])) == multiset{}
  {
  }

  /** Sends the entry of every call of `items` that goes to an address. */
  method SendPreloads(engine: Engine, env: Env, proxies: map<Bytes, (Bytes, nat)>, items: seq<Item>)
    modifies engine`pool
    ensures engine.pool == old(engine.pool) + multiset(Preloads(env, engine.blocks, proxies, items))
  {
    hide Preloads, EntryFor;
    assert items[0..] == items;
    for i := 0 to |items|
      invariant engine.pool + multiset(Preloads(env, engine.blocks, proxies, items[i..])) ==
                old(engine.pool) + multiset(Preloads(env, engine.blocks, proxies, items))
    {
      PreloadStep(env, engine.blocks, proxies, items, i);
      if items[i].result.None? || items[i].tx.to.None? {
        continue;
      }
      engine.Send(EntryFor(env, engine.blocks, proxies, items[i].tx, items[i].tx.to.value, items[i].result.value));
    }
    assert items[|items|..] == [];
    NonePreloaded(env, engine.blocks, proxies);
  }

  lemma {:induction false} PreloadsOfCalls(env: Env, blocks: seq<Block>, proxies: map<Bytes, (Bytes, nat)>, items: seq<Item>)
    ensures Preloads(env, blocks, proxies, Calls(items)) == Preloads(env, blocks, proxies, items)
  {
    hide EntryFor;
    if items == [] {
    } else {
      PreloadsOfCalls(env, blocks, proxies, items[1..]);
      var rest := Calls(items[1..]);
      if IsCall(items[0]) {
        assert Calls(items) == [items[0]] + rest && ([items[0]] + rest)[1..] == rest;
      } else {
        assert Calls(items) == [] + rest == rest;
      }
    }
  }

  // ---------- The reth-based node ----------

  method ReplayBatchTs(engine: Engine, env: Env, events: seq<BatchEvent>, t: Option<nat>) returns (ok: bool)
    requires engine.Valid() && engine.pool == multiset{}
    modifies engine
    ensures engine.Valid() && engine.pool == multiset{}
    ensures var r := TsReplay(env, old(engine.Chain()), events, t);
            ok == r.Ok? && engine.Chain() == if r.Ok? then r.value else old(engine.Chain())
  {
    hide TsItems, ProxyMap, Preloads, Sent, Filter, Deploys, Calls, Others, MineTime, InOrder;
    var items, proxies := DecodeAndTrack(env, events);
    if items.Err? {
      return false;
    }
    var decoded := items.value;
    var calls := Calls(decoded);
    if calls != [] {
      var deploys, others := Deploys(env, decoded), Others(env, decoded);
      if deploys != [] {
        SendAll(engine, deploys);
        SendAll(engine, others);
        assert engine.pool == Sent(deploys) + Sent(others);
        engine.MineBlock(t);
      }
      SendPreloads(engine, env, proxies, calls);
      assert engine.pool == multiset(Preloads(env, engine.blocks, proxies, calls));
      engine.MineBlock(Later(t, 1));
      SendAll(engine, calls);
      assert engine.pool == Sent(calls);
      engine.MineBlock(Later(t, 2));
    } else {
      SendAll(engine, decoded);
      if decoded == [] {
        NoneSent();
        return false;
      }
      assert engine.pool == Sent(decoded);
      engine.MineBlock(t);
    }
    return true;
  }

  /** A call from L1: load the entry for the promised result, and make the call. */
  method SendIncoming(engine: Engine, env: Env, a: Action, trial: (Bytes, bool))
    requires engine.pool == multiset{}
    modifies engine`pool
    ensures engine.pool == IncomingTxs(env, a, trial)
  {
    var promised := Action(RESULT, env.rollupId, ZERO_ADDRESS, 0, trial.0, trial.1, ZERO_ADDRESS, 0, []);
    engine.Send(Preload(promised, Calldata.ResultAction([], false)));
    engine.Send(IncomingCall(IncomingOf(a)));
  }

  method ReplaySingleTs(engine: Engine, env: Env, e: BatchEvent, t: Option<nat>) returns (ok: bool)
    requires engine.Valid() && engine.pool == multiset{}
    modifies engine
    ensures engine.Valid() && engine.pool == multiset{}
    ensures var r := TsEventReplay(env, old(engine.Chain()), e, t);
            ok == r.Ok? && engine.Chain() == if r.Ok? then r.value else old(engine.Chain())
  {
    hide EntryFor, MineTime, InOrder, TsResult;
    var call := env.tsCall(e.input);
    if call.Err? {
      return false;
    }
    if call.value.None? {
      if e.consumed != [] && e.consumed[0].actionType == CALL {
        SendIncoming(engine, env, e.consumed[0], env.tsTrial(engine.blocks, e.consumed[0]));
      } else {
        engine.Send(Forwarded(e.input));
        assert engine.pool == multiset{Forwarded(e.input)};
      }
      engine.MineBlock(t);
      return true;
    }
    var raw := call.value.value;
    var parsed := env.tsParse(raw);
    if parsed.Err? {
      return false;
    }
    var tx, result := parsed.value, TsResult(e);
    if result.Some? && tx.to.Some? {
      var entry := EntryFor(env, engine.blocks, map[], tx, tx.to.value, result.value);
      engine.Send(entry);
      assert engine.pool == multiset{entry};
      engine.MineBlock(t);
      engine.Send(Raw(raw));
      assert engine.pool == multiset{Raw(raw)};
      engine.MineBlock(Later(t, 1));
    } else {
      engine.Send(Raw(raw));
      assert engine.pool == multiset{Raw(raw)};
      engine.MineBlock(t);
    }
    return true;
  }

  // ---------- The ethrex-based node ----------

  method ReplayBatchRust(engine: Engine, env: Env, events: seq<BatchEvent>, t: nat) returns (ok: bool)
    requires engine.Valid() && engine.pool == multiset{}
    modifies engine
    ensures engine.Valid() && engine.pool == multiset{}
    ensures var r := RustReplay(env, old(engine.Chain()), events, t);
            ok == r.Ok? && engine.Chain() == if r.Ok? then r.value else old(engine.Chain())
  {
    hide RustItems, ProxyMap, Preloads, Sent, Filter, MineTime, InOrder, IsDeploy;
    var items := Decode(env, events);
    if items.Err? || items.value == [] {
      return false;
    }
    var decoded := items.value;
    if Calls(decoded) != [] {
      var proxies := TrackProxies(env, decoded);
      var count := SendWhere(engine, decoded, i => GoesFirst(env, i));
      assert engine.pool == Sent(First(env, decoded));
      if count > 0 {
        engine.MineBlock(Some(t));
      } else {
        NoneSent();
      }
      SendPreloads(engine, env, proxies, decoded);
      PreloadsOfCalls(env, engine.blocks, proxies, decoded);
      assert engine.pool == multiset(Preloads(env, engine.blocks, proxies, Calls(decoded)));
      engine.MineBlock(Some(t + 1));
      var calls := SendWhere(engine, decoded, i => IsCall(i));
      assert engine.pool == Sent(Calls(decoded));
      engine.MineBlock(Some(t + 2));
    } else {
      SendAll(engine, decoded);
      assert engine.pool == Sent(decoded);
      engine.MineBlock(Some(t));
    }
    return true;
  }

  method ReplaySingleRust(engine: Engine, env: Env, e: BatchEvent, t: nat) returns (ok: bool)
    requires engine.Valid() && engine.pool == multiset{}
    modifies engine
    ensures engine.Valid() && engine.pool == multiset{}
    ensures var r := RustEventReplay(env, old(engine.Chain()), e, t);
            ok == r.Ok? && engine.Chain() == if r.Ok? then r.value else old(engine.Chain())
  {
    hide EntryFor, MineTime, InOrder, RustCall, Parse, RustResult;
    if e.position < |e.consumed| && e.consumed[e.position].actionType == CALL {
      var a := e.consumed[e.position];
      SendIncoming(engine, env, a, env.rustTrial(engine.blocks, a));
      engine.MineBlock(Some(t));
      return true;
    }
    var call := RustCall(env, e.input);
    if call.Err? || call.value.None? {
      return false;
    }
    var raw, result := call.value.value, RustResult(e);
    if result.Some? {
      var parsed := Parse(env.crypto, raw);
      if parsed.Err? {
        return false;
      }
      var tx := parsed.value;
      if tx.to.Some? {
        var entry := EntryFor(env, engine.blocks, map[], tx, tx.to.value, result.value);
        engine.Send(entry);
        assert engine.pool == multiset{entry};
      }
      engine.MineBlock(Some(t));
      engine.Send(Raw(raw));
      assert engine.pool == multiset{Raw(raw)};
      engine.MineBlock(Some(t + 1));
    } else {
      engine.Send(Raw(raw));
      assert engine.pool == multiset{Raw(raw)};
      engine.MineBlock(Some(t));
    }
    return true;
  }
}
