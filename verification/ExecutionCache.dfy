/** The cache of execution entries: buckets by action hash, against one list in insertion order. */
module ExecutionCache {
  import opened Bytes
  import opened Entries
  import opened Wrappers

  // ---------- One list ----------

  predicate DeltaMatches(rollupId: nat, d: StateDelta, state: Bytes) {
    d.rollupId == rollupId ==> d.currentState == state
  }

  /** Every delta of our rollup starts at `state`. */
  predicate Matches(rollupId: nat, e: Entry, state: Bytes) {
    forall i :: 0 <= i < |e.deltas| ==> DeltaMatches(rollupId, e.deltas[i], state)
  }

  predicate Wanted(rollupId: nat, e: Entry, hash: Bytes, state: Bytes) {
    e.actionHash == hash && Matches(rollupId, e, state)
  }

  /** The earliest wanted entry, and the list without it. */
  function Consume(rollupId: nat, log: seq<Entry>, hash: Bytes, state: Bytes): (Option<Entry>, seq<Entry>) {
    if log == [] then (None, [])
    else if Wanted(rollupId, log[0], hash, state) then (Some(log[0]), log[1..])
    else
      var (found, rest) := Consume(rollupId, log[1..], hash, state);
      (found, [log[0]] + rest)
  }

  /** Consuming takes out the earliest wanted entry, and nothing when there is none. */
  lemma {:induction false} ConsumesEarliest(rollupId: nat, log: seq<Entry>, hash: Bytes, state: Bytes) returns (i: nat)
    ensures i <= |log| && forall j :: 0 <= j < i ==> !Wanted(rollupId, log[j], hash, state)
    ensures i < |log| ==> Wanted(rollupId, log[i], hash, state)
    ensures Consume(rollupId, log, hash, state) == if i < |log| then (Some(log[i]), log[..i] + log[i + 1..]) else (None, log)
  {
    hide Wanted, Consume;
    FirstStep(rollupId, log, hash, state);
    if log == [] {
      i := 0;
    } else if Wanted(rollupId, log[0], hash, state) {
      i := 0;
      assert log[..0] + log[0 + 1..] == log[1..];
    } else {
      var k := ConsumesEarliest(rollupId, log[1..], hash, state);
      i := k + 1;
      forall j | 0 <= j < i ensures !Wanted(rollupId, log[j], hash, state) {
        if j > 0 { assert log[j] == log[1..][j - 1]; }
      }
      if k < |log[1..]| { LeftOut(log, k); }
    }
  }

  lemma FirstStep(rollupId: nat, log: seq<Entry>, hash: Bytes, state: Bytes)
    ensures log == [] ==> Consume(rollupId, log, hash, state) == (None, log)
    ensures log != [] && Wanted(rollupId, log[0], hash, state) ==> Consume(rollupId, log, hash, state) == (Some(log[0]), log[1..])
    ensures log != [] && !Wanted(rollupId, log[0], hash, state) ==>
              var (found, rest) := Consume(rollupId, log[1..], hash, state);
              Consume(rollupId, log, hash, state) == (found, [log[0]] + rest) && log == [log[0]] + log[1..]
  {
    hide Wanted;
  }

  lemma LeftOut(log: seq<Entry>, k: nat)
    requires k + 1 < |log|
    ensures [log[0]] + (log[1..][..k] + log[1..][k + 1..]) == log[..k + 1] + log[k + 2..]
  {
  }

  /** The entry answers the hash, and each of its deltas for our rollup starts at the state. */
  ghost predicate Serves(rollupId: nat, e: Entry, hash: Bytes, state: Bytes) {
    e.actionHash == hash && forall d :: d in e.deltas && d.rollupId == rollupId ==> d.currentState == state
  }

  /** Entry `i` of `before` is taken out, the first one that serves. */
  ghost predicate TakenAt(rollupId: nat, before: seq<Entry>, i: int, e: Entry, after: seq<Entry>, hash: Bytes, state: Bytes) {
    && 0 <= i < |before| && e == before[i] && after == before[..i] + before[i + 1..]
    && Serves(rollupId, e, hash, state) && forall j :: 0 <= j < i ==> !Serves(rollupId, before[j], hash, state)
  }

  /** The first entry that serves is taken out, and nothing if there is none. */
  ghost predicate EarliestTaken(rollupId: nat, before: seq<Entry>, r: Option<Entry>, after: seq<Entry>, hash: Bytes,
                                state: Bytes)
  {
    match r
    case None => after == before && forall e :: e in before ==> !Serves(rollupId, e, hash, state)
    case Some(e) => exists i :: TakenAt(rollupId, before, i, e, after, hash, state)
  }

  lemma WantedServes(rollupId: nat, e: Entry, hash: Bytes, state: Bytes)
    ensures Wanted(rollupId, e, hash, state) <==> Serves(rollupId, e, hash, state)
  {
    if Serves(rollupId, e, hash, state) {
      forall i | 0 <= i < |e.deltas| ensures DeltaMatches(rollupId, e.deltas[i], state) {
        assert e.deltas[i] in e.deltas;
      }
    }
    if Wanted(rollupId, e, hash, state) {
      forall d | d in e.deltas && d.rollupId == rollupId ensures d.currentState == state {
        var i :| 0 <= i < |e.deltas| && e.deltas[i] == d;
        assert DeltaMatches(rollupId, e.deltas[i], state);
      }
    }
  }

  lemma ConsumeTakes(rollupId: nat, log: seq<Entry>, hash: Bytes, state: Bytes)
    ensures var (found, rest) := Consume(rollupId, log, hash, state); EarliestTaken(rollupId, log, found, rest, hash, state)
  {
    hide Wanted, Serves, Consume;
    var i := ConsumesEarliest(rollupId, log, hash, state);
    forall e ensures Wanted(rollupId, e, hash, state) <==> Serves(rollupId, e, hash, state) {
      WantedServes(rollupId, e, hash, state);
    }
    if i < |log| {
      assert TakenAt(rollupId, log, i, log[i], log[..i] + log[i + 1..], hash, state);
    }
  }

  // ---------- Buckets ----------

  function WithHash(log: seq<Entry>, hash: Bytes): (r: seq<Entry>)
    ensures forall e :: e in r ==> e.actionHash == hash && e in log
    ensures forall e :: e in log && e.actionHash == hash ==> e in r
  {
    if log == [] then [] else (if log[0].actionHash == hash then [log[0]] else []) + WithHash(log[1..], hash)
  }

  lemma {:induction false} WithHashAppend(log: seq<Entry>, e: Entry, hash: Bytes)
    ensures WithHash(log + [e], hash) == if e.actionHash == hash then WithHash(log, hash) + [e] else WithHash(log, hash)
  {
    if log == [] {
      assert [e][1..] == [] && log + [e] == [e];
    } else {
      assert (log + [e])[1..] == log[1..] + [e];
      WithHashAppend(log[1..], e, hash);
    }
  }

  lemma WithHashCons(log: seq<Entry>, hash: Bytes)
    requires log != []
    ensures WithHash(log, hash) ==
            if log[0].actionHash == hash then [log[0]] + WithHash(log[1..], hash) else WithHash(log[1..], hash)
  {
    assert [] + WithHash(log[1..], hash) == WithHash(log[1..], hash);
  }

  lemma ConsumeCons(rollupId: nat, e: Entry, rest: seq<Entry>, hash: Bytes, state: Bytes)
    ensures Consume(rollupId, [e] + rest, hash, state) ==
            if Wanted(rollupId, e, hash, state) then (Some(e), rest)
            else (Consume(rollupId, rest, hash, state).0, [e] + Consume(rollupId, rest, hash, state).1)
  {
    hide Wanted;
    assert ([e] + rest)[1..] == rest;
  }

  /** Consuming from the list is consuming from the bucket, and leaves the other buckets alone. */
  lemma {:induction false} ConsumeInBucket(rollupId: nat, log: seq<Entry>, hash: Bytes, state: Bytes)
    ensures var (found, rest) := Consume(rollupId, log, hash, state);
            && Consume(rollupId, WithHash(log, hash), hash, state) == (found, WithHash(rest, hash))
            && forall g: Bytes :: g != hash ==> WithHash(rest, g) == WithHash(log, g)
  {
    if log == [] {
      assert WithHash(log, hash) == [];
    } else {
      hide Matches, Consume, WithHash;
      var e, tail := log[0], log[1..];
      ConsumeInBucket(rollupId, tail, hash, state);
      assert log == [e] + tail;
      ConsumeCons(rollupId, e, tail, hash, state);
      ConsumeCons(rollupId, e, WithHash(tail, hash), hash, state);
      WithHashCons(log, hash);
      var (found, rest) := Consume(rollupId, tail, hash, state);
      assert ([e] + rest)[0] == e && ([e] + rest)[1..] == rest;
      WithHashCons([e] + rest, hash);
      forall g: Bytes | g != hash ensures WithHash(Consume(rollupId, log, hash, state).1, g) == WithHash(log, g) {
        WithHashCons(log, g);
        WithHashCons([e] + rest, g);
      }
    }
  }

  lemma NoBucket(log: seq<Entry>, hash: Bytes)
    requires forall e :: e in log ==> e.actionHash != hash
    ensures WithHash(log, hash) == []
  {
    if WithHash(log, hash) != [] {
      assert WithHash(log, hash)[0] in WithHash(log, hash);
    }
  }

  /** Where in its bucket the earliest wanted entry is. */
  lemma Locate(rollupId: nat, log: seq<Entry>, hash: Bytes, state: Bytes) returns (at: nat)
    ensures var (bucket, rest) := (WithHash(log, hash), Consume(rollupId, log, hash, state).1);
            && at <= |bucket| && (forall j :: 0 <= j < at ==> !Matches(rollupId, bucket[j], state))
            && (at == |bucket| ==> Consume(rollupId, log, hash, state) == (None, log))
            && (at < |bucket| ==>
                  && Matches(rollupId, bucket[at], state)
                  && Consume(rollupId, log, hash, state).0 == Some(bucket[at])
                  && WithHash(rest, hash) == bucket[..at] + bucket[at + 1..]
                  && (forall g: Bytes :: g != hash ==> WithHash(rest, g) == WithHash(log, g))
                  && (forall e :: e in rest ==> e in log))
  {
    hide Matches, Consume;
    var bucket := WithHash(log, hash);
    assert forall j :: 0 <= j < |bucket| ==> bucket[j] in bucket;
    hide WithHash;
    ConsumeInBucket(rollupId, log, hash, state);
    at := ConsumesEarliest(rollupId, bucket, hash, state);
    var i := ConsumesEarliest(rollupId, log, hash, state);
    if i < |log| {
      Kept(log, Consume(rollupId, log, hash, state).1, i);
    }
  }

  /** An added entry goes to the end of its own bucket and to no other. */
  lemma AddedToOne(log: seq<Entry>, e: Entry)
    ensures forall g: Bytes :: WithHash(log + [e], g) == if e.actionHash == g then WithHash(log, g) + [e] else WithHash(log, g)
  {
    hide WithHash;
    forall g: Bytes ensures WithHash(log + [e], g) == if e.actionHash == g then WithHash(log, g) + [e] else WithHash(log, g) {
      WithHashAppend(log, e, g);
    }
  }

  class Cache {
    const rollupId: nat
    var buckets: map<Bytes, seq<Entry>>
    /** All cached entries in the order in which they were cached. */
    ghost var log: seq<Entry>

    /** Every bucket holds the cached entries of its hash in order, and there is no empty one. */
    ghost predicate Valid()
      reads this
    {
      && (forall h :: h in buckets ==> buckets[h] == WithHash(log, h) && buckets[h] != [])
      && (forall e :: e in log ==> e.actionHash in buckets)
    }

    constructor (rollupId: nat)
      ensures Valid() && log == [] && this.rollupId == rollupId
    {
      this.rollupId := rollupId;
      buckets := map[];
      log := [];
    }

    method Add(exec: Entry)
      requires Valid()
      modifies this
      ensures Valid() && log == old(log) + [exec]
    {
      hide WithHash;
      var h := exec.actionHash;
      var existing := if h in buckets then buckets[h] else [];
      if h !in buckets {
        NoBucket(log, h);
      }
      AddedToOne(log, exec);
      buckets := buckets[h := existing + [exec]];
      log := log + [exec];
    }

    method CacheExecutions(executions: seq<Entry>)
      requires Valid()
      modifies this
      ensures Valid() && log == old(log) + executions
    {
      hide *;
      assert executions[..0] == [] && log + [] == log;
      for i := 0 to |executions|
        invariant Valid() && log == old(log) + executions[..i]
      {
        Add(executions[i]);
        assert executions[..i] + [executions[i]] == executions[..i + 1];
        assert old(log) + executions[..i] + [executions[i]] == old(log) + (executions[..i] + [executions[i]]);
      }
      assert executions[..|executions|] == executions;
    }

    method AllMatch(exec: Entry, state: Bytes) returns (r: bool)
      ensures r == Matches(rollupId, exec, state)
    {
      for i := 0 to |exec.deltas|
        invariant forall j :: 0 <= j < i ==> DeltaMatches(rollupId, exec.deltas[j], state)
      {
        if exec.deltas[i].rollupId == rollupId && exec.deltas[i].currentState != state {
          assert !DeltaMatches(rollupId, exec.deltas[i], state);
          return false;
        }
      }
      return true;
    }

    /** Takes entry `i` out of its bucket, and the bucket away with its last entry. */
    method TakeOut(hash: Bytes, i: nat, ghost rest: seq<Entry>)
      requires Valid() && hash in buckets && i < |buckets[hash]|
      requires WithHash(rest, hash) == buckets[hash][..i] + buckets[hash][i + 1..]
      requires forall g: Bytes :: g != hash ==> WithHash(rest, g) == WithHash(log, g)
      requires forall e :: e in rest ==> e in log
      modifies this
      ensures Valid() && log == rest
    {
      hide WithHash;
      var executions := buckets[hash][..i] + buckets[hash][i + 1..];
      if executions == [] {
        buckets := map h | h in buckets && h != hash :: buckets[h];
      } else {
        buckets := buckets[hash := executions];
      }
      log := rest;
    }

    method FindAndConsumeExecution(hash: Bytes, state: Bytes) returns (r: Option<Entry>)
      requires Valid()
      modifies this
      ensures Valid()
      ensures (r, log) == Consume(rollupId, old(log), hash, state)
      ensures EarliestTaken(rollupId, old(log), r, log, hash, state)
    {
      hide Matches, Consume, WithHash, EarliestTaken;
      ConsumeTakes(rollupId, log, hash, state);
      ghost var rest := Consume(rollupId, log, hash, state).1;
      ghost var at := Locate(rollupId, log, hash, state);
      if hash !in buckets || buckets[hash] == [] {
        NoBucket(log, hash);
        return None;
      }
      var executions := buckets[hash];
      var i := 0;
      while i < |executions|
        invariant 0 <= i <= at
        invariant Valid() && buckets == old(buckets) && log == old(log)
      {
        var allMatch := AllMatch(executions[i], state);
        if allMatch {
          assert i == at;
          TakeOut(hash, i, rest);
          return Some(executions[i]);
        }
        i := i + 1;
      }
      return None;
    }

    method ClearExecutionCache()
      modifies this
      ensures Valid() && log == []
    {
      buckets := map[];
      log := [];
    }
  }

  lemma Kept(log: seq<Entry>, rest: seq<Entry>, at: nat)
    requires at < |log| && rest == log[..at] + log[at + 1..]
    ensures forall e :: e in rest ==> e in log
  {
  }

  // ---------- Runs ----------

  datatype Op = Load(executions: seq<Entry>) | Take(hash: Bytes, state: Bytes) | Clear

  /** What is cached, and everything loaded, consumed and cleared so far. */
  datatype Ledger = Ledger(log: seq<Entry>, loaded: multiset<Entry>, consumed: multiset<Entry>, cleared: multiset<Entry>)

  function Perform(rollupId: nat, l: Ledger, op: Op): Ledger {
    match op
    case Load(executions) => l.(log := l.log + executions, loaded := l.loaded + multiset(executions))
    case Take(hash, state) =>
      var (found, rest) := Consume(rollupId, l.log, hash, state);
      l.(log := rest, consumed := if found.Some? then l.consumed + multiset{found.value} else l.consumed)
    case Clear => l.(log := [], cleared := l.cleared + multiset(l.log))
  }

  function PerformAll(rollupId: nat, l: Ledger, ops: seq<Op>): Ledger
    decreases |ops|
  {
    if ops == [] then l else PerformAll(rollupId, Perform(rollupId, l, ops[0]), ops[1..])
  }

  ghost predicate Balanced(l: Ledger) {
    l.loaded == l.consumed + l.cleared + multiset(l.log)
  }

  lemma ConsumeConserves(rollupId: nat, log: seq<Entry>, hash: Bytes, state: Bytes)
    ensures var (found, rest) := Consume(rollupId, log, hash, state);
            multiset(log) == multiset(rest) + if found.Some? then multiset{found.value} else multiset{}
  {
    hide Wanted, Consume;
    var i := ConsumesEarliest(rollupId, log, hash, state);
    if i < |log| {
      assert log == log[..i] + ([log[i]] + log[i + 1..]);
    }
  }

  /** No entry is lost or served twice: over every run what was loaded is what was consumed, what
      was cleared and what is still cached. */
  lemma {:induction false} Conservation(rollupId: nat, l: Ledger, ops: seq<Op>)
    requires Balanced(l)
    ensures Balanced(PerformAll(rollupId, l, ops))
    decreases |ops|
  {
    hide Consume;
    if ops == [] {
    } else {
      if ops[0].Take? {
        ConsumeConserves(rollupId, l.log, ops[0].hash, ops[0].state);
      }
      Conservation(rollupId, Perform(rollupId, l, ops[0]), ops[1..]);
    }
  }

  // ---------- The order of entries ----------

  /** `a` is `b` with some entries left out. */
  ghost predicate Within(a: seq<Entry>, b: seq<Entry>) {
    || a == []
    || (b != [] && (Within(a, b[..|b| - 1]) || (a[|a| - 1] == b[|b| - 1] && Within(a[..|a| - 1], b[..|b| - 1]))))
  }

  lemma {:induction false} WithinMore(a: seq<Entry>, b: seq<Entry>, more: seq<Entry>)
    requires Within(a, b)
    ensures Within(a + more, b + more)
    decreases |more|
  {
    if more == [] {
      assert a + more == a && b + more == b;
    } else {
      var n := |more| - 1;
      WithinMore(a, b, more[..n]);
      assert (a + more)[..|a| + n] == a + more[..n] && (b + more)[..|b| + n] == b + more[..n];
    }
  }

  lemma {:induction false} WithinLess(a: seq<Entry>, b: seq<Entry>, i: nat)
    requires Within(a, b) && i < |a|
    ensures Within(a[..i] + a[i + 1..], b)
    decreases |b|
  {
    var less, m, n := a[..i] + a[i + 1..], |a| - 1, |b| - 1;
    if Within(a, b[..n]) {
      WithinLess(a, b[..n], i);
    } else if i == m {
      assert less == a[..m];
    } else {
      WithinLess(a[..m], b[..n], i);
      assert less[..|less| - 1] == a[..m][..i] + a[..m][i + 1..];
    }
  }

  /** Everything that a run loads, in order. */
  function LoadedBy(ops: seq<Op>): seq<Entry> {
    if ops == [] then [] else (if ops[0].Load? then ops[0].executions else []) + LoadedBy(ops[1..])
  }

  /** Over every run the cached entries are in the order in which they were loaded. */
  lemma {:induction false} OrderKept(rollupId: nat, l: Ledger, ops: seq<Op>, all: seq<Entry>)
    requires Within(l.log, all)
    ensures Within(PerformAll(rollupId, l, ops).log, all + LoadedBy(ops))
    decreases |ops|
  {
    hide Consume, Within;
    if ops == [] {
      assert all + LoadedBy(ops) == all;
    } else {
      var (next, loaded) := (Perform(rollupId, l, ops[0]), if ops[0].Load? then ops[0].executions else []);
      StepKept(rollupId, l, ops[0], all);
      OrderKept(rollupId, next, ops[1..], all + loaded);
      assert (all + loaded) + LoadedBy(ops[1..]) == all + LoadedBy(ops);
    }
  }

  lemma StepKept(rollupId: nat, l: Ledger, op: Op, all: seq<Entry>)
    requires Within(l.log, all)
    ensures Within(Perform(rollupId, l, op).log, all + if op.Load? then op.executions else [])
  {
    assert all + [] == all;
    hide Consume, Within;
    match op
    case Load(executions) => WithinMore(l.log, all, executions);
    case Take(hash, state) =>
      hide Wanted;
      var i := ConsumesEarliest(rollupId, l.log, hash, state);
      if i < |l.log| { WithinLess(l.log, all, i); }
    case Clear => NothingWithin(all);
  }

  lemma NothingWithin(all: seq<Entry>)
    ensures Within([], all)
  {
  }
}
