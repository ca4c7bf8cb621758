/** When a replay is right although it starts on an L2 chain, or from a checkpoint, that it should not
    start from. */
module WrongStarts {
  import opened EventReplay
  import opened NodeHistory
  import opened ReplayCalls
  import opened Wrappers

  // ---------- A replay in terms of its calls ----------

  /** The tracked root after a list of events, if there are any. */
  function RootOf(evs: seq<Event>): Option<string> {
    if evs == [] then None else Some(FinalRoot(evs))
  }

  lemma EventsLead(x: Executor, v: View, evs: seq<Event>)
    ensures ApplyEvents(x, v, evs) ==
            View(if evs == [] then v.root else FinalRoot(evs), RunCalls(x, v.l2, Calls(evs)))
  {
    hide ApplyEvents, FinalRoot, Calls, RunCalls;
    ChainOfCalls(x, v, evs);
    if evs == [] {
      assert ApplyEvents(x, v, []) == v by { NoEventsLeft(x, v); }
    } else {
      FinalRootIs(x, v, evs);
    }
  }

  lemma NoEventsLeft(x: Executor, v: View)
    ensures ApplyEvents(x, v, []) == v
  {
  }

  lemma ReplayLeads(x: Executor, v: View, c: Chain, from: nat, end: nat)
    requires WellFormed(c) && end <= |c|
    ensures var evs := EventsIn(c, from, end);
            ReplayOn(x, v, c, from, end) ==
            View(if evs == [] then v.root else FinalRoot(evs), RunCalls(x, v.l2, Calls(evs)))
  {
    hide ReplayOn, Calls, FinalRoot, RunCalls, ApplyEvents, WellFormed;
    var evs := EventsIn(c, from, end);
    EventsLead(x, v, evs);
    if from <= end {
      RangeReplay(x, v, c, from, end);
    } else {
      assert ReplayOn(x, v, c, from, end) == v && evs == [] by { EmptyRange(x, v, c, from, end); }
      NoEventsLeft(x, v);
    }
  }

  lemma EmptyRange(x: Executor, v: View, c: Chain, from: nat, end: nat)
    requires end <= |c| && end <= from
    ensures ReplayOn(x, v, c, from, end) == v && EventsIn(c, from, end) == []
  {
  }

  lemma {:induction false} RunCallsGrow(x: Executor, l2: seq<string>, calls: seq<seq<Event>>)
    ensures l2 <= RunCalls(x, l2, calls)
    decreases |calls|
  {
    if calls == [] {
    } else {
      RunCallsGrow(x, Call(x, l2, calls[0]), calls[1..]);
    }
  }

  lemma {:induction false} CallsHold(evs: seq<Event>)
    ensures forall g :: g in Calls(evs) ==> g != []
    decreases |evs|
  {
    if evs == [] {
    } else {
      CallsHold(evs[StepLength(evs)..]);
    }
  }

  // ---------- On an L2 chain that was kept ----------

  /** A single event whose outcome the L2 chain already has is not mined again. */
  ghost predicate Skips(x: Executor) {
    forall l2: seq<string>, e: Event :: x.stateRoot(l2) == e.newState ==> x.single(l2, e) == []
  }

  /** The L2 chain has the outcome of a call that looks for it first. */
  predicate Reached(x: Executor, l2: seq<string>, g: seq<Event>) {
    |g| == 1 && x.stateRoot(l2) == g[0].newState
  }

  /** Otherwise how many blocks a call mines does not depend on the L2 chain. */
  ghost predicate SteadyCalls(x: Executor) {
    forall a: seq<string>, b: seq<string>, g: seq<Event> :: !Reached(x, a, g) && !Reached(x, b, g) ==>
      |Call(x, a, g)| - |a| == |Call(x, b, g)| - |b|
  }

  /** The state that a call leads to on L1. */
  function EndOf(g: seq<Event>): string {
    if g == [] then "" else g[|g| - 1].newState
  }

  /** The engine reaches every posted state. */
  predicate RunReaches(x: Executor, l2: seq<string>, calls: seq<seq<Event>>)
    decreases |calls|
  {
    calls == [] ||
    var next := Call(x, l2, calls[0]);
    x.stateRoot(next) == EndOf(calls[0]) && RunReaches(x, next, calls[1..])
  }

  /** The state that was just posted, or none that is posted at all. */
  predicate Strays(root: string, wanted: string, posted: seq<seq<Event>>) {
    root == wanted || forall g :: g in posted ==> EndOf(g) != root
  }

  /** After each call the engine reports the posted state, or one that is posted nowhere. */
  predicate RunStrays(x: Executor, l2: seq<string>, calls: seq<seq<Event>>, posted: seq<seq<Event>>)
    decreases |calls|
  {
    calls == [] ||
    var next := Call(x, l2, calls[0]);
    Strays(x.stateRoot(next), EndOf(calls[0]), posted) && RunStrays(x, next, calls[1..], posted)
  }

  /** No call posts the state of the one before. */
  predicate Moving(calls: seq<seq<Event>>) {
    forall i :: 0 <= i < |calls| - 1 ==> EndOf(calls[i]) != EndOf(calls[i + 1])
  }

  /** The first call is a single event, `base` is what it makes of `start`, and reports its outcome. */
  predicate Absorbs(x: Executor, start: seq<string>, base: seq<string>, calls: seq<seq<Event>>) {
    calls != [] && Reached(x, base, calls[0]) && base == start + x.single(start, calls[0][0])
  }

  /** Replaying all of `c` on the L2 chain `base` does no harm: there is nothing on it, or what the first
      call of `c` would mine in any case. */
  predicate Harmless(x: Executor, base: Ground, deploy: nat, c: Chain) {
    base == x.genesis || Absorbs(x, x.genesis, base, Calls(EventsIn(c, deploy, |c|)))
  }

  lemma ReplayOnBase(x: Executor, base: Ground, deploy: nat, c: Chain)
    requires WellFormed(c)
    ensures var calls := Calls(EventsIn(c, deploy, |c|));
            && Replay(Based(x, base), c, deploy) == ReplayOn(x, View(x.initialRoot, base), c, deploy, |c|)
            && Replay(Based(x, base), c, deploy).l2 == RunCalls(x, base, calls)
            && Replay(Based(x, base), c, deploy).root == Replay(x, c, deploy).root
            && Replay(x, c, deploy).l2 == RunCalls(x, x.genesis, calls)
  {
    hide ReplayOn, Calls, RunCalls, FinalRoot, WellFormed;
    BasedReplay(x, base, View(x.initialRoot, base), c, deploy, |c|);
    ReplayLeads(x, View(x.initialRoot, base), c, deploy, |c|);
    ReplayLeads(x, Initial(x), c, deploy, |c|);
  }

  lemma ForgettingHarmless(x: Executor, base: Ground, deploy: nat, c: Chain)
    requires WellFormed(c) && Skips(x) && Harmless(x, base, deploy, c)
    ensures Replay(Based(x, base), c, deploy) == Replay(x, c, deploy)
  {
    hide Calls, Replay, Skips, Based, WellFormed;
    ReplayOnBase(x, base, deploy, c);
    var calls := Calls(EventsIn(c, deploy, |c|));
    if base != x.genesis {
      Absorbed(x, x.genesis, base, calls);
    }
  }

  lemma Absorbed(x: Executor, start: seq<string>, base: seq<string>, calls: seq<seq<Event>>)
    requires Skips(x) && Absorbs(x, start, base, calls)
    ensures Call(x, base, calls[0]) == base == Call(x, start, calls[0])
    ensures RunCalls(x, base, calls) == RunCalls(x, start, calls)
  {
    assert base + [] == base;
  }

  /** Once both report the state posted last, two runs of the same calls mine as many blocks. */
  lemma {:induction false} Lockstep(x: Executor, a: seq<string>, b: seq<string>, last: string,
                                    calls: seq<seq<Event>>, posted: seq<seq<Event>>)
    requires SteadyCalls(x) && Moving(calls) && forall g :: g in calls ==> g in posted
    requires calls != [] ==> EndOf(calls[0]) != last
    requires x.stateRoot(a) == last && Strays(x.stateRoot(b), last, posted)
    requires RunReaches(x, a, calls) && RunStrays(x, b, calls, posted)
    ensures |RunCalls(x, a, calls)| - |a| == |RunCalls(x, b, calls)| - |b|
    decreases |calls|
  {
    hide SteadyCalls, Call;
    if calls == [] {
    } else {
      var g, rest := calls[0], calls[1..];
      assert g in calls && !Reached(x, a, g) && !Reached(x, b, g);
      SameCount(x, a, b, g);
      assert forall h :: h in rest ==> h in calls;
      forall i | 0 <= i < |rest| - 1 ensures EndOf(rest[i]) != EndOf(rest[i + 1]) {
        assert rest[i] == calls[i + 1] && rest[i + 1] == calls[i + 2];
      }
      Lockstep(x, Call(x, a, g), Call(x, b, g), EndOf(g), rest, posted);
    }
  }

  lemma SameCount(x: Executor, a: seq<string>, b: seq<string>, g: seq<Event>)
    requires SteadyCalls(x) && !Reached(x, a, g) && !Reached(x, b, g)
    ensures |Call(x, a, g)| - |a| == |Call(x, b, g)| - |b|
  {
  }

  /** Two runs that end alike after the first call were alike after the first call. */
  lemma FirstCallDecides(x: Executor, start: seq<string>, base: seq<string>, calls: seq<seq<Event>>)
    requires SteadyCalls(x) && Moving(calls) && calls != []
    requires RunReaches(x, start, calls) && RunStrays(x, base, calls, calls)
    requires RunCalls(x, start, calls) == RunCalls(x, base, calls)
    ensures Call(x, start, calls[0]) == Call(x, base, calls[0])
  {
    hide SteadyCalls, Call, RunCalls;
    var g, rest := calls[0], calls[1..];
    var a, b := Call(x, start, g), Call(x, base, g);
    assert forall h :: h in rest ==> h in calls;
    if rest != [] { assert rest[0] == calls[1]; }
    forall i | 0 <= i < |rest| - 1 ensures EndOf(rest[i]) != EndOf(rest[i + 1]) {
      assert rest[i] == calls[i + 1] && rest[i + 1] == calls[i + 2];
    }
    Lockstep(x, a, b, EndOf(g), rest, calls);
    FirstCall(x, start, calls);
    FirstCall(x, base, calls);
    RunCallsGrow(x, a, rest);
    RunCallsGrow(x, b, rest);
    assert a == RunCalls(x, a, rest)[..|a|] && b == RunCalls(x, b, rest)[..|b|];
  }

  lemma FirstCall(x: Executor, l2: seq<string>, calls: seq<seq<Event>>)
    requires calls != []
    ensures RunCalls(x, l2, calls) == RunCalls(x, Call(x, l2, calls[0]), calls[1..])
  {
  }

  lemma OnlyAbsorbed(x: Executor, start: seq<string>, base: seq<string>, g: seq<Event>)
    requires Skips(x) && SteadyCalls(x) && g != [] && start < base
    requires Call(x, start, g) == Call(x, base, g)
    ensures Reached(x, base, g) && base == start + x.single(start, g[0])
  {
    hide SteadyCalls;
    if !Reached(x, base, g) && !Reached(x, start, g) {
      SameCount(x, start, base, g);
    }
  }

  /** A node that starts over on the L2 chain `base` that it finds ends right exactly if `base` is bare, or
      is what the first call of `c` alone makes of a bare chain and reports its outcome.

      The engine skips what is already there, mines as many blocks for a call wherever else it does, and
      reaches the posted states from genesis; on the kept chain it may stray to states that are posted
      nowhere. */
  lemma ForgettingExact(x: Executor, base: Ground, deploy: nat, c: Chain)
    requires WellFormed(c) && x.genesis <= base && Skips(x) && SteadyCalls(x)
    requires var calls := Calls(EventsIn(c, deploy, |c|));
             Moving(calls) && RunReaches(x, x.genesis, calls) && RunStrays(x, base, calls, calls)
    ensures Replay(Based(x, base), c, deploy) == Replay(x, c, deploy) <==> Harmless(x, base, deploy, c)
  {
    var calls := Calls(EventsIn(c, deploy, |c|));
    hide Calls, Replay, Skips, SteadyCalls, Based, WellFormed, RunReaches, RunStrays, Moving, RunCalls, Reached, Call;
    ReplayOnBase(x, base, deploy, c);
    CallsHold(EventsIn(c, deploy, |c|));
    if Harmless(x, base, deploy, c) {
      ForgettingHarmless(x, base, deploy, c);
    } else if RunCalls(x, x.genesis, calls) == RunCalls(x, base, calls) {
      if calls == [] {
        NoCalls(x, x.genesis);
        NoCalls(x, base);
      } else {
        FirstCallDecides(x, x.genesis, base, calls);
        assert calls[0] in calls;
        OnlyAbsorbed(x, x.genesis, base, calls[0]);
      }
      assert false;
    }
  }

  lemma NoCalls(x: Executor, l2: seq<string>)
    ensures RunCalls(x, l2, []) == l2
  {
  }

  // ---------- From a stale checkpoint ----------

  /** An engine that tells call `g` from all others. */
  function Telling(g: seq<Event>, initialRoot: string): Executor {
    Executor(["genesis"], initialRoot, (l2, e) => if [e] == g then ["yes"] else ["no"],
             (l2, h) => if h == g then ["yes"] else ["no"], l2 => "")
  }

  lemma {:induction false} TellingRun(g: seq<Event>, r: string, l2: seq<string>, calls: seq<seq<Event>>)
    requires forall h :: h in calls ==> h != []
    ensures var run := RunCalls(Telling(g, r), l2, calls);
            && |run| == |l2| + |calls| && l2 <= run
            && forall i :: 0 <= i < |calls| ==> run[|l2| + i] == if calls[i] == g then "yes" else "no"
    decreases |calls|
  {
    var x := Telling(g, r);
    if calls == [] {
      NoCalls(x, l2);
    } else {
      var h, rest := calls[0], calls[1..];
      assert h in calls && forall k :: k in rest ==> k in calls;
      var next := Call(x, l2, h);
      assert |h| == 1 ==> h == [h[0]];
      assert next == l2 + [if h == g then "yes" else "no"];
      TellingRun(g, r, next, rest);
      FirstCall(x, l2, calls);
      var run := RunCalls(x, next, rest);
      assert run[|l2|] == next[|l2|];
      forall i | 0 <= i < |calls| ensures run[|l2| + i] == if calls[i] == g then "yes" else "no" {
        if i > 0 { assert rest[i - 1] == calls[i]; }
      }
    }
  }

  /** Where two lists of calls differ, and the engine that shows it. */
  lemma TellApart(a: seq<seq<Event>>, b: seq<seq<Event>>, r: string) returns (x: Executor)
    requires a != b && forall g :: g in a || g in b ==> g != []
    ensures x.initialRoot == r && RunCalls(x, x.genesis, a) != RunCalls(x, x.genesis, b)
  {
    hide RunCalls;
    if |a| != |b| {
      x := Telling([], r);
      TellingRun([], r, x.genesis, a);
      TellingRun([], r, x.genesis, b);
    } else {
      var i :| 0 <= i < |a| && a[i] != b[i];
      x := Telling(a[i], r);
      TellingRun(a[i], r, x.genesis, a);
      TellingRun(a[i], r, x.genesis, b);
      assert RunCalls(x, x.genesis, a)[|x.genesis| + i] != RunCalls(x, x.genesis, b)[|x.genesis| + i];
    }
  }

  /** The events `past` replayed, and then the events `rest`. */
  function Then(x: Executor, past: seq<Event>, rest: seq<Event>): View {
    ApplyEvents(x, ApplyEvents(x, Initial(x), past), rest)
  }

  lemma ThenLeads(x: Executor, past: seq<Event>, rest: seq<Event>)
    ensures Then(x, past, rest).l2 == RunCalls(x, x.genesis, Calls(past) + Calls(rest))
    ensures Then(x, past, rest).root ==
            if rest != [] then FinalRoot(rest) else if past != [] then FinalRoot(past) else x.initialRoot
  {
    hide ApplyEvents, Calls, RunCalls, FinalRoot;
    EventsLead(x, Initial(x), past);
    EventsLead(x, ApplyEvents(x, Initial(x), past), rest);
    RunCallsAppend(x, x.genesis, Calls(past), Calls(rest));
  }

  /** Two pasts cannot be told apart, whatever the engine, exactly if they lead to the same calls and, should
      nothing follow, to the same root. */
  lemma PastsAlike(p: seq<Event>, q: seq<Event>, rest: seq<Event>)
    ensures (forall x: Executor :: Then(x, p, rest) == Then(x, q, rest)) <==>
            Calls(p) == Calls(q) && (rest != [] || RootOf(p) == RootOf(q))
  {
    hide Then, Calls, RunCalls, FinalRoot;
    forall x: Executor
      ensures Calls(p) == Calls(q) && (rest != [] || RootOf(p) == RootOf(q)) ==> Then(x, p, rest) == Then(x, q, rest)
    {
      ThenLeads(x, p, rest);
      ThenLeads(x, q, rest);
    }
    if Calls(p) != Calls(q) {
      CallsApart(p, q, rest);
    } else if rest == [] && RootOf(p) != RootOf(q) {
      RootsApart(p, q);
    }
  }

  lemma CommonEnd<T>(a: seq<T>, b: seq<T>, end: seq<T>)
    ensures a + end == b + end ==> a == b
  {
    if a + end == b + end {
      assert |a + end| == |b + end|;
      assert a == (a + end)[..|a|] && b == (b + end)[..|b|];
    }
  }

  lemma CallsApart(p: seq<Event>, q: seq<Event>, rest: seq<Event>)
    requires Calls(p) != Calls(q)
    ensures exists x: Executor :: Then(x, p, rest) != Then(x, q, rest)
  {
    hide Then, Calls, RunCalls, FinalRoot;
    CallsHold(p);
    CallsHold(q);
    CallsHold(rest);
    var a, b := Calls(p) + Calls(rest), Calls(q) + Calls(rest);
    CommonEnd(Calls(p), Calls(q), Calls(rest));
    var x := TellApart(a, b, "");
    ThenLeads(x, p, rest);
    ThenLeads(x, q, rest);
  }

  lemma RootsApart(p: seq<Event>, q: seq<Event>)
    requires RootOf(p) != RootOf(q)
    ensures exists x: Executor :: Then(x, p, []) != Then(x, q, [])
  {
    hide Then, Calls, RunCalls, FinalRoot;
    var other := if p != [] then FinalRoot(p) else FinalRoot(q);
    var x := Telling([], other + "'");
    ThenLeads(x, p, []);
    ThenLeads(x, q, []);
    assert |other + "'"| == |other| + 1;
  }

  /** What recovery makes of a checkpoint that was taken below block `n` of `prev`, when L1 is now `c`. */
  function FromCheckpoint(x: Executor, deploy: nat, prev: Chain, n: nat, c: Chain): View
    requires n <= |prev|
  {
    var start := ReplayOn(x, Initial(x), prev, deploy, n);
    if n < |c| then ReplayOn(x, start, c, n, |c|) else start
  }

  lemma ReplayIsEvents(x: Executor, v: View, c: Chain, from: nat, end: nat)
    requires WellFormed(c) && end <= |c|
    ensures ReplayOn(x, v, c, from, end) == ApplyEvents(x, v, EventsIn(c, from, end))
  {
    hide ReplayOn, ApplyEvents, Calls, FinalRoot, RunCalls, WellFormed;
    ReplayLeads(x, v, c, from, end);
    EventsLead(x, v, EventsIn(c, from, end));
  }

  lemma FromCheckpointIs(x: Executor, deploy: nat, prev: Chain, n: nat, c: Chain, m: nat)
    requires WellFormed(prev) && WellFormed(c) && deploy <= n <= |prev| && m == if n < |c| then n else |c|
    ensures FromCheckpoint(x, deploy, prev, n, c) == Then(x, EventsIn(prev, deploy, n), EventsIn(c, m, |c|))
    ensures Replay(x, c, deploy) == Then(x, EventsIn(c, deploy, m), EventsIn(c, m, |c|))
  {
    hide ReplayOn, ApplyEvents, EventsIn, WellFormed;
    var start := ReplayOn(x, Initial(x), prev, deploy, n);
    ReplayIsEvents(x, Initial(x), prev, deploy, n);
    ReplayIsEvents(x, Initial(x), c, deploy, m);
    if n < |c| {
      ReplayIsEvents(x, start, c, n, |c|);
      ReplaySplits(x, Initial(x), c, deploy, n, |c|);
      ReplayIsEvents(x, ReplayOn(x, Initial(x), c, deploy, n), c, n, |c|);
    } else {
      EmptyRange(x, start, c, |c|, |c|);
      NoEventsLeft(x, start);
      NoEventsLeft(x, Replay(x, c, deploy));
    }
  }

  /** It is right for every engine exactly if the blocks below on both chains lead to the same calls and,
      should nothing be left to replay, to the same root.  Hashes play no part. */
  lemma StaleCheckpointExact(deploy: nat, prev: Chain, n: nat, c: Chain)
    requires WellFormed(prev) && WellFormed(c) && deploy <= n <= |prev|
    ensures var m := if n < |c| then n else |c|;
            var (p, q) := (EventsIn(prev, deploy, n), EventsIn(c, deploy, m));
            (forall x: Executor :: FromCheckpoint(x, deploy, prev, n, c) == Replay(x, c, deploy)) <==>
            Calls(p) == Calls(q) && (EventsIn(c, m, |c|) != [] || RootOf(p) == RootOf(q))
  {
    hide FromCheckpoint, Replay, Then, Calls, EventsIn, RootOf, WellFormed;
    var m := if n < |c| then n else |c|;
    var (p, q, rest) := (EventsIn(prev, deploy, n), EventsIn(c, deploy, m), EventsIn(c, m, |c|));
    forall x: Executor
      ensures FromCheckpoint(x, deploy, prev, n, c) == Replay(x, c, deploy) <==> Then(x, p, rest) == Then(x, q, rest)
    {
      FromCheckpointIs(x, deploy, prev, n, c, m);
    }
    PastsAlike(p, q, rest);
  }
}
