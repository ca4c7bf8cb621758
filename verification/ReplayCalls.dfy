/** Which calls to the L2 engine a list of L1 events leads to: the L2 chain depends on nothing else. */
module ReplayCalls {
  import opened EventReplay
  import opened FullNode

  /** The L2 chain after the changes `g` have been replayed, as one event or as a batch. */
  function Call(x: Executor, l2: seq<string>, g: seq<Event>): seq<string> {
    if g == [] then l2 else l2 + if |g| > 1 then x.batch(l2, g) else x.single(l2, g[0])
  }

  /** The call for one run of executions, if it holds a state change. */
  function CallsOf(g: seq<Event>): (r: seq<seq<Event>>)
    ensures |r| <= 1
  {
    if Changes(g) == [] then [] else [Changes(g)]
  }

  function Calls(evs: seq<Event>): seq<seq<Event>>
    decreases |evs|
  {
    if evs == [] then []
    else
      var n := StepLength(evs);
      (if evs[0].Performed? then CallsOf(evs[..n]) else []) + Calls(evs[n..])
  }

  function RunCalls(x: Executor, l2: seq<string>, calls: seq<seq<Event>>): seq<string>
    decreases |calls|
  {
    if calls == [] then l2 else RunCalls(x, Call(x, l2, calls[0]), calls[1..])
  }

  // ---------- The chain is the fold of the calls ----------

  lemma {:induction false} AccountingKeeps(x: Executor, v: View, evs: seq<Event>)
    requires forall e :: e in evs ==> !IsChange(e)
    ensures ApplyAll(x, v, evs).l2 == v.l2
    decreases |evs|
  {
    if evs == [] {
    } else {
      assert evs[0] in evs && forall e :: e in evs[1..] ==> e in evs;
      AccountingKeeps(x, ApplyOne(x, v, evs[0]), evs[1..]);
    }
  }

  lemma {:induction false} ChangesOnly(x: Executor, v: View, evs: seq<Event>)
    requires |Changes(evs)| <= 1
    ensures ApplyAll(x, v, evs).l2 == if Changes(evs) == [] then v.l2 else Call(x, v.l2, Changes(evs))
    decreases |evs|
  {
    if evs == [] {
    } else {
      var w, rest := ApplyOne(x, v, evs[0]), evs[1..];
      assert Changes(evs) == (if IsChange(evs[0]) then [evs[0]] else []) + Changes(rest);
      ChangesOnly(x, w, rest);
      assert [] + Changes(rest) == Changes(rest);
    }
  }

  lemma GroupCall(x: Executor, v: View, g: seq<Event>)
    ensures ApplyGroup(x, v, g).l2 == if Changes(g) == [] then v.l2 else Call(x, v.l2, Changes(g))
  {
    if |Changes(g)| > 1 {
      AccountingKeeps(x, ApplyBatch(x, v, Changes(g)), Accounting(g));
    } else {
      ChangesOnly(x, v, g);
    }
  }

  lemma {:induction false} RunCallsAppend(x: Executor, l2: seq<string>, a: seq<seq<Event>>, b: seq<seq<Event>>)
    ensures RunCalls(x, l2, a + b) == RunCalls(x, RunCalls(x, l2, a), b)
    decreases |a|
  {
    hide Call;
    if a == [] {
      assert a + b == b;
    } else {
      assert (a + b)[0] == a[0] && (a + b)[1..] == a[1..] + b;
      RunCallsAppend(x, Call(x, l2, a[0]), a[1..], b);
    }
  }

  lemma StepCall(x: Executor, v: View, evs: seq<Event>)
    requires evs != []
    ensures var calls := if evs[0].Performed? then CallsOf(evs[..StepLength(evs)]) else [];
            ApplyStep(x, v, evs).l2 == RunCalls(x, v.l2, calls)
  {
    if evs[0].Performed? {
      var g := evs[..StepLength(evs)];
      GroupCall(x, v, g);
      if Changes(g) != [] {
        assert CallsOf(g)[1..] == [];
      }
    }
  }

  /** The L2 chain is what the calls make of the chain before, whatever the tracked root was. */
  lemma {:induction false} ChainOfCalls(x: Executor, v: View, evs: seq<Event>)
    ensures ApplyEvents(x, v, evs).l2 == RunCalls(x, v.l2, Calls(evs))
    decreases |evs|
  {
    hide ApplyStep, CallsOf;
    if evs == [] {
    } else {
      var n := StepLength(evs);
      StepCall(x, v, evs);
      ChainOfCalls(x, ApplyStep(x, v, evs), evs[n..]);
      RunCallsAppend(x, v.l2, if evs[0].Performed? then CallsOf(evs[..n]) else [], Calls(evs[n..]));
    }
  }

  /** The two executors mine the same for each of these calls, on every chain. */
  ghost predicate SameCalls(x: Executor, y: Executor, calls: seq<seq<Event>>) {
    forall l2: seq<string>, g :: g in calls ==> Call(x, l2, g) == Call(y, l2, g)
  }

  lemma {:induction false} SameChain(x: Executor, y: Executor, l2: seq<string>, calls: seq<seq<Event>>)
    requires SameCalls(x, y, calls)
    ensures RunCalls(x, l2, calls) == RunCalls(y, l2, calls)
    decreases |calls|
  {
    hide Call;
    if calls == [] {
    } else {
      assert calls[0] in calls && forall g :: g in calls[1..] ==> g in calls;
      SameChain(x, y, Call(x, l2, calls[0]), calls[1..]);
    }
  }

  // ---------- State updates between executions ----------

  predicate BlockOrder(evs: seq<Event>) {
    forall i, j :: 0 <= i < j < |evs| ==> evs[i].block <= evs[j].block
  }

  /** A state update at `j` between two state changes of one L1 block. */
  predicate Divides(evs: seq<Event>, i: nat, j: nat, k: nat) {
    && i < j < k < |evs| && evs[i].block == evs[k].block
    && IsChange(evs[i]) && evs[j].StateUpdated? && IsChange(evs[k])
  }

  ghost predicate Undivided(evs: seq<Event>) {
    forall i: nat, j: nat, k: nat :: !Divides(evs, i, j, k)
  }

  lemma {:induction false} InExecutions(evs: seq<Event>)
    ensures forall e :: e in Executions(evs) <==> e in evs && e.Performed?
    ensures BlockOrder(evs) ==> BlockOrder(Executions(evs))
  {
    if evs == [] {
    } else {
      var rest := evs[1..];
      InExecutions(rest);
      assert evs == [evs[0]] + rest;
      if BlockOrder(evs) {
        assert BlockOrder(rest);
        forall e | e in rest ensures evs[0].block <= e.block {
          var i :| 0 <= i < |rest| && rest[i] == e;
          assert evs[i + 1] == e;
        }
      }
    }
  }

  lemma {:induction false} ExecutionsOfRun(g: seq<Event>, rest: seq<Event>)
    requires forall e :: e in g ==> e.Performed?
    ensures Executions(g + rest) == g + Executions(rest)
  {
    if g == [] {
      assert g + rest == rest;
    } else {
      assert (g + rest)[1..] == g[1..] + rest && g == [g[0]] + g[1..];
      assert forall e :: e in g[1..] ==> e in g;
      assert g[0] in g;
      ExecutionsOfRun(g[1..], rest);
    }
  }

  lemma {:induction false} RunJoins(g: seq<Event>, rest: seq<Event>, block: nat)
    requires forall e :: e in g ==> e.Performed? && e.block == block
    ensures RunLength(g + rest, block) == |g| + RunLength(rest, block)
  {
    if g == [] {
      assert g + rest == rest;
    } else {
      assert g[0] in g && forall e :: e in g[1..] ==> e in g;
      assert (g + rest)[0] == g[0] && (g + rest)[1..] == g[1..] + rest;
      RunJoins(g[1..], rest, block);
    }
  }

  lemma {:induction false} ChangesAppend(a: seq<Event>, b: seq<Event>)
    ensures Changes(a + b) == Changes(a) + Changes(b)
  {
    if a == [] {
      assert a + b == b;
    } else {
      assert (a + b)[1..] == a[1..] + b;
      ChangesAppend(a[1..], b);
    }
  }

  lemma {:induction false} HasChange(evs: seq<Event>)
    ensures Changes(evs) != [] <==> exists i :: 0 <= i < |evs| && IsChange(evs[i])
  {
    if evs == [] {
    } else {
      HasChange(evs[1..]);
      if i :| 0 <= i < |evs| && IsChange(evs[i]) {
        if i > 0 { assert evs[1..][i - 1] == evs[i]; }
      }
      if Changes(evs[1..]) == [] {
      } else {
        var k :| 0 <= k < |evs[1..]| && IsChange(evs[1..][k]);
        assert evs[k + 1] == evs[1..][k];
      }
    }
  }

  /** The calls for a run `g` of block `block`, followed by executions `rest`: the run is joined with
      those of the same block at the front of `rest`. */
  lemma JoinedCalls(g: seq<Event>, rest: seq<Event>, block: nat)
    requires g != [] && forall e :: e in g ==> e.Performed? && e.block == block
    requires forall e :: e in rest ==> e.Performed?
    ensures var m := RunLength(rest, block);
            && Calls(g + rest) == CallsOf(g + rest[..m]) + Calls(rest[m..])
            && Calls(rest) == CallsOf(rest[..m]) + Calls(rest[m..])
  {
    hide CallsOf;
    var m := RunLength(rest, block);
    RunJoins(g, rest, block);
    assert g[0] in g && (g + rest)[0] == g[0];
    assert (g + rest)[..|g| + m] == g + rest[..m] && (g + rest)[|g| + m..] == rest[m..];
    if m == 0 {
      assert rest[..0] == [] && rest[0..] == rest;
      NoCall();
      assert [] + Calls(rest) == Calls(rest);
    } else {
      assert rest[0] in rest;
    }
  }

  lemma NoCall()
    ensures CallsOf([]) == []
  {
  }

  /** Joining two runs saves a call exactly if both hold a change. */
  lemma JoinSaves(a: seq<Event>, b: seq<Event>)
    ensures Changes(a) == [] || Changes(b) == [] ==> CallsOf(a + b) == CallsOf(a) + CallsOf(b)
    ensures Changes(a) != [] && Changes(b) != [] ==> |CallsOf(a + b)| == 1 && |CallsOf(a)| + |CallsOf(b)| == 2
  {
    ChangesAppend(a, b);
    assert Changes(a) + [] == Changes(a) && [] + Changes(b) == Changes(b);
  }

  /** A change in the run at the front and one behind it in the same block: only a state update can
      have ended the run. */
  lemma DividedAtRun(evs: seq<Event>, n: nat)
    requires evs != [] && evs[0].Performed? && BlockOrder(evs) && n == RunLength(evs, evs[0].block)
    requires Changes(evs[..n]) != []
    requires var rest := Executions(evs[n..]); Changes(rest[..RunLength(rest, evs[0].block)]) != []
    ensures !Undivided(evs)
  {
    hide Changes, Executions, IsChange;
    var block, tail := evs[0].block, evs[n..];
    var rest := Executions(tail);
    InExecutions(tail);
    HasChange(evs[..n]);
    var behind := rest[..RunLength(rest, block)];
    HasChange(behind);
    var i :| 0 <= i < |evs[..n]| && IsChange(evs[..n][i]);
    var b :| 0 <= b < |behind| && IsChange(behind[b]);
    assert behind[b] == rest[b] && rest[b] in rest;
    var k :| 0 <= k < |tail| && tail[k] == rest[b];
    assert evs[n + k] == tail[k] && evs[i] == evs[..n][i];
    assert evs[n].block == block;
    assert Divides(evs, i, n, n + k) by { ChangeIs(evs[n + k]); }
  }

  lemma ChangeIs(e: Event)
    requires IsChange(e)
    ensures e.Performed?
  {
  }

  lemma DividedInFront(evs: seq<Event>, n: nat)
    requires evs != [] && evs[0].Performed? && BlockOrder(evs) && n == RunLength(evs, evs[0].block)
    requires Undivided(evs[n..]) && !Undivided(evs)
    ensures var rest := Executions(evs[n..]);
            Changes(evs[..n]) != [] && Changes(rest[..RunLength(rest, evs[0].block)]) != []
  {
    hide Changes, Executions, Undivided, RunLength;
    var tail := evs[n..];
    var i, j, k := TwoInOneBlock(evs, n);
    HasChange(evs[..n]);
    assert IsChange(evs[..n][i]);
    InExecutions(tail);
    assert tail[k - n] == evs[k];
    assert BlockOrder(tail);
    FrontOfBlock(Executions(tail), evs[k], evs[0].block);
  }

  lemma TwoInOneBlock(evs: seq<Event>, n: nat) returns (i: nat, j: nat, k: nat)
    requires evs != [] && evs[0].Performed? && BlockOrder(evs) && n == RunLength(evs, evs[0].block)
    requires Undivided(evs[n..]) && !Undivided(evs)
    ensures Divides(evs, i, j, k) && i < n < k && evs[k].block == evs[0].block
    ensures evs[k].Performed? && forall e :: e in evs[n..] ==> e.block >= evs[0].block
  {
    i, j, k :| Divides(evs, i, j, k);
    assert i >= n ==> Divides(evs[n..], i - n, j - n, k - n);
  }

  /** In block order, executions of the lowest block are all at the front. */
  lemma FrontOfBlock(rest: seq<Event>, e: Event, block: nat)
    requires BlockOrder(rest) && e in rest && e.block == block && IsChange(e)
    requires forall f :: f in rest ==> f.Performed? && f.block >= block
    ensures Changes(rest[..RunLength(rest, block)]) != []
  {
    hide Changes;
    var at :| 0 <= at < |rest| && rest[at] == e;
    var m := RunLength(rest, block);
    forall t | 0 <= t <= at ensures rest[t].Performed? && rest[t].block == block {
      assert rest[t] in rest;
    }
    assert m > at;
    HasChange(rest[..m]);
    assert rest[..m][at] == e;
  }

  lemma RunExecutions(evs: seq<Event>, n: nat)
    requires evs != [] && evs[0].Performed? && n == RunLength(evs, evs[0].block)
    ensures Executions(evs) == evs[..n] + Executions(evs[n..])
    ensures forall e :: e in evs[..n] ==> e.Performed? && e.block == evs[0].block
  {
    var g := evs[..n];
    forall e | e in g ensures e.Performed? && e.block == evs[0].block {
      var i :| 0 <= i < |g| && g[i] == e;
    }
    assert evs == g + evs[n..];
    ExecutionsOfRun(g, evs[n..]);
  }

  /** Leaving the state updates out leads to the same calls exactly if no update stands between two
      state changes of one block; otherwise to fewer, since runs are joined. */
  lemma {:induction false} CallsExactly(evs: seq<Event>)
    requires BlockOrder(evs)
    ensures Undivided(evs) ==> Calls(Executions(evs)) == Calls(evs)
    ensures !Undivided(evs) ==> |Calls(Executions(evs))| < |Calls(evs)|
    decreases |evs|
  {
    hide RunLength, CallsOf;
    if evs != [] {
      var n := StepLength(evs);
      var tail := evs[n..];
      CallsExactly(tail);
      if evs[0].Performed? {
        CallsOfRun(evs, n);
      } else {
        SkipUpdate(evs);
      }
    } else {
      assert Executions(evs) == [];
    }
  }

  lemma SkipUpdate(evs: seq<Event>)
    requires evs != [] && evs[0].StateUpdated?
    ensures Executions(evs) == Executions(evs[1..]) && Calls(evs) == Calls(evs[1..])
    ensures Undivided(evs) <==> Undivided(evs[1..])
  {
    var tail := evs[1..];
    assert [] + Executions(tail) == Executions(tail) && [] + Calls(tail) == Calls(tail);
    forall i: nat, j: nat, k: nat ensures Divides(tail, i, j, k) ==> Divides(evs, i + 1, j + 1, k + 1) {
    }
    forall i: nat, j: nat, k: nat ensures Divides(evs, i, j, k) ==> i > 0 && Divides(tail, i - 1, j - 1, k - 1) {
    }
  }

  lemma CallsOfRun(evs: seq<Event>, n: nat)
    requires evs != [] && evs[0].Performed? && BlockOrder(evs) && n == RunLength(evs, evs[0].block)
    requires Undivided(evs[n..]) ==> Calls(Executions(evs[n..])) == Calls(evs[n..])
    requires !Undivided(evs[n..]) ==> |Calls(Executions(evs[n..]))| < |Calls(evs[n..])|
    ensures Undivided(evs) ==> Calls(Executions(evs)) == Calls(evs)
    ensures !Undivided(evs) ==> |Calls(Executions(evs))| < |Calls(evs)|
  {
    var block, g, tail := evs[0].block, evs[..n], evs[n..];
    var rest := Executions(tail);
    var m := RunLength(rest, block);
    CallsStep(evs, n);
    RunExecutions(evs, n);
    InExecutions(tail);
    hide RunLength, CallsOf, Undivided, Changes, Executions, Calls;
    if Changes(g) != [] && Changes(rest[..m]) != [] {
      DividedAtRun(evs, n);
    } else if Undivided(tail) && !Undivided(evs) {
      DividedInFront(evs, n);
    }
    if Undivided(evs) { DividedTail(evs, n); }
    JoinedCalls(g, rest, block);
    JoinSaves(g, rest[..m]);
    Associate(CallsOf(g), CallsOf(rest[..m]), Calls(rest[m..]));
  }

  lemma Associate<T>(a: seq<T>, b: seq<T>, c: seq<T>)
    ensures (a + b) + c == a + (b + c)
  {
  }

  lemma CallsStep(evs: seq<Event>, n: nat)
    requires evs != [] && evs[0].Performed? && n == RunLength(evs, evs[0].block)
    ensures Calls(evs) == CallsOf(evs[..n]) + Calls(evs[n..])
  {
  }

  lemma DividedTail(evs: seq<Event>, n: nat)
    requires n <= |evs| && Undivided(evs)
    ensures Undivided(evs[n..])
  {
    forall i: nat, j: nat, k: nat ensures !Divides(evs[n..], i, j, k) {
      assert !Divides(evs, i + n, j + n, k + n);
    }
  }
}
