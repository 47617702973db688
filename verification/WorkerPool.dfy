/**
 * The fan-out over wallets.  Every call of the sync makes a semaphore of its own, hands one
 * permit to each task it spawns, and then waits for the tasks in order and logs each result.
 * Several calls may be under way at once.
 */
module WorkerPool {
  import opened Prelude

  datatype Entry = Entry(wallet: int, ok: bool)

  /** Task i syncs wallets[i]; `results` holds the outcomes of the tasks that have ended. */
  datatype Call = Call(wallets: seq<int>, permits: nat, spawned: nat, running: set<nat>, results: map<nat, bool>,
      log: seq<Entry>)

  datatype Action =
    | Begin(wallets: seq<int>)
    | Spawn(call: nat)
    | Finish(call: nat, task: nat, ok: bool)
    | Log(call: nat)

  function NewCall(wallets: seq<int>, max: nat): Call {
    Call(wallets, max, 0, {}, map[], [])
  }

  predicate Enabled(calls: seq<Call>, a: Action) {
    match a
    case Begin(_) => true
    case Spawn(k) => k < |calls| && calls[k].spawned < |calls[k].wallets| && calls[k].permits > 0
    case Finish(k, task, _) => k < |calls| && task in calls[k].running
    case Log(k) =>
      && k < |calls| && calls[k].spawned == |calls[k].wallets| && |calls[k].log| < |calls[k].wallets|
      && |calls[k].log| in calls[k].results
  }

  function SpawnStep(c: Call): Call
    requires c.permits > 0
  {
    c.(permits := c.permits - 1, spawned := c.spawned + 1, running := c.running + {c.spawned})
  }

  /** A task that ends, well or not, gives its permit back. */
  function FinishStep(c: Call, task: nat, ok: bool): Call {
    c.(permits := c.permits + 1, running := c.running - {task}, results := c.results[task := ok])
  }

  /** The result of the next task in order is logged. */
  function LogStep(c: Call): Call
    requires |c.log| < |c.wallets| && |c.log| in c.results
  {
    c.(log := c.log + [Entry(c.wallets[|c.log|], c.results[|c.log|])])
  }

  /** One step of one call; `max` is the configured concurrency. */
  function Next(max: nat, calls: seq<Call>, a: Action): seq<Call>
    requires Enabled(calls, a)
  {
    match a
    case Begin(wallets) => calls + [NewCall(wallets, max)]
    case Spawn(k) => calls[k := SpawnStep(calls[k])]
    case Finish(k, task, ok) => calls[k := FinishStep(calls[k], task, ok)]
    case Log(k) => calls[k := LogStep(calls[k])]
  }

  ghost predicate Steps(max: nat, trace: seq<Action>, states: seq<seq<Call>>) {
    && |states| == |trace| + 1 && states[0] == []
    && forall i :: 0 <= i < |trace| ==> Enabled(states[i], trace[i]) && states[i + 1] == Next(max, states[i], trace[i])
  }

  // ----- The invariant of a call -----

  /** Permits are conserved, and every spawned task either runs or has one result. */
  ghost predicate CallOk(c: Call, max: nat) {
    && c.permits + |c.running| == max
    && c.spawned <= |c.wallets| && |c.log| <= |c.wallets|
    && (forall i: nat :: i < c.spawned <==> i in c.running || i in c.results)
    && (forall i: nat :: !(i in c.running && i in c.results))
    && (forall i :: 0 <= i < |c.log| ==> i in c.results && c.log[i] == Entry(c.wallets[i], c.results[i]))
  }

  ghost predicate Inv(calls: seq<Call>, max: nat) {
    forall k :: 0 <= k < |calls| ==> CallOk(calls[k], max)
  }

  lemma SpawnKeeps(c: Call, max: nat)
    requires CallOk(c, max) && c.spawned < |c.wallets| && c.permits > 0
    ensures CallOk(SpawnStep(c), max)
  {
    assert c.spawned !in c.running && c.spawned !in c.results;
  }

  lemma FinishKeeps(c: Call, max: nat, task: nat, ok: bool)
    requires CallOk(c, max) && task in c.running
    ensures CallOk(FinishStep(c, task, ok), max)
  {
  }

  lemma LogKeeps(c: Call, max: nat)
    requires CallOk(c, max) && |c.log| < |c.wallets| && |c.log| in c.results
    ensures CallOk(LogStep(c), max)
  {
  }

  lemma StepKeepsInv(max: nat, calls: seq<Call>, a: Action)
    requires Inv(calls, max) && Enabled(calls, a)
    ensures Inv(Next(max, calls, a), max)
  {
    match a
    case Begin(wallets) =>
      assert CallOk(NewCall(wallets, max), max);
      hide CallOk;
    case Spawn(k) =>
      SpawnKeeps(calls[k], max);
      hide CallOk, SpawnStep;
    case Finish(k, task, ok) =>
      FinishKeeps(calls[k], max, task, ok);
      hide CallOk, FinishStep;
    case Log(k) =>
      LogKeeps(calls[k], max);
      hide CallOk, LogStep;
  }

  lemma {:induction false} ReachableInv(max: nat, trace: seq<Action>, states: seq<seq<Call>>, n: nat)
    requires Steps(max, trace, states) && n <= |trace|
    ensures Inv(states[n], max)
  {
    if n > 0 {
      ReachableInv(max, trace, states, n - 1);
      StepKeepsInv(max, states[n - 1], trace[n - 1]);
    }
  }

  // ----- How many syncs run at once -----

  function Running(calls: seq<Call>): nat {
    if calls == [] then 0 else Running(calls[..|calls| - 1]) + |calls[|calls| - 1].running|
  }

  /** How many calls have a task running. */
  function Busy(calls: seq<Call>): nat {
    if calls == [] then 0 else Busy(calls[..|calls| - 1]) + if calls[|calls| - 1].running != {} then 1 else 0
  }

  lemma {:induction false} RunningBound(calls: seq<Call>, max: nat)
    requires Inv(calls, max)
    ensures Running(calls) <= Busy(calls) * max
  {
    if calls != [] {
      var n := |calls| - 1;
      RunningBound(calls[..n], max);
      assert CallOk(calls[n], max);
      assert (Busy(calls[..n]) + 1) * max == Busy(calls[..n]) * max + max;
    }
  }

  /**
   * At any time one call runs at most `max` syncs, and k calls with a task running at most
   * k * max; finished and waiting calls do not count.  While at most one call is busy the
   * configured bound holds for the whole service.
   */
  lemma AtMostMaxPerCall(max: nat, trace: seq<Action>, states: seq<seq<Call>>, n: nat)
    requires Steps(max, trace, states) && n <= |trace|
    ensures forall k :: 0 <= k < |states[n]| ==> |states[n][k].running| <= max
    ensures Running(states[n]) <= Busy(states[n]) * max
    ensures Busy(states[n]) <= 1 ==> Running(states[n]) <= max
  {
    ReachableInv(max, trace, states, n);
    RunningBound(states[n], max);
    if Busy(states[n]) == 0 {
      assert Busy(states[n]) * max == 0;
    }
  }

  // ----- When the calls together exceed the bound -----

  function Lists(calls: seq<Call>): (r: seq<seq<int>>)
    ensures |r| == |calls| && forall k :: 0 <= k < |calls| ==> r[k] == calls[k].wallets
  {
    seq(|calls|, k requires 0 <= k < |calls| => calls[k].wallets)
  }

  /** The most tasks one call can run at once. */
  function Room(wallets: seq<int>, max: nat): nat {
    if |wallets| < max then |wallets| else max
  }

  function Capacity(lists: seq<seq<int>>, max: nat): nat {
    if lists == [] then 0 else Capacity(lists[..|lists| - 1], max) + Room(lists[|lists| - 1], max)
  }

  function UpTo(n: nat): (s: set<nat>)
    ensures |s| == n && forall i: nat :: i in s <==> i < n
  {
    if n == 0 then {} else UpTo(n - 1) + {n - 1}
  }

  lemma SmallNumbers(s: set<nat>, n: nat)
    requires forall i :: i in s ==> i < n
    ensures |s| <= n
  {
    assert s <= UpTo(n);
    SubsetSize(s, UpTo(n));
  }

  lemma {:induction false} SubsetSize(s: set<nat>, u: set<nat>)
    requires s <= u
    ensures |s| <= |u|
  {
    if s != {} {
      var i :| i in s;
      SubsetSize(s - {i}, u - {i});
    }
  }

  lemma {:induction false} RunningWithinCapacity(calls: seq<Call>, max: nat)
    requires Inv(calls, max)
    ensures Running(calls) <= Capacity(Lists(calls), max)
  {
    if calls != [] {
      var n := |calls| - 1;
      RunningWithinCapacity(calls[..n], max);
      var c := calls[n];
      assert CallOk(c, max);
      SmallNumbers(c.running, c.spawned);
      assert Lists(calls)[..n] == Lists(calls[..n]);
    }
  }

  /** A call that has spawned its first n tasks, all of them running. */
  function Filled(wallets: seq<int>, max: nat, n: nat): Call
    requires n <= max
  {
    Call(wallets, max - n, n, UpTo(n), map[], [])
  }

  ghost predicate FullPool(calls: seq<Call>, lists: seq<seq<int>>, max: nat) {
    |calls| == |lists| && forall k :: 0 <= k < |calls| ==> calls[k] == Filled(lists[k], max, Room(lists[k], max))
  }

  lemma {:induction false} FullPoolRuns(calls: seq<Call>, lists: seq<seq<int>>, max: nat)
    requires FullPool(calls, lists, max)
    ensures Running(calls) == Capacity(lists, max)
  {
    if calls != [] {
      var n := |calls| - 1;
      FullPoolRuns(calls[..n], lists[..n], max);
    }
  }

  /** One more step at the end of a run. */
  lemma StepsAppend(max: nat, trace: seq<Action>, states: seq<seq<Call>>, a: Action)
    requires Steps(max, trace, states) && Enabled(states[|trace|], a)
    ensures Steps(max, trace + [a], states + [Next(max, states[|trace|], a)])
  {
  }

  /** The last call spawns its next task. */
  lemma SpawnLast(max: nat, trace: seq<Action>, states: seq<seq<Call>>, before: seq<Call>, w: seq<int>, i: nat)
    returns (more: seq<Action>, longer: seq<seq<Call>>)
    requires Steps(max, trace, states) && i < Room(w, max) && states[|trace|] == before + [Filled(w, max, i)]
    ensures Steps(max, more, longer) && longer[|more|] == before + [Filled(w, max, i + 1)]
  {
    var a := Spawn(|before|);
    var after := Next(max, states[|trace|], a);
    StepsAppend(max, trace, states, a);
    hide Steps;
    assert UpTo(i + 1) == UpTo(i) + {i};
    assert after == before + [Filled(w, max, i + 1)];
    more, longer := trace + [a], states + [after];
  }

  /** A run that spawns as many tasks as each of the calls can hold, before any of them ends. */
  lemma {:induction false} BusiestRun(max: nat, lists: seq<seq<int>>)
    returns (trace: seq<Action>, states: seq<seq<Call>>)
    ensures Steps(max, trace, states) && FullPool(states[|trace|], lists, max)
  {
    if lists == [] {
      trace, states := [], [[]];
    } else {
      var n := |lists| - 1;
      var w := lists[n];
      trace, states := BusiestRun(max, lists[..n]);
      var before := states[|trace|];
      StepsAppend(max, trace, states, Begin(w));
      trace, states := trace + [Begin(w)], states + [before + [NewCall(w, max)]];
      assert UpTo(0) == {};
      for i := 0 to Room(w, max)
        invariant Steps(max, trace, states)
        invariant states[|trace|] == before + [Filled(w, max, i)]
      {
        hide Steps;
        trace, states := SpawnLast(max, trace, states, before, w, i);
      }
    }
  }

  /** A run over these wallet lists at whose end more than `max` syncs run. */
  ghost predicate SomeRunExceeds(max: nat, lists: seq<seq<int>>) {
    exists trace, states ::
        Steps(max, trace, states) && Lists(states[|trace|]) == lists && Running(states[|trace|]) > max
  }

  /** Overlapping calls can exceed the bound exactly when their lists have more room together than `max`. */
  lemma ExceedsMaxExactly(max: nat, lists: seq<seq<int>>)
    ensures SomeRunExceeds(max, lists) <==> Capacity(lists, max) > max
  {
    if SomeRunExceeds(max, lists) {
      var trace, states :| Steps(max, trace, states) && Lists(states[|trace|]) == lists
          && Running(states[|trace|]) > max;
      ReachableInv(max, trace, states, |trace|);
      RunningWithinCapacity(states[|trace|], max);
    }
    if Capacity(lists, max) > max {
      var trace, states := BusiestRun(max, lists);
      FullPoolRuns(states[|trace|], lists, max);
      assert Lists(states[|trace|]) == lists;
    }
  }

  /**
   * Two calls, say of the timer and of a new block: they have a run above `max` exactly when
   * min(max, |v|) + min(max, |w|) exceeds it.
   */
  lemma TwoCallsExceedMax(max: nat, v: seq<int>, w: seq<int>)
    ensures SomeRunExceeds(max, [v, w]) <==>
              (if |v| < max then |v| else max) + (if |w| < max then |w| else max) > max
  {
    ExceedsMaxExactly(max, [v, w]);
    assert [v, w][..1] == [v] && [v][..0] == [];
    assert Capacity([v], max) == Room(v, max);
  }

  /** Two overlapping calls can sync one wallet at the same time. */
  lemma TwoCallsShareWallet(max: nat, wallet: int)
    requires max >= 1
    ensures exists trace: seq<Action>, states: seq<seq<Call>> ::
              && Steps(max, trace, states) && Lists(states[|trace|]) == [[wallet], [wallet]]
              && 0 in states[|trace|][0].running && 0 in states[|trace|][1].running
  {
    var lists := [[wallet], [wallet]];
    var trace, states := BusiestRun(max, lists);
    assert Lists(states[|trace|]) == lists;
  }

  // ----- Completion -----

  /** A finished call has logged every wallet once, in order, with the outcome of its own task. */
  lemma FinishedLogsAll(max: nat, trace: seq<Action>, states: seq<seq<Call>>, n: nat, k: nat)
    requires Steps(max, trace, states) && n <= |trace| && k < |states[n]|
    requires |states[n][k].log| == |states[n][k].wallets|
    ensures var c := states[n][k];
            && (forall i :: 0 <= i < |c.wallets| ==> i in c.results && c.log[i] == Entry(c.wallets[i], c.results[i]))
            && c.running == {} && c.permits == max
  {
    ReachableInv(max, trace, states, n);
    var c := states[n][k];
    assert CallOk(c, max);
    assert forall i: nat :: i in c.running ==> i < |c.log| && i in c.results;
    assert c.running == {};
  }

  /** With at least one permit an unfinished call can always go on: the pool never deadlocks. */
  lemma NeverStuck(max: nat, trace: seq<Action>, states: seq<seq<Call>>, n: nat, k: nat)
    requires max >= 1 && Steps(max, trace, states) && n <= |trace| && k < |states[n]|
    requires |states[n][k].log| < |states[n][k].wallets|
    ensures exists a: Action :: !a.Begin? && a.call == k && Enabled(states[n], a)
  {
    ReachableInv(max, trace, states, n);
    var c := states[n][k];
    assert CallOk(c, max);
    if c.running != {} {
      var task :| task in c.running;
      assert Enabled(states[n], Finish(k, task, true));
    } else if c.spawned < |c.wallets| {
      assert Enabled(states[n], Spawn(k));
    } else {
      assert |c.log| < c.spawned;
      assert Enabled(states[n], Log(k));
    }
  }
}
