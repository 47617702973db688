/**
 * Daily rows under overlapping syncs: each holds its day's newest snapshot as long as no row is
 * written over a newer one.
 */
module DailyRows {
  import opened Prelude
  import opened SnapshotRace
  import opened SyncDriver

  /** A task has stored this snapshot and has yet to write its daily row. */
  ghost predicate Waiting(s: State, x: Snapshot) {
    exists c :: c in s.tasks && s.tasks[c].Stored? && s.tasks[c].snap == x
  }

  ghost predicate HasDay(s: State, k: Key) {
    exists x :: x in s.snaps && KeyOf(x) == k
  }

  /** No write of the row was lost, and none is still to come. */
  ghost predicate Settled(s: State, k: Key) {
    k !in s.missed && forall c :: c in s.tasks && s.tasks[c].Stored? ==> KeyOf(s.tasks[c].snap) != k
  }

  /** The row holds the newest snapshot of its wallet and day. */
  ghost predicate NewestRow(s: State, k: Key) {
    k in s.daily && s.daily[k] in s.snaps && KeyOf(s.daily[k]) == k
    && forall x :: x in s.snaps && KeyOf(x) == k ==> x.at <= s.daily[k].at
  }

  ghost predicate RowsRight(s: State) {
    forall k :: Settled(s, k) && HasDay(s, k) ==> NewestRow(s, k)
  }

  /** The row on record is not newer than the snapshot about to be written over it. */
  predicate InOrder(s: State, c: nat)
    requires c in s.tasks && s.tasks[c].Stored?
  {
    var x := s.tasks[c].snap;
    KeyOf(x) in s.daily ==> s.daily[KeyOf(x)].at <= x.at
  }

  /** A stored snapshot is waiting, or its row was lost, or its row is at least as new. */
  ghost predicate RowCovers(s: State, x: Snapshot) {
    KeyOf(x) in s.missed || Waiting(s, x) || (KeyOf(x) in s.daily && x.at <= s.daily[KeyOf(x)].at)
  }

  ghost predicate DailyInv(s: State) {
    && (forall x :: x in s.snaps ==> RowCovers(s, x))
    && (forall k :: k in s.daily ==> s.daily[k] in s.snaps && KeyOf(s.daily[k]) == k && !Waiting(s, s.daily[k]))
    && (forall c :: c in s.tasks && s.tasks[c].Stored? ==>
        s.tasks[c].snap in s.snaps && s.tasks[c].snap.wallet == s.tasks[c].wallet)
    && (forall c, d :: c in s.tasks && d in s.tasks && s.tasks[c].Stored? && s.tasks[d].Stored? ==>
          s.tasks[c].snap == s.tasks[d].snap ==> c == d)
  }

  lemma SettledIsNewest(s: State)
    requires DailyInv(s)
    ensures RowsRight(s)
  {
    hide KeyOf;
    forall k | Settled(s, k) && HasDay(s, k)
      ensures NewestRow(s, k)
    {
      forall x | x in s.snaps && KeyOf(x) == k
        ensures k in s.daily && x.at <= s.daily[k].at
      {
        assert RowCovers(s, x);
      }
    }
  }

  /** Steps that store nothing and write no row. */
  lemma OtherStepKeepsDaily(s: State, t: State)
    requires DailyInv(s) && t.snaps == s.snaps && t.daily == s.daily && t.missed == s.missed
    requires forall c, x ::
        (c in t.tasks && t.tasks[c].Stored? && t.tasks[c].snap == x && t.tasks[c].wallet == x.wallet)
        <==> (c in s.tasks && s.tasks[c].Stored? && s.tasks[c].snap == x && s.tasks[c].wallet == x.wallet)
    requires forall c :: c in t.tasks && t.tasks[c].Stored? ==> c in s.tasks && t.tasks[c] == s.tasks[c]
    ensures DailyInv(t)
  {
    hide KeyOf;
    forall x
      ensures Waiting(t, x) <==> Waiting(s, x)
    {
      if c :| c in s.tasks && s.tasks[c].Stored? && s.tasks[c].snap == x {
        assert s.tasks[c].wallet == x.wallet;
        assert c in t.tasks && t.tasks[c].Stored? && t.tasks[c].snap == x;
      }
    }
    forall x | x in t.snaps
      ensures RowCovers(t, x)
    {
      assert RowCovers(s, x);
    }
  }

  /** The snapshot about to be stored has a time of its own. */
  lemma InsertIsNew(gap: nat, s: State, c: nat, value: real)
    requires gap > 0 && Inv(s, gap) && Enabled(s, Insert(c, value))
    ensures Snapshot(s.tasks[c].wallet, s.tasks[c].at, value) !in s.snaps
  {
    var x := Snapshot(s.tasks[c].wallet, s.tasks[c].at, value);
    forall i | 0 <= i < |s.snaps|
      ensures s.snaps[i] != x
    {
      assert s.snaps[i].wallet == s.tasks[c].wallet ==> FarApart(s.snaps[i].at, s.tasks[c].at, gap);
    }
  }

  lemma InsertKeepsDaily(gap: nat, s: State, c: nat, value: real)
    requires gap > 0 && Inv(s, gap) && DailyInv(s) && Enabled(s, Insert(c, value))
    ensures DailyInv(InsertStep(s, c, value))
  {
    InsertIsNew(gap, s, c, value);
    hide Inv, KeyOf;
    var t := InsertStep(s, c, value);
    var x := Snapshot(s.tasks[c].wallet, s.tasks[c].at, value);
    assert t.tasks[c] == Stored(x.wallet, x) && t.snaps == s.snaps + [x];
    assert Waiting(t, x);
    forall y
      ensures Waiting(t, y) <==> Waiting(s, y) || y == x
    {
      if d :| d in s.tasks && s.tasks[d].Stored? && s.tasks[d].snap == y {
        assert d in t.tasks && t.tasks[d] == s.tasks[d];
      }
    }
    forall y | y in t.snaps
      ensures RowCovers(t, y)
    {
      if y != x {
        assert RowCovers(s, y);
      }
    }
  }

  /** What is left waiting once a task has written its row, or given it up. */
  lemma WaitingAfter(s: State, t: State, c: nat, y: Snapshot)
    requires DailyInv(s) && c in s.tasks && s.tasks[c].Stored? && t.tasks == s.tasks - {c}
    ensures Waiting(t, y) <==> Waiting(s, y) && y != s.tasks[c].snap
  {
    hide KeyOf;
    if d :| d in s.tasks && s.tasks[d].Stored? && s.tasks[d].snap == y {
      assert y != s.tasks[c].snap ==> d in t.tasks && t.tasks[d] == s.tasks[d];
    }
  }

  lemma LossKeepsDaily(s: State, c: nat)
    requires DailyInv(s) && Enabled(s, Upsert(c, true))
    ensures DailyInv(UpsertStep(s, c, true))
  {
    hide KeyOf;
    var t := UpsertStep(s, c, true);
    forall y
      ensures Waiting(t, y) <==> Waiting(s, y) && y != s.tasks[c].snap
    {
      WaitingAfter(s, t, c, y);
    }
    forall y | y in t.snaps
      ensures RowCovers(t, y)
    {
      assert RowCovers(s, y);
    }
  }

  lemma WriteKeepsDaily(s: State, c: nat)
    requires DailyInv(s) && Enabled(s, Upsert(c, false))
    requires InOrder(s, c) || KeyOf(s.tasks[c].snap) in s.missed
    ensures DailyInv(UpsertStep(s, c, false))
  {
    hide KeyOf;
    var t := UpsertStep(s, c, false);
    var x := s.tasks[c].snap;
    forall y
      ensures Waiting(t, y) <==> Waiting(s, y) && y != x
    {
      WaitingAfter(s, t, c, y);
    }
    forall y | y in t.snaps
      ensures RowCovers(t, y)
    {
      assert RowCovers(s, y);
    }
    assert Waiting(s, x);
  }

  /** A row that was written out of order is older than a stored snapshot of its day. */
  lemma OutOfOrderIsWrong(s: State, c: nat)
    requires DailyInv(s) && Enabled(s, Upsert(c, false)) && !InOrder(s, c)
    ensures !NewestRow(UpsertStep(s, c, false), KeyOf(s.tasks[c].snap))
  {
    var k := KeyOf(s.tasks[c].snap);
    assert s.daily[k] in s.snaps && KeyOf(s.daily[k]) == k;
    hide KeyOf;
  }

  /**
   * A write that settles its row leaves the newest snapshot of the day there exactly when the
   * row it writes over is not newer than its own snapshot.
   */
  lemma WriteIsRightExactly(s: State, c: nat)
    requires DailyInv(s) && Enabled(s, Upsert(c, false))
    requires Settled(UpsertStep(s, c, false), KeyOf(s.tasks[c].snap))
    ensures NewestRow(UpsertStep(s, c, false), KeyOf(s.tasks[c].snap)) <==> InOrder(s, c)
  {
    if InOrder(s, c) {
      var k := KeyOf(s.tasks[c].snap);
      WriteKeepsDaily(s, c);
      SettledIsNewest(UpsertStep(s, c, false));
      assert s.tasks[c].snap in s.snaps;
      assert HasDay(UpsertStep(s, c, false), k);
    } else {
      OutOfOrderIsWrong(s, c);
    }
  }

  /** No row is written over a newer one. */
  ghost predicate OrderlyStep(s: State, a: Action) {
    a.Upsert? && !a.lost && Enabled(s, a) ==> InOrder(s, a.task)
  }

  /** Starting, reading, checking, stamping, waiting, and dying before the insert. */
  lemma EarlyStepKeepsDaily(gap: nat, s: State, a: Action)
    requires DailyInv(s) && Enabled(s, a) && !a.Insert? && !a.Upsert?
    requires a.Fail? ==> !s.tasks[a.task].Stored?
    ensures DailyInv(Next(gap, s, a))
  {
    var t := Next(gap, s, a);
    assert t.snaps == s.snaps && t.daily == s.daily && t.missed == s.missed;
    assert forall c :: c in t.tasks && t.tasks[c].Stored? ==> c in s.tasks && t.tasks[c] == s.tasks[c];
    assert forall c :: c in s.tasks && s.tasks[c].Stored? ==> c in t.tasks && t.tasks[c] == s.tasks[c];
    hide DailyInv, Next;
    OtherStepKeepsDaily(s, t);
  }

  lemma StepKeepsDaily(gap: nat, s: State, a: Action)
    requires gap > 0 && Inv(s, gap) && DailyInv(s) && OrderlyStep(s, a)
    ensures DailyInv(Next(gap, s, a))
  {
    if Enabled(s, a) {
      hide Inv, DailyInv, InOrder;
      if a.Insert? {
        InsertKeepsDaily(gap, s, a.task, a.value);
      } else if a.Upsert? {
        if a.lost {
          LossKeepsDaily(s, a.task);
        } else {
          WriteKeepsDaily(s, a.task);
        }
      } else if a.Fail? && s.tasks[a.task].Stored? {
        LossKeepsDaily(s, a.task);
      } else {
        EarlyStepKeepsDaily(gap, s, a);
      }
    }
  }

  ghost predicate OrderlyRun(gap: nat, s: State, trace: seq<Action>) {
    trace == [] ||
    var n := |trace| - 1;
    OrderlyRun(gap, s, trace[..n]) && OrderlyStep(Execute(gap, s, trace[..n]), trace[n])
  }

  lemma StartIsEmpty(gap: nat, clock: int)
    ensures Inv(Init(clock), gap) && DailyInv(Init(clock))
  {
  }

  lemma {:induction false} OrderlyRunKeepsDaily(gap: nat, clock: int, trace: seq<Action>)
    requires gap > 0 && SafeRun(gap, Init(clock), trace) && OrderlyRun(gap, Init(clock), trace)
    ensures Inv(Execute(gap, Init(clock), trace), gap) && DailyInv(Execute(gap, Init(clock), trace))
  {
    StartIsEmpty(gap, clock);
    if trace != [] {
      hide Inv, DailyInv, SafeStep, OrderlyStep;
      var n := |trace| - 1;
      var s := Execute(gap, Init(clock), trace[..n]);
      OrderlyRunKeepsDaily(gap, clock, trace[..n]);
      StepKeepsInv(gap, s, trace[n]);
      StepKeepsDaily(gap, s, trace[n]);
    }
  }

  // ----- Which intervals make every safe run orderly -----

  lemma SameDayIsClose(a: int, b: int)
    requires DayOf(a) == DayOf(b)
    ensures -SECS_PER_DAY < a - b < SECS_PER_DAY
  {
  }

  /** Snapshots a day apart never share a row. */
  lemma DayApartIsOrderly(gap: nat, s: State, a: Action)
    requires gap >= SECS_PER_DAY && Inv(s, gap) && DailyInv(s)
    ensures OrderlyStep(s, a)
  {
    if a.Upsert? && Enabled(s, a) {
      OneSnapshotADay(s.snaps, gap, s.tasks[a.task].snap);
      hide Inv, KeyOf;
    }
  }

  lemma OneSnapshotADay(snaps: seq<Snapshot>, gap: nat, x: Snapshot)
    requires gap >= SECS_PER_DAY && AllApart(snaps, gap) && x in snaps
    ensures forall y :: y in snaps && KeyOf(y) == KeyOf(x) ==> y == x
  {
    var i :| 0 <= i < |snaps| && snaps[i] == x;
    forall j | 0 <= j < |snaps| && KeyOf(snaps[j]) == KeyOf(x)
      ensures j == i
    {
      SameDayIsClose(snaps[j].at, x.at);
      hide KeyOf;
    }
  }

  lemma {:induction false} LongIntervalRuns(gap: nat, clock: int, trace: seq<Action>)
    requires gap >= SECS_PER_DAY && SafeRun(gap, Init(clock), trace)
    ensures Inv(Execute(gap, Init(clock), trace), gap) && DailyInv(Execute(gap, Init(clock), trace))
  {
    StartIsEmpty(gap, clock);
    if trace != [] {
      hide Inv, DailyInv, SafeStep, OrderlyStep;
      var n := |trace| - 1;
      var s := Execute(gap, Init(clock), trace[..n]);
      LongIntervalRuns(gap, clock, trace[..n]);
      DayApartIsOrderly(gap, s, trace[n]);
      StepKeepsInv(gap, s, trace[n]);
      StepKeepsDaily(gap, s, trace[n]);
    }
  }

  /** One more step of a safe run. */
  lemma Extend(gap: nat, clock: int, trace: seq<Action>, s: State, a: Action) returns (more: seq<Action>, u: State)
    requires s == Execute(gap, Init(clock), trace) && SafeRun(gap, Init(clock), trace) && SafeStep(gap, s, a)
    ensures u == Next(gap, s, a) == Execute(gap, Init(clock), more) && SafeRun(gap, Init(clock), more)
  {
    more, u := trace + [a], Next(gap, s, a);
    assert more[..|more| - 1] == trace;
  }

  /** A first sync takes its timestamp and then waits for the length of the interval. */
  lemma SlowStart(gap: nat, wallet: int) returns (trace: seq<Action>, s: State)
    ensures s == Execute(gap, Init(0), trace) && SafeRun(gap, Init(0), trace)
    ensures s == State(gap, [], map[0 := Stamped(wallet, 0)], map[], {})
  {
    hide Execute, SafeRun;
    trace, s := [], Init(0);
    EmptyRun(gap, s);
    trace, s := Extend(gap, 0, trace, s, Begin(0, wallet));
    assert s == Init(0).(tasks := map[0 := Started(wallet)]);
    trace, s := Extend(gap, 0, trace, s, Read(0));
    assert s == Init(0).(tasks := map[0 := HasRead(wallet, None)]);
    trace, s := Extend(gap, 0, trace, s, Check(0));
    assert s == Init(0).(tasks := map[0 := Ready(wallet)]);
    trace, s := Extend(gap, 0, trace, s, Stamp(0));
    assert s == Init(0).(tasks := map[0 := Stamped(wallet, 0)]);
    trace, s := Extend(gap, 0, trace, s, Tick(gap));
  }

  lemma EmptyRun(gap: nat, s: State)
    ensures Execute(gap, s, []) == s && SafeRun(gap, s, [])
  {
  }

  /** A second one reads safely and takes its own timestamp. */
  lemma SafeSecond(gap: nat, wallet: int) returns (trace: seq<Action>, s: State)
    ensures s == Execute(gap, Init(0), trace) && SafeRun(gap, Init(0), trace)
    ensures s == State(gap, [], map[0 := Stamped(wallet, 0), 1 := Stamped(wallet, gap)], map[], {})
  {
    hide Execute, SafeRun;
    trace, s := SlowStart(gap, wallet);
    var slow := Stamped(wallet, 0);
    trace, s := Extend(gap, 0, trace, s, Begin(1, wallet));
    assert s.tasks == map[0 := slow, 1 := Started(wallet)];
    trace, s := Extend(gap, 0, trace, s, Read(1));
    assert s.tasks == map[0 := slow, 1 := HasRead(wallet, None)];
    trace, s := Extend(gap, 0, trace, s, Check(1));
    assert s.tasks == map[0 := slow, 1 := Ready(wallet)];
    trace, s := Extend(gap, 0, trace, s, Stamp(1));
    assert s.tasks == map[0 := slow, 1 := Stamped(wallet, gap)];
  }

  /** It writes the daily row before the first one has inserted. */
  lemma Overtake(gap: nat, wallet: int) returns (trace: seq<Action>, s: State)
    requires 0 < gap < SECS_PER_DAY
    ensures s == Execute(gap, Init(0), trace) && SafeRun(gap, Init(0), trace)
    ensures var x := Snapshot(wallet, gap, 1.0);
            s == State(gap, [x], map[0 := Stamped(wallet, 0)], map[(wallet, 0) := x], {})
  {
    hide Execute, SafeRun;
    trace, s := SafeSecond(gap, wallet);
    var slow := Stamped(wallet, 0);
    var x := Snapshot(wallet, gap, 1.0);
    assert KeyOf(x) == (wallet, 0);
    hide KeyOf;
    trace, s := Extend(gap, 0, trace, s, Insert(1, 1.0));
    assert s.tasks == map[0 := slow, 1 := Stored(wallet, x)] && s.snaps == [x];
    trace, s := Extend(gap, 0, trace, s, Upsert(1, false));
    assert s.tasks == map[0 := slow] && s.daily == map[(wallet, 0) := x];
  }

  /** The first one then writes its older snapshot over the newer row: all reads were safe, the row is wrong. */
  lemma OlderOverwrites(gap: nat, wallet: int) returns (trace: seq<Action>)
    requires 0 < gap < SECS_PER_DAY
    ensures SafeRun(gap, Init(0), trace) && !RowsRight(Execute(gap, Init(0), trace))
  {
    hide Execute, SafeRun;
    var s;
    trace, s := Overtake(gap, wallet);
    var x, y := Snapshot(wallet, gap, 1.0), Snapshot(wallet, 0, 1.0);
    var k := (wallet, 0);
    assert KeyOf(x) == k && KeyOf(y) == k;
    hide KeyOf;
    trace, s := Extend(gap, 0, trace, s, Insert(0, 1.0));
    assert s.tasks == map[0 := Stored(wallet, y)] && s.snaps == [x, y];
    trace, s := Extend(gap, 0, trace, s, Upsert(0, false));
    assert s.tasks == map[] && s.daily[k] == y;
    assert x in s.snaps && Settled(s, k) && HasDay(s, k) && !NewestRow(s, k);
  }

  /**
   * Safe reads alone keep the daily rows right, over every run, exactly when the interval is at
   * least a day: then a day has one snapshot.
   */
  lemma DailyRightExactly(gap: nat)
    requires gap > 0
    ensures gap >= 86400 <==>
            forall clock, trace :: SafeRun(gap, Init(clock), trace) ==> RowsRight(Execute(gap, Init(clock), trace))
  {
    hide RowsRight, Execute, SafeRun, DailyInv, Inv;
    if gap >= SECS_PER_DAY {
      forall clock, trace | SafeRun(gap, Init(clock), trace)
        ensures RowsRight(Execute(gap, Init(clock), trace))
      {
        LongIntervalRuns(gap, clock, trace);
        SettledIsNewest(Execute(gap, Init(clock), trace));
      }
    } else {
      var trace := OlderOverwrites(gap, 0);
    }
  }

  /** For any interval they are right while no row is written over a newer one. */
  lemma OrderlyRunsKeepRows(gap: nat, clock: int, trace: seq<Action>)
    requires gap > 0 && SafeRun(gap, Init(clock), trace) && OrderlyRun(gap, Init(clock), trace)
    ensures RowsRight(Execute(gap, Init(clock), trace))
  {
    OrderlyRunKeepsDaily(gap, clock, trace);
    SettledIsNewest(Execute(gap, Init(clock), trace));
  }

  // ----- One sync of a wallet at a time, daily row included -----

  /** Every other task of the wallet has yet to read. */
  ghost predicate SoloStep(s: State, a: Action) {
    a.Read? && a.task in s.tasks ==>
      forall d :: d in s.tasks && d != a.task && s.tasks[d].wallet == s.tasks[a.task].wallet ==> s.tasks[d].Started?
  }

  ghost predicate SoloRun(gap: nat, s: State, trace: seq<Action>) {
    trace == [] ||
    var n := |trace| - 1;
    SoloRun(gap, s, trace[..n]) && SoloStep(Execute(gap, s, trace[..n]), trace[n])
  }

  /** A wallet has one task past its read, and what that task has stored is the wallet's newest. */
  ghost predicate SoloOk(s: State) {
    && (forall c, d :: c in s.tasks && d in s.tasks && !s.tasks[c].Started? && !s.tasks[d].Started? ==>
          s.tasks[c].wallet == s.tasks[d].wallet ==> c == d)
    && (forall c, x :: c in s.tasks && s.tasks[c].Stored? && x in s.snaps && x.wallet == s.tasks[c].wallet ==>
          x.at <= s.tasks[c].snap.at)
  }

  lemma SoloInsert(gap: nat, s: State, c: nat, value: real)
    requires SoloOk(s) && Ordered(s) && Enabled(s, Insert(c, value))
    ensures SoloOk(InsertStep(s, c, value))
  {
    var t := InsertStep(s, c, value);
    forall x | x in t.snaps && x.wallet == s.tasks[c].wallet
      ensures x.at <= s.tasks[c].at
    {
      var i :| 0 <= i < |t.snaps| && t.snaps[i] == x;
      assert i < |s.snaps| ==> s.snaps[i] == x;
    }
    assert forall x :: x in t.snaps && x.wallet != s.tasks[c].wallet ==> x in s.snaps;
  }

  lemma SoloOther(gap: nat, s: State, a: Action)
    requires SoloOk(s) && SoloStep(s, a) && Enabled(s, a) && !a.Insert?
    ensures SoloOk(Next(gap, s, a))
  {
    hide Latest, Due, KeyOf;
  }

  /** The one task that may write a row of the wallet has its newest snapshot. */
  lemma SoloIsOrderly(s: State, a: Action)
    requires SoloOk(s) && DailyInv(s)
    ensures OrderlyStep(s, a)
  {
    if a.Upsert? && Enabled(s, a) {
      assert s.tasks[a.task].snap.wallet == s.tasks[a.task].wallet;
      assert forall k :: k in s.daily ==> s.daily[k] in s.snaps && s.daily[k].wallet == k.0;
    }
  }

  lemma SoloStepKeeps(gap: nat, s: State, a: Action)
    requires gap > 0 && Inv(s, gap) && Ordered(s) && SoloOk(s) && DailyInv(s) && SoloStep(s, a)
    ensures var t := Next(gap, s, a); Inv(t, gap) && Ordered(t) && SoloOk(t) && DailyInv(t)
  {
    assert AloneStep(s, a);
    hide Inv, Ordered, DailyInv;
    StepKeepsOrder(gap, s, a);
    SoloIsOrderly(s, a);
    StepKeepsDaily(gap, s, a);
    if Enabled(s, a) {
      hide SoloOk, SoloStep;
      if a.Insert? {
        SoloInsert(gap, s, a.task, a.value);
      } else {
        SoloOther(gap, s, a);
      }
    }
  }

  lemma {:induction false} SoloRunKeeps(gap: nat, clock: int, trace: seq<Action>)
    requires gap > 0 && SoloRun(gap, Init(clock), trace)
    ensures var s := Execute(gap, Init(clock), trace); Inv(s, gap) && Ordered(s) && SoloOk(s) && DailyInv(s)
  {
    StartIsEmpty(gap, clock);
    if trace != [] {
      hide Inv, Ordered, SoloOk, DailyInv, SoloStep;
      var n := |trace| - 1;
      SoloRunKeeps(gap, clock, trace[..n]);
      SoloStepKeeps(gap, Execute(gap, Init(clock), trace[..n]), trace[n]);
    }
  }

  /** With one sync of a wallet at a time every settled daily row is its day's newest snapshot, for any interval. */
  lemma SoloRunsKeepRows(gap: nat, clock: int, trace: seq<Action>)
    requires gap > 0 && SoloRun(gap, Init(clock), trace)
    ensures RowsRight(Execute(gap, Init(clock), trace))
  {
    SoloRunKeeps(gap, clock, trace);
    SettledIsNewest(Execute(gap, Init(clock), trace));
  }
}
