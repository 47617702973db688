/**
 * Syncs of one wallet that overlap: any number of tasks read the newest snapshot, find the
 * wallet due, take a timestamp, insert and write the daily row.  A read is safe exactly when
 * every other task of the wallet that is between its read and its insert has a timestamp at
 * least the minimum interval old.  `missed` remembers the daily rows whose write was lost.
 */
module SnapshotRace {
  import opened Prelude
  import opened Spacing
  import opened SyncDriver

  /** A task is open between its read and its timestamp. */
  datatype Task =
    | Started(wallet: int)
    | HasRead(wallet: int, latest: Option<Snapshot>)
    | Ready(wallet: int)
    | Stamped(wallet: int, at: int)
    | Stored(wallet: int, snap: Snapshot)

  type Key = (int, int)

  datatype State = State(
    clock: int, snaps: seq<Snapshot>, tasks: map<nat, Task>, daily: map<Key, Snapshot>, missed: set<Key>)

  datatype Action =
    | Tick(delta: nat)
    | Begin(task: nat, wallet: int)
    | Read(task: nat)
    | Check(task: nat)
    | Stamp(task: nat)
    | Insert(task: nat, value: real)
    | Upsert(task: nat, lost: bool)
    | Fail(task: nat)

  function Init(clock: int): State {
    State(clock, [], map[], map[], {})
  }

  /** The daily row of a snapshot. */
  function KeyOf(x: Snapshot): Key {
    (x.wallet, DayOf(x.at))
  }

  predicate IsOpen(t: Task) {
    t.HasRead? || t.Ready?
  }

  predicate Enabled(s: State, a: Action) {
    match a
    case Tick(_) => true
    case Begin(c, _) => c !in s.tasks
    case Read(c) => c in s.tasks && s.tasks[c].Started?
    case Check(c) => c in s.tasks && s.tasks[c].HasRead?
    case Stamp(c) => c in s.tasks && s.tasks[c].Ready?
    case Insert(c, _) => c in s.tasks && s.tasks[c].Stamped?
    case Upsert(c, _) => c in s.tasks && s.tasks[c].Stored?
    case Fail(c) => c in s.tasks
  }

  function Put(s: State, c: nat, t: Task): State {
    s.(tasks := s.tasks[c := t])
  }

  function Leave(s: State, c: nat): State {
    s.(tasks := s.tasks - {c})
  }

  /** One step; an action that is not possible changes nothing. */
  function Next(gap: nat, s: State, a: Action): State {
    if !Enabled(s, a) then s
    else match a
      case Tick(d) => s.(clock := s.clock + d)
      case Begin(c, wallet) => Put(s, c, Started(wallet))
      case Read(c) => Put(s, c, HasRead(s.tasks[c].wallet, Latest(s.snaps, s.tasks[c].wallet)))
      case Check(c) => if Due(s.tasks[c].latest, s.clock, gap) then Put(s, c, Ready(s.tasks[c].wallet)) else Leave(s, c)
      case Stamp(c) => Put(s, c, Stamped(s.tasks[c].wallet, s.clock))
      case Insert(c, value) => InsertStep(s, c, value)
      case Upsert(c, lost) => UpsertStep(s, c, lost)
      case Fail(c) => FailStep(s, c)
  }

  function InsertStep(s: State, c: nat, value: real): State
    requires c in s.tasks && s.tasks[c].Stamped?
  {
    var x := Snapshot(s.tasks[c].wallet, s.tasks[c].at, value);
    Put(s.(snaps := s.snaps + [x]), c, Stored(x.wallet, x))
  }

  /** The write of the daily row, whose failure is ignored. */
  function UpsertStep(s: State, c: nat, lost: bool): State
    requires c in s.tasks && s.tasks[c].Stored?
  {
    var x := s.tasks[c].snap;
    if lost then Leave(s.(missed := s.missed + {KeyOf(x)}), c) else Leave(s.(daily := s.daily[KeyOf(x) := x]), c)
  }

  /** A task that dies after its insert leaves the daily row unwritten. */
  function FailStep(s: State, c: nat): State
    requires c in s.tasks
  {
    if s.tasks[c].Stored? then UpsertStep(s, c, true) else Leave(s, c)
  }

  function Execute(gap: nat, s: State, trace: seq<Action>): State {
    if trace == [] then s else Next(gap, Execute(gap, s, trace[..|trace| - 1]), trace[|trace| - 1])
  }

  // ----- Safe reads -----

  predicate FarApart(a: int, b: int, gap: nat) {
    a + gap <= b || b + gap <= a
  }

  /** Any two snapshots of a wallet are at least the interval apart, in whatever order they were stored. */
  ghost predicate AllApart(snaps: seq<Snapshot>, gap: nat) {
    forall i, j :: 0 <= i < j < |snaps| && snaps[i].wallet == snaps[j].wallet ==>
        FarApart(snaps[i].at, snaps[j].at, gap)
  }

  /** Every other task of the wallet has yet to read, has inserted, or took its timestamp an interval ago. */
  ghost predicate SafeRead(gap: nat, s: State, c: nat)
    requires c in s.tasks
  {
    forall d :: d in s.tasks && d != c && s.tasks[d].wallet == s.tasks[c].wallet ==>
      s.tasks[d].Started? || s.tasks[d].Stored? || (s.tasks[d].Stamped? && s.tasks[d].at + gap <= s.clock)
  }

  /** No other task of the wallet is between its read and its insert. */
  ghost predicate AloneRead(s: State, c: nat)
    requires c in s.tasks
  {
    forall d :: d in s.tasks && d != c && s.tasks[d].wallet == s.tasks[c].wallet ==>
      s.tasks[d].Started? || s.tasks[d].Stored?
  }

  ghost predicate SafeStep(gap: nat, s: State, a: Action) {
    a.Read? && a.task in s.tasks ==> SafeRead(gap, s, a.task)
  }

  ghost predicate AloneStep(s: State, a: Action) {
    a.Read? && a.task in s.tasks ==> AloneRead(s, a.task)
  }

  ghost predicate SafeRun(gap: nat, s: State, trace: seq<Action>) {
    trace == [] ||
    var n := |trace| - 1;
    SafeRun(gap, s, trace[..n]) && SafeStep(gap, Execute(gap, s, trace[..n]), trace[n])
  }

  ghost predicate AloneRun(gap: nat, s: State, trace: seq<Action>) {
    trace == [] ||
    var n := |trace| - 1;
    AloneRun(gap, s, trace[..n]) && AloneStep(Execute(gap, s, trace[..n]), trace[n])
  }

  // ----- The invariant of safe runs -----

  /** A snapshot of the wallet, stored or about to be, has this time. */
  ghost predicate Known(s: State, wallet: int, at: int) {
    || (exists i :: 0 <= i < |s.snaps| && s.snaps[i].wallet == wallet && s.snaps[i].at == at)
    || (exists c :: c in s.tasks && s.tasks[c] == Stamped(wallet, at))
  }

  ghost predicate StampedApart(s: State, gap: nat) {
    && (forall c, i ::
        (c in s.tasks && s.tasks[c].Stamped? && 0 <= i < |s.snaps| && s.snaps[i].wallet == s.tasks[c].wallet) ==>
          FarApart(s.snaps[i].at, s.tasks[c].at, gap))
    && (forall c, d :: c in s.tasks && d in s.tasks && c != d && s.tasks[c].Stamped? && s.tasks[d].Stamped? ==>
          s.tasks[c].wallet == s.tasks[d].wallet ==> FarApart(s.tasks[c].at, s.tasks[d].at, gap))
  }

  /** What an open task knows: all that it did not see is an interval old. */
  ghost predicate OpenOk(s: State, gap: nat, t: Task) {
    match t
    case HasRead(wallet, latest) =>
      forall at :: Known(s, wallet, at) ==> at + gap <= s.clock || (latest.Some? && at <= latest.value.at)
    case Ready(wallet) => forall at :: Known(s, wallet, at) ==> at + gap <= s.clock
    case _ => true
  }

  ghost predicate OneOpen(s: State) {
    forall c, d ::
      (c in s.tasks && d in s.tasks && IsOpen(s.tasks[c]) && IsOpen(s.tasks[d])
       && s.tasks[c].wallet == s.tasks[d].wallet) ==> c == d
  }

  ghost predicate Inv(s: State, gap: nat) {
    && AllApart(s.snaps, gap)
    && StampedApart(s, gap)
    && OneOpen(s)
    && (forall wallet, at :: Known(s, wallet, at) ==> at <= s.clock)
    && (forall c :: c in s.tasks ==> OpenOk(s, gap, s.tasks[c]))
  }

  lemma {:induction false} LatestIsNewest(snaps: seq<Snapshot>, wallet: int)
    ensures var l := Latest(snaps, wallet);
            && (l.Some? ==> l.value.wallet == wallet && l.value in snaps)
            && (forall s :: s in snaps && s.wallet == wallet ==> l.Some? && s.at <= l.value.at)
  {
    if snaps != [] {
      var n := |snaps| - 1;
      LatestIsNewest(snaps[..n], wallet);
      assert snaps == snaps[..n] + [snaps[n]];
    }
  }

  /** A step that makes nothing new known and opens no task. */
  lemma ShrinkKeeps(s: State, t: State, gap: nat)
    requires Inv(s, gap) && t.snaps == s.snaps && t.clock >= s.clock
    requires forall c :: c in t.tasks ==> (c in s.tasks && t.tasks[c] == s.tasks[c]) || t.tasks[c].Started?
    ensures Inv(t, gap)
  {
    forall wallet, at | Known(t, wallet, at)
      ensures Known(s, wallet, at)
    {
    }
    forall c | c in t.tasks
      ensures OpenOk(t, gap, t.tasks[c])
    {
      if c in s.tasks {
        assert OpenOk(s, gap, s.tasks[c]);
      }
    }
  }

  lemma ReadKeeps(gap: nat, s: State, c: nat)
    requires Inv(s, gap) && Enabled(s, Read(c)) && SafeRead(gap, s, c)
    ensures Inv(Next(gap, s, Read(c)), gap)
  {
    var t := Next(gap, s, Read(c));
    var wallet := s.tasks[c].wallet;
    LatestIsNewest(s.snaps, wallet);
    hide Latest;
    forall w, at
      ensures Known(t, w, at) <==> Known(s, w, at)
    {
      OnlyStampsCount(s, t, c, w, at);
    }
    forall d | d in t.tasks
      ensures OpenOk(t, gap, t.tasks[d])
    {
      if d != c {
        assert OpenOk(s, gap, s.tasks[d]);
      } else {
        forall at | Known(s, wallet, at)
          ensures at + gap <= s.clock || (t.tasks[c].latest.Some? && at <= t.tasks[c].latest.value.at)
        {
          if i :| 0 <= i < |s.snaps| && s.snaps[i].wallet == wallet && s.snaps[i].at == at {
            assert s.snaps[i] in s.snaps;
          }
        }
      }
    }
  }

  /** Changing one task between unstamped steps makes nothing known or unknown. */
  lemma OnlyStampsCount(s: State, t: State, c: nat, wallet: int, at: int)
    requires s.snaps == t.snaps && c in s.tasks && c in t.tasks && !s.tasks[c].Stamped? && !t.tasks[c].Stamped?
    requires t.tasks == s.tasks[c := t.tasks[c]]
    ensures Known(t, wallet, at) <==> Known(s, wallet, at)
  {
    if d :| d in s.tasks && s.tasks[d] == Stamped(wallet, at) {
      assert t.tasks[d] == Stamped(wallet, at);
    }
    if d :| d in t.tasks && t.tasks[d] == Stamped(wallet, at) {
      assert s.tasks[d] == Stamped(wallet, at);
    }
  }

  lemma CheckKeeps(gap: nat, s: State, c: nat)
    requires Inv(s, gap) && Enabled(s, Check(c))
    ensures Inv(Next(gap, s, Check(c)), gap)
  {
    var t := Next(gap, s, Check(c));
    assert OpenOk(s, gap, s.tasks[c]);
    if !Due(s.tasks[c].latest, s.clock, gap) {
      ShrinkKeeps(s, t, gap);
    } else {
      forall w, at
        ensures Known(t, w, at) <==> Known(s, w, at)
      {
        OnlyStampsCount(s, t, c, w, at);
      }
      forall d | d in t.tasks
        ensures OpenOk(t, gap, t.tasks[d])
      {
        assert OpenOk(s, gap, s.tasks[d]);
      }
    }
  }

  lemma StampKeeps(gap: nat, s: State, c: nat)
    requires Inv(s, gap) && Enabled(s, Stamp(c))
    ensures Inv(Next(gap, s, Stamp(c)), gap)
  {
    var t := Next(gap, s, Stamp(c));
    var wallet := s.tasks[c].wallet;
    assert OpenOk(s, gap, s.tasks[c]);
    forall w, at | Known(t, w, at)
      ensures Known(s, w, at) || (w == wallet && at == s.clock)
    {
      if d :| d in t.tasks && t.tasks[d] == Stamped(w, at) {
        assert d != c ==> s.tasks[d] == Stamped(w, at);
      }
    }
    StampApart(gap, s, c);
    forall d | d in t.tasks
      ensures OpenOk(t, gap, t.tasks[d])
    {
      assert OpenOk(s, gap, s.tasks[d]);
      assert IsOpen(s.tasks[d]) && s.tasks[d].wallet == wallet ==> d == c;
    }
  }

  lemma StampApart(gap: nat, s: State, c: nat)
    requires Inv(s, gap) && Enabled(s, Stamp(c))
    ensures StampedApart(Next(gap, s, Stamp(c)), gap)
  {
    var wallet := s.tasks[c].wallet;
    assert OpenOk(s, gap, s.tasks[c]);
    forall i | 0 <= i < |s.snaps| && s.snaps[i].wallet == wallet
      ensures s.snaps[i].at + gap <= s.clock
    {
      assert Known(s, wallet, s.snaps[i].at);
    }
    forall d | d in s.tasks && s.tasks[d].Stamped? && s.tasks[d].wallet == wallet
      ensures s.tasks[d].at + gap <= s.clock
    {
      assert Known(s, wallet, s.tasks[d].at);
    }
  }

  lemma InsertKeeps(gap: nat, s: State, c: nat, value: real)
    requires Inv(s, gap) && Enabled(s, Insert(c, value))
    ensures Inv(Next(gap, s, Insert(c, value)), gap)
  {
    var t := Next(gap, s, Insert(c, value));
    forall w, at | Known(t, w, at)
      ensures Known(s, w, at)
    {
      if i :| 0 <= i < |t.snaps| && t.snaps[i].wallet == w && t.snaps[i].at == at {
        assert i == |s.snaps| ==> s.tasks[c] == Stamped(w, at);
        assert i < |s.snaps| ==> s.snaps[i] == t.snaps[i];
      }
    }
    forall d | d in t.tasks
      ensures OpenOk(t, gap, t.tasks[d])
    {
      assert OpenOk(s, gap, s.tasks[d]);
    }
  }

  lemma StepKeepsInv(gap: nat, s: State, a: Action)
    requires Inv(s, gap) && SafeStep(gap, s, a)
    ensures Inv(Next(gap, s, a), gap)
  {
    if Enabled(s, a) {
      match a
      case Read(c) => ReadKeeps(gap, s, c);
      case Check(c) => CheckKeeps(gap, s, c);
      case Stamp(c) => StampKeeps(gap, s, c);
      case Insert(c, value) => InsertKeeps(gap, s, c, value);
      case _ =>
        hide Inv;
        ShrinkKeeps(s, Next(gap, s, a), gap);
    }
  }

  lemma {:induction false} SafeRunKeepsInv(gap: nat, s: State, trace: seq<Action>)
    requires Inv(s, gap) && SafeRun(gap, s, trace)
    ensures Inv(Execute(gap, s, trace), gap)
  {
    if trace != [] {
      hide Inv, SafeStep;
      var n := |trace| - 1;
      SafeRunKeepsInv(gap, s, trace[..n]);
      StepKeepsInv(gap, Execute(gap, s, trace[..n]), trace[n]);
    }
  }

  /** While every read is safe, all snapshots of a wallet are at least the interval apart. */
  lemma SafeRunsStayApart(gap: nat, clock: int, trace: seq<Action>)
    requires SafeRun(gap, Init(clock), trace)
    ensures AllApart(Execute(gap, Init(clock), trace).snaps, gap)
    ensures var snaps := Execute(gap, Init(clock), trace).snaps;
            forall i, j :: 0 <= i < j < |snaps| && snaps[i].wallet == snaps[j].wallet ==>
              snaps[i].at >= snaps[j].at + gap || snaps[j].at >= snaps[i].at + gap
  {
    SafeRunKeepsInv(gap, Init(clock), trace);
  }

  // ----- An unsafe read breaks the spacing -----

  /** Continuations without reads are safe whatever happens. */
  predicate NoReads(trace: seq<Action>) {
    forall i :: 0 <= i < |trace| ==> !trace[i].Read?
  }

  lemma {:induction false} NoReadsIsSafe(gap: nat, s: State, trace: seq<Action>)
    requires NoReads(trace)
    ensures SafeRun(gap, s, trace)
  {
    if trace != [] {
      NoReadsIsSafe(gap, s, trace[..|trace| - 1]);
    }
  }

  lemma {:induction false} ExecuteConcat(gap: nat, s: State, a: seq<Action>, b: seq<Action>)
    ensures Execute(gap, s, a + b) == Execute(gap, Execute(gap, s, a), b)
  {
    if b == [] {
      assert a + b == a;
    } else {
      ExecuteConcat(gap, s, a, b[..|b| - 1]);
      assert (a + b)[..|a + b| - 1] == a + b[..|b| - 1];
    }
  }

  lemma ExecuteOne(gap: nat, s: State, a: Action)
    ensures Execute(gap, s, [a]) == Next(gap, s, a)
  {
    assert [a][..0] == [];
  }

  predicate DueNow(s: State, gap: nat, t: Task) {
    t.Ready? || (t.HasRead? && Due(t.latest, s.clock, gap))
  }

  /** An open task whose wallet is due gets its timestamp at once. */
  lemma Hurry(gap: nat, s: State, c: nat) returns (more: seq<Action>)
    requires c in s.tasks && DueNow(s, gap, s.tasks[c])
    ensures NoReads(more) && Execute(gap, s, more) == Put(s, c, Stamped(s.tasks[c].wallet, s.clock))
  {
    more := [Stamp(c)];
    if s.tasks[c].Ready? {
      ExecuteOne(gap, s, Stamp(c));
    } else {
      ExecuteOne(gap, s, Check(c));
      ExecuteOne(gap, Next(gap, s, Check(c)), Stamp(c));
      ExecuteConcat(gap, s, [Check(c)], [Stamp(c)]);
      more := [Check(c)] + more;
      hide Execute;
      assert Put(Put(s, c, Ready(s.tasks[c].wallet)), c, Stamped(s.tasks[c].wallet, s.clock))
          == Put(s, c, Stamped(s.tasks[c].wallet, s.clock)) by {
        var m := s.tasks;
        assert m[c := Ready(m[c].wallet)][c := Stamped(m[c].wallet, s.clock)] == m[c := Stamped(m[c].wallet, s.clock)];
      }
    }
  }

  /** Two tasks of a wallet with timestamps too close store snapshots too close. */
  lemma InsertBoth(gap: nat, s: State, c: nat, d: nat) returns (more: seq<Action>)
    requires c in s.tasks && d in s.tasks && c != d && s.tasks[c].Stamped? && s.tasks[d].Stamped?
    requires s.tasks[c].wallet == s.tasks[d].wallet && !FarApart(s.tasks[c].at, s.tasks[d].at, gap)
    ensures NoReads(more) && !AllApart(Execute(gap, s, more).snaps, gap)
  {
    var a, b := Insert(c, 0.0), Insert(d, 0.0);
    more := [a] + [b];
    ExecuteOne(gap, s, a);
    ExecuteOne(gap, Next(gap, s, a), b);
    ExecuteConcat(gap, s, [a], [b]);
    var u := Next(gap, Next(gap, s, a), b).snaps;
    var n := |s.snaps|;
    assert u[n].at == s.tasks[c].at && u[n + 1].at == s.tasks[d].at;
    assert u[n].wallet == u[n + 1].wallet;
  }

  lemma NoReadsJoin(a: seq<Action>, b: seq<Action>)
    requires NoReads(a) && NoReads(b)
    ensures NoReads(a + b)
  {
  }

  /** Two open tasks of a wallet, both due: they can stamp and store at the same moment. */
  lemma TwoDueTasksBreak(gap: nat, s: State, c: nat, d: nat) returns (more: seq<Action>)
    requires gap > 0 && c in s.tasks && d in s.tasks && c != d && s.tasks[c].wallet == s.tasks[d].wallet
    requires DueNow(s, gap, s.tasks[c]) && DueNow(s, gap, s.tasks[d])
    ensures NoReads(more) && !AllApart(Execute(gap, s, more).snaps, gap)
  {
    hide Execute, AllApart, NoReads;
    var first := Hurry(gap, s, c);
    var u := Execute(gap, s, first);
    var second := Hurry(gap, u, d);
    var v := Execute(gap, u, second);
    var third := InsertBoth(gap, v, c, d);
    ExecuteConcat(gap, s, first, second);
    ExecuteConcat(gap, s, first + second, third);
    NoReadsJoin(first, second);
    NoReadsJoin(first + second, third);
    more := first + second + third;
  }

  /** Two open tasks of a wallet are both due once enough time has passed. */
  lemma TwoOpenTasksBreak(gap: nat, s: State, c: nat, d: nat) returns (more: seq<Action>)
    requires gap > 0 && c in s.tasks && d in s.tasks && c != d && s.tasks[c].wallet == s.tasks[d].wallet
    requires IsOpen(s.tasks[c]) && IsOpen(s.tasks[d])
    ensures NoReads(more) && !AllApart(Execute(gap, s, more).snaps, gap)
  {
    hide Execute, AllApart;
    var wait := Tick(gap + Lag(s, s.tasks[c]) + Lag(s, s.tasks[d]));
    var u := Next(gap, s, wait);
    ExecuteOne(gap, s, wait);
    var rest := TwoDueTasksBreak(gap, u, c, d);
    ExecuteConcat(gap, s, [wait], rest);
    more := [wait] + rest;
  }

  /** How far the snapshot an open task saw lies ahead of the clock. */
  function Lag(s: State, t: Task): nat {
    if t.HasRead? && t.latest.Some? && t.latest.value.at > s.clock then t.latest.value.at - s.clock else 0
  }

  /** A read is safe exactly when nothing that follows it, with safe reads only, breaks the spacing. */
  lemma ReadIsSafeExactly(gap: nat, s: State, c: nat)
    requires gap > 0 && Inv(s, gap) && Enabled(s, Read(c))
    ensures SafeRead(gap, s, c) <==>
            forall more :: SafeRun(gap, Next(gap, s, Read(c)), more) ==>
                AllApart(Execute(gap, Next(gap, s, Read(c)), more).snaps, gap)
  {
    var t := Next(gap, s, Read(c));
    if SafeRead(gap, s, c) {
      ReadKeeps(gap, s, c);
      forall more | SafeRun(gap, t, more)
        ensures AllApart(Execute(gap, t, more).snaps, gap)
      {
        SafeRunKeepsInv(gap, t, more);
      }
    } else {
      var more := UnsafeReadBreaks(gap, s, c);
      NoReadsIsSafe(gap, t, more);
    }
  }

  lemma UnsafeReadBreaks(gap: nat, s: State, c: nat) returns (more: seq<Action>)
    requires gap > 0 && Inv(s, gap) && Enabled(s, Read(c)) && !SafeRead(gap, s, c)
    ensures NoReads(more) && !AllApart(Execute(gap, Next(gap, s, Read(c)), more).snaps, gap)
  {
    var t := Next(gap, s, Read(c));
    var d :| d in s.tasks && d != c && s.tasks[d].wallet == s.tasks[c].wallet
          && !(s.tasks[d].Started? || s.tasks[d].Stored? || (s.tasks[d].Stamped? && s.tasks[d].at + gap <= s.clock));
    if !s.tasks[d].Stamped? {
      more := TwoOpenTasksBreak(gap, t, c, d);
    } else {
      NewestIsOld(gap, s, c, d);
      hide Inv, SafeRead, AllApart, Execute, NoReads;
      var first := Hurry(gap, t, c);
      var u := Execute(gap, t, first);
      assert !FarApart(u.tasks[c].at, u.tasks[d].at, gap) by {
        assert s.tasks[d].at <= s.clock;
      }
      var second := InsertBoth(gap, u, c, d);
      ExecuteConcat(gap, t, first, second);
      NoReadsJoin(first, second);
      more := first + second;
    }
  }

  /** Beside a task with a recent timestamp the wallet still reads as due. */
  lemma NewestIsOld(gap: nat, s: State, c: nat, d: nat)
    requires Inv(s, gap) && c in s.tasks && d in s.tasks && s.tasks[d].Stamped?
        && s.tasks[d].wallet == s.tasks[c].wallet
    requires s.tasks[d].at + gap > s.clock
    ensures Due(Latest(s.snaps, s.tasks[c].wallet), s.clock, gap) && s.tasks[d].at <= s.clock
  {
    var wallet := s.tasks[c].wallet;
    assert Known(s, wallet, s.tasks[d].at);
    LatestIsNewest(s.snaps, wallet);
    var latest := Latest(s.snaps, wallet);
    if latest.Some? {
      var i :| 0 <= i < |s.snaps| && s.snaps[i] == latest.value;
      assert Known(s, wallet, s.snaps[i].at);
      assert FarApart(s.snaps[i].at, s.tasks[d].at, gap);
    }
  }

  /** From an empty table two overlapping syncs of a wallet store two snapshots at the same time. */
  lemma OverlapBreaksSpacing(gap: nat, clock: int, wallet: int)
    requires gap > 0
    ensures exists more :: NoReads(more) &&
              !AllApart(
                  Execute(gap, Init(clock), [Begin(0, wallet), Begin(1, wallet), Read(0), Read(1)] + more).snaps, gap)
  {
    var start := [Begin(0, wallet), Begin(1, wallet), Read(0), Read(1)];
    var s := Execute(gap, Init(clock), start);
    var open := HasRead(wallet, None);
    ExecuteFour(gap, Init(clock), start);
    assert s.tasks == map[0 := open, 1 := open];
    hide Execute, AllApart;
    var more := TwoOpenTasksBreak(gap, s, 0, 1);
    ExecuteConcat(gap, Init(clock), start, more);
  }

  lemma ExecuteFour(gap: nat, s: State, a: seq<Action>)
    requires |a| == 4
    ensures Execute(gap, s, a) == Next(gap, Next(gap, Next(gap, Next(gap, s, a[0]), a[1]), a[2]), a[3])
  {
    hide Next;
    assert a[..3][..2] == a[..2] && a[..2][..1] == a[..1] && a[..1][..0] == [];
    assert Execute(gap, s, a[..1]) == Next(gap, s, a[0]);
    assert Execute(gap, s, a[..2]) == Next(gap, Execute(gap, s, a[..1]), a[1]);
    assert Execute(gap, s, a[..3]) == Next(gap, Execute(gap, s, a[..2]), a[2]);
  }

  // ----- One task of a wallet at a time -----

  /** A task between its read and its insert. */
  predicate Pending(t: Task) {
    IsOpen(t) || t.Stamped?
  }

  /** Snapshots are stored in time order, and a wallet has one task between its read and its insert. */
  ghost predicate Ordered(s: State) {
    && (forall i, j :: 0 <= i < j < |s.snaps| && s.snaps[i].wallet == s.snaps[j].wallet ==>
        s.snaps[i].at <= s.snaps[j].at)
    && (forall c, i ::
        (c in s.tasks && s.tasks[c].Stamped? && 0 <= i < |s.snaps| && s.snaps[i].wallet == s.tasks[c].wallet) ==>
          s.snaps[i].at <= s.tasks[c].at)
    && (forall c, d :: c in s.tasks && d in s.tasks && Pending(s.tasks[c]) && Pending(s.tasks[d]) ==>
          s.tasks[c].wallet == s.tasks[d].wallet ==> c == d)
  }

  lemma StampKeepsOrder(gap: nat, s: State, c: nat)
    requires Inv(s, gap) && Ordered(s) && Enabled(s, Stamp(c))
    ensures Ordered(Next(gap, s, Stamp(c)))
  {
    forall i | 0 <= i < |s.snaps| && s.snaps[i].wallet == s.tasks[c].wallet
      ensures s.snaps[i].at <= s.clock
    {
      assert Known(s, s.snaps[i].wallet, s.snaps[i].at);
    }
    hide Inv;
  }

  lemma InsertKeepsOrder(gap: nat, s: State, c: nat, value: real)
    requires Ordered(s) && Enabled(s, Insert(c, value))
    ensures Ordered(Next(gap, s, Insert(c, value)))
  {
  }

  lemma ReadKeepsOrder(gap: nat, s: State, c: nat)
    requires Ordered(s) && Enabled(s, Read(c)) && AloneRead(s, c)
    ensures Ordered(Next(gap, s, Read(c)))
  {
    hide Latest;
  }

  lemma OtherStepKeepsOrder(gap: nat, s: State, a: Action)
    requires Ordered(s) && !a.Read? && !a.Stamp? && !a.Insert?
    ensures Ordered(Next(gap, s, a))
  {
    hide Due;
  }

  lemma StepKeepsOrder(gap: nat, s: State, a: Action)
    requires Inv(s, gap) && Ordered(s) && AloneStep(s, a)
    ensures Inv(Next(gap, s, a), gap) && Ordered(Next(gap, s, a))
  {
    assert SafeStep(gap, s, a);
    StepKeepsInv(gap, s, a);
    if Enabled(s, a) {
      match a
      case Stamp(c) => StampKeepsOrder(gap, s, c);
      case Insert(c, value) => InsertKeepsOrder(gap, s, c, value);
      case Read(c) => ReadKeepsOrder(gap, s, c);
      case _ =>
        hide Inv, Ordered, Next;
        OtherStepKeepsOrder(gap, s, a);
    }
  }

  lemma {:induction false} AloneRunKeepsOrder(gap: nat, clock: int, trace: seq<Action>)
    requires AloneRun(gap, Init(clock), trace)
    ensures var s := Execute(gap, Init(clock), trace); Inv(s, gap) && Ordered(s)
  {
    if trace != [] {
      var n := |trace| - 1;
      AloneRunKeepsOrder(gap, clock, trace[..n]);
      StepKeepsOrder(gap, Execute(gap, Init(clock), trace[..n]), trace[n]);
    }
  }

  lemma {:induction false} OrderedIsSpaced(snaps: seq<Snapshot>, wallet: int, gap: nat)
    requires AllApart(snaps, gap)
    requires forall i, j :: 0 <= i < j < |snaps| && snaps[i].wallet == snaps[j].wallet ==> snaps[i].at <= snaps[j].at
    ensures Spaced(TimesOf(snaps, wallet), gap)
    ensures forall at :: at in TimesOf(snaps, wallet) ==>
        exists i :: 0 <= i < |snaps| && snaps[i].wallet == wallet && snaps[i].at == at
  {
    if snaps != [] {
      var n := |snaps| - 1;
      OrderedIsSpaced(snaps[..n], wallet, gap);
      var before := TimesOf(snaps[..n], wallet);
      forall at | at in before
        ensures exists i :: 0 <= i < n && snaps[i].wallet == wallet && snaps[i].at == at
      {
        var i :| 0 <= i < n && snaps[..n][i].wallet == wallet && snaps[..n][i].at == at;
        assert snaps[i] == snaps[..n][i];
      }
      if snaps[n].wallet == wallet && before != [] {
        assert before[|before| - 1] in before;
        var i :| 0 <= i < n && snaps[i].wallet == wallet && snaps[i].at == before[|before| - 1];
        assert FarApart(snaps[i].at, snaps[n].at, gap);
        SpacedAppend(before, gap, snaps[n].at);
      }
    }
  }

  /**
   * While no task of a wallet reads between the read and the insert of another, the wallet's
   * snapshots are stored in time order and each is at least the interval after the one before.
   */
  lemma AloneRunsStaySpaced(gap: nat, clock: int, trace: seq<Action>, wallet: int)
    requires AloneRun(gap, Init(clock), trace)
    ensures Spaced(TimesOf(Execute(gap, Init(clock), trace).snaps, wallet), gap)
    ensures var snaps := Execute(gap, Init(clock), trace).snaps;
            forall i, j :: 0 <= i < j < |snaps| && snaps[i].wallet == snaps[j].wallet ==>
              snaps[j].at >= snaps[i].at + gap
  {
    AloneRunKeepsOrder(gap, clock, trace);
    var snaps := Execute(gap, Init(clock), trace).snaps;
    forall i, j | 0 <= i < j < |snaps| && snaps[i].wallet == snaps[j].wallet
      ensures snaps[j].at >= snaps[i].at + gap
    {
      assert FarApart(snaps[i].at, snaps[j].at, gap);
    }
    OrderedIsSpaced(Execute(gap, Init(clock), trace).snaps, wallet, gap);
  }
}
