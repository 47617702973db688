/**
 * Transaction indexing for one wallet: any number of `sync_transactions` runs interleave with
 * each other, with new blocks, with failures and with lost cursor writes.  Each database
 * statement and each remote call is one atomic step.
 */
module Indexer {
  import opened Prelude

  type Address = nat

  /** A tracked Transfer log; a transaction hash and a log index identify it on the chain. */
  datatype Log = Log(token: int, from: Address, to: Address, amount: nat, txHash: int, logIndex: nat)

  /** Block number b holds the logs chain[b].  The chain only ever grows at its end. */
  type Chain = seq<seq<Log>>

  datatype Found = Found(block: nat, log: Log)

  datatype Row = Row(txHash: int, logIndex: nat, block: nat, token: int, amount: nat, incoming: bool, from: Address,
      to: Address)

  datatype Config = Config(wallet: Address, tokens: set<int>)

  predicate SameKey(r: Row, q: Row) {
    r.txHash == q.txHash && r.logIndex == q.logIndex
  }

  function RowOf(cfg: Config, f: Found): Row {
    var l := f.log;
    Row(l.txHash, l.logIndex, f.block, l.token, l.amount, l.to == cfg.wallet, l.from, l.to)
  }

  predicate Matches(cfg: Config, l: Log) {
    l.token in cfg.tokens && (l.from == cfg.wallet || l.to == cfg.wallet)
  }

  ghost predicate OnChain(chain: Chain, f: Found) {
    f.block < |chain| && f.log in chain[f.block]
  }

  predicate SameOrigin(l: Log, m: Log) {
    l.txHash == m.txHash && l.logIndex == m.logIndex
  }

  /** No two positions of the chain hold logs with the same hash and index. */
  predicate UniqueKeys(chain: Chain) {
    forall b, i, c, j :: 0 <= b < |chain| && 0 <= i < |chain[b]| && 0 <= c < |chain| && 0 <= j < |chain[c]| ==>
      SameOrigin(chain[b][i], chain[c][j]) ==> b == c && i == j
  }

  lemma SameOriginSameLog(chain: Chain, f: Found, g: Found)
    requires UniqueKeys(chain) && OnChain(chain, f) && OnChain(chain, g) && SameOrigin(f.log, g.log)
    ensures f == g
  {
    var i :| 0 <= i < |chain[f.block]| && chain[f.block][i] == f.log;
    var j :| 0 <= j < |chain[g.block]| && chain[g.block][j] == g.log;
    assert SameOrigin(chain[f.block][i], chain[g.block][j]);
  }

  // ----- Remote log queries -----

  predicate Selected(cfg: Config, l: Log, matchFrom: bool) {
    l.token in cfg.tokens && (if matchFrom then l.from else l.to) == cfg.wallet
  }

  function BlockLogs(cfg: Config, block: seq<Log>, b: nat, matchFrom: bool): seq<Found> {
    if block == [] then []
    else
      var n := |block| - 1;
      BlockLogs(cfg, block[..n], b, matchFrom) + if Selected(cfg, block[n], matchFrom) then [Found(b, block[n])] else []
  }

  /** The answer to a log query over the blocks low..high. */
  function FetchLogs(cfg: Config, chain: Chain, low: nat, high: int, matchFrom: bool): seq<Found>
    requires high < |chain|
    decreases high
  {
    if high < low then []
        else FetchLogs(cfg, chain, low, high - 1, matchFrom) + BlockLogs(cfg, chain[high], high, matchFrom)
  }

  lemma {:induction false} BlockLogsExact(cfg: Config, block: seq<Log>, b: nat, matchFrom: bool, f: Found)
    ensures f in BlockLogs(cfg, block, b, matchFrom) <==>
        f.block == b && f.log in block && Selected(cfg, f.log, matchFrom)
  {
    if block != [] {
      var n := |block| - 1;
      BlockLogsExact(cfg, block[..n], b, matchFrom, f);
      assert block == block[..n] + [block[n]];
    }
  }

  lemma {:induction false} FetchLogsExact(cfg: Config, chain: Chain, low: nat, high: int, matchFrom: bool, f: Found)
    requires high < |chain|
    ensures f in FetchLogs(cfg, chain, low, high, matchFrom) <==>
            && low <= f.block <= high && f.log in chain[f.block]
            && f.log.token in cfg.tokens && cfg.wallet == (if matchFrom then f.log.from else f.log.to)
    decreases high
  {
    if high >= low {
      FetchLogsExact(cfg, chain, low, high - 1, matchFrom, f);
      BlockLogsExact(cfg, chain[high], high, matchFrom, f);
    }
  }

  // ----- The table -----

  predicate HasKey(rows: seq<Row>, r: Row) {
    exists i :: 0 <= i < |rows| && SameKey(rows[i], r)
  }

  /** Insert one row, doing nothing on a key conflict. */
  function InsertRow(rows: seq<Row>, r: Row): seq<Row> {
    if HasKey(rows, r) then rows else rows + [r]
  }

  function InsertAll(cfg: Config, rows: seq<Row>, logs: seq<Found>): seq<Row> {
    if logs == [] then rows
    else InsertRow(InsertAll(cfg, rows, logs[..|logs| - 1]), RowOf(cfg, logs[|logs| - 1]))
  }

  ghost predicate DistinctKeys(rows: seq<Row>) {
    forall i, j :: 0 <= i < j < |rows| ==> !SameKey(rows[i], rows[j])
  }

  /** Inserting keeps the old rows first, adds only the given logs, and leaves no given key out. */
  lemma {:induction false} InsertAllFacts(cfg: Config, rows: seq<Row>, logs: seq<Found>)
    requires DistinctKeys(rows)
    ensures var r := InsertAll(cfg, rows, logs);
            && rows <= r && DistinctKeys(r)
            && (forall q :: q in r ==> q in rows || exists f :: f in logs && q == RowOf(cfg, f))
            && (forall f :: f in logs ==> HasKey(r, RowOf(cfg, f)))
  {
    if logs != [] {
      var n := |logs| - 1;
      InsertAllFacts(cfg, rows, logs[..n]);
      assert logs == logs[..n] + [logs[n]];
      var before := InsertAll(cfg, rows, logs[..n]);
      var after := InsertAll(cfg, rows, logs);
      assert before <= after;
      forall f | f in logs
        ensures HasKey(after, RowOf(cfg, f))
      {
        if f in logs[..n] {
          var i :| 0 <= i < |before| && SameKey(before[i], RowOf(cfg, f));
          assert SameKey(after[i], RowOf(cfg, f));
        } else if after != before {
          assert SameKey(after[|before|], RowOf(cfg, f));
        }
      }
    }
  }

  // ----- The protocol -----

  /** Where a run is, with the block height it was started for. */
  datatype Run =
    | Started(latest: nat)
    | FetchingFrom(latest: nat, start: nat)
    | FetchingTo(latest: nat, start: nat, fromLogs: seq<Found>)
    | Inserting(latest: nat, start: nat, logs: seq<Found>)
    | Writing(latest: nat)

  /** `bootstrap` is a history variable: the highest start block of any run that found no positive cursor. */
  datatype State = State(chain: Chain, rows: seq<Row>, cursor: Option<int>, runs: map<nat, Run>, bootstrap: nat)

  datatype Action =
    | Mine(block: seq<Log>)
    | TouchDaily
    | Begin(run: nat, latest: nat)
    | ReadCursor(run: nat)
    | FetchFrom(run: nat)
    | FetchTo(run: nat)
    | Insert(run: nat)
    | WriteCursor(run: nat, lost: bool)
    | Fail(run: nat)

  function Init(chain: Chain): State {
    State(chain, [], None, map[], 0)
  }

  function LastBlock(cursor: Option<int>, latest: nat): int {
    if cursor.None? then latest else cursor.value
  }

  function StartBlock(last: int, latest: nat): nat {
    if last <= 0 then (if latest >= 500 then latest - 500 else 0) else last + 1
  }

  function Max(a: nat, b: nat): nat {
    if a < b then b else a
  }

  predicate Enabled(s: State, a: Action) {
    match a
    case Mine(block) => UniqueKeys(s.chain + [block])
    case TouchDaily => true
    case Begin(r, latest) => r !in s.runs && 1 <= latest < |s.chain|
    case ReadCursor(r) => r in s.runs && s.runs[r].Started?
    case FetchFrom(r) => r in s.runs && s.runs[r].FetchingFrom? && s.runs[r].latest < |s.chain|
    case FetchTo(r) => r in s.runs && s.runs[r].FetchingTo? && s.runs[r].latest < |s.chain|
    case Insert(r) => r in s.runs && s.runs[r].Inserting?
    case WriteCursor(r, _) => r in s.runs && s.runs[r].Writing?
    case Fail(r) => r in s.runs
  }

  function AfterRead(cfg: Config, latest: nat, start: nat): Run {
    if start > latest || cfg.tokens == {} then Writing(latest) else FetchingFrom(latest, start)
  }

  /** One step; an action that is not possible changes nothing. */
  function Next(cfg: Config, s: State, a: Action): State {
    if !Enabled(s, a) then s
    else match a
      case Mine(block) => s.(chain := s.chain + [block])
      case TouchDaily => s.(cursor := if s.cursor.None? then Some(0) else s.cursor)
      case Begin(r, latest) => s.(runs := s.runs[r := Started(latest)])
      case ReadCursor(r) =>
        var latest := s.runs[r].latest;
        var start := StartBlock(LastBlock(s.cursor, latest), latest);
        var first := s.cursor.None? || s.cursor.value <= 0;
        s.(runs := s.runs[r := AfterRead(cfg, latest, start)],
           bootstrap := if first then Max(s.bootstrap, start) else s.bootstrap)
      case FetchFrom(r) =>
        var u := s.runs[r];
        s.(runs := s.runs[r := FetchingTo(u.latest, u.start, FetchLogs(cfg, s.chain, u.start, u.latest, true))])
      case FetchTo(r) =>
        var u := s.runs[r];
        var all := u.fromLogs + FetchLogs(cfg, s.chain, u.start, u.latest, false);
        s.(runs := s.runs[r := if all == [] then Writing(u.latest) else Inserting(u.latest, u.start, all)])
      case Insert(r) =>
        var u := s.runs[r];
        s.(rows := InsertAll(cfg, s.rows, u.logs), runs := s.runs[r := Writing(u.latest)])
      case WriteCursor(r, lost) =>
        s.(cursor := if lost then s.cursor else Some(s.runs[r].latest), runs := s.runs - {r})
      case Fail(r) => s.(runs := s.runs - {r})
  }

  function Execute(cfg: Config, s: State, trace: seq<Action>): State {
    if trace == [] then s else Next(cfg, Execute(cfg, s, trace[..|trace| - 1]), trace[|trace| - 1])
  }

  // ----- The invariant -----

  /** Every matching log in blocks low..high has its row. */
  ghost predicate Covered(cfg: Config, s: State, low: nat, high: int) {
    forall f :: OnChain(s.chain, f) && low <= f.block <= high && Matches(cfg, f.log) ==> RowOf(cfg, f) in s.rows
  }

  ghost predicate Sound(cfg: Config, s: State) {
    forall r :: r in s.rows ==> exists f :: OnChain(s.chain, f) && Matches(cfg, f.log) && r == RowOf(cfg, f)
  }

  ghost predicate Answers(cfg: Config, chain: Chain, logs: seq<Found>, start: nat, latest: nat, matchFrom: bool) {
    forall f :: f in logs <==> start <= f.block <= latest && OnChain(chain, f) && Selected(cfg, f.log, matchFrom)
  }

  ghost predicate AnswersAll(cfg: Config, chain: Chain, logs: seq<Found>, start: nat, latest: nat) {
    forall f :: f in logs <==> start <= f.block <= latest && OnChain(chain, f) && Matches(cfg, f.log)
  }

  /** What is known about a run at its current step. */
  ghost predicate RunOk(cfg: Config, s: State, u: Run) {
    && 1 <= u.latest < |s.chain|
    && match u
       case Started(_) => true
       case FetchingFrom(latest, start) => start <= latest && Covered(cfg, s, s.bootstrap, start - 1)
       case FetchingTo(latest, start, logs) =>
         start <= latest && Covered(cfg, s, s.bootstrap, start - 1) && Answers(cfg, s.chain, logs, start, latest, true)
       case Inserting(latest, start, logs) =>
         start <= latest && Covered(cfg, s, s.bootstrap, start - 1) && AnswersAll(cfg, s.chain, logs, start, latest)
       case Writing(latest) => Covered(cfg, s, s.bootstrap, latest)
  }

  ghost predicate CursorOk(cfg: Config, s: State) {
    s.cursor.Some? && s.cursor.value > 0 ==>
      s.cursor.value < |s.chain| && Covered(cfg, s, s.bootstrap, s.cursor.value)
  }

  ghost predicate Inv(cfg: Config, s: State) {
    && UniqueKeys(s.chain)
    && DistinctKeys(s.rows)
    && Sound(cfg, s)
    && CursorOk(cfg, s)
    && (forall r :: r in s.runs ==> RunOk(cfg, s, s.runs[r]))
  }

  /** t knows at least what s knew: a longer chain, more rows, a bootstrap no lower. */
  ghost predicate Grows(s: State, t: State) {
    && s.chain <= t.chain
    && s.rows <= t.rows
    && s.bootstrap <= t.bootstrap
  }

  lemma CoveredStays(cfg: Config, s: State, t: State, high: int)
    requires Grows(s, t) && high < |s.chain| && Covered(cfg, s, s.bootstrap, high)
    ensures Covered(cfg, t, t.bootstrap, high)
  {
    forall f | OnChain(t.chain, f) && t.bootstrap <= f.block <= high && Matches(cfg, f.log)
      ensures RowOf(cfg, f) in t.rows
    {
      assert OnChain(s.chain, f);
    }
  }

  lemma OnChainStays(s: Chain, t: Chain, f: Found)
    requires s <= t && f.block < |s|
    ensures OnChain(s, f) <==> OnChain(t, f)
  {
  }

  lemma RunOkStays(cfg: Config, s: State, t: State, u: Run)
    requires Grows(s, t) && RunOk(cfg, s, u)
    ensures RunOk(cfg, t, u)
  {
    forall f: Found | f.block < |s.chain|
      ensures OnChain(s.chain, f) <==> OnChain(t.chain, f)
    {
      OnChainStays(s.chain, t.chain, f);
    }
    hide OnChain, Covered;
    match u
    case Started(_) =>
    case FetchingFrom(_, start) => CoveredStays(cfg, s, t, start - 1);
    case FetchingTo(_, start, _) => CoveredStays(cfg, s, t, start - 1);
    case Inserting(_, start, _) => CoveredStays(cfg, s, t, start - 1);
    case Writing(latest) => CoveredStays(cfg, s, t, latest);
  }

  /** A step that only lets the state grow keeps the invariant of every run it does not touch. */
  lemma GrowthKeeps(cfg: Config, s: State, t: State)
    requires Inv(cfg, s) && Grows(s, t) && UniqueKeys(t.chain) && DistinctKeys(t.rows) && Sound(cfg, t)
    requires t.cursor == s.cursor || CursorOk(cfg, t)
    requires forall r :: r in t.runs ==> (r in s.runs && t.runs[r] == s.runs[r]) || RunOk(cfg, t, t.runs[r])
    ensures Inv(cfg, t)
  {
    hide UniqueKeys, DistinctKeys, Sound, Covered, RunOk, Grows;
    if t.cursor == s.cursor && t.cursor.Some? && t.cursor.value > 0 {
      ChainGrows(s, t);
      CoveredStays(cfg, s, t, t.cursor.value);
    }
    forall r | r in t.runs
      ensures RunOk(cfg, t, t.runs[r])
    {
      if !RunOk(cfg, t, t.runs[r]) {
        RunOkStays(cfg, s, t, s.runs[r]);
      }
    }
  }

  lemma ChainGrows(s: State, t: State)
    requires Grows(s, t)
    ensures |s.chain| <= |t.chain|
  {
  }

  lemma SoundStays(cfg: Config, s: State, t: State)
    requires Sound(cfg, s) && s.chain <= t.chain && s.rows == t.rows
    ensures Sound(cfg, t)
  {
    forall r | r in t.rows
      ensures exists f :: OnChain(t.chain, f) && Matches(cfg, f.log) && r == RowOf(cfg, f)
    {
      var f :| OnChain(s.chain, f) && Matches(cfg, f.log) && r == RowOf(cfg, f);
      assert OnChain(t.chain, f);
    }
  }

  /** Inserting the answers to both queries covers the blocks they were asked for. */
  lemma InsertCovers(cfg: Config, s: State, logs: seq<Found>, start: nat, latest: nat)
    requires UniqueKeys(s.chain) && DistinctKeys(s.rows) && Sound(cfg, s)
    requires AnswersAll(cfg, s.chain, logs, start, latest)
    ensures var t := s.(rows := InsertAll(cfg, s.rows, logs));
            Grows(s, t) && DistinctKeys(t.rows) && Sound(cfg, t) && Covered(cfg, t, start, latest)
  {
    var t := s.(rows := InsertAll(cfg, s.rows, logs));
    InsertAllFacts(cfg, s.rows, logs);
    hide InsertAll, DistinctKeys, UniqueKeys;
    forall f | OnChain(t.chain, f) && start <= f.block <= latest && Matches(cfg, f.log)
      ensures RowOf(cfg, f) in t.rows
    {
      assert HasKey(t.rows, RowOf(cfg, f));
      var i :| 0 <= i < |t.rows| && SameKey(t.rows[i], RowOf(cfg, f));
      assert t.rows[i] in t.rows;
      var g :| OnChain(t.chain, g) && Matches(cfg, g.log) && t.rows[i] == RowOf(cfg, g);
      assert SameKey(RowOf(cfg, g), RowOf(cfg, f));
      SameOriginSameLog(t.chain, f, g);
    }
  }

  lemma CoveredJoins(cfg: Config, s: State, low: nat, mid: nat, high: int)
    requires Covered(cfg, s, low, mid - 1) && Covered(cfg, s, mid, high)
    ensures Covered(cfg, s, low, high)
  {
  }

  lemma ReadCursorOk(cfg: Config, s: State, r: nat)
    requires Inv(cfg, s) && Enabled(s, ReadCursor(r))
    ensures var t := Next(cfg, s, ReadCursor(r)); Grows(s, t) && RunOk(cfg, t, t.runs[r])
  {
    var t := Next(cfg, s, ReadCursor(r));
    var latest := s.runs[r].latest;
    var start := StartBlock(LastBlock(s.cursor, latest), latest);
    assert RunOk(cfg, s, s.runs[r]);
    if s.cursor.Some? && s.cursor.value > 0 {
      assert t.bootstrap == s.bootstrap && start == s.cursor.value + 1;
      assert Covered(cfg, t, t.bootstrap, start - 1);
    } else {
      assert start <= t.bootstrap;
      assert Covered(cfg, t, t.bootstrap, start - 1);
    }
    if start > latest {
      assert Covered(cfg, t, t.bootstrap, latest);
    } else if cfg.tokens == {} {
      assert forall l :: !Matches(cfg, l);
    }
  }

  lemma FetchFromOk(cfg: Config, s: State, r: nat)
    requires Inv(cfg, s) && Enabled(s, FetchFrom(r))
    ensures var t := Next(cfg, s, FetchFrom(r)); Grows(s, t) && RunOk(cfg, t, t.runs[r])
  {
    var u := s.runs[r];
    assert RunOk(cfg, s, u);
    forall f
      ensures f in FetchLogs(cfg, s.chain, u.start, u.latest, true) <==>
              u.start <= f.block <= u.latest && OnChain(s.chain, f) && Selected(cfg, f.log, true)
    {
      FetchLogsExact(cfg, s.chain, u.start, u.latest, true, f);
    }
  }

  lemma FetchToOk(cfg: Config, s: State, r: nat)
    requires Inv(cfg, s) && Enabled(s, FetchTo(r))
    ensures var t := Next(cfg, s, FetchTo(r)); Grows(s, t) && RunOk(cfg, t, t.runs[r])
  {
    var u := s.runs[r];
    var more := FetchLogs(cfg, s.chain, u.start, u.latest, false);
    assert RunOk(cfg, s, u);
    forall f
      ensures f in u.fromLogs + more <==> u.start <= f.block <= u.latest && OnChain(s.chain, f) && Matches(cfg, f.log)
    {
      FetchLogsExact(cfg, s.chain, u.start, u.latest, false, f);
    }
    if u.fromLogs + more == [] {
      assert Covered(cfg, s, u.start, u.latest);
      CoveredJoins(cfg, s, s.bootstrap, u.start, u.latest);
    }
  }

  lemma InsertOk(cfg: Config, s: State, r: nat)
    requires Inv(cfg, s) && Enabled(s, Insert(r))
    ensures var t := Next(cfg, s, Insert(r));
            Grows(s, t) && RunOk(cfg, t, t.runs[r]) && DistinctKeys(t.rows) && Sound(cfg, t)
  {
    var u := s.runs[r];
    assert RunOk(cfg, s, u);
    InsertCovers(cfg, s, u.logs, u.start, u.latest);
    var m := s.(rows := InsertAll(cfg, s.rows, u.logs));
    CoveredStays(cfg, s, m, u.start - 1);
    CoveredJoins(cfg, m, m.bootstrap, u.start, u.latest);
    var t := Next(cfg, s, Insert(r));
    assert t.rows == m.rows && t.chain == m.chain;
    assert Covered(cfg, t, t.bootstrap, u.latest);
  }

  lemma WriteCursorOk(cfg: Config, s: State, r: nat, lost: bool)
    requires Inv(cfg, s) && Enabled(s, WriteCursor(r, lost))
    ensures var t := Next(cfg, s, WriteCursor(r, lost));
            Grows(s, t) && (t.cursor == s.cursor || CursorOk(cfg, t))
  {
    assert RunOk(cfg, s, s.runs[r]);
  }

  /** What a step changes, other than the runs it leaves alone. */
  lemma StepEffect(cfg: Config, s: State, a: Action)
    requires Inv(cfg, s) && Enabled(s, a)
    ensures var t := Next(cfg, s, a);
            && Grows(s, t)
            && (t.cursor == s.cursor || CursorOk(cfg, t))
            && (t.rows == s.rows || (DistinctKeys(t.rows) && Sound(cfg, t)))
            && (t.chain == s.chain || UniqueKeys(t.chain))
            && (forall r :: r in t.runs ==> (r in s.runs && t.runs[r] == s.runs[r]) || RunOk(cfg, t, t.runs[r]))
  {
    hide UniqueKeys, Sound, DistinctKeys, Covered, InsertAll, FetchLogs, AfterRead;
    match a
    case Mine(block) =>
    case TouchDaily =>
    case Begin(r, latest) =>
    case ReadCursor(r) => ReadCursorOk(cfg, s, r);
    case FetchFrom(r) => FetchFromOk(cfg, s, r);
    case FetchTo(r) => FetchToOk(cfg, s, r);
    case Insert(r) => InsertOk(cfg, s, r);
    case WriteCursor(r, lost) => WriteCursorOk(cfg, s, r, lost);
    case Fail(r) =>
  }

  /** Every step keeps the invariant and only adds to what is known. */
  lemma StepKeepsInv(cfg: Config, s: State, a: Action)
    requires Inv(cfg, s)
    ensures Inv(cfg, Next(cfg, s, a)) && Grows(s, Next(cfg, s, a))
  {
    if Enabled(s, a) {
      var t := Next(cfg, s, a);
      StepEffect(cfg, s, a);
      hide Next, Enabled, CursorOk, Covered, UniqueKeys, DistinctKeys, Sound, RunOk;
      if t.rows == s.rows {
        ChainKept(s, t);
        SoundStays(cfg, s, t);
      }
      GrowthKeeps(cfg, s, t);
    }
  }

  lemma ChainKept(s: State, t: State)
    requires Grows(s, t)
    ensures s.chain <= t.chain
  {
  }

  lemma {:induction false} ReachableInv(cfg: Config, chain: Chain, trace: seq<Action>)
    requires UniqueKeys(chain)
    ensures Inv(cfg, Execute(cfg, Init(chain), trace))
  {
    if trace != [] {
      ReachableInv(cfg, chain, trace[..|trace| - 1]);
      StepKeepsInv(cfg, Execute(cfg, Init(chain), trace[..|trace| - 1]), trace[|trace| - 1]);
    }
  }

  /** The table holds the row of f, and no second row with its key. */
  ghost predicate ExactlyOnce(cfg: Config, rows: seq<Row>, f: Found) {
    exists i :: 0 <= i < |rows| && rows[i] == RowOf(cfg, f) &&
      forall j :: 0 <= j < |rows| && SameKey(rows[j], RowOf(cfg, f)) ==> j == i
  }

  /**
   * No gap and no duplicate.  In every reachable state with a positive cursor, each matching
   * log from the highest bootstrap start up to the cursor is in the table exactly once, and
   * the table holds nothing that is not on the chain.
   */
  lemma NoGapNoDuplicate(cfg: Config, chain: Chain, trace: seq<Action>)
    requires UniqueKeys(chain)
    ensures var s := Execute(cfg, Init(chain), trace);
            && (s.cursor.Some? && s.cursor.value > 0 ==>
                  s.cursor.value < |s.chain| &&
                  forall f ::
                    (OnChain(s.chain, f) && s.bootstrap <= f.block <= s.cursor.value && f.log.token in cfg.tokens
                     && (f.log.from == cfg.wallet || f.log.to == cfg.wallet)) ==> ExactlyOnce(cfg, s.rows, f))
            && Sound(cfg, s)
            && (forall i, j :: 0 <= i < j < |s.rows| ==>
                  s.rows[i].txHash != s.rows[j].txHash || s.rows[i].logIndex != s.rows[j].logIndex)
  {
    ReachableInv(cfg, chain, trace);
    var s := Execute(cfg, Init(chain), trace);
    assert forall i, j :: 0 <= i < j < |s.rows| ==> !SameKey(s.rows[i], s.rows[j]);
    if s.cursor.Some? && s.cursor.value > 0 {
      forall f | OnChain(s.chain, f) && s.bootstrap <= f.block <= s.cursor.value && Matches(cfg, f.log)
        ensures ExactlyOnce(cfg, s.rows, f)
      {
        assert RowOf(cfg, f) in s.rows;
        var i :| 0 <= i < |s.rows| && s.rows[i] == RowOf(cfg, f);
      }
    }
  }

  /** Rows are never lost and the chain only grows, along any run. */
  lemma {:induction false} ExecuteGrows(cfg: Config, s: State, trace: seq<Action>)
    requires Inv(cfg, s)
    ensures Inv(cfg, Execute(cfg, s, trace)) && Grows(s, Execute(cfg, s, trace))
  {
    if trace != [] {
      ExecuteGrows(cfg, s, trace[..|trace| - 1]);
      StepKeepsInv(cfg, Execute(cfg, s, trace[..|trace| - 1]), trace[|trace| - 1]);
    }
  }

  /** Once the cursor is positive it stays positive and the covered range keeps its lower end. */
  lemma {:induction false} BootstrapSettles(cfg: Config, s: State, trace: seq<Action>)
    requires Inv(cfg, s) && s.cursor.Some? && s.cursor.value > 0
    ensures var t := Execute(cfg, s, trace);
            t.bootstrap == s.bootstrap && t.cursor.Some? && t.cursor.value > 0
  {
    if trace != [] {
      var u := Execute(cfg, s, trace[..|trace| - 1]);
      BootstrapSettles(cfg, s, trace[..|trace| - 1]);
      ExecuteGrows(cfg, s, trace[..|trace| - 1]);
      var a := trace[|trace| - 1];
      if a.WriteCursor? && Enabled(u, a) {
        assert RunOk(cfg, u, u.runs[a.run]);
      }
    }
  }

  lemma ExecuteAppend(cfg: Config, s: State, trace: seq<Action>, a: Action)
    ensures Execute(cfg, s, trace + [a]) == Next(cfg, Execute(cfg, s, trace), a)
  {
    assert (trace + [a])[..|trace|] == trace;
  }

  // ----- What one run stores -----

  /**
   * What a run has to do once it has read the cursor: nothing without a row, the last 500 blocks
   * at a row without progress, else the blocks after the cursor.
   */
  lemma ReadCursorExactly(cfg: Config, s: State, r: nat)
    requires Enabled(s, ReadCursor(r)) && s.runs[r].latest >= 1
    ensures var latest := s.runs[r].latest;
            Next(cfg, s, ReadCursor(r)).runs == s.runs[r :=
              if s.cursor.None? || cfg.tokens == {} || s.cursor.value >= latest then Writing(latest)
              else if s.cursor.value > 0 then FetchingFrom(latest, s.cursor.value + 1)
              else FetchingFrom(latest, if latest < 500 then 0 else latest - 500)]
  {
  }

  /** Run r is past its read, answers for the blocks low..latest, and has them in the table before its cursor write. */
  ghost predicate Underway(cfg: Config, s: State, r: nat, low: nat, latest: nat) {
    r in s.runs && s.runs[r].latest == latest &&
    match s.runs[r]
    case Started(_) => false
    case Writing(_) => Covered(cfg, s, low, latest)
    case u => u.start == low
  }

  /** The steps that end a run. */
  predicate Ends(a: Action, r: nat) {
    a == Fail(r) || (a.WriteCursor? && a.run == r)
  }

  lemma CoveredGrows(cfg: Config, s: State, t: State, low: nat, high: int)
    requires Grows(s, t) && high < |s.chain| && Covered(cfg, s, low, high)
    ensures Covered(cfg, t, low, high)
  {
    forall f | OnChain(t.chain, f) && low <= f.block <= high && Matches(cfg, f.log)
      ensures RowOf(cfg, f) in t.rows
    {
      OnChainStays(s.chain, t.chain, f);
    }
  }

  lemma FetchToCovers(cfg: Config, s: State, r: nat)
    requires Inv(cfg, s) && Enabled(s, FetchTo(r))
    ensures Underway(cfg, Next(cfg, s, FetchTo(r)), r, s.runs[r].start, s.runs[r].latest)
  {
    var u := s.runs[r];
    var more := FetchLogs(cfg, s.chain, u.start, u.latest, false);
    assert RunOk(cfg, s, u);
    if u.fromLogs + more == [] {
      forall f | OnChain(s.chain, f) && u.start <= f.block <= u.latest
        ensures !Matches(cfg, f.log)
      {
        FetchLogsExact(cfg, s.chain, u.start, u.latest, false, f);
        assert f !in u.fromLogs && f !in more;
      }
    }
  }

  lemma InsertCoversRun(cfg: Config, s: State, r: nat)
    requires Inv(cfg, s) && Enabled(s, Insert(r))
    ensures Underway(cfg, Next(cfg, s, Insert(r)), r, s.runs[r].start, s.runs[r].latest)
  {
    var u := s.runs[r];
    assert RunOk(cfg, s, u);
    InsertCovers(cfg, s, u.logs, u.start, u.latest);
    hide InsertAll, Matches;
  }

  /** Where a step of others leaves a run, and what a step of its own does. */
  lemma UnderwayStep(cfg: Config, s: State, a: Action, r: nat, low: nat, latest: nat)
    requires Inv(cfg, s) && Underway(cfg, s, r, low, latest) && !Ends(a, r)
    ensures Underway(cfg, Next(cfg, s, a), r, low, latest)
  {
    if Enabled(s, a) {
      assert RunOk(cfg, s, s.runs[r]);
      if a == FetchTo(r) {
        FetchToCovers(cfg, s, r);
      } else if a == Insert(r) {
        InsertCoversRun(cfg, s, r);
      } else {
        StepKeepsInv(cfg, s, a);
        hide Inv, RunOk, Grows, FetchLogs, InsertAll, UniqueKeys, AfterRead, Covered;
        var t := Next(cfg, s, a);
        if s.runs[r].Writing? {
          CoveredGrows(cfg, s, t, low, latest);
        }
      }
    }
  }

  lemma {:induction false} UnderwayRun(cfg: Config, s: State, more: seq<Action>, r: nat, low: nat, latest: nat)
    requires Inv(cfg, s) && Underway(cfg, s, r, low, latest) && forall a :: a in more ==> !Ends(a, r)
    ensures Underway(cfg, Execute(cfg, s, more), r, low, latest)
  {
    if more != [] {
      var n := |more| - 1;
      hide Next, Underway, Ends, Inv;
      UnderwayRun(cfg, s, more[..n], r, low, latest);
      ExecuteGrows(cfg, s, more[..n]);
      assert more[n] in more;
      UnderwayStep(cfg, Execute(cfg, s, more[..n]), more[n], r, low, latest);
    }
  }

  lemma {:induction false} ExecuteConcat(cfg: Config, s: State, t: seq<Action>, more: seq<Action>)
    ensures Execute(cfg, s, t + more) == Execute(cfg, Execute(cfg, s, t), more)
  {
    hide Next;
    if more == [] {
      assert t + more == t;
    } else {
      ExecuteConcat(cfg, s, t, more[..|more| - 1]);
      assert (t + more)[..|t + more| - 1] == t + more[..|more| - 1];
    }
  }

  lemma ReadUnderway(cfg: Config, s: State, r: nat, low: nat)
    requires Inv(cfg, s) && Enabled(s, ReadCursor(r)) && s.cursor.Some?
    requires low == if s.cursor.value > 0 then s.cursor.value + 1
                    else if s.runs[r].latest < 500 then 0 else s.runs[r].latest - 500
    ensures Underway(cfg, Next(cfg, s, ReadCursor(r)), r, low, s.runs[r].latest)
  {
    assert RunOk(cfg, s, s.runs[r]);
    ReadCursorExactly(cfg, s, r);
    hide Inv;
  }

  /**
   * In every interleaving, from a run's read of the cursor to its cursor write: if it read a row
   * without progress, every matching log of the last 500 blocks before its head and of the head
   * is in the table; if it read a positive value v, every one of the blocks v + 1..head.
   */
  lemma RunStores(cfg: Config, chain: Chain, trace: seq<Action>, k: nat, m: nat, r: nat, low: nat)
    requires UniqueKeys(chain) && k < m < |trace| && trace[k] == ReadCursor(r)
    requires Enabled(Execute(cfg, Init(chain), trace[..k]), trace[k])
    requires forall j :: k < j < m ==> !Ends(trace[j], r)
    requires var before, s := Execute(cfg, Init(chain), trace[..k]), Execute(cfg, Init(chain), trace[..m]);
             && r in s.runs && s.runs[r].Writing? && before.cursor.Some?
             && low == if before.cursor.value > 0 then before.cursor.value + 1
                       else if before.runs[r].latest < 500 then 0 else before.runs[r].latest - 500
    ensures var s := Execute(cfg, Init(chain), trace[..m]);
            forall f ::
              (OnChain(s.chain, f) && low <= f.block <= s.runs[r].latest && f.log.token in cfg.tokens
               && (f.log.from == cfg.wallet || f.log.to == cfg.wallet)) ==> RowOf(cfg, f) in s.rows
  {
    hide Execute, Next, Inv, UniqueKeys;
    var before := Execute(cfg, Init(chain), trace[..k]);
    var latest := before.runs[r].latest;
    ReachableInv(cfg, chain, trace[..k]);
    ReadUnderway(cfg, before, r, low);
    assert trace[..k + 1] == trace[..k] + [trace[k]];
    ExecuteAppend(cfg, Init(chain), trace[..k], trace[k]);
    var read := Execute(cfg, Init(chain), trace[..k + 1]);
    assert trace[..m] == trace[..k + 1] + trace[k + 1..m];
    ExecuteConcat(cfg, Init(chain), trace[..k + 1], trace[k + 1..m]);
    ReachableInv(cfg, chain, trace[..k + 1]);
    UnderwayRun(cfg, read, trace[k + 1..m], r, low, latest);
  }

  /** A run that finds no cursor row starts after the head it was told, so it goes straight to its cursor write. */
  lemma FirstRunWrites(cfg: Config, s: State, r: nat)
    requires s.cursor.None? && Enabled(s, ReadCursor(r)) && s.runs[r].latest >= 1
    ensures var t := Next(cfg, s, ReadCursor(r));
            t.runs == s.runs[r := Writing(s.runs[r].latest)] && t.cursor == s.cursor
  {
  }

  /**
   * The cursor can move backwards, whatever the tokens: two runs for the heads low and high
   * start on an empty table, and the one for the lower head writes last.
   */
  lemma CursorMovesBack(cfg: Config, chain: Chain, low: nat, high: nat)
    requires 1 <= low < high < |chain|
    ensures var trace := [Begin(0, low), Begin(1, high), ReadCursor(0), ReadCursor(1), WriteCursor(1, false)];
            Execute(cfg, Init(chain), trace).cursor == Some(high) &&
            Execute(cfg, Init(chain), trace + [WriteCursor(0, false)]).cursor == Some(low)
  {
    var s0 := Init(chain);
    var s2 := s0.(runs := map[0 := Started(low), 1 := Started(high)]);
    var t2 := [Begin(0, low), Begin(1, high)];
    assert Execute(cfg, s0, t2) == s2 by {
      ExecuteTwo(cfg, s0, Begin(0, low), Begin(1, high));
      assert s0.runs[0 := Started(low)][1 := Started(high)] == s2.runs;
    }
    FirstRunWrites(cfg, s2, 0);
    var s3 := Next(cfg, s2, ReadCursor(0));
    FirstRunWrites(cfg, s3, 1);
    var s4 := Next(cfg, s3, ReadCursor(1));
    var s5 := Next(cfg, s4, WriteCursor(1, false));
    assert s5.cursor == Some(high) && 0 in s5.runs && s5.runs[0] == Writing(low);
    assert Next(cfg, s5, WriteCursor(0, false)).cursor == Some(low);
    hide Next;
    var t3, t4 := t2 + [ReadCursor(0)], t2 + [ReadCursor(0)] + [ReadCursor(1)];
    var t5 := t4 + [WriteCursor(1, false)];
    ExecuteAppend(cfg, s0, t2, ReadCursor(0));
    ExecuteAppend(cfg, s0, t3, ReadCursor(1));
    ExecuteAppend(cfg, s0, t4, WriteCursor(1, false));
    ExecuteAppend(cfg, s0, t5, WriteCursor(0, false));
    assert t5 == [Begin(0, low), Begin(1, high), ReadCursor(0), ReadCursor(1), WriteCursor(1, false)];
  }

  lemma ExecuteTwo(cfg: Config, s: State, a: Action, b: Action)
    ensures Execute(cfg, s, [a, b]) == Next(cfg, Next(cfg, s, a), b)
  {
    hide Next;
    ExecuteAppend(cfg, s, [], a);
    ExecuteAppend(cfg, s, [a], b);
    assert [] + [a] == [a] && [a] + [b] == [a, b];
  }
}

/** The program's own form of one run, tied to the protocol step by step. */
module IndexerService {
  import opened Indexer
  import opened Prelude

  function RowsOf(cfg: Config, logs: seq<Found>): seq<Row> {
    if logs == [] then [] else RowsOf(cfg, logs[..|logs| - 1]) + [RowOf(cfg, logs[|logs| - 1])]
  }

  /** Inserting rows one by one, each ignored on a key conflict. */
  function InsertRows(rows: seq<Row>, txs: seq<Row>): seq<Row> {
    if txs == [] then rows else InsertRow(InsertRows(rows, txs[..|txs| - 1]), txs[|txs| - 1])
  }

  lemma {:induction false} InsertRowsIsInsertAll(cfg: Config, rows: seq<Row>, logs: seq<Found>)
    ensures |RowsOf(cfg, logs)| == |logs|
    ensures InsertRows(rows, RowsOf(cfg, logs)) == InsertAll(cfg, rows, logs)
  {
    if logs != [] {
      InsertRowsIsInsertAll(cfg, rows, logs[..|logs| - 1]);
      assert RowsOf(cfg, logs)[..|logs| - 1] == RowsOf(cfg, logs[..|logs| - 1]);
    }
  }

  /** The run that takes a step, if it is a run's. */
  function RunOf(a: Action): Option<nat> {
    match a
    case Mine(_) => None
    case TouchDaily => None
    case _ => Some(a.run)
  }

  function PlaceOf(s: State, r: nat): Option<Run> {
    if r in s.runs then Some(s.runs[r]) else None
  }

  /** The steps of others do not move run r. */
  lemma OthersStay(cfg: Config, s: State, a: Action, r: nat)
    requires RunOf(a) != Some(r)
    ensures PlaceOf(Next(cfg, s, a), r) == PlaceOf(s, r)
  {
    hide FetchLogs, InsertAll, UniqueKeys, AfterRead;
  }

  /** What the second query does to its run. */
  lemma FetchToIs(cfg: Config, s: State, r: nat)
    requires Inv(cfg, s) && r in s.runs && s.runs[r].FetchingTo?
    ensures s.runs[r].latest < |s.chain|
    ensures var u := s.runs[r];
            var all := u.fromLogs + FetchLogs(cfg, s.chain, u.start, u.latest, false);
            Next(cfg, s, FetchTo(r)) ==
              s.(runs := s.runs[r := if all == [] then Writing(u.latest) else Inserting(u.latest, u.start, all)])
  {
    assert RunOk(cfg, s, s.runs[r]);
    hide FetchLogs, Covered, Answers, UniqueKeys, DistinctKeys, Sound, CursorOk;
  }

  lemma GrowsTrans(s: State, t: State, u: State)
    requires Grows(s, t) && Grows(t, u)
    ensures Grows(s, u)
  {
  }

  /** `runs` and `bootstrap` are history: where every run is, and the highest start of a first run. */
  class Service {
    const cfg: Config
    var chain: Chain
    var rows: seq<Row>
    var cursor: Option<int>
    var runs: map<nat, Run>
    var bootstrap: nat
    const start: Chain
    ghost var trace: seq<Action>

    function Abs(): State
      reads this`chain, this`rows, this`cursor, this`runs, this`bootstrap
    {
      State(chain, rows, cursor, runs, bootstrap)
    }

    /** The tables are those of the protocol state reached by the trace. */
    ghost predicate Valid()
      reads this
    {
      UniqueKeys(start) && Abs() == Execute(cfg, Init(start), trace)
    }

    /** Run r is at this step. */
    predicate At(r: nat, u: Run)
      reads this`runs
    {
      r in runs && runs[r] == u
    }

    constructor (cfg: Config, chain: Chain)
      requires UniqueKeys(chain)
      ensures Valid() && this.cfg == cfg && Abs() == Init(chain) && start == chain && trace == []
    {
      this.cfg := cfg;
      this.chain, start := chain, chain;
      rows, cursor, runs, bootstrap := [], None, map[], 0;
      trace := [];
    }

    /** The protocol's invariant holds of the tables. */
    lemma InvHolds()
      requires Valid()
      ensures Inv(cfg, Abs())
    {
      ReachableInv(cfg, start, trace);
    }

    /** Records a step whose effect on the tables has been made. */
    ghost method Record(before: State, a: Action)
      requires UniqueKeys(start) && before == Execute(cfg, Init(start), trace) && Abs() == Next(cfg, before, a)
      modifies this`trace
      ensures Valid() && Grows(before, Abs()) && trace == old(trace) + [a]
    {
      hide Execute, Next, Inv, Grows, UniqueKeys;
      ReachableInv(cfg, start, trace);
      StepKeepsInv(cfg, before, a);
      ExecuteAppend(cfg, Init(start), trace, a);
      trace := trace + [a];
    }

    /** Any number of steps of other runs and of the chain. */
    method Others(r: nat)
      requires Valid()
      modifies this
      ensures Valid() && Grows(old(Abs()), Abs()) && PlaceOf(Abs(), r) == old(PlaceOf(Abs(), r))
      ensures Elsewhere(r, old(trace))
    {
      hide Execute, Next, Enabled, Grows, PlaceOf, UniqueKeys, RunOf;
      ghost var s, t := Abs(), trace;
      GrowsSelf(s);
      var n: nat :| n >= 0;
      for i := 0 to n
        invariant Valid() && Grows(s, Abs()) && PlaceOf(Abs(), r) == PlaceOf(s, r) && Elsewhere(r, t)
      {
        var a: Action := *;
        if RunOf(a) != Some(r) {
          ghost var before := Abs();
          var after := Next(cfg, Abs(), a);
          OthersStay(cfg, before, a, r);
          chain, rows, cursor, runs, bootstrap := after.chain, after.rows, after.cursor, after.runs, after.bootstrap;
          Record(before, a);
          GrowsTrans(s, before, Abs());
        }
      }
    }

    /** Since then run r took no step. */
    ghost predicate Elsewhere(r: nat, t: seq<Action>)
      reads this`trace
    {
      t <= trace && forall k :: |t| <= k < |trace| ==> RunOf(trace[k]) != Some(r)
    }

    /** Since then run r asked for no logs. */
    ghost predicate NoQuery(r: nat, t: seq<Action>)
      reads this`trace
    {
      t <= trace && forall k :: |t| <= k < |trace| ==> trace[k] != FetchFrom(r) && trace[k] != FetchTo(r)
    }

    /** Since then run r read the cursor, which had this value. */
    ghost predicate HasSeen(r: nat, seen: Option<int>, t: seq<Action>)
      reads this`trace
    {
      && t <= trace
      && exists k :: |t| <= k < |trace| && trace[k] == ReadCursor(r)
                     && Execute(cfg, Init(start), trace[..k]).cursor == seen
    }

    lemma SeenStays(r: nat, seen: Option<int>, t: seq<Action>, steps: seq<Action>, k: nat)
      requires t <= steps <= trace && |t| <= k < |steps| && steps[k] == ReadCursor(r)
      requires Execute(cfg, Init(start), steps[..k]).cursor == seen
      ensures HasSeen(r, seen, t)
    {
      hide Execute;
      assert steps[..k] == trace[..k];
    }

    lemma GrowsSelf(s: State)
      ensures Grows(s, s)
    {
    }

    // ----- The statements -----

    /** All rows in one transaction: committed together or not at all. */
    method InsertTransactions(txs: seq<Row>) returns (ok: bool)
      modifies this`rows
      ensures rows == if ok then InsertRows(old(rows), txs) else old(rows)
    {
      if txs == [] {
        return true;
      }
      var pending := rows;
      for i := 0 to |txs|
        invariant pending == InsertRows(rows, txs[..i])
        invariant rows == old(rows)
      {
        assert txs[..i + 1][..i] == txs[..i];
        if !HasKey(pending, txs[i]) {
          pending := pending + [txs[i]];
        }
      }
      assert txs[..|txs|] == txs;
      ok := *;
      if ok {
        rows := pending;
      }
    }

    /** The cursor upsert; its error is swallowed by the caller. */
    method UpdateLastTxBlock(block: nat) returns (lost: bool)
      modifies this`cursor
      ensures cursor == if lost then old(cursor) else Some(block)
    {
      lost := *;
      if !lost {
        cursor := Some(block);
      }
    }

    /** The daily-snapshot upsert creates the cursor row with block 0 when it is missing. */
    method UpdateLastDailySnapshot()
      requires Valid()
      modifies this`cursor, this`trace
      ensures Valid() && Abs() == Next(cfg, old(Abs()), TouchDaily)
      ensures cursor == if old(cursor).None? then Some(0) else old(cursor)
    {
      hide Execute, UniqueKeys;
      ghost var before := Abs();
      if cursor.None? {
        cursor := Some(0);
      }
      Record(before, TouchDaily);
    }

    /** Turns the logs into rows, skipping tokens that are not configured. */
    method BuildRows(logs: seq<Found>) returns (txs: seq<Row>)
      requires forall f: Found :: f in logs ==> f.log.token in cfg.tokens
      ensures txs == RowsOf(cfg, logs)
      ensures |txs| == |logs| && forall i :: 0 <= i < |logs| ==>
                var f := logs[i]; var l := f.log;
                txs[i] == Row(l.txHash, l.logIndex, f.block, l.token, l.amount, l.to == cfg.wallet, l.from, l.to)
    {
      txs := [];
      for i := 0 to |logs|
        invariant txs == RowsOf(cfg, logs[..i]) && |txs| == i
        invariant forall j :: 0 <= j < i ==>
                    var f := logs[j]; var l := f.log;
                    txs[j] == Row(l.txHash, l.logIndex, f.block, l.token, l.amount, l.to == cfg.wallet, l.from, l.to)
      {
        var f := logs[i];
        assert logs[..i + 1][..i] == logs[..i];
        if f.log.token !in cfg.tokens {
          continue;
        }
        var incoming := if f.log.to == cfg.wallet then true else false;
        txs := txs + [Row(f.log.txHash, f.log.logIndex, f.block, f.log.token, f.log.amount, incoming, f.log.from,
            f.log.to)];
      }
      assert logs[..|logs|] == logs;
    }

    // ----- One run -----

    /** The run ends early. */
    method Stop(r: nat)
      requires Valid() && r in runs
      modifies this`runs, this`trace
      ensures Valid() && Grows(old(Abs()), Abs()) && trace == old(trace) + [Fail(r)]
    {
      hide Execute, UniqueKeys, Grows;
      ghost var before := Abs();
      runs := runs - {r};
      Record(before, Fail(r));
    }

    method BeginRun(r: nat, latest: nat)
      requires Valid() && r !in runs && 1 <= latest < |chain|
      modifies this`runs, this`trace
      ensures Valid() && Grows(old(Abs()), Abs()) && At(r, Started(latest)) && trace == old(trace) + [Begin(r, latest)]
    {
      hide Execute, UniqueKeys, Grows;
      ghost var before := Abs();
      runs := runs[r := Started(latest)];
      Record(before, Begin(r, latest));
    }

    /**
     * Reads the cursor and picks the first block to query: no query without a row, the last 500
     * blocks at a row without progress, else the blocks after the cursor.
     */
    method ChooseStart(r: nat, latest: nat) returns (startBlock: nat)
      requires Valid() && At(r, Started(latest))
      modifies this`runs, this`bootstrap, this`trace
      ensures Valid() && Grows(old(Abs()), Abs()) && trace == old(trace) + [ReadCursor(r)]
      ensures cursor.None? ==> startBlock == latest + 1
      ensures cursor.Some? && cursor.value > 0 ==> startBlock == cursor.value + 1
      ensures cursor.Some? && cursor.value <= 0 ==> startBlock == if latest >= 500 then latest - 500 else 0
      ensures At(r, if startBlock > latest || cfg.tokens == {} then Writing(latest)
                    else FetchingFrom(latest, startBlock))
      ensures bootstrap == if cursor.None? || cursor.value <= 0 then Max(old(bootstrap), startBlock) else old(bootstrap)
    {
      InvHolds();
      assert RunOk(cfg, Abs(), runs[r]);
      hide Execute, UniqueKeys, Grows, Inv;
      ghost var before := Abs();
      var lastBlock := if cursor.None? then latest else cursor.value;
      startBlock := if lastBlock <= 0 then (if latest >= 500 then latest - 500 else 0) else lastBlock + 1;
      bootstrap := if cursor.None? || cursor.value <= 0 then Max(bootstrap, startBlock) else bootstrap;
      runs := runs[r := AfterRead(cfg, latest, startBlock)];
      Record(before, ReadCursor(r));
    }

    lemma OutgoingExact(low: nat, high: int)
      requires high < |chain|
      ensures forall f :: f in FetchLogs(cfg, chain, low, high, true) <==>
                low <= f.block <= high && OnChain(chain, f) && f.log.token in cfg.tokens && f.log.from == cfg.wallet
    {
      forall f: Found
        ensures f in FetchLogs(cfg, chain, low, high, true) <==>
                low <= f.block <= high && OnChain(chain, f) && f.log.token in cfg.tokens && f.log.from == cfg.wallet
      {
        FetchLogsExact(cfg, chain, low, high, true, f);
      }
    }

    /** The query for outgoing transfers. */
    method FetchOutgoing(r: nat, latest: nat, startBlock: nat) returns (fromLogs: seq<Found>)
      requires Valid() && At(r, FetchingFrom(latest, startBlock))
      modifies this`runs, this`trace
      ensures Valid() && Grows(old(Abs()), Abs()) && At(r, FetchingTo(latest, startBlock, fromLogs))
      ensures trace == old(trace) + [FetchFrom(r)]
      ensures forall f :: f in fromLogs <==>
                && startBlock <= f.block <= latest && OnChain(chain, f)
                && f.log.token in cfg.tokens && f.log.from == cfg.wallet
    {
      InvHolds();
      assert RunOk(cfg, Abs(), runs[r]);
      OutgoingExact(startBlock, latest);
      hide Execute, UniqueKeys, Grows, FetchLogs, Inv;
      ghost var before := Abs();
      fromLogs := FetchLogs(cfg, chain, startBlock, latest, true);
      runs := runs[r := FetchingTo(latest, startBlock, fromLogs)];
      Record(before, FetchFrom(r));
    }

    /** The query for incoming transfers; the logs of both are then stored, if there are any. */
    method FetchIncoming(r: nat, latest: nat, startBlock: nat, fromLogs: seq<Found>) returns (allLogs: seq<Found>)
      requires Valid() && At(r, FetchingTo(latest, startBlock, fromLogs))
      modifies this`runs, this`trace
      ensures Valid() && Grows(old(Abs()), Abs()) && trace == old(trace) + [FetchTo(r)]
      ensures At(r, if allLogs == [] then Writing(latest) else Inserting(latest, startBlock, allLogs))
      ensures Underway(cfg, Abs(), r, startBlock, latest)
    {
      InvHolds();
      ghost var before := Abs();
      FetchToIs(cfg, before, r);
      UnderwayAfter(r, latest, startBlock);
      hide Execute, UniqueKeys, Grows, FetchLogs, Inv, Next;
      var toLogs := FetchLogs(cfg, chain, startBlock, latest, false);
      allLogs := fromLogs + toLogs;
      runs := runs[r := if allLogs == [] then Writing(latest) else Inserting(latest, startBlock, allLogs)];
      Record(before, FetchTo(r));
    }

    lemma UnderwayAfter(r: nat, latest: nat, startBlock: nat)
      requires Valid() && r in runs && runs[r].FetchingTo? && runs[r].latest == latest && runs[r].start == startBlock
      ensures Underway(cfg, Next(cfg, Abs(), FetchTo(r)), r, startBlock, latest)
    {
      InvHolds();
      assert RunOk(cfg, Abs(), runs[r]);
      FetchToCovers(cfg, Abs(), r);
    }

    /** The logs a run found are of configured tokens. */
    lemma FoundAreTracked(r: nat)
      requires Valid() && r in runs && runs[r].Inserting?
      ensures forall f: Found :: f in runs[r].logs ==> f.log.token in cfg.tokens
    {
      InvHolds();
      assert RunOk(cfg, Abs(), runs[r]);
    }

    /** Builds the rows and inserts them. */
    method Store(r: nat, latest: nat, startBlock: nat, allLogs: seq<Found>) returns (ok: bool)
      requires Valid() && At(r, Inserting(latest, startBlock, allLogs))
      modifies this`rows, this`runs, this`trace
      ensures Valid() && Grows(old(Abs()), Abs())
      ensures old(trace) < trace
      ensures ok ==> At(r, Writing(latest)) && rows == InsertAll(cfg, old(rows), allLogs)
      ensures ok ==> Underway(cfg, Abs(), r, startBlock, latest)
      ensures !ok ==> rows == old(rows)
    {
      FoundAreTracked(r);
      InvHolds();
      InsertCoversRun(cfg, Abs(), r);
      hide Execute, UniqueKeys, Grows, InsertAll, InsertRows, RowsOf, Inv;
      ghost var before := Abs();
      var txs := BuildRows(allLogs);
      InsertRowsIsInsertAll(cfg, rows, allLogs);
      ok := InsertTransactions(txs);
      if ok {
        runs := runs[r := Writing(latest)];
        Record(before, Insert(r));
      } else {
        Stop(r);
      }
    }

    /** The cursor write at the end of a run; everything up to its head is in the table by then. */
    method Finish(r: nat, latest: nat)
      requires Valid() && At(r, Writing(latest))
      modifies this`cursor, this`runs, this`trace
      ensures Valid() && Grows(old(Abs()), Abs())
      ensures Covered(cfg, Abs(), bootstrap, latest) && latest < |chain|
      ensures cursor == Some(latest) || cursor == old(cursor)
      ensures |trace| == |old(trace)| + 1 && old(trace) <= trace && trace[|old(trace)|].WriteCursor?
    {
      InvHolds();
      assert RunOk(cfg, Abs(), runs[r]);
      hide Execute, UniqueKeys, Grows, Covered, Inv;
      ghost var before := Abs();
      var lost := UpdateLastTxBlock(latest);
      runs := runs - {r};
      Record(before, WriteCursor(r, lost));
      CoveredStays(cfg, before, Abs(), latest);
    }

    /**
     * One run from start to end, among any steps of other runs and of the chain.  Remote calls
     * and statements may fail at any point; the run is then one of the protocol's runs that
     * ended early.  A run that reports success has everything from the bootstrap start up to
     * `latest` in the table, and by itself: after reading a row without progress the last 500
     * blocks before `latest`, after reading a positive cursor all blocks after it.  Without a row,
     * or with one at its head or beyond, it asks for nothing.
     */
    method SyncTransactions(r: nat, latest: nat) returns (ok: bool, ghost seen: Option<int>)
      requires Valid() && r !in runs && 1 <= latest < |chain|
      modifies this
      ensures Valid() && Inv(cfg, Abs()) && Grows(old(Abs()), Abs())
      ensures ok ==> Covered(cfg, Abs(), bootstrap, latest)
      ensures ok ==> HasSeen(r, seen, old(trace))
      ensures ok && seen.Some? && seen.value <= 0 ==>
                Covered(cfg, Abs(), if latest >= 500 then latest - 500 else 0, latest)
      ensures ok && seen.Some? && seen.value > 0 ==> Covered(cfg, Abs(), seen.value + 1, latest)
      ensures ok && (seen.None? || seen.value >= latest) ==> NoQuery(r, old(trace))
    {
      hide Execute, Inv, Grows, Covered, UniqueKeys;
      ghost var s0, t := Abs(), trace;
      seen := None;
      BeginRun(r, latest);
      Pause(r, s0);
      var readFails: bool := *;
      if readFails {
        StopRun(r, s0);
        return false, None;
      }
      ghost var s1, steps := Abs(), trace;
      seen := cursor;
      var startBlock := ChooseStart(r, latest);
      GrowsTrans(s0, s1, Abs());
      SeenStays(r, seen, t, trace, |steps|) by { TraceIs(steps, ReadCursor(r)); }
      ghost var read := trace;
      if startBlock > latest || cfg.tokens == {} {
        NothingToCover(startBlock, latest);
        ok := WriteUp(r, latest, startBlock, s0);
      } else {
        ok := FetchAndStore(r, latest, startBlock, s0);
      }
      SeenStays(r, seen, t, read, |steps|) by { TraceIs(steps, ReadCursor(r)); }
    }

    lemma TraceIs(steps: seq<Action>, a: Action)
      requires Valid()
      ensures steps + [a] <= trace ==> trace[..|steps|] == steps
    {
    }

    /** Above its head, or without tokens, there is nothing to cover. */
    lemma NothingToCover(low: nat, latest: nat)
      requires low > latest || cfg.tokens == {}
      ensures Covered(cfg, Abs(), low, latest)
    {
    }

    /** The run waits. */
    method Pause(r: nat, ghost s0: State)
      requires Valid() && Grows(s0, Abs())
      modifies this
      ensures Valid() && Grows(s0, Abs()) && PlaceOf(Abs(), r) == old(PlaceOf(Abs(), r))
      ensures Grows(old(Abs()), Abs()) && Elsewhere(r, old(trace))
    {
      hide Execute, Grows, PlaceOf, UniqueKeys;
      ghost var s := Abs();
      Others(r);
      GrowsTrans(s0, s, Abs());
    }

    method StopRun(r: nat, ghost s0: State)
      requires Valid() && Grows(s0, Abs()) && r in runs
      modifies this`runs, this`trace
      ensures Valid() && Inv(cfg, Abs()) && Grows(s0, Abs()) && trace == old(trace) + [Fail(r)]
    {
      hide Execute, Grows, UniqueKeys, Inv;
      ghost var s := Abs();
      Stop(r);
      GrowsTrans(s0, s, Abs());
      InvHolds();
    }

    /** What is covered stays covered. */
    lemma StaysCovered(s: State, low: nat, latest: nat)
      requires Valid() && Grows(s, Abs()) && latest < |s.chain| && Covered(cfg, s, low, latest)
      ensures Covered(cfg, Abs(), low, latest)
    {
      CoveredGrows(cfg, s, Abs(), low, latest);
    }

    lemma HeadIsMined(r: nat)
      requires Valid() && r in runs
      ensures runs[r].latest < |chain|
    {
      InvHolds();
      assert RunOk(cfg, Abs(), runs[r]);
    }

    /** The end of a run that has nothing more to store; `low` is any block from which all is in the table. */
    method WriteUp(r: nat, latest: nat, ghost low: nat, ghost s0: State) returns (ok: bool)
      requires Valid() && Grows(s0, Abs()) && At(r, Writing(latest)) && Covered(cfg, Abs(), low, latest)
      modifies this
      ensures ok && Valid() && Inv(cfg, Abs()) && Grows(s0, Abs()) && Covered(cfg, Abs(), bootstrap, latest)
      ensures Covered(cfg, Abs(), low, latest) && NoQuery(r, old(trace))
    {
      hide Execute, Grows, UniqueKeys, Inv, Covered;
      ghost var s1 := Abs();
      HeadIsMined(r);
      Pause(r, s0);
      ghost var s := Abs();
      StaysCovered(s1, low, latest);
      HeadIsMined(r);
      Finish(r, latest);
      StaysCovered(s, low, latest);
      GrowsTrans(s0, s, Abs());
      InvHolds();
      ok := true;
    }

    /** The queries and the insert in the middle of a run. */
    method FetchAndStore(r: nat, latest: nat, startBlock: nat, ghost s0: State) returns (ok: bool)
      requires Valid() && Grows(s0, Abs()) && At(r, FetchingFrom(latest, startBlock))
      modifies this
      ensures Valid() && Inv(cfg, Abs()) && Grows(s0, Abs()) && old(trace) <= trace
      ensures ok ==> Covered(cfg, Abs(), bootstrap, latest) && Covered(cfg, Abs(), startBlock, latest)
    {
      hide Execute, Inv, Grows, Covered, FetchLogs, InsertAll, UniqueKeys, OnChain;
      Pause(r, s0);
      var rpcFails: bool := *;
      if rpcFails {
        StopRun(r, s0);
        return false;
      }
      ghost var s1 := Abs();
      var fromLogs := FetchOutgoing(r, latest, startBlock);
      GrowsTrans(s0, s1, Abs());
      Pause(r, s0);
      rpcFails := *;
      if rpcFails {
        StopRun(r, s0);
        return false;
      }
      ghost var s2 := Abs();
      var allLogs := FetchIncoming(r, latest, startBlock, fromLogs);
      GrowsTrans(s0, s2, Abs());
      if allLogs == [] {
        ok := WriteUp(r, latest, startBlock, s0);
        return;
      }
      Pause(r, s0);
      ghost var s3 := Abs();
      ok := Store(r, latest, startBlock, allLogs);
      GrowsTrans(s0, s3, Abs());
      if !ok {
        InvHolds();
        return;
      }
      ok := WriteUp(r, latest, startBlock, s0);
    }
  }
}
