/** A run in which the ledger and the balance disagree: the wallet sends 5 to itself. */
module LedgerExample {
  import opened Indexer
  import opened Ledger
  import opened Prelude
  import Token

  const TOKEN := 7
  const WALLET: nat := 1

  function Tracked(): Config {
    Config(WALLET, {TOKEN})
  }

  /** Block 0 holds the mint, block 1 nothing. */
  function FirstBlocks(): Chain {
    [[Log(TOKEN, 0, WALLET, 10, 100, 0)], []]
  }

  /** Block 2 holds the transfer of the wallet to itself. */
  function SelfTransfer(): seq<Log> {
    [Log(TOKEN, WALLET, WALLET, 5, 101, 0)]
  }

  /** A first run sets the cursor to block 1; a second one indexes block 2. */
  function Steps(): seq<Action> {
    [Begin(0, 1), ReadCursor(0), WriteCursor(0, false), Mine(SelfTransfer()),
     Begin(1, 2), ReadCursor(1), FetchFrom(1), FetchTo(1), Insert(1), WriteCursor(1, false)]
  }

  ghost function After(n: nat): State
    requires n <= 10
  {
    Execute(Tracked(), Init(FirstBlocks()), Steps()[..n])
  }

  lemma AfterNext(n: nat)
    requires n < 10
    ensures After(n + 1) == Next(Tracked(), After(n), Steps()[n])
  {
    assert Steps()[..n + 1][..n] == Steps()[..n];
    hide Next, Steps;
  }

  lemma KeysAreUnique()
    ensures UniqueKeys(FirstBlocks()) && UniqueKeys(FirstBlocks() + [SelfTransfer()])
  {
  }

  /** The cursor is at block 1, and block 2 has been mined. */
  lemma FirstRun()
    ensures After(4) == State(FirstBlocks() + [SelfTransfer()], [], Some(1), map[], 2)
  {
    hide Execute, UniqueKeys;
    KeysAreUnique();
    assert After(0) == Init(FirstBlocks()) by { NoSteps(); }
    AfterNext(0);
    AfterNext(1);
    AfterNext(2);
    AfterNext(3);
    hide After;
    assert After(1) == Init(FirstBlocks()).(runs := map[0 := Started(1)]);
    assert After(2) == Init(FirstBlocks()).(runs := map[0 := Writing(1)], bootstrap := 2);
    assert After(3) == State(FirstBlocks(), [], Some(1), map[], 2);
  }

  lemma NoSteps()
    ensures Execute(Tracked(), Init(FirstBlocks()), Steps()[..0]) == Init(FirstBlocks())
  {
    assert Steps()[..0] == [];
  }

  /** Between its start and its cursor write a run touches neither cursor nor chain. */
  ghost predicate SecondAt(s: State, u: Run) {
    s.chain == FirstBlocks() + [SelfTransfer()] && s.cursor == Some(1) && s.bootstrap == 2 && 1 in s.runs
        && s.runs[1] == u
  }

  lemma SecondReads(s: State)
    requires s == State(FirstBlocks() + [SelfTransfer()], [], Some(1), map[], 2)
    ensures var t := Next(Tracked(), Next(Tracked(), s, Begin(1, 2)), ReadCursor(1)); SecondAt(t, FetchingFrom(2, 2))
  {
    hide UniqueKeys;
  }

  lemma SecondFetches(s: State)
    requires SecondAt(s, FetchingFrom(2, 2))
    ensures exists logs :: SecondAt(Next(Tracked(), s, FetchFrom(1)), FetchingTo(2, 2, logs))
  {
    hide UniqueKeys, FetchLogs;
    var logs := FetchLogs(Tracked(), s.chain, 2, 2, true);
    assert SecondAt(Next(Tracked(), s, FetchFrom(1)), FetchingTo(2, 2, logs));
  }

  lemma SecondStores(s: State, logs: seq<Found>)
    requires SecondAt(s, FetchingTo(2, 2, logs))
    ensures SecondAt(Next(Tracked(), Next(Tracked(), s, FetchTo(1)), Insert(1)), Writing(2))
  {
    hide UniqueKeys, FetchLogs, InsertAll;
  }

  /** Block 2 is indexed. */
  lemma SecondRun()
    ensures After(10).cursor == Some(2) && After(10).bootstrap == 2
    ensures After(10).chain == FirstBlocks() + [SelfTransfer()]
  {
    FirstRun();
    AfterNext(4);
    AfterNext(5);
    AfterNext(6);
    AfterNext(7);
    AfterNext(8);
    AfterNext(9);
    SecondReads(After(4));
    SecondFetches(After(6));
    hide Execute, UniqueKeys, After, FetchLogs, InsertAll, FirstBlocks;
    var logs :| SecondAt(After(7), FetchingTo(2, 2, logs));
    SecondStores(After(7), logs);
    assert SecondAt(After(9), Writing(2));
    WriteMoves(After(9));
  }

  lemma WriteMoves(s: State)
    requires SecondAt(s, Writing(2))
    ensures var t := Next(Tracked(), s, WriteCursor(1, false));
            t.cursor == Some(2) && t.bootstrap == 2 && t.chain == FirstBlocks() + [SelfTransfer()]
  {
    hide UniqueKeys;
  }

  function Ends(): seq<int> {
    [-1, 0, 0, 1]
  }

  function Calls(): seq<Token.Call> {
    [Token.Call(WALLET, WALLET, 5)]
  }

  lemma OneLogBlock(l: Log)
    requires l.token == TOKEN
    ensures BlockTransfers([l], TOKEN) == [Token.Transfer(l.from, l.to, l.amount)]
  {
    assert [l][..0] == [];
  }

  lemma LogsOfBlocks(chain: Chain)
    requires chain == FirstBlocks() + [SelfTransfer()]
    ensures var mint, own := Token.Transfer(0, WALLET, 10), Token.Transfer(WALLET, WALLET, 5);
            && TokenLog(chain, TOKEN, 0) == [] && TokenLog(chain, TOKEN, 1) == [mint]
            && TokenLog(chain, TOKEN, 2) == [mint] && TokenLog(chain, TOKEN, 3) == [mint, own]
  {
    OneLogBlock(FirstBlocks()[0][0]);
    OneLogBlock(SelfTransfer()[0]);
    assert chain[0] == FirstBlocks()[0] && chain[1] == [] && chain[2] == SelfTransfer();
    assert BlockTransfers([], TOKEN) == [];
    hide BlockTransfers;
    var mint, own := Token.Transfer(0, WALLET, 10), Token.Transfer(WALLET, WALLET, 5);
    assert TokenLog(chain, TOKEN, 1) == [] + [mint] == [mint];
    assert TokenLog(chain, TOKEN, 2) == [mint] + [] == [mint];
    assert TokenLog(chain, TOKEN, 3) == [mint] + [own];
  }

  lemma RunLogs()
    ensures Token.Run(WALLET, 10, Calls()[..0]).log == [Token.Transfer(0, WALLET, 10)]
    ensures Token.Run(WALLET, 10, Calls()[..1]).log ==
        [Token.Transfer(0, WALLET, 10), Token.Transfer(WALLET, WALLET, 5)]
  {
    assert Calls()[..0] == [] && Calls()[..1] == Calls() && Calls()[..|Calls()| - 1] == [];
  }

  /** The blocks carry the events of a deployment and one transfer. */
  lemma BlocksCarryToken(chain: Chain)
    requires chain == FirstBlocks() + [SelfTransfer()]
    ensures Carries(chain, TOKEN, WALLET, 10, Calls(), Ends())
    ensures SelfSent(TokenLog(chain, TOKEN, 3), WALLET) - SelfSent(TokenLog(chain, TOKEN, 2), WALLET) == 5
  {
    LogsOfBlocks(chain);
    RunLogs();
    var mint, own := Token.Transfer(0, WALLET, 10), Token.Transfer(WALLET, WALLET, 5);
    LogAppend([mint], own, WALLET);
    assert [mint] + [own] == [mint, own];
    hide TokenLog, SelfSent, Token.Run;
  }

  /** When the balance did not change, the ledger is what the wallet sent to itself. */
  lemma SelfSentIsLedger(cfg: Config, start: Chain, trace: seq<Action>, s: State,
                         calls: seq<Token.Call>, ends: seq<int>)
    requires s == Execute(cfg, Init(start), trace) && UniqueKeys(start)
    requires TOKEN in cfg.tokens && cfg.wallet != Token.ZERO
    requires s.cursor == Some(2) && s.bootstrap == 2 && Carries(s.chain, TOKEN, WALLET, 10, calls, ends)
    requires |s.chain| == 3
    requires Token.BalanceOf(TokenState(WALLET, 10, calls, ends[3]).balances, cfg.wallet)
          == Token.BalanceOf(TokenState(WALLET, 10, calls, ends[2]).balances, cfg.wallet)
    ensures Net(InRange(s.rows, TOKEN, 2, 3))
         == SelfSent(TokenLog(s.chain, TOKEN, 3), cfg.wallet) - SelfSent(TokenLog(s.chain, TOKEN, 2), cfg.wallet)
  {
    LedgerReconciles(cfg, start, trace, TOKEN, WALLET, 10, calls, ends, 2, 3);
    hide *;
  }

  /** Over block 2 the ledger says that 5 came in, while the balance did not change. */
  lemma LedgerDiffers()
    ensures var s := Execute(Tracked(), Init(FirstBlocks()), Steps());
            && s.cursor == Some(2) && s.bootstrap == 2 && |s.chain| == 3
            && Carries(s.chain, TOKEN, WALLET, 10, Calls(), Ends())
            && Net(InRange(s.rows, TOKEN, 2, 3)) == 5
    ensures Token.BalanceOf(TokenState(WALLET, 10, Calls(), Ends()[3]).balances, WALLET) == 10
    ensures Token.BalanceOf(TokenState(WALLET, 10, Calls(), Ends()[2]).balances, WALLET) == 10
  {
    SecondRun();
    assert Steps()[..10] == Steps();
    var s := After(10);
    BlocksCarryToken(s.chain);
    Balances();
    hide Execute, Carries, UniqueKeys, Net, InRange, SelfSent, TokenLog, TokenState, Token.BalanceOf;
    assert s == Execute(Tracked(), Init(FirstBlocks()), Steps());
    KeysAreUnique();
    SelfSentIsLedger(Tracked(), FirstBlocks(), Steps(), s, Calls(), Ends());
  }

  lemma Balances()
    ensures Token.BalanceOf(TokenState(WALLET, 10, Calls(), 1).balances, WALLET) == 10
    ensures Token.BalanceOf(TokenState(WALLET, 10, Calls(), 0).balances, WALLET) == 10
  {
    assert Calls()[..1] == Calls() && Calls()[..0] == [];
    assert Calls()[..|Calls()| - 1] == [];
  }
}
