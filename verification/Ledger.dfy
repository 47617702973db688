/**
 * The ingested rows of a wallet against the token contract: what the ledger says came in minus
 * what it says went out, compared with the change of `balanceOf`, in raw integer units.
 */
module Ledger {
  import opened Indexer
  import opened Prelude
  import Token

  // ----- The chain's view of one token -----

  function BlockTransfers(block: seq<Log>, tok: int): seq<Token.Transfer> {
    if block == [] then []
    else
      var n := |block| - 1;
      var l := block[n];
      BlockTransfers(block[..n], tok) + if l.token == tok then [Token.Transfer(l.from, l.to, l.amount)] else []
  }

  /** The token's transfers in the first n blocks. */
  function TokenLog(chain: Chain, tok: int, n: nat): seq<Token.Transfer>
    requires n <= |chain|
  {
    if n == 0 then [] else TokenLog(chain, tok, n - 1) + BlockTransfers(chain[n - 1], tok)
  }

  /** The token contract after its first `done` calls; -1 stands for the time before deployment. */
  function TokenState(deployer: Address, supply: nat, calls: seq<Token.Call>, done: int): Token.State
    requires done <= |calls|
  {
    if done < 0 then Token.State(map[], 0, []) else Token.Run(deployer, supply, calls[..done])
  }

  /** The blocks carry exactly the events of a run of the token contract: ends[n] calls by the end of n blocks. */
  ghost predicate Carries(chain: Chain, tok: int, deployer: Address, supply: nat, calls: seq<Token.Call>,
      ends: seq<int>) {
    && |ends| == |chain| + 1
    && (forall n :: 0 <= n <= |chain| ==> ends[n] <= |calls|)
    && (forall n :: 0 <= n <= |chain| ==>
          TokenLog(chain, tok, n) == TokenState(deployer, supply, calls, ends[n]).log)
  }

  // ----- The ledger's view -----

  function Signed(r: Row): int {
    if r.incoming then r.amount else -(r.amount as int)
  }

  /** Rows of one token in the blocks low..high-1. */
  function InRange(rows: seq<Row>, tok: int, low: nat, high: nat): (r: seq<Row>)
    ensures forall q :: q in r <==> q in rows && q.token == tok && low <= q.block < high
  {
    if rows == [] then []
    else
      var n := |rows| - 1;
      assert rows == rows[..n] + [rows[n]];
      InRange(rows[..n], tok, low, high) +
      if rows[n].token == tok && low <= rows[n].block < high then [rows[n]] else []
  }

  function Net(rows: seq<Row>): int {
    if rows == [] then 0 else Net(rows[..|rows| - 1]) + Signed(rows[|rows| - 1])
  }

  /** The rows the chain calls for, in chain order. */
  function BlockRows(cfg: Config, block: seq<Log>, b: nat, tok: int): seq<Row> {
    if block == [] then []
    else
      var n := |block| - 1;
      var l := block[n];
      BlockRows(cfg, block[..n], b, tok) +
      if l.token == tok && Matches(cfg, l) then [RowOf(cfg, Found(b, l))] else []
  }

  function ChainRows(cfg: Config, chain: Chain, tok: int, low: nat, high: nat): seq<Row>
    requires high <= |chain|
  {
    if high <= low then []
        else ChainRows(cfg, chain, tok, low, high - 1) + BlockRows(cfg, chain[high - 1], high - 1, tok)
  }

  /** A transfer of the wallet to itself is one row, counted as incoming only. */
  function SelfSent(log: seq<Token.Transfer>, a: Address): nat {
    if log == [] then 0
    else
      var t := log[|log| - 1];
      SelfSent(log[..|log| - 1], a) + if t.from == a && t.to == a then t.amount else 0
  }

  // ----- Sums do not depend on order -----

  lemma {:induction false} NetConcat(a: seq<Row>, b: seq<Row>)
    ensures Net(a + b) == Net(a) + Net(b)
  {
    if b == [] {
      assert a + b == a;
    } else {
      NetConcat(a, b[..|b| - 1]);
      assert (a + b)[..|a + b| - 1] == a + b[..|b| - 1];
    }
  }

  lemma NetOne(r: Row)
    ensures Net([r]) == Signed(r)
  {
    assert [r][..0] == [];
  }

  /** Taking one row out takes its amount out of the net. */
  lemma NetWithout(b: seq<Row>, k: nat)
    requires k < |b|
    ensures Net(b) == Net(b[..k] + b[k + 1..]) + Signed(b[k])
  {
    hide Net, Signed;
    var front, one, back := b[..k], [b[k]], b[k + 1..];
    NetConcat(front, back);
    NetConcat(front, one);
    NetConcat(front + one, back);
    NetOne(b[k]);
    assert b == front + one + back;
  }

  lemma WithoutDistinct(b: seq<Row>, k: nat)
    requires k < |b| && DistinctKeys(b)
    ensures DistinctKeys(b[..k] + b[k + 1..])
  {
  }

  /** Two duplicate-free lists of the same rows have the same net. */
  lemma {:induction false} NetIgnoresOrder(a: seq<Row>, b: seq<Row>)
    requires DistinctKeys(a) && DistinctKeys(b) && forall r :: r in a <==> r in b
    ensures Net(a) == Net(b)
  {
    if a == [] {
      if b != [] {
        NonEmptyHasMember(b);
      }
    } else {
      var x := a[0];
      assert x in b;
      var k :| 0 <= k < |b| && b[k] == x;
      var rest, others := a[..0] + a[1..], b[..k] + b[k + 1..];
      WithoutDistinct(a, 0);
      WithoutDistinct(b, k);
      NetWithout(a, 0);
      NetWithout(b, k);
      forall r
        ensures r in rest <==> r in others
      {
        RemoveOne(a, 0, r);
        RemoveOne(b, k, r);
      }
      hide Net, DistinctKeys;
      NetIgnoresOrder(rest, others);
    }
  }

  lemma NonEmptyHasMember(b: seq<Row>)
    requires b != []
    ensures exists r :: r in b
  {
    assert b[0] in b;
  }

  lemma RemoveOne(a: seq<Row>, k: nat, r: Row)
    requires k < |a| && DistinctKeys(a)
    ensures r in a[..k] + a[k + 1..] <==> r in a && r != a[k]
  {
    if r in a && r != a[k] {
      var i :| 0 <= i < |a| && a[i] == r;
      assert i < k ==> (a[..k] + a[k + 1..])[i] == r;
      assert i > k ==> (a[..k] + a[k + 1..])[i - 1] == r;
    }
  }

  lemma {:induction false} InRangeDistinct(rows: seq<Row>, tok: int, low: nat, high: nat)
    requires DistinctKeys(rows)
    ensures DistinctKeys(InRange(rows, tok, low, high))
  {
    if rows != [] {
      var n := |rows| - 1;
      InRangeDistinct(rows[..n], tok, low, high);
      var r := InRange(rows[..n], tok, low, high);
      forall i | 0 <= i < |r|
        ensures !SameKey(r[i], rows[n])
      {
        assert r[i] in rows[..n];
      }
    }
  }

  // ----- The rows the chain calls for -----

  lemma {:induction false} BlockRowsExact(cfg: Config, block: seq<Log>, b: nat, tok: int, r: Row)
    ensures r in BlockRows(cfg, block, b, tok) <==>
            exists i :: 0 <= i < |block| && block[i].token == tok && Matches(cfg, block[i])
                && r == RowOf(cfg, Found(b, block[i]))
  {
    if block != [] {
      var n := |block| - 1;
      BlockRowsExact(cfg, block[..n], b, tok, r);
      if r in BlockRows(cfg, block[..n], b, tok) {
        var i :| 0 <= i < n && block[..n][i].token == tok && Matches(cfg, block[..n][i])
            && r == RowOf(cfg, Found(b, block[..n][i]));
        assert block[i] == block[..n][i];
      }
      if i :| 0 <= i < n && block[i].token == tok && Matches(cfg, block[i]) && r == RowOf(cfg, Found(b, block[i])) {
        assert block[..n][i] == block[i];
      }
    }
  }

  /** ChainRows holds exactly the rows of the matching logs of the range. */
  lemma {:induction false} ChainRowsExact(cfg: Config, chain: Chain, tok: int, low: nat, high: nat, r: Row)
    requires high <= |chain|
    ensures r in ChainRows(cfg, chain, tok, low, high) <==>
            exists f :: OnChain(chain, f) && low <= f.block < high && f.log.token == tok && Matches(cfg, f.log)
                && r == RowOf(cfg, f)
  {
    if high > low {
      var b := high - 1;
      ChainRowsExact(cfg, chain, tok, low, b, r);
      BlockRowsExact(cfg, chain[b], b, tok, r);
      if r in BlockRows(cfg, chain[b], b, tok) {
        var i :| 0 <= i < |chain[b]| && chain[b][i].token == tok && Matches(cfg, chain[b][i])
            && r == RowOf(cfg, Found(b, chain[b][i]));
        assert OnChain(chain, Found(b, chain[b][i]));
      }
      if f :| OnChain(chain, f) && f.block == b && f.log.token == tok && Matches(cfg, f.log) && r == RowOf(cfg, f) {
        var i :| 0 <= i < |chain[b]| && chain[b][i] == f.log;
        assert r in BlockRows(cfg, chain[b], b, tok);
      }
    }
  }

  lemma {:induction false} BlockRowsDistinct(cfg: Config, block: seq<Log>, b: nat, tok: int)
    requires forall i, j :: 0 <= i < j < |block| ==> !SameOrigin(block[i], block[j])
    ensures DistinctKeys(BlockRows(cfg, block, b, tok))
  {
    if block != [] {
      var n := |block| - 1;
      BlockRowsDistinct(cfg, block[..n], b, tok);
      var r := BlockRows(cfg, block[..n], b, tok);
      forall k | 0 <= k < |r|
        ensures !SameKey(r[k], RowOf(cfg, Found(b, block[n])))
      {
        BlockRowsExact(cfg, block[..n], b, tok, r[k]);
        var i :| 0 <= i < n && r[k] == RowOf(cfg, Found(b, block[..n][i]));
        assert !SameOrigin(block[i], block[n]);
      }
    }
  }

  lemma {:induction false} ChainRowsDistinct(cfg: Config, chain: Chain, tok: int, low: nat, high: nat)
    requires UniqueKeys(chain) && high <= |chain|
    ensures DistinctKeys(ChainRows(cfg, chain, tok, low, high))
  {
    if high > low {
      var b := high - 1;
      ChainRowsDistinct(cfg, chain, tok, low, b);
      BlockRowsDistinct(cfg, chain[b], b, tok);
      var r := ChainRows(cfg, chain, tok, low, b);
      var q := BlockRows(cfg, chain[b], b, tok);
      forall i, j | 0 <= i < |r| && 0 <= j < |q|
        ensures !SameKey(r[i], q[j])
      {
        LaterBlockDiffers(cfg, chain, tok, low, b, r[i], q[j]);
      }
    }
  }

  lemma LaterBlockDiffers(cfg: Config, chain: Chain, tok: int, low: nat, b: nat, r: Row, q: Row)
    requires UniqueKeys(chain) && b < |chain|
    requires r in ChainRows(cfg, chain, tok, low, b) && q in BlockRows(cfg, chain[b], b, tok)
    ensures !SameKey(r, q)
  {
    ChainRowsExact(cfg, chain, tok, low, b, r);
    BlockRowsExact(cfg, chain[b], b, tok, q);
    hide UniqueKeys, ChainRows, BlockRows;
    var f :| OnChain(chain, f) && low <= f.block < b && r == RowOf(cfg, f);
    var i :| 0 <= i < |chain[b]| && q == RowOf(cfg, Found(b, chain[b][i]));
    var g := Found(b, chain[b][i]);
    assert OnChain(chain, g);
    if SameKey(r, q) {
      SameOriginSameLog(chain, f, g);
    }
  }

  // ----- The ledger and the balance -----

  lemma LogAppend(log: seq<Token.Transfer>, t: Token.Transfer, w: Address)
    ensures Token.Received(log + [t], w) == Token.Received(log, w) + if t.to == w then t.amount else 0
    ensures Token.Spent(log + [t], w) == Token.Spent(log, w) + if t.from == w then t.amount else 0
    ensures SelfSent(log + [t], w) == SelfSent(log, w) + if t.from == w && t.to == w then t.amount else 0
  {
    assert (log + [t])[..|log|] == log;
  }

  lemma NetAppend(rows: seq<Row>, r: Row)
    ensures Net(rows + [r]) == Net(rows) + Signed(r)
  {
    assert (rows + [r])[..|rows|] == rows;
  }

  lemma BlockGrow(cfg: Config, block: seq<Log>, b: nat, tok: int, log: seq<Token.Transfer>)
    requires block != []
    ensures var n := |block| - 1; var l := block[n];
            && (log + BlockTransfers(block, tok) == if l.token == tok
                then log + BlockTransfers(block[..n], tok) + [Token.Transfer(l.from, l.to, l.amount)]
                else log + BlockTransfers(block[..n], tok))
            && (BlockRows(cfg, block, b, tok) == if l.token == tok && Matches(cfg, l)
                then BlockRows(cfg, block[..n], b, tok) + [RowOf(cfg, Found(b, l))]
                else BlockRows(cfg, block[..n], b, tok))
  {
  }

  /** Each transfer counts in the ledger as it does in the balance, except that self-transfers count once too often. */
  lemma {:induction false} BlockNet(cfg: Config, block: seq<Log>, b: nat, tok: int, log: seq<Token.Transfer>)
    requires tok in cfg.tokens
    ensures var w := cfg.wallet; var all := log + BlockTransfers(block, tok);
            Net(BlockRows(cfg, block, b, tok)) ==
            (Token.Received(all, w) - Token.Received(log, w)) - (Token.Spent(all, w) - Token.Spent(log, w))
            + (SelfSent(all, w) - SelfSent(log, w))
  {
    if block == [] {
      assert log + [] == log;
    } else {
      hide Token.Received, Token.Spent, SelfSent, Net, BlockRows, BlockTransfers;
      var n := |block| - 1;
      var l := block[n];
      BlockNet(cfg, block[..n], b, tok, log);
      BlockGrow(cfg, block, b, tok, log);
      LogAppend(log + BlockTransfers(block[..n], tok), Token.Transfer(l.from, l.to, l.amount), cfg.wallet);
      NetAppend(BlockRows(cfg, block[..n], b, tok), RowOf(cfg, Found(b, l)));
    }
  }

  lemma NothingNets()
    ensures Net([]) == 0
  {
  }

  lemma {:induction false} ChainNet(cfg: Config, chain: Chain, tok: int, low: nat, high: nat)
    requires tok in cfg.tokens && low <= high <= |chain|
    ensures var w := cfg.wallet; var before := TokenLog(chain, tok, low); var all := TokenLog(chain, tok, high);
            Net(ChainRows(cfg, chain, tok, low, high)) ==
            (Token.Received(all, w) - Token.Received(before, w)) - (Token.Spent(all, w) - Token.Spent(before, w))
            + (SelfSent(all, w) - SelfSent(before, w))
  {
    hide Token.Received, Token.Spent, SelfSent, Net, BlockRows, BlockTransfers;
    if high == low {
      NothingNets();
    } else {
      ChainNet(cfg, chain, tok, low, high - 1);
      BlockNet(cfg, chain[high - 1], high - 1, tok, TokenLog(chain, tok, high - 1));
      NetConcat(ChainRows(cfg, chain, tok, low, high - 1), BlockRows(cfg, chain[high - 1], high - 1, tok));
    }
  }

  lemma BalanceAtBlock(chain: Chain, tok: int, deployer: Address, supply: nat, calls: seq<Token.Call>, ends: seq<int>,
      n: nat, w: Address)
    requires Carries(chain, tok, deployer, supply, calls, ends) && n <= |chain| && w != Token.ZERO
    ensures Token.BalanceOf(TokenState(deployer, supply, calls, ends[n]).balances, w)
         == Token.Received(TokenLog(chain, tok, n), w) - Token.Spent(TokenLog(chain, tok, n), w)
  {
    if ends[n] >= 0 {
      Token.BalanceFromLog(deployer, supply, calls[..ends[n]], w);
    }
  }

  /** The rows of a reachable state in a covered range are the rows the chain calls for. */
  lemma RowsAreChainRows(cfg: Config, s: State, tok: int, low: nat, high: nat)
    requires Inv(cfg, s) && s.cursor.Some? && s.cursor.value > 0 && tok in cfg.tokens
    requires s.bootstrap <= low <= high <= s.cursor.value + 1
    ensures Net(InRange(s.rows, tok, low, high)) == Net(ChainRows(cfg, s.chain, tok, low, high))
  {
    var a, b := InRange(s.rows, tok, low, high), ChainRows(cfg, s.chain, tok, low, high);
    InRangeDistinct(s.rows, tok, low, high);
    ChainRowsDistinct(cfg, s.chain, tok, low, high);
    forall r
      ensures r in a <==> r in b
    {
      ChainRowsExact(cfg, s.chain, tok, low, high, r);
      if r in a {
        var f :| OnChain(s.chain, f) && Matches(cfg, f.log) && r == RowOf(cfg, f);
      }
      if r in b {
        var f :| OnChain(s.chain, f) && low <= f.block < high && f.log.token == tok && Matches(cfg, f.log)
            && r == RowOf(cfg, f);
      }
    }
    NetIgnoresOrder(a, b);
  }

  /**
   * End to end: for any run of the token contract and any run of the indexer, over any covered
   * blocks low..high-1, incoming minus outgoing rows equal the change of the wallet's balance
   * plus what the wallet sent to itself.  They are equal exactly when that amount is zero.
   */
  lemma LedgerReconciles(cfg: Config, start: Chain, trace: seq<Action>, tok: int,
                         deployer: Address, supply: nat, calls: seq<Token.Call>, ends: seq<int>, low: nat, high: nat)
    requires UniqueKeys(start) && tok in cfg.tokens && cfg.wallet != Token.ZERO
    requires var s := Execute(cfg, Init(start), trace);
             && s.cursor.Some? && s.cursor.value > 0
             && s.bootstrap <= low <= high <= s.cursor.value + 1
             && Carries(s.chain, tok, deployer, supply, calls, ends)
    ensures var s := Execute(cfg, Init(start), trace);
            high <= |s.chain| &&
            var ledger := Net(InRange(s.rows, tok, low, high));
            var change := Token.BalanceOf(TokenState(deployer, supply, calls, ends[high]).balances, cfg.wallet)
                        - Token.BalanceOf(TokenState(deployer, supply, calls, ends[low]).balances, cfg.wallet);
            var self :=
                SelfSent(TokenLog(s.chain, tok, high), cfg.wallet) - SelfSent(TokenLog(s.chain, tok, low), cfg.wallet);
            ledger == change + self && (ledger == change <==> self == 0)
  {
    ReachableInv(cfg, start, trace);
    var s := Execute(cfg, Init(start), trace);
    RowsAreChainRows(cfg, s, tok, low, high);
    ChainNet(cfg, s.chain, tok, low, high);
    BalanceAtBlock(s.chain, tok, deployer, supply, calls, ends, low, cfg.wallet);
    BalanceAtBlock(s.chain, tok, deployer, supply, calls, ends, high, cfg.wallet);
  }
}
