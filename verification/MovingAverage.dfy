/**
 * The moving-average backtest: a loop over a sliding window, refined to a closed form over
 * the whole price list.  Prices are reals.  The quotient 0/0, which the program computes as
 * NaN for a window of length 0, is None here, and every comparison with it is false.
 */
module MovingAverage {
  import opened Prelude
  import opened Quotients
  import opened RealSums

  datatype PricePoint = PricePoint(timestamp: int, price: real)
  datatype EquityPoint = EquityPoint(timestamp: int, value: real)

  function Closes(points: seq<PricePoint>): (r: seq<real>)
    ensures |r| == |points| && forall i :: 0 <= i < |points| ==> r[i] == points[i].price
  {
    seq(|points|, i requires 0 <= i < |points| => points[i].price)
  }

  ghost predicate AllPositive(s: seq<real>) {
    forall i :: 0 <= i < |s| ==> s[i] > 0.0
  }

  ghost predicate AllNonZero(s: seq<real>) {
    forall i :: 0 <= i < |s| ==> s[i] != 0.0
  }

  function Ratio(sum: real, count: nat): Option<real> {
    if count == 0 then None else Some(sum / (count as real))
  }

  predicate Above(a: Option<real>, b: Option<real>) {
    a.Some? && b.Some? && a.value > b.value
  }

  // ----- The closed form -----

  /** The last min(i+1, long) prices up to and including index i. */
  function Window(p: seq<real>, long: nat, i: nat): (w: seq<real>)
    requires i < |p|
    ensures |w| == if i + 1 > long then long else i + 1
  {
    p[(if i + 1 > long then i + 1 - long else 0)..i + 1]
  }

  /** Average of the last `short` prices of the window, or the price itself while the window is too short. */
  function ShortAverage(w: seq<real>, short: nat, price: real): Option<real> {
    if |w| >= short then Ratio(Sum(w[|w| - short..]), short) else Some(price)
  }

  /** Whether the strategy holds the asset after seeing price i. */
  predicate Holding(p: seq<real>, short: nat, long: nat, i: nat)
    requires i < |p|
  {
    var w := Window(p, long, i);
    Above(ShortAverage(w, short, p[i]), Ratio(Sum(w), |w|))
  }

  /** Equity that follows the price as it moves from one value to another; nothing grows from a price of 0. */
  function Grow(equity: real, from: real, to: real): real {
    if from == 0.0 then equity else equity * (to / from)
  }

  /** Equity after price i: it follows the price exactly while the asset is held. */
  function Equity(p: seq<real>, short: nat, long: nat, i: nat): real
    requires i < |p|
  {
    if i == 0 then 1.0
    else if Holding(p, short, long, i - 1) then Grow(Equity(p, short, long, i - 1), p[i - 1], p[i])
    else Equity(p, short, long, i - 1)
  }

  lemma NeverHoldsUnitWindow(p: seq<real>, short: nat, long: nat, i: nat)
    requires i < |p| && long <= 1
    ensures !Holding(p, short, long, i)
  {
    var w := Window(p, long, i);
    if long == 1 {
      assert w == [p[i]];
      assert Sum(w) == Sum(w[..0]) + p[i];
      if short == 1 {
        assert w[|w| - short..] == w;
      }
    }
  }

  lemma HoldingMeans(p: seq<real>, short: nat, long: nat, i: nat)
    requires i < |p|
    ensures var w := Window(p, long, i);
            Holding(p, short, long, i) <==> Above(ShortAverage(w, short, p[i]), Ratio(Sum(w), |w|))
  {
  }

  /** Equity after price i, from equity after price i - 1. */
  lemma EquityStep(p: seq<real>, short: nat, long: nat, i: nat)
    requires 0 < i < |p|
    ensures Holding(p, short, long, i - 1) ==>
        Equity(p, short, long, i) == Grow(Equity(p, short, long, i - 1), p[i - 1], p[i])
    ensures !Holding(p, short, long, i - 1) ==> Equity(p, short, long, i) == Equity(p, short, long, i - 1)
  {
    hide Grow;
  }

  /** Equity starts at 1 and is multiplied by the price ratio while the asset is held. */
  lemma EquityFollows(p: seq<real>, short: nat, long: nat, i: nat)
    requires i < |p|
    ensures i == 0 ==> Equity(p, short, long, i) == 1.0
    ensures i > 0 && p[i - 1] != 0.0 && Holding(p, short, long, i - 1) ==>
              Equity(p, short, long, i) * p[i - 1] == Equity(p, short, long, i - 1) * p[i]
    ensures i > 0 && !Holding(p, short, long, i - 1) ==> Equity(p, short, long, i) == Equity(p, short, long, i - 1)
  {
    if i > 0 {
      EquityStep(p, short, long, i);
      hide Equity, Holding, Grow;
      if p[i - 1] != 0.0 {
        GrowTimes(Equity(p, short, long, i - 1), p[i - 1], p[i]);
      }
    }
  }

  lemma GrowTimes(equity: real, from: real, to: real)
    requires from != 0.0
    ensures Grow(equity, from, to) * from == equity * to
  {
    QuotientTimes(to, from);
    assert (equity * (to / from)) * from == equity * ((to / from) * from);
  }

  /** The same step, with the start and the unit window covered. */
  lemma EquityMoves(p: seq<real>, short: nat, long: nat, i: nat, equity: real)
    requires i < |p|
    requires equity == if i == 0 then 1.0 else Equity(p, short, long, i - 1)
    ensures i > 0 && Holding(p, short, long, i - 1) ==>
        long >= 2 && Equity(p, short, long, i) == Grow(equity, p[i - 1], p[i])
    ensures i == 0 || !Holding(p, short, long, i - 1) ==> Equity(p, short, long, i) == equity
  {
    hide Grow;
    if i > 0 {
      EquityStep(p, short, long, i);
      if long <= 1 {
        NeverHoldsUnitWindow(p, short, long, i - 1);
      }
    }
  }

  // The arithmetic of one iteration of the program's loop.

  function Return(price: real, prev: real): real
    requires prev != 0.0
  {
    (price - prev) / prev
  }

  function Compound(equity: real, ret: real, position: real): real {
    equity * (1.0 + ret * position)
  }

  lemma CompoundIsGrow(equity: real, price: real, prev: real)
    requires prev != 0.0
    ensures Compound(equity, Return(price, prev), 0.0) == equity
    ensures Compound(equity, Return(price, prev), 1.0) == Grow(equity, prev, price)
  {
    ReturnIsRatio(price, prev);
  }

  /** Pushing price i and dropping the oldest price keeps the window of the closed form. */
  lemma WindowSlides(p: seq<real>, long: nat, i: nat, w: seq<real>)
    requires i < |p| && w == if i == 0 then [] else Window(p, long, i - 1)
    ensures Window(p, long, i) == if |w| + 1 > long then (w + [p[i]])[1..] else w + [p[i]]
    ensures i > 0 && long >= 2 ==> |Window(p, long, i)| >= 2 && Window(p, long, i)[|Window(p, long, i)| - 2] == p[i - 1]
  {
  }

  function SaturatingSub(n: nat, m: nat): nat {
    if n < m then 0 else n - m
  }

  /** The price that iteration i divides by: the one before it in the window, or itself when it is alone there. */
  function Divisor(p: seq<real>, long: nat, i: nat): real
    requires i < |p|
  {
    if i == 0 || long <= 1 then p[i] else p[i - 1]
  }

  /** No iteration divides by 0; with an empty window none divides at all. */
  ghost predicate NoZeroDivisor(p: seq<real>, long: nat) {
    long == 0 || forall i :: 0 <= i < |p| ==> Divisor(p, long, i) != 0.0
  }

  /** The window's last price but one is the divisor. */
  lemma WindowDivisor(p: seq<real>, long: nat, i: nat)
    requires i < |p|
    ensures var w := Window(p, long, i);
            w != [] ==> long > 0 && w[SaturatingSub(|w|, 2)] == Divisor(p, long, i)
  {
  }

  /** How equity moves when price i arrives in the window, after the position held so far. */
  lemma EquityOfWindow(p: seq<real>, short: nat, long: nat, i: nat, equity: real, position: real)
    requires i < |p| && NoZeroDivisor(p, long)
    requires equity == if i == 0 then 1.0 else Equity(p, short, long, i - 1)
    requires position == if i > 0 && Holding(p, short, long, i - 1) then 1.0 else 0.0
    ensures var w := Window(p, long, i); var k := SaturatingSub(|w|, 2);
            && (k >= |w| ==> equity == Equity(p, short, long, i))
            && (k < |w| ==> w[k] != 0.0 && Compound(equity, Return(p[i], w[k]), position) == Equity(p, short, long, i))
  {
    hide Grow, Window, Equity, Holding, Return, Compound, Divisor;
    EquityMoves(p, short, long, i, equity);
    WindowDivisor(p, long, i);
    var w := Window(p, long, i);
    if w == [] {
      EmptyWindow(p, short, long, i);
    } else {
      var k := SaturatingSub(|w|, 2);
      assert Divisor(p, long, i) != 0.0;
      CompoundIsGrow(equity, p[i], w[k]);
      if position == 1.0 {
        DivisorIsPrevious(p, long, i);
      }
    }
  }

  lemma DivisorIsPrevious(p: seq<real>, long: nat, i: nat)
    requires 0 < i < |p| && long >= 2
    ensures Divisor(p, long, i) == p[i - 1]
  {
  }

  lemma EmptyWindow(p: seq<real>, short: nat, long: nat, i: nat)
    requires i < |p| && Window(p, long, i) == []
    ensures long == 0 && (i > 0 ==> !Holding(p, short, long, i - 1))
  {
    if i > 0 {
      NeverHoldsUnitWindow(p, short, long, i - 1);
    }
  }

  /** The curve so far: for each of the first n points its timestamp and the equity after it. */
  ghost predicate Follows(curve: seq<EquityPoint>, points: seq<PricePoint>, short: nat, long: nat, n: nat)
    requires n <= |points|
  {
    && |curve| == n
    && forall j :: 0 <= j < n ==> curve[j] == EquityPoint(points[j].timestamp, Equity(Closes(points), short, long, j))
  }

  lemma FollowsNothing(points: seq<PricePoint>, short: nat, long: nat)
    ensures Follows([], points, short, long, 0)
  {
  }

  lemma FollowsAppend(curve: seq<EquityPoint>, points: seq<PricePoint>, short: nat, long: nat, n: nat)
    requires n < |points| && Follows(curve, points, short, long, n)
    ensures Follows(curve + [EquityPoint(points[n].timestamp, Equity(Closes(points), short, long, n))],
        points, short, long, n + 1)
  {
    hide Equity;
  }

  /** The program's loop over the sliding window. */
  method RunMovingAverage(points: seq<PricePoint>, short: nat, long: nat) returns (curve: seq<EquityPoint>)
    requires NoZeroDivisor(Closes(points), long)
    ensures |curve| == |points|
    ensures forall i :: 0 <= i < |points| ==>
              curve[i] == EquityPoint(points[i].timestamp, Equity(Closes(points), short, long, i))
  {
    hide Ratio, Window, Equity, Holding, Return, Compound, NoZeroDivisor, Sum, Above, Closes, SaturatingSub, Follows;
    ghost var p := Closes(points);
    var equity := 1.0;
    var window: seq<real> := [];
    var prevPosition := 0.0;
    curve := [];
    FollowsNothing(points, short, long);
    for i := 0 to |points|
      invariant Follows(curve, points, short, long, i)
      invariant window == if i == 0 then [] else Window(p, long, i - 1)
      invariant equity == if i == 0 then 1.0 else Equity(p, short, long, i - 1)
      invariant prevPosition == if i > 0 && Holding(p, short, long, i - 1) then 1.0 else 0.0
    {
      var price := points[i].price;
      WindowSlides(p, long, i, window);
      EquityOfWindow(p, short, long, i, equity, prevPosition);
      HoldingMeans(p, short, long, i);
      window := window + [price];
      if |window| > long {
        window := window[1..];
      }
      var shortMa := if |window| >= short then Ratio(Sum(window[|window| - short..]), short) else Some(price);
      var longMa := Ratio(Sum(window), |window|);
      var position := if Above(shortMa, longMa) then 1.0 else 0.0;
      var k := SaturatingSub(|window|, 2);
      if k < |window| {
        var prevPrice := window[k];
        equity := Compound(equity, Return(price, prevPrice), prevPosition);
      }
      FollowsAppend(curve, points, short, long, i);
      prevPosition := position;
      curve := curve + [EquityPoint(points[i].timestamp, equity)];
    }
    FollowsMeans(curve, points, short, long);
  }

  lemma FollowsMeans(curve: seq<EquityPoint>, points: seq<PricePoint>, short: nat, long: nat)
    requires Follows(curve, points, short, long, |points|)
    ensures |curve| == |points|
    ensures forall i :: 0 <= i < |points| ==>
              curve[i] == EquityPoint(points[i].timestamp, Equity(Closes(points), short, long, i))
  {
  }

  // ----- Equity as a product over trades -----

  /** The positions after prices 0..k-1. */
  function Positions(p: seq<real>, short: nat, long: nat, k: nat): (h: seq<bool>)
    requires k <= |p|
    ensures |h| == k && forall j :: 0 <= j < k ==> h[j] == Holding(p, short, long, j)
  {
    if k == 0 then [] else Positions(p, short, long, k - 1) + [Holding(p, short, long, k - 1)]
  }

  /** [a, b) is a stretch of holding that cannot be extended on either side. */
  predicate IsMaximalRun(h: seq<bool>, a: int, b: int) {
    && 0 <= a < b <= |h|
    && (forall k :: a <= k < b ==> h[k])
    && (a == 0 || !h[a - 1])
    && (b == |h| || !h[b])
  }

  datatype Trade = Trade(entry: nat, exit: nat)

  function Trades(h: seq<bool>): (r: seq<Trade>)
    ensures forall i :: 0 <= i < |r| ==> r[i].entry < r[i].exit <= |h|
  {
    if h == [] then []
    else
      var n := |h| - 1;
      var r := Trades(h[..n]);
      if !h[n] then r
      else if r != [] && r[|r| - 1].exit == n then r[..|r| - 1] + [Trade(r[|r| - 1].entry, n + 1)]
      else r + [Trade(n, n + 1)]
  }

  lemma RunExtends(h: seq<bool>, a: nat, b: nat)
    requires h != []
    ensures var n := |h| - 1; var g := h[..n];
            IsMaximalRun(h, a, b) <==>
            if !h[n] then IsMaximalRun(g, a, b)
            else if b <= n then b < n && IsMaximalRun(g, a, b)
            else b == n + 1 && (IsMaximalRun(g, a, n) || (a == n && (n == 0 || !h[n - 1])))
  {
    var n := |h| - 1;
    if h[n] && b == n + 1 && a < n {
      assert IsMaximalRun(h, a, b) <==> IsMaximalRun(h[..n], a, n);
    }
  }

  /** What one more position does to the list of trades. */
  lemma TradesGrow(h: seq<bool>)
    requires h != []
    ensures var n := |h| - 1; var r := Trades(h[..n]);
            Trades(h) ==
            if !h[n] then r
            else if r != [] && r[|r| - 1].exit == n then r[..|r| - 1] + [Trade(r[|r| - 1].entry, n + 1)]
            else r + [Trade(n, n + 1)]
  {
  }

  lemma LastTradeMembership(r: seq<Trade>, t: Trade, n: nat)
    requires r != [] && InOrder(r)
    requires forall i :: 0 <= i < |r| ==> r[i].entry < r[i].exit
    requires r[|r| - 1].exit == n
    ensures t in r[..|r| - 1] <==> t in r && t.exit != n
  {
    if t in r {
      var i :| 0 <= i < |r| && r[i] == t;
      if i < |r| - 1 {
        assert r[..|r| - 1][i] == t;
      }
    }
  }

  ghost predicate InOrder(r: seq<Trade>) {
    forall i, j :: 0 <= i < j < |r| ==> r[i].exit < r[j].entry
  }

  lemma ExtendInOrder(r: seq<Trade>, n: nat)
    requires InOrder(r) && r != [] && r[|r| - 1].exit == n
    ensures InOrder(r[..|r| - 1] + [Trade(r[|r| - 1].entry, n + 1)])
  {
  }

  /** A new trade at n comes after all others once the last of them has ended before n. */
  lemma AppendInOrder(r: seq<Trade>, n: nat)
    requires InOrder(r) && (forall i :: 0 <= i < |r| ==> r[i].entry < r[i].exit)
    requires r != [] ==> r[|r| - 1].exit < n
    ensures InOrder(r + [Trade(n, n + 1)])
  {
  }

  lemma {:induction false} TradesOrdered(h: seq<bool>)
    ensures InOrder(Trades(h))
  {
    if h != [] {
      TradesGrow(h);
      var n := |h| - 1;
      var r := Trades(h[..n]);
      TradesOrdered(h[..n]);
      TradesLast(h[..n]);
      hide Trades, InOrder;
      if h[n] {
        if r != [] && r[|r| - 1].exit == n {
          ExtendInOrder(r, n);
        } else {
          AppendInOrder(r, n);
        }
      }
    }
  }

  /** A stretch is open at the end exactly when the last position is a holding one. */
  lemma TradesLast(h: seq<bool>)
    ensures h != [] && h[|h| - 1] <==> Trades(h) != [] && Trades(h)[|Trades(h)| - 1].exit == |h|
  {
  }

  /** Trades lists exactly the maximal holding runs; TradesOrdered adds that they come in order. */
  lemma {:induction false} TradesAreMaximalRuns(h: seq<bool>)
    ensures forall a: nat, b: nat :: Trade(a, b) in Trades(h) <==> IsMaximalRun(h, a, b)
  {
    if h != [] {
      hide Trades;
      TradesAreMaximalRuns(h[..|h| - 1]);
      forall a: nat, b: nat
        ensures Trade(a, b) in Trades(h) <==> IsMaximalRun(h, a, b)
      {
        TradesStep(h, a, b);
      }
    }
  }

  /** Lengthening the last trade swaps one member of the list for another. */
  lemma LastTradeReplaced(r: seq<Trade>, n: nat, t: Trade)
    requires r != [] && InOrder(r) && (forall i :: 0 <= i < |r| ==> r[i].entry < r[i].exit) && r[|r| - 1].exit == n
    ensures var last := r[|r| - 1];
            && (t in r[..|r| - 1] + [Trade(last.entry, n + 1)] <==>
                (t in r && t.exit != n) || t == Trade(last.entry, n + 1))
            && (t in r && t.exit == n ==> t == last) && last in r
  {
    LastTradeMembership(r, t, n);
    if t in r && t != r[|r| - 1] {
      var i :| 0 <= i < |r| && r[i] == t;
    }
  }

  lemma TradesStep(h: seq<bool>, a: nat, b: nat)
    requires h != []
    requires var n := |h| - 1; var g := h[..n]; var r := Trades(g);
             && (Trade(a, b) in r <==> IsMaximalRun(g, a, b))
             && (Trade(a, n) in r <==> IsMaximalRun(g, a, n))
    ensures Trade(a, b) in Trades(h) <==> IsMaximalRun(h, a, b)
  {
    var n := |h| - 1;
    var g := h[..n];
    var r := Trades(g);
    TradesGrow(h);
    RunExtends(h, a, b);
    RunsEndInside(g, a, b);
    TradesLast(g);
    TradesOrdered(g);
    assert n > 0 ==> g[n - 1] == h[n - 1];
    hide Trades, IsMaximalRun, InOrder;
    if !h[n] {
    } else if n > 0 && h[n - 1] {
      LastTradeReplaced(r, n, Trade(a, b));
      LastTradeReplaced(r, n, Trade(a, n));
      MovedEnd(r, Trades(h), a, b, n);
    } else {
      MemberOfAppend(r, Trade(n, n + 1), Trade(a, b));
    }
  }

  lemma MemberOfAppend(r: seq<Trade>, last: Trade, t: Trade)
    ensures t in r + [last] <==> t in r || t == last
  {
  }

  /** With the last trade moved from n to n + 1, the others keep their ends before n. */
  lemma MovedEnd(r: seq<Trade>, moved: seq<Trade>, a: nat, b: nat, n: nat)
    requires r != []
    requires Trade(a, b) in moved <==> (Trade(a, b) in r && b != n) || Trade(a, b) == Trade(r[|r| - 1].entry, n + 1)
    requires r[|r| - 1] in r && r[|r| - 1].exit == n && (Trade(a, n) in r ==> Trade(a, n) == r[|r| - 1])
    requires Trade(a, b) in r ==> b <= n
    ensures Trade(a, b) in moved <==> if b <= n then b < n && Trade(a, b) in r else b == n + 1 && Trade(a, n) in r
  {
    assert r[|r| - 1] == Trade(r[|r| - 1].entry, n);
  }

  lemma RunsEndInside(h: seq<bool>, a: nat, b: nat)
    ensures IsMaximalRun(h, a, b) ==> b <= |h| && (b == |h| ==> h[|h| - 1])
  {
  }

  /** The product of exit price over entry price. */
  function TradeProduct(p: seq<real>, trades: seq<Trade>): real
    requires forall i :: 0 <= i < |trades| ==> trades[i].entry < |p| && trades[i].exit < |p|
  {
    if trades == [] then 1.0
    else
      var t := trades[|trades| - 1];
      Grow(TradeProduct(p, trades[..|trades| - 1]), p[t.entry], p[t.exit])
  }

  lemma TradeProductAppend(p: seq<real>, r: seq<Trade>, t: Trade)
    requires t.entry < |p| && t.exit < |p|
    requires forall i :: 0 <= i < |r| ==> r[i].entry < |p| && r[i].exit < |p|
    ensures TradeProduct(p, r + [t]) == Grow(TradeProduct(p, r), p[t.entry], p[t.exit])
  {
    hide Grow;
    assert (r + [t])[..|r + [t]| - 1] == r;
  }

  /** Moving the exit of the last trade from x to y multiplies the product by the price ratio. */
  lemma TradeProductExtend(p: seq<real>, r: seq<Trade>, a: nat, x: nat, y: nat)
    requires a < |p| && x < |p| && y < |p| && p[a] != 0.0 && p[x] != 0.0
    requires forall i :: 0 <= i < |r| ==> r[i].entry < |p| && r[i].exit < |p|
    ensures TradeProduct(p, r + [Trade(a, y)]) == Grow(TradeProduct(p, r + [Trade(a, x)]), p[x], p[y])
  {
    hide Grow;
    TradeProductAppend(p, r, Trade(a, y));
    TradeProductAppend(p, r, Trade(a, x));
    Telescope(TradeProduct(p, r), p[a], p[x], p[y]);
  }

  lemma Telescope(f: real, a: real, b: real, c: real)
    requires a != 0.0 && b != 0.0
    ensures Grow(Grow(f, a, b), b, c) == Grow(f, a, c)
  {
    QuotientChain(a, b, c);
    assert (f * (b / a)) * (c / b) == f * ((b / a) * (c / b));
  }

  lemma PositionsStep(p: seq<real>, short: nat, long: nat, k: nat)
    requires 0 < k < |p|
    ensures var h := Positions(p, short, long, k);
            |h| == k && h[..k - 1] == Positions(p, short, long, k - 1) && h[k - 1] == Holding(p, short, long, k - 1)
  {
  }

  /**
   * Equity after price k is the product, over the maximal runs of holding before k, of exit
   * price over entry price; a run still open at k is valued at price k.
   */
  lemma {:induction false} EquityIsTradeProduct(p: seq<real>, short: nat, long: nat, k: nat)
    requires k < |p| && AllNonZero(p)
    ensures Equity(p, short, long, k) == TradeProduct(p, Trades(Positions(p, short, long, k)))
  {
    if k > 0 {
      EquityIsTradeProduct(p, short, long, k - 1);
      EquityStep(p, short, long, k);
      PositionsStep(p, short, long, k);
      hide *;
      TradeProductStep(p, Positions(p, short, long, k), k);
    }
  }

  lemma TradeProductStep(p: seq<real>, h: seq<bool>, k: nat)
    requires 0 < k < |p| && |h| == k && AllNonZero(p)
    ensures TradeProduct(p, Trades(h)) ==
            if h[k - 1] then Grow(TradeProduct(p, Trades(h[..k - 1])), p[k - 1], p[k])
            else TradeProduct(p, Trades(h[..k - 1]))
  {
    hide Trades, TradeProduct, Grow;
    TradesGrow(h);
    var r := Trades(h[..k - 1]);
    if h[k - 1] {
      if r != [] && r[|r| - 1].exit == k - 1 {
        var a := r[|r| - 1].entry;
        assert r == r[..|r| - 1] + [Trade(a, k - 1)];
        TradeProductExtend(p, r[..|r| - 1], a, k - 1, k);
      } else {
        TradeProductAppend(p, r, Trade(k - 1, k));
      }
    }
  }

  lemma {:induction false} EquityPositive(p: seq<real>, short: nat, long: nat, i: nat)
    requires i < |p| && AllPositive(p)
    ensures Equity(p, short, long, i) > 0.0
  {
    if i > 0 {
      EquityPositive(p, short, long, i - 1);
      QuotientPositive(p[i], p[i - 1]);
      MulPositive(Equity(p, short, long, i - 1), p[i] / p[i - 1]);
    }
  }

  lemma MulPositive(x: real, y: real)
    requires x > 0.0 && y > 0.0
    ensures x * y > 0.0
  {
  }

  // ----- A falling market is never bought -----

  ghost predicate NonIncreasing(s: seq<real>) {
    forall i, j :: 0 <= i <= j < |s| ==> s[j] <= s[i]
  }

  /** The mean of a suffix of a non-increasing list is at most the mean of the list. */
  lemma SuffixMeanAtMostMean(s: seq<real>, k: nat)
    requires 0 < k <= |s| && NonIncreasing(s)
    ensures Sum(s[|s| - k..]) / (k as real) <= Sum(s) / (|s| as real)
  {
    hide Times, Sum;
    var a, b := s[..|s| - k], s[|s| - k..];
    SplitSums(s, a, b);
    hide NonIncreasing;
    CrossMean(Sum(a), |a|, Sum(b), k, Sum(s), |s|, b[0]);
  }

  /** The values before a suffix are at least its first one, those in it at most. */
  lemma SplitSums(s: seq<real>, a: seq<real>, b: seq<real>)
    requires NonIncreasing(s) && s == a + b && b != []
    ensures Sum(s) == Sum(a) + Sum(b)
    ensures Times(|a|, b[0]) <= Sum(a) && Sum(b) <= Times(|b|, b[0])
  {
    hide Times, Sum;
    var m := b[0];
    assert m == s[|a|];
    forall i | 0 <= i < |a| ensures m <= a[i] { assert a[i] == s[i]; }
    forall i | 0 <= i < |b| ensures b[i] <= m { assert b[i] == s[|a| + i]; }
    SumConcat(a, b);
    SumAtLeast(a, m);
    SumAtMost(b, m);
  }

  lemma CrossMean(sa: real, na: nat, sb: real, nb: nat, s: real, n: nat, m: real)
    requires nb > 0 && n == na + nb && s == sa + sb
    requires Times(na, m) <= sa && sb <= Times(nb, m)
    ensures sb / nb as real <= s / n as real
  {
    var ra, rb := na as real, nb as real;
    var q := sb / rb;
    QuotientTimes(sb, rb);
    QuotientUnique(m, rb * m, rb);
    QuotientMonotone(sb, rb * m, rb);
    MulMonotone(ra, q, m);
    assert (ra + rb) * q == ra * q + q * rb;
    assert q * rb == sb;
    QuotientUnique(q, (ra + rb) * q, ra + rb);
    QuotientMonotone((ra + rb) * q, s, n as real);
  }

  lemma MulMonotone(f: real, x: real, y: real)
    requires f >= 0.0 && x <= y
    ensures f * x <= f * y
  {
  }

  lemma NotAbove(a: real, m: nat, b: real, n: nat)
    requires m > 0 && n > 0 && a / (m as real) <= b / (n as real)
    ensures !Above(Ratio(a, m), Ratio(b, n))
  {
  }

  lemma SingleRatio(price: real)
    ensures Ratio(price, 1) == Some(price)
  {
  }

  lemma FallingMarketNotHeld(p: seq<real>, short: nat, long: nat, i: nat)
    requires i < |p| && NonIncreasing(p)
    ensures !Holding(p, short, long, i)
  {
    var w := Window(p, long, i);
    if short > 0 && w != [] {
      assert w[|w| - 1] == p[i];
      var k := if |w| >= short then short else 1;
      var suffix := w[|w| - k..];
      SuffixMeanAtMostMean(w, k);
      NotAbove(Sum(suffix), k, Sum(w), |w|);
      if |w| < short {
        assert suffix == [p[i]] && Sum(suffix) == Sum(suffix[..0]) + p[i];
        SingleRatio(p[i]);
      }
      hide Ratio, Sum, Above, Window, NonIncreasing;
    }
  }

  /** On a non-increasing price list the equity curve is 1 throughout, for all windows. */
  lemma {:induction false} FallingMarketNeverBought(p: seq<real>, short: nat, long: nat, i: nat)
    requires i < |p| && NonIncreasing(p)
    ensures Equity(p, short, long, i) == 1.0
  {
    if i > 0 {
      FallingMarketNotHeld(p, short, long, i - 1);
      FallingMarketNeverBought(p, short, long, i - 1);
    }
  }

  // ----- When the asset is held -----

  /** Two quotients compare as their cross products. */
  lemma CrossProducts(a: real, m: nat, b: real, n: nat)
    requires m > 0 && n > 0
    ensures Above(Ratio(a, m), Ratio(b, n)) <==> Times(n, a) > Times(m, b)
  {
    var rm, rn := m as real, n as real;
    var x, y := a / rm, b / rn;
    QuotientTimes(a, rm);
    QuotientTimes(b, rn);
    assert Times(n, a) - Times(m, b) == (rm * rn) * (x - y) by {
      assert rn * a == rn * (x * rm) == (rm * rn) * x;
      assert rm * b == rm * (y * rn) == (rm * rn) * y;
    }
    MulPositive(rm, rn);
    if x > y {
      MulPositive(rm * rn, x - y);
    } else {
      MulMonotone(rm * rn, 0.0, y - x);
    }
  }

  /**
   * The rule on the prices alone.  With n = min(i + 1, long) prices in the window, the asset is
   * held after price i exactly when the last `short` of them have the higher mean, or, while
   * there are fewer than `short`, when price i lies above their mean.  Windows of length 0 never hold.
   */
  lemma HoldingExactly(p: seq<real>, short: nat, long: nat, i: nat)
    requires i < |p|
    ensures var n := if i + 1 < long then i + 1 else long;
            Holding(p, short, long, i) <==>
              n > 0 && short > 0 &&
              if short <= n then Times(n, Sum(p[i + 1 - short..i + 1])) > Times(short, Sum(p[i + 1 - n..i + 1]))
              else Times(n, p[i]) > Sum(p[i + 1 - n..i + 1])
  {
    hide Times, Above, Sum, Ratio, Holding;
    var n := if i + 1 < long then i + 1 else long;
    var w := Window(p, long, i);
    assert w == p[i + 1 - n..i + 1];
    HoldingMeans(p, short, long, i);
    if n == 0 || short == 0 {
      NoRatioNoHold(p, short, long, i);
    } else if short <= n {
      assert w[n - short..] == p[i + 1 - short..i + 1];
      CrossProducts(Sum(w[n - short..]), short, Sum(w), n);
    } else {
      SingleRatio(p[i]);
      CrossProducts(p[i], 1, Sum(w), n);
      OneTimes(Sum(w));
    }
  }

  lemma NoRatioNoHold(p: seq<real>, short: nat, long: nat, i: nat)
    requires i < |p| && (short == 0 || long == 0)
    ensures !Holding(p, short, long, i)
  {
    hide Sum;
  }

  ghost predicate Increasing(s: seq<real>) {
    forall i, j :: 0 <= i < j < |s| ==> s[i] < s[j]
  }

  lemma {:induction false} SumAbove(s: seq<real>, low: real)
    requires s != [] && forall i :: 0 <= i < |s| ==> low < s[i]
    ensures Times(|s|, low) < Sum(s)
  {
    if |s| > 1 {
      SumAbove(s[..|s| - 1], low);
    } else {
      assert s[..0] == [];
    }
  }

  lemma {:induction false} SumBelow(s: seq<real>, high: real)
    requires s != [] && forall i :: 0 <= i < |s| ==> s[i] < high
    ensures Sum(s) < Times(|s|, high)
  {
    if |s| > 1 {
      SumBelow(s[..|s| - 1], high);
    } else {
      assert s[..0] == [];
    }
  }

  /** The values before an end of a rising list are below its first one, those in it at least that. */
  lemma SplitRising(s: seq<real>, a: seq<real>, b: seq<real>)
    requires Increasing(s) && s == a + b && a != [] && b != []
    ensures Sum(s) == Sum(a) + Sum(b) && Sum(a) < Times(|a|, b[0]) && Times(|b|, b[0]) <= Sum(b)
  {
    hide Sum, Times;
    var m := b[0];
    assert m == s[|a|];
    forall i | 0 <= i < |a| ensures a[i] < m { assert a[i] == s[i]; }
    forall i | 0 <= i < |b| ensures m <= b[i] { assert b[i] == s[|a| + i]; }
    hide Increasing;
    SumConcat(a, b);
    SumBelow(a, m);
    SumAtLeast(b, m);
  }

  /** A shorter end of a rising list has the higher mean. */
  lemma RisingEndIsHigher(s: seq<real>, k: nat)
    requires 0 < k < |s| && Increasing(s)
    ensures Times(|s|, Sum(s[|s| - k..])) > Times(k, Sum(s))
  {
    hide Increasing, Sum, Times;
    var a, b := s[..|s| - k], s[|s| - k..];
    SplitRising(s, a, b);
    RisingMeans(Sum(a), |a|, Sum(b), k, b[0]);
  }

  lemma RisingMeans(sa: real, na: nat, sb: real, nb: nat, m: real)
    requires na > 0 && nb > 0 && sa < Times(na, m) && Times(nb, m) <= sb
    ensures Times(na + nb, sb) > Times(nb, sa + sb)
  {
    var ra, rb := na as real, nb as real;
    var up, down := sb - rb * m, ra * m - sa;
    assert ra * up == ra * sb - ra * (rb * m) && rb * down == rb * (ra * m) - rb * sa;
    assert ra * (rb * m) == rb * (ra * m);
    assert ra * up + rb * down == ra * sb - rb * sa;
    assert (ra + rb) * sb == ra * sb + rb * sb && rb * (sa + sb) == rb * sa + rb * sb;
    MulMonotone(ra, 0.0, up);
    MulPositive(rb, down);
    assert (na + nb) as real == ra + rb;
  }

  /** The two comparisons of the rule, on a rising window. */
  lemma RisingWindow(w: seq<real>, k: nat)
    requires w != [] && k > 0 && Increasing(w)
    ensures k <= |w| ==> (Times(|w|, Sum(w[|w| - k..])) > Times(k, Sum(w)) <==> k < |w|)
    ensures Times(|w|, w[|w| - 1]) > Sum(w) <==> |w| > 1
  {
    hide Sum, Times, Increasing;
    var n := |w|;
    if k < n {
      RisingEndIsHigher(w, k);
    } else {
      assert w[0..] == w;
    }
    assert w[n - 1..] == [w[n - 1]];
    SumOfOne(w[n - 1]);
    OneTimes(Sum(w));
    OneTimes(w[n - 1]);
    if n > 1 {
      RisingEndIsHigher(w, 1);
    } else {
      assert w == [w[0]];
    }
  }

  /**
   * In a rising market the asset is held after every price from the second one on, except where
   * the short window covers the whole long one: after price short - 1, and always if short = long.
   */
  lemma RisingMarketHeld(p: seq<real>, short: nat, long: nat, i: nat)
    requires i < |p| && Increasing(p)
    ensures var n := if i + 1 < long then i + 1 else long;
            Holding(p, short, long, i) <==> short > 0 && n >= 2 && short != n
  {
    hide Holding, Sum, Times, Increasing;
    var n := if i + 1 < long then i + 1 else long;
    var w := p[i + 1 - n..i + 1];
    HoldingExactly(p, short, long, i);
    if short > 0 && n > 0 {
      IncreasingSlice(p, i + 1 - n, i + 1);
      assert w[n - 1] == p[i];
      assert short <= n ==> w[n - short..] == p[i + 1 - short..i + 1];
      RisingWindow(w, short);
    }
  }

  lemma IncreasingSlice(p: seq<real>, from: nat, to: nat)
    requires from <= to <= |p| && Increasing(p)
    ensures Increasing(p[from..to])
  {
  }

  lemma OneTimes(x: real)
    ensures Times(1, x) == x
  {
  }

  lemma SumOfOne(x: real)
    ensures Sum([x]) == x
  {
    assert [x][..0] == [];
  }

  /** With 1 <= short < long it is held from the second price on, but for the moment the short window first fills. */
  lemma RisingMarketFollowed(p: seq<real>, short: nat, long: nat, i: nat)
    requires 0 < i < |p| && Increasing(p) && 1 <= short < long && (forall k :: 0 <= k < |p| ==> p[k] > 0.0)
    ensures i == 1 || i == short ==> Equity(p, short, long, i) == Equity(p, short, long, i - 1)
    ensures i != 1 && i != short ==>
              Equity(p, short, long, i) * p[i - 1] == Equity(p, short, long, i - 1) * p[i]
  {
    RisingMarketHeld(p, short, long, i - 1);
    EquityFollows(p, short, long, i);
    hide Equity, Holding;
  }

  // ----- Two runs: causality and independence of the price unit -----

  /** Equity after price i does not depend on later prices. */
  lemma {:induction false} NoLookAhead(p: seq<real>, q: seq<real>, short: nat, long: nat, i: nat)
    requires i < |p| && i < |q|
    requires p[..i + 1] == q[..i + 1]
    ensures Equity(p, short, long, i) == Equity(q, short, long, i)
  {
    if i > 0 {
      assert p[..i] == p[..i + 1][..i] == q[..i + 1][..i] == q[..i];
      assert p[i] == p[..i + 1][i] == q[..i + 1][i] == q[i];
      assert p[i - 1] == p[..i][i - 1] == q[..i][i - 1] == q[i - 1];
      NoLookAhead(p, q, short, long, i - 1);
      HoldingIsCausal(p, q, short, long, i - 1);
    }
  }

  lemma HoldingIsCausal(p: seq<real>, q: seq<real>, short: nat, long: nat, i: nat)
    requires i < |p| && i < |q| && p[..i + 1] == q[..i + 1]
    ensures Holding(p, short, long, i) == Holding(q, short, long, i)
  {
    var from := if i + 1 > long then i + 1 - long else 0;
    assert Window(p, long, i) == p[..i + 1][from..];
    assert Window(q, long, i) == q[..i + 1][from..];
    assert p[i] == p[..i + 1][i] == q[..i + 1][i] == q[i];
  }

  lemma HoldingIgnoresUnit(p: seq<real>, c: real, short: nat, long: nat, i: nat)
    requires i < |p| && c > 0.0
    ensures Holding(Scaled(p, c), short, long, i) == Holding(p, short, long, i)
  {
    hide Ratio, Scale;
    var w := Window(p, long, i);
    var v := Window(Scaled(p, c), long, i);
    ScaledSlice(p, c, if i + 1 > long then i + 1 - long else 0, i + 1);
    assert v == Scaled(w, c);
    AverageIgnoresUnit(w, v, c, short, p[i], Scaled(p, c)[i]);
  }

  lemma AverageIgnoresUnit(w: seq<real>, v: seq<real>, c: real, short: nat, price: real, cprice: real)
    requires c > 0.0 && v == Scaled(w, c) && cprice == Scale(c, price)
    ensures Above(ShortAverage(v, short, cprice), Ratio(Sum(v), |v|))
         == Above(ShortAverage(w, short, price), Ratio(Sum(w), |w|))
  {
    hide Ratio, Scale, Sum, Above;
    assert Sum(v) == Scale(c, Sum(w)) by { SumScaled(w, c); }
    if |w| >= short {
      var u := w[|w| - short..];
      assert v[|v| - short..] == Scaled(u, c) by { ScaledSuffix(w, c, |w| - short); }
      hide Scaled;
      SumScaled(u, c);
      AboveIgnoresUnit(Sum(Scaled(u, c)), Sum(u), short, Sum(v), Sum(w), |w|, c);
    } else {
      AboveIgnoresUnit(cprice, price, 1, Sum(v), Sum(w), |w|, c);
    }
  }

  lemma AboveIgnoresUnit(ca: real, a: real, m: nat, cb: real, b: real, n: nat, c: real)
    requires c > 0.0 && ca == Scale(c, a) && cb == Scale(c, b)
    ensures Above(Ratio(ca, m), Ratio(cb, n)) == Above(Ratio(a, m), Ratio(b, n))
    ensures Above(Some(ca), Ratio(cb, n)) == Above(Some(a), Ratio(b, n))
  {
    RatioScaled(c, a, m);
    RatioScaled(c, b, n);
    hide Ratio, Scale;
    if Ratio(b, n).Some? {
      ScaledOrder(a, Ratio(b, n).value, c);
      if Ratio(a, m).Some? {
        ScaledOrder(Ratio(a, m).value, Ratio(b, n).value, c);
      }
    }
  }

  lemma RatioScaled(c: real, a: real, n: nat)
    ensures Ratio(Scale(c, a), n) == if n == 0 then None else Some(Scale(c, Ratio(a, n).value))
    ensures Ratio(a, n).None? <==> n == 0
  {
    if n > 0 {
      var d := n as real;
      QuotientScaled(c, a, d);
      assert Scale(c, a) / d == Scale(c, a / d);
      hide Scale;
    }
  }

  lemma ScaledOrder(x: real, y: real, c: real)
    requires c > 0.0
    ensures Scale(c, x) > Scale(c, y) <==> x > y
  {
  }

  /** Multiplying every price by the same positive factor leaves the equity curve unchanged. */
  lemma {:induction false} UnitIndependent(p: seq<real>, c: real, short: nat, long: nat, i: nat)
    requires i < |p| && c > 0.0
    ensures Equity(Scaled(p, c), short, long, i) == Equity(p, short, long, i)
  {
    hide Grow, Scale;
    if i > 0 {
      var q := Scaled(p, c);
      UnitIndependent(p, c, short, long, i - 1);
      HoldingIgnoresUnit(p, c, short, long, i - 1);
      GrowIgnoresUnit(Equity(p, short, long, i - 1), c, p[i - 1], p[i], q[i - 1], q[i]);
    }
  }

  lemma GrowIgnoresUnit(equity: real, c: real, from: real, to: real, cfrom: real, cto: real)
    requires c != 0.0 && cfrom == Scale(c, from) && cto == Scale(c, to)
    ensures Grow(equity, cfrom, cto) == Grow(equity, from, to)
  {
    if from != 0.0 {
      QuotientSameFactor(c, to, from);
    }
  }
}
