/** The figures reported about an equity curve: returns, total return and drawdown. */
module Metrics {
  import opened MovingAverage
  import opened Prelude
  import opened Quotients

  datatype Report = Report(changes: seq<real>, totalReturn: real, maxDrawdown: real)

  /** The relative change from one value to another. */
  function Change(from: real, to: real): real
    requires from != 0.0
  {
    to / from - 1.0
  }

  lemma ChangeFacts(a: real, b: real, x: real)
    requires 0.0 < a <= b
    ensures x > 0.0 ==> Change(b, x) <= Change(a, x)
    ensures x > 0.0 ==> Change(a, x) > -1.0
    ensures Change(a, a) == 0.0
    ensures Change(a, b) >= 0.0
  {
    QuotientUnique(1.0, a, a);
    QuotientMonotone(a, b, a);
    if x > 0.0 {
      QuotientPositive(x, a);
      QuotientAntitone(x, a, b);
    }
  }

  /** The change times its base is the difference. */
  lemma ChangeTimes(from: real, to: real)
    requires from != 0.0
    ensures Change(from, to) * from == to - from
  {
    QuotientTimes(to, from);
    assert (to / from - 1.0) * from == (to / from) * from - from;
  }

  function Values(curve: seq<EquityPoint>): (r: seq<real>)
    ensures |r| == |curve| && forall i :: 0 <= i < |curve| ==> r[i] == curve[i].value
  {
    seq(|curve|, i requires 0 <= i < |curve| => curve[i].value)
  }

  /** Changes between neighbours, leaving out those that start at or below zero. */
  function Returns(v: seq<real>): seq<real> {
    if |v| < 2 then []
    else
      var n := |v| - 1;
      Returns(v[..n]) + if v[n - 1] > 0.0 then [Change(v[n - 1], v[n])] else []
  }

  /** How many of the first n values are positive. */
  function Positives(v: seq<real>, n: nat): nat
    requires n <= |v|
  {
    if n == 0 then 0 else Positives(v, n - 1) + if v[n - 1] > 0.0 then 1 else 0
  }

  lemma {:induction false} PositivesOfPrefix(v: seq<real>, m: nat, n: nat)
    requires n <= m <= |v|
    ensures Positives(v[..m], n) == Positives(v, n) && Positives(v, n) <= Positives(v, m)
  {
    if n > 0 {
      PositivesOfPrefix(v, m, n - 1);
    }
    if n < m {
      PositivesOfPrefix(v, m - 1, n);
    }
  }

  lemma {:induction false} ReturnsCount(v: seq<real>)
    requires v != []
    ensures |Returns(v)| == Positives(v, |v| - 1)
  {
    hide Change;
    var n := |v| - 1;
    if n > 0 {
      ReturnsCount(v[..n]);
      PositivesOfPrefix(v, n, n - 1);
    }
  }

  lemma {:induction false} ReturnAt(v: seq<real>, i: nat)
    requires i < |v| - 1 && v[i] > 0.0
    ensures Positives(v, i) < |Returns(v)| && Returns(v)[Positives(v, i)] == Change(v[i], v[i + 1])
  {
    hide Change;
    var n := |v| - 1;
    var u := v[..n];
    PositivesOfPrefix(v, n, i);
    if i < n - 1 {
      ReturnAt(u, i);
      assert Returns(v)[..|Returns(u)|] == Returns(u);
    } else {
      ReturnsCount(u);
    }
  }

  /**
   * Of any curve: each positive value but the last has its return, in order, which is its change
   * to the next value; there are no other returns.
   */
  lemma ReturnsExactly(v: seq<real>)
    requires v != []
    ensures |Returns(v)| == Positives(v, |v| - 1)
    ensures forall i :: 0 <= i < |v| - 1 && v[i] > 0.0 ==>
              Positives(v, i) < |Returns(v)| && Returns(v)[Positives(v, i)] == Change(v[i], v[i + 1])
  {
    hide Returns, Change, Positives;
    ReturnsCount(v);
    forall i | 0 <= i < |v| - 1 && v[i] > 0.0
      ensures Positives(v, i) < |Returns(v)| && Returns(v)[Positives(v, i)] == Change(v[i], v[i + 1])
    {
      ReturnAt(v, i);
    }
  }

  /** The quadratic definition: the least change between any two points in time order. */
  ghost predicate IsMaxDrawdown(v: seq<real>, dd: real)
    requires AllPositive(v)
  {
    && (forall i, j :: 0 <= i <= j < |v| ==> dd <= Change(v[i], v[j]))
    && (exists i, j :: 0 <= i <= j < |v| && dd == Change(v[i], v[j]))
  }

  /** The highest of the first n values. */
  function Peak(v: seq<real>, n: nat): real
    requires 0 < n <= |v|
  {
    if n == 1 then v[0]
    else
      var before := Peak(v, n - 1);
      if v[n - 1] > before then v[n - 1] else before
  }

  lemma {:induction false} PeakIsHighest(v: seq<real>, n: nat)
    requires 0 < n <= |v|
    ensures (forall i :: 0 <= i < n ==> v[i] <= Peak(v, n)) && (exists i :: 0 <= i < n && v[i] == Peak(v, n))
  {
    if n == 1 {
      assert v[0] == Peak(v, 1);
    } else {
      PeakIsHighest(v, n - 1);
      var i :| 0 <= i < n - 1 && v[i] == Peak(v, n - 1);
      assert v[i] == Peak(v, n) || v[n - 1] == Peak(v, n);
    }
  }

  /** Value j is this far below a positive peak so far. */
  ghost predicate IsDrop(v: seq<real>, j: nat, dd: real)
    requires j < |v|
  {
    Peak(v, j + 1) > 0.0 && dd == Change(Peak(v, j + 1), v[j])
  }

  /** The deepest of the drops below a positive running peak among the first n values, 0 if there is none. */
  ghost predicate IsPeakDrawdown(v: seq<real>, n: nat, dd: real)
    requires n <= |v|
  {
    && dd <= 0.0
    && (forall j :: 0 <= j < n && Peak(v, j + 1) > 0.0 ==> dd <= Change(Peak(v, j + 1), v[j]))
    && (dd == 0.0 || exists j :: 0 <= j < n && IsDrop(v, j, dd))
  }

  /** One more value: only its own drop below the running peak can deepen the drawdown. */
  lemma DrawdownStep(v: seq<real>, n: nat, dd: real, next: real)
    requires n < |v| && IsPeakDrawdown(v, n, dd)
    requires var peak := Peak(v, n + 1);
             next == if peak > 0.0 && Change(peak, v[n]) < dd then Change(peak, v[n]) else dd
    ensures IsPeakDrawdown(v, n + 1, next)
  {
    hide Change, Peak;
    if next != dd {
      assert IsDrop(v, n, next);
    }
  }

  /** On a positive curve the drop below the running peak is as deep as the quadratic definition looks. */
  lemma PeakDrawdownIsMax(v: seq<real>, dd: real)
    requires v != [] && AllPositive(v) && IsPeakDrawdown(v, |v|, dd)
    ensures IsMaxDrawdown(v, dd)
  {
    hide Change, Peak;
    forall i, j | 0 <= i <= j < |v|
      ensures dd <= Change(v[i], v[j])
    {
      PeakIsHighest(v, j + 1);
      ChangeFacts(v[i], Peak(v, j + 1), v[j]);
    }
    if dd == 0.0 {
      ChangeFacts(v[0], v[0], v[0]);
      assert dd == Change(v[0], v[0]);
    } else {
      var j :| 0 <= j < |v| && IsDrop(v, j, dd);
      PeakIsHighest(v, j + 1);
      var i :| 0 <= i < j + 1 && v[i] == Peak(v, j + 1);
      assert dd == Change(v[i], v[j]);
    }
  }

  /** Positive or not, the figures are those of the curve; on a positive one the drawdown is the quadratic one. */
  method BuildMetrics(curve: seq<EquityPoint>) returns (m: Option<Report>)
    ensures m.None? <==> curve == []
    ensures m.Some? ==>
              var v := Values(curve);
              && m.value.changes == Returns(v)
              && m.value.totalReturn == (if v[0] > 0.0 then Change(v[0], v[|v| - 1]) else 0.0)
              && IsPeakDrawdown(v, |v|, m.value.maxDrawdown)
              && (AllPositive(v) ==> IsMaxDrawdown(v, m.value.maxDrawdown))
  {
    if curve == [] {
      return None;
    }
    hide IsMaxDrawdown, IsPeakDrawdown, Change, Peak;
    var v := Values(curve);
    var start := v[0];
    var end := v[|v| - 1];
    var totalReturn := if start > 0.0 then Change(start, end) else 0.0;
    var maxDrawdown := 0.0;
    var peak := v[0];
    NoDrawdownYet(v);
    for n := 0 to |v|
      invariant peak == if n == 0 then v[0] else Peak(v, n)
      invariant IsPeakDrawdown(v, n, maxDrawdown)
    {
      PeakGrows(v, n);
      if v[n] > peak {
        peak := v[n];
      }
      ghost var before := maxDrawdown;
      if peak > 0.0 {
        var drop := Change(peak, v[n]);
        if drop < maxDrawdown {
          maxDrawdown := drop;
        }
      }
      DrawdownStep(v, n, before, maxDrawdown);
    }
    if AllPositive(v) {
      PeakDrawdownIsMax(v, maxDrawdown);
    }
    return Some(Report(Returns(v), totalReturn, maxDrawdown));
  }

  lemma PeakGrows(v: seq<real>, n: nat)
    requires n < |v|
    ensures Peak(v, n + 1) == if n > 0 && v[n] <= Peak(v, n) then Peak(v, n) else v[n]
  {
  }

  lemma NoDrawdownYet(v: seq<real>)
    ensures IsPeakDrawdown(v, 0, 0.0)
  {
  }

  /** Drawdown lies in (-1, 0] and is never above the total return. */
  lemma DrawdownBounds(v: seq<real>, dd: real)
    requires v != [] && AllPositive(v) && IsMaxDrawdown(v, dd)
    ensures -1.0 < dd <= 0.0
    ensures dd <= Change(v[0], v[|v| - 1])
  {
    hide Change;
    var i, j :| 0 <= i <= j < |v| && dd == Change(v[i], v[j]);
    ChangeFacts(v[i], v[i], v[j]);
    ChangeFacts(v[0], v[0], v[0]);
  }

  function Accrue(value: real, change: real): real {
    value * (1.0 + change)
  }

  /** The growth factors 1 + r, multiplied together. */
  function Compounded(changes: seq<real>): real {
    if changes == [] then 1.0 else Accrue(Compounded(changes[..|changes| - 1]), changes[|changes| - 1])
  }

  /** Compounding the returns gives the total return. */
  lemma {:induction false} ReturnsCompound(v: seq<real>)
    requires v != [] && AllPositive(v)
    ensures |Returns(v)| == |v| - 1
    ensures Compounded(Returns(v)) == 1.0 + Change(v[0], v[|v| - 1])
  {
    hide Accrue, Change;
    var n := |v| - 1;
    if n == 0 {
      ChangeFacts(v[0], v[0], v[0]);
    } else {
      ReturnsCompound(v[..n]);
      var r := Returns(v[..n]);
      assert Returns(v)[..|Returns(v)| - 1] == r;
      CompoundStep(Compounded(r), v[0], v[n - 1], v[n]);
    }
  }

  lemma CompoundStep(f: real, a: real, b: real, c: real)
    requires a > 0.0 && b > 0.0 && f == 1.0 + Change(a, b)
    ensures Accrue(f, Change(b, c)) == 1.0 + Change(a, c)
  {
    QuotientChain(a, b, c);
  }
}

/** The moving-average backtest as a whole: the equity curve and the figures about it. */
module Backtest {
  import opened Metrics
  import opened MovingAverage
  import opened Prelude

  method BacktestMa(points: seq<PricePoint>, short: nat, long: nat)
    returns (curve: seq<EquityPoint>, m: Option<Report>)
    requires NoZeroDivisor(Closes(points), long)
    ensures |curve| == |points|
    ensures forall i :: 0 <= i < |points| ==>
              curve[i] == EquityPoint(points[i].timestamp, Equity(Closes(points), short, long, i))
    ensures m.None? <==> points == []
    ensures m.Some? ==>
              && m.value.changes == Returns(Values(curve))
              && m.value.totalReturn == curve[|curve| - 1].value - 1.0
              && IsPeakDrawdown(Values(curve), |curve|, m.value.maxDrawdown)
    ensures m.Some? && AllPositive(Closes(points)) ==>
              && AllPositive(Values(curve))
              && IsMaxDrawdown(Values(curve), m.value.maxDrawdown)
              && -1.0 < m.value.maxDrawdown <= 0.0
              && m.value.maxDrawdown <= m.value.totalReturn
              && |m.value.changes| == |points| - 1
              && Compounded(m.value.changes) == 1.0 + m.value.totalReturn
  {
    hide Equity, Compounded, IsMaxDrawdown, IsPeakDrawdown, Change, NoZeroDivisor;
    curve := RunMovingAverage(points, short, long);
    m := BuildMetrics(curve);
    if m.Some? {
      ghost var p, v := Closes(points), Values(curve);
      StartsAtOne(p, short, long, v[|v| - 1]);
      if AllPositive(p) {
        forall i | 0 <= i < |v| ensures v[i] > 0.0 {
          EquityPositive(p, short, long, i);
        }
        DrawdownBounds(v, m.value.maxDrawdown);
        ReturnsCompound(v);
      }
    }
  }

  lemma StartsAtOne(p: seq<real>, short: nat, long: nat, end: real)
    requires p != []
    ensures Equity(p, short, long, 0) == 1.0
    ensures Change(1.0, end) == end - 1.0
  {
  }
}
