/**
 * The lagged correlation.  The square root is a parameter: any function that gives a
 * non-negative root of every non-negative number.
 */
module Correlation {
  import opened Metrics
  import opened MovingAverage
  import opened Prelude
  import opened Quotients
  import opened RealSums

  ghost predicate IsSquareRoot(sqrt: real -> real) {
    forall v: real :: v >= 0.0 ==> sqrt(v) >= 0.0 && Square(sqrt(v)) == v
  }

  function Product(a: real, b: real): real {
    a * b
  }

  function Square(a: real): real {
    Product(a, a)
  }

  function Average(x: seq<real>): real
    requires x != []
  {
    Sum(x) / |x| as real
  }

  /** The sum of the products of the deviations from mx and my. */
  function CrossSum(x: seq<real>, y: seq<real>, mx: real, my: real): real
    requires |x| == |y|
  {
    if x == [] then 0.0
    else
      var n := |x| - 1;
      CrossSum(x[..n], y[..n], mx, my) + Product(x[n] - mx, y[n] - my)
  }

  /** num^2 <= dx * dy survives one more pair of deviations. */
  lemma CauchySchwarzStep(num: real, dx: real, dy: real, a: real, b: real)
    requires dx >= 0.0 && dy >= 0.0 && Square(num) <= Product(dx, dy)
    ensures Square(num + Product(a, b)) <= Product(dx + Square(a), dy + Square(b))
    ensures dx + Square(a) >= 0.0
  {
    var p, q := dx * (b * b), dy * (a * a);
    var t := num * (a * b);
    assert a * a >= 0.0 && b * b >= 0.0;
    assert p >= 0.0 && q >= 0.0;
    TwiceProduct(num, dx, dy, a, b);
    assert (num + a * b) * (num + a * b) == num * num + 2.0 * t + (a * a) * (b * b) by {
      assert (a * b) * (a * b) == (a * a) * (b * b);
    }
    assert (dx + a * a) * (dy + b * b) == dx * dy + p + q + (a * a) * (b * b);
  }

  lemma SquareOrder(a: real, b: real)
    requires b >= 0.0 && a * a <= b * b
    ensures -b <= a <= b
  {
    assert (a - b) * (a + b) <= 0.0 && (b - a) * (-a - b) <= 0.0;
    if a > b {
      MulPositive(a - b, a + b);
    } else if a < -b {
      MulPositive(b - a, -a - b);
    }
  }

  /** The arithmetic-geometric step: 2*num*a*b <= dx*b^2 + dy*a^2. */
  lemma TwiceProduct(num: real, dx: real, dy: real, a: real, b: real)
    requires dx >= 0.0 && dy >= 0.0 && num * num <= dx * dy
    ensures 2.0 * (num * (a * b)) <= dx * (b * b) + dy * (a * a)
  {
    var s := dx * (b * b) + dy * (a * a);
    var t := num * (a * b);
    var p, q := dx * (b * b), dy * (a * a);
    assert b * b >= 0.0 && a * a >= 0.0;
    assert p >= 0.0 && q >= 0.0;
    assert p * q == (dx * dy) * ((a * a) * (b * b));
    assert t * t == (num * num) * ((a * a) * (b * b));
    assert t * t <= p * q by {
      assert (a * a) * (b * b) >= 0.0;
    }
    assert s * s - 4.0 * (p * q) == (p - q) * (p - q);
    assert (2.0 * t) * (2.0 * t) <= s * s;
    SquareOrder(2.0 * t, s);
  }

  /** Cauchy-Schwarz over the accumulated sums. */
  lemma {:induction false} CauchySchwarz(x: seq<real>, y: seq<real>, mx: real, my: real)
    requires |x| == |y|
    ensures CrossSum(x, x, mx, mx) >= 0.0 && CrossSum(y, y, my, my) >= 0.0
    ensures Square(CrossSum(x, y, mx, my)) <= Product(CrossSum(x, x, mx, mx), CrossSum(y, y, my, my))
  {
    if x != [] {
      var n := |x| - 1;
      CauchySchwarz(x[..n], y[..n], mx, my);
      hide Product;
      CauchySchwarzStep(CrossSum(x[..n], y[..n], mx, my), CrossSum(x[..n], x[..n], mx, mx),
                        CrossSum(y[..n], y[..n], my, my), x[n] - mx, y[n] - my);
      SquareNonNegative(y[n] - my);
    }
  }

  lemma SquareNonNegative(a: real)
    ensures Square(a) >= 0.0
  {
  }

  function Quotient(num: real, root: real): real
    requires root != 0.0
  {
    num / root
  }

  /** A quotient by roots of two numbers whose product bounds num^2 lies in [-1, 1]. */
  lemma QuotientInRange(num: real, dx: real, dy: real, rx: real, ry: real)
    requires rx >= 0.0 && ry >= 0.0 && Square(rx) == dx && Square(ry) == dy
    requires dx != 0.0 && dy != 0.0 && Square(num) <= Product(dx, dy)
    ensures Product(rx, ry) > 0.0 && -1.0 <= Quotient(num, Product(rx, ry)) <= 1.0
  {
    var r := rx * ry;
    assert rx != 0.0 && ry != 0.0;
    assert r > 0.0;
    assert r * r == dx * dy by { assert (rx * ry) * (rx * ry) == (rx * rx) * (ry * ry); }
    SquareOrder(num, r);
    QuotientMonotone(num, r, r);
    QuotientMonotone(-r, num, r);
    QuotientUnique(1.0, r, r);
    QuotientUnique(-1.0, -r, r);
  }

  lemma RootsGiveRange(sqrt: real -> real, num: real, dx: real, dy: real)
    requires IsSquareRoot(sqrt) && dx > 0.0 && dy > 0.0 && Square(num) <= Product(dx, dy)
    ensures Product(sqrt(dx), sqrt(dy)) > 0.0
    ensures -1.0 <= Quotient(num, Product(sqrt(dx), sqrt(dy))) <= 1.0
  {
    hide Product, Quotient, Square;
    QuotientInRange(num, dx, dy, sqrt(dx), sqrt(dy));
  }

  /** The correlation coefficient, 0 where it is undefined. */
  function Pearson(x: seq<real>, y: seq<real>, sqrt: real -> real): (r: real)
    requires IsSquareRoot(sqrt)
    ensures -1.0 <= r <= 1.0
  {
    hide Product, Quotient, Square, CrossSum, Average, IsSquareRoot;
    if |x| != |y| || x == [] then 0.0
    else
      var mx, my := Average(x), Average(y);
      var num, dx, dy := CrossSum(x, y, mx, my), CrossSum(x, x, mx, mx), CrossSum(y, y, my, my);
      if dx == 0.0 || dy == 0.0 then 0.0
      else
        CauchySchwarz(x, y, mx, my);
        RootsGiveRange(sqrt, num, dx, dy);
        Quotient(num, Product(sqrt(dx), sqrt(dy)))
  }

  // ----- The coefficient from the raw sums -----

  /** The sum of the products. */
  function ProductSum(x: seq<real>, y: seq<real>): real
    requires |x| == |y|
  {
    if x == [] then 0.0
    else
      var n := |x| - 1;
      ProductSum(x[..n], y[..n]) + Product(x[n], y[n])
  }

  /** A sum of products with both factors moved to new centres. */
  function Shifted(p: real, sx: real, sy: real, rn: real, mx: real, my: real): real {
    p - mx * sy - my * sx + rn * (mx * my)
  }

  lemma ShiftStep(p: real, sx: real, sy: real, n: nat, mx: real, my: real, a: real, b: real)
    ensures Shifted(p, sx, sy, n as real, mx, my) + Product(a - mx, b - my)
         == Shifted(p + Product(a, b), sx + a, sy + b, (n + 1) as real, mx, my)
  {
    var rn := n as real;
    assert (a - mx) * (b - my) == a * b - mx * b - my * a + mx * my;
    assert mx * (sy + b) == mx * sy + mx * b && my * (sx + a) == my * sx + my * a;
    assert (rn + 1.0) * (mx * my) == rn * (mx * my) + mx * my;
  }

  /** Deviations from any centre, multiplied out. */
  lemma {:induction false} CrossSumShift(x: seq<real>, y: seq<real>, mx: real, my: real)
    requires |x| == |y|
    ensures CrossSum(x, y, mx, my) == Shifted(ProductSum(x, y), Sum(x), Sum(y), |x| as real, mx, my)
  {
    if x != [] {
      var n := |x| - 1;
      CrossSumShift(x[..n], y[..n], mx, my);
      ShiftStep(ProductSum(x[..n], y[..n]), Sum(x[..n]), Sum(y[..n]), n, mx, my, x[n], y[n]);
      hide Product, Shifted;
    }
  }

  lemma AverageTimes(x: seq<real>)
    requires x != []
    ensures Sum(x) == Average(x) * (|x| as real)
  {
    QuotientTimes(Sum(x), |x| as real);
  }

  /** n times the sum of products less the product of the sums. */
  function Covariation(x: seq<real>, y: seq<real>): real
    requires |x| == |y|
  {
    (|x| as real) * ProductSum(x, y) - Sum(x) * Sum(y)
  }

  /** The accumulated sums, with the means as centres, are n-th parts of it. */
  lemma CrossSumFromSums(x: seq<real>, y: seq<real>)
    requires |x| == |y| && x != []
    ensures Product(|x| as real, CrossSum(x, y, Average(x), Average(y))) == Covariation(x, y)
  {
    hide CrossSum, ProductSum, Sum, Average, Shifted, Product;
    CrossSumShift(x, y, Average(x), Average(y));
    AverageTimes(x);
    AverageTimes(y);
    MeansCancel(|x| as real, ProductSum(x, y), Average(x), Average(y), Sum(x), Sum(y));
  }

  lemma MeansCancel(rn: real, p: real, mx: real, my: real, sx: real, sy: real)
    requires sx == mx * rn && sy == my * rn
    ensures Product(rn, Shifted(p, sx, sy, rn, mx, my)) == rn * p - sx * sy
  {
    var m := mx * my;
    assert mx * sy == rn * m && my * sx == rn * m;
    assert Shifted(p, sx, sy, rn, mx, my) == p - rn * m;
    assert rn * (p - rn * m) == rn * p - rn * (rn * m);
    assert sx * sy == rn * (rn * m);
  }

  /** The square of num / (rx * ry), where rx and ry are the roots of dx and dy. */
  lemma SquareOfQuotient(num: real, dx: real, dy: real, rx: real, ry: real)
    requires rx >= 0.0 && ry >= 0.0 && Square(rx) == dx && Square(ry) == dy && Product(rx, ry) > 0.0
    ensures var r := Quotient(num, Product(rx, ry));
            Product(Square(r), Product(dx, dy)) == Square(num) && (r >= 0.0 <==> num >= 0.0)
  {
    var d := rx * ry;
    var r := num / d;
    QuotientTimes(num, d);
    assert dx * dy == d * d by { assert (rx * rx) * (ry * ry) == (rx * ry) * (rx * ry); }
    assert r * r * (d * d) == (r * d) * (r * d);
    if num >= 0.0 {
      QuotientMonotone(0.0, num, d);
      QuotientUnique(0.0, 0.0, d);
    } else if r >= 0.0 {
      MulMonotone(d, 0.0, r);
    }
  }

  lemma ScaleSquares(rn: real, r: real, num: real, dx: real, dy: real)
    requires Product(Square(r), Product(dx, dy)) == Square(num)
    ensures Product(Square(r), Product(Product(rn, dx), Product(rn, dy))) == Square(Product(rn, num))
  {
    var q := rn * rn;
    assert (rn * dx) * (rn * dy) == q * (dx * dy) && (rn * num) * (rn * num) == q * (num * num);
    assert (r * r) * (q * (dx * dy)) == q * ((r * r) * (dx * dy));
  }

  lemma ScaleSign(rn: real, x: real)
    requires rn > 0.0
    ensures (Product(rn, x) >= 0.0 <==> x >= 0.0) && (Product(rn, x) == 0.0 <==> x == 0.0)
  {
    if x > 0.0 {
      MulPositive(rn, x);
    } else if x < 0.0 {
      MulPositive(rn, -x);
    }
  }

  /**
   * The coefficient from the raw sums n*Sxy - Sx*Sy: it is 0 where a series does not vary, and
   * otherwise it has the sign of that number, and its square is that number's square over the
   * product of the same number for x and for y.
   */
  lemma PearsonFromSums(x: seq<real>, y: seq<real>, sqrt: real -> real)
    requires IsSquareRoot(sqrt) && |x| == |y| && x != []
    ensures var r := Pearson(x, y, sqrt); var c, vx, vy := Covariation(x, y), Covariation(x, x), Covariation(y, y);
            if vx == 0.0 || vy == 0.0 then r == 0.0
            else Product(Square(r), Product(vx, vy)) == Square(c) && (r >= 0.0 <==> c >= 0.0)
  {
    CrossSumFromSums(x, y);
    CrossSumFromSums(x, x);
    CrossSumFromSums(y, y);
    var rn, mx, my := |x| as real, Average(x), Average(y);
    var num, dx, dy := CrossSum(x, y, mx, my), CrossSum(x, x, mx, mx), CrossSum(y, y, my, my);
    CauchySchwarz(x, y, mx, my);
    ScaleSign(rn, dx);
    ScaleSign(rn, dy);
    ScaleSign(rn, num);
    hide CrossSum, ProductSum, Sum, Average, Product, Quotient, Covariation;
    if dx != 0.0 && dy != 0.0 {
      RootsGiveRange(sqrt, num, dx, dy);
      SquareOfQuotient(num, dx, dy, sqrt(dx), sqrt(dy));
      PearsonIs(x, y, sqrt);
      ScaleSquares(rn, Pearson(x, y, sqrt), num, dx, dy);
      hide Pearson, Square;
    }
  }

  lemma PearsonIs(x: seq<real>, y: seq<real>, sqrt: real -> real)
    requires IsSquareRoot(sqrt) && |x| == |y| && x != []
    requires CrossSum(x, x, Average(x), Average(x)) != 0.0 && CrossSum(y, y, Average(y), Average(y)) != 0.0
    requires Product(sqrt(CrossSum(x, x, Average(x), Average(x))), sqrt(CrossSum(y, y, Average(y), Average(y)))) != 0.0
    ensures Pearson(x, y, sqrt) == Quotient(CrossSum(x, y, Average(x), Average(y)),
              Product(sqrt(CrossSum(x, x, Average(x), Average(x))), sqrt(CrossSum(y, y, Average(y), Average(y)))))
  {
    hide CrossSum, Average, Product, Quotient;
  }

  lemma {:induction false} CrossSumSymmetric(x: seq<real>, y: seq<real>, mx: real, my: real)
    requires |x| == |y|
    ensures CrossSum(x, y, mx, my) == CrossSum(y, x, my, mx)
  {
    if x != [] {
      var n := |x| - 1;
      CrossSumSymmetric(x[..n], y[..n], mx, my);
      hide Product;
      TimesSymmetric(x[n] - mx, y[n] - my);
    }
  }

  lemma TimesSymmetric(a: real, b: real)
    ensures Product(a, b) == Product(b, a)
  {
  }

  /** Swapping the series does not change the coefficient. */
  lemma PearsonSymmetric(x: seq<real>, y: seq<real>, sqrt: real -> real)
    requires IsSquareRoot(sqrt)
    ensures Pearson(x, y, sqrt) == Pearson(y, x, sqrt)
  {
    hide Product, Quotient, CrossSum, Average;
    if |x| == |y| && x != [] {
      var mx, my := Average(x), Average(y);
      CrossSumSymmetric(x, y, mx, my);
      TimesSymmetric(sqrt(CrossSum(x, x, mx, mx)), sqrt(CrossSum(y, y, my, my)));
    }
  }

  /** A series that varies at all has coefficient 1 with itself, so the bound is reached. */
  lemma PearsonOfItself(x: seq<real>, sqrt: real -> real)
    requires IsSquareRoot(sqrt)
    ensures Pearson(x, x, sqrt) == 0.0 || Pearson(x, x, sqrt) == 1.0
    ensures x != [] && CrossSum(x, x, Average(x), Average(x)) != 0.0 ==> Pearson(x, x, sqrt) == 1.0
  {
    hide CrossSum, Average;
    if x != [] {
      var d := CrossSum(x, x, Average(x), Average(x));
      CauchySchwarz(x, x, Average(x), Average(x));
      if d != 0.0 {
        QuotientUnique(1.0, d, d);
      }
    }
  }

  /** The program's accumulating loop. */
  method Correlate(x: seq<real>, y: seq<real>, sqrt: real -> real) returns (r: real)
    requires IsSquareRoot(sqrt)
    ensures r == Pearson(x, y, sqrt)
  {
    hide Product, Quotient;
    if |x| != |y| || x == [] {
      return 0.0;
    }
    var meanX, meanY := Average(x), Average(y);
    var num, denX, denY := 0.0, 0.0, 0.0;
    for i := 0 to |x|
      invariant num == CrossSum(x[..i], y[..i], meanX, meanY)
      invariant denX == CrossSum(x[..i], x[..i], meanX, meanX)
      invariant denY == CrossSum(y[..i], y[..i], meanY, meanY)
    {
      assert x[..i + 1][..i] == x[..i] && y[..i + 1][..i] == y[..i];
      var dx := x[i] - meanX;
      var dy := y[i] - meanY;
      num := num + Product(dx, dy);
      denX := denX + Square(dx);
      denY := denY + Square(dy);
    }
    assert x[..|x|] == x && y[..|y|] == y;
    if denX == 0.0 || denY == 0.0 {
      return 0.0;
    }
    CauchySchwarz(x, y, meanX, meanY);
    RootsGiveRange(sqrt, num, denX, denY);
    return Quotient(num, Product(sqrt(denX), sqrt(denY)));
  }

  /** The price list against itself shifted by `lag`; the equity curve is constant. */
  method BacktestCorrelation(points: seq<PricePoint>, lag: nat, sqrt: real -> real)
    returns (curve: seq<EquityPoint>, corr: real, m: Option<Report>)
    requires IsSquareRoot(sqrt)
    ensures var p := Closes(points);
            corr == if |p| > lag then Pearson(p[lag..], p[..|p| - lag], sqrt) else 0.0
    ensures -1.0 <= corr <= 1.0
    ensures lag == 0 ==> corr == 0.0 || corr == 1.0
    ensures |curve| == |points| && forall i :: 0 <= i < |points| ==> curve[i] == EquityPoint(points[i].timestamp, 1.0)
    ensures m.Some? <==> points != []
    ensures m.Some? ==> m.value.totalReturn == 0.0 && m.value.maxDrawdown == 0.0
  {
    hide Pearson, Product, Quotient, Square, IsSquareRoot, IsPeakDrawdown, IsMaxDrawdown, AllPositive, Change, Returns;
    ghost var p := Closes(points);
    var x: seq<real> := [];
    var y: seq<real> := [];
    var k := 0;
    while k + lag < |points|
      invariant |points| > lag ==> k + lag <= |points|
      invariant |points| <= lag ==> k == 0
      invariant |x| == |y| == k
      invariant forall j :: 0 <= j < k ==> x[j] == p[j + lag] && y[j] == p[j]
    {
      x := x + [points[k + lag].price];
      y := y + [points[k].price];
      k := k + 1;
    }
    if |p| > lag {
      assert x == p[lag..] && y == p[..|p| - lag];
    }
    corr := Correlate(x, y, sqrt);
    if lag == 0 && p != [] {
      assert x == y;
      PearsonOfItself(x, sqrt);
    }
    PearsonEmpty(sqrt);
    curve := [];
    for i := 0 to |points|
      invariant |curve| == i
      invariant forall j :: 0 <= j < i ==> curve[j] == EquityPoint(points[j].timestamp, 1.0)
    {
      curve := curve + [EquityPoint(points[i].timestamp, 1.0 + (i as real) * 0.0 + corr * 0.0)];
    }
    m := BuildMetrics(curve);
    if m.Some? {
      FlatCurve(Values(curve), m.value.maxDrawdown);
    }
  }

  lemma PearsonEmpty(sqrt: real -> real)
    requires IsSquareRoot(sqrt)
    ensures Pearson([], [], sqrt) == 0.0
  {
  }

  lemma FlatCurve(v: seq<real>, dd: real)
    requires v != [] && (forall i :: 0 <= i < |v| ==> v[i] == 1.0)
    requires AllPositive(v) ==> IsMaxDrawdown(v, dd)
    ensures AllPositive(v) && dd == 0.0 && Change(v[0], v[|v| - 1]) == 0.0
  {
    ChangeFacts(1.0, 1.0, 1.0);
  }
}
