// Portfolio statistics (services/risk-engine/app/metrics.py) before rounding, in exact
// arithmetic. A standard deviation is a non-negative number whose square is the variance.

module RiskMetrics {
  import opened Basics
  import opened RiskStore

  const VAR_Z_95 := 1.65

  function Sum(xs: seq<real>): real {
    if xs == [] then 0.0 else Sum(Front(xs)) + Last(xs)
  }

  function Times(x: real, y: real): real {
    x * y
  }

  function Square(x: real): (r: real)
    ensures r >= 0.0
  {
    Times(x, x)
  }

  lemma SquareIsZero(x: real)
    ensures Square(x) == 0.0 <==> x == 0.0
  {
    if x > 0.0 {
      PositiveProduct(x, x);
    } else if x < 0.0 {
      PositiveProduct(-x, -x);
      assert Times(-x, -x) == Times(x, x);
    }
  }

  lemma PositiveProduct(x: real, y: real)
    requires x > 0.0 && y > 0.0
    ensures Times(x, y) > 0.0
  {
  }

  // Sum of squared distances from c.
  function Spread(xs: seq<real>, c: real): (r: real)
    ensures r >= 0.0
  {
    if xs == [] then 0.0 else Spread(Front(xs), c) + Square(Last(xs) - c)
  }

  function Mean(xs: seq<real>): real
    requires xs != []
  {
    Sum(xs) / (|xs| as real)
  }

  function Variance(xs: seq<real>): real
    requires xs != []
  {
    Spread(xs, Mean(xs)) / (|xs| as real)
  }

  // Population standard deviation; zero with fewer than two returns.
  predicate IsVolatility(v: real, returns_: seq<real>) {
    v >= 0.0 && if |returns_| > 1 then Square(v) == Variance(returns_) else v == 0.0
  }

  function ValueAtRisk(v: real, portfolioValue: real): real {
    var x := VAR_Z_95 * v * portfolioValue;
    if x < 0.0 then -x else x
  }

  function Sharpe(v: real, returns_: seq<real>): real
    requires v > 0.0 ==> returns_ != []
  {
    if v > 0.0 then Mean(returns_) / v else 0.0
  }

  function ComputeMetrics(cash: real, holdings: seq<Holding>, seedCash: real, returns_: seq<real>, v: real): Metrics
    requires v > 0.0 ==> returns_ != []
  {
    var pv := cash + MarketValue(holdings);
    Metrics(pv, pv - seedCash, v, ValueAtRisk(v, pv), Sharpe(v, returns_))
  }

  // What statistics.pstdev returns for two or more values.
  ghost predicate IsPstdev(f: seq<real> -> real) {
    forall xs :: |xs| > 1 ==> IsVolatility(f(xs), xs)
  }

  // The statistics of a computation are those of the given returns.
  predicate OverReturns(m: Metrics, returns_: seq<real>) {
    && IsVolatility(m.volatility, returns_)
    && m.valueAtRisk == ValueAtRisk(m.volatility, m.portfolioValue)
    && m.sharpe == Sharpe(m.volatility, returns_)
  }

  // --- bounds ----------------------------------------------------------

  // What n squared distances with the given total gain when measured from c instead of d.
  function Shift(n: real, total: real, c: real, d: real): real {
    2.0 * (d - c) * (total - n * d) + n * Square(d - c)
  }

  lemma ShiftStep(n: real, total: real, x: real, c: real, d: real)
    ensures Shift(n + 1.0, total + x, c, d) == Shift(n, total, c, d) + Square(x - c) - Square(x - d)
  {
    var k := d - c;
    assert Square(x - c) == Square(x - d) + 2.0 * k * (x - d) + k * k;
    assert 2.0 * k * (total + x - (n + 1.0) * d) == 2.0 * k * (total - n * d) + 2.0 * k * (x - d);
    assert (n + 1.0) * Square(k) == n * Square(k) + k * k;
  }

  lemma {:induction false} SpreadShift(xs: seq<real>, c: real, d: real)
    ensures Spread(xs, c) == Spread(xs, d) + Shift(|xs| as real, Sum(xs), c, d)
  {
    if xs != [] {
      hide Shift, Square;
      SpreadShift(Front(xs), c, d);
      ShiftStep(|Front(xs)| as real, Sum(Front(xs)), Last(xs), c, d);
    }
  }

  lemma ShiftFromMean(n: real, total: real, c: real)
    requires n > 0.0
    ensures Shift(n, total, c, total / n) >= 0.0
  {
    var m := total / n;
    assert n * m == total;
    assert Shift(n, total, c, m) == n * Square(m - c);
  }

  /** The mean is where the spread is least. */
  lemma MeanMinimises(xs: seq<real>, c: real)
    requires xs != []
    ensures Spread(xs, Mean(xs)) <= Spread(xs, c)
  {
    hide Shift, Square;
    SpreadShift(xs, c, Mean(xs));
    ShiftFromMean(|xs| as real, Sum(xs), c);
  }

  lemma TimesNext(n: real, x: real)
    ensures Times(n + 1.0, x) == Times(n, x) + x
  {
  }

  lemma {:induction false} SpreadWithin(xs: seq<real>, c: real, h: real)
    requires forall i :: 0 <= i < |xs| ==> c - h <= xs[i] <= c + h
    ensures Spread(xs, c) <= Times(|xs| as real, Square(h))
  {
    if xs != [] {
      hide Times, Square;
      SpreadWithin(Front(xs), c, h);
      SquareWithin(Last(xs) - c, h);
      TimesNext(|Front(xs)| as real, Square(h));
    }
  }

  lemma SquareWithin(x: real, h: real)
    requires -h <= x <= h
    ensures Square(x) <= Square(h)
  {
    assert (h - x) * (h + x) >= 0.0;
    assert (h - x) * (h + x) == h * h - x * x;
  }

  lemma DivideBound(total: real, n: real, bound: real)
    requires n > 0.0 && total <= Times(n, bound)
    ensures total / n <= bound
  {
  }

  lemma RootBound(v: real, h: real)
    requires v >= 0.0 && h >= 0.0
    ensures Square(v) <= Square(h) ==> v <= h
  {
    if v > h {
      PositiveProduct(v - h, v + h);
      assert Times(v - h, v + h) == Times(v, v) - Times(h, h);
    }
  }

  predicate InRange(xs: seq<real>, lo: real, hi: real) {
    forall i :: 0 <= i < |xs| ==> lo <= xs[i] <= hi
  }

  /** Volatility is at most half the range of the returns. */
  lemma VolatilityBound(v: real, xs: seq<real>, lo: real, hi: real)
    requires IsVolatility(v, xs) && lo <= hi && InRange(xs, lo, hi)
    ensures v <= (hi - lo) / 2.0
  {
    if |xs| > 1 {
      hide Times, Square, Spread;
      var c, h := (lo + hi) / 2.0, (hi - lo) / 2.0;
      SpreadWithin(xs, c, h);
      MeanMinimises(xs, c);
      DivideBound(Spread(xs, Mean(xs)), |xs| as real, Square(h));
      RootBound(v, h);
    }
  }

  /** So value at risk lies between zero and 1.65 times half that range of portfolio value. */
  lemma ValueAtRiskBound(v: real, xs: seq<real>, lo: real, hi: real, portfolioValue: real)
    requires IsVolatility(v, xs) && lo <= hi && InRange(xs, lo, hi)
    ensures 0.0 <= ValueAtRisk(v, portfolioValue)
    ensures ValueAtRisk(v, portfolioValue)
         <= 1.65 * ((hi - lo) / 2.0) * (if portfolioValue < 0.0 then -portfolioValue else portfolioValue)
  {
    VolatilityBound(v, xs, lo, hi);
    ScaleBound(v, (hi - lo) / 2.0, if portfolioValue < 0.0 then -portfolioValue else portfolioValue);
    assert ValueAtRisk(v, portfolioValue)
        == VAR_Z_95 * v * (if portfolioValue < 0.0 then -portfolioValue else portfolioValue) by {
      AbsScale(v, portfolioValue);
    }
  }

  lemma AbsScale(v: real, p: real)
    requires v >= 0.0
    ensures ValueAtRisk(v, p) == VAR_Z_95 * v * (if p < 0.0 then -p else p)
  {
    var k := VAR_Z_95 * v;
    assert k >= 0.0;
    if p < 0.0 {
      assert k * p <= 0.0 && k * (-p) == -(k * p);
    } else {
      assert k * p >= 0.0;
    }
  }

  lemma ScaleBound(v: real, h: real, p: real)
    requires v <= h && p >= 0.0
    ensures VAR_Z_95 * v * p <= VAR_Z_95 * h * p
  {
    var a, b := VAR_Z_95 * v, VAR_Z_95 * h;
    assert (b - a) * p >= 0.0;
  }

  predicate AllEqual(xs: seq<real>) {
    forall i, j :: 0 <= i < j < |xs| ==> xs[i] == xs[j]
  }

  lemma {:induction false} NoSpread(xs: seq<real>, c: real)
    ensures Spread(xs, c) == 0.0 <==> forall i :: 0 <= i < |xs| ==> xs[i] == c
  {
    if xs != [] {
      hide Square;
      NoSpread(Front(xs), c);
      SquareIsZero(Last(xs) - c);
      assert forall i :: 0 <= i < |Front(xs)| ==> Front(xs)[i] == xs[i];
    }
  }

  lemma ZeroQuotient(total: real, n: real)
    requires n > 0.0
    ensures total / n == 0.0 <==> total == 0.0
  {
    assert (total / n) * n == total;
  }

  /** Volatility is zero exactly with fewer than two returns or with all returns equal. */
  lemma ZeroVolatilityIff(v: real, xs: seq<real>)
    requires IsVolatility(v, xs)
    ensures v == 0.0 <==> |xs| <= 1 || AllEqual(xs)
  {
    SquareIsZero(v);
    if |xs| > 1 {
      hide Square, Spread;
      ZeroQuotient(Spread(xs, Mean(xs)), |xs| as real);
      NoSpread(xs, Mean(xs));
      if AllEqual(xs) {
        NoSpread(xs, xs[0]);
        MeanMinimises(xs, xs[0]);
        assert Spread(xs, Mean(xs)) == 0.0;
      }
    }
  }

  lemma QuotientSign(m: real, v: real)
    requires v > 0.0
    ensures m / v > 0.0 <==> m > 0.0
    ensures m / v < 0.0 <==> m < 0.0
  {
    var q := m / v;
    assert q * v == m;
  }

  /** Sharpe has the sign of the mean whenever there is any volatility, and is zero otherwise. */
  lemma SharpeSign(v: real, xs: seq<real>)
    requires IsVolatility(v, xs) && xs != []
    ensures v > 0.0 ==> (Sharpe(v, xs) > 0.0 <==> Mean(xs) > 0.0) && (Sharpe(v, xs) < 0.0 <==> Mean(xs) < 0.0)
    ensures AllEqual(xs) ==> Sharpe(v, xs) == 0.0
  {
    ZeroVolatilityIff(v, xs);
    if v > 0.0 {
      QuotientSign(Mean(xs), v);
    }
  }

  // --- the figures themselves --------------------------------------------

  function SumOfSquares(xs: seq<real>): real {
    if xs == [] then 0.0 else SumOfSquares(Front(xs)) + Square(Last(xs))
  }

  lemma {:induction false} SpreadFromZero(xs: seq<real>)
    ensures Spread(xs, 0.0) == SumOfSquares(xs)
  {
    if xs != [] {
      SpreadFromZero(Front(xs));
    }
  }

  lemma Moment(n: real, total: real, squares: real, spread: real)
    requires n > 0.0 && squares == spread + Shift(n, total, 0.0, total / n)
    ensures n * spread == n * squares - Square(total)
  {
    var m := total / n;
    assert n * m == total;
    assert Shift(n, total, 0.0, m) == n * Square(m);
    assert n * (n * Square(m)) == Square(n * m);
  }

  lemma Scaled(n: real, v: real, spread: real)
    requires n > 0.0 && Square(v) == spread / n
    ensures n * n * Square(v) == n * spread
  {
    assert n * (spread / n) == spread;
  }

  /** Volatility in terms of the returns alone: n^2 v^2 is n times the sum of their squares, less
      the square of their sum. */
  lemma VolatilityFromSums(v: real, xs: seq<real>)
    requires IsVolatility(v, xs) && |xs| > 1
    ensures var n := |xs| as real; n * n * Square(v) == n * SumOfSquares(xs) - Square(Sum(xs))
  {
    hide Shift, Square, Spread;
    var n, spread := |xs| as real, Spread(xs, Mean(xs));
    SpreadFromZero(xs);
    SpreadShift(xs, 0.0, Mean(xs));
    Moment(n, Sum(xs), SumOfSquares(xs), spread);
    Scaled(n, v, spread);
  }

  /** Sharpe is the ratio of mean to volatility: times both volatility and the number of returns
      it is their sum. */
  lemma SharpeRatio(v: real, xs: seq<real>)
    requires IsVolatility(v, xs)
    ensures v > 0.0 ==> Sharpe(v, xs) * v * (|xs| as real) == Sum(xs)
    ensures v == 0.0 ==> Sharpe(v, xs) == 0.0
  {
    if v > 0.0 {
      Ratio(Sum(xs), |xs| as real, v);
    }
  }

  lemma Ratio(total: real, n: real, v: real)
    requires n > 0.0 && v > 0.0
    ensures ((total / n) / v) * v * n == total
  {
    var mean := total / n;
    assert (mean / v) * v == mean;
    assert mean * n == total;
  }

  // Volatility, value at risk and Sharpe of a computation, said of the returns alone.
  ghost predicate Figures(m: Metrics, xs: seq<real>) {
    var n := |xs| as real;
    && m.volatility >= 0.0
    && (if |xs| <= 1 then m.volatility == 0.0
        else n * n * Square(m.volatility) == n * SumOfSquares(xs) - Square(Sum(xs)))
    && m.valueAtRisk == 1.65 * m.volatility * (if m.portfolioValue < 0.0 then -m.portfolioValue else m.portfolioValue)
    && (m.volatility > 0.0 ==> m.sharpe * m.volatility * n == Sum(xs))
    && (m.volatility == 0.0 ==> m.sharpe == 0.0)
  }

  lemma ComputedFigures(m: Metrics, xs: seq<real>)
    requires OverReturns(m, xs)
    ensures Figures(m, xs)
  {
    hide Variance, ValueAtRisk, Sharpe, SumOfSquares, Sum, Square;
    if |xs| > 1 {
      VolatilityFromSums(m.volatility, xs);
    }
    AbsScale(m.volatility, m.portfolioValue);
    SharpeRatio(m.volatility, xs);
  }

  /** So every computation over a series of returns is these figures and obeys all the bounds. */
  lemma ComputationBounds(m: Metrics, xs: seq<real>, lo: real, hi: real)
    requires OverReturns(m, xs) && lo <= hi && InRange(xs, lo, hi)
    ensures Figures(m, xs)
    ensures 0.0 <= m.volatility <= (hi - lo) / 2.0
    ensures m.volatility == 0.0 <==> |xs| <= 1 || AllEqual(xs)
    ensures 0.0 <= m.valueAtRisk
         <= 1.65 * ((hi - lo) / 2.0) * (if m.portfolioValue < 0.0 then -m.portfolioValue else m.portfolioValue)
    ensures m.volatility > 0.0 ==>
              xs != [] && (m.sharpe > 0.0 <==> Mean(xs) > 0.0) && (m.sharpe < 0.0 <==> Mean(xs) < 0.0)
  {
    hide Variance, ValueAtRisk, Sharpe, Figures;
    ComputedFigures(m, xs);
    VolatilityBound(m.volatility, xs, lo, hi);
    ValueAtRiskBound(m.volatility, xs, lo, hi, m.portfolioValue);
    ZeroVolatilityIff(m.volatility, xs);
    if xs != [] {
      SharpeSign(m.volatility, xs);
    }
  }
}
