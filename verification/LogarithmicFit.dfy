/**
 The least-squares fit of y = a * ln(x) + b. Floats are exact reals here and the logarithm is
 an arbitrary function, handed in as `ln`; nothing but its values at the given points matters.
 */
module LeastSquares {
  // ---------- Scalars: products are named so that the inductions below stay linear ----------

  function Times(x: real, y: real): real { x * y }

  function Sq(x: real): real { Times(x, x) }

  function Line(a: real, b: real, x: real): real { a * x + b }

  /** n * e - s * t, the shape of the fit's numerator and denominator. */
  function Cross(n: real, e: real, s: real, t: real): real { n * e - s * t }

  /** Sum of (u * x + v)^2 over n numbers with sum s and sum of squares d. */
  function Quadratic(u: real, v: real, d: real, s: real, n: real): real {
    (u * u) * d + (2.0 * u * v) * s + n * (v * v)
  }

  /** z - a * p - b * q: a sum of residuals in terms of sums of the data. */
  function Balance(z: real, a: real, p: real, b: real, q: real): real { z - a * p - b * q }

  /** How far the squared error moves with the line, to first order. */
  function Shift(u: real, v: real, rd: real, rs: real): real { 2.0 * (u * rd + v * rs) }

  lemma TimesSign(x: real, y: real)
    ensures x > 0.0 && y > 0.0 ==> Times(x, y) > 0.0
    ensures Times(-x, -y) == Times(x, y)
  {
  }

  lemma SqSign(x: real)
    ensures Sq(x) >= 0.0
    ensures x != 0.0 ==> Sq(x) > 0.0
    ensures Sq(0.0) == 0.0
  {
    TimesSign(x, x);
    TimesSign(-x, -x);
    assert x == 0.0 ==> Times(x, x) == 0.0;
    assert Sq(0.0) == Times(0.0, 0.0) == 0.0;
    hide Times;
  }

  lemma ProductSign(n: real, d: real)
    requires n > 0.0 && n * d >= 0.0
    ensures d >= 0.0
    ensures n * d == 0.0 ==> d == 0.0
  {
    var e := -d;
    assert n * e == -(n * d);
    assert e > 0.0 ==> n * e > 0.0;
    assert d > 0.0 ==> n * d > 0.0;
  }

  lemma ProductZero(n: real, z: real)
    requires n != 0.0 && n * z == 0.0
    ensures z == 0.0
  {
    assert z == (n * z) / n;
  }

  lemma Cancel(n: real, x: real, y: real)
    requires n != 0.0 && n * x == n * y
    ensures x == y
  {
    var e := x - y;
    assert n * e == n * x - n * y;
    ProductZero(n, e);
  }

  lemma DivideBack(p: real, q: real)
    requires q != 0.0
    ensures (p / q) * q == p
  {
  }

  lemma SquareOfSum(p: real, q: real)
    ensures (p + q) * (p + q) == p * p + 2.0 * (p * q) + q * q
  {
  }

  lemma QuadraticStep(u: real, v: real, d: real, s: real, n: real, x: real)
    ensures Quadratic(u, v, d + Times(x, x), s + x, n + 1.0) == Quadratic(u, v, d, s, n) + Sq(Line(u, v, x))
  {
    var uu, uv, xx, vv := u * u, 2.0 * u * v, x * x, v * v;
    SquareOfSum(u * x, v);
    assert (u * x) * (u * x) == uu * xx;
    assert 2.0 * ((u * x) * v) == uv * x;
    assert uu * (d + xx) == uu * d + uu * xx;
    assert uv * (s + x) == uv * s + uv * x;
    assert (n + 1.0) * vv == n * vv + vv;
  }

  lemma Collect(n: real, s: real, d: real)
    ensures Quadratic(n, -s, d, s, n) == n * Cross(n, d, s, s)
  {
    var p := s * s;
    assert (2.0 * n * -s) * s == -2.0 * (n * p) by {
      assert (2.0 * n * -s) * s == (2.0 * n) * (-s * s);
      assert -s * s == -p;
    }
    assert -s * -s == p;
    assert (n * n) * d == n * (n * d);
  }

  lemma ShiftStep(u: real, v: real, rd: real, rs: real, r: real, x: real)
    ensures Shift(u, v, rd + Times(r, x), rs + r) == Shift(u, v, rd, rs) + 2.0 * Times(r, Line(u, v, x))
  {
    var rx := r * x;
    assert u * (rd + rx) == u * rd + u * rx;
    assert v * (rs + r) == v * rs + v * r;
    assert r * (u * x + v) == u * rx + v * r;
  }

  lemma ResidualMoves(a: real, b: real, u: real, v: real, x: real, y: real)
    ensures var r, p := y - Line(a, b, x), Line(u, v, x);
            Sq(y - Line(a + u, b + v, x)) == Sq(r) - 2.0 * Times(r, p) + Sq(p)
  {
    var r, p := y - (a * x + b), u * x + v;
    assert (a + u) * x == a * x + u * x;
    var q := -p;
    SquareOfSum(r, q);
    assert r * q == -(r * p);
    assert q * q == p * p;
  }

  lemma BalanceStep(z: real, a: real, p: real, b: real, q: real, dz: real, dp: real, dq: real)
    ensures Balance(z + dz, a, p + dp, b, q + dq) == Balance(z, a, p, b, q) + Balance(dz, a, dp, b, dq)
  {
    assert a * (p + dp) == a * p + a * dp;
    assert b * (q + dq) == b * q + b * dq;
  }

  lemma OneResidual(a: real, b: real, x: real, z: real)
    ensures Times(z - Line(a, b, x), x) == Balance(Times(x, z), a, Times(x, x), b, x)
    ensures z - Line(a, b, x) == Balance(z, a, x, b, 1.0)
  {
    var ax := a * x;
    assert (z - (ax + b)) * x == z * x - ax * x - b * x;
    assert ax * x == a * (x * x);
  }

  /** Solving the two normal equations for a and b. */
  lemma Solve(n: real, a: real, b: real, s: real, t: real, d: real, e: real)
    requires n > 0.0 && b * n == t - a * s && a * Cross(n, d, s, s) == Cross(n, e, s, t)
    ensures Balance(t, a, s, b, n) == 0.0 && Balance(e, a, d, b, s) == 0.0
  {
    var ss := s * s;
    assert n * (b * s) == (b * n) * s;
    assert (t - a * s) * s == s * t - a * ss by { assert (a * s) * s == a * ss; }
    assert n * (a * d) == a * (n * d);
    assert a * (n * d - ss) == a * (n * d) - a * ss;
    assert n * (e - a * d - b * s) == n * e - n * (a * d) - n * (b * s);
    ProductZero(n, e - a * d - b * s);
  }

  // ---------- Sums ----------

  function Sum(s: seq<real>): real {
    if s == [] then 0.0 else Sum(s[..|s| - 1]) + s[|s| - 1]
  }

  function Dot(s: seq<real>, t: seq<real>): real
    requires |s| == |t|
  {
    if s == [] then 0.0 else Dot(s[..|s| - 1], t[..|t| - 1]) + Times(s[|s| - 1], t[|t| - 1])
  }

  /** Sum of the squared residuals of the line a * l + b. */
  function SquaredError(l: seq<real>, y: seq<real>, a: real, b: real): real
    requires |l| == |y|
  {
    if l == [] then 0.0
    else
      var n := |l| - 1;
      SquaredError(l[..n], y[..n], a, b) + Sq(y[n] - Line(a, b, l[n]))
  }

  /** Sum of (u * l + v)^2. */
  function SquaredLine(l: seq<real>, u: real, v: real): real {
    if l == [] then 0.0
    else
      var n := |l| - 1;
      SquaredLine(l[..n], u, v) + Sq(Line(u, v, l[n]))
  }

  function ResidualSum(l: seq<real>, y: seq<real>, a: real, b: real): real
    requires |l| == |y|
  {
    if l == [] then 0.0
    else
      var n := |l| - 1;
      ResidualSum(l[..n], y[..n], a, b) + (y[n] - Line(a, b, l[n]))
  }

  function ResidualDot(l: seq<real>, y: seq<real>, a: real, b: real): real
    requires |l| == |y|
  {
    if l == [] then 0.0
    else
      var n := |l| - 1;
      ResidualDot(l[..n], y[..n], a, b) + Times(y[n] - Line(a, b, l[n]), l[n])
  }

  lemma {:induction false} SquaredLineNonNegative(l: seq<real>, u: real, v: real)
    ensures SquaredLine(l, u, v) >= 0.0
    ensures SquaredLine(l, u, v) == 0.0 <==> forall i :: 0 <= i < |l| ==> Line(u, v, l[i]) == 0.0
  {
    if l == [] {
    } else {
      var n := |l| - 1;
      SquaredLineNonNegative(l[..n], u, v);
      SqSign(Line(u, v, l[n]));
      hide Sq;
      hide Line;
      assert forall i :: 0 <= i < n ==> l[..n][i] == l[i];
    }
  }

  lemma {:induction false} SquaredLineExpands(l: seq<real>, u: real, v: real)
    ensures SquaredLine(l, u, v) == Quadratic(u, v, Dot(l, l), Sum(l), |l| as real)
  {
    if l == [] {
    } else {
      hide Quadratic;
      hide Times;
      hide Sq;
      hide Line;
      var n := |l| - 1;
      SquaredLineExpands(l[..n], u, v);
      QuadraticStep(u, v, Dot(l[..n], l[..n]), Sum(l[..n]), n as real, l[n]);
    }
  }

  // ---------- The denominator ----------

  function Denominator(l: seq<real>): real {
    Cross(|l| as real, Dot(l, l), Sum(l), Sum(l))
  }

  ghost predicate AllEqual(l: seq<real>) {
    forall i, j :: 0 <= i < |l| && 0 <= j < |l| ==> l[i] == l[j]
  }

  lemma {:induction false} SumOfEqual(l: seq<real>, c: real)
    requires forall i :: 0 <= i < |l| ==> l[i] == c
    ensures Sum(l) == (|l| as real) * c
  {
    if l == [] {
    } else {
      var n := |l| - 1;
      SumOfEqual(l[..n], c);
      assert (|l| as real) * c == (n as real) * c + c;
    }
  }

  /** n times the denominator is a sum of squares: that of n * l[i] - sum(l). */
  lemma DenominatorIsSumOfSquares(l: seq<real>)
    ensures SquaredLine(l, |l| as real, -Sum(l)) == (|l| as real) * Denominator(l)
  {
    hide Quadratic;
    hide Cross;
    hide SquaredLine;
    hide Dot;
    hide Sum;
    SquaredLineExpands(l, |l| as real, -Sum(l));
    Collect(|l| as real, Sum(l), Dot(l, l));
  }

  lemma EqualFromLines(l: seq<real>, n: real, s: real)
    requires n > 0.0 && forall i :: 0 <= i < |l| ==> Line(n, -s, l[i]) == 0.0
    ensures AllEqual(l)
  {
    forall i, j | 0 <= i < |l| && 0 <= j < |l|
      ensures l[i] == l[j]
    {
      assert Line(n, -s, l[i]) == 0.0 && Line(n, -s, l[j]) == 0.0;
      Cancel(n, l[i], l[j]);
    }
  }

  lemma LinesFromEqual(l: seq<real>)
    requires l != [] && AllEqual(l)
    ensures forall i :: 0 <= i < |l| ==> Line(|l| as real, -Sum(l), l[i]) == 0.0
  {
    SumOfEqual(l, l[0]);
    assert forall i :: 0 <= i < |l| ==> l[i] == l[0];
  }

  /** The denominator is never negative, and zero exactly when all the logarithms are equal. */
  lemma DenominatorZeroIffAllEqual(l: seq<real>)
    requires l != []
    ensures Denominator(l) >= 0.0
    ensures Denominator(l) == 0.0 <==> AllEqual(l)
  {
    var n := |l| as real;
    DenominatorIsSumOfSquares(l);
    SquaredLineNonNegative(l, n, -Sum(l));
    ProductSign(n, Denominator(l));
    if AllEqual(l) { LinesFromEqual(l); }
    hide Denominator;
    hide SquaredLine;
    hide Line;
    hide Sum;
    if Denominator(l) == 0.0 {
      assert n * 0.0 == 0.0;
      EqualFromLines(l, n, Sum(l));
    }
  }

  // ---------- Optimality ----------

  function Slope(l: seq<real>, y: seq<real>): real
    requires |l| == |y| && Denominator(l) != 0.0
  {
    Cross(|l| as real, Dot(l, y), Sum(l), Sum(y)) / Denominator(l)
  }

  function Intercept(l: seq<real>, y: seq<real>): real
    requires |l| == |y| && Denominator(l) != 0.0
  {
    (Sum(y) - Slope(l, y) * Sum(l)) / (|l| as real)
  }

  /** Moving the line by (u, v) changes each squared residual r^2 into r^2 - 2 r (u l + v) + (u l + v)^2. */
  lemma {:induction false} ErrorShift(l: seq<real>, y: seq<real>, a: real, b: real, u: real, v: real)
    requires |l| == |y|
    ensures SquaredError(l, y, a + u, b + v) ==
      SquaredError(l, y, a, b) - Shift(u, v, ResidualDot(l, y, a, b), ResidualSum(l, y, a, b)) + SquaredLine(l, u, v)
  {
    if l == [] {
    } else {
      hide Shift;
      hide Times;
      hide Sq;
      hide Line;
      var n := |l| - 1;
      ErrorShift(l[..n], y[..n], a, b, u, v);
      ResidualMoves(a, b, u, v, l[n], y[n]);
      ShiftStep(u, v, ResidualDot(l[..n], y[..n], a, b), ResidualSum(l[..n], y[..n], a, b), y[n] - Line(a, b, l[n]),
        l[n]);
    }
  }

  lemma {:induction false} ResidualSums(l: seq<real>, y: seq<real>, a: real, b: real)
    requires |l| == |y|
    ensures ResidualSum(l, y, a, b) == Balance(Sum(y), a, Sum(l), b, |l| as real)
    ensures ResidualDot(l, y, a, b) == Balance(Dot(l, y), a, Dot(l, l), b, Sum(l))
  {
    if l == [] {
    } else {
      hide Balance;
      hide Times;
      hide Line;
      var n := |l| - 1;
      var x, z := l[n], y[n];
      ResidualSums(l[..n], y[..n], a, b);
      BalanceStep(Sum(y[..n]), a, Sum(l[..n]), b, n as real, z, x, 1.0);
      BalanceStep(Dot(l[..n], y[..n]), a, Dot(l[..n], l[..n]), b, Sum(l[..n]), Times(x, z), Times(x, x), x);
      OneResidual(a, b, x, z);
    }
  }

  lemma SlopeTimesDenominator(l: seq<real>, y: seq<real>)
    requires |l| == |y| && Denominator(l) != 0.0
    ensures Slope(l, y) * Cross(|l| as real, Dot(l, l), Sum(l), Sum(l)) == Cross(|l| as real, Dot(l, y), Sum(l), Sum(y))
  {
    hide Cross;
    hide Sum;
    hide Dot;
    DivideBack(Cross(|l| as real, Dot(l, y), Sum(l), Sum(y)), Denominator(l));
  }

  lemma InterceptTimesCount(l: seq<real>, y: seq<real>)
    requires |l| == |y| && l != [] && Denominator(l) != 0.0
    ensures Intercept(l, y) * (|l| as real) == Sum(y) - Slope(l, y) * Sum(l)
  {
    hide Slope;
    hide Denominator;
    hide Sum;
    DivideBack(Sum(y) - Slope(l, y) * Sum(l), |l| as real);
  }

  /** The normal equations: at the fitted line the residuals and their products with l add up to zero. */
  lemma NormalEquations(l: seq<real>, y: seq<real>)
    requires |l| == |y| && l != [] && Denominator(l) != 0.0
    ensures ResidualSum(l, y, Slope(l, y), Intercept(l, y)) == 0.0
    ensures ResidualDot(l, y, Slope(l, y), Intercept(l, y)) == 0.0
  {
    SlopeTimesDenominator(l, y);
    InterceptTimesCount(l, y);
    hide Cross;
    hide Balance;
    hide Dot;
    hide Sum;
    hide Slope;
    hide Intercept;
    hide Denominator;
    hide ResidualSum;
    hide ResidualDot;
    ResidualSums(l, y, Slope(l, y), Intercept(l, y));
    Solve(|l| as real, Slope(l, y), Intercept(l, y), Sum(l), Sum(y), Dot(l, l), Dot(l, y));
  }

  /** A line with two zeros is zero. */
  lemma TwoZeros(u: real, v: real, x: real, y: real)
    requires x != y && Line(u, v, x) == 0.0 && Line(u, v, y) == 0.0
    ensures u == 0.0 && v == 0.0
  {
    var z := x - y;
    assert z * u == u * x - u * y;
    ProductZero(z, u);
    assert u * x == 0.0;
  }

  lemma ZeroLine(l: seq<real>, u: real, v: real)
    requires l != [] && Denominator(l) != 0.0
    ensures SquaredLine(l, u, v) == 0.0 ==> u == 0.0 && v == 0.0
  {
    SquaredLineNonNegative(l, u, v);
    DenominatorZeroIffAllEqual(l);
    hide SquaredLine;
    hide Denominator;
    hide Line;
    var i, j :| 0 <= i < |l| && 0 <= j < |l| && l[i] != l[j];
    if SquaredLine(l, u, v) == 0.0 {
      TwoZeros(u, v, l[i], l[j]);
    }
  }

  /** No line has a smaller sum of squared residuals, and no other line has the same. */
  lemma FitIsTheUniqueMinimum(l: seq<real>, y: seq<real>, a: real, b: real)
    requires |l| == |y| && l != [] && Denominator(l) != 0.0
    ensures SquaredError(l, y, Slope(l, y), Intercept(l, y)) <= SquaredError(l, y, a, b)
    ensures SquaredError(l, y, Slope(l, y), Intercept(l, y)) == SquaredError(l, y, a, b)
      ==> a == Slope(l, y) && b == Intercept(l, y)
  {
    var a0, b0 := Slope(l, y), Intercept(l, y);
    NormalEquations(l, y);
    hide Slope;
    hide Intercept;
    hide SquaredError;
    hide SquaredLine;
    hide Denominator;
    var u, v := a - a0, b - b0;
    assert a0 + u == a && b0 + v == b;
    ErrorShift(l, y, a0, b0, u, v);
    assert Shift(u, v, 0.0, 0.0) == 0.0;
    hide Shift;
    SquaredLineNonNegative(l, u, v);
    ZeroLine(l, u, v);
  }

  ghost predicate IsUniqueMinimum(l: seq<real>, y: seq<real>, a: real, b: real)
    requires |l| == |y|
  {
    forall a', b' :: (a', b') != (a, b) ==> SquaredError(l, y, a, b) < SquaredError(l, y, a', b')
  }

  lemma OutcomeOfSums(l: seq<real>, y: seq<real>)
    requires |l| == |y| && l != []
    ensures Denominator(l) == 0.0 <==> AllEqual(l)
    ensures Denominator(l) != 0.0 ==> IsUniqueMinimum(l, y, Slope(l, y), Intercept(l, y))
  {
    DenominatorZeroIffAllEqual(l);
    hide Slope;
    hide Intercept;
    hide SquaredError;
    hide Denominator;
    if Denominator(l) != 0.0 {
      forall a', b' | (a', b') != (Slope(l, y), Intercept(l, y))
        ensures SquaredError(l, y, Slope(l, y), Intercept(l, y)) < SquaredError(l, y, a', b')
      {
        FitIsTheUniqueMinimum(l, y, a', b');
      }
    }
  }
}

/** The procedure of provider/common, against the specification above. */
module LogarithmicFit {
  import opened LeastSquares

  type Log = real -> real

  datatype Error = InvalidInput | NonPositiveX | ZeroDenominator

  datatype FitResult = Fit(a: real, b: real) | Failed(error: Error)

  function Logs(ln: Log, xs: seq<real>): (r: seq<real>) {
    seq(|xs|, i requires 0 <= i < |xs| => ln(xs[i]))
  }

  function Evaluate(ln: Log, fit: FitResult, x: real): real
    requires fit.Fit?
  {
    Line(fit.a, fit.b, ln(x))
  }

  ghost predicate PositiveXs(xs: seq<real>) {
    forall i :: 0 <= i < |xs| ==> xs[i] > 0.0
  }

  /** The outcome of logarithmicFit, for inputs of any length and sign. */
  ghost predicate Outcome(ln: Log, xData: seq<real>, yData: seq<real>, r: FitResult) {
    var n := |xData|;
    if n != |yData| || n == 0 then r == Failed(InvalidInput)
    else if !PositiveXs(xData) then r == Failed(NonPositiveX)
    else if AllEqual(Logs(ln, xData)) then r == Failed(ZeroDenominator)
    else r.Fit? && IsUniqueMinimum(Logs(ln, xData), yData, r.a, r.b)
  }

  lemma SumsStep(l: seq<real>, y: seq<real>, i: nat)
    requires |l| == |y| && i < |l|
    ensures Sum(l[..i + 1]) == Sum(l[..i]) + l[i]
    ensures Dot(l[..i + 1], y[..i + 1]) == Dot(l[..i], y[..i]) + l[i] * y[i]
  {
    assert l[..i + 1][..i] == l[..i] && y[..i + 1][..i] == y[..i];
  }

  lemma CrossIs(n: real, e: real, s: real, t: real)
    ensures n * e - s * t == Cross(n, e, s, t)
  {
  }

  /** The denominator computed from the sums decides between the error and the fit. */
  lemma DenominatorOfSums(l: seq<real>, n: real, s: real, d: real)
    requires l != [] && n == |l| as real && s == Sum(l) && d == Dot(l, l)
    ensures n * d - s * s == Denominator(l)
    ensures n * d - s * s == 0.0 <==> AllEqual(l)
  {
    CrossIs(n, d, s, s);
    DenominatorZeroIffAllEqual(l);
    hide Cross;
    hide Sum;
    hide Dot;
  }

  /** The two expressions at the end of the procedure are the unique minimum. */
  lemma FinalExpressions(l: seq<real>, y: seq<real>, n: real, s: real, t: real, d: real, e: real, a: real, b: real)
    requires |l| == |y| && l != [] && n == |l| as real && s == Sum(l) && t == Sum(y) && d == Dot(l, l) && e == Dot(l, y)
    requires n * d - s * s != 0.0 && a == (n * e - s * t) / (n * d - s * s) && b == (t - a * s) / n
    ensures IsUniqueMinimum(l, y, a, b)
  {
    DenominatorOfSums(l, n, s, d);
    OutcomeOfSums(l, y);
    CrossIs(n, e, s, t);
    hide Cross;
    hide Sum;
    hide Dot;
    hide IsUniqueMinimum;
    hide Denominator;
    assert a == Slope(l, y);
    hide Slope;
    assert b == Intercept(l, y);
  }

  /** The loop that accumulates the four sums. */
  method Accumulate(lnXData: array<real>, yData: seq<real>)
      returns (sumLnX: real, sumY: real, sumLnX2: real, sumLnXY: real)
    requires lnXData.Length == |yData|
    ensures sumLnX == Sum(lnXData[..]) && sumY == Sum(yData)
    ensures sumLnX2 == Dot(lnXData[..], lnXData[..]) && sumLnXY == Dot(lnXData[..], yData)
  {
    var n := |yData|;
    ghost var l := lnXData[..];
    sumLnX, sumY, sumLnX2, sumLnXY := 0.0, 0.0, 0.0, 0.0;
    for i := 0 to n
      invariant sumLnX == Sum(l[..i]) && sumY == Sum(yData[..i])
      invariant sumLnX2 == Dot(l[..i], l[..i]) && sumLnXY == Dot(l[..i], yData[..i])
    {
      SumsStep(l, l, i);
      SumsStep(l, yData, i);
      SumsStep(yData, yData, i);
      assert lnXData[i] == l[i];
      hide Sum;
      hide Dot;
      sumLnX := sumLnX + lnXData[i];
      sumY := sumY + yData[i];
      sumLnX2 := sumLnX2 + lnXData[i] * lnXData[i];
      sumLnXY := sumLnXY + lnXData[i] * yData[i];
    }
    assert l[..n] == l && yData[..n] == yData;
  }

  method LogarithmicFit(ln: Log, xData: seq<real>, yData: seq<real>) returns (r: FitResult)
    ensures Outcome(ln, xData, yData, r)
  {
    hide IsUniqueMinimum;
    hide Sum;
    hide Dot;
    hide Denominator;
    var n := |xData|;
    if n != |yData| || n == 0 {
      return Failed(InvalidInput);
    }
    var lnXData := new real[n];
    for i := 0 to n
      invariant forall k :: 0 <= k < i ==> xData[k] > 0.0 && lnXData[k] == ln(xData[k])
    {
      if xData[i] <= 0.0 {
        return Failed(NonPositiveX);
      }
      lnXData[i] := ln(xData[i]);
    }
    var sumLnX, sumY, sumLnX2, sumLnXY := Accumulate(lnXData, yData);
    ghost var l := lnXData[..];
    assert l == Logs(ln, xData);
    DenominatorOfSums(l, n as real, sumLnX, sumLnX2);
    if (n as real) * sumLnX2 - sumLnX * sumLnX == 0.0 {
      return Failed(ZeroDenominator);
    }
    var a := ((n as real) * sumLnXY - sumLnX * sumY) / ((n as real) * sumLnX2 - sumLnX * sumLnX);
    var b := (sumY - a * sumLnX) / (n as real);
    FinalExpressions(l, yData, n as real, sumLnX, sumY, sumLnX2, sumLnXY, a, b);
    return Fit(a, b);
  }

  /** With a logarithm that tells positive numbers apart, the zero denominator means one single x value. */
  lemma ZeroDenominatorIffOneX(ln: Log, xs: seq<real>)
    requires xs != [] && PositiveXs(xs)
    requires forall x, x' :: 0.0 < x < x' ==> ln(x) < ln(x')
    ensures Denominator(Logs(ln, xs)) == 0.0 <==> AllEqual(xs)
  {
    var l := Logs(ln, xs);
    DenominatorZeroIffAllEqual(l);
    hide Denominator;
    forall i, j | 0 <= i < |xs| && 0 <= j < |xs|
      ensures l[i] == l[j] <==> xs[i] == xs[j]
    {
      assert xs[i] < xs[j] ==> ln(xs[i]) < ln(xs[j]);
      assert xs[j] < xs[i] ==> ln(xs[j]) < ln(xs[i]);
    }
  }

  lemma {:induction false} ErrorSign(l: seq<real>, y: seq<real>, a: real, b: real)
    requires |l| == |y|
    ensures SquaredError(l, y, a, b) >= 0.0
    ensures (forall i :: 0 <= i < |l| ==> y[i] == Line(a, b, l[i])) ==> SquaredError(l, y, a, b) == 0.0
  {
    if l == [] {
    } else {
      hide Line;
      var n := |l| - 1;
      SqSign(y[n] - Line(a, b, l[n]));
      hide Sq;
      ErrorSign(l[..n], y[..n], a, b);
    }
  }

  /** Data that lie on a curve of the model, over at least two x values, are fitted by that curve. */
  lemma ExactDataAreRecovered(ln: Log, xs: seq<real>, ys: seq<real>, curve: FitResult)
    requires |xs| == |ys| && xs != [] && !AllEqual(Logs(ln, xs)) && curve.Fit?
    requires forall i :: 0 <= i < |xs| ==> ys[i] == Evaluate(ln, curve, xs[i])
    ensures IsUniqueMinimum(Logs(ln, xs), ys, curve.a, curve.b)
  {
    var l := Logs(ln, xs);
    hide Line;
    OutcomeOfSums(l, ys);
    ErrorSign(l, ys, curve.a, curve.b);
    ErrorSign(l, ys, Slope(l, ys), Intercept(l, ys));
    hide SquaredError;
    hide Slope;
    hide Intercept;
    hide Denominator;
  }
}
