/** Second moments of paired samples: Cauchy-Schwarz and least squares, without square roots. */
module Moments {
  import opened RealSeq

  /** n * sum(xy) - sum(x) * sum(y), from the running sums. */
  function Centred(n: real, sxy: real, sx: real, sy: real): real {
    n * sxy - sx * sy
  }

  /** n squared times the sample covariance. */
  ghost function Cov(x: seq<real>, y: seq<real>): real
    requires |x| == |y|
  {
    Centred(|x| as real, Dot(x, y), Sum(x), Sum(y))
  }

  function Square(d: real): (r: real)
    ensures r >= 0.0
  {
    d * d
  }

  function Combine(a: real, b: real, c: real, u: real, v: real): real { a + b * u + c * v }

  /** Sum of (a + b x + c y) squared over the sample. */
  ghost function SquareSum(x: seq<real>, y: seq<real>, a: real, b: real, c: real): (r: real)
    requires |x| == |y|
    ensures r >= 0.0
  {
    if x == [] then 0.0 else
      var n := |x| - 1;
      SquareSum(x[..n], y[..n], a, b, c) + Square(Combine(a, b, c, x[n], y[n]))
  }

  /** The value of that sum, as a quadratic form in its coefficients. */
  ghost function Form(n: real, sx: real, sy: real, sxx: real, sxy: real, syy: real,
                      a: real, b: real, c: real): real
  {
    n * (a * a) + sxx * (b * b) + syy * (c * c)
    + 2.0 * (sx * (a * b)) + 2.0 * (sy * (a * c)) + 2.0 * (sxy * (b * c))
  }

  ghost function FormOf(x: seq<real>, y: seq<real>, a: real, b: real, c: real): real
    requires |x| == |y|
  {
    Form(|x| as real, Sum(x), Sum(y), Dot(x, x), Dot(x, y), Dot(y, y), a, b, c)
  }

  /** One more observation (u, v) adds one more square to the form. */
  lemma FormStep(a: real, b: real, c: real,
                 n: real, sx: real, sy: real, sxx: real, sxy: real, syy: real, u: real, v: real)
    ensures Form(n + 1.0, sx + u, sy + v, sxx + u * u, sxy + u * v, syy + v * v, a, b, c)
         == Form(n, sx, sy, sxx, sxy, syy, a, b, c) + Square(Combine(a, b, c, u, v))
  {
    var bu, cv := b * u, c * v;
    assert Square(a + bu + cv) == a * a + bu * bu + cv * cv + 2.0 * (a * bu) + 2.0 * (a * cv) + 2.0 * (bu * cv);
    assert bu * bu == (u * u) * (b * b);
    assert cv * cv == (v * v) * (c * c);
    assert bu * cv == (u * v) * (b * c);
    assert a * bu == u * (a * b);
    assert a * cv == v * (a * c);
  }

  lemma FormOfStep(x: seq<real>, y: seq<real>, a: real, b: real, c: real)
    requires |x| == |y| > 0
    ensures var n := |x| - 1;
            FormOf(x, y, a, b, c) == FormOf(x[..n], y[..n], a, b, c) + Square(Combine(a, b, c, x[n], y[n]))
  {
    var n := |x| - 1;
    var x', y' := x[..n], y[..n];
    FormStep(a, b, c, n as real, Sum(x'), Sum(y'), Dot(x', x'), Dot(x', y'), Dot(y', y'), x[n], y[n]);
  }

  lemma {:induction false} SquareSumIsForm(x: seq<real>, y: seq<real>, a: real, b: real, c: real)
    requires |x| == |y|
    ensures SquareSum(x, y, a, b, c) == FormOf(x, y, a, b, c)
  {
    if x == [] {
      assert FormOf(x, y, a, b, c) == 0.0;
    } else {
      hide FormOf, Square, Combine;
      SquareSumIsForm(x[..|x| - 1], y[..|x| - 1], a, b, c);
      FormOfStep(x, y, a, b, c);
    }
  }

  function Quadratic(p: real, q: real, r: real, b: real, c: real): real {
    p * (b * b) + 2.0 * (q * (b * c)) + r * (c * c)
  }

  /** Eliminating the intercept a from a non-negative form. */
  lemma Eliminate(n: real, sx: real, sy: real, sxx: real, sxy: real, syy: real, a: real, b: real, c: real,
                  p: real, q: real, r: real)
    requires n > 0.0 && n * a == -(b * sx + c * sy)
    requires Form(n, sx, sy, sxx, sxy, syy, a, b, c) >= 0.0
    requires p == n * sxx - sx * sx && q == n * sxy - sx * sy && r == n * syy - sy * sy
    ensures Quadratic(p, q, r, b, c) >= 0.0
  {
    var m := b * sx + c * sy;
    var t := sxx * (b * b) + syy * (c * c) + 2.0 * (sxy * (b * c));
    var f := Form(n, sx, sy, sxx, sxy, syy, a, b, c);
    assert f == a * (n * a) + t + 2.0 * (a * m);
    assert f == t + a * m by { assert n * a == -m; }
    assert n * f == n * t - m * m by {
      assert n * (a * m) == (n * a) * m;
    }
    Sign(n, f);
    var u, v := b * sx, c * sy;
    assert m * m == u * u + v * v + 2.0 * (u * v);
    assert u * u == (sx * sx) * (b * b);
    assert v * v == (sy * sy) * (c * c);
    assert u * v == (sx * sy) * (b * c);
  }

  /** The covariances of a sample form a quadratic that is never negative. */
  lemma CovForm(x: seq<real>, y: seq<real>, b: real, c: real)
    requires |x| == |y| > 0
    ensures Quadratic(Cov(x, x), Cov(x, y), Cov(y, y), b, c) >= 0.0
  {
    hide *;
    CovMoments(x, x);
    CovMoments(x, y);
    CovMoments(y, y);
    var a := Solve(|x| as real, -(b * Sum(x) + c * Sum(y)));
    FormNonNegative(x, y, a, b, c);
    Eliminate(|x| as real, Sum(x), Sum(y), Dot(x, x), Dot(x, y), Dot(y, y), a, b, c,
              Cov(x, x), Cov(x, y), Cov(y, y));
  }

  lemma CovMoments(x: seq<real>, y: seq<real>)
    requires |x| == |y|
    ensures Cov(x, y) == |x| as real * Dot(x, y) - Sum(x) * Sum(y)
  {
    hide Sum, Dot;
  }

  lemma FormNonNegative(x: seq<real>, y: seq<real>, a: real, b: real, c: real)
    requires |x| == |y|
    ensures Form(|x| as real, Sum(x), Sum(y), Dot(x, x), Dot(x, y), Dot(y, y), a, b, c) >= 0.0
  {
    hide Form, SquareSum;
    SquareSumIsForm(x, y, a, b, c);
  }

  lemma Solve(n: real, m: real) returns (a: real)
    requires n != 0.0
    ensures n * a == m
  {
    a := m / n;
  }

  lemma NegativeValue(p: real, q: real, r: real)
    requires p == 0.0 && q != 0.0
    ensures exists b: real, c: real :: Quadratic(p, q, r, b, c) < 0.0
  {
    var b := Solve(q, -(r + 1.0) / 2.0);
    assert Quadratic(p, q, r, b, 1.0) == -1.0;
  }

  /** A quadratic that is never negative has a non-positive discriminant. */
  lemma Discriminant(p: real, q: real, r: real)
    requires forall b: real, c: real :: Quadratic(p, q, r, b, c) >= 0.0
    ensures p >= 0.0 && r >= 0.0 && q * q <= p * r
  {
    assert Quadratic(p, q, r, 1.0, 0.0) >= 0.0;
    assert Quadratic(p, q, r, 0.0, 1.0) >= 0.0;
    if p > 0.0 {
      assert Quadratic(p, q, r, q, -p) >= 0.0;
      Factor(p, q, r);
    } else if q != 0.0 {
      NegativeValue(p, q, r);
      assert false;
    }
  }

  /** Cauchy-Schwarz for the centred sample, for every sample. */
  lemma CauchySchwarz(x: seq<real>, y: seq<real>)
    requires |x| == |y|
    ensures Cov(x, x) >= 0.0 && Cov(y, y) >= 0.0
    ensures Cov(x, y) * Cov(x, y) <= Cov(x, x) * Cov(y, y)
  {
    hide Cov, Quadratic;
    if x == [] {
      CovEmpty(x, x);
      CovEmpty(x, y);
    } else {
      forall b: real, c: real ensures Quadratic(Cov(x, x), Cov(x, y), Cov(y, y), b, c) >= 0.0 {
        CovForm(x, y, b, c);
      }
      Discriminant(Cov(x, x), Cov(x, y), Cov(y, y));
    }
  }

  lemma CovEmpty(x: seq<real>, y: seq<real>)
    requires x == y == []
    ensures Cov(x, y) == 0.0
  {
  }

  lemma Factor(p: real, q: real, r: real)
    requires p > 0.0
    requires p * (q * q) + 2.0 * (q * (q * -p)) + r * (-p * -p) >= 0.0
    ensures q * q <= p * r
  {
    assert p * (p * r - q * q) >= 0.0;
    if p * r - q * q < 0.0 {
      SameSign(p * r - q * q, p);
    }
  }

  /** Sum of squared residuals of the line y = alpha + beta x. */
  ghost function Residuals(x: seq<real>, y: seq<real>, alpha: real, beta: real): real
    requires |x| == |y|
  {
    SquareSum(x, y, -alpha, -beta, 1.0)
  }

  /** The intercept that goes with a slope: the line through the means. */
  function Intercept(x: seq<real>, y: seq<real>, slope: real): real
    requires |x| == |y| > 0
  {
    (Sum(y) - slope * Sum(x)) / |x| as real
  }

  /** The slope Cov(x,y)/Cov(x,x), with its intercept, leaves no more residual than any other line. */
  lemma LeastSquares(x: seq<real>, y: seq<real>, slope: real, alpha: real, beta: real)
    requires |x| == |y| > 0
    requires slope * Cov(x, x) == Cov(x, y)
    ensures Residuals(x, y, Intercept(x, y, slope), slope) <= Residuals(x, y, alpha, beta)
  {
    hide Form, SquareSum, Sum, Dot, Cov, Intercept;
    var a := Intercept(x, y, slope);
    SquareSumIsForm(x, y, -a, -slope, 1.0);
    SquareSumIsForm(x, y, -alpha, -beta, 1.0);
    SquareSumIsForm(x, y, a - alpha, slope - beta, 0.0);
    InterceptSolves(x, y, slope);
    Pythagoras(|x| as real, Sum(x), Sum(y), Dot(x, x), Dot(x, y), Dot(y, y), a, slope,
               alpha, beta, -alpha, -beta, -a, -slope, a - alpha, slope - beta);
  }

  lemma InterceptSolves(x: seq<real>, y: seq<real>, slope: real)
    requires |x| == |y| > 0
    requires slope * Cov(x, x) == Cov(x, y)
    ensures |x| as real * Intercept(x, y, slope) + slope * Sum(x) == Sum(y)
    ensures Sum(x) * Intercept(x, y, slope) + slope * Dot(x, x) == Dot(x, y)
  {
    hide *;
    CovMoments(x, x);
    CovMoments(x, y);
    InterceptMoments(x, y, slope);
    NormalEquations(|x| as real, Sum(x), Sum(y), Dot(x, x), Dot(x, y), Cov(x, x), Cov(x, y),
                    Intercept(x, y, slope), slope);
  }

  lemma InterceptMoments(x: seq<real>, y: seq<real>, slope: real)
    requires |x| == |y| > 0
    ensures |x| as real * Intercept(x, y, slope) == Sum(y) - slope * Sum(x)
  {
    hide Sum;
  }

  lemma NormalEquations(n: real, sx: real, sy: real, sxx: real, sxy: real, p: real, q: real,
                        alpha: real, beta: real)
    requires n > 0.0 && n * alpha == sy - beta * sx
    requires beta * p == q && p == n * sxx - sx * sx && q == n * sxy - sx * sy
    ensures n * alpha + beta * sx == sy
    ensures sx * alpha + beta * sxx == sxy
  {
    var t := sx * alpha + beta * sxx - sxy;
    assert n * t == sx * (n * alpha) + beta * (n * sxx) - n * sxy;
    assert sx * (n * alpha) == sx * sy - beta * (sx * sx);
    assert beta * p == beta * (n * sxx) - beta * (sx * sx);
    assert n * t == 0.0;
  }

  /** Residuals of any line = residuals of the fitted line + squared difference of the two lines. */
  lemma Pythagoras(n: real, sx: real, sy: real, sxx: real, sxy: real, syy: real,
                   a: real, s: real, alpha: real, beta: real,
                   alpha': real, beta': real, a': real, s': real, da: real, ds: real)
    requires n * a + s * sx == sy
    requires sx * a + s * sxx == sxy
    requires alpha' == -alpha && beta' == -beta && a' == -a && s' == -s && da == a - alpha && ds == s - beta
    ensures Form(n, sx, sy, sxx, sxy, syy, alpha', beta', 1.0)
         == Form(n, sx, sy, sxx, sxy, syy, a', s', 1.0) + Form(n, sx, sy, sxx, sxy, syy, da, ds, 0.0)
  {
    assert (sy - n * a - s * sx) * (a - alpha) == 0.0;
    assert (sxy - sx * a - s * sxx) * (s - beta) == 0.0;
  }

  // ---------------------------------------------------------------------
  // Standard deviation
  // ---------------------------------------------------------------------

  /** A square-root function on the non-negative reals. */
  ghost predicate IsSqrt(sqrt: real --> real) {
    forall v: real :: v >= 0.0 ==> sqrt.requires(v) && sqrt(v) >= 0.0 && sqrt(v) * sqrt(v) == v
  }

  ghost function Deviations(x: seq<real>, mean: real): (r: seq<real>)
    ensures |r| == |x|
  {
    seq(|x|, i requires 0 <= i < |x| => x[i] - mean)
  }

  ghost function Mean(x: seq<real>): real {
    if x == [] then 0.0 else Sum(x) / |x| as real
  }

  /** Sum of squared deviations from the mean. */
  ghost function Spread(x: seq<real>): real {
    Dot(Deviations(x, Mean(x)), Deviations(x, Mean(x)))
  }

  /** sd is the sample standard deviation (n - 1 in the divisor), 0 for fewer than two values. */
  ghost predicate IsDeviation(x: seq<real>, sd: real) {
    if |x| < 2 then sd == 0.0 else sd >= 0.0 && sd * sd * (|x| - 1) as real == Spread(x)
  }

  lemma NothingSummed()
    ensures Sum([]) == 0.0 && Dot([], []) == 0.0
  {
  }

  lemma FewValues(x: seq<real>)
    requires |x| < 2
    ensures IsDeviation(x, 0.0)
  {
  }

  lemma DeviationAt(x: seq<real>, mean: real, i: nat)
    requires i < |x|
    ensures Deviations(x, mean)[i] == x[i] - mean
  {
  }

  lemma AddSquare(a: real, d: real)
    requires a >= 0.0
    ensures a + d * d >= 0.0
  {
    assert Square(d) >= 0.0;
  }

  lemma RootOfVariance(x: seq<real>, sqDiff: real, variance: real, sd: real)
    requires |x| >= 2 && sqDiff == Dot(Deviations(x, Mean(x)), Deviations(x, Mean(x)))
    requires variance == sqDiff / (|x| - 1) as real
    requires sd >= 0.0 && sd * sd == variance
    ensures IsDeviation(x, sd)
  {
    hide Deviations, Mean, Dot;
    var n := (|x| - 1) as real;
    assert variance * n == sqDiff;
  }
}
