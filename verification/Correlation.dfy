/** Rolling correlation and beta of two assets (internal/strategy/correlation.go). */
module Correlation {
  import opened RealSeq
  import opened Moments

  datatype Quote = Quote(primary: real, hedge: real, tsMs: int)

  datatype Sample = Sample(primaryReturn: real, hedgeReturn: real, tsMs: int)

  const MIN_SAMPLES := 10
  const MIN_DENOMINATOR := 0.000000000001 // 1e-12

  function PairId(primary: string, hedge: string): string { primary + ":" + hedge }

  function RelativeChange(from: real, to: real): real
    requires from > 0.0
  {
    (to - from) / from
  }

  function ReturnBetween(a: Quote, b: Quote): Sample
    requires a.primary > 0.0 && a.hedge > 0.0
  {
    Sample(RelativeChange(a.primary, b.primary), RelativeChange(a.hedge, b.hedge), b.tsMs)
  }

  ghost predicate Priced(q: seq<Quote>) {
    forall i :: 0 <= i < |q| ==> q[i].primary > 0.0 && q[i].hedge > 0.0
  }

  /** The return observations that a history of accepted prices produces. */
  ghost function Returns(q: seq<Quote>): (r: seq<Sample>)
    requires Priced(q)
    ensures |r| == if |q| == 0 then 0 else |q| - 1
    ensures forall i :: 0 <= i < |r| ==> r[i] == ReturnBetween(q[i], q[i + 1])
  {
    seq(if |q| == 0 then 0 else |q| - 1, i requires 0 <= i < |q| - 1 => ReturnBetween(q[i], q[i + 1]))
  }

  /** Two pairs whose names hold no colon have different identifiers, which start with the primary's name. */
  lemma PairIdsDiffer(p: string, h: string, p': string, h': string)
    requires ':' !in p && ':' !in p' && PairId(p, h) == PairId(p', h')
    ensures p == p' && h == h' && PairId(p, h)[..|p|] == p
  {
    var id := PairId(p, h);
    assert id[|p|] == ':' && id[|p'|] == ':';
    assert id[..|p|] == p && PairId(p', h')[..|p'|] == p';
    assert id[|p| + 1..] == h && PairId(p', h')[|p'| + 1..] == h';
  }

  lemma ReturnsAppend(q: seq<Quote>, x: Quote)
    requires Priced(q) && q != [] && x.primary > 0.0 && x.hedge > 0.0
    ensures Returns(q + [x]) == Returns(q) + [ReturnBetween(q[|q| - 1], x)]
  {
  }

  ghost function Xs(s: seq<Sample>): (r: seq<real>)
    ensures |r| == |s|
  {
    seq(|s|, i requires 0 <= i < |s| => s[i].primaryReturn)
  }

  ghost function Ys(s: seq<Sample>): (r: seq<real>)
    ensures |r| == |s|
  {
    seq(|s|, i requires 0 <= i < |s| => s[i].hedgeReturn)
  }

  /** The window holds exactly the last `window` returns of the whole history of accepted prices. */
  ghost predicate Tracks(window: nat, history: seq<Quote>, last: (real, real), samples: seq<Sample>) {
    && history != [] && Priced(history)
    && last == (history[|history| - 1].primary, history[|history| - 1].hedge)
    && samples == LastN(Returns(history), window)
  }

  lemma TracksNext(window: nat, history: seq<Quote>, last: (real, real), samples: seq<Sample>, q: Quote)
    requires Tracks(window, history, last, samples) && q.primary > 0.0 && q.hedge > 0.0
    ensures last.0 > 0.0 && last.1 > 0.0
    ensures var next := Sample(RelativeChange(last.0, q.primary), RelativeChange(last.1, q.hedge), q.tsMs);
            var recent := samples + [next];
            Tracks(window, history + [q], (q.primary, q.hedge),
                   if |recent| > window then recent[|recent| - window..] else recent)
  {
    hide RelativeChange, LastN;
    ReturnsAppend(history, q);
    TrimmedAppend(Returns(history), samples, ReturnBetween(history[|history| - 1], q), window);
  }

  lemma TracksFirst(window: nat, q: Quote)
    requires q.primary > 0.0 && q.hedge > 0.0
    ensures Tracks(window, [q], (q.primary, q.hedge), [])
  {
  }

  /** A sample of the window is the relative change between two accepted prices in a row, of each asset. */
  lemma ReturnMeaning(window: nat, history: seq<Quote>, last: (real, real), samples: seq<Sample>, k: nat,
                      from: Quote, to: Quote)
    requires Tracks(window, history, last, samples) && k < |samples| < |history|
    requires from == history[|history| - |samples| + k - 1] && to == history[|history| - |samples| + k]
    ensures IsChange(samples[k], from, to)
  {
    hide ReturnBetween, IsChange, LastN;
    ReturnAt(history, |history| - |samples| + k - 1);
    InWindow(Returns(history), window, k);
    ReturnIsShare(from, to);
  }

  /** The sample holds the relative change of both prices. */
  ghost predicate IsChange(x: Sample, from: Quote, to: Quote) {
    && x.primaryReturn * from.primary == to.primary - from.primary
    && x.hedgeReturn * from.hedge == to.hedge - from.hedge
    && x.tsMs == to.tsMs
  }

  lemma ReturnAt(q: seq<Quote>, n: nat)
    requires Priced(q) && n + 1 < |q|
    ensures Returns(q)[n] == ReturnBetween(q[n], q[n + 1])
  {
    hide ReturnBetween;
  }

  lemma InWindow(s: seq<Sample>, window: nat, k: nat)
    requires k < |LastN(s, window)|
    ensures LastN(s, window)[k] == s[|s| - |LastN(s, window)| + k]
  {
  }

  /** The window is as long as there are returns for, up to its size. */
  lemma WindowLength(window: nat, history: seq<Quote>, last: (real, real), samples: seq<Sample>)
    requires Tracks(window, history, last, samples)
    ensures |samples| == if |history| - 1 < window then |history| - 1 else window
  {
    hide ReturnBetween;
  }

  lemma ReturnIsShare(q: Quote, next: Quote)
    requires q.primary > 0.0 && q.hedge > 0.0
    ensures IsChange(ReturnBetween(q, next), q, next)
  {
    hide RelativeChange;
    ChangeIsShare(q.primary, next.primary);
    ChangeIsShare(q.hedge, next.hedge);
  }

  lemma ChangeIsShare(from: real, to: real)
    requires from > 0.0
    ensures RelativeChange(from, to) * from == to - from
  {
  }

  function Repriced(q: Quote, a: real, b: real): Quote { Quote(q.primary * a, q.hedge * b, q.tsMs) }

  /** The same history with every price of one asset times a, and of the other times b. */
  ghost function AllRepriced(q: seq<Quote>, a: real, b: real): (r: seq<Quote>)
    ensures |r| == |q| && forall i :: 0 <= i < |q| ==> r[i] == Repriced(q[i], a, b)
  {
    seq(|q|, i requires 0 <= i < |q| => Repriced(q[i], a, b))
  }

  /** Quoting an asset in another unit changes no sample, hence neither the correlation nor beta. */
  lemma UnitsDoNotMatter(window: nat, history: seq<Quote>, last: (real, real), samples: seq<Sample>,
                         last': (real, real), samples': seq<Sample>, a: real, b: real)
    requires a > 0.0 && b > 0.0
    requires Tracks(window, history, last, samples) && Tracks(window, AllRepriced(history, a, b), last', samples')
    ensures samples' == samples
    ensures forall beta :: IsBeta(samples', beta) <==> IsBeta(samples, beta)
    ensures forall sqrt: real --> real, c | IsSqrt(sqrt) ::
              IsCorrelation(samples', sqrt, c) <==> IsCorrelation(samples, sqrt, c)
  {
    hide ReturnBetween, IsBeta, IsCorrelation, LastN, Repriced;
    var h' := AllRepriced(history, a, b);
    assert Returns(h') == Returns(history) by {
      forall i | 0 <= i < |history| - 1 ensures Returns(h')[i] == Returns(history)[i] {
        SameReturn(history[i], history[i + 1], a, b);
      }
    }
  }

  lemma SameReturn(q: Quote, next: Quote, a: real, b: real)
    requires q.primary > 0.0 && q.hedge > 0.0 && a > 0.0 && b > 0.0
    ensures var q' := Repriced(q, a, b);
            q'.primary > 0.0 && q'.hedge > 0.0 && ReturnBetween(q', Repriced(next, a, b)) == ReturnBetween(q, next)
  {
    hide RelativeChange;
    var q', next' := Repriced(q, a, b), Repriced(next, a, b);
    SameChange(q.primary, next.primary, a, q'.primary, next'.primary);
    SameChange(q.hedge, next.hedge, b, q'.hedge, next'.hedge);
  }

  lemma SameChange(from: real, to: real, c: real, from': real, to': real)
    requires from > 0.0 && c > 0.0 && from' == from * c && to' == to * c
    ensures from' > 0.0 && RelativeChange(from', to') == RelativeChange(from, to)
  {
    SameSign(from, c);
    var x, y := RelativeChange(from', to'), RelativeChange(from, to);
    assert y * from == to - from;
    assert x * from' == to' - from';
    assert y * from' == (y * from) * c;
    assert (x - y) * from' == 0.0;
  }

  class Tracker {
    const window: nat
    var samples: map<string, seq<Sample>>
    var lastPrices: map<string, (real, real)>
    /** Every price pair ever accepted, per pair. */
    ghost var history: map<string, seq<Quote>>

    ghost function History(pid: string): seq<Quote>
      reads this
    {
      if pid in history then history[pid] else []
    }

    function Samples(pid: string): seq<Sample>
      reads this
    {
      if pid in samples then samples[pid] else []
    }

    ghost predicate Valid()
      reads this
    {
      && window >= MIN_SAMPLES
      && history.Keys == lastPrices.Keys
      && samples.Keys <= history.Keys
      && forall pid :: pid in history ==> Tracks(window, history[pid], lastPrices[pid], Samples(pid))
    }

    constructor (windowSize: int)
      ensures Valid() && history == map[]
      ensures window == if windowSize < MIN_SAMPLES then MIN_SAMPLES else windowSize
    {
      window := if windowSize < MIN_SAMPLES then MIN_SAMPLES else windowSize;
      samples := map[];
      lastPrices := map[];
      history := map[];
    }

    method RecordPrices(primary: string, hedge: string, primaryPrice: real, hedgePrice: real, tsMs: int)
      requires Valid()
      modifies this
      ensures Valid()
      ensures primaryPrice <= 0.0 || hedgePrice <= 0.0 ==> history == old(history)
      ensures primaryPrice > 0.0 && hedgePrice > 0.0 ==>
                var pid := PairId(primary, hedge);
                history == old(history)[pid := old(History(pid)) + [Quote(primaryPrice, hedgePrice, tsMs)]]
    {
      hide RelativeChange, Tracks;
      if primaryPrice <= 0.0 || hedgePrice <= 0.0 {
        return;
      }
      var pid := PairId(primary, hedge);
      var hasLast := pid in lastPrices;
      var last := if hasLast then lastPrices[pid] else (0.0, 0.0);
      ghost var quote := Quote(primaryPrice, hedgePrice, tsMs);
      if hasLast {
        TracksNext(window, history[pid], last, Samples(pid), quote);
      } else {
        TracksFirst(window, quote);
        assert History(pid) + [quote] == [quote];
      }
      lastPrices := lastPrices[pid := (primaryPrice, hedgePrice)];
      history := history[pid := History(pid) + [quote]];
      if !hasLast || last.0 <= 0.0 || last.1 <= 0.0 {
        return; // two observations are needed for a return
      }
      var primaryRet := RelativeChange(last.0, primaryPrice);
      var hedgeRet := RelativeChange(last.1, hedgePrice);
      var recent := Samples(pid) + [Sample(primaryRet, hedgeRet, tsMs)];
      if |recent| > window {
        recent := recent[|recent| - window..];
      }
      samples := samples[pid := recent];
    }

    /** Pearson's r: the root is defined, and the result lies in [-1, 1]. */
    method Correlation(primary: string, hedge: string, sqrt: real --> real) returns (r: real)
      requires IsSqrt(sqrt)
      ensures -1.0 <= r <= 1.0
      ensures IsCorrelation(Samples(PairId(primary, hedge)), sqrt, r)
      ensures |Samples(PairId(primary, hedge))| < 10 ==> r == 0.0
    {
      hide Cov, Centred, SumsOf, IsCorrelation;
      var s := Samples(PairId(primary, hedge));
      if |s| < MIN_SAMPLES {
        TooFew(s, sqrt);
        return 0.0;
      }
      var n := |s| as real;
      var sumX, sumY, sumXY, sumX2, sumY2 := 0.0, 0.0, 0.0, 0.0, 0.0;
      SumsOfNone(s);
      for i := 0 to |s|
        invariant SumsOf(s[..i], sumX, sumY, sumXY, sumX2, sumY2)
      {
        SumsOfStep(s, i, sumX, sumY, sumXY, sumX2, sumY2);
        sumX := sumX + s[i].primaryReturn;
        sumY := sumY + s[i].hedgeReturn;
        sumXY := sumXY + s[i].primaryReturn * s[i].hedgeReturn;
        sumX2 := sumX2 + s[i].primaryReturn * s[i].primaryReturn;
        sumY2 := sumY2 + s[i].hedgeReturn * s[i].hedgeReturn;
      }
      SumsGiveCov(s, sumX, sumY, sumXY, sumX2, sumY2);
      var num := Centred(n, sumXY, sumX, sumY);
      var varX, varY := Centred(n, sumX2, sumX, sumX), Centred(n, sumY2, sumY, sumY);
      var scale := varX * varY;
      Pearson(s, sqrt, num, varX, varY, scale);
      var den := sqrt(scale);
      if den < MIN_DENOMINATOR {
        return 0.0;
      }
      return num / den;
    }

    /** OLS slope: the default of 1, or the slope of the line with the least squared error. */
    method Beta(primary: string, hedge: string) returns (b: real)
      ensures IsBeta(Samples(PairId(primary, hedge)), b)
      ensures |Samples(PairId(primary, hedge))| < 10 ==> b == 1.0
    {
      hide Cov, Centred, SumsOf, IsBestSlope;
      var s := Samples(PairId(primary, hedge));
      if |s| < MIN_SAMPLES {
        return 1.0;
      }
      var n := |s| as real;
      var sumX, sumY, sumXY, sumX2 := 0.0, 0.0, 0.0, 0.0;
      ghost var sumY2 := 0.0;
      SumsOfNone(s);
      for i := 0 to |s|
        invariant SumsOf(s[..i], sumX, sumY, sumXY, sumX2, sumY2)
      {
        SumsOfStep(s, i, sumX, sumY, sumXY, sumX2, sumY2);
        sumX := sumX + s[i].primaryReturn;
        sumY := sumY + s[i].hedgeReturn;
        sumXY := sumXY + s[i].primaryReturn * s[i].hedgeReturn;
        sumX2 := sumX2 + s[i].primaryReturn * s[i].primaryReturn;
        sumY2 := sumY2 + s[i].hedgeReturn * s[i].hedgeReturn;
      }
      SumsGiveCov(s, sumX, sumY, sumXY, sumX2, sumY2);
      Variances(s);
      var den := Centred(n, sumX2, sumX, sumX);
      if Abs(den) < MIN_DENOMINATOR {
        return 1.0;
      }
      b := Centred(n, sumXY, sumX, sumY) / den;
      BestSlope(s, b);
    }
  }

  /** r is Pearson's coefficient of the sample, or 0 when it is undefined or there is too little data. */
  ghost predicate IsCorrelation(s: seq<Sample>, sqrt: real --> real, r: real)
    requires IsSqrt(sqrt)
  {
    IsPearson(|s|, Cov(Xs(s), Ys(s)), Scale(s), sqrt, r)
  }

  /** What the root is taken of: the product of the two variances, never negative. */
  ghost function Scale(s: seq<Sample>): (r: real)
    ensures r >= 0.0
  {
    Variances(s);
    Cov(Xs(s), Xs(s)) * Cov(Ys(s), Ys(s))
  }

  ghost predicate IsPearson(n: nat, cov: real, scale: real, sqrt: real --> real, r: real)
    requires IsSqrt(sqrt) && scale >= 0.0
  {
    if n < MIN_SAMPLES || sqrt(scale) < MIN_DENOMINATOR then r == 0.0 else r * sqrt(scale) == cov
  }

  /** No line through the sample leaves less squared error than one of this slope. */
  ghost predicate IsBestSlope(s: seq<Sample>, b: real)
    requires s != []
  {
    forall alpha: real, beta: real ::
      Residuals(Xs(s), Ys(s), Intercept(Xs(s), Ys(s), b), b) <= Residuals(Xs(s), Ys(s), alpha, beta)
  }

  ghost predicate IsBeta(s: seq<Sample>, b: real) {
    if |s| < MIN_SAMPLES || Cov(Xs(s), Xs(s)) < MIN_DENOMINATOR then b == 1.0 else IsBestSlope(s, b)
  }

  ghost predicate SumsOf(s: seq<Sample>, sumX: real, sumY: real, sumXY: real, sumX2: real, sumY2: real) {
    && sumX == Sum(Xs(s)) && sumY == Sum(Ys(s))
    && sumXY == Dot(Xs(s), Ys(s)) && sumX2 == Dot(Xs(s), Xs(s)) && sumY2 == Dot(Ys(s), Ys(s))
  }

  lemma SumsOfNone(s: seq<Sample>)
    ensures SumsOf(s[..0], 0.0, 0.0, 0.0, 0.0, 0.0)
  {
  }

  lemma SumsOfStep(s: seq<Sample>, i: nat, sumX: real, sumY: real, sumXY: real, sumX2: real, sumY2: real)
    requires i < |s| && SumsOf(s[..i], sumX, sumY, sumXY, sumX2, sumY2)
    ensures var x, y := s[i].primaryReturn, s[i].hedgeReturn;
            SumsOf(s[..i + 1], sumX + x, sumY + y, sumXY + x * y, sumX2 + x * x, sumY2 + y * y)
  {
    var xs, ys := Xs(s), Ys(s);
    assert Xs(s[..i]) == xs[..i] && Ys(s[..i]) == ys[..i];
    assert Xs(s[..i + 1]) == xs[..i + 1] && Ys(s[..i + 1]) == ys[..i + 1];
    SumStep(xs, i);
    SumStep(ys, i);
    DotStep(xs, ys, i);
    DotStep(xs, xs, i);
    DotStep(ys, ys, i);
  }

  lemma SumsGiveCov(s: seq<Sample>, sumX: real, sumY: real, sumXY: real, sumX2: real, sumY2: real)
    requires SumsOf(s[..|s|], sumX, sumY, sumXY, sumX2, sumY2)
    ensures Centred(|s| as real, sumXY, sumX, sumY) == Cov(Xs(s), Ys(s))
    ensures Centred(|s| as real, sumX2, sumX, sumX) == Cov(Xs(s), Xs(s))
    ensures Centred(|s| as real, sumY2, sumY, sumY) == Cov(Ys(s), Ys(s))
  {
    hide Centred;
    assert s[..|s|] == s;
  }

  lemma Variances(s: seq<Sample>)
    ensures var vx, vy := Cov(Xs(s), Xs(s)), Cov(Ys(s), Ys(s));
            vx >= 0.0 && vy >= 0.0 && vx * vy >= 0.0 && Cov(Xs(s), Ys(s)) * Cov(Xs(s), Ys(s)) <= vx * vy
  {
    hide Cov;
    CauchySchwarz(Xs(s), Ys(s));
    Sign(Cov(Xs(s), Xs(s)), Cov(Ys(s), Ys(s)));
  }

  lemma TooFew(s: seq<Sample>, sqrt: real --> real)
    requires |s| < MIN_SAMPLES && IsSqrt(sqrt)
    ensures IsCorrelation(s, sqrt, 0.0)
  {
    hide Cov, Scale;
  }

  /** The root exists, and dividing by it gives a coefficient in [-1, 1]. */
  lemma Pearson(s: seq<Sample>, sqrt: real --> real, cov: real, varX: real, varY: real, scale: real)
    requires |s| >= MIN_SAMPLES && IsSqrt(sqrt)
    requires cov == Cov(Xs(s), Ys(s)) && varX == Cov(Xs(s), Xs(s)) && varY == Cov(Ys(s), Ys(s))
    requires scale == varX * varY
    ensures scale >= 0.0
    ensures if sqrt(scale) < MIN_DENOMINATOR then IsCorrelation(s, sqrt, 0.0)
            else IsCorrelation(s, sqrt, cov / sqrt(scale)) && -1.0 <= cov / sqrt(scale) <= 1.0
  {
    hide Cov;
    Variances(s);
    assert scale == Scale(s);
    var den := sqrt(scale);
    if den >= MIN_DENOMINATOR {
      Ratio(cov, den);
    }
  }

  lemma Ratio(num: real, den: real)
    requires den > 0.0 && num * num <= den * den
    ensures -1.0 <= num / den <= 1.0
    ensures (num / den) * den == num
  {
    AtMostOne(num / den, num, den);
    AtMostOne(-(num / den), -num, den);
  }

  lemma AtMostOne(r: real, num: real, den: real)
    requires den > 0.0 && num * num <= den * den && r * den == num
    ensures r <= 1.0
  {
    if r > 1.0 {
      ScaleStrict(1.0, r, den);
      ScaleStrict(den, num, num + den);
    }
  }

  lemma BestSlope(s: seq<Sample>, slope: real)
    requires s != [] && Cov(Xs(s), Xs(s)) != 0.0
    requires slope == Cov(Xs(s), Ys(s)) / Cov(Xs(s), Xs(s))
    ensures IsBestSlope(s, slope)
  {
    hide Cov, Intercept, Residuals;
    var x, y := Xs(s), Ys(s);
    assert slope * Cov(x, x) == Cov(x, y);
    forall alpha: real, beta: real
      ensures Residuals(x, y, Intercept(x, y, slope), slope) <= Residuals(x, y, alpha, beta)
    {
      LeastSquares(x, y, slope, alpha, beta);
    }
  }
}
