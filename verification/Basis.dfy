/** Rolling premium statistics and the z-score of the latest observation (internal/strategy/basis.go). */
module Basis {
  import opened RealSeq
  import opened Moments
  import Correlation

  datatype Sample = Sample(basis: real, tsMs: int)

  const MIN_DEVIATION := 0.0000000001 // 1e-10

  function Premium(indexPrice: real, perpPrice: real): real
    requires indexPrice > 0.0
  {
    (perpPrice - indexPrice) / indexPrice
  }

  /** The premium is the share of the index price that the perpetual's price is above it. */
  lemma PremiumIsShare(indexPrice: real, perpPrice: real)
    requires indexPrice > 0.0
    ensures Premium(indexPrice, perpPrice) * indexPrice == perpPrice - indexPrice
  {
  }

  ghost function Values(s: seq<Sample>): (r: seq<real>)
    ensures |r| == |s|
  {
    seq(|s|, i requires 0 <= i < |s| => s[i].basis)
  }

  class Tracker {
    const windowSize: nat
    const minSamples: int
    var samples: map<string, seq<Sample>>
    /** Every observation ever recorded, per key. */
    ghost var history: map<string, seq<Sample>>

    ghost function History(key: string): seq<Sample>
      reads this
    {
      if key in history then history[key] else []
    }

    function Samples(key: string): seq<Sample>
      reads this
    {
      if key in samples then samples[key] else []
    }

    /** Each window is exactly the last windowSize observations recorded under its key. */
    ghost predicate Valid()
      reads this
    {
      && samples.Keys == history.Keys
      && forall key :: key in history ==> samples[key] == LastN(history[key], windowSize)
    }

    constructor (windowSize: nat, minSamples: int)
      ensures Valid() && history == map[]
      ensures this.windowSize == windowSize && this.minSamples == minSamples
    {
      this.windowSize := windowSize;
      this.minSamples := minSamples;
      samples := map[];
      history := map[];
    }

    method Record(key: string, x: Sample)
      requires Valid()
      modifies this
      ensures Valid() && history == old(history)[key := old(History(key)) + [x]]
    {
      hide LastN;
      if key !in history {
        LastNOfNone<Sample>(windowSize);
      }
      TrimmedAppend(History(key), Samples(key), x, windowSize);
      var recent := Samples(key) + [x];
      if |recent| > windowSize {
        recent := recent[|recent| - windowSize..];
      }
      history := history[key := History(key) + [x]];
      samples := samples[key := recent];
    }

    method RecordPremium(symbol: string, indexPrice: real, perpPrice: real, tsMs: int)
      requires Valid()
      modifies this
      ensures Valid()
      ensures history == if indexPrice <= 0.0 then old(history)
                         else
                           var sample := Sample(Premium(indexPrice, perpPrice), tsMs);
                           old(history)[symbol := old(History(symbol)) + [sample]]
    {
      if indexPrice <= 0.0 {
        return;
      }
      var premium := Premium(indexPrice, perpPrice);
      Record(symbol, Sample(premium, tsMs));
    }

    /** The logarithm is a parameter: only its value at the price ratio is used. */
    method RecordPairSpread(primary: string, hedge: string, primaryPrice: real, hedgePrice: real, tsMs: int,
                            ln: real -> real)
      requires Valid()
      modifies this
      ensures Valid()
      ensures var key := Correlation.PairId(primary, hedge);
              history == if primaryPrice <= 0.0 || hedgePrice <= 0.0 then old(history)
                         else old(history)[key := old(History(key)) + [Sample(ln(primaryPrice / hedgePrice), tsMs)]]
    {
      if primaryPrice <= 0.0 || hedgePrice <= 0.0 {
        return;
      }
      var spread := ln(primaryPrice / hedgePrice);
      Record(Correlation.PairId(primary, hedge), Sample(spread, tsMs));
    }

    method Stats(key: string, sqrt: real --> real) returns (mean: real, stddev: real, count: nat)
      requires IsSqrt(sqrt)
      ensures var x := Values(Samples(key));
              count == |x| && mean == Mean(x) && IsDeviation(x, stddev)
    {
      hide Spread, Deviations, LastN, Sum, Dot, IsDeviation;
      NothingSummed();
      var s := Samples(key);
      ghost var x := Values(s);
      count := |s|;
      if count == 0 {
        FewValues(x);
        return 0.0, 0.0, 0;
      }
      var sum := 0.0;
      for i := 0 to |s|
        invariant sum == Sum(x[..i])
      {
        SumStep(x, i);
        sum := sum + s[i].basis;
      }
      assert x[..|s|] == x;
      mean := sum / count as real;
      if count < 2 {
        FewValues(x);
        return mean, 0.0, count;
      }
      ghost var dev := Deviations(x, mean);
      var sqDiff := 0.0;
      for i := 0 to |s|
        invariant sqDiff == Dot(dev[..i], dev[..i]) && sqDiff >= 0.0
      {
        DotStep(dev, dev, i);
        var d := s[i].basis - mean;
        DeviationAt(x, mean, i);
        AddSquare(sqDiff, d);
        sqDiff := sqDiff + d * d;
      }
      assert dev[..|s|] == dev;
      var variance := sqDiff / (count - 1) as real;
      stddev := sqrt(variance);
      RootOfVariance(x, sqDiff, variance, stddev);
    }

    method CurrentValue(key: string) returns (r: Option<real>)
      ensures var x := Values(Samples(key)); r == if x == [] then None else Some(x[|x| - 1])
    {
      var s := Samples(key);
      if |s| == 0 {
        return None;
      }
      return Some(s[|s| - 1].basis);
    }

    /** The latest value is a member of its own sample, which bounds its z-score. */
    method ZScore(key: string, sqrt: real --> real) returns (z: real)
      requires IsSqrt(sqrt)
      ensures var x := Values(Samples(key)); IsZScore(x, minSamples, z)
      ensures var n := |Samples(key)| as real;
              n >= 2.0 ==> n * (z * z) <= (n - 1.0) * (n - 1.0)
      ensures |Samples(key)| < 2 ==> z == 0.0
    {
      hide Mean, IsDeviation;
      var mean, stddev, count := Stats(key, sqrt);
      ghost var x := Values(Samples(key));
      NoDeviation(x, stddev);
      if count < minSamples || stddev < MIN_DEVIATION {
        ZeroScore(x, minSamples, stddev);
        return 0.0;
      }
      var current := CurrentValue(key);
      if current == None {
        return 0.0;
      }
      z := (current.value - mean) / stddev;
      ScoreBound(x, minSamples, stddev, z);
    }
  }

  /** z standardises the last value, or is 0 when there is too little data or no spread. */
  ghost predicate IsZScore(x: seq<real>, minSamples: int, z: real) {
    exists sd :: IsDeviation(x, sd) &&
      if |x| < minSamples || sd < MIN_DEVIATION then z == 0.0
      else x != [] && z * sd == x[|x| - 1] - Mean(x)
  }

  lemma NoDeviation(x: seq<real>, sd: real)
    requires IsDeviation(x, sd)
    ensures |x| < 2 ==> sd < MIN_DEVIATION
  {
  }

  lemma ZeroScore(x: seq<real>, minSamples: int, sd: real)
    requires IsDeviation(x, sd) && (|x| < minSamples || sd < MIN_DEVIATION)
    ensures IsZScore(x, minSamples, 0.0)
    ensures |x| >= 1 ==> (|x| - 1) as real * (|x| - 1) as real >= 0.0
  {
    hide IsDeviation;
    if |x| >= 1 {
      Sign((|x| - 1) as real, (|x| - 1) as real);
    }
  }

  lemma {:induction false} DeviationsSum(x: seq<real>, mean: real)
    ensures Sum(Deviations(x, mean)) == Sum(x) - |x| as real * mean
  {
    if x != [] {
      var x' := x[..|x| - 1];
      DeviationsSum(x', mean);
      assert Deviations(x, mean)[..|x| - 1] == Deviations(x', mean);
      assert |x| as real * mean == |x'| as real * mean + mean;
    }
  }

  /** The squared deviation of the last value is at most (n - 1)/n of the whole spread. */
  lemma LastDeviation(x: seq<real>)
    requires |x| >= 2
    ensures var d := x[|x| - 1] - Mean(x);
            |x| as real * (d * d) <= (|x| - 1) as real * Spread(x)
  {
    var m := Mean(x);
    var dev := Deviations(x, m);
    var k := |x| - 1;
    var d := dev[k];
    var rest := dev[..k];
    DeviationsSum(x, m);
    MeanTimesCount(x);
    CauchySchwarz(rest, rest);
    CovMoments(rest, rest);
    LastShare(k as real, Sum(rest), Dot(rest, rest), d);
  }

  lemma MeanTimesCount(x: seq<real>)
    requires x != []
    ensures |x| as real * Mean(x) == Sum(x)
  {
    hide Sum;
  }

  lemma LastShare(k: real, sum: real, squares: real, d: real)
    requires sum + d == 0.0 && k * squares - sum * sum >= 0.0
    ensures (k + 1.0) * (d * d) <= k * (squares + d * d)
  {
    assert sum == -d;
    assert sum * sum == d * d;
  }

  lemma ScoreBound(x: seq<real>, minSamples: int, sd: real, z: real)
    requires |x| >= 2 && |x| >= minSamples && IsDeviation(x, sd) && sd >= MIN_DEVIATION
    requires z == (x[|x| - 1] - Mean(x)) / sd
    ensures IsZScore(x, minSamples, z)
    ensures var n := |x| as real; n * (z * z) <= (n - 1.0) * (n - 1.0)
  {
    hide Mean, Spread;
    var d := x[|x| - 1] - Mean(x);
    assert z * sd == d;
    LastDeviation(x);
    SameSign(sd, sd);
    ScaleSquare(z, sd, d, sd * sd);
    Standardise(|x| as real, d * d, sd * sd, z * z, Spread(x));
  }

  lemma ScaleSquare(z: real, sd: real, d: real, v: real)
    requires z * sd == d && v == sd * sd
    ensures (z * z) * v == d * d
  {
    assert (z * z) * v == (z * sd) * (z * sd);
  }

  lemma Standardise(n: real, dd: real, v: real, zz: real, spread: real)
    requires v > 0.0 && zz * v == dd
    requires v * (n - 1.0) == spread && n * dd <= (n - 1.0) * spread
    ensures n * zz <= (n - 1.0) * (n - 1.0)
  {
    var gap := (n - 1.0) * (n - 1.0) - n * zz;
    assert gap * v == (n - 1.0) * spread - n * dd by {
      assert (n * zz) * v == n * dd;
    }
    if gap < 0.0 {
      SameSign(gap, v);
    }
  }
}
