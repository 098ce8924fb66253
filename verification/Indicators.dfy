/** Technical indicators (internal/scanner/indicators.go). */
module Indicators {
  import opened RealSeq

  datatype Candle = Candle(high: real, low: real, volume: real, openTime: int)

  // ---------------------------------------------------------------------
  // Simple moving average
  // ---------------------------------------------------------------------

  /** The last `period` values up to and including position i, fewer at the start. */
  function Window(values: seq<real>, period: nat, i: nat): (w: seq<real>)
    requires i < |values| && period > 0
    ensures |w| == if i < period then i + 1 else period
  {
    LastN(values[..i + 1], period)
  }

  function Mean(s: seq<real>): real
    requires s != []
  {
    Divide(Sum(s), |s| as real)
  }

  lemma WindowGrows(values: seq<real>, period: nat, i: nat)
    requires i < |values| && period > 0
    ensures i == 0 ==> Sum(Window(values, period, 0)) == values[0]
    ensures 0 < i < period ==> Sum(Window(values, period, i)) == Sum(Window(values, period, i - 1)) + values[i]
    ensures period <= i ==>
              Sum(Window(values, period, i)) == Sum(Window(values, period, i - 1)) + values[i] - values[i - period]
  {
    if i < period {
      SumStep(values, i);
      assert Window(values, period, i) == values[..i + 1];
      if i > 0 {
        assert Window(values, period, i - 1) == values[..i];
      }
    } else {
      var w, w' := Window(values, period, i - 1), Window(values, period, i);
      assert [values[i - period]] + w' == w + [values[i]];
      SumAppend([values[i - period]], w');
      SumAppend(w, [values[i]]);
      SumOfOne(values[i - period]);
      SumOfOne(values[i]);
    }
  }

  lemma SumOfOne(x: real)
    ensures Sum([x]) == x
  {
    assert [x][..0] == [];
  }

  /** The running sum gives the exact mean of the window at every position. */
  method Sma(values: seq<real>, period: int) returns (result: array<real>)
    ensures fresh(result)
    ensures |values| == 0 || period <= 0 ==> result.Length == 0
    ensures |values| > 0 && period > 0 ==>
              && result.Length == |values|
              && forall i :: 0 <= i < |values| ==> result[i] == Mean(Window(values, period, i))
  {
    hide Window, Divide;
    if |values| == 0 || period <= 0 {
      return new real[0];
    }
    result := new real[|values|];
    var sum := 0.0;
    for i := 0 to |values|
      invariant i == 0 ==> sum == 0.0
      invariant i > 0 ==> sum == Sum(Window(values, period, i - 1))
      invariant forall j :: 0 <= j < i ==> result[j] == Mean(Window(values, period, j))
    {
      WindowGrows(values, period, i);
      sum := sum + values[i];
      if i >= period {
        sum := sum - values[i - period];
        result[i] := Divide(sum, period as real);
      } else {
        result[i] := Divide(sum, (i + 1) as real);
      }
    }
  }

  // ---------------------------------------------------------------------
  // Exponential moving average
  // ---------------------------------------------------------------------

  ghost predicate Between(x: real, s: seq<real>) {
    && (exists i :: 0 <= i < |s| && s[i] <= x)
    && (exists i :: 0 <= i < |s| && x <= s[i])
  }

  function Blend(x: real, y: real, k: real): real { x * k + y * (1.0 - k) }

  /** Every value is a blend of the prefix: never below its minimum or above its maximum. */
  method Ema(values: seq<real>, period: int) returns (result: array<real>)
    ensures fresh(result)
    ensures |values| == 0 || period <= 0 ==> result.Length == 0
    ensures |values| > 0 && period > 0 ==>
              && result.Length == |values| && result[0] == values[0]
              && (forall i :: 0 <= i < |values| ==> Between(result[i], values[..i + 1]))
              && (forall i :: 0 < i < |values| ==>
                   result[i] == Blend(values[i], result[i - 1], Divide(2.0, (period + 1) as real)))
  {
    hide Between, Blend, Divide;
    if |values| == 0 || period <= 0 {
      return new real[0];
    }
    result := new real[|values|];
    var k := Divide(2.0, (period + 1) as real);
    WeightInRange(period);
    result[0] := values[0];
    BetweenOne(values);
    for i := 1 to |values|
      invariant result[0] == values[0]
      invariant forall j :: 0 <= j < i ==> Between(result[j], values[..j + 1])
      invariant forall j :: 0 < j < i ==> result[j] == Blend(values[j], result[j - 1], k)
    {
      BetweenBlend(values, i, result[i - 1], k);
      result[i] := Blend(values[i], result[i - 1], k);
    }
  }

  lemma WeightInRange(period: int)
    requires period > 0
    ensures 0.0 < Divide(2.0, (period + 1) as real) <= 1.0
  {
  }

  lemma BetweenOne(values: seq<real>)
    requires values != []
    ensures Between(values[0], values[..1])
  {
    assert values[..1][0] == values[0];
  }

  lemma BetweenBlend(values: seq<real>, i: nat, prev: real, k: real)
    requires 0 < i < |values| && Between(prev, values[..i]) && 0.0 < k <= 1.0
    ensures Between(Blend(values[i], prev, k), values[..i + 1])
  {
    hide Blend;
    var s, t := values[..i], values[..i + 1];
    BlendBetween(values[i], prev, k);
    var lo :| 0 <= lo < |s| && s[lo] <= prev;
    var hi :| 0 <= hi < |s| && prev <= s[hi];
    assert t[lo] == s[lo] && t[hi] == s[hi] && t[i] == values[i];
  }

  lemma BlendBetween(x: real, y: real, k: real)
    requires 0.0 < k <= 1.0
    ensures Min(x, y) <= Blend(x, y, k) <= Max(x, y)
  {
    assert Blend(x, y, k) == y + k * (x - y);
    assert Blend(x, y, k) == x - (1.0 - k) * (x - y);
    Sign(k, x - y);
    Sign(1.0 - k, x - y);
  }

  // ---------------------------------------------------------------------
  // Relative strength index
  // ---------------------------------------------------------------------

  /** The index as a share: 100 with no losses, else 100 - 100 / (1 + gain/loss). */
  function Strength(avgGain: real, avgLoss: real): real
    requires avgGain >= 0.0 && avgLoss >= 0.0
  {
    if avgLoss == 0.0 then 100.0
    else
      PositiveQuotient(avgGain, avgLoss);
      100.0 - Divide(100.0, 1.0 + Divide(avgGain, avgLoss))
  }

  lemma PositiveQuotient(a: real, b: real)
    requires a >= 0.0 && b > 0.0
    ensures Divide(a, b) >= 0.0
  {
  }

  /** It is the gains' share of all movement, in percent. */
  lemma StrengthIsShare(avgGain: real, avgLoss: real)
    requires avgGain >= 0.0 && avgLoss > 0.0
    ensures Strength(avgGain, avgLoss) * (avgGain + avgLoss) == 100.0 * avgGain
    ensures 0.0 <= Strength(avgGain, avgLoss) < 100.0
  {
    hide Divide;
    PositiveQuotient(avgGain, avgLoss);
    var rs := Divide(avgGain, avgLoss);
    var q := Divide(100.0, 1.0 + rs);
    DivideInverse(avgGain, avgLoss);
    DivideInverse(100.0, 1.0 + rs);
    Shares(avgGain, avgLoss, rs, q);
  }

  lemma Shares(g: real, l: real, rs: real, q: real)
    requires g >= 0.0 && l > 0.0 && rs * l == g && rs >= 0.0 && q * (1.0 + rs) == 100.0
    ensures (100.0 - q) * (g + l) == 100.0 * g && 0.0 < q <= 100.0
  {
    assert g + l == l * (1.0 + rs);
    assert q * (g + l) == 100.0 * l by {
      assert q * (l * (1.0 + rs)) == l * (q * (1.0 + rs));
    }
    if q <= 0.0 {
      Sign(-q, 1.0 + rs);
    }
    Sign(q, rs);
  }

  lemma StrengthInRange(avgGain: real, avgLoss: real)
    requires avgGain >= 0.0 && avgLoss >= 0.0
    ensures 0.0 <= Strength(avgGain, avgLoss) <= 100.0
  {
    if avgLoss > 0.0 {
      StrengthIsShare(avgGain, avgLoss);
    }
  }

  /** Wilder's smoothing of a non-negative average with a non-negative value. */
  function Smooth(avg: real, x: real, period: int): real
    requires period > 0
  {
    Divide(avg * (period - 1) as real + x, period as real)
  }

  lemma SmoothNonNegative(avg: real, x: real, period: int)
    requires period > 0 && avg >= 0.0 && x >= 0.0
    ensures Smooth(avg, x, period) >= 0.0
  {
    Sign(avg, (period - 1) as real);
  }

  /** The rise from the close before, 0 if there is none. */
  function Gain(closes: seq<real>, i: nat): (g: real)
    requires 0 < i < |closes|
    ensures g >= 0.0
  {
    Max(closes[i] - closes[i - 1], 0.0)
  }

  function GainSum(closes: seq<real>, n: nat): (g: real)
    requires n < |closes|
    ensures g >= 0.0
  {
    if n == 0 then 0.0 else GainSum(closes, n - 1) + Gain(closes, n)
  }

  /** The simple average of the first period's gains, then Wilder's smoothing. */
  function AverageGain(closes: seq<real>, period: int, i: nat): (g: real)
    requires 0 < period <= i < |closes|
    ensures g >= 0.0
  {
    if i == period then
      PositiveQuotient(GainSum(closes, i), period as real);
      Divide(GainSum(closes, i), period as real)
    else
      SmoothNonNegative(AverageGain(closes, period, i - 1), Gain(closes, i), period);
      Smooth(AverageGain(closes, period, i - 1), Gain(closes, i), period)
  }

  /** The closes upside down: their gains are the losses of the original. */
  function Mirror(closes: seq<real>): (r: seq<real>)
    ensures |r| == |closes|
  {
    seq(|closes|, i requires 0 <= i < |closes| => -closes[i])
  }

  /** 50 before the first full period, then the strength of the average gain against the average loss. */
  function RsiAt(closes: seq<real>, period: int, i: nat): (r: real)
    requires period > 0 && i < |closes|
    ensures 0.0 <= r <= 100.0
  {
    if i < period then 50.0
    else
      var g, l := AverageGain(closes, period, i), AverageGain(Mirror(closes), period, i);
      StrengthInRange(g, l);
      Strength(g, l)
  }

  /** The index of the mirrored closes is the complement, except that both are 100 if nothing has moved. */
  lemma RsiMirrors(closes: seq<real>, period: int, i: nat)
    requires 0 < period <= i < |closes|
    ensures var still := AverageGain(closes, period, i) == 0.0 && AverageGain(Mirror(closes), period, i) == 0.0;
            RsiAt(closes, period, i) + RsiAt(Mirror(closes), period, i) == if still then 200.0 else 100.0
  {
    hide Strength, AverageGain;
    assert Mirror(Mirror(closes)) == closes;
    Complement(AverageGain(closes, period, i), AverageGain(Mirror(closes), period, i));
  }

  lemma Complement(g: real, l: real)
    requires g >= 0.0 && l >= 0.0
    ensures Strength(g, l) + Strength(l, g) == if g == 0.0 && l == 0.0 then 200.0 else 100.0
  {
    hide Divide;
    if g > 0.0 && l > 0.0 {
      StrengthIsShare(g, l);
      StrengthIsShare(l, g);
      SharesAddUp(Strength(g, l), Strength(l, g), g, l);
    } else if l > 0.0 {
      StrengthIsShare(g, l);
    } else if g > 0.0 {
      StrengthIsShare(l, g);
    }
  }

  lemma SharesAddUp(p: real, q: real, g: real, l: real)
    requires g > 0.0 && l > 0.0 && p * (g + l) == 100.0 * g && q * (l + g) == 100.0 * l
    ensures p + q == 100.0
  {
    var d := p + q - 100.0;
    assert d * (g + l) == 0.0;
  }

  /** Smoothing over two or more closes never forgets: the average gain is positive exactly after some rise. */
  lemma {:induction false} AverageNeverForgets(closes: seq<real>, period: int, i: nat)
    requires 2 <= period <= i < |closes|
    ensures AverageGain(closes, period, i) > 0.0 <==> exists j :: 1 <= j <= i && closes[j] > closes[j - 1]
  {
    hide Smooth, Divide;
    if i == period {
      GainSumPositive(closes, i);
      QuotientSign(GainSum(closes, i), period as real);
    } else {
      AverageNeverForgets(closes, period, i - 1);
      SmoothSign(AverageGain(closes, period, i - 1), Gain(closes, i), period);
    }
  }

  lemma {:induction false} GainSumPositive(closes: seq<real>, n: nat)
    requires n < |closes|
    ensures GainSum(closes, n) > 0.0 <==> exists j :: 1 <= j <= n && closes[j] > closes[j - 1]
  {
    if n > 0 {
      GainSumPositive(closes, n - 1);
    }
  }

  lemma QuotientSign(a: real, b: real)
    requires b > 0.0
    ensures Divide(a, b) > 0.0 <==> a > 0.0
  {
    hide Divide;
    DivideInverse(a, b);
    ScaledCompare(Divide(a, b), 0.0, b);
    ScaledCompare(0.0, Divide(a, b), b);
  }

  lemma SmoothSign(avg: real, x: real, period: int)
    requires period >= 2 && avg >= 0.0 && x >= 0.0
    ensures Smooth(avg, x, period) > 0.0 <==> avg > 0.0 || x > 0.0
  {
    hide Divide;
    var n := (period - 1) as real;
    Sign(avg, n);
    if avg > 0.0 {
      assert avg * n > 0.0;
    }
    QuotientSign(avg * n + x, period as real);
  }

  method Rsi(closes: seq<real>, period: int) returns (result: array<real>)
    ensures fresh(result)
    ensures |closes| < 2 || period <= 0 ==> result.Length == 0
    ensures |closes| >= 2 && period > 0 ==>
              result.Length == |closes| && forall i :: 0 <= i < |closes| ==> result[i] == RsiAt(closes, period, i)
  {
    hide Strength, Smooth, Divide, AverageGain, GainSum;
    if |closes| < 2 || period <= 0 {
      return new real[0];
    }
    ghost var mirror := Mirror(closes);
    result := new real[|closes|];
    var gains, losses := GainsAndLosses(closes);
    var avgGain, avgLoss := 0.0, 0.0;
    NoGains(closes);
    NoGains(mirror);
    var i := 1;
    while i <= period && i < |closes|
      invariant 1 <= i <= |closes| && i <= period + 1
      invariant avgGain == GainSum(closes, i - 1) && avgLoss == GainSum(mirror, i - 1)
      decreases |closes| - i
      modifies {}
    {
      MoreGains(closes, i);
      MoreGains(mirror, i);
      avgGain := avgGain + gains[i];
      avgLoss := avgLoss + losses[i];
      i := i + 1;
    }
    avgGain := Divide(avgGain, period as real);
    avgLoss := Divide(avgLoss, period as real);
    for n := 0 to |closes|
      invariant period == n < |closes| ==>
                  && avgGain == Divide(GainSum(closes, n), period as real)
                  && avgLoss == Divide(GainSum(mirror, n), period as real)
      invariant n < period < |closes| ==>
                  && avgGain == Divide(GainSum(closes, period), period as real)
                  && avgLoss == Divide(GainSum(mirror, period), period as real)
      invariant period < n ==>
                  avgGain == AverageGain(closes, period, n - 1) && avgLoss == AverageGain(mirror, period, n - 1)
      invariant forall j :: 0 < j < |closes| ==> gains[j] == Gain(closes, j) && losses[j] == Gain(mirror, j)
      invariant forall j :: 0 <= j < n ==> result[j] == RsiAt(closes, period, j)
    {
      if n < period {
        result[n] := 50.0;
        continue;
      }
      AverageStep(closes, period, n);
      AverageStep(mirror, period, n);
      if n > period {
        avgGain := Smooth(avgGain, gains[n], period);
        avgLoss := Smooth(avgLoss, losses[n], period);
      }
      result[n] := Strength(avgGain, avgLoss);
    }
  }

  lemma NoGains(closes: seq<real>)
    requires closes != []
    ensures GainSum(closes, 0) == 0.0
  {
  }

  lemma MoreGains(closes: seq<real>, n: nat)
    requires 0 < n < |closes|
    ensures GainSum(closes, n) == GainSum(closes, n - 1) + Gain(closes, n)
  {
  }

  lemma AverageStep(closes: seq<real>, period: int, n: nat)
    requires 0 < period <= n < |closes|
    ensures n == period ==> AverageGain(closes, period, n) == Divide(GainSum(closes, n), period as real)
    ensures n > period ==>
              AverageGain(closes, period, n) == Smooth(AverageGain(closes, period, n - 1), Gain(closes, n), period)
  {
  }

  /** Each change is a gain or a loss; position 0 has neither. */
  method GainsAndLosses(closes: seq<real>) returns (gains: array<real>, losses: array<real>)
    requires closes != []
    ensures fresh(gains) && fresh(losses) && gains.Length == losses.Length == |closes|
    ensures forall i :: 0 < i < |closes| ==> gains[i] == Gain(closes, i) && losses[i] == Gain(Mirror(closes), i)
  {
    gains := new real[|closes|](_ => 0.0);
    losses := new real[|closes|](_ => 0.0);
    for i := 1 to |closes|
      invariant forall j :: 0 < j < i && j < |closes| ==>
                  gains[j] == Gain(closes, j) && losses[j] == Gain(Mirror(closes), j)
      invariant forall j :: i <= j < |closes| ==> gains[j] == 0.0 && losses[j] == 0.0
    {
      var change := closes[i] - closes[i - 1];
      if change > 0.0 {
        gains[i] := change;
      } else {
        losses[i] := -change;
      }
    }
  }

  // ---------------------------------------------------------------------
  // Point of control
  // ---------------------------------------------------------------------

  function Lowest(c: seq<Candle>): real
    requires c != []
  {
    if |c| == 1 then c[0].low else Min(Lowest(c[..|c| - 1]), c[|c| - 1].low)
  }

  function Highest(c: seq<Candle>): real
    requires c != []
  {
    if |c| == 1 then c[0].high else Max(Highest(c[..|c| - 1]), c[|c| - 1].high)
  }

  /** Conversion to an integer, toward zero. */
  function Truncate(x: real): int { if x >= 0.0 then x.Floor else -((-x).Floor) }

  function Bin(price: real, min: real, size: real): int
    requires size != 0.0
  {
    Truncate(Divide(price - min, size))
  }

  /** The first and last bin a candle covers. */
  function Spread(c: Candle, min: real, size: real, bins: nat): (int, int)
    requires size != 0.0
  {
    var lo, hi := Bin(c.low, min, size), Bin(c.high, min, size);
    (if lo < 0 then 0 else lo, if hi >= bins then bins - 1 else hi)
  }

  /** The part of a candle's volume that a bin gets: an equal share for every bin it covers. */
  function Share(c: Candle, min: real, size: real, bins: nat, b: int): real
    requires size != 0.0
  {
    var (lo, hi) := Spread(c, min, size, bins);
    if lo <= b <= hi then Divide(c.volume, (hi - lo + 1) as real) else 0.0
  }

  /** The volume that the candles put into a bin. */
  function VolumeAt(c: seq<Candle>, min: real, size: real, bins: nat, b: int): real
    requires size != 0.0
  {
    if c == [] then 0.0 else
      VolumeAt(c[..|c| - 1], min, size, bins, b) + Share(c[|c| - 1], min, size, bins, b)
  }

  ghost function Histogram(c: seq<Candle>, min: real, size: real, bins: nat): (h: seq<real>)
    requires size != 0.0
    ensures |h| == bins
  {
    seq(bins, b requires 0 <= b < bins => VolumeAt(c, min, size, bins, b))
  }

  /** The first of the bins with the most volume. */
  ghost predicate IsPointOfControl(c: seq<Candle>, min: real, size: real, bins: nat, b: int)
    requires size != 0.0
  {
    && 0 <= b < bins
    && forall j :: 0 <= j < bins ==>
         && VolumeAt(c, min, size, bins, j) <= VolumeAt(c, min, size, bins, b)
         && (j < b ==> VolumeAt(c, min, size, bins, j) < VolumeAt(c, min, size, bins, b))
  }

  /** There is at most one, it is a bin, no bin has more volume, and every earlier one has less. */
  lemma PointOfControlMeaning(c: seq<Candle>, min: real, size: real, bins: nat, b: int, j: int)
    requires size != 0.0 && IsPointOfControl(c, min, size, bins, b) && 0 <= j < bins
    ensures 0 <= b < bins && VolumeAt(c, min, size, bins, j) <= VolumeAt(c, min, size, bins, b)
    ensures j < b ==> VolumeAt(c, min, size, bins, j) < VolumeAt(c, min, size, bins, b)
    ensures IsPointOfControl(c, min, size, bins, j) <==> j == b
  {
    hide VolumeAt;
  }

  /** Adds one candle's volume evenly to its bins. */
  method AddCandle(histogram: array<real>, c: Candle, min: real, size: real)
    requires size != 0.0
    modifies histogram
    ensures forall b :: 0 <= b < histogram.Length ==>
              histogram[b] == old(histogram[b]) + Share(c, min, size, histogram.Length, b)
  {
    hide Spread, Divide;
    var (lo, hi) := Spread(c, min, size, histogram.Length);
    SpreadInRange(c, min, size, histogram.Length);
    if lo > hi {
      return; // the source divides by a count of bins below one here, and uses the quotient for none
    }
    var binsSpanned := hi - lo + 1;
    var volPerBin := Divide(c.volume, binsSpanned as real);
    var b := lo;
    while b <= hi
      invariant lo <= b <= hi + 1
      invariant forall j :: 0 <= j < histogram.Length ==>
                  histogram[j] == old(histogram[j]) + if lo <= j < b then volPerBin else 0.0
    {
      histogram[b] := histogram[b] + volPerBin;
      b := b + 1;
    }
  }

  lemma SpreadInRange(c: Candle, min: real, size: real, bins: nat)
    requires size != 0.0
    ensures var (lo, hi) := Spread(c, min, size, bins); 0 <= lo && hi < bins
  {
  }

  /** The middle of the first bin with the most volume. */
  method Poc(candles: seq<Candle>, bins: int) returns (price: real)
    ensures |candles| == 0 || bins <= 0 ==> price == 0.0
    ensures |candles| > 0 && bins > 0 ==>
              var min, max := Lowest(candles), Highest(candles);
              && (max == min ==> price == max)
              && (max != min ==>
                    var size := Divide(max - min, bins as real);
                    size != 0.0 && exists b :: IsPointOfControl(candles, min, size, bins, b)
                                               && price == min + (b as real + 0.5) * size)
  {
    hide Divide, Share;
    if |candles| == 0 || bins <= 0 {
      return 0.0;
    }
    var minPrice, maxPrice := Range(candles);
    if maxPrice == minPrice {
      return maxPrice;
    }
    BinSizeNonZero(maxPrice - minPrice, bins);
    var binSize := Divide(maxPrice - minPrice, bins as real);
    var h := new real[bins](_ => 0.0);
    for i := 0 to |candles|
      invariant forall b :: 0 <= b < bins ==> h[b] == VolumeAt(candles[..i], minPrice, binSize, bins, b)
    {
      assert candles[..i + 1][..i] == candles[..i];
      AddCandle(h, candles[i], minPrice, binSize);
    }
    assert candles[..|candles|] == candles;
    var maxVol, maxBin := h[0], 0;
    for i := 0 to bins
      invariant 0 <= maxBin < bins && maxVol == h[maxBin] && (i == 0 ==> maxBin == 0) && (i > 0 ==> maxBin < i)
      invariant forall j :: 0 <= j < i ==> h[j] <= h[maxBin] && (j < maxBin ==> h[j] < h[maxBin])
    {
      if h[i] > maxVol {
        maxVol := h[i];
        maxBin := i;
      }
    }
    assert IsPointOfControl(candles, minPrice, binSize, bins, maxBin);
    price := minPrice + (maxBin as real + 0.5) * binSize;
  }

  method Range(candles: seq<Candle>) returns (min: real, max: real)
    requires candles != []
    ensures min == Lowest(candles) && max == Highest(candles)
  {
    min, max := candles[0].low, candles[0].high;
    for i := 0 to |candles|
      invariant min == Lowest(candles[..if i == 0 then 1 else i]) && max == Highest(candles[..if i == 0 then 1 else i])
    {
      assert candles[..i + 1][..i] == candles[..i];
      if candles[i].low < min {
        min := candles[i].low;
      }
      if candles[i].high > max {
        max := candles[i].high;
      }
    }
    assert candles[..|candles|] == candles;
  }

  lemma BinSizeNonZero(width: real, bins: int)
    requires width != 0.0 && bins > 0
    ensures Divide(width, bins as real) != 0.0
  {
    DivideInverse(width, bins as real);
  }

  lemma BinSizePositive(width: real, bins: int)
    requires width > 0.0 && bins > 0
    ensures Divide(width, bins as real) > 0.0
  {
  }

  /** A proper candle reaches a bin exactly when its low is below the top of the range. */
  lemma ReachesBinExactly(c: Candle, min: real, max: real, bins: nat)
    requires bins > 0 && min < max && min <= c.low <= c.high <= max
    ensures var size := Divide(max - min, bins as real);
            && size > 0.0
            && var (lo, hi) := Spread(c, min, size, bins); (lo <= hi <==> c.low < max)
  {
    hide Divide;
    BinSizePositive(max - min, bins);
    DivideInverse(max - min, bins as real);
    var size := Divide(max - min, bins as real);
    BinOf(c.low - min, size, bins, max - min);
    BinMonotone(c.low - min, c.high - min, size);
  }

  /** Below the top of the range the bin is an ordinary one; at the top it is one past the last. */
  lemma BinOf(x: real, size: real, bins: nat, width: real)
    requires size > 0.0 && size * bins as real == width && 0.0 <= x <= width
    ensures var b := Truncate(Divide(x, size)); 0 <= b && (b < bins <==> x < width)
  {
    hide Divide;
    var q := Divide(x, size);
    DivideInverse(x, size);
    ScaledCompare(q, 0.0, size);
    ScaledCompare(q, bins as real, size);
  }

  lemma BinMonotone(x: real, y: real, size: real)
    requires size > 0.0 && 0.0 <= x <= y
    ensures Truncate(Divide(x, size)) <= Truncate(Divide(y, size))
  {
    hide Divide;
    var q, r := Divide(x, size), Divide(y, size);
    DivideInverse(x, size);
    DivideInverse(y, size);
    ScaledCompare(r, q, size);
    ScaledCompare(q, 0.0, size);
  }

  /** Where bin b starts, above the bottom of the range. */
  function Edge(size: real, b: int): real { b as real * size }

  /** A price is in the bin it is assigned to. */
  lemma BinContains(price: real, min: real, size: real)
    requires size > 0.0 && min <= price
    ensures var b := Bin(price, min, size); b >= 0 && Edge(size, b) <= price - min < Edge(size, b + 1)
  {
    hide Divide, Edge;
    var q := Divide(price - min, size);
    DivideInverse(price - min, size);
    ScaledCompare(q, 0.0, size);
    EdgeCompare(q, price - min, size, q.Floor);
    EdgeCompare(q, price - min, size, q.Floor + 1);
  }

  lemma EdgeCompare(q: real, x: real, size: real, b: int)
    requires size > 0.0 && q * size == x
    ensures q >= b as real <==> x >= Edge(size, b)
  {
    ScaledCompare(q, b as real, size);
  }

  // The total of the histogram

  /** One candle's shares over the first n bins. */
  ghost function ShareRow(c: Candle, min: real, size: real, bins: nat, n: nat): (r: seq<real>)
    requires size != 0.0
    ensures |r| == n
  {
    seq(n, b requires 0 <= b < n => Share(c, min, size, bins, b))
  }

  lemma {:induction false} SharesSum(c: Candle, min: real, size: real, bins: nat, n: nat)
    requires size != 0.0
    ensures var (lo, hi) := Spread(c, min, size, bins);
            lo <= hi ==>
              var covered := if n <= lo then 0 else if n <= hi + 1 then n - lo else hi + 1 - lo;
              Sum(ShareRow(c, min, size, bins, n)) == covered as real * Divide(c.volume, (hi - lo + 1) as real)
    ensures var (lo, hi) := Spread(c, min, size, bins); lo > hi ==> Sum(ShareRow(c, min, size, bins, n)) == 0.0
  {
    hide Divide, Spread;
    var (lo, hi) := Spread(c, min, size, bins);
    SpreadInRange(c, min, size, bins);
    if n > 0 {
      SharesSum(c, min, size, bins, n - 1);
      assert ShareRow(c, min, size, bins, n)[..n - 1] == ShareRow(c, min, size, bins, n - 1);
      if lo <= hi && lo < n <= hi + 1 {
        OneMore((n - 1 - lo) as real, Divide(c.volume, (hi - lo + 1) as real));
      }
    }
  }

  lemma OneMore(k: real, x: real)
    ensures (k + 1.0) * x == k * x + x
  {
  }

  /** A candle's shares add up to its volume, or to nothing if it covers no bin. */
  lemma CandleIsShared(c: Candle, min: real, size: real, bins: nat)
    requires size != 0.0
    ensures var (lo, hi) := Spread(c, min, size, bins);
            Sum(ShareRow(c, min, size, bins, bins)) == if lo <= hi then c.volume else 0.0
  {
    hide Divide, Spread;
    var (lo, hi) := Spread(c, min, size, bins);
    SpreadInRange(c, min, size, bins);
    SharesSum(c, min, size, bins, bins);
    if lo <= hi {
      DivideInverse(c.volume, (hi - lo + 1) as real);
    }
  }

  lemma {:induction false} SumPointwise(s: seq<real>, t: seq<real>, r: seq<real>)
    requires |s| == |t| == |r| && forall i :: 0 <= i < |r| ==> r[i] == s[i] + t[i]
    ensures Sum(r) == Sum(s) + Sum(t)
  {
    if r != [] {
      var n := |r| - 1;
      SumPointwise(s[..n], t[..n], r[..n]);
    }
  }

  ghost function VolumeBelow(c: seq<Candle>, top: real): real {
    if c == [] then 0.0 else
      VolumeBelow(c[..|c| - 1], top) + if c[|c| - 1].low < top then c[|c| - 1].volume else 0.0
  }

  lemma {:induction false} HistogramTotal(c: seq<Candle>, min: real, max: real, size: real, bins: nat)
    requires bins > 0 && min < max && size == Divide(max - min, bins as real) && size > 0.0
    requires forall i :: 0 <= i < |c| ==> min <= c[i].low <= c[i].high <= max
    ensures Sum(Histogram(c, min, size, bins)) == VolumeBelow(c, max)
  {
    hide Divide, Spread, Share;
    if c == [] {
      AllZero(Histogram(c, min, size, bins));
    } else {
      var n := |c| - 1;
      HistogramTotal(c[..n], min, max, size, bins);
      ReachesBinExactly(c[n], min, max, bins);
      CandleIsShared(c[n], min, size, bins);
      SumPointwise(Histogram(c[..n], min, size, bins), ShareRow(c[n], min, size, bins, bins),
                   Histogram(c, min, size, bins));
    }
  }

  lemma {:induction false} AllZero(s: seq<real>)
    requires forall i :: 0 <= i < |s| ==> s[i] == 0.0
    ensures Sum(s) == 0.0
  {
    if s != [] {
      AllZero(s[..|s| - 1]);
    }
  }

  lemma {:induction false} InRange(c: seq<Candle>, i: nat)
    requires i < |c|
    ensures Lowest(c) <= c[i].low && c[i].high <= Highest(c)
  {
    if i < |c| - 1 {
      InRange(c[..|c| - 1], i);
    }
  }

  /** The histogram holds exactly the volume of the candles whose low is below the top of the price range. */
  lemma VolumeIsKept(c: seq<Candle>, bins: nat)
    requires bins > 0 && c != [] && forall i :: 0 <= i < |c| ==> c[i].low <= c[i].high
    requires Lowest(c) != Highest(c)
    ensures var size := Divide(Highest(c) - Lowest(c), bins as real);
            size > 0.0 && Sum(Histogram(c, Lowest(c), size, bins)) == VolumeBelow(c, Highest(c))
  {
    hide Divide, Histogram;
    forall i | 0 <= i < |c| ensures Lowest(c) <= c[i].low <= c[i].high <= Highest(c) {
      InRange(c, i);
    }
    assert Lowest(c) <= c[0].low <= c[0].high <= Highest(c);
    BinSizePositive(Highest(c) - Lowest(c), bins);
    HistogramTotal(c, Lowest(c), Highest(c), Divide(Highest(c) - Lowest(c), bins as real), bins);
  }

  // ---------------------------------------------------------------------
  // Swing points
  // ---------------------------------------------------------------------

  datatype SwingPoint = SwingPoint(index: nat, price: real, isHigh: bool, tsMs: int)

  /** Strictly above all neighbours within the lookback, on both sides. */
  ghost predicate IsSwingHigh(c: seq<Candle>, lookback: nat, i: nat) {
    lookback <= i < |c| - lookback
    && forall j :: i - lookback <= j <= i + lookback && j != i ==> c[j].high < c[i].high
  }

  ghost predicate IsSwingLow(c: seq<Candle>, lookback: nat, i: nat) {
    lookback <= i < |c| - lookback
    && forall j :: i - lookback <= j <= i + lookback && j != i ==> c[j].low > c[i].low
  }

  /** Two swing highs, or two swing lows, are more than the lookback apart. */
  lemma SwingsAreApart(c: seq<Candle>, lookback: nat, i: nat, j: nat)
    requires i < j
    requires (IsSwingHigh(c, lookback, i) && IsSwingHigh(c, lookback, j))
             || (IsSwingLow(c, lookback, i) && IsSwingLow(c, lookback, j))
    ensures j - i > lookback
  {
  }

  predicate Tops(c: seq<Candle>, i: nat, d: nat)
    requires d <= i && i + d < |c|
  {
    c[i - d].high < c[i].high && c[i + d].high < c[i].high
  }

  predicate Bottoms(c: seq<Candle>, i: nat, d: nat)
    requires d <= i && i + d < |c|
  {
    c[i - d].low > c[i].low && c[i + d].low > c[i].low
  }

  /** With a full lookback on both sides, a candle is a swing exactly if it exceeds both neighbours at each distance. */
  lemma WindowExtremeIsSwing(c: seq<Candle>, i: nat, lookback: nat)
    requires lookback <= i && i + lookback < |c|
    ensures IsSwingHigh(c, lookback, i) <==> forall d: nat :: 1 <= d <= lookback ==> Tops(c, i, d)
    ensures IsSwingLow(c, lookback, i) <==> forall d: nat :: 1 <= d <= lookback ==> Bottoms(c, i, d)
  {
    if forall d: nat :: 1 <= d <= lookback ==> Tops(c, i, d) {
      forall j | i - lookback <= j <= i + lookback && j != i ensures c[j].high < c[i].high {
        assert Tops(c, i, if j < i then i - j else j - i);
      }
    }
    if forall d: nat :: 1 <= d <= lookback ==> Bottoms(c, i, d) {
      forall j | i - lookback <= j <= i + lookback && j != i ensures c[j].low > c[i].low {
        assert Bottoms(c, i, if j < i then i - j else j - i);
      }
    }
  }

  /** A point is its candle's high or low, at its time, beyond that of every neighbour. */
  lemma PointMeaning(c: seq<Candle>, lookback: nat, p: SwingPoint, d: nat)
    requires IsPoint(c, lookback, |c|, p) && 1 <= d <= lookback
    ensures lookback <= p.index && p.index + lookback < |c| && p.tsMs == c[p.index].openTime
    ensures p.isHigh ==> p.price == c[p.index].high && c[p.index - d].high < p.price && c[p.index + d].high < p.price
    ensures !p.isHigh ==> p.price == c[p.index].low && c[p.index - d].low > p.price && c[p.index + d].low > p.price
  {
  }

  /** The order of the points is strict, and total but for two of the same kind at one position. */
  lemma BeforeIsOrder(p: SwingPoint, q: SwingPoint, r: SwingPoint)
    ensures !(Before(p, q) && Before(q, p)) && (Before(p, q) && Before(q, r) ==> Before(p, r))
    ensures p.index < q.index ==> Before(p, q)
    ensures p.index == q.index && p.isHigh != q.isHigh ==> (Before(p, q) <==> p.isHigh)
  {
  }

  /** Exactly the swing highs and lows, each once, in order of position. */
  method FindSwingPoints(c: seq<Candle>, lookback: nat) returns (points: seq<SwingPoint>)
    ensures forall p :: p in points <==> IsPoint(c, lookback, |c|, p)
    ensures forall a, b :: 0 <= a < b < |points| ==> Before(points[a], points[b])
  {
    points := [];
    if |c| < lookback * 2 + 1 {
      return;
    }
    for i := lookback to |c| - lookback
      invariant forall p :: p in points <==> IsPoint(c, lookback, i, p)
      invariant forall a, b :: 0 <= a < b < |points| ==> Before(points[a], points[b])
      invariant forall a :: 0 <= a < |points| ==> points[a].index < i
    {
      var isHigh, isLow := IsExtreme(c, lookback, i);
      if isHigh {
        points := points + [SwingPoint(i, c[i].high, true, c[i].openTime)];
      }
      if isLow {
        points := points + [SwingPoint(i, c[i].low, false, c[i].openTime)];
      }
    }
  }

  /** Ordered by position, a high before a low at the same one. */
  predicate Before(p: SwingPoint, q: SwingPoint) {
    p.index < q.index || (p.index == q.index && p.isHigh && !q.isHigh)
  }

  ghost predicate IsPoint(c: seq<Candle>, lookback: nat, n: int, p: SwingPoint) {
    && p.index < n && p.index < |c| && p.tsMs == c[p.index].openTime
    && if p.isHigh then IsSwingHigh(c, lookback, p.index) && p.price == c[p.index].high
       else IsSwingLow(c, lookback, p.index) && p.price == c[p.index].low
  }

  method IsExtreme(c: seq<Candle>, lookback: nat, i: nat) returns (isHigh: bool, isLow: bool)
    requires lookback <= i < |c| - lookback
    ensures isHigh == IsSwingHigh(c, lookback, i) && isLow == IsSwingLow(c, lookback, i)
  {
    isHigh, isLow := true, true;
    for j := 1 to lookback + 1
      invariant isHigh <==> forall k :: i - j < k < i + j && k != i ==> c[k].high < c[i].high
      invariant isLow <==> forall k :: i - j < k < i + j && k != i ==> c[k].low > c[i].low
    {
      if c[i].high <= c[i - j].high || c[i].high <= c[i + j].high {
        isHigh := false;
      }
      if c[i].low >= c[i - j].low || c[i].low >= c[i + j].low {
        isLow := false;
      }
    }
  }
}
