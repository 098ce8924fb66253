/** Funding-rate regimes (internal/funding/regime.go) and their monotonicity in the recorded rates. */
module Regime {
  import opened RealSeq

  datatype Config = Config(lookbackPeriods: nat, negativeThresholdPct: real, reducePositionPct: real,
                           exitAllOnPersistent: bool, persistentNegativePeriods: nat)

  datatype Kind = Bullish | Neutral | Bearish | Persistent {
    function Severity(): nat {
      match this
      case Bullish => 0
      case Neutral => 1
      case Bearish => 2
      case Persistent => 3
    }
  }

  const MIN_SAMPLES := 3

  // ---------------------------------------------------------------------
  // Specification
  // ---------------------------------------------------------------------

  ghost predicate AllNegative(s: seq<real>) { forall i :: 0 <= i < |s| ==> s[i] < 0.0 }

  function Negatives(s: seq<real>): nat {
    if s == [] then 0 else Negatives(s[..|s| - 1]) + if s[|s| - 1] < 0.0 then 1 else 0
  }

  function Percent(count: nat, total: nat): real
    requires total > 0
  {
    count as real / total as real * 100.0
  }

  function NegativePct(s: seq<real>): real
    requires s != []
  {
    Percent(Negatives(s), |s|)
  }

  /** The most recent rates are all negative. */
  ghost predicate Streak(cfg: Config, s: seq<real>) {
    |s| >= cfg.persistentNegativePeriods && AllNegative(s[|s| - cfg.persistentNegativePeriods..])
  }

  ghost function Classify(cfg: Config, s: seq<real>): Kind {
    if |s| < MIN_SAMPLES then Neutral
    else if Streak(cfg, s) then Persistent
    else
      var negative := NegativePct(s);
      if negative >= cfg.negativeThresholdPct then Bearish
      else if 100.0 - negative >= cfg.negativeThresholdPct then Bullish
      else Neutral
  }

  function ScaleFactor(cfg: Config, k: Kind): real {
    match k
    case Bullish => 1.0
    case Neutral => 0.75
    case Bearish => cfg.reducePositionPct / 100.0
    case Persistent => if cfg.exitAllOnPersistent then 0.0 else cfg.reducePositionPct / 100.0
  }

  // ---------------------------------------------------------------------
  // The detector
  // ---------------------------------------------------------------------

  class Detector {
    const cfg: Config
    var samples: map<string, seq<real>>
    /** Every rate ever recorded, per symbol. */
    ghost var history: map<string, seq<real>>

    ghost function History(symbol: string): seq<real>
      reads this
    {
      if symbol in history then history[symbol] else []
    }

    function Samples(symbol: string): seq<real>
      reads this
    {
      if symbol in samples then samples[symbol] else []
    }

    /** The window holds exactly the last lookbackPeriods recorded rates. */
    ghost predicate Valid()
      reads this
    {
      && samples.Keys == history.Keys
      && forall s :: s in history ==> samples[s] == LastN(history[s], cfg.lookbackPeriods)
    }

    constructor (cfg: Config)
      ensures Valid() && this.cfg == cfg && history == map[]
    {
      this.cfg := cfg;
      samples, history := map[], map[];
    }

    method RecordRate(symbol: string, rate: real)
      requires Valid()
      modifies this
      ensures Valid() && history == old(history)[symbol := old(History(symbol)) + [rate]]
    {
      hide LastN;
      if symbol !in history {
        LastNOfNone<real>(cfg.lookbackPeriods);
      }
      TrimmedAppend(History(symbol), Samples(symbol), rate, cfg.lookbackPeriods);
      var recent := Samples(symbol) + [rate];
      if |recent| > cfg.lookbackPeriods {
        recent := recent[|recent| - cfg.lookbackPeriods..];
      }
      history := history[symbol := History(symbol) + [rate]];
      samples := samples[symbol := recent];
    }

    method DetectRegime(symbol: string) returns (k: Kind)
      requires Valid()
      ensures k == Classify(cfg, LastN(History(symbol), cfg.lookbackPeriods))
    {
      hide Percent, LastN;
      var s := Samples(symbol);
      LastNOfNone<real>(cfg.lookbackPeriods);
      if symbol !in samples || |s| < MIN_SAMPLES {
        return Neutral;
      }
      if |s| >= cfg.persistentNegativePeriods {
        var tail := s[|s| - cfg.persistentNegativePeriods..];
        var allNeg := true;
        for i := 0 to |tail|
          invariant allNeg && AllNegative(tail[..i])
        {
          if tail[i] >= 0.0 {
            allNeg := false;
            break;
          }
        }
        assert allNeg ==> tail[..|tail|] == tail;
        if allNeg {
          return Persistent;
        }
      }
      var negCount := 0;
      for i := 0 to |s|
        invariant negCount == Negatives(s[..i])
      {
        assert s[..i + 1][..i] == s[..i];
        if s[i] < 0.0 {
          negCount := negCount + 1;
        }
      }
      assert s[..|s|] == s;
      var negPct := Percent(negCount, |s|);
      if negPct >= cfg.negativeThresholdPct {
        return Bearish;
      }
      var posPct := 100.0 - negPct;
      if posPct >= cfg.negativeThresholdPct {
        return Bullish;
      }
      return Neutral;
    }

    method PositionScaleFactor(symbol: string) returns (f: real)
      requires Valid()
      ensures f == ScaleFactor(cfg, Classify(cfg, LastN(History(symbol), cfg.lookbackPeriods)))
    {
      var regime := DetectRegime(symbol);
      f := ScaleFactor(cfg, regime);
    }

    method ShouldExitAll(symbol: string) returns (b: bool)
      requires Valid()
      ensures b <==> cfg.exitAllOnPersistent && Classify(cfg, LastN(History(symbol), cfg.lookbackPeriods)) == Persistent
    {
      var regime := DetectRegime(symbol);
      b := regime == Persistent && cfg.exitAllOnPersistent;
    }
  }

  // ---------------------------------------------------------------------
  // Monotonicity
  // ---------------------------------------------------------------------

  /**
   * What the regimes mean, without division: the streak first, then the share of negative rates, then of the
   * others.
   */
  lemma RegimeMeaning(cfg: Config, s: seq<real>)
    ensures var k, p := Classify(cfg, s), cfg.persistentNegativePeriods;
            var streak := |s| >= p && forall i :: |s| - p <= i < |s| ==> s[i] < 0.0;
            var manyNegative := HasShare(Negatives(s), |s|, cfg.negativeThresholdPct);
            var manyOthers := HasShare(|s| - Negatives(s), |s|, cfg.negativeThresholdPct);
            && (k == Persistent <==> |s| >= 3 && streak)
            && (k == Bearish <==> |s| >= 3 && !streak && manyNegative)
            && (k == Bullish <==> |s| >= 3 && !streak && !manyNegative && manyOthers)
  {
    StreakMeaning(cfg, s);
    hide Percent, HasShare, Streak, Negatives;
    if |s| > 0 {
      PercentMeaning(Negatives(s), |s|, cfg.negativeThresholdPct);
    }
  }

  lemma StreakMeaning(cfg: Config, s: seq<real>)
    ensures Streak(cfg, s) <==>
              var p := cfg.persistentNegativePeriods; |s| >= p && forall i :: |s| - p <= i < |s| ==> s[i] < 0.0
  {
    var d := |s| - cfg.persistentNegativePeriods;
    if d >= 0 {
      assert forall i :: d <= i < |s| ==> s[d..][i - d] == s[i];
    }
  }

  /** All of a position in a bullish regime, three quarters in a neutral one, else the configured percentage or none. */
  lemma FactorMeaning(cfg: Config, k: Kind)
    ensures var f := ScaleFactor(cfg, k);
            && (k == Bullish ==> f == 1.0) && (k == Neutral ==> 4.0 * f == 3.0)
            && (k == Persistent && cfg.exitAllOnPersistent ==> f == 0.0)
            && (k == Bearish || (k == Persistent && !cfg.exitAllOnPersistent) ==> 100.0 * f == cfg.reducePositionPct)
  {
  }

  /** count is at least pct percent of total. */
  predicate HasShare(count: int, total: nat, pct: real) { 100.0 * count as real >= pct * total as real }

  lemma PercentTimes(count: nat, total: nat)
    requires total > 0
    ensures Percent(count, total) * total as real == 100.0 * count as real
  {
  }

  lemma PercentMeaning(count: nat, total: nat, pct: real)
    requires total > 0
    ensures Percent(count, total) >= pct <==> HasShare(count, total, pct)
    ensures 100.0 - Percent(count, total) >= pct <==> HasShare(total - count, total, pct)
  {
    hide Percent;
    PercentTimes(count, total);
    ShareOf(Percent(count, total), count, total, pct);
    RestTimes(Percent(count, total), count as real, total as real);
    ShareOf(100.0 - Percent(count, total), total - count, total, pct);
  }

  lemma RestTimes(p: real, c: real, n: real)
    requires p * n == 100.0 * c
    ensures (100.0 - p) * n == 100.0 * (n - c)
  {
  }

  lemma ShareOf(p: real, count: int, total: nat, pct: real)
    requires total > 0 && p * total as real == 100.0 * count as real
    ensures p >= pct <==> HasShare(count, total, pct)
  {
    ScaledCompare(p, pct, total as real);
  }

  /** The same observations, each at most as large. */
  ghost predicate AtMost(s: seq<real>, t: seq<real>) {
    |s| == |t| && forall i :: 0 <= i < |s| ==> s[i] <= t[i]
  }

  lemma {:induction false} NegativesAntitone(s: seq<real>, t: seq<real>)
    requires AtMost(s, t)
    ensures Negatives(t) <= Negatives(s)
  {
    if s != [] {
      NegativesAntitone(s[..|s| - 1], t[..|t| - 1]);
    }
  }

  lemma PctMonotone(a: nat, b: nat, n: nat)
    requires a <= b && n > 0
    ensures Percent(a, n) <= Percent(b, n)
  {
  }

  lemma ClassifyMonotone(cfg: Config, s: seq<real>, t: seq<real>)
    requires AtMost(s, t)
    ensures Classify(cfg, s).Severity() >= Classify(cfg, t).Severity()
  {
    hide Percent;
    if |s| >= MIN_SAMPLES {
      NegativesAntitone(s, t);
      PctMonotone(Negatives(t), Negatives(s), |s|);
      assert NegativePct(t) <= NegativePct(s);
      if |s| >= cfg.persistentNegativePeriods {
        var d := |s| - cfg.persistentNegativePeriods;
        assert AllNegative(t[d..]) ==> AllNegative(s[d..]);
      }
    }
  }

  /** Lower recorded rates never make the regime of their window less severe. */
  lemma RegimeMonotone(cfg: Config, lower: seq<real>, higher: seq<real>)
    requires AtMost(lower, higher)
    ensures Classify(cfg, LastN(lower, cfg.lookbackPeriods)).Severity()
         >= Classify(cfg, LastN(higher, cfg.lookbackPeriods)).Severity()
  {
    ClassifyMonotone(cfg, LastN(lower, cfg.lookbackPeriods), LastN(higher, cfg.lookbackPeriods));
  }

  /** The scale factor falls with severity exactly under this condition on the configuration. */
  lemma ScaleAntitoneExactly(cfg: Config)
    ensures (forall a: Kind, b: Kind :: a.Severity() >= b.Severity() ==> ScaleFactor(cfg, a) <= ScaleFactor(cfg, b))
       <==> cfg.reducePositionPct <= 75.0 && (cfg.exitAllOnPersistent ==> cfg.reducePositionPct >= 0.0)
  {
    if forall a: Kind, b: Kind :: a.Severity() >= b.Severity() ==> ScaleFactor(cfg, a) <= ScaleFactor(cfg, b) {
      assert ScaleFactor(cfg, Bearish) <= ScaleFactor(cfg, Neutral);
      assert ScaleFactor(cfg, Persistent) <= ScaleFactor(cfg, Bearish);
    }
  }

  /** Hence lower rates never raise the position scale. */
  lemma ScaleMonotone(cfg: Config, lower: seq<real>, higher: seq<real>)
    requires AtMost(lower, higher)
    requires cfg.reducePositionPct <= 75.0 && (cfg.exitAllOnPersistent ==> cfg.reducePositionPct >= 0.0)
    ensures ScaleFactor(cfg, Classify(cfg, LastN(lower, cfg.lookbackPeriods)))
         <= ScaleFactor(cfg, Classify(cfg, LastN(higher, cfg.lookbackPeriods)))
  {
    RegimeMonotone(cfg, lower, higher);
    ScaleAntitoneExactly(cfg);
  }

  /** The loop's counter is the number of positions with a negative rate. */
  lemma {:induction false} NegativesCount(s: seq<real>)
    ensures Negatives(s) == |set i: nat | i < |s| && s[i] < 0.0|
  {
    var all := set i: nat | i < |s| && s[i] < 0.0;
    if s == [] {
      assert all == {};
    } else {
      var n := |s| - 1;
      var before := set i: nat | i < n && s[..n][i] < 0.0;
      NegativesCount(s[..n]);
      assert all == if s[n] < 0.0 then before + {n} else before;
    }
  }
}
