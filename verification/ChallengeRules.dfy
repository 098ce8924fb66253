/** The challenge's trading rules (internal/challenge/rules.go, config.go). Percentages are in 0..100. */
module ChallengeRules {
  import opened RealSeq

  datatype Mode = Phase1 | Phase2 | FundedMode

  datatype Level = Normal | Soft | Hard | Breach

  datatype Config = Config(
    enabled: bool,
    mode: Mode,
    initialBalance: real,
    dailySoft: real, dailyHard: real, dailyBreach: real,
    overallSoft: real, overallHard: real, overallBreach: real,
    maxRiskPerTradePct: real,
    profitDistributionMaxPct: real,
    stopLossDeadlineMs: int,
    stopLossDefaultPct: real,
    maxMarginExposurePct: real,
    maxNotionalMultiplier: real
  ) {
    /** What loading a configuration checks of these fields. */
    predicate Valid() {
      && initialBalance > 0.0
      && dailySoft < dailyHard < dailyBreach
      && overallSoft < overallHard < overallBreach
      && stopLossDeadlineMs > 0
    }
  }

  function Percent(part: real, whole: real): real
    requires whole != 0.0
  {
    part / whole * 100.0
  }

  function Classify(pct: real, soft: real, hard: real, breach: real): Level {
    if pct >= breach then Breach
    else if pct >= hard then Hard
    else if pct >= soft then Soft
    else Normal
  }

  /** Normal means that the check passes. */
  function CheckDailyDrawdown(equity: real, highWater: real, cfg: Config): Level {
    if highWater == 0.0 then Normal
    else
      var drawdown := highWater - equity;
      if drawdown <= 0.0 then Normal
      else Classify(Percent(drawdown, highWater), cfg.dailySoft, cfg.dailyHard, cfg.dailyBreach)
  }

  function CheckOverallDrawdown(equity: real, initialBalance: real, cfg: Config): Level
    requires initialBalance > 0.0
  {
    var drawdown := initialBalance - equity;
    if drawdown <= 0.0 then Normal
    else Classify(Percent(drawdown, initialBalance), cfg.overallSoft, cfg.overallHard, cfg.overallBreach)
  }

  datatype Reason =
    | ChallengeHalted
    | DailyDrawdown(level: Level)
    | OverallDrawdown(level: Level)
    | StopDistanceNotPositive
    | SizeNotPositive
    | RiskTooLarge
    | ProfitTooConcentrated
    | MarginExceeded
    | NotionalExceeded
    | StopLossOverdue

  function CheckPerTradeRisk(stopDistance: real, size: real, initialBalance: real, cfg: Config): Option<Reason> {
    if stopDistance <= 0.0 then Some(StopDistanceNotPositive)
    else if size <= 0.0 then Some(SizeNotPositive)
    else if stopDistance * size > initialBalance * cfg.maxRiskPerTradePct / 100.0 then Some(RiskTooLarge)
    else None
  }

  function CheckProfitDistribution(tradePnl: real, totalProfit: real, cfg: Config): Option<Reason> {
    if cfg.mode == FundedMode || tradePnl <= 0.0 then None
    else
      var newTotal := totalProfit + tradePnl;
      if newTotal <= 0.0 then None
      else if Percent(tradePnl, newTotal) > cfg.profitDistributionMaxPct then Some(ProfitTooConcentrated)
      else None
  }

  function MarginCap(cfg: Config): real { cfg.initialBalance * cfg.maxMarginExposurePct / 100.0 }

  function CheckMaxExposure(totalMargin: real, cfg: Config): Option<Reason> {
    if cfg.mode == FundedMode && totalMargin > MarginCap(cfg) then Some(MarginExceeded) else None
  }

  function NotionalCap(cfg: Config, balance: real): real { balance * cfg.maxNotionalMultiplier }

  function CheckMaxNotional(totalNotional: real, balance: real, cfg: Config): Option<Reason> {
    if cfg.mode == FundedMode && totalNotional > NotionalCap(cfg, balance) then Some(NotionalExceeded) else None
  }

  // ---------------------------------------------------------------------
  // What the checks mean, without division
  // ---------------------------------------------------------------------

  /** Equity is below the base by at least pct percent of it; of a negative base the percentage is negative. */
  ghost predicate DownBy(equity: real, base: real, pct: real) {
    && equity < base && base != 0.0
    && if base > 0.0 then pct * base <= 100.0 * (base - equity) else pct * base >= 100.0 * (base - equity)
  }

  lemma PercentCompare(part: real, whole: real, pct: real)
    requires whole != 0.0
    ensures whole > 0.0 ==> (Percent(part, whole) >= pct <==> pct * whole <= 100.0 * part)
    ensures whole > 0.0 ==> (Percent(part, whole) > pct <==> pct * whole < 100.0 * part)
    ensures whole < 0.0 ==> (Percent(part, whole) >= pct <==> pct * whole >= 100.0 * part)
  {
    var p := Percent(part, whole);
    var gap := p - pct;
    assert p * whole == 100.0 * part;
    assert gap * whole == 100.0 * part - pct * whole;
    if whole > 0.0 {
      SameSign(gap, whole);
    } else {
      assert gap * -whole == pct * whole - 100.0 * part;
      SameSign(gap, -whole);
    }
  }

  /** The daily levels are exactly the four bands between the three configured drawdowns. */
  lemma DailyDrawdownMeaning(equity: real, highWater: real, cfg: Config)
    requires cfg.Valid()
    ensures var level := CheckDailyDrawdown(equity, highWater, cfg);
            && (level == Breach <==> DownBy(equity, highWater, cfg.dailyBreach))
            && (level in {Hard, Breach} <==> DownBy(equity, highWater, cfg.dailyHard))
            && (level in {Soft, Hard, Breach} <==> DownBy(equity, highWater, cfg.dailySoft))
  {
    hide Percent;
    if highWater != 0.0 {
      PercentCompare(highWater - equity, highWater, cfg.dailyBreach);
      PercentCompare(highWater - equity, highWater, cfg.dailyHard);
      PercentCompare(highWater - equity, highWater, cfg.dailySoft);
    }
  }

  lemma OverallDrawdownMeaning(equity: real, cfg: Config)
    requires cfg.Valid()
    ensures var level := CheckOverallDrawdown(equity, cfg.initialBalance, cfg);
            && (level == Breach <==> DownBy(equity, cfg.initialBalance, cfg.overallBreach))
            && (level in {Hard, Breach} <==> DownBy(equity, cfg.initialBalance, cfg.overallHard))
            && (level in {Soft, Hard, Breach} <==> DownBy(equity, cfg.initialBalance, cfg.overallSoft))
  {
    hide Percent;
    PercentCompare(cfg.initialBalance - equity, cfg.initialBalance, cfg.overallBreach);
    PercentCompare(cfg.initialBalance - equity, cfg.initialBalance, cfg.overallHard);
    PercentCompare(cfg.initialBalance - equity, cfg.initialBalance, cfg.overallSoft);
  }

  // ---------------------------------------------------------------------
  // Profit distribution
  // ---------------------------------------------------------------------

  /**
   * In a challenge phase a win is accepted exactly when it is at most P/(100 - P) of the profit so far, or there
   * is no profit after it.
   */
  lemma WinAcceptedExactly(win: real, profit: real, cfg: Config)
    requires cfg.mode != FundedMode && win > 0.0
    ensures CheckProfitDistribution(win, profit, cfg) == None
       <==> profit + win <= 0.0
            || win * (100.0 - cfg.profitDistributionMaxPct) <= cfg.profitDistributionMaxPct * profit
  {
    hide Percent;
    var pct := cfg.profitDistributionMaxPct;
    if profit + win > 0.0 {
      PercentCompare(win, profit + win, pct);
      assert pct * (profit + win) == pct * profit + pct * win;
    }
  }

  /** From no profit, no win is ever accepted under a limit below 100%. */
  lemma NoFirstWin(win: real, cfg: Config)
    requires cfg.mode != FundedMode && cfg.profitDistributionMaxPct < 100.0 && win > 0.0
    ensures CheckProfitDistribution(win, 0.0, cfg) == Some(ProfitTooConcentrated)
  {
    WinAcceptedExactly(win, 0.0, cfg);
    assert win * (100.0 - cfg.profitDistributionMaxPct) > 0.0;
  }

  /** Every win is positive and passed the check against the profit before it. */
  ghost predicate AllAccepted(profit: real, wins: seq<real>, cfg: Config) {
    forall i :: 0 <= i < |wins| ==>
      wins[i] > 0.0 && CheckProfitDistribution(wins[i], profit + Sum(wins[..i]), cfg) == None
  }

  function Power(b: real, n: nat): real { if n == 0 then 1.0 else b * Power(b, n - 1) }

  /** How much one accepted win can multiply the profit by. */
  function MaxGrowth(cfg: Config): real
    requires cfg.profitDistributionMaxPct < 100.0
  {
    100.0 / (100.0 - cfg.profitDistributionMaxPct)
  }

  /** The most profit that n accepted wins can lead to. */
  ghost function ProfitBound(profit: real, cfg: Config, n: nat): real
    requires cfg.profitDistributionMaxPct < 100.0
  {
    profit * Power(MaxGrowth(cfg), n)
  }

  /** Profit through accepted wins grows at most geometrically. */
  lemma {:induction false} ProfitGrowth(profit: real, wins: seq<real>, cfg: Config)
    requires cfg.mode != FundedMode && 0.0 <= cfg.profitDistributionMaxPct < 100.0
    requires profit >= 0.0 && AllAccepted(profit, wins, cfg)
    ensures 0.0 <= profit + Sum(wins) <= ProfitBound(profit, cfg, |wins|)
  {
    hide ProfitBound, CheckProfitDistribution;
    if wins == [] {
      BoundZero(profit, cfg);
    } else {
      var k := |wins| - 1;
      assert AllAccepted(profit, wins[..k], cfg) by {
        forall i | 0 <= i < k ensures wins[..k][..i] == wins[..i] {}
      }
      ProfitGrowth(profit, wins[..k], cfg);
      BoundStep(profit, profit + Sum(wins[..k]), wins[k], cfg, k);
    }
  }

  lemma BoundZero(profit: real, cfg: Config)
    requires cfg.profitDistributionMaxPct < 100.0
    ensures ProfitBound(profit, cfg, 0) == profit
  {
  }

  lemma BoundStep(profit: real, before: real, win: real, cfg: Config, k: nat)
    requires cfg.mode != FundedMode && 0.0 <= cfg.profitDistributionMaxPct < 100.0
    requires 0.0 <= before <= ProfitBound(profit, cfg, k)
    requires win > 0.0 && CheckProfitDistribution(win, before, cfg) == None
    ensures before + win <= ProfitBound(profit, cfg, k + 1)
  {
    hide MaxGrowth, CheckProfitDistribution;
    GrowthStep(before, win, cfg);
    var g := MaxGrowth(cfg);
    Compound(g, Power(g, k), Power(g, k + 1), profit, before, before + win);
  }

  lemma Compound(g: real, power: real, next: real, profit: real, before: real, after: real)
    requires g >= 0.0 && next == g * power && before <= profit * power && after <= g * before
    ensures after <= profit * next
  {
    ScaleMonotone(before, profit * power, g);
    assert g * (profit * power) == profit * next;
  }

  lemma GrowthStep(before: real, win: real, cfg: Config)
    requires cfg.mode != FundedMode && 0.0 <= cfg.profitDistributionMaxPct < 100.0
    requires before >= 0.0 && win > 0.0 && CheckProfitDistribution(win, before, cfg) == None
    ensures MaxGrowth(cfg) >= 0.0 && before + win <= MaxGrowth(cfg) * before
  {
    WinAcceptedExactly(win, before, cfg);
    GrowthBound(100.0 - cfg.profitDistributionMaxPct, before, win);
  }

  lemma GrowthBound(rest: real, before: real, win: real)
    requires rest > 0.0 && win * rest <= (100.0 - rest) * before
    ensures before + win <= 100.0 / rest * before
  {
    var g := 100.0 / rest;
    assert g * rest == 100.0;
    var gap := g * before - before - win;
    assert gap * rest == 100.0 * before - before * rest - win * rest by {
      assert (g * before) * rest == (g * rest) * before;
    }
    SameSign(gap, rest);
  }

  /** An accepted win stays within P percent of the total profit at every later time. */
  lemma {:induction false} WinStaysWithinLimit(profit: real, wins: seq<real>, i: nat, j: nat, cfg: Config)
    requires cfg.mode != FundedMode && 0.0 <= cfg.profitDistributionMaxPct
    requires profit >= 0.0 && AllAccepted(profit, wins, cfg) && i < j <= |wins|
    ensures 100.0 * wins[i] <= cfg.profitDistributionMaxPct * (profit + Sum(wins[..j]))
    decreases j
  {
    hide CheckProfitDistribution, AllAccepted, Sum;
    WinAt(profit, wins, i, cfg);
    WinAt(profit, wins, j - 1, cfg);
    SumStep(wins, j - 1);
    if j == i + 1 {
      AcceptedShare(wins[i], profit + Sum(wins[..i]), profit + Sum(wins[..j]), cfg);
    } else {
      WinStaysWithinLimit(profit, wins, i, j - 1, cfg);
      ScaleMonotone(profit + Sum(wins[..j - 1]), profit + Sum(wins[..j]), cfg.profitDistributionMaxPct);
    }
  }

  lemma WinAt(profit: real, wins: seq<real>, i: nat, cfg: Config)
    requires AllAccepted(profit, wins, cfg) && i < |wins|
    ensures wins[i] > 0.0 && CheckProfitDistribution(wins[i], profit + Sum(wins[..i]), cfg) == None
    ensures profit >= 0.0 ==> profit + Sum(wins[..i]) >= 0.0
  {
    hide CheckProfitDistribution;
    SumOfWins(profit, wins, i, cfg);
  }

  lemma AcceptedShare(win: real, before: real, after: real, cfg: Config)
    requires cfg.mode != FundedMode && win > 0.0 && before >= 0.0 && after == before + win
    requires CheckProfitDistribution(win, before, cfg) == None
    ensures 100.0 * win <= cfg.profitDistributionMaxPct * after
  {
    hide Percent;
    PercentCompare(win, after, cfg.profitDistributionMaxPct);
  }

  lemma {:induction false} SumOfWins(profit: real, wins: seq<real>, i: nat, cfg: Config)
    requires AllAccepted(profit, wins, cfg) && i <= |wins|
    ensures Sum(wins[..i]) >= 0.0
  {
    hide CheckProfitDistribution;
    if i > 0 {
      SumStep(wins, i - 1);
      SumOfWins(profit, wins, i - 1, cfg);
    }
  }
}
