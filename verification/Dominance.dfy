/**
 * The compliance gate is at least as strict as the risk daemon about the day's drawdown, when both are fed
 * the same equity (cmd/risk-daemon publishes the value that cmd/challenge-daemon polls).
 */
module Dominance {
  import opened RealSeq
  import opened ChallengeRules
  import opened ChallengeDaemon
  import opened ChallengeRuns
  import opened Calendar
  import RiskSpec

  /**
   * An equity value that the risk daemon publishes and the gate then polls, each at its own clock reading (the risk
   * daemon's is the one it takes the day from); one that is replaced before the gate polls it; or any other
   * operation on the gate, another poll of the same value included.
   */
  datatype Feed = Both(gateNow: int, riskNow: int, value: real) | Missed(riskNow: int, value: real) | Other(op: Op)

  datatype Pair = Pair(gate: Gate, daily: RiskSpec.Daily)

  ghost function Next(cfg: Config, p: Pair, f: Feed): Pair
    requires cfg.Valid()
  {
    match f
    case Both(gateNow, riskNow, value) =>
      Pair(AfterEquity(cfg, p.gate, gateNow, value), RiskSpec.NextDaily(p.daily, riskNow, value))
    case Missed(riskNow, value) => p.(daily := RiskSpec.NextDaily(p.daily, riskNow, value))
    case Other(op) => p.(gate := Step(cfg, p.gate, op))
  }

  ghost function RunBoth(cfg: Config, p: Pair, feed: seq<Feed>): Pair
    requires cfg.Valid()
  {
    if feed == [] then p else Next(cfg, RunBoth(cfg, p, feed[..|feed| - 1]), feed[|feed| - 1])
  }

  /** Both daemons as constructed, each with its own clock reading. */
  function Fresh(cfg: Config, gateStart: int, riskStart: int): Pair {
    Pair(Start(cfg, gateStart), RiskSpec.Daily(0.0, Day(riskStart)))
  }

  /** The reading that the gate, or else the risk daemon, takes the day from. */
  function Reading(f: Feed, gate: bool): Option<int> {
    match f
    case Both(gateNow, riskNow, _) => Some(if gate then gateNow else riskNow)
    case Missed(riskNow, _) => if gate then None else Some(riskNow)
    case Other(op) => if gate then Clock(op) else None
  }

  /** A daemon's readings are all at or after its start, and do not go back. */
  ghost predicate InOrder(feed: seq<Feed>, gate: bool, start: int) {
    && (forall i :: 0 <= i < |feed| && Reading(feed[i], gate).Some? ==> Reading(feed[i], gate).value >= start)
    && forall i, j :: 0 <= i < j < |feed| && Reading(feed[i], gate).Some? && Reading(feed[j], gate).Some? ==>
         Reading(feed[i], gate).value <= Reading(feed[j], gate).value
  }

  /** Neither daemon's clock goes back. */
  ghost predicate Ordered(feed: seq<Feed>, gateStart: int, riskStart: int) {
    InOrder(feed, true, gateStart) && InOrder(feed, false, riskStart)
  }

  /** The value that the gate polled last. */
  function Polled(feed: seq<Feed>): Option<real> {
    if feed == [] then None else
      var f := feed[|feed| - 1];
      if f.Both? then Some(f.value) else Polled(feed[..|feed| - 1])
  }

  /** The gate polls every value, on the day on which the risk daemon took it, and any further poll finds the same. */
  ghost predicate InStep(feed: seq<Feed>) {
    forall i :: 0 <= i < |feed| ==> InStepAt(feed, i)
  }

  ghost predicate InStepAt(feed: seq<Feed>, i: nat)
    requires i < |feed|
  {
    match feed[i]
    case Both(gateNow, riskNow, _) => Day(gateNow) == Day(riskNow)
    case Missed(_, _) => false
    case Other(op) => op.Equity? ==> Polled(feed[..i]) == Some(op.value)
  }

  /** What every reachable pair of states satisfies, when no reading so far was after these. */
  ghost predicate Related(p: Pair, gateLast: int, riskLast: int) {
    && p.gate.equity <= p.gate.highWater
    && p.gate.resetDay <= Day(gateLast) && p.daily.day <= Day(riskLast)
    && (p.daily.day == p.gate.resetDay ==> p.daily.peak <= p.gate.highWater)
    && (p.daily.day > p.gate.resetDay ==> p.daily.peak <= 0.0 < p.gate.equity)
  }

  lemma RelatedNext(cfg: Config, p: Pair, gateLast: int, riskLast: int, f: Feed)
    requires cfg.Valid()
    requires Related(p, if Reading(f, true).Some? then Reading(f, true).value else gateLast,
                     if Reading(f, false).Some? then Reading(f, false).value else riskLast)
    requires Reading(f, true).Some? ==> Reading(f, true).value <= gateLast
    requires Reading(f, false).Some? ==> Reading(f, false).value <= riskLast
    requires f.Both? ==> Day(f.gateNow) == Day(f.riskNow)
    requires !f.Missed? && (f.Other? && f.op.Equity? ==> f.op.value == p.gate.equity)
    ensures f.Other? ==> Next(cfg, p, f).gate.equity == p.gate.equity
    ensures Related(Next(cfg, p, f), gateLast, riskLast)
    ensures f.Both? ==> var q := Next(cfg, p, f); q.daily.peak <= q.gate.highWater && q.gate.equity == f.value
  {
    hide BreachLevel, ApprovalOf;
    if Reading(f, true).Some? {
      DayMonotone(Reading(f, true).value, gateLast);
    }
    if Reading(f, false).Some? {
      DayMonotone(Reading(f, false).value, riskLast);
    }
  }

  /** No reading of the feed is after these. */
  ghost predicate Until(feed: seq<Feed>, gateLast: int, riskLast: int) {
    forall i :: 0 <= i < |feed| ==>
      && (Reading(feed[i], true).Some? ==> Reading(feed[i], true).value <= gateLast)
      && (Reading(feed[i], false).Some? ==> Reading(feed[i], false).value <= riskLast)
  }

  lemma {:induction false} AlwaysRelated(cfg: Config, gateStart: int, riskStart: int, feed: seq<Feed>,
                                         gateLast: int, riskLast: int)
    requires cfg.Valid() && Ordered(feed, gateStart, riskStart) && InStep(feed)
    requires gateStart <= gateLast && riskStart <= riskLast && Until(feed, gateLast, riskLast)
    ensures var p := RunBoth(cfg, Fresh(cfg, gateStart, riskStart), feed);
            && Related(p, gateLast, riskLast)
            && (Polled(feed).Some? ==> p.gate.equity == Polled(feed).value)
            && (feed != [] && feed[|feed| - 1].Both? ==> p.daily.peak <= p.gate.highWater)
  {
    if feed == [] {
      DayMonotone(gateStart, gateLast);
      DayMonotone(riskStart, riskLast);
    } else {
      hide Next, Related;
      var n := |feed| - 1;
      var g := if Reading(feed[n], true).Some? then Reading(feed[n], true).value else gateLast;
      var r := if Reading(feed[n], false).Some? then Reading(feed[n], false).value else riskLast;
      InStepBefore(feed, n);
      AlwaysRelated(cfg, gateStart, riskStart, feed[..n], g, r);
      assert InStepAt(feed, n);
      RelatedNext(cfg, RunBoth(cfg, Fresh(cfg, gateStart, riskStart), feed[..n]), gateLast, riskLast, feed[n]);
    }
  }

  lemma InStepBefore(feed: seq<Feed>, n: nat)
    requires n <= |feed| && InStep(feed)
    ensures InStep(feed[..n])
  {
    forall i | 0 <= i < n ensures InStepAt(feed[..n], i) {
      assert InStepAt(feed, i) && feed[..n][..i] == feed[..i];
    }
  }

  /** After every update that both have taken, the gate's high-water mark is at least the risk daemon's daily peak. */
  lemma HighWaterDominates(cfg: Config, gateStart: int, riskStart: int, feed: seq<Feed>)
    requires cfg.Valid() && Ordered(feed, gateStart, riskStart) && InStep(feed)
    requires feed != [] && feed[|feed| - 1].Both?
    ensures var p := RunBoth(cfg, Fresh(cfg, gateStart, riskStart), feed);
            p.daily.peak <= p.gate.highWater
  {
    var last := feed[|feed| - 1];
    AlwaysRelated(cfg, gateStart, riskStart, feed, last.gateNow, last.riskNow);
  }

  /**
   * One shared update from dominance loses it exactly when the gate restarts its day and the risk daemon does
   * not, and the day's old peak is above both the previous and the new equity.
   */
  lemma DominanceLostExactly(cfg: Config, p: Pair, gateNow: int, riskNow: int, value: real)
    requires cfg.Valid() && p.daily.peak <= p.gate.highWater
    ensures var q := Next(cfg, p, Both(gateNow, riskNow, value));
            q.daily.peak > q.gate.highWater <==>
              && Day(gateNow) != p.gate.resetDay && Day(riskNow) <= p.daily.day
              && p.daily.peak > Max(p.gate.equity, value)
  {
    hide BreachLevel;
  }

  /** A value that the gate never polls loses it exactly when it is above the mark. */
  lemma DominanceMissedExactly(cfg: Config, p: Pair, riskNow: int, value: real)
    requires cfg.Valid() && p.daily.peak <= p.gate.highWater
    ensures var q := Next(cfg, p, Missed(riskNow, value));
            q.daily.peak > q.gate.highWater <==> value > p.gate.highWater
  {
  }

  lemma ThreeUpdates(cfg: Config, p: Pair, a: Feed, b: Feed, c: Feed)
    requires cfg.Valid()
    ensures RunBoth(cfg, p, [a, b, c]) == Next(cfg, Next(cfg, Next(cfg, p, a), b), c)
  {
    hide Next;
    assert [a, b, c][..2] == [a, b] && [a, b][..1] == [a] && [a][..0] == [];
    assert RunBoth(cfg, p, [a]) == Next(cfg, p, a);
    assert RunBoth(cfg, p, [a, b]) == Next(cfg, Next(cfg, p, a), b);
  }

  /** Under a clock that goes back the dominance can be lost: yesterday's peak stays, the mark restarts. */
  lemma ClockGoingBackCounterexample(cfg: Config)
    requires cfg.Valid() && cfg.initialBalance == 100.0
    ensures var feed := [Both(DAY_MS, DAY_MS, 200.0), Both(DAY_MS, DAY_MS, 100.0), Both(0, 0, 100.0)];
            var q := RunBoth(cfg, Fresh(cfg, DAY_MS, DAY_MS), feed);
            InStep(feed) && q.gate.highWater == 100.0 && q.daily.peak == 200.0
  {
    hide BreachLevel, RunBoth;
    ThreeUpdates(cfg, Fresh(cfg, DAY_MS, DAY_MS),
                 Both(DAY_MS, DAY_MS, 200.0), Both(DAY_MS, DAY_MS, 100.0), Both(0, 0, 100.0));
  }

  /**
   * Neither clock goes back, but the last update is read on two days: the gate has restarted its mark at 100 when
   * the risk daemon still falls from 104. It asks for FLATTEN, and the gate approves an intent.
   */
  lemma MidnightCounterexample() returns (cfg: Config, risk: RiskSpec.Config, feed: seq<Feed>, intent: Intent)
    ensures cfg.Valid() && cfg.enabled && cfg.dailySoft <= risk.dailySoftHaltPct < risk.dailyHardHaltPct
    ensures |feed| == 3 && Ordered(feed, 0, 0) && InStep(feed[..2])
    ensures feed[2].Both? && feed[2].gateNow == feed[2].riskNow + 1
    ensures var p := RunBoth(cfg, Fresh(cfg, 0, 0), feed);
            && p.daily.peak == 104.0 && p.gate.highWater == 100.0
            && RiskSpec.DailyTargets(risk, p.daily.peak, feed[2].value) == [RiskSpec.Flatten]
            && ApprovalOf(cfg, p.gate, feed[2].gateNow, feed[2].gateNow, intent) == Approved
  {
    cfg := Config(true, Phase1, 100.0, 3.0, 5.0, 7.0, 4.0, 6.0, 10.0, 1.0, 40.0, 300000, 1.0, 10.0, 1.0);
    risk := RiskSpec.Config(10.0, 8.0, 3.0, 5.0, 10.0, 10000, 30000);
    intent := Intent("X", [10.0], 0.0);
    var a, b, c := Both(0, 0, 104.0), Both(0, 0, 100.0), Both(DAY_MS, DAY_MS - 1, 100.0);
    feed := [a, b, c];
    ThreeUpdates(cfg, Fresh(cfg, 0, 0), a, b, c);
    hide RunBoth, ApprovalOf;
    var t := AfterEquity(cfg, AfterEquity(cfg, AfterEquity(cfg, Start(cfg, 0), 0, 104.0), 0, 100.0), DAY_MS, 100.0);
    AtHundred(cfg, t, intent, DAY_MS);
  }

  /** An untouched gate at its initial balance lets a small intent pass. */
  lemma AtHundred(cfg: Config, s: Gate, intent: Intent, now: int)
    requires cfg == Config(true, Phase1, 100.0, 3.0, 5.0, 7.0, 4.0, 6.0, 10.0, 1.0, 40.0, 300000, 1.0, 10.0, 1.0)
    requires s.equity == 100.0 && s.highWater == 100.0 && s.resetDay == Day(now) && !s.halted && s.positions == map[]
    requires intent == Intent("X", [10.0], 0.0)
    ensures ApprovalOf(cfg, s, now, now, intent) == Approved
  {
    var legs := intent.legNotionals;
    assert legs[..|legs| - 1] == [];
    assert Sum(legs) == 10.0;
    hide Sum;
    AcceptedExactly(cfg, s, intent, now);
  }

  // ---------------------------------------------------------------------
  // Soft halt implies rejection
  // ---------------------------------------------------------------------

  /** A drawdown from a peak is at least as large from a higher mark. */
  lemma DeeperFromHigherMark(equity: real, peak: real, mark: real, pct: real, lower: real)
    requires 0.0 < equity && 0.0 < peak <= mark && lower <= pct && 0.0 < pct
    requires RiskSpec.DrawdownPct(peak, equity) >= pct
    ensures DownBy(equity, mark, lower)
  {
    assert RiskSpec.DrawdownPct(peak, equity) == Percent(peak - equity, peak);
    PercentCompare(peak - equity, peak, pct);
    Deeper(equity, peak, mark, pct, lower);
  }

  lemma Deeper(equity: real, peak: real, mark: real, pct: real, lower: real)
    requires 0.0 < equity && 0.0 < peak <= mark && lower <= pct && 0.0 < pct
    requires pct * peak <= 100.0 * (peak - equity)
    ensures DownBy(equity, mark, lower)
  {
    var rest := 100.0 - pct;
    assert rest * peak >= 100.0 * equity;
    SameSign(rest, peak);
    SameSign(pct, peak);
    ScaleMonotone(peak, mark, rest);
    assert rest * mark == 100.0 * mark - pct * mark;
    ScaleMonotone(lower, pct, mark);
  }

  /** Operations that change neither the equity nor the day. */
  ghost predicate SameDay(ops: seq<Op>, day: int) {
    forall op :: op in ops ==> !op.Equity? && (Clock(op).Some? ==> Day(Clock(op).value) == day)
  }

  lemma {:induction false} MarksStay(cfg: Config, s: Gate, ops: seq<Op>)
    requires cfg.Valid() && SameDay(ops, s.resetDay)
    ensures var t := Run(cfg, s, ops); t.equity == s.equity && t.highWater == s.highWater && t.resetDay == s.resetDay
  {
    hide ApprovalOf;
    if ops != [] {
      assert ops[|ops| - 1] in ops;
      MarksStay(cfg, s, ops[..|ops| - 1]);
    }
  }

  /**
   * If an update takes the risk daemon to its daily soft halt, and that threshold is not below the gate's, an
   * enabled gate declines every intent until the equity or the day changes, whatever else happens, resets included.
   */
  lemma SoftHaltMeansRejection(cfg: Config, risk: RiskSpec.Config, gateStart: int, riskStart: int,
                               feed: seq<Feed>, ops: seq<Op>, now: int, checkNow: int, intent: Intent)
    requires cfg.Valid() && cfg.enabled && Ordered(feed, gateStart, riskStart) && InStep(feed)
    requires feed != [] && feed[|feed| - 1].Both?
    requires 0.0 < risk.dailySoftHaltPct < risk.dailyHardHaltPct && cfg.dailySoft <= risk.dailySoftHaltPct
    requires var p := RunBoth(cfg, Fresh(cfg, gateStart, riskStart), feed);
             && RiskSpec.DailyTargets(risk, p.daily.peak, feed[|feed| - 1].value) != []
             && SameDay(ops, p.gate.resetDay) && Day(now) == p.gate.resetDay
    ensures var p := RunBoth(cfg, Fresh(cfg, gateStart, riskStart), feed);
            ApprovalOf(cfg, Run(cfg, p.gate, ops), now, checkNow, intent).Declined?
  {
    hide Next, Related, RiskSpec.DrawdownPct;
    var p := RunBoth(cfg, Fresh(cfg, gateStart, riskStart), feed);
    var value := feed[|feed| - 1].value;
    HighWaterDominates(cfg, gateStart, riskStart, feed);
    EquityIsLast(cfg, Fresh(cfg, gateStart, riskStart), feed);
    DeeperFromHigherMark(value, p.daily.peak, p.gate.highWater, risk.dailySoftHaltPct, cfg.dailySoft);
    MarksStay(cfg, p.gate, ops);
    DrawdownDeclines(cfg, Run(cfg, p.gate, ops), now, checkNow, intent);
  }

  lemma EquityIsLast(cfg: Config, p: Pair, feed: seq<Feed>)
    requires cfg.Valid() && feed != [] && feed[|feed| - 1].Both?
    ensures RunBoth(cfg, p, feed).gate.equity == feed[|feed| - 1].value
  {
    hide BreachLevel;
  }

  lemma DrawdownDeclines(cfg: Config, s: Gate, now: int, checkNow: int, intent: Intent)
    requires cfg.Valid() && cfg.enabled && Day(now) == s.resetDay
    requires s.highWater > 0.0 && DownBy(s.equity, s.highWater, cfg.dailySoft)
    ensures ApprovalOf(cfg, s, now, checkNow, intent).Declined?
  {
    hide Percent, CheckPerTradeRisk, FundedChecks, CheckProfitDistribution;
    DailyDrawdownMeaning(s.equity, s.highWater, cfg);
  }
}
