/** What holds in every run of the compliance gate, for every configuration that loads. */
module ChallengeRuns {
  import opened RealSeq
  import opened ChallengeRules
  import opened ChallengeDaemon
  import opened Calendar

  /** Everything that can happen to the gate; approval is validate-then-track, as in its event loop. */
  datatype Op =
    | Equity(now: int, value: real)
    | Approve(now: int, checkNow: int, trackNow: int, intent: Intent)
    | Trade(now: int, pnl: real)
    | Close(symbol: string)
    | Confirm(now: int, symbol: string)
    | ConfirmPaired(now: int, later: int, primary: string, hedge: string)
    | Reset

  ghost function Step(cfg: Config, s: Gate, op: Op): Gate
    requires cfg.Valid()
  {
    match op
    case Equity(now, value) => AfterEquity(cfg, s, now, value)
    case Approve(now, checkNow, trackNow, intent) => AfterApproval(cfg, s, now, checkNow, trackNow, intent)
    case Trade(now, pnl) => AfterTrade(s, now, pnl)
    case Close(symbol) => s.(positions := s.positions - {symbol})
    case Confirm(now, symbol) => s.(positions := Confirmed(s.positions, symbol, now))
    case ConfirmPaired(now, later, p, h) => s.(positions := ConfirmedPair(s.positions, p, h, now, later))
    case Reset => s.(halted := false)
  }

  ghost function Run(cfg: Config, s: Gate, ops: seq<Op>): Gate
    requires cfg.Valid()
  {
    if ops == [] then s else Step(cfg, Run(cfg, s, ops[..|ops| - 1]), ops[|ops| - 1])
  }

  // ---------------------------------------------------------------------
  // Acceptance
  // ---------------------------------------------------------------------

  /** An enabled gate accepts an intent exactly under these conditions, stated without division. */
  ghost predicate Acceptable(cfg: Config, s: Gate, intent: Intent, now: int) {
    var n := Sum(intent.legNotionals);
    var p := cfg.profitDistributionMaxPct;
    && !s.halted
    && !DownBy(s.equity, s.highWater, cfg.dailySoft)
    && !DownBy(s.equity, cfg.initialBalance, cfg.overallSoft)
    && 0.0 < n * cfg.stopLossDefaultPct <= cfg.initialBalance * cfg.maxRiskPerTradePct
    && (intent.expectedProfit > 0.0 && cfg.mode != FundedMode ==>
          s.totalProfit + intent.expectedProfit <= 0.0
          || intent.expectedProfit * (100.0 - p) <= p * s.totalProfit)
    && (cfg.mode == FundedMode ==>
          && 100.0 * (TotalMargin(s.positions) + n) <= cfg.initialBalance * cfg.maxMarginExposurePct
          && TotalNotional(s.positions) + n <= s.equity * cfg.maxNotionalMultiplier)
    && !Overdue(s.positions, now)
  }

  lemma AcceptedExactly(cfg: Config, s: Gate, intent: Intent, now: int)
    requires cfg.Valid() && cfg.enabled
    ensures Verdict(cfg, s, intent, now) == None <==> Acceptable(cfg, s, intent, now)
  {
    hide Percent;
    DailyDrawdownMeaning(s.equity, s.highWater, cfg);
    OverallDrawdownMeaning(s.equity, cfg);
    if intent.expectedProfit > 0.0 && cfg.mode != FundedMode {
      WinAcceptedExactly(intent.expectedProfit, s.totalProfit, cfg);
    }
  }

  /** Which of the bands between the three percentages a drawdown of at least the soft one is in. */
  ghost function Band(equity: real, base: real, hard: real, breach: real): Level {
    if DownBy(equity, base, breach) then Breach else if DownBy(equity, base, hard) then Hard else Soft
  }

  ghost predicate DayIsDown(cfg: Config, s: Gate) {
    cfg.enabled && !s.halted && DownBy(s.equity, s.highWater, cfg.dailySoft)
  }

  /** Down overall, and not already on the day. */
  ghost predicate AllIsDown(cfg: Config, s: Gate) {
    && cfg.enabled && !s.halted && !DownBy(s.equity, s.highWater, cfg.dailySoft)
    && DownBy(s.equity, cfg.initialBalance, cfg.overallSoft)
  }

  /** No drawdown stands in the way. */
  ghost predicate Trading(cfg: Config, s: Gate) {
    cfg.enabled && !s.halted && !DayIsDown(cfg, s) && !AllIsDown(cfg, s)
  }

  /** An intent of this notional risks something, and not too much, at the default stop. */
  ghost predicate FitsRisk(cfg: Config, n: real) {
    0.0 < n * cfg.stopLossDefaultPct <= cfg.initialBalance * cfg.maxRiskPerTradePct
  }

  /** The win that an intent expects would be too large a part of all the profit after it. */
  ghost predicate Concentrated(cfg: Config, s: Gate, win: real) {
    var p := cfg.profitDistributionMaxPct;
    cfg.mode != FundedMode && win > 0.0 && s.totalProfit + win > 0.0 && win * (100.0 - p) > p * s.totalProfit
  }

  ghost predicate OverMargin(cfg: Config, s: Gate, n: real) {
    cfg.mode == FundedMode && 100.0 * (TotalMargin(s.positions) + n) > cfg.initialBalance * cfg.maxMarginExposurePct
  }

  ghost predicate OverNotional(cfg: Config, s: Gate, n: real) {
    cfg.mode == FundedMode && TotalNotional(s.positions) + n > s.equity * cfg.maxNotionalMultiplier
  }

  /**
   * The reason that is given, for every state and intent: the first rule in this order that is broken. The level
   * of a drawdown is its band.
   */
  lemma ReasonExactly(cfg: Config, s: Gate, intent: Intent, now: int)
    requires cfg.Valid()
    ensures var r := Verdict(cfg, s, intent, now);
            && (r == Some(ChallengeHalted) <==> s.halted)
            && (forall level :: r == Some(DailyDrawdown(level)) <==>
                 DayIsDown(cfg, s) && level == Band(s.equity, s.highWater, cfg.dailyHard, cfg.dailyBreach))
            && (forall level :: r == Some(OverallDrawdown(level)) <==>
                 AllIsDown(cfg, s) && level == Band(s.equity, cfg.initialBalance, cfg.overallHard, cfg.overallBreach))
    ensures var r, n := Verdict(cfg, s, intent, now), Sum(intent.legNotionals);
            && (r == Some(StopDistanceNotPositive) <==> Trading(cfg, s) && n * cfg.stopLossDefaultPct <= 0.0)
            && (r == Some(RiskTooLarge) <==>
                 Trading(cfg, s) && n * cfg.stopLossDefaultPct > 0.0 && !FitsRisk(cfg, n))
    ensures var r, n := Verdict(cfg, s, intent, now), Sum(intent.legNotionals);
            var sized := Trading(cfg, s) && FitsRisk(cfg, n);
            var spread := sized && !Concentrated(cfg, s, intent.expectedProfit);
            var funded := spread && !OverMargin(cfg, s, n) && !OverNotional(cfg, s, n);
            var overdue := exists k :: k in s.positions && !s.positions[k].hasStopLoss && s.positions[k].deadline < now;
            && (r == Some(ProfitTooConcentrated) <==> sized && Concentrated(cfg, s, intent.expectedProfit))
            && (r == Some(MarginExceeded) <==> spread && OverMargin(cfg, s, n))
            && (r == Some(NotionalExceeded) <==> spread && !OverMargin(cfg, s, n) && OverNotional(cfg, s, n))
            && (r == Some(StopLossOverdue) <==> funded && overdue)
            && (r == None <==> (!cfg.enabled && !s.halted) || (funded && !overdue))
  {
    var n := Sum(intent.legNotionals);
    var daily := CheckDailyDrawdown(s.equity, s.highWater, cfg);
    var overall := CheckOverallDrawdown(s.equity, cfg.initialBalance, cfg);
    LevelIsBand(cfg, s);
    RiskReason(cfg, n);
    ProfitReason(cfg, s, intent.expectedProfit);
    FundedReason(cfg, s, n);
    var r := if s.halted then Some(ChallengeHalted)
             else if !cfg.enabled then None
             else if daily != Normal then Some(DailyDrawdown(daily))
             else if overall != Normal then Some(OverallDrawdown(overall))
             else if n * cfg.stopLossDefaultPct <= 0.0 then Some(StopDistanceNotPositive)
             else if !FitsRisk(cfg, n) then Some(RiskTooLarge)
             else if Concentrated(cfg, s, intent.expectedProfit) then Some(ProfitTooConcentrated)
             else if OverMargin(cfg, s, n) then Some(MarginExceeded)
             else if OverNotional(cfg, s, n) then Some(NotionalExceeded)
             else if Overdue(s.positions, now) then Some(StopLossOverdue)
             else None;
    hide CheckProfitDistribution, CheckPerTradeRisk, FundedChecks, CheckDailyDrawdown, CheckOverallDrawdown, Sum,
         Concentrated, FitsRisk, OverMargin, OverNotional, DownBy;
    assert Verdict(cfg, s, intent, now) == r;
    hide Verdict;
  }

  lemma LevelIsBand(cfg: Config, s: Gate)
    requires cfg.Valid()
    ensures CheckDailyDrawdown(s.equity, s.highWater, cfg) ==
              if DownBy(s.equity, s.highWater, cfg.dailySoft)
              then Band(s.equity, s.highWater, cfg.dailyHard, cfg.dailyBreach) else Normal
    ensures CheckOverallDrawdown(s.equity, cfg.initialBalance, cfg) ==
              if DownBy(s.equity, cfg.initialBalance, cfg.overallSoft)
              then Band(s.equity, cfg.initialBalance, cfg.overallHard, cfg.overallBreach) else Normal
  {
    hide DownBy, CheckDailyDrawdown, CheckOverallDrawdown;
    DailyDrawdownMeaning(s.equity, s.highWater, cfg);
    OverallDrawdownMeaning(s.equity, cfg);
  }

  lemma RiskReason(cfg: Config, n: real)
    ensures n * cfg.stopLossDefaultPct <= 0.0 ==> !FitsRisk(cfg, n)
    ensures CheckPerTradeRisk(n * cfg.stopLossDefaultPct / 100.0, 1.0, cfg.initialBalance, cfg) ==
              if n * cfg.stopLossDefaultPct <= 0.0 then Some(StopDistanceNotPositive)
              else if FitsRisk(cfg, n) then None
              else Some(RiskTooLarge)
  {
  }

  lemma ProfitReason(cfg: Config, s: Gate, win: real)
    ensures (if win > 0.0 then CheckProfitDistribution(win, s.totalProfit, cfg) else None) ==
              if Concentrated(cfg, s, win) then Some(ProfitTooConcentrated) else None
  {
    hide Percent;
    if win > 0.0 && cfg.mode != FundedMode {
      WinAcceptedExactly(win, s.totalProfit, cfg);
    }
  }

  lemma FundedReason(cfg: Config, s: Gate, n: real)
    ensures FundedChecks(cfg, s, TotalMargin(s.positions), TotalNotional(s.positions), n) ==
              if OverMargin(cfg, s, n) then Some(MarginExceeded)
              else if OverNotional(cfg, s, n) then Some(NotionalExceeded)
              else None
  {
    hide TotalMargin, TotalNotional;
  }

  /** The division by the number of legs fails exactly on an intent without legs, past a disabled gate. */
  lemma DivisionByZeroExactly(cfg: Config, s: Gate, intent: Intent, now: int, checkNow: int)
    requires cfg.Valid()
    ensures ApprovalOf(cfg, s, now, checkNow, intent) == DivisionByZero
       <==> intent.legNotionals == [] && !cfg.enabled && !s.halted
  {
    if intent.legNotionals == [] {
      assert Sum(intent.legNotionals) * cfg.stopLossDefaultPct / 100.0 == 0.0;
    }
  }

  // ---------------------------------------------------------------------
  // Funded mode: exposure
  // ---------------------------------------------------------------------

  /** Positions carry positive exposure, and their margins fit under the cap. */
  ghost predicate Covered(cfg: Config, s: Gate) {
    && (forall k :: k in s.positions ==> s.positions[k].margin > 0.0 && s.positions[k].notional > 0.0)
    && (s.positions == map[] || TotalMargin(s.positions) <= MarginCap(cfg))
  }

  /** In every reachable state the margin in use is within the cap (no position may have been opened at all). */
  lemma {:induction false} MarginNeverExceedsCap(cfg: Config, now: int, ops: seq<Op>)
    requires cfg.Valid() && cfg.enabled && cfg.mode == FundedMode && cfg.stopLossDefaultPct > 0.0
    ensures Covered(cfg, Run(cfg, Start(cfg, now), ops))
  {
    if ops != [] {
      MarginNeverExceedsCap(cfg, now, ops[..|ops| - 1]);
      CoveredStep(cfg, Run(cfg, Start(cfg, now), ops[..|ops| - 1]), ops[|ops| - 1]);
    }
  }

  lemma CoveredStep(cfg: Config, s: Gate, op: Op)
    requires cfg.Valid() && cfg.enabled && cfg.mode == FundedMode && cfg.stopLossDefaultPct > 0.0
    requires Covered(cfg, s)
    ensures Covered(cfg, Step(cfg, s, op))
  {
    hide Verdict, BreachLevel, Covered;
    match op
    case Approve(now, checkNow, trackNow, intent) => ApprovalStaysWithinCaps(cfg, s, now, checkNow, trackNow, intent);
    case Close(symbol) => CloseKeepsCover(cfg, s, symbol);
    case Confirm(now, symbol) => ConfirmKeepsCover(cfg, s, symbol, now);
    case ConfirmPaired(now, later, p, h) =>
      ConfirmKeepsCover(cfg, s, p, now);
      ConfirmKeepsCover(cfg, s.(positions := Confirmed(s.positions, p, now)), h, later);
    case _ => SamePositions(cfg, s, Step(cfg, s, op));
  }

  lemma SamePositions(cfg: Config, s: Gate, t: Gate)
    requires Covered(cfg, s) && t.positions == s.positions
    ensures Covered(cfg, t)
  {
  }

  lemma ConfirmKeepsCover(cfg: Config, s: Gate, symbol: string, now: int)
    requires Covered(cfg, s)
    ensures Covered(cfg, s.(positions := Confirmed(s.positions, symbol, now)))
  {
    assert Margins(Confirmed(s.positions, symbol, now)) == Margins(s.positions);
  }

  lemma CloseKeepsCover(cfg: Config, s: Gate, symbol: string)
    requires Covered(cfg, s)
    ensures Covered(cfg, s.(positions := s.positions - {symbol}))
  {
    var after := s.positions - {symbol};
    if symbol in s.positions {
      MapSumRemove(Margins(s.positions), symbol);
      assert Margins(s.positions) - {symbol} == Margins(after);
    } else {
      assert after == s.positions;
    }
  }

  /**
   * An approval is refused or keeps both caps: the margin cap as an invariant, and the notional cap right
   * after the approval. The number of legs that the notional is divided by is never zero.
   */
  lemma ApprovalStaysWithinCaps(cfg: Config, s: Gate, now: int, checkNow: int, trackNow: int, intent: Intent)
    requires cfg.Valid() && cfg.enabled && cfg.mode == FundedMode && cfg.stopLossDefaultPct > 0.0
    requires Covered(cfg, s)
    ensures ApprovalOf(cfg, s, now, checkNow, intent) != DivisionByZero
    ensures Covered(cfg, AfterApproval(cfg, s, now, checkNow, trackNow, intent))
    ensures ApprovalOf(cfg, s, now, checkNow, intent) == Approved ==>
              var t := AfterApproval(cfg, s, now, checkNow, trackNow, intent);
              t.positions != map[] && TotalNotional(t.positions) <= NotionalCap(cfg, t.equity)
  {
    hide Verdict, TotalMargin, TotalNotional, MarginCap, NotionalCap;
    DivisionByZeroExactly(cfg, s, intent, now, checkNow);
    if ApprovalOf(cfg, s, now, checkNow, intent) == Approved {
      var n := Sum(intent.legNotionals);
      ApprovedWithinCaps(cfg, s, intent, now, checkNow);
      PerLegShare(n, |intent.legNotionals|);
      TrackingAddsAtMost(s.positions, intent.symbol, Opened(cfg, trackNow, n, n / |intent.legNotionals| as real));
      assert intent.symbol in AfterApproval(cfg, s, now, checkNow, trackNow, intent).positions;
    }
  }

  /**
   * The tracked exposure is not the approved one: an approval adds its whole notional to what is tracked if and
   * only if the symbol was not tracked yet. Otherwise it replaces the entry, and its stop-loss deadline restarts.
   */
  lemma ApprovalAddsExactly(cfg: Config, s: Gate, now: int, checkNow: int, trackNow: int, intent: Intent)
    requires cfg.Valid() && ApprovalOf(cfg, s, now, checkNow, intent) == Approved
    requires forall k :: k in s.positions ==> s.positions[k].notional > 0.0
    ensures var t := AfterApproval(cfg, s, now, checkNow, trackNow, intent);
            && (TotalNotional(t.positions) == TotalNotional(s.positions) + Sum(intent.legNotionals)
                <==> intent.symbol !in s.positions)
            && t.positions[intent.symbol].deadline == trackNow + cfg.stopLossDeadlineMs
            && !t.positions[intent.symbol].hasStopLoss
  {
    hide Validate, Sum;
    var n := Sum(intent.legNotionals);
    var t := AfterApproval(cfg, s, now, checkNow, trackNow, intent);
    assert Notionals(t.positions) == Notionals(s.positions)[intent.symbol := n];
    MapSumSet(Notionals(s.positions), intent.symbol, n);
  }

  /** What one operation approves. */
  ghost function ApprovedBy(cfg: Config, s: Gate, op: Op): real
    requires cfg.Valid()
  {
    if op.Approve? && ApprovalOf(cfg, s, op.now, op.checkNow, op.intent) == Approved then Sum(op.intent.legNotionals)
    else 0.0
  }

  /** Everything that a run has approved. */
  ghost function ApprovedTotal(cfg: Config, s: Gate, ops: seq<Op>): real
    requires cfg.Valid()
  {
    if ops == [] then 0.0 else
      var n := |ops| - 1;
      ApprovedTotal(cfg, s, ops[..n]) + ApprovedBy(cfg, Run(cfg, s, ops[..n]), ops[n])
  }

  /** Operation i approves an intent on a symbol that is tracked already. */
  ghost predicate ReplacesAt(cfg: Config, s: Gate, ops: seq<Op>, i: nat)
    requires cfg.Valid()
  {
    && i < |ops| && ops[i].Approve? && ops[i].intent.symbol in Run(cfg, s, ops[..i]).positions
    && ApprovalOf(cfg, Run(cfg, s, ops[..i]), ops[i].now, ops[i].checkNow, ops[i].intent) == Approved
  }

  ghost predicate NeverReplaces(cfg: Config, s: Gate, ops: seq<Op>)
    requires cfg.Valid()
  {
    forall i: nat :: !ReplacesAt(cfg, s, ops, i)
  }

  ghost predicate AllPositive(p: map<string, Position>) { forall k :: k in p ==> p[k].notional > 0.0 }

  /** As long as nothing is closed, what is tracked is what was approved if and only if nothing was replaced. */
  lemma {:induction false} TrackedIsApprovedExactly(cfg: Config, s: Gate, ops: seq<Op>)
    requires cfg.Valid() && cfg.enabled && cfg.stopLossDefaultPct > 0.0
    requires s.positions == map[] && forall i :: 0 <= i < |ops| ==> !ops[i].Close?
    ensures var tracked := TotalNotional(Run(cfg, s, ops).positions);
            if NeverReplaces(cfg, s, ops) then tracked == ApprovedTotal(cfg, s, ops)
            else tracked < ApprovedTotal(cfg, s, ops)
    ensures AllPositive(Run(cfg, s, ops).positions)
  {
    if ops == [] {
      assert Notionals(s.positions) == map[];
    } else {
      var n := |ops| - 1;
      assert Run(cfg, s, ops) == Step(cfg, Run(cfg, s, ops[..n]), ops[n]);
      hide Step, Run, ApprovalOf, TotalNotional, AllPositive, ApprovedBy, NeverReplaces;
      TrackedIsApprovedExactly(cfg, s, ops[..n]);
      TrackedStep(cfg, Run(cfg, s, ops[..n]), ops[n]);
      NeverReplacesStep(cfg, s, ops);
    }
  }

  lemma NeverReplacesStep(cfg: Config, s: Gate, ops: seq<Op>)
    requires cfg.Valid() && ops != []
    ensures var n := |ops| - 1;
            NeverReplaces(cfg, s, ops) <==> NeverReplaces(cfg, s, ops[..n]) && !ReplacesAt(cfg, s, ops, n)
  {
    hide Run, ApprovalOf;
    var n := |ops| - 1;
    forall i: nat ensures ReplacesAt(cfg, s, ops, i) <==>
                            ReplacesAt(cfg, s, ops[..n], i) || (i == n && ReplacesAt(cfg, s, ops, n))
    {
      if i < n {
        assert ops[..n][..i] == ops[..i];
      }
    }
  }

  lemma TrackedStep(cfg: Config, s: Gate, op: Op)
    requires cfg.Valid() && cfg.enabled && cfg.stopLossDefaultPct > 0.0
    requires AllPositive(s.positions) && !op.Close?
    ensures var t := Step(cfg, s, op);
            && AllPositive(t.positions)
            && var grown := TotalNotional(s.positions) + ApprovedBy(cfg, s, op);
               if op.Approve? && ApprovalOf(cfg, s, op.now, op.checkNow, op.intent) == Approved
                  && op.intent.symbol in s.positions
               then TotalNotional(t.positions) < grown
               else TotalNotional(t.positions) == grown
  {
    hide BreachLevel, ApprovalOf, TotalNotional;
    var t := Step(cfg, s, op);
    if op.Approve? {
      if ApprovalOf(cfg, s, op.now, op.checkNow, op.intent) == Approved {
        ApprovedIsPositive(cfg, s, op.intent, op.now, op.checkNow);
        Replaced(s.positions, op.intent.symbol, t.positions[op.intent.symbol]);
      }
    } else {
      SameNotionals(s.positions, t.positions);
    }
  }

  lemma ApprovedIsPositive(cfg: Config, s: Gate, intent: Intent, now: int, checkNow: int)
    requires cfg.Valid() && cfg.enabled && cfg.stopLossDefaultPct > 0.0
    requires ApprovalOf(cfg, s, now, checkNow, intent) == Approved
    ensures Sum(intent.legNotionals) > 0.0
  {
    hide Sum, CheckDailyDrawdown, CheckOverallDrawdown, FundedChecks;
    PositiveNotional(Sum(intent.legNotionals), cfg.stopLossDefaultPct);
  }

  lemma Replaced(p: map<string, Position>, symbol: string, pos: Position)
    requires AllPositive(p)
    ensures var sum := TotalNotional(p) + pos.notional;
            if symbol in p then TotalNotional(p[symbol := pos]) < sum else TotalNotional(p[symbol := pos]) == sum
  {
    assert Notionals(p[symbol := pos]) == Notionals(p)[symbol := pos.notional];
    MapSumSet(Notionals(p), symbol, pos.notional);
  }

  lemma SameNotionals(p: map<string, Position>, q: map<string, Position>)
    requires q.Keys == p.Keys && forall k :: k in p ==> q[k].notional == p[k].notional
    ensures TotalNotional(q) == TotalNotional(p)
  {
    assert Notionals(q) == Notionals(p);
  }

  /** An intent that is approved again, at the same readings, leaves no trace the second time. */
  lemma SecondApproval(cfg: Config, s: Gate, now: int, checkNow: int, trackNow: int, intent: Intent)
    requires cfg.Valid() && ApprovalOf(cfg, s, now, checkNow, intent) == Approved
    requires ApprovalOf(cfg, AfterApproval(cfg, s, now, checkNow, trackNow, intent), now, checkNow, intent) == Approved
    ensures var t := AfterApproval(cfg, s, now, checkNow, trackNow, intent);
            AfterApproval(cfg, t, now, checkNow, trackNow, intent) == t
  {
    hide ApprovalOf, Sum;
  }

  /** So it is approved any number of times, each for its whole notional, and tracked once. */
  lemma {:induction false} RepeatedApprovals(cfg: Config, s: Gate, op: Op, k: nat)
    requires cfg.Valid() && op.Approve? && ApprovalOf(cfg, s, op.now, op.checkNow, op.intent) == Approved
    requires ApprovalOf(cfg, Step(cfg, s, op), op.now, op.checkNow, op.intent) == Approved
    ensures Run(cfg, s, Again(k + 1, op)) == Step(cfg, s, op)
    ensures ApprovedTotal(cfg, s, Again(k + 1, op)) == (k + 1) as real * Sum(op.intent.legNotionals)
  {
    hide ApprovalOf, Sum;
    var n := Sum(op.intent.legNotionals);
    assert Again(k + 1, op)[..k] == Again(k, op);
    if k == 0 {
      assert Again(0, op) == [];
    } else {
      RepeatedApprovals(cfg, s, op, k - 1);
      SecondApproval(cfg, s, op.now, op.checkNow, op.trackNow, op.intent);
      assert (k + 1) as real * n == k as real * n + n;
    }
  }

  function Again(k: nat, op: Op): (r: seq<Op>)
    ensures |r| == k && forall i :: 0 <= i < k ==> r[i] == op
  {
    seq(k, _ => op)
  }

  /**
   * A funded gate approves two legs of 10 as often as it is asked, 20 each time. The cap on the notional is 100,
   * the one on the margin 50, and 20 and 10 are tracked.
   */
  lemma ApprovedBeyondCaps(k: nat) returns (cfg: Config, ops: seq<Op>)
    requires k >= 1
    ensures cfg.Valid() && cfg.enabled && cfg.mode == FundedMode && cfg.stopLossDefaultPct > 0.0 && |ops| == k
    ensures var t := Run(cfg, Start(cfg, 0), ops);
            && ApprovedTotal(cfg, Start(cfg, 0), ops) == 20.0 * k as real
            && NotionalCap(cfg, t.equity) == 100.0 && MarginCap(cfg) == 50.0
            && TotalNotional(t.positions) == 20.0 && TotalMargin(t.positions) == 10.0
  {
    cfg := Config(true, FundedMode, 100.0, 3.0, 5.0, 7.0, 4.0, 6.0, 10.0, 1.0, 40.0, 300000, 1.0, 50.0, 1.0);
    var legs := [10.0, 10.0];
    var op := Approve(0, 0, 0, Intent("X", legs, 0.0));
    ops := Again(k, op);
    TwoTens(legs);
    var s := Start(cfg, 0);
    NoExposure(s.positions);
    FundedAccepts(cfg, s, op.intent);
    var t := Step(cfg, s, op);
    assert t == s.(positions := map["X" := Opened(cfg, 0, 20.0, 10.0)]) by { hide ApprovalOf, Sum; }
    OneExposure("X", t.positions["X"]);
    FundedAccepts(cfg, t, op.intent);
    hide Sum, ApprovalOf, Step, TotalMargin, TotalNotional;
    RepeatedApprovals(cfg, s, op, k - 1);
  }

  lemma TwoTens(legs: seq<real>)
    requires legs == [10.0, 10.0]
    ensures Sum(legs) == 20.0
  {
    assert legs[..2] == legs && legs[..1] == [10.0] && legs[..0] == [];
    SumStep(legs, 0);
    SumStep(legs, 1);
  }

  lemma FundedAccepts(cfg: Config, s: Gate, intent: Intent)
    requires cfg == Config(true, FundedMode, 100.0, 3.0, 5.0, 7.0, 4.0, 6.0, 10.0, 1.0, 40.0, 300000, 1.0, 50.0, 1.0)
    requires s == Start(cfg, 0).(positions := s.positions)
    requires Sum(intent.legNotionals) == 20.0 && |intent.legNotionals| == 2 && intent.expectedProfit == 0.0
    requires TotalMargin(s.positions) <= 30.0 && TotalNotional(s.positions) <= 80.0 && !Overdue(s.positions, 0)
    ensures ApprovalOf(cfg, s, 0, 0, intent) == Approved
  {
    hide Sum, TotalMargin, TotalNotional, Overdue;
    AcceptedExactly(cfg, s, intent, 0);
  }

  lemma NoExposure(p: map<string, Position>)
    requires p == map[]
    ensures TotalMargin(p) == 0.0 && TotalNotional(p) == 0.0
  {
    assert Margins(p) == map[] && Notionals(p) == map[];
  }

  lemma OneExposure(symbol: string, pos: Position)
    ensures TotalMargin(map[symbol := pos]) == pos.margin && TotalNotional(map[symbol := pos]) == pos.notional
  {
    NoExposure(map[]);
    var p: map<string, Position> := map[];
    assert map[symbol := pos] == p[symbol := pos];
    assert Margins(p[symbol := pos]) == Margins(p)[symbol := pos.margin];
    assert Notionals(p[symbol := pos]) == Notionals(p)[symbol := pos.notional];
    MapSumSet(Margins(p), symbol, pos.margin);
    MapSumSet(Notionals(p), symbol, pos.notional);
  }

  lemma ApprovedWithinCaps(cfg: Config, s: Gate, intent: Intent, now: int, checkNow: int)
    requires cfg.Valid() && cfg.enabled && cfg.mode == FundedMode && cfg.stopLossDefaultPct > 0.0
    requires Validate(cfg, s, intent, now, checkNow) == None
    ensures var n := Sum(intent.legNotionals);
            && n > 0.0
            && TotalMargin(s.positions) + n <= MarginCap(cfg)
            && TotalNotional(s.positions) + n <= NotionalCap(cfg, s.equity)
  {
    hide TotalMargin, TotalNotional, MarginCap, NotionalCap, CheckDailyDrawdown, CheckOverallDrawdown, Sum;
    PositiveNotional(Sum(intent.legNotionals), cfg.stopLossDefaultPct);
  }

  /** Tracking replaces what the symbol had, so the totals grow by at most the new exposure. */
  lemma TrackingAddsAtMost(p: map<string, Position>, symbol: string, pos: Position)
    requires forall k :: k in p ==> p[k].margin > 0.0 && p[k].notional > 0.0
    ensures TotalMargin(p[symbol := pos]) <= TotalMargin(p) + pos.margin
    ensures TotalNotional(p[symbol := pos]) <= TotalNotional(p) + pos.notional
  {
    var after := p[symbol := pos];
    assert Margins(after) == Margins(p)[symbol := pos.margin];
    assert Notionals(after) == Notionals(p)[symbol := pos.notional];
    MapSumSet(Margins(p), symbol, pos.margin);
    MapSumSet(Notionals(p), symbol, pos.notional);
  }

  lemma PositiveNotional(n: real, pct: real)
    requires pct > 0.0
    ensures n * pct / 100.0 > 0.0 <==> n > 0.0
  {
    SameSign(n, pct);
  }

  lemma PerLegShare(n: real, legs: nat)
    requires n > 0.0 && legs > 0
    ensures 0.0 < n / legs as real <= n
  {
    var share := n / legs as real;
    assert share * legs as real == n;
    SameSign(share, legs as real);
    if legs > 1 {
      ScaleMonotone(1.0, legs as real, share);
    }
  }

  // ---------------------------------------------------------------------
  // Halting
  // ---------------------------------------------------------------------

  /** The equity is a breach below the mark, or below the initial balance. */
  ghost predicate Breached(cfg: Config, s: Gate) {
    DownBy(s.equity, s.highWater, cfg.dailyBreach) || DownBy(s.equity, cfg.initialBalance, cfg.overallBreach)
  }

  /** Operation i is an equity update after which the gate is breached. */
  ghost predicate BreachAt(cfg: Config, s: Gate, ops: seq<Op>, i: nat)
    requires cfg.Valid() && i < |ops|
  {
    ops[i].Equity? && Breached(cfg, Run(cfg, s, ops[..i + 1]))
  }

  ghost predicate BreachSinceReset(cfg: Config, s: Gate, ops: seq<Op>)
    requires cfg.Valid()
  {
    exists i :: 0 <= i < |ops| && BreachAt(cfg, s, ops, i) && forall j :: i < j < |ops| ==> !ops[j].Reset?
  }

  /** One more operation: a reset forgets, a breaching update is remembered. */
  lemma BreachSinceResetStep(cfg: Config, s: Gate, ops: seq<Op>, op: Op)
    requires cfg.Valid()
    ensures BreachSinceReset(cfg, s, ops + [op]) <==>
              !op.Reset? && (BreachSinceReset(cfg, s, ops) || BreachAt(cfg, s, ops + [op], |ops|))
  {
    hide Breached, Run;
    var all := ops + [op];
    forall i | 0 <= i < |ops| ensures BreachAt(cfg, s, all, i) == BreachAt(cfg, s, ops, i) {
      assert all[..i + 1] == ops[..i + 1];
    }
    if BreachSinceReset(cfg, s, ops) && !op.Reset? {
      var i :| 0 <= i < |ops| && BreachAt(cfg, s, ops, i) && forall j :: i < j < |ops| ==> !ops[j].Reset?;
      assert BreachAt(cfg, s, all, i);
    }
    if BreachSinceReset(cfg, s, all) {
      var i :| 0 <= i < |all| && BreachAt(cfg, s, all, i) && forall j :: i < j < |all| ==> !all[j].Reset?;
      assert all[|ops|] == op;
      if i < |ops| {
        assert forall j :: i < j < |ops| ==> ops[j] == all[j];
      }
    }
  }

  /** The gate is halted exactly when some equity update since the last reset was a breach. */
  lemma {:induction false} HaltedExactly(cfg: Config, s: Gate, ops: seq<Op>)
    requires cfg.Valid() && !s.halted
    ensures Run(cfg, s, ops).halted <==> BreachSinceReset(cfg, s, ops)
  {
    if ops != [] {
      hide Breached, Step, BreachSinceReset;
      var n := |ops| - 1;
      HaltedExactly(cfg, s, ops[..n]);
      HaltedStep(cfg, Run(cfg, s, ops[..n]), ops[n]);
      BreachSinceResetStep(cfg, s, ops[..n], ops[n]);
      assert ops[..n] + [ops[n]] == ops == ops[..n + 1];
    }
  }

  lemma HaltedStep(cfg: Config, s: Gate, op: Op)
    requires cfg.Valid()
    ensures Step(cfg, s, op).halted <==>
              !op.Reset? && (s.halted || (op.Equity? && Breached(cfg, Step(cfg, s, op))))
  {
    hide DownBy, CheckDailyDrawdown, CheckOverallDrawdown;
    var t := Step(cfg, s, op);
    DailyDrawdownMeaning(t.equity, t.highWater, cfg);
    OverallDrawdownMeaning(t.equity, cfg);
  }

  /** A halted gate rejects every intent, also when disabled, at any equity and on any day. */
  lemma HaltedRejectsEverything(cfg: Config, s: Gate, ops: seq<Op>, now: int, checkNow: int, intent: Intent)
    requires cfg.Valid() && !s.halted && BreachSinceReset(cfg, s, ops)
    ensures ApprovalOf(cfg, Run(cfg, s, ops), now, checkNow, intent) == Declined(ChallengeHalted)
  {
    HaltedExactly(cfg, s, ops);
  }

  function Severity(level: Level): nat {
    match level
    case Normal => 0
    case Soft => 1
    case Hard => 2
    case Breach => 3
  }

  /** The mark that an equity update is judged against. */
  function MarkFor(s: Gate, now: int, value: real): real {
    Max(if Day(now) == s.resetDay then s.highWater else s.equity, value)
  }

  /**
   * An equity update is meant to report the more severe of the day's level and the overall one. It does, except
   * exactly when equity is down by the day's soft percentage but not its hard one, and overall by the hard
   * percentage but not by a breach.
   */
  lemma ReportedIsMostSevereExactly(cfg: Config, s: Gate, now: int, value: real)
    requires cfg.Valid()
    ensures var t := AfterEquity(cfg, s, now, value);
            var mark, base := MarkFor(s, now, value), cfg.initialBalance;
            var daily, overall := CheckDailyDrawdown(value, t.highWater, cfg), CheckOverallDrawdown(value, base, cfg);
            t.highWater == mark
            && (Severity(Reported(daily, overall)) == Severity(Worse(daily, overall)) <==>
                 !(&& DownBy(value, mark, cfg.dailySoft) && !DownBy(value, mark, cfg.dailyHard)
                   && DownBy(value, base, cfg.overallHard) && !DownBy(value, base, cfg.overallBreach)))
  {
    hide CheckDailyDrawdown, CheckOverallDrawdown, DownBy, BreachLevel;
    var mark := MarkFor(s, now, value);
    DailyDrawdownMeaning(value, mark, cfg);
    OverallDrawdownMeaning(value, cfg);
  }

  function Worse(a: Level, b: Level): Level { if Severity(a) >= Severity(b) then a else b }

  /** That case is reached: down to 97 on one day, and to 93.5 on the next. */
  lemma LessSevereReported() returns (cfg: Config, ops: seq<Op>)
    ensures cfg.Valid() && |ops| == 2 && ops[1].Equity?
    ensures var t := Run(cfg, Start(cfg, 0), ops);
            && CheckDailyDrawdown(t.equity, t.highWater, cfg) == Soft
            && CheckOverallDrawdown(t.equity, cfg.initialBalance, cfg) == Hard
            && Reported(CheckDailyDrawdown(t.equity, t.highWater, cfg),
                        CheckOverallDrawdown(t.equity, cfg.initialBalance, cfg)) == Soft
  {
    cfg := Config(true, Phase1, 100.0, 3.0, 5.0, 7.0, 4.0, 6.0, 10.0, 1.0, 40.0, 300000, 1.0, 10.0, 1.0);
    var a, b := Equity(0, 97.0), Equity(DAY_MS, 93.5);
    ops := [a, b];
    assert ops[..|ops| - 1] == [a] && [a][..|[a]| - 1] == [];
    var s := Start(cfg, 0);
    var t := AfterEquity(cfg, AfterEquity(cfg, s, 0, 97.0), DAY_MS, 93.5);
    assert Run(cfg, s, [a]) == Step(cfg, Run(cfg, s, []), a);
    assert Run(cfg, s, ops) == Step(cfg, Run(cfg, s, [a]), b) == t;
    hide CheckDailyDrawdown, CheckOverallDrawdown;
    assert t.highWater == 97.0 && t.equity == 93.5;
    DailyDrawdownMeaning(93.5, 97.0, cfg);
    OverallDrawdownMeaning(93.5, cfg);
  }

  // ---------------------------------------------------------------------
  // The high-water mark
  // ---------------------------------------------------------------------

  /** The clock reading that an operation rolls the day with. */
  function Clock(op: Op): Option<int> {
    match op
    case Equity(now, _) => Some(now)
    case Approve(now, _, _, _) => Some(now)
    case Trade(now, _) => Some(now)
    case _ => None
  }

  /** The first operation starts the day, or the gate was created on it and its mark is its equity. */
  ghost predicate StartsDay(s: Gate, ops: seq<Op>, day: int) {
    if s.resetDay == day then s.highWater == s.equity else ops != [] && Clock(ops[0]).Some?
  }

  /** The mark is the largest of the equity that the day started from and the equities reported on it. */
  ghost predicate IsDayMaximum(ops: seq<Op>, started: real, highWater: real) {
    && highWater >= started
    && (forall op :: op in ops && op.Equity? ==> highWater >= op.value)
    && (highWater == started || exists op :: op in ops && op.Equity? && op.value == highWater)
  }

  lemma DayMaximumStep(ops: seq<Op>, op: Op, started: real, highWater: real)
    requires IsDayMaximum(ops, started, highWater)
    ensures IsDayMaximum(ops + [op], started, if op.Equity? then Max(highWater, op.value) else highWater)
  {
    assert op in ops + [op];
    assert forall o :: o in ops + [op] <==> o in ops || o == op;
  }

  /** On the same day an operation only raises the mark, to a reported equity; it starts a new day at its equity. */
  lemma HighWaterStep(cfg: Config, s: Gate, op: Op)
    requires cfg.Valid()
    ensures var t := Step(cfg, s, op);
            var restarts := Clock(op).Some? && Day(Clock(op).value) != s.resetDay;
            var mark := if restarts then s.equity else s.highWater;
            && t.highWater == (if op.Equity? then Max(mark, op.value) else mark)
            && t.equity == (if op.Equity? then op.value else s.equity)
            && t.resetDay == if restarts then Day(Clock(op).value) else s.resetDay
  {
    hide BreachLevel, ApprovalOf;
  }

  /** No operation reads the clock on another day. */
  ghost predicate OnDay(ops: seq<Op>, day: int) {
    forall i :: 0 <= i < |ops| && Clock(ops[i]).Some? ==> Day(Clock(ops[i]).value) == day
  }

  lemma WithoutLast(s: Gate, ops: seq<Op>, day: int)
    requires ops != [] && OnDay(ops, day) && StartsDay(s, ops, day)
    ensures var n := |ops| - 1;
            && OnDay(ops[..n], day) && (n > 0 ==> StartsDay(s, ops[..n], day))
            && (Clock(ops[n]).Some? ==> Day(Clock(ops[n]).value) == day)
            && ops[..n] + [ops[n]] == ops
  {
  }

  /** As long as no operation reads another day's clock, the high-water mark is the day's maximum. */
  lemma {:induction false} HighWaterIsDayMaximum(cfg: Config, s: Gate, ops: seq<Op>, day: int)
    requires cfg.Valid() && StartsDay(s, ops, day) && OnDay(ops, day)
    ensures var t := Run(cfg, s, ops);
            && t.resetDay == day
            && IsDayMaximum(ops, s.equity, t.highWater) && t.highWater >= t.equity
  {
    if ops == [] {
      StartedFrom(s.equity);
    } else {
      hide Step, IsDayMaximum, Clock, Day, OnDay;
      var n := |ops| - 1;
      WithoutLast(s, ops, day);
      HighWaterStep(cfg, Run(cfg, s, ops[..n]), ops[n]);
      if n == 0 {
        StartedFrom(s.equity);
        DayMaximumStep(ops[..0], ops[n], s.equity, s.equity);
      } else {
        HighWaterIsDayMaximum(cfg, s, ops[..n], day);
        DayMaximumStep(ops[..n], ops[n], s.equity, Run(cfg, s, ops[..n]).highWater);
      }
    }
  }

  lemma StartedFrom(started: real)
    ensures IsDayMaximum([], started, started)
  {
  }

  // ---------------------------------------------------------------------
  // The stop-loss deadline
  // ---------------------------------------------------------------------

  /** An operation that can settle the symbol's missing stop-loss. */
  predicate Settles(op: Op, symbol: string) {
    match op
    case Close(s) => s == symbol
    case Confirm(_, s) => s == symbol
    case ConfirmPaired(_, _, p, h) => p == symbol || h == symbol
    case _ => false
  }

  /** A confirmed or closed symbol no longer blocks anything, and a confirmed one stays tracked as it was. */
  lemma SettledDoesNotBlock(cfg: Config, s: Gate, op: Op, symbol: string, later: int)
    requires cfg.Valid() && Settles(op, symbol)
    ensures var t := Step(cfg, s, op).positions;
            && !(symbol in t && IsOverdue(t[symbol], later))
            && (!op.Close? && symbol in s.positions ==>
                  symbol in t && t[symbol].hasStopLoss && t[symbol].stopLossSet.Some?
                  && t[symbol].notional == s.positions[symbol].notional
                  && t[symbol].margin == s.positions[symbol].margin)
            && (op.Close? ==> symbol !in t)
  {
  }

  /** An approved intent is tracked with its whole notional, an equal part of it for each leg as its margin. */
  lemma TrackedAsApproved(cfg: Config, s: Gate, now: int, checkNow: int, trackNow: int, intent: Intent)
    requires cfg.Valid() && ApprovalOf(cfg, s, now, checkNow, intent) == Approved
    ensures var t := AfterApproval(cfg, s, now, checkNow, trackNow, intent).positions;
            && intent.symbol in t && t - {intent.symbol} == s.positions - {intent.symbol}
            && t[intent.symbol].notional == Sum(intent.legNotionals)
            && t[intent.symbol].margin * |intent.legNotionals| as real == Sum(intent.legNotionals)
            && t[intent.symbol].openTime == trackNow
  {
    hide Validate, Sum;
    var n, legs := Sum(intent.legNotionals), |intent.legNotionals| as real;
    DivideInverse(n, legs);
  }

  /** Once a position is past its deadline with no stop, nothing is approved until it is confirmed or closed. */
  lemma {:induction false} OverdueBlocks(cfg: Config, s: Gate, ops: seq<Op>, symbol: string, since: int)
    requires cfg.Valid() && cfg.enabled
    requires symbol in s.positions && IsOverdue(s.positions[symbol], since)
    requires forall op :: op in ops ==> !Settles(op, symbol) && (op.Approve? ==> op.checkNow >= since)
    ensures var t := Run(cfg, s, ops);
            symbol in t.positions && t.positions[symbol] == s.positions[symbol]
    ensures forall intent, now, checkNow :: checkNow >= since ==>
              ApprovalOf(cfg, Run(cfg, s, ops), now, checkNow, intent).Declined?
  {
    hide BreachLevel, ApprovalOf, Step, Settles, IsOverdue;
    if ops != [] {
      var n := |ops| - 1;
      assert ops[n] in ops;
      OverdueBlocks(cfg, s, ops[..n], symbol, since);
      PositionStays(cfg, Run(cfg, s, ops[..n]), ops[n], symbol, since);
    }
    var t := Run(cfg, s, ops);
    forall intent, now, checkNow | checkNow >= since
      ensures ApprovalOf(cfg, t, now, checkNow, intent).Declined?
    {
      OverdueDeclines(cfg, t, symbol, since, now, checkNow, intent);
    }
  }

  lemma OverdueDeclines(cfg: Config, s: Gate, symbol: string, since: int, now: int, checkNow: int, intent: Intent)
    requires cfg.Valid() && cfg.enabled && checkNow >= since
    requires symbol in s.positions && IsOverdue(s.positions[symbol], since)
    ensures ApprovalOf(cfg, s, now, checkNow, intent).Declined?
  {
    hide Percent, CheckPerTradeRisk, FundedChecks, CheckProfitDistribution, CheckDailyDrawdown, CheckOverallDrawdown;
    assert IsOverdue(s.positions[symbol], checkNow);
    assert Overdue(Roll(s, now).positions, checkNow);
  }

  lemma PositionStays(cfg: Config, s: Gate, op: Op, symbol: string, since: int)
    requires cfg.Valid() && cfg.enabled && !Settles(op, symbol) && (op.Approve? ==> op.checkNow >= since)
    requires symbol in s.positions && IsOverdue(s.positions[symbol], since)
    ensures var t := Step(cfg, s, op); symbol in t.positions && t.positions[symbol] == s.positions[symbol]
  {
    hide BreachLevel, ApprovalOf;
    if op.Approve? {
      OverdueDeclines(cfg, s, symbol, since, op.now, op.checkNow, op.intent);
    }
  }

  // ---------------------------------------------------------------------
  // Profit and loss
  // ---------------------------------------------------------------------

  function Pnls(ops: seq<Op>): seq<real> {
    if ops == [] then [] else
      var op := ops[|ops| - 1];
      Pnls(ops[..|ops| - 1]) + if op.Trade? then [op.pnl] else []
  }

  /** Operation i closed a trade on this day. */
  ghost predicate TradedOn(ops: seq<Op>, i: nat, day: int) { i < |ops| && ops[i].Trade? && Day(ops[i].now) == day }

  /** Every closed trade marks its UTC day, and nothing else does. */
  lemma {:induction false} TradingDaysExactly(cfg: Config, s: Gate, ops: seq<Op>, day: int)
    requires cfg.Valid()
    ensures day in Run(cfg, s, ops).tradingDays <==> day in s.tradingDays || exists i: nat :: TradedOn(ops, i, day)
  {
    if ops != [] {
      hide Day, Step;
      var n := |ops| - 1;
      TradingDaysExactly(cfg, s, ops[..n], day);
      TradeStep(cfg, Run(cfg, s, ops[..n]), ops[n]);
      if i: nat :| TradedOn(ops[..n], i, day) {
        assert TradedOn(ops, i, day);
      }
      if i: nat :| TradedOn(ops, i, day) {
        assert i < n ==> TradedOn(ops[..n], i, day);
      }
      assert ops[n].Trade? && Day(ops[n].now) == day ==> TradedOn(ops, n, day);
    }
  }

  lemma TradeStep(cfg: Config, s: Gate, op: Op)
    requires cfg.Valid()
    ensures var t := Step(cfg, s, op);
            && t.tradingDays == s.tradingDays + (if op.Trade? then {Day(op.now)} else {})
            && (t.tradedToday <==> op.Trade? || (s.tradedToday && t.resetDay == s.resetDay))
  {
    hide Day, ApprovalOf, BreachLevel;
  }

  /** Operation i closed a trade, and no later one read the clock on another day. */
  ghost predicate TradedSinceRoll(ops: seq<Op>, i: nat) {
    && i < |ops| && ops[i].Trade?
    && forall j :: i < j < |ops| && Clock(ops[j]).Some? ==> Day(Clock(ops[j]).value) == Day(ops[i].now)
  }

  /** The gate has traded today exactly when a trade was closed since the day was last rolled. */
  lemma {:induction false} TradedTodayExactly(cfg: Config, s: Gate, ops: seq<Op>)
    requires cfg.Valid() && !s.tradedToday
    ensures Run(cfg, s, ops).tradedToday <==> exists i: nat :: TradedSinceRoll(ops, i)
    ensures forall i: nat :: TradedSinceRoll(ops, i) ==> Run(cfg, s, ops).resetDay == Day(ops[i].now)
  {
    if ops != [] {
      hide Day, Step;
      var n := |ops| - 1;
      TradedTodayExactly(cfg, s, ops[..n]);
      TradeStep(cfg, Run(cfg, s, ops[..n]), ops[n]);
      HighWaterStep(cfg, Run(cfg, s, ops[..n]), ops[n]);
      forall i: nat
        ensures TradedSinceRoll(ops, i) <==>
                  || (i == n && ops[n].Trade?)
                  || (TradedSinceRoll(ops[..n], i)
                      && (Clock(ops[n]).Some? ==> Day(Clock(ops[n]).value) == Day(ops[i].now)))
      {
        RollStep(ops, i);
      }
    }
  }

  lemma RollStep(ops: seq<Op>, i: nat)
    requires ops != []
    ensures var n := |ops| - 1;
            TradedSinceRoll(ops, i) <==>
              || (i == n && ops[n].Trade?)
              || (TradedSinceRoll(ops[..n], i)
                  && (Clock(ops[n]).Some? ==> Day(Clock(ops[n]).value) == Day(ops[i].now)))
  {
    hide Day, Clock;
    assert forall j :: 0 <= j < |ops| - 1 ==> ops[..|ops| - 1][j] == ops[j];
  }

  function Wins(pnls: seq<real>): seq<real> {
    if pnls == [] then [] else
      var x := pnls[|pnls| - 1];
      Wins(pnls[..|pnls| - 1]) + if x > 0.0 then [x] else []
  }

  /** Net PnL is the sum of every recorded result, and the profit side the sum of the winning ones. */
  lemma {:induction false} NetPnlIsSumOfResults(cfg: Config, s: Gate, ops: seq<Op>)
    requires cfg.Valid()
    ensures var t := Run(cfg, s, ops);
            && t.totalProfit - t.totalLoss == s.totalProfit - s.totalLoss + Sum(Pnls(ops))
            && t.totalProfit == s.totalProfit + Sum(Wins(Pnls(ops)))
            && t.closedTrades == s.closedTrades + |Pnls(ops)|
  {
    if ops != [] {
      hide Step, Wins, Sum;
      var n := |ops| - 1;
      NetPnlIsSumOfResults(cfg, s, ops[..n]);
      LedgerStep(cfg, Run(cfg, s, ops[..n]), ops[n]);
      if ops[n].Trade? {
        OneMoreResult(Pnls(ops[..n]), ops[n].pnl);
      } else {
        assert Pnls(ops) == Pnls(ops[..n]);
      }
    }
  }

  lemma LedgerStep(cfg: Config, s: Gate, op: Op)
    requires cfg.Valid()
    ensures var t := Step(cfg, s, op);
            if op.Trade? then
              && t.totalProfit == s.totalProfit + Max(op.pnl, 0.0)
              && t.totalLoss == s.totalLoss + Max(-op.pnl, 0.0)
              && t.closedTrades == s.closedTrades + 1
            else
              t.totalProfit == s.totalProfit && t.totalLoss == s.totalLoss && t.closedTrades == s.closedTrades
  {
    hide ApprovalOf, BreachLevel;
  }

  lemma OneMoreResult(pnls: seq<real>, x: real)
    ensures Sum(pnls + [x]) == Sum(pnls) + x
    ensures Sum(Wins(pnls + [x])) == Sum(Wins(pnls)) + Max(x, 0.0)
  {
    assert (pnls + [x])[..|pnls|] == pnls;
    var w := Wins(pnls);
    assert (w + [x])[..|w|] == w;
    assert w + [] == w;
  }

  /** From the start of a gate its books hold exactly the trades that were closed. */
  lemma LedgerFromStart(cfg: Config, now: int, ops: seq<Op>, day: int)
    requires cfg.Valid()
    ensures var t := Run(cfg, Start(cfg, now), ops);
            && t.totalProfit == Sum(Wins(Pnls(ops))) && t.totalProfit - t.totalLoss == Sum(Pnls(ops))
            && t.closedTrades == |Pnls(ops)|
            && (day in t.tradingDays <==> exists i: nat :: TradedOn(ops, i, day))
            && (t.tradedToday <==> exists i: nat :: TradedSinceRoll(ops, i))
  {
    hide Run, Sum, Wins, Pnls, TradedOn, TradedSinceRoll;
    NetPnlIsSumOfResults(cfg, Start(cfg, now), ops);
    TradingDaysExactly(cfg, Start(cfg, now), ops, day);
    TradedTodayExactly(cfg, Start(cfg, now), ops);
  }

  /** Every win of the run passed the distribution check against the profit at its time. */
  ghost predicate WinsPassed(cfg: Config, s: Gate, ops: seq<Op>)
    requires cfg.Valid()
  {
    forall i :: 0 <= i < |ops| && ops[i].Trade? && ops[i].pnl > 0.0 ==>
      CheckProfitDistribution(ops[i].pnl, Run(cfg, s, ops[..i]).totalProfit, cfg) == None
  }

  lemma WinsPassedBefore(cfg: Config, s: Gate, ops: seq<Op>)
    requires cfg.Valid() && ops != [] && WinsPassed(cfg, s, ops)
    ensures var n := |ops| - 1;
            && WinsPassed(cfg, s, ops[..n])
            && (ops[n].Trade? && ops[n].pnl > 0.0 ==>
                  CheckProfitDistribution(ops[n].pnl, Run(cfg, s, ops[..n]).totalProfit, cfg) == None)
  {
    hide Run, CheckProfitDistribution;
    var before := ops[..|ops| - 1];
    forall i | 0 <= i < |before| && before[i].Trade? && before[i].pnl > 0.0
      ensures CheckProfitDistribution(before[i].pnl, Run(cfg, s, before[..i]).totalProfit, cfg) == None
    {
      assert before[..i] == ops[..i];
    }
  }

  lemma OneMoreAccepted(profit: real, wins: seq<real>, x: real, cfg: Config)
    requires AllAccepted(profit, wins, cfg) && x > 0.0
    requires CheckProfitDistribution(x, profit + Sum(wins), cfg) == None
    ensures AllAccepted(profit, wins + [x], cfg)
  {
    hide CheckProfitDistribution, Sum;
    forall i | 0 <= i < |wins| + 1
      ensures (wins + [x])[i] > 0.0
      ensures CheckProfitDistribution((wins + [x])[i], profit + Sum((wins + [x])[..i]), cfg) == None
    {
      if i == |wins| {
        assert (wins + [x])[..i] == wins;
      } else {
        assert (wins + [x])[..i] == wins[..i];
      }
    }
  }

  lemma {:induction false} RunWinsAccepted(cfg: Config, s: Gate, ops: seq<Op>)
    requires cfg.Valid() && WinsPassed(cfg, s, ops)
    ensures AllAccepted(s.totalProfit, Wins(Pnls(ops)), cfg)
  {
    if ops != [] {
      hide Run, CheckProfitDistribution, AllAccepted, WinsPassed, Sum;
      var n := |ops| - 1;
      WinsPassedBefore(cfg, s, ops);
      RunWinsAccepted(cfg, s, ops[..n]);
      NetPnlIsSumOfResults(cfg, s, ops[..n]);
      var before := Pnls(ops[..n]);
      if ops[n].Trade? {
        assert (before + [ops[n].pnl])[..|before|] == before;
        if ops[n].pnl > 0.0 {
          OneMoreAccepted(s.totalProfit, Wins(before), ops[n].pnl, cfg);
        } else {
          assert Wins(before) + [] == Wins(before);
        }
      } else {
        assert before + [] == before;
      }
    }
  }

  /** After any run whose k wins all passed the check, profit is at most the bound for k wins. */
  lemma RunProfitGrowth(cfg: Config, s: Gate, ops: seq<Op>)
    requires cfg.Valid() && cfg.mode != FundedMode && 0.0 <= cfg.profitDistributionMaxPct < 100.0
    requires s.totalProfit >= 0.0 && WinsPassed(cfg, s, ops)
    ensures 0.0 <= Run(cfg, s, ops).totalProfit <= ProfitBound(s.totalProfit, cfg, |Wins(Pnls(ops))|)
  {
    hide Run, ProfitBound, AllAccepted, WinsPassed;
    RunWinsAccepted(cfg, s, ops);
    NetPnlIsSumOfResults(cfg, s, ops);
    ProfitGrowth(s.totalProfit, Wins(Pnls(ops)), cfg);
  }
}
