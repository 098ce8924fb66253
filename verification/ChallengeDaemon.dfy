/**
 * The compliance gate (internal/challenge/daemon.go) and the approval step of its event loop
 * (cmd/challenge-daemon/main.go). Times are in milliseconds; each method takes the clock reading it uses.
 */
module ChallengeDaemon {
  import opened RealSeq
  import opened ChallengeRules
  import opened Calendar

  datatype Position = Position(openTime: int, deadline: int, hasStopLoss: bool, stopLossSet: Option<int>,
                               notional: real, margin: real)

  datatype Intent = Intent(symbol: string, legNotionals: seq<real>, expectedProfit: real)

  datatype Gate = Gate(
    equity: real,
    highWater: real,
    resetDay: int,
    totalProfit: real,
    totalLoss: real,
    closedTrades: nat,
    positions: map<string, Position>,
    tradingDays: set<int>,
    tradedToday: bool,
    halted: bool
  )

  function Start(cfg: Config, now: int): Gate {
    Gate(cfg.initialBalance, cfg.initialBalance, Day(now), 0.0, 0.0, 0, map[], {}, false, false)
  }

  ghost function Margins(p: map<string, Position>): map<string, real> { map s | s in p :: p[s].margin }

  ghost function Notionals(p: map<string, Position>): map<string, real> { map s | s in p :: p[s].notional }

  ghost function TotalMargin(p: map<string, Position>): real { MapSum(Margins(p)) }

  ghost function TotalNotional(p: map<string, Position>): real { MapSum(Notionals(p)) }

  // ---------------------------------------------------------------------
  // Specification of the operations
  // ---------------------------------------------------------------------

  function Roll(s: Gate, now: int): Gate {
    if Day(now) == s.resetDay then s
    else s.(highWater := s.equity, resetDay := Day(now), tradedToday := false)
  }

  function WithEquity(s: Gate, now: int, equity: real): Gate {
    var r := Roll(s, now);
    r.(equity := equity, highWater := Max(r.highWater, equity))
  }

  predicate BreachLevel(cfg: Config, s: Gate)
    requires cfg.Valid()
  {
    || CheckDailyDrawdown(s.equity, s.highWater, cfg) == Breach
    || CheckOverallDrawdown(s.equity, cfg.initialBalance, cfg) == Breach
  }

  /** Which of the two levels an equity update reports: a breach, else the daily one if there is one. */
  function Reported(daily: Level, overall: Level): Level {
    if daily == Breach || overall == Breach then Breach else if daily != Normal then daily else overall
  }

  function AfterEquity(cfg: Config, s: Gate, now: int, equity: real): Gate
    requires cfg.Valid()
  {
    var r := WithEquity(s, now, equity);
    r.(halted := r.halted || BreachLevel(cfg, r))
  }

  function AfterTrade(s: Gate, now: int, pnl: real): Gate {
    var r := Roll(s, now);
    r.(closedTrades := r.closedTrades + 1, tradedToday := true, tradingDays := r.tradingDays + {Day(now)},
       totalProfit := if pnl > 0.0 then r.totalProfit + pnl else r.totalProfit,
       totalLoss := if pnl < 0.0 then r.totalLoss - pnl else r.totalLoss)
  }

  function Opened(cfg: Config, now: int, notional: real, margin: real): Position {
    Position(now, now + cfg.stopLossDeadlineMs, false, None, notional, margin)
  }

  function Confirmed(p: map<string, Position>, symbol: string, now: int): map<string, Position> {
    if symbol in p then p[symbol := p[symbol].(hasStopLoss := true, stopLossSet := Some(now))] else p
  }

  /** Both legs, each at its own clock reading; a pair of one symbol is confirmed once. */
  function ConfirmedPair(p: map<string, Position>, primary: string, hedge: string, now: int, later: int)
    : map<string, Position>
  {
    var first := Confirmed(p, primary, now);
    if hedge == primary then first else Confirmed(first, hedge, later)
  }

  /** Some position is past its deadline without a stop-loss. */
  ghost predicate Overdue(p: map<string, Position>, now: int) {
    exists s :: s in p && IsOverdue(p[s], now)
  }

  predicate IsOverdue(p: Position, now: int) { !p.hasStopLoss && now > p.deadline }

  function FundedChecks(cfg: Config, s: Gate, margin: real, notional: real, intentNotional: real): Option<Reason> {
    if cfg.mode != FundedMode then None
    else
      var exposure := CheckMaxExposure(margin + intentNotional, cfg);
      if exposure.Some? then exposure else CheckMaxNotional(notional + intentNotional, s.equity, cfg)
  }

  /** The rules in order, on a state whose day has been rolled: the first violation, or None. */
  ghost function Verdict(cfg: Config, s: Gate, intent: Intent, now: int): Option<Reason>
    requires cfg.Valid()
  {
    var n := Sum(intent.legNotionals);
    var daily := CheckDailyDrawdown(s.equity, s.highWater, cfg);
    var overall := CheckOverallDrawdown(s.equity, cfg.initialBalance, cfg);
    var risk := CheckPerTradeRisk(n * cfg.stopLossDefaultPct / 100.0, 1.0, cfg.initialBalance, cfg);
    var profit :=
      if intent.expectedProfit > 0.0 then CheckProfitDistribution(intent.expectedProfit, s.totalProfit, cfg) else None;
    var funded := FundedChecks(cfg, s, TotalMargin(s.positions), TotalNotional(s.positions), n);
    if s.halted then Some(ChallengeHalted)
    else if !cfg.enabled then None
    else if daily != Normal then Some(DailyDrawdown(daily))
    else if overall != Normal then Some(OverallDrawdown(overall))
    else if risk.Some? then risk
    else if profit.Some? then profit
    else if funded.Some? then funded
    else if Overdue(s.positions, now) then Some(StopLossOverdue)
    else None
  }

  /** The day is rolled at one clock reading, the deadlines are checked at a second one. */
  ghost function Validate(cfg: Config, s: Gate, intent: Intent, now: int, checkNow: int): Option<Reason>
    requires cfg.Valid()
  {
    Verdict(cfg, Roll(s, now), intent, checkNow)
  }

  // ---------------------------------------------------------------------
  // The daemon
  // ---------------------------------------------------------------------

  datatype Approval = Approved | Declined(reason: Reason) | DivisionByZero

  class Daemon {
    const cfg: Config
    var equity: real
    var highWater: real
    var resetDay: int
    var totalProfit: real
    var totalLoss: real
    var closedTrades: nat
    var positions: map<string, Position>
    var totalMargin: real
    var totalNotional: real
    var tradingDays: set<int>
    var tradedToday: bool
    var halted: bool

    ghost function State(): Gate
      reads this
    {
      Gate(equity, highWater, resetDay, totalProfit, totalLoss, closedTrades, positions,
           tradingDays, tradedToday, halted)
    }

    /** The running totals are the sums over the position map. */
    ghost predicate Valid()
      reads this
    {
      && cfg.Valid()
      && totalMargin == TotalMargin(positions)
      && totalNotional == TotalNotional(positions)
    }

    constructor (cfg: Config, now: int)
      requires cfg.Valid()
      ensures Valid() && this.cfg == cfg && State() == Start(cfg, now)
    {
      this.cfg := cfg;
      equity, highWater, resetDay := cfg.initialBalance, cfg.initialBalance, Day(now);
      totalProfit, totalLoss, closedTrades := 0.0, 0.0, 0;
      positions, totalMargin, totalNotional := map[], 0.0, 0.0;
      tradingDays, tradedToday, halted := {}, false, false;
      new;
      assert Margins(positions) == map[] && Notionals(positions) == map[];
    }

    method ResetDailyIfNeeded(now: int)
      requires Valid()
      modifies this
      ensures Valid() && State() == Roll(old(State()), now)
    {
      if Day(now) == resetDay {
        return;
      }
      highWater := equity;
      resetDay := Day(now);
      tradedToday := false;
    }

    /** Returns the level that is reported to the caller: a breach if there is one, else the first warning. */
    method UpdateEquity(now: int, value: real) returns (level: Level)
      requires Valid()
      modifies this
      ensures Valid() && State() == AfterEquity(cfg, old(State()), now, value)
      ensures level == Reported(CheckDailyDrawdown(value, highWater, cfg),
                                CheckOverallDrawdown(value, cfg.initialBalance, cfg))
      ensures level == Breach <==> BreachLevel(cfg, State())
    {
      ResetDailyIfNeeded(now);
      equity := value;
      if value > highWater {
        highWater := value;
      }
      var daily := CheckDailyDrawdown(value, highWater, cfg);
      if daily == Breach {
        halted := true;
        return daily;
      }
      var overall := CheckOverallDrawdown(value, cfg.initialBalance, cfg);
      if overall == Breach {
        halted := true;
        return overall;
      }
      if daily != Normal {
        return daily;
      }
      return overall;
    }

    method RecordTrade(now: int, pnl: real)
      requires Valid()
      modifies this
      ensures Valid() && State() == AfterTrade(old(State()), now, pnl)
    {
      ResetDailyIfNeeded(now);
      closedTrades := closedTrades + 1;
      tradedToday := true;
      tradingDays := tradingDays + {Day(now)};
      if pnl > 0.0 {
        totalProfit := totalProfit + pnl;
      } else if pnl < 0.0 {
        totalLoss := totalLoss + Abs(pnl);
      }
    }

    method RecalcExposure()
      requires cfg.Valid()
      modifies this`totalMargin, this`totalNotional
      ensures Valid()
    {
      totalMargin, totalNotional := 0.0, 0.0;
      var left := positions.Keys;
      ghost var margins, notionals: map<string, real> := map[], map[];
      while left != {}
        invariant left <= positions.Keys
        invariant margins == map s | s in positions && s !in left :: positions[s].margin
        invariant notionals == map s | s in positions && s !in left :: positions[s].notional
        invariant totalMargin == MapSum(margins) && totalNotional == MapSum(notionals)
      {
        var s :| s in left;
        MapSumSet(margins, s, positions[s].margin);
        MapSumSet(notionals, s, positions[s].notional);
        margins := margins[s := positions[s].margin];
        notionals := notionals[s := positions[s].notional];
        totalMargin := totalMargin + positions[s].margin;
        totalNotional := totalNotional + positions[s].notional;
        left := left - {s};
      }
      assert margins == Margins(positions) && notionals == Notionals(positions);
    }

    method TrackPosition(now: int, symbol: string, notional: real, margin: real)
      requires Valid()
      modifies this
      ensures Valid()
      ensures State() == old(State()).(positions := old(positions)[symbol := Opened(cfg, now, notional, margin)])
    {
      positions := positions[symbol := Opened(cfg, now, notional, margin)];
      RecalcExposure();
    }

    method ConfirmStopLoss(now: int, symbol: string)
      requires Valid()
      modifies this
      ensures Valid() && State() == old(State()).(positions := Confirmed(old(positions), symbol, now))
    {
      if symbol in positions {
        ghost var before := positions;
        positions := positions[symbol := positions[symbol].(hasStopLoss := true, stopLossSet := Some(now))];
        assert Margins(positions) == Margins(before) && Notionals(positions) == Notionals(before);
      }
    }

    method ConfirmPairedStopLoss(now: int, later: int, primary: string, hedge: string)
      requires Valid()
      modifies this
      ensures Valid()
      ensures State() == old(State()).(positions := ConfirmedPair(old(positions), primary, hedge, now, later))
    {
      ConfirmStopLoss(now, primary);
      if hedge != primary {
        ConfirmStopLoss(later, hedge);
      }
    }

    method ClosePosition(symbol: string)
      requires Valid()
      modifies this
      ensures Valid() && State() == old(State()).(positions := old(positions) - {symbol})
    {
      positions := positions - {symbol};
      RecalcExposure();
    }

    method ValidateIntent(now: int, checkNow: int, intent: Intent) returns (r: Option<Reason>)
      requires Valid()
      modifies this
      ensures Valid() && State() == Roll(old(State()), now)
      ensures r == Validate(cfg, old(State()), intent, now, checkNow)
    {
      ResetDailyIfNeeded(now);
      if halted {
        return Some(ChallengeHalted);
      }
      if !cfg.enabled {
        return None;
      }
      var daily := CheckDailyDrawdown(equity, highWater, cfg);
      if daily != Normal {
        return Some(DailyDrawdown(daily));
      }
      var overall := CheckOverallDrawdown(equity, cfg.initialBalance, cfg);
      if overall != Normal {
        return Some(OverallDrawdown(overall));
      }
      var intentNotional := IntentNotional(intent);
      var estimatedStopDistance := intentNotional * cfg.stopLossDefaultPct / 100.0;
      r := CheckPerTradeRisk(estimatedStopDistance, 1.0, cfg.initialBalance, cfg);
      if r.Some? {
        return;
      }
      if intent.expectedProfit > 0.0 {
        r := CheckProfitDistribution(intent.expectedProfit, totalProfit, cfg);
        if r.Some? {
          return;
        }
      }
      if cfg.mode == FundedMode {
        var projectedMargin := totalMargin + intentNotional;
        r := CheckMaxExposure(projectedMargin, cfg);
        if r.Some? {
          return;
        }
        var projectedNotional := totalNotional + intentNotional;
        r := CheckMaxNotional(projectedNotional, equity, cfg);
        if r.Some? {
          return;
        }
      }
      var left := positions.Keys;
      while left != {}
        invariant left <= positions.Keys
        invariant forall s :: s in positions && s !in left ==> !IsOverdue(positions[s], checkNow)
        modifies {}
      {
        var s :| s in left;
        if !positions[s].hasStopLoss && checkNow > positions[s].deadline {
          return Some(StopLossOverdue);
        }
        left := left - {s};
      }
      return None;
    }

    method IntentNotional(intent: Intent) returns (n: real)
      ensures n == Sum(intent.legNotionals)
    {
      n := 0.0;
      for i := 0 to |intent.legNotionals|
        invariant n == Sum(intent.legNotionals[..i])
      {
        SumStep(intent.legNotionals, i);
        n := n + intent.legNotionals[i];
      }
      assert intent.legNotionals[..|intent.legNotionals|] == intent.legNotionals;
    }

    /** The event loop's approval of one intent: validate, split the notional by legs, track. */
    method ApproveIntent(now: int, checkNow: int, trackNow: int, intent: Intent) returns (a: Approval)
      requires Valid()
      modifies this
      ensures Valid() && State() == AfterApproval(cfg, old(State()), now, checkNow, trackNow, intent)
      ensures a == ApprovalOf(cfg, old(State()), now, checkNow, intent)
    {
      var rejected := ValidateIntent(now, checkNow, intent);
      if rejected.Some? {
        return Declined(rejected.value);
      }
      var intentNotional := IntentNotional(intent);
      if |intent.legNotionals| == 0 {
        return DivisionByZero;
      }
      var perLegNotional := intentNotional / |intent.legNotionals| as real;
      TrackPosition(trackNow, intent.symbol, intentNotional, perLegNotional);
      return Approved;
    }

    method PositionsWithExpiredStopLoss(now: int) returns (expired: set<string>)
      ensures forall s :: s in expired <==> s in positions && IsOverdue(positions[s], now)
    {
      expired := {};
      var left := positions.Keys;
      while left != {}
        invariant left <= positions.Keys
        invariant forall s :: s in expired <==> s in positions && s !in left && IsOverdue(positions[s], now)
      {
        var s :| s in left;
        if !positions[s].hasStopLoss && now > positions[s].deadline {
          expired := expired + {s};
        }
        left := left - {s};
      }
    }

    /** Clears the halt, and nothing else. */
    method Reset()
      requires Valid()
      modifies this
      ensures Valid() && State() == old(State()).(halted := false)
    {
      halted := false;
    }
  }

  ghost function ApprovalOf(cfg: Config, s: Gate, now: int, checkNow: int, intent: Intent): Approval
    requires cfg.Valid()
  {
    match Validate(cfg, s, intent, now, checkNow)
    case Some(reason) => Declined(reason)
    case None => if |intent.legNotionals| == 0 then DivisionByZero else Approved
  }

  ghost function AfterApproval(cfg: Config, s: Gate, now: int, checkNow: int, trackNow: int, intent: Intent): Gate
    requires cfg.Valid()
  {
    var r := Roll(s, now);
    if ApprovalOf(cfg, s, now, checkNow, intent) != Approved then r
    else
      var n := Sum(intent.legNotionals);
      r.(positions := r.positions[intent.symbol := Opened(cfg, trackNow, n, n / |intent.legNotionals| as real)])
  }
}
