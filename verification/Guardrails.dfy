/** The daily trading guardrails (internal/scanner/guardrails.go). R is the risk of one trade. */
module Guardrails {
  import opened RealSeq
  import opened Calendar

  datatype Config = Config(maxTradesPerDay: int, maxConsecutiveLosses: int, dailyStopLossR: real, cooldownMs: int,
                           timeStopMinutes: int)

  datatype Refusal = TradingHalted | TradeLimit | LossLimit | DailyStop | CoolingDown

  datatype State = State(
    tradesToday: nat,
    consecutiveLosses: nat,
    dailyPnlR: real,
    resetDay: int,
    halted: bool,
    cooldowns: map<string, int>, // earliest execution time of an alert
    openTrades: map<string, int> // open time of a trade
  )

  function Roll(s: State, now: int): State {
    if Day(now) == s.resetDay then s
    else s.(tradesToday := 0, consecutiveLosses := 0, dailyPnlR := 0.0, resetDay := Day(now))
  }

  /** The gate on a state whose day has been rolled: the first refusal, or None. */
  function Gate(cfg: Config, s: State, alert: string, now: int): Option<Refusal> {
    var daily := DailyRefusal(cfg, s);
    if daily.Some? then daily
    else if alert in s.cooldowns && now < s.cooldowns[alert] then Some(CoolingDown)
    else None
  }

  function DailyRefusal(cfg: Config, s: State): Option<Refusal> {
    if s.halted then Some(TradingHalted)
    else if s.tradesToday >= cfg.maxTradesPerDay then Some(TradeLimit)
    else if s.consecutiveLosses >= cfg.maxConsecutiveLosses then Some(LossLimit)
    else if s.dailyPnlR <= cfg.dailyStopLossR then Some(DailyStop)
    else None
  }

  /** Everything that can happen to the guardrails; a check and an opening read the clock again after the day. */
  datatype Op =
    | Check(alert: string, now: int, later: int)
    | Receive(alert: string, now: int)
    | Open(alert: string, now: int, later: int)
    | Result(alert: string, resultR: real, now: int)
    | Halt
    | Resume
    | Status(now: int)

  function Step(cfg: Config, s: State, op: Op): State {
    match op
    case Check(_, now, _) => Roll(s, now)
    case Receive(alert, now) => s.(cooldowns := s.cooldowns[alert := now + cfg.cooldownMs])
    case Open(alert, now, later) =>
      var r := Roll(s, now);
      r.(tradesToday := r.tradesToday + 1, openTrades := r.openTrades[alert := later])
    case Result(alert, x, now) =>
      var r := Roll(s, now);
      r.(dailyPnlR := r.dailyPnlR + x,
         consecutiveLosses := if x < 0.0 then r.consecutiveLosses + 1 else 0,
         openTrades := r.openTrades - {alert}, cooldowns := r.cooldowns - {alert})
    case Halt => s.(halted := true)
    case Resume => s.(halted := false)
    case Status(now) => Roll(s, now)
  }

  // ---------------------------------------------------------------------
  // The object
  // ---------------------------------------------------------------------

  datatype DailyState = DailyState(tradesToday: nat, consecutiveLosses: nat, dailyPnlR: real, openTrades: nat,
                                   refusal: Option<Refusal>, day: int)

  class Guard {
    const cfg: Config
    var tradesToday: nat
    var consecutiveLosses: nat
    var dailyPnlR: real
    var resetDay: int
    var halted: bool
    var cooldowns: map<string, int>
    var openTrades: map<string, int>

    ghost function Now(): State
      reads this
    {
      State(tradesToday, consecutiveLosses, dailyPnlR, resetDay, halted, cooldowns, openTrades)
    }

    constructor (cfg: Config, now: int)
      ensures this.cfg == cfg && Now() == State(0, 0, 0.0, Day(now), false, map[], map[])
    {
      this.cfg := cfg;
      tradesToday, consecutiveLosses, dailyPnlR, resetDay := 0, 0, 0.0, Day(now);
      halted, cooldowns, openTrades := false, map[], map[];
    }

    method MaybeResetDaily(now: int)
      modifies this
      ensures Now() == Roll(old(Now()), now)
    {
      var today := Day(now);
      if today != resetDay {
        tradesToday, consecutiveLosses, dailyPnlR := 0, 0, 0.0;
        resetDay := today;
      }
    }

    method CheckPreTrade(alert: string, now: int, later: int) returns (r: Option<Refusal>)
      modifies this
      ensures Now() == Step(cfg, old(Now()), Check(alert, now, later))
      ensures r == Gate(cfg, Now(), alert, later)
    {
      MaybeResetDaily(now);
      if halted {
        return Some(TradingHalted);
      }
      if tradesToday >= cfg.maxTradesPerDay {
        return Some(TradeLimit);
      }
      if consecutiveLosses >= cfg.maxConsecutiveLosses {
        return Some(LossLimit);
      }
      if dailyPnlR <= cfg.dailyStopLossR {
        return Some(DailyStop);
      }
      if alert in cooldowns {
        if later < cooldowns[alert] {
          return Some(CoolingDown);
        }
      }
      return None;
    }

    method RegisterAlertReceived(alert: string, now: int)
      modifies this
      ensures Now() == Step(cfg, old(Now()), Receive(alert, now))
    {
      cooldowns := cooldowns[alert := now + cfg.cooldownMs];
    }

    method RecordTradeOpened(alert: string, now: int, later: int)
      modifies this
      ensures Now() == Step(cfg, old(Now()), Open(alert, now, later))
    {
      MaybeResetDaily(now);
      tradesToday := tradesToday + 1;
      openTrades := openTrades[alert := later];
    }

    method RecordTradeResult(alert: string, resultR: real, now: int)
      modifies this
      ensures Now() == Step(cfg, old(Now()), Result(alert, resultR, now))
    {
      MaybeResetDaily(now);
      dailyPnlR := dailyPnlR + resultR;
      if resultR < 0.0 {
        consecutiveLosses := consecutiveLosses + 1;
      } else {
        consecutiveLosses := 0;
      }
      openTrades := openTrades - {alert};
      cooldowns := cooldowns - {alert};
    }

    method CheckTimeStops(now: int) returns (expired: set<string>)
      ensures forall a :: a in expired <==> a in openTrades && now - openTrades[a] > cfg.timeStopMinutes * 60000
    {
      var maxAge := cfg.timeStopMinutes * 60000;
      expired := {};
      var left := openTrades.Keys;
      while left != {}
        invariant left <= openTrades.Keys
        invariant forall a :: a in expired <==> a in openTrades && a !in left && now - openTrades[a] > maxAge
      {
        var a :| a in left;
        if now - openTrades[a] > maxAge {
          expired := expired + {a};
        }
        left := left - {a};
      }
    }

    method DoHalt()
      modifies this
      ensures Now() == Step(cfg, old(Now()), Halt)
    {
      halted := true;
    }

    method DoResume()
      modifies this
      ensures Now() == Step(cfg, old(Now()), Resume)
    {
      halted := false;
    }

    /** refusal is None when trading is allowed. */
    method DailyStatus(now: int) returns (d: DailyState)
      modifies this
      ensures Now() == Step(cfg, old(Now()), Status(now))
      ensures d == DailyState(tradesToday, consecutiveLosses, dailyPnlR, |openTrades|, DailyRefusal(cfg, Now()),
                              resetDay)
    {
      MaybeResetDaily(now);
      var refusal := None;
      if halted {
        refusal := Some(TradingHalted);
      } else if tradesToday >= cfg.maxTradesPerDay {
        refusal := Some(TradeLimit);
      } else if consecutiveLosses >= cfg.maxConsecutiveLosses {
        refusal := Some(LossLimit);
      } else if dailyPnlR <= cfg.dailyStopLossR {
        refusal := Some(DailyStop);
      }
      return DailyState(tradesToday, consecutiveLosses, dailyPnlR, |openTrades|, refusal, resetDay);
    }
  }

  // ---------------------------------------------------------------------
  // Runs
  // ---------------------------------------------------------------------

  function Run(cfg: Config, s: State, ops: seq<Op>): State {
    if ops == [] then s else Step(cfg, Run(cfg, s, ops[..|ops| - 1]), ops[|ops| - 1])
  }

  /** The last operation was a check of this alert that let it through. */
  ghost predicate JustCleared(cfg: Config, s: State, ops: seq<Op>, alert: string) {
    ops != [] && var last := ops[|ops| - 1];
      last.Check? && last.alert == alert && Gate(cfg, Run(cfg, s, ops), alert, last.later) == None
  }

  /** Operation i, if an opening, immediately follows its passing check; if a result, closes an open trade at >= -1R. */
  ghost predicate Allowed(cfg: Config, s: State, ops: seq<Op>, i: nat)
    requires i < |ops|
  {
    && (ops[i].Open? ==> JustCleared(cfg, s, ops[..i], ops[i].alert))
    && (ops[i].Result? ==> ops[i].resultR >= -1.0 && ops[i].alert in Run(cfg, s, ops[..i]).openTrades)
  }

  ghost predicate AllowedWithin(cfg: Config, s: State, ops: seq<Op>, i: nat, k: nat)
    requires i < |ops|
  {
    Allowed(cfg, s, ops, i) && |Run(cfg, s, ops[..i + 1]).openTrades| <= k
  }

  /** What was allowed does not depend on what came later. */
  lemma AllowedBefore(cfg: Config, s: State, before: seq<Op>, op: Op, i: nat, k: nat)
    requires i < |before|
    ensures AllowedWithin(cfg, s, before + [op], i, k) <==> AllowedWithin(cfg, s, before, i, k)
  {
    hide Run, JustCleared;
    var ops := before + [op];
    assert ops[i] == before[i] && ops[..i] == before[..i] && ops[..i + 1] == before[..i + 1];
  }

  /** Every operation is allowed, and at most k trades are ever open. */
  ghost predicate Disciplined(cfg: Config, s: State, ops: seq<Op>, k: nat) {
    forall i :: 0 <= i < |ops| ==> AllowedWithin(cfg, s, ops, i, k)
  }

  /** Each open trade can still cost 1R, and even then the day stays above the stop less k R. */
  ghost predicate WithinBudget(cfg: Config, s: State, k: nat) {
    && s.dailyPnlR - |s.openTrades| as real > cfg.dailyStopLossR - k as real
    && (s.tradesToday == 0 || s.tradesToday <= cfg.maxTradesPerDay)
  }

  lemma {:induction false} BudgetHolds(cfg: Config, s: State, ops: seq<Op>, k: nat)
    requires cfg.dailyStopLossR < 0.0
    requires s.openTrades == map[] && s.dailyPnlR == 0.0 && s.tradesToday == 0
    requires Disciplined(cfg, s, ops, k)
    ensures WithinBudget(cfg, Run(cfg, s, ops), k) && |Run(cfg, s, ops).openTrades| <= k
  {
    if ops != [] {
      hide Step, WithinBudget, Gate;
      var n := |ops| - 1;
      assert ops == ops[..n] + [ops[n]];
      DisciplinedPrefix(cfg, s, ops[..n], ops[n], k);
      BudgetHolds(cfg, s, ops[..n], k);
      assert ops[..n + 1] == ops && AllowedWithin(cfg, s, ops, n, k);
      if ops[n].Open? {
        ClearedMeansBudget(cfg, s, ops[..n], ops[n].alert);
      }
      BudgetStep(cfg, Run(cfg, s, ops[..n]), ops[n], k);
    } else {
      assert |s.openTrades| == 0;
    }
  }

  lemma {:induction false} DisciplinedPrefix(cfg: Config, s: State, before: seq<Op>, op: Op, k: nat)
    requires Disciplined(cfg, s, before + [op], k)
    ensures Disciplined(cfg, s, before, k)
  {
    hide AllowedWithin;
    forall i | 0 <= i < |before| ensures AllowedWithin(cfg, s, before, i, k) {
      AllowedBefore(cfg, s, before, op, i, k);
      assert AllowedWithin(cfg, s, before + [op], i, k);
    }
  }

  lemma ClearedMeansBudget(cfg: Config, s: State, ops: seq<Op>, alert: string)
    requires JustCleared(cfg, s, ops, alert)
    ensures var t := Run(cfg, s, ops); t.dailyPnlR > cfg.dailyStopLossR && t.tradesToday < cfg.maxTradesPerDay
  {
    hide Run;
  }

  lemma BudgetStep(cfg: Config, s: State, op: Op, k: nat)
    requires cfg.dailyStopLossR < 0.0 && WithinBudget(cfg, s, k) && |s.openTrades| <= k
    requires op.Open? ==> s.dailyPnlR > cfg.dailyStopLossR && s.tradesToday < cfg.maxTradesPerDay
    requires op.Result? ==> op.resultR >= -1.0 && op.alert in s.openTrades
    requires |Step(cfg, s, op).openTrades| <= k
    ensures WithinBudget(cfg, Step(cfg, s, op), k)
  {
    if op.Result? {
      RemoveOne(s.openTrades, op.alert);
    }
  }

  lemma RemoveOne(m: map<string, int>, a: string)
    requires a in m
    ensures |m - {a}| == |m| - 1
  {
    assert (m - {a}).Keys == m.Keys - {a};
  }

  function Fresh(now: int): State { State(0, 0, 0.0, Day(now), false, map[], map[]) }

  /** The worst day: the loss never reaches the stop plus k R, and the trade limit is never passed. */
  lemma DailyLossIsBounded(cfg: Config, now: int, ops: seq<Op>, k: nat)
    requires cfg.dailyStopLossR < 0.0 && Disciplined(cfg, Fresh(now), ops, k)
    ensures var s := Run(cfg, Fresh(now), ops);
            s.dailyPnlR > cfg.dailyStopLossR - k as real && (s.tradesToday == 0 || s.tradesToday <= cfg.maxTradesPerDay)
  {
    BudgetHolds(cfg, Fresh(now), ops, k);
  }

  lemma RunNext(cfg: Config, s: State, ops: seq<Op>, op: Op)
    ensures Run(cfg, s, ops + [op]) == Step(cfg, Run(cfg, s, ops), op)
  {
    hide Step;
    assert (ops + [op])[..|ops|] == ops;
  }

  lemma AllowedLast(cfg: Config, s: State, ops: seq<Op>, op: Op, k: nat)
    requires |Step(cfg, Run(cfg, s, ops), op).openTrades| <= k
    requires op.Open? ==> JustCleared(cfg, s, ops, op.alert)
    requires op.Result? ==> op.resultR >= -1.0 && op.alert in Run(cfg, s, ops).openTrades
    ensures AllowedWithin(cfg, s, ops + [op], |ops|, k)
  {
    hide Run, Step, JustCleared;
    var all := ops + [op];
    assert all[..|ops|] == ops && all[..|ops| + 1] == all && all[|ops|] == op;
    RunNext(cfg, s, ops, op);
  }

  lemma Extend(cfg: Config, s: State, ops: seq<Op>, op: Op, k: nat)
    requires Disciplined(cfg, s, ops, k) && |Step(cfg, Run(cfg, s, ops), op).openTrades| <= k
    requires op.Open? ==> JustCleared(cfg, s, ops, op.alert)
    requires op.Result? ==> op.resultR >= -1.0 && op.alert in Run(cfg, s, ops).openTrades
    ensures Disciplined(cfg, s, ops + [op], k)
    ensures Run(cfg, s, ops + [op]) == Step(cfg, Run(cfg, s, ops), op)
  {
    hide Run, Step, JustCleared, AllowedWithin;
    RunNext(cfg, s, ops, op);
    AllowedLast(cfg, s, ops, op, k);
    forall i | 0 <= i < |ops| ensures AllowedWithin(cfg, s, ops + [op], i, k) {
      AllowedBefore(cfg, s, ops, op, i, k);
    }
  }

  // ---------------------------------------------------------------------
  // When a check refuses
  // ---------------------------------------------------------------------

  /** The refusal is for the first of these that holds, in this order. */
  lemma RefusalExactly(cfg: Config, s: State, alert: string, now: int)
    ensures var r := Gate(cfg, s, alert, now);
            var open := !s.halted && s.tradesToday < cfg.maxTradesPerDay;
            var inLimits := open && s.consecutiveLosses < cfg.maxConsecutiveLosses && s.dailyPnlR > cfg.dailyStopLossR;
            var waiting := alert in s.cooldowns && now < s.cooldowns[alert];
            && (r == Some(TradingHalted) <==> s.halted)
            && (r == Some(TradeLimit) <==> !s.halted && s.tradesToday >= cfg.maxTradesPerDay)
            && (r == Some(LossLimit) <==> open && s.consecutiveLosses >= cfg.maxConsecutiveLosses)
            && (r == Some(DailyStop) <==>
                 open && s.consecutiveLosses < cfg.maxConsecutiveLosses && s.dailyPnlR <= cfg.dailyStopLossR)
            && (r == Some(CoolingDown) <==> inLimits && waiting)
            && (r == None <==> inLimits && !waiting)
            && (DailyRefusal(cfg, s) == if r == Some(CoolingDown) then None else r)
  {
  }

  /** Operation i is the last halt or resume, and it was a halt. */
  ghost predicate LastHalts(ops: seq<Op>, i: nat) {
    i < |ops| && ops[i].Halt? && forall j :: i < j < |ops| ==> !ops[j].Resume?
  }

  /** A halt refuses every check until it is resumed, across days. */
  lemma {:induction false} HaltedExactly(cfg: Config, s: State, ops: seq<Op>)
    requires !s.halted
    ensures Run(cfg, s, ops).halted <==> exists i: nat :: LastHalts(ops, i)
  {
    if ops != [] {
      hide Roll;
      var n := |ops| - 1;
      HaltedExactly(cfg, s, ops[..n]);
      RollKeeps(Run(cfg, s, ops[..n]), ops[n]);
      if i: nat :| LastHalts(ops[..n], i) {
        assert !ops[n].Resume? ==> LastHalts(ops, i);
      }
      if i: nat :| LastHalts(ops, i) {
        assert i < n ==> LastHalts(ops[..n], i);
      }
      assert ops[n].Halt? ==> LastHalts(ops, n);
    }
  }

  /** A new day clears the counters and nothing else. */
  lemma RollKeeps(s: State, op: Op)
    ensures forall now :: Roll(s, now).halted == s.halted && Roll(s, now).cooldowns == s.cooldowns
                          && Roll(s, now).openTrades == s.openTrades
  {
  }

  /** Operation i is when the alert last came in, and no result of it has been recorded since. */
  ghost predicate LastReceived(ops: seq<Op>, alert: string, i: nat) {
    && i < |ops| && ops[i].Receive? && ops[i].alert == alert
    && forall j :: i < j < |ops| && (ops[j].Receive? || ops[j].Result?) ==> ops[j].alert != alert
  }

  /** An alert waits for its cooldown since it last came in, and not at all once its result has been recorded. */
  lemma {:induction false} CooldownExactly(cfg: Config, s: State, ops: seq<Op>, alert: string)
    requires s.cooldowns == map[]
    ensures var t := Run(cfg, s, ops);
            && (alert in t.cooldowns <==> exists i: nat :: LastReceived(ops, alert, i))
            && forall i: nat :: LastReceived(ops, alert, i) ==> t.cooldowns[alert] == ops[i].now + cfg.cooldownMs
  {
    if ops != [] {
      hide Roll;
      var n := |ops| - 1;
      CooldownExactly(cfg, s, ops[..n], alert);
      RollKeeps(Run(cfg, s, ops[..n]), ops[n]);
      forall i: nat
        ensures LastReceived(ops, alert, i) <==>
                  || (i == n && ops[n].Receive? && ops[n].alert == alert)
                  || (LastReceived(ops[..n], alert, i)
                      && !((ops[n].Receive? || ops[n].Result?) && ops[n].alert == alert))
      {
        ReceivedStep(ops, alert, i);
      }
      if i: nat :| LastReceived(ops[..n], alert, i) {
        assert LastReceived(ops, alert, i) || ((ops[n].Receive? || ops[n].Result?) && ops[n].alert == alert);
      }
      assert ops[n].Receive? && ops[n].alert == alert ==> LastReceived(ops, alert, n);
    }
  }

  lemma ReceivedStep(ops: seq<Op>, alert: string, i: nat)
    requires ops != []
    ensures var n := |ops| - 1;
            LastReceived(ops, alert, i) <==>
              || (i == n && ops[n].Receive? && ops[n].alert == alert)
              || (LastReceived(ops[..n], alert, i) && !((ops[n].Receive? || ops[n].Result?) && ops[n].alert == alert))
  {
    assert forall j :: 0 <= j < |ops| - 1 ==> ops[..|ops| - 1][j] == ops[j];
  }

  // ---------------------------------------------------------------------
  // What the counters count
  // ---------------------------------------------------------------------

  /** The reading that an operation rolls the day with. */
  function Clock(op: Op): Option<int> {
    match op
    case Check(_, now, _) => Some(now)
    case Open(_, now, _) => Some(now)
    case Result(_, _, now) => Some(now)
    case Status(now) => Some(now)
    case _ => None
  }

  function Opens(ops: seq<Op>): nat {
    if ops == [] then 0 else Opens(ops[..|ops| - 1]) + if ops[|ops| - 1].Open? then 1 else 0
  }

  function Results(ops: seq<Op>): seq<real> {
    if ops == [] then [] else
      var op := ops[|ops| - 1];
      Results(ops[..|ops| - 1]) + if op.Result? then [op.resultR] else []
  }

  /** n is the length of the losing run that ends the results. */
  ghost predicate IsLosingRun(results: seq<real>, n: nat) {
    && n <= |results| && (forall i :: |results| - n <= i < |results| ==> results[i] < 0.0)
    && (n < |results| ==> results[|results| - n - 1] >= 0.0)
  }

  /** The first operation that reads the clock starts the day, or it runs already and nothing has happened on it. */
  ghost predicate FreshDay(s: State, ops: seq<Op>, day: int) {
    if s.resetDay == day then s.tradesToday == 0 && s.dailyPnlR == 0.0 && s.consecutiveLosses == 0
    else ops != [] && Clock(ops[0]).Some?
  }

  ghost predicate OnDay(ops: seq<Op>, day: int) {
    forall i :: 0 <= i < |ops| && Clock(ops[i]).Some? ==> Day(Clock(ops[i]).value) == day
  }

  /**
   * On every day, from its first reading on, the counters are the number of trades opened, the sum of the results
   * and the length of the losing run that ends them.
   */
  lemma {:induction false} CountersExactly(cfg: Config, s: State, ops: seq<Op>, day: int)
    requires OnDay(ops, day) && FreshDay(s, ops, day)
    ensures ops != [] || s.resetDay == day ==> Counts(Run(cfg, s, ops), ops, day)
  {
    if ops == [] {
      NoResults();
    } else {
      var n := |ops| - 1;
      var before := Run(cfg, s, ops[..n]);
      assert Run(cfg, s, ops) == Step(cfg, before, ops[n]);
      CounterStep(cfg, before, ops[n]);
      assert Clock(ops[n]).Some? ==> Day(Clock(ops[n]).value) == day;
      if n == 0 && s.resetDay != day {
        NoResults();
        CountStep(before.(resetDay := day, tradesToday := 0, dailyPnlR := 0.0, consecutiveLosses := 0),
                  Run(cfg, s, ops), ops, day);
      } else {
        assert OnDay(ops[..n], day) && FreshDay(s, ops[..n], day);
        CountersExactly(cfg, s, ops[..n], day);
        CountStep(before, Run(cfg, s, ops), ops, day);
      }
    }
  }

  ghost predicate Counts(t: State, ops: seq<Op>, day: int) {
    && t.resetDay == day && t.tradesToday == Opens(ops) && t.dailyPnlR == Sum(Results(ops))
    && IsLosingRun(Results(ops), t.consecutiveLosses)
  }

  lemma CountStep(t: State, next: State, ops: seq<Op>, day: int)
    requires ops != [] && Counts(t, ops[..|ops| - 1], day) && next.resetDay == day
    requires var op := ops[|ops| - 1];
             && next.tradesToday == t.tradesToday + (if op.Open? then 1 else 0)
             && next.dailyPnlR == (if op.Result? then t.dailyPnlR + op.resultR else t.dailyPnlR)
             && next.consecutiveLosses ==
                  if op.Result? then (if op.resultR < 0.0 then t.consecutiveLosses + 1 else 0) else t.consecutiveLosses
    ensures Counts(next, ops, day)
  {
    hide Sum, IsLosingRun;
    var op, before := ops[|ops| - 1], Results(ops[..|ops| - 1]);
    if op.Result? {
      OneMoreResult(before, op.resultR, t.consecutiveLosses);
    } else {
      assert before + [] == before;
    }
  }

  lemma NoResults()
    ensures Sum([]) == 0.0 && IsLosingRun([], 0)
  {
  }

  lemma OneMoreResult(results: seq<real>, x: real, losses: nat)
    requires IsLosingRun(results, losses)
    ensures Sum(results + [x]) == Sum(results) + x
    ensures IsLosingRun(results + [x], if x < 0.0 then losses + 1 else 0)
  {
    assert (results + [x])[..|results|] == results;
  }

  lemma CounterStep(cfg: Config, s: State, op: Op)
    ensures var t := Step(cfg, s, op);
            var rolls := Clock(op).Some? && Day(Clock(op).value) != s.resetDay;
            var pnl, losses := if rolls then 0.0 else s.dailyPnlR, if rolls then 0 else s.consecutiveLosses;
            && t.resetDay == (if rolls then Day(Clock(op).value) else s.resetDay)
            && t.tradesToday == (if rolls then 0 else s.tradesToday) + (if op.Open? then 1 else 0)
            && t.dailyPnlR == (if op.Result? then pnl + op.resultR else pnl)
            && t.consecutiveLosses ==
                 if op.Result? then (if op.resultR < 0.0 then losses + 1 else 0) else losses
  {
    hide Day;
  }

  /** An opened trade is open, since the second reading, until its result is recorded. */
  lemma {:induction false} OpenExactly(cfg: Config, s: State, ops: seq<Op>, alert: string)
    requires s.openTrades == map[]
    ensures var t := Run(cfg, s, ops);
            && (alert in t.openTrades <==> exists i: nat :: LastOpened(ops, alert, i))
            && forall i: nat :: LastOpened(ops, alert, i) ==> t.openTrades[alert] == ops[i].later
  {
    if ops != [] {
      hide Roll;
      var n := |ops| - 1;
      OpenExactly(cfg, s, ops[..n], alert);
      RollKeeps(Run(cfg, s, ops[..n]), ops[n]);
      forall i: nat
        ensures LastOpened(ops, alert, i) <==>
                  || (i == n && ops[n].Open? && ops[n].alert == alert)
                  || (LastOpened(ops[..n], alert, i)
                      && !((ops[n].Open? || ops[n].Result?) && ops[n].alert == alert))
      {
        OpenedStep(ops, alert, i);
      }
      if i: nat :| LastOpened(ops[..n], alert, i) {
        assert LastOpened(ops, alert, i) || ((ops[n].Open? || ops[n].Result?) && ops[n].alert == alert);
      }
      assert ops[n].Open? && ops[n].alert == alert ==> LastOpened(ops, alert, n);
    }
  }

  /** Operation i opened the trade last, and no result of it has been recorded since. */
  ghost predicate LastOpened(ops: seq<Op>, alert: string, i: nat) {
    && i < |ops| && ops[i].Open? && ops[i].alert == alert
    && forall j :: i < j < |ops| && (ops[j].Open? || ops[j].Result?) ==> ops[j].alert != alert
  }

  lemma OpenedStep(ops: seq<Op>, alert: string, i: nat)
    requires ops != []
    ensures var n := |ops| - 1;
            LastOpened(ops, alert, i) <==>
              || (i == n && ops[n].Open? && ops[n].alert == alert)
              || (LastOpened(ops[..n], alert, i) && !((ops[n].Open? || ops[n].Result?) && ops[n].alert == alert))
  {
    assert forall j :: 0 <= j < |ops| - 1 ==> ops[..|ops| - 1][j] == ops[j];
  }

  // ---------------------------------------------------------------------
  // The worst day
  // ---------------------------------------------------------------------

  /** A disciplined day, all at time 0, that has come to this state. */
  ghost predicate Reached(cfg: Config, k: nat, ops: seq<Op>, trades: nat, losses: nat, pnl: real, open: nat) {
    && Disciplined(cfg, Fresh(0), ops, k)
    && Run(cfg, Fresh(0), ops) == State(trades, losses, pnl, 0, false, map[], Opened(open))
  }

  function Name(i: nat): (s: string)
    ensures |s| == i
  {
    seq(i, _ => 'x')
  }

  function Opened(i: nat): map<string, int> { if i == 0 then map[] else Opened(i - 1)[Name(i - 1) := 0] }

  lemma {:induction false} OpenedAre(i: nat)
    ensures |Opened(i)| == i && Name(i) !in Opened(i) && forall a :: a in Opened(i) ==> |a| < i
  {
    if i > 0 {
      OpenedAre(i - 1);
      assert Opened(i).Keys == Opened(i - 1).Keys + {Name(i - 1)};
    }
  }

  lemma ClosesLast(i: nat)
    ensures Opened(i + 1) - {Name(i)} == Opened(i) && Name(i) in Opened(i + 1)
  {
    OpenedAre(i);
  }

  /** Check, then open. */
  lemma OpenNext(cfg: Config, k: nat, ops: seq<Op>, trades: nat, losses: nat, pnl: real, open: nat)
    returns (next: seq<Op>)
    requires Reached(cfg, k, ops, trades, losses, pnl, open) && open < k
    requires trades < cfg.maxTradesPerDay && losses < cfg.maxConsecutiveLosses && pnl > cfg.dailyStopLossR
    ensures Reached(cfg, k, next, trades + 1, losses, pnl, open + 1)
  {
    OpenedAre(open);
    OpenedAre(open + 1);
    hide Disciplined, Opened;
    Extend(cfg, Fresh(0), ops, Check(Name(open), 0, 0), k);
    assert Opened(open)[Name(open) := 0] == Opened(open + 1) by { OpenedNext(open); }
    Extend(cfg, Fresh(0), ops + [Check(Name(open), 0, 0)], Open(Name(open), 0, 0), k);
    next := ops + [Check(Name(open), 0, 0)] + [Open(Name(open), 0, 0)];
  }

  lemma OpenedNext(i: nat)
    ensures Opened(i)[Name(i) := 0] == Opened(i + 1)
  {
  }

  lemma CloseLast(cfg: Config, k: nat, ops: seq<Op>, trades: nat, losses: nat, pnl: real, open: nat, x: real)
    returns (next: seq<Op>)
    requires Reached(cfg, k, ops, trades, losses, pnl, open + 1) && open <= k && -1.0 <= x < 0.0
    ensures Reached(cfg, k, next, trades, losses + 1, pnl + x, open)
  {
    ClosesLast(open);
    OpenedAre(open);
    hide Disciplined, Opened;
    Extend(cfg, Fresh(0), ops, Result(Name(open), x, 0), k);
    next := ops + [Result(Name(open), x, 0)];
  }

  /** n trades, one after the other, each losing the same. */
  lemma {:induction false} LoseEach(cfg: Config, k: nat, n: nat, x: real) returns (ops: seq<Op>)
    requires k >= 1 && n <= cfg.maxTradesPerDay && n <= cfg.maxConsecutiveLosses
    requires -1.0 <= x < 0.0 && cfg.dailyStopLossR < Losses(n, x)
    ensures Reached(cfg, k, ops, n, n, Losses(n, x), 0)
  {
    ops := [];
    assert Losses(0, x) == 0.0 && Reached(cfg, k, ops, 0, 0, 0.0, 0);
    hide Losses, Reached;
    if n > 0 {
      var before := Losses(n - 1, x);
      OneMoreLoss(n - 1, x);
      ops := LoseEach(cfg, k, n - 1, x);
      ops := OpenNext(cfg, k, ops, n - 1, n - 1, before, 0);
      ops := CloseLast(cfg, k, ops, n, n - 1, before, 0, x);
    }
  }

  function Losses(n: nat, x: real): real { n as real * x }

  lemma OneMoreLoss(n: nat, x: real)
    ensures Losses(n + 1, x) == Losses(n, x) + x
  {
  }

  lemma {:induction false} OpenAll(cfg: Config, k: nat, start: seq<Op>, n: nat, pnl: real, open: nat)
    returns (ops: seq<Op>)
    requires Reached(cfg, k, start, n, n, pnl, 0) && open <= k
    requires n + open <= cfg.maxTradesPerDay && n < cfg.maxConsecutiveLosses && pnl > cfg.dailyStopLossR
    ensures Reached(cfg, k, ops, n + open, n, pnl, open)
  {
    ops := start;
    if open > 0 {
      ops := OpenAll(cfg, k, start, n, pnl, open - 1);
      ops := OpenNext(cfg, k, ops, n + open - 1, n, pnl, open - 1);
    }
  }

  lemma {:induction false} CloseAll(cfg: Config, k: nat, start: seq<Op>, trades: nat, losses: nat, pnl: real, open: nat)
    returns (ops: seq<Op>)
    requires Reached(cfg, k, start, trades, losses, pnl, open) && open <= k
    ensures Reached(cfg, k, ops, trades, losses + open, pnl - open as real, 0)
    decreases open
  {
    ops := start;
    if open > 0 {
      ops := CloseLast(cfg, k, start, trades, losses, pnl, open - 1, -1.0);
      ops := CloseAll(cfg, k, ops, trades, losses + 1, pnl - 1.0, open - 1);
    }
  }

  /**
   * The bound is sharp for every stop and every k: when the limits leave room for n losing trades that reach the
   * stop and k more, a disciplined day comes as close to the bound as one likes.
   */
  lemma BoundIsSharp(cfg: Config, k: nat, n: nat, eps: real)
    requires cfg.dailyStopLossR < 0.0 && k >= 1 && eps > 0.0
    requires n as real >= -cfg.dailyStopLossR && n < cfg.maxConsecutiveLosses && n + k <= cfg.maxTradesPerDay
    ensures exists ops ::
              && Disciplined(cfg, Fresh(0), ops, k)
              && var pnl := Run(cfg, Fresh(0), ops).dailyPnlR;
                 cfg.dailyStopLossR - k as real < pnl < cfg.dailyStopLossR - k as real + eps
  {
    var d := Min(eps, -cfg.dailyStopLossR) / 2.0;
    var target := cfg.dailyStopLossR + d;
    var x := EvenShare(target, n);
    var ops := LoseEach(cfg, k, n, x);
    ops := OpenAll(cfg, k, ops, n, target, k);
    ops := CloseAll(cfg, k, ops, n + k, n, target, k);
  }

  lemma EvenShare(total: real, n: nat) returns (x: real)
    requires total < 0.0 && total >= -(n as real)
    ensures -1.0 <= x < 0.0 && Losses(n, x) == total
  {
    x := total / n as real;
    assert n as real * x == total;
  }
}
