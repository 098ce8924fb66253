/** What the risk daemon's state should be, as functions of everything it was told (internal/risk/daemon.go). */
module RiskSpec {
  import opened RealSeq
  import opened Calendar

  const WINDOW_MS := 300000 // five minutes

  /** The operating modes, in order of severity. */
  datatype RunMode = Running | Paused | Safe | Flatten | Halted {
    function Rank(): nat {
      match this
      case Running => 0
      case Paused => 1
      case Safe => 2
      case Flatten => 3
      case Halted => 4
    }
  }

  function MaxMode(a: RunMode, b: RunMode): RunMode { if b.Rank() > a.Rank() then b else a }

  datatype Config = Config(maxDrawdownPct: real, safeModeDrawdownPct: real, dailySoftHaltPct: real,
                           dailyHardHaltPct: real, maxErrorRatePct: real, legMismatchAlertMs: int,
                           legMismatchCloseMs: int)

  /** side is "Buy" or "Sell". */
  datatype Leg = Leg(symbol: string, side: string, size: real)

  datatype FillEvent = FillEvent(tsMs: int, pnl: real)

  /**
   * What the daemon is told; SetMode is the operator's (or the margin monitor's) override. An equity update reads
   * the clock a second time for the day.
   */
  datatype Input =
    | Fill(now: int, pnl: real, isError: bool)
    | Equity(now: int, later: int, value: real)
    | Tick(now: int)
    | Query(now: int)
    | Snapshot(now: int, legs: seq<Leg>)
    | SetMode(mode: RunMode)

  // ---------------------------------------------------------------------
  // Error rate
  // ---------------------------------------------------------------------

  /** The events at or after a cutoff, in order. */
  function Recent(s: seq<FillEvent>, cutoff: int): seq<FillEvent> {
    if s == [] then [] else
      var e := s[|s| - 1];
      Recent(s[..|s| - 1], cutoff) + if e.tsMs >= cutoff then [e] else []
  }

  /** The event that one input adds to the fills or, when only errors are asked for, to the errors. */
  function Booked(x: Input, errorsOnly: bool): seq<FillEvent> {
    if x.Fill? && (errorsOnly ==> x.isError) then [FillEvent(x.now, x.pnl)] else []
  }

  /** Every fill ever recorded, or every error. */
  function Events(log: seq<Input>, errorsOnly: bool): seq<FillEvent> {
    if log == [] then [] else Events(log[..|log| - 1], errorsOnly) + Booked(log[|log| - 1], errorsOnly)
  }

  /** Both buffers are pruned at x.now. */
  predicate Prunes(x: Input) { x.Fill? || x.Equity? || x.Tick? || x.Query? }

  /** A buffer after one more input: the event is booked, then everything over five minutes old goes. */
  function Refreshed(kept: seq<FillEvent>, x: Input, errorsOnly: bool): seq<FillEvent> {
    var booked := kept + Booked(x, errorsOnly);
    if Prunes(x) then Recent(booked, x.now - WINDOW_MS) else booked
  }

  /** What a buffer holds. */
  function Kept(log: seq<Input>, errorsOnly: bool): seq<FillEvent> {
    if log == [] then [] else Refreshed(Kept(log[..|log| - 1], errorsOnly), log[|log| - 1], errorsOnly)
  }

  function Rate(errors: nat, total: nat): real {
    if total == 0 then 0.0 else errors as real / total as real * 100.0
  }

  /** The rate that the last input of a log finds in the buffers. */
  function KeptRate(log: seq<Input>): real { Rate(|Kept(log, true)|, |Kept(log, false)|) }

  /** The error percentage over every fill recorded in the five minutes up to now. */
  function ErrorRate(log: seq<Input>, now: int): real {
    Rate(|Recent(Events(log, true), now - WINDOW_MS)|, |Recent(Events(log, false), now - WINDOW_MS)|)
  }

  /** Pruning twice, in either order, is pruning at the later cutoff. */
  lemma {:induction false} RecentTwice(s: seq<FillEvent>, c: int, d: int)
    ensures Recent(Recent(s, c), d) == Recent(s, if c <= d then d else c)
  {
    if s != [] {
      var s', e := s[..|s| - 1], s[|s| - 1];
      RecentTwice(s', c, d);
      if e.tsMs >= c {
        RecentAppend(Recent(s', c), e, d);
      } else {
        assert Recent(s', c) + [] == Recent(s', c);
      }
    }
  }

  lemma RecentAppend(s: seq<FillEvent>, e: FillEvent, cutoff: int)
    ensures Recent(s + [e], cutoff) == Recent(s, cutoff) + if e.tsMs >= cutoff then [e] else []
  {
    assert (s + [e])[..|s|] == s;
  }

  lemma RecentBooked(s: seq<FillEvent>, x: Input, errorsOnly: bool, cutoff: int)
    ensures Recent(s + Booked(x, errorsOnly), cutoff) == Recent(s, cutoff) + Recent(Booked(x, errorsOnly), cutoff)
    ensures Recent(Booked(x, errorsOnly), cutoff)
         == if Booked(x, errorsOnly) != [] && x.now < cutoff then [] else Booked(x, errorsOnly)
  {
    var b := Booked(x, errorsOnly);
    if b == [] {
      assert s + b == s;
    } else {
      RecentAppend(s, b[0], cutoff);
      RecentAppend([], b[0], cutoff);
      assert [] + [b[0]] == b;
    }
  }

  /** Where an input that prunes moves a cutoff to. */
  function Moved(x: Input, cutoff: int): (c: int)
    ensures c >= cutoff
  {
    if Prunes(x) && x.now - WINDOW_MS > cutoff then x.now - WINDOW_MS else cutoff
  }

  /** What is left of a buffer at a cutoff, from what was left before the last input. */
  lemma KeptStep(log: seq<Input>, errorsOnly: bool, cutoff: int)
    requires log != []
    ensures var x := log[|log| - 1];
            var c := Moved(x, cutoff);
            Recent(Kept(log, errorsOnly), cutoff)
              == Recent(Kept(log[..|log| - 1], errorsOnly), c) + Recent(Booked(x, errorsOnly), c)
  {
    var x := log[|log| - 1];
    var before := Kept(log[..|log| - 1], errorsOnly);
    assert Kept(log, errorsOnly) == Refreshed(before, x, errorsOnly);
    hide Kept, Recent, Booked;
    if Prunes(x) {
      RecentTwice(before + Booked(x, errorsOnly), x.now - WINDOW_MS, cutoff);
    }
    RecentBooked(before, x, errorsOnly, Moved(x, cutoff));
  }

  lemma EventsStep(log: seq<Input>, errorsOnly: bool, cutoff: int)
    requires log != []
    ensures var x := log[|log| - 1];
            Recent(Events(log, errorsOnly), cutoff)
              == Recent(Events(log[..|log| - 1], errorsOnly), cutoff) + Recent(Booked(x, errorsOnly), cutoff)
  {
    hide Recent, Booked;
    RecentBooked(Events(log[..|log| - 1], errorsOnly), log[|log| - 1], errorsOnly, cutoff);
  }

  lemma BookedIsOne(x: Input, cutoff: int)
    ensures |Recent(Booked(x, true), cutoff)| <= |Recent(Booked(x, false), cutoff)|
  {
    RecentBooked([], x, true, cutoff);
    RecentBooked([], x, false, cutoff);
  }

  lemma {:induction false} FewerErrorsThanFills(log: seq<Input>, cutoff: int)
    ensures |Recent(Kept(log, true), cutoff)| <= |Recent(Kept(log, false), cutoff)|
    ensures |Recent(Events(log, true), cutoff)| <= |Recent(Events(log, false), cutoff)|
  {
    if log != [] {
      var before, x := log[..|log| - 1], log[|log| - 1];
      FewerErrorsThanFills(before, cutoff);
      FewerErrorsThanFills(before, Moved(x, cutoff));
      KeptStep(log, true, cutoff);
      KeptStep(log, false, cutoff);
      EventsStep(log, true, cutoff);
      EventsStep(log, false, cutoff);
      BookedIsOne(x, cutoff);
      BookedIsOne(x, Moved(x, cutoff));
      hide Recent, Booked, Kept, Events, Moved;
    } else {
      assert Kept(log, true) == [] && Kept(log, false) == [] && Events(log, true) == [] && Events(log, false) == [];
    }
  }

  lemma PrunedAlready(s: seq<FillEvent>, cutoff: int)
    ensures Recent(Recent(s, cutoff), cutoff) == Recent(s, cutoff)
  {
    RecentTwice(s, cutoff, cutoff);
  }

  lemma {:induction false} FewerKeptErrors(log: seq<Input>)
    ensures |Kept(log, true)| <= |Kept(log, false)|
  {
    if log != [] {
      var before, x := log[..|log| - 1], log[|log| - 1];
      FewerKeptErrors(before);
      if Prunes(x) {
        var d := x.now - WINDOW_MS;
        FewerErrorsThanFills(log, d);
        PrunedAlready(Kept(before, true) + Booked(x, true), d);
        PrunedAlready(Kept(before, false) + Booked(x, false), d);
        hide Recent, Booked;
      }
    }
  }

  /** Both rates, of the buffers and of the whole log, are percentages. */
  lemma ErrorRateInRange(log: seq<Input>, now: int)
    ensures 0.0 <= ErrorRate(log, now) <= 100.0 && 0.0 <= KeptRate(log) <= 100.0
  {
    hide Kept, Events, Recent, Rate;
    FewerErrorsThanFills(log, now - WINDOW_MS);
    RateInRange(|Recent(Events(log, true), now - WINDOW_MS)|, |Recent(Events(log, false), now - WINDOW_MS)|);
    FewerKeptErrors(log);
    RateInRange(|Kept(log, true)|, |Kept(log, false)|);
  }

  lemma RateInRange(errors: nat, total: nat)
    requires errors <= total
    ensures 0.0 <= Rate(errors, total) <= 100.0
  {
    if total > 0 {
      var q := errors as real / total as real;
      assert q * total as real == errors as real;
      assert 0.0 <= q <= 1.0;
    }
  }

  // ---------------------------------------------------------------------
  // When pruning loses an event
  // ---------------------------------------------------------------------

  /** Event i is at or after the cutoff, and reading j of the clock, at or after it, was over five minutes later. */
  ghost predicate LostBy(log: seq<Input>, errorsOnly: bool, cutoff: int, i: nat, j: nat) {
    && i <= j < |log| && Booked(log[i], errorsOnly) != [] && Prunes(log[j])
    && cutoff <= log[i].now < log[j].now - WINDOW_MS
  }

  ghost predicate NothingLost(log: seq<Input>, errorsOnly: bool, cutoff: int) {
    forall i: nat, j: nat :: !LostBy(log, errorsOnly, cutoff, i, j)
  }

  /**
   * The buffer shows all of the window exactly when no event of the window was pruned by an earlier reading of a
   * clock that has gone back since; otherwise some event is missing.
   */
  lemma {:induction false} PruningLosesNothingExactly(log: seq<Input>, errorsOnly: bool, cutoff: int)
    ensures if NothingLost(log, errorsOnly, cutoff) then
              Recent(Kept(log, errorsOnly), cutoff) == Recent(Events(log, errorsOnly), cutoff)
            else |Recent(Kept(log, errorsOnly), cutoff)| < |Recent(Events(log, errorsOnly), cutoff)|
  {
    if log != [] {
      var before, x := log[..|log| - 1], log[|log| - 1];
      var c := Moved(x, cutoff);
      KeptStep(log, errorsOnly, cutoff);
      EventsStep(log, errorsOnly, cutoff);
      PruningLosesNothingExactly(before, errorsOnly, c);
      LostStep(log, errorsOnly, cutoff);
      EventsBetween(before, errorsOnly, cutoff, c);
      BookedBetween(log, errorsOnly, cutoff, c);
      BetweenStep(log, errorsOnly, cutoff, c);
      hide Recent, Booked, Kept, Events, Moved, NothingLost, NoneBetween;
    }
  }

  /** An event of the log lies in the window from cutoff to c. */
  ghost predicate Between(log: seq<Input>, errorsOnly: bool, cutoff: int, c: int, i: nat) {
    i < |log| && Booked(log[i], errorsOnly) != [] && cutoff <= log[i].now < c
  }

  ghost predicate NoneBetween(log: seq<Input>, errorsOnly: bool, cutoff: int, c: int) {
    forall i: nat :: !Between(log, errorsOnly, cutoff, c, i)
  }

  /** The last input loses exactly the events between the cutoff and the one it moves to. */
  lemma LostStep(log: seq<Input>, errorsOnly: bool, cutoff: int)
    requires log != []
    ensures var n := |log| - 1;
            var c := Moved(log[n], cutoff);
            NothingLost(log, errorsOnly, cutoff) <==>
              NothingLost(log[..n], errorsOnly, c) && NoneBetween(log, errorsOnly, cutoff, c)
  {
    hide Booked, WINDOW_MS;
    var n := |log| - 1;
    var c := Moved(log[n], cutoff);
    forall i: nat, j: nat
      ensures LostBy(log, errorsOnly, cutoff, i, j) ==>
                LostBy(log[..n], errorsOnly, c, i, j) || Between(log, errorsOnly, cutoff, c, i)
      ensures LostBy(log[..n], errorsOnly, c, i, j) ==> LostBy(log, errorsOnly, cutoff, i, j)
    {
    }
    forall i: nat ensures Between(log, errorsOnly, cutoff, c, i) ==> LostBy(log, errorsOnly, cutoff, i, n) {
    }
  }

  lemma BetweenStep(log: seq<Input>, errorsOnly: bool, cutoff: int, c: int)
    requires log != []
    ensures var n := |log| - 1;
            NoneBetween(log, errorsOnly, cutoff, c) <==>
              NoneBetween(log[..n], errorsOnly, cutoff, c) && !Between(log, errorsOnly, cutoff, c, n)
  {
    hide Booked;
    var n := |log| - 1;
    forall i: nat
      ensures Between(log, errorsOnly, cutoff, c, i)
         <==> Between(log[..n], errorsOnly, cutoff, c, i) || (i == n && Between(log, errorsOnly, cutoff, c, n))
    {
    }
  }

  lemma BookedBetween(log: seq<Input>, errorsOnly: bool, cutoff: int, c: int)
    requires log != [] && cutoff <= c
    ensures var x := log[|log| - 1];
            if Between(log, errorsOnly, cutoff, c, |log| - 1) then
              |Recent(Booked(x, errorsOnly), c)| < |Recent(Booked(x, errorsOnly), cutoff)|
            else Recent(Booked(x, errorsOnly), c) == Recent(Booked(x, errorsOnly), cutoff)
  {
    RecentBooked([], log[|log| - 1], errorsOnly, c);
    RecentBooked([], log[|log| - 1], errorsOnly, cutoff);
  }

  /** Moving the cutoff forward drops something exactly when there is an event between the two. */
  lemma {:induction false} EventsBetween(log: seq<Input>, errorsOnly: bool, cutoff: int, c: int)
    requires cutoff <= c
    ensures if NoneBetween(log, errorsOnly, cutoff, c) then
              Recent(Events(log, errorsOnly), c) == Recent(Events(log, errorsOnly), cutoff)
            else |Recent(Events(log, errorsOnly), c)| < |Recent(Events(log, errorsOnly), cutoff)|
  {
    if log != [] {
      var n := |log| - 1;
      EventsBetween(log[..n], errorsOnly, cutoff, c);
      EventsStep(log, errorsOnly, cutoff);
      EventsStep(log, errorsOnly, c);
      BookedBetween(log, errorsOnly, cutoff, c);
      BetweenStep(log, errorsOnly, cutoff, c);
      hide Recent, Booked, Events, NoneBetween;
    }
  }

  /** No later reading of the clock is earlier than a former one. */
  ghost predicate ClockInOrder(log: seq<Input>) {
    forall i, j :: 0 <= i <= j < |log| && Prunes(log[i]) && Prunes(log[j]) ==> log[i].now <= log[j].now
  }

  /** With such a clock the rate found by an input is the one over every fill of the five minutes before it. */
  lemma RateIsExact(log: seq<Input>)
    requires log != [] && Prunes(log[|log| - 1]) && ClockInOrder(log)
    ensures KeptRate(log) == ErrorRate(log, log[|log| - 1].now)
  {
    var n := |log| - 1;
    var cutoff := log[n].now - WINDOW_MS;
    forall errorsOnly: bool ensures |Kept(log, errorsOnly)| == |Recent(Events(log, errorsOnly), cutoff)| {
      assert NothingLost(log, errorsOnly, cutoff);
      PruningLosesNothingExactly(log, errorsOnly, cutoff);
      RecentTwice(Kept(log[..n], errorsOnly) + Booked(log[n], errorsOnly), cutoff, cutoff);
    }
  }

  lemma LostError(fill: Input, tick: Input, query: Input, errorsOnly: bool)
    requires fill == Fill(0, 0.0, true) && tick == Tick(WINDOW_MS + 1) && query == Query(0)
    ensures |Kept([fill, tick, query], errorsOnly)| == 0
    ensures |Recent(Events([fill, tick, query], errorsOnly), -WINDOW_MS)| == 1
  {
    var e := FillEvent(0, 0.0);
    assert Booked(fill, errorsOnly) == [e];
    Start(errorsOnly, fill, e);
    Ignored([fill], tick, errorsOnly);
    Ignored([fill, tick], query, errorsOnly);
    assert [fill] + [tick] == [fill, tick] && [fill, tick] + [query] == [fill, tick, query];
    OneEvent(e, -WINDOW_MS);
    OneEvent(e, 1);
    hide Kept, Events, Booked, Recent;
  }

  lemma Start(errorsOnly: bool, x: Input, e: FillEvent)
    requires Prunes(x) && e.tsMs == x.now && Booked(x, errorsOnly) == [e]
    ensures Kept([x], errorsOnly) == [e] && Events([x], errorsOnly) == [e]
  {
    assert [x][..0] == [];
    assert [] + [e] == [e];
    OneEvent(e, x.now - WINDOW_MS);
    hide Recent, Booked;
  }

  lemma OneEvent(e: FillEvent, cutoff: int)
    ensures Recent([e], cutoff) == (if e.tsMs >= cutoff then [e] else []) && Recent([], cutoff) == []
  {
    RecentAppend([], e, cutoff);
    assert [] + [e] == [e];
  }

  /** An input that only prunes. */
  lemma Ignored(log: seq<Input>, x: Input, errorsOnly: bool)
    requires Prunes(x) && !x.Fill?
    ensures Kept(log + [x], errorsOnly) == Recent(Kept(log, errorsOnly), x.now - WINDOW_MS)
    ensures Events(log + [x], errorsOnly) == Events(log, errorsOnly)
  {
    assert (log + [x])[..|log|] == log;
    assert Kept(log, errorsOnly) + [] == Kept(log, errorsOnly);
    assert Events(log, errorsOnly) + [] == Events(log, errorsOnly);
    hide Recent;
  }

  /** An error, a reading over five minutes later, and a clock set back: the error is gone from its own window. */
  lemma ClockGoneBackCounterexample(fill: Input, tick: Input, query: Input)
    requires fill == Fill(0, 0.0, true) && tick == Tick(WINDOW_MS + 1) && query == Query(0)
    ensures ErrorRate([fill, tick, query], 0) == 100.0 && KeptRate([fill, tick, query]) == 0.0
  {
    var log := [fill, tick, query];
    assert log[..2] == [fill, tick] && [fill, tick][..1] == [fill] && [fill][..0] == [];
    forall errorsOnly: bool
      ensures |Kept(log, errorsOnly)| == 0 && |Recent(Events(log, errorsOnly), -WINDOW_MS)| == 1
    {
      LostError(fill, tick, query, errorsOnly);
    }
  }

  // ---------------------------------------------------------------------
  // Equity marks
  // ---------------------------------------------------------------------

  function Peak(log: seq<Input>): real {
    if log == [] then 0.0 else
      var x := log[|log| - 1];
      if x.Equity? then Max(Peak(log[..|log| - 1]), x.value) else Peak(log[..|log| - 1])
  }

  function Current(log: seq<Input>): real {
    if log == [] then 0.0 else
      var x := log[|log| - 1];
      if x.Equity? then x.value else Current(log[..|log| - 1])
  }

  /** The daily peak and the day it was last restarted on. */
  datatype Daily = Daily(peak: real, day: int)

  function NextDaily(d: Daily, now: int, value: real): Daily {
    var started := if Day(now) > d.day then Daily(value, Day(now)) else d;
    started.(peak := Max(started.peak, value))
  }

  function DailyOf(log: seq<Input>, startDay: int): Daily {
    if log == [] then Daily(0.0, startDay) else
      var x := log[|log| - 1];
      var d := DailyOf(log[..|log| - 1], startDay);
      if x.Equity? then NextDaily(d, x.later, x.value) else d
  }

  // ---------------------------------------------------------------------
  // Leg mismatch
  // ---------------------------------------------------------------------

  function Signed(l: Leg): real { if l.side == "Sell" then -l.size else l.size }

  function SignedSizes(legs: seq<Leg>): (r: seq<real>)
    ensures |r| == |legs|
  {
    seq(|legs|, i requires 0 <= i < |legs| => Signed(legs[i]))
  }

  function Sizes(legs: seq<Leg>): (r: seq<real>)
    ensures |r| == |legs|
  {
    seq(|legs|, i requires 0 <= i < |legs| => legs[i].size)
  }

  /** The net exposure is more than 5% of the total size. */
  predicate Unhedged(legs: seq<Leg>) {
    Abs(Sum(SignedSizes(legs))) > Sum(Sizes(legs)) * 0.05 && Sum(Sizes(legs)) > 0.0
  }

  /** 0 means that no mismatch is running. */
  function UnhedgedSince(log: seq<Input>): int {
    if log == [] then 0 else
      var x := log[|log| - 1];
      var since := UnhedgedSince(log[..|log| - 1]);
      if !x.Snapshot? then since
      else if !Unhedged(x.legs) then 0
      else if since == 0 then x.now
      else since
  }

  // ---------------------------------------------------------------------
  // Mode
  // ---------------------------------------------------------------------

  function DrawdownPct(peak: real, current: real): real
    requires peak > 0.0
  {
    (peak - current) / peak * 100.0
  }

  function OverallTargets(cfg: Config, peak: real, current: real): seq<RunMode> {
    if peak <= 0.0 || current <= 0.0 then []
    else
      var dd := DrawdownPct(peak, current);
      if dd >= cfg.maxDrawdownPct then [Halted] else if dd >= cfg.safeModeDrawdownPct then [Safe] else []
  }

  function DailyTargets(cfg: Config, peak: real, current: real): seq<RunMode> {
    if peak <= 0.0 || current <= 0.0 then []
    else
      var dd := DrawdownPct(peak, current);
      if dd >= cfg.dailyHardHaltPct then [Halted] else if dd >= cfg.dailySoftHaltPct then [Flatten] else []
  }

  function ErrorTargets(cfg: Config, log: seq<Input>): seq<RunMode> {
    if KeptRate(log) > cfg.maxErrorRatePct then [Paused] else []
  }

  /** Every escalation that one evaluation asks for, whether or not it raises the mode. */
  function Targets(cfg: Config, log: seq<Input>, startDay: int): seq<RunMode> {
    ErrorTargets(cfg, log)
    + OverallTargets(cfg, Peak(log), Current(log))
    + DailyTargets(cfg, DailyOf(log, startDay).peak, Current(log))
  }

  /** What the daemon reports: an equity that was never positive has no drawdown. */
  datatype State = State(mode: RunMode, drawdownPct: real, dailyDrawdownPct: real, peak: real, current: real,
                         errorRatePct: real)

  function ReportedPct(peak: real, current: real): real {
    if peak > 0.0 then DrawdownPct(peak, current) else 0.0
  }

  function StateOf(cfg: Config, log: seq<Input>, startDay: int): State {
    State(ModeOf(cfg, log, startDay), ReportedPct(Peak(log), Current(log)),
          ReportedPct(DailyOf(log, startDay).peak, Current(log)), Peak(log), Current(log), KeptRate(log))
  }

  /** The escalations that the last input of a log triggers. */
  function Triggered(cfg: Config, log: seq<Input>, startDay: int): seq<RunMode>
    requires log != []
  {
    match log[|log| - 1]
    case SetMode(_) => []
    case Query(_) => []
    case Snapshot(now, legs) =>
      if Unhedged(legs) && now - UnhedgedSince(log) >= cfg.legMismatchCloseMs then [Flatten] else []
    case Fill(_, _, _) => Targets(cfg, log, startDay)
    case Equity(_, _, _) => Targets(cfg, log, startDay)
    case Tick(_) => Targets(cfg, log, startDay)
  }

  /** The snapshot that ends the log only warns: the mismatch is long enough to report, not to flatten. */
  predicate Warns(cfg: Config, log: seq<Input>)
    requires log != [] && log[|log| - 1].Snapshot?
  {
    var x := log[|log| - 1];
    Unhedged(x.legs) && cfg.legMismatchAlertMs <= x.now - UnhedgedSince(log) < cfg.legMismatchCloseMs
  }

  function Escalate(mode: RunMode, targets: seq<RunMode>): RunMode {
    if targets == [] then mode else MaxMode(Escalate(mode, targets[..|targets| - 1]), targets[|targets| - 1])
  }

  function ModeOf(cfg: Config, log: seq<Input>, startDay: int): RunMode {
    if log == [] then Running else
      var x := log[|log| - 1];
      if x.SetMode? then x.mode else Escalate(ModeOf(cfg, log[..|log| - 1], startDay), Triggered(cfg, log, startDay))
  }

  lemma {:induction false} EscalateIsMaximum(mode: RunMode, targets: seq<RunMode>)
    ensures var m := Escalate(mode, targets);
            && m.Rank() >= mode.Rank()
            && (forall t :: t in targets ==> m.Rank() >= t.Rank())
            && (m == mode || m in targets)
  {
    if targets != [] {
      EscalateIsMaximum(mode, targets[..|targets| - 1]);
      assert targets == targets[..|targets| - 1] + [targets[|targets| - 1]];
    }
  }

  lemma {:induction false} EscalateConcat(mode: RunMode, s: seq<RunMode>, t: seq<RunMode>)
    ensures Escalate(mode, s + t) == Escalate(Escalate(mode, s), t)
  {
    if t == [] {
      assert s + t == s;
    } else {
      EscalateConcat(mode, s, t[..|t| - 1]);
      assert (s + t)[..|s + t| - 1] == s + t[..|t| - 1];
    }
  }

  /** Input i asked for this escalation. */
  ghost predicate AsksAt(cfg: Config, log: seq<Input>, startDay: int, i: nat, t: RunMode)
    requires i < |log|
  {
    t in Triggered(cfg, log[..i + 1], startDay)
  }

  ghost predicate AskedSince(cfg: Config, log: seq<Input>, startDay: int, k: nat, t: RunMode) {
    exists i :: k <= i < |log| && AsksAt(cfg, log, startDay, i, t)
  }

  /**
   * Between overrides the mode is the maximum of where it started and of every escalation asked for since:
   * it never falls, and it is one of them.
   */
  lemma {:induction false} ModeIsMaximum(cfg: Config, log: seq<Input>, startDay: int, k: nat)
    requires k <= |log| && forall i :: k <= i < |log| ==> !log[i].SetMode?
    ensures var base, m := ModeOf(cfg, log[..k], startDay), ModeOf(cfg, log, startDay);
            && m.Rank() >= base.Rank()
            && (forall t :: AskedSince(cfg, log, startDay, k, t) ==> m.Rank() >= t.Rank())
            && (m == base || AskedSince(cfg, log, startDay, k, m))
  {
    hide Triggered;
    if k == |log| {
      assert log[..k] == log;
    } else {
      var n := |log| - 1;
      var before := log[..n];
      ModeIsMaximum(cfg, before, startDay, k);
      assert before[..k] == log[..k] && log[..n + 1] == log;
      EscalateIsMaximum(ModeOf(cfg, before, startDay), Triggered(cfg, log, startDay));
      forall t ensures AskedSince(cfg, log, startDay, k, t)
                  <==> AskedSince(cfg, before, startDay, k, t) || t in Triggered(cfg, log, startDay)
      {
        AskedSinceStep(cfg, log, startDay, k, t);
      }
    }
  }

  lemma AskedSinceStep(cfg: Config, log: seq<Input>, startDay: int, k: nat, t: RunMode)
    requires k < |log|
    ensures AskedSince(cfg, log, startDay, k, t)
       <==> AskedSince(cfg, log[..|log| - 1], startDay, k, t) || t in Triggered(cfg, log, startDay)
  {
    hide Triggered;
    var n := |log| - 1;
    assert log[..n + 1] == log;
    forall i | k <= i < n ensures AsksAt(cfg, log[..n], startDay, i, t) == AsksAt(cfg, log, startDay, i, t) {
      assert log[..n][..i + 1] == log[..i + 1];
    }
    assert AsksAt(cfg, log, startDay, n, t) == (t in Triggered(cfg, log, startDay));
  }

  /** Only an equity update moves the marks. */
  lemma {:induction false} MarksStay(log: seq<Input>, startDay: int, k: nat)
    requires k <= |log| && forall i :: k <= i < |log| ==> !log[i].Equity?
    ensures Peak(log) == Peak(log[..k]) && Current(log) == Current(log[..k])
    ensures DailyOf(log, startDay) == DailyOf(log[..k], startDay)
  {
    if k == |log| {
      assert log[..k] == log;
    } else {
      var n := |log| - 1;
      MarksStay(log[..n], startDay, k);
      assert log[..n][..k] == log[..k];
    }
  }

  // ---------------------------------------------------------------------
  // When a mismatch flattens
  // ---------------------------------------------------------------------

  /** Snapshot i starts, or continues, a stretch of unhedged snapshots that lasts to the end of the log. */
  ghost predicate UnhedgedFrom(log: seq<Input>, i: nat) {
    && i < |log| && log[i].Snapshot?
    && forall j :: i <= j < |log| && log[j].Snapshot? ==> Unhedged(log[j].legs)
  }

  /** Snapshot i is the first of the stretch, but for ones read at 0, which as a marker means that none is running. */
  ghost predicate FirstOfStretch(log: seq<Input>, i: nat) {
    UnhedgedFrom(log, i) && forall k: nat :: k < i && UnhedgedFrom(log, k) ==> log[k].now == 0
  }

  /** The marker is the time of the first of the unhedged stretch that ends the log, under any clock. */
  lemma {:induction false} UnhedgedSinceMeaning(log: seq<Input>)
    ensures UnhedgedSince(log) == 0 ==> forall i: nat :: UnhedgedFrom(log, i) ==> log[i].now == 0
    ensures UnhedgedSince(log) != 0 ==> exists i: nat :: FirstOfStretch(log, i) && log[i].now == UnhedgedSince(log)
  {
    hide Unhedged;
    if log != [] {
      var n := |log| - 1;
      var before := log[..n];
      UnhedgedSinceMeaning(before);
      var kept := !log[n].Snapshot? || Unhedged(log[n].legs);
      forall i: nat
        ensures UnhedgedFrom(log, i) <==> kept && (UnhedgedFrom(before, i) || (i == n && log[n].Snapshot?))
      {
        UnhedgedFromStep(log, i);
      }
      if UnhedgedSince(before) != 0 {
        var i: nat :| FirstOfStretch(before, i) && before[i].now == UnhedgedSince(before);
        assert kept ==> FirstOfStretch(log, i);
      } else if kept && log[n].Snapshot? {
        assert FirstOfStretch(log, n);
      }
    }
  }

  lemma UnhedgedFromStep(log: seq<Input>, i: nat)
    requires log != []
    ensures var n := |log| - 1;
            UnhedgedFrom(log, i) <==>
              && (!log[n].Snapshot? || Unhedged(log[n].legs))
              && (UnhedgedFrom(log[..n], i) || (i == n && log[n].Snapshot?))
  {
    hide Unhedged;
    var n := |log| - 1;
    assert forall j :: 0 <= j < n ==> log[..n][j] == log[j];
  }

  /** A snapshot flattens exactly when the unhedged stretch it ends is at least the close threshold long. */
  lemma MismatchFlattensExactly(cfg: Config, log: seq<Input>, startDay: int)
    requires log != [] && log[|log| - 1].Snapshot?
    ensures var n := |log| - 1;
            Flatten in Triggered(cfg, log, startDay) <==>
              exists i: nat :: FirstOfStretch(log, i) && (log[i].now != 0 || i == n)
                               && log[n].now - log[i].now >= cfg.legMismatchCloseMs
  {
    hide Unhedged;
    UnhedgedSinceMeaning(log);
    var n := |log| - 1;
    if Unhedged(log[n].legs) {
      assert UnhedgedFrom(log, n);
      if UnhedgedSince(log) == 0 {
        assert FirstOfStretch(log, n);
      }
    }
  }
}
