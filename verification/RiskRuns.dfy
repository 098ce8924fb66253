/** What the risk daemon's alerts, mode and marks mean over every run of inputs (internal/risk/daemon.go). */
module RiskRuns {
  import opened RealSeq
  import opened Calendar
  import opened RiskSpec

  // ---------------------------------------------------------------------
  // Alerts
  // ---------------------------------------------------------------------

  /** A positive equity has fallen from a positive peak by at least that percentage of the peak. */
  ghost predicate FallenBy(peak: real, current: real, pct: real) {
    peak > 0.0 && current > 0.0 && pct * peak <= 100.0 * (peak - current)
  }

  /** More errors than that percentage of all fills; no fills count as no errors. */
  ghost predicate RateAbove(errors: nat, total: nat, pct: real) {
    if total == 0 then pct < 0.0 else 100.0 * errors as real > pct * total as real
  }

  lemma FallMeaning(peak: real, current: real, pct: real)
    ensures peak > 0.0 && current > 0.0 ==> (DrawdownPct(peak, current) >= pct <==> FallenBy(peak, current, pct))
  {
    if peak > 0.0 && current > 0.0 {
      var dd := DrawdownPct(peak, current);
      assert dd * peak == 100.0 * (peak - current);
      ScaledCompare(dd, pct, peak);
    }
  }

  lemma RateMeaning(errors: nat, total: nat, pct: real)
    ensures Rate(errors, total) > pct <==> RateAbove(errors, total, pct)
  {
    if total > 0 {
      var n := total as real;
      var rate := Rate(errors, total);
      assert rate * n == 100.0 * errors as real;
      ScaledCompare(pct, rate, n);
    }
  }

  /** Fills, equities and ticks end with an evaluation. */
  predicate Evaluates(x: Input) { x.Fill? || x.Equity? || x.Tick? }

  ghost function When(b: bool, m: RunMode): seq<RunMode> { if b then [m] else [] }

  /** The severe escalation, else the mild one, by how far the equity has fallen. */
  ghost function OneOf(peak: real, now: real, severePct: real, severe: RunMode, mildPct: real, mild: RunMode)
    : seq<RunMode>
  {
    if FallenBy(peak, now, severePct) then [severe] else When(FallenBy(peak, now, mildPct), mild)
  }

  /**
   * The escalations that an evaluation raises alerts for, in order: for too many errors, for the fall from the
   * overall peak, and for the fall from the day's peak, the severe one of each instead of the other.
   */
  lemma AlertsExactly(cfg: Config, log: seq<Input>, startDay: int)
    requires log != [] && Evaluates(log[|log| - 1])
    ensures var now := Current(log);
            Triggered(cfg, log, startDay) ==
              When(RateAbove(|Kept(log, true)|, |Kept(log, false)|, cfg.maxErrorRatePct), Paused)
              + OneOf(Peak(log), now, cfg.maxDrawdownPct, Halted, cfg.safeModeDrawdownPct, Safe)
              + OneOf(DailyOf(log, startDay).peak, now, cfg.dailyHardHaltPct, Halted, cfg.dailySoftHaltPct, Flatten)
  {
    RateMeaning(|Kept(log, true)|, |Kept(log, false)|, cfg.maxErrorRatePct);
    OverallAlerts(cfg, Peak(log), Current(log));
    DailyAlerts(cfg, DailyOf(log, startDay).peak, Current(log));
    hide RateAbove, Rate, OneOf, OverallTargets, DailyTargets, Peak, Current, DailyOf, Kept;
  }

  lemma OverallAlerts(cfg: Config, peak: real, now: real)
    ensures OverallTargets(cfg, peak, now) ==
              OneOf(peak, now, cfg.maxDrawdownPct, Halted, cfg.safeModeDrawdownPct, Safe)
  {
    FallMeaning(peak, now, cfg.maxDrawdownPct);
    FallMeaning(peak, now, cfg.safeModeDrawdownPct);
  }

  lemma DailyAlerts(cfg: Config, peak: real, now: real)
    ensures DailyTargets(cfg, peak, now) ==
              OneOf(peak, now, cfg.dailyHardHaltPct, Halted, cfg.dailySoftHaltPct, Flatten)
  {
    FallMeaning(peak, now, cfg.dailyHardHaltPct);
    FallMeaning(peak, now, cfg.dailySoftHaltPct);
  }

  /** What is reported is the fall in percent of each peak, and nothing before a peak is positive. */
  lemma ReportedMeaning(cfg: Config, log: seq<Input>, startDay: int)
    ensures var state := StateOf(cfg, log, startDay);
            && (state.peak > 0.0 ==> state.drawdownPct * state.peak == 100.0 * (state.peak - state.current))
            && (state.peak <= 0.0 ==> state.drawdownPct == 0.0)
            && var day := DailyOf(log, startDay).peak;
               && (day > 0.0 ==> state.dailyDrawdownPct * day == 100.0 * (day - state.current))
               && (day <= 0.0 ==> state.dailyDrawdownPct == 0.0)
    ensures var state, errors, total := StateOf(cfg, log, startDay), |Kept(log, true)|, |Kept(log, false)|;
            if total == 0 then state.errorRatePct == 0.0
            else state.errorRatePct * total as real == 100.0 * errors as real
  {
    hide Peak, Current, DailyOf, Kept;
    PctMeaning(Peak(log), Current(log));
    PctMeaning(DailyOf(log, startDay).peak, Current(log));
    var errors, total := |Kept(log, true)|, |Kept(log, false)|;
    if total > 0 {
      RateShare(errors, total);
    }
  }

  lemma PctMeaning(peak: real, current: real)
    ensures if peak > 0.0 then ReportedPct(peak, current) * peak == 100.0 * (peak - current)
            else ReportedPct(peak, current) == 0.0
  {
  }

  lemma RateShare(errors: nat, total: nat)
    requires total > 0
    ensures Rate(errors, total) * total as real == 100.0 * errors as real
  {
  }

  // ---------------------------------------------------------------------
  // The mode
  // ---------------------------------------------------------------------

  /** The mode is that severe or more. */
  predicate AtLeast(mode: RunMode, m: RunMode) {
    match m
    case Running => true
    case Paused => mode != Running
    case Safe => mode in {Safe, Flatten, Halted}
    case Flatten => mode in {Flatten, Halted}
    case Halted => mode == Halted
  }

  /** Input i is a cause of this mode. */
  ghost predicate CausedAt(cfg: Config, log: seq<Input>, startDay: int, i: nat, m: RunMode)
    requires i < |log|
  {
    var x, upTo := log[i], log[..i + 1];
    var now := Current(upTo);
    match m
    case Running => false
    case Paused => Evaluates(x) && RateAbove(|Kept(upTo, true)|, |Kept(upTo, false)|, cfg.maxErrorRatePct)
    case Safe =>
      && Evaluates(x) && FallenBy(Peak(upTo), now, cfg.safeModeDrawdownPct)
      && !FallenBy(Peak(upTo), now, cfg.maxDrawdownPct)
    case Flatten =>
      || (x.Snapshot? && Unhedged(x.legs) && x.now - UnhedgedSince(upTo) >= cfg.legMismatchCloseMs)
      || (Evaluates(x) && FallenBy(DailyOf(upTo, startDay).peak, now, cfg.dailySoftHaltPct)
          && !FallenBy(DailyOf(upTo, startDay).peak, now, cfg.dailyHardHaltPct))
    case Halted =>
      && Evaluates(x)
      && (FallenBy(Peak(upTo), now, cfg.maxDrawdownPct)
          || FallenBy(DailyOf(upTo, startDay).peak, now, cfg.dailyHardHaltPct))
  }

  lemma CauseIsAsked(cfg: Config, log: seq<Input>, startDay: int, i: nat, m: RunMode)
    requires i < |log|
    ensures CausedAt(cfg, log, startDay, i, m) <==> AsksAt(cfg, log, startDay, i, m)
  {
    hide FallenBy, RateAbove, Targets, Unhedged, UnhedgedSince, Peak, Current, DailyOf, Kept;
    var upTo := log[..i + 1];
    assert upTo[|upTo| - 1] == log[i];
    if Evaluates(log[i]) {
      AlertsExactly(cfg, upTo, startDay);
    }
  }

  ghost predicate CausedSince(cfg: Config, log: seq<Input>, startDay: int, k: nat, m: RunMode) {
    exists i :: k <= i < |log| && CausedAt(cfg, log, startDay, i, m)
  }

  /**
   * As long as nothing overrides it, the mode is at least what it was and at least every mode that had a cause
   * since, and unless it is what it was it had one itself.
   */
  lemma ModeExactly(cfg: Config, log: seq<Input>, startDay: int, k: nat)
    requires k <= |log| && forall i :: k <= i < |log| ==> !log[i].SetMode?
    ensures var base, mode := ModeOf(cfg, log[..k], startDay), ModeOf(cfg, log, startDay);
            && AtLeast(mode, base)
            && (forall m :: CausedSince(cfg, log, startDay, k, m) ==> AtLeast(mode, m))
            && (mode == base || CausedSince(cfg, log, startDay, k, mode))
    ensures k == 0 ==> ModeOf(cfg, log[..k], startDay) == Running
    ensures k > 0 && log[k - 1].SetMode? ==> ModeOf(cfg, log[..k], startDay) == log[k - 1].mode
  {
    ModeIsMaximum(cfg, log, startDay, k);
    RankIsSeverity();
    Overridden(cfg, log, startDay, k);
    hide ModeOf, CausedAt, AsksAt, RunMode.Rank, AtLeast;
    forall m ensures CausedSince(cfg, log, startDay, k, m) <==> AskedSince(cfg, log, startDay, k, m) {
      forall i | 0 <= i < |log|
        ensures CausedAt(cfg, log, startDay, i, m) <==> AsksAt(cfg, log, startDay, i, m)
      {
        CauseIsAsked(cfg, log, startDay, i, m);
      }
    }
  }

  lemma RankIsSeverity()
    ensures forall mode: RunMode, m: RunMode :: AtLeast(mode, m) <==> mode.Rank() >= m.Rank()
  {
  }

  lemma Overridden(cfg: Config, log: seq<Input>, startDay: int, k: nat)
    requires k <= |log|
    ensures k == 0 ==> ModeOf(cfg, log[..k], startDay) == Running
    ensures k > 0 && log[k - 1].SetMode? ==> ModeOf(cfg, log[..k], startDay) == log[k - 1].mode
  {
  }

  /**
   * What is reported shows in the mode, unless it was overridden since the last equity update: with a positive
   * equity, a drawdown at a threshold means at least the mode that goes with it.
   */
  lemma ReportedEscalates(cfg: Config, log: seq<Input>, startDay: int, k: nat)
    requires k < |log| && log[k].Equity? && forall i :: k < i < |log| ==> !log[i].Equity? && !log[i].SetMode?
    ensures var state := StateOf(cfg, log, startDay);
            state.current > 0.0 ==>
              && (state.drawdownPct >= cfg.safeModeDrawdownPct ==> AtLeast(state.mode, Safe))
              && (state.dailyDrawdownPct >= cfg.dailySoftHaltPct ==> AtLeast(state.mode, Flatten))
              && (state.drawdownPct >= cfg.maxDrawdownPct ==> AtLeast(state.mode, Halted))
              && (state.dailyDrawdownPct >= cfg.dailyHardHaltPct ==> AtLeast(state.mode, Halted))
  {
    MarksStay(log, startDay, k + 1);
    PeaksCover(log, startDay, k);
    if Current(log) > 0.0 {
      ReportedFall(cfg, Peak(log), Current(log));
      ReportedFall(cfg, DailyOf(log, startDay).peak, Current(log));
      forall m | CausedAt(cfg, log, startDay, k, m) ensures AtLeast(ModeOf(cfg, log, startDay), m) {
        StaysCaused(cfg, log, startDay, k, m);
      }
      hide FallenBy, Peak, Current, DailyOf, ReportedPct, ModeOf, KeptRate, RateAbove, Kept, Unhedged, UnhedgedSince;
      var upTo := log[..k + 1];
      if FallenBy(Peak(upTo), Current(upTo), cfg.maxDrawdownPct)
         || FallenBy(DailyOf(upTo, startDay).peak, Current(upTo), cfg.dailyHardHaltPct) {
        assert CausedAt(cfg, log, startDay, k, Halted);
      } else {
        assert FallenBy(Peak(upTo), Current(upTo), cfg.safeModeDrawdownPct) ==> CausedAt(cfg, log, startDay, k, Safe);
        assert FallenBy(DailyOf(upTo, startDay).peak, Current(upTo), cfg.dailySoftHaltPct) ==>
                 CausedAt(cfg, log, startDay, k, Flatten);
      }
    }
  }

  lemma StaysCaused(cfg: Config, log: seq<Input>, startDay: int, k: nat, m: RunMode)
    requires k < |log| && (forall i :: k <= i < |log| ==> !log[i].SetMode?) && CausedAt(cfg, log, startDay, k, m)
    ensures AtLeast(ModeOf(cfg, log, startDay), m)
  {
    hide CausedAt, ModeOf, AtLeast;
    assert CausedSince(cfg, log, startDay, k, m);
    ModeExactly(cfg, log, startDay, k);
  }

  lemma ReportedFall(cfg: Config, peak: real, now: real)
    requires 0.0 < now <= peak
    ensures forall pct :: ReportedPct(peak, now) >= pct <==> FallenBy(peak, now, pct)
  {
    forall pct ensures ReportedPct(peak, now) >= pct <==> FallenBy(peak, now, pct) {
      FallMeaning(peak, now, pct);
    }
  }

  /** Right after an equity update both peaks are at least the equity. */
  lemma PeaksCover(log: seq<Input>, startDay: int, k: nat)
    requires k < |log| && log[k].Equity?
    ensures var upTo := log[..k + 1]; Peak(upTo) >= Current(upTo) && DailyOf(upTo, startDay).peak >= Current(upTo)
  {
    assert log[..k + 1][..k] == log[..k];
  }

  // ---------------------------------------------------------------------
  // The marks
  // ---------------------------------------------------------------------

  ghost predicate EquityAt(log: seq<Input>, i: nat, value: real) {
    i < |log| && log[i].Equity? && log[i].value == value
  }

  /** The overall peak is the largest of zero and every equity reported. */
  lemma {:induction false} PeakIsMaximum(log: seq<Input>)
    ensures Peak(log) >= 0.0 && forall i :: 0 <= i < |log| && log[i].Equity? ==> log[i].value <= Peak(log)
    ensures Peak(log) == 0.0 || exists i: nat :: EquityAt(log, i, Peak(log))
  {
    if log != [] {
      var n := |log| - 1;
      PeakIsMaximum(log[..n]);
      if i: nat :| EquityAt(log[..n], i, Peak(log[..n])) {
        assert EquityAt(log, i, Peak(log[..n]));
      }
      assert log[n].Equity? ==> EquityAt(log, n, log[n].value);
    }
  }

  /** Before any equity is reported it is zero, and so are both peaks. */
  lemma NoEquityYet(log: seq<Input>, startDay: int)
    requires forall i :: 0 <= i < |log| ==> !log[i].Equity?
    ensures Current(log) == 0.0 && Peak(log) == 0.0 && DailyOf(log, startDay) == Daily(0.0, startDay)
  {
    MarksStay(log, startDay, 0);
  }

  /** The equity in force is the last one reported. */
  lemma CurrentIsLast(log: seq<Input>, k: nat)
    requires k < |log| && log[k].Equity? && forall i :: k < i < |log| ==> !log[i].Equity?
    ensures Current(log) == log[k].value
  {
    MarksStay(log, 0, k + 1);
    assert log[..k + 1][k] == log[k];
  }

  /** Some update up to j, the first of them perhaps, was on this day; or the daemon was started on it. */
  ghost predicate DayBegun(log: seq<Input>, startDay: int, j: nat, day: int) {
    day == startDay || exists i :: 0 <= i <= j && i < |log| && log[i].Equity? && Day(log[i].later) == day
  }

  /** The day of the daily peak is the latest that was read, and the peak the largest equity since it began. */
  lemma {:induction false} DailyPeakIsMaximum(log: seq<Input>, startDay: int)
    ensures var d := DailyOf(log, startDay);
            && d.day >= startDay && (forall i :: 0 <= i < |log| && log[i].Equity? ==> Day(log[i].later) <= d.day)
            && (d.day == startDay || exists i :: 0 <= i < |log| && log[i].Equity? && Day(log[i].later) == d.day)
    ensures var d := DailyOf(log, startDay);
            && (forall i :: 0 <= i < |log| && log[i].Equity? && DayBegun(log, startDay, i, d.day) ==>
                  log[i].value <= d.peak)
            && (d.day == startDay ==> d.peak >= 0.0)
            && ((d.day == startDay && d.peak == 0.0)
                || exists i: nat :: EquityAt(log, i, d.peak) && DayBegun(log, startDay, i, d.day))
  {
    hide Day;
    if log != [] {
      var n := |log| - 1;
      var before, x := log[..n], log[n];
      DailyPeakIsMaximum(before, startDay);
      var d := DailyOf(before, startDay);
      forall i: nat, day | i < n ensures DayBegun(log, startDay, i, day) <==> DayBegun(before, startDay, i, day) {
        BegunBefore(log, startDay, i, day);
      }
      if x.Equity? {
        var today := Day(x.later);
        assert EquityAt(log, n, x.value);
        if today <= d.day {
          if d.day != startDay {
            var i :| 0 <= i < n && before[i].Equity? && Day(before[i].later) == d.day;
            assert log[i] == before[i];
          }
          assert DayBegun(log, startDay, n, d.day);
        } else {
          assert DayBegun(log, startDay, n, today);
          forall i: nat | i < n && log[i].Equity? ensures !DayBegun(log, startDay, i, today) {
            assert forall k :: 0 <= k <= i && log[k].Equity? ==> before[k] == log[k];
          }
        }
      } else if d.day != startDay {
        var i :| 0 <= i < n && before[i].Equity? && Day(before[i].later) == d.day;
        assert log[i] == before[i];
      }
      if i: nat :| EquityAt(before, i, d.peak) && DayBegun(before, startDay, i, d.day) {
        assert EquityAt(log, i, d.peak);
      }
    }
  }

  lemma BegunBefore(log: seq<Input>, startDay: int, i: nat, day: int)
    requires i < |log| - 1
    ensures DayBegun(log, startDay, i, day) <==> DayBegun(log[..|log| - 1], startDay, i, day)
  {
    hide Day;
    assert forall k :: 0 <= k <= i ==> log[..|log| - 1][k] == log[k];
  }

  // ---------------------------------------------------------------------
  // Leg mismatch
  // ---------------------------------------------------------------------

  function LongSize(legs: seq<Leg>): real {
    if legs == [] then 0.0 else
      var l := legs[|legs| - 1];
      LongSize(legs[..|legs| - 1]) + if l.side == "Sell" then 0.0 else l.size
  }

  function ShortSize(legs: seq<Leg>): real {
    if legs == [] then 0.0 else
      var l := legs[|legs| - 1];
      ShortSize(legs[..|legs| - 1]) + if l.side == "Sell" then l.size else 0.0
  }

  lemma {:induction false} SizesSplit(legs: seq<Leg>)
    ensures Sum(SignedSizes(legs)) == LongSize(legs) - ShortSize(legs)
    ensures Sum(Sizes(legs)) == LongSize(legs) + ShortSize(legs)
  {
    if legs != [] {
      var n := |legs| - 1;
      SizesSplit(legs[..n]);
      assert SignedSizes(legs)[..n] == SignedSizes(legs[..n]) && Sizes(legs)[..n] == Sizes(legs[..n]);
    }
  }

  /** A snapshot is unhedged when longs and shorts differ by more than a twentieth of their positive total. */
  lemma UnhedgedMeaning(legs: seq<Leg>)
    ensures Unhedged(legs) <==>
              && LongSize(legs) + ShortSize(legs) > 0.0
              && 20.0 * Abs(LongSize(legs) - ShortSize(legs)) > LongSize(legs) + ShortSize(legs)
  {
    SizesSplit(legs);
    hide Sum;
  }

  /** A snapshot only warns exactly when its stretch has lasted the alert threshold and not the close threshold. */
  lemma MismatchWarnsExactly(cfg: Config, log: seq<Input>)
    requires log != [] && log[|log| - 1].Snapshot?
    ensures var n := |log| - 1;
            Warns(cfg, log) <==>
              exists i: nat :: FirstOfStretch(log, i) && (log[i].now != 0 || i == n)
                               && cfg.legMismatchAlertMs <= log[n].now - log[i].now < cfg.legMismatchCloseMs
  {
    hide Unhedged;
    UnhedgedSinceMeaning(log);
    var n := |log| - 1;
    if Unhedged(log[n].legs) {
      assert UnhedgedFrom(log, n);
      if UnhedgedSince(log) == 0 {
        assert FirstOfStretch(log, n);
      }
    }
  }
}
