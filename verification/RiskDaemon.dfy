/** The risk daemon (internal/risk/daemon.go): mutable marks, two event buffers compacted in place, and a mode. */
module RiskDaemon {
  import opened RealSeq
  import opened RiskSpec
  import opened Calendar

  /** An append-only slice that is pruned in place. */
  class EventBuffer {
    var data: array<FillEvent>
    var len: nat

    ghost predicate Valid()
      reads this
    {
      len <= data.Length
    }

    ghost function Contents(): seq<FillEvent>
      reads this, data
      requires Valid()
    {
      data[..len]
    }

    constructor ()
      ensures Valid() && fresh(data) && Contents() == []
    {
      data := new FillEvent[0];
      len := 0;
    }

    method Append(e: FillEvent)
      requires Valid()
      modifies this, data
      ensures Valid() && (data == old(data) || fresh(data))
      ensures Contents() == old(Contents()) + [e]
    {
      if len == data.Length {
        var bigger := new FillEvent[2 * len + 1](_ => e);
        forall i | 0 <= i < len {
          bigger[i] := data[i];
        }
        data := bigger;
      }
      data[len] := e;
      len := len + 1;
    }

    /** Keeps the events at or after the cutoff, moving them to the front. */
    method PruneOlderThan(cutoff: int)
      requires Valid()
      modifies this`len, data
      ensures Valid() && data == old(data)
      ensures Contents() == Recent(old(Contents()), cutoff)
    {
      ghost var all := data[..len];
      var i := 0;
      for j := 0 to len
        invariant len == old(len) && i <= j && forall k :: j <= k < data.Length ==> data[k] == old(data[k])
        invariant data[..i] == Recent(all[..j], cutoff)
      {
        var e := data[j];
        assert e == all[j];
        assert all[..j + 1][..j] == all[..j];
        if e.tsMs >= cutoff {
          data[i] := e;
          i := i + 1;
        }
      }
      assert all[..len] == all;
      len := i;
    }
  }

  class Daemon {
    const cfg: Config
    const startDay: int
    var mode: RunMode
    var peakEquity: real
    var currentEquity: real
    var dailyPeak: real
    var lastDailyReset: int
    const fillEvents: EventBuffer
    const errorEvents: EventBuffer
    var unhedgedSince: int
    /** Everything the daemon was told. */
    ghost var log: seq<Input>

    ghost predicate Valid()
      reads this, fillEvents, fillEvents.data, errorEvents, errorEvents.data
    {
      && Buffers(Kept(log, false), Kept(log, true))
      && mode == ModeOf(cfg, log, startDay)
      && peakEquity == Peak(log) && currentEquity == Current(log)
      && Daily(dailyPeak, lastDailyReset) == DailyOf(log, startDay)
      && unhedgedSince == UnhedgedSince(log)
    }

    /** The two buffers are apart and hold these events. */
    ghost predicate Buffers(fills: seq<FillEvent>, errors: seq<FillEvent>)
      reads this, fillEvents, fillEvents.data, errorEvents, errorEvents.data
    {
      && fillEvents != errorEvents && fillEvents.data != errorEvents.data
      && fillEvents.Valid() && errorEvents.Valid()
      && fillEvents.Contents() == fills && errorEvents.Contents() == errors
    }

    /** The last input has been logged and booked, and its pruning and checks are still to come. */
    ghost predicate Pending(now: int)
      reads this, fillEvents, fillEvents.data, errorEvents, errorEvents.data
    {
      && log != []
      && var n := |log| - 1;
         && Prunes(log[n]) && log[n].now == now
         && Buffers(Kept(log[..n], false) + Booked(log[n], false), Kept(log[..n], true) + Booked(log[n], true))
    }

    constructor (cfg: Config, now: int)
      ensures Valid() && fresh(fillEvents) && fresh(fillEvents.data) && fresh(errorEvents) && fresh(errorEvents.data)
      ensures this.cfg == cfg && startDay == Day(now) && log == []
    {
      this.cfg := cfg;
      startDay, lastDailyReset := Day(now), Day(now);
      mode := Running;
      peakEquity, currentEquity, dailyPeak := 0.0, 0.0, 0.0;
      fillEvents := new EventBuffer();
      errorEvents := new EventBuffer();
      unhedgedSince := 0;
      log := [];
    }

    /** Prunes both buffers and takes the share of errors in what is left. */
    method ErrorRate5m(now: int, ghost fills: seq<FillEvent>, ghost errors: seq<FillEvent>) returns (rate: real)
      requires Buffers(fills, errors)
      modifies fillEvents`len, fillEvents.data, errorEvents`len, errorEvents.data
      ensures Buffers(Recent(fills, now - WINDOW_MS), Recent(errors, now - WINDOW_MS))
      ensures rate == Rate(|Recent(errors, now - WINDOW_MS)|, |Recent(fills, now - WINDOW_MS)|)
    {
      fillEvents.PruneOlderThan(now - WINDOW_MS);
      errorEvents.PruneOlderThan(now - WINDOW_MS);
      var total := fillEvents.len;
      if total == 0 {
        return 0.0;
      }
      return errorEvents.len as real / total as real * 100.0;
    }

    /** Escalation only: a lower or equal target changes nothing. */
    method EscalateTo(target: RunMode)
      modifies this`mode
      ensures mode == MaxMode(old(mode), target)
    {
      if target.Rank() > mode.Rank() {
        mode := target;
      }
    }

    method CheckErrorRate(now: int) returns (alerts: seq<RunMode>)
      requires Pending(now)
      modifies this`mode, fillEvents`len, fillEvents.data, errorEvents`len, errorEvents.data
      ensures Buffers(Kept(log, false), Kept(log, true))
      ensures alerts == ErrorTargets(cfg, log) && mode == Escalate(old(mode), alerts)
    {
      ghost var n := |log| - 1;
      ghost var fills := Kept(log[..n], false) + Booked(log[n], false);
      ghost var errors := Kept(log[..n], true) + Booked(log[n], true);
      assert Kept(log, false) == Recent(fills, now - WINDOW_MS) && Kept(log, true) == Recent(errors, now - WINDOW_MS);
      hide Kept, Recent, Booked;
      var errRate := ErrorRate5m(now, fills, errors);
      if errRate > cfg.maxErrorRatePct {
        EscalateTo(Paused);
        return [Paused];
      }
      return [];
    }

    method CheckOverallDrawdown() returns (alerts: seq<RunMode>)
      modifies this`mode
      ensures alerts == OverallTargets(cfg, peakEquity, currentEquity) && mode == Escalate(old(mode), alerts)
    {
      alerts := [];
      if peakEquity > 0.0 && currentEquity > 0.0 {
        var ddPct := DrawdownPct(peakEquity, currentEquity);
        if ddPct >= cfg.maxDrawdownPct {
          EscalateTo(Halted);
          alerts := [Halted];
        } else if ddPct >= cfg.safeModeDrawdownPct {
          EscalateTo(Safe);
          alerts := [Safe];
        }
      }
    }

    method CheckDailyDrawdown() returns (alerts: seq<RunMode>)
      modifies this`mode
      ensures alerts == DailyTargets(cfg, dailyPeak, currentEquity) && mode == Escalate(old(mode), alerts)
    {
      alerts := [];
      if dailyPeak > 0.0 && currentEquity > 0.0 {
        var ddPct := DrawdownPct(dailyPeak, currentEquity);
        if ddPct >= cfg.dailyHardHaltPct {
          EscalateTo(Halted);
          alerts := [Halted];
        } else if ddPct >= cfg.dailySoftHaltPct {
          EscalateTo(Flatten);
          alerts := [Flatten];
        }
      }
    }

    /** Returns the escalation behind each alert, in order. */
    method Evaluate(now: int) returns (alerts: seq<RunMode>)
      requires Pending(now)
      requires peakEquity == Peak(log) && currentEquity == Current(log)
      requires dailyPeak == DailyOf(log, startDay).peak
      modifies this`mode, fillEvents`len, fillEvents.data, errorEvents`len, errorEvents.data
      ensures Buffers(Kept(log, false), Kept(log, true))
      ensures alerts == Targets(cfg, log, startDay) && mode == Escalate(old(mode), alerts)
    {
      hide DrawdownPct, ErrorTargets, Recent, Escalate, Peak, Current, DailyOf, Kept, Booked;
      var errors := CheckErrorRate(now);
      var overall := CheckOverallDrawdown();
      var daily := CheckDailyDrawdown();
      EscalateConcat(old(mode), errors, overall);
      EscalateConcat(old(mode), errors + overall, daily);
      alerts := errors + overall + daily;
    }

    method RecordFill(now: int, pnl: real, isError: bool) returns (alerts: seq<RunMode>)
      requires Valid()
      modifies this, fillEvents, fillEvents.data, errorEvents, errorEvents.data
      ensures Valid() && fresh({fillEvents.data, errorEvents.data} - {old(fillEvents.data), old(errorEvents.data)})
      ensures log == old(log) + [Fill(now, pnl, isError)]
      ensures alerts == Triggered(cfg, log, startDay)
    {
      hide Recent, Kept, Peak, Current, DailyOf, UnhedgedSince, ModeOf, Targets, Escalate, Unhedged, Day;
      var evt := FillEvent(now, pnl);
      Logged(cfg, log, Fill(now, pnl, isError), startDay);
      log := log + [Fill(now, pnl, isError)];
      fillEvents.Append(evt);
      if isError {
        errorEvents.Append(evt);
      }
      alerts := Evaluate(now);
    }

    method UpdateEquity(now: int, later: int, equity: real) returns (alerts: seq<RunMode>)
      requires Valid()
      modifies this, fillEvents, fillEvents.data, errorEvents, errorEvents.data
      ensures Valid() && fillEvents.data == old(fillEvents.data) && errorEvents.data == old(errorEvents.data)
      ensures log == old(log) + [Equity(now, later, equity)]
      ensures alerts == Triggered(cfg, log, startDay)
    {
      hide Recent, Kept, Peak, Current, DailyOf, UnhedgedSince, ModeOf, Targets, Escalate, Unhedged, Day;
      Logged(cfg, log, Equity(now, later, equity), startDay);
      log := log + [Equity(now, later, equity)];
      currentEquity := equity;
      var today := Day(later);
      if today > lastDailyReset {
        dailyPeak := equity;
        lastDailyReset := today;
      }
      if equity > peakEquity {
        peakEquity := equity;
      }
      if equity > dailyPeak {
        dailyPeak := equity;
      }
      alerts := Evaluate(now);
    }

    method DoTick(now: int) returns (alerts: seq<RunMode>)
      requires Valid()
      modifies this, fillEvents, fillEvents.data, errorEvents, errorEvents.data
      ensures Valid() && fillEvents.data == old(fillEvents.data) && errorEvents.data == old(errorEvents.data)
      ensures log == old(log) + [Tick(now)]
      ensures alerts == Triggered(cfg, log, startDay)
    {
      hide Recent, Kept, Peak, Current, DailyOf, UnhedgedSince, ModeOf, Targets, Escalate, Unhedged, Day;
      Logged(cfg, log, Tick(now), startDay);
      log := log + [Tick(now)];
      alerts := Evaluate(now);
    }

    /** The snapshot of the state; reading it prunes the buffers too. */
    method CurrentState(now: int) returns (state: State)
      requires Valid()
      modifies this, fillEvents, fillEvents.data, errorEvents, errorEvents.data
      ensures Valid() && fillEvents.data == old(fillEvents.data) && errorEvents.data == old(errorEvents.data)
      ensures log == old(log) + [Query(now)] && state == StateOf(cfg, log, startDay)
    {
      hide Recent, Kept, Peak, Current, DailyOf, UnhedgedSince, ModeOf, Targets, Unhedged, DrawdownPct;
      Logged(cfg, log, Query(now), startDay);
      ghost var fills, errors := Kept(log, false), Kept(log, true);
      log := log + [Query(now)];
      assert fills + Booked(Query(now), false) == fills && errors + Booked(Query(now), true) == errors;
      var drawdownPct := 0.0;
      if peakEquity > 0.0 {
        drawdownPct := DrawdownPct(peakEquity, currentEquity);
      }
      var dailyPct := 0.0;
      if dailyPeak > 0.0 {
        dailyPct := DrawdownPct(dailyPeak, currentEquity);
      }
      var rate := ErrorRate5m(now, fills, errors);
      return State(mode, drawdownPct, dailyPct, peakEquity, currentEquity, rate);
    }

    method RecordPositionSnapshot(now: int, legs: seq<Leg>) returns (alerts: seq<RunMode>, warned: bool)
      requires Valid()
      modifies this
      ensures Valid() && log == old(log) + [Snapshot(now, legs)]
      ensures alerts == Triggered(cfg, log, startDay) && warned == Warns(cfg, log)
    {
      hide Recent, Kept, Peak, Current, DailyOf, UnhedgedSince, ModeOf, Targets, Unhedged;
      Logged(cfg, log, Snapshot(now, legs), startDay);
      log := log + [Snapshot(now, legs)];
      var hasUnhedged := HasUnhedged(legs);
      alerts, warned := [], false;
      if hasUnhedged {
        if unhedgedSince == 0 {
          unhedgedSince := now;
        }
        var durationMs := now - unhedgedSince;
        if durationMs >= cfg.legMismatchCloseMs {
          EscalateTo(Flatten);
          alerts := [Flatten];
        } else if durationMs >= cfg.legMismatchAlertMs {
          warned := true;
        }
      } else {
        unhedgedSince := 0;
      }
    }

    method HasUnhedged(legs: seq<Leg>) returns (b: bool)
      ensures b == Unhedged(legs)
    {
      var net := 0.0;
      for i := 0 to |legs|
        invariant net == Sum(SignedSizes(legs)[..i])
      {
        SumStep(SignedSizes(legs), i);
        net := net + if legs[i].side == "Sell" then -legs[i].size else legs[i].size;
      }
      var total := 0.0;
      for i := 0 to |legs|
        invariant total == Sum(Sizes(legs)[..i])
      {
        SumStep(Sizes(legs), i);
        total := total + legs[i].size;
      }
      assert SignedSizes(legs)[..|legs|] == SignedSizes(legs) && Sizes(legs)[..|legs|] == Sizes(legs);
      return Abs(net) > total * 0.05 && total > 0.0;
    }

    /** The override: the only way down. */
    method OverrideMode(m: RunMode)
      requires Valid()
      modifies this
      ensures Valid() && log == old(log) + [SetMode(m)] && mode == m
    {
      hide Recent, Kept, Peak, Current, DailyOf, UnhedgedSince, ModeOf, Targets, Unhedged;
      Logged(cfg, log, SetMode(m), startDay);
      log := log + [SetMode(m)];
      mode := m;
    }
  }

  /** How each derived quantity of the log changes when an input is added. */
  lemma Logged(cfg: Config, log: seq<Input>, x: Input, startDay: int)
    ensures var next := log + [x];
            && next != [] && next[|next| - 1] == x
            && next[..|next| - 1] == log
            && (forall errorsOnly :: Kept(next, errorsOnly) == Refreshed(Kept(log, errorsOnly), x, errorsOnly))
            && Peak(next) == (if x.Equity? then Max(Peak(log), x.value) else Peak(log))
            && Current(next) == (if x.Equity? then x.value else Current(log))
            && DailyOf(next, startDay)
                 == (if x.Equity? then NextDaily(DailyOf(log, startDay), x.later, x.value) else DailyOf(log, startDay))
            && UnhedgedSince(next)
                 == (if !x.Snapshot? then UnhedgedSince(log)
                     else if !Unhedged(x.legs) then 0
                     else if UnhedgedSince(log) == 0 then x.now
                     else UnhedgedSince(log))
            && ModeOf(cfg, next, startDay)
                 == if x.SetMode? then x.mode
                    else Escalate(ModeOf(cfg, log, startDay), Triggered(cfg, next, startDay))
  {
    assert (log + [x])[..|log|] == log;
  }
}
