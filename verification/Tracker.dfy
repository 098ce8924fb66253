/** The outcome tracker (internal/scanner/tracker.go): open trades, a bounded history, statistics of the history. */
module Tracker {
  import opened RealSeq
  import opened TrackerSpec
  import opened Moments

  datatype Direction = Long | Short

  /** expectedEntry is the entry price that the signal asked for. */
  datatype OpenTrade = OpenTrade(symbol: string, direction: Direction, factors: seq<string>, positionUsd: real,
                                 expectedEntry: real, entry: real, sl: real, tp: real)

  // ---------------------------------------------------------------------
  // What a closed trade's record says
  // ---------------------------------------------------------------------

  /** How far the price has gone the trade's way since entry. */
  function Gain(t: OpenTrade, price: real): real {
    if t.direction == Long then price - t.entry else t.entry - price
  }

  predicate StopReached(t: OpenTrade, price: real) { Gain(t, price) <= Gain(t, t.sl) }

  /** The stop comes first when both levels are reached. */
  predicate TargetReached(t: OpenTrade, price: real) { !StopReached(t, price) && Gain(t, price) >= Gain(t, t.tp) }

  /**
   * With its fees the PnL is to the position what the gain is to the entry; a trade without an entry price has
   * none.
   */
  predicate IsPnl(t: OpenTrade, exit: real, fees: real, pnl: real) {
    if t.entry > 0.0 then (pnl + fees) * t.entry == Gain(t, exit) * t.positionUsd else pnl == 0.0
  }

  /** q times the base is the part; there is no q for a base of zero. */
  predicate IsQuotient(part: real, base: real, q: Option<real>) {
    if base == 0.0 then q == None else q.Some? && q.value * base == part
  }

  /** The trade's result is at least a hundredth of its position; on an empty one anything but nothing is. */
  predicate Counts(t: OpenTrade, pnl: real) {
    t.entry > 0.0 && Abs(pnl) * 100.0 >= Abs(t.positionUsd) && (t.positionUsd == 0.0 ==> pnl != 0.0)
  }

  predicate IsRecord(t: OpenTrade, outcome: Outcome, exit: real, fees: real, day: int, c: Closed) {
    && c.symbol == t.symbol && c.factors == t.factors && c.outcome == outcome
    && c.exitPrice == exit && c.fees == fees && c.exitDay == day
    && IsPnl(t, exit, fees, c.pnl)
    && (if t.entry > 0.0
        then IsQuotient(c.pnl * 100.0, t.positionUsd, c.pnlPct)
             && IsQuotient(Abs(t.entry - t.expectedEntry) * 10000.0, t.expectedEntry, c.slippageBps)
        else c.pnlPct == Some(0.0) && c.slippageBps == Some(0.0))
    && c.countsForDay == Counts(t, c.pnl)
  }

  /**
   * The price levels are PnL levels: a stop is reached exactly when closing loses at least what it loses at the
   * stop, a target exactly when it earns more than that and at least what it earns at the target.
   */
  lemma OutcomeMatchesPnl(t: OpenTrade, exit: real, fees: real, pnl: real, atStop: real, atTarget: real)
    requires t.entry > 0.0 && t.positionUsd > 0.0
    requires IsPnl(t, exit, fees, pnl) && IsPnl(t, t.sl, fees, atStop) && IsPnl(t, t.tp, fees, atTarget)
    ensures StopReached(t, exit) <==> pnl <= atStop
    ensures TargetReached(t, exit) <==> pnl > atStop && pnl >= atTarget
    ensures Gain(t, t.sl) < 0.0 ==> atStop < -fees
    ensures Gain(t, t.tp) > 0.0 ==> atTarget > -fees
  {
    GainIsPnl(t.entry, t.positionUsd, Gain(t, t.sl), Gain(t, exit), atStop + fees, pnl + fees);
    GainIsPnl(t.entry, t.positionUsd, Gain(t, exit), Gain(t, t.tp), pnl + fees, atTarget + fees);
    GainIsPnl(t.entry, t.positionUsd, 0.0, Gain(t, t.sl), 0.0, atStop + fees);
    GainIsPnl(t.entry, t.positionUsd, Gain(t, t.tp), 0.0, atTarget + fees, 0.0);
    hide Gain;
  }

  lemma GainIsPnl(entry: real, position: real, g: real, h: real, p: real, q: real)
    requires entry > 0.0 && position > 0.0 && p * entry == g * position && q * entry == h * position
    ensures g >= h <==> p >= q
  {
    ScaledCompare(g, h, position);
    ScaledCompare(p, q, entry);
  }

  lemma AbsProduct(a: real, b: real)
    ensures Abs(a) * Abs(b) == Abs(a * b)
  {
    Sign(Abs(a), Abs(b));
    if a < 0.0 {
      assert -a * b == -(a * b);
    }
    if b < 0.0 {
      assert a * -b == -(a * b) && -a * -b == a * b;
    }
  }

  /** A whole percent of the position is a hundredth of it. */
  lemma IsHundredth(pnl: real, position: real, pct: real)
    requires position != 0.0 && pct * position == pnl * 100.0
    ensures Abs(pct) >= 1.0 <==> Abs(pnl) * 100.0 >= Abs(position)
  {
    var scaled := pnl * 100.0;
    assert Abs(pnl) * 100.0 == Abs(scaled);
    AbsProduct(pct, position);
    WholeShare(Abs(pct), Abs(position), Abs(scaled));
  }

  lemma WholeShare(share: real, base: real, part: real)
    requires base > 0.0 && share * base == part
    ensures share >= 1.0 <==> part >= base
  {
    ScaledCompare(share, 1.0, base);
  }

  /** In prices: a long is stopped at or below its stop, a short at or above it, and the target is on the other side. */
  lemma LevelsInPrices(t: OpenTrade, price: real)
    ensures t.direction == Long ==>
              && (StopReached(t, price) <==> price <= t.sl)
              && (TargetReached(t, price) <==> price > t.sl && price >= t.tp)
    ensures t.direction == Short ==>
              && (StopReached(t, price) <==> price >= t.sl)
              && (TargetReached(t, price) <==> price < t.sl && price <= t.tp)
  {
  }

  /**
   * What a record says: the trade as it was opened and closed; a long earns as the price rises and a short as it
   * falls, in proportion to the entry, less fees; percentages of the position and the expected entry; and that it
   * counts for the day exactly when the result is at least one percent, or anything at all on an empty position.
   */
  lemma RecordMeaning(t: OpenTrade, outcome: Outcome, exit: real, fees: real, day: int, c: Closed)
    requires IsRecord(t, outcome, exit, fees, day, c)
    ensures c.symbol == t.symbol && c.factors == t.factors && c.outcome == outcome
    ensures c.exitPrice == exit && c.fees == fees && c.exitDay == day
    ensures t.entry <= 0.0 ==> c.pnl == 0.0 && c.pnlPct == Some(0.0) && c.slippageBps == Some(0.0) && !c.countsForDay
    ensures t.entry > 0.0 ==>
              var move := if t.direction == Long then exit - t.entry else t.entry - exit;
              (c.pnl + c.fees) * t.entry == move * t.positionUsd
    ensures t.entry > 0.0 ==>
              && (c.pnlPct == None <==> t.positionUsd == 0.0) && (c.slippageBps == None <==> t.expectedEntry == 0.0)
              && (c.pnlPct.Some? ==> c.pnlPct.value * t.positionUsd == 100.0 * c.pnl)
              && (c.slippageBps.Some? ==>
                   c.slippageBps.value * t.expectedEntry == 10000.0 * Abs(t.entry - t.expectedEntry))
              && (c.countsForDay <==> if c.pnlPct == None then c.pnl != 0.0 else Abs(c.pnlPct.value) >= 1.0)
  {
    CountsByPercent(t, c.pnl, c.pnlPct);
    hide Counts;
  }

  class OutcomeTracker {
    const maxHistory: nat
    var openTrades: map<string, OpenTrade>
    var history: seq<Closed>
    var stats: Stats
    /** Every trade ever closed, and how many of them were read back at the start. */
    ghost var all: seq<Closed>
    ghost const loaded: nat

    /**
     * The history is the last maxHistory closed trades, once the first trade has been closed; what was read back
     * is not cut. The statistics are exactly those of the history.
     */
    ghost predicate Valid()
      reads this
    {
      && maxHistory > 0 && loaded <= |all|
      && history == (if |all| == loaded then all else LastN(all, maxHistory))
      && if history == [] then stats == EMPTY else IsStatsOf(history, stats)
    }

    constructor (maxHistory: int, read: seq<Closed>, sqrt: real --> real)
      requires IsSqrt(sqrt)
      ensures Valid() && all == read && loaded == |read| && openTrades == map[]
      ensures this.maxHistory == if maxHistory <= 0 then 500 else maxHistory
    {
      this.maxHistory := if maxHistory <= 0 then 500 else maxHistory;
      var recomputed := RecomputeStats(read, sqrt);
      openTrades, history, stats, all, loaded := map[], read, recomputed, read, |read|;
    }

    method RegisterTrade(id: string, trade: OpenTrade)
      requires Valid()
      modifies this
      ensures Valid() && openTrades == old(openTrades)[id := trade] && all == old(all)
    {
      openTrades := openTrades[id := trade];
    }

    method RecordOutcome(id: string, outcome: Outcome, exitPrice: real, fees: real, day: int, sqrt: real --> real)
      returns (found: bool)
      requires Valid() && IsSqrt(sqrt)
      modifies this
      ensures Valid() && found == (id in old(openTrades)) && openTrades == old(openTrades) - {id}
      ensures if found then
                && |all| == |old(all)| + 1 && all[..|old(all)|] == old(all)
                && IsRecord(old(openTrades)[id], outcome, exitPrice, fees, day, all[|old(all)|])
              else all == old(all)
    {
      hide IsStatsOf, IsRecord, IsSqrt;
      if id !in openTrades {
        assert openTrades - {id} == openTrades;
        return false;
      }
      var record := CloseTrade(openTrades[id], outcome, exitPrice, fees, day);
      LastNAppend(all, record, maxHistory);
      all := all + [record];
      history := history + [record];
      if |history| > maxHistory {
        history := history[|history| - maxHistory..];
      }
      openTrades := openTrades - {id};
      stats := RecomputeStats(history, sqrt);
      return true;
    }

    /** Exactly the open trades of the symbol whose price is no longer strictly between stop and target. */
    method CheckPriceForOutcome(symbol: string, price: real) returns (triggered: set<string>)
      ensures forall id :: id in triggered <==>
                && id in openTrades && openTrades[id].symbol == symbol
                && (StopReached(openTrades[id], price) || TargetReached(openTrades[id], price))
    {
      triggered := {};
      var left := openTrades.Keys;
      while left != {}
        invariant left <= openTrades.Keys
        invariant forall id :: id in triggered <==>
                    && id in openTrades && id !in left && openTrades[id].symbol == symbol
                    && (StopReached(openTrades[id], price) || TargetReached(openTrades[id], price))
      {
        var id :| id in left;
        left := left - {id};
        var t := openTrades[id];
        if t.symbol != symbol {
          continue;
        }
        if t.direction == Long {
          if price <= t.sl {
            triggered := triggered + {id};
          } else if price >= t.tp {
            triggered := triggered + {id};
          }
        } else {
          if price >= t.sl {
            triggered := triggered + {id};
          } else if price <= t.tp {
            triggered := triggered + {id};
          }
        }
      }
    }

    /** Manual means an unknown trade, or a price strictly between stop and target. */
    method DetermineOutcome(id: string, exitPrice: real) returns (o: Outcome)
      ensures o == SlHit <==> id in openTrades && StopReached(openTrades[id], exitPrice)
      ensures o == TpHit <==> id in openTrades && TargetReached(openTrades[id], exitPrice)
      ensures o == Manual
         <==> id in openTrades ==>
                var t := openTrades[id]; Gain(t, t.sl) < Gain(t, exitPrice) < Gain(t, t.tp)
    {
      if id !in openTrades {
        return Manual;
      }
      var t := openTrades[id];
      if t.direction == Long {
        if exitPrice <= t.sl {
          return SlHit;
        }
        if exitPrice >= t.tp {
          return TpHit;
        }
      } else {
        if exitPrice >= t.sl {
          return SlHit;
        }
        if exitPrice <= t.tp {
          return TpHit;
        }
      }
      return Manual;
    }
  }

  /** The record of a trade closed at this price. */
  method CloseTrade(t: OpenTrade, outcome: Outcome, exitPrice: real, fees: real, day: int) returns (c: Closed)
    ensures IsRecord(t, outcome, exitPrice, fees, day, c)
  {
    hide IsQuotient, Counts;
    var pnl, pct, slippage := 0.0, Some(0.0), Some(0.0);
    if t.entry > 0.0 {
      var rawPnl := 0.0;
      if t.direction == Long {
        rawPnl := Scaled(exitPrice - t.entry, t.entry, t.positionUsd);
      } else {
        rawPnl := Scaled(t.entry - exitPrice, t.entry, t.positionUsd);
      }
      pnl := rawPnl - fees;
      pct := Quotient(pnl, t.positionUsd, 100.0);
      slippage := Quotient(Abs(t.entry - t.expectedEntry), t.expectedEntry, 10000.0);
    }
    var counts := if pct == None then pnl != 0.0 else Abs(pct.value) >= 1.0;
    assert counts == Counts(t, pnl) by {
      CountsByPercent(t, pnl, pct);
    }
    c := Closed(t.symbol, t.factors, outcome, exitPrice, fees, pnl, pct, slippage, counts, day);
  }

  /** An infinite percentage counts as well, and an undefined one does not. */
  lemma CountsByPercent(t: OpenTrade, pnl: real, pct: Option<real>)
    requires if t.entry > 0.0 then IsQuotient(pnl * 100.0, t.positionUsd, pct) else pnl == 0.0 && pct == Some(0.0)
    ensures Counts(t, pnl) <==> if pct == None then pnl != 0.0 else Abs(pct.value) >= 1.0
  {
    if t.entry > 0.0 && t.positionUsd != 0.0 {
      IsHundredth(pnl, t.positionUsd, pct.value);
    }
  }

  function Scaled(part: real, base: real, scale: real): (r: real)
    requires base != 0.0
    ensures r * base == part * scale
  {
    var share := part / base;
    assert share * base == part;
    share * scale
  }

  /** A share in units of 1/scale. */
  function Quotient(part: real, base: real, scale: real): (q: Option<real>)
    ensures IsQuotient(part * scale, base, q)
  {
    if base == 0.0 then None else Some(Scaled(part, base, scale))
  }

  /** One pass over the history computes every statistic. */
  method RecomputeStats(h: seq<Closed>, sqrt: real --> real) returns (s: Stats)
    requires IsSqrt(sqrt)
    ensures if h == [] then s == EMPTY else IsStatsOf(h, s)
  {
    hide IsPeak, IsMaxDrawdown, IsCurrentRun, IsLongestRun, Table, RatedTable, QualifyingDays, GrossProfit, GrossLoss,
         WinCount, Equity, SymbolBookings, FactorBookings, AverageWin, AverageLoss, Expectancy, Divide, Booked, RowOf,
         IsStatsOf,
         IsSharpe, IsSqrt, AveragedTable;
    if |h| == 0 {
      return EMPTY;
    }
    var wins, losses := 0, 0;
    var grossProfit, grossLoss := 0.0, 0.0;
    var consec, maxConsec := 0, 0;
    var equity, peak, maxDd := 0.0, 0.0, 0.0;
    var bySymbol: map<string, Performance>, byFactor: map<string, Performance> := map[], map[];
    var days: set<int> := {};
    PassStart(h);
    for n := 0 to |h|
      invariant equity == Equity(h, n) && IsPeak(h, n, peak) && IsMaxDrawdown(h, n, maxDd)
      invariant IsCurrentRun(h, n, consec) && IsLongestRun(h, n, maxConsec)
      invariant wins == WinCount(h[..n]) && wins + losses == n
      invariant grossProfit == GrossProfit(h[..n]) && grossLoss == GrossLoss(h[..n])
      invariant bySymbol == Table(SymbolBookings(h[..n])) && byFactor == Table(FactorBookings(h[..n]))
      invariant days == QualifyingDays(h[..n])
    {
      var rec := h[n];
      var pnl := rec.pnl;
      EquityStep(h, n);
      equity := equity + pnl;
      PeakStep(h, n, peak);
      if equity > peak {
        peak := equity;
      }
      var dd := peak - equity;
      DrawdownStep(h, n, peak, maxDd);
      if dd > maxDd {
        maxDd := dd;
      }
      GrossStep(h, n);
      if pnl > 0.0 {
        WinStep(h, n, consec, maxConsec);
        wins := wins + 1;
        grossProfit := grossProfit + pnl;
        consec := 0;
      } else {
        LossStep(h, n, consec, maxConsec);
        losses := losses + 1;
        grossLoss := grossLoss + Abs(pnl);
        consec := consec + 1;
        if consec > maxConsec {
          maxConsec := consec;
        }
      }
      byFactor := BookSignals(byFactor, FactorBookings(h[..n]), rec);
      BookingsStep(h, n);
      bySymbol := bySymbol[rec.symbol := Booked(RowOf(bySymbol, rec.symbol), pnl)];
      QualifyingDaysStep(h, n);
      if rec.countsForDay {
        days := days + {rec.exitDay};
      }
    }
    assert h[..|h|] == h;
    EquityTotal(h);
    bySymbol := RateAll(bySymbol, SymbolBookings(h));
    byFactor := AverageAll(byFactor, FactorBookings(h));
    s := Finish(h, wins, losses, grossProfit, grossLoss, equity);
    var sharpe := Sharpe(h, equity, sqrt);
    s := s.(sharpe := sharpe, maxConsecLosses := maxConsec, maxDrawdown := maxDd, bySymbol := bySymbol,
            byFactor := byFactor,
            tradingDays := |days|);
    Assemble(h, s);
  }

  lemma {:induction false} Assemble(h: seq<Closed>, s: Stats)
    requires h != [] && s.totalTrades == |h| && s.winCount == WinCount(h) && s.winCount + s.lossCount == |h|
    requires s.winRate == Divide(WinCount(h) as real, |h| as real) * 100.0
    requires s.avgWin == AverageWin(h) && s.avgLoss == AverageLoss(h)
    requires s.profitFactor == (if GrossLoss(h) > 0.0 then Divide(GrossProfit(h), GrossLoss(h)) else 0.0)
    requires s.expectancy == Expectancy(h) && s.totalPnl == Sum(Pnls(h))
    requires s.avgRr == (if s.avgLoss > 0.0 then Divide(Expectancy(h), AverageLoss(h)) else 0.0)
    requires IsMaxDrawdown(h, |h|, s.maxDrawdown) && IsLongestRun(h, |h|, s.maxConsecLosses)
    requires s.bySymbol == RatedTable(SymbolBookings(h)) && s.byFactor == AveragedTable(FactorBookings(h))
    requires s.tradingDays == |QualifyingDays(h)| && IsSharpe(Pnls(h), s.sharpe)
    ensures IsStatsOf(h, s)
  {
  }

  lemma EquityTotal(h: seq<Closed>)
    ensures Equity(h, |h|) == Sum(Pnls(h))
  {
    assert Pnls(h)[..|h|] == Pnls(h);
  }

  lemma PassStart(h: seq<Closed>)
    ensures Equity(h, 0) == 0.0 && IsPeak(h, 0, 0.0) && IsMaxDrawdown(h, 0, 0.0)
    ensures IsCurrentRun(h, 0, 0) && IsLongestRun(h, 0, 0)
    ensures WinCount(h[..0]) == 0 && GrossProfit(h[..0]) == 0.0 && GrossLoss(h[..0]) == 0.0
    ensures Table(SymbolBookings(h[..0])) == map[] && Table(FactorBookings(h[..0])) == map[]
    ensures QualifyingDays(h[..0]) == {}
  {
    CurveStart(h);
    RunStart(h);
  }

  /** The nested loop over a trade's signals. */
  method BookSignals(t: map<string, Performance>, ghost b: seq<Booking>, rec: Closed)
    returns (r: map<string, Performance>)
    requires t == Table(b)
    ensures r == Table(b + SignalBookings(rec))
  {
    hide Table;
    r := t;
    ghost var signals := SignalBookings(rec);
    assert b + signals[..0] == b;
    for i := 0 to |rec.factors|
      invariant r == Table(b + signals[..i])
    {
      TableStep(b + signals[..i], signals[i]);
      assert b + signals[..i] + [signals[i]] == b + signals[..i + 1];
      r := r[rec.factors[i] := Booked(RowOf(r, rec.factors[i]), rec.pnl)];
    }
    assert signals[..|rec.factors|] == signals;
  }

  lemma BookingsStep(h: seq<Closed>, n: nat)
    requires n < |h|
    ensures FactorBookings(h[..n + 1]) == FactorBookings(h[..n]) + SignalBookings(h[n])
    ensures var t := Table(SymbolBookings(h[..n]));
            Table(SymbolBookings(h[..n + 1])) == t[h[n].symbol := Booked(RowOf(t, h[n].symbol), h[n].pnl)]
  {
    hide Table;
    assert h[..n + 1][..n] == h[..n];
    assert SymbolBookings(h[..n + 1]) == SymbolBookings(h[..n]) + [Booking(h[n].symbol, h[n].pnl)];
    TableStep(SymbolBookings(h[..n]), Booking(h[n].symbol, h[n].pnl));
  }

  /** Fills in the win rates, row by row. */
  method RateAll(t: map<string, Performance>, ghost b: seq<Booking>) returns (r: map<string, Performance>)
    requires t == Table(b)
    ensures r == RatedTable(b)
  {
    hide Table;
    r := t;
    var left := t.Keys;
    while left != {}
      invariant left <= t.Keys && r.Keys == t.Keys
      invariant forall k :: k in t ==> r[k] == if k in left then t[k] else Rated(t[k])
    {
      var k :| k in left;
      if r[k].trades > 0 {
        r := r[k := r[k].(winRate := Divide(r[k].wins as real, r[k].trades as real) * 100.0)];
      }
      left := left - {k};
    }
  }

  /** The same, with the average PnL as well. */
  method AverageAll(t: map<string, Performance>, ghost b: seq<Booking>) returns (r: map<string, Performance>)
    requires t == Table(b)
    ensures r == AveragedTable(b)
  {
    hide Table;
    r := t;
    var left := t.Keys;
    while left != {}
      invariant left <= t.Keys && r.Keys == t.Keys
      invariant forall k :: k in t ==> r[k] == if k in left then t[k] else Averaged(t[k])
    {
      var k :| k in left;
      if r[k].trades > 0 {
        r := r[k := r[k].(winRate := Divide(r[k].wins as real, r[k].trades as real) * 100.0,
                          avgPnl := Divide(r[k].totalPnl, r[k].trades as real))];
      }
      left := left - {k};
    }
  }

  /** The Sharpe estimate: the loop over squared deviations from the mean. */
  method Sharpe(h: seq<Closed>, equity: real, sqrt: real --> real) returns (sharpe: real)
    requires IsSqrt(sqrt) && equity == Sum(Pnls(h))
    ensures IsSharpe(Pnls(h), sharpe)
  {
    hide Sum, Dot, Deviations, IsDeviation, IsSharpe;
    ghost var x := Pnls(h);
    if |h| <= 1 {
      NoSharpe(x);
      return 0.0;
    }
    var mean := Divide(equity, |h| as real);
    assert mean == Mean(x);
    ghost var dev := Deviations(x, mean);
    var sumSqDev := 0.0;
    NothingSummed();
    for i := 0 to |h|
      invariant sumSqDev == Dot(dev[..i], dev[..i]) && sumSqDev >= 0.0
    {
      DotStep(dev, dev, i);
      var d := h[i].pnl - mean;
      DeviationAt(x, mean, i);
      AddSquare(sumSqDev, d);
      sumSqDev := sumSqDev + d * d;
    }
    assert dev[..|h|] == dev;
    var variance := sumSqDev / (|h| - 1) as real;
    var stddev := sqrt(variance);
    RootOfVariance(x, sumSqDev, variance, stddev);
    var year := sqrt(252.0);
    sharpe := 0.0;
    if stddev > 0.0 {
      sharpe := Scaled(mean, stddev, year);
    }
    SharpeFrom(x, stddev, year, sharpe);
  }

  lemma NoSharpe(x: seq<real>)
    requires |x| <= 1
    ensures IsSharpe(x, 0.0)
  {
  }

  lemma SharpeFrom(x: seq<real>, sd: real, year: real, sharpe: real)
    requires |x| >= 2 && IsDeviation(x, sd) && IsYearRoot(year)
    requires ScaledShare(Mean(x), sd, year, sharpe)
    ensures IsSharpe(x, sharpe)
  {
    hide IsDeviation, Mean, ScaledShare;
  }

  /** The averages and ratios. */
  method Finish(h: seq<Closed>, wins: nat, losses: nat, grossProfit: real, grossLoss: real, equity: real)
    returns (s: Stats)
    requires h != [] && wins == WinCount(h) && wins + losses == |h|
    requires grossProfit == GrossProfit(h) && grossLoss == GrossLoss(h) && equity == Sum(Pnls(h))
    ensures s.totalTrades == |h| && s.winCount == wins && s.lossCount == losses && s.totalPnl == equity
    ensures s.winRate == Divide(wins as real, |h| as real) * 100.0 && s.expectancy == Expectancy(h)
    ensures s.avgWin == AverageWin(h) && s.avgLoss == AverageLoss(h)
    ensures s.profitFactor == if grossLoss > 0.0 then Divide(grossProfit, grossLoss) else 0.0
    ensures s.avgRr == if s.avgLoss > 0.0 then Divide(Expectancy(h), AverageLoss(h)) else 0.0
  {
    hide Divide, GrossProfit, GrossLoss, WinCount;
    var total := wins + losses;
    s := EMPTY.(totalTrades := total, winCount := wins, lossCount := losses, totalPnl := equity);
    s := s.(winRate := Divide(wins as real, total as real) * 100.0, expectancy := Divide(equity, total as real));
    if wins > 0 {
      s := s.(avgWin := Divide(grossProfit, wins as real));
    }
    if losses > 0 {
      s := s.(avgLoss := Divide(grossLoss, losses as real));
    }
    if grossLoss > 0.0 {
      s := s.(profitFactor := Divide(grossProfit, grossLoss));
    }
    if s.avgLoss > 0.0 {
      var totalR := 0.0;
      RatioOfNothing(Pnls(h), s.avgLoss);
      for i := 0 to |h|
        invariant totalR == Divide(Sum(Pnls(h)[..i]), s.avgLoss)
      {
        RatioStep(Pnls(h), i, s.avgLoss);
        totalR := totalR + Divide(h[i].pnl, s.avgLoss);
      }
      assert Pnls(h)[..|h|] == Pnls(h);
      s := s.(avgRr := Divide(totalR, |h| as real));
      RatioSwap(equity, s.avgLoss, |h| as real);
    }
  }

  lemma RatioStep(x: seq<real>, i: nat, d: real)
    requires i < |x| && d > 0.0
    ensures Divide(Sum(x[..i + 1]), d) == Divide(Sum(x[..i]), d) + Divide(x[i], d)
  {
    SumStep(x, i);
  }

  lemma RatioOfNothing(x: seq<real>, d: real)
    requires d > 0.0
    ensures Divide(Sum(x[..0]), d) == 0.0
  {
  }

  lemma RatioSwap(x: real, a: real, b: real)
    requires a > 0.0 && b > 0.0
    ensures Divide(Divide(x, a), b) == Divide(Divide(x, b), a)
  {
    var l, r := Divide(Divide(x, a), b), Divide(Divide(x, b), a);
    assert l * b * a == x;
    assert r * a * b == x;
    assert (l - r) * (a * b) == 0.0;
  }
}
