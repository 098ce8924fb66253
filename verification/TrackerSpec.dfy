/** What the performance statistics of a trade history mean (internal/scanner/tracker.go). */
module TrackerSpec {
  import opened RealSeq
  import opened Moments

  datatype Outcome = Pending | TpHit | SlHit | Manual | Expired | Cancelled

  /** A closed trade; a quotient by zero is None. */
  datatype Closed = Closed(
    symbol: string,
    factors: seq<string>,
    outcome: Outcome,
    exitPrice: real,
    fees: real,
    pnl: real,
    pnlPct: Option<real>,
    slippageBps: Option<real>,
    countsForDay: bool,
    exitDay: int
  )

  /** Results under one symbol, or one confluence factor; only factors have an average PnL. */
  datatype Performance = Performance(trades: nat, wins: nat, totalPnl: real, winRate: real, avgPnl: real)

  datatype Stats = Stats(
    totalTrades: nat,
    winCount: nat,
    lossCount: nat,
    winRate: real,
    avgWin: real,
    avgLoss: real,
    profitFactor: real,
    expectancy: real,
    avgRr: real,
    maxConsecLosses: nat,
    maxDrawdown: real,
    totalPnl: real,
    sharpe: real,
    bySymbol: map<string, Performance>,
    byFactor: map<string, Performance>,
    tradingDays: nat
  )

  const EMPTY := Stats(0, 0, 0, 0.0, 0.0, 0.0, 0.0, 0.0, 0.0, 0, 0.0, 0.0, 0.0, map[], map[], 0)

  function Pnls(h: seq<Closed>): (r: seq<real>)
    ensures |r| == |h|
  {
    seq(|h|, i requires 0 <= i < |h| => h[i].pnl)
  }

  // ---------------------------------------------------------------------
  // The equity curve
  // ---------------------------------------------------------------------

  /** Equity after the first i trades. */
  function Equity(h: seq<Closed>, i: nat): real
    requires i <= |h|
  {
    Sum(Pnls(h)[..i])
  }

  /** x is the largest equity over the first n trades, the start included. */
  ghost predicate IsPeak(h: seq<Closed>, n: nat, x: real)
    requires n <= |h|
  {
    && (forall i :: 0 <= i <= n ==> Equity(h, i) <= x)
    && exists i :: 0 <= i <= n && Equity(h, i) == x
  }

  /** d is the largest fall from any point of the curve to any later one, over the first n trades. */
  ghost predicate IsMaxDrawdown(h: seq<Closed>, n: nat, d: real)
    requires n <= |h|
  {
    && (forall i, j :: 0 <= i <= j <= n ==> Equity(h, i) - Equity(h, j) <= d)
    && exists i, j :: 0 <= i <= j <= n && Equity(h, i) - Equity(h, j) == d
  }

  lemma EquityStep(h: seq<Closed>, n: nat)
    requires n < |h|
    ensures Equity(h, n + 1) == Equity(h, n) + h[n].pnl
  {
    SumStep(Pnls(h), n);
  }

  lemma CurveStart(h: seq<Closed>)
    ensures Equity(h, 0) == 0.0 && IsPeak(h, 0, 0.0) && IsMaxDrawdown(h, 0, 0.0)
  {
    hide Equity;
    assert Equity(h, 0) == 0.0 by { EmptyEquity(h); }
  }

  lemma EmptyEquity(h: seq<Closed>)
    ensures Equity(h, 0) == 0.0
  {
  }

  lemma PeakStep(h: seq<Closed>, n: nat, peak: real)
    requires n < |h| && IsPeak(h, n, peak)
    ensures IsPeak(h, n + 1, Max(peak, Equity(h, n + 1)))
  {
    hide Equity;
  }

  lemma DrawdownStep(h: seq<Closed>, n: nat, peak: real, d: real)
    requires n < |h| && IsPeak(h, n + 1, peak) && IsMaxDrawdown(h, n, d)
    ensures IsMaxDrawdown(h, n + 1, Max(d, peak - Equity(h, n + 1)))
  {
    hide Equity;
    var d' := Max(d, peak - Equity(h, n + 1));
    if d' == d {
      var i, j :| 0 <= i <= j <= n && Equity(h, i) - Equity(h, j) == d;
    } else {
      var i :| 0 <= i <= n + 1 && Equity(h, i) == peak;
      assert Equity(h, i) - Equity(h, n + 1) == d';
    }
  }

  // ---------------------------------------------------------------------
  // Losing runs
  // ---------------------------------------------------------------------

  /** Trades i up to j all lost (or broke even). */
  ghost predicate LosingRun(h: seq<Closed>, i: nat, j: nat)
    requires j <= |h|
  {
    i <= j && forall k :: i <= k < j ==> h[k].pnl <= 0.0
  }

  /** c is the length of the longest losing run that ends with trade n. */
  ghost predicate IsCurrentRun(h: seq<Closed>, n: nat, c: nat)
    requires n <= |h|
  {
    c <= n && LosingRun(h, n - c, n) && (c < n ==> h[n - c - 1].pnl > 0.0)
  }

  ghost predicate IsLongestRun(h: seq<Closed>, n: nat, m: nat)
    requires n <= |h|
  {
    && (forall i: nat, j: nat :: j <= n && LosingRun(h, i, j) ==> j - i <= m)
    && exists i: nat, j: nat :: j <= n && LosingRun(h, i, j) && j - i == m
  }

  lemma RunStart(h: seq<Closed>)
    ensures IsCurrentRun(h, 0, 0) && IsLongestRun(h, 0, 0)
  {
    assert LosingRun(h, 0, 0);
  }

  lemma NoRunThroughWin(h: seq<Closed>, i: nat, j: nat, k: nat)
    requires i <= k < j <= |h| && h[k].pnl > 0.0
    ensures !LosingRun(h, i, j)
  {
  }

  lemma WinStep(h: seq<Closed>, n: nat, c: nat, m: nat)
    requires n < |h| && h[n].pnl > 0.0 && IsCurrentRun(h, n, c) && IsLongestRun(h, n, m)
    ensures IsCurrentRun(h, n + 1, 0) && IsLongestRun(h, n + 1, m)
  {
    forall i: nat, j: nat | j <= n + 1 && LosingRun(h, i, j) ensures j - i <= m {
      if j == n + 1 && i <= n {
        NoRunThroughWin(h, i, j, n);
      }
    }
  }

  lemma CurrentRunIsLongest(h: seq<Closed>, n: nat, c: nat, i: nat)
    requires n <= |h| && IsCurrentRun(h, n, c) && LosingRun(h, i, n)
    ensures n - i <= c
  {
  }

  lemma LossStep(h: seq<Closed>, n: nat, c: nat, m: nat)
    requires n < |h| && h[n].pnl <= 0.0 && IsCurrentRun(h, n, c) && IsLongestRun(h, n, m)
    ensures IsCurrentRun(h, n + 1, c + 1) && IsLongestRun(h, n + 1, if c + 1 > m then c + 1 else m)
  {
    assert LosingRun(h, n - c, n + 1);
    var m' := if c + 1 > m then c + 1 else m;
    forall i: nat, j: nat | j <= n + 1 && LosingRun(h, i, j) ensures j - i <= m' {
      if j == n + 1 && i <= n {
        CurrentRunIsLongest(h, n, c, i);
      }
    }
    if c + 1 <= m {
      var i: nat, j: nat :| j <= n && LosingRun(h, i, j) && j - i == m;
      assert LosingRun(h, i, j);
    }
  }

  // ---------------------------------------------------------------------
  // Wins and losses
  // ---------------------------------------------------------------------

  function WinCount(h: seq<Closed>): nat {
    if h == [] then 0 else WinCount(h[..|h| - 1]) + if h[|h| - 1].pnl > 0.0 then 1 else 0
  }

  function GrossProfit(h: seq<Closed>): real {
    if h == [] then 0.0 else GrossProfit(h[..|h| - 1]) + Max(h[|h| - 1].pnl, 0.0)
  }

  function GrossLoss(h: seq<Closed>): real {
    if h == [] then 0.0 else GrossLoss(h[..|h| - 1]) + Max(-h[|h| - 1].pnl, 0.0)
  }

  lemma GrossStep(h: seq<Closed>, n: nat)
    requires n < |h|
    ensures GrossProfit(h[..n + 1]) == GrossProfit(h[..n]) + Max(h[n].pnl, 0.0)
    ensures GrossLoss(h[..n + 1]) == GrossLoss(h[..n]) + Max(-h[n].pnl, 0.0)
    ensures WinCount(h[..n + 1]) == WinCount(h[..n]) + if h[n].pnl > 0.0 then 1 else 0
  {
    assert h[..n + 1][..n] == h[..n];
  }

  /** Total PnL is gross profit less gross loss. */
  lemma {:induction false} TotalIsProfitLessLoss(h: seq<Closed>)
    ensures Sum(Pnls(h)) == GrossProfit(h) - GrossLoss(h) && GrossProfit(h) >= 0.0 && GrossLoss(h) >= 0.0
    ensures WinCount(h) <= |h|
  {
    if h != [] {
      var n := |h| - 1;
      TotalIsProfitLessLoss(h[..n]);
      assert Pnls(h)[..n] == Pnls(h[..n]);
    }
  }

  // ---------------------------------------------------------------------
  // Results by symbol and by factor
  // ---------------------------------------------------------------------

  /** One result booked under a key. */
  datatype Booking = Booking(key: string, pnl: real)

  function Trades(b: seq<Booking>, key: string): nat {
    if b == [] then 0 else Trades(b[..|b| - 1], key) + if b[|b| - 1].key == key then 1 else 0
  }

  function Wins(b: seq<Booking>, key: string): nat {
    if b == [] then 0 else Wins(b[..|b| - 1], key) + if b[|b| - 1].key == key && b[|b| - 1].pnl > 0.0 then 1 else 0
  }

  function PnlOf(b: seq<Booking>, key: string): real {
    if b == [] then 0.0 else PnlOf(b[..|b| - 1], key) + if b[|b| - 1].key == key then b[|b| - 1].pnl else 0.0
  }

  ghost function Keys(b: seq<Booking>): set<string> { set i | 0 <= i < |b| :: b[i].key }

  /** The table before win rates are filled in: one row for every key that was booked. */
  ghost function Table(b: seq<Booking>): map<string, Performance> {
    map k | k in Keys(b) :: Performance(Trades(b, k), Wins(b, k), PnlOf(b, k), 0.0, 0.0)
  }

  function Rated(p: Performance): Performance {
    if p.trades > 0 then p.(winRate := Divide(p.wins as real, p.trades as real) * 100.0) else p
  }

  function Averaged(p: Performance): Performance {
    if p.trades > 0 then Rated(p).(avgPnl := Divide(p.totalPnl, p.trades as real)) else p
  }

  ghost function RatedTable(b: seq<Booking>): map<string, Performance> {
    var t := Table(b);
    map k | k in t :: Rated(t[k])
  }

  ghost function AveragedTable(b: seq<Booking>): map<string, Performance> {
    var t := Table(b);
    map k | k in t :: Averaged(t[k])
  }

  const NO_RESULTS := Performance(0, 0, 0.0, 0.0, 0.0)

  function Booked(p: Performance, pnl: real): Performance {
    Performance(p.trades + 1, if pnl > 0.0 then p.wins + 1 else p.wins, p.totalPnl + pnl, p.winRate, p.avgPnl)
  }

  function RowOf(t: map<string, Performance>, key: string): Performance { if key in t then t[key] else NO_RESULTS }

  lemma TableStep(b: seq<Booking>, x: Booking)
    ensures Table(b + [x]) == Table(b)[x.key := Booked(RowOf(Table(b), x.key), x.pnl)]
  {
    var next := b + [x];
    assert next[..|b|] == b;
    assert Keys(next) == Keys(b) + {x.key} by {
      assert next[|b|] == x;
      forall k | k in Keys(b) ensures k in Keys(next) {
        var i :| 0 <= i < |b| && b[i].key == k;
        assert next[i] == b[i];
      }
    }
    if x.key !in Keys(b) {
      NotBooked(b, x.key);
    }
  }

  lemma {:induction false} NotBooked(b: seq<Booking>, key: string)
    requires key !in Keys(b)
    ensures Trades(b, key) == 0 && Wins(b, key) == 0 && PnlOf(b, key) == 0.0
  {
    if b != [] {
      assert b[|b| - 1].key in Keys(b);
      assert Keys(b[..|b| - 1]) <= Keys(b);
      NotBooked(b[..|b| - 1], key);
    }
  }

  ghost function TradesColumn(t: map<string, Performance>): map<string, real> { map k | k in t :: t[k].trades as real }

  ghost function PnlColumn(t: map<string, Performance>): map<string, real> { map k | k in t :: t[k].totalPnl }

  function BookedPnl(b: seq<Booking>): real {
    if b == [] then 0.0 else BookedPnl(b[..|b| - 1]) + b[|b| - 1].pnl
  }

  /** Nothing is lost between the rows: trades and PnL of a table add up to what was booked. */
  lemma {:induction false} TableAddsUp(b: seq<Booking>)
    ensures MapSum(TradesColumn(Table(b))) == |b| as real && MapSum(PnlColumn(Table(b))) == BookedPnl(b)
  {
    if b == [] {
      assert Table(b) == map[];
      assert TradesColumn(Table(b)) == map[] && PnlColumn(Table(b)) == map[];
    } else {
      var n := |b| - 1;
      var x := b[n];
      TableAddsUp(b[..n]);
      assert b == b[..n] + [x];
      hide Table;
      TableStep(b[..n], x);
      ColumnsStep(Table(b[..n]), x);
    }
  }

  /** Booking one result adds one trade and its PnL to the column totals. */
  lemma ColumnsStep(t: map<string, Performance>, x: Booking)
    ensures var next := t[x.key := Booked(RowOf(t, x.key), x.pnl)];
            && MapSum(TradesColumn(next)) == MapSum(TradesColumn(t)) + 1.0
            && MapSum(PnlColumn(next)) == MapSum(PnlColumn(t)) + x.pnl
  {
    var row := Booked(RowOf(t, x.key), x.pnl);
    var next := t[x.key := row];
    assert TradesColumn(next) == TradesColumn(t)[x.key := row.trades as real];
    assert PnlColumn(next) == PnlColumn(t)[x.key := row.totalPnl];
    MapSumSet(TradesColumn(t), x.key, row.trades as real);
    MapSumSet(PnlColumn(t), x.key, row.totalPnl);
  }

  function SymbolBookings(h: seq<Closed>): (r: seq<Booking>)
    ensures |r| == |h|
  {
    seq(|h|, i requires 0 <= i < |h| => Booking(h[i].symbol, h[i].pnl))
  }

  /** One booking for each signal of a trade. */
  function SignalBookings(c: Closed): (r: seq<Booking>)
    ensures |r| == |c.factors|
  {
    seq(|c.factors|, i requires 0 <= i < |c.factors| => Booking(c.factors[i], c.pnl))
  }

  function FactorBookings(h: seq<Closed>): seq<Booking> {
    if h == [] then [] else FactorBookings(h[..|h| - 1]) + SignalBookings(h[|h| - 1])
  }

  lemma {:induction false} SymbolBookingsPnl(h: seq<Closed>)
    ensures BookedPnl(SymbolBookings(h)) == Sum(Pnls(h))
  {
    if h != [] {
      var n := |h| - 1;
      SymbolBookingsPnl(h[..n]);
      assert SymbolBookings(h)[..n] == SymbolBookings(h[..n]);
      assert Pnls(h)[..n] == Pnls(h[..n]);
    }
  }

  /** The rows by symbol account for every trade and the whole PnL. */
  lemma SymbolsAccountForEverything(h: seq<Closed>)
    ensures MapSum(TradesColumn(RatedTable(SymbolBookings(h)))) == |h| as real
    ensures MapSum(PnlColumn(RatedTable(SymbolBookings(h)))) == Sum(Pnls(h))
  {
    TableAddsUp(SymbolBookings(h));
    SymbolBookingsPnl(h);
    RatingKeepsColumns(SymbolBookings(h));
  }

  lemma RatingKeepsColumns(b: seq<Booking>)
    ensures TradesColumn(RatedTable(b)) == TradesColumn(Table(b)) && PnlColumn(RatedTable(b)) == PnlColumn(Table(b))
  {
    hide Table;
  }

  ghost function QualifyingDays(h: seq<Closed>): set<int> { set i | 0 <= i < |h| && h[i].countsForDay :: h[i].exitDay }

  lemma QualifyingDaysStep(h: seq<Closed>, n: nat)
    requires n < |h|
    ensures QualifyingDays(h[..n + 1]) == QualifyingDays(h[..n]) + if h[n].countsForDay then {h[n].exitDay} else {}
  {
    var a, b := h[..n], h[..n + 1];
    assert b[..n] == a && b[n] == h[n];
    forall d | d in QualifyingDays(a) ensures d in QualifyingDays(b) {
      var i :| 0 <= i < n && a[i].countsForDay && a[i].exitDay == d;
      assert b[i] == a[i];
    }
    forall d | d in QualifyingDays(b) ensures d in QualifyingDays(a) || (h[n].countsForDay && d == h[n].exitDay) {
      var i :| 0 <= i < n + 1 && b[i].countsForDay && b[i].exitDay == d;
      assert i < n ==> a[i] == b[i];
    }
  }

  // ---------------------------------------------------------------------
  // All together
  // ---------------------------------------------------------------------

  function AverageWin(h: seq<Closed>): real {
    if WinCount(h) == 0 then 0.0 else Divide(GrossProfit(h), WinCount(h) as real)
  }

  function AverageLoss(h: seq<Closed>): real {
    if |h| <= WinCount(h) then 0.0 else Divide(GrossLoss(h), (|h| - WinCount(h)) as real)
  }

  function Expectancy(h: seq<Closed>): real {
    if h == [] then 0.0 else Divide(Sum(Pnls(h)), |h| as real)
  }

  /** Mean over sample deviation, scaled to 252 trading days a year; 0 for fewer than two trades or no deviation. */
  ghost predicate IsSharpe(x: seq<real>, s: real) {
    if |x| < 2 then s == 0.0
    else exists sd, year :: IsDeviation(x, sd) && IsYearRoot(year) && ScaledShare(Mean(x), sd, year, s)
  }

  ghost predicate IsYearRoot(year: real) { year >= 0.0 && year * year == 252.0 }

  ghost predicate ScaledShare(mean: real, sd: real, year: real, s: real) {
    if sd > 0.0 then s * sd == mean * year else s == 0.0
  }

  /** s holds the statistics of the history h. */
  ghost predicate IsStatsOf(h: seq<Closed>, s: Stats) {
    && s.totalTrades == |h| && s.winCount == WinCount(h) && s.winCount + s.lossCount == |h|
    && s.winRate == (if h == [] then 0.0 else Divide(WinCount(h) as real, |h| as real) * 100.0)
    && s.avgWin == AverageWin(h) && s.avgLoss == AverageLoss(h)
    && s.profitFactor == (if GrossLoss(h) > 0.0 then Divide(GrossProfit(h), GrossLoss(h)) else 0.0)
    && s.expectancy == Expectancy(h)
    && s.avgRr == (if s.avgLoss > 0.0 then Divide(Expectancy(h), AverageLoss(h)) else 0.0)
    && s.totalPnl == Sum(Pnls(h)) && IsSharpe(Pnls(h), s.sharpe)
    && IsMaxDrawdown(h, |h|, s.maxDrawdown)
    && IsLongestRun(h, |h|, s.maxConsecLosses)
    && s.bySymbol == RatedTable(SymbolBookings(h))
    && s.byFactor == AveragedTable(FactorBookings(h))
    && s.tradingDays == |QualifyingDays(h)|
  }

  // ---------------------------------------------------------------------
  // What the statistics mean, by counting and without division
  // ---------------------------------------------------------------------

  ghost function Winners(h: seq<Closed>): set<nat> { set i: nat | i < |h| && h[i].pnl > 0.0 }

  ghost function BookedAt(b: seq<Booking>, key: string): set<nat> { set i: nat | i < |b| && b[i].key == key }

  ghost function WonAt(b: seq<Booking>, key: string): set<nat> {
    set i: nat | i < |b| && b[i].key == key && b[i].pnl > 0.0
  }

  /** The PnL of the bookings under a key, and zero for the others. */
  ghost function Under(b: seq<Booking>, key: string): (r: seq<real>)
    ensures |r| == |b|
  {
    seq(|b|, i requires 0 <= i < |b| => if b[i].key == key then b[i].pnl else 0.0)
  }

  ghost function Parts(h: seq<Closed>, won: bool): (r: seq<real>)
    ensures |r| == |h|
  {
    seq(|h|, i requires 0 <= i < |h| =>
          if won then (if h[i].pnl > 0.0 then h[i].pnl else 0.0) else if h[i].pnl < 0.0 then -h[i].pnl else 0.0)
  }

  lemma {:induction false} WinsAreCounted(h: seq<Closed>)
    ensures WinCount(h) == |Winners(h)|
  {
    if h == [] {
      assert Winners(h) == {};
    } else {
      var n := |h| - 1;
      WinsAreCounted(h[..n]);
      assert Winners(h) == Winners(h[..n]) + if h[n].pnl > 0.0 then {n} else {};
    }
  }

  lemma {:induction false} GrossIsSummed(h: seq<Closed>)
    ensures GrossProfit(h) == Sum(Parts(h, true)) && GrossLoss(h) == Sum(Parts(h, false))
  {
    if h != [] {
      var n := |h| - 1;
      GrossIsSummed(h[..n]);
      assert Parts(h, true)[..n] == Parts(h[..n], true) && Parts(h, false)[..n] == Parts(h[..n], false);
    }
  }

  /** A row counts the bookings under its key, and of those the winning ones. */
  lemma RowsAreCounted(b: seq<Booking>, key: string)
    ensures Trades(b, key) == |BookedAt(b, key)| && Wins(b, key) == |WonAt(b, key)|
    ensures PnlOf(b, key) == Sum(Under(b, key))
  {
    TradesAreCounted(b, key);
    WinsUnder(b, key);
    PnlIsSummed(b, key);
    hide Trades, Wins, PnlOf, Sum, BookedAt, WonAt, Under;
  }

  lemma {:induction false} TradesAreCounted(b: seq<Booking>, key: string)
    ensures Trades(b, key) == |BookedAt(b, key)|
  {
    if b == [] {
      assert BookedAt(b, key) == {};
    } else {
      var n := |b| - 1;
      TradesAreCounted(b[..n], key);
      assert BookedAt(b, key) == BookedAt(b[..n], key) + if b[n].key == key then {n} else {};
    }
  }

  lemma {:induction false} WinsUnder(b: seq<Booking>, key: string)
    ensures Wins(b, key) == |WonAt(b, key)|
  {
    if b == [] {
      assert WonAt(b, key) == {};
    } else {
      var n := |b| - 1;
      WinsUnder(b[..n], key);
      assert WonAt(b, key) == WonAt(b[..n], key) + if b[n].key == key && b[n].pnl > 0.0 then {n} else {};
    }
  }

  lemma {:induction false} PnlIsSummed(b: seq<Booking>, key: string)
    ensures PnlOf(b, key) == Sum(Under(b, key))
  {
    if b != [] {
      PnlIsSummed(b[..|b| - 1], key);
      assert Under(b, key)[..|b| - 1] == Under(b[..|b| - 1], key);
    }
  }

  /** Every signal of every trade is booked once, with the trade's PnL, in order. */
  lemma {:induction false} SignalsAreBooked(h: seq<Closed>, i: nat, m: nat)
    requires i < |h| && m < |h[i].factors|
    ensures var p := |FactorBookings(h[..i])| + m;
            p < |FactorBookings(h)| && FactorBookings(h)[p] == Booking(h[i].factors[m], h[i].pnl)
    ensures |FactorBookings(h)| == |FactorBookings(h[..|h| - 1])| + |h[|h| - 1].factors|
  {
    var n := |h| - 1;
    if i < n {
      SignalsAreBooked(h[..n], i, m);
      assert h[..n][..i] == h[..i];
    }
  }

  /** q is the part over the whole. */
  predicate IsShare(q: real, part: real, whole: real) { q * whole == part }

  /** q is the part in percent of the whole. */
  predicate IsPercent(q: real, part: real, whole: real) { q * whole == 100.0 * part }

  lemma ShareIs(part: real, whole: real)
    requires whole != 0.0
    ensures IsShare(Divide(part, whole), part, whole) && IsPercent(Divide(part, whole) * 100.0, part, whole)
  {
    DivideInverse(part, whole);
    var q := Divide(part, whole);
    assert (q * 100.0) * whole == 100.0 * (q * whole);
  }

  /** What a row of a table says: it is there exactly for a booked key, and its rates are shares of its counts. */
  ghost predicate IsRow(b: seq<Booking>, t: map<string, Performance>, key: string, averaged: bool) {
    && (key in t <==> exists i :: 0 <= i < |b| && b[i].key == key)
    && (key in t ==>
         && t[key].trades == |BookedAt(b, key)| && t[key].wins == |WonAt(b, key)|
         && t[key].totalPnl == Sum(Under(b, key))
         && IsPercent(t[key].winRate, t[key].wins as real, t[key].trades as real)
         && if averaged then IsShare(t[key].avgPnl, t[key].totalPnl, t[key].trades as real) else t[key].avgPnl == 0.0)
  }

  lemma RatedRow(b: seq<Booking>, key: string)
    ensures IsRow(b, RatedTable(b), key, false) && IsRow(b, AveragedTable(b), key, true)
  {
    RowsAreCounted(b, key);
    TablesAre(b, key);
    if key in Keys(b) {
      BookedOnce(b, key);
      RatesAreShares(Performance(Trades(b, key), Wins(b, key), PnlOf(b, key), 0.0, 0.0));
    }
    hide Rated, Averaged, Sum, Trades, Wins, PnlOf, RatedTable, AveragedTable, Table, BookedAt, WonAt, Under, IsShare,
         IsPercent;
  }

  lemma TablesAre(b: seq<Booking>, key: string)
    ensures (key in RatedTable(b) <==> key in Keys(b)) && (key in AveragedTable(b) <==> key in Keys(b))
    ensures var row := Performance(Trades(b, key), Wins(b, key), PnlOf(b, key), 0.0, 0.0);
            key in Keys(b) ==> RatedTable(b)[key] == Rated(row) && AveragedTable(b)[key] == Averaged(row)
  {
    hide Rated, Averaged, Keys, Trades, Wins, PnlOf;
  }

  lemma BookedOnce(b: seq<Booking>, key: string)
    requires key in Keys(b)
    ensures |BookedAt(b, key)| > 0
  {
    var i: nat :| i < |b| && b[i].key == key;
    assert i in BookedAt(b, key);
  }

  lemma RatesAreShares(p: Performance)
    requires p.trades > 0
    ensures IsPercent(Rated(p).winRate, p.wins as real, p.trades as real)
    ensures IsShare(Averaged(p).avgPnl, p.totalPnl, p.trades as real)
    ensures Rated(p) == p.(winRate := Rated(p).winRate)
    ensures Averaged(p) == p.(winRate := Rated(p).winRate, avgPnl := Averaged(p).avgPnl)
  {
    ShareIs(p.wins as real, p.trades as real);
    ShareIs(p.totalPnl, p.trades as real);
    hide Divide, IsShare, IsPercent;
  }

  /**
   * The Sharpe estimate without roots: its square times the squared deviations is 252 (n - 1) times the squared
   * mean, with the sign of the mean; it is 0 for fewer than two trades, or when all earned the same.
   */
  lemma SharpeMeaning(x: seq<real>, s: real)
    requires IsSharpe(x, s)
    ensures |x| < 2 || Spread(x) == 0.0 ==> s == 0.0
    ensures |x| >= 2 ==> (s * s) * Spread(x) == 252.0 * ((|x| - 1) as real * (Mean(x) * Mean(x))) || Spread(x) == 0.0
    ensures |x| >= 2 && Spread(x) > 0.0 ==> (s > 0.0 <==> Mean(x) > 0.0) && (s < 0.0 <==> Mean(x) < 0.0)
  {
    hide Mean, Spread;
    if |x| >= 2 {
      var sd, year :| IsDeviation(x, sd) && IsYearRoot(year) && ScaledShare(Mean(x), sd, year, s);
      SharpeSquared(sd, year, Mean(x), s, (|x| - 1) as real, Spread(x));
    }
  }

  lemma SharpeSquared(sd: real, year: real, mean: real, s: real, n: real, spread: real)
    requires sd >= 0.0 && sd * sd * n == spread && n > 0.0 && IsYearRoot(year) && ScaledShare(mean, sd, year, s)
    ensures spread == 0.0 ==> s == 0.0
    ensures spread == 0.0 || (s * s) * spread == 252.0 * (n * (mean * mean))
    ensures spread > 0.0 ==> (s > 0.0 <==> mean > 0.0) && (s < 0.0 <==> mean < 0.0)
  {
    if sd > 0.0 {
      var a, b := s * sd, mean * year;
      assert a == b;
      assert a * a == (s * s) * (sd * sd) && b * b == (mean * mean) * (year * year);
      assert (s * s) * (sd * sd) == 252.0 * (mean * mean);
      assert (s * s) * spread == ((s * s) * (sd * sd)) * n;
      SameSign(sd * sd, n);
      SameSign(sd, sd);
      SignThrough(s, sd);
      SignThrough(mean, year);
    }
  }

  lemma SignThrough(x: real, y: real)
    requires y > 0.0
    ensures (x > 0.0 <==> x * y > 0.0) && (x < 0.0 <==> x * y < 0.0)
  {
    SameSign(x, y);
    SameSign(-x, y);
  }

  /** The statistics of no trades are all zero and empty. */
  lemma NoTrades(h: seq<Closed>, s: Stats)
    requires h == []
    ensures IsStatsOf(h, s) <==> s == EMPTY
  {
    CurveStart(h);
    RunStart(h);
    assert Table(SymbolBookings(h)) == map[] && Table(FactorBookings(h)) == map[];
    assert QualifyingDays(h) == {} && |Pnls(h)| == 0 && |h| == 0;
    OnlyZero(h, s.maxDrawdown, s.maxConsecLosses);
    hide IsMaxDrawdown, IsLongestRun, Table, SymbolBookings, FactorBookings, QualifyingDays;
  }

  lemma OnlyZero(h: seq<Closed>, d: real, m: nat)
    requires h == []
    ensures (IsMaxDrawdown(h, |h|, d) <==> d == 0.0) && (IsLongestRun(h, |h|, m) <==> m == 0)
  {
    CurveStart(h);
    RunStart(h);
  }

  /** Trades and wins by counting, the win rate in percent, total and average PnL. */
  lemma CountsMeaning(h: seq<Closed>, s: Stats)
    requires h != [] && IsStatsOf(h, s)
    ensures s.totalTrades == |h| && s.winCount == |Winners(h)| && s.lossCount == |h| - |Winners(h)|
    ensures IsPercent(s.winRate, s.winCount as real, |h| as real)
    ensures s.totalPnl == Sum(Pnls(h)) && IsShare(s.expectancy, s.totalPnl, |h| as real)
  {
    WinsAreCounted(h);
    RatesOf(h, s);
    hide IsStatsOf, IsShare, IsPercent, Divide, Sum, Pnls, WinCount, Winners;
    ShareIs(WinCount(h) as real, |h| as real);
    ShareIs(Sum(Pnls(h)), |h| as real);
  }

  /** The average win and loss, over the trades that won and the others. */
  lemma AveragesAre(h: seq<Closed>, s: Stats)
    requires h != [] && IsStatsOf(h, s)
    ensures if Winners(h) != {} then IsShare(s.avgWin, Sum(Parts(h, true)), |Winners(h)| as real) else s.avgWin == 0.0
    ensures if |Winners(h)| < |h| then IsShare(s.avgLoss, Sum(Parts(h, false)), (|h| - |Winners(h)|) as real)
            else s.avgLoss == 0.0
  {
    WinsAreCounted(h);
    GrossIsSummed(h);
    RatesOf(h, s);
    AveragesMeaning(h);
    hide IsStatsOf, IsShare, Sum, Parts, WinCount, GrossProfit, GrossLoss, AverageWin, AverageLoss, Winners, Pnls;
  }

  /** The profit factor, and the average result in units of the average loss. */
  lemma RatiosAre(h: seq<Closed>, s: Stats)
    requires h != [] && IsStatsOf(h, s)
    ensures if Sum(Parts(h, false)) > 0.0 then IsShare(s.profitFactor, Sum(Parts(h, true)), Sum(Parts(h, false)))
            else s.profitFactor == 0.0
    ensures if s.avgLoss > 0.0 then IsShare(s.avgRr, s.expectancy, s.avgLoss) else s.avgRr == 0.0
  {
    GrossIsSummed(h);
    RatesOf(h, s);
    RatiosMeaning(h, s.profitFactor, s.avgRr);
    hide IsStatsOf, IsShare, Sum, Parts, GrossProfit, GrossLoss, AverageLoss, Expectancy, Divide, Pnls;
  }

  /** The rows by symbol and by factor. */
  lemma RowsAre(h: seq<Closed>, s: Stats, key: string)
    requires IsStatsOf(h, s)
    ensures IsRow(SymbolBookings(h), s.bySymbol, key, false) && IsRow(FactorBookings(h), s.byFactor, key, true)
  {
    RatedRow(SymbolBookings(h), key);
    RatedRow(FactorBookings(h), key);
    hide IsRow, RatedTable, AveragedTable, AverageWin, AverageLoss, Expectancy, Divide, IsMaxDrawdown, IsLongestRun,
         IsSharpe, QualifyingDays, Sum, Pnls;
  }

  lemma RatesOf(h: seq<Closed>, s: Stats)
    requires h != [] && IsStatsOf(h, s)
    ensures s.totalTrades == |h| && s.winCount == WinCount(h) && s.winCount + s.lossCount == |h|
    ensures s.winRate == Divide(WinCount(h) as real, |h| as real) * 100.0
    ensures s.totalPnl == Sum(Pnls(h)) && s.expectancy == Expectancy(h) == Divide(Sum(Pnls(h)), |h| as real)
    ensures s.avgWin == AverageWin(h) && s.avgLoss == AverageLoss(h)
    ensures s.profitFactor == if GrossLoss(h) > 0.0 then Divide(GrossProfit(h), GrossLoss(h)) else 0.0
    ensures s.avgRr == if AverageLoss(h) > 0.0 then Divide(Expectancy(h), AverageLoss(h)) else 0.0
  {
    hide Divide, Sum, Pnls, WinCount, GrossProfit, GrossLoss, IsMaxDrawdown, IsLongestRun, IsSharpe, RatedTable,
         AveragedTable, QualifyingDays, AverageWin, AverageLoss;
  }

  lemma AveragesMeaning(h: seq<Closed>)
    requires h != []
    ensures IsShare(Expectancy(h), Sum(Pnls(h)), |h| as real)
    ensures if WinCount(h) > 0 then IsShare(AverageWin(h), GrossProfit(h), WinCount(h) as real)
            else AverageWin(h) == 0.0
    ensures if WinCount(h) < |h| then IsShare(AverageLoss(h), GrossLoss(h), (|h| - WinCount(h)) as real)
            else AverageLoss(h) == 0.0
  {
    hide IsShare, IsPercent, Divide, Sum, Pnls, WinCount, GrossProfit, GrossLoss;
    ShareIs(Sum(Pnls(h)), |h| as real);
    if WinCount(h) > 0 {
      ShareIs(GrossProfit(h), WinCount(h) as real);
    }
    if WinCount(h) < |h| {
      ShareIs(GrossLoss(h), (|h| - WinCount(h)) as real);
    }
  }

  lemma RatiosMeaning(h: seq<Closed>, factor: real, rr: real)
    requires factor == if GrossLoss(h) > 0.0 then Divide(GrossProfit(h), GrossLoss(h)) else 0.0
    requires rr == if AverageLoss(h) > 0.0 then Divide(Expectancy(h), AverageLoss(h)) else 0.0
    ensures if GrossLoss(h) > 0.0 then IsShare(factor, GrossProfit(h), GrossLoss(h)) else factor == 0.0
    ensures if AverageLoss(h) > 0.0 then IsShare(rr, Expectancy(h), AverageLoss(h)) else rr == 0.0
  {
    hide IsShare, IsPercent, Divide, GrossProfit, GrossLoss, AverageLoss, Expectancy;
    if GrossLoss(h) > 0.0 {
      ShareIs(GrossProfit(h), GrossLoss(h));
    }
    if AverageLoss(h) > 0.0 {
      ShareIs(Expectancy(h), AverageLoss(h));
    }
  }
}
