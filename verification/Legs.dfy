/**
 * What every order, fill and event of a run is, against the intent and what was read
 * (internal/execution/executor.go).
 */
module Legs {
  import opened RealSeq
  import opened Exchange
  import opened Executor
  import opened Hedging

  // ---------------------------------------------------------------------
  // What a leg asks for
  // ---------------------------------------------------------------------

  /** What leg j is ordered for: its own notional, or what a partly filled leg before it leaves to hedge. */
  ghost predicate Asks(intent: Intent, run: Run, j: nat, target: real)
    requires j < |intent.legs|
  {
    if j > 0 && ResultAt(intent, run.legs, j - 1).partial then
      var filled := ResultAt(intent, run.legs, j - 1).filledUsd;
      if intent.hedgeBeta > 0.0 && intent.legs[j].symbol != intent.symbol then target * intent.hedgeBeta == filled
      else target == filled
    else target == intent.legs[j].notional
  }

  predicate IsWhole(n: int, unit: real, x: real) { x == n as real * unit }

  /** At a positive price, base is the most of it that the target pays for, in whole lots if there are any. */
  ghost predicate Affords(c: Constraints, target: real, mid: real, base: real) {
    if c.lot > 0.0 then
      && (exists n: int :: IsWhole(n, c.lot, base))
      && base * mid <= target < base * mid + c.lot * mid
    else base * mid == target
  }

  /** The quantity for a target: what it affords, and at least the minimum quantity. */
  ghost predicate IsQuantity(c: Constraints, target: real, mid: real, qty: real) {
    mid > 0.0 ==>
      exists base ::
        Affords(c, target, mid, base) && qty == if c.minQty > 0.0 && base < c.minQty then c.minQty else base
  }

  lemma QuantityMeaning(c: Constraints, target: real, mid: real)
    requires mid != 0.0
    ensures IsQuantity(c, target, mid, Quantity(c, target, mid))
  {
    if mid > 0.0 {
      var want := target / mid;
      var base := c.RoundQty(want);
      assert want * mid == target;
      if c.lot > 0.0 {
        RoundQtyLoss(c, want);
        assert IsWhole((want / c.lot).Floor, c.lot, base);
        LotsPaid(base, want, c.lot, mid, target);
      }
      assert Affords(c, target, mid, base);
    }
  }

  lemma LotsPaid(base: real, want: real, lot: real, mid: real, target: real)
    requires mid > 0.0 && want * mid == target && want - lot < base <= want
    ensures base * mid <= target < base * mid + lot * mid
  {
    ScaleMonotone(base, want, mid);
    ScaleStrict(want, base + lot, mid);
    assert (base + lot) * mid == base * mid + lot * mid;
  }

  lemma AsksTarget(intent: Intent, run: Run, j: nat)
    requires j < |intent.legs|
    ensures Asks(intent, run, j, TargetNotional(intent, j, Previous(intent, run.legs, j)))
  {
    hide LegRecord.Result;
    if j > 0 && intent.hedgeBeta > 0.0 {
      DivideInverse(ResultAt(intent, run.legs, j - 1).filledUsd, intent.hedgeBeta);
    }
  }

  // ---------------------------------------------------------------------
  // Which legs are ordered
  // ---------------------------------------------------------------------

  /** A leg read its clock, again if it has one before it, then the venue's constraints and a price. */
  ghost predicate ReadMarket(rec: LegRecord, symbol: string, second: bool, known: Option<Constraints>,
                             ticker: Option<real>)
  {
    var n := if second then 2 else 1;
    && |rec.readings| == n + 2 && rec.readings[0].Time? && rec.readings[n - 1].Time?
    && rec.readings[n] == Rules(symbol, known) && rec.readings[n + 1] == Price(symbol, ticker)
  }

  /** What the venue is taken to demand. */
  function Demands(known: Option<Constraints>): Constraints {
    if known.Some? then known.value else Constraints(0.1, 0.001, 0.001, 5.0)
  }

  /** What a leg does on this price: nothing without one or for too small an order, else these are its terms. */
  ghost predicate Decides(intent: Intent, run: Run, j: nat, c: Constraints, ticker: Option<real>, p: Preparation)
    requires j < |intent.legs|
  {
    if ticker == None || ticker.value == 0.0 then p == NoPrice
    else exists target, qty :: DecidesOn(intent, run, j, c, ticker.value, target, qty, p)
  }

  ghost predicate DecidesOn(intent: Intent, run: Run, j: nat, c: Constraints, mid: real, target: real, qty: real,
                            p: Preparation)
    requires j < |intent.legs|
  {
    && Asks(intent, run, j, target) && IsQuantity(c, target, mid, qty)
    && p == if c.minNotional > 0.0 && qty * mid < c.minNotional then BelowMinimum else Ready(Terms(c, mid, target))
  }

  /**
   * Leg j is overdue exactly when its first reading is after the intent's expiry. Otherwise it has drifted exactly
   * when its second one is later than the allowed drift after the fill of the leg before was noted. Otherwise the
   * market is read, and decides.
   */
  lemma StoppedExactly(cfg: Config, intent: Intent, run: Run, j: nat)
    requires run.IsRunOf(cfg, intent) && j < |run.legs|
    ensures var rec, p := run.legs[j], run.legs[j].preparation;
            && rec.readings != [] && rec.readings[0].Time?
            && (p == Overdue <==> rec.readings[0].ms > intent.expiresMs)
            && (p == Overdue ==> |rec.readings| == 1) && (p == Drifted ==> |rec.readings| == 2)
            && (p == Drifted <==>
                 && rec.readings[0].ms <= intent.expiresMs
                 && j > 0 && |rec.readings| >= 2 && rec.readings[1].Time?
                 && rec.readings[1].ms > run.legs[j - 1].filledAt + cfg.hedgeDriftMaxMs)
            && (p != Overdue && p != Drifted ==>
                 exists known, ticker ::
                   && ReadMarket(rec, intent.legs[j].symbol, j > 0, known, ticker)
                   && Decides(intent, run, j, Demands(known), ticker, p))
  {
    var rec, prev := run.legs[j], Previous(intent, run.legs, j);
    assert rec.Ok(cfg, intent, j, prev) by { hide LegRecord.Ok, LegRecord.IsFilled, LegRecord.Result; }
    if j > 0 {
      assert run.legs[j - 1].IsFilled() by { hide LegRecord.Ok, LegRecord.IsFilled, LegRecord.Result; }
      NotedAt(intent.legs[j - 1], run.legs[j - 1]);
    }
    RecordStops(cfg, intent, j, prev, rec);
    if rec.preparation != Overdue && rec.preparation != Drifted {
      var known, ticker :| ReadMarket(rec, intent.legs[j].symbol, j > 0, known, ticker)
                           && rec.preparation == TermsFor(intent, j, prev, known, ticker);
      MarketDecides(intent, run, j, known, ticker);
    }
    hide Run.IsRunOf, LegRecord.Ok, LegRecord.IsFilled, LegRecord.Result, TermsFor, Decides, ReadMarket;
  }

  lemma RecordStops(cfg: Config, intent: Intent, j: nat, prev: LegResult, rec: LegRecord)
    requires j < |intent.legs| && rec.Ok(cfg, intent, j, prev) && (j > 0 ==> prev.filled)
    ensures var p := rec.preparation;
            && rec.readings != [] && rec.readings[0].Time?
            && (p == Overdue <==> rec.readings[0].ms > intent.expiresMs)
            && (p == Overdue ==> |rec.readings| == 1) && (p == Drifted ==> |rec.readings| == 2)
            && (p == Drifted <==>
                 && rec.readings[0].ms <= intent.expiresMs
                 && j > 0 && |rec.readings| >= 2 && rec.readings[1].Time?
                 && rec.readings[1].ms > prev.fillTsMs + cfg.hedgeDriftMaxMs)
            && (p != Overdue && p != Drifted ==>
                 exists known, ticker ::
                   && ReadMarket(rec, intent.legs[j].symbol, j > 0, known, ticker)
                   && p == TermsFor(intent, j, prev, known, ticker))
  {
    TermsAreTerms(intent, j, prev);
    hide TermsFor, LadderOk;
    if rec.readings[0].ms <= intent.expiresMs {
      var n := if j > 0 then 2 else 1;
      if !(j > 0 && rec.readings[1].ms > prev.fillTsMs + cfg.hedgeDriftMaxMs) {
        assert ReadMarket(rec, intent.legs[j].symbol, j > 0, rec.readings[n].constraints, rec.readings[n + 1].ticker);
      }
    }
  }

  lemma TermsAreTerms(intent: Intent, j: nat, prev: LegResult)
    requires j < |intent.legs|
    ensures forall known, ticker ::
              TermsFor(intent, j, prev, known, ticker) != Overdue && TermsFor(intent, j, prev, known, ticker) != Drifted
  {
    hide TargetNotional, Quantity;
  }

  lemma NotedAt(leg: Leg, rec: LegRecord)
    requires rec.IsFilled()
    ensures rec.Result(leg).filled && rec.Result(leg).fillTsMs == rec.filledAt
  {
  }

  lemma MarketDecides(intent: Intent, run: Run, j: nat, known: Option<Constraints>, ticker: Option<real>)
    requires j < |intent.legs|
    ensures var p := TermsFor(intent, j, Previous(intent, run.legs, j), known, ticker);
            Decides(intent, run, j, Demands(known), ticker, p) && p != Overdue && p != Drifted
  {
    hide TargetNotional, Quantity, Asks, IsQuantity;
    AsksTarget(intent, run, j);
    if ticker.Some? && ticker.value != 0.0 {
      var c, mid := Demands(known), ticker.value;
      var target := TargetNotional(intent, j, Previous(intent, run.legs, j));
      QuantityMeaning(c, target, mid);
      var p := TermsFor(intent, j, Previous(intent, run.legs, j), known, ticker);
      assert DecidesOn(intent, run, j, c, mid, target, Quantity(c, target, mid), p);
    }
  }

  // ---------------------------------------------------------------------
  // Orders
  // ---------------------------------------------------------------------

  /** u is off the reference price by num/den of the allowed slippage, against the trader. */
  predicate Slips(u: real, mid: real, leg: Leg, num: int, den: int) {
    var off := if leg.action == "BUY" then u - mid else mid - u;
    den as real * (10000.0 * off) == num as real * (mid * leg.maxSlippageBps)
  }

  /** p is u in whole ticks, at most half a tick away; without a tick it is u. */
  ghost predicate Ticked(p: real, u: real, tick: real) {
    if tick > 0.0 then (exists n: int :: IsWhole(n, tick, p)) && -tick <= 2.0 * (p - u) <= tick else p == u
  }

  ghost predicate PricedAt(p: real, c: Constraints, mid: real, leg: Leg, num: int, den: int) {
    exists u :: Slips(u, mid, leg, num, den) && Ticked(p, u, c.tick)
  }

  /** The order of attempt a, on this price, for this target. */
  ghost predicate IsOrder(cfg: Config, intent: Intent, run: Run, q: Request, c: Constraints, mid: real)
    requires q.id.Entry? && q.id.leg < |intent.legs|
  {
    var leg := intent.legs[q.id.leg];
    && q.symbol == leg.symbol && q.side == leg.action && !q.reduceOnly
    && q.kind == (if q.id.attempt == cfg.maxRetries then Ioc else Limit)
    && Asks(intent, run, q.id.leg, q.notional) && IsQuantity(c, q.notional, mid, q.quantity)
    && PricedAt(q.price, c, mid, leg, q.id.attempt + 1, cfg.maxRetries + 1)
  }

  /**
   * Every entry order of a run: on the market its leg has read, for the leg's own notional or what a partial fill
   * before it leaves to hedge, in affordable lots, at a price that uses a rung's share of the slippage.
   */
  lemma OrderMeaning(cfg: Config, intent: Intent, run: Run, a: nat)
    requires run.IsRunOf(cfg, intent) && a < |OrdersOf(cfg, intent, run.legs)|
    ensures var q := OrdersOf(cfg, intent, run.legs)[a];
            && q.id.Entry? && q.id.leg < |run.legs| && q.id.attempt <= cfg.maxRetries
            && exists known, mid ::
                 && ReadMarket(run.legs[q.id.leg], q.symbol, q.id.leg > 0, known, Some(mid))
                 && IsOrder(cfg, intent, run, q, Demands(known), mid)
  {
    hide OrdersOf, LegRecord.Ok, LegRecord.IsFilled, LegRecord.Result, Quantity, LadderPrice, Asks, IsQuantity,
         PricedAt, ReadMarket;
    EntriesAreRungs(cfg, intent, run.legs);
    var q := OrdersOf(cfg, intent, run.legs)[a];
    assert IsRung(cfg, intent, run.legs, q);
    var j, leg := q.id.leg, intent.legs[q.id.leg];
    StoppedExactly(cfg, intent, run, j);
    var p := run.legs[j].preparation;
    var known, ticker :| ReadMarket(run.legs[j], leg.symbol, j > 0, known, ticker)
                         && Decides(intent, run, j, Demands(known), ticker, p);
    ReadyOn(intent, run, j, Demands(known), ticker, p);
    QuantityMeaning(p.t.c, p.t.target, p.t.mid);
    PriceMeaning(p.t.c, p.t.mid, leg, q.id.attempt, cfg.maxRetries);
    assert IsOrder(cfg, intent, run, q, Demands(known), p.t.mid);
  }

  lemma ReadyOn(intent: Intent, run: Run, j: nat, c: Constraints, ticker: Option<real>, p: Preparation)
    requires j < |intent.legs| && p.Ready? && Decides(intent, run, j, c, ticker, p)
    ensures ticker == Some(p.t.mid) && p.t.c == c && p.t.mid != 0.0 && Asks(intent, run, j, p.t.target)
  {
    hide Asks, IsQuantity;
  }

  lemma PriceMeaning(c: Constraints, mid: real, leg: Leg, attempt: nat, maxRetries: int)
    requires attempt <= maxRetries
    ensures PricedAt(LadderPrice(c, mid, leg, attempt, maxRetries), c, mid, leg, attempt + 1, maxRetries + 1)
  {
    hide SlipOf, Slipped, Constraints.RoundPrice;
    var share := Widening(attempt, maxRetries);
    ShareOf(attempt, maxRetries);
    SlippageIsShare(mid, leg, share);
    var u := Slipped(mid, leg.action, SlipOf(leg, share));
    Scaled(share, (attempt + 1) as real, (maxRetries + 1) as real, mid, leg.maxSlippageBps);
    assert Slips(u, mid, leg, attempt + 1, maxRetries + 1);
    IsTicked(c, u);
  }

  lemma ShareOf(attempt: nat, maxRetries: int)
    requires attempt <= maxRetries
    ensures Widening(attempt, maxRetries) * (maxRetries + 1) as real == (attempt + 1) as real
  {
  }

  lemma Scaled(share: real, num: real, den: real, mid: real, bps: real)
    requires share * den == num
    ensures den * (mid * (share * bps)) == num * (mid * bps)
  {
    var base := mid * bps;
    assert mid * (share * bps) == share * base;
    assert den * (share * base) == (share * den) * base;
  }

  lemma IsTicked(c: Constraints, u: real)
    ensures Ticked(c.RoundPrice(u), u, c.tick)
  {
    if c.tick > 0.0 {
      hide Constraints.RoundPrice;
      var n := RoundPriceNearest(c, u);
      assert IsWhole(n, c.tick, c.RoundPrice(u));
    }
  }

  ghost predicate Before(p: ClientId, q: ClientId) {
    p.leg < q.leg || (p.leg == q.leg && p.attempt < q.attempt)
  }

  ghost predicate InSequence(q: seq<Request>, legs: nat) {
    && (forall a :: 0 <= a < |q| ==> q[a].id.Entry? && q[a].id.leg < legs)
    && (forall a, b :: 0 <= a < b < |q| ==> Before(q[a].id, q[b].id))
  }

  /** There is an order for every try. */
  ghost predicate AllSent(q: seq<Request>, legs: seq<LegRecord>) {
    forall j: nat, k: nat :: j < |legs| && k < |legs[j].tries| ==> OrderOf(q, j, k)
  }

  /** The orders of the legs are sent leg by leg and attempt by attempt, and for every try there is one. */
  lemma {:induction false} OrdersInSequence(cfg: Config, intent: Intent, legs: seq<LegRecord>)
    requires LegsOk(cfg, intent, legs)
    ensures InSequence(OrdersOf(cfg, intent, legs), |legs|) && AllSent(OrdersOf(cfg, intent, legs), legs)
  {
    if legs != [] {
      var n := |legs| - 1;
      var before, own := OrdersOf(cfg, intent, legs[..n]), legs[n].Orders(cfg, intent.legs[n], n);
      assert OrdersOf(cfg, intent, legs) == before + own;
      hide LegRecord.Orders, LegsOk, OrdersOf, InSequence, AllSent;
      OkBefore(cfg, intent, legs, n);
      OrdersInSequence(cfg, intent, legs[..n]);
      OneForEachTry(cfg, intent, legs, n);
      Appended(before, own, n);
      AllSentStep(before, own, legs);
    } else {
      assert OrdersOf(cfg, intent, legs) == [];
    }
  }

  lemma AllSentStep(before: seq<Request>, own: seq<Request>, legs: seq<LegRecord>)
    requires legs != [] && AllSent(before, legs[..|legs| - 1]) && |own| == |legs[|legs| - 1].tries|
    requires forall a :: 0 <= a < |own| ==> own[a].id == Entry(|legs| - 1, a)
    ensures AllSent(before + own, legs)
  {
    hide OrderOf;
    var n := |legs| - 1;
    forall j: nat, k: nat | j < |legs| && k < |legs[j].tries| ensures OrderOf(before + own, j, k) {
      if j < n {
        assert legs[..n][j] == legs[j];
        OrderKept(before, own, j, k);
      } else {
        OrderAdded(before, own, n, k);
      }
    }
  }

  lemma Appended(before: seq<Request>, own: seq<Request>, n: nat)
    requires InSequence(before, n) && forall a :: 0 <= a < |own| ==> own[a].id == Entry(n, a)
    ensures InSequence(before + own, n + 1)
  {
    var q := before + own;
    forall a | 0 <= a < |q|
      ensures q[a].id.Entry? && q[a].id.leg < n + 1
      ensures a >= |before| ==> q[a].id == Entry(n, a - |before|)
    {
    }
    forall a, b | 0 <= a < b < |q| ensures Before(q[a].id, q[b].id) {
      if b < |before| {
        assert Before(before[a].id, before[b].id);
      } else if a < |before| {
        assert before[a].id.leg < n;
      }
    }
  }

  lemma OrderKept(before: seq<Request>, own: seq<Request>, j: nat, k: nat)
    requires OrderOf(before, j, k)
    ensures OrderOf(before + own, j, k)
  {
    var a: nat :| a < |before| && before[a].id == Entry(j, k);
    assert (before + own)[a] == before[a];
  }

  lemma OrderAdded(before: seq<Request>, own: seq<Request>, n: nat, k: nat)
    requires k < |own| && own[k].id == Entry(n, k)
    ensures OrderOf(before + own, n, k)
  {
    assert (before + own)[|before| + k] == own[k];
  }

  ghost predicate OrderOf(q: seq<Request>, j: nat, k: nat) { exists a: nat :: a < |q| && q[a].id == Entry(j, k) }

  lemma OkBefore(cfg: Config, intent: Intent, legs: seq<LegRecord>, n: nat)
    requires LegsOk(cfg, intent, legs) && n <= |legs|
    ensures LegsOk(cfg, intent, legs[..n])
  {
    hide LegRecord.Ok, LegRecord.IsFilled, LegRecord.Result;
    forall j | 0 <= j < n ensures legs[..n][j].Ok(cfg, intent, j, Previous(intent, legs[..n], j)) {
      assert Previous(intent, legs[..n], j) == Previous(intent, legs, j);
    }
  }

  lemma OneForEachTry(cfg: Config, intent: Intent, legs: seq<LegRecord>, n: nat)
    requires LegsOk(cfg, intent, legs) && n < |legs|
    ensures |legs[n].Orders(cfg, intent.legs[n], n)| == |legs[n].tries|
  {
    hide Prepared;
    assert legs[n].Ok(cfg, intent, n, Previous(intent, legs, n));
  }

  // ---------------------------------------------------------------------
  // One order, and the reversal
  // ---------------------------------------------------------------------

  /**
   * An order is polled up to ten times, until it is filled, wholly or in part, or ends otherwise; the last thing
   * heard of it is that answer, else the first. It is cancelled exactly if it was accepted, has not executed and
   * is not the last of its ladder.
   */
  lemma TryMeaning(cfg: Config, intent: Intent, run: Run, j: nat, k: nat)
    requires run.IsRunOf(cfg, intent) && j < |run.legs| && k < |run.legs[j].tries|
    ensures var y := run.legs[j].tries[k];
            && |y.polls| <= 10 && (y.answer == None ==> y.polls == [] && y.Final() == None)
            && (forall i :: 0 <= i < |y.polls| - 1 ==> Unsettled(y.polls[i]))
            && (y.answer.Some? && |y.polls| < 10 ==> y.polls != [] && !Unsettled(y.polls[|y.polls| - 1]))
            && (y.answer.Some? ==>
                 y.Final() ==
                   if y.polls != [] && !Unsettled(y.polls[|y.polls| - 1]) then y.polls[|y.polls| - 1] else y.answer)
            && (y.cancelled.Some? <==> y.answer.Some? && !IsFillOf(y) && k < cfg.maxRetries)
            && (y.cancelled.Some? ==> y.Final().Some? && y.cancelled == Some(y.Final().value.orderId))
  {
    LadderMeaning(cfg, intent, run, j);
    OneTry(cfg, k, run.legs[j].tries[k]);
  }

  lemma OneTry(cfg: Config, attempt: nat, y: Try)
    requires y.EntryOk(cfg, attempt)
    ensures |y.polls| <= 10 && (y.answer == None ==> y.polls == [] && y.Final() == None)
    ensures forall k :: 0 <= k < |y.polls| - 1 ==> Unsettled(y.polls[k])
    ensures y.answer.Some? && |y.polls| < 10 ==> y.polls != [] && !Unsettled(y.polls[|y.polls| - 1])
    ensures y.answer.Some? ==>
              y.Final() ==
                if y.polls != [] && !Unsettled(y.polls[|y.polls| - 1]) then y.polls[|y.polls| - 1] else y.answer
    ensures y.cancelled.Some? <==> y.answer.Some? && !IsFillOf(y) && attempt < cfg.maxRetries
    ensures y.cancelled.Some? ==> y.Final().Some? && y.cancelled == Some(y.Final().value.orderId)
  {
    forall r: Option<Response> ensures Settles(r) <==> !Unsettled(r) {
    }
    hide Settles, Unsettled;
  }

  /** A leg that is ordered has at most one more try than retries, and exactly that many if it is not filled. */
  lemma LadderMeaning(cfg: Config, intent: Intent, run: Run, j: nat)
    requires run.IsRunOf(cfg, intent) && j < |run.legs|
    ensures var rec := run.legs[j];
            && (!rec.preparation.Ready? ==> rec.tries == [])
            && (rec.tries != [] ==> |rec.tries| <= cfg.maxRetries + 1)
            && (rec.preparation.Ready? && !Hedging.Filled(run, j) && cfg.maxRetries >= 0 ==>
                  |rec.tries| == cfg.maxRetries + 1)
            && forall k :: 0 <= k < |rec.tries| ==> rec.tries[k].EntryOk(cfg, k)
  {
    hide Prepared, Try.EntryOk, LegRecord.Result, Try.Final;
    assert run.legs[j].Ok(cfg, intent, j, Previous(intent, run.legs, j)) by { hide LegRecord.Ok, LegRecord.IsFilled; }
  }

  /** No answer, or one that the order is still open and has not executed. */
  predicate Unsettled(r: Option<Response>) { r == None || r.value.status == New || r.value.status == Unrecognised }

  /**
   * The reversals are sent after the orders of the legs, each a reduce-only market order against the last filled
   * leg, for the quantity it was filled for.
   */
  lemma ReversalMeaning(cfg: Config, intent: Intent, run: Run, k: nat)
    requires run.IsRunOf(cfg, intent) && run.Unwinds() && k < |run.unwind|
    ensures var placed, first := run.Orders(cfg, intent), |OrdersOf(cfg, intent, run.legs)|;
            var j := Done(run) - 1;
            && |placed| == first + |run.unwind| && 0 <= j < |intent.legs|
            && Reverses(placed[first + k], j, k, intent.legs[j], ResultAt(intent, run.legs, j).filledQty)
  {
    UnwindHolds(cfg, intent, run);
    ReversalsPlaced(cfg, intent, run, k);
    ReversedIs(intent, run);
    hide Run.IsRunOf, Run.Orders, Run.Reversed, Run.Unwinds, Done, OrdersOf, UnwindOk, LegRecord.IsFilled, ResultAt;
  }

  /** There are at most four reversals; all but the last are not reported filled, and fewer than four end filled. */
  lemma ReversalsStop(cfg: Config, intent: Intent, run: Run, k: nat)
    requires run.IsRunOf(cfg, intent) && run.Unwinds() && k < |run.unwind|
    ensures StopsAt(run.unwind, k)
  {
    hide StopsAt;
    UnwindHolds(cfg, intent, run);
    ReversalTries(run.unwind, k);
  }

  ghost predicate StopsAt(tries: seq<Try>, k: nat)
    requires k < |tries|
  {
    && |tries| <= 4 && tries[k].cancelled == None && |tries[k].polls| <= 10
    && (k < |tries| - 1 ==> !ReportedFilled(tries[k]))
    && (|tries| < 4 ==> ReportedFilled(tries[|tries| - 1]))
  }

  /** The event that ends an unwind: of the reversed leg, and a fill exactly if its last order was reported filled. */
  lemma OutcomeMeaning(cfg: Config, intent: Intent, run: Run)
    requires run.IsRunOf(cfg, intent) && run.Unwinds()
    ensures var ev, j := run.Events(cfg, intent), Done(run) - 1;
            && |ev| == |EventsOf(cfg, intent, run.legs)| + 1 && 0 <= j < |intent.legs|
            && EndsUnwind(ev[|ev| - 1], j, intent.legs[j], run.unwind[|run.unwind| - 1])
  {
    UnwindHolds(cfg, intent, run);
    LastEvent(cfg, intent, run);
    ReversedIs(intent, run);
    OutcomeIs(run.Reversed(intent), run.unwind, intent.legs[|run.legs| - 2]);
    hide Run.IsRunOf, Run.Events, Run.Reversed, Run.Unwinds, Done, EventsOf, UnwindOk, LegRecord.IsFilled, ResultAt,
         Try.Closed, EndsUnwind, Outcome;
  }

  ghost predicate EndsUnwind(e: Event, j: nat, leg: Leg, last: Try) {
    && e.kind == (if ReportedFilled(last) then OrderFilled else HedgeFailed)
    && e.leg == j && e.symbol == leg.symbol
    && e.action == if last.answer == None then "" else if leg.action == "SELL" then "Buy" else "Sell"
  }

  lemma OutcomeIs(r: Reversal, tries: seq<Try>, leg: Leg)
    requires UnwindOk(tries) && r.symbol == leg.symbol && r.side == if leg.action == "SELL" then "Buy" else "Sell"
    ensures EndsUnwind(Outcome(r, tries), r.leg, leg, tries[|tries| - 1])
  {
    LastTry(tries);
    hide UnwindOk, Try.Closed, ReportedFilled;
  }

  lemma LastEvent(cfg: Config, intent: Intent, run: Run)
    requires run.IsRunOf(cfg, intent) && run.Unwinds() && |run.legs| <= |intent.legs| && run.unwind != []
    ensures var ev := run.Events(cfg, intent);
            |ev| == |EventsOf(cfg, intent, run.legs)| + 1 && ev[|ev| - 1] == Outcome(run.Reversed(intent), run.unwind)
  {
    hide Run.IsRunOf, Run.Unwinds, EventsOf, Run.Reversed, Outcome;
  }

  lemma LastTry(tries: seq<Try>)
    requires UnwindOk(tries)
    ensures tries != [] && (tries[|tries| - 1].Closed() <==> ReportedFilled(tries[|tries| - 1]))
  {
    var last := tries[|tries| - 1];
    assert last.UnwindOk();
  }

  lemma UnwindHolds(cfg: Config, intent: Intent, run: Run)
    requires run.IsRunOf(cfg, intent) && run.Unwinds()
    ensures UnwindOk(run.unwind) && 2 <= |run.legs| <= |intent.legs| && run.legs[|run.legs| - 2].IsFilled()
    ensures Done(run) == |run.legs| - 1
  {
    hide LegRecord.Ok, UnwindOk, LegRecord.IsFilled;
  }

  lemma ReversalsPlaced(cfg: Config, intent: Intent, run: Run, k: nat)
    requires run.IsRunOf(cfg, intent) && run.Unwinds() && k < |run.unwind| && |run.legs| <= |intent.legs|
    ensures var placed, first := run.Orders(cfg, intent), |OrdersOf(cfg, intent, run.legs)|;
            |placed| == first + |run.unwind| && placed[first + k] == UnwindRequest(run.Reversed(intent), k)
  {
    hide Run.IsRunOf, Run.Unwinds, OrdersOf, Run.Reversed;
    var own := UnwindOrders(run.Reversed(intent), |run.unwind|);
    assert own[k] == UnwindRequest(run.Reversed(intent), k);
  }

  /** A reduce-only market order against the leg, for this quantity. */
  predicate Reverses(q: Request, j: nat, k: nat, leg: Leg, quantity: real) {
    && q.id == Unwind(j, k) && q.symbol == leg.symbol && q.reduceOnly && q.kind == Market
    && q.side == (if leg.action == "SELL" then "Buy" else "Sell") && q.quantity == quantity
    && q.price == 0.0 && q.notional == 0.0
  }

  lemma ReversedIs(intent: Intent, run: Run)
    requires run.Unwinds() && |run.legs| <= |intent.legs| && run.legs[|run.legs| - 2].IsFilled()
    ensures var j := |run.legs| - 2;
            && run.Reversed(intent).leg == j && run.Reversed(intent).symbol == intent.legs[j].symbol
            && run.Reversed(intent).side == (if intent.legs[j].action == "SELL" then "Buy" else "Sell")
            && run.Reversed(intent).quantity == ResultAt(intent, run.legs, j).filledQty
  {
  }

  lemma ReversalTries(tries: seq<Try>, k: nat)
    requires UnwindOk(tries) && k < |tries|
    ensures StopsAt(tries, k)
  {
    forall j | 0 <= j < |tries| ensures tries[j].Closed() <==> ReportedFilled(tries[j]) {
      assert tries[j].UnwindOk();
    }
    hide Try.Closed, ReportedFilled;
  }

  ghost predicate ReportedFilled(y: Try) {
    y.polls != [] && y.polls[|y.polls| - 1].Some? && y.polls[|y.polls| - 1].value.status == Filled
  }

  // ---------------------------------------------------------------------
  // Fills and the summary
  // ---------------------------------------------------------------------

  /** r is what this order, at this price where it reports none, amounts to. */
  ghost predicate IsResultOf(r: LegResult, order: Response, mid: real, symbol: string, at: int) {
    && r.filled && r.filledQty == order.filledQty && r.fees == order.fees && r.fillTsMs == at && r.symbol == symbol
    && (r.partial <==> order.status == PartiallyFilled)
    && r.fillPrice == (if order.avgPrice != 0.0 then order.avgPrice else mid)
    && r.filledUsd == r.filledQty * r.fillPrice
  }

  /** A filled leg is what its last order, the first that executed, was last reported to be. */
  lemma FillMeaning(cfg: Config, intent: Intent, run: Run, j: nat)
    requires run.IsRunOf(cfg, intent) && Hedging.Filled(run, j)
    ensures var rec := run.legs[j];
            && rec.tries != [] && IsFillOf(rec.tries[|rec.tries| - 1])
            && (forall k :: 0 <= k < |rec.tries| - 1 ==> !IsFillOf(rec.tries[k]))
            && exists known, mid :: FilledOn(rec, intent.legs[j].symbol, j, ResultAt(intent, run.legs, j), known, mid)
  {
    var rec := run.legs[j];
    assert rec.Ok(cfg, intent, j, Previous(intent, run.legs, j)) by { hide LegRecord.Ok; }
    FilledRecordMeans(cfg, intent, j, rec, Previous(intent, run.legs, j));
    StoppedExactly(cfg, intent, run, j);
    hide Run.IsRunOf, ReadMarket, Decides, IsResultOf, LegRecord.Result, LegRecord.IsFilled, LegRecord.Ok, IsFillOf,
         Try.Final;
    var known, ticker :| ReadMarket(rec, intent.legs[j].symbol, j > 0, known, ticker)
                         && Decides(intent, run, j, Demands(known), ticker, rec.preparation);
    ReadyOn(intent, run, j, Demands(known), ticker, rec.preparation);
    assert FilledOn(rec, intent.legs[j].symbol, j, ResultAt(intent, run.legs, j), known, rec.preparation.t.mid);
  }

  /** The leg read this market, and its result is what its last order was last reported to be. */
  ghost predicate FilledOn(rec: LegRecord, symbol: string, j: nat, r: LegResult, known: Option<Constraints>, mid: real)
  {
    && ReadMarket(rec, symbol, j > 0, known, Some(mid))
    && rec.tries != [] && rec.tries[|rec.tries| - 1].Final().Some?
    && IsResultOf(r, rec.tries[|rec.tries| - 1].Final().value, mid, symbol, rec.filledAt)
  }

  lemma FilledRecordMeans(cfg: Config, intent: Intent, j: nat, rec: LegRecord, prev: LegResult)
    requires j < |intent.legs| && rec.Ok(cfg, intent, j, prev) && rec.IsFilled()
    ensures rec.tries != [] && IsFillOf(rec.tries[|rec.tries| - 1]) && rec.tries[|rec.tries| - 1].Final().Some?
    ensures forall k :: 0 <= k < |rec.tries| - 1 ==> !IsFillOf(rec.tries[k])
    ensures IsResultOf(rec.Result(intent.legs[j]), rec.tries[|rec.tries| - 1].Final().value, rec.preparation.t.mid,
                       intent.legs[j].symbol, rec.filledAt)
  {
    hide Prepared, Try.EntryOk, Try.Final;
    forall k | 0 <= k < |rec.tries| ensures rec.tries[k].Succeeded() <==> IsFillOf(rec.tries[k]) {
    }
  }

  /** A leg that is not filled has no result. */
  lemma UnfilledMeaning(cfg: Config, intent: Intent, run: Run, j: nat)
    requires run.IsRunOf(cfg, intent) && j < |intent.legs| && !Hedging.Filled(run, j)
    ensures ResultAt(intent, run.legs, j) == LegResult(false, 0.0, 0.0, 0.0, 0.0, "", false, 0)
  {
    hide LegRecord.Ok;
  }

  /**
   * The summary exists exactly when some leg was filled. It has the fees of all legs; the prices of the first two
   * if both are filled, the buying one as the buy price; and the relative price difference on the first leg's
   * filled notional, less fees.
   */
  lemma SummaryMeaning(cfg: Config, intent: Intent, run: Run)
    requires run.IsRunOf(cfg, intent)
    ensures run.SummaryOf(intent).Some? <==> exists j: nat :: Hedging.Filled(run, j)
    ensures run.SummaryOf(intent).Some? ==>
              var s := run.SummaryOf(intent).value;
              && s.totalFees == Sum(FeesOf(intent, run))
              && if Hedging.Filled(run, 0) && Hedging.Filled(run, 1)
                 then IsPairSummary(s, intent.legs[0].action == "SELL", ResultAt(intent, run.legs, 0),
                                    ResultAt(intent, run.legs, 1))
                 else s.buyPrice == 0.0 && s.sellPrice == 0.0 && s.netPnl == 0.0
  {
    forall j: nat
      ensures Hedging.Filled(run, j) ==> j < |run.legs| <= |intent.legs| && run.legs[j].IsFilled()
      ensures j < |intent.legs| ==> (ResultAt(intent, run.legs, j).filled <==> Hedging.Filled(run, j))
    {
      if j < |run.legs| {
        FilledMeans(intent.legs[j], run.legs[j]);
      }
    }
    if run.SummaryOf(intent).Some? {
      SummaryIs(intent, ResultsOf(intent, run.legs));
      FeesAre(intent, run);
    }
    hide LegRecord.Ok, LegRecord.IsFilled, Sum, LegRecord.Result, SummaryFor, IsPairSummary;
  }

  /** The fees of each leg. */
  ghost function FeesOf(intent: Intent, run: Run): (r: seq<real>)
    ensures |r| == |intent.legs| && forall j :: 0 <= j < |r| ==> r[j] == ResultAt(intent, run.legs, j).fees
  {
    seq(|intent.legs|, j requires 0 <= j < |intent.legs| => ResultAt(intent, run.legs, j).fees)
  }

  /** The prices of a pair, and with its fees the relative price difference on the first leg's filled notional. */
  ghost predicate IsPairSummary(s: Summary, firstSells: bool, first: LegResult, second: LegResult) {
    && s.sellPrice == (if firstSells then first.fillPrice else second.fillPrice)
    && s.buyPrice == (if firstSells then second.fillPrice else first.fillPrice)
    && if s.buyPrice + s.sellPrice > 0.0 then
         (s.netPnl + s.totalFees) * (s.buyPrice + s.sellPrice) == 2.0 * ((s.sellPrice - s.buyPrice) * first.filledUsd)
       else s.netPnl == 0.0
  }

  lemma SummaryIs(intent: Intent, results: seq<LegResult>)
    requires |results| == |intent.legs|
    ensures var s := SummaryFor(intent, results);
            && s.totalFees == Sum(Fees(results))
            && if |results| >= 2 && results[0].filled && results[1].filled
               then IsPairSummary(s, intent.legs[0].action == "SELL", results[0], results[1])
               else s.buyPrice == 0.0 && s.sellPrice == 0.0 && s.netPnl == 0.0
  {
    hide Sum, NetPnl;
    var s := SummaryFor(intent, results);
    if |results| >= 2 && results[0].filled && results[1].filled {
      if s.buyPrice + s.sellPrice > 0.0 {
        NetPnlMeaning(s.buyPrice, s.sellPrice, results[0].filledUsd, s.totalFees);
      } else {
        NoNetPnl(s.buyPrice, s.sellPrice, results[0].filledUsd, s.totalFees);
      }
    }
  }

  lemma FeesAre(intent: Intent, run: Run)
    ensures Fees(ResultsOf(intent, run.legs)) == FeesOf(intent, run)
  {
    hide LegRecord.Result;
  }

  lemma NoNetPnl(buy: real, sell: real, notional: real, fees: real)
    requires buy + sell <= 0.0
    ensures NetPnl(buy, sell, notional, fees) == 0.0
  {
  }

  // ---------------------------------------------------------------------
  // Events
  // ---------------------------------------------------------------------

  /**
   * The events of one leg: ORDER_SENT for each order and ORDER_RETRY for each refused one that another follows,
   * then one event that says what became of the leg. A drifted leg has HEDGE_DRIFT alone, and any other nothing.
   */
  lemma LegEvents(cfg: Config, leg: Leg, i: nat, rec: LegRecord)
    ensures var ev := rec.Events(cfg, leg, i);
            && (forall k :: 0 <= k < |ev| ==> ev[k].leg == i && ev[k].symbol == leg.symbol)
            && (rec.preparation == Drifted ==> ev == [Event(HedgeDrift, i, leg.symbol, "")])
            && (rec.preparation in {Overdue, NoPrice, BelowMinimum} ==> ev == [])
            && (rec.preparation.Ready? ==>
                 && ev != [] && (forall k :: 0 <= k < |ev| ==> ev[k].action == leg.action)
                 && (forall k :: 0 <= k < |ev| - 1 ==> ev[k].kind in {OrderSent, OrderRetry})
                 && Hedging.Count(ev, OrderRetry, i) == Refusals(cfg, rec.tries)
                 && ev[|ev| - 1].kind ==
                      if !rec.IsFilled() then OrderRejected
                      else if rec.Result(leg).partial then OrderPartial
                      else OrderFilled)
  {
    if rec.preparation.Ready? {
      ReadyEvents(cfg, leg, i, rec);
    }
    hide SentEvents, Refusals, Hedging.Count, LegRecord.IsFilled, LegRecord.Result;
  }

  lemma ReadyEvents(cfg: Config, leg: Leg, i: nat, rec: LegRecord)
    requires rec.preparation.Ready?
    ensures var ev := rec.Events(cfg, leg, i);
            && ev != [] && (forall k :: 0 <= k < |ev| ==> ev[k].leg == i && ev[k].symbol == leg.symbol)
            && (forall k :: 0 <= k < |ev| ==> ev[k].action == leg.action)
            && (forall k :: 0 <= k < |ev| - 1 ==> ev[k].kind in {OrderSent, OrderRetry})
            && Hedging.Count(ev, OrderRetry, i) == Refusals(cfg, rec.tries)
            && ev[|ev| - 1].kind ==
                 if !rec.IsFilled() then OrderRejected
                 else if rec.Result(leg).partial then OrderPartial
                 else OrderFilled
  {
    var ev, sent := rec.Events(cfg, leg, i), SentEvents(cfg, leg, i, rec.tries);
    SentOnly(cfg, leg, i, rec.tries);
    var last := ev[|ev| - 1];
    assert ev == sent + [last];
    hide SentEvents, Refusals, Hedging.Count, SentFor;
    CountConcat(sent, [last], OrderRetry, i);
    CountOne(last, OrderRetry, i);
  }

  /** How many orders were refused and followed by another. */
  ghost function Refusals(cfg: Config, tries: seq<Try>): nat {
    if tries == [] then 0 else
      var n := |tries| - 1;
      Refusals(cfg, tries[..n]) + if tries[n].answer == None && n < cfg.maxRetries then 1 else 0
  }

  lemma {:induction false} SentOnly(cfg: Config, leg: Leg, i: nat, tries: seq<Try>)
    ensures var ev := SentEvents(cfg, leg, i, tries);
            && (forall k :: 0 <= k < |ev| ==> ev[k].kind in {OrderSent, OrderRetry})
            && (forall k :: 0 <= k < |ev| ==>
                 ev[k].leg == i && ev[k].symbol == leg.symbol && ev[k].action == leg.action)
            && Hedging.Count(ev, OrderRetry, i) == Refusals(cfg, tries)
  {
    if tries != [] {
      hide Hedging.Count;
      var n := |tries| - 1;
      SentOnly(cfg, leg, i, tries[..n]);
      var own := SentFor(cfg, leg, i, n, tries[n]);
      var sent, retry := Event(OrderSent, i, leg.symbol, leg.action), Event(OrderRetry, i, leg.symbol, leg.action);
      CountOne(sent, OrderRetry, i);
      CountOne(retry, OrderRetry, i);
      CountConcat([sent], [retry], OrderRetry, i);
      assert [sent] + [] == [sent];
      CountConcat(SentEvents(cfg, leg, i, tries[..n]), own, OrderRetry, i);
    } else {
      assert Hedging.Count([], OrderRetry, i) == 0;
    }
  }

  ghost predicate EventsFor(intent: Intent, ev: seq<Event>, legs: nat)
    requires legs <= |intent.legs|
  {
    && (forall a :: 0 <= a < |ev| ==> ev[a].leg < legs && ev[a].symbol == intent.legs[ev[a].leg].symbol)
    && forall a, b :: 0 <= a < b < |ev| ==> ev[a].leg <= ev[b].leg
  }

  /** The events of the legs come leg by leg, each with its leg's symbol. */
  lemma {:induction false} EventsInSequence(cfg: Config, intent: Intent, legs: seq<LegRecord>)
    requires |legs| <= |intent.legs|
    ensures EventsFor(intent, EventsOf(cfg, intent, legs), |legs|)
  {
    if legs != [] {
      var n := |legs| - 1;
      var before, own := EventsOf(cfg, intent, legs[..n]), legs[n].Events(cfg, intent.legs[n], n);
      assert EventsOf(cfg, intent, legs) == before + own;
      hide LegRecord.Events, EventsFor, EventsOf;
      EventsInSequence(cfg, intent, legs[..n]);
      LegEvents(cfg, intent.legs[n], n, legs[n]);
      EventsJoined(intent, before, own, n);
    } else {
      assert EventsOf(cfg, intent, legs) == [];
    }
  }

  lemma EventsJoined(intent: Intent, before: seq<Event>, own: seq<Event>, n: nat)
    requires n < |intent.legs| && EventsFor(intent, before, n)
    requires forall k :: 0 <= k < |own| ==> own[k].leg == n && own[k].symbol == intent.legs[n].symbol
    ensures EventsFor(intent, before + own, n + 1)
  {
    var ev := before + own;
    forall a | 0 <= a < |ev|
      ensures ev[a].symbol == intent.legs[ev[a].leg].symbol
      ensures if a < |before| then ev[a] == before[a] && ev[a].leg < n else ev[a].leg == n
    {
    }
    forall a, b | 0 <= a < b < |ev| ensures ev[a].leg <= ev[b].leg {
      if b < |before| {
        assert before[a].leg <= before[b].leg;
      }
    }
  }
}
