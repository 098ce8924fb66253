/**
 * The two-leg executor (internal/execution/executor.go): legs in sequence, each with a ladder of
 * retries, and an emergency unwind of the previous leg when a leg cannot be completed.
 *
 * A Run records what the exchange and the clock said during one Execute call. The orders sent, the events
 * and the fills are functions of that record; the methods are proved to produce exactly those.
 */
module Executor {
  import opened RealSeq
  import opened Exchange
  import opened Venue

  datatype Leg = Leg(action: string, symbol: string, notional: real, maxSlippageBps: real)

  datatype Intent = Intent(symbol: string, hedgeBeta: real, expiresMs: int, legs: seq<Leg>)

  datatype EventKind = OrderSent | OrderFilled | OrderPartial | OrderRejected | OrderRetry | HedgeDrift | HedgeFailed

  datatype Event = Event(kind: EventKind, leg: nat, symbol: string, action: string)

  datatype LegResult = LegResult(filled: bool, filledQty: real, filledUsd: real, fillPrice: real, fees: real,
                                 symbol: string, partial: bool, fillTsMs: int)

  const UNFILLED := LegResult(false, 0.0, 0.0, 0.0, 0.0, "", false, 0)

  datatype Summary = Summary(totalFees: real, buyPrice: real, sellPrice: real, netPnl: real)

  datatype Config = Config(maxRetries: int, hedgeDriftMaxMs: int) {
    /** The most orders one leg may send. */
    function Attempts(): nat { if maxRetries < 0 then 0 else maxRetries + 1 }
  }

  const MAX_POLLS := 10
  const MAX_UNWIND_RETRIES := 3

  // ---------------------------------------------------------------------
  // One order
  // ---------------------------------------------------------------------

  /** One order: the exchange's answer, the answers to the polls of it, and the order cancelled, if any. */
  datatype Try = Try(answer: Option<Response>, polls: seq<Option<Response>>, cancelled: Option<int>) {
    /** What polling found: the last answer, if it settles the order. */
    function Settled(): Option<Response> {
      if polls != [] && Settles(polls[|polls| - 1]) then polls[|polls| - 1] else None
    }

    /** The order as the executor sees it in the end. */
    function Final(): Option<Response> { if answer == None || Settled() == None then answer else Settled() }

    /** The last that was heard of the order is that it executes no further. */
    predicate Ended() { Final().Some? && AtEnd(Final().value.status) }

    predicate Succeeded() { Final().Some? && Executed(Final().value) }

    predicate Closed() { answer.Some? && Settled().Some? && Settled().value.status == Filled }

    /** Polling stops at the first answer that settles the order, or after MAX_POLLS. */
    ghost predicate PolledRight() {
      && |polls| <= MAX_POLLS && (answer == None ==> polls == [])
      && (forall k :: 0 <= k < |polls| - 1 ==> !Settles(polls[k]))
      && (answer.Some? && |polls| < MAX_POLLS ==> Settled().Some?)
    }

    /** An entry order that did not execute is cancelled, except the last of the ladder. */
    ghost predicate EntryOk(cfg: Config, attempt: nat) {
      && PolledRight()
      && cancelled ==
           if answer == None || Succeeded() || attempt >= cfg.maxRetries then None else Some(Final().value.orderId)
    }

    ghost predicate UnwindOk() { PolledRight() && cancelled == None }

    ghost function Replies(): seq<Reply> {
      [Placed(answer)]
      + (if answer == None then [] else Polls(answer.value.orderId, polls))
      + if cancelled == None then [] else [Cancel(cancelled.value)]
    }
  }

  ghost function Polls(orderId: int, polls: seq<Option<Response>>): (r: seq<Reply>)
    ensures |r| == |polls|
  {
    seq(|polls|, k requires 0 <= k < |polls| => Polled(orderId, polls[k]))
  }

  predicate Settles(r: Option<Response>) {
    r.Some? && r.value.status in {Filled, Cancelled, Rejected, Expired, PartiallyFilled}
  }

  /** An order that counts as a fill of its leg. */
  predicate Executed(r: Response) {
    r.status == Filled || (r.status == PartiallyFilled && r.filledQty > 0.0)
  }

  ghost function RepliesTo(tries: seq<Try>): seq<Reply> {
    if tries == [] then [] else RepliesTo(tries[..|tries| - 1]) + tries[|tries| - 1].Replies()
  }

  // ---------------------------------------------------------------------
  // What a leg orders
  // ---------------------------------------------------------------------

  /** A leg after a partly filled one is resized to what was filled, by beta for the hedge symbol. */
  function TargetNotional(intent: Intent, i: nat, prev: LegResult): real
    requires i < |intent.legs|
  {
    var leg := intent.legs[i];
    if i > 0 && prev.partial then
      if intent.hedgeBeta > 0.0 && leg.symbol != intent.symbol then prev.filledUsd / intent.hedgeBeta
      else prev.filledUsd
    else leg.notional
  }

  function Quantity(c: Constraints, target: real, mid: real): real
    requires mid != 0.0
  {
    var qty := c.RoundQty(target / mid);
    if c.minQty > 0.0 && qty < c.minQty then c.minQty else qty
  }

  /** Share of the allowed slippage that an attempt uses; the last attempt uses all of it. */
  function Widening(attempt: nat, maxRetries: int): real
    requires attempt <= maxRetries
  {
    if attempt < maxRetries then (attempt + 1) as real / (maxRetries + 1) as real else 1.0
  }

  function LadderPrice(c: Constraints, mid: real, leg: Leg, attempt: nat, maxRetries: int): real
    requires attempt <= maxRetries
  {
    PriceAt(c, mid, leg, Widening(attempt, maxRetries))
  }

  /** The order price when a share of the allowed slippage is used. */
  function PriceAt(c: Constraints, mid: real, leg: Leg, share: real): real {
    c.RoundPrice(Slipped(mid, leg.action, SlipOf(leg, share)))
  }

  function SlipOf(leg: Leg, share: real): real { share * leg.maxSlippageBps / 10000.0 }

  /** The price moved against the trader by a fraction. */
  function Slipped(mid: real, action: string, slip: real): real {
    if action == "BUY" then mid * (1.0 + slip) else mid * (1.0 - slip)
  }

  /** The terms a leg is ordered on: venue constraints, reference price and target notional. */
  datatype Terms = Terms(c: Constraints, mid: real, target: real)

  function EntryRequest(cfg: Config, leg: Leg, i: nat, attempt: nat, t: Terms): Request
    requires attempt < cfg.Attempts() && t.mid != 0.0
  {
    Request(Entry(i, attempt), leg.symbol, leg.action, if attempt < cfg.maxRetries then Limit else Ioc,
            Quantity(t.c, t.target, t.mid), LadderPrice(t.c, t.mid, leg, attempt, cfg.maxRetries), t.target, false)
  }

  /** The first n rungs of a leg's ladder. */
  ghost function Ladder(cfg: Config, leg: Leg, i: nat, t: Terms, n: nat): (r: seq<Request>)
    requires n <= cfg.Attempts() && t.mid != 0.0
    ensures |r| == n
  {
    seq(n, a requires 0 <= a < n => EntryRequest(cfg, leg, i, a, t))
  }

  // ---------------------------------------------------------------------
  // One leg
  // ---------------------------------------------------------------------

  /** The checks before ordering a leg, and the terms if it passes. */
  datatype Preparation = Overdue | Drifted | NoPrice | BelowMinimum | Ready(t: Terms)

  const DEFAULT_CONSTRAINTS := Constraints(0.1, 0.001, 0.001, 5.0)

  function TermsFor(intent: Intent, i: nat, prev: LegResult, known: Option<Constraints>, ticker: Option<real>)
    : Preparation
    requires i < |intent.legs|
  {
    var c := if known == None then DEFAULT_CONSTRAINTS else known.value;
    if ticker == None || ticker.value == 0.0 then NoPrice
    else
      var target := TargetNotional(intent, i, prev);
      if c.minNotional > 0.0 && Quantity(c, target, ticker.value) * ticker.value < c.minNotional then BelowMinimum
      else Ready(Terms(c, ticker.value, target))
  }

  /** Which readings are taken before a leg, and what they lead to. The drift is checked only after a fill. */
  ghost predicate Prepared(cfg: Config, intent: Intent, i: nat, prev: LegResult, readings: seq<Reply>, p: Preparation)
    requires i < |intent.legs|
  {
    var symbol := intent.legs[i].symbol;
    var n := if i > 0 && prev.filled then 2 else 1; // clock readings
    && readings != [] && readings[0].Time?
    && if readings[0].ms > intent.expiresMs then |readings| == 1 && p == Overdue
       else
         && |readings| >= n && readings[n - 1].Time?
         && if n == 2 && readings[1].ms - prev.fillTsMs > cfg.hedgeDriftMaxMs then |readings| == 2 && p == Drifted
            else
              && |readings| == n + 2
              && readings[n].Rules? && readings[n].symbol == symbol
              && readings[n + 1].Price? && readings[n + 1].symbol == symbol
              && p == TermsFor(intent, i, prev, readings[n].constraints, readings[n + 1].ticker)
  }

  /** The ladder stops at the first order that executes; otherwise every rung is sent. */
  ghost predicate LadderOk(cfg: Config, tries: seq<Try>) {
    && |tries| <= cfg.Attempts()
    && (forall k :: 0 <= k < |tries| ==> tries[k].EntryOk(cfg, k))
    && (forall k :: 0 <= k < |tries| - 1 ==> !tries[k].Succeeded())
    && (FilledBy(tries) == None ==> |tries| == cfg.Attempts())
  }

  /** The order that filled the leg. */
  function FilledBy(tries: seq<Try>): Option<Response> {
    if tries != [] && tries[|tries| - 1].Succeeded() then tries[|tries| - 1].Final() else None
  }

  function FillResult(leg: Leg, t: Terms, order: Response, ts: int): LegResult {
    var price := if order.avgPrice == 0.0 then t.mid else order.avgPrice;
    LegResult(true, order.filledQty, order.filledQty * price, price, order.fees, leg.symbol,
              order.status == PartiallyFilled, ts)
  }

  /** The record of one leg: the readings before it, its orders, and when its fill was noted. */
  datatype LegRecord = LegRecord(readings: seq<Reply>, preparation: Preparation, tries: seq<Try>, filledAt: int) {
    ghost predicate Ok(cfg: Config, intent: Intent, i: nat, prev: LegResult)
      requires i < |intent.legs|
    {
      && Prepared(cfg, intent, i, prev, readings, preparation)
      && (preparation.Ready? ==> preparation.t.mid != 0.0)
      && if preparation.Ready? then LadderOk(cfg, tries) else tries == []
    }

    function Result(leg: Leg): LegResult {
      if preparation.Ready? && FilledBy(tries).Some?
      then FillResult(leg, preparation.t, FilledBy(tries).value, filledAt)
      else UNFILLED
    }

    predicate IsFilled() { preparation.Ready? && FilledBy(tries).Some? }

    ghost function Orders(cfg: Config, leg: Leg, i: nat): (r: seq<Request>)
      ensures |r| <= cfg.Attempts()
      ensures forall a :: 0 <= a < |r| ==> r[a].id == Entry(i, a)
    {
      if preparation.Ready? && preparation.t.mid != 0.0 && |tries| <= cfg.Attempts()
      then Ladder(cfg, leg, i, preparation.t, |tries|) else []
    }

    ghost function Events(cfg: Config, leg: Leg, i: nat): seq<Event> {
      match preparation
      case Drifted => [Event(HedgeDrift, i, leg.symbol, "")]
      case Ready(t) =>
        SentEvents(cfg, leg, i, tries) +
        [Event(match FilledBy(tries)
               case None => OrderRejected
               case Some(order) => if order.status == PartiallyFilled then OrderPartial else OrderFilled,
               i, leg.symbol, leg.action)]
      case _ => []
    }

    ghost function Replies(): seq<Reply> {
      readings + RepliesTo(tries) + if IsFilled() then [Time(filledAt)] else []
    }
  }

  /** One ORDER_SENT an order, and one ORDER_RETRY if it was refused and another follows. */
  ghost function SentFor(cfg: Config, leg: Leg, i: nat, attempt: nat, y: Try): seq<Event> {
    [Event(OrderSent, i, leg.symbol, leg.action)]
    + if y.answer == None && attempt < cfg.maxRetries then [Event(OrderRetry, i, leg.symbol, leg.action)] else []
  }

  ghost function SentEvents(cfg: Config, leg: Leg, i: nat, tries: seq<Try>): seq<Event> {
    if tries == [] then [] else
      var n := |tries| - 1;
      SentEvents(cfg, leg, i, tries[..n]) + SentFor(cfg, leg, i, n, tries[n])
  }

  // ---------------------------------------------------------------------
  // The unwind
  // ---------------------------------------------------------------------

  /** What is reversed by an unwind, and in which direction. */
  datatype Reversal = Reversal(leg: nat, symbol: string, side: string, quantity: real)

  function ReverseSide(action: string): string {
    if action == "SELL" then SIDE_BUY else SIDE_SELL
  }

  function ReversalOf(intent: Intent, leg: nat, result: LegResult): Reversal
    requires leg < |intent.legs|
  {
    Reversal(leg, result.symbol, ReverseSide(intent.legs[leg].action), result.filledQty)
  }

  function UnwindRequest(r: Reversal, attempt: nat): Request {
    Request(Unwind(r.leg, attempt), r.symbol, r.side, Market, r.quantity, 0.0, 0.0, true)
  }

  ghost function UnwindOrders(r: Reversal, n: nat): (s: seq<Request>)
    ensures |s| == n
  {
    seq(n, a requires 0 <= a < n => UnwindRequest(r, a))
  }

  /** The unwind stops at the first order reported filled; otherwise it is tried four times. */
  ghost predicate UnwindOk(tries: seq<Try>) {
    && 1 <= |tries| <= MAX_UNWIND_RETRIES + 1
    && (forall k :: 0 <= k < |tries| ==> tries[k].UnwindOk())
    && (forall k :: 0 <= k < |tries| - 1 ==> !tries[k].Closed())
    && (!tries[|tries| - 1].Closed() ==> |tries| == MAX_UNWIND_RETRIES + 1)
  }

  /** The one event of an unwind. */
  ghost function Outcome(r: Reversal, tries: seq<Try>): Event
    requires tries != []
  {
    var last := tries[|tries| - 1];
    Event(if last.Closed() then OrderFilled else HedgeFailed, r.leg, r.symbol,
          if last.answer == None then "" else r.side)
  }

  /** From the book b, what happened during an unwind, and the book after it. */
  ghost predicate IsUnwinding(b: Book, happened: seq<Step>, r: Reversal, tries: seq<Try>, c: Book) {
    && tries != [] && Legal(b, happened) && c == After(b, happened)
    && OrdersIn(happened) == UnwindOrders(r, |tries|) && RepliesIn(happened) == RepliesTo(tries)
    && |c.orders| == |b.orders| + |tries|
    && c.orders[|c.orders| - 1].request == UnwindRequest(r, |tries| - 1)
    && (tries[|tries| - 1].Closed() ==> c.orders[|c.orders| - 1].closed)
  }

  // ---------------------------------------------------------------------
  // The run
  // ---------------------------------------------------------------------

  ghost function OrdersOf(cfg: Config, intent: Intent, legs: seq<LegRecord>): seq<Request>
    requires |legs| <= |intent.legs|
  {
    if legs == [] then [] else
      var n := |legs| - 1;
      OrdersOf(cfg, intent, legs[..n]) + legs[n].Orders(cfg, intent.legs[n], n)
  }

  ghost function EventsOf(cfg: Config, intent: Intent, legs: seq<LegRecord>): seq<Event>
    requires |legs| <= |intent.legs|
  {
    if legs == [] then [] else
      var n := |legs| - 1;
      EventsOf(cfg, intent, legs[..n]) + legs[n].Events(cfg, intent.legs[n], n)
  }

  ghost function RepliesOf(legs: seq<LegRecord>): seq<Reply> {
    if legs == [] then [] else RepliesOf(legs[..|legs| - 1]) + legs[|legs| - 1].Replies()
  }

  /** The result of leg j, when these legs were started. */
  function ResultAt(intent: Intent, legs: seq<LegRecord>, j: nat): LegResult
    requires j < |intent.legs|
  {
    if j < |legs| then legs[j].Result(intent.legs[j]) else UNFILLED
  }

  function ResultsOf(intent: Intent, legs: seq<LegRecord>): (r: seq<LegResult>)
    ensures |r| == |intent.legs|
  {
    seq(|intent.legs|, j requires 0 <= j < |intent.legs| => ResultAt(intent, legs, j))
  }

  function Previous(intent: Intent, legs: seq<LegRecord>, j: nat): LegResult
    requires j <= |intent.legs|
  {
    if j == 0 then UNFILLED else ResultAt(intent, legs, j - 1)
  }

  /** Each leg is started with the result of the one before it, which was filled. */
  ghost predicate LegsOk(cfg: Config, intent: Intent, legs: seq<LegRecord>) {
    && |legs| <= |intent.legs|
    && (forall j :: 0 <= j < |legs| ==> legs[j].Ok(cfg, intent, j, Previous(intent, legs, j)))
    && (forall j :: 0 <= j < |legs| - 1 ==> legs[j].IsFilled())
  }

  /** After the first orders, every order of these legs that was last reported at an end is at its end. */
  ghost predicate Reported(legs: seq<LegRecord>, b: Book, first: nat) {
    forall i :: first <= i < |b.orders| && b.orders[i].request.id.Entry? ==>
      var id := b.orders[i].request.id;
      id.leg < |legs| && id.attempt < |legs[id.leg].tries| && legs[id.leg].tries[id.attempt].Ended() ==>
        b.orders[i].closed
  }

  /** A call that began with one book has come to another by the orders of these legs alone. */
  ghost predicate Starts(cfg: Config, intent: Intent, run: Run, start: Book, b: Book) {
    && |run.legs| <= |intent.legs| && Later(start, b)
    && IsBookOf(b, |start.orders|, OrdersOf(cfg, intent, run.legs)) && Reported(run.legs, b, |start.orders|)
  }

  /** What happened in one Execute call: the first clock reading, the legs that were started, and the unwind, if any. */
  datatype Run = Run(start: int, legs: seq<LegRecord>, unwind: seq<Try>) {
    /** The last leg started failed, and there is a filled one before it. */
    predicate Unwinds() { |legs| >= 2 && !legs[|legs| - 1].IsFilled() }

    function Reversed(intent: Intent): Reversal
      requires Unwinds() && |legs| <= |intent.legs|
    {
      ReversalOf(intent, |legs| - 2, ResultAt(intent, legs, |legs| - 2))
    }

    ghost predicate IsRunOf(cfg: Config, intent: Intent) {
      && LegsOk(cfg, intent, legs)
      && (legs == [] <==> start > intent.expiresMs || intent.legs == [])
      && (legs != [] && legs[|legs| - 1].IsFilled() ==> |legs| == |intent.legs|)
      && if Unwinds() then UnwindOk(unwind) else unwind == []
    }

    ghost function Orders(cfg: Config, intent: Intent): seq<Request>
      requires IsRunOf(cfg, intent)
    {
      OrdersOf(cfg, intent, legs) + if Unwinds() then UnwindOrders(Reversed(intent), |unwind|) else []
    }

    ghost function Events(cfg: Config, intent: Intent): seq<Event>
      requires IsRunOf(cfg, intent)
    {
      EventsOf(cfg, intent, legs) + if Unwinds() then [Outcome(Reversed(intent), unwind)] else []
    }

    ghost function Replies(): seq<Reply> {
      [Time(start)] + RepliesOf(legs) + RepliesTo(unwind)
    }

    ghost function SummaryOf(intent: Intent): Option<Summary> {
      if exists j :: 0 <= j < |legs| && legs[j].IsFilled() then Some(SummaryFor(intent, ResultsOf(intent, legs)))
      else None
    }
  }

  /** Fees of all legs; prices and net PnL once the first two legs are filled. */
  function SummaryFor(intent: Intent, results: seq<LegResult>): Summary
    requires |results| == |intent.legs|
  {
    var fees := Sum(Fees(results));
    if |results| >= 2 && results[0].filled && results[1].filled then
      var sells := intent.legs[0].action == "SELL";
      var buy, sell := results[if sells then 1 else 0].fillPrice, results[if sells then 0 else 1].fillPrice;
      Summary(fees, buy, sell, NetPnl(buy, sell, results[0].filledUsd, fees))
    else Summary(fees, 0.0, 0.0, 0.0)
  }

  function NetPnl(buy: real, sell: real, notional: real, fees: real): real {
    var mid := (buy + sell) / 2.0;
    if mid > 0.0 then (sell - buy) / mid * notional - fees else 0.0
  }

  function Fees(results: seq<LegResult>): (r: seq<real>)
    ensures |r| == |results|
  {
    seq(|results|, i requires 0 <= i < |results| => results[i].fees)
  }

  // ---------------------------------------------------------------------
  // The executor
  // ---------------------------------------------------------------------

  /** The event list that the legs and the unwind append to. */
  class EventLog {
    var events: seq<Event>

    constructor ()
      ensures events == []
    {
      events := [];
    }

    method Append(kind: EventKind, leg: nat, symbol: string, action: string)
      modifies this
      ensures events == old(events) + [Event(kind, leg, symbol, action)]
    {
      events := events + [Event(kind, leg, symbol, action)];
    }
  }

  class Executor {
    const cfg: Config
    const minPartialFillPct: real
    const reconDelayMs: int

    constructor (maxRetriesPerLeg: int, hedgeDriftMaxMs: int, minPartialFillPct: real, reconDelayMs: int)
      ensures cfg.maxRetries == if maxRetriesPerLeg == 0 then 3 else maxRetriesPerLeg
      ensures cfg.hedgeDriftMaxMs == if hedgeDriftMaxMs == 0 then 2000 else hedgeDriftMaxMs
      ensures this.minPartialFillPct == if minPartialFillPct == 0.0 then 0.10 else minPartialFillPct
      ensures this.reconDelayMs == if reconDelayMs == 0 then 2000 else reconDelayMs
    {
      var retries, drift := maxRetriesPerLeg, hedgeDriftMaxMs;
      if retries == 0 {
        retries := 3;
      }
      if drift == 0 {
        drift := 2000;
      }
      cfg := Config(retries, drift);
      this.minPartialFillPct := if minPartialFillPct == 0.0 then 0.10 else minPartialFillPct;
      this.reconDelayMs := if reconDelayMs == 0 then 2000 else reconDelayMs;
    }

    method PollOrderStatus(venue: Session, orderId: int, ghost answer: Response)
      returns (r: Option<Response>, ghost y: Try)
      requires venue.Valid() && answer.orderId == orderId
      modifies venue
      ensures venue.Valid() && old(venue.steps) <= venue.steps && venue.placed == old(venue.placed)
      ensures Later(old(venue.book), venue.book)
      ensures y.answer == Some(answer) && y.cancelled == None && y.PolledRight() && y.Settled() == r
      ensures venue.trace == old(venue.trace) + Polls(orderId, y.polls)
      ensures r.Some? && 0 <= orderId < |venue.book.orders| ==> Truthful(venue.book.orders[orderId], r.value.status)
    {
      hide Session.Valid, Later, Truthful;
      y := Try(Some(answer), [], None);
      LaterItself(venue.book);
      for attempt := 0 to MAX_POLLS
        invariant venue.Valid() && old(venue.steps) <= venue.steps && venue.placed == old(venue.placed)
        invariant Later(old(venue.book), venue.book)
        invariant y.answer == Some(answer) && y.cancelled == None
        invariant |y.polls| == attempt && forall k :: 0 <= k < attempt ==> !Settles(y.polls[k])
        invariant venue.trace == old(venue.trace) + Polls(orderId, y.polls)
      {
        ghost var b := venue.book;
        var resp := venue.GetOrder(orderId);
        LaterStill(old(venue.book), b, venue.book);
        assert Polls(orderId, y.polls + [resp]) == Polls(orderId, y.polls) + [Polled(orderId, resp)];
        y := y.(polls := y.polls + [resp]);
        if resp == None {
          continue;
        }
        match resp.value.status
        case Filled | Cancelled | Rejected | Expired | PartiallyFilled => return resp, y;
        case _ =>
      }
      return None, y;
    }

    /** One reduce-only order and its polls. */
    method ReverseOnce(venue: Session, req: Request) returns (accepted: bool, filled: bool, ghost y: Try)
      requires venue.Valid() && req.reduceOnly
      modifies venue
      ensures venue.Valid() && old(venue.steps) <= venue.steps && venue.placed == old(venue.placed) + [req]
      ensures y.UnwindOk() && accepted == y.answer.Some? && filled == y.Closed() && (filled ==> accepted)
      ensures venue.trace == old(venue.trace) + y.Replies()
      ensures |venue.book.orders| == |old(venue.book.orders)| + 1
      ensures filled ==> venue.book.orders[|old(venue.book.orders)|].closed
    {
      var resp := venue.PlaceOrder(req);
      if resp == None {
        return false, false, Try(None, [], None);
      }
      var final;
      final, y := PollOrderStatus(venue, resp.value.orderId, resp.value);
      return true, final.Some? && final.value.status == Filled, y;
    }

    /**
     * Reverses a filled leg with reduce-only market orders. Whatever the exchange does, exactly one
     * outcome event is appended, and it is ORDER_FILLED only if the last order is at its end.
     */
    method EmergencyUnwind(venue: Session, intent: Intent, legIdx: nat, result: LegResult, log: EventLog)
      returns (ghost tries: seq<Try>, ghost happened: seq<Step>)
      requires venue.Valid() && legIdx < |intent.legs|
      modifies venue, log
      ensures venue.Valid() && UnwindOk(tries)
      ensures var r := ReversalOf(intent, legIdx, result);
              && venue.placed == old(venue.placed) + UnwindOrders(r, |tries|)
              && log.events == old(log.events) + [Outcome(r, tries)]
              && IsUnwinding(old(venue.book), happened, r, tries, venue.book)
      ensures venue.trace == old(venue.trace) + RepliesTo(tries)
    {
      hide RepliesTo, Try.Replies, Try.PolledRight, Try.Closed, Try.UnwindOk, Session.Valid, Take, CanTake, IsUnwinding,
           Legal, After, OrdersIn, RepliesIn, Later, Truthful, IsBookOf;
      var reverseAction := ReverseSide(intent.legs[legIdx].action);
      ghost var r := ReversalOf(intent, legIdx, result);
      ghost var steps, b, placed, trace := venue.steps, venue.book, venue.placed, venue.trace;
      History(venue);
      NoReplies();
      tries := [];
      for attempt := 0 to MAX_UNWIND_RETRIES + 1
        invariant venue.Valid() && old(venue.steps) <= venue.steps
        invariant |tries| == attempt && forall k :: 0 <= k < attempt ==> tries[k].UnwindOk() && !tries[k].Closed()
        invariant venue.placed == old(venue.placed) + UnwindOrders(r, attempt)
        invariant venue.trace == old(venue.trace) + RepliesTo(tries)
        invariant log.events == old(log.events) + if attempt <= MAX_UNWIND_RETRIES then [] else [Outcome(r, tries)]
      {
        var req :=
          Request(Unwind(legIdx, attempt), result.symbol, reverseAction, Market, result.filledQty, 0.0, 0.0, true);
        var accepted, filled;
        ghost var y;
        accepted, filled, y := ReverseOnce(venue, req);
        assert UnwindOrders(r, attempt + 1) == UnwindOrders(r, attempt) + [req];
        tries := OneMoreTry(tries, y);
        if !accepted {
          if attempt == MAX_UNWIND_RETRIES {
            log.Append(HedgeFailed, legIdx, result.symbol, "");
          }
          continue;
        }
        var kind := OrderFilled;
        if !filled {
          kind := HedgeFailed;
          if attempt < MAX_UNWIND_RETRIES {
            continue;
          }
        }
        log.Append(kind, legIdx, result.symbol, reverseAction);
        happened := WhatHappened(venue, steps, b, placed, trace, r, tries);
        return;
      }
      happened := WhatHappened(venue, steps, b, placed, trace, r, tries);
    }

    /** One rung of the ladder: place, poll, and cancel what did not execute. */
    method SendOrder(venue: Session, log: EventLog, leg: Leg, i: nat, attempt: nat, req: Request)
      returns (filled: Option<Response>, ghost y: Try)
      requires venue.Valid() && !req.reduceOnly
      modifies venue, log
      ensures venue.Valid() && old(venue.steps) <= venue.steps && venue.placed == old(venue.placed) + [req]
      ensures Later(old(venue.book), venue.book) && |venue.book.orders| == |old(venue.book.orders)| + 1
      ensures y.Ended() ==> venue.book.orders[|old(venue.book.orders)|].closed
      ensures y.EntryOk(cfg, attempt) && filled == if y.Succeeded() then y.Final() else None
      ensures venue.trace == old(venue.trace) + y.Replies()
      ensures log.events == old(log.events) + SentFor(cfg, leg, i, attempt, y)
    {
      hide Executed, Try.PolledRight, Try.Settled, Polls, Session.Valid, Take, CanTake;
      log.Append(OrderSent, i, leg.symbol, leg.action);
      BookMatches(venue);
      var resp := venue.PlaceOrder(req);
      if resp == None {
        Refused(Try(None, [], None));
        if attempt < cfg.maxRetries {
          log.Append(OrderRetry, i, leg.symbol, leg.action);
        }
        return None, Try(None, [], None);
      }
      var final;
      ghost var b := venue.book;
      BookMatches(venue);
      final, y := PollOrderStatus(venue, resp.value.orderId, resp.value);
      if final == None {
        final := resp;
        TruthKept(b, venue.book, |old(venue.book.orders)|, final.value.status);
      }
      EntryDone(cfg, attempt, y, final.value);
      BookMatches(venue);
      assert venue.placed[|old(venue.placed)|] == req;
      EndedIsClosed(venue.book.orders[|old(venue.book.orders)|], y, final.value);
      if Executed(final.value) {
        return final, y;
      }
      if attempt < cfg.maxRetries {
        venue.CancelOrder(final.value.orderId);
        BookMatches(venue);
        y := y.(cancelled := Some(final.value.orderId));
      }
      return None, y;
    }

    /** The retry ladder of one leg: LIMIT orders at widening prices, then one IOC at the worst price. */
    method SendOrders(venue: Session, log: EventLog, leg: Leg, i: nat, t: Terms)
      returns (filled: Option<Response>, ghost tries: seq<Try>)
      requires venue.Valid() && t.mid != 0.0
      modifies venue, log
      ensures venue.Valid() && old(venue.steps) <= venue.steps && Later(old(venue.book), venue.book)
      ensures EndedAreClosed(venue.book, |old(venue.book.orders)|, tries)
      ensures LadderOk(cfg, tries) && filled == FilledBy(tries)
      ensures venue.placed == old(venue.placed) + Ladder(cfg, leg, i, t, |tries|)
      ensures log.events == old(log.events) + SentEvents(cfg, leg, i, tries)
      ensures venue.trace == old(venue.trace) + RepliesTo(tries)
    {
      hide Quantity, LadderPrice, SentEvents, SentFor, RepliesTo, Try.Replies, Try.EntryOk, Try.Succeeded, Try.Final,
           Try.Ended, Session.Valid;
      NoReplies();
      NothingSent(cfg, leg, i);
      BookMatches(venue);
      tries := [];
      for attempt := 0 to cfg.Attempts()
        invariant venue.Valid() && old(venue.steps) <= venue.steps && Later(old(venue.book), venue.book)
        invariant EndedAreClosed(venue.book, |old(venue.book.orders)|, tries)
        invariant |venue.book.orders| == |old(venue.book.orders)| + attempt
        invariant |tries| == attempt
        invariant forall k :: 0 <= k < attempt ==> tries[k].EntryOk(cfg, k) && !tries[k].Succeeded()
        invariant venue.placed == old(venue.placed) + Ladder(cfg, leg, i, t, attempt)
        invariant log.events == old(log.events) + SentEvents(cfg, leg, i, tries)
        invariant venue.trace == old(venue.trace) + RepliesTo(tries)
      {
        var req := EntryRequest(cfg, leg, i, attempt, t);
        assert Ladder(cfg, leg, i, t, attempt + 1) == Ladder(cfg, leg, i, t, attempt) + [req];
        ghost var b, y := venue.book, Try(None, [], None);
        BookMatches(venue);
        filled, y := SendOrder(venue, log, leg, i, attempt, req);
        BookMatches(venue);
        OneMoreEnded(b, venue.book, |old(venue.book.orders)|, tries, y);
        OneMoreSent(cfg, leg, i, tries, y);
        SucceededHasFinal(y);
        tries := OneMoreTry(tries, y);
        if filled.Some? {
          return;
        }
      }
      return None, tries;
    }

    /** The checks before ordering a leg: expiry, hedge drift, a price, and the venue's minimum notional. */
    method Prepare(venue: Session, log: EventLog, intent: Intent, i: nat, prev: LegResult)
      returns (t: Option<Terms>, ghost readings: seq<Reply>, ghost p: Preparation)
      requires venue.Valid() && i < |intent.legs|
      modifies venue, log
      ensures venue.Valid() && old(venue.steps) <= venue.steps && venue.placed == old(venue.placed)
      ensures Later(old(venue.book), venue.book)
      ensures Prepared(cfg, intent, i, prev, readings, p) && t == if p.Ready? then Some(p.t) else None
      ensures venue.trace == old(venue.trace) + readings
      ensures log.events ==
                old(log.events) + if p == Drifted then [Event(HedgeDrift, i, intent.legs[i].symbol, "")] else []
      ensures t.Some? ==> t.value.mid != 0.0
    {
      hide TargetNotional, Quantity, Session.Valid;
      var leg := intent.legs[i];
      var now := venue.Now();
      readings := [Time(now)];
      if now > intent.expiresMs {
        return None, readings, Overdue;
      }
      if i > 0 && prev.filled {
        now := venue.Now();
        readings := readings + [Time(now)];
        var driftMs := now - prev.fillTsMs;
        if driftMs > cfg.hedgeDriftMaxMs {
          log.Append(HedgeDrift, i, leg.symbol, "");
          return None, readings, Drifted;
        }
      }
      var known := venue.GetConstraints(leg.symbol);
      var c := if known == None then DEFAULT_CONSTRAINTS else known.value;
      var ticker := venue.GetTickerPrice(leg.symbol);
      readings := readings + [Rules(leg.symbol, known), Price(leg.symbol, ticker)];
      if ticker == None || ticker.value == 0.0 {
        return None, readings, NoPrice;
      }
      var mid := ticker.value;
      var target := TargetNotional(intent, i, prev);
      var qty := Quantity(c, target, mid);
      var orderNotional := qty * mid;
      if c.minNotional > 0.0 && orderNotional < c.minNotional {
        return None, readings, BelowMinimum;
      }
      return Some(Terms(c, mid, target)), readings, Ready(Terms(c, mid, target));
    }

    /** One leg: give up, or order it and report the fill. Never unwinds anything itself. */
    method RunLeg(venue: Session, log: EventLog, intent: Intent, i: nat, prev: LegResult)
      returns (r: LegResult, ghost rec: LegRecord)
      requires venue.Valid() && i < |intent.legs|
      modifies venue, log
      ensures venue.Valid() && old(venue.steps) <= venue.steps && Later(old(venue.book), venue.book)
      ensures EndedAreClosed(venue.book, |old(venue.book.orders)|, rec.tries)
      ensures rec.Ok(cfg, intent, i, prev) && r == rec.Result(intent.legs[i])
      ensures venue.placed == old(venue.placed) + rec.Orders(cfg, intent.legs[i], i)
      ensures log.events == old(log.events) + rec.Events(cfg, intent.legs[i], i)
      ensures venue.trace == old(venue.trace) + rec.Replies()
    {
      hide Prepared, LadderOk, Ladder, SentEvents, RepliesTo, Session.Valid, Try.Ended;
      var leg := intent.legs[i];
      BookMatches(venue);
      var terms;
      ghost var readings, p;
      terms, readings, p := Prepare(venue, log, intent, i, prev);
      BookMatches(venue);
      if terms == None {
        rec := LegRecord(readings, p, [], 0);
        NoReplies();
        return UNFILLED, rec;
      }
      var filled;
      ghost var tries;
      filled, tries := SendOrders(venue, log, leg, i, terms.value);
      AtMostAttempts(cfg, tries);
      rec := LegRecord(readings, p, tries, 0);
      if filled == None {
        log.Append(OrderRejected, i, leg.symbol, leg.action);
        return UNFILLED, rec;
      }
      var order := filled.value;
      var fillPrice := order.avgPrice;
      if fillPrice == 0.0 {
        fillPrice := terms.value.mid;
      }
      var isPartial := order.status == PartiallyFilled;
      var now := venue.Now();
      rec := rec.(filledAt := now);
      r := LegResult(true, order.filledQty, order.filledQty * fillPrice, fillPrice, order.fees, leg.symbol, isPartial,
                     now);
      log.Append(if isPartial then OrderPartial else OrderFilled, i, leg.symbol, leg.action);
    }

    /**
     * The whole protocol: the orders sent, the events, the replies used and the summary are those of a run.
     * If the run ends with an unwind, happened is what the exchange did during it, starting from the book b.
     * Orders of earlier calls may be live throughout.
     */
    method Execute(venue: Session, intent: Intent)
      returns (events: seq<Event>, summary: Option<Summary>, ghost run: Run, ghost b: Book, ghost happened: seq<Step>)
      requires venue.Valid() && venue.placed == [] && venue.trace == []
      modifies venue
      ensures venue.Valid() && run.IsRunOf(cfg, intent)
      ensures venue.placed == run.Orders(cfg, intent) && venue.trace == run.Replies()
      ensures events == run.Events(cfg, intent) && summary == run.SummaryOf(intent)
      ensures run.Unwinds() ==>
                && Starts(cfg, intent, run, old(venue.book), b)
                && IsUnwinding(b, happened, run.Reversed(intent), run.unwind, venue.book)
    {
      hide InProgress, LegRecord.Ok, LegRecord.Result, LegRecord.Orders, LegRecord.Events, LegRecord.Replies,
           Run.IsRunOf,
           Run.Orders, Run.Events, Run.Replies, Run.SummaryOf, Run.Reversed, UnwindOk, UnwindOrders, Outcome, RepliesTo,
           Sum, Fees, Try.Closed, Try.Ended, ResultAt, LegRecord.IsFilled, Session.Valid, IsUnwinding, Reported, Later,
           SummaryFor, EndedAreClosed, Starts;
      happened := [];
      BookMatches(venue);
      ghost var first := |venue.book.orders|;
      var now := venue.Now();
      BookMatches(venue);
      run := Run(now, [], []);
      b := venue.book;
      var results := seq(|intent.legs|, _ => UNFILLED);
      NothingYet(cfg, intent, results, now);
      assert venue.trace == [Time(now)];
      if now > intent.expiresMs {
        Completed(cfg, intent, run, results, venue.placed, [], venue.trace);
        return [], None, run, b, [];
      }
      if |intent.legs| == 0 {
        Completed(cfg, intent, run, results, venue.placed, [], venue.trace);
        return [], None, run, b, [];
      }
      var log := new EventLog();
      var i := 0;
      NoneReported(venue, run);
      while i < |intent.legs|
        invariant 0 <= i <= |intent.legs| == |results| && venue.Valid() && fresh(log)
        invariant |run.legs| == i && run.start == now && forall j :: 0 <= j < i ==> run.legs[j].IsFilled()
        invariant InProgress(cfg, intent, run, results, venue.placed, log.events, venue.trace)
        invariant Reported(run.legs, venue.book, first)
        invariant Later(old(venue.book), venue.book)
        decreases |intent.legs| - i
      {
        ghost var placed, events0, trace, book := venue.placed, log.events, venue.trace, venue.book;
        var prev := if i > 0 then results[i - 1] else UNFILLED;
        ResultsSoFar(cfg, intent, run, results, placed, events0, trace);
        BookMatches(venue);
        var r;
        ghost var rec;
        r, rec := RunLeg(venue, log, intent, i, prev);
        BookMatches(venue);
        OneMoreReported(cfg, intent, run, results, placed, events0, trace, rec, first, book, venue.book);
        LaterStill(old(venue.book), book, venue.book);
        run := OneMoreLeg(cfg, intent, run, results, placed, events0, trace, rec);
        results := results[i := r];
        FilledMeans(intent.legs[i], rec);
        if i > 0 {
          FilledMeans(intent.legs[i - 1], run.legs[i - 1]);
        }
        if !r.filled {
          if i > 0 && results[i - 1].filled {
            ghost var placed', events', trace' := venue.placed, log.events, venue.trace;
            b := venue.book;
            PlacedSoFar(cfg, intent, run, results, placed', events', trace');
            BookMatches(venue);
            Started(cfg, intent, run, old(venue.book), b);
            ghost var tries;
            tries, happened := EmergencyUnwind(venue, intent, i - 1, results[i - 1], log);
            run := Unwound(cfg, intent, run, results, placed', events', trace', tries);
            events := log.events;
            summary := Summarise(intent, results);
            return;
          }
          break;
        }
        i := i + 1;
      }
      Completed(cfg, intent, run, results, venue.placed, log.events, venue.trace);
      events := log.events;
      summary := Summarise(intent, results);
    }

    /** The fill summary: none unless some leg was filled. */
    method Summarise(intent: Intent, results: seq<LegResult>) returns (summary: Option<Summary>)
      requires |results| == |intent.legs|
      ensures summary ==
                if exists j :: 0 <= j < |results| && results[j].filled then Some(SummaryFor(intent, results)) else None
    {
      var anyFilled := false;
      for j := 0 to |results|
        invariant anyFilled <==> exists k :: 0 <= k < j && results[k].filled
      {
        if results[j].filled {
          anyFilled := true;
          break;
        }
      }
      if !anyFilled {
        return None;
      }
      var totalFees := 0.0;
      for j := 0 to |results|
        invariant totalFees == Sum(Fees(results)[..j])
      {
        SumStep(Fees(results), j);
        totalFees := totalFees + results[j].fees;
      }
      assert Fees(results)[..|results|] == Fees(results);
      var fill := Summary(totalFees, 0.0, 0.0, 0.0);
      if |results| >= 2 && results[0].filled && results[1].filled {
        var buyPrice, sellPrice := results[0].fillPrice, results[1].fillPrice;
        if intent.legs[0].action == "SELL" {
          buyPrice, sellPrice := sellPrice, buyPrice;
        }
        fill := Summary(totalFees, buyPrice, sellPrice, NetPnl(buyPrice, sellPrice, results[0].filledUsd, totalFees));
      }
      return Some(fill);
    }
  }

  /** From order `first` on, the orders of these tries that were reported at an end are at their end. */
  ghost predicate EndedAreClosed(b: Book, first: nat, tries: seq<Try>) {
    && first + |tries| <= |b.orders|
    && forall a :: 0 <= a < |tries| && tries[a].Ended() ==> b.orders[first + a].closed
  }

  lemma OneMoreEnded(b: Book, c: Book, first: nat, tries: seq<Try>, y: Try)
    requires EndedAreClosed(b, first, tries) && Later(b, c) && |b.orders| == first + |tries| < |c.orders|
    requires y.Ended() ==> c.orders[first + |tries|].closed
    ensures EndedAreClosed(c, first, tries + [y])
  {
    hide Try.Ended;
  }

  lemma History(venue: Session)
    requires venue.Valid()
    ensures Legal(venue.start, venue.steps) && venue.book == After(venue.start, venue.steps)
    ensures venue.placed == OrdersIn(venue.steps) && venue.trace == RepliesIn(venue.steps)
    ensures IsBookOf(venue.book, |venue.start.orders|, venue.placed)
  {
  }

  lemma BookMatches(venue: Session)
    requires venue.Valid()
    ensures IsBookOf(venue.book, |venue.start.orders|, venue.placed)
  {
  }

  lemma NoneReported(venue: Session, run: Run)
    requires venue.Valid() && venue.placed == []
    ensures Reported(run.legs, venue.book, |venue.book.orders|)
  {
  }

  lemma PlacedSoFar(cfg: Config, intent: Intent, run: Run, results: seq<LegResult>, placed: seq<Request>,
                    events: seq<Event>, trace: seq<Reply>)
    requires InProgress(cfg, intent, run, results, placed, events, trace)
    ensures |run.legs| <= |intent.legs| && placed == OrdersOf(cfg, intent, run.legs)
  {
    hide LegRecord.Ok;
  }

  lemma {:induction false} LegsOfOrders(cfg: Config, intent: Intent, legs: seq<LegRecord>)
    requires |legs| <= |intent.legs|
    ensures forall i :: 0 <= i < |OrdersOf(cfg, intent, legs)| ==>
              OrdersOf(cfg, intent, legs)[i].id.Entry? && OrdersOf(cfg, intent, legs)[i].id.leg < |legs|
  {
    if legs != [] {
      hide LegRecord.Orders;
      LegsOfOrders(cfg, intent, legs[..|legs| - 1]);
    }
  }

  lemma OneMoreReported(cfg: Config, intent: Intent, run: Run, results: seq<LegResult>, placed: seq<Request>,
                        events: seq<Event>, trace: seq<Reply>, rec: LegRecord, first: nat, b: Book, c: Book)
    requires |run.legs| < |intent.legs| && InProgress(cfg, intent, run, results, placed, events, trace)
    requires Reported(run.legs, b, first) && Later(b, c) && EndedAreClosed(c, |b.orders|, rec.tries)
    requires IsBookOf(b, first, placed)
    requires IsBookOf(c, first, placed + rec.Orders(cfg, intent.legs[|run.legs|], |run.legs|))
    ensures Reported(run.legs + [rec], c, first)
  {
    hide LegRecord.Orders, LegRecord.Ok, LegsOk, OrdersOf, EventsOf, RepliesOf, Try.Ended;
    PlacedSoFar(cfg, intent, run, results, placed, events, trace);
    LegsOfOrders(cfg, intent, run.legs);
    var own := rec.Orders(cfg, intent.legs[|run.legs|], |run.legs|);
    var n := |b.orders|;
    forall i | first <= i < |c.orders|
      ensures i < n ==> c.orders[i].request == b.orders[i].request && placed[i - first].id.leg < |run.legs|
      ensures i >= n ==> c.orders[i].request.id == Entry(|run.legs|, i - n)
    {
      assert c.orders[i].request == (placed + own)[i - first];
      assert i < n ==> b.orders[i].request == placed[i - first];
    }
  }

  lemma WhatHappened(venue: Session, before: seq<Step>, b: Book, placed: seq<Request>, trace: seq<Reply>,
                     r: Reversal, tries: seq<Try>) returns (happened: seq<Step>)
    requires venue.Valid() && tries != [] && before <= venue.steps
    requires Legal(venue.start, before) && b == After(venue.start, before)
    requires placed == OrdersIn(before) && trace == RepliesIn(before) && IsBookOf(b, |venue.start.orders|, placed)
    requires venue.placed == placed + UnwindOrders(r, |tries|) && venue.trace == trace + RepliesTo(tries)
    requires tries[|tries| - 1].Closed() ==> venue.book.orders[|venue.book.orders| - 1].closed
    ensures IsUnwinding(b, happened, r, tries, venue.book)
  {
    hide RepliesTo, Try.Closed, Legal, After, OrdersIn, RepliesIn;
    BookMatches(venue);
    happened := venue.steps[|before|..];
    assert before + happened == venue.steps;
    Splits(venue.start, before, happened);
    ContentsSplit(before, happened);
    History(venue);
    assert venue.placed[|placed|..] == OrdersIn(happened) == UnwindOrders(r, |tries|);
    assert venue.trace[|trace|..] == RepliesIn(happened) == RepliesTo(tries);
    assert venue.placed[|venue.placed| - 1] == UnwindRequest(r, |tries| - 1);
  }

  lemma OneMoreTry(tries: seq<Try>, y: Try) returns (next: seq<Try>)
    ensures next == tries + [y] && RepliesTo(next) == RepliesTo(tries) + y.Replies()
  {
    hide Try.Replies;
    next := tries + [y];
    assert next[..|tries|] == tries;
  }

  lemma OneMoreSent(cfg: Config, leg: Leg, i: nat, tries: seq<Try>, y: Try)
    ensures SentEvents(cfg, leg, i, tries + [y]) == SentEvents(cfg, leg, i, tries) + SentFor(cfg, leg, i, |tries|, y)
  {
    assert (tries + [y])[..|tries|] == tries;
  }

  lemma SucceededHasFinal(y: Try)
    ensures y.Succeeded() ==> y.Final().Some?
  {
  }

  lemma Refused(y: Try)
    requires y == Try(None, [], None)
    ensures y.PolledRight() && y.UnwindOk() && !y.Closed() && !y.Succeeded() && y.Replies() == [Placed(None)]
    ensures forall cfg: Config, k: nat :: y.EntryOk(cfg, k)
  {
  }

  lemma Started(cfg: Config, intent: Intent, run: Run, start: Book, b: Book)
    requires |run.legs| <= |intent.legs| && Later(start, b)
    requires IsBookOf(b, |start.orders|, OrdersOf(cfg, intent, run.legs)) && Reported(run.legs, b, |start.orders|)
    ensures forall tries :: Starts(cfg, intent, run.(unwind := tries), start, b)
  {
    hide OrdersOf;
  }

  lemma LaterItself(b: Book)
    ensures Later(b, b)
  {
  }

  lemma LaterStill(a: Book, b: Book, c: Book)
    requires Later(a, b) && Later(b, c)
    ensures Later(a, c)
  {
  }

  /** What an accepted order that has been polled, and cancelled if need be, amounts to. */
  lemma EntryDone(cfg: Config, attempt: nat, y: Try, final: Response)
    requires y.answer.Some? && y.cancelled == None && y.PolledRight()
    requires Some(final) == if y.Settled() == None then y.answer else y.Settled()
    ensures var give := if Executed(final) || attempt >= cfg.maxRetries then None else Some(final.orderId);
            var done := y.(cancelled := give);
            done.EntryOk(cfg, attempt) && done.Final() == Some(final) && done.Succeeded() == Executed(final)
  {
    hide Executed;
  }

  lemma TruthKept(b: Book, c: Book, i: nat, status: Status)
    requires Later(b, c) && i < |b.orders| && Truthful(b.orders[i], status)
    ensures Truthful(c.orders[i], status)
  {
  }

  /** An entry order that is truthfully reported at an end is at its end, whether or not it is cancelled on top. */
  lemma EndedIsClosed(p: Placement, y: Try, final: Response)
    requires !p.request.reduceOnly && Truthful(p, final.status)
    requires y.answer.Some? && Some(final) == if y.Settled() == None then y.answer else y.Settled()
    ensures forall id :: y.(cancelled := id).Ended() ==> p.closed
    ensures y.Ended() ==> p.closed
  {
  }

  lemma NoReplies()
    ensures RepliesTo([]) == []
  {
  }

  lemma NothingSent(cfg: Config, leg: Leg, i: nat)
    ensures SentEvents(cfg, leg, i, []) == []
  {
  }

  lemma AtMostAttempts(cfg: Config, tries: seq<Try>)
    requires LadderOk(cfg, tries)
    ensures |tries| <= cfg.Attempts()
  {
  }

  /** All legs so far are filled, and nothing but their orders, events and replies has happened. */
  ghost predicate InProgress(cfg: Config, intent: Intent, run: Run, results: seq<LegResult>,
                             placed: seq<Request>, events: seq<Event>, trace: seq<Reply>)
  {
    && LegsOk(cfg, intent, run.legs) && run.unwind == [] && results == ResultsOf(intent, run.legs)
    && placed == OrdersOf(cfg, intent, run.legs)
    && events == EventsOf(cfg, intent, run.legs)
    && trace == [Time(run.start)] + RepliesOf(run.legs)
  }

  lemma NothingYet(cfg: Config, intent: Intent, results: seq<LegResult>, now: int)
    requires |results| == |intent.legs| && forall j :: 0 <= j < |results| ==> results[j] == UNFILLED
    ensures InProgress(cfg, intent, Run(now, [], []), results, [], [], [Time(now)])
  {
  }

  lemma OneMoreLeg(cfg: Config, intent: Intent, run: Run, results: seq<LegResult>, placed: seq<Request>,
                   events: seq<Event>, trace: seq<Reply>, rec: LegRecord) returns (next: Run)
    requires |run.legs| < |intent.legs| && InProgress(cfg, intent, run, results, placed, events, trace)
    requires forall j :: 0 <= j < |run.legs| ==> run.legs[j].IsFilled()
    requires rec.Ok(cfg, intent, |run.legs|, Previous(intent, run.legs, |run.legs|))
    ensures var i := |run.legs|;
            && next == run.(legs := run.legs + [rec])
            && InProgress(cfg, intent, next, results[i := rec.Result(intent.legs[i])],
                          placed + rec.Orders(cfg, intent.legs[i], i),
                          events + rec.Events(cfg, intent.legs[i], i),
                          trace + rec.Replies())
  {
    hide LegsOk, LegRecord.Ok, LegRecord.Result, LegRecord.Orders, LegRecord.Events, LegRecord.Replies,
         LegRecord.IsFilled,
         ResultsOf;
    next := run.(legs := run.legs + [rec]);
    assert next.legs[..|run.legs|] == run.legs;
    NextResults(intent, run, next, rec);
    NextLegsOk(cfg, intent, run.legs, rec);
  }

  lemma NextLegsOk(cfg: Config, intent: Intent, legs: seq<LegRecord>, rec: LegRecord)
    requires |legs| < |intent.legs| && LegsOk(cfg, intent, legs) && forall j :: 0 <= j < |legs| ==> legs[j].IsFilled()
    requires rec.Ok(cfg, intent, |legs|, Previous(intent, legs, |legs|))
    ensures LegsOk(cfg, intent, legs + [rec])
  {
    hide LegRecord.Ok, LegRecord.Result, LegRecord.IsFilled;
    var next := legs + [rec];
    forall j | 0 <= j < |next| ensures next[j].Ok(cfg, intent, j, Previous(intent, next, j)) {
      assert Previous(intent, next, j) == Previous(intent, legs, j);
    }
  }

  lemma ResultsSoFar(cfg: Config, intent: Intent, run: Run, results: seq<LegResult>, placed: seq<Request>,
                     events: seq<Event>, trace: seq<Reply>)
    requires InProgress(cfg, intent, run, results, placed, events, trace)
    ensures |run.legs| <= |intent.legs| == |results|
    ensures Previous(intent, run.legs, |run.legs|) == if run.legs == [] then UNFILLED else results[|run.legs| - 1]
    ensures forall j :: 0 <= j < |run.legs| ==> results[j] == run.legs[j].Result(intent.legs[j])
  {
    hide LegRecord.Result, LegRecord.Ok;
  }

  lemma FilledMeans(leg: Leg, rec: LegRecord)
    ensures rec.Result(leg).filled == rec.IsFilled()
  {
  }

  /** Without an unwind the run is complete when all legs, or none of those started, are filled. */
  lemma Completed(cfg: Config, intent: Intent, run: Run, results: seq<LegResult>, placed: seq<Request>,
                  events: seq<Event>, trace: seq<Reply>)
    requires InProgress(cfg, intent, run, results, placed, events, trace)
    requires run.legs == [] <==> run.start > intent.expiresMs || intent.legs == []
    requires run.legs != [] && run.legs[|run.legs| - 1].IsFilled() ==> |run.legs| == |intent.legs|
    requires !run.Unwinds()
    ensures run.IsRunOf(cfg, intent) && placed == run.Orders(cfg, intent) && trace == run.Replies()
    ensures events == run.Events(cfg, intent)
    ensures (exists j :: 0 <= j < |results| && results[j].filled) <==> run.SummaryOf(intent).Some?
    ensures run.SummaryOf(intent).Some? ==> run.SummaryOf(intent) == Some(SummaryFor(intent, results))
  {
    hide LegRecord.Ok, OrdersOf, EventsOf, RepliesOf, RepliesTo, Run.SummaryOf, Sum, Fees;
    NoReplies();
    SummaryMatches(cfg, intent, run, results);
  }

  lemma SummaryMatches(cfg: Config, intent: Intent, run: Run, results: seq<LegResult>)
    requires LegsOk(cfg, intent, run.legs) && results == ResultsOf(intent, run.legs)
    ensures (exists j :: 0 <= j < |results| && results[j].filled) <==> run.SummaryOf(intent).Some?
    ensures run.SummaryOf(intent).Some? ==> run.SummaryOf(intent) == Some(SummaryFor(intent, results))
  {
    hide LegRecord.Ok, Sum, Fees;
    forall j | 0 <= j < |results| ensures results[j].filled == (j < |run.legs| && run.legs[j].IsFilled()) {
      if j < |run.legs| {
        FilledMeans(intent.legs[j], run.legs[j]);
      }
    }
    if j :| 0 <= j < |run.legs| && run.legs[j].IsFilled() {
      assert results[j].filled;
    }
  }

  lemma Bounded(cfg: Config, intent: Intent, legs: seq<LegRecord>)
    requires LegsOk(cfg, intent, legs)
    ensures |legs| <= |intent.legs|
  {
  }

  /** With an unwind of the leg before the failed one. */
  lemma Unwound(cfg: Config, intent: Intent, run: Run, results: seq<LegResult>, placed: seq<Request>,
                events: seq<Event>, trace: seq<Reply>, tries: seq<Try>) returns (final: Run)
    requires InProgress(cfg, intent, run, results, placed, events, trace)
    requires run.legs != [] && run.start <= intent.expiresMs && run.Unwinds() && UnwindOk(tries)
    ensures final == run.(unwind := tries) && final.IsRunOf(cfg, intent) && final.Unwinds()
    ensures final.Reversed(intent) == ReversalOf(intent, |run.legs| - 2, results[|run.legs| - 2])
    ensures var r := final.Reversed(intent);
            && placed + UnwindOrders(r, |tries|) == final.Orders(cfg, intent)
            && events + [Outcome(r, tries)] == final.Events(cfg, intent)
    ensures trace + RepliesTo(tries) == final.Replies()
    ensures (exists j :: 0 <= j < |results| && results[j].filled) <==> final.SummaryOf(intent).Some?
    ensures final.SummaryOf(intent).Some? ==> final.SummaryOf(intent) == Some(SummaryFor(intent, results))
  {
    hide LegsOk, LegRecord.Result, LegRecord.IsFilled, OrdersOf, EventsOf, RepliesOf, RepliesTo, UnwindOk, UnwindOrders,
         Outcome, Run.SummaryOf, Sum, Fees;
    NoReplies();
    final := run.(unwind := tries);
    Bounded(cfg, intent, run.legs);
    SummaryMatches(cfg, intent, final, results);
  }

  lemma NextResults(intent: Intent, run: Run, next: Run, rec: LegRecord)
    requires |run.legs| < |intent.legs| && next == run.(legs := run.legs + [rec])
    ensures ResultsOf(intent, next.legs)
         == ResultsOf(intent, run.legs)[|run.legs| := rec.Result(intent.legs[|run.legs|])]
  {
    hide LegRecord.Result;
  }
}
