/** Orders, replies and venue rounding (internal/exchange/types.go, exchange.go). */
module Exchange {
  import opened RealSeq

  datatype OrderType = Market | Limit | Ioc

  datatype Status = New | PartiallyFilled | Filled | Cancelled | Rejected | Expired | Unrecognised

  /** The formatted client order id, as the fields it is formatted from. */
  datatype ClientId = Entry(leg: nat, attempt: nat) | Unwind(leg: nat, attempt: nat)

  datatype Request = Request(id: ClientId, symbol: string, side: string, kind: OrderType,
                             quantity: real, price: real, notional: real, reduceOnly: bool)

  datatype Response = Response(orderId: int, status: Status, filledQty: real, avgPrice: real, fees: real)

  const SIDE_BUY := "Buy"
  const SIDE_SELL := "Sell"

  datatype Constraints = Constraints(tick: real, lot: real, minQty: real, minNotional: real) {
    function RoundPrice(price: real): real {
      if tick <= 0.0 then price else Round(price / tick) as real * tick
    }

    function RoundQty(qty: real): real {
      if lot <= 0.0 then qty else (qty / lot).Floor as real * lot
    }
  }

  /** Round half away from zero. */
  function Round(x: real): int {
    if x >= 0.0 then (x + 0.5).Floor else -((-x + 0.5).Floor)
  }

  /** A price half way between two ticks goes to the one further from zero. */
  lemma RoundsHalfAway(n: nat)
    ensures Round(n as real + 0.5) == n + 1 && Round(-(n as real + 0.5)) == -(n + 1)
  {
  }

  lemma RoundPriceMonotone(c: Constraints, p: real, q: real)
    requires p <= q
    ensures c.RoundPrice(p) <= c.RoundPrice(q)
  {
    if c.tick > 0.0 {
      DivideMonotone(p, q, c.tick);
      assert Round(p / c.tick) <= Round(q / c.tick);
      ScaleMonotone(Round(p / c.tick) as real, Round(q / c.tick) as real, c.tick);
    }
  }

  /** A rounded price is a whole number of ticks, at most half a tick away. */
  lemma RoundPriceNearest(c: Constraints, price: real) returns (ticks: int)
    requires c.tick > 0.0
    ensures c.RoundPrice(price) == ticks as real * c.tick
    ensures -c.tick <= 2.0 * (c.RoundPrice(price) - price) <= c.tick
  {
    var x := price / c.tick;
    ticks := Round(x);
    HalfTick(x, ticks as real, c.tick, price, c.RoundPrice(price));
  }

  lemma HalfTick(x: real, n: real, tick: real, price: real, rounded: real)
    requires tick > 0.0 && -0.5 <= n - x <= 0.5 && x * tick == price && n * tick == rounded
    ensures -tick <= 2.0 * (rounded - price) <= tick
  {
    AtMostHalf(n - x, tick, rounded - price);
    AtMostHalf(x - n, tick, price - rounded);
  }

  lemma AtMostHalf(gap: real, tick: real, off: real)
    requires tick > 0.0 && gap <= 0.5 && off == gap * tick
    ensures 2.0 * off <= tick
  {
    var rest := 0.5 - gap;
    assert rest * tick == 0.5 * tick - off;
    assert rest * tick >= 0.0;
  }

  /** Rounding a quantity to lots never adds to it and drops less than one lot. */
  lemma RoundQtyLoss(c: Constraints, qty: real)
    requires c.lot > 0.0
    ensures qty - c.lot < c.RoundQty(qty) <= qty
  {
    var n := qty / c.lot;
    assert n * c.lot == qty;
    ScaleMonotone(n.Floor as real, n, c.lot);
    assert (n - 1.0) * c.lot == qty - c.lot;
    ScaleStrict(n - 1.0, n.Floor as real, c.lot);
  }

  /** What the exchange, or the clock, said; a cancellation is logged without its answer, which is ignored. */
  datatype Reply =
    | Time(ms: int)
    | Rules(symbol: string, constraints: Option<Constraints>)
    | Price(symbol: string, ticker: Option<real>)
    | Placed(response: Option<Response>)
    | Polled(orderId: int, response: Option<Response>)
    | Cancel(orderId: int)
}
