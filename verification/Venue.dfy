/**
 * The exchange behind the executor's calls. Its behaviour is a sequence of steps: orders arrive, execute in
 * parts at any time while they are live, are closed, and replies are given. Two things are assumed of it:
 * a reduce-only order executes no more than there is to reduce and is reported filled only once nothing of it
 * or of the position was left, and an order reported at an end executes no more. Everything else is arbitrary.
 */
module Venue {
  import opened RealSeq
  import opened Exchange

  /** An order that arrived: how much of it has executed, and whether it can execute any further. */
  datatype Placement = Placement(request: Request, executed: real, closed: bool)

  predicate Sells(side: string) { side == "SELL" || side == SIDE_SELL }

  /** The orders so far and the net position in each symbol. */
  datatype Book = Book(orders: seq<Placement>, net: map<string, real>) {
    function Net(symbol: string): real { if symbol in net then net[symbol] else 0.0 }

    /** What is open on one side of a symbol; negative when the other side is. */
    function Size(symbol: string, short: bool): real { if short then -Net(symbol) else Net(symbol) }

    /** What an order in the other direction is against. */
    function Against(q: Request): real { Size(q.symbol, !Sells(q.side)) }
  }

  datatype Step =
    | Order(request: Request)
    | Fill(order: nat, quantity: real)
    | Close(order: nat)
    | Said(reply: Reply)

  predicate AtEnd(status: Status) { status in {Filled, Cancelled, Rejected, Expired} }

  /** A report that an order is at its end is true. Of a reduce-only order only Filled is relied on. */
  predicate Truthful(p: Placement, status: Status) {
    (if p.request.reduceOnly then status == Filled else AtEnd(status)) ==> p.closed
  }

  predicate CanTake(b: Book, s: Step) {
    match s
    case Order(_) => true
    case Fill(i, x) =>
      && i < |b.orders| && !b.orders[i].closed
      && 0.0 < x <= b.orders[i].request.quantity - b.orders[i].executed
      && (b.orders[i].request.reduceOnly ==> x <= b.Against(b.orders[i].request))
    case Close(i) =>
      && i < |b.orders|
      && var p := b.orders[i];
         p.request.reduceOnly ==> p.executed == p.request.quantity || b.Against(p.request) <= 0.0
    case Said(reply) => CanSay(b, reply)
  }

  predicate CanSay(b: Book, reply: Reply) {
    match reply
    case Placed(r) =>
      r.Some? ==> 0 <= r.value.orderId == |b.orders| - 1 && Truthful(b.orders[r.value.orderId], r.value.status)
    case Polled(id, r) => r.Some? && 0 <= id < |b.orders| ==> Truthful(b.orders[id], r.value.status)
    case _ => true
  }

  function Take(b: Book, s: Step): Book
    requires CanTake(b, s)
  {
    match s
    case Order(q) => b.(orders := b.orders + [Placement(q, 0.0, false)])
    case Fill(i, x) =>
      var p := b.orders[i];
      var signed := if Sells(p.request.side) then -x else x;
      Book(b.orders[i := p.(executed := p.executed + x)], b.net[p.request.symbol := b.Net(p.request.symbol) + signed])
    case Close(i) => b.(orders := b.orders[i := b.orders[i].(closed := true)])
    case Said(_) => b
  }

  /** Each step can be taken after the ones before it. */
  ghost predicate Legal(b: Book, steps: seq<Step>)
    decreases |steps|, 0
  {
    steps == [] ||
    (Legal(b, steps[..|steps| - 1]) && CanTake(After(b, steps[..|steps| - 1]), steps[|steps| - 1]))
  }

  ghost function After(b: Book, steps: seq<Step>): Book
    requires Legal(b, steps)
    decreases |steps|, 1
  {
    if steps == [] then b else Take(After(b, steps[..|steps| - 1]), steps[|steps| - 1])
  }

  ghost function OrdersIn(steps: seq<Step>): seq<Request> {
    if steps == [] then [] else
      var s := steps[|steps| - 1];
      OrdersIn(steps[..|steps| - 1]) + if s.Order? then [s.request] else []
  }

  ghost function RepliesIn(steps: seq<Step>): seq<Reply> {
    if steps == [] then [] else
      var s := steps[|steps| - 1];
      RepliesIn(steps[..|steps| - 1]) + if s.Said? then [s.reply] else []
  }

  lemma OneMoreStep(b: Book, steps: seq<Step>, s: Step)
    requires Legal(b, steps) && CanTake(After(b, steps), s)
    ensures Legal(b, steps + [s]) && After(b, steps + [s]) == Take(After(b, steps), s)
    ensures OrdersIn(steps + [s]) == OrdersIn(steps) + if s.Order? then [s.request] else []
    ensures RepliesIn(steps + [s]) == RepliesIn(steps) + if s.Said? then [s.reply] else []
  {
    hide CanTake, Take;
    assert (steps + [s])[..|steps|] == steps;
  }

  lemma {:induction false} Splits(b: Book, steps: seq<Step>, more: seq<Step>)
    requires Legal(b, steps)
    ensures Legal(b, steps + more) <==> Legal(After(b, steps), more)
    ensures Legal(b, steps + more) ==> After(b, steps + more) == After(After(b, steps), more)
    decreases |more|
  {
    hide CanTake, Take;
    if more == [] {
      assert steps + more == steps;
    } else {
      var n := |more| - 1;
      Splits(b, steps, more[..n]);
      assert (steps + more)[..|steps + more| - 1] == steps + more[..n];
    }
  }

  lemma {:induction false} ContentsSplit(steps: seq<Step>, more: seq<Step>)
    ensures OrdersIn(steps + more) == OrdersIn(steps) + OrdersIn(more)
    ensures RepliesIn(steps + more) == RepliesIn(steps) + RepliesIn(more)
    decreases |more|
  {
    if more == [] {
      assert steps + more == steps;
    } else {
      var n := |more| - 1;
      ContentsSplit(steps, more[..n]);
      assert (steps + more)[..|steps + more| - 1] == steps + more[..n];
    }
  }

  // ---------------------------------------------------------------------
  // What a stretch of steps does to a position
  // ---------------------------------------------------------------------

  /** What a fill adds to one side of a symbol. */
  ghost function Adds(b: Book, s: Step, symbol: string, short: bool): real {
    if s.Fill? && s.order < |b.orders| && InDirection(b.orders[s.order].request, symbol, short) then s.quantity else 0.0
  }

  predicate InDirection(q: Request, symbol: string, short: bool) { q.symbol == symbol && Sells(q.side) == short }

  /** What an entry order takes from one side of a symbol by trading the other. */
  ghost function Opposes(b: Book, s: Step, symbol: string, short: bool): real {
    if s.Fill? && s.order < |b.orders| && InDirection(b.orders[s.order].request, symbol, !short)
       && !b.orders[s.order].request.reduceOnly
    then s.quantity else 0.0
  }

  ghost function Added(b: Book, steps: seq<Step>, symbol: string, short: bool): real
    requires Legal(b, steps)
  {
    if steps == [] then 0.0 else
      var n := |steps| - 1;
      Added(b, steps[..n], symbol, short) + Adds(After(b, steps[..n]), steps[n], symbol, short)
  }

  ghost function Opposed(b: Book, steps: seq<Step>, symbol: string, short: bool): real
    requires Legal(b, steps)
  {
    if steps == [] then 0.0 else
      var n := |steps| - 1;
      Opposed(b, steps[..n], symbol, short) + Opposes(After(b, steps[..n]), steps[n], symbol, short)
  }

  /** One step moves a position by what is added, opposed and reduced, and reduces it no further than to nothing. */
  lemma SizeStep(b: Book, s: Step, symbol: string, short: bool)
    requires CanTake(b, s)
    ensures var size, next := b.Size(symbol, short), Take(b, s).Size(symbol, short);
            && 0.0 <= Adds(b, s, symbol, short) && 0.0 <= Opposes(b, s, symbol, short)
            && next <= size + Adds(b, s, symbol, short)
            && next >= Min(0.0, size) - Opposes(b, s, symbol, short)
            && next >= size - (if s.Fill? then s.quantity else 0.0)
  {
  }

  /** During any stretch a position stays between what it was plus what was added, and nothing less what opposed it. */
  lemma {:induction false} SizeBounds(b: Book, steps: seq<Step>, symbol: string, short: bool)
    requires Legal(b, steps)
    ensures 0.0 <= Added(b, steps, symbol, short) && 0.0 <= Opposed(b, steps, symbol, short)
    ensures Min(0.0, b.Size(symbol, short)) - Opposed(b, steps, symbol, short)
              <= After(b, steps).Size(symbol, short) <= b.Size(symbol, short) + Added(b, steps, symbol, short)
  {
    if steps != [] {
      hide CanTake, Take, Adds, Opposes, Book.Size;
      var n := |steps| - 1;
      SizeBounds(b, steps[..n], symbol, short);
      SizeStep(After(b, steps[..n]), steps[n], symbol, short);
    }
  }

  /** Orders are kept, none executes less, and a closed one stays closed. */
  ghost predicate Later(b: Book, c: Book) {
    && |b.orders| <= |c.orders|
    && forall i :: 0 <= i < |b.orders| ==>
         && c.orders[i].request == b.orders[i].request && c.orders[i].executed >= b.orders[i].executed
         && (b.orders[i].closed ==> c.orders[i].closed)
  }

  lemma {:induction false} AlwaysLater(b: Book, steps: seq<Step>)
    requires Legal(b, steps)
    ensures Later(b, After(b, steps))
  {
    if steps != [] {
      AlwaysLater(b, steps[..|steps| - 1]);
    }
  }

  /**
   * The reducing order i since b: what it executed is gone, and once it is closed its whole quantity, or all there
   * was.
   */
  ghost predicate Accounted(b: Book, c: Book, i: nat, added: real)
    requires i < |c.orders|
  {
    var q := c.orders[i].request;
    var size, size0 := c.Against(q), b.Against(q);
    && size + c.orders[i].executed <= size0 + added
    && (c.orders[i].closed ==> size <= added + Max(0.0, size0 - q.quantity))
  }

  lemma AccountedStep(b: Book, c: Book, s: Step, i: nat, added: real)
    requires CanTake(c, s) && i < |c.orders| && c.orders[i].request.reduceOnly && added >= 0.0
    requires Accounted(b, c, i, added)
    ensures var q := c.orders[i].request;
            Accounted(b, Take(c, s), i, added + Adds(c, s, q.symbol, !Sells(q.side)))
  {
  }

  lemma AccountedStart(b: Book, c: Book, q: Request, added: real)
    requires q.reduceOnly && c.Against(q) <= b.Against(q) + added
    ensures Accounted(b, Take(c, Order(q)), |c.orders|, added)
  {
  }

  /** A reduce-only order that arrived in a stretch and was closed left at most what others added since. */
  lemma {:induction false} ReducingOrder(b: Book, steps: seq<Step>, i: nat)
    requires Legal(b, steps) && |b.orders| <= i < |After(b, steps).orders|
    requires After(b, steps).orders[i].request.reduceOnly
    ensures var q := After(b, steps).orders[i].request;
            Accounted(b, After(b, steps), i, Added(b, steps, q.symbol, !Sells(q.side)))
  {
    hide Accounted, Adds;
    if steps != [] {
      var n := |steps| - 1;
      var c, s := After(b, steps[..n]), steps[n];
      var q := After(b, steps).orders[i].request;
      SizeBounds(b, steps[..n], q.symbol, !Sells(q.side));
      if i < |c.orders| {
        ReducingOrder(b, steps[..n], i);
        AccountedStep(b, c, s, i, Added(b, steps[..n], q.symbol, !Sells(q.side)));
      } else {
        AccountedStart(b, c, q, Added(b, steps[..n], q.symbol, !Sells(q.side)));
        NothingAdded(c, s, q.symbol, !Sells(q.side));
      }
    }
  }

  lemma NothingAdded(b: Book, s: Step, symbol: string, short: bool)
    ensures !s.Fill? ==> Adds(b, s, symbol, short) == 0.0
  {
  }

  // ---------------------------------------------------------------------
  // When a filled reversal leaves nothing open
  // ---------------------------------------------------------------------

  /** No order in this direction can execute any further. */
  ghost predicate Quiet(b: Book, symbol: string, short: bool) {
    forall i :: 0 <= i < |b.orders| && InDirection(b.orders[i].request, symbol, short) ==>
      b.orders[i].closed || b.orders[i].executed >= b.orders[i].request.quantity
  }

  /** No order in this direction arrives. */
  ghost predicate NoneIn(steps: seq<Step>, symbol: string, short: bool) {
    forall k :: 0 <= k < |steps| && steps[k].Order? ==> !InDirection(steps[k].request, symbol, short)
  }

  lemma QuietStep(b: Book, s: Step, symbol: string, short: bool)
    requires CanTake(b, s) && Quiet(b, symbol, short) && (s.Order? ==> !InDirection(s.request, symbol, short))
    ensures Quiet(Take(b, s), symbol, short) && Adds(b, s, symbol, short) == 0.0
  {
  }

  lemma {:induction false} QuietAddsNothing(b: Book, steps: seq<Step>, symbol: string, short: bool)
    requires Legal(b, steps) && Quiet(b, symbol, short) && NoneIn(steps, symbol, short)
    ensures Quiet(After(b, steps), symbol, short) && Added(b, steps, symbol, short) == 0.0
  {
    if steps != [] {
      hide CanTake, Take, Adds, InDirection, Quiet;
      var n := |steps| - 1;
      QuietAddsNothing(b, steps[..n], symbol, short);
      QuietStep(After(b, steps[..n]), steps[n], symbol, short);
    }
  }

  /** No order in this direction is reduce-only. */
  ghost predicate NoneReduces(b: Book, symbol: string, short: bool) {
    forall i :: 0 <= i < |b.orders| && InDirection(b.orders[i].request, symbol, short) ==>
      !b.orders[i].request.reduceOnly
  }

  /** After q is sent from b, these steps follow, q is closed, and nothing in the other direction is sent. */
  ghost predicate Reverses(b: Book, q: Request, steps: seq<Step>) {
    && Legal(b, [Order(q)] + steps)
    && NoneIn(steps, q.symbol, !Sells(q.side))
    && var c := After(b, [Order(q)] + steps);
       |b.orders| < |c.orders| && c.orders[|b.orders|].closed
  }

  /**
   * A reduce-only order that is reported filled means that nothing is left open, whatever else happens, if and
   * only if every order in the position's direction was already at its end and no more was open than it reverses.
   */
  lemma FilledMeansFlatExactly(b: Book, q: Request)
    requires q.reduceOnly && q.quantity >= 0.0 && b.Against(q) >= 0.0
    requires NoneReduces(b, q.symbol, !Sells(q.side))
    ensures (forall steps :: Reverses(b, q, steps) ==> After(b, [Order(q)] + steps).Against(q) <= 0.0)
       <==> Quiet(b, q.symbol, !Sells(q.side)) && b.Against(q) <= q.quantity
  {
    hide NoneIn, Quiet, Take, CanTake, Book.Against;
    if Quiet(b, q.symbol, !Sells(q.side)) && b.Against(q) <= q.quantity {
      forall steps | Reverses(b, q, steps) ensures After(b, [Order(q)] + steps).Against(q) <= 0.0 {
        QuietMeansFlat(b, q, steps);
      }
    } else {
      var steps := LeavesOpen(b, q);
      assert Reverses(b, q, steps);
    }
  }

  lemma QuietMeansFlat(b: Book, q: Request, steps: seq<Step>)
    requires q.reduceOnly && Quiet(b, q.symbol, !Sells(q.side)) && b.Against(q) <= q.quantity
    requires Reverses(b, q, steps)
    ensures After(b, [Order(q)] + steps).Against(q) <= 0.0
  {
    hide Take, CanTake, Quiet, Adds;
    var all := [Order(q)] + steps;
    assert NoneIn(all, q.symbol, !Sells(q.side));
    QuietAddsNothing(b, all, q.symbol, !Sells(q.side));
    OrderKept(b, q, steps);
    ReducingOrder(b, all, |b.orders|);
  }

  lemma OrderKept(b: Book, q: Request, steps: seq<Step>)
    requires Legal(b, [Order(q)] + steps)
    ensures |b.orders| < |After(b, [Order(q)] + steps).orders|
    ensures After(b, [Order(q)] + steps).orders[|b.orders|].request == q
  {
    Splits(b, [], [Order(q)]);
    var c := Take(b, Order(q));
    FirstStep(b, Order(q));
    LegalPrefix(b, [Order(q)], steps);
    Splits(b, [Order(q)], steps);
    AlwaysLater(c, steps);
  }

  lemma FirstStep(b: Book, s: Step)
    requires CanTake(b, s)
    ensures Legal(b, [s]) && After(b, [s]) == Take(b, s)
    ensures OrdersIn([s]) == (if s.Order? then [s.request] else [])
    ensures RepliesIn([s]) == if s.Said? then [s.reply] else []
  {
    OneMoreStep(b, [], s);
    assert [] + [s] == [s];
  }

  lemma {:induction false} LegalPrefix(b: Book, steps: seq<Step>, more: seq<Step>)
    requires Legal(b, steps + more)
    ensures Legal(b, steps)
    decreases |more|
  {
    if more == [] {
      assert steps + more == steps;
    } else {
      var n := |more| - 1;
      assert (steps + more)[..|steps + more| - 1] == steps + more[..n];
      LegalPrefix(b, steps, more[..n]);
    }
  }

  /** Otherwise: reverse as much as can be, close the order, and let a live order execute. */
  lemma LeavesOpen(b: Book, q: Request) returns (steps: seq<Step>)
    requires q.reduceOnly && q.quantity >= 0.0 && b.Against(q) >= 0.0
    requires NoneReduces(b, q.symbol, !Sells(q.side))
    requires !Quiet(b, q.symbol, !Sells(q.side)) || b.Against(q) > q.quantity
    ensures Reverses(b, q, steps) && After(b, [Order(q)] + steps).Against(q) > 0.0
  {
    var c;
    steps, c := ReversedAndClosed(b, q);
    if b.Against(q) <= q.quantity {
      var i :| 0 <= i < |b.orders| && InDirection(b.orders[i].request, q.symbol, !Sells(q.side))
               && !b.orders[i].closed && b.orders[i].executed < b.orders[i].request.quantity;
      var late := Fill(i, b.orders[i].request.quantity - b.orders[i].executed);
      c := Extend(b, q, steps, c, late);
      steps := steps + [late];
    }
  }

  /** The order reverses as much as it can and is closed. */
  lemma ReversedAndClosed(b: Book, q: Request) returns (steps: seq<Step>, c: Book)
    requires q.reduceOnly && q.quantity >= 0.0 && b.Against(q) >= 0.0
    ensures Reverses(b, q, steps) && c == After(b, [Order(q)] + steps)
    ensures |c.orders| == |b.orders| + 1 && c.orders[..|b.orders|] == b.orders
    ensures c.Against(q) == b.Against(q) - Min(q.quantity, b.Against(q))
  {
    hide CanTake, Take;
    FirstStep(b, Order(q));
    c := Take(b, Order(q));
    steps := [];
    assert [Order(q)] + steps == [Order(q)];
    var n, done := |b.orders|, Min(q.quantity, b.Against(q));
    Reversing(b, q, done);
    if done > 0.0 {
      c := Extend(b, q, steps, c, Fill(n, done));
      steps := [Fill(n, done)];
    }
    c := Extend(b, q, steps, c, Close(n));
    steps := steps + [Close(n)];
  }

  lemma Reversing(b: Book, q: Request, done: real)
    requires q.reduceOnly && q.quantity >= 0.0 && b.Against(q) >= 0.0 && done == Min(q.quantity, b.Against(q))
    ensures CanTake(b, Order(q))
    ensures var n, sent := |b.orders|, Take(b, Order(q));
            && (done > 0.0 ==> CanTake(sent, Fill(n, done)))
            && var reduced := if done > 0.0 then Take(sent, Fill(n, done)) else sent;
               && CanTake(reduced, Close(n))
               && Take(reduced, Close(n)).orders == b.orders + [Placement(q, done, true)]
               && Take(reduced, Close(n)).Against(q) == b.Against(q) - done
  {
  }

  lemma Extend(b: Book, q: Request, steps: seq<Step>, c: Book, s: Step) returns (d: Book)
    requires Legal(b, [Order(q)] + steps) && c == After(b, [Order(q)] + steps) && CanTake(c, s)
    ensures Legal(b, [Order(q)] + (steps + [s])) && d == After(b, [Order(q)] + (steps + [s])) == Take(c, s)
  {
    hide CanTake, Take;
    OneMoreStep(b, [Order(q)] + steps, s);
    assert [Order(q)] + steps + [s] == [Order(q)] + (steps + [s]);
    d := Take(c, s);
  }

  // ---------------------------------------------------------------------
  // The calls
  // ---------------------------------------------------------------------

  /**
   * The exchange during one Execute call; between any two of its calls it may do whatever is legal. Orders of
   * earlier calls may be live when it starts; only this call orders while it runs.
   */
  class Session {
    var book: Book
    /** Every order request of this call, in order, also the ones answered with an error. */
    var placed: seq<Request>
    ghost const start: Book
    /** Everything that has happened, and of that every reply. */
    ghost var steps: seq<Step>
    ghost var trace: seq<Reply>

    ghost predicate Valid()
      reads this
    {
      && Legal(start, steps) && book == After(start, steps)
      && placed == OrdersIn(steps) && trace == RepliesIn(steps)
      && IsBookOf(book, |start.orders|, placed)
    }

    /** The account may hold anything, and orders of earlier calls may be live. */
    constructor (before: Book)
      ensures Valid() && book == start == before && placed == [] && trace == []
    {
      book, start := before, before;
      placed, steps, trace := [], [], [];
    }

    method Happens(s: Step)
      requires Valid() && CanTake(book, s)
      modifies this
      ensures Valid() && steps == old(steps) + [s] && book == Take(old(book), s)
      ensures placed == old(placed) + (if s.Order? then [s.request] else [])
      ensures trace == old(trace) + if s.Said? then [s.reply] else []
      ensures Later(old(book), book)
    {
      hide CanTake, Legal, After, OrdersIn, RepliesIn;
      OneMoreStep(start, steps, s);
      LaterStep(book, s);
      book := Take(book, s);
      steps := steps + [s];
      if s.Order? {
        placed := placed + [s.request];
      }
      if s.Said? {
        trace := trace + [s.reply];
      }
    }

    /** Live orders execute and orders are closed. */
    method Settle()
      requires Valid()
      modifies this
      ensures Valid() && old(steps) <= steps && placed == old(placed) && trace == old(trace)
      ensures Later(old(book), book)
    {
      var n: int := *;
      while n > 0
        invariant Valid() && old(steps) <= steps && placed == old(placed) && trace == old(trace)
        invariant Later(old(book), book)
      {
        var i: int, x: real, closes: bool := *, *, *;
        if i >= 0 {
          var s := if closes then Close(i) else Fill(i, x);
          if CanTake(book, s) {
            Happens(s);
          }
        }
        n := n - 1;
      }
    }

    method Now() returns (t: int)
      requires Valid()
      modifies this
      ensures Valid() && old(steps) <= steps && placed == old(placed) && Later(old(book), book)
      ensures trace == old(trace) + [Time(t)]
    {
      Settle();
      t := *;
      Happens(Said(Time(t)));
    }

    /** An error reply does not mean that the order was not accepted. */
    method PlaceOrder(req: Request) returns (r: Option<Response>)
      requires Valid()
      modifies this
      ensures Valid() && old(steps) <= steps && placed == old(placed) + [req] && Later(old(book), book)
      ensures trace == old(trace) + [Placed(r)]
      ensures |book.orders| == |old(book.orders)| + 1
      ensures r.Some? ==>
                r.value.orderId == |book.orders| - 1 && Truthful(book.orders[|book.orders| - 1], r.value.status)
    {
      hide Legal, After, OrdersIn, RepliesIn;
      Settle();
      Happens(Order(req));
      Settle();
      r := *;
      if r.Some? {
        r := Some(r.value.(orderId := |book.orders| - 1));
        if !Truthful(book.orders[|book.orders| - 1], r.value.status) {
          r := Some(r.value.(status := New));
        }
      }
      Happens(Said(Placed(r)));
    }

    method GetOrder(orderId: int) returns (r: Option<Response>)
      requires Valid()
      modifies this
      ensures Valid() && old(steps) <= steps && placed == old(placed) && Later(old(book), book)
      ensures trace == old(trace) + [Polled(orderId, r)]
      ensures r.Some? && 0 <= orderId < |book.orders| ==> Truthful(book.orders[orderId], r.value.status)
    {
      Settle();
      r := *;
      if r.Some? && 0 <= orderId < |book.orders| && !Truthful(book.orders[orderId], r.value.status) {
        r := Some(r.value.(status := New));
      }
      Happens(Said(Polled(orderId, r)));
    }

    /** The answer is ignored by the executor; the order may execute all the same. */
    method CancelOrder(orderId: int)
      requires Valid()
      modifies this
      ensures Valid() && old(steps) <= steps && placed == old(placed) && Later(old(book), book)
      ensures trace == old(trace) + [Cancel(orderId)]
    {
      Settle();
      Happens(Said(Cancel(orderId)));
    }

    method GetConstraints(symbol: string) returns (c: Option<Constraints>)
      requires Valid()
      modifies this
      ensures Valid() && old(steps) <= steps && placed == old(placed) && Later(old(book), book)
      ensures trace == old(trace) + [Rules(symbol, c)]
    {
      Settle();
      c := *;
      Happens(Said(Rules(symbol, c)));
    }

    method GetTickerPrice(symbol: string) returns (p: Option<real>)
      requires Valid()
      modifies this
      ensures Valid() && old(steps) <= steps && placed == old(placed) && Later(old(book), book)
      ensures trace == old(trace) + [Price(symbol, p)]
    {
      Settle();
      p := *;
      Happens(Said(Price(symbol, p)));
    }
  }

  /** After the first orders, these were placed. */
  ghost predicate IsBookOf(b: Book, first: nat, placed: seq<Request>) {
    |b.orders| == first + |placed| && forall i :: 0 <= i < |placed| ==> b.orders[first + i].request == placed[i]
  }

  lemma LaterStep(b: Book, s: Step)
    requires CanTake(b, s)
    ensures Later(b, Take(b, s))
    ensures |Take(b, s).orders| == |b.orders| + if s.Order? then 1 else 0
  {
  }
}
