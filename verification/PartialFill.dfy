/** A two-leg run that reports ORDER_FILLED and leaves part of leg 0 open (internal/execution/executor.go). */
module PartialFill {
  import opened RealSeq
  import opened Exchange
  import opened Venue
  import opened Executor
  import opened Hedging

  /** A stretch of steps from a book, with what it contains. */
  datatype Tale = Tale(steps: seq<Step>, book: Book, orders: seq<Request>, replies: seq<Reply>) {
    ghost predicate Ok(b: Book) {
      Legal(b, steps) && book == After(b, steps) && orders == OrdersIn(steps) && replies == RepliesIn(steps)
    }
  }

  lemma Nothing(b: Book) returns (tale: Tale)
    ensures tale == Tale([], b, [], []) && tale.Ok(b)
  {
    tale := Tale([], b, [], []);
  }

  lemma Next(b: Book, tale: Tale, s: Step) returns (next: Tale)
    requires tale.Ok(b) && CanTake(tale.book, s)
    ensures next.Ok(b)
    ensures next == Tale(tale.steps + [s], Take(tale.book, s),
                         if s.Order? then tale.orders + [s.request] else tale.orders,
                         if s.Said? then tale.replies + [s.reply] else tale.replies)
  {
    hide CanTake, Take;
    OneMoreStep(b, tale.steps, s);
    next := Tale(tale.steps + [s], Take(tale.book, s), if s.Order? then tale.orders + [s.request] else tale.orders,
                 if s.Said? then tale.replies + [s.reply] else tale.replies);
  }

  lemma Ordered(b: Book, tale: Tale, q: Request) returns (next: Tale)
    requires tale.Ok(b)
    ensures next.Ok(b) && next.orders == tale.orders + [q] && next.replies == tale.replies
    ensures next.book == tale.book.(orders := tale.book.orders + [Placement(q, 0.0, false)])
  {
    next := Next(b, tale, Order(q));
  }

  lemma Told(b: Book, tale: Tale, reply: Reply) returns (next: Tale)
    requires tale.Ok(b) && CanSay(tale.book, reply)
    ensures next.Ok(b) && next.book == tale.book && next.orders == tale.orders && next.replies == tale.replies + [reply]
  {
    next := Next(b, tale, Said(reply));
  }

  /** Order i executes x more, on a symbol of which this much is held. */
  lemma Executes(b: Book, tale: Tale, i: nat, x: real, p: Placement, held: real) returns (next: Tale)
    requires tale.Ok(b) && i < |tale.book.orders| && tale.book.orders[i] == p && tale.book.Net(p.request.symbol) == held
    requires !p.closed && 0.0 < x <= p.request.quantity - p.executed
    requires p.request.reduceOnly ==> Sells(p.request.side) && x <= held
    ensures next.Ok(b) && next.orders == tale.orders && next.replies == tale.replies
    ensures next.book.orders == tale.book.orders[i := p.(executed := p.executed + x)]
    ensures next.book.Net(p.request.symbol) == if Sells(p.request.side) then held - x else held + x
  {
    hide Tale.Ok, Take, CanTake, Book.Net;
    FillEffect(tale.book, i, x, p, held);
    next := Next(b, tale, Fill(i, x));
  }

  lemma FillEffect(b: Book, i: nat, x: real, p: Placement, held: real)
    requires i < |b.orders| && b.orders[i] == p && b.Net(p.request.symbol) == held
    requires !p.closed && 0.0 < x <= p.request.quantity - p.executed
    requires p.request.reduceOnly ==> Sells(p.request.side) && x <= held
    ensures CanTake(b, Fill(i, x)) && Take(b, Fill(i, x)).orders == b.orders[i := p.(executed := p.executed + x)]
    ensures Take(b, Fill(i, x)).Net(p.request.symbol) == if Sells(p.request.side) then held - x else held + x
  {
  }

  lemma Closes(b: Book, tale: Tale, i: nat, p: Placement) returns (next: Tale)
    requires tale.Ok(b) && i < |tale.book.orders| && tale.book.orders[i] == p && p.executed == p.request.quantity
    ensures next.Ok(b) && next.orders == tale.orders && next.replies == tale.replies
    ensures next.book == tale.book.(orders := tale.book.orders[i := p.(closed := true)])
  {
    next := Next(b, tale, Close(i));
  }

  // ---------------------------------------------------------------------
  // The run
  // ---------------------------------------------------------------------

  const LEG_A := Leg("BUY", "X", 10.0, 0.0)
  const LEG_B := Leg("SELL", "Y", 10.0, 0.0)
  const INTENT := Intent("X", 0.0, 10, [LEG_A, LEG_B])
  const CONFIG := Config(1, 1000)
  const NO_RULES := Constraints(0.0, 0.0, 0.0, 0.0)

  const PARTIAL := Try(Some(Response(0, New, 0.0, 0.0, 0.0)), [Some(Response(0, PartiallyFilled, 4.0, 1.0, 0.0))], None)
  const REFUSED := Try(None, [], None)
  const REVERSED := Try(Some(Response(3, New, 0.0, 0.0, 0.0)), [Some(Response(3, Status.Filled, 4.0, 1.0, 0.0))], None)

  /** Leg 0 is filled for 4 of 10 and not cancelled, leg 1 is refused twice, and a reversal of 4 is reported filled. */
  const FIRST := LegRecord([Time(1), Rules("X", Some(NO_RULES)), Price("X", Some(1.0))],
                           Ready(Terms(NO_RULES, 1.0, 10.0)), [PARTIAL], 2)
  const SECOND := LegRecord([Time(3), Time(4), Rules("Y", Some(NO_RULES)), Price("Y", Some(1.0))],
                            Ready(Terms(NO_RULES, 1.0, 4.0)), [REFUSED, REFUSED], 0)
  const RUN := Run(0, [FIRST, SECOND], [REVERSED])
  const REVERSAL := Reversal(0, "X", "Sell", 4.0)

  lemma RunOk()
    ensures RUN.IsRunOf(CONFIG, INTENT) && RUN.Unwinds() && RUN.Reversed(INTENT) == REVERSAL
  {
    hide Quantity, PriceAt;
    assert PARTIAL.EntryOk(CONFIG, 0);
    assert LadderOk(CONFIG, FIRST.tries);
    assert FIRST.Ok(CONFIG, INTENT, 0, UNFILLED);
    assert FIRST.Result(LEG_A) == LegResult(true, 4.0, 4.0, 1.0, 0.0, "X", true, 2);
    assert LadderOk(CONFIG, SECOND.tries);
    assert SECOND.Ok(CONFIG, INTENT, 1, FIRST.Result(LEG_A));
    assert LegsOk(CONFIG, INTENT, RUN.legs);
    assert REVERSED.UnwindOk() && UnwindOk(RUN.unwind);
  }

  // ---------------------------------------------------------------------
  // What the exchange does
  // ---------------------------------------------------------------------

  /** The three entry orders of the run. */
  function EntryA(): Request { EntryRequest(CONFIG, LEG_A, 0, 0, Terms(NO_RULES, 1.0, 10.0)) }

  function EntryB(attempt: nat): Request
    requires attempt < 2
  {
    EntryRequest(CONFIG, LEG_B, 1, attempt, Terms(NO_RULES, 1.0, 4.0))
  }

  lemma EntriesAre()
    ensures var e := EntryA();
            e.id == Entry(0, 0) && e.quantity == 10.0 && !e.reduceOnly && e.symbol == "X" && e.side == "BUY"
    ensures EntryB(0).id == Entry(1, 0) && EntryB(1).id == Entry(1, 1)
  {
    hide PriceAt;
  }

  /** During leg 0. */
  lemma DuringFirst() returns (tale: Tale)
    ensures tale.Ok(Book([], map[])) && tale.orders == [EntryA()]
    ensures tale.book.orders == [Placement(EntryA(), 4.0, false)] && tale.book.Net("X") == 4.0
    ensures tale.replies == [Time(0)] + FIRST.readings + [Placed(PARTIAL.answer), Polled(0, PARTIAL.polls[0]), Time(2)]
  {
    hide Tale.Ok, EntryA, EntryB;
    EntriesAre();
    var b := Book([], map[]);
    tale := Nothing(b);
    tale := Told(b, tale, Time(0));
    tale := Told(b, tale, FIRST.readings[0]);
    tale := Told(b, tale, FIRST.readings[1]);
    tale := Told(b, tale, FIRST.readings[2]);
    tale := Ordered(b, tale, EntryA());
    tale := Told(b, tale, Placed(PARTIAL.answer));
    tale := Executes(b, tale, 0, 4.0, Placement(EntryA(), 0.0, false), 0.0);
    tale := Told(b, tale, Polled(0, PARTIAL.polls[0]));
    tale := Told(b, tale, Time(2));
  }

  /** And during leg 1, up to the unwind. */
  lemma DuringSecond() returns (tale: Tale)
    ensures tale.Ok(Book([], map[])) && tale.orders == [EntryA(), EntryB(0), EntryB(1)]
    ensures tale.book.orders ==
              [Placement(EntryA(), 4.0, false), Placement(EntryB(0), 0.0, false), Placement(EntryB(1), 0.0, false)]
    ensures tale.book.Net("X") == 4.0
    ensures tale.replies == [Time(0)] + FIRST.readings + [Placed(PARTIAL.answer), Polled(0, PARTIAL.polls[0]), Time(2)]
                            + SECOND.readings + [Placed(None), Placed(None)]
  {
    hide Tale.Ok, EntryA, EntryB;
    var b := Book([], map[]);
    tale := DuringFirst();
    tale := Told(b, tale, SECOND.readings[0]);
    tale := Told(b, tale, SECOND.readings[1]);
    tale := Told(b, tale, SECOND.readings[2]);
    tale := Told(b, tale, SECOND.readings[3]);
    tale := Ordered(b, tale, EntryB(0));
    tale := Told(b, tale, Placed(None));
    tale := Ordered(b, tale, EntryB(1));
    tale := Told(b, tale, Placed(None));
  }

  /** During the unwind the rest of the entry order executes before the reversal is reported filled. */
  lemma DuringUnwind(b: Book) returns (tale: Tale)
    requires |b.orders| == 3 && b.orders[0] == Placement(EntryA(), 4.0, false) && b.Net("X") == 4.0
    ensures tale.Ok(b) && tale.orders == [UnwindRequest(REVERSAL, 0)]
    ensures tale.replies == [Placed(REVERSED.answer), Polled(3, REVERSED.polls[0])]
    ensures |tale.book.orders| == 4 && tale.book.orders[3] == Placement(UnwindRequest(REVERSAL, 0), 4.0, true)
    ensures tale.book.Net("X") == 6.0
  {
    hide Tale.Ok, EntryA;
    EntriesAre();
    var q := UnwindRequest(REVERSAL, 0);
    tale := Nothing(b);
    tale := Ordered(b, tale, q);
    tale := Told(b, tale, Placed(REVERSED.answer));
    tale := Executes(b, tale, 3, 4.0, Placement(q, 0.0, false), 4.0);
    tale := Closes(b, tale, 3, Placement(q, 4.0, false));
    tale := Executes(b, tale, 0, 6.0, Placement(EntryA(), 4.0, false), 0.0);
    tale := Told(b, tale, Polled(3, REVERSED.polls[0]));
  }

  lemma TwoLegs(a: LegRecord, b: LegRecord)
    ensures OrdersOf(CONFIG, INTENT, [a, b]) == a.Orders(CONFIG, LEG_A, 0) + b.Orders(CONFIG, LEG_B, 1)
    ensures RepliesOf([a, b]) == a.Replies() + b.Replies()
  {
    hide LegRecord.Orders, LegRecord.Replies;
    assert [a, b][..1] == [a] && [a][..0] == [];
    assert OrdersOf(CONFIG, INTENT, [a]) == a.Orders(CONFIG, LEG_A, 0) && RepliesOf([a]) == a.Replies();
  }

  lemma TwoTries(x: Try, y: Try)
    ensures RepliesTo([x]) == x.Replies() && RepliesTo([x, y]) == x.Replies() + y.Replies()
  {
    hide Try.Replies;
    assert [x, y][..1] == [x] && [x][..0] == [];
  }

  lemma OrdersAre()
    ensures OrdersOf(CONFIG, INTENT, RUN.legs) == [EntryA(), EntryB(0), EntryB(1)]
  {
    hide EntryRequest, OrdersOf;
    TwoLegs(FIRST, SECOND);
    assert FIRST.Orders(CONFIG, LEG_A, 0) == [EntryA()];
    assert SECOND.Orders(CONFIG, LEG_B, 1) == [EntryB(0), EntryB(1)];
  }

  lemma RepliesAre()
    ensures RepliesOf(RUN.legs) == FIRST.readings + [Placed(PARTIAL.answer), Polled(0, PARTIAL.polls[0]), Time(2)]
                                   + SECOND.readings + [Placed(None), Placed(None)]
    ensures RepliesTo(RUN.unwind) == [Placed(REVERSED.answer), Polled(3, REVERSED.polls[0])]
  {
    hide RepliesOf, RepliesTo;
    TwoLegs(FIRST, SECOND);
    TwoTries(PARTIAL, PARTIAL);
    TwoTries(REFUSED, REFUSED);
    TwoTries(REVERSED, REVERSED);
    assert PARTIAL.Replies() == [Placed(PARTIAL.answer), Polled(0, PARTIAL.polls[0])];
    assert REVERSED.Replies() == [Placed(REVERSED.answer), Polled(3, REVERSED.polls[0])];
    assert REFUSED.Replies() == [Placed(None)];
    assert FIRST.Replies() == FIRST.readings + [Placed(PARTIAL.answer), Polled(0, PARTIAL.polls[0]), Time(2)];
    assert SECOND.Replies() == SECOND.readings + [Placed(None), Placed(None)];
  }

  lemma Unwinding(b: Book, tale: Tale)
    requires |b.orders| == 3 && tale.Ok(b) && tale.orders == [UnwindRequest(REVERSAL, 0)]
    requires tale.replies == [Placed(REVERSED.answer), Polled(3, REVERSED.polls[0])]
    requires |tale.book.orders| == 4 && tale.book.orders[3] == Placement(UnwindRequest(REVERSAL, 0), 4.0, true)
    ensures IsUnwinding(b, tale.steps, REVERSAL, RUN.unwind, tale.book)
  {
    hide Legal, After, OrdersIn, RepliesIn, RepliesTo, RepliesOf;
    RepliesAre();
    assert UnwindOrders(REVERSAL, 1) == [UnwindRequest(REVERSAL, 0)];
  }

  lemma NoneEnded(b: Book)
    requires b.orders ==
               [Placement(EntryA(), 4.0, false), Placement(EntryB(0), 0.0, false), Placement(EntryB(1), 0.0, false)]
    ensures Reported(RUN.legs, b, 0)
  {
    hide EntryA, EntryB;
    EntriesAre();
  }

  /**
   * A two-leg run that ends with ORDER_FILLED and leaves 6 open, although exactly the filled quantity was open
   * when its unwind began: the accepted partial fill is not cancelled and goes on executing.
   */
  lemma PartialFillCounterexample()
    returns (cfg: Config, intent: Intent, run: Run, before: seq<Step>, happened: seq<Step>, b: Book, c: Book)
    ensures |intent.legs| == 2 && run.IsRunOf(cfg, intent) && run.Unwinds()
    ensures Legal(Book([], map[]), before) && b == After(Book([], map[]), before)
    ensures OrdersIn(before) == OrdersOf(cfg, intent, run.legs)
    ensures RepliesIn(before) == [Time(run.start)] + RepliesOf(run.legs)
    ensures Starts(cfg, intent, run, Book([], map[]), b)
    ensures IsUnwinding(b, happened, run.Reversed(intent), run.unwind, c)
    ensures run.Events(cfg, intent) != [] && run.Events(cfg, intent)[|run.Events(cfg, intent)| - 1].kind == OrderFilled
    ensures Open(b, run.Reversed(intent)) == run.Reversed(intent).quantity == 4.0
    ensures Open(c, run.Reversed(intent)) == 6.0
  {
    hide Legal, After, OrdersIn, RepliesIn, OrdersOf, RepliesOf, RepliesTo, EventsOf, Run.IsRunOf, Reported,
         IsUnwinding, Run.Unwinds,
         Run.Reversed, EntryA, EntryB, UnwindOrders;
    cfg, intent, run := CONFIG, INTENT, RUN;
    RunOk();
    var told := DuringSecond();
    before, b := told.steps, told.book;
    OrdersAre();
    RepliesAre();
    NoneEnded(b);
    var tale := DuringUnwind(b);
    happened, c := tale.steps, tale.book;
    Unwinding(b, tale);
  }
}
