/** What every run of the executor guarantees about unhedged legs, orders, events, sizes and prices. */
module Hedging {
  import opened RealSeq
  import opened Exchange
  import opened Venue
  import opened Executor

  // ---------------------------------------------------------------------
  // Unhedged legs
  // ---------------------------------------------------------------------

  predicate Filled(run: Run, j: nat) { j < |run.legs| && run.legs[j].IsFilled() }

  /** How many legs were filled: always a prefix. */
  function Done(run: Run): nat {
    if run.legs == [] then 0 else if run.legs[|run.legs| - 1].IsFilled() then |run.legs| else |run.legs| - 1
  }

  lemma FilledPrefix(cfg: Config, intent: Intent, run: Run, j: nat)
    requires run.IsRunOf(cfg, intent)
    ensures Done(run) <= |intent.legs| && (Filled(run, j) <==> j < Done(run))
    ensures run.Unwinds() <==> 0 < Done(run) < |intent.legs|
    ensures run.Unwinds() ==> run.Reversed(intent).leg == Done(run) - 1
  {
    hide LegRecord.Ok, LegRecord.IsFilled;
  }

  /** A leg that was ordered is filled exactly when some order of it was last reported as a fill, even a partial one. */
  lemma FilledExactly(cfg: Config, intent: Intent, run: Run, j: nat)
    requires run.IsRunOf(cfg, intent) && j < |run.legs| && run.legs[j].preparation.Ready?
    ensures Filled(run, j) <==> exists k :: 0 <= k < |run.legs[j].tries| && IsFillOf(run.legs[j].tries[k])
    ensures Filled(run, j) ==>
              var r := ResultAt(intent, run.legs, j); r.partial ==> r.filledQty > 0.0
  {
    hide LadderOk, Prepared, IsFillOf, FilledBy;
    assert run.legs[j].Ok(cfg, intent, j, Previous(intent, run.legs, j));
    LadderFilledExactly(cfg, run.legs[j].tries);
  }

  lemma LadderFilledExactly(cfg: Config, tries: seq<Try>)
    requires LadderOk(cfg, tries)
    ensures FilledBy(tries).Some? <==> exists k :: 0 <= k < |tries| && IsFillOf(tries[k])
    ensures FilledBy(tries).Some? ==> IsFill(FilledBy(tries).value)
  {
    hide Try.EntryOk, Try.Final;
    forall k | 0 <= k < |tries| ensures tries[k].Succeeded() <==> IsFillOf(tries[k]) {
    }
  }

  predicate IsFillOf(y: Try) { y.Final().Some? && IsFill(y.Final().value) }

  predicate IsFill(r: Response) {
    match r.status
    case Filled => true
    case PartiallyFilled => r.filledQty > 0.0
    case _ => false
  }

  /** No leg after the first was filled in part; a partly filled first leg is what the next one is sized to. */
  predicate NoPartHedge(intent: Intent, run: Run) {
    forall k :: 1 <= k < |run.legs| && k < |intent.legs| ==> !ResultAt(intent, run.legs, k).partial
  }

  /** Every leg was filled, and every leg after the first completely. */
  predicate Complete(intent: Intent, run: Run) { Done(run) == |intent.legs| && NoPartHedge(intent, run) }

  /** Nothing has to be done about a filled leg, or its reversal was at least attempted. */
  ghost predicate Attended(cfg: Config, intent: Intent, run: Run, j: nat)
    requires run.IsRunOf(cfg, intent)
  {
    Complete(intent, run) || (run.Unwinds() && run.Reversed(intent).leg == j)
  }

  /**
   * Going by the fills reported, a filled leg is hedged: all legs are filled completely, or its reversal was
   * reported filled. What an order that is still live executes later is another matter (UnwindBounds).
   */
  ghost predicate Hedged(cfg: Config, intent: Intent, run: Run, j: nat)
    requires run.IsRunOf(cfg, intent)
  {
    || Complete(intent, run)
    || (run.Unwinds() && run.Reversed(intent).leg == j && run.unwind[|run.unwind| - 1].Closed())
  }

  ghost predicate AllAttended(cfg: Config, intent: Intent, run: Run) {
    run.IsRunOf(cfg, intent) ==> forall j: nat :: Filled(run, j) ==> Attended(cfg, intent, run, j)
  }

  ghost predicate AllHedged(cfg: Config, intent: Intent, run: Run) {
    run.IsRunOf(cfg, intent) ==> forall j: nat :: Filled(run, j) ==> Hedged(cfg, intent, run, j)
  }

  /**
   * In one run every filled leg is attended to exactly when none or just the first was filled, or every leg
   * was and no hedge only in part.
   */
  lemma AttendedByCount(cfg: Config, intent: Intent, run: Run)
    requires run.IsRunOf(cfg, intent)
    ensures AllAttended(cfg, intent, run) <==> Done(run) <= 1 || Complete(intent, run)
  {
    hide LegRecord.Ok, LegRecord.IsFilled, LegRecord.Result, Done, Filled;
    FilledPrefix(cfg, intent, run, 0);
    if Done(run) <= 1 || Complete(intent, run) {
      forall j: nat | Filled(run, j) ensures Attended(cfg, intent, run, j) {
        FilledPrefix(cfg, intent, run, j);
        if !run.Unwinds() && !Complete(intent, run) {
          OnlyLeg(cfg, intent, run);
        }
      }
    } else {
      assert Filled(run, 0) && !Attended(cfg, intent, run, 0);
    }
  }

  /** A single leg has no hedge. */
  lemma OnlyLeg(cfg: Config, intent: Intent, run: Run)
    requires run.IsRunOf(cfg, intent) && |intent.legs| == 1 && Done(run) == 1
    ensures Complete(intent, run)
  {
  }

  /** Every run attends to every filled leg if and only if the intent has at most one leg, or none is ever ordered. */
  lemma AttendedExactly(cfg: Config, intent: Intent)
    ensures (forall run :: AllAttended(cfg, intent, run)) <==> |intent.legs| <= 1 || cfg.maxRetries < 0
  {
    hide Run.IsRunOf, Done, AllAttended, NoPartHedge;
    forall run: Run | |intent.legs| <= 1 || cfg.maxRetries < 0 ensures AllAttended(cfg, intent, run) {
      AttendedIfFew(cfg, intent, run);
    }
    if |intent.legs| > 1 && cfg.maxRetries >= 0 {
      var run := FilledInPart(cfg, intent, 1.0);
      AttendedByCount(cfg, intent, run);
    }
  }

  /**
   * Partial fills of a hedge apart, every run attends to every filled leg if and only if the intent has at most
   * two legs, or none is ever ordered.
   */
  lemma AttendedIfWholeExactly(cfg: Config, intent: Intent)
    ensures (forall run :: NoPartHedge(intent, run) ==> AllAttended(cfg, intent, run))
       <==> |intent.legs| <= 2 || cfg.maxRetries < 0
  {
    hide Run.IsRunOf, Done, AllAttended, NoPartHedge;
    forall run: Run | NoPartHedge(intent, run) && (|intent.legs| <= 2 || cfg.maxRetries < 0)
      ensures AllAttended(cfg, intent, run)
    {
      AttendedIfFew(cfg, intent, run);
    }
    if |intent.legs| > 2 && cfg.maxRetries >= 0 {
      var run := StoppedAfter(cfg, intent, 2);
      AttendedByCount(cfg, intent, run);
    }
  }

  lemma AttendedIfFew(cfg: Config, intent: Intent, run: Run)
    requires |intent.legs| <= 1 || (|intent.legs| <= 2 && NoPartHedge(intent, run)) || cfg.maxRetries < 0
    ensures AllAttended(cfg, intent, run)
  {
    if run.IsRunOf(cfg, intent) {
      hide LegRecord.Ok, LegRecord.IsFilled, AllAttended, NoPartHedge;
      AttendedByCount(cfg, intent, run);
      if cfg.maxRetries < 0 {
        NothingFilled(cfg, intent, run);
      }
    }
  }

  lemma NothingFilled(cfg: Config, intent: Intent, run: Run)
    requires run.IsRunOf(cfg, intent) && cfg.maxRetries < 0
    ensures Done(run) == 0
  {
    hide Prepared, Run.Unwinds, UnwindOk;
    forall j | 0 <= j < |run.legs| ensures !run.legs[j].IsFilled() {
      assert run.legs[j].Ok(cfg, intent, j, Previous(intent, run.legs, j));
    }
  }

  /**
   * No attempt is sure to succeed: every run leaves every filled leg hedged if and only if the intent has at
   * most one leg, or none is ever ordered.
   */
  lemma HedgedExactly(cfg: Config, intent: Intent)
    ensures (forall run :: AllHedged(cfg, intent, run)) <==> |intent.legs| <= 1 || cfg.maxRetries < 0
  {
    hide Run.IsRunOf, Done, AllHedged;
    forall run: Run | |intent.legs| <= 1 || cfg.maxRetries < 0 ensures AllHedged(cfg, intent, run) {
      HedgedIfFew(cfg, intent, run);
    }
    if |intent.legs| > 1 && cfg.maxRetries >= 0 {
      var run := StoppedAfter(cfg, intent, 1);
      FirstIsOpen(cfg, intent, run);
    }
  }

  lemma HedgedIfFew(cfg: Config, intent: Intent, run: Run)
    requires |intent.legs| <= 1 || cfg.maxRetries < 0
    ensures AllHedged(cfg, intent, run)
  {
    if run.IsRunOf(cfg, intent) {
      hide LegRecord.Ok, LegRecord.IsFilled;
      forall j: nat | Filled(run, j) ensures Hedged(cfg, intent, run, j) {
        FilledPrefix(cfg, intent, run, j);
        if cfg.maxRetries < 0 {
          NothingFilled(cfg, intent, run);
        } else {
          OnlyLeg(cfg, intent, run);
        }
      }
    }
  }

  lemma FirstIsOpen(cfg: Config, intent: Intent, run: Run)
    requires run.IsRunOf(cfg, intent) && |intent.legs| > 1 && Done(run) == 1 && run.unwind == RefusedFour()
    ensures !AllHedged(cfg, intent, run)
  {
    hide LegRecord.Ok, LegRecord.IsFilled;
    FilledPrefix(cfg, intent, run, 0);
    assert Filled(run, 0) && !Hedged(cfg, intent, run, 0);
  }

  /**
   * With at most two legs, every filled leg of a run is hedged exactly when the run reports no HEDGE_FAILED, and
   * no ORDER_PARTIAL for the second leg. The first of these alone does not say so.
   */
  lemma HedgedUnlessReported(cfg: Config, intent: Intent, run: Run)
    requires run.IsRunOf(cfg, intent) && |intent.legs| <= 2
    ensures AllHedged(cfg, intent, run) <==>
              && (forall j: nat :: Count(run.Events(cfg, intent), HedgeFailed, j) == 0)
              && Count(run.Events(cfg, intent), OrderPartial, 1) == 0
  {
    hide LegRecord.Ok, LegRecord.IsFilled, Count, Try.Closed, Run.Events, LegRecord.Result;
    forall j: nat
      ensures Count(run.Events(cfg, intent), HedgeFailed, j) ==
                (if run.Unwinds() && j == Done(run) - 1 && !run.unwind[|run.unwind| - 1].Closed() then 1 else 0)
      ensures Done(run) <= |intent.legs| && (Filled(run, j) <==> j < Done(run))
    {
      EventsAccountedFor(cfg, intent, run, j);
      FilledPrefix(cfg, intent, run, j);
    }
    FilledPrefix(cfg, intent, run, 0);
    PartialSecond(cfg, intent, run);
    if Done(run) <= 1 {
      NoSecond(cfg, intent, run);
    }
    hide NoPartHedge, Done;
    if run.Unwinds() {
      assert Filled(run, 0) && Done(run) == 1;
      assert Count(run.Events(cfg, intent), HedgeFailed, 0) == if run.unwind[|run.unwind| - 1].Closed() then 0 else 1;
    } else if Done(run) > 0 {
      assert Filled(run, 0);
    }
  }

  /** Nothing is filled in part that is not filled. */
  lemma NoSecond(cfg: Config, intent: Intent, run: Run)
    requires run.IsRunOf(cfg, intent) && Done(run) <= 1
    ensures NoPartHedge(intent, run)
  {
    hide LegRecord.Ok, LegRecord.IsFilled, LegRecord.Result, Done;
    forall k | 1 <= k < |run.legs| && k < |intent.legs| ensures !ResultAt(intent, run.legs, k).partial {
      FilledPrefix(cfg, intent, run, k);
      PartialIsFilled(intent.legs[k], run.legs[k]);
    }
  }

  lemma PartialSecond(cfg: Config, intent: Intent, run: Run)
    requires run.IsRunOf(cfg, intent) && |intent.legs| <= 2
    ensures Count(run.Events(cfg, intent), OrderPartial, 1) == 0 <==> NoPartHedge(intent, run)
  {
    hide LegRecord.Ok, LegRecord.IsFilled, Count, Run.Events, LegRecord.Result;
    EventsAccountedFor(cfg, intent, run, 1);
    FilledPrefix(cfg, intent, run, 1);
    if |run.legs| == 2 {
      PartialIsFilled(intent.legs[1], run.legs[1]);
    }
  }

  lemma PartialIsFilled(leg: Leg, rec: LegRecord)
    ensures rec.Result(leg).partial ==> rec.IsFilled()
  {
  }

  /**
   * The minimum partial fill of the configuration is never read: whatever it is, a hedge that was filled for any
   * positive quantity, however small, ends a run in which every leg counts as filled and no HEDGE_FAILED is
   * reported, and leaves the rest of the first leg unhedged.
   */
  lemma PartHedgeCounterexample(cfg: Config, intent: Intent, quantity: real) returns (run: Run)
    requires cfg.maxRetries >= 0 && |intent.legs| == 2 && quantity > 0.0
    ensures run.IsRunOf(cfg, intent) && Filled(run, 0) && Filled(run, 1)
    ensures ResultAt(intent, run.legs, 0).filledQty == 10.0 && ResultAt(intent, run.legs, 1).filledQty == quantity
    ensures forall j: nat :: Count(run.Events(cfg, intent), HedgeFailed, j) == 0
    ensures !AllHedged(cfg, intent, run) && !AllAttended(cfg, intent, run)
  {
    hide LegRecord.Ok, LegRecord.IsFilled, Count, Run.Events, LegRecord.Result;
    run := FilledInPart(cfg, intent, quantity);
    FilledPrefix(cfg, intent, run, 0);
    FilledPrefix(cfg, intent, run, 1);
    forall j: nat ensures Count(run.Events(cfg, intent), HedgeFailed, j) == 0 {
      EventsAccountedFor(cfg, intent, run, j);
    }
    assert !Hedged(cfg, intent, run, 0) && !Attended(cfg, intent, run, 0);
  }

  // ---------------------------------------------------------------------
  // Runs that stop
  // ---------------------------------------------------------------------

  function RefusedFour(): seq<Try> {
    var refused := Try(None, [], None);
    [refused, refused, refused, refused]
  }

  /** A record in which leg i passes every check and its first order is filled at once. */
  function FilledRecord(cfg: Config, intent: Intent, i: nat, prev: LegResult): LegRecord
    requires i < |intent.legs|
  {
    var c, symbol := Constraints(0.0, 0.0, 0.0, 0.0), intent.legs[i].symbol;
    var order := Response(i, Status.Filled, 10.0, 1.0, 0.0);
    var later := if i > 0 && prev.filled then [Time(prev.fillTsMs + cfg.hedgeDriftMaxMs)] else [];
    LegRecord([Time(intent.expiresMs)] + later + [Rules(symbol, Some(c)), Price(symbol, Some(1.0))],
              Ready(Terms(c, 1.0, TargetNotional(intent, i, prev))), [Try(Some(order), [Some(order)], None)], 0)
  }

  lemma FilledRecordOk(cfg: Config, intent: Intent, i: nat, prev: LegResult)
    requires i < |intent.legs| && cfg.maxRetries >= 0
    ensures var rec := FilledRecord(cfg, intent, i, prev); rec.Ok(cfg, intent, i, prev) && rec.IsFilled()
    ensures var r := FilledRecord(cfg, intent, i, prev).Result(intent.legs[i]); !r.partial && r.filledQty == 10.0
  {
    hide Quantity, TargetNotional;
    assert LadderOk(cfg, FilledRecord(cfg, intent, i, prev).tries);
  }

  lemma {:induction false} FilledLegs(cfg: Config, intent: Intent, k: nat) returns (legs: seq<LegRecord>)
    requires k <= |intent.legs| && cfg.maxRetries >= 0
    ensures |legs| == k && LegsOk(cfg, intent, legs) && forall j :: 0 <= j < k ==> legs[j].IsFilled()
    ensures forall j :: 0 <= j < k ==>
              var r := legs[j].Result(intent.legs[j]); !r.partial && r.filledQty == 10.0
  {
    hide LegRecord.Ok, LegRecord.IsFilled, FilledRecord, LegRecord.Result;
    legs := [];
    if k > 0 {
      legs := FilledLegs(cfg, intent, k - 1);
      var rec := FilledRecord(cfg, intent, k - 1, Previous(intent, legs, k - 1));
      FilledRecordOk(cfg, intent, k - 1, Previous(intent, legs, k - 1));
      NextLegsOk(cfg, intent, legs, rec);
      legs := legs + [rec];
    }
  }

  /** A run that fills k legs, then finds the intent expired, and whose reversal is refused four times. */
  lemma StoppedAfter(cfg: Config, intent: Intent, k: nat) returns (run: Run)
    requires 0 < k < |intent.legs| && cfg.maxRetries >= 0
    ensures run.IsRunOf(cfg, intent) && Done(run) == k && run.unwind == RefusedFour() && NoPartHedge(intent, run)
  {
    hide LegRecord.Ok;
    var legs := FilledLegs(cfg, intent, k);
    var last := LegRecord([Time(intent.expiresMs + 1)], Overdue, [], 0);
    assert last.Ok(cfg, intent, k, Previous(intent, legs, k)) by {
      Expired(cfg, intent, k, Previous(intent, legs, k));
    }
    NextLegsOk(cfg, intent, legs, last);
    run := Run(intent.expiresMs, legs + [last], RefusedFour());
    assert UnwindOk(run.unwind);
  }

  lemma Expired(cfg: Config, intent: Intent, i: nat, prev: LegResult)
    requires i < |intent.legs|
    ensures LegRecord([Time(intent.expiresMs + 1)], Overdue, [], 0).Ok(cfg, intent, i, prev)
  {
  }

  /** The same record, but its order is filled in part. */
  function PartRecord(cfg: Config, intent: Intent, i: nat, prev: LegResult, quantity: real): LegRecord
    requires i < |intent.legs|
  {
    var order := Response(i, PartiallyFilled, quantity, 1.0, 0.0);
    FilledRecord(cfg, intent, i, prev).(tries := [Try(Some(order), [Some(order)], None)])
  }

  lemma PartRecordOk(cfg: Config, intent: Intent, i: nat, prev: LegResult, quantity: real)
    requires i < |intent.legs| && cfg.maxRetries >= 0 && quantity > 0.0
    ensures var rec := PartRecord(cfg, intent, i, prev, quantity); rec.Ok(cfg, intent, i, prev) && rec.IsFilled()
    ensures var r := PartRecord(cfg, intent, i, prev, quantity).Result(intent.legs[i]);
            r.partial && r.filledQty == quantity
  {
    hide Quantity, TargetNotional;
    assert LadderOk(cfg, PartRecord(cfg, intent, i, prev, quantity).tries);
  }

  /** A run that fills every leg, the last one in part. */
  lemma FilledInPart(cfg: Config, intent: Intent, quantity: real) returns (run: Run)
    requires |intent.legs| > 1 && cfg.maxRetries >= 0 && quantity > 0.0
    ensures run.IsRunOf(cfg, intent) && Done(run) == |intent.legs| && !NoPartHedge(intent, run)
    ensures ResultAt(intent, run.legs, 0).filledQty == 10.0
    ensures ResultAt(intent, run.legs, |intent.legs| - 1).filledQty == quantity
  {
    hide LegRecord.Ok, LegRecord.IsFilled, LegRecord.Result, PartRecord;
    var k := |intent.legs| - 1;
    var legs := FilledLegs(cfg, intent, k);
    var last := PartRecord(cfg, intent, k, Previous(intent, legs, k), quantity);
    PartRecordOk(cfg, intent, k, Previous(intent, legs, k), quantity);
    NextLegsOk(cfg, intent, legs, last);
    run := Run(intent.expiresMs, legs + [last], []);
    assert ResultAt(intent, run.legs, k).partial;
  }

  /**
   * A two-leg run: neither leg filled; both, and nothing is reversed even if the second is filled only in part;
   * or the first alone, and a reversal of all of it in the opposite direction is at least attempted.
   */
  lemma TwoLegsHedged(cfg: Config, intent: Intent, run: Run)
    requires run.IsRunOf(cfg, intent) && |intent.legs| == 2
    ensures Filled(run, 1) ==> Filled(run, 0)
    ensures run.Unwinds() <==> Filled(run, 0) && !Filled(run, 1)
    ensures run.Unwinds() ==>
              var first := ResultAt(intent, run.legs, 0);
              var side := if intent.legs[0].action == "SELL" then "Buy" else "Sell";
              run.Reversed(intent) == Reversal(0, first.symbol, side, first.filledQty)
    ensures AllAttended(cfg, intent, run) <==> !(Filled(run, 1) && ResultAt(intent, run.legs, 1).partial)
  {
    hide LegRecord.Ok, LegRecord.IsFilled, LegRecord.Result, AllAttended;
    FilledPrefix(cfg, intent, run, 0);
    FilledPrefix(cfg, intent, run, 1);
    AttendedByCount(cfg, intent, run);
  }

  // ---------------------------------------------------------------------
  // What an unwind leaves open
  // ---------------------------------------------------------------------

  /** What is open of the leg that is reversed. */
  function Open(b: Book, r: Reversal): real { b.Size(r.symbol, !Sells(r.side)) }

  /** What orders in the leg's own direction executed during the unwind. */
  ghost function Entered(b: Book, happened: seq<Step>, r: Reversal): real
    requires Legal(b, happened)
  {
    Added(b, happened, r.symbol, !Sells(r.side))
  }

  /**
   * Whatever the exchange does: at every moment of an unwind the leg's position lies between nothing and what was
   * open, but for live entry orders of its symbol; and if the unwind ends filled, what is left is at most what
   * those executed and what was open beyond the quantity reversed.
   */
  lemma UnwindBounds(b: Book, happened: seq<Step>, r: Reversal, tries: seq<Try>, c: Book, n: nat)
    requires IsUnwinding(b, happened, r, tries, c) && n <= |happened|
    ensures Legal(b, happened[..n])
    ensures var open := Open(After(b, happened[..n]), r);
            && Min(0.0, Open(b, r)) - Opposed(b, happened[..n], r.symbol, !Sells(r.side)) <= open
            && open <= Open(b, r) + Entered(b, happened[..n], r)
    ensures tries[|tries| - 1].Closed() ==> Open(c, r) <= Entered(b, happened, r) + Max(0.0, Open(b, r) - r.quantity)
  {
    hide CanTake, Take, OrdersIn, RepliesIn, RepliesTo, Try.Closed, UnwindOrders, Book.Size;
    assert happened[..n] + happened[n..] == happened;
    LegalPrefix(b, happened[..n], happened[n..]);
    SizeBounds(b, happened[..n], r.symbol, !Sells(r.side));
    ReducingOrder(b, happened, |c.orders| - 1);
  }

  /** Every order of this call's legs that trade the symbol in this direction was last reported at an end. */
  ghost predicate EntriesEnded(intent: Intent, legs: seq<LegRecord>, symbol: string, short: bool)
    requires |legs| <= |intent.legs|
  {
    forall j :: 0 <= j < |legs| && intent.legs[j].symbol == symbol && Sells(intent.legs[j].action) == short ==>
      forall a :: 0 <= a < |legs[j].tries| ==> legs[j].tries[a].Ended()
  }

  lemma EndedMeansQuiet(cfg: Config, intent: Intent, run: Run, start: Book, b: Book, symbol: string, short: bool)
    requires Starts(cfg, intent, run, start, b)
    requires Quiet(start, symbol, short) && EntriesEnded(intent, run.legs, symbol, short)
    ensures Quiet(b, symbol, short)
    ensures forall i :: |start.orders| <= i < |b.orders| ==> !b.orders[i].request.reduceOnly
  {
    hide OrdersOf, Try.Ended, Quantity, LadderPrice, Sells;
    EntriesAreRungs(cfg, intent, run.legs);
    var first := |start.orders|;
    forall i | first <= i < |b.orders|
      ensures !b.orders[i].request.reduceOnly
      ensures InDirection(b.orders[i].request, symbol, short) ==> b.orders[i].closed
    {
      var q := OrdersOf(cfg, intent, run.legs)[i - first];
      assert IsRung(cfg, intent, run.legs, q) && b.orders[i].request == q;
    }
    forall i | 0 <= i < first && InDirection(b.orders[i].request, symbol, short)
      ensures b.orders[i].closed || b.orders[i].executed >= b.orders[i].request.quantity
    {
      assert InDirection(start.orders[i].request, symbol, short);
    }
  }

  lemma {:induction false} ReversalsOnly(happened: seq<Step>, r: Reversal, n: nat)
    requires OrdersIn(happened) == UnwindOrders(r, n)
    ensures NoneIn(happened, r.symbol, !Sells(r.side))
  {
    forall k | 0 <= k < |happened| && happened[k].Order?
      ensures !InDirection(happened[k].request, r.symbol, !Sells(r.side))
    {
      var i := OrderListed(happened, k);
      assert UnwindOrders(r, n)[i] == UnwindRequest(r, i);
    }
  }

  lemma {:induction false} OrderListed(steps: seq<Step>, k: nat) returns (i: nat)
    requires k < |steps| && steps[k].Order?
    ensures i < |OrdersIn(steps)| && OrdersIn(steps)[i] == steps[k].request
    decreases |steps|
  {
    var n := |steps| - 1;
    if k < n {
      i := OrderListed(steps[..n], k);
    } else {
      i := |OrdersIn(steps[..n])|;
    }
  }

  /**
   * If no order of an earlier call in the direction of the reversed leg was live, every entry order of this call
   * was last reported at an end, and no more was open than the filled quantity, then an unwind that ends filled
   * leaves nothing open.
   */
  lemma EndedUnwindIsFlat(cfg: Config, intent: Intent, run: Run, start: Book, b: Book, happened: seq<Step>, c: Book)
    requires run.IsRunOf(cfg, intent) && run.Unwinds()
    requires Starts(cfg, intent, run, start, b)
    requires Quiet(start, run.Reversed(intent).symbol, !Sells(run.Reversed(intent).side))
    requires IsUnwinding(b, happened, run.Reversed(intent), run.unwind, c)
    requires EntriesEnded(intent, run.legs, run.Reversed(intent).symbol, !Sells(run.Reversed(intent).side))
    requires Open(b, run.Reversed(intent)) <= run.Reversed(intent).quantity
    ensures run.Events(cfg, intent)[|run.Events(cfg, intent)| - 1].kind == OrderFilled ==>
              Open(c, run.Reversed(intent)) <= 0.0
  {
    hide LegRecord.Ok, LegRecord.IsFilled, LegRecord.Result, OrdersOf, EventsOf, Quiet, EntriesEnded, Open, CanTake,
         Take,
         NoneIn, Sells;
    var r := run.Reversed(intent);
    EndedMeansQuiet(cfg, intent, run, start, b, r.symbol, !Sells(r.side));
    ReversalsOnly(happened, r, |run.unwind|);
    QuietAddsNothing(b, happened, r.symbol, !Sells(r.side));
    UnwindBounds(b, happened, r, run.unwind, c, |happened|);
  }

  // ---------------------------------------------------------------------
  // Orders
  // ---------------------------------------------------------------------

  /** q is an order of a leg that was started, on the terms the leg was prepared with. */
  ghost predicate IsRung(cfg: Config, intent: Intent, legs: seq<LegRecord>, q: Request)
    requires |legs| <= |intent.legs|
  {
    && q.id.Entry? && q.id.leg < |legs| && !q.reduceOnly
    && q.kind == (if q.id.attempt == cfg.maxRetries then Ioc else Limit)
    && var rec := legs[q.id.leg];
       && rec.preparation.Ready? && rec.preparation.t.mid != 0.0
       && q.id.attempt < |rec.tries| && q.id.attempt < cfg.Attempts()
       && q == EntryRequest(cfg, intent.legs[q.id.leg], q.id.leg, q.id.attempt, rec.preparation.t)
  }

  ghost predicate DistinctIds(placed: seq<Request>) {
    forall a, b :: 0 <= a < b < |placed| ==> placed[a].id != placed[b].id
  }

  lemma RungsOfLeg(cfg: Config, intent: Intent, legs: seq<LegRecord>, n: nat)
    requires n < |legs| <= |intent.legs|
    ensures var q := legs[n].Orders(cfg, intent.legs[n], n);
            DistinctIds(q) && forall a :: 0 <= a < |q| ==> IsRung(cfg, intent, legs, q[a]) && q[a].id.leg == n
  {
    hide Quantity, LadderPrice;
  }

  /** Every order of the legs is a rung of a ladder of at most Attempts() rungs, and none is sent twice. */
  lemma {:induction false} EntriesAreRungs(cfg: Config, intent: Intent, legs: seq<LegRecord>)
    requires |legs| <= |intent.legs|
    ensures var q := OrdersOf(cfg, intent, legs);
            DistinctIds(q) && forall a :: 0 <= a < |q| ==> IsRung(cfg, intent, legs, q[a])
  {
    if legs != [] {
      hide EntryRequest, LegRecord.Orders;
      var n := |legs| - 1;
      EntriesAreRungs(cfg, intent, legs[..n]);
      RungsOfLeg(cfg, intent, legs, n);
      var before, own := OrdersOf(cfg, intent, legs[..n]), legs[n].Orders(cfg, intent.legs[n], n);
      var all := OrdersOf(cfg, intent, legs);
      assert all == before + own;
      forall a | 0 <= a < |all| ensures IsRung(cfg, intent, legs, all[a]) && (all[a].id.leg == n <==> a >= |before|) {
        if a < |before| {
          assert IsRung(cfg, intent, legs[..n], before[a]);
        } else {
          assert all[a] == own[a - |before|];
        }
      }
      forall a, b | 0 <= a < b < |all| ensures all[a].id != all[b].id {
        if b < |before| {
          assert all[a] == before[a] && all[b] == before[b];
        } else if a >= |before| {
          assert all[a] == own[a - |before|] && all[b] == own[b - |before|];
        }
      }
    }
  }

  /**
   * Every order of a run is a rung of its leg's ladder, or one of at most four reduce-only orders that reverse
   * the last filled leg, all on the same terms. No client id is used twice.
   */
  lemma OrdersAccountedFor(cfg: Config, intent: Intent, run: Run)
    requires run.IsRunOf(cfg, intent)
    ensures var placed := run.Orders(cfg, intent);
            && DistinctIds(placed)
            && (forall a :: 0 <= a < |placed| ==>
                 || IsRung(cfg, intent, run.legs, placed[a])
                 || (run.Unwinds() && placed[a].reduceOnly && placed[a].id.attempt <= MAX_UNWIND_RETRIES
                     && placed[a] == UnwindRequest(run.Reversed(intent), placed[a].id.attempt)))
  {
    hide EntryRequest, LegRecord.Ok, LegRecord.IsFilled, OrdersOf;
    EntriesAreRungs(cfg, intent, run.legs);
  }

  // ---------------------------------------------------------------------
  // Events
  // ---------------------------------------------------------------------

  /** How many events of a kind a leg has. */
  ghost function Count(ev: seq<Event>, kind: EventKind, leg: nat): nat {
    if ev == [] then 0 else
      var e := ev[|ev| - 1];
      Count(ev[..|ev| - 1], kind, leg) + if e.kind == kind && e.leg == leg then 1 else 0
  }

  ghost function Fills(ev: seq<Event>, leg: nat): nat {
    Count(ev, OrderFilled, leg) + Count(ev, OrderPartial, leg)
  }

  lemma {:induction false} CountConcat(s: seq<Event>, t: seq<Event>, kind: EventKind, leg: nat)
    ensures Count(s + t, kind, leg) == Count(s, kind, leg) + Count(t, kind, leg)
  {
    if t == [] {
      assert s + t == s;
    } else {
      CountConcat(s, t[..|t| - 1], kind, leg);
      assert (s + t)[..|s + t| - 1] == s + t[..|t| - 1];
    }
  }

  lemma CountOne(e: Event, kind: EventKind, leg: nat)
    ensures Count([e], kind, leg) == if e.kind == kind && e.leg == leg then 1 else 0
  {
  }

  lemma {:induction false} CountSent(cfg: Config, leg: Leg, i: nat, tries: seq<Try>, kind: EventKind, j: nat)
    requires kind != OrderRetry
    ensures Count(SentEvents(cfg, leg, i, tries), kind, j) == if kind == OrderSent && j == i then |tries| else 0
  {
    if tries != [] {
      var n := |tries| - 1;
      CountSent(cfg, leg, i, tries[..n], kind, j);
      CountConcat(SentEvents(cfg, leg, i, tries[..n]), SentFor(cfg, leg, i, n, tries[n]), kind, j);
      var sent, retry := Event(OrderSent, i, leg.symbol, leg.action), Event(OrderRetry, i, leg.symbol, leg.action);
      CountOne(sent, kind, j);
      CountOne(retry, kind, j);
      CountConcat([sent], [retry], kind, j);
      assert [sent] + [] == [sent];
    }
  }

  /** The events of one leg: one ORDER_SENT an order, one fill event if it was filled, no HEDGE_FAILED. */
  lemma CountLeg(cfg: Config, leg: Leg, i: nat, rec: LegRecord, j: nat)
    requires !rec.preparation.Ready? ==> rec.tries == []
    ensures var ev := rec.Events(cfg, leg, i);
            && Count(ev, OrderSent, j) == (if j == i then |rec.tries| else 0)
            && Fills(ev, j) == (if j == i && rec.IsFilled() then 1 else 0)
            && Count(ev, OrderPartial, j) == (if j == i && rec.Result(leg).partial then 1 else 0)
            && Count(ev, HedgeFailed, j) == 0
  {
    var ev := rec.Events(cfg, leg, i);
    match rec.preparation
    case Ready(t) =>
      var e := ev[|ev| - 1];
      var sent := SentEvents(cfg, leg, i, rec.tries);
      assert ev == sent + [e];
      forall k | k in {OrderSent, OrderFilled, OrderPartial, HedgeFailed}
        ensures Count(ev, k, j) == (if k == OrderSent && j == i then |rec.tries| else 0)
                                   + if e.kind == k && e.leg == j then 1 else 0
      {
        CountSent(cfg, leg, i, rec.tries, k, j);
        CountConcat(sent, [e], k, j);
        CountOne(e, k, j);
      }
    case Drifted =>
      forall k ensures Count(ev, k, j) == if k == HedgeDrift && i == j then 1 else 0 {
        CountOne(ev[0], k, j);
      }
    case _ =>
  }

  lemma {:induction false} CountLegs(cfg: Config, intent: Intent, legs: seq<LegRecord>, j: nat)
    requires |legs| <= |intent.legs|
    requires forall i :: 0 <= i < |legs| && !legs[i].preparation.Ready? ==> legs[i].tries == []
    ensures var ev := EventsOf(cfg, intent, legs);
            && Count(ev, OrderSent, j) == (if j < |legs| then |legs[j].tries| else 0)
            && Fills(ev, j) == (if j < |legs| && legs[j].IsFilled() then 1 else 0)
            && Count(ev, OrderPartial, j) == (if j < |legs| && legs[j].Result(intent.legs[j]).partial then 1 else 0)
            && Count(ev, HedgeFailed, j) == 0
  {
    if legs != [] {
      hide LegRecord.Events, LegRecord.IsFilled, LegRecord.Result;
      var n := |legs| - 1;
      CountLegs(cfg, intent, legs[..n], j);
      CountLeg(cfg, intent.legs[n], n, legs[n], j);
      var before, own := EventsOf(cfg, intent, legs[..n]), legs[n].Events(cfg, intent.legs[n], n);
      CountConcat(before, own, OrderSent, j);
      CountConcat(before, own, OrderFilled, j);
      CountConcat(before, own, OrderPartial, j);
      CountConcat(before, own, HedgeFailed, j);
    }
  }

  /**
   * The event list of a run: one ORDER_SENT for every order of a leg, one fill event for every filled leg, and
   * if a leg was reversed, as its last event the one outcome of that: ORDER_FILLED or HEDGE_FAILED.
   */
  lemma EventsAccountedFor(cfg: Config, intent: Intent, run: Run, j: nat)
    requires run.IsRunOf(cfg, intent)
    ensures var ev := run.Events(cfg, intent);
            var reversed := run.Unwinds() && j == Done(run) - 1;
            var closed := reversed && run.unwind[|run.unwind| - 1].Closed();
            && Count(ev, OrderSent, j) == (if j < |run.legs| then |run.legs[j].tries| else 0)
            && Fills(ev, j) == (if Filled(run, j) then 1 else 0) + (if closed then 1 else 0)
            && Count(ev, OrderPartial, j)
                 == (if j < |run.legs| && ResultAt(intent, run.legs, j).partial then 1 else 0)
            && Count(ev, HedgeFailed, j) == (if reversed && !closed then 1 else 0)
            && (reversed ==> ev != [] && ev[|ev| - 1] == Outcome(run.Reversed(intent), run.unwind))
  {
    hide LegRecord.IsFilled, LegRecord.Ok, Try.Closed, LegRecord.Result, EventsOf, Count;
    FilledPrefix(cfg, intent, run, j);
    NotReadyNoOrders(cfg, intent, run.legs);
    CountLegs(cfg, intent, run.legs, j);
    if run.Unwinds() {
      WithOutcome(EventsOf(cfg, intent, run.legs), Outcome(run.Reversed(intent), run.unwind), j);
    } else {
      assert run.Events(cfg, intent) == EventsOf(cfg, intent, run.legs);
    }
  }

  lemma NotReadyNoOrders(cfg: Config, intent: Intent, legs: seq<LegRecord>)
    requires LegsOk(cfg, intent, legs)
    ensures forall i :: 0 <= i < |legs| && !legs[i].preparation.Ready? ==> legs[i].tries == []
  {
    hide Prepared;
  }

  lemma WithOutcome(ev: seq<Event>, o: Event, j: nat)
    requires o.kind in {OrderFilled, HedgeFailed}
    ensures Count(ev + [o], OrderSent, j) == Count(ev, OrderSent, j)
    ensures Fills(ev + [o], j) == Fills(ev, j) + if o.kind == OrderFilled && o.leg == j then 1 else 0
    ensures Count(ev + [o], OrderPartial, j) == Count(ev, OrderPartial, j)
    ensures Count(ev + [o], HedgeFailed, j) ==
              Count(ev, HedgeFailed, j) + if o.kind == HedgeFailed && o.leg == j then 1 else 0
  {
    assert (ev + [o])[..|ev|] == ev;
  }

  // ---------------------------------------------------------------------
  // Prices and sizes
  // ---------------------------------------------------------------------

  lemma WideningMonotone(a: nat, b: nat, maxRetries: int)
    requires a <= b <= maxRetries
    ensures 0.0 < Widening(a, maxRetries) <= Widening(b, maxRetries) <= 1.0
  {
    var d := (maxRetries + 1) as real;
    DivideMonotone((a + 1) as real, (b + 1) as real, d);
    DivideMonotone((b + 1) as real, d, d);
  }

  /** A retry never offers a better price than the attempt before, and the last one pays all of the slippage. */
  lemma LadderWidens(c: Constraints, mid: real, leg: Leg, a: nat, b: nat, maxRetries: int)
    requires a <= b <= maxRetries && mid > 0.0 && leg.maxSlippageBps >= 0.0
    ensures var worst := PriceAt(c, mid, leg, 1.0);
            var pa, pb := LadderPrice(c, mid, leg, a, maxRetries), LadderPrice(c, mid, leg, b, maxRetries);
            if leg.action == "BUY" then pa <= pb <= worst else pa >= pb >= worst
  {
    hide PriceAt, Widening;
    WideningMonotone(a, b, maxRetries);
    Rung(c, mid, leg, Widening(a, maxRetries), Widening(b, maxRetries));
    Rung(c, mid, leg, Widening(b, maxRetries), 1.0);
  }

  lemma Rung(c: Constraints, mid: real, leg: Leg, w: real, w': real)
    requires w <= w' && mid > 0.0 && leg.maxSlippageBps >= 0.0
    ensures var p, p' := PriceAt(c, mid, leg, w), PriceAt(c, mid, leg, w');
            if leg.action == "BUY" then p <= p' else p >= p'
  {
    hide Slipped, SlipOf, Constraints.RoundPrice;
    SlipMonotone(leg, w, w');
    var s, s' := SlipOf(leg, w), SlipOf(leg, w');
    SlippedMonotone(mid, leg.action, s, s');
    var m, m' := Slipped(mid, leg.action, s), Slipped(mid, leg.action, s');
    if leg.action == "BUY" {
      RoundPriceMonotone(c, m, m');
    } else {
      RoundPriceMonotone(c, m', m);
    }
  }

  lemma SlipMonotone(leg: Leg, w: real, w': real)
    requires w <= w' && leg.maxSlippageBps >= 0.0
    ensures SlipOf(leg, w) <= SlipOf(leg, w')
  {
    ScaleMonotone(w, w', leg.maxSlippageBps);
  }

  lemma SlippedMonotone(mid: real, action: string, s: real, s': real)
    requires s <= s' && mid > 0.0
    ensures if action == "BUY" then Slipped(mid, action, s) <= Slipped(mid, action, s')
            else Slipped(mid, action, s) >= Slipped(mid, action, s')
  {
    ScaleMonotone(1.0 + s, 1.0 + s', mid);
    ScaleMonotone(1.0 - s', 1.0 - s, mid);
  }

  /** A rung's price is that share of the allowed slippage away from the reference price, against the trader. */
  lemma SlippageIsShare(mid: real, leg: Leg, share: real)
    ensures var off := Slipped(mid, leg.action, SlipOf(leg, share)) - mid;
            var given := mid * (share * leg.maxSlippageBps);
            10000.0 * off == if leg.action == "BUY" then given else -given
  {
    hide SlipOf;
    var s := SlipOf(leg, share);
    SlipTimes(leg, share);
    assert mid * (1.0 + s) == mid + mid * s;
    assert mid * (1.0 - s) == mid - mid * s;
    assert 10000.0 * (mid * s) == mid * (10000.0 * s);
  }

  lemma SlipTimes(leg: Leg, share: real)
    ensures 10000.0 * SlipOf(leg, share) == share * leg.maxSlippageBps
  {
  }

  /** Hence no order is priced further than the allowed slippage, and half a tick if any, from the reference. */
  lemma WorstPriceBounded(c: Constraints, mid: real, leg: Leg, attempt: nat, maxRetries: int)
    requires attempt <= maxRetries && mid > 0.0 && leg.maxSlippageBps >= 0.0
    ensures var p := LadderPrice(c, mid, leg, attempt, maxRetries);
            var slack := 5000.0 * Max(c.tick, 0.0);
            if leg.action == "BUY" then 10000.0 * (p - mid) <= mid * leg.maxSlippageBps + slack
            else 10000.0 * (mid - p) <= mid * leg.maxSlippageBps + slack
  {
    hide Slipped, SlipOf, Constraints.RoundPrice, Widening, PriceAt;
    LadderWidens(c, mid, leg, attempt, attempt, maxRetries);
    SlippageIsShare(mid, leg, 1.0);
    WorstIs(c, mid, leg);
  }

  lemma WorstIs(c: Constraints, mid: real, leg: Leg)
    ensures var unrounded := Slipped(mid, leg.action, SlipOf(leg, 1.0));
            -Max(c.tick, 0.0) <= 2.0 * (PriceAt(c, mid, leg, 1.0) - unrounded) <= Max(c.tick, 0.0)
  {
    hide Slipped, SlipOf;
    if c.tick > 0.0 {
      hide Constraints.RoundPrice;
      var ticks := RoundPriceNearest(c, Slipped(mid, leg.action, SlipOf(leg, 1.0)));
    }
  }

  /**
   * After a partial fill of leg 0, a hedge leg on another symbol is ordered for the filled notional divided
   * by beta, short of it by less than one lot if there are lots, unless the minimum quantity forces more.
   */
  lemma HedgeFollowsPartialFill(cfg: Config, intent: Intent, run: Run, attempt: nat)
    requires run.IsRunOf(cfg, intent) && |intent.legs| == 2 && |run.legs| == 2 && run.legs[1].preparation.Ready?
    requires attempt < |run.legs[1].tries| && attempt < cfg.Attempts()
    requires run.legs[1].preparation.t.mid > 0.0
    requires ResultAt(intent, run.legs, 0).partial && intent.hedgeBeta > 0.0 && intent.legs[1].symbol != intent.symbol
    ensures var t := run.legs[1].preparation.t;
            var want := ResultAt(intent, run.legs, 0).filledUsd / intent.hedgeBeta;
            var q := EntryRequest(cfg, intent.legs[1], 1, attempt, t);
            && q.notional == want
            && (if t.c.lot > 0.0 then want - t.c.lot * t.mid < q.quantity * t.mid else want <= q.quantity * t.mid)
            && (q.quantity * t.mid <= want || q.quantity == t.c.minQty)
  {
    hide Quantity, LadderPrice, LegRecord.Result, LadderOk;
    var t := run.legs[1].preparation.t;
    assert run.legs[1].Ok(cfg, intent, 1, Previous(intent, run.legs, 1));
    var want := ResultAt(intent, run.legs, 0).filledUsd / intent.hedgeBeta;
    assert t.target == want;
    SizedInLots(t.c, want, t.mid);
  }

  lemma SizedInLots(c: Constraints, want: real, mid: real)
    requires mid > 0.0
    ensures var qty := Quantity(c, want, mid);
            && (if c.lot > 0.0 then want - c.lot * mid < qty * mid else want <= qty * mid)
            && (qty * mid <= want || qty == c.minQty)
  {
    var n := want / mid;
    assert n * mid == want;
    if c.lot > 0.0 {
      InLots(c, n, c.RoundQty(n), mid, want);
    } else if n < c.minQty {
      ScaleStrict(n, c.minQty, mid);
    }
  }

  lemma InLots(c: Constraints, n: real, qty: real, mid: real, want: real)
    requires mid > 0.0 && c.lot > 0.0 && n * mid == want && qty == c.RoundQty(n)
    ensures want - c.lot * mid < qty * mid <= want
    ensures qty < c.minQty ==> want - c.lot * mid < c.minQty * mid
  {
    RoundQtyLoss(c, n);
    var less := n - c.lot;
    assert less * mid == want - c.lot * mid;
    ScaleStrict(less, qty, mid);
    ScaleMonotone(qty, n, mid);
    if qty < c.minQty {
      ScaleStrict(qty, c.minQty, mid);
    }
  }

  /** The net PnL of a summary: the relative price difference on the notional of leg 0, less fees. */
  lemma NetPnlMeaning(buy: real, sell: real, notional: real, fees: real)
    requires buy + sell > 0.0
    ensures (NetPnl(buy, sell, notional, fees) + fees) * (buy + sell) == 2.0 * ((sell - buy) * notional)
    ensures notional > 0.0 ==> (NetPnl(buy, sell, notional, fees) + fees > 0.0 <==> sell > buy)
  {
    var mid := (buy + sell) / 2.0;
    var share := (sell - buy) / mid;
    assert share * mid == sell - buy;
    var gross := share * notional;
    assert gross * mid == (sell - buy) * notional;
    SameSign(gross, mid);
    if notional > 0.0 {
      SameSign(sell - buy, notional);
    }
  }
}
