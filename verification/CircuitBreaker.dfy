/**
 * The flash-crash breaker (internal/risk/circuitbreaker.go). It keeps only two windows of prices; the class
 * is proved against one that keeps every price since the last reset.
 */
module CircuitBreaker {
  import opened RealSeq

  datatype Config = Config(moveThresholdPct: real, windowMs: int, spreadMultiplier: real, normalSpreadBps: real,
                           cooldownMs: int, staleQuoteMs: int)

  datatype Sample = Sample(price: real, tsMs: int)

  datatype Reason = FlashCrash | AbnormalSpread

  /** The state of one symbol. */
  datatype SymbolState = SymbolState(samples: seq<Sample>, lastBid: real, lastAsk: real, lastQuoteTsMs: int,
                                     trippedUntil: int, tripReason: Option<Reason>)

  const UNSEEN := SymbolState([], 0.0, 0.0, 0, 0, None)

  function MovePct(from: real, to: real): real
    requires from > 0.0
  {
    Abs(to - from) / from * 100.0
  }

  /** The sample is in the window and the price has moved too far from it. */
  predicate Moved(cfg: Config, s: Sample, price: real, tsMs: int) {
    s.tsMs >= tsMs - cfg.windowMs && s.price > 0.0 && MovePct(s.price, price) >= cfg.moveThresholdPct
  }

  ghost predicate AnyMoved(cfg: Config, samples: seq<Sample>, price: real, tsMs: int) {
    exists i :: 0 <= i < |samples| && Moved(cfg, samples[i], price, tsMs)
  }

  predicate WideSpread(cfg: Config, bid: real, ask: real) {
    bid > 0.0 && ask > 0.0 && (ask - bid) / ((ask + bid) / 2.0) * 10000.0 > cfg.normalSpreadBps * cfg.spreadMultiplier
  }

  /** What a breaker that looks at these samples, the quote's own included, reports for the quote. */
  ghost function Verdict(cfg: Config, samples: seq<Sample>, price: real, bid: real, ask: real, tsMs: int)
    : Option<Reason>
  {
    if price <= 0.0 then None
    else if AnyMoved(cfg, samples, price, tsMs) then Some(FlashCrash)
    else if WideSpread(cfg, bid, ask) then Some(AbnormalSpread)
    else None
  }

  predicate IsOpenAt(cfg: Config, s: SymbolState, now: int) {
    || (s.trippedUntil > 0 && now < s.trippedUntil)
    || (s.lastQuoteTsMs > 0 && now - s.lastQuoteTsMs > cfg.staleQuoteMs)
  }

  /** The samples from the first one that is not before the cutoff. */
  function Since(samples: seq<Sample>, cutoff: int): seq<Sample> {
    if samples != [] && samples[0].tsMs < cutoff then Since(samples[1..], cutoff) else samples
  }

  /** The quote's price is kept, and what leads the samples by more than two windows is dropped. */
  function SamplesAfter(cfg: Config, samples: seq<Sample>, price: real, tsMs: int): seq<Sample> {
    if price <= 0.0 then samples else Since(samples + [Sample(price, tsMs)], tsMs - cfg.windowMs * 2)
  }

  /** What a quote with verdict r does to the symbol. */
  function AfterQuote(cfg: Config, s: SymbolState, r: Option<Reason>, price: real, bid: real, ask: real, tsMs: int)
    : SymbolState
  {
    var quoted :=
      s.(samples := SamplesAfter(cfg, s.samples, price, tsMs), lastBid := bid, lastAsk := ask, lastQuoteTsMs := tsMs);
    if r == None then quoted else quoted.(trippedUntil := tsMs + cfg.cooldownMs, tripReason := r)
  }

  /** What is reported for a quote, without division: a move first, then a wide spread, at a positive price. */
  lemma VerdictExactly(cfg: Config, samples: seq<Sample>, price: real, bid: real, ask: real, tsMs: int)
    ensures var r := Verdict(cfg, samples, price, bid, ask, tsMs);
            var moved := exists i :: 0 <= i < |samples| && MovedBy(cfg, samples[i], price, tsMs);
            && (r == Some(FlashCrash) <==> price > 0.0 && moved)
            && (r == Some(AbnormalSpread) <==> price > 0.0 && !moved && SpreadBy(cfg, bid, ask))
  {
    hide Moved, WideSpread;
    forall i | 0 <= i < |samples| ensures Moved(cfg, samples[i], price, tsMs) == MovedBy(cfg, samples[i], price, tsMs) {
      MoveMeaning(cfg, samples[i], price, tsMs);
    }
    SpreadMeaning(cfg, bid, ask);
  }

  /** In the window, and off by the threshold percentage of the earlier price. */
  ghost predicate MovedBy(cfg: Config, s: Sample, price: real, tsMs: int) {
    && tsMs - s.tsMs <= cfg.windowMs
    && s.price > 0.0 && 100.0 * Abs(price - s.price) >= cfg.moveThresholdPct * s.price
  }

  ghost predicate SpreadBy(cfg: Config, bid: real, ask: real) {
    bid > 0.0 && ask > 0.0 && 20000.0 * (ask - bid) > cfg.normalSpreadBps * cfg.spreadMultiplier * (ask + bid)
  }

  /** A move counts when it is at least the threshold percentage of the earlier price. */
  lemma MoveMeaning(cfg: Config, s: Sample, price: real, tsMs: int)
    ensures Moved(cfg, s, price, tsMs) <==> MovedBy(cfg, s, price, tsMs)
  {
    if s.price > 0.0 {
      var p := MovePct(s.price, price);
      assert p * s.price == 100.0 * Abs(price - s.price);
      ScaledCompare(p, cfg.moveThresholdPct, s.price);
    }
  }

  /** A spread is wide when it is above the threshold in basis points of the mid price, 10000 * (ask - bid) / mid. */
  lemma SpreadMeaning(cfg: Config, bid: real, ask: real)
    ensures WideSpread(cfg, bid, ask) <==> SpreadBy(cfg, bid, ask)
  {
    if bid > 0.0 && ask > 0.0 {
      var sum := ask + bid;
      var bps := (ask - bid) / (sum / 2.0) * 10000.0;
      assert bps * sum == 20000.0 * (ask - bid);
      ScaledCompare(cfg.normalSpreadBps * cfg.spreadMultiplier, bps, sum);
    }
  }

  /** No price since the reset, the quote's own included, is more than one window later than the quote. */
  ghost predicate NotTooLate(cfg: Config, all: seq<Sample>, tsMs: int) {
    forall i :: 0 <= i < |all| ==> tsMs >= all[i].tsMs - cfg.windowMs
  }

  /** The sample is more than two windows older than some price. */
  ghost predicate Outdated(cfg: Config, all: seq<Sample>, s: Sample) {
    exists j :: 0 <= j < |all| && s.tsMs < all[j].tsMs - 2 * cfg.windowMs
  }

  /** The kept samples are a suffix of all, and everything that was dropped is outdated. */
  ghost predicate Retained(cfg: Config, all: seq<Sample>, kept: seq<Sample>) {
    && |kept| <= |all| && kept == all[|all| - |kept|..]
    && forall i :: 0 <= i < |all| - |kept| ==> Outdated(cfg, all, all[i])
  }

  /** A dropped sample is outside the window of every quote that is not too late, so dropping it loses nothing. */
  lemma PruningLosesNothing(cfg: Config, all: seq<Sample>, kept: seq<Sample>, price: real, tsMs: int)
    requires Retained(cfg, all, kept) && NotTooLate(cfg, all, tsMs)
    ensures AnyMoved(cfg, kept, price, tsMs) <==> AnyMoved(cfg, all, price, tsMs)
  {
    hide MovePct;
    var d := |all| - |kept|;
    forall i | 0 <= i < |all|
      ensures Moved(cfg, all[i], price, tsMs) <==> i >= d && Moved(cfg, kept[i - d], price, tsMs)
    {
      if i < d {
        assert Outdated(cfg, all, all[i]);
      } else {
        assert kept[i - d] == all[i];
      }
    }
    if AnyMoved(cfg, all, price, tsMs) {
      var i :| 0 <= i < |all| && Moved(cfg, all[i], price, tsMs);
      assert Moved(cfg, kept[i - d], price, tsMs);
    }
    if AnyMoved(cfg, kept, price, tsMs) {
      var i :| 0 <= i < |kept| && Moved(cfg, kept[i], price, tsMs);
      assert Moved(cfg, all[i + d], price, tsMs);
    }
  }

  // ---------------------------------------------------------------------
  // When the breaker is open, by what it has reported
  // ---------------------------------------------------------------------

  /** What happened to a symbol: a quote and the verdict reported for it, or a reset. */
  datatype Event = Heard(tsMs: int, bid: real, ask: real, verdict: Option<Reason>) | Forgotten

  /** Event i is the last quote that tripped, and no reset came after it. */
  ghost predicate LastTrip(log: seq<Event>, i: nat) {
    && i < |log| && log[i].Heard? && log[i].verdict.Some?
    && forall j :: i < j < |log| ==> log[j].Heard? && log[j].verdict == None
  }

  /** Event i is the last quote. */
  ghost predicate LastHeard(log: seq<Event>, i: nat) {
    i < |log| && log[i].Heard? && forall j :: i < j < |log| ==> log[j].Forgotten?
  }

  /** Cooling down from the last trip since the reset, or without a quote for too long. */
  ghost predicate OpenBy(cfg: Config, log: seq<Event>, now: int) {
    || (exists i: nat :: LastTrip(log, i) && 0 < log[i].tsMs + cfg.cooldownMs && now < log[i].tsMs + cfg.cooldownMs)
    || (exists i: nat :: LastHeard(log, i) && 0 < log[i].tsMs && log[i].tsMs < now - cfg.staleQuoteMs)
  }

  /** The symbol's state remembers the last trip and the last quote of its log. */
  ghost predicate Remembers(cfg: Config, log: seq<Event>, s: SymbolState) {
    && RemembersTrip(cfg, log, s.trippedUntil, s.tripReason)
    && ((s.lastQuoteTsMs == 0 && s.lastBid == 0.0 && s.lastAsk == 0.0 && forall i: nat :: !LastHeard(log, i))
        || exists i: nat :: HeardAt(log, i, s.lastQuoteTsMs, s.lastBid, s.lastAsk))
  }

  ghost predicate RemembersTrip(cfg: Config, log: seq<Event>, until: int, reason: Option<Reason>) {
    || (until == 0 && reason == None && forall i: nat :: !LastTrip(log, i))
    || exists i: nat :: TripUntil(cfg, log, i, until, reason)
  }

  ghost predicate TripUntil(cfg: Config, log: seq<Event>, i: nat, until: int, reason: Option<Reason>) {
    LastTrip(log, i) && log[i].tsMs + cfg.cooldownMs == until && log[i].verdict == reason
  }

  ghost predicate HeardAt(log: seq<Event>, i: nat, tsMs: int, bid: real, ask: real) {
    LastHeard(log, i) && log[i].tsMs == tsMs && log[i].bid == bid && log[i].ask == ask
  }

  lemma LastsAreUnique(log: seq<Event>, i: nat, j: nat)
    ensures LastTrip(log, i) && LastTrip(log, j) ==> i == j
    ensures LastHeard(log, i) && LastHeard(log, j) ==> i == j
  {
  }

  /** A quote is the last one; it trips anew, or leaves the trip as it is. */
  lemma HeardStep(log: seq<Event>, e: Event, i: nat)
    requires e.Heard?
    ensures LastHeard(log + [e], i) <==> i == |log|
    ensures LastTrip(log + [e], i) <==> if e.verdict.Some? then i == |log| else LastTrip(log, i)
  {
    var next := log + [e];
    assert next[|log|] == e && forall j :: 0 <= j < |log| ==> next[j] == log[j];
  }

  /** A reset forgets the trip, not the last quote. */
  lemma ForgottenStep(log: seq<Event>, i: nat)
    ensures LastHeard(log + [Forgotten], i) <==> LastHeard(log, i)
    ensures !LastTrip(log + [Forgotten], i)
  {
    var next := log + [Forgotten];
    assert next[|log|] == Forgotten && forall j :: 0 <= j < |log| ==> next[j] == log[j];
  }

  lemma QuoteRemembered(cfg: Config, log: seq<Event>, s: SymbolState, r: Option<Reason>, price: real, bid: real,
                        ask: real, tsMs: int)
    requires Remembers(cfg, log, s)
    ensures Remembers(cfg, log + [Heard(tsMs, bid, ask, r)], AfterQuote(cfg, s, r, price, bid, ask, tsMs))
  {
    hide SamplesAfter;
    var e := Heard(tsMs, bid, ask, r);
    var next := log + [e];
    var t := AfterQuote(cfg, s, r, price, bid, ask, tsMs);
    forall i: nat
      ensures LastHeard(next, i) <==> i == |log|
      ensures LastTrip(next, i) <==> if r.Some? then i == |log| else LastTrip(log, i)
    {
      HeardStep(log, e, i);
    }
    assert next[|log|] == e && LastHeard(next, |log|);
    assert HeardAt(next, |log|, tsMs, bid, ask);
    if r.Some? {
      assert TripUntil(cfg, next, |log|, tsMs + cfg.cooldownMs, r);
    } else if i: nat :| TripUntil(cfg, log, i, s.trippedUntil, s.tripReason) {
      assert TripUntil(cfg, next, i, s.trippedUntil, s.tripReason);
    }
  }

  lemma ResetRemembered(cfg: Config, log: seq<Event>, s: SymbolState)
    requires Remembers(cfg, log, s)
    ensures Remembers(cfg, log + [Forgotten], s.(samples := [], trippedUntil := 0, tripReason := None))
  {
    var next := log + [Forgotten];
    forall i: nat
      ensures LastHeard(next, i) <==> LastHeard(log, i)
      ensures !LastTrip(next, i)
    {
      ForgottenStep(log, i);
    }
    if i: nat :| HeardAt(log, i, s.lastQuoteTsMs, s.lastBid, s.lastAsk) {
      assert HeardAt(next, i, s.lastQuoteTsMs, s.lastBid, s.lastAsk);
    }
  }

  lemma OpenExactly(cfg: Config, log: seq<Event>, s: SymbolState, now: int)
    requires Remembers(cfg, log, s)
    ensures IsOpenAt(cfg, s, now) <==> OpenBy(cfg, log, now)
  {
    forall i: nat, j: nat
      ensures LastTrip(log, i) && LastTrip(log, j) ==> i == j
      ensures LastHeard(log, i) && LastHeard(log, j) ==> i == j
    {
      LastsAreUnique(log, i, j);
    }
  }

  class Breaker {
    const cfg: Config
    var state: map<string, SymbolState>
    /** Every positive price since the symbol's last reset, never pruned. */
    ghost var all: map<string, seq<Sample>>
    /** Every quote of a symbol with the verdict reported for it, and every reset since its first. */
    ghost var log: map<string, seq<Event>>

    ghost predicate Valid()
      reads this
    {
      && all.Keys == state.Keys && log.Keys == state.Keys
      && forall s :: s in state ==> Retained(cfg, all[s], state[s].samples) && Remembers(cfg, log[s], state[s])
    }

    ghost function Log(symbol: string): seq<Event>
      reads this
    {
      if symbol in log then log[symbol] else []
    }

    ghost function All(symbol: string): seq<Sample>
      reads this
    {
      if symbol in all then all[symbol] else []
    }

    function At(symbol: string): SymbolState
      reads this
    {
      if symbol in state then state[symbol] else UNSEEN
    }

    constructor (cfg: Config)
      ensures Valid() && this.cfg == cfg && state == map[] && all == map[] && log == map[]
    {
      this.cfg := cfg;
      state, all, log := map[], map[], map[];
    }

    /** The same verdict as a breaker that never prunes, on every quote that is not too late. */
    method RecordQuote(symbol: string, price: real, bid: real, ask: real, tsMs: int) returns (r: Option<Reason>)
      requires Valid()
      modifies this
      ensures Valid()
      ensures NotTooLate(cfg, All(symbol), tsMs) ==> r == Verdict(cfg, All(symbol), price, bid, ask, tsMs)
      ensures r == Verdict(cfg, At(symbol).samples, price, bid, ask, tsMs)
      ensures all == old(all)[symbol := if price > 0.0 then old(All(symbol)) + [Sample(price, tsMs)]
                                        else old(All(symbol))]
      ensures state == old(state)[symbol := AfterQuote(cfg, old(At(symbol)), r, price, bid, ask, tsMs)]
      ensures log == old(log)[symbol := old(Log(symbol)) + [Heard(tsMs, bid, ask, r)]]
    {
      hide Verdict, Retained, NotTooLate, AfterQuote, Remembers;
      EmptyRetained(cfg);
      NothingRemembered(cfg);
      ghost var before := All(symbol);
      var st;
      st, r := Quote(At(symbol), before, price, bid, ask, tsMs);
      QuoteRemembered(cfg, Log(symbol), At(symbol), r, price, bid, ask, tsMs);
      log := log[symbol := Log(symbol) + [Heard(tsMs, bid, ask, r)]];
      state := state[symbol := st];
      all := all[symbol := if price > 0.0 then before + [Sample(price, tsMs)] else before];
    }

    /** The per-symbol part: record the price, prune, and look for a move or a wide spread. */
    method Quote(s: SymbolState, ghost before: seq<Sample>, price: real, bid: real, ask: real, tsMs: int)
      returns (st: SymbolState, r: Option<Reason>)
      requires Retained(cfg, before, s.samples)
      ensures var quoted := if price > 0.0 then before + [Sample(price, tsMs)] else before;
              && Retained(cfg, quoted, st.samples)
              && (NotTooLate(cfg, quoted, tsMs) ==> r == Verdict(cfg, quoted, price, bid, ask, tsMs))
      ensures r == Verdict(cfg, st.samples, price, bid, ask, tsMs)
      ensures st == AfterQuote(cfg, s, r, price, bid, ask, tsMs)
    {
      hide WideSpread, Moved, Retained, NotTooLate, AnyMoved, Since;
      st := s.(lastBid := bid, lastAsk := ask, lastQuoteTsMs := tsMs);
      if price <= 0.0 {
        return st, None;
      }
      var x := Sample(price, tsMs);
      ghost var quoted := before + [x];
      RetainedAppend(cfg, before, st.samples, x);
      var samples := Prune(quoted, st.samples + [x], x);
      st := st.(samples := samples);
      if NotTooLate(cfg, quoted, tsMs) {
        PruningLosesNothing(cfg, quoted, samples, price, tsMs);
      }
      var crashed := HasMoved(samples, price, tsMs);
      if crashed {
        st := st.(trippedUntil := tsMs + cfg.cooldownMs, tripReason := Some(FlashCrash));
        return st, Some(FlashCrash);
      }
      if WideSpread(cfg, bid, ask) {
        st := st.(trippedUntil := tsMs + cfg.cooldownMs, tripReason := Some(AbnormalSpread));
        return st, Some(AbnormalSpread);
      }
      return st, None;
    }

    /** Drops the leading samples that are more than two windows older than the new one. */
    method Prune(ghost quoted: seq<Sample>, samples: seq<Sample>, x: Sample) returns (kept: seq<Sample>)
      requires Retained(cfg, quoted, samples) && quoted != [] && quoted[|quoted| - 1] == x
      ensures Retained(cfg, quoted, kept) && kept == Since(samples, x.tsMs - cfg.windowMs * 2)
    {
      hide Since, Retained;
      var cutoff := x.tsMs - cfg.windowMs * 2;
      var pruneIdx := 0;
      while pruneIdx < |samples| && samples[pruneIdx].tsMs < cutoff
        invariant 0 <= pruneIdx <= |samples| && forall i :: 0 <= i < pruneIdx ==> samples[i].tsMs < cutoff
      {
        pruneIdx := pruneIdx + 1;
      }
      RetainedPrune(cfg, quoted, samples, pruneIdx, x);
      SinceDrop(samples, cutoff, pruneIdx);
      kept := samples;
      if pruneIdx > 0 {
        kept := samples[pruneIdx..];
      } else {
        assert samples[0..] == samples;
      }
    }

    method HasMoved(samples: seq<Sample>, price: real, tsMs: int) returns (b: bool)
      ensures b <==> AnyMoved(cfg, samples, price, tsMs)
    {
      hide Moved;
      for i := 0 to |samples|
        invariant forall j :: 0 <= j < i ==> !Moved(cfg, samples[j], price, tsMs)
      {
        if Moved(cfg, samples[i], price, tsMs) {
          return true;
        }
      }
      return false;
    }

    /** Open exactly when the last trip reported since the reset still cools down, or the last quote is stale. */
    method IsOpen(symbol: string, now: int) returns (open: bool)
      requires Valid()
      ensures open <==> OpenBy(cfg, Log(symbol), now)
    {
      hide OpenBy;
      if symbol !in state {
        NothingOpen(cfg, now);
        return false;
      }
      var st := state[symbol];
      OpenExactly(cfg, log[symbol], st, now);
      if st.trippedUntil > 0 && now < st.trippedUntil {
        return true;
      }
      if st.lastQuoteTsMs > 0 && now - st.lastQuoteTsMs > cfg.staleQuoteMs {
        return true;
      }
      return false;
    }

    method IsOpenAny(now: int) returns (open: bool)
      requires Valid()
      ensures open <==> exists s :: OpenBy(cfg, Log(s), now)
    {
      hide OpenBy, IsOpenAt, Remembers;
      NothingOpen(cfg, now);
      forall s | s in state ensures IsOpenAt(cfg, state[s], now) <==> OpenBy(cfg, Log(s), now) {
        OpenExactly(cfg, log[s], state[s], now);
      }
      var left := state.Keys;
      while left != {}
        invariant left <= state.Keys
        invariant forall s :: s in state && s !in left ==> !IsOpenAt(cfg, state[s], now)
      {
        var s :| s in left;
        if IsOpenAt(cfg, state[s], now) {
          return true;
        }
        left := left - {s};
      }
      return false;
    }

    /** Forgets the trip and the prices, not the last quote time. */
    method Reset(symbol: string)
      requires Valid()
      modifies this
      ensures Valid()
      ensures symbol !in old(state) ==> state == old(state) && all == old(all) && log == old(log)
      ensures symbol in old(state) ==>
                var forgotten := old(state)[symbol].(samples := [], trippedUntil := 0, tripReason := None);
                && state == old(state)[symbol := forgotten] && all == old(all)[symbol := []]
                && log == old(log)[symbol := old(Log(symbol)) + [Forgotten]]
    {
      hide Remembers;
      if symbol in state {
        ResetRemembered(cfg, log[symbol], state[symbol]);
        log := log[symbol := log[symbol] + [Forgotten]];
        state := state[symbol := state[symbol].(samples := [], trippedUntil := 0, tripReason := None)];
        all := all[symbol := []];
      }
    }
  }

  lemma NothingRemembered(cfg: Config)
    ensures Remembers(cfg, [], UNSEEN)
  {
  }

  lemma NothingOpen(cfg: Config, now: int)
    ensures !OpenBy(cfg, [], now)
  {
  }

  lemma EmptyRetained(cfg: Config)
    ensures Retained(cfg, [], [])
  {
  }

  lemma RetainedAppend(cfg: Config, all: seq<Sample>, kept: seq<Sample>, x: Sample)
    requires Retained(cfg, all, kept)
    ensures Retained(cfg, all + [x], kept + [x])
  {
    var next := all + [x];
    forall i | 0 <= i < |all| - |kept| ensures Outdated(cfg, next, next[i]) {
      assert Outdated(cfg, all, all[i]);
      var j :| 0 <= j < |all| && all[i].tsMs < all[j].tsMs - 2 * cfg.windowMs;
      assert next[j] == all[j];
    }
  }

  lemma {:induction false} SinceDrop(samples: seq<Sample>, cutoff: int, n: nat)
    requires n <= |samples| && forall i :: 0 <= i < n ==> samples[i].tsMs < cutoff
    requires n == |samples| || samples[n].tsMs >= cutoff
    ensures Since(samples, cutoff) == samples[n..]
  {
    if n > 0 {
      SinceDrop(samples[1..], cutoff, n - 1);
    }
  }

  lemma RetainedPrune(cfg: Config, all: seq<Sample>, kept: seq<Sample>, n: nat, x: Sample)
    requires Retained(cfg, all, kept) && n <= |kept| && all != [] && all[|all| - 1] == x
    requires forall i :: 0 <= i < n ==> kept[i].tsMs < x.tsMs - cfg.windowMs * 2
    ensures Retained(cfg, all, kept[n..])
  {
    var d := |all| - |kept|;
    forall i | d <= i < d + n ensures Outdated(cfg, all, all[i]) {
      assert all[i] == kept[i - d];
      assert all[i].tsMs < all[|all| - 1].tsMs - 2 * cfg.windowMs;
    }
  }

  // ---------------------------------------------------------------------
  // Whole quote streams
  // ---------------------------------------------------------------------

  datatype Quoted = Quoted(price: real, bid: real, ask: real, tsMs: int)

  function Recorded(samples: seq<Sample>, q: Quoted): seq<Sample> {
    if q.price <= 0.0 then samples else samples + [Sample(q.price, q.tsMs)]
  }

  /** What a quote is judged to be, given the samples that it is judged by. */
  ghost function Judged(cfg: Config, samples: seq<Sample>, q: Quoted): Option<Reason> {
    Verdict(cfg, samples, q.price, q.bid, q.ask, q.tsMs)
  }

  /** The symbol after a stream of quotes since a reset, as the breaker keeps it. */
  ghost function Pruned(cfg: Config, quotes: seq<Quoted>): SymbolState {
    if quotes == [] then UNSEEN else
      var s, q := Pruned(cfg, quotes[..|quotes| - 1]), quotes[|quotes| - 1];
      AfterQuote(cfg, s, Judged(cfg, SamplesAfter(cfg, s.samples, q.price, q.tsMs), q), q.price, q.bid, q.ask, q.tsMs)
  }

  /** The same for a breaker that never forgets a price. */
  ghost function Unpruned(cfg: Config, quotes: seq<Quoted>): SymbolState {
    if quotes == [] then UNSEEN else
      var s, q := Unpruned(cfg, quotes[..|quotes| - 1]), quotes[|quotes| - 1];
      var all := Recorded(s.samples, q);
      AfterQuote(cfg, s, Judged(cfg, all, q), q.price, q.bid, q.ask, q.tsMs).(samples := all)
  }

  /** What each quote of a stream is judged to be, by the breaker and by one that never forgets. */
  ghost function PrunedVerdicts(cfg: Config, quotes: seq<Quoted>): (r: seq<Option<Reason>>)
    ensures |r| == |quotes|
  {
    if quotes == [] then [] else
      var before, q := quotes[..|quotes| - 1], quotes[|quotes| - 1];
      PrunedVerdicts(cfg, before) + [Judged(cfg, SamplesAfter(cfg, Pruned(cfg, before).samples, q.price, q.tsMs), q)]
  }

  ghost function UnprunedVerdicts(cfg: Config, quotes: seq<Quoted>): (r: seq<Option<Reason>>)
    ensures |r| == |quotes|
  {
    if quotes == [] then [] else
      var before, q := quotes[..|quotes| - 1], quotes[|quotes| - 1];
      UnprunedVerdicts(cfg, before) + [Judged(cfg, Recorded(Unpruned(cfg, before).samples, q), q)]
  }

  /** No quote is more than this much older than an earlier price. */
  ghost predicate AtMostLate(quotes: seq<Quoted>, late: int) {
    forall i, j :: 0 <= i <= j < |quotes| && quotes[i].price > 0.0 ==> quotes[j].tsMs >= quotes[i].tsMs - late
  }

  /** On a stream at most one window late both breakers judge every quote alike, and trip as often and as long. */
  lemma {:induction false} PrunedAgrees(cfg: Config, quotes: seq<Quoted>)
    requires AtMostLate(quotes, cfg.windowMs)
    ensures PrunedVerdicts(cfg, quotes) == UnprunedVerdicts(cfg, quotes)
    ensures Pruned(cfg, quotes) == Unpruned(cfg, quotes).(samples := Pruned(cfg, quotes).samples)
    ensures Retained(cfg, Unpruned(cfg, quotes).samples, Pruned(cfg, quotes).samples)
  {
    if quotes == [] {
      EmptyRetained(cfg);
    } else {
      hide Retained, Judged, SamplesAfter, Recorded, NotTooLate;
      var before, q := quotes[..|quotes| - 1], quotes[|quotes| - 1];
      PrunedAgrees(cfg, before);
      TimelyRecorded(cfg, quotes, q.tsMs);
      SameVerdict(cfg, Unpruned(cfg, before).samples, Pruned(cfg, before).samples, q);
    }
  }

  lemma SameVerdict(cfg: Config, all: seq<Sample>, kept: seq<Sample>, q: Quoted)
    requires Retained(cfg, all, kept) && NotTooLate(cfg, Recorded(all, q), q.tsMs)
    ensures Judged(cfg, SamplesAfter(cfg, kept, q.price, q.tsMs), q) == Judged(cfg, Recorded(all, q), q)
    ensures Retained(cfg, Recorded(all, q), SamplesAfter(cfg, kept, q.price, q.tsMs))
  {
    hide Retained, WideSpread, AnyMoved, Since, NotTooLate;
    if q.price > 0.0 {
      var x := Sample(q.price, q.tsMs);
      RetainedAppend(cfg, all, kept, x);
      RetainedSince(cfg, all + [x], kept + [x], x);
      PruningLosesNothing(cfg, all + [x], SamplesAfter(cfg, kept, q.price, q.tsMs), q.price, q.tsMs);
    }
  }

  lemma {:induction false} RetainedSince(cfg: Config, all: seq<Sample>, kept: seq<Sample>, x: Sample)
    requires Retained(cfg, all, kept) && all != [] && all[|all| - 1] == x
    ensures Retained(cfg, all, Since(kept, x.tsMs - cfg.windowMs * 2))
    decreases |kept|
  {
    if kept != [] && kept[0].tsMs < x.tsMs - cfg.windowMs * 2 {
      RetainedPrune(cfg, all, kept, 1, x);
      RetainedSince(cfg, all, kept[1..], x);
    }
  }

  /** The prices of a timely stream are not too late for a time that is timely after it. */
  lemma {:induction false} TimelyRecorded(cfg: Config, quotes: seq<Quoted>, tsMs: int)
    requires forall i :: 0 <= i < |quotes| && quotes[i].price > 0.0 ==> tsMs >= quotes[i].tsMs - cfg.windowMs
    ensures NotTooLate(cfg, Unpruned(cfg, quotes).samples, tsMs)
  {
    if quotes != [] {
      hide Judged;
      TimelyRecorded(cfg, quotes[..|quotes| - 1], tsMs);
    }
  }

  /**
   * For a window and a threshold that make sense, pruning changes no judgement of any stream that is at most
   * `late` late if and only if that is at most one window.
   */
  lemma PruningInvisibleExactly(cfg: Config, late: int)
    requires cfg.windowMs >= 0 && cfg.moveThresholdPct > 0.0 && late >= 0
    ensures (forall quotes :: AtMostLate(quotes, late) ==> PrunedVerdicts(cfg, quotes) == UnprunedVerdicts(cfg, quotes))
       <==> late <= cfg.windowMs
  {
    hide PrunedVerdicts, UnprunedVerdicts, AtMostLate;
    forall quotes | late <= cfg.windowMs && AtMostLate(quotes, late)
      ensures PrunedVerdicts(cfg, quotes) == UnprunedVerdicts(cfg, quotes)
    {
      LaterIsWeaker(quotes, late, cfg.windowMs);
      PrunedAgrees(cfg, quotes);
    }
    if late > cfg.windowMs {
      LateStream(cfg, late);
    }
  }

  lemma LaterIsWeaker(quotes: seq<Quoted>, late: int, later: int)
    requires AtMostLate(quotes, late) && late <= later
    ensures AtMostLate(quotes, later)
  {
  }

  /** A price, the price moved by the threshold long after, and the moved price one window after the first. */
  function Late(cfg: Config): seq<Quoted> {
    var moved := 1.0 + cfg.moveThresholdPct / 100.0;
    [Quoted(1.0, 0.0, 0.0, 0), Quoted(moved, 0.0, 0.0, 2 * cfg.windowMs + 1), Quoted(moved, 0.0, 0.0, cfg.windowMs)]
  }

  lemma LateStream(cfg: Config, late: int)
    requires cfg.windowMs >= 0 && cfg.moveThresholdPct > 0.0 && late > cfg.windowMs
    ensures AtMostLate(Late(cfg), late) && PrunedVerdicts(cfg, Late(cfg)) != UnprunedVerdicts(cfg, Late(cfg))
  {
    hide Judged, SamplesAfter, PrunedVerdicts, UnprunedVerdicts, Pruned, Unpruned;
    var quotes := Late(cfg);
    var a, b, c := quotes[0], quotes[1], quotes[2];
    var x, y, z := Sample(a.price, a.tsMs), Sample(b.price, b.tsMs), Sample(c.price, c.tsMs);
    assert quotes[..2] == [a, b];
    LateSamples(cfg, a, b);
    LastVerdicts(cfg, quotes);
    assert [x, y] + [z] == [x, y, z];
    JudgedLate(cfg, x, y, z);
    KeptLate(cfg, y, z);
  }

  lemma LastVerdicts(cfg: Config, quotes: seq<Quoted>)
    requires quotes != []
    ensures var n := |quotes| - 1;
            && PrunedVerdicts(cfg, quotes)[n]
                 == Judged(cfg, SamplesAfter(cfg, Pruned(cfg, quotes[..n]).samples, quotes[n].price, quotes[n].tsMs),
                           quotes[n])
            && UnprunedVerdicts(cfg, quotes)[n]
                 == Judged(cfg, Recorded(Unpruned(cfg, quotes[..n]).samples, quotes[n]), quotes[n])
  {
    hide Judged;
  }

  /** After the second quote the first price is forgotten by the breaker. */
  lemma LateSamples(cfg: Config, a: Quoted, b: Quoted)
    requires cfg.windowMs >= 0 && cfg.moveThresholdPct > 0.0 && a == Late(cfg)[0] && b == Late(cfg)[1]
    ensures Pruned(cfg, [a, b]).samples == [Sample(b.price, b.tsMs)]
    ensures Unpruned(cfg, [a, b]).samples == [Sample(a.price, a.tsMs), Sample(b.price, b.tsMs)]
  {
    hide Judged;
    var x, y := Sample(a.price, a.tsMs), Sample(b.price, b.tsMs);
    assert [a, b][..1] == [a] && [a][..0] == [];
    assert Pruned(cfg, [a]).samples == [x] && Unpruned(cfg, [a]).samples == [x];
    assert [x] + [y] == [x, y] && [x, y][1..] == [y];
    SinceDrop([x, y], y.tsMs - cfg.windowMs * 2, 1);
  }

  lemma KeptLate(cfg: Config, y: Sample, z: Sample)
    requires cfg.windowMs >= 0 && y.tsMs == 2 * cfg.windowMs + 1 && z.tsMs == cfg.windowMs && z.price > 0.0
    ensures SamplesAfter(cfg, [y], z.price, z.tsMs) == [y, z]
  {
    assert [y] + [z] == [y, z];
  }

  lemma JudgedLate(cfg: Config, x: Sample, y: Sample, z: Sample)
    requires cfg.windowMs >= 0 && cfg.moveThresholdPct > 0.0
    requires x == Sample(1.0, 0) && y.price == z.price == 1.0 + cfg.moveThresholdPct / 100.0 && z.tsMs == cfg.windowMs
    ensures var q := Quoted(z.price, 0.0, 0.0, z.tsMs);
            Judged(cfg, [x, y, z], q) == Some(FlashCrash) && Judged(cfg, [y, z], q) == None
  {
    MoveMeaning(cfg, x, z.price, z.tsMs);
    MoveMeaning(cfg, y, z.price, z.tsMs);
    MoveMeaning(cfg, z, z.price, z.tsMs);
    hide Moved;
    assert Moved(cfg, [x, y, z][0], z.price, z.tsMs);
    SameSign(cfg.moveThresholdPct, z.price);
  }
}
