/** Capital allocation caps (internal/allocator/engine.go, config.go) and which of its checks can ever fire. */
module Allocator {
  import opened RealSeq

  datatype Config = Config(initialCapital: real, fundingMaxPct: real, basisMaxPct: real, cashReservePct: real,
                           drawdownScaling: bool)
  {
    /** What loading checks of these fields, and that the caps are not negative. */
    predicate Valid() {
      && initialCapital > 0.0
      && fundingMaxPct + basisMaxPct + cashReservePct <= 100.0
      && fundingMaxPct >= 0.0 && basisMaxPct >= 0.0
    }
  }

  /** Which of the markers EXIT, SAFETY, FUNDING and BASIS the upper-cased strategy name contains. */
  datatype Strategy = Strategy(exit: bool, safety: bool, funding: bool, basis: bool)

  datatype Intent = Intent(strategy: Strategy, legNotionals: seq<real>)

  datatype State = State(equity: real, drawdownPct: real, funding: real, basis: real)

  datatype Verdict = Approved | StrategyCap | UnknownStrategy | CombinedCap | CashReserve

  function MaxCapital(cfg: Config, s: State): real { if s.equity <= 0.0 then cfg.initialCapital else s.equity }

  function ScaleFactor(cfg: Config, s: State): real {
    if cfg.drawdownScaling && s.drawdownPct > 0.0 then Max(0.25, 1.0 - s.drawdownPct / 10.0) else 1.0
  }

  /** A percentage of the capital, scaled by drawdown. */
  function Cap(cfg: Config, s: State, pct: real): real { MaxCapital(cfg, s) * pct / 100.0 * ScaleFactor(cfg, s) }

  function Available(cfg: Config, s: State): real {
    MaxCapital(cfg, s) - s.funding - s.basis - MaxCapital(cfg, s) * cfg.cashReservePct / 100.0
  }

  function PerLeg(legs: seq<real>): real { if |legs| == 2 then Sum(legs) / 2.0 else Sum(legs) }

  function OwnCapPassed(cfg: Config, s: State, intent: Intent): bool {
    if intent.strategy.funding then s.funding + PerLeg(intent.legNotionals) <= Cap(cfg, s, cfg.fundingMaxPct)
    else intent.strategy.basis && s.basis + PerLeg(intent.legNotionals) <= Cap(cfg, s, cfg.basisMaxPct)
  }

  predicate Exempt(st: Strategy) { st.exit || st.safety }

  function Decide(cfg: Config, s: State, intent: Intent): Verdict {
    var p := PerLeg(intent.legNotionals);
    if Exempt(intent.strategy) then Approved
    else if !intent.strategy.funding && !intent.strategy.basis then UnknownStrategy
    else if !OwnCapPassed(cfg, s, intent) then StrategyCap
    else if s.funding + s.basis + p > Cap(cfg, s, 100.0 - cfg.cashReservePct) then CombinedCap
    else if p > Available(cfg, s) then CashReserve
    else Approved
  }

  function AfterApprove(cfg: Config, s: State, intent: Intent): State {
    if Decide(cfg, s, intent) != Approved || Exempt(intent.strategy) then s
    else if intent.strategy.funding then s.(funding := s.funding + PerLeg(intent.legNotionals))
    else s.(basis := s.basis + PerLeg(intent.legNotionals))
  }

  function AfterRelease(s: State, st: Strategy, notional: real): State {
    if st.funding then s.(funding := Max(s.funding - notional, 0.0))
    else if st.basis then s.(basis := Max(s.basis - notional, 0.0))
    else s
  }

  class Engine {
    const cfg: Config
    var equity: real
    var funding: real
    var basis: real
    var peakEquity: real
    var drawdownPct: real

    ghost function Now(): State
      reads this
    {
      State(equity, drawdownPct, funding, basis)
    }

    constructor (cfg: Config)
      ensures this.cfg == cfg && Now() == Start(cfg) && peakEquity == cfg.initialCapital
    {
      this.cfg := cfg;
      equity, peakEquity := cfg.initialCapital, cfg.initialCapital;
      funding, basis, drawdownPct := 0.0, 0.0, 0.0;
    }

    method Approve(intent: Intent) returns (v: Verdict)
      modifies this
      ensures v == Decide(cfg, old(Now()), intent) && Now() == AfterApprove(cfg, old(Now()), intent)
      ensures peakEquity == old(peakEquity)
    {
      hide Cap, Available;
      var total := 0.0;
      for i := 0 to |intent.legNotionals|
        invariant total == Sum(intent.legNotionals[..i]) && Now() == old(Now()) && peakEquity == old(peakEquity)
      {
        SumStep(intent.legNotionals, i);
        total := total + intent.legNotionals[i];
      }
      assert intent.legNotionals[..|intent.legNotionals|] == intent.legNotionals;
      var perLeg := total;
      if |intent.legNotionals| == 2 {
        perLeg := total / 2.0;
      }
      if intent.strategy.exit {
        return Approved;
      }
      if intent.strategy.safety {
        return Approved;
      }
      var now := State(equity, drawdownPct, funding, basis);
      if intent.strategy.funding {
        var maxAlloc := Cap(cfg, now, cfg.fundingMaxPct);
        if funding + perLeg > maxAlloc {
          return StrategyCap;
        }
      } else if intent.strategy.basis {
        var maxAlloc := Cap(cfg, now, cfg.basisMaxPct);
        if basis + perLeg > maxAlloc {
          return StrategyCap;
        }
      } else {
        return UnknownStrategy;
      }
      var combinedMax := Cap(cfg, now, 100.0 - cfg.cashReservePct);
      if funding + basis + perLeg > combinedMax {
        return CombinedCap;
      }
      var available := Available(cfg, now);
      if perLeg > available {
        return CashReserve;
      }
      if intent.strategy.funding {
        funding := funding + perLeg;
      } else {
        basis := basis + perLeg;
      }
      return Approved;
    }

    method ReleaseNotional(st: Strategy, notional: real)
      modifies this
      ensures Now() == AfterRelease(old(Now()), st, notional) && peakEquity == old(peakEquity)
    {
      if st.funding {
        funding := funding - notional;
        if funding < 0.0 {
          funding := 0.0;
        }
      } else if st.basis {
        basis := basis - notional;
        if basis < 0.0 {
          basis := 0.0;
        }
      }
    }

    method UpdateEquity(equity: real, drawdownPct: real)
      modifies this
      ensures Now() == old(Now()).(equity := equity, drawdownPct := drawdownPct)
      ensures peakEquity == Max(old(peakEquity), equity)
    {
      this.equity := equity;
      this.drawdownPct := drawdownPct;
      if equity > peakEquity {
        peakEquity := equity;
      }
    }
  }

  function Start(cfg: Config): State { State(cfg.initialCapital, 0.0, 0.0, 0.0) }

  // ---------------------------------------------------------------------
  // Which checks can fire
  // ---------------------------------------------------------------------

  /** Capital after drawdown scaling. */
  function Deployable(cfg: Config, s: State): real { MaxCapital(cfg, s) * ScaleFactor(cfg, s) }

  lemma CapIsShare(cfg: Config, s: State, pct: real)
    ensures Cap(cfg, s, pct) == Deployable(cfg, s) * pct / 100.0
  {
    hide MaxCapital, ScaleFactor;
  }

  lemma Scaled(cfg: Config, s: State)
    requires cfg.Valid()
    ensures 0.0 < ScaleFactor(cfg, s) <= 1.0 && MaxCapital(cfg, s) > 0.0
    ensures 0.0 < Deployable(cfg, s) <= MaxCapital(cfg, s)
  {
    hide MaxCapital, ScaleFactor;
    Positive(cfg, s);
    Times(MaxCapital(cfg, s), ScaleFactor(cfg, s), Deployable(cfg, s));
  }

  lemma Positive(cfg: Config, s: State)
    requires cfg.Valid()
    ensures 0.0 < ScaleFactor(cfg, s) <= 1.0 && MaxCapital(cfg, s) > 0.0
  {
  }

  /** A cap is its percentage of the capital, and of that a tenth less for each point of drawdown, down to a quarter. */
  lemma CapMeaning(cfg: Config, s: State, pct: real)
    ensures var capital := if s.equity > 0.0 then s.equity else cfg.initialCapital;
            var full, cap := capital * pct, Cap(cfg, s, pct);
            && (!cfg.drawdownScaling || s.drawdownPct <= 0.0 ==> 100.0 * cap == full)
            && (cfg.drawdownScaling && 0.0 <= s.drawdownPct <= 7.5 ==> 1000.0 * cap == full * (10.0 - s.drawdownPct))
            && (cfg.drawdownScaling && s.drawdownPct >= 7.5 ==> 400.0 * cap == full)
  {
    var full := MaxCapital(cfg, s) * pct;
    CapTimes(full, ScaleFactor(cfg, s), Cap(cfg, s, pct));
    var f := ScaleFactor(cfg, s);
    if cfg.drawdownScaling && 0.0 <= s.drawdownPct <= 7.5 {
      assert 10.0 * f == 10.0 - s.drawdownPct;
    }
    hide Cap, MaxCapital, ScaleFactor;
    assert full * (10.0 * f) == 10.0 * (full * f);
  }

  lemma CapTimes(full: real, f: real, cap: real)
    requires cap == full / 100.0 * f
    ensures 100.0 * cap == full * f
  {
  }

  /** What a leg counts for: half of the two, else all there is. */
  lemma PerLegMeaning(legs: seq<real>)
    ensures |legs| == 2 ==> 2.0 * PerLeg(legs) == legs[0] + legs[1]
    ensures |legs| != 2 ==> PerLeg(legs) == Sum(legs)
  {
    if |legs| == 2 {
      SumStep(legs, 0);
      SumStep(legs, 1);
      assert legs[..2] == legs && legs[..0] == [];
    }
  }

  /** The verdict: the first of these that holds, and the cash reserve never. */
  lemma VerdictExactly(cfg: Config, s: State, intent: Intent)
    requires cfg.Valid()
    ensures var v, p, st := Decide(cfg, s, intent), PerLeg(intent.legNotionals), intent.strategy;
            var exempt := st.exit || st.safety;
            var overOwn := if st.funding then s.funding + p > Cap(cfg, s, cfg.fundingMaxPct)
                           else s.basis + p > Cap(cfg, s, cfg.basisMaxPct);
            var known := !exempt && (st.funding || st.basis);
            var overBoth := s.funding + s.basis + p > Cap(cfg, s, 100.0 - cfg.cashReservePct);
            && (v == UnknownStrategy <==> !exempt && !st.funding && !st.basis)
            && (v == StrategyCap <==> known && overOwn)
            && (v == CombinedCap <==> known && !overOwn && overBoth)
            && (v == Approved <==> exempt || (known && !overOwn && !overBoth))
  {
    CashReserveNeverRejects(cfg, s, intent);
    hide Cap, Available, PerLeg;
  }

  /** Releasing what was approved restores the state. */
  lemma ReleaseUndoesApproval(cfg: Config, s: State, intent: Intent)
    requires Decide(cfg, s, intent) == Approved && !Exempt(intent.strategy) && s.funding >= 0.0 && s.basis >= 0.0
    ensures AfterRelease(AfterApprove(cfg, s, intent), intent.strategy, PerLeg(intent.legNotionals)) == s
    ensures var t := AfterApprove(cfg, s, intent);
            if intent.strategy.funding then t.funding == s.funding + PerLeg(intent.legNotionals) && t.basis == s.basis
            else t.basis == s.basis + PerLeg(intent.legNotionals) && t.funding == s.funding
  {
    hide Cap, Available, PerLeg;
  }

  /** Releasing more than there is leaves nothing, and releasing of an unknown strategy does nothing. */
  lemma ReleaseClamps(s: State, st: Strategy, notional: real)
    ensures var t := AfterRelease(s, st, notional);
            && (st.funding ==>
                 t.basis == s.basis && t.funding == if notional > s.funding then 0.0 else s.funding - notional)
            && (!st.funding && st.basis ==>
                 t.funding == s.funding && t.basis == if notional > s.basis then 0.0 else s.basis - notional)
            && (!st.funding && !st.basis ==> t == s)
            && t.equity == s.equity && t.drawdownPct == s.drawdownPct
  {
  }

  lemma Times(c: real, f: real, k: real)
    requires c > 0.0 && 0.0 < f <= 1.0 && k == c * f
    ensures 0.0 < k <= c
  {
    assert (1.0 - f) * c >= 0.0;
  }

  lemma Share(k: real, c: real, pct: real)
    requires 0.0 < k <= c && pct >= 0.0
    ensures k * pct / 100.0 <= c * pct / 100.0
  {
    assert (c - k) * pct >= 0.0;
  }

  /** The cash-reserve check is implied by the combined cap, in every state: it never rejects anything. */
  lemma CashReserveNeverRejects(cfg: Config, s: State, intent: Intent)
    requires cfg.Valid()
    ensures Decide(cfg, s, intent) != CashReserve
  {
    hide MaxCapital, ScaleFactor, Deployable, PerLeg;
    var rest := 100.0 - cfg.cashReservePct;
    CapIsShare(cfg, s, rest);
    Scaled(cfg, s);
    Share(Deployable(cfg, s), MaxCapital(cfg, s), rest);
    assert MaxCapital(cfg, s) * rest / 100.0 == MaxCapital(cfg, s) - MaxCapital(cfg, s) * cfg.cashReservePct / 100.0;
  }

  /** What is deployed on one side leaves the other side its whole cap. */
  ghost predicate LeavesRoom(cfg: Config, s: State, other: real, pct: real) {
    other <= Cap(cfg, s, 100.0 - cfg.cashReservePct) - Cap(cfg, s, pct)
  }

  /** The combined cap never rejects a funding intent that passed its own cap, exactly when basis leaves room. */
  lemma CombinedRedundantForFunding(cfg: Config, s: State)
    ensures (forall intent: Intent :: intent.strategy.funding ==> Decide(cfg, s, intent) != CombinedCap)
       <==> LeavesRoom(cfg, s, s.basis, cfg.fundingMaxPct)
  {
    hide Cap, Available;
    if !LeavesRoom(cfg, s, s.basis, cfg.fundingMaxPct) {
      var intent := Intent(Strategy(false, false, true, false), [Cap(cfg, s, cfg.fundingMaxPct) - s.funding]);
      SingleLeg(intent.legNotionals);
      assert Decide(cfg, s, intent) == CombinedCap;
    }
  }

  lemma CombinedRedundantForBasis(cfg: Config, s: State)
    ensures (forall intent: Intent ::
               intent.strategy.basis && !intent.strategy.funding ==> Decide(cfg, s, intent) != CombinedCap)
       <==> LeavesRoom(cfg, s, s.funding, cfg.basisMaxPct)
  {
    hide Cap, Available;
    if !LeavesRoom(cfg, s, s.funding, cfg.basisMaxPct) {
      var intent := Intent(Strategy(false, false, false, true), [Cap(cfg, s, cfg.basisMaxPct) - s.basis]);
      SingleLeg(intent.legNotionals);
      assert Decide(cfg, s, intent) == CombinedCap;
    }
  }

  lemma SingleLeg(legs: seq<real>)
    requires |legs| == 1
    ensures PerLeg(legs) == legs[0]
  {
    SumStep(legs, 0);
    assert legs[..1] == legs && legs[..0] == [];
  }

  // ---------------------------------------------------------------------
  // Runs
  // ---------------------------------------------------------------------

  datatype Op =
    | Approve(intent: Intent)
    | Release(strategy: Strategy, notional: real)
    | Update(equity: real, drawdownPct: real)

  function Step(cfg: Config, s: State, op: Op): State {
    match op
    case Approve(intent) => AfterApprove(cfg, s, intent)
    case Release(st, notional) => AfterRelease(s, st, notional)
    case Update(equity, dd) => s.(equity := equity, drawdownPct := dd)
  }

  function Run(cfg: Config, s: State, ops: seq<Op>): State {
    if ops == [] then s else Step(cfg, Run(cfg, s, ops[..|ops| - 1]), ops[|ops| - 1])
  }

  /** No step shrinks the deployable capital, and releases are not negative. */
  ghost predicate Steady(cfg: Config, s: State, op: Op) {
    && Deployable(cfg, Step(cfg, s, op)) >= Deployable(cfg, s)
    && (op.Release? ==> op.notional >= 0.0)
  }

  ghost predicate SteadyRun(cfg: Config, s: State, ops: seq<Op>) {
    forall i :: 0 <= i < |ops| ==> Steady(cfg, Run(cfg, s, ops[..i]), ops[i])
  }

  /** Each strategy is within its own cap. */
  ghost predicate WithinCaps(cfg: Config, s: State) {
    s.funding <= Cap(cfg, s, cfg.fundingMaxPct) && s.basis <= Cap(cfg, s, cfg.basisMaxPct)
  }

  lemma WithinCapsStep(cfg: Config, s: State, op: Op)
    requires cfg.Valid() && WithinCaps(cfg, s) && Steady(cfg, s, op)
    ensures WithinCaps(cfg, Step(cfg, s, op))
  {
    hide MaxCapital, ScaleFactor, Deployable, PerLeg;
    var t := Step(cfg, s, op);
    Scaled(cfg, s);
    CapIsShare(cfg, s, cfg.fundingMaxPct);
    CapIsShare(cfg, s, cfg.basisMaxPct);
    CapIsShare(cfg, t, cfg.fundingMaxPct);
    CapIsShare(cfg, t, cfg.basisMaxPct);
    Share(Deployable(cfg, s), Deployable(cfg, t), cfg.fundingMaxPct);
    Share(Deployable(cfg, s), Deployable(cfg, t), cfg.basisMaxPct);
    NonNegativeShare(Deployable(cfg, t), cfg.fundingMaxPct);
    NonNegativeShare(Deployable(cfg, t), cfg.basisMaxPct);
    SameCaps(cfg, s, op);
  }

  lemma NonNegativeShare(k: real, pct: real)
    requires k >= 0.0 && pct >= 0.0
    ensures k * pct / 100.0 >= 0.0
  {
  }

  /** Only an equity update moves the caps. */
  lemma SameCaps(cfg: Config, s: State, op: Op)
    ensures !op.Update? ==> forall pct :: Cap(cfg, Step(cfg, s, op), pct) == Cap(cfg, s, pct)
  {
    hide Decide, PerLeg;
  }

  lemma {:induction false} AlwaysWithinCaps(cfg: Config, ops: seq<Op>)
    requires cfg.Valid() && SteadyRun(cfg, Start(cfg), ops)
    ensures WithinCaps(cfg, Run(cfg, Start(cfg), ops))
  {
    if ops == [] {
      StartWithinCaps(cfg);
    } else {
      hide Steady, WithinCaps, Step;
      var n := |ops| - 1;
      assert SteadyRun(cfg, Start(cfg), ops[..n]) by {
        forall i | 0 <= i < n ensures Steady(cfg, Run(cfg, Start(cfg), ops[..n][..i]), ops[..n][i]) {
          assert ops[..n][..i] == ops[..i];
        }
      }
      AlwaysWithinCaps(cfg, ops[..n]);
      WithinCapsStep(cfg, Run(cfg, Start(cfg), ops[..n]), ops[n]);
    }
  }

  lemma StartWithinCaps(cfg: Config)
    requires cfg.Valid()
    ensures WithinCaps(cfg, Start(cfg))
  {
    NonNegativeShare(cfg.initialCapital, cfg.fundingMaxPct);
    NonNegativeShare(cfg.initialCapital, cfg.basisMaxPct);
  }

  lemma CapsAddUp(cfg: Config, s: State)
    requires cfg.Valid()
    ensures Cap(cfg, s, cfg.fundingMaxPct) + Cap(cfg, s, cfg.basisMaxPct) <= Cap(cfg, s, 100.0 - cfg.cashReservePct)
  {
    hide MaxCapital, ScaleFactor, Deployable;
    var f, b, rest := cfg.fundingMaxPct, cfg.basisMaxPct, 100.0 - cfg.cashReservePct;
    Scaled(cfg, s);
    CapIsShare(cfg, s, f);
    CapIsShare(cfg, s, b);
    CapIsShare(cfg, s, rest);
    NonNegativeShare(Deployable(cfg, s), rest - f - b);
    assert Deployable(cfg, s) * (rest - f - b)
        == Deployable(cfg, s) * rest - Deployable(cfg, s) * f - Deployable(cfg, s) * b;
  }

  /** In every reachable state of a steady run, only the strategy's own cap can reject a known strategy. */
  lemma OnlyOwnCapRejects(cfg: Config, ops: seq<Op>, intent: Intent)
    requires cfg.Valid() && SteadyRun(cfg, Start(cfg), ops)
    ensures Decide(cfg, Run(cfg, Start(cfg), ops), intent) in {Approved, UnknownStrategy, StrategyCap}
    ensures intent.strategy.funding || intent.strategy.basis ==>
              (Decide(cfg, Run(cfg, Start(cfg), ops), intent) == Approved
               <==> Exempt(intent.strategy) || OwnCapPassed(cfg, Run(cfg, Start(cfg), ops), intent))
  {
    hide Cap, Run, Available, PerLeg;
    var s := Run(cfg, Start(cfg), ops);
    AlwaysWithinCaps(cfg, ops);
    CapsAddUp(cfg, s);
    CashReserveNeverRejects(cfg, s, intent);
  }

  /** When capital shrinks the combined cap does reject: equity halves while basis is at its cap. */
  lemma ShrinkingCapitalCounterexample()
    ensures var cfg := Config(100.0, 60.0, 25.0, 12.0, false);
            var ops := [Approve(Intent(Strategy(false, false, false, true), [25.0])), Update(50.0, 0.0)];
            && cfg.Valid()
            && Run(cfg, Start(cfg), ops) == State(50.0, 0.0, 0.0, 25.0)
            && !LeavesRoom(cfg, Run(cfg, Start(cfg), ops), 25.0, cfg.fundingMaxPct)
            && var intent := Intent(Strategy(false, false, true, false), [30.0]);
               Decide(cfg, Run(cfg, Start(cfg), ops), intent) == CombinedCap
  {
    hide PerLeg;
    var cfg := Config(100.0, 60.0, 25.0, 12.0, false);
    var a, b := Approve(Intent(Strategy(false, false, false, true), [25.0])), Update(50.0, 0.0);
    SingleLeg([25.0]);
    SingleLeg([30.0]);
    assert [a, b][..1] == [a] && [a][..0] == [];
    assert Run(cfg, Start(cfg), [a]) == Step(cfg, Start(cfg), a) == State(100.0, 0.0, 0.0, 25.0);
    assert Run(cfg, Start(cfg), [a, b]) == Step(cfg, State(100.0, 0.0, 0.0, 25.0), b);
  }
}
