/** Position sizing and stop placement (internal/scanner/risk_manager.go). */
module RiskManager {
  import opened RealSeq

  datatype Config = Config(maxRiskPerTradePct: real, leverage: real, rr: real, tp2Multiplier: real, tp3Multiplier: real,
                           atrMultiplierSl: real, minSlPct: real, maxSlPct: real, minPositionUsd: real)

  datatype Direction = Long | Short

  datatype Params = Params(entry: real, stopLoss: real, takeProfit1: real, takeProfit2: real, takeProfit3: real,
                           positionUsd: real, positionQty: real, riskUsd: real, riskPct: real, slDistancePct: real)

  datatype Result = Ok(params: Params) | BadEntry | BadBalance | TooSmall

  /** A percentage of an amount. */
  function PctOf(pct: real, amount: real): real { amount * (pct / 100.0) }

  function SlDistance(cfg: Config, dir: Direction, entry: real, atr: real, structure: real): real {
    var atrSl := atr * cfg.atrMultiplierSl;
    var structureSl :=
      if structure > 0.0 then (if dir == Long then entry - structure else structure - entry) + entry * 0.001 else 0.0;
    var sl := if structureSl > 0.0 && structureSl < atrSl * 2.0 then structureSl else atrSl;
    Min(Max(sl, PctOf(cfg.minSlPct, entry)), PctOf(cfg.maxSlPct, entry))
  }

  function ConfidenceScale(score: int): real {
    if score >= 5 then 1.0 else if score >= 4 then 0.9 else if score >= 3 then 0.8 else if score >= 2 then 0.65 else 0.5
  }

  /** Quantity, notional and risk of a position. */
  datatype Size = Size(qty: real, usd: real, risk: real)

  function Notional(qty: real, price: real): real { qty * price }

  function LeverageCap(cfg: Config, balance: real): real { balance * cfg.leverage }

  /** The risk budget, scaled by confidence. */
  function Budget(cfg: Config, balance: real, score: int): real {
    PctOf(cfg.maxRiskPerTradePct, balance) * ConfidenceScale(score)
  }

  /** The position for a risk budget, capped by leverage and then by 3% of the initial balance. */
  function SizeFor(cfg: Config, entry: real, sl: real, balance: real, initial: real, budget: real): Size
    requires entry > 0.0 && sl > 0.0
  {
    var qty := Divide(budget, sl);
    var usd := Notional(qty, entry);
    var maxUsd := LeverageCap(cfg, balance);
    var levered := if usd > maxUsd then (Divide(maxUsd, entry), maxUsd) else (qty, usd);
    var risk := Notional(levered.0, sl);
    var maxRisk := PctOf(3.0, initial);
    if risk > maxRisk then Size(Divide(maxRisk, sl), Notional(Divide(maxRisk, sl), entry), maxRisk)
    else Size(levered.0, levered.1, risk)
  }

  /** Without a positive maximum stop the source would divide by a stop distance of zero or less. */
  predicate ValidBand(cfg: Config) { 0.0 < cfg.minSlPct <= cfg.maxSlPct < 100.0 }

  function Compute(cfg: Config, dir: Direction, entry: real, atr: real, balance: real, initial: real, score: int,
                   structure: real): Result
    requires ValidBand(cfg)
  {
    if entry <= 0.0 then BadEntry
    else if balance <= 0.0 then BadBalance
    else
      SlBand(cfg, dir, entry, atr, structure);
      var sl := SlDistance(cfg, dir, entry, atr, structure);
      var size := SizeFor(cfg, entry, sl, balance, initial, Budget(cfg, balance, score));
      if size.usd < cfg.minPositionUsd then TooSmall
      else
        Ok(Params(entry, StopAt(dir, entry, sl), TargetAt(dir, entry, sl, cfg.rr),
                  TargetAt(dir, entry, sl, cfg.tp2Multiplier), TargetAt(dir, entry, sl, cfg.tp3Multiplier),
                  size.usd, size.qty, size.risk, size.risk / balance * 100.0, sl / entry * 100.0))
  }

  function StopAt(dir: Direction, entry: real, sl: real): real {
    if dir == Long then entry - sl else entry + sl
  }

  function TargetAt(dir: Direction, entry: real, sl: real, multiple: real): real {
    if dir == Long then entry + sl * multiple else entry - sl * multiple
  }

  // ---------------------------------------------------------------------
  // Arithmetic
  // ---------------------------------------------------------------------

  lemma PctOfMono(p: real, q: real, amount: real)
    requires p <= q && amount >= 0.0
    ensures PctOf(p, amount) <= PctOf(q, amount)
  {
    ScaleMonotone(p / 100.0, q / 100.0, amount);
  }

  /** The stop distance is positive and within its band, whatever the volatility and structure. */
  lemma SlBand(cfg: Config, dir: Direction, entry: real, atr: real, structure: real)
    requires ValidBand(cfg) && entry > 0.0
    ensures var sl := SlDistance(cfg, dir, entry, atr, structure);
            && 0.0 < PctOf(cfg.minSlPct, entry) <= sl <= PctOf(cfg.maxSlPct, entry) < entry
  {
    hide PctOf;
    PctOfMono(cfg.minSlPct, cfg.maxSlPct, entry);
    PctOfBounds(cfg.minSlPct, entry);
    PctOfBounds(cfg.maxSlPct, entry);
  }

  lemma PctOfBounds(p: real, amount: real)
    requires 0.0 < p < 100.0 && amount > 0.0
    ensures 0.0 < PctOf(p, amount) < amount
  {
    FractionOf(p / 100.0, amount, PctOf(p, amount));
  }

  lemma FractionOf(f: real, amount: real, part: real)
    requires 0.0 < f < 1.0 && amount > 0.0 && part == amount * f
    ensures 0.0 < part < amount
  {
    var g := 1.0 - f;
    assert amount * g == amount - part;
    assert amount * g > 0.0;
  }

  lemma QuantityInverse(amount: real, unit: real)
    requires unit > 0.0
    ensures Notional(Divide(amount, unit), unit) == amount
  {
  }

  lemma NotionalMono(q: real, r: real, price: real)
    requires q <= r && price >= 0.0
    ensures Notional(q, price) <= Notional(r, price)
  {
  }

  lemma NotionalStrict(q: real, r: real, price: real)
    requires q < r && price > 0.0
    ensures Notional(q, price) < Notional(r, price)
  {
    assert (r - q) * price > 0.0;
  }

  lemma QuantityCompare(q: real, r: real, price: real)
    requires price > 0.0 && Notional(q, price) <= Notional(r, price)
    ensures q <= r
  {
    if q > r {
      NotionalStrict(r, q, price);
    }
  }

  // ---------------------------------------------------------------------
  // Sizing
  // ---------------------------------------------------------------------

  /** The size is consistent and respects all three limits: the budget, leverage and 3% of the initial balance. */
  lemma SizeWithinLimits(cfg: Config, entry: real, sl: real, balance: real, initial: real, budget: real)
    requires entry > 0.0 && sl > 0.0
    ensures var s := SizeFor(cfg, entry, sl, balance, initial, budget);
            && s.risk == Notional(s.qty, sl) && s.usd == Notional(s.qty, entry)
            && s.risk <= budget && s.risk <= PctOf(3.0, initial) && s.usd <= LeverageCap(cfg, balance)
  {
    hide Divide, Notional, PctOf, LeverageCap;
    var maxUsd, maxRisk := LeverageCap(cfg, balance), PctOf(3.0, initial);
    var qty := Divide(budget, sl);
    QuantityInverse(budget, sl);
    QuantityInverse(maxUsd, entry);
    QuantityInverse(maxRisk, sl);
    var levered := if Notional(qty, entry) > maxUsd then Divide(maxUsd, entry) else qty;
    assert levered <= qty by {
      if Notional(qty, entry) > maxUsd {
        QuantityCompare(levered, qty, entry);
      }
    }
    NotionalMono(levered, qty, sl);
    if Notional(levered, sl) > maxRisk {
      QuantityCompare(Divide(maxRisk, sl), levered, sl);
      NotionalMono(Divide(maxRisk, sl), levered, entry);
    }
  }

  /** The size is the largest that all three limits allow. */
  lemma SizeIsLargest(cfg: Config, entry: real, sl: real, balance: real, initial: real, budget: real, qty: real)
    requires entry > 0.0 && sl > 0.0
    requires Notional(qty, sl) <= budget && Notional(qty, sl) <= PctOf(3.0, initial)
    requires Notional(qty, entry) <= LeverageCap(cfg, balance)
    ensures qty <= SizeFor(cfg, entry, sl, balance, initial, budget).qty
  {
    hide Divide, Notional, PctOf, LeverageCap;
    QuantityInverse(budget, sl);
    QuantityCompare(qty, Divide(budget, sl), sl);
    QuantityInverse(LeverageCap(cfg, balance), entry);
    QuantityCompare(qty, Divide(LeverageCap(cfg, balance), entry), entry);
    QuantityInverse(PctOf(3.0, initial), sl);
    QuantityCompare(qty, Divide(PctOf(3.0, initial), sl), sl);
  }

  /** A larger budget never means a smaller quantity. */
  lemma SizeMonotone(cfg: Config, entry: real, sl: real, balance: real, initial: real, budget: real, budget': real)
    requires entry > 0.0 && sl > 0.0 && budget <= budget'
    ensures var s := SizeFor(cfg, entry, sl, balance, initial, budget);
            var s' := SizeFor(cfg, entry, sl, balance, initial, budget');
            s.qty <= s'.qty && s.usd <= s'.usd && s.risk <= s'.risk
  {
    hide SizeFor, Notional;
    var s, s' := SizeFor(cfg, entry, sl, balance, initial, budget), SizeFor(cfg, entry, sl, balance, initial, budget');
    SizeWithinLimits(cfg, entry, sl, balance, initial, budget);
    SizeWithinLimits(cfg, entry, sl, balance, initial, budget');
    SizeIsLargest(cfg, entry, sl, balance, initial, budget', s.qty);
    NotionalMono(s.qty, s'.qty, entry);
    NotionalMono(s.qty, s'.qty, sl);
  }

  lemma ConfidenceMonotone(score: int, score': int)
    requires score <= score'
    ensures 0.5 <= ConfidenceScale(score) <= ConfidenceScale(score') <= 1.0
  {
  }

  // ---------------------------------------------------------------------
  // Main results
  // ---------------------------------------------------------------------

  /** Whenever parameters are produced, size, risk, stop and targets are what the rules promise. */
  lemma ParamsAreSound(cfg: Config, dir: Direction, entry: real, atr: real, balance: real, initial: real, score: int,
                       structure: real)
    requires ValidBand(cfg) && cfg.maxRiskPerTradePct >= 0.0
    requires Compute(cfg, dir, entry, atr, balance, initial, score, structure).Ok?
    ensures var p := Compute(cfg, dir, entry, atr, balance, initial, score, structure).params;
            var sl := Abs(p.entry - p.stopLoss);
            && p.riskUsd == Notional(p.positionQty, sl) && p.positionUsd == Notional(p.positionQty, p.entry)
            && 100.0 * p.riskUsd <= 3.0 * initial && 100.0 * p.riskUsd <= cfg.maxRiskPerTradePct * balance
            && cfg.minPositionUsd <= p.positionUsd <= balance * cfg.leverage
            && cfg.minSlPct * p.entry <= 100.0 * sl <= cfg.maxSlPct * p.entry
            && (if dir == Long then 0.0 < p.stopLoss < p.entry else p.stopLoss > p.entry)
            && p.entry == entry && p.riskPct * balance == 100.0 * p.riskUsd && p.slDistancePct * p.entry == 100.0 * sl
  {
    hide PctOf, SizeFor, SlDistance, Notional, Budget, LeverageCap;
    SlBand(cfg, dir, entry, atr, structure);
    var sl := SlDistance(cfg, dir, entry, atr, structure);
    SizeWithinLimits(cfg, entry, sl, balance, initial, Budget(cfg, balance, score));
    FullBudget(cfg, balance, score);
    var size := SizeFor(cfg, entry, sl, balance, initial, Budget(cfg, balance, score));
    PctOfTimes(3.0, initial);
    PctOfTimes(cfg.maxRiskPerTradePct, balance);
    PctOfTimes(cfg.minSlPct, entry);
    PctOfTimes(cfg.maxSlPct, entry);
    LeverageIs(cfg, balance);
    PercentInverse(size.risk, balance);
    PercentInverse(sl, entry);
  }

  lemma LeverageIs(cfg: Config, balance: real)
    ensures LeverageCap(cfg, balance) == balance * cfg.leverage
  {
  }

  lemma PctOfTimes(p: real, amount: real)
    ensures 100.0 * PctOf(p, amount) == p * amount
  {
  }

  /** A quantity that the budget, the leverage and the 3% cap all allow. */
  ghost predicate Allowed(cfg: Config, entry: real, sl: real, balance: real, initial: real, budget: real, qty: real) {
    && Notional(qty, sl) <= budget && Notional(qty, sl) <= PctOf(3.0, initial)
    && Notional(qty, entry) <= LeverageCap(cfg, balance)
  }

  /** For a positive price and balance, parameters are produced exactly when some allowed position is large enough. */
  lemma ProducedExactly(cfg: Config, dir: Direction, entry: real, atr: real, balance: real, initial: real, score: int,
                        structure: real)
    requires ValidBand(cfg) && entry > 0.0 && balance > 0.0
    ensures var sl := SlDistance(cfg, dir, entry, atr, structure);
            Compute(cfg, dir, entry, atr, balance, initial, score, structure).Ok? <==>
              exists qty :: Allowed(cfg, entry, sl, balance, initial, Budget(cfg, balance, score), qty)
                            && Notional(qty, entry) >= cfg.minPositionUsd
  {
    hide PctOf, SizeFor, SlDistance, Notional, Budget, LeverageCap;
    SlBand(cfg, dir, entry, atr, structure);
    var sl := SlDistance(cfg, dir, entry, atr, structure);
    var budget := Budget(cfg, balance, score);
    var size := SizeFor(cfg, entry, sl, balance, initial, budget);
    SizeWithinLimits(cfg, entry, sl, balance, initial, budget);
    assert Allowed(cfg, entry, sl, balance, initial, budget, size.qty);
    forall qty | Allowed(cfg, entry, sl, balance, initial, budget, qty) ensures Notional(qty, entry) <= size.usd {
      SizeIsLargest(cfg, entry, sl, balance, initial, budget, qty);
      NotionalMono(qty, size.qty, entry);
    }
  }

  lemma PercentInverse(part: real, whole: real)
    requires whole > 0.0
    ensures (part / whole * 100.0) * whole == 100.0 * part
  {
  }

  /** The budget grows with the score, up to the configured percentage of the balance. */
  lemma BudgetGrows(cfg: Config, balance: real, score: int, score': int)
    requires cfg.maxRiskPerTradePct >= 0.0 && balance > 0.0
    ensures score <= score' ==> Budget(cfg, balance, score) <= Budget(cfg, balance, score')
  {
    hide ConfidenceScale;
    if score <= score' {
      ConfidenceMonotone(score, score');
      var b := PctOf(cfg.maxRiskPerTradePct, balance);
      ScaleMonotone(0.0, cfg.maxRiskPerTradePct / 100.0, balance);
      ScaleMonotone(ConfidenceScale(score), ConfidenceScale(score'), b);
    }
  }

  lemma FullBudget(cfg: Config, balance: real, score: int)
    requires cfg.maxRiskPerTradePct >= 0.0 && balance > 0.0
    ensures Budget(cfg, balance, score) <= PctOf(cfg.maxRiskPerTradePct, balance)
  {
    hide PctOf;
    var top := if score < 5 then 5 else score;
    BudgetGrows(cfg, balance, score, top);
  }

  /** Where the stop would go with this structure level: 0.1% of the entry price beyond it. */
  function StructureStop(dir: Direction, entry: real, structure: real): real {
    if dir == Long then structure - entry * 0.001 else structure + entry * 0.001
  }

  /** x, moved into the band. */
  ghost predicate IsClamped(x: real, low: real, high: real, r: real) {
    low <= r <= high && (low <= x <= high ==> r == x) && (x < low ==> r == low) && (x > high ==> r == high)
  }

  /**
   * The stop goes just beyond the structure level when that is on the losing side and closer than twice the
   * volatility stop; otherwise it is the volatility stop. Either is moved into the band.
   */
  lemma StopPlacement(cfg: Config, dir: Direction, entry: real, atr: real, structure: real)
    requires ValidBand(cfg) && entry > 0.0
    ensures var beyond := if dir == Long then entry - StructureStop(dir, entry, structure)
                          else StructureStop(dir, entry, structure) - entry;
            var usable := structure > 0.0 && 0.0 < beyond < 2.0 * (atr * cfg.atrMultiplierSl);
            IsClamped(if usable then beyond else atr * cfg.atrMultiplierSl,
                      PctOf(cfg.minSlPct, entry), PctOf(cfg.maxSlPct, entry),
                      SlDistance(cfg, dir, entry, atr, structure))
  {
    hide PctOf;
    PctOfMono(cfg.minSlPct, cfg.maxSlPct, entry);
  }

  /** Each target is that multiple of the stop away, on the profitable side exactly when the multiple is positive. */
  lemma TargetsOnProfitableSide(cfg: Config, dir: Direction, entry: real, atr: real, balance: real, initial: real,
                                score: int, structure: real)
    requires ValidBand(cfg) && Compute(cfg, dir, entry, atr, balance, initial, score, structure).Ok?
    ensures var p := Compute(cfg, dir, entry, atr, balance, initial, score, structure).params;
            && IsTarget(dir, p, p.takeProfit1, cfg.rr)
            && IsTarget(dir, p, p.takeProfit2, cfg.tp2Multiplier)
            && IsTarget(dir, p, p.takeProfit3, cfg.tp3Multiplier)
  {
    hide PctOf, SizeFor, SlDistance, StopAt, TargetAt, IsTarget;
    SlBand(cfg, dir, entry, atr, structure);
    var sl := SlDistance(cfg, dir, entry, atr, structure);
    var p := Compute(cfg, dir, entry, atr, balance, initial, score, structure).params;
    TargetIs(dir, p, sl, cfg.rr);
    TargetIs(dir, p, sl, cfg.tp2Multiplier);
    TargetIs(dir, p, sl, cfg.tp3Multiplier);
  }

  ghost predicate IsTarget(dir: Direction, p: Params, target: real, multiple: real) {
    && target - p.entry == (p.entry - p.stopLoss) * multiple
    && (multiple > 0.0 <==> if dir == Long then target > p.entry else target < p.entry)
  }

  lemma TargetIs(dir: Direction, p: Params, sl: real, multiple: real)
    requires sl > 0.0 && p.stopLoss == StopAt(dir, p.entry, sl)
    ensures IsTarget(dir, p, TargetAt(dir, p.entry, sl, multiple), multiple)
  {
    SignOfMultiple(sl, multiple);
    if dir == Short {
      assert p.entry - p.stopLoss == -sl;
    }
  }

  lemma SignOfMultiple(sl: real, m: real)
    requires sl > 0.0
    ensures m > 0.0 <==> sl * m > 0.0
  {
  }

  /** More confluence never fails where less succeeded, and never means less risk or a smaller position. */
  lemma GrowsWithConfluence(cfg: Config, dir: Direction, entry: real, atr: real, balance: real, initial: real,
                            score: int, score': int, structure: real)
    requires ValidBand(cfg) && cfg.maxRiskPerTradePct >= 0.0 && score <= score'
    requires Compute(cfg, dir, entry, atr, balance, initial, score, structure).Ok?
    ensures Compute(cfg, dir, entry, atr, balance, initial, score', structure).Ok?
    ensures var p := Compute(cfg, dir, entry, atr, balance, initial, score, structure).params;
            var p' := Compute(cfg, dir, entry, atr, balance, initial, score', structure).params;
            && p.riskUsd <= p'.riskUsd && p.positionQty <= p'.positionQty && p.positionUsd <= p'.positionUsd
            && p.stopLoss == p'.stopLoss && p.takeProfit1 == p'.takeProfit1
  {
    hide PctOf, SizeFor, SlDistance, Budget;
    SlBand(cfg, dir, entry, atr, structure);
    var sl := SlDistance(cfg, dir, entry, atr, structure);
    BudgetGrows(cfg, balance, score, score');
    SizeMonotone(cfg, entry, sl, balance, initial, Budget(cfg, balance, score), Budget(cfg, balance, score'));
  }

  /** The share of the configured risk that a score earns, in twentieths. */
  function Twentieths(score: int): int {
    if score >= 5 then 20 else if score == 4 then 18 else if score == 3 then 16 else if score == 2 then 13 else 10
  }

  /** The budget is that share of the configured percentage of the balance. */
  lemma BudgetExactly(cfg: Config, balance: real, score: int)
    ensures 2000.0 * Budget(cfg, balance, score) == Twentieths(score) as real * (cfg.maxRiskPerTradePct * balance)
  {
    var full := PctOf(cfg.maxRiskPerTradePct, balance);
    assert 100.0 * full == cfg.maxRiskPerTradePct * balance;
    assert 20.0 * ConfidenceScale(score) == Twentieths(score) as real;
    Shares(full, ConfidenceScale(score));
  }

  lemma Shares(full: real, scale: real)
    ensures 2000.0 * (full * scale) == (20.0 * scale) * (100.0 * full)
  {
  }

  /** Which of the errors is returned. */
  lemma FailsExactly(cfg: Config, dir: Direction, entry: real, atr: real, balance: real, initial: real, score: int,
                     structure: real)
    requires ValidBand(cfg)
    ensures var r := Compute(cfg, dir, entry, atr, balance, initial, score, structure);
            && (r == BadEntry <==> entry <= 0.0)
            && (r == BadBalance <==> entry > 0.0 && balance <= 0.0)
  {
    hide SlDistance, SizeFor, Budget;
  }

  /**
   * The position is the largest that can be had: one within the score's share of the risk, the hard cap of 3% of
   * the initial balance and the leverage is not larger.
   */
  lemma LargestPosition(cfg: Config, dir: Direction, entry: real, atr: real, balance: real, initial: real, score: int,
                        structure: real, qty: real)
    requires ValidBand(cfg) && Compute(cfg, dir, entry, atr, balance, initial, score, structure).Ok?
    requires var p := Compute(cfg, dir, entry, atr, balance, initial, score, structure).params;
             var risk := Notional(qty, Abs(entry - p.stopLoss));
             && 2000.0 * risk <= Twentieths(score) as real * (cfg.maxRiskPerTradePct * balance)
             && 100.0 * risk <= 3.0 * initial && Notional(qty, entry) <= balance * cfg.leverage
    ensures qty <= Compute(cfg, dir, entry, atr, balance, initial, score, structure).params.positionQty
  {
    hide PctOf, SizeFor, SlDistance, Notional, Budget, LeverageCap, Twentieths;
    SlBand(cfg, dir, entry, atr, structure);
    var sl := SlDistance(cfg, dir, entry, atr, structure);
    BudgetExactly(cfg, balance, score);
    PctOfTimes(3.0, initial);
    LeverageIs(cfg, balance);
    SizeIsLargest(cfg, entry, sl, balance, initial, Budget(cfg, balance, score), qty);
  }
}
