/** Position sizing of `RiskManager` (risk_management.py): risk a fixed
    fraction of capital over a stop 1.5 ATR away, cap the notional at
    capital times leverage, then raise it to the exchange minimum. */
module Risk {
  import opened Py

  /** The exchange's minimum order value in USDT. */
  const MIN_ORDER_USDT: real := 6.0

  const SL_ATR_MULT: real := 1.5
  const TP_ATR_MULT: real := 2.5

  /** The risk fraction and leverage, read once from the settings when the
      manager is built; later changes of the settings do not reach it. */
  datatype RiskManager = RiskManager(riskPct: real, leverage: int)

  /** `RiskManager.__init__` */
  function NewRiskManager(riskPercentage: real, leverage: int): (m: RiskManager)
    ensures m.riskPct == riskPercentage && m.leverage == leverage
  {
    RiskManager(riskPercentage, leverage)
  }

  /** The result dictionary of `calculate_position_size`. */
  datatype Sizing = Sizing(size: real, investUsdt: real, tpDist: real, slDist: real)

  /** Every field 0.0: a non-positive capital, price or ATR. */
  const ZERO_SIZING := Sizing(0.0, 0.0, 0.0, 0.0)

  /** The notional before the order size is rounded: the risk-parity
      notional, cut to capital times leverage, then raised to the minimum. */
  function PlannedNotional(m: RiskManager, capital: real, entryPrice: real, atr: real): real
    requires entryPrice > 0.0 && atr > 0.0
  {
    var riskAmount := capital * m.riskPct;
    var slDistance := atr * SL_ATR_MULT;
    var calcSize := riskAmount / slDistance;
    var maxNotional := capital * (m.leverage as real);
    var current := calcSize * entryPrice;
    var capped := if current > maxNotional then (maxNotional / entryPrice) * entryPrice else current;
    if capped < MIN_ORDER_USDT then MIN_ORDER_USDT else capped
  }

  /** The order size before rounding, matching the planned notional. */
  function PlannedSize(m: RiskManager, capital: real, entryPrice: real, atr: real): real
    requires entryPrice > 0.0 && atr > 0.0
  {
    var riskAmount := capital * m.riskPct;
    var slDistance := atr * SL_ATR_MULT;
    var calcSize := riskAmount / slDistance;
    var maxNotional := capital * (m.leverage as real);
    var current := calcSize * entryPrice;
    var size := if current > maxNotional then maxNotional / entryPrice else calcSize;
    var notional := if current > maxNotional then (maxNotional / entryPrice) * entryPrice else current;
    if notional < MIN_ORDER_USDT then MIN_ORDER_USDT / entryPrice else size
  }

  /** `calculate_position_size`. `toPrecision` is the exchange's amount
      rounding read back as a number (None when it raises, in which case
      the unrounded size is used). The result is None where the division
      by a zero leverage raises. */
  function PositionSize(m: RiskManager, capital: real, entryPrice: real, atr: real, toPrecision: real -> Option<real>)
    : (r: Option<Sizing>)
    ensures capital <= 0.0 || entryPrice <= 0.0 || atr <= 0.0 ==> r == Some(ZERO_SIZING)
    ensures capital > 0.0 && entryPrice > 0.0 && atr > 0.0 ==> (r.None? <==> m.leverage == 0)
  {
    if capital <= 0.0 || entryPrice <= 0.0 || atr <= 0.0 then Some(ZERO_SIZING)
    else
      var slDistance := atr * SL_ATR_MULT;
      var tpDistance := atr * TP_ATR_MULT;
      var calcSize := PlannedSize(m, capital, entryPrice, atr);
      var finalSize := toPrecision(calcSize).GetOr(calcSize);
      if m.leverage == 0 then None
      else Some(Sizing(finalSize, PlannedNotional(m, capital, entryPrice, atr) / (m.leverage as real), tpDistance, slDistance))
  }

  /** Dividing by a non-zero price and multiplying back is exact on reals. */
  lemma DivMul(x: real, p: real)
    requires p != 0.0
    ensures (x / p) * p == x
  {
  }

  /** The cap and the floor of the planned notional, on plain numbers. */
  lemma CapThenFloor(current: real, maxNotional: real, p: real)
    requires p > 0.0
    ensures var capped := if current > maxNotional then (maxNotional / p) * p else current;
      (if capped < MIN_ORDER_USDT then MIN_ORDER_USDT else capped) == Max(MIN_ORDER_USDT, Min(maxNotional, current))
  {
    DivMul(maxNotional, p);
  }

  /** The planned size times the price is the planned notional, on plain
      numbers. */
  lemma SizeTimesPrice(calcSize: real, maxNotional: real, p: real)
    requires p > 0.0
    ensures var current := calcSize * p;
      var size := if current > maxNotional then maxNotional / p else calcSize;
      var notional := if current > maxNotional then (maxNotional / p) * p else current;
      (if notional < MIN_ORDER_USDT then MIN_ORDER_USDT / p else size) * p
        == (if notional < MIN_ORDER_USDT then MIN_ORDER_USDT else notional)
  {
    DivMul(maxNotional, p);
    DivMul(MIN_ORDER_USDT, p);
  }

  /** The planned notional is the risk-parity notional capped at capital
      times leverage and then floored at the minimum order; the floor is
      applied last, so it wins even over a cap below it. */
  lemma PlannedNotionalFormula(m: RiskManager, capital: real, entryPrice: real, atr: real)
    requires entryPrice > 0.0 && atr > 0.0
    ensures PlannedNotional(m, capital, entryPrice, atr)
      == Max(MIN_ORDER_USDT, Min(capital * (m.leverage as real), (capital * m.riskPct / (atr * SL_ATR_MULT)) * entryPrice))
    ensures PlannedNotional(m, capital, entryPrice, atr) >= MIN_ORDER_USDT
  {
    CapThenFloor((capital * m.riskPct / (atr * SL_ATR_MULT)) * entryPrice, capital * (m.leverage as real), entryPrice);
  }

  /** The planned size is the planned notional at the entry price. */
  lemma PlannedSizeAtPrice(m: RiskManager, capital: real, entryPrice: real, atr: real)
    requires entryPrice > 0.0 && atr > 0.0
    ensures PlannedSize(m, capital, entryPrice, atr) * entryPrice == PlannedNotional(m, capital, entryPrice, atr)
  {
    var calcSize := capital * m.riskPct / (atr * SL_ATR_MULT);
    SizeTimesPrice(calcSize, capital * (m.leverage as real), entryPrice);
  }

  /** For usable inputs the take-profit distance exceeds the stop distance,
      the invested margin is the planned notional over the leverage, the
      unrounded size is positive and the reported size is the rounded one
      (or the unrounded one when rounding raises). */
  lemma PositionSizeFacts(m: RiskManager, capital: real, entryPrice: real, atr: real, toPrecision: real -> Option<real>)
    requires capital > 0.0 && entryPrice > 0.0 && atr > 0.0 && m.leverage != 0
    ensures var r := PositionSize(m, capital, entryPrice, atr, toPrecision);
      var planned := PlannedSize(m, capital, entryPrice, atr);
      && r.Some?
      && r.value.tpDist > r.value.slDist > 0.0
      && r.value.slDist == 1.5 * atr && r.value.tpDist == 2.5 * atr
      && r.value.investUsdt * (m.leverage as real) == PlannedNotional(m, capital, entryPrice, atr)
      && planned > 0.0
      && r.value.size == (if toPrecision(planned).Some? then toPrecision(planned).value else planned)
  {
    PlannedNotionalFormula(m, capital, entryPrice, atr);
    PlannedSizeAtPrice(m, capital, entryPrice, atr);
    var planned := PlannedSize(m, capital, entryPrice, atr);
    assert planned * entryPrice >= MIN_ORDER_USDT;
    var notional := PlannedNotional(m, capital, entryPrice, atr);
    assert (notional / (m.leverage as real)) * (m.leverage as real) == notional;
  }

  /** Capital 100 at 0.5% risk and 5x leverage, entry 150, ATR 1.5: a stop
      2.25 away, 2/9 of a coin, notional 100/3 and a margin of 20/3. */
  lemma SizingExample(toPrecision: real -> Option<real>)
    requires forall x :: toPrecision(x) == None
    ensures PositionSize(RiskManager(0.005, 5), 100.0, 150.0, 1.5, toPrecision)
      == Some(Sizing(2.0 / 9.0, 20.0 / 3.0, 3.75, 2.25))
  {
    PlannedNotionalFormula(RiskManager(0.005, 5), 100.0, 150.0, 1.5);
  }
}
