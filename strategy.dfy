/** The entry and exit decisions of `StrategyEngine` (strategy.py): the
    one-hour trend bias, the fifteen-minute regime, the three-minute entry
    gate and the chandelier exit check. Indicator values are taken as given:
    each is the last row's value of a column, which may be missing or NaN. */
module Strategy {
  import opened Py
  import opened Portfolio

  datatype Bias = Bull | Bear | NeutralBias
  datatype Regime = Trend | Range
  datatype Momentum = Bullish | Bearish | NeutralMomentum
  datatype Side = Long | Short

  /** The text the engine uses for a side, as stored by the tracker. */
  function SideText(s: Side): string {
    match s
    case Long => LONG
    case Short => SHORT
  }

  /** The value of a column that is present and not NaN. */
  function Val(x: Option<Float>): real
    requires !IsNa(x)
  {
    x.value.v
  }

  // ---------------------------------------------------------------------
  // One-hour bias
  // ---------------------------------------------------------------------

  /** The last row of the one-hour frame and its length. */
  datatype HtfFrame = HtfFrame(rows: nat, ema50: Option<Float>, ema200: Option<Float>)

  /** Both EMAs of a frame with at least 50 rows are usable. */
  predicate HtfUsable(frame: Option<HtfFrame>) {
    frame.Some? && frame.value.rows >= 50 && !IsNa(frame.value.ema50) && !IsNa(frame.value.ema200)
  }

  /** `get_htf_bias`: EMA50 against EMA200 with a 0.2% buffer on each side;
      NEUTRAL without a frame, with fewer than 50 rows or a missing EMA. */
  function HtfBias(frame: Option<HtfFrame>): (b: Bias)
    ensures b == Bull <==>
      HtfUsable(frame) && Val(frame.value.ema50) > Val(frame.value.ema200) * 1.002
    ensures b == Bear <==>
      && HtfUsable(frame)
      && Val(frame.value.ema50) <= Val(frame.value.ema200) * 1.002
      && Val(frame.value.ema50) < Val(frame.value.ema200) * 0.998
    ensures !HtfUsable(frame) ==> b == NeutralBias
  {
    if frame.None? || frame.value.rows < 50 then NeutralBias
    else
      var ema50 := frame.value.ema50;
      var ema200 := frame.value.ema200;
      if IsNa(ema50) || IsNa(ema200) then NeutralBias
      else
        var buf := Val(ema200) * 0.002;
        if Val(ema50) > Val(ema200) + buf then Bull
        else if Val(ema50) < Val(ema200) - buf then Bear
        else NeutralBias
  }

  /** For a positive EMA200 the two biases need EMA50 on opposite sides of
      it, farther than the buffer. */
  lemma HtfBiasBands(frame: Option<HtfFrame>)
    requires HtfUsable(frame) && Val(frame.value.ema200) > 0.0
    ensures HtfBias(frame) == Bull ==> Val(frame.value.ema50) > Val(frame.value.ema200)
    ensures HtfBias(frame) == Bear ==> Val(frame.value.ema50) < Val(frame.value.ema200)
    ensures HtfBias(frame) == NeutralBias <==>
      Val(frame.value.ema200) * 0.998 <= Val(frame.value.ema50) <= Val(frame.value.ema200) * 1.002
  {
  }

  // ---------------------------------------------------------------------
  // Fifteen-minute regime
  // ---------------------------------------------------------------------

  /** The last row of the fifteen-minute frame and its length. */
  datatype MtfFrame = MtfFrame(rows: nat, adx: Option<Float>, macd: Option<Float>, macdSignal: Option<Float>)

  /** The dictionary `get_mtf_regime` returns. */
  datatype MtfResult = MtfResult(
    regime: Regime,
    momentum: Momentum,
    adx: Option<real>,
    macd: Option<real>,
    macdSignal: Option<real>)

  /** The frame has the 35 rows the regime needs. */
  predicate MtfLongEnough(frame: Option<MtfFrame>) {
    frame.Some? && frame.value.rows >= 35
  }

  /** The MACD line and its signal line are both usable. */
  predicate MacdUsable(frame: Option<MtfFrame>) {
    MtfLongEnough(frame) && !IsNa(frame.value.macd) && !IsNa(frame.value.macdSignal)
  }

  /** `get_mtf_regime`: TREND when ADX reaches the threshold, momentum by
      the sign of MACD minus its signal; RANGE and NEUTRAL when the frame is
      absent, short or the values are missing. */
  function MtfRegime(frame: Option<MtfFrame>, adxThreshold: real): (r: MtfResult)
    ensures r.regime == Trend <==>
      MtfLongEnough(frame) && !IsNa(frame.value.adx) && Val(frame.value.adx) >= adxThreshold
    ensures r.adx.Some? <==> MtfLongEnough(frame) && !IsNa(frame.value.adx)
    ensures r.adx.Some? ==> r.adx.value == Val(frame.value.adx)
    ensures r.momentum == Bullish <==>
      MacdUsable(frame) && Val(frame.value.macd) > Val(frame.value.macdSignal)
    ensures r.momentum == Bearish <==>
      MacdUsable(frame) && Val(frame.value.macd) < Val(frame.value.macdSignal)
    ensures r.macd.Some? <==> MacdUsable(frame)
    ensures r.macd.Some? ==>
      r.macd.value == Val(frame.value.macd) && r.macdSignal == Some(Val(frame.value.macdSignal))
    ensures r.macd.None? ==> r.macdSignal.None?
  {
    var initial := MtfResult(Range, NeutralMomentum, None, None, None);
    if frame.None? || frame.value.rows < 35 then initial
    else
      var f := frame.value;
      var withAdx :=
        if IsNa(f.adx) then initial
        else initial.(adx := Some(Val(f.adx)), regime := if Val(f.adx) >= adxThreshold then Trend else Range);
      if IsNa(f.macd) || IsNa(f.macdSignal) then withAdx
      else
        var momentum :=
          if Val(f.macd) > Val(f.macdSignal) then Bullish
          else if Val(f.macd) < Val(f.macdSignal) then Bearish
          else withAdx.momentum;
        withAdx.(macd := Some(Val(f.macd)), macdSignal := Some(Val(f.macdSignal)), momentum := momentum)
  }

  // ---------------------------------------------------------------------
  // Entry decision
  // ---------------------------------------------------------------------

  /** The last three-minute row and the frame's length. Price and volume are
      read with `float()` and are finite here; the indicator columns are read
      with `.get`. */
  datatype Bar = Bar(
    rows: nat,
    close: real,
    high: real,
    low: real,
    volume: real,
    rsi: Option<Float>,
    lowerBand: Option<Float>,
    upperBand: Option<Float>,
    volSma20: Option<Float>,
    atr14: Option<Float>,
    atrLong: Option<Float>)

  /** The tunables read from the settings with `getattr` defaults. */
  datatype Settings = Settings(
    atrRatioMult: real,
    volMult: real,
    extremeVolMult: real,
    adxThreshold: real,
    maxSameDir: int)

  const DEFAULT_SETTINGS := Settings(1.2, 1.5, 2.5, 25.0, 2)

  /** The engine's own constants (`rsi_os`, `rsi_ob`, `session_filter_bars`). */
  const RSI_OS: real := 30.0
  const RSI_OB: real := 70.0
  const SESSION_FILTER_BARS: nat := 30
  const MIN_ROWS: nat := 50

  const SELL_PRESSURE := "SELL_PRESSURE"
  const BUY_PRESSURE := "BUY_PRESSURE"

  /** Where the decision was made. */
  datatype Stage =
    | InsufficientData
    | MissingIndicator
    | SessionFilter
    | LowVolatility
    | NoSetup
    | PortfolioLimit
    | Entered

  /** The result dictionary of `check_entry`, without its text. The market
      price and ATR are only reported once the volatility gate has passed. */
  datatype Decision = Decision(signal: Option<Side>, stage: Stage, marketPrice: Option<real>, atrVal: Option<real>)

  /** RSI_14, 50 when the column is missing. */
  function Rsi(bar: Bar): Float {
    bar.rsi.GetOr(F(50.0))
  }

  /** Vol_SMA_20, the bar's own volume when missing. */
  function VolSma(bar: Bar): Float {
    bar.volSma20.GetOr(F(bar.volume))
  }

  /** ATR_14, half a percent of the close when missing. */
  function Atr14(bar: Bar): Float {
    bar.atr14.GetOr(F(bar.close * 0.005))
  }

  /** The long ATR column, ATR_14 when missing. It is not checked for NaN. */
  function AtrLong(bar: Bar): Float {
    bar.atrLong.GetOr(Atr14(bar))
  }

  /** The missing-value guard: a band, ATR_14 or the volume average is NaN. */
  predicate MissingIndicators(bar: Bar) {
    IsNa(bar.lowerBand) || IsNa(bar.upperBand) || Atr14(bar).NaN? || VolSma(bar).NaN?
  }

  /** The gates before any direction is considered: enough rows, no missing
      indicator, the session has run long enough and ATR_14 is above the
      long ATR times the ratio (a NaN long ATR lets every bar through). */
  predicate PassesGates(bar: Bar, barsSinceReset: nat, s: Settings) {
    && bar.rows >= MIN_ROWS
    && !MissingIndicators(bar)
    && barsSinceReset >= SESSION_FILTER_BARS
    && !FLe(Atr14(bar), FScale(AtrLong(bar), s.atrRatioMult))
  }

  /** The long setup stated condition by condition: a bullish one-hour bias
      (and bullish momentum in a trend), no selling pressure, RSI at most 30,
      and either a volume spike with a rejection off the lower band or an
      extreme volume with the low at or under the lower band. */
  predicate LongSetup(bar: Bar, htf: Option<HtfFrame>, mtf: Option<MtfFrame>, cvd: Option<string>, s: Settings)
    requires !MissingIndicators(bar)
  {
    var m := MtfRegime(mtf, s.adxThreshold);
    var volSma := VolSma(bar).v;
    var lower := Val(bar.lowerBand);
    && HtfBias(htf) == Bull
    && (m.regime == Trend ==> m.momentum == Bullish)
    && cvd != Some(SELL_PRESSURE)
    && FLe(Rsi(bar), F(RSI_OS))
    && bar.low <= lower
    && ((bar.volume > volSma * s.volMult && bar.close > lower) || bar.volume > volSma * s.extremeVolMult)
  }

  /** The short setup, the mirror of the long one on the upper band. */
  predicate ShortSetup(bar: Bar, htf: Option<HtfFrame>, mtf: Option<MtfFrame>, cvd: Option<string>, s: Settings)
    requires !MissingIndicators(bar)
  {
    var m := MtfRegime(mtf, s.adxThreshold);
    var volSma := VolSma(bar).v;
    var upper := Val(bar.upperBand);
    && HtfBias(htf) == Bear
    && (m.regime == Trend ==> m.momentum == Bearish)
    && cvd != Some(BUY_PRESSURE)
    && FLe(F(RSI_OB), Rsi(bar))
    && bar.high >= upper
    && ((bar.volume > volSma * s.volMult && bar.close < upper) || bar.volume > volSma * s.extremeVolMult)
  }

  /** `check_entry` with the diagnostic logging left out: the gates in
      order, then the regime branch, then the same-direction cap. */
  function CheckEntry(
    bar: Bar, barsSinceReset: nat, htf: Option<HtfFrame>, mtf: Option<MtfFrame>,
    cvd: Option<string>, openLongs: nat, openShorts: nat, s: Settings): (d: Decision)
    ensures d.signal.Some? ==> d.stage == Entered && PassesGates(bar, barsSinceReset, s)
    ensures d.stage == InsufficientData <==> bar.rows < MIN_ROWS
    ensures d.marketPrice.Some? ==> d.marketPrice.value == bar.close
  {
    if bar.rows < MIN_ROWS then Decision(None, InsufficientData, None, None)
    else if MissingIndicators(bar) then Decision(None, MissingIndicator, None, None)
    else if barsSinceReset < SESSION_FILTER_BARS then Decision(None, SessionFilter, None, None)
    else if FLe(Atr14(bar), FScale(AtrLong(bar), s.atrRatioMult)) then Decision(None, LowVolatility, None, None)
    else
      var rsi := Rsi(bar);
      var lower := Val(bar.lowerBand);
      var upper := Val(bar.upperBand);
      var volSma := VolSma(bar).v;
      var htfBias := HtfBias(htf);
      var m := MtfRegime(mtf, s.adxThreshold);
      var isVolSpike := bar.volume > volSma * s.volMult;
      var isExtremeVol := bar.volume > volSma * s.extremeVolMult;
      var longRejection := bar.low <= lower && bar.close > lower;
      var shortRejection := bar.high >= upper && bar.close < upper;
      var cvdLongOk := cvd != Some(SELL_PRESSURE);
      var cvdShortOk := cvd != Some(BUY_PRESSURE);
      var longHtfOk := if m.regime == Range then htfBias == Bull else htfBias == Bull && m.momentum == Bullish;
      var shortHtfOk := if m.regime == Range then htfBias == Bear else htfBias == Bear && m.momentum == Bearish;
      var signal :=
        if longHtfOk && cvdLongOk && FLe(rsi, F(RSI_OS))
          && ((isVolSpike && longRejection) || (isExtremeVol && bar.low <= lower))
        then Some(Long)
        else if shortHtfOk && cvdShortOk && FLe(F(RSI_OB), rsi)
          && ((isVolSpike && shortRejection) || (isExtremeVol && bar.high >= upper))
        then Some(Short)
        else None;
      var reported := Decision(None, PortfolioLimit, Some(bar.close), Some(Atr14(bar).v));
      if signal == Some(Long) && openLongs >= s.maxSameDir then reported
      else if signal == Some(Short) && openShorts >= s.maxSameDir then reported
      else reported.(signal := signal, stage := if signal.Some? then Entered else NoSetup)
  }

  /** RSI at most 30 and RSI at least 70 cannot hold together, so the two
      setups exclude each other. */
  lemma SetupsExclusive(bar: Bar, htf: Option<HtfFrame>, mtf: Option<MtfFrame>, cvd: Option<string>, s: Settings)
    requires !MissingIndicators(bar)
    ensures !(LongSetup(bar, htf, mtf, cvd, s) && ShortSetup(bar, htf, mtf, cvd, s))
  {
  }

  /** A LONG signal is given exactly when the gates pass, the long setup
      holds and fewer than the maximum longs are open. */
  lemma LongSignalIff(
    bar: Bar, barsSinceReset: nat, htf: Option<HtfFrame>, mtf: Option<MtfFrame>,
    cvd: Option<string>, openLongs: nat, openShorts: nat, s: Settings)
    ensures CheckEntry(bar, barsSinceReset, htf, mtf, cvd, openLongs, openShorts, s).signal == Some(Long)
      <==> (PassesGates(bar, barsSinceReset, s)
        && LongSetup(bar, htf, mtf, cvd, s)
        && openLongs < s.maxSameDir)
  {
  }

  /** A SHORT signal is given exactly when the gates pass, the short setup
      holds and fewer than the maximum shorts are open. */
  lemma ShortSignalIff(
    bar: Bar, barsSinceReset: nat, htf: Option<HtfFrame>, mtf: Option<MtfFrame>,
    cvd: Option<string>, openLongs: nat, openShorts: nat, s: Settings)
    ensures CheckEntry(bar, barsSinceReset, htf, mtf, cvd, openLongs, openShorts, s).signal == Some(Short)
      <==> (PassesGates(bar, barsSinceReset, s)
        && ShortSetup(bar, htf, mtf, cvd, s)
        && openShorts < s.maxSameDir)
  {
    if PassesGates(bar, barsSinceReset, s) {
      SetupsExclusive(bar, htf, mtf, cvd, s);
    }
  }

  /** A neutral one-hour bias, and so a missing or short one-hour frame,
      blocks every entry. */
  lemma NeutralBiasBlocks(
    bar: Bar, barsSinceReset: nat, htf: Option<HtfFrame>, mtf: Option<MtfFrame>,
    cvd: Option<string>, openLongs: nat, openShorts: nat, s: Settings)
    requires HtfBias(htf) == NeutralBias
    ensures CheckEntry(bar, barsSinceReset, htf, mtf, cvd, openLongs, openShorts, s).signal == None
  {
    LongSignalIff(bar, barsSinceReset, htf, mtf, cvd, openLongs, openShorts, s);
    ShortSignalIff(bar, barsSinceReset, htf, mtf, cvd, openLongs, openShorts, s);
  }

  /** An RSI strictly between 30 and 70, or a NaN RSI, blocks every entry. */
  lemma NeutralRsiBlocks(
    bar: Bar, barsSinceReset: nat, htf: Option<HtfFrame>, mtf: Option<MtfFrame>,
    cvd: Option<string>, openLongs: nat, openShorts: nat, s: Settings)
    requires Rsi(bar).NaN? || RSI_OS < Rsi(bar).v < RSI_OB
    ensures CheckEntry(bar, barsSinceReset, htf, mtf, cvd, openLongs, openShorts, s).signal == None
  {
    LongSignalIff(bar, barsSinceReset, htf, mtf, cvd, openLongs, openShorts, s);
    ShortSignalIff(bar, barsSinceReset, htf, mtf, cvd, openLongs, openShorts, s);
  }

  /** An example long entry: a ranging market under a bullish hour, RSI 25,
      a low that pierced the lower band of 98 with the close back above it
      on twice the average volume. */
  function ExampleBar(): Bar {
    Bar(100, 99.0, 100.0, 97.0, 200.0, Some(F(25.0)), Some(F(98.0)), Some(F(102.0)),
      Some(F(100.0)), Some(F(1.0)), Some(F(0.5)))
  }

  const EXAMPLE_HTF := Some(HtfFrame(60, Some(F(110.0)), Some(F(100.0))))
  const EXAMPLE_MTF := Some(MtfFrame(40, Some(F(20.0)), Some(F(1.0)), Some(F(0.5))))

  lemma ExampleLongEntry()
    ensures CheckEntry(ExampleBar(), 40, EXAMPLE_HTF, EXAMPLE_MTF, None, 0, 0, DEFAULT_SETTINGS)
      == Decision(Some(Long), Entered, Some(99.0), Some(1.0))
    ensures CheckEntry(ExampleBar(), 40, EXAMPLE_HTF, EXAMPLE_MTF, None, 2, 0, DEFAULT_SETTINGS)
      == Decision(None, PortfolioLimit, Some(99.0), Some(1.0))
  {
  }

  // ---------------------------------------------------------------------
  // The entry decision as the source is written
  // ---------------------------------------------------------------------

  /** A call of `check_entry` either raises or returns a decision. */
  datatype EntryOutcome = Raised | Decided(decision: Decision)

  /** `check_entry` as written: once the volatility gate has passed, the
      status line is formatted whenever RSI is not NaN, and it reads the
      volume multiplier before that local is assigned, which raises. */
  function CheckEntryAsWritten(
    bar: Bar, barsSinceReset: nat, htf: Option<HtfFrame>, mtf: Option<MtfFrame>,
    cvd: Option<string>, openLongs: nat, openShorts: nat, s: Settings): (o: EntryOutcome)
    ensures o.Decided? ==>
      o.decision == CheckEntry(bar, barsSinceReset, htf, mtf, cvd, openLongs, openShorts, s)
    ensures o.Raised? <==> PassesGates(bar, barsSinceReset, s) && Rsi(bar).F?
  {
    var d := CheckEntry(bar, barsSinceReset, htf, mtf, cvd, openLongs, openShorts, s);
    if bar.rows < MIN_ROWS || MissingIndicators(bar) || barsSinceReset < SESSION_FILTER_BARS
      || FLe(Atr14(bar), FScale(AtrLong(bar), s.atrRatioMult))
    then Decided(d)
    else if Rsi(bar).F? then Raised
    else Decided(d)
  }

  /** As written, no call of `check_entry` ever returns a signal. */
  lemma AsWrittenNeverSignals(
    bar: Bar, barsSinceReset: nat, htf: Option<HtfFrame>, mtf: Option<MtfFrame>,
    cvd: Option<string>, openLongs: nat, openShorts: nat, s: Settings)
    ensures var o := CheckEntryAsWritten(bar, barsSinceReset, htf, mtf, cvd, openLongs, openShorts, s);
      o.Decided? ==> o.decision.signal == None
  {
    var o := CheckEntryAsWritten(bar, barsSinceReset, htf, mtf, cvd, openLongs, openShorts, s);
    if o.Decided? && PassesGates(bar, barsSinceReset, s) {
      NeutralRsiBlocks(bar, barsSinceReset, htf, mtf, cvd, openLongs, openShorts, s);
    }
  }

  /** The example entry raises as written. */
  lemma ExampleEntryRaisesAsWritten()
    ensures CheckEntryAsWritten(ExampleBar(), 40, EXAMPLE_HTF, EXAMPLE_MTF, None, 0, 0, DEFAULT_SETTINGS) == Raised
  {
    ExampleLongEntry();
  }

  // ---------------------------------------------------------------------
  // Chandelier exit
  // ---------------------------------------------------------------------

  /** `check_chandelier_exit`: moves the symbol's stop for this candle, then
      tests the price against the moved stop. */
  method CheckChandelierExit(
    symbol: string, portfolio: PortfolioState, price: real, high: real, low: real, atr: real, mult: real)
    returns (exit: bool, stop: Option<real>)
    modifies portfolio
    ensures symbol !in old(portfolio.positions) ==>
      !exit && stop == None && portfolio.positions == old(portfolio.positions)
    ensures symbol in old(portfolio.positions) ==>
      var moved := Updated(old(portfolio.positions)[symbol], Candle(high, low, atr), mult);
      && portfolio.positions == old(portfolio.positions)[symbol := moved]
      && stop == Some(moved.chandelierStop)
      && (exit <==> IsTriggered(moved, price))
  {
    stop := portfolio.UpdateChandelier(symbol, Candle(high, low, atr), mult);
    exit := portfolio.IsChandelierTriggered(symbol, price);
  }
}
