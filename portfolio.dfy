/** The chandelier trailing-stop tracker (`PortfolioState` in strategy.py):
    per symbol a direction, the entry price, the most favourable price seen
    since entry (the "extreme"), the current stop and the last ATR. The
    direction is kept as the text the caller passed: "LONG" selects the
    long rules, any other text the short rules when the stop is moved, and
    only the exact texts "LONG" and "SHORT" are counted or can trigger. */
module Portfolio {
  import opened Py

  const LONG := "LONG"
  const SHORT := "SHORT"

  /** CHANDELIER_MULT is read with a default of 2.0 at every call. */
  const DEFAULT_CHANDELIER_MULT: real := 2.0

  datatype TrailState = TrailState(
    direction: string,
    entryPrice: real,
    extreme: real,
    chandelierStop: real,
    atr: real)

  /** One closed candle, as far as the tracker reads it. */
  datatype Candle = Candle(high: real, low: real, atr: real)

  /** The state `register_position` stores. */
  function Registered(direction: string, entryPrice: real, atr: real, mult: real): (t: TrailState)
    ensures t.direction == direction && t.entryPrice == entryPrice && t.atr == atr
    ensures t.extreme == entryPrice
    ensures direction == LONG ==> t.chandelierStop == entryPrice - atr * mult
    ensures direction != LONG ==> t.chandelierStop == entryPrice + atr * mult
    ensures atr * mult >= 0.0 ==>
      (if direction == LONG then t.chandelierStop <= entryPrice else t.chandelierStop >= entryPrice)
  {
    if direction == LONG then
      TrailState(direction, entryPrice, entryPrice, entryPrice - atr * mult, atr)
    else
      TrailState(direction, entryPrice, entryPrice, entryPrice + atr * mult, atr)
  }

  /** The state `update_chandelier` leaves after one candle. For a long the
      extreme is the larger of the old extreme and the high, and the stop the
      smallest value that is at least the old stop and at least the extreme
      minus atr * mult; a short mirrors this with the low. */
  function Updated(t: TrailState, c: Candle, mult: real): (u: TrailState)
    ensures u.direction == t.direction && u.entryPrice == t.entryPrice && u.atr == c.atr
    ensures t.direction == LONG ==>
      && u.extreme >= t.extreme && u.extreme >= c.high
      && (u.extreme == t.extreme || u.extreme == c.high)
      && u.chandelierStop >= t.chandelierStop
      && u.chandelierStop >= u.extreme - c.atr * mult
      && (u.chandelierStop == t.chandelierStop || u.chandelierStop == u.extreme - c.atr * mult)
    ensures t.direction != LONG ==>
      && u.extreme <= t.extreme && u.extreme <= c.low
      && (u.extreme == t.extreme || u.extreme == c.low)
      && u.chandelierStop <= t.chandelierStop
      && u.chandelierStop <= u.extreme + c.atr * mult
      && (u.chandelierStop == t.chandelierStop || u.chandelierStop == u.extreme + c.atr * mult)
  {
    if t.direction == LONG then
      var ext := if c.high > t.extreme then c.high else t.extreme;
      var newStop := ext - c.atr * mult;
      t.(extreme := ext, chandelierStop := Max(newStop, t.chandelierStop), atr := c.atr)
    else
      var ext := if c.low < t.extreme then c.low else t.extreme;
      var newStop := ext + c.atr * mult;
      t.(extreme := ext, chandelierStop := Min(newStop, t.chandelierStop), atr := c.atr)
  }

  /** `is_chandelier_triggered` for a tracked symbol. */
  predicate IsTriggered(t: TrailState, price: real) {
    (t.direction == LONG && price <= t.chandelierStop)
    || (t.direction == SHORT && price >= t.chandelierStop)
  }

  /** The state after a run of candles, one update per candle. */
  function TrailAfter(t: TrailState, candles: seq<Candle>, mult: real): TrailState
    decreases |candles|
  {
    if candles == [] then t
    else Updated(TrailAfter(t, candles[..|candles| - 1], mult), candles[|candles| - 1], mult)
  }

  /** The stop returned by each update of a run of candles. */
  function StopsAfter(t: TrailState, candles: seq<Candle>, mult: real): (r: seq<real>)
    ensures |r| == |candles|
    decreases |candles|
  {
    if candles == [] then []
    else
      var prefix := candles[..|candles| - 1];
      StopsAfter(t, prefix, mult) + [TrailAfter(t, candles, mult).chandelierStop]
  }

  /** The tracked symbols whose direction is exactly d. */
  function WithDirection(m: map<string, TrailState>, d: string): set<string> {
    set k | k in m && m[k].direction == d
  }

  /** The number of tracked positions whose direction is exactly d. */
  function CountDirection(m: map<string, TrailState>, d: string): nat {
    |WithDirection(m, d)|
  }

  /** The tracker's distance bound: a long's stop is never further than
      atr * mult below its extreme, a short's never further above it. */
  predicate StopWithinReach(t: TrailState, mult: real) {
    if t.direction == LONG then t.chandelierStop >= t.extreme - t.atr * mult
    else t.chandelierStop <= t.extreme + t.atr * mult
  }

  // ---------------------------------------------------------------------
  // Properties of the tracker's rules
  // ---------------------------------------------------------------------

  /** The distance bound holds at registration and after every update. */
  lemma StopWithinReachKept(t: TrailState, c: Candle, mult: real, direction: string, entryPrice: real, atr: real)
    ensures StopWithinReach(Registered(direction, entryPrice, atr, mult), mult)
    ensures StopWithinReach(Updated(t, c, mult), mult)
  {
  }

  /** Over any run of candles a long's stop and extreme never go down and a
      short's never go up; direction and entry price are left as they were. */
  lemma {:induction false} TrailMonotone(t: TrailState, candles: seq<Candle>, mult: real)
    ensures TrailAfter(t, candles, mult).direction == t.direction
    ensures TrailAfter(t, candles, mult).entryPrice == t.entryPrice
    ensures t.direction == LONG ==>
      TrailAfter(t, candles, mult).chandelierStop >= t.chandelierStop
      && TrailAfter(t, candles, mult).extreme >= t.extreme
    ensures t.direction != LONG ==>
      TrailAfter(t, candles, mult).chandelierStop <= t.chandelierStop
      && TrailAfter(t, candles, mult).extreme <= t.extreme
    decreases |candles|
  {
    if candles != [] {
      TrailMonotone(t, candles[..|candles| - 1], mult);
    }
  }

  /** The sequence of stops returned over a run is non-decreasing for a long
      and non-increasing for a short. */
  lemma {:induction false} StopsOrdered(t: TrailState, candles: seq<Candle>, mult: real, i: nat, j: nat)
    requires i <= j < |candles|
    ensures t.direction == LONG ==> StopsAfter(t, candles, mult)[i] <= StopsAfter(t, candles, mult)[j]
    ensures t.direction != LONG ==> StopsAfter(t, candles, mult)[i] >= StopsAfter(t, candles, mult)[j]
    decreases |candles|
  {
    var n := |candles|;
    var prefix := candles[..n - 1];
    if j < n - 1 {
      StopsOrdered(t, prefix, mult, i, j);
    } else if i < n - 1 {
      StopsOrdered(t, prefix, mult, i, n - 2);
      StopIsTrailAfter(t, prefix, mult, n - 2);
      TrailMonotone(t, prefix, mult);
      assert prefix[..n - 1] == prefix;
      var before := TrailAfter(t, prefix, mult);
      assert TrailAfter(t, candles, mult) == Updated(before, candles[n - 1], mult);
      assert StopsAfter(t, candles, mult) == StopsAfter(t, prefix, mult) + [TrailAfter(t, candles, mult).chandelierStop];
    }
  }

  /** The k-th returned stop is the stop of the state after k+1 candles. */
  lemma {:induction false} StopIsTrailAfter(t: TrailState, candles: seq<Candle>, mult: real, k: nat)
    requires k < |candles|
    ensures StopsAfter(t, candles, mult)[k] == TrailAfter(t, candles[..k + 1], mult).chandelierStop
    decreases |candles|
  {
    var n := |candles|;
    if k == n - 1 {
      assert candles[..k + 1] == candles;
    } else {
      StopIsTrailAfter(t, candles[..n - 1], mult, k);
      assert candles[..n - 1][..k + 1] == candles[..k + 1];
    }
  }

  /** A long whose stop has reached a price stays triggered at that price
      through any later update, and so does a short. */
  lemma TriggerPersists(t: TrailState, c: Candle, mult: real, price: real)
    requires IsTriggered(t, price)
    ensures IsTriggered(Updated(t, c, mult), price)
  {
  }

  /** Triggering is monotone in the price: a long that triggers at a price
      triggers at every lower one, a short at every higher one. */
  lemma TriggerMonotoneInPrice(t: TrailState, p: real, q: real)
    requires IsTriggered(t, p)
    ensures t.direction == LONG && q <= p ==> IsTriggered(t, q)
    ensures t.direction == SHORT && q >= p ==> IsTriggered(t, q)
  {
  }

  /** Worked example: a long entered at 100 with ATR 2 and multiplier 2,
      fed candle highs 100, 105, 102, 108 at ATR 2, returns the stops 96,
      101, 101, 104. */
  lemma LongTrailExample()
    ensures
      var t := Registered(LONG, 100.0, 2.0, 2.0);
      var cs := [Candle(100.0, 99.0, 2.0), Candle(105.0, 104.0, 2.0), Candle(102.0, 101.0, 2.0), Candle(108.0, 107.0, 2.0)];
      t.chandelierStop == 96.0 && StopsAfter(t, cs, 2.0) == [96.0, 101.0, 101.0, 104.0]
  {
    var t := Registered(LONG, 100.0, 2.0, 2.0);
    var cs := [Candle(100.0, 99.0, 2.0), Candle(105.0, 104.0, 2.0), Candle(102.0, 101.0, 2.0), Candle(108.0, 107.0, 2.0)];
    var u1 := Updated(t, cs[0], 2.0);
    var u2 := Updated(u1, cs[1], 2.0);
    var u3 := Updated(u2, cs[2], 2.0);
    var u4 := Updated(u3, cs[3], 2.0);
    assert u1.extreme == 100.0 && u1.chandelierStop == 96.0;
    assert u2.extreme == 105.0 && u2.chandelierStop == 101.0;
    assert u3.extreme == 105.0 && u3.chandelierStop == 101.0;
    assert u4.chandelierStop == 104.0;
    assert cs[..1][..0] == [];
    assert cs[..2][..1] == cs[..1];
    assert cs[..3][..2] == cs[..2];
    assert cs[..4] == cs && cs[..3] == cs[..4][..3];
    assert TrailAfter(t, cs[..1], 2.0) == u1;
    assert TrailAfter(t, cs[..2], 2.0) == u2;
    assert TrailAfter(t, cs[..3], 2.0) == u3;
    assert TrailAfter(t, cs, 2.0) == u4;
    assert StopsAfter(t, cs[..1], 2.0) == [96.0];
    assert StopsAfter(t, cs[..2], 2.0) == [96.0, 101.0];
    assert StopsAfter(t, cs[..3], 2.0) == [96.0, 101.0, 101.0];
  }

  // ---------------------------------------------------------------------
  // Counting open positions by direction
  // ---------------------------------------------------------------------

  /** A count splits into the symbol's own part and the rest. */
  lemma CountSplit(m: map<string, TrailState>, symbol: string, d: string)
    ensures CountDirection(m, d)
      == CountDirection(m - {symbol}, d) + (if symbol in m && m[symbol].direction == d then 1 else 0)
  {
    var rest := WithDirection(m - {symbol}, d);
    assert symbol !in rest;
    assert WithDirection(m, d) == rest + (if symbol in m && m[symbol].direction == d then {symbol} else {});
  }

  /** Storing a position under a symbol changes each direction's count only
      by what left and what arrived under that symbol. */
  lemma CountAfterStore(m: map<string, TrailState>, symbol: string, t: TrailState, d: string)
    ensures CountDirection(m[symbol := t], d)
      == CountDirection(m - {symbol}, d) + (if t.direction == d then 1 else 0)
  {
    CountSplit(m[symbol := t], symbol, d);
    assert m[symbol := t] - {symbol} == m - {symbol};
  }

  /** Removing a symbol lowers the count of its direction by one and leaves
      every other count alone. */
  lemma CountAfterClose(m: map<string, TrailState>, symbol: string, d: string)
    ensures CountDirection(m - {symbol}, d)
      == CountDirection(m, d) - (if symbol in m && m[symbol].direction == d then 1 else 0)
  {
    CountSplit(m, symbol, d);
  }

  lemma {:induction false} SubsetCardinality(a: set<string>, b: set<string>)
    requires a <= b
    ensures |a| <= |b|
    decreases |a|
  {
    if a != {} {
      var x :| x in a;
      SubsetCardinality(a - {x}, b - {x});
    }
  }

  /** Longs and shorts together never exceed the tracked positions. */
  lemma CountsBounded(m: map<string, TrailState>)
    ensures CountDirection(m, LONG) + CountDirection(m, SHORT) <= |m|
  {
    var longs := WithDirection(m, LONG);
    var shorts := WithDirection(m, SHORT);
    assert longs !! shorts;
    assert |longs + shorts| == |longs| + |shorts|;
    SubsetCardinality(longs + shorts, m.Keys);
  }

  // ---------------------------------------------------------------------
  // The tracker object
  // ---------------------------------------------------------------------

  class PortfolioState {
    var positions: map<string, TrailState>

    constructor ()
      ensures positions == map[]
    {
      positions := map[];
    }

    /** `open_longs` */
    function OpenLongs(): nat
      reads this
    {
      CountDirection(positions, LONG)
    }

    /** `open_shorts` */
    function OpenShorts(): nat
      reads this
    {
      CountDirection(positions, SHORT)
    }

    /** `register_position`: (re)starts tracking the symbol. */
    method RegisterPosition(symbol: string, direction: string, entryPrice: real, atr: real, mult: real)
      modifies this
      ensures positions == old(positions)[symbol := Registered(direction, entryPrice, atr, mult)]
      ensures OpenLongs() == CountDirection(old(positions) - {symbol}, LONG) + (if direction == LONG then 1 else 0)
      ensures OpenShorts() == CountDirection(old(positions) - {symbol}, SHORT) + (if direction == SHORT then 1 else 0)
      ensures symbol !in old(positions) ==> OpenLongs() == old(OpenLongs()) + (if direction == LONG then 1 else 0)
    {
      positions := positions[symbol := Registered(direction, entryPrice, atr, mult)];
      CountAfterStore(old(positions), symbol, Registered(direction, entryPrice, atr, mult), LONG);
      CountAfterStore(old(positions), symbol, Registered(direction, entryPrice, atr, mult), SHORT);
      assert symbol !in old(positions) ==> old(positions) - {symbol} == old(positions);
    }

    /** `close_position`: forgets the symbol; nothing happens when it is not
        tracked. */
    method ClosePosition(symbol: string)
      modifies this
      ensures positions == old(positions) - {symbol}
      ensures symbol !in old(positions) ==> positions == old(positions)
      ensures OpenLongs() == old(OpenLongs()) - (if symbol in old(positions) && old(positions)[symbol].direction == LONG then 1 else 0)
      ensures OpenShorts() == old(OpenShorts()) - (if symbol in old(positions) && old(positions)[symbol].direction == SHORT then 1 else 0)
    {
      if symbol in positions {
        positions := positions - {symbol};
      }
      CountAfterClose(old(positions), symbol, LONG);
      CountAfterClose(old(positions), symbol, SHORT);
    }

    /** `update_chandelier`: moves the symbol's extreme and stop for one
        candle and returns the new stop; None for an untracked symbol. */
    method UpdateChandelier(symbol: string, c: Candle, mult: real) returns (stop: Option<real>)
      modifies this
      ensures symbol !in old(positions) ==> stop == None && positions == old(positions)
      ensures symbol in old(positions) ==>
        && positions == old(positions)[symbol := Updated(old(positions)[symbol], c, mult)]
        && stop == Some(positions[symbol].chandelierStop)
      ensures OpenLongs() == old(OpenLongs()) && OpenShorts() == old(OpenShorts())
    {
      if symbol !in positions {
        return None;
      }
      var pos := positions[symbol];
      var prevStop := pos.chandelierStop;
      if pos.direction == LONG {
        if c.high > pos.extreme {
          pos := pos.(extreme := c.high);
        }
        var newStop := pos.extreme - c.atr * mult;
        pos := pos.(chandelierStop := Max(newStop, prevStop));
      } else {
        if c.low < pos.extreme {
          pos := pos.(extreme := c.low);
        }
        var newStop := pos.extreme + c.atr * mult;
        pos := pos.(chandelierStop := Min(newStop, prevStop));
      }
      pos := pos.(atr := c.atr);
      assert pos == Updated(old(positions)[symbol], c, mult);
      positions := positions[symbol := pos];
      stop := Some(pos.chandelierStop);
      CountAfterStore(old(positions), symbol, pos, LONG);
      CountAfterStore(old(positions), symbol, pos, SHORT);
      CountSplit(old(positions), symbol, LONG);
      CountSplit(old(positions), symbol, SHORT);
    }

    /** `is_chandelier_triggered`: false for an untracked symbol. */
    function IsChandelierTriggered(symbol: string, price: real): (r: bool)
      reads this
      ensures r ==> symbol in positions
      ensures symbol in positions ==> (r <==> IsTriggered(positions[symbol], price))
    {
      symbol in positions && IsTriggered(positions[symbol], price)
    }

    /** `get_stop_price` */
    function GetStopPrice(symbol: string): (r: Option<real>)
      reads this
      ensures r.Some? <==> symbol in positions
      ensures r.Some? ==> r.value == positions[symbol].chandelierStop
    {
      if symbol in positions then Some(positions[symbol].chandelierStop) else None
    }
  }
}
