/** The order-lifecycle bookkeeping of `ExecutionEngine` (execution.py): the
    halt flag, the pending limit entries, the symbols with a live position
    (kept in the order they were first marked, as a Python dict keeps its
    keys) and the trade records written to the database, modelled as a log
    that only grows. Every exchange request a method sends is returned in
    the order it was sent. */
module Execution {
  import opened Py
  import opened Exchange

  const LONG := "LONG"
  const SHORT := "SHORT"
  const DRY_RUN_ID := "DRY_RUN_ID"

  /** The fixed exit distances of a market entry. */
  const LONG_TP_PCT: real := 0.010
  const LONG_SL_PCT: real := 0.005
  const SHORT_TP_PCT: real := 0.012
  const SHORT_SL_PCT: real := 0.004

  /** Fees subtracted from the logged exit percentages: maker for the limit
      take-profit, taker for the stop-market stop-loss. */
  const MAKER_FEE: real := 0.0002
  const TAKER_FEE: real := 0.0005

  /** A pending limit entry, as far as the engine reads it. */
  datatype PendingEntry = PendingEntry(orderId: string, signal: string, limitPrice: real, amount: real)

  /** The text of a trade record's reason. */
  datatype RecordReason =
    | EntryPlaced(dryRunPrefix: bool)
    | EntryCanceled(reason: string)
    | DryRunClose
    | AutoClose

  /** A row of the `Trade` table. */
  datatype TradeRecord = TradeRecord(
    action: string,
    symbol: string,
    price: real,
    quantity: real,
    realizedPnl: Option<real>,
    reason: RecordReason,
    dryRun: bool)

  /** What `place_market_entry_order` hands to `place_tp_sl_orders`. */
  datatype EntryInfo = EntryInfo(signal: string, amount: real, limitPrice: real, tpPrice: real, slPrice: real)

  // ---------------------------------------------------------------------
  // Sequences of symbols used as ordered key sets
  // ---------------------------------------------------------------------

  predicate Distinct(s: seq<string>) {
    forall i, j :: 0 <= i < j < |s| ==> s[i] != s[j]
  }

  /** `d[k] = True` on a dict used as a set: a new key goes last, an old
      one keeps its place. */
  function Insert(s: seq<string>, k: string): (r: seq<string>)
    ensures k in r && forall x :: x in r <==> x in s || x == k
    ensures Distinct(s) ==> Distinct(r)
  {
    if k in s then s else s + [k]
  }

  /** The keys of s not listed in drop, in their order. */
  function Without(s: seq<string>, drop: seq<string>): (r: seq<string>)
    ensures forall x :: x in r <==> x in s && x !in drop
    ensures |r| <= |s|
    decreases |s|
  {
    if s == [] then []
    else
      var rest := Without(s[..|s| - 1], drop);
      if s[|s| - 1] in drop then rest else rest + [s[|s| - 1]]
  }

  lemma {:induction false} WithoutNothing(s: seq<string>)
    ensures Without(s, []) == s
    decreases |s|
  {
    if s != [] {
      WithoutNothing(s[..|s| - 1]);
      assert s[..|s| - 1] + [s[|s| - 1]] == s;
    }
  }

  lemma {:induction false} WithoutDistinct(s: seq<string>, drop: seq<string>)
    requires Distinct(s)
    ensures Distinct(Without(s, drop))
    decreases |s|
  {
    if s != [] {
      var init := s[..|s| - 1];
      assert Distinct(init);
      WithoutDistinct(init, drop);
      assert s[|s| - 1] !in init;
    }
  }

  /** Deleting one more key is deleting it together with the others. */
  lemma {:induction false} WithoutStep(s: seq<string>, drop: seq<string>, k: string)
    ensures Without(Without(s, drop), [k]) == Without(s, drop + [k])
    decreases |s|
  {
    if s != [] {
      var init := s[..|s| - 1];
      WithoutStep(init, drop, k);
      var rest := Without(init, drop);
      if s[|s| - 1] !in drop {
        assert (rest + [s[|s| - 1]])[..|rest + [s[|s| - 1]]| - 1] == rest;
      }
    }
  }

  // ---------------------------------------------------------------------
  // Startup sweep
  // ---------------------------------------------------------------------

  /** A fetched position counts as live when it holds contracts. */
  predicate Live(p: Position) {
    p.contracts > 0.0
  }

  /** The live symbols after marking every live position of ps, in order. */
  function AddLive(active: seq<string>, ps: seq<Position>): seq<string>
    decreases |ps|
  {
    if ps == [] then active
    else
      var before := AddLive(active, ps[..|ps| - 1]);
      if Live(ps[|ps| - 1]) then Insert(before, ps[|ps| - 1].symbol) else before
  }

  /** Recovery marks exactly the symbols that hold contracts, keeps the
      ones already marked and keeps the keys distinct. */
  lemma {:induction false} AddLiveMembers(active: seq<string>, ps: seq<Position>, s: string)
    ensures s in AddLive(active, ps) <==> s in active || exists p | p in ps :: Live(p) && p.symbol == s
    ensures Distinct(active) ==> Distinct(AddLive(active, ps))
    decreases |ps|
  {
    if ps != [] {
      var init := ps[..|ps| - 1];
      AddLiveMembers(active, init, s);
      assert forall p :: p in ps <==> p in init || p == ps[|ps| - 1];
    }
  }

  /** The keep rule of the startup sweep for regular orders: a reduce-only
      order whose symbol has a live position is an exit order and stays. */
  predicate OrderKept(o: Order, active: seq<string>) {
    o.symbol in active && OrderReduceOnly(o)
  }

  /** The keep rule for algo orders as written: the raw market id is looked
      up among the unified symbols of the live positions. */
  predicate AlgoKeptAsWritten(a: AlgoOrder, active: seq<string>) {
    a.symbol in active && AlgoReduceOnly(a)
  }

  /** The keep rule for algo orders as intended: the raw market id is first
      turned into its unified symbol. */
  predicate AlgoKept(a: AlgoOrder, active: seq<string>, unifiedSymbol: string -> string) {
    unifiedSymbol(a.symbol) in active && AlgoReduceOnly(a)
  }

  /** Which of the two keep rules a sweep of algo orders applies. */
  datatype KeepRule = AsWritten | Intended

  predicate AlgoKeptBy(rule: KeepRule, a: AlgoOrder, active: seq<string>, unifiedSymbol: string -> string) {
    match rule
    case AsWritten => AlgoKeptAsWritten(a, active)
    case Intended => AlgoKept(a, active, unifiedSymbol)
  }

  /** The cancel requests the sweep of regular orders sends from the i-th
      order on: one per order that is not kept, until the first one that
      fails. */
  function OrderSweepFrom(orders: seq<Order>, i: nat, active: seq<string>, respond: ExchangeCall -> Outcome)
    : seq<ExchangeCall>
    decreases |orders| - i
  {
    if i >= |orders| then []
    else if OrderKept(orders[i], active) then OrderSweepFrom(orders, i + 1, active, respond)
    else
      var c := CancelOrder(orders[i].id, orders[i].symbol);
      if respond(c).Err? then [c] else [c] + OrderSweepFrom(orders, i + 1, active, respond)
  }

  /** The cancel requests of the whole sweep of regular orders. */
  function OrderSweep(orders: seq<Order>, active: seq<string>, respond: ExchangeCall -> Outcome): seq<ExchangeCall> {
    OrderSweepFrom(orders, 0, active, respond)
  }

  /** The delete requests the sweep of algo orders under a keep rule sends
      from the i-th one on. */
  function AlgoSweepFrom(algos: seq<AlgoOrder>, i: nat, active: seq<string>, venue: Venue, rule: KeepRule)
    : seq<ExchangeCall>
    decreases |algos| - i
  {
    if i >= |algos| then []
    else if AlgoKeptBy(rule, algos[i], active, venue.unifiedSymbol) then AlgoSweepFrom(algos, i + 1, active, venue, rule)
    else
      var c := DeleteAlgoOrder(algos[i].symbol, algos[i].algoId);
      if venue.respond(c).Err? then [c] else [c] + AlgoSweepFrom(algos, i + 1, active, venue, rule)
  }

  /** The delete requests of the whole sweep of algo orders. */
  function AlgoSweep(algos: seq<AlgoOrder>, active: seq<string>, venue: Venue, rule: KeepRule): seq<ExchangeCall> {
    AlgoSweepFrom(algos, 0, active, venue, rule)
  }

  /** One delete per algo order from the i-th on, up to and including the
      first one that fails. */
  function DeleteUntilFailure(algos: seq<AlgoOrder>, i: nat, venue: Venue): seq<ExchangeCall>
    decreases |algos| - i
  {
    if i >= |algos| then []
    else
      var c := DeleteAlgoOrder(algos[i].symbol, algos[i].algoId);
      if venue.respond(c).Err? then [c] else [c] + DeleteUntilFailure(algos, i + 1, venue)
  }

  /** From the i-th order on, every cancel is for a later order that is not
      kept. */
  lemma {:induction false} OrderSweepFromSound(orders: seq<Order>, i: nat, active: seq<string>, respond: ExchangeCall -> Outcome)
    ensures forall c | c in OrderSweepFrom(orders, i, active, respond) ::
      exists k | i <= k < |orders| :: !OrderKept(orders[k], active) && c == CancelOrder(orders[k].id, orders[k].symbol)
    decreases |orders| - i
  {
    if i < |orders| {
      OrderSweepFromSound(orders, i + 1, active, respond);
      var rest := OrderSweepFrom(orders, i + 1, active, respond);
      forall c | c in OrderSweepFrom(orders, i, active, respond)
        ensures exists k | i <= k < |orders| :: !OrderKept(orders[k], active) && c == CancelOrder(orders[k].id, orders[k].symbol)
      {
        if c in rest {
          var k :| i + 1 <= k < |orders| && !OrderKept(orders[k], active) && c == CancelOrder(orders[k].id, orders[k].symbol);
        } else {
          assert !OrderKept(orders[i], active) && c == CancelOrder(orders[i].id, orders[i].symbol);
        }
      }
    }
  }

  /** From the i-th order on, with every cancel accepted, each order that
      is not kept is cancelled. */
  lemma {:induction false} OrderSweepFromComplete(orders: seq<Order>, i: nat, active: seq<string>, respond: ExchangeCall -> Outcome)
    requires forall c :: respond(c) == Ok
    ensures forall k | i <= k < |orders| && !OrderKept(orders[k], active) ::
      CancelOrder(orders[k].id, orders[k].symbol) in OrderSweepFrom(orders, i, active, respond)
    decreases |orders| - i
  {
    if i < |orders| {
      OrderSweepFromComplete(orders, i + 1, active, respond);
      var rest := OrderSweepFrom(orders, i + 1, active, respond);
      assert rest <= OrderSweepFrom(orders, i, active, respond)
        || OrderSweepFrom(orders, i, active, respond) == [CancelOrder(orders[i].id, orders[i].symbol)] + rest;
    }
  }

  /** From the i-th algo order on, under either keep rule, every delete is for a later algo order
      that is not kept. */
  lemma {:induction false} AlgoSweepFromSound(algos: seq<AlgoOrder>, i: nat, active: seq<string>, venue: Venue, rule: KeepRule)
    ensures forall c | c in AlgoSweepFrom(algos, i, active, venue, rule) ::
      exists k | i <= k < |algos| ::
        !AlgoKeptBy(rule, algos[k], active, venue.unifiedSymbol) && c == DeleteAlgoOrder(algos[k].symbol, algos[k].algoId)
    decreases |algos| - i
  {
    if i < |algos| {
      AlgoSweepFromSound(algos, i + 1, active, venue, rule);
      var rest := AlgoSweepFrom(algos, i + 1, active, venue, rule);
      forall c | c in AlgoSweepFrom(algos, i, active, venue, rule)
        ensures exists k | i <= k < |algos| ::
          !AlgoKeptBy(rule, algos[k], active, venue.unifiedSymbol) && c == DeleteAlgoOrder(algos[k].symbol, algos[k].algoId)
      {
        if c in rest {
          var k :| i + 1 <= k < |algos| && !AlgoKeptBy(rule, algos[k], active, venue.unifiedSymbol)
            && c == DeleteAlgoOrder(algos[k].symbol, algos[k].algoId);
        } else {
          assert !AlgoKeptBy(rule, algos[i], active, venue.unifiedSymbol) && c == DeleteAlgoOrder(algos[i].symbol, algos[i].algoId);
        }
      }
    }
  }

  /** From the i-th algo order on, under either keep rule, with every delete accepted, each algo
      order that is not kept is deleted. */
  lemma {:induction false} AlgoSweepFromComplete(algos: seq<AlgoOrder>, i: nat, active: seq<string>, venue: Venue, rule: KeepRule)
    requires forall c :: venue.respond(c) == Ok
    ensures forall k | i <= k < |algos| && !AlgoKeptBy(rule, algos[k], active, venue.unifiedSymbol) ::
      DeleteAlgoOrder(algos[k].symbol, algos[k].algoId) in AlgoSweepFrom(algos, i, active, venue, rule)
    decreases |algos| - i
  {
    if i < |algos| {
      AlgoSweepFromComplete(algos, i + 1, active, venue, rule);
      var rest := AlgoSweepFrom(algos, i + 1, active, venue, rule);
      assert rest <= AlgoSweepFrom(algos, i, active, venue, rule)
        || AlgoSweepFrom(algos, i, active, venue, rule) == [DeleteAlgoOrder(algos[i].symbol, algos[i].algoId)] + rest;
    }
  }

  /** Every cancel the sweep sends is for an order that is not kept. */
  lemma OrderSweepSound(orders: seq<Order>, active: seq<string>, respond: ExchangeCall -> Outcome)
    ensures forall c | c in OrderSweep(orders, active, respond) ::
      exists o | o in orders :: !OrderKept(o, active) && c == CancelOrder(o.id, o.symbol)
  {
    OrderSweepFromSound(orders, 0, active, respond);
    forall c | c in OrderSweep(orders, active, respond)
      ensures exists o | o in orders :: !OrderKept(o, active) && c == CancelOrder(o.id, o.symbol)
    {
      var k :| 0 <= k < |orders| && !OrderKept(orders[k], active) && c == CancelOrder(orders[k].id, orders[k].symbol);
      assert orders[k] in orders;
    }
  }

  /** When every cancel is accepted, every order that is not kept is
      cancelled. */
  lemma OrderSweepComplete(orders: seq<Order>, active: seq<string>, respond: ExchangeCall -> Outcome)
    requires forall c :: respond(c) == Ok
    ensures forall o | o in orders && !OrderKept(o, active) ::
      CancelOrder(o.id, o.symbol) in OrderSweep(orders, active, respond)
  {
    OrderSweepFromComplete(orders, 0, active, respond);
    forall o | o in orders && !OrderKept(o, active)
      ensures CancelOrder(o.id, o.symbol) in OrderSweep(orders, active, respond)
    {
      var k :| 0 <= k < |orders| && orders[k] == o;
    }
  }

  /** Under either keep rule, every delete the algo sweep sends is for an
      algo order that rule does not keep, and with every delete accepted
      each such order is deleted. */
  lemma AlgoSweepExact(algos: seq<AlgoOrder>, active: seq<string>, venue: Venue, rule: KeepRule)
    ensures forall c | c in AlgoSweep(algos, active, venue, rule) ::
      exists a | a in algos :: !AlgoKeptBy(rule, a, active, venue.unifiedSymbol) && c == DeleteAlgoOrder(a.symbol, a.algoId)
    ensures (forall c :: venue.respond(c) == Ok) ==>
      forall a | a in algos && !AlgoKeptBy(rule, a, active, venue.unifiedSymbol) ::
        DeleteAlgoOrder(a.symbol, a.algoId) in AlgoSweep(algos, active, venue, rule)
  {
    AlgoSweepFromSound(algos, 0, active, venue, rule);
    forall c | c in AlgoSweep(algos, active, venue, rule)
      ensures exists a | a in algos :: !AlgoKeptBy(rule, a, active, venue.unifiedSymbol) && c == DeleteAlgoOrder(a.symbol, a.algoId)
    {
      var k :| 0 <= k < |algos| && !AlgoKeptBy(rule, algos[k], active, venue.unifiedSymbol)
        && c == DeleteAlgoOrder(algos[k].symbol, algos[k].algoId);
      assert algos[k] in algos;
    }
    if forall c :: venue.respond(c) == Ok {
      AlgoSweepFromComplete(algos, 0, active, venue, rule);
      forall a | a in algos && !AlgoKeptBy(rule, a, active, venue.unifiedSymbol)
        ensures DeleteAlgoOrder(a.symbol, a.algoId) in AlgoSweep(algos, active, venue, rule)
      {
        var k :| 0 <= k < |algos| && algos[k] == a;
      }
    }
  }

  /** As written, an algo order is never kept when the live symbols are
      unified ones (they contain '/') and raw market ids do not contain
      '/': the stop-loss of every live position is deleted at startup. */
  lemma AsWrittenKeepsNoAlgo(a: AlgoOrder, active: seq<string>)
    requires forall k | k in active :: '/' in k
    requires '/' !in a.symbol
    ensures !AlgoKeptAsWritten(a, active)
  {
  }

  /** As written, with unified live symbols and raw algo ids, the sweep
      keeps nothing: it deletes every algo order in turn until a delete
      fails. */
  lemma {:induction false} AsWrittenSweepFrom(algos: seq<AlgoOrder>, i: nat, active: seq<string>, venue: Venue)
    requires forall k | k in active :: '/' in k
    requires forall k | 0 <= k < |algos| :: '/' !in algos[k].symbol
    ensures AlgoSweepFrom(algos, i, active, venue, AsWritten) == DeleteUntilFailure(algos, i, venue)
    decreases |algos| - i
  {
    if i < |algos| {
      AsWrittenKeepsNoAlgo(algos[i], active);
      AsWrittenSweepFrom(algos, i + 1, active, venue);
    }
  }

  /** With every delete accepted, one delete is sent per algo order from
      the i-th on, in order. */
  lemma {:induction false} DeleteAllAccepted(algos: seq<AlgoOrder>, i: nat, venue: Venue)
    requires i <= |algos|
    requires forall c :: venue.respond(c) == Ok
    ensures |DeleteUntilFailure(algos, i, venue)| == |algos| - i
    ensures forall k | i <= k < |algos| ::
      DeleteUntilFailure(algos, i, venue)[k - i] == DeleteAlgoOrder(algos[k].symbol, algos[k].algoId)
    decreases |algos| - i
  {
    if i < |algos| {
      DeleteAllAccepted(algos, i + 1, venue);
    }
  }

  /** The startup sweep as written deletes every algo order, the stop-loss
      of each live position included, until a delete fails; when all are
      accepted, exactly one delete per algo order is sent, in order. */
  lemma AsWrittenDeletesEveryStop(algos: seq<AlgoOrder>, active: seq<string>, venue: Venue)
    requires forall k | k in active :: '/' in k
    requires forall k | 0 <= k < |algos| :: '/' !in algos[k].symbol
    ensures AlgoSweep(algos, active, venue, AsWritten) == DeleteUntilFailure(algos, 0, venue)
    ensures (forall c :: venue.respond(c) == Ok) ==>
      && |AlgoSweep(algos, active, venue, AsWritten)| == |algos|
      && forall k | 0 <= k < |algos| ::
        AlgoSweep(algos, active, venue, AsWritten)[k] == DeleteAlgoOrder(algos[k].symbol, algos[k].algoId)
  {
    AsWrittenSweepFrom(algos, 0, active, venue);
    if forall c :: venue.respond(c) == Ok {
      DeleteAllAccepted(algos, 0, venue);
    }
  }

  /** A live SOL position with its reduce-only stop: the rule as written
      deletes the stop, the intended rule keeps it. */
  lemma AlgoKeepExample(venue: Venue)
    requires venue.unifiedSymbol("SOLUSDT") == "SOL/USDT:USDT"
    ensures !AlgoKeptAsWritten(AlgoOrder("SOLUSDT", "42", PyStr("true")), ["SOL/USDT:USDT"])
    ensures AlgoKept(AlgoOrder("SOLUSDT", "42", PyStr("true")), ["SOL/USDT:USDT"], venue.unifiedSymbol)
    ensures AlgoSweep([AlgoOrder("SOLUSDT", "42", PyStr("true"))], ["SOL/USDT:USDT"], venue, AsWritten)
      == [DeleteAlgoOrder("SOLUSDT", "42")]
    ensures AlgoSweep([AlgoOrder("SOLUSDT", "42", PyStr("true"))], ["SOL/USDT:USDT"], venue, Intended) == []
  {
    assert Lower("true") == "true";
    assert "SOLUSDT" != "SOL/USDT:USDT" by { assert "SOLUSDT"[3] != "SOL/USDT:USDT"[3]; }
  }

  // ---------------------------------------------------------------------
  // Entry and exit prices
  // ---------------------------------------------------------------------

  /** The exit side of an entry: sell out of a long, buy out of anything
      else. */
  function ExitSide(signal: string): (side: string)
    ensures signal == LONG <==> side == "sell"
    ensures side == "sell" || side == "buy"
  {
    if signal == LONG then "sell" else "buy"
  }

  /** The side text of the algo-order fallback (`exit_side.upper()`). */
  function AlgoSide(signal: string): string {
    if signal == LONG then "SELL" else "BUY"
  }

  /** The take-profit and stop-loss before rounding to the tick size: the
      long's profit is above the fill and its stop below, the short's the
      other way round, at the fixed distances. */
  function RawExitPrices(signal: string, fill: real): (r: (real, real))
    ensures signal == LONG && fill > 0.0 ==> r.1 < fill < r.0
    ensures signal != LONG && fill > 0.0 ==> r.0 < fill < r.1
    ensures signal == LONG ==> r.0 - fill == fill * LONG_TP_PCT && fill - r.1 == fill * LONG_SL_PCT
    ensures signal != LONG ==> fill - r.0 == fill * SHORT_TP_PCT && r.1 - fill == fill * SHORT_SL_PCT
  {
    if signal == LONG then (fill * (1.0 + LONG_TP_PCT), fill * (1.0 - LONG_SL_PCT))
    else (fill * (1.0 - SHORT_TP_PCT), fill * (1.0 + SHORT_SL_PCT))
  }

  /** The logged exit percentages net of fees (profit minus the maker fee,
      signed stop distance minus the taker fee). Nothing else uses them. */
  function NetPercentages(info: EntryInfo): (r: (real, real))
    requires info.limitPrice != 0.0
  {
    var e := info.limitPrice;
    var tpPct := if info.signal == LONG then (info.tpPrice - e) / e else (e - info.tpPrice) / e;
    var slPct := if info.signal == LONG then (info.slPrice - e) / e else (e - info.slPrice) / e;
    (tpPct - MAKER_FEE, slPct - TAKER_FEE)
  }

  /** With unrounded exit prices a long nets 0.98% at profit and loses
      0.55% at the stop; a short nets 1.18% and loses 0.45%. */
  lemma NetPercentagesOfRawPrices(signal: string, amount: real, fill: real)
    requires fill > 0.0
    ensures var r := RawExitPrices(signal, fill);
      var net := NetPercentages(EntryInfo(signal, amount, fill, r.0, r.1));
      if signal == LONG then net == (0.0098, -0.0055) else net == (0.0118, -0.0045)
  {
    var r := RawExitPrices(signal, fill);
    if signal == LONG {
      assert (r.0 - fill) / fill == LONG_TP_PCT;
      assert (r.1 - fill) / fill == -LONG_SL_PCT;
    } else {
      assert (fill - r.0) / fill == SHORT_TP_PCT;
      assert (fill - r.1) / fill == -SHORT_SL_PCT;
    }
  }

  /** The stop-loss is retried on the algo endpoint only for these errors. */
  predicate IsAlgoEndpointError(message: string) {
    Contains(message, "-4120") || Contains(message, "Algo Order API endpoints")
  }

  /** The requests `place_tp_sl_orders` sends outside dry-run mode, and
      whether it reports success: the limit take-profit, then the
      stop-market stop-loss, then on an algo-endpoint error the algo stop. */
  function TpSlRequests(symbol: string, info: EntryInfo, venue: Venue): (r: (seq<ExchangeCall>, bool))
    ensures var side := ExitSide(info.signal);
      var tp := CreateLimitOrder(symbol, side, info.amount, info.tpPrice);
      var sl := CreateStopMarketOrder(symbol, side, info.amount, info.slPrice);
      var algo := PostAlgoStopOrder(venue.marketId(symbol), AlgoSide(info.signal),
        venue.amountText(info.amount), venue.priceText(info.slPrice));
      && |r.0| >= 1 && r.0[0] == tp
      && (r.1 <==> (venue.respond(tp).Ok? && (venue.respond(sl).Ok?
            || (IsAlgoEndpointError(venue.respond(sl).message) && venue.respond(algo).Ok?))))
      && (algo in r.0 <==> (venue.respond(tp).Ok? && venue.respond(sl).Err? && IsAlgoEndpointError(venue.respond(sl).message)))
      && (forall c | c in r.0 :: c == tp || c == sl || c == algo)
  {
    var side := ExitSide(info.signal);
    var tp := CreateLimitOrder(symbol, side, info.amount, info.tpPrice);
    var sl := CreateStopMarketOrder(symbol, side, info.amount, info.slPrice);
    if venue.respond(tp).Err? then ([tp], false)
    else if venue.respond(sl).Ok? then ([tp, sl], true)
    else if IsAlgoEndpointError(venue.respond(sl).message) then
      var algo := PostAlgoStopOrder(venue.marketId(symbol), AlgoSide(info.signal),
        venue.amountText(info.amount), venue.priceText(info.slPrice));
      ([tp, sl, algo], venue.respond(algo).Ok?)
    else ([tp, sl], false)
  }

  // ---------------------------------------------------------------------
  // Reconciliation of live positions
  // ---------------------------------------------------------------------

  /** `{p["symbol"]: contracts}`.get(s, 0.0): the last entry for the symbol
      wins, a symbol without an entry has 0. */
  function ContractsOf(ps: seq<Position>, s: string): real
    decreases |ps|
  {
    if ps == [] then 0.0
    else if ps[|ps| - 1].symbol == s then ps[|ps| - 1].contracts
    else ContractsOf(ps[..|ps| - 1], s)
  }

  lemma {:induction false} ContractsOfMissing(ps: seq<Position>, s: string)
    requires forall p | p in ps :: p.symbol != s
    ensures ContractsOf(ps, s) == 0.0
    decreases |ps|
  {
    if ps != [] {
      assert ps[|ps| - 1] in ps;
      assert forall p | p in ps[..|ps| - 1] :: p in ps;
      ContractsOfMissing(ps[..|ps| - 1], s);
    }
  }

  /** A tracked symbol is closed by this pass: always in dry-run mode;
      otherwise when its position reads 0 contracts and fetching its last
      trade did not raise. */
  predicate ClosesNow(s: string, dryRun: bool, ps: seq<Position>, fills: string -> FillReport) {
    dryRun || (ContractsOf(ps, s) == 0.0 && !fills(s).FetchFailed?)
  }

  /** The record written for a closed symbol. */
  function CloseRecord(s: string, dryRun: bool, fills: string -> FillReport): (r: TradeRecord)
    ensures r.symbol == s && r.dryRun == dryRun
    ensures dryRun ==> r.action == "CLOSED" && r.price == 0.0 && r.quantity == 0.0
    ensures !dryRun ==> r.action == "SELL"
  {
    if dryRun then TradeRecord("CLOSED", s, 0.0, 0.0, Some(0.0), DryRunClose, true)
    else match fills(s)
      case LastTrade(price, amount, pnl) => TradeRecord("SELL", s, price, amount, Some(pnl), AutoClose, false)
      case _ => TradeRecord("SELL", s, 0.0, 0.0, Some(0.0), AutoClose, false)
  }

  /** The requests for one tracked symbol: a position at 0 contracts has its
      open orders and its algo orders cancelled (failures ignored). */
  function CleanupCalls(s: string, dryRun: bool, ps: seq<Position>): seq<ExchangeCall> {
    if !dryRun && ContractsOf(ps, s) == 0.0 then [CancelAllOrders(s), CancelAllAlgoOrders(s)] else []
  }

  /** The symbols of a pass that are closed, in order. */
  function ClosedIn(active: seq<string>, dryRun: bool, ps: seq<Position>, fills: string -> FillReport): seq<string>
    decreases |active|
  {
    if active == [] then []
    else
      var before := ClosedIn(active[..|active| - 1], dryRun, ps, fills);
      var s := active[|active| - 1];
      if ClosesNow(s, dryRun, ps, fills) then before + [s] else before
  }

  /** The records a pass writes, in order. */
  function CloseRecords(active: seq<string>, dryRun: bool, ps: seq<Position>, fills: string -> FillReport): seq<TradeRecord>
    decreases |active|
  {
    if active == [] then []
    else
      var before := CloseRecords(active[..|active| - 1], dryRun, ps, fills);
      var s := active[|active| - 1];
      if ClosesNow(s, dryRun, ps, fills) then before + [CloseRecord(s, dryRun, fills)] else before
  }

  /** The requests a pass sends, in order. */
  function CleanupCallsAll(active: seq<string>, dryRun: bool, ps: seq<Position>): seq<ExchangeCall>
    decreases |active|
  {
    if active == [] then []
    else CleanupCallsAll(active[..|active| - 1], dryRun, ps) + CleanupCalls(active[|active| - 1], dryRun, ps)
  }

  /** One more symbol of the pass: each of its results grows by that
      symbol's share. */
  lemma PassStep(active: seq<string>, i: nat, dryRun: bool, ps: seq<Position>, fills: string -> FillReport)
    requires i < |active|
    ensures ClosedIn(active[..i + 1], dryRun, ps, fills)
      == ClosedIn(active[..i], dryRun, ps, fills) + (if ClosesNow(active[i], dryRun, ps, fills) then [active[i]] else [])
    ensures CloseRecords(active[..i + 1], dryRun, ps, fills)
      == CloseRecords(active[..i], dryRun, ps, fills)
         + (if ClosesNow(active[i], dryRun, ps, fills) then [CloseRecord(active[i], dryRun, fills)] else [])
    ensures CleanupCallsAll(active[..i + 1], dryRun, ps)
      == CleanupCallsAll(active[..i], dryRun, ps) + CleanupCalls(active[i], dryRun, ps)
  {
    assert active[..i + 1][..i] == active[..i];
    assert ClosedIn(active[..i], dryRun, ps, fills) + [] == ClosedIn(active[..i], dryRun, ps, fills);
    assert CloseRecords(active[..i], dryRun, ps, fills) + [] == CloseRecords(active[..i], dryRun, ps, fills);
  }

  /** The tracked symbols a pass keeps, in order. */
  function Survivors(active: seq<string>, dryRun: bool, ps: seq<Position>, fills: string -> FillReport): seq<string>
    decreases |active|
  {
    if active == [] then []
    else
      var before := Survivors(active[..|active| - 1], dryRun, ps, fills);
      var s := active[|active| - 1];
      if ClosesNow(s, dryRun, ps, fills) then before else before + [s]
  }

  /** A pass closes exactly the tracked symbols that close now, one record
      each, and keeps exactly the others. */
  lemma {:induction false} PassMembers(active: seq<string>, dryRun: bool, ps: seq<Position>, fills: string -> FillReport)
    ensures forall s :: s in ClosedIn(active, dryRun, ps, fills) <==> s in active && ClosesNow(s, dryRun, ps, fills)
    ensures forall s :: s in Survivors(active, dryRun, ps, fills) <==> s in active && !ClosesNow(s, dryRun, ps, fills)
    ensures |CloseRecords(active, dryRun, ps, fills)| == |ClosedIn(active, dryRun, ps, fills)|
    ensures forall k | 0 <= k < |ClosedIn(active, dryRun, ps, fills)| ::
      CloseRecords(active, dryRun, ps, fills)[k] == CloseRecord(ClosedIn(active, dryRun, ps, fills)[k], dryRun, fills)
    decreases |active|
  {
    if active != [] {
      PassMembers(active[..|active| - 1], dryRun, ps, fills);
      assert forall s :: s in active <==> s in active[..|active| - 1] || s == active[|active| - 1];
    }
  }

  /** Deleting the closed symbols leaves the survivors. */
  lemma {:induction false} WithoutClosed(active: seq<string>, closed: seq<string>, dryRun: bool, ps: seq<Position>, fills: string -> FillReport)
    requires forall s | s in active :: s in closed <==> ClosesNow(s, dryRun, ps, fills)
    ensures Without(active, closed) == Survivors(active, dryRun, ps, fills)
    decreases |active|
  {
    if active != [] {
      WithoutClosed(active[..|active| - 1], closed, dryRun, ps, fills);
    }
  }

  /** A second pass over an unchanged snapshot closes nothing more: it
      writes no record and keeps every survivor. */
  lemma SecondPassIdle(active: seq<string>, dryRun: bool, ps: seq<Position>, fills: string -> FillReport)
    ensures var kept := Survivors(active, dryRun, ps, fills);
      CloseRecords(kept, dryRun, ps, fills) == [] && Survivors(kept, dryRun, ps, fills) == kept
  {
    var kept := Survivors(active, dryRun, ps, fills);
    PassMembers(active, dryRun, ps, fills);
    PassMembers(kept, dryRun, ps, fills);
    NoneCloses(kept, dryRun, ps, fills);
  }

  lemma {:induction false} NoneCloses(active: seq<string>, dryRun: bool, ps: seq<Position>, fills: string -> FillReport)
    requires forall s | s in active :: !ClosesNow(s, dryRun, ps, fills)
    ensures CloseRecords(active, dryRun, ps, fills) == []
    ensures Survivors(active, dryRun, ps, fills) == active
    decreases |active|
  {
    if active != [] {
      var init := active[..|active| - 1];
      assert forall s | s in init :: s in active;
      NoneCloses(init, dryRun, ps, fills);
      assert init + [active[|active| - 1]] == active;
    }
  }

  /** A symbol still holding contracts is never closed outside dry-run
      mode, and in dry-run mode every symbol is. */
  lemma OpenPositionSurvives(active: seq<string>, ps: seq<Position>, fills: string -> FillReport, s: string)
    requires s in active
    ensures ContractsOf(ps, s) != 0.0 ==> s in Survivors(active, false, ps, fills)
    ensures Survivors(active, true, ps, fills) == []
  {
    PassMembers(active, false, ps, fills);
    DryRunClosesAll(active, ps, fills);
  }

  lemma {:induction false} DryRunClosesAll(active: seq<string>, ps: seq<Position>, fills: string -> FillReport)
    ensures Survivors(active, true, ps, fills) == []
    decreases |active|
  {
    if active != [] {
      DryRunClosesAll(active[..|active| - 1], ps, fills);
    }
  }

  /** One pass over the regular open orders of the startup sweep. */
  method SweepOrders(orders: seq<Order>, active: seq<string>, respond: ExchangeCall -> Outcome)
    returns (calls: seq<ExchangeCall>)
    ensures calls == OrderSweep(orders, active, respond)
  {
    calls := [];
    var i := 0;
    while i < |orders|
      invariant 0 <= i <= |orders|
      invariant calls + OrderSweepFrom(orders, i, active, respond) == OrderSweepFrom(orders, 0, active, respond)
    {
      var o := orders[i];
      if !(o.symbol in active && OrderReduceOnly(o)) {
        var c := CancelOrder(o.id, o.symbol);
        AppendAssoc(calls, [c], OrderSweepFrom(orders, i + 1, active, respond));
        calls := calls + [c];
        if respond(c).Err? {
          return;
        }
      }
      i := i + 1;
    }
    assert calls + [] == calls;
  }

  /** One pass over the algo orders of the startup sweep under a keep
      rule. */
  method SweepAlgoOrders(algos: seq<AlgoOrder>, active: seq<string>, venue: Venue, rule: KeepRule)
    returns (calls: seq<ExchangeCall>)
    ensures calls == AlgoSweep(algos, active, venue, rule)
  {
    calls := [];
    var i := 0;
    while i < |algos|
      invariant 0 <= i <= |algos|
      invariant calls + AlgoSweepFrom(algos, i, active, venue, rule) == AlgoSweepFrom(algos, 0, active, venue, rule)
    {
      var a := algos[i];
      if !AlgoKeptBy(rule, a, active, venue.unifiedSymbol) {
        var c := DeleteAlgoOrder(a.symbol, a.algoId);
        AppendAssoc(calls, [c], AlgoSweepFrom(algos, i + 1, active, venue, rule));
        calls := calls + [c];
        if venue.respond(c).Err? {
          return;
        }
      }
      i := i + 1;
    }
    assert calls + [] == calls;
  }

  // ---------------------------------------------------------------------
  // The engine
  // ---------------------------------------------------------------------

  class ExecutionEngine {
    var isHalted: bool
    var pendingEntries: map<string, PendingEntry>
    var activePositions: seq<string>
    var log: seq<TradeRecord>

    /** The live symbols are the keys of a dict: no repeats. */
    predicate Valid()
      reads this
    {
      Distinct(activePositions)
    }

    constructor ()
      ensures Valid()
      ensures !isHalted && pendingEntries == map[] && activePositions == [] && log == []
    {
      isHalted := false;
      pendingEntries := map[];
      activePositions := [];
      log := [];
    }

    /** `sync_state_from_exchange`. In dry-run mode, or when the positions
        cannot be fetched, nothing happens. Otherwise every position with
        contracts is marked live, then the regular open orders (when they
        could be fetched) and the algo orders (likewise) are swept: each
        order that is not a reduce-only order of a live symbol is
        cancelled, and a failed cancel ends that sweep. The algo orders are
        swept with the keep rule as written, which looks the raw market id
        up among the unified live symbols. */
    method SyncStateFromExchange(
      dryRun: bool, positions: Option<seq<Position>>, openOrders: Option<seq<Order>>,
      algoOrders: Option<seq<AlgoOrder>>, venue: Venue)
      returns (calls: seq<ExchangeCall>)
      requires Valid()
      modifies this
      ensures Valid()
      ensures isHalted == old(isHalted) && pendingEntries == old(pendingEntries) && log == old(log)
      ensures dryRun || positions.None? ==> activePositions == old(activePositions) && calls == []
      ensures !dryRun && positions.Some? ==>
        && activePositions == AddLive(old(activePositions), positions.value)
        && calls ==
          (if openOrders.Some? then OrderSweep(openOrders.value, activePositions, venue.respond) else [])
          + (if algoOrders.Some? then AlgoSweep(algoOrders.value, activePositions, venue, AsWritten) else [])
    {
      calls := [];
      if dryRun || positions.None? {
        return;
      }
      var ps := positions.value;
      var i := 0;
      while i < |ps|
        invariant 0 <= i <= |ps|
        invariant activePositions == AddLive(old(activePositions), ps[..i])
        invariant Distinct(activePositions)
        invariant isHalted == old(isHalted) && pendingEntries == old(pendingEntries) && log == old(log)
      {
        assert ps[..i + 1][..i] == ps[..i];
        if ps[i].contracts > 0.0 {
          activePositions := Insert(activePositions, ps[i].symbol);
        }
        i := i + 1;
      }
      assert ps[..i] == ps;
      if openOrders.Some? {
        var swept := SweepOrders(openOrders.value, activePositions, venue.respond);
        calls := calls + swept;
      }
      if algoOrders.Some? {
        var swept := SweepAlgoOrders(algoOrders.value, activePositions, venue, AsWritten);
        calls := calls + swept;
      }
    }

    /** `place_tp_sl_orders`: writes the entry record, then in dry-run mode
        marks the symbol live and succeeds; otherwise sends the exit orders
        on the side opposite the entry and marks the symbol live only when
        they were accepted. The division by the entry price comes before
        any error handling, so the price must not be 0. */
    method PlaceTpSlOrders(symbol: string, info: EntryInfo, dryRun: bool, useTestnet: bool, venue: Venue)
      returns (success: bool, calls: seq<ExchangeCall>)
      requires Valid()
      requires info.limitPrice != 0.0
      modifies this
      ensures Valid()
      ensures isHalted == old(isHalted) && pendingEntries == old(pendingEntries)
      ensures log == old(log) + [TradeRecord(info.signal, symbol, info.limitPrice, info.amount, None, EntryPlaced(dryRun), useTestnet)]
      ensures dryRun ==> success && calls == []
      ensures !dryRun ==> (calls, success) == TpSlRequests(symbol, info, venue)
      ensures activePositions == if success then Insert(old(activePositions), symbol) else old(activePositions)
    {
      var net := NetPercentages(info);
      log := log + [TradeRecord(info.signal, symbol, info.limitPrice, info.amount, None, EntryPlaced(dryRun), useTestnet)];
      calls := [];
      if dryRun {
        activePositions := Insert(activePositions, symbol);
        return true, calls;
      }
      var side := ExitSide(info.signal);
      var tp := CreateLimitOrder(symbol, side, info.amount, info.tpPrice);
      calls := calls + [tp];
      if venue.respond(tp).Err? {
        assert calls == [tp];
        assert TpSlRequests(symbol, info, venue) == ([tp], false);
        return false, calls;
      }
      var sl := CreateStopMarketOrder(symbol, side, info.amount, info.slPrice);
      calls := calls + [sl];
      var answer := venue.respond(sl);
      if answer.Err? {
        if IsAlgoEndpointError(answer.message) {
          var algo := PostAlgoStopOrder(venue.marketId(symbol), AlgoSide(info.signal),
            venue.amountText(info.amount), venue.priceText(info.slPrice));
          calls := calls + [algo];
          assert calls == [tp, sl, algo];
          assert TpSlRequests(symbol, info, venue) == (calls, venue.respond(algo).Ok?);
          if venue.respond(algo).Err? {
            return false, calls;
          }
        } else {
          assert calls == [tp, sl];
          assert TpSlRequests(symbol, info, venue) == ([tp, sl], false);
          return false, calls;
        }
      } else {
        assert calls == [tp, sl];
        assert TpSlRequests(symbol, info, venue) == (calls, true);
      }
      activePositions := Insert(activePositions, symbol);
      success := true;
    }

    /** `place_market_entry_order`. Refused without any change while halted
        or while the symbol is live. Otherwise (outside dry-run mode) the
        margin mode and leverage are set, errors ignored, and the market
        order is sent; a rejected order or an unreadable fill (`fill` is
        None when reading it raised) gives False, and so does a fill price
        that is not positive. After a positive fill the exits are placed
        and the result is True whatever became of them. */
    method PlaceMarketEntryOrder(
      symbol: string, side: string, amount: real, dryRun: bool, useTestnet: bool,
      leverage: int, fill: Option<real>, venue: Venue)
      returns (placed: bool, calls: seq<ExchangeCall>)
      requires Valid()
      modifies this
      ensures Valid()
      ensures isHalted == old(isHalted) && pendingEntries == old(pendingEntries)
      ensures old(isHalted) || symbol in old(activePositions) ==>
        !placed && calls == [] && activePositions == old(activePositions) && log == old(log)
      ensures placed <==>
        && !old(isHalted) && symbol !in old(activePositions)
        && (dryRun || venue.respond(CreateMarketOrder(symbol, side, amount, false)).Ok?)
        && fill.Some? && fill.value > 0.0
      ensures placed ==>
        var signal := if side == "buy" then LONG else SHORT;
        var raw := RawExitPrices(signal, fill.value);
        var info := EntryInfo(signal, amount, fill.value, venue.roundPrice(raw.0), venue.roundPrice(raw.1));
        && log == old(log) + [TradeRecord(signal, symbol, fill.value, amount, None, EntryPlaced(dryRun), useTestnet)]
        && (dryRun ==> calls == [] && activePositions == Insert(old(activePositions), symbol))
        && (!dryRun ==>
              && calls == [SetMarginMode(symbol), SetLeverage(leverage, symbol), CreateMarketOrder(symbol, side, amount, false)]
                + TpSlRequests(symbol, info, venue).0
              && activePositions ==
                   if TpSlRequests(symbol, info, venue).1 then Insert(old(activePositions), symbol)
                   else old(activePositions))
      ensures !placed ==> activePositions == old(activePositions) && log == old(log)
    {
      calls := [];
      if isHalted || symbol in activePositions {
        return false, calls;
      }
      var signal := if side == "buy" then LONG else SHORT;
      if !dryRun {
        calls := calls + [SetMarginMode(symbol), SetLeverage(leverage, symbol)];
        var entry := CreateMarketOrder(symbol, side, amount, false);
        calls := calls + [entry];
        if venue.respond(entry).Err? {
          return false, calls;
        }
      }
      if fill.None? || fill.value <= 0.0 {
        return false, calls;
      }
      var average := fill.value;
      var raw := RawExitPrices(signal, average);
      var info := EntryInfo(signal, amount, average, venue.roundPrice(raw.0), venue.roundPrice(raw.1));
      var success, exitCalls := PlaceTpSlOrders(symbol, info, dryRun, useTestnet, venue);
      calls := calls + exitCalls;
      if success {
        activePositions := Insert(activePositions, symbol);
      }
      placed := true;
    }

    /** `cancel_pending_order`. An unknown symbol gives False and changes
        nothing. Outside dry-run mode a real order id is cancelled on the
        exchange; when that succeeds (or nothing had to be sent) a CANCELED
        record is written and the entry dropped. A cancel rejected with
        "Unknown order" drops the entry without a record; any other
        rejection keeps it and gives False. */
    method CancelPendingOrder(symbol: string, reason: string, dryRun: bool, respond: ExchangeCall -> Outcome)
      returns (done: bool, calls: seq<ExchangeCall>)
      modifies this
      ensures isHalted == old(isHalted) && activePositions == old(activePositions)
      ensures symbol !in old(pendingEntries) ==>
        !done && calls == [] && pendingEntries == old(pendingEntries) && log == old(log)
      ensures symbol in old(pendingEntries) ==>
        var e := old(pendingEntries)[symbol];
        var sent := !dryRun && e.orderId != DRY_RUN_ID;
        var c := CancelOrder(e.orderId, symbol);
        && calls == (if sent then [c] else [])
        && (done <==> !sent || respond(c).Ok? || Contains(respond(c).message, "Unknown order"))
        && pendingEntries == (if done then old(pendingEntries) - {symbol} else old(pendingEntries))
        && log == (if !sent || respond(c).Ok?
                   then old(log) + [TradeRecord("CANCELED", symbol, e.limitPrice, e.amount, Some(0.0), EntryCanceled(reason), dryRun)]
                   else old(log))
    {
      calls := [];
      if symbol !in pendingEntries {
        return false, calls;
      }
      var e := pendingEntries[symbol];
      if !dryRun && e.orderId != DRY_RUN_ID {
        var c := CancelOrder(e.orderId, symbol);
        calls := calls + [c];
        var answer := respond(c);
        if answer.Err? {
          if Contains(answer.message, "Unknown order") {
            pendingEntries := pendingEntries - {symbol};
            return true, calls;
          }
          return false, calls;
        }
      }
      log := log + [TradeRecord("CANCELED", symbol, e.limitPrice, e.amount, Some(0.0), EntryCanceled(reason), dryRun)];
      pendingEntries := pendingEntries - {symbol};
      done := true;
    }

    /** `check_active_positions_state`. Nothing happens without live symbols
        or when the positions cannot be fetched outside dry-run mode.
        Otherwise each live symbol in turn: in dry-run mode it gets a CLOSED
        record and is dropped; outside it, a symbol at 0 contracts has its
        remaining orders cancelled and, unless fetching its last trade
        raises, gets a SELL record and is dropped. The drops happen after
        the pass. */
    method CheckActivePositionsState(
      dryRun: bool, positions: Option<seq<Position>>, fills: string -> FillReport)
      returns (calls: seq<ExchangeCall>)
      requires Valid()
      modifies this
      ensures Valid()
      ensures isHalted == old(isHalted) && pendingEntries == old(pendingEntries)
      ensures old(activePositions) == [] || (!dryRun && positions.None?) ==>
        activePositions == old(activePositions) && log == old(log) && calls == []
      ensures old(activePositions) != [] && (dryRun || positions.Some?) ==>
        var ps := if dryRun then [] else positions.value;
        && activePositions == Survivors(old(activePositions), dryRun, ps, fills)
        && log == old(log) + CloseRecords(old(activePositions), dryRun, ps, fills)
        && calls == CleanupCallsAll(old(activePositions), dryRun, ps)
    {
      calls := [];
      if activePositions == [] {
        return;
      }
      if !dryRun && positions.None? {
        return;
      }
      var ps := if dryRun then [] else positions.value;
      var active := activePositions;
      var toRemove;
      toRemove, calls := CloseFinished(dryRun, ps, fills);
      PassMembers(active, dryRun, ps, fills);
      RemoveSymbols(toRemove);
      WithoutClosed(active, toRemove, dryRun, ps, fills);
      WithoutDistinct(active, toRemove);
    }
    /** The pass of `check_active_positions_state` over the live symbols:
        writes the close records and collects the symbols to drop. */
    method CloseFinished(dryRun: bool, ps: seq<Position>, fills: string -> FillReport)
      returns (toRemove: seq<string>, calls: seq<ExchangeCall>)
      modifies this
      ensures isHalted == old(isHalted) && pendingEntries == old(pendingEntries) && activePositions == old(activePositions)
      ensures toRemove == ClosedIn(activePositions, dryRun, ps, fills)
      ensures log == old(log) + CloseRecords(activePositions, dryRun, ps, fills)
      ensures calls == CleanupCallsAll(activePositions, dryRun, ps)
    {
      var active := activePositions;
      toRemove := [];
      calls := [];
      var i := 0;
      while i < |active|
        invariant 0 <= i <= |active|
        invariant isHalted == old(isHalted) && pendingEntries == old(pendingEntries) && activePositions == active
        invariant toRemove == ClosedIn(active[..i], dryRun, ps, fills)
        invariant log == old(log) + CloseRecords(active[..i], dryRun, ps, fills)
        invariant calls == CleanupCallsAll(active[..i], dryRun, ps)
      {
        PassStep(active, i, dryRun, ps, fills);
        var symbol := active[i];
        if dryRun {
          log := log + [TradeRecord("CLOSED", symbol, 0.0, 0.0, Some(0.0), DryRunClose, true)];
          toRemove := toRemove + [symbol];
        } else if ContractsOf(ps, symbol) == 0.0 {
          calls := calls + [CancelAllOrders(symbol), CancelAllAlgoOrders(symbol)];
          var report := fills(symbol);
          if !report.FetchFailed? {
            log := log + [CloseRecord(symbol, false, fills)];
            toRemove := toRemove + [symbol];
          }
        }
        i := i + 1;
      }
      assert active[..i] == active;
    }

    /** `del self.active_positions[sym]` for each collected symbol. */
    method RemoveSymbols(toRemove: seq<string>)
      modifies this
      ensures isHalted == old(isHalted) && pendingEntries == old(pendingEntries) && log == old(log)
      ensures activePositions == Without(old(activePositions), toRemove)
    {
      WithoutNothing(activePositions);
      var j := 0;
      while j < |toRemove|
        invariant 0 <= j <= |toRemove|
        invariant isHalted == old(isHalted) && pendingEntries == old(pendingEntries) && log == old(log)
        invariant activePositions == Without(old(activePositions), toRemove[..j])
      {
        WithoutStep(old(activePositions), toRemove[..j], toRemove[j]);
        assert toRemove[..j + 1] == toRemove[..j] + [toRemove[j]];
        activePositions := Without(activePositions, [toRemove[j]]);
        j := j + 1;
      }
      assert toRemove[..j] == toRemove;
    }
  }
}
