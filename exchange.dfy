/** What the execution engine sees of the futures exchange: the snapshots it
    fetches (positions, regular open orders, conditional "algo" orders), the
    requests it sends, and whether each request succeeded. A request is
    answered by a given function, so the model covers every possible reply. */
module Exchange {
  import opened Py

  /** One entry of `fetch_positions`: unified symbol, contracts held (a
      missing count reads as 0), and the side ("long" or "short"). */
  datatype Position = Position(symbol: string, contracts: real, side: string)

  /** One entry of `fetch_open_orders`: the unified symbol, the id, the
      top-level `reduceOnly` value and the raw `info.reduceOnly` value. */
  datatype Order = Order(symbol: string, id: string, reduceOnly: PyValue, infoReduceOnly: PyValue)

  /** One entry of the `openAlgoOrders` listing: the exchange's raw symbol
      (such as "SOLUSDT"), the algo id and the `reduceOnly` value. */
  datatype AlgoOrder = AlgoOrder(symbol: string, algoId: string, reduceOnly: PyValue)

  /** The reply to a request: success, or the text of the raised error. */
  datatype Outcome = Ok | Err(message: string)

  /** The requests the engine and the panic command send. Limit, stop and
      algo orders are always reduce-only. */
  datatype ExchangeCall =
    | SetMarginMode(marginSymbol: string)
    | SetLeverage(leverage: int, leverageSymbol: string)
    | CreateMarketOrder(symbol: string, side: string, amount: real, reduceOnly: bool)
    | CreateLimitOrder(symbol: string, side: string, amount: real, price: real)
    | CreateStopMarketOrder(symbol: string, side: string, amount: real, stopPrice: real)
    | PostAlgoStopOrder(rawSymbol: string, algoSide: string, quantity: string, triggerPrice: string)
    | CancelOrder(orderId: string, symbol: string)
    | DeleteAlgoOrder(rawSymbol: string, algoId: string)
    | CancelAllOrders(symbol: string)
    | CancelAllAlgoOrders(symbol: string)

  /** The exchange as the engine uses it: the reply to each request, the raw
      market id of a unified symbol, the unified symbol of a raw market id,
      and the precision helpers (`price_to_precision` read back as a float,
      and the text forms of amount and price). */
  datatype Venue = Venue(
    respond: ExchangeCall -> Outcome,
    marketId: string -> string,
    unifiedSymbol: string -> string,
    roundPrice: real -> real,
    amountText: real -> string,
    priceText: real -> string)

  /** What `fetch_my_trades` gave for a symbol: it raised, no trade, or the
      price, amount and realized PnL of the last trade. */
  datatype FillReport = FetchFailed | NoTrades | LastTrade(price: real, amount: real, realizedPnl: real)

  /** `str(v).lower() == "true"` */
  predicate TextSaysTrue(v: PyValue) {
    Lower(PyStrOf(v)) == "true"
  }

  /** `v in [True, "true", "True"]`, where Python's `1 == True` also
      admits the integer 1. */
  predicate InTrueList(v: PyValue) {
    v == PyBool(true) || v == PyInt(1) || v == PyStr("true") || v == PyStr("True")
  }

  /** An open order counts as reduce-only when its top-level flag reads as
      "true", or else its raw flag is one of the accepted true values. */
  predicate OrderReduceOnly(o: Order) {
    TextSaysTrue(o.reduceOnly) || InTrueList(o.infoReduceOnly)
  }

  /** An algo order only has the top-level check. */
  predicate AlgoReduceOnly(a: AlgoOrder) {
    TextSaysTrue(a.reduceOnly)
  }

  /** Which flag values read as true at the top level: the boolean True and
      any spelling of "true"; not None, not the integer 1 and not "1". */
  lemma TextSaysTrueCases()
    ensures TextSaysTrue(PyBool(true)) && TextSaysTrue(PyStr("true")) && TextSaysTrue(PyStr("TRUE"))
    ensures !TextSaysTrue(PyBool(false)) && !TextSaysTrue(PyNone)
    ensures !TextSaysTrue(PyInt(1)) && !TextSaysTrue(PyStr("1"))
  {
    assert Lower("TRUE") == "true";
    assert Lower("None")[0] == 'n';
    assert PyStrOf(PyInt(1)) == "1" by {
      assert IntToString(1) == NatToString(1);
    }
  }

  /** A raw flag of "TRUE" is not accepted, while the integer 1 is. */
  lemma InTrueListCases()
    ensures !InTrueList(PyStr("TRUE")) && InTrueList(PyInt(1)) && !InTrueList(PyNone)
  {
  }
}
