# A verified model of the trading bot's decision and order-lifecycle core

The bot trades USDT-margined perpetual futures. This project models its core in Dafny:

- **Pair selection:** the highest-volume pairs, fetched with retries and exponential backoff.
- **Entry decision:** the strategy engine's decision from a one-hour trend bias, a fifteen-minute regime, and the three-minute Bollinger/RSI/volume gates.
- **Chandelier trailing stop:** the tracker that moves the stop and decides the exit.
- **Position sizing:** risk-based sizing.
- **Order lifecycle:** the execution engine's startup reconciliation, market entry with take-profit and stop-loss orders, pending-order cancellation, and the position watcher.
- **Telegram commands:** the admin commands that pause or resume the bot, change the leverage or the trading mode, and panic-close everything.

Modules:

- `Py` models the Python behaviour the core relies on:
  - `str`/`int` conversions, `isdigit` and `lower`;
  - `in` on strings;
  - NaN-aware comparisons;
  - `.get` defaults.
- `Portfolio` models `PortfolioState`. It is a class whose `positions` map is updated in place.
- `Strategy` models the decision functions of `StrategyEngine`.
- `Risk` models `RiskManager`.
- `Exchange` holds what the engine sees of the exchange:
  - the fetched positions and orders;
  - the requests it sends;
  - the request outcomes, supplied as a function, so every possible reply is covered.
- `Execution` models `ExecutionEngine`. It is a class with the halt flag, the pending entries, the live symbols (in insertion order, as a Python dict keeps them) and the trade log.
- `Pipeline` models the backoff decorator and `fetch_top_altcoins`.
- `Commands` models the Telegram handlers. `BotSettings` is a class holding the mutable settings.

Every method that talks to the exchange returns the exact sequence of requests it sent. Its contract ties that sequence, and the new state, to a specification function. The lemmas then state what the source promises about those functions, for example:

- only orphaned regular orders are cancelled, while the algo sweep as written deletes every stop;
- a stop only trails in the favourable direction;
- the backoff sleeps double up to the cap;
- the selected pairs are the top-volume eligible ones, ordered stably;
- panic only closes real positions, with reduce-only orders.

## Model

| member | source | states |
|---|---|---|
| `Py.IntToStringRoundTrip` | config.py:48 | `int(str(n)) == n` for every integer, so a leverage written back as text reads back unchanged |
| `Py.IntToStringInjective` | telegram_commands.py:12-17 | distinct chat ids have distinct decimal texts |
| `Py.NatToStringRoundTrip` | telegram_commands.py:111-117 | the decimal text of a natural number is all digits and parses back to the number |
| `Py.ContainsIff` | execution.py:420 | `sub in s` holds exactly when `sub` occurs at some position of `s` |
| `Portfolio.Registered` | strategy.py:70-101 | registration stores the entry as the extreme, and the stop `atr*mult` below the entry for LONG and above it otherwise |
| `Portfolio.Updated` | strategy.py:116-160 | a long's extreme is the max of the old extreme and the high; its stop is at least the old stop and at least extreme − atr·mult, and equals one of them; a short mirrors this with the low |
| `Portfolio.StopWithinReachKept` | strategy.py:86-101 | the stop is never further than atr·mult from the extreme, at registration and after any update |
| `Portfolio.StopsAfter` | strategy.py:116-160 | one returned stop per candle |
| `Portfolio.TrailMonotone` | strategy.py:143-157 | over any run of candles a long's stop and extreme never go down and a short's never go up; direction and entry are kept |
| `Portfolio.StopsOrdered` | strategy.py:143-157 | the sequence of returned stops is non-decreasing for a long and non-increasing for a short |
| `Portfolio.StopIsTrailAfter` | strategy.py:116-160 | the k-th returned stop is the stop after the first k+1 candles |
| `Portfolio.TrailAfter` | strategy.py:116-160 | the state after one `update_chandelier` per candle; its properties are `Portfolio.TrailMonotone` and `Portfolio.StopIsTrailAfter` |
| `Portfolio.IsTriggered` | strategy.py:180-188 | LONG triggers at a price at or below the stop, SHORT at or above it; its properties are `Portfolio.TriggerPersists` and `Portfolio.TriggerMonotoneInPrice` |
| `Portfolio.TriggerPersists` | strategy.py:162-190 | once a price triggers the stop, it still triggers after any further update |
| `Portfolio.TriggerMonotoneInPrice` | strategy.py:180-188 | a long that triggers at a price triggers at every lower one; a short at every higher one |
| `Portfolio.LongTrailExample` | strategy.py:86-157 | entry 100, ATR 2, mult 2, highs 100/105/102/108 give the stops 96, 101, 101, 104 |
| `Portfolio.CountSplit` | strategy.py:58-66 | a direction count splits into one symbol's contribution and the rest |
| `Portfolio.CountAfterStore` | strategy.py:70-101 | storing under a symbol changes each count only by what left and what arrived there |
| `Portfolio.CountAfterClose` | strategy.py:107-112 | closing a symbol lowers its direction's count by one and no other count |
| `Portfolio.SubsetCardinality` | strategy.py:58-66 | a subset of the tracked symbols is no larger than the whole |
| `Portfolio.CountsBounded` | strategy.py:58-66 | open longs plus open shorts never exceed the tracked positions |
| `Portfolio.PortfolioState.constructor` | strategy.py:53-54 | a new tracker has no positions |
| `Portfolio.PortfolioState.RegisterPosition` | strategy.py:70-101 | the map gains the registered state under the symbol; the counts change by the replaced and the new direction only |
| `Portfolio.PortfolioState.ClosePosition` | strategy.py:107-112 | the symbol is removed, and nothing changes when it was absent; its direction's count drops by one |
| `Portfolio.PortfolioState.UpdateChandelier` | strategy.py:116-160 | an untracked symbol gives None and no change; otherwise the state becomes `Updated` and the new stop is returned; the counts are unchanged |
| `Portfolio.PortfolioState.IsChandelierTriggered` | strategy.py:162-190 | true exactly for a tracked symbol whose LONG stop is at or above the price, or whose SHORT stop is at or below it |
| `Portfolio.PortfolioState.GetStopPrice` | strategy.py:192-195 | the stop of a tracked symbol, None exactly for an untracked one |
| `Strategy.HtfBias` | strategy.py:237-270 | BULL iff EMA50 > EMA200·1.002; BEAR iff EMA50 < EMA200·0.998 (and not BULL); NEUTRAL without a frame, with fewer than 50 rows or a NaN EMA |
| `Strategy.HtfBiasBands` | strategy.py:262-268 | for a positive EMA200, NEUTRAL is exactly the band [0.998, 1.002]·EMA200, and BULL/BEAR lie on opposite sides |
| `Strategy.MtfRegime` | strategy.py:275-328 | TREND iff at least 35 rows and ADX ≥ threshold; momentum BULLISH/BEARISH iff MACD is above/below its signal; each value reported exactly when usable |
| `Strategy.PassesGates` | strategy.py:409-470 | at least 50 rows, no NaN band, ATR_14 or volume average, 30 bars since the session reset, and ATR_14 above the long ATR times the ratio; `Strategy.LongSignalIff` and `Strategy.ShortSignalIff` state what it decides |
| `Strategy.LongSetup` | strategy.py:519-577 | the long conditions of both regimes: a bullish hour (and bullish momentum in a trend), no selling pressure, RSI ≤ 30, and a rejection spike or an extreme volume at the lower band; stated by `Strategy.LongSignalIff` |
| `Strategy.ShortSetup` | strategy.py:542-593 | the mirror on the upper band; stated by `Strategy.ShortSignalIff`, and exclusive of the long setup by `Strategy.SetupsExclusive` |
| `Strategy.CheckEntry` | strategy.py:377-683 | a signal only at stage Entered and only after the gates; InsufficientData exactly below 50 rows; the reported price is the close |
| `Strategy.SetupsExclusive` | strategy.py:519-595 | the long and short setups never hold together |
| `Strategy.LongSignalIff` | strategy.py:377-683 | LONG exactly when the gates pass, the long setup holds and fewer than the maximum longs are open |
| `Strategy.ShortSignalIff` | strategy.py:377-683 | SHORT exactly when the gates pass, the short setup holds and fewer than the maximum shorts are open |
| `Strategy.NeutralBiasBlocks` | strategy.py:519-595 | a NEUTRAL one-hour bias blocks every entry |
| `Strategy.NeutralRsiBlocks` | strategy.py:519-595 | an RSI strictly between 30 and 70, or NaN, blocks every entry |
| `Strategy.ExampleLongEntry` | strategy.py:519-627 | a concrete ranging bar under a bullish hour enters LONG, and is refused at the cap with two longs open |
| `Strategy.CheckEntryAsWritten` | strategy.py:480-493 | as written, the call raises exactly when the gates pass and RSI is not NaN; otherwise it returns the intended decision |
| `Strategy.AsWrittenNeverSignals` | strategy.py:480-493 | as written, no returned decision carries a signal |
| `Strategy.ExampleEntryRaisesAsWritten` | strategy.py:480-493 | the example long entry raises as written |
| `Strategy.CheckChandelierExit` | strategy.py:333-375 | the stop is moved for the candle, and the exit is signalled exactly when the price triggers the moved stop; an untracked symbol gives no exit and no stop |
| `Risk.NewRiskManager` | risk_management.py:5-14 | the manager keeps the risk fraction and leverage it was built with |
| `Risk.PositionSize` | risk_management.py:16-79 | all zeros for a non-positive capital, price or ATR; otherwise fails exactly when the leverage is 0 |
| `Risk.PlannedNotional` | risk_management.py:35-58 | the notional before rounding; `Risk.PlannedNotionalFormula` gives its closed form of max(6, min(cap, risk notional)) |
| `Risk.PlannedSize` | risk_management.py:35-58 | the size before rounding; `Risk.PlannedNotionalFormula` states size × price = the planned notional |
| `Risk.PlannedNotionalFormula` | risk_management.py:35-58 | notional = max(6, min(capital·leverage, risk-parity notional)), so never below the minimum order, with the floor applied last |
| `Risk.PlannedSizeAtPrice` | risk_management.py:35-58 | the unrounded size times the entry price is the planned notional |
| `Risk.CapThenFloor` | risk_management.py:47-58 | capping at the maximum notional and then raising to the minimum is max(6, min(cap, notional)) |
| `Risk.SizeTimesPrice` | risk_management.py:47-58 | each branch of the size matches the notional of the same branch at the price |
| `Risk.PositionSizeFacts` | risk_management.py:38-79 | TP distance 2.5·ATR > SL distance 1.5·ATR > 0; margin × leverage = notional; the size is positive before rounding and is the rounded value when rounding succeeds |
| `Risk.SizingExample` | risk_management.py:16-79 | capital 100, risk 0.5%, leverage 5, entry 150, ATR 1.5 gives size 2/9, margin 20/3, TP 3.75, SL 2.25 |
| `Exchange.TextSaysTrue` | execution.py:75-76 | `str(v).lower() == "true"`; `Exchange.TextSaysTrueCases` gives its values |
| `Exchange.InTrueList` | execution.py:77-81 | membership in `[True, "true", "True"]` under Python equality; `Exchange.InTrueListCases` gives its values |
| `Exchange.TextSaysTrueCases` | execution.py:75-76 | `str(v).lower() == "true"` accepts True, "true" and "TRUE", and rejects False, None, 1 and "1" |
| `Exchange.InTrueListCases` | execution.py:77-81 | the raw-flag list accepts the integer 1, and rejects "TRUE" and None |
| `Execution.Insert` | execution.py:50-51 | marking a key adds exactly that key and keeps the keys distinct |
| `Execution.Without` | execution.py:600-601 | deleting keys keeps exactly the others |
| `Execution.WithoutNothing` | execution.py:600-601 | deleting no key changes nothing |
| `Execution.WithoutDistinct` | execution.py:600-601 | deleting keys keeps the remaining keys distinct |
| `Execution.WithoutStep` | execution.py:600-601 | deleting keys one at a time is deleting them all together |
| `Execution.AddLive` | execution.py:44-55 | the live symbols after recovery; `Execution.AddLiveMembers` states which symbols it holds |
| `Execution.AddLiveMembers` | execution.py:44-55 | recovery marks exactly the symbols that hold contracts, keeps earlier marks and keeps the keys distinct |
| `Execution.OrderKept` | execution.py:73-86 | a regular order stays when its symbol is live and it is reduce-only; the sweep lemmas below state what it decides |
| `Execution.AlgoKeptAsWritten` | execution.py:118-129 | the keep rule as written: the raw algo symbol looked up among the unified live symbols; `Execution.AsWrittenKeepsNoAlgo` shows it keeps nothing |
| `Execution.AlgoKept` | execution.py:118-129 | the intended keep rule, with the raw id first turned into the unified symbol; `Execution.AlgoKeepExample` contrasts it with the rule as written |
| `Execution.AlgoKeptBy` | execution.py:118-129 | selects one of the two keep rules for the algo sweep |
| `Execution.OrderSweepFromSound` | execution.py:70-93 | from any order on, each cancel sent is for a later order that is not kept |
| `Execution.OrderSweepFromComplete` | execution.py:70-93 | from any order on, with every cancel accepted, each later order not kept is cancelled |
| `Execution.OrderSweepSound` | execution.py:70-93 | every cancel the startup sweep sends is for an order that is not a reduce-only order of a live symbol |
| `Execution.OrderSweepComplete` | execution.py:70-93 | when every cancel is accepted, every such orphaned order is cancelled |
| `Execution.AlgoSweepFromSound` | execution.py:117-143 | under either keep rule, from any algo order on, each delete sent is for a later algo order that rule does not keep |
| `Execution.AlgoSweepFromComplete` | execution.py:117-143 | under either keep rule, from any algo order on, with every delete accepted, each later algo order that rule does not keep is deleted |
| `Execution.AlgoSweepExact` | execution.py:117-143 | under either keep rule, the algo sweep deletes only the algo orders that rule does not keep, and all of them when every delete is accepted |
| `Execution.AsWrittenSweepFrom` | execution.py:117-143 | as written, with unified live symbols and raw algo ids, the sweep from any algo order on is one delete per algo order up to the first failed one |
| `Execution.DeleteAllAccepted` | execution.py:117-143 | with every delete accepted, one delete per remaining algo order is sent, in order |
| `Execution.AsWrittenDeletesEveryStop` | execution.py:117-143 | the startup sweep as written deletes every algo order, the stops of live positions included, until a delete fails; exactly one per algo order when all are accepted |
| `Execution.AsWrittenKeepsNoAlgo` | execution.py:118-131 | as written, no algo order is kept when its raw symbol has no '/' and the live symbols all have one |
| `Execution.AlgoKeepExample` | execution.py:118-131 | a live SOL position's reduce-only stop is deleted as written and kept by the corrected rule |
| `Execution.SweepOrders` | execution.py:70-93 | the loop sends exactly the requests of `OrderSweep` |
| `Execution.SweepAlgoOrders` | execution.py:117-143 | the loop sends exactly the requests of `AlgoSweep` under the given keep rule, stopping at the first failed delete as the enclosing `try` does |
| `Execution.ExitSide` | execution.py:352 | the exit side is "sell" exactly for a LONG, and "buy" otherwise |
| `Execution.RawExitPrices` | execution.py:254-262 | a long's TP is 1.0% above the fill and its SL 0.5% below; a short's TP is 1.2% below and its SL 0.4% above |
| `Execution.NetPercentagesOfRawPrices` | execution.py:359-372 | at unrounded prices the logged net results are +0.98%/−0.55% for a long and +1.18%/−0.45% for a short |
| `Execution.TpSlRequests` | execution.py:396-446 | the TP is sent first; the algo stop is sent exactly after an algo-endpoint error of the stop-market; success iff the TP is accepted and then one of the two stops |
| `Execution.ContractsOf` | execution.py:481-490 | the contracts of a symbol in the position map, 0 without an entry; `Execution.ContractsOfMissing` states the default |
| `Execution.ContractsOfMissing` | execution.py:481-490 | a symbol that no fetched position names has 0 contracts |
| `Execution.ClosesNow` | execution.py:494-598 | a symbol closes in dry-run mode, or at 0 contracts when the trades could be fetched; `Execution.PassMembers` and `Execution.OpenPositionSurvives` state its consequences |
| `Execution.CloseRecord` | execution.py:493-598 | a close record is a "CLOSED" zero record in dry-run mode and a "SELL" record otherwise |
| `Execution.PassMembers` | execution.py:493-598 | a pass closes exactly the symbols that close now, writes one record per closed symbol in order, and keeps exactly the others |
| `Execution.WithoutClosed` | execution.py:600-601 | deleting the closed symbols leaves exactly the survivors |
| `Execution.SecondPassIdle` | execution.py:471-601 | a second pass over the same snapshot writes nothing and drops nothing |
| `Execution.NoneCloses` | execution.py:493-598 | when no symbol closes, a pass writes no record and keeps every symbol |
| `Execution.OpenPositionSurvives` | execution.py:493-598 | outside dry-run mode a symbol still holding contracts is never dropped; in dry-run mode every symbol is |
| `Execution.DryRunClosesAll` | execution.py:493-598 | in dry-run mode a pass drops every live symbol |
| `Execution.ExecutionEngine.constructor` | execution.py:9-28 | a new engine is not halted and has no pending entries, no live symbols and no records |
| `Execution.ExecutionEngine.SyncStateFromExchange` | execution.py:30-150 | no change in dry-run mode or when positions cannot be fetched; otherwise the live symbols become `AddLive` of the positions, and the requests are the order sweep followed by the algo sweep under the keep rule as written at execution.py:129 |
| `Execution.ExecutionEngine.PlaceTpSlOrders` | execution.py:341-463 | one entry record; in dry-run mode success with no requests; otherwise the requests and result of `TpSlRequests`; the symbol is marked live iff success |
| `Execution.ExecutionEngine.PlaceMarketEntryOrder` | execution.py:177-291 | refused with no change while halted or already live; placed iff the market order is accepted (or dry run) and the fill is positive; then margin, leverage, the order and the exit requests, in that order |
| `Execution.ExecutionEngine.CancelPendingOrder` | execution.py:293-339 | an unknown symbol gives False; the cancel is sent only for a real order outside dry-run mode; the entry is dropped iff done; the CANCELED record is written iff nothing was sent or the cancel was accepted |
| `Execution.ExecutionEngine.CheckActivePositionsState` | execution.py:471-601 | no change without live symbols or without positions; otherwise the survivors, the close records and the cleanup requests of the pass |
| `Execution.PassStep` | execution.py:493-598 | each tracked symbol appends its own closed symbol, record and cleanup requests to those of the symbols before it |
| `Execution.ExecutionEngine.CloseFinished` | execution.py:493-598 | the pass collects exactly `ClosedIn`, logs `CloseRecords` and sends `CleanupCallsAll` |
| `Execution.ExecutionEngine.RemoveSymbols` | execution.py:600-601 | the live symbols become those not collected |
| `Pipeline.WithBackoff` | data_pipeline.py:13-43 | the outcome, the sleeps and the attempt count are those of the retry schedule `Run` |
| `Pipeline.Run` | data_pipeline.py:22-39 | the retry schedule; `Pipeline.RunAttempts`, `Pipeline.RunEnding` and `Pipeline.SleepSchedule` state its properties |
| `Pipeline.RunAttempts` | data_pipeline.py:22-39 | at most max_retries+1 attempts, with one sleep between consecutive attempts |
| `Pipeline.RunEnding` | data_pipeline.py:22-39 | every attempt before the last failed with a retryable error; a return is the last call's success; a raise is a non-retryable error or the retries running out |
| `Pipeline.Pow2` | data_pipeline.py:38-39 | the doubling factor is at least 1 |
| `Pipeline.SleepsFrom` | data_pipeline.py:38-39 | the k-th sleep from a delay is the delay for k = 0 and min(max, delay·2^k) after it |
| `Pipeline.CapTwice` | data_pipeline.py:38-39 | doubling a capped delay and capping again equals capping the doubled delay |
| `Pipeline.SleepSchedule` | data_pipeline.py:22-39 | the sleeps are base, then min(max, base·2^k); none exceeds max when base ≤ max |
| `Pipeline.EligiblePairs` | data_pipeline.py:177-181 | a ticker is kept exactly when it ends in "/USDT:USDT" and is not excluded, in the fetched order |
| `Pipeline.InsertDesc` | data_pipeline.py:184-186 | one insertion of the stable descending sort, after every entry of at least the same volume; `Pipeline.InsertDescPermutation`, `Pipeline.InsertDescSorted` and `Pipeline.InsertDescStable` state its properties |
| `Pipeline.SortDesc` | data_pipeline.py:184-186 | `sorted(..., reverse=True)` by volume; `Pipeline.SortDescSorted`, `Pipeline.SortDescPermutation` and `Pipeline.SortDescStable` state its properties |
| `Pipeline.InsertDescPermutation` | data_pipeline.py:184-186 | inserting gives the multiset of the tickers plus the new one |
| `Pipeline.SliceTo` | data_pipeline.py:189-190 | `s[:limit]`, a prefix of length min(limit, len) for limit ≥ 0, and len + limit (at least 0) for limit < 0 |
| `Pipeline.Symbols` | data_pipeline.py:190 | one symbol per ticker, in order |
| `Pipeline.InsertDescSorted` | data_pipeline.py:184-186 | inserting into a volume-descending list keeps it descending |
| `Pipeline.SortDescSorted` | data_pipeline.py:184-186 | the sort is descending by volume |
| `Pipeline.SortDescPermutation` | data_pipeline.py:184-186 | the sort is a permutation of its input |
| `Pipeline.WithVolumeConcat` | data_pipeline.py:184-186 | the tickers of one volume in a concatenation are those of each part, in order |
| `Pipeline.InsertDescStable` | data_pipeline.py:184-186 | inserting keeps the relative order of the tickers of each volume, the new one last |
| `Pipeline.NoneWithVolume` | data_pipeline.py:184-186 | a list of other volumes has no ticker of this volume |
| `Pipeline.SortDescStable` | data_pipeline.py:184-186 | tickers of equal volume keep their fetched order, as Python's stable sort does |
| `Pipeline.TopAltcoins` | data_pipeline.py:174-190 | the list returned once `fetch_tickers` has answered; the lemmas below state its properties |
| `Pipeline.TopAltcoinsOrder` | data_pipeline.py:184-190 | the selection is a prefix of the volume-sorted eligible tickers, itself descending; the sort keeps the multiset and the fetched order within each volume; `limit` results when that many are eligible, all of them when fewer |
| `Pipeline.TopAltcoinsEligible` | data_pipeline.py:177-190 | every selected ticker was fetched, ends in "/USDT:USDT" and is not excluded |
| `Pipeline.PrefixNoneSkipped` | data_pipeline.py:184-189 | a prefix of a volume-descending list holds every entry that outranks one of its members |
| `Pipeline.TopAltcoinsNoneSkipped` | data_pipeline.py:177-190 | no eligible ticker is left out while one of lower volume is selected |
| `Pipeline.FetchTopAltcoins` | data_pipeline.py:156-190 | 1 to 4 attempts; the sleeps are a prefix of 1, 2, 4 seconds; a returned value is the top list of the successful fetch |
| `Pipeline.DefaultSchedule` | data_pipeline.py:13-43 | with base 1 s and cap 60 s, the first five sleeps are 1, 2, 4, 8 and 16 seconds |
| `Pipeline.DefaultBackoff` | data_pipeline.py:13-43 | the decorator with its default arguments makes one to six attempts, with the sleeps a prefix of 1, 2, 4, 8 and 16 seconds |
| `Pipeline.DefaultSelection` | data_pipeline.py:157-190 | with the default exclusion list no excluded symbol, BTC and ETH among them, is returned; with the default limit, five symbols or all eligible ones when fewer |
| `Commands.CheckAdmin` | telegram_commands.py:12-17 | `str(chat_id) == TELEGRAM_CHAT_ID`; `Commands.AdminIsOneChat` states which chats pass |
| `Commands.AdminIsOneChat` | telegram_commands.py:12-17 | with the configured id set to an admin's id, exactly that chat passes the check |
| `Commands.LeverageFromArgs` | telegram_commands.py:106-117 | a value exactly when there is a first argument made only of digits, and then its decimal value |
| `Commands.ModeFromArgs` | telegram_commands.py:125-139 | dry_run/real in any case select True/False; any other or missing argument is refused |
| `Commands.ModeText` | telegram_commands.py:136-140 | the persisted text is "True" or "False" |
| `Commands.LeveragePersistRoundTrip` | telegram_commands.py:115-117 | the persisted leverage text reads back as the same integer |
| `Commands.ModePersistRoundTrip` | telegram_commands.py:138-140 | the persisted mode reads back as dry run exactly when dry run was chosen |
| `Commands.ArgumentExamples` | telegram_commands.py:106-139 | "0" → 0, "007" → 7; none, "", "-5" and "5x" are refused; "DRY_RUN" → dry run, "Real" → real, "paper" is refused |
| `Commands.BotSettings.constructor` | config.py:48-51 | the settings start from the given values with nothing persisted |
| `Commands.BotSettings.Pause` | telegram_commands.py:88-94 | the admin pauses; anyone else changes nothing |
| `Commands.BotSettings.Resume` | telegram_commands.py:97-103 | the admin resumes; anyone else changes nothing |
| `Commands.BotSettings.Leverage` | telegram_commands.py:106-122 | applied iff admin and a valid argument; then the leverage is set and persisted as its decimal text; otherwise no change |
| `Commands.BotSettings.Mode` | telegram_commands.py:125-144 | applied iff admin and a valid argument; then the mode is set and persisted as "True"/"False"; otherwise no change |
| `Commands.Requests` | telegram_commands.py:159-218 | one request event per call, in order |
| `Commands.PanicTargets` | telegram_commands.py:169-172 | the targets are exactly the live symbols and the pending-entry symbols |
| `Commands.CloseSide` | telegram_commands.py:206 | a long is closed by selling, anything else by buying |
| `Commands.OpenCount` | telegram_commands.py:201-214 | the number of positions holding contracts |
| `Commands.PanicCloses` | telegram_commands.py:201-214 | the close orders and the count of the panic phase; `Commands.PanicClosesFacts` states its properties |
| `Commands.PanicClosesFacts` | telegram_commands.py:201-214 | every close is a reduce-only market order against a position with contracts; dry run sends nothing and counts them all; otherwise the count is at most the sent orders and all of them when every order is accepted |
| `Commands.PanicCancel` | telegram_commands.py:176-198 | each target gets exactly one cancel-all, and a cancel-all-algo only once its first cancel is accepted; no request is sent twice |
| `Commands.PanicClose` | telegram_commands.py:201-214 | the loop sends and counts exactly as `PanicCloses` |
| `Commands.PanicCmd` | telegram_commands.py:159-218 | a non-admin changes and sends nothing; the admin pauses entries first, then the cancels, then the closes; leverage and mode are untouched |

## Left out

- Logging, reply texts, the database session and the Kakao/Telegram notifier are not modelled. Trade rows are an append-only log, and a failed database write is not modelled.
- Network I/O, clocks and `asyncio.sleep`: exchange replies, fetched snapshots and fill reports are parameters, and the sleeps are returned as a list rather than waited.
- Floating point: prices and sizes are exact reals, so the rounding of `(max_notional / price) * price` and of the tick-size helpers is not modelled. The price and amount rounding helpers are parameters.
- NaN is modelled only where the modelled code tests for it (indicator columns). Prices, volumes and contracts are finite numbers, an absent `quoteVolume` key counts as 0 (a key present with the value None, which makes the sort raise a TypeError, is not modelled), and a missing contract count reads as 0.
- The indicator computation (EMA, ADX, MACD, Bollinger bands, RSI, ATR, CVD) is a library call. Its last-row results are inputs.
- `check_entry`'s reason texts, its `vwap_mid` column and the ZeroDivisionError of its log line when the volume average is 0 are not modelled. The last would only replace one raise with another in `Strategy.CheckEntryAsWritten`.
- `Strategy.CheckEntry`: a NaN longer-window ATR makes the volatility gate pass, as the NaN comparison does in the source. A NaN close or volume is not modelled.
- `setup_margin_and_leverage` (execution.py:152-175) is modelled only as the two requests `place_market_entry_order` sends, with their errors ignored. Its message matching is not modelled.
- `check_pending_orders_state` (execution.py:465-469) and `check_state_mismatch` (execution.py:603-623) are not modelled. In the code shown, `pending_entries` is never filled, so the pending-order paths only matter after the model's own `CancelPendingOrder`.
- `Execution.ExecutionEngine.PlaceMarketEntryOrder`: the chain that reads the fill price (the order's average, then a re-fetch, then the trades) is one input `fill`, which is None when reading it raised. The entry record's dry-run flag is the testnet setting, and is passed as such.
- `Execution.ExecutionEngine.PlaceTpSlOrders` requires a non-zero entry price, because the source divides by it before any error handling.
- `Execution.ExecutionEngine.CheckActivePositionsState`: listing and deleting one symbol's algo orders is one `CancelAllAlgoOrders` request. Its failures are ignored in the source as in the model.
- `Commands.PanicCmd`: the algo-order deletion loop is one `CancelAllAlgoOrders` request per symbol, sent only after the regular cancel is accepted. The per-symbol handler catches the rest, and the exchange's reply to the unified symbol is left to `respond`. A raising `fetch_positions` is the `None` positions input, and a failing close order ends the loop.
- `Commands.PanicCancel`: Python iterates a set in an unspecified order, so the model chooses the targets in any order. Its contract fixes the requests without fixing their order.
- The `/start`, `/help`, `/status` and `/restart` handlers are not modelled: they only format text or restart the process.
- `update_env_variable` is imported by the handlers, but it is not defined in config.py and is not part of this model. A persisted write is modelled as an appended (key, value) pair.
- `TELEGRAM_CHAT_ID` and `IS_PAUSED` are not defined in the settings class. They are a parameter and a field. `IS_PAUSED` is not read by the execution engine.
- `Py.Lower` and `Py.IsDigitChar` are ASCII only. Python's Unicode `isdigit` also accepts digits such as "²", for which `int()` then raises; that case is not modelled.
- `Pipeline.SleepSchedule`: the first sleep is the base delay uncapped, so "no sleep exceeds the maximum" is stated only when base ≤ max.
- `Pipeline.TopAltcoinsOrder`: a negative limit slices from the end, so "at most `limit` results" is stated for limit ≥ 0, and the negative case through `Pipeline.SliceTo`.

## Findings

| source | as written | input that shows it | evidently intended | confidence | as-written member | corrected member |
|---|---|---|---|---|---|---|
| strategy.py:480-493 | once the volatility gate passes, the status line is formatted with `vol_mult` whenever RSI is not NaN; that local is only assigned at line 493, so an UnboundLocalError is raised and no signal is ever returned | the bar of `Strategy.ExampleLongEntry`: RSI 25, a low through the lower band, twice the average volume, a bullish hour | compute the multiplier before the log line and return the decision | not executed | `Strategy.CheckEntryAsWritten` | `Strategy.CheckEntry` |
| execution.py:118-131 | the startup sweep looks up the raw algo symbol ("SOLUSDT") among the unified live symbols ("SOL/USDT:USDT"), so no algo order is ever kept and every live position loses its stop-loss; the engine's `SyncStateFromExchange` runs this rule, and `SweepAlgoOrders` under `Intended` runs the corrected one | a live SOL position with a reduce-only algo stop, as in `Execution.AlgoKeepExample` | convert the raw id to the unified symbol before the lookup (`Execution.AlgoKept`) | not executed | `Execution.AsWrittenDeletesEveryStop` | `Execution.AlgoSweepExact` |
