# Paper-trading dashboard core, modelled in Dafny

This project models the core of an AI paper-trading system for perpetual futures:

- **The ledger** (`server/src/lib/exchange/helper.ts`). It has three tables: accounts, positions and orders.
  - Opening a position checks the symbol, the account and any existing open position, then inserts the position, moves the cash balance and records a FILLED MARKET order.
  - Closing a position, in full or in part, computes the realized PnL, reduces or closes the position, credits the balance and total PnL, and records the closing order.
  - Marking a position to market recomputes its unrealized PnL.
  - The account metrics are the account value, the total return and a Sharpe ratio over cumulative returns.
- **Symbol gating** (`server/src/config/exchange.ts`): only ETHUSDT trades.
- **The indicators** that feed the agent's prompt (`server/src/helpers/indicators.ts`): mid price, SMA, EMA, MACD, RSI, ATR and volume.
- **The live-account metrics** (`server/src/lib/exchange/_account.ts`) and **the renderer's helpers** (`server/src/lib/renderer.ts`):
  - available cash and crypto value;
  - the initial-balance reconstruction;
  - the return and Sharpe computations.
- **The formatting utilities** (`server/src/lib/utils.ts`).
- **The dashboard's read-only handlers** (`client/server/api/*.get.ts`) and **the asset catalogue** (`client/config/assets.ts`):
  - the account-value history;
  - open positions grouped by account;
  - completed trades;
  - the highest and lowest performer;
  - the coin and model lookups.

## How the model is built

**The ledger.** The ledger's three tables are a `Tables` value in module `Ledger`. Each operation is a pure transition returning a `Step`: the result, which is a value or a `LedgerError`, and the tables after it.

**The store.** `LedgerStore.Store` is a class whose fields are the three tables and the id counter. Its methods perform the source's writes in order and ensure that the new state equals the transition applied to the old one.

**The ledger invariant.** `LedgerInvariants.Valid` states:
- ids are unique and below the counter;
- every account has at most one open position per symbol;
- rows reference existing accounts and positions.

Every write is proved to preserve it. The lemmas beside it also state what each write does to the row it touches, and that nothing else changes.

**Loops.** Loops in the source are methods with invariants, each proved equal to a specification function. The functions' properties are stated as lemmas.

**Sharpe ratio.** The three copies of the Sharpe computation share one module (`Sharpe`). The square root is kept abstract: the result is either `NoSharpe`, where the code returns 0, or `Ratio(avgReturn, variance)` with a positive variance.

**Behaviours of the code worth noting:**
- Opening a BUY position *adds* `price * quantity` to the cash balance, and a SELL subtracts it. A consequence is proved: opening and then fully closing a position leaves the balance unchanged and adds the realized PnL to the total PnL (`LedgerInvariants.RoundTripAccount`).
- Fills with equal realized PnL do not give a zero standard deviation, because the return series is cumulative. The degenerate case is "every PnL after the first is zero" (`Sharpe.SharpeDefinedIff`).
- In the completed-trades handler, a position's side is BUY or SELL, never `LONG`. So every trade with a position is labelled "short trade" (`CompletedTrades.LedgerSidesAreShort`).

## Model

| member | source | states |
|---|---|---|
| ExchangeConfig.GetSymbolConfig | server/src/config/exchange.ts:29-85 | the configuration returned for a symbol names that symbol, has leverage 10, non-negative precisions and a positive minimum order size |
| ExchangeConfig.IsSupportedSymbol | server/src/config/exchange.ts:90-92 | a symbol is supported exactly when it is in the trading list, which is exactly when it is ETHUSDT; a supported symbol has a configuration |
| ExchangeConfig.SymbolConfigsCoverAllSymbols | server/src/config/exchange.ts:29-78 | the configuration table has exactly one entry per declared symbol, each naming its own symbol |
| Ledger.FindAccount | server/src/lib/exchange/helper.ts:34-42 | the account found has the requested id; nothing is found exactly when no account has it |
| Ledger.FindPosition | server/src/lib/exchange/helper.ts:74-82 | the position found has the requested id; nothing is found exactly when no position has it |
| Ledger.OpenPositions | server/src/lib/exchange/helper.ts:45-56 | a row is listed exactly when it is a position of the account that is open; the list is newest first (a later row of the table comes earlier) |
| Ledger.ClosedOrders | server/src/lib/exchange/helper.ts:59-70 | an order is listed exactly when it belongs to the account and is FILLED; the list is newest first (a later row of the table comes earlier) |
| Ledger.FindBySymbol | server/src/lib/exchange/helper.ts:130 | the position found has the symbol; nothing is found exactly when no listed position has it |
| Ledger.FindOpenPosition | server/src/lib/exchange/helper.ts:129-130 | the position found is open, belongs to the account and has the symbol; nothing is found exactly when no such position exists |
| LedgerInvariants.FindAccountSetBalance | server/src/lib/exchange/helper.ts:159-165 | after the balance write, looking up any id finds what it found before: absent stays absent, the written id now has the new balance, and every other account is as it was |
| LedgerInvariants.FindAccountSetBalanceAndPnl | server/src/lib/exchange/helper.ts:262-269 | after the balance and PnL write, looking up any id finds what it found before: absent stays absent, the written id now has the new balance and total PnL, and every other account is as it was |
| LedgerInvariants.FindPositionSetQuantity | server/src/lib/exchange/helper.ts:233-239 | after the quantity write, looking up any id finds what it found before: absent stays absent, the written id now has the new quantity, and every other position is as it was |
| LedgerInvariants.FindPositionMarkClosed | server/src/lib/exchange/helper.ts:242-248 | after the close write, looking up any id finds what it found before: absent stays absent, the written id is now closed, and every other position is as it was |
| LedgerInvariants.FindPositionSetMark | server/src/lib/exchange/helper.ts:96-104 | after the mark write, looking up any id finds what it found before: absent stays absent, the written id now has the new price and unrealized PnL, and every other position is as it was |
| Ledger.ClosingQuantity | server/src/lib/exchange/helper.ts:215-216 | never more than the position holds; a missing or zero request closes everything; otherwise the smaller of the request and the position's quantity |
| Ledger.GetOrCreateAccount | server/src/lib/exchange/helper.ts:11-31 | returns the first account and leaves the tables alone when one exists; otherwise inserts one new account whose initial and current balances are the given balance, with zero PnL |
| Ledger.CreatePosition | server/src/lib/exchange/helper.ts:119-134 | fails with UnsupportedSymbol, AccountNotFound or PositionAlreadyExists exactly under the source's three guards, in that order; a failure changes nothing |
| Ledger.ClosePosition | server/src/lib/exchange/helper.ts:198-213 | fails with UnsupportedSymbol, AccountNotFound or NoOpenPosition exactly under the source's three guards, in that order; a failure changes nothing |
| Ledger.ApplyClose | server/src/lib/exchange/helper.ts:215-269 | the closed quantity is the clamped request; the realized PnL is the side-directed price move times that quantity; the account is credited with the opposite-side fill value plus the realized PnL, and its total PnL grows by the realized PnL |
| Ledger.UpdatePositionPnL | server/src/lib/exchange/helper.ts:73-107 | fails with PositionNotFound exactly when the id is unknown, changing nothing; otherwise it returns the position with the new price and the side-directed unrealized PnL, and touches no account or order |
| Ledger.ReturnPercentRecoversValue | server/src/lib/exchange/helper.ts:311-314 | the return is 0 for a non-positive initial balance; otherwise applying it to the initial balance gives back the account value |
| Ledger.AccountMetricsSpec | server/src/lib/exchange/helper.ts:297-353 | AccountNotFound exactly for an unknown account; otherwise: cash is the current balance; the positions are the account's open ones; crypto value is their unrealized PnL total; value is cash plus crypto; Sharpe is absent with no fills or a non-positive initial balance |
| LedgerInvariants.GetOrCreateAccountEffects | server/src/lib/exchange/helper.ts:11-31 | preserves the ledger invariant; the account returned is in the tables; a fresh account starts at the given balance with zero PnL |
| LedgerInvariants.CreatePositionEffects | server/src/lib/exchange/helper.ts:137-182 | on success: one open position is appended at the entry price with zero PnL and leverage 1; one FILLED MARKET order at that price, pointing at it, is appended; only the account's balance moves, by the signed fill value |
| LedgerInvariants.OpenKeepsOneOpen | server/src/lib/exchange/helper.ts:128-150 | inserting a position after the existing-position guard keeps at most one open position per account and symbol |
| LedgerInvariants.CreatePreservesValid | server/src/lib/exchange/helper.ts:110-188 | opening a position, whether it succeeds or fails, preserves the ledger invariant |
| LedgerInvariants.CreateTwiceFails | server/src/lib/exchange/helper.ts:128-134 | after a successful open, a second open for the same account and symbol fails with PositionAlreadyExists |
| LedgerInvariants.CreatePrependsFill | server/src/lib/exchange/helper.ts:168-182 | a successful open adds its order to the front of the account's filled-orders list (newest first), with no realized PnL |
| LedgerInvariants.ClosePrependsFill | server/src/lib/exchange/helper.ts:271-293 | a successful close adds its order to the front of the account's filled-orders list (newest first), carrying the realized PnL it returns |
| LedgerInvariants.CloseQuantityEffects | server/src/lib/exchange/helper.ts:215-228 | on success the requested quantity is clamped to the holding (a missing or zero request takes everything), and the realized PnL is the side-directed price move times the closed quantity |
| LedgerInvariants.ClosePositionRowEffects | server/src/lib/exchange/helper.ts:231-249 | the closed position keeps the remaining quantity when some remains, and is marked closed otherwise; every other position is unchanged |
| LedgerInvariants.CloseOrderEffects | server/src/lib/exchange/helper.ts:272-287 | one FILLED MARKET order is appended on the opposite side, for the closed quantity at the current price, carrying the realized PnL and the position's id |
| LedgerInvariants.CloseAccountEffects | server/src/lib/exchange/helper.ts:252-269 | when the guards pass, the account's balance gains the opposite-side fill value plus the realized PnL, and its total PnL gains the realized PnL |
| LedgerInvariants.CloseOtherAccounts | server/src/lib/exchange/helper.ts:262-269 | closing never changes any other account |
| LedgerInvariants.ClosePreservesValid | server/src/lib/exchange/helper.ts:191-294 | closing a position, whether it succeeds or fails, preserves the ledger invariant |
| LedgerInvariants.UpdatePositionPnLEffects | server/src/lib/exchange/helper.ts:84-104 | on success only the marked position changes, to the new price and the side-directed PnL on its full quantity |
| LedgerInvariants.UpdatePreservesValid | server/src/lib/exchange/helper.ts:73-107 | marking to market preserves the ledger invariant |
| LedgerInvariants.FlatFillsCancel | server/src/lib/exchange/helper.ts:252-259 | the opening fill, the opposite-side closing fill and the realized PnL of one quantity sum to zero |
| LedgerInvariants.FullClose | server/src/lib/exchange/helper.ts:215-269 | closing without a quantity closes the whole holding, realizes its full PnL, marks the position closed and credits the account accordingly |
| LedgerInvariants.RoundTripAccount | server/src/lib/exchange/helper.ts:153-157 | an open followed by a full close of the same quantity leaves the balance as it was and adds the realized PnL to the total PnL |
| LedgerInvariants.LedgerSharpeDefinedIff | server/src/lib/exchange/helper.ts:317-342 | a Sharpe ratio is produced exactly when the initial balance is positive and some fill after the first has a non-zero realized PnL |
| LedgerStore.SharpeOfFills | server/src/lib/exchange/helper.ts:317-342 | the loop over the filled orders computes the ledger's Sharpe value |
| LedgerStore.Store.GetOrCreateAccount | server/src/lib/exchange/helper.ts:11-31 | the account returned and the new state are those of the account transition |
| LedgerStore.Store.CreatePosition | server/src/lib/exchange/helper.ts:110-188 | the result and the new state are those of the open transition, guards included |
| LedgerStore.Store.Open | server/src/lib/exchange/helper.ts:137-187 | the three writes of an open leave the state the open transition describes |
| LedgerStore.Store.ClosePosition | server/src/lib/exchange/helper.ts:191-294 | the result and the new state are those of the close transition, guards included |
| LedgerStore.Store.Close | server/src/lib/exchange/helper.ts:215-293 | the three writes of a close leave the state the close transition describes |
| LedgerStore.Store.UpdatePositionPnL | server/src/lib/exchange/helper.ts:73-107 | the result and the new state are those of the mark-to-market transition |
| LedgerStore.Store.GetAccountMetrics | server/src/lib/exchange/helper.ts:297-353 | reads the metrics the specification function gives for the current state, without changing it |
| Sharpe.Returns | server/src/lib/exchange/helper.ts:320-328 | one return per fill |
| Sharpe.ComputeSharpe | server/src/lib/exchange/helper.ts:320-338 | the loop computes the Sharpe value of the cumulative-return series; a ratio comes with a positive variance |
| Sharpe.ReturnsElements | server/src/lib/exchange/helper.ts:321-327 | the i-th return is the sum of the first i+1 PnLs over the initial balance |
| Sharpe.ReturnsStep | server/src/lib/exchange/helper.ts:325-326 | each return is the previous one plus this fill's PnL over the initial balance |
| Sharpe.ReturnsConstantIff | server/src/lib/exchange/helper.ts:320-333 | the return series is constant exactly when every PnL after the first is zero |
| Sharpe.SharpeDefinedIff | server/src/lib/exchange/helper.ts:330-337 | a ratio is produced (the standard deviation is non-zero) exactly when some PnL after the first is non-zero |
| Sharpe.SharpeNonNegativeWhenAllGains | server/src/lib/exchange/helper.ts:330-337 | with a positive initial balance and no losing fill, the average return of a produced ratio is non-negative |
| LiveAccount.AvailableCashIsFirstInr | server/src/lib/exchange/_account.ts:34-36 | cash is the main balance of the first INR holding, or 0 without one |
| LiveAccount.CryptoValueAppend | server/src/lib/exchange/_account.ts:39-41 | the crypto value adds each holding's current value exactly when it has a currency other than INR, USD and USDT |
| LiveAccount.CryptoValueWithoutCrypto | server/src/lib/exchange/_account.ts:39-41 | a portfolio of fiat only has crypto value 0 |
| LiveAccount.CryptoValueNonNegative | server/src/lib/exchange/_account.ts:39-41 | non-negative holding values give a non-negative crypto value |
| LiveAccount.GetAccountMetrics | server/src/lib/exchange/_account.ts:30-55 | the metrics carry the available cash and the crypto value, and the account value is their sum |
| LiveAccount.InitialBalanceChoice | server/src/lib/exchange/_account.ts:67-82 | the initial balance is a positive stored one, the account value, or a positive balance that the total PnL brings to the account value; it is positive when the account value is |
| LiveAccount.CalcPerformanceMetrics | server/src/lib/exchange/_account.ts:60-122 | the chosen initial balance and the return over it; Sharpe exactly when the initial balance is non-zero and some order after the first has a PnL, with a positive variance |
| Renderer.TotalPnlAppend | server/src/lib/renderer.ts:108-111 | the PnL total grows by each order's PnL |
| Renderer.PnlOfZeroIff | server/src/lib/renderer.ts:134 | an order counts 0 exactly when neither PnL field is truthy; a truthy realized PnL is used as is |
| Renderer.ReturnPercentZeroIff | server/src/lib/renderer.ts:90-93 | the return is 0 exactly when the initial balance is 0 or the value equals it; over a positive balance it is positive exactly when the value exceeds it |
| Renderer.ReturnPercentRecoversValue | server/src/lib/renderer.ts:90-93 | applying the return to a non-zero initial balance gives back the account value |
| Renderer.InitialBalanceCases | server/src/lib/renderer.ts:98-118 | the current balance when there are no orders; otherwise the balance less the total PnL when that is positive, else the current balance |
| Renderer.InitialBalancePositive | server/src/lib/renderer.ts:114-117 | a positive current balance gives a positive initial balance |
| Renderer.CalculateSharpeRatio | server/src/lib/renderer.ts:125-161 | none without orders, whatever the balance; with orders, the loop computes the Sharpe value of the cumulative returns: a ratio exactly when some later order has a PnL, then with a positive variance |
| Renderer.OrdersSharpeDefinedIff | server/src/lib/renderer.ts:142-155 | the standard deviation is non-zero exactly when some order after the first has a non-zero PnL |
| Utils.SliceFrom | server/src/lib/utils.ts:15 | `slice` with a negative start keeps that many trailing elements, clamped to the length |
| Utils.DisplayWindow | server/src/lib/utils.ts:15 | the displayed part is a suffix of the array, as long as the array or the limit, whichever is smaller |
| Utils.DisplayWindowIdempotent | server/src/lib/utils.ts:14-17 | windowing twice with the same limit changes nothing more |
| Utils.DisplayWindowNested | server/src/lib/utils.ts:14-17 | a smaller window of a larger window is the smaller window |
| Utils.FormatArray | server/src/lib/utils.ts:14-17 | brackets around the displayed window joined with ", " |
| Utils.FormatArrayShowsLast | server/src/lib/renderer.ts:20-23 | with a positive limit, the text shows exactly the last elements up to the limit, and the whole array when it fits |
| Utils.UnitMillis | server/src/lib/utils.ts:32-37 | every unit is at least one millisecond |
| Utils.CalcDuration | server/src/lib/utils.ts:28-40 | 0 for a falsy start; otherwise the floor of the elapsed milliseconds over the unit, which defaults to seconds |
| Utils.CalcDurationMonotone | server/src/lib/utils.ts:30-37 | a later end never gives a shorter duration |
| Utils.CalcDurationUnitsAgree | server/src/lib/utils.ts:34-37 | minutes are floored seconds over 60, hours floored minutes over 60, days floored hours over 24 |
| Indicators.CalcMidPrice | server/src/helpers/indicators.ts:10-12 | one mid price per candle, the mean of open and close, lying between them |
| Indicators.CalculateSMA | server/src/helpers/indicators.ts:25-33 | one value per full window, each the mean of its window |
| Indicators.SmaWithinBounds | server/src/helpers/indicators.ts:25-33 | an average lies within any bounds of the data |
| Indicators.Smoothing | server/src/helpers/indicators.ts:49 | the factor 2/(period+1) is in (0, 1] |
| Indicators.EmaUpTo | server/src/helpers/indicators.ts:47-62 | one seed plus one value per price after the first period |
| Indicators.EmaShape | server/src/helpers/indicators.ts:47-62 | the series starts at the seed average and every later value is the smoothing step from the previous one |
| Indicators.CalculateEMA | server/src/helpers/indicators.ts:47-62 | the loop computes the series: the seed, then price*k + previous*(1-k) |
| Indicators.ConvexCombinationWithin | server/src/helpers/indicators.ts:57 | a smoothing step between two values within bounds stays within them |
| Indicators.EmaWithinBounds | server/src/helpers/indicators.ts:47-62 | the EMA stays within any bounds of the data |
| Indicators.EmaOfConstant | server/src/helpers/indicators.ts:47-62 | the EMA of a constant series is that constant |
| Indicators.CalculateMACD | server/src/helpers/indicators.ts:77-94 | one value per 26-period EMA value, the aligned 12-period value minus it |
| Indicators.MacdOfConstant | server/src/helpers/indicators.ts:77-94 | a constant series has MACD 0 throughout |
| Indicators.InitialGains | server/src/helpers/indicators.ts:113-120 | the gain sum is non-negative |
| Indicators.InitialLosses | server/src/helpers/indicators.ts:113-120 | the loss sum is non-negative |
| Indicators.SmoothStep | server/src/helpers/indicators.ts:132-140 | Wilder smoothing keeps both averages non-negative |
| Indicators.AveragesAt | server/src/helpers/indicators.ts:122-140 | the gain and loss averages at each step are non-negative |
| Indicators.RsiBounds | server/src/helpers/indicators.ts:126-147 | RSI lies in [0, 100] and is 100 exactly when the loss average is 0 |
| Indicators.InitialSums | server/src/helpers/indicators.ts:113-120 | the loop sums the gains and the losses of the first period |
| Indicators.RsiUpTo | server/src/helpers/indicators.ts:108-151 | one RSI per step |
| Indicators.RsiProperties | server/src/helpers/indicators.ts:108-151 | one value per price after the first period, each the RSI of that step's averages, in [0, 100], and 100 exactly when there is no loss |
| Indicators.CalculateRSI | server/src/helpers/indicators.ts:108-151 | the loops compute the RSI series, one value per price after the first period, each in [0, 100] |
| Indicators.TrueRange | server/src/helpers/indicators.ts:174-183 | the largest of high-low and the two gaps to the previous close, hence non-negative |
| Indicators.TrueRanges | server/src/helpers/indicators.ts:170-186 | one true range per candle after the first |
| Indicators.TrueRangesOf | server/src/helpers/indicators.ts:170-186 | the loop computes the true ranges |
| Indicators.CalculateATR | server/src/helpers/indicators.ts:166-189 | one value per full window of true ranges, each the window's mean, each non-negative |
| Indicators.TrueRangeWindowsNonNegative | server/src/helpers/indicators.ts:188 | window means of true ranges are non-negative |
| Indicators.CalculateVolumeData | server/src/helpers/indicators.ts:200-209 | zeros without candles; otherwise the last volume (0 when missing) and the mean volume |
| Indicators.AverageVolumeWithinBounds | server/src/helpers/indicators.ts:204-206 | the mean volume lies within any bounds of the volumes |
| AccountValues.GroupByAccount | client/server/api/account-values.get.ts:28-34 | each account's group holds exactly its snapshots in order; an account has a group exactly when it has a snapshot |
| AccountValues.LatestSpec | client/server/api/account-values.get.ts:54-56 | no snapshot is chosen exactly when all are later than the time; otherwise the chosen one is at or before it, no earlier-or-equal snapshot is later, and it is the first of its time |
| AccountValues.ModelsSpec | client/server/api/account-values.get.ts:51-64 | an account appears exactly when its closest snapshot or its stored value gives a value, and maps to that value; nothing else appears |
| AccountValues.UniqueTimestampsSpec | client/server/api/account-values.get.ts:39-41 | the timestamps are distinct, are exactly the snapshots' times, and are sorted as strings, as the default sort does |
| AccountValues.EntryModels | client/server/api/account-values.get.ts:51-64 | the loop over accounts computes one entry's values |
| AccountValues.CurrentModels | client/server/api/account-values.get.ts:79-87 | the loop computes the current-values fallback |
| AccountValues.SnapshotPass | client/server/api/account-values.get.ts:44-69 | the loop over timestamps computes the snapshot entries |
| AccountValues.BuildAccountValues | client/server/api/account-values.get.ts:9-94 | the handler's result; empty without accounts |
| AccountValues.SnapshotEntriesSpec | client/server/api/account-values.get.ts:44-69 | at most one entry per timestamp, each with at least one value, at a snapshot time, holding that time's values |
| AccountValues.SnapshotEntriesComplete | client/server/api/account-values.get.ts:66-68 | every timestamp with some value gets an entry |
| AccountValues.FallbackModelsSpec | client/server/api/account-values.get.ts:79-87 | every account appears, with its stored value or else its current balance, and nothing else does |
| AccountValues.AccountValuesSpec | client/server/api/account-values.get.ts:9-94 | empty exactly without accounts; every entry has values; whenever the snapshots yield an entry the result is those entries, each at a snapshot time with that time's values; only when they yield none is it the single current-values entry at `now` |
| PositionsView.SideDisplay | client/server/api/positions.get.ts:44 | BUY shows as LONG, SELL as SHORT, anything else as itself |
| PositionsView.Abs | client/server/api/positions.get.ts:62 | the absolute value |
| PositionsView.OpenRows | client/server/api/positions.get.ts:21 | a row is listed exactly when it is a row of the input whose position is open |
| PositionsView.Views | client/server/api/positions.get.ts:46-56 | one view per row |
| PositionsView.IndexOfAccount | client/server/api/positions.get.ts:28 | the group found is the account's; none is found exactly when no group is |
| PositionsView.PushPosition | client/server/api/positions.get.ts:58-66 | appending a position adds its view, its PnL and its margin to the group |
| PositionsView.GroupPositions | client/server/api/positions.get.ts:25-69 | the loop computes the grouping of the open rows |
| PositionsView.AddPositionMatches | client/server/api/positions.get.ts:58-66 | a group that summarises its rows still does so after one more row |
| PositionsView.NewGroupMatches | client/server/api/positions.get.ts:28-41 | a new group with its first position summarises that one row |
| PositionsView.AddRowConsistent | client/server/api/positions.get.ts:27-67 | one loop step keeps the groups consistent with the rows seen |
| PositionsView.GroupConsistent | client/server/api/positions.get.ts:25-69 | the grouping is consistent with all the rows |
| PositionsView.GroupPositionsSpec | client/server/api/positions.get.ts:25-69 | one group per account in first-appearance order; each holds its account's open positions in order, their PnL total and the balance less their margins; every listed position is open |
| CompletedTrades.SelectedRows | client/server/api/completed-trades.get.ts:26-33 | a row is kept exactly when it is a row of the input with a FILLED order and a position |
| CompletedTrades.Take | client/server/api/completed-trades.get.ts:103 | the first n elements, or all of them |
| CompletedTrades.RoundMinutes | client/server/api/completed-trades.get.ts:66 | the minute count is the nearest to the elapsed milliseconds |
| CompletedTrades.FormatHoldingTime | client/server/api/completed-trades.get.ts:70-79 | minutes under an hour, hours and minutes under a day, otherwise days and hours; never empty |
| CompletedTrades.HoldingTimeParts | client/server/api/completed-trades.get.ts:73-78 | the hour and minute parts, and the day and hour parts, are in range and add up to the holding time |
| CompletedTrades.LedgerSidesAreShort | client/server/api/completed-trades.get.ts:64 | a position whose side is BUY or SELL is labelled "short trade" |
| CompletedTrades.ShapeFields | client/server/api/completed-trades.get.ts:55-94 | the entry price comes from the position or the order, the notionals are the prices times the quantity, the net PnL is the realized PnL, and no position gives holding time "0m" |
| CompletedTrades.IndexOfGroup | client/server/api/completed-trades.get.ts:44 | the group found is the account's; none is found exactly when no group is |
| CompletedTrades.BuildCompletedTrades | client/server/api/completed-trades.get.ts:38-103 | the loop computes the handler's result |
| CompletedTrades.FlattenAppend | client/server/api/completed-trades.get.ts:98 | flattening takes the groups' trades in order |
| CompletedTrades.FlattenUpdate | client/server/api/completed-trades.get.ts:81-98 | appending a trade to a group adds exactly that trade to the flattened result |
| CompletedTrades.GroupTradesPermutation | client/server/api/completed-trades.get.ts:38-98 | grouping and flattening loses and duplicates no trade |
| CompletedTrades.ShapesLength | client/server/api/completed-trades.get.ts:41 | skipping rows never adds trades: there are at most as many trades as query rows |
| CompletedTrades.CompletedTradesSpec | client/server/api/completed-trades.get.ts:98-103 | the result is sorted newest first, has at most 100 trades, and is a permutation of the trades of the kept query rows |
| Performance.ChangeOf | client/server/api/performance.get.ts:36-38 | the stored return when present; otherwise the return that brings a positive initial balance to the value, else 0 |
| Performance.PerformanceSpec | client/server/api/performance.get.ts:21-69 | two nulls exactly without accounts; otherwise the highest and lowest cards bound every value, each is some account's, and they coincide for one account |
| Sorting.SortDescCorrect | client/server/api/performance.get.ts:48 | sorting by value, highest first, is an ordered permutation |
| Sorting.SortAscByStringCorrect | client/server/api/account-values.get.ts:40 | the default string sort is an ordered permutation |
| Assets.GetCoinConfig | client/config/assets.ts:121-124 | found exactly for the six catalogued symbols (in upper case), and the entry names the upper-cased symbol |
| Assets.CoinLookupIgnoresCase | client/config/assets.ts:121-124 | a symbol and its upper-cased form find the same entry |
| Assets.FirstMatch | client/config/assets.ts:132-146 | nothing exactly when no entry matches; otherwise a matching entry with no matching entry before it |
| Assets.AnyIdentifierMatches | client/config/assets.ts:140 | true exactly when some identifier occurs in the lower-cased name |
| Assets.FindModel | client/config/assets.ts:135-145 | the loop with early return finds the first matching entry |
| Assets.GetModelConfig | client/config/assets.ts:132-146 | the first catalogue entry matching the lower-cased name |
| Assets.GptBeforeClaude | client/config/assets.ts:77-114 | a name mentioning both gpt and claude, and neither groq nor grok, resolves to GPT |
| Assets.ModelEntriesNonEmpty | client/config/assets.ts:77-114 | no catalogue entry has an empty icon, name or colour |
| Assets.GetCoinIcon | client/config/assets.ts:153-156 | the entry's icon, or empty when none |
| Assets.GetCoinFullName | client/config/assets.ts:173-176 | the entry's name, or the symbol when none |
| Assets.GetModelIcon | client/config/assets.ts:163-166 | the entry's icon, or the GPT icon when none |
| Assets.GetModelFullName | client/config/assets.ts:183-186 | the entry's name, or the model name when none |
| Assets.GetModelColor | client/config/assets.ts:193-196 | the entry's colour, or blue when none |

## Left out

- Database I/O, transactions and timestamps: each write is one atomic step on the `Tables` value. `updated_at` and `created_at` are not stored; creation order is sequence order. The clock, `new Date()`, is the `now` parameter of the account-values handler.
- UUIDs: ids are drawn from a counter `nextId`, so "fresh id" means "the counter's value".
- Number precision: `numeric(20,8)` rounding, `toString`/`parseFloat` round trips and IEEE float drift are not modelled; every amount is an exact `real`.
- Square root: the Sharpe ratio is left as exact `Ratio(avgReturn, variance)` with `variance > 0`, meaning `avgReturn / sqrt(variance)`.
- The `try`/`catch` blocks that turn a thrown error into a Sharpe ratio of 0: nothing in the modelled arithmetic throws.
- Indicators.CalculateSMA, Indicators.CalculateEMA, Indicators.CalculateRSI, Indicators.CalculateATR: require `period >= 1`, because JavaScript gives NaN or Infinity for period 0. RSI also requires more prices than the period, because otherwise the source reads past the array and gives NaN.
- Renderer.CalculateSharpeRatio: with at least one order it requires a non-zero initial balance, because then the source divides by it and gets a non-finite value; without orders it returns 0 before dividing, and the model covers that case for any balance.
- PositionsView.GroupPositions: requires every leverage to be non-zero; the source divides by it and gets Infinity.
- LiveAccount.GetAccountMetrics: the `positions` field is passed through untouched and is not modelled. Fetching the account data from the exchange is I/O.
- LiveAccount.CalcPerformanceMetrics and Renderer.Pnls: `realized_pnl || pnl || 0` is modelled on numbers. The source adds this value without `parseFloat`, so a string PnL would concatenate; that case is not modelled.
- Text conversion: strings are sequences of characters, and upper and lower case are ASCII only. `Date` is an integer of milliseconds, shown through its decimal text in the unique-timestamp sort.
- Column types of the account-values and performance handlers: neither schema file in the repository (client/server/utils/schema.ts, server/src/config/database/schema.ts) declares `account_value`, `total_return_percent` or an account snapshot table. The model assumes they are `numeric` columns, whose values arrive as strings, so a stored zero is present (truthy) for `||`; with a number-typed column a stored zero would instead fall through to the fallback.
- Ledger.Order: `agentInvocationId` is kept as helper.ts writes it (server/src/lib/exchange/helper.ts:172, :276). The orders table in server/src/config/database/schema.ts:32-47 has no such column, while client/server/utils/schema.ts:48 has one; no contract reads the field.
- Icons are the asset paths as strings, not the bundler's resolved URLs.
- `getModelName` is the constant model name of the source's configuration.
- Sorting: the in-place `Array.prototype.sort` calls are modelled as a stable insertion sort on sequences. SQL `ORDER BY` ties follow insertion order. A `limit(1)` without `ORDER BY`, as in `getOrCreateAccount` (server/src/lib/exchange/helper.ts:12-15), leaves the row to the database; Ledger.GetOrCreateAccount takes the first row in insertion order.
- LedgerInvariants.RoundTripAccount: an open, a mark to market and a full close are not proved as one composed ledger transition. The round trip is stated in parts: the account arithmetic here, FullClose for the close, and FlatFillsCancel for the fill values.
- Assets.GptBeforeClaude: also requires that neither groq nor grok occurs, because that earlier entry would win.
- The agent loop, prompts, LLM calls, the scheduler, the schema migrations and the UI components are outside the modelled core.
