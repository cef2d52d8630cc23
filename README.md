# Stock back-testing core, modelled in Dafny

This project models the core of a small console program that back-tests stock
trading strategies. It loads daily price histories for up to ten stocks and
simulates a long-only portfolio from day 20 on. Each strategy combines these
rules:

- an SMA crossover entry rule;
- an RSI oversold entry rule;
- take-profit, stop-loss, maximum-holding-period and RSI-overbought exit rules.

The program summarises every run as a strategy result, ranks the results by
return percentage and manages users and their saved strategies.

The model follows the source file by file.

- `structures.dfy` (module `Structures`): the records of `structures.h` and
  its capacity constants.
- `indicators.dfy` (module `Indicators`): `calculate_sma` and
  `calculate_rsi` as pure functions, with their sentinels. SMA is 0.0 before
  `period` days of history and RSI is 50.0 before `period + 1` days.
- `signals.dfy` (module `Signals`): the exit decision, the entry decision and
  the 20 %-of-cash order size of `backtest`, as pure functions.
- `ledger.dfy` (module `Ledger`): the portfolio as a value (`State`). It
  holds cash, per-slot positions, average buy prices, buy days and the
  append-only trade log. One sell, one buy, one stock-day and a whole run are
  functions on it (`ApplySell`, `ApplyBuy`, `Step`, `Simulate`). The lemmas
  about a run live here.
- `engine.dfy` (module `Engine`): `backtest` in its own imperative form. A
  `Portfolio` class keeps arrays for positions, average prices and buy days,
  and a nested day/stock loop updates them in place. Every method is proved
  to move the portfolio exactly as the value model does, so each lemma about
  `Simulate` holds for the engine.
- `summary.dfy` (module `Summary`): `calculate_strategy_result`, a loop
  proved equal to the `Summarize` specification, together with the
  accounting lemmas.
- `ranking.dfy` (module `Ranking`): the best-performer index and the
  in-place bubble sort of `compare_strategies`.
- `presets.dfy` (module `Presets`): `get_preset_strategy`, the three presets
  of `run_comparison_backtest`, and the comparison run itself.
- `users.dfy` (module `Users`):
  - registration as a `UserTable` class over the fixed array of users;
  - login;
  - creating, editing and deleting saved strategies as a `StrategyList`
    class over the fixed array of `MAX_STRATEGIES_PER_USER` slots;
  - `select_user_strategy`.
- `stock_data.dfy` (module `StockData`): the grouping loop of
  `load_stock_data`. Consecutive CSV rows with the same symbol become one
  stock. It is written as an imperative loop over the `stocks` array and is
  proved equal to a pure `Group`. `Group` is proved to be the inverse of
  flattening.

Behaviours of the code that the model keeps as written:

- The SMA sentinel 0.0 is compared like any other value. With a short period
  of 21 or more and a longer long period, on the first day the short SMA has
  enough history and the long SMA does not, so a crossover fires even on a perfectly flat history
  (`Signals.FlatHistorySentinelCrossover`).
- The buy quantity is `floor(0.2 * cash / price)`. In exact arithmetic its
  cost never exceeds the cash, so the source's affordability test only
  rejects a quantity of 0 (`Signals.BuyQuantityIsLargestAffordable`).
- A result whose trades are all buys has a win rate of 0. A sell that breaks
  even counts as a loss.
- A saved strategy whose short SMA period is -1 cannot be told apart from the
  "use a preset" flag of `select_user_strategy`
  (`Users.SavedFlagLooksLikePreset`).
- Rows of a symbol that reappears after another symbol start a new stock
  (`StockData.ReappearingSymbolSplits`).

Several arrays in the source are written without a bound check. They are
`trades[MAX_TRADES]`, `users[MAX_USERS]`, `results[10]` and `sorted[10]`. The
model does not guess at the overflowing behaviour. Each is stated as a
precondition on the member that writes it:

- `Engine.Portfolio.Backtest` requires `Ledger.FitsTradeLog`;
- `Users.UserTable.Register` requires a free slot or a taken name;
- `Presets.RunComparisonBacktest` requires at most 7 saved strategies.

## Model

| member | source | states |
|---|---|---|
| Structures.ClosePrefix | backtest.c:44-47 | the copied buffer has `day + 1` entries and entry `i` is the close of day `i` |
| Indicators.Rsi | backtest.c:17-35 | the RSI is always between 0 and 100, sentinel included |
| Indicators.IndicatorSentinels | backtest.c:7-35 | SMA is 0.0 before `period` days of history and RSI is 50.0 before `period + 1` days |
| Indicators.Sma | backtest.c:7-15 | 0.0 while fewer than `period` closes exist; otherwise `period` times the result is the sum of the window's closes, i.e. their mean |
| Indicators.SmaNoLookAhead | backtest.c:7-15 | the SMA on a day depends only on closes up to that day |
| Indicators.SmaWithinWindow | backtest.c:10-14 | the SMA lies between the lowest and highest close of its window |
| Indicators.SmaOfConstant | backtest.c:7-15 | the SMA of a constant window is that constant |
| Indicators.SmaOfArithmetic | backtest.c:7-15 | on a linear price series the SMA is the value at the window's midpoint |
| Indicators.GainSum | backtest.c:20-26 | the summed upward moves of the window are never negative |
| Indicators.LossSum | backtest.c:20-26 | the summed magnitudes of the downward moves of the window are never negative |
| Indicators.LossSumZeroIff | backtest.c:22-26 | the summed losses are zero exactly when no close in the window falls |
| Indicators.RsiNoLookAhead | backtest.c:17-35 | the RSI on a day depends only on closes up to that day |
| Indicators.RsiHundredIffNoDownMove | backtest.c:28-31 | once history suffices, RSI is 100 exactly when no close in the window falls |
| Indicators.RsiClosedForm | backtest.c:28-34 | with some loss, RSI equals `100 * gains / (gains + losses)` and is below 100 |
| Signals.ExitSignal | backtest.c:49-72 | any signal it returns is an exit reason |
| Signals.ExitPrecedence | backtest.c:57-72 | take profit, then stop loss, then maximum holding, then RSI overbought (only when its threshold is below 100); each fires exactly when every earlier rule did not, and no signal exactly when none applies |
| Signals.EntrySignal | backtest.c:98-119 | any signal it returns is an entry reason |
| Signals.EntryPrecedence | backtest.c:101-119 | an SMA crossover (both periods positive, short SMA moves from at or below the long SMA to above it) wins and carries today's SMAs; otherwise RSI oversold fires when its threshold is positive and RSI is at or below it; otherwise no signal |
| Signals.BuyQuantity | backtest.c:122-123 | the order size is a natural number |
| Signals.BuyQuantityIsLargestAffordable | backtest.c:122-125 | the quantity is the largest whose cost fits 20 % of the cash, and its cost never exceeds the cash |
| Signals.TakeProfitScenario | backtest.c:57-59 | bought at 100 and closing at 111 under a 10 % target, the position exits with take profit at 11 % |
| Signals.FlatHistoryNoEntry | backtest.c:101-119 | on a flat history with a short period of at most 20 and an oversold threshold below 100, no entry fires |
| Signals.FlatHistorySentinelCrossover | backtest.c:101-110 | with periods 21 and 25, the 0.0 sentinel of the long SMA makes a crossover fire on day 20 of a flat history |
| Ledger.FreshIsFlat | backtest.c:464-471 | a new portfolio is consistent, holds no position, has buy day -1 in every slot and a cost basis of 0 |
| Ledger.ApplySell | backtest.c:74-95 | a sell leaves the portfolio consistent |
| Ledger.ApplyBuy | backtest.c:121-145 | a buy leaves the portfolio consistent |
| Ledger.Step | backtest.c:42-147 | one stock-day keeps the portfolio consistent (cash non-negative; a slot holds shares exactly when it has a buy day, at a positive price) and never shortens the trade log |
| Ledger.SellRecorded | backtest.c:74-95 | a sell appends one trade for the whole position at the close, with profit `(close - avg) * qty`; it resets the slot to quantity 0, average price 0.0 and buy day -1, leaves every other slot as it was, and keeps cash plus cost basis minus realised profit |
| Ledger.BuyRecorded | backtest.c:121-145 | a buy appends one trade with profit 0 at the close and fills the slot with that quantity, price and day, leaves every other slot as it was, and keeps the balance identity |
| Ledger.ExitStep | backtest.c:74-96 | the exit step keeps the portfolio consistent and never shortens the trade log |
| Ledger.EntryStep | backtest.c:121-146 | the entry step keeps the portfolio consistent and never shortens the trade log |
| Ledger.ExitRecorded | backtest.c:74-96 | the exit step extends the ledger; it appends a trade exactly when an exit rule fired, and that trade is a SELL of the whole position, dated today, with this stock's symbol and the rule as its reason, leaving the slot empty; with no rule the portfolio is unchanged |
| Ledger.EntryRecorded | backtest.c:121-146 | the entry step extends the ledger; it appends a trade exactly when an entry rule fired and `floor(0.2 * cash / close)` is positive, and that trade is a BUY of exactly that many shares, dated today, with this stock's symbol and the rule as its reason, filling the slot; otherwise the portfolio is unchanged |
| Ledger.EntryGate | backtest.c:121-125 | a BUY of the 20 %-of-cash quantity happens exactly when an entry rule fired and that quantity is positive; otherwise the portfolio is unchanged |
| Ledger.StepRecorded | backtest.c:42-147 | one stock-day adds at most one trade, for that day and stock |
| Ledger.StepKeepsOtherSlots | backtest.c:42-147 | one stock-day leaves the quantity, average price and buy day of every other slot unchanged |
| Ledger.RunStocksRecorded | backtest.c:41-148 | the stocks of a day extend the ledger with trades in day order |
| Ledger.RunDaysRecorded | backtest.c:40-149 | the days of a run extend the ledger with trades in day order |
| Ledger.Simulate | backtest.c:37-150 | a whole run keeps the portfolio consistent and never shortens the trade log |
| Ledger.SimulateRecorded | backtest.c:37-150 | a whole run extends the ledger and its new trades are ordered by day, from day 20 up to the horizon |
| Ledger.SimulateConservesCash | backtest.c:37-150 | a run only appends trades; the new trades chain cash-before to cash-after from the starting to the final cash, so the final cash is the starting cash plus their net flow; no new trade sees negative cash |
| Ledger.FreshRunAccounting | backtest.c:37-150 | from a fresh portfolio, cash plus the cost of open positions equals initial cash plus realised profit |
| Ledger.SimulateChronological | backtest.c:40-41 | the trades of a run are in chronological order |
| Ledger.DayOrderedIffChronological | backtest.c:40-41 | the two orderings of the trade log are equivalent |
| Ledger.SimulateKeepsUnusedSlots | backtest.c:41 | the quantity, average price and buy day of every slot beyond the stock count are never changed |
| Ledger.QuietEveryDay | backtest.c:97-146 | when no entry ever fires, a flat portfolio is left unchanged |
| Ledger.DisabledStrategyNeverTrades | backtest.c:101-113 | a strategy with no SMA periods and no oversold threshold never trades |
| Ledger.FlatMarketNeverTrades | backtest.c:101-119 | on flat price histories a strategy with short period at most 20 and an oversold threshold below 100 never trades |
| Engine.Portfolio.constructor | backtest.c:464-471 | the new portfolio is the fresh value |
| Engine.Portfolio.ClosePosition | backtest.c:74-95 | the in-place sell moves the portfolio exactly as `ApplySell` |
| Engine.Portfolio.OpenPosition | backtest.c:125-145 | the in-place buy moves the portfolio exactly as `ApplyBuy` |
| Engine.Portfolio.CheckExit | backtest.c:49-72 | the exit decision equals `ExitSignal` |
| Engine.Portfolio.CheckEntry | backtest.c:98-119 | the entry decision equals `EntrySignal` |
| Engine.Portfolio.CopyCloses | backtest.c:44-47 | the copy loop yields the close prefix |
| Engine.Portfolio.ExitIfSignalled | backtest.c:74-96 | selling on a signal matches `ExitStep` |
| Engine.Portfolio.EnterIfSignalled | backtest.c:121-146 | buying on a signal (20 % sizing, affordability test) matches `EntryStep` |
| Engine.Portfolio.StepStock | backtest.c:42-147 | one stock-day of the engine matches `Step` |
| Engine.Portfolio.Backtest | backtest.c:37-150 | the nested day/stock loop leaves the portfolio equal to `Simulate` of its starting state |
| Summary.CalculateStrategyResult | backtest.c:264-298 | both loops produce exactly the `Summarize` record |
| Summary.Summarize | backtest.c:264-298 | the result carries the strategy's name, the user and the initial capital; final value is cash plus open positions at their last close; final value is initial capital plus total return; return percentage times initial capital is 100 times total return; total trades counts the whole log and realised profit sums the sells |
| Summary.CountsPartition | backtest.c:282-288 | winning plus losing trades equal the sells, and sells plus buys equal the trade count |
| Summary.WinsAreProfitableSells | backtest.c:283-286 | there are no wins exactly when no sell made a profit, and no losses exactly when every sell made one |
| Summary.WinRateBounds | backtest.c:296 | the win rate is between 0 and 100, is 0 exactly without wins and 100 exactly with wins and no losses |
| Summary.SummaryCounts | backtest.c:282-297 | the result's counts partition the trade log; with some sells, the win rate times their number is 100 times the wins; it obeys those bounds |
| Summary.FreshRunReturn | backtest.c:271-292 | after a fresh run, total return equals realised profit plus the unrealised gain on open positions at the last close, and final value equals initial capital plus total return |
| Ranking.BestIndex | backtest.c:306-311 | the index holds the highest return percentage and no earlier result ties it (0 when there are no results) |
| Ranking.SwapKeepsTies | backtest.c:343-347 | swapping two neighbours with different returns keeps the multiset and the relative order of equal returns |
| Ranking.BubblePass | backtest.c:342-348 | one pass keeps the results a stable permutation and settles one more place at the end |
| Ranking.BubbleSort | backtest.c:341-349 | the array ends sorted by return percentage, highest first, as a permutation that keeps equal returns in their original order |
| Ranking.CompareStrategies | backtest.c:306-349 | the best index and the ranking of the report |
| Ranking.BestHeadsRanking | backtest.c:306-349 | the best performer heads the ranking |
| Presets.PresetStrategy | backtest.c:360-410 | every menu choice yields a named strategy with oversold below overbought within 0..100, SMA periods either both off or short below long, stop loss below take profit and a positive holding limit |
| Presets.ComparisonPresets | backtest.c:434-461 | the comparison run has three presets |
| Presets.ComparisonUsesMenuPresets | backtest.c:370-461 | the comparison run's presets are menu choices 1, 2 and 3, in order |
| Presets.PresetRuleFamilies | backtest.c:370-410 | choice 2 disables SMA, choice 1 disables both RSI rules, any other choice is the combined strategy, and every preset has positive exit thresholds |
| Presets.RunOne | backtest.c:463-476 | one run from a fresh portfolio yields the summary of `Simulate` for that strategy |
| Presets.RunComparisonBacktest | backtest.c:427-497 | the results are the three presets (as "System") followed by the user's strategies (under the user's name), each run from the same initial cash; the best index and ranking are those of `compare_strategies` |
| Users.UserTable.Register | user_management.c:98-120 | a user is appended with no strategies exactly when the name is not taken; otherwise nothing changes; names in the table stay unique |
| Users.RegistrationKeepsNamesUnique | user_management.c:104-117 | registration keeps user names unique |
| Users.Login | user_management.c:122-141 | the result is the first user matching name and password, or -1 exactly when none matches |
| Users.LoginByName | user_management.c:132-137 | with unique names, the matched user is the only one with that name |
| Users.StrategyList.CreateNewStrategy | user_management.c:143-171 | the strategy is appended exactly when fewer than 10 are saved; otherwise nothing changes |
| Users.StrategyList.EditStrategy | user_management.c:173-236 | an in-range choice replaces that strategy by its edit and changes no other; an out-of-range choice changes nothing |
| Users.ApplyEdit | user_management.c:195-233 | a non-empty name replaces the name; each number that was read replaces its field and each one that was not keeps the old value |
| Users.EditKeepsWhatWasNotGiven | user_management.c:195-233 | an edit with an empty name and no numbers read keeps the strategy; a full edit replaces every field |
| Users.StrategyList.DeleteStrategy | user_management.c:254-286 | with an in-range choice and 'y' or 'Y', the strategy is removed and the later ones shift down; otherwise nothing changes |
| Users.RemovalShiftsDown | user_management.c:277-281 | removal keeps earlier strategies in place and moves every later one down by one |
| Users.SelectUserStrategy | user_management.c:288-301 | an in-range choice returns that saved strategy; any other choice returns a strategy flagged with short period -1 |
| Users.PresetFlagIffNoChoice | user_management.c:288-301 | the -1 flag comes back exactly when the choice is out of range, provided no saved strategy uses -1; an in-range choice returns that strategy |
| Users.SavedFlagLooksLikePreset | user_management.c:293-299 | a saved strategy with short period -1 is indistinguishable from the preset flag |
| StockData.Group | stock_data.c:84-97 | no rows give no stocks, and the last stock has the last row's symbol |
| StockData.AddRow | stock_data.c:84-97 | after a row the last stock carries its symbol |
| StockData.AddRowInPlace | stock_data.c:84-97 | one loop iteration updates the array prefix exactly as `AddRow` |
| StockData.LoadStockData | stock_data.c:74-100 | the stock count and the filled prefix of the array equal `Group` of the rows |
| StockData.GroupWellGrouped | stock_data.c:84-89 | no two neighbouring stocks share a symbol and no stock is empty |
| StockData.GroupCountsRuns | stock_data.c:84-89 | the stock count is the number of places where the symbol changes |
| StockData.UngroupGroup | stock_data.c:84-97 | flattening the grouped stocks gives back the rows in order |
| StockData.GroupUngroup | stock_data.c:84-97 | grouping the flattened rows of well-grouped stocks gives back those stocks |
| StockData.ReappearingSymbolSplits | stock_data.c:84-89 | rows A, B, A load as three stocks |

## Left out

- Console input and output are not modelled. This covers every `printf` and
  `scanf` and the reports of `print_detailed_results` and
  `compare_strategies`. The values read from the console become parameters:
  the menu choice, the new strategy, the edit answers and the deletion
  confirmation.
- File handling is not modelled. This covers `fopen`, `fgets` and `sscanf` of
  the CSV file, `create_sample_csv`, and `load_users`/`save_users`.
  `LoadStockData` takes the parsed rows. They exclude the header line, which
  the source skips with its first `fgets`.
- `main.c` and its menus are not part of this model.
- The model uses exact real arithmetic in place of IEEE doubles. Rounding,
  NaN and infinities are not modelled.
- Trade reasons are a datatype carrying the formatted numbers, not the
  formatted strings.
- Trade `type` strings are the `Side` datatype, so comparing them with
  "SELL" becomes `side == Sell`.
- Fixed-width character arrays are not modelled. Strings are unbounded, so
  the truncation or overflow of `strcpy` into `symbol`, `date`, `name` and
  `username` is left out.
- `Users.Login`: the copy of the name into `logged_username` is left out. The
  caller reads the name from the returned index.
- `Users.SelectUserStrategy`: the flag strategy's fields other than the short
  period are uninitialised in the source; here they are zero.
- `Engine.Portfolio.Backtest`: the run's trade log must fit `MAX_TRADES`
  (`Ledger.FitsTradeLog`). The source writes past the array otherwise.
- `Users.UserTable.Register`: a free slot is required when the name is new.
  The source writes past `users[MAX_USERS]` otherwise.
- `Presets.RunComparisonBacktest`: at most 7 saved strategies are allowed.
  The source writes past `results[10]` otherwise.
- `StockData.LoadStockData`: the rows must make at most `MAX_STOCKS` stocks
  of at most `MAX_DAYS` days each (`Loadable`), and the first symbol must not
  be empty. The source writes past its arrays otherwise, and an empty first
  symbol would write to `stocks[-1]`.
- `Engine.Portfolio.EnterIfSignalled`: the `(int)` cast of the quantity is a
  floor of a non-negative real. 32-bit overflow of a huge quantity is not
  modelled.
- `Ledger.ValidMarket` requires at least one stock, because the source reads
  `stocks[0].day_count` unconditionally. It also requires every history to
  be at least as long as the first, because the source reads
  `stocks[s].prices[day]` for every stock up to that count without checking.
- Closes are assumed positive (`Ledger.ValidMarket`). The profit percentage
  divides by the buy price.
