/** The preset strategies and the comparison run, which backtests every preset
    and every strategy of the user on a fresh portfolio and ranks the results. */
module Presets {
  import opened Structures
  import opened Signals
  import opened Ledger
  import opened Engine
  import opened Summary
  import opened Ranking

  /** `get_preset_strategy`: the parameters behind a menu choice. Choice 3 and
      any unknown choice give the combined strategy. */
  function PresetStrategy(choice: int): (st: Strategy)
    ensures |st.name| > 0
    ensures 0.0 <= st.rsiOversold < st.rsiOverbought <= 100.0
    ensures (0 < st.smaShortPeriod < st.smaLongPeriod) || (st.smaShortPeriod == 0 && st.smaLongPeriod == 0)
    ensures 0.0 < st.stopLossPct < st.takeProfitPct && st.maxHoldingDays > 0
  {
    if choice == 1 then Strategy("SMA Crossover", 0.0, 100.0, 5, 20, 5.0, 10.0, 15)
    else if choice == 2 then Strategy("RSI Strategy", 30.0, 70.0, 0, 0, 4.0, 8.0, 10)
    else Strategy("Combined Strategy", 30.0, 70.0, 5, 20, 5.0, 12.0, 20)
  }

  /** The three presets as `run_comparison_backtest` builds them for itself. */
  function ComparisonPresets(): (presets: seq<Strategy>)
    ensures |presets| == 3
  {
    [Strategy("SMA Crossover", 0.0, 100.0, 5, 20, 5.0, 10.0, 15),
     Strategy("RSI Strategy", 30.0, 70.0, 0, 0, 4.0, 8.0, 10),
     Strategy("Combined Strategy", 30.0, 70.0, 5, 20, 5.0, 12.0, 20)]
  }

  /** The comparison run uses exactly the presets of the menu, in menu order. */
  lemma ComparisonUsesMenuPresets()
    ensures ComparisonPresets() == [PresetStrategy(1), PresetStrategy(2), PresetStrategy(3)]
  {
  }

  /** Which rule families each preset switches on: the crossover preset only
      the SMA rule, the RSI preset only the two RSI rules, the combined preset
      (also the fallback for an unknown choice) all of them; every preset has a
      positive stop loss, take profit and holding limit, and a short period
      below the long one. */
  lemma PresetRuleFamilies(choice: int)
    ensures var st := PresetStrategy(choice);
            (SmaEnabled(st) <==> choice != 2)
            && (st.rsiOversold > 0.0 <==> choice != 1)
            && (st.rsiOverbought < 100.0 <==> choice != 1)
            && (choice != 1 && choice != 2 ==> st == PresetStrategy(3))
            && st.stopLossPct > 0.0 && st.takeProfitPct > 0.0 && st.maxHoldingDays > 0
            && st.smaShortPeriod <= st.smaLongPeriod
  {
  }

  /** The result of backtesting `st` from a fresh portfolio, credited to `owner`. */
  function RunResult(stocks: seq<Stock>, st: Strategy, initialCash: real, owner: string): StrategyResult
    requires ValidMarket(stocks) && NonEmptyHistories(stocks) && initialCash > 0.0
  {
    FreshIsFlat(initialCash);
    Summarize(Simulate(Fresh(initialCash), stocks, st), stocks, initialCash, st, owner)
  }

  /** Every run of `strategies` from `initialCash` fits the trade log. */
  predicate AllFit(stocks: seq<Stock>, strategies: seq<Strategy>, initialCash: real)
    requires ValidMarket(stocks) && initialCash > 0.0
  {
    FreshIsFlat(initialCash);
    forall i :: 0 <= i < |strategies| ==> FitsTradeLog(Fresh(initialCash), stocks, strategies[i])
  }

  /** One run: a portfolio reset to all cash, the backtest, the summary. */
  method RunOne(stocks: seq<Stock>, st: Strategy, initialCash: real, owner: string) returns (result: StrategyResult)
    requires ValidMarket(stocks) && NonEmptyHistories(stocks) && initialCash > 0.0
    requires FitsTradeLog(Fresh(initialCash), stocks, st)
    ensures result == RunResult(stocks, st, initialCash, owner)
  {
    FreshIsFlat(initialCash);
    var portfolio := new Portfolio(initialCash);
    portfolio.Backtest(stocks, st);
    result := CalculateStrategyResult(portfolio.Snapshot(), stocks, initialCash, st, owner);
  }

  /** `run_comparison_backtest`: the three presets credited to "System", then
      the user's strategies credited to the user, each on its own fresh
      portfolio, then the best index and the ranking. The results go into a
      buffer of SORT_CAPACITY entries, so the user may have at most seven
      strategies. */
  method RunComparisonBacktest(stocks: seq<Stock>, user: User, initialCash: real)
    returns (results: seq<StrategyResult>, best: int, ranking: seq<StrategyResult>)
    requires ValidMarket(stocks) && NonEmptyHistories(stocks) && initialCash > 0.0
    requires 3 + |user.strategies| <= SORT_CAPACITY
    requires AllFit(stocks, ComparisonPresets(), initialCash) && AllFit(stocks, user.strategies, initialCash)
    ensures |results| == 3 + |user.strategies|
    ensures forall i :: 0 <= i < 3 ==>
              results[i] == RunResult(stocks, ComparisonPresets()[i], initialCash, "System")
    ensures forall i :: 0 <= i < |user.strategies| ==>
              results[3 + i] == RunResult(stocks, user.strategies[i], initialCash, user.username)
    ensures IsBest(results, best) && RankedFrom(ranking, results)
  {
    var presets := ComparisonPresets();
    results := [];
    var i := 0;
    while i < 3
      invariant 0 <= i <= 3 && |results| == i
      invariant forall k :: 0 <= k < i ==> results[k] == RunResult(stocks, presets[k], initialCash, "System")
    {
      var r := RunOne(stocks, presets[i], initialCash, "System");
      results := results + [r];
      i := i + 1;
    }
    i := 0;
    while i < |user.strategies|
      invariant 0 <= i <= |user.strategies| && |results| == 3 + i
      invariant forall k :: 0 <= k < 3 ==> results[k] == RunResult(stocks, presets[k], initialCash, "System")
      invariant forall k :: 0 <= k < i ==>
                  results[3 + k] == RunResult(stocks, user.strategies[k], initialCash, user.username)
    {
      var r := RunOne(stocks, user.strategies[i], initialCash, user.username);
      results := results + [r];
      i := i + 1;
    }
    best, ranking := CompareStrategies(results);
  }
}
