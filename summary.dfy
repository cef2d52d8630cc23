/** `calculate_strategy_result`: a completed portfolio marked to market at
    each stock's last close, with its SELL trades counted as wins and losses. */
module Summary {
  import opened Structures
  import opened Ledger

  /** The close on the last day of a stock's history. */
  function LastClose(stock: Stock): real
    requires |stock.prices| > 0
  {
    stock.prices[|stock.prices| - 1].close
  }

  /** Every stock has at least one day, so its last close exists. */
  predicate NonEmptyHistories(stocks: seq<Stock>)
  {
    forall i :: 0 <= i < |stocks| ==> |stocks[i].prices| > 0
  }

  /** Value of one slot's open position at its stock's last close. */
  function SlotValue(positions: seq<int>, stocks: seq<Stock>, i: nat): real
    requires i < |positions| && i < |stocks| && NonEmptyHistories(stocks)
  {
    if positions[i] > 0 then positions[i] as real * LastClose(stocks[i]) else 0.0
  }

  /** Market value of the open positions in slots 0..n-1. */
  function OpenValue(positions: seq<int>, stocks: seq<Stock>, n: nat): real
    requires n <= |positions| && n <= |stocks| && NonEmptyHistories(stocks)
  {
    if n == 0 then 0.0 else OpenValue(positions, stocks, n - 1) + SlotValue(positions, stocks, n - 1)
  }

  /** Number of SELL trades. */
  function Sells(ts: seq<Trade>): nat
  {
    if ts == [] then 0 else Sells(ts[..|ts| - 1]) + (if ts[|ts| - 1].side == Sell then 1 else 0)
  }

  /** Number of BUY trades. */
  function Buys(ts: seq<Trade>): nat
  {
    if ts == [] then 0 else Buys(ts[..|ts| - 1]) + (if ts[|ts| - 1].side == Buy then 1 else 0)
  }

  /** A SELL is a win when its profit is strictly positive. */
  predicate IsWin(t: Trade)
  {
    t.side == Sell && t.profitLoss > 0.0
  }

  /** A SELL with zero or negative profit is a loss. */
  predicate IsLoss(t: Trade)
  {
    t.side == Sell && t.profitLoss <= 0.0
  }

  function Wins(ts: seq<Trade>): nat
  {
    if ts == [] then 0 else Wins(ts[..|ts| - 1]) + (if IsWin(ts[|ts| - 1]) then 1 else 0)
  }

  function Losses(ts: seq<Trade>): nat
  {
    if ts == [] then 0 else Losses(ts[..|ts| - 1]) + (if IsLoss(ts[|ts| - 1]) then 1 else 0)
  }

  /** Percentage of closed trades that won, 0 when nothing was closed. */
  function WinRate(wins: nat, losses: nat): real
  {
    if wins + losses > 0 then wins as real / (wins + losses) as real * 100.0 else 0.0
  }

  /** What the summary needs: a ledger with MAX_STOCKS slots, at most
      MAX_STOCKS stocks each with a last close, and positive initial cash
      (the return percentage divides by it). */
  predicate Summarizable(p: State, stocks: seq<Stock>, initialCash: real)
  {
    Sized(p) && |stocks| <= MAX_STOCKS && NonEmptyHistories(stocks) && initialCash > 0.0
  }

  /** The result record of a completed run. */
  function Summarize(p: State, stocks: seq<Stock>, initialCash: real, st: Strategy, username: string)
    : (r: StrategyResult)
    requires Summarizable(p, stocks, initialCash)
    ensures r.strategyName == st.name && r.username == username && r.initialCapital == initialCash
    ensures r.finalValue == p.cash + OpenValue(p.positions, stocks, |stocks|)
    ensures r.finalValue == r.initialCapital + r.totalReturn
    ensures r.returnPct * r.initialCapital == r.totalReturn * 100.0
    ensures r.totalTrades == |p.trades| && r.totalRealizedProfit == Realized(p.trades)
  {
    var value := p.cash + OpenValue(p.positions, stocks, |stocks|);
    var wins, losses := Wins(p.trades), Losses(p.trades);
    StrategyResult(st.name, username, initialCash, value, value - initialCash,
                   (value - initialCash) / initialCash * 100.0, |p.trades|,
                   wins, losses, WinRate(wins, losses), Realized(p.trades))
  }

  /** The source's two loops: the open positions valued at their last close,
      then the SELL trades summed and counted. */
  method CalculateStrategyResult(p: State, stocks: seq<Stock>, initialCash: real, st: Strategy, username: string)
    returns (result: StrategyResult)
    requires Summarizable(p, stocks, initialCash)
    ensures result == Summarize(p, stocks, initialCash, st, username)
  {
    var portfolioValue := p.cash;
    var i := 0;
    while i < |stocks|
      invariant 0 <= i <= |stocks|
      invariant portfolioValue == p.cash + OpenValue(p.positions, stocks, i)
    {
      if p.positions[i] > 0 {
        var lastDay := |stocks[i].prices| - 1;
        portfolioValue := portfolioValue + p.positions[i] as real * stocks[i].prices[lastDay].close;
      }
      i := i + 1;
    }
    var winning, losing := 0, 0;
    var realizedProfit := 0.0;
    var k := 0;
    while k < |p.trades|
      invariant 0 <= k <= |p.trades|
      invariant winning == Wins(p.trades[..k]) && losing == Losses(p.trades[..k])
      invariant realizedProfit == Realized(p.trades[..k])
    {
      var t := p.trades[k];
      assert p.trades[..k + 1][..k] == p.trades[..k];
      if t.side == Sell {
        realizedProfit := realizedProfit + t.profitLoss;
        if t.profitLoss > 0.0 {
          winning := winning + 1;
        } else {
          losing := losing + 1;
        }
      }
      k := k + 1;
    }
    assert p.trades[..k] == p.trades;
    var totalReturn := portfolioValue - initialCash;
    var winRate := if winning + losing > 0 then winning as real / (winning + losing) as real * 100.0 else 0.0;
    result := StrategyResult(st.name, username, initialCash, portfolioValue, totalReturn,
                             totalReturn / initialCash * 100.0, |p.trades|, winning, losing,
                             winRate, realizedProfit);
  }

  // ---------------------------------------------------------------- counting

  /** Every SELL is exactly one of a win and a loss; every trade is a BUY or a SELL. */
  lemma {:induction false} CountsPartition(ts: seq<Trade>)
    ensures Wins(ts) + Losses(ts) == Sells(ts)
    ensures Sells(ts) + Buys(ts) == |ts|
  {
    if ts != [] {
      CountsPartition(ts[..|ts| - 1]);
    }
  }

  /** Counting wins and losses pairwise: a win is a SELL with positive profit. */
  lemma {:induction false} WinsAreProfitableSells(ts: seq<Trade>)
    ensures Wins(ts) == 0 <==> forall i :: 0 <= i < |ts| ==> !IsWin(ts[i])
    ensures Losses(ts) == 0 <==> forall i :: 0 <= i < |ts| ==> !IsLoss(ts[i])
  {
    if ts != [] {
      var c := ts[..|ts| - 1];
      WinsAreProfitableSells(c);
      assert forall i :: 0 <= i < |c| ==> c[i] == ts[i];
    }
  }

  lemma WinRateBounds(wins: nat, losses: nat)
    ensures 0.0 <= WinRate(wins, losses) <= 100.0
    ensures WinRate(wins, losses) == 0.0 <==> wins == 0
    ensures WinRate(wins, losses) == 100.0 <==> wins > 0 && losses == 0
  {
    if wins + losses > 0 {
      var n := (wins + losses) as real;
      var f := wins as real / n;
      assert f * n == wins as real;
      assert 0.0 <= f <= 1.0;
      assert f == 1.0 <==> losses == 0;
    }
  }

  /** The counts of a result: all trades, BUYs included, in `total_trades`;
      wins and losses splitting the SELLs; a win rate in [0, 100] that is 0
      without wins and 100 exactly when some SELLs were closed and none lost. */
  lemma SummaryCounts(p: State, stocks: seq<Stock>, initialCash: real, st: Strategy, username: string)
    requires Summarizable(p, stocks, initialCash)
    ensures var r := Summarize(p, stocks, initialCash, st, username);
            r.totalTrades == Buys(p.trades) + Sells(p.trades)
            && r.winningTrades + r.losingTrades == Sells(p.trades)
            && 0.0 <= r.winRate <= 100.0
            && (r.winningTrades + r.losingTrades > 0 ==>
                  r.winRate * (r.winningTrades + r.losingTrades) as real == 100.0 * r.winningTrades as real)
            && (r.winRate == 0.0 <==> forall i :: 0 <= i < |p.trades| ==> !IsWin(p.trades[i]))
            && (r.winRate == 100.0 <==> Sells(p.trades) > 0 && forall i :: 0 <= i < |p.trades| ==> !IsLoss(p.trades[i]))
  {
    CountsPartition(p.trades);
    WinsAreProfitableSells(p.trades);
    WinRateBounds(Wins(p.trades), Losses(p.trades));
  }

  // ---------------------------------------------------------------- return

  /** Open positions valued at their last close less their cost: the
      unrealised profit of slots 0..n-1. */
  function Unrealized(p: State, stocks: seq<Stock>, n: nat): real
    requires Sized(p) && n <= |stocks| && n <= MAX_STOCKS && NonEmptyHistories(stocks)
  {
    if n == 0 then 0.0
    else Unrealized(p, stocks, n - 1) + p.positions[n - 1] as real * (LastClose(stocks[n - 1]) - p.avgBuyPrice[n - 1])
  }

  lemma {:induction false} OpenValueLessCost(p: State, stocks: seq<Stock>, n: nat)
    requires Consistent(p) && n <= |stocks| && n <= MAX_STOCKS && NonEmptyHistories(stocks)
    ensures OpenValue(p.positions, stocks, n) - Exposure(p.positions, p.avgBuyPrice, n) == Unrealized(p, stocks, n)
  {
    if n > 0 {
      OpenValueLessCost(p, stocks, n - 1);
      assert PositionOk(p, n - 1);
    }
  }

  lemma {:induction false} ExposureOfFlatTail(pos: seq<int>, avg: seq<real>, k: nat, n: nat)
    requires k <= n <= |pos| && n <= |avg|
    requires forall i :: k <= i < n ==> pos[i] == 0
    ensures Exposure(pos, avg, n) == Exposure(pos, avg, k)
    decreases n - k
  {
    if n > k {
      ExposureOfFlatTail(pos, avg, k, n - 1);
    }
  }

  /** A run from a fresh portfolio returns exactly its realised profit plus the
      unrealised profit of the positions still open at the last close. */
  lemma FreshRunReturn(initialCash: real, stocks: seq<Stock>, st: Strategy, username: string)
    requires initialCash > 0.0 && ValidMarket(stocks) && NonEmptyHistories(stocks)
    ensures var p := Simulate(Fresh(initialCash), stocks, st);
            Summarizable(p, stocks, initialCash)
            && var r := Summarize(p, stocks, initialCash, st, username);
               r.totalReturn == r.totalRealizedProfit + Unrealized(p, stocks, |stocks|)
               && r.finalValue == r.initialCapital + r.totalReturn
  {
    var p0 := Fresh(initialCash);
    FreshIsFlat(initialCash);
    var p := Simulate(p0, stocks, st);
    FreshRunAccounting(initialCash, stocks, st);
    SimulateKeepsUnusedSlots(p0, stocks, st);
    ExposureOfFlatTail(p.positions, p.avgBuyPrice, |stocks|, MAX_STOCKS);
    OpenValueLessCost(p, stocks, |stocks|);
  }
}
