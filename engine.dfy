/** The engine as the source runs it: a portfolio record whose cash, position
    arrays and trade log are updated in place, day by day and stock by stock.
    Every method is proved to leave the portfolio exactly where the value
    model in module Ledger says it must be. */
module Engine {
  import opened Structures
  import opened Indicators
  import opened Signals
  import opened Ledger

  class Portfolio {
    var cash: real
    const positions: array<int>
    const avgBuyPrice: array<real>
    const buyDay: array<int>
    /** `trades[0..trade_count-1]`. */
    var trades: seq<Trade>

    /** The portfolio as a ledger value. */
    function Snapshot(): State
      reads this, positions, avgBuyPrice, buyDay
    {
      State(cash, positions[..], avgBuyPrice[..], buyDay[..], trades)
    }

    /** MAX_STOCKS slots in three separate arrays, holding a consistent ledger. */
    ghost predicate Valid()
      reads this, positions, avgBuyPrice, buyDay
    {
      positions.Length == MAX_STOCKS && avgBuyPrice.Length == MAX_STOCKS
      && buyDay.Length == MAX_STOCKS && positions != buyDay
      && Consistent(Snapshot())
    }

    /** The reset the source performs before every run: all cash, every slot
        flat with buying day -1, no trades. */
    constructor (initialCash: real)
      requires initialCash >= 0.0
      ensures Valid() && Snapshot() == Fresh(initialCash)
      ensures fresh(positions) && fresh(avgBuyPrice) && fresh(buyDay)
    {
      cash := initialCash;
      trades := [];
      positions := new int[MAX_STOCKS];
      avgBuyPrice := new real[MAX_STOCKS];
      buyDay := new int[MAX_STOCKS];
      new;
      var j := 0;
      while j < MAX_STOCKS
        invariant 0 <= j <= MAX_STOCKS && cash == initialCash && trades == []
        invariant forall k :: 0 <= k < j ==> positions[k] == 0 && avgBuyPrice[k] == 0.0 && buyDay[k] == -1
      {
        positions[j] := 0;
        avgBuyPrice[j] := 0.0;
        buyDay[j] := -1;
        j := j + 1;
      }
      ghost var f := Fresh(initialCash);
      FreshIsFlat(initialCash);
      assert positions[..] == f.positions;
      assert avgBuyPrice[..] == f.avgBuyPrice;
      assert buyDay[..] == f.buyDay;
    }

    /** Sells the whole position in slot `s` at the day's close. */
    method ClosePosition(stock: Stock, day: nat, s: nat, reason: Reason)
      requires Valid() && s < MAX_STOCKS && positions[s] > 0
      requires day < |stock.prices| && stock.prices[day].close > 0.0
      modifies this, positions, avgBuyPrice, buyDay
      ensures Valid() && Snapshot() == ApplySell(old(Snapshot()), s, stock, day, reason)
    {
      ghost var p := Snapshot();
      ghost var r := ApplySell(p, s, stock, day, reason);
      var currentPrice := stock.prices[day].close;
      var quantity := positions[s];
      var totalValue := currentPrice * quantity as real;
      var profit := (currentPrice - avgBuyPrice[s]) * quantity as real;
      var trade := Trade(stock.symbol, stock.prices[day].date, day, Sell, currentPrice, quantity,
                         totalValue, cash, cash + totalValue, profit, reason);
      assert p.positions[s] == quantity && p.avgBuyPrice[s] == avgBuyPrice[s] && p.cash == cash;
      assert r.cash == cash + totalValue;
      assert |r.trades| == |p.trades| + 1;
      assert r.trades[..|p.trades|] == p.trades;
      assert r.trades[|p.trades|] == trade;
      assert r.trades == p.trades + [trade];
      cash := cash + totalValue;
      trades := trades + [trade];
      positions[s] := 0;
      avgBuyPrice[s] := 0.0;
      buyDay[s] := -1;
      assert positions[..] == old(positions[..])[s := 0];
      assert avgBuyPrice[..] == old(avgBuyPrice[..])[s := 0.0];
      assert buyDay[..] == old(buyDay[..])[s := -1];
    }

    /** Opens a position of `quantity` shares in slot `s` at the day's close. */
    method OpenPosition(stock: Stock, day: nat, s: nat, quantity: int, reason: Reason)
      requires Valid() && s < MAX_STOCKS && positions[s] == 0
      requires day < |stock.prices| && stock.prices[day].close > 0.0
      requires quantity > 0 && cash >= stock.prices[day].close * quantity as real
      modifies this, positions, avgBuyPrice, buyDay
      ensures Valid() && Snapshot() == ApplyBuy(old(Snapshot()), s, stock, day, quantity, reason)
    {
      ghost var p := Snapshot();
      ghost var r := ApplyBuy(p, s, stock, day, quantity, reason);
      var currentPrice := stock.prices[day].close;
      var totalValue := currentPrice * quantity as real;
      var trade := Trade(stock.symbol, stock.prices[day].date, day, Buy, currentPrice, quantity,
                         totalValue, cash, cash - totalValue, 0.0, reason);
      assert r.trades == p.trades + [trade] && r.cash == cash - totalValue;
      cash := cash - totalValue;
      trades := trades + [trade];
      positions[s] := quantity;
      avgBuyPrice[s] := currentPrice;
      buyDay[s] := day;
      assert positions[..] == old(positions[..])[s := quantity];
      assert avgBuyPrice[..] == old(avgBuyPrice[..])[s := currentPrice];
      assert buyDay[..] == old(buyDay[..])[s := day];
    }

    /** The exit rules of an open position bought at `buyPrice` on
        `buyingDay`, checked in the source's order; `Signals.ExitSignal` is
        their specification, and this is its imperative twin. */
    static method CheckExit(st: Strategy, closes: seq<real>, day: nat, buyPrice: real, buyingDay: int)
      returns (exit: Option<Reason>)
      requires day < |closes| && buyPrice > 0.0
      ensures exit == ExitSignal(st, closes, day, buyPrice, buyingDay)
    {
      var profitPct := ProfitPct(closes[day], buyPrice);
      var holdingDays := day - buyingDay;
      exit := None;
      if profitPct >= st.takeProfitPct {
        exit := Some(TakeProfit(profitPct));
      } else if profitPct <= -st.stopLossPct {
        exit := Some(StopLoss(profitPct));
      } else if holdingDays >= st.maxHoldingDays {
        exit := Some(MaxHolding(holdingDays));
      } else if st.rsiOverbought < 100.0 {
        var rsi := Rsi(closes, day, RSI_PERIOD);
        if rsi >= st.rsiOverbought {
          exit := Some(RsiOverbought(rsi));
        }
      }
    }

    /** The entry rules of a flat position: the crossover, then RSI oversold;
        `Signals.EntrySignal` is their specification, and this is its imperative twin. */
    static method CheckEntry(st: Strategy, closes: seq<real>, day: nat) returns (entry: Option<Reason>)
      requires 1 <= day < |closes|
      ensures entry == EntrySignal(st, closes, day)
    {
      entry := None;
      if st.smaShortPeriod > 0 && st.smaLongPeriod > 0 {
        var smaShort := Sma(closes, day, st.smaShortPeriod);
        var smaLong := Sma(closes, day, st.smaLongPeriod);
        var prevSmaShort := Sma(closes, day - 1, st.smaShortPeriod);
        var prevSmaLong := Sma(closes, day - 1, st.smaLongPeriod);
        if prevSmaShort <= prevSmaLong && smaShort > smaLong {
          entry := Some(SmaCrossover(smaShort, smaLong));
        }
      }
      if entry.None? && st.rsiOversold > 0.0 {
        var rsi := Rsi(closes, day, RSI_PERIOD);
        if rsi <= st.rsiOversold {
          entry := Some(RsiOversold(rsi));
        }
      }
    }

    /** The local `close_prices` buffer: the closes of `stock` on days 0..day. */
    static method CopyCloses(stock: Stock, day: nat) returns (closes: seq<real>)
      requires day < |stock.prices|
      ensures closes == ClosePrefix(stock, day)
    {
      var closePrices := new real[day + 1];
      var i := 0;
      while i < day + 1
        invariant 0 <= i <= day + 1
        invariant forall k :: 0 <= k < i ==> closePrices[k] == stock.prices[k].close
      {
        closePrices[i] := stock.prices[i].close;
        i := i + 1;
      }
      closes := closePrices[..];
    }

    /** An open position: sold when an exit rule fired. */
    method ExitIfSignalled(stock: Stock, day: nat, s: nat, exit: Option<Reason>)
      requires Valid() && s < MAX_STOCKS && positions[s] > 0
      requires day < |stock.prices| && PositiveCloses(stock)
      modifies this, positions, avgBuyPrice, buyDay
      ensures Valid() && Snapshot() == ExitStep(old(Snapshot()), stock, day, s, exit)
    {
      if exit.Some? {
        ClosePosition(stock, day, s, exit.value);
      }
    }

    /** A flat position: when an entry rule fired, bought with a fifth of the
        cash if at least one share is affordable. */
    method EnterIfSignalled(stock: Stock, day: nat, s: nat, entry: Option<Reason>)
      requires Valid() && s < MAX_STOCKS && positions[s] == 0
      requires day < |stock.prices| && PositiveCloses(stock)
      modifies this, positions, avgBuyPrice, buyDay
      ensures Valid() && Snapshot() == EntryStep(old(Snapshot()), stock, day, s, entry)
    {
      if entry.Some? {
        var currentPrice := stock.prices[day].close;
        var investment := cash * 0.2;
        var quantity := (investment / currentPrice).Floor;
        if quantity > 0 && cash >= currentPrice * quantity as real {
          OpenPosition(stock, day, s, quantity, entry.value);
        }
      }
    }

    /** The body of the inner loop for stock `s` on `day`: copy the closes up to
        today, then check the exit rules of an open position or the entry rules
        of a flat one, and trade when a rule fires. */
    method StepStock(stocks: seq<Stock>, st: Strategy, day: nat, s: nat)
      requires Valid() && ValidMarket(stocks) && s < |stocks| && FIRST_DAY <= day < Horizon(stocks)
      modifies this, positions, avgBuyPrice, buyDay
      ensures Valid() && Snapshot() == Step(old(Snapshot()), stocks, st, day, s)
    {
      ghost var p := Snapshot();
      assert Covers(stocks[s], Horizon(stocks));
      assert PositionOk(p, s);
      assert p.positions[s] == positions[s] && p.avgBuyPrice[s] == avgBuyPrice[s] && p.buyDay[s] == buyDay[s];
      var closes := CopyCloses(stocks[s], day);
      if positions[s] > 0 {
        var exit := CheckExit(st, closes, day, avgBuyPrice[s], buyDay[s]);
        ExitIfSignalled(stocks[s], day, s, exit);
      } else {
        var entry := CheckEntry(st, closes, day);
        EnterIfSignalled(stocks[s], day, s, entry);
      }
    }

    /** `backtest`: days FIRST_DAY up to the first stock's history length, and
        within each day the stocks in index order. */
    method Backtest(stocks: seq<Stock>, st: Strategy)
      requires Valid() && ValidMarket(stocks) && FitsTradeLog(Snapshot(), stocks, st)
      modifies this, positions, avgBuyPrice, buyDay
      ensures Valid() && Snapshot() == Simulate(old(Snapshot()), stocks, st)
    {
      ghost var p0 := Snapshot();
      var maxDays := |stocks[0].prices|;
      var day := FIRST_DAY;
      while day < maxDays
        invariant Valid() && FIRST_DAY <= day
        invariant day == FIRST_DAY ==> Snapshot() == p0
        invariant day > FIRST_DAY ==> day <= maxDays && Snapshot() == RunDays(p0, stocks, st, day)
      {
        assert Snapshot() == RunStocks(p0, stocks, st, day, 0);
        var s := 0;
        while s < |stocks|
          invariant 0 <= s <= |stocks|
          invariant Valid() && Snapshot() == RunStocks(p0, stocks, st, day, s)
        {
          StepStock(stocks, st, day, s);
          s := s + 1;
        }
        day := day + 1;
      }
    }
  }
}
