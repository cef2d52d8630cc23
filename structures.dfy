/** Record shapes and capacity constants of the back-testing system.
    A `Stock`'s `day_count` is the length of its price sequence, a
    `Portfolio`'s `trade_count` the length of its trade log. */
module Structures {

  const MAX_STOCKS: nat := 10
  const MAX_DAYS: nat := 1000
  const MAX_TRADES: nat := 500
  const MAX_USERS: nat := 50
  const MAX_STRATEGIES_PER_USER: nat := 10

  /** Day index of the first simulated day: the engine starts at the 21st day. */
  const FIRST_DAY: nat := 20
  /** Period of the RSI used by both the overbought exit and the oversold entry. */
  const RSI_PERIOD: nat := 14

  datatype Option<T> = None | Some(value: T)

  /** One day of one instrument's history. */
  datatype PriceData = PriceData(date: string, open: real, high: real, low: real,
                                 close: real, volume: int)

  /** An instrument: its symbol and its chronological history. */
  datatype Stock = Stock(symbol: string, prices: seq<PriceData>)
  {
    function DayCount(): nat { |prices| }
  }

  datatype Side = Buy | Sell

  /** Why a trade happened, with the number the source formats into its message. */
  datatype Reason =
    | TakeProfit(profitPct: real)
    | StopLoss(lossPct: real)
    | MaxHolding(heldDays: int)
    | RsiOverbought(overboughtRsi: real)
    | SmaCrossover(shortSma: real, longSma: real)
    | RsiOversold(oversoldRsi: real)
  {
    predicate IsExit() { TakeProfit? || StopLoss? || MaxHolding? || RsiOverbought? }
  }

  /** An entry of the append-only trade log. */
  datatype Trade = Trade(symbol: string, date: string, day: int, side: Side,
                         price: real, quantity: int, totalValue: real,
                         cashBefore: real, cashAfter: real, profitLoss: real,
                         reason: Reason)

  /** Parameters of one strategy. A period of 0, an oversold threshold of 0 or an
      overbought threshold of 100 switches the corresponding rule off. */
  datatype Strategy = Strategy(name: string, rsiOversold: real, rsiOverbought: real,
                               smaShortPeriod: int, smaLongPeriod: int,
                               stopLossPct: real, takeProfitPct: real,
                               maxHoldingDays: int)

  /** A registered user; `strategy_count` is the length of `strategies`. */
  datatype User = User(username: string, password: string, strategies: seq<Strategy>)

  /** Summary of one strategy run, used for the comparison report. */
  datatype StrategyResult = StrategyResult(strategyName: string, username: string,
                                           initialCapital: real, finalValue: real,
                                           totalReturn: real, returnPct: real,
                                           totalTrades: int, winningTrades: int,
                                           losingTrades: int, winRate: real,
                                           totalRealizedProfit: real)

  /** The closing prices of `stock` on days 0..day: what the engine copies into
      its local `close_prices` buffer before evaluating indicators. */
  function ClosePrefix(stock: Stock, day: nat): (closes: seq<real>)
    requires day < |stock.prices|
    ensures |closes| == day + 1
    ensures forall i :: 0 <= i <= day ==> closes[i] == stock.prices[i].close
  {
    seq(day + 1, i requires 0 <= i <= day => stock.prices[i].close)
  }
}
