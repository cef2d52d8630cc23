/** The portfolio ledger as a value, and the engine's day-by-day, stock-by-stock
    run as a fold over it. The imperative engine in module Engine is proved to
    compute exactly `Simulate`; the properties of a run are proved here. */
module Ledger {
  import opened Structures
  import opened Indicators
  import opened Signals

  /** Cash, the per-stock position arrays and the trade log of a portfolio. */
  datatype State = State(cash: real, positions: seq<int>, avgBuyPrice: seq<real>,
                         buyDay: seq<int>, trades: seq<Trade>)

  predicate Sized(p: State)
  {
    |p.positions| == MAX_STOCKS && |p.avgBuyPrice| == MAX_STOCKS && |p.buyDay| == MAX_STOCKS
  }

  /** A slot holds shares exactly when it has a buying day, and an open
      position has a positive buying price. */
  predicate PositionOk(p: State, i: int)
    requires Sized(p) && 0 <= i < MAX_STOCKS
  {
    p.positions[i] >= 0
    && (p.positions[i] > 0 <==> p.buyDay[i] >= 0)
    && (p.positions[i] > 0 ==> p.avgBuyPrice[i] > 0.0)
  }

  /** The ledger invariant: the cash is never negative and every slot is consistent. */
  predicate Consistent(p: State)
  {
    Sized(p) && p.cash >= 0.0 && forall i :: 0 <= i < MAX_STOCKS ==> PositionOk(p, i)
  }

  /** A fresh portfolio: all cash, no positions, empty log. */
  function Fresh(initialCash: real): State
  {
    State(initialCash, seq(MAX_STOCKS, _ => 0), seq(MAX_STOCKS, _ => 0.0),
          seq(MAX_STOCKS, _ => -1), [])
  }

  /** A fresh portfolio is consistent, flat and holds nothing at cost. */
  lemma FreshIsFlat(initialCash: real)
    requires initialCash >= 0.0
    ensures var p := Fresh(initialCash);
            Consistent(p) && forall i :: 0 <= i < MAX_STOCKS ==> p.positions[i] == 0 && p.buyDay[i] == -1
    ensures CostBasis(Fresh(initialCash)) == 0.0
  {
    var p := Fresh(initialCash);
    assert forall i :: 0 <= i < MAX_STOCKS ==> PositionOk(p, i);
    ExposureOfFlat(p.positions, p.avgBuyPrice, MAX_STOCKS);
  }

  // ---------------------------------------------------------------- market

  predicate PositiveCloses(stock: Stock)
  {
    forall d :: 0 <= d < |stock.prices| ==> stock.prices[d].close > 0.0
  }

  /** A stock usable over a run of `horizon` days. */
  predicate Covers(stock: Stock, horizon: nat)
  {
    horizon <= |stock.prices| <= MAX_DAYS && PositiveCloses(stock)
  }

  /** What the engine needs of its input: at least one and at most MAX_STOCKS
      stocks, positive closes, and every stock at least as long as the first,
      whose length is the horizon. */
  predicate ValidMarket(stocks: seq<Stock>)
  {
    1 <= |stocks| <= MAX_STOCKS
    && forall s :: 0 <= s < |stocks| ==> Covers(stocks[s], |stocks[0].prices|)
  }

  function Horizon(stocks: seq<Stock>): nat
    requires |stocks| >= 1
  {
    |stocks[0].prices|
  }

  // ---------------------------------------------------------------- trade log

  /** Signed effect of a trade on cash. */
  function Flow(t: Trade): real
  {
    if t.side == Buy then -t.totalValue else t.totalValue
  }

  function NetFlow(ts: seq<Trade>): real
  {
    if ts == [] then 0.0 else NetFlow(ts[..|ts| - 1]) + Flow(ts[|ts| - 1])
  }

  /** Realised profit: the sum of the SELL trades' profit_loss. */
  function Realized(ts: seq<Trade>): real
  {
    if ts == [] then 0.0
    else Realized(ts[..|ts| - 1]) + (if ts[|ts| - 1].side == Sell then ts[|ts| - 1].profitLoss else 0.0)
  }

  /** The log records the cash it moved: each trade starts from the cash the
      previous one left, changes it by exactly its signed value, and the chain
      runs from `from` to `to`. */
  predicate Chained(ts: seq<Trade>, from: real, to: real)
  {
    if ts == [] then from == to
    else
      var t := ts[|ts| - 1];
      Chained(ts[..|ts| - 1], from, t.cashBefore)
      && t.totalValue == t.price * t.quantity as real
      && t.cashAfter == t.cashBefore + Flow(t) && t.cashAfter == to
  }

  /** No trade saw or left negative cash. */
  predicate Solvent(ts: seq<Trade>)
  {
    forall i :: 0 <= i < |ts| ==> ts[i].cashBefore >= 0.0 && ts[i].cashAfter >= 0.0
  }

  /** Value of the open positions at their buying prices, slots 0..n-1. */
  function Exposure(pos: seq<int>, avg: seq<real>, n: nat): real
    requires n <= |pos| && n <= |avg|
  {
    if n == 0 then 0.0 else Exposure(pos, avg, n - 1) + pos[n - 1] as real * avg[n - 1]
  }

  function CostBasis(p: State): real
    requires Sized(p)
  {
    Exposure(p.positions, p.avgBuyPrice, MAX_STOCKS)
  }

  /** `r` is `p` after appending trades: the old log is kept, the new trades
      chain the cash from p.cash to r.cash without going negative, and cash plus
      cost basis minus realised profit is unchanged. */
  predicate Extends(p: State, r: State)
    requires Sized(p) && Sized(r)
  {
    |p.trades| <= |r.trades| && r.trades[..|p.trades|] == p.trades
    && Chained(r.trades[|p.trades|..], p.cash, r.cash)
    && Solvent(r.trades[|p.trades|..])
    && r.cash + CostBasis(r) - Realized(r.trades) == p.cash + CostBasis(p) - Realized(p.trades)
  }

  // ---------------------------------------------------------------- BUY / SELL

  /** Closing a whole position at the day's close (backtest.c:74-95). */
  function ApplySell(p: State, s: nat, stock: Stock, day: nat, reason: Reason): (r: State)
    requires Consistent(p) && s < MAX_STOCKS && p.positions[s] > 0
    requires day < |stock.prices| && stock.prices[day].close > 0.0
    ensures Consistent(r)
  {
    var price := stock.prices[day].close;
    var quantity := p.positions[s];
    var total := price * quantity as real;
    var t := Trade(stock.symbol, stock.prices[day].date, day, Sell, price, quantity, total,
                   p.cash, p.cash + total, (price - p.avgBuyPrice[s]) * quantity as real, reason);
    var r := State(p.cash + total, p.positions[s := 0], p.avgBuyPrice[s := 0.0],
                   p.buyDay[s := -1], p.trades + [t]);
    SellKeepsBalance(p, r, s, t);
    r
  }

  /** Opening a position of `quantity` shares at the day's close when it is
      affordable (backtest.c:121-145). */
  function ApplyBuy(p: State, s: nat, stock: Stock, day: nat, quantity: int, reason: Reason): (r: State)
    requires Consistent(p) && s < MAX_STOCKS && p.positions[s] == 0
    requires day < |stock.prices| && stock.prices[day].close > 0.0
    requires quantity > 0 && p.cash >= stock.prices[day].close * quantity as real
    ensures Consistent(r)
  {
    var price := stock.prices[day].close;
    var total := price * quantity as real;
    var t := Trade(stock.symbol, stock.prices[day].date, day, Buy, price, quantity, total,
                   p.cash, p.cash - total, 0.0, reason);
    var r := State(p.cash - total, p.positions[s := quantity], p.avgBuyPrice[s := price],
                   p.buyDay[s := day], p.trades + [t]);
    BuyKeepsBalance(p, r, s, t);
    r
  }

  // ---------------------------------------------------------------- one decision

  /** An open position of `stock` on `day`, given the exit rule that fired,
      if any: sold when one did (backtest.c:74-96). */
  function ExitStep(p: State, stock: Stock, day: nat, s: nat, exit: Option<Reason>): (r: State)
    requires Consistent(p) && s < MAX_STOCKS && p.positions[s] > 0
    requires day < |stock.prices| && PositiveCloses(stock)
    ensures Consistent(r) && |p.trades| <= |r.trades|
  {
    match exit
    case Some(reason) => ApplySell(p, s, stock, day, reason)
    case None => p
  }

  /** A flat position of `stock` on `day`, given the entry rule that fired,
      if any: bought with a fifth of the cash when one did and at least one
      share is affordable (backtest.c:121-146). */
  function EntryStep(p: State, stock: Stock, day: nat, s: nat, entry: Option<Reason>): (r: State)
    requires Consistent(p) && s < MAX_STOCKS && p.positions[s] == 0
    requires day < |stock.prices| && PositiveCloses(stock)
    ensures Consistent(r) && |p.trades| <= |r.trades|
  {
    match entry
    case Some(reason) =>
      var price := stock.prices[day].close;
      var q := BuyQuantity(p.cash, price);
      if q > 0 && p.cash >= price * q as real then ApplyBuy(p, s, stock, day, q, reason)
      else p
    case None => p
  }

  /** One stock on one day: the exit rules for an open position, the entry
      rules for a flat one, both over the closes up to that day
      (backtest.c:42-147). */
  function Step(p: State, stocks: seq<Stock>, st: Strategy, day: nat, s: nat): (r: State)
    requires Consistent(p) && ValidMarket(stocks) && s < |stocks| && FIRST_DAY <= day < Horizon(stocks)
    ensures Consistent(r) && |p.trades| <= |r.trades|
  {
    assert Covers(stocks[s], Horizon(stocks));
    assert PositionOk(p, s);
    var closes := ClosePrefix(stocks[s], day);
    if p.positions[s] > 0 then
      ExitStep(p, stocks[s], day, s, ExitSignal(st, closes, day, p.avgBuyPrice[s], p.buyDay[s]))
    else
      EntryStep(p, stocks[s], day, s, EntrySignal(st, closes, day))
  }

  /** The engine's state inside its nested loops: every stock on days
      FIRST_DAY..day-1, then stocks 0..n-1 on `day`, in index order. */
  function RunStocks(p: State, stocks: seq<Stock>, st: Strategy, day: nat, n: nat): (r: State)
    requires Consistent(p) && ValidMarket(stocks) && n <= |stocks| && FIRST_DAY <= day < Horizon(stocks)
    ensures Consistent(r) && |p.trades| <= |r.trades|
    decreases day + 1, n
  {
    if n == 0 then RunDays(p, stocks, st, day)
    else Step(RunStocks(p, stocks, st, day, n - 1), stocks, st, day, n - 1)
  }

  /** Every stock on days FIRST_DAY..end-1. */
  function RunDays(p: State, stocks: seq<Stock>, st: Strategy, end: nat): (r: State)
    requires Consistent(p) && ValidMarket(stocks) && FIRST_DAY <= end <= Horizon(stocks)
    ensures Consistent(r) && |p.trades| <= |r.trades|
    decreases end, MAX_STOCKS + 1
  {
    if end == FIRST_DAY then p
    else RunStocks(p, stocks, st, end - 1, |stocks|)
  }

  /** `backtest`: days FIRST_DAY up to the first stock's history length. */
  function Simulate(p: State, stocks: seq<Stock>, st: Strategy): (r: State)
    requires Consistent(p) && ValidMarket(stocks)
    ensures Consistent(r) && |p.trades| <= |r.trades|
  {
    if Horizon(stocks) <= FIRST_DAY then p
    else RunDays(p, stocks, st, Horizon(stocks))
  }

  /** The run's trade log fits the source's MAX_TRADES buffer, which the
      engine appends to without a bound check. */
  predicate FitsTradeLog(p: State, stocks: seq<Stock>, st: Strategy)
    requires Consistent(p) && ValidMarket(stocks)
  {
    |Simulate(p, stocks, st).trades| <= MAX_TRADES
  }

  // ---------------------------------------------------------------- proofs

  lemma {:induction false} ExposureUpdate(pos: seq<int>, avg: seq<real>, n: nat, s: nat, a: int, b: real)
    requires n <= |pos| && |pos| == |avg| && s < |pos|
    ensures Exposure(pos[s := a], avg[s := b], n)
            == if s < n then Exposure(pos, avg, n) - pos[s] as real * avg[s] + a as real * b
               else Exposure(pos, avg, n)
  {
    if n > 0 {
      ExposureUpdate(pos, avg, n - 1, s, a, b);
    }
  }

  lemma {:induction false} ExposureOfFlat(pos: seq<int>, avg: seq<real>, n: nat)
    requires n <= |pos| && n <= |avg|
    requires forall i :: 0 <= i < n ==> pos[i] == 0
    ensures Exposure(pos, avg, n) == 0.0
  {
    if n > 0 {
      ExposureOfFlat(pos, avg, n - 1);
    }
  }

  lemma ExtendsRefl(p: State)
    requires Sized(p)
    ensures Extends(p, p)
  {
    assert p.trades[|p.trades|..] == [];
  }

  /** Writing one slot with consistent values keeps the ledger consistent. */
  lemma SlotUpdate(p: State, r: State, s: nat, a: int, b: real, c: int)
    requires Consistent(p) && s < MAX_STOCKS && r.cash >= 0.0
    requires r.positions == p.positions[s := a] && r.avgBuyPrice == p.avgBuyPrice[s := b]
             && r.buyDay == p.buyDay[s := c]
    requires a >= 0 && (a > 0 <==> c >= 0) && (a > 0 ==> b > 0.0)
    ensures Consistent(r)
  {
    forall i | 0 <= i < MAX_STOCKS ensures PositionOk(r, i) {
      if i != s { assert PositionOk(p, i); }
    }
  }

  /** A trade that moves the cash by exactly its signed value. */
  predicate Recorded(t: Trade)
  {
    t.totalValue == t.price * t.quantity as real && t.cashAfter == t.cashBefore + Flow(t)
  }

  /** Appending one recorded, solvent trade that keeps the balance identity
      extends the ledger. */
  lemma AppendOne(p: State, r: State, t: Trade)
    requires Sized(p) && Sized(r) && r.trades == p.trades + [t]
    requires Recorded(t) && t.cashBefore == p.cash && t.cashAfter == r.cash
    requires p.cash >= 0.0 && r.cash >= 0.0
    requires r.cash + CostBasis(r) - Realized(r.trades) == p.cash + CostBasis(p) - Realized(p.trades)
    ensures Extends(p, r)
  {
    assert r.trades[..|p.trades|] == p.trades;
    assert r.trades[|p.trades|..] == [t];
    assert [] + [t] == [t];
    ChainedSnoc([], t, p.cash, r.cash);
  }

  lemma RealizedSnoc(ts: seq<Trade>, t: Trade)
    ensures Realized(ts + [t]) == Realized(ts) + (if t.side == Sell then t.profitLoss else 0.0)
  {
    assert (ts + [t])[..|ts|] == ts;
  }

  lemma SellKeepsBalance(p: State, r: State, s: nat, t: Trade)
    requires Consistent(p) && s < MAX_STOCKS && p.positions[s] > 0
    requires t.side == Sell && t.quantity == p.positions[s] && t.price > 0.0
    requires t.totalValue == t.price * t.quantity as real
    requires t.profitLoss == (t.price - p.avgBuyPrice[s]) * t.quantity as real
    requires t.cashBefore == p.cash && t.cashAfter == p.cash + t.totalValue
    requires r == State(p.cash + t.totalValue, p.positions[s := 0], p.avgBuyPrice[s := 0.0],
                        p.buyDay[s := -1], p.trades + [t])
    ensures Consistent(r) && Extends(p, r)
  {
    assert t.totalValue >= 0.0;
    SlotUpdate(p, r, s, 0, 0.0, -1);
    ExposureUpdate(p.positions, p.avgBuyPrice, MAX_STOCKS, s, 0, 0.0);
    RealizedSnoc(p.trades, t);
    var q := t.quantity as real;
    assert t.price * q - (t.price - p.avgBuyPrice[s]) * q == p.avgBuyPrice[s] * q;
    AppendOne(p, r, t);
  }

  lemma BuyKeepsBalance(p: State, r: State, s: nat, t: Trade)
    requires Consistent(p) && s < MAX_STOCKS && p.positions[s] == 0
    requires t.side == Buy && t.quantity > 0 && t.price > 0.0
    requires t.totalValue == t.price * t.quantity as real && p.cash >= t.totalValue
    requires t.profitLoss == 0.0 && t.day >= 0
    requires t.cashBefore == p.cash && t.cashAfter == p.cash - t.totalValue
    requires r == State(p.cash - t.totalValue, p.positions[s := t.quantity], p.avgBuyPrice[s := t.price],
                        p.buyDay[s := t.day], p.trades + [t])
    ensures Consistent(r) && Extends(p, r)
  {
    SlotUpdate(p, r, s, t.quantity, t.price, t.day);
    ExposureUpdate(p.positions, p.avgBuyPrice, MAX_STOCKS, s, t.quantity, t.price);
    RealizedSnoc(p.trades, t);
    AppendOne(p, r, t);
  }

  lemma ChainedSnoc(s: seq<Trade>, t: Trade, x: real, z: real)
    ensures Chained(s + [t], x, z) <==> Chained(s, x, t.cashBefore) && Recorded(t) && t.cashAfter == z
  {
    assert (s + [t])[..|s|] == s;
  }

  lemma {:induction false} ChainedConcat(a: seq<Trade>, b: seq<Trade>, x: real, y: real, z: real)
    requires Chained(a, x, y) && Chained(b, y, z)
    ensures Chained(a + b, x, z)
    decreases |b|
  {
    if b == [] {
      assert a + b == a;
    } else {
      var c, t := b[..|b| - 1], b[|b| - 1];
      assert b == c + [t];
      ChainedSnoc(c, t, y, z);
      ChainedConcat(a, c, x, y, t.cashBefore);
      assert a + b == (a + c) + [t];
      ChainedSnoc(a + c, t, x, z);
    }
  }

  lemma {:induction false} RealizedConcat(a: seq<Trade>, b: seq<Trade>)
    ensures Realized(a + b) == Realized(a) + Realized(b)
    decreases |b|
  {
    if b == [] {
      assert a + b == a;
    } else {
      var n := |b|;
      RealizedConcat(a, b[..n - 1]);
      assert (a + b)[..|a + b| - 1] == a + b[..n - 1];
    }
  }

  lemma ExtendsTrans(p: State, m: State, r: State)
    requires Sized(p) && Sized(m) && Sized(r)
    requires Extends(p, m) && Extends(m, r)
    ensures Extends(p, r)
  {
    var a := m.trades[|p.trades|..];
    var b := r.trades[|m.trades|..];
    assert r.trades == m.trades + b;
    assert m.trades == p.trades + a;
    assert r.trades[..|p.trades|] == p.trades;
    assert r.trades[|p.trades|..] == a + b;
    ChainedConcat(a, b, p.cash, m.cash, r.cash);
  }

  /** Cash conservation: a chained log moves the cash by its net flow. */
  lemma {:induction false} ChainedConserves(ts: seq<Trade>, from: real, to: real)
    requires Chained(ts, from, to)
    ensures to == from + NetFlow(ts)
  {
    if ts != [] {
      var t := ts[|ts| - 1];
      ChainedConserves(ts[..|ts| - 1], from, t.cashBefore);
    }
  }

  /** Trades on days lo..hi-1, each no earlier than the one before it. */
  predicate Chronological(ts: seq<Trade>, lo: int, hi: int)
  {
    (forall i :: 0 <= i < |ts| ==> lo <= ts[i].day < hi)
    && (forall i, j :: 0 <= i < j < |ts| ==> ts[i].day <= ts[j].day)
  }

  /** The same property built up trade by trade: the last trade falls in
      lo..hi-1 and everything before it is no later than it. */
  predicate DayOrdered(ts: seq<Trade>, lo: int, hi: int)
  {
    ts == [] || (lo <= ts[|ts| - 1].day < hi && DayOrdered(ts[..|ts| - 1], lo, ts[|ts| - 1].day + 1))
  }

  lemma {:induction false} ChronologicalIsDayOrdered(ts: seq<Trade>, lo: int, hi: int)
    requires Chronological(ts, lo, hi)
    ensures DayOrdered(ts, lo, hi)
    decreases |ts|
  {
    if ts != [] {
      var n := |ts|;
      var c, t := ts[..n - 1], ts[n - 1];
      forall i, j | 0 <= i < j < |c| ensures c[i].day <= c[j].day {
        assert c[i] == ts[i] && c[j] == ts[j];
      }
      forall i | 0 <= i < |c| ensures lo <= c[i].day < t.day + 1 {
        assert c[i] == ts[i];
        assert ts[i].day <= ts[n - 1].day;
      }
      ChronologicalIsDayOrdered(c, lo, t.day + 1);
    }
  }

  lemma {:induction false} DayOrderedIsChronological(ts: seq<Trade>, lo: int, hi: int)
    requires DayOrdered(ts, lo, hi)
    ensures Chronological(ts, lo, hi)
    decreases |ts|
  {
    if ts != [] {
      var n := |ts|;
      var c, t := ts[..n - 1], ts[n - 1];
      DayOrderedIsChronological(c, lo, t.day + 1);
      forall i, j | 0 <= i < j < |ts| ensures ts[i].day <= ts[j].day {
        if j < n - 1 { assert ts[i] == c[i] && ts[j] == c[j]; }
        else { assert ts[i] == c[i]; }
      }
      forall i | 0 <= i < |ts| ensures lo <= ts[i].day < hi {
        if i < n - 1 { assert ts[i] == c[i]; }
      }
    }
  }

  /** The trade-by-trade definition and the pairwise one agree. */
  lemma DayOrderedIffChronological(ts: seq<Trade>, lo: int, hi: int)
    ensures DayOrdered(ts, lo, hi) <==> Chronological(ts, lo, hi)
  {
    if DayOrdered(ts, lo, hi) { DayOrderedIsChronological(ts, lo, hi); }
    if Chronological(ts, lo, hi) { ChronologicalIsDayOrdered(ts, lo, hi); }
  }

  /** A log that extends `mid`, read from position k, is mid's part from k
      followed by the new trades. */
  lemma SplitAfter(last: seq<Trade>, mid: seq<Trade>, k: nat)
    requires k <= |mid| <= |last| && last[..|mid|] == mid
    ensures last[k..] == mid[k..] + last[|mid|..]
  {
    assert last == mid + last[|mid|..];
  }

  /** Appending trades all made on `day`, no earlier than the log's last
      trade, keeps the log ordered. */
  lemma {:induction false} AppendSameDay(a: seq<Trade>, b: seq<Trade>, lo: int, day: int)
    requires DayOrdered(a, lo, day + 1) && lo <= day
    requires forall i :: 0 <= i < |b| ==> b[i].day == day
    ensures DayOrdered(a + b, lo, day + 1)
    decreases |b|
  {
    if b == [] {
      assert a + b == a;
    } else {
      var c, t := b[..|b| - 1], b[|b| - 1];
      AppendSameDay(a, c, lo, day);
      assert (a + b)[..|a + b| - 1] == a + c;
      assert (a + b)[|a + b| - 1] == t;
    }
  }

  /** Day order within a window stays day order within a wider one. */
  lemma DayOrderedWiden(ts: seq<Trade>, lo: int, hi: int, hi2: int)
    requires DayOrdered(ts, lo, hi) && hi <= hi2
    ensures DayOrdered(ts, lo, hi2)
  {
  }

  // ---------------------------------------------------------------- what a run records

  /** Every slot other than `s` holds in `r` what it held in `p`: quantity,
      average buying price and buying day. */
  predicate SlotsKept(p: State, r: State, s: nat)
    requires Sized(p) && Sized(r)
  {
    forall i :: 0 <= i < MAX_STOCKS && i != s ==>
      r.positions[i] == p.positions[i] && r.avgBuyPrice[i] == p.avgBuyPrice[i] && r.buyDay[i] == p.buyDay[i]
  }

  /** A SELL closes the whole position at the day's close, records the profit
      against the buying price and keeps the ledger balanced. */
  lemma SellRecorded(p: State, s: nat, stock: Stock, day: nat, reason: Reason)
    requires Consistent(p) && s < MAX_STOCKS && p.positions[s] > 0
    requires day < |stock.prices| && stock.prices[day].close > 0.0
    ensures var r := ApplySell(p, s, stock, day, reason);
            Extends(p, r) && |r.trades| == |p.trades| + 1
            && var t := r.trades[|p.trades|];
               t.side == Sell && t.day == day && t.symbol == stock.symbol && t.reason == reason
               && t.price == stock.prices[day].close && t.quantity == p.positions[s]
               && t.profitLoss == (t.price - p.avgBuyPrice[s]) * t.quantity as real
               && r.positions[s] == 0 && r.avgBuyPrice[s] == 0.0 && r.buyDay[s] == -1
               && SlotsKept(p, r, s)
  {
    var r := ApplySell(p, s, stock, day, reason);
    SellKeepsBalance(p, r, s, r.trades[|p.trades|]);
  }

  /** A BUY opens the position at the day's close, pays for it out of the cash
      and keeps the ledger balanced. */
  lemma BuyRecorded(p: State, s: nat, stock: Stock, day: nat, quantity: int, reason: Reason)
    requires Consistent(p) && s < MAX_STOCKS && p.positions[s] == 0
    requires day < |stock.prices| && stock.prices[day].close > 0.0
    requires quantity > 0 && p.cash >= stock.prices[day].close * quantity as real
    ensures var r := ApplyBuy(p, s, stock, day, quantity, reason);
            Extends(p, r) && |r.trades| == |p.trades| + 1
            && var t := r.trades[|p.trades|];
               t.side == Buy && t.day == day && t.symbol == stock.symbol && t.reason == reason
               && t.price == stock.prices[day].close && t.quantity == quantity && t.profitLoss == 0.0
               && r.positions[s] == quantity && r.avgBuyPrice[s] == t.price && r.buyDay[s] == day
               && SlotsKept(p, r, s)
  {
    var r := ApplyBuy(p, s, stock, day, quantity, reason);
    BuyKeepsBalance(p, r, s, r.trades[|p.trades|]);
  }

  lemma ExitRecorded(p: State, stock: Stock, day: nat, s: nat, exit: Option<Reason>)
    requires Consistent(p) && s < MAX_STOCKS && p.positions[s] > 0
    requires day < |stock.prices| && PositiveCloses(stock)
    ensures var r := ExitStep(p, stock, day, s, exit);
            Extends(p, r) && |r.trades| <= |p.trades| + 1
            && forall i :: |p.trades| <= i < |r.trades| ==> r.trades[i].day == day && r.trades[i].symbol == stock.symbol
    ensures var r := ExitStep(p, stock, day, s, exit);
            (exit.Some? <==> |r.trades| == |p.trades| + 1)
            && (exit.None? ==> r == p)
            && (exit.Some? ==> r.trades[|p.trades|].side == Sell && r.trades[|p.trades|].quantity == p.positions[s]
                               && r.trades[|p.trades|].reason == exit.value && r.positions[s] == 0)
  {
    match exit
    case Some(reason) => SellRecorded(p, s, stock, day, reason);
    case None => ExtendsRefl(p);
  }

  /** The ledger side of an entry step: extended by at most one trade, for this
      stock on this day. */
  lemma EntryExtends(p: State, stock: Stock, day: nat, s: nat, entry: Option<Reason>)
    requires Consistent(p) && s < MAX_STOCKS && p.positions[s] == 0
    requires day < |stock.prices| && PositiveCloses(stock)
    ensures var r := EntryStep(p, stock, day, s, entry);
            Extends(p, r) && |r.trades| <= |p.trades| + 1
            && forall i :: |p.trades| <= i < |r.trades| ==> r.trades[i].day == day && r.trades[i].symbol == stock.symbol
  {
    match entry
    case Some(reason) =>
      var price := stock.prices[day].close;
      var q := BuyQuantity(p.cash, price);
      if q > 0 && p.cash >= price * q as real {
        BuyRecorded(p, s, stock, day, q, reason);
      } else {
        ExtendsRefl(p);
      }
    case None => ExtendsRefl(p);
  }

  /** The gate of an entry step: a BUY of the 20 %-of-cash quantity happens
      exactly when an entry rule fired and that quantity is positive. */
  lemma EntryGate(p: State, stock: Stock, day: nat, s: nat, entry: Option<Reason>)
    requires Consistent(p) && s < MAX_STOCKS && p.positions[s] == 0
    requires day < |stock.prices| && PositiveCloses(stock)
    ensures var r := EntryStep(p, stock, day, s, entry);
            var q := BuyQuantity(p.cash, stock.prices[day].close);
            (entry.Some? && q > 0 <==> |r.trades| == |p.trades| + 1)
            && (!(entry.Some? && q > 0) ==> r == p)
            && (entry.Some? && q > 0 ==>
                  r.trades[|p.trades|].side == Buy && r.trades[|p.trades|].quantity == q
                  && r.trades[|p.trades|].reason == entry.value && r.positions[s] == q)
  {
    var price := stock.prices[day].close;
    BuyQuantityIsLargestAffordable(p.cash, price);
  }

  lemma EntryRecorded(p: State, stock: Stock, day: nat, s: nat, entry: Option<Reason>)
    requires Consistent(p) && s < MAX_STOCKS && p.positions[s] == 0
    requires day < |stock.prices| && PositiveCloses(stock)
    ensures var r := EntryStep(p, stock, day, s, entry);
            Extends(p, r) && |r.trades| <= |p.trades| + 1
            && forall i :: |p.trades| <= i < |r.trades| ==> r.trades[i].day == day && r.trades[i].symbol == stock.symbol
    ensures var r := EntryStep(p, stock, day, s, entry);
            var q := BuyQuantity(p.cash, stock.prices[day].close);
            (entry.Some? && q > 0 <==> |r.trades| == |p.trades| + 1)
            && (!(entry.Some? && q > 0) ==> r == p)
            && (entry.Some? && q > 0 ==>
                  r.trades[|p.trades|].side == Buy && r.trades[|p.trades|].quantity == q
                  && r.trades[|p.trades|].reason == entry.value && r.positions[s] == q)
  {
    EntryExtends(p, stock, day, s, entry);
    EntryGate(p, stock, day, s, entry);
  }

  /** A decision appends at most one trade, for this stock on this day, and
      keeps the ledger balanced. */
  lemma StepRecorded(p: State, stocks: seq<Stock>, st: Strategy, day: nat, s: nat)
    requires Consistent(p) && ValidMarket(stocks) && s < |stocks| && FIRST_DAY <= day < Horizon(stocks)
    ensures var r := Step(p, stocks, st, day, s);
            Extends(p, r) && |r.trades| <= |p.trades| + 1
            && forall i :: |p.trades| <= i < |r.trades| ==>
                 r.trades[i].day == day && r.trades[i].symbol == stocks[s].symbol
  {
    assert Covers(stocks[s], Horizon(stocks));
    assert PositionOk(p, s);
    var closes := ClosePrefix(stocks[s], day);
    if p.positions[s] > 0 {
      ExitRecorded(p, stocks[s], day, s, ExitSignal(st, closes, day, p.avgBuyPrice[s], p.buyDay[s]));
    } else {
      EntryRecorded(p, stocks[s], day, s, EntrySignal(st, closes, day));
    }
  }

  /** One decision after a recorded run keeps it recorded: the ledger still
      extends the start and the new trades stay in day order up to `day`. */
  lemma StepExtends(p: State, m: State, stocks: seq<Stock>, st: Strategy, day: nat, s: nat)
    requires Consistent(p) && Consistent(m) && ValidMarket(stocks) && s < |stocks|
    requires FIRST_DAY <= day < Horizon(stocks)
    requires Extends(p, m) && DayOrdered(m.trades[|p.trades|..], FIRST_DAY, day + 1)
    ensures var r := Step(m, stocks, st, day, s);
            Extends(p, r) && DayOrdered(r.trades[|p.trades|..], FIRST_DAY, day + 1)
  {
    var r := Step(m, stocks, st, day, s);
    StepRecorded(m, stocks, st, day, s);
    ExtendsTrans(p, m, r);
    var a, b := m.trades[|p.trades|..], r.trades[|m.trades|..];
    SplitAfter(r.trades, m.trades, |p.trades|);
    forall i | 0 <= i < |b| ensures b[i].day == day {
      assert b[i] == r.trades[|m.trades| + i];
    }
    AppendSameDay(a, b, FIRST_DAY, day);
  }

  /** Inside the loops: the ledger extends the start and the new trades are in
      day order, all before the end of `day`. */
  lemma {:induction false} RunStocksRecorded(p: State, stocks: seq<Stock>, st: Strategy, day: nat, n: nat)
    requires Consistent(p) && ValidMarket(stocks) && n <= |stocks| && FIRST_DAY <= day < Horizon(stocks)
    ensures var r := RunStocks(p, stocks, st, day, n);
            Extends(p, r) && DayOrdered(r.trades[|p.trades|..], FIRST_DAY, day + 1)
    decreases day + 1, n
  {
    if n == 0 {
      RunDaysRecorded(p, stocks, st, day);
      DayOrderedWiden(RunDays(p, stocks, st, day).trades[|p.trades|..], FIRST_DAY, day, day + 1);
    } else {
      RunStocksRecorded(p, stocks, st, day, n - 1);
      StepExtends(p, RunStocks(p, stocks, st, day, n - 1), stocks, st, day, n - 1);
    }
  }

  /** After whole days: the ledger extends the start and the new trades are in
      day order on days FIRST_DAY..end-1. */
  lemma {:induction false} RunDaysRecorded(p: State, stocks: seq<Stock>, st: Strategy, end: nat)
    requires Consistent(p) && ValidMarket(stocks) && FIRST_DAY <= end <= Horizon(stocks)
    ensures var r := RunDays(p, stocks, st, end);
            Extends(p, r) && DayOrdered(r.trades[|p.trades|..], FIRST_DAY, end)
    decreases end, MAX_STOCKS + 1
  {
    if end == FIRST_DAY {
      ExtendsRefl(p);
      assert p.trades[|p.trades|..] == [];
    } else {
      RunStocksRecorded(p, stocks, st, end - 1, |stocks|);
    }
  }

  /** A whole run keeps the earlier log, chains the cash through its new
      trades without going negative, keeps cash plus cost basis minus realised
      profit constant, and records its trades in day order on simulated days. */
  lemma SimulateRecorded(p: State, stocks: seq<Stock>, st: Strategy)
    requires Consistent(p) && ValidMarket(stocks)
    ensures var r := Simulate(p, stocks, st);
            Extends(p, r) && DayOrdered(r.trades[|p.trades|..], FIRST_DAY, Horizon(stocks))
  {
    if Horizon(stocks) > FIRST_DAY {
      RunDaysRecorded(p, stocks, st, Horizon(stocks));
    } else {
      ExtendsRefl(p);
      assert Simulate(p, stocks, st).trades[|p.trades|..] == [];
    }
  }

  // ---------------------------------------------------------------- run properties

  /** Cash conservation over a whole run: the log before the run is untouched,
      final cash is the starting cash plus the net flow of the new trades, and no
      new trade saw negative cash. */
  lemma SimulateConservesCash(p: State, stocks: seq<Stock>, st: Strategy)
    requires Consistent(p) && ValidMarket(stocks)
    ensures var r := Simulate(p, stocks, st);
            var added := r.trades[|p.trades|..];
            r.trades == p.trades + added
            && Chained(added, p.cash, r.cash)
            && r.cash == p.cash + NetFlow(added)
            && Solvent(added) && r.cash >= 0.0
  {
    SimulateRecorded(p, stocks, st);
    var r := Simulate(p, stocks, st);
    var added := r.trades[|p.trades|..];
    assert r.trades == r.trades[..|p.trades|] + added;
    ChainedConserves(added, p.cash, r.cash);
  }

  /** For a run from a fresh portfolio: final cash equals the initial cash minus
      every BUY's value plus every SELL's value, and cash plus the open positions
      at their buying prices equals the initial cash plus the realised profit. */
  lemma FreshRunAccounting(initialCash: real, stocks: seq<Stock>, st: Strategy)
    requires initialCash >= 0.0 && ValidMarket(stocks)
    ensures Consistent(Fresh(initialCash))
    ensures var r := Simulate(Fresh(initialCash), stocks, st);
            r.cash == initialCash + NetFlow(r.trades)
            && r.cash + CostBasis(r) == initialCash + Realized(r.trades)
            && Solvent(r.trades)
  {
    var p := Fresh(initialCash);
    FreshIsFlat(initialCash);
    SimulateRecorded(p, stocks, st);
    SimulateConservesCash(p, stocks, st);
  }

  /** The engine visits days in increasing order: the trades of a run are in
      non-decreasing day order and all fall on simulated days. */
  lemma SimulateChronological(p: State, stocks: seq<Stock>, st: Strategy)
    requires Consistent(p) && ValidMarket(stocks)
    ensures var r := Simulate(p, stocks, st);
            Chronological(r.trades[|p.trades|..], FIRST_DAY, Horizon(stocks))
  {
    SimulateRecorded(p, stocks, st);
    var r := Simulate(p, stocks, st);
    DayOrderedIsChronological(r.trades[|p.trades|..], FIRST_DAY, Horizon(stocks));
  }

  // ---------------------------------------------------------------- untouched slots

  /** Slots n..MAX_STOCKS-1 hold in `r` the quantities, average buying prices
      and buying days they held in `p`. */
  predicate SameFrom(p: State, r: State, n: nat)
    requires Sized(p) && Sized(r)
  {
    forall i :: n <= i < MAX_STOCKS ==>
      r.positions[i] == p.positions[i] && r.avgBuyPrice[i] == p.avgBuyPrice[i] && r.buyDay[i] == p.buyDay[i]
  }

  /** A decision for stock `s` writes slot `s` and no other. */
  lemma StepKeepsOtherSlots(p: State, stocks: seq<Stock>, st: Strategy, day: nat, s: nat)
    requires Consistent(p) && ValidMarket(stocks) && s < |stocks| && FIRST_DAY <= day < Horizon(stocks)
    ensures SlotsKept(p, Step(p, stocks, st, day, s), s)
  {
  }

  lemma {:induction false} RunStocksKeepsUnusedSlots(p: State, stocks: seq<Stock>, st: Strategy, day: nat, n: nat)
    requires Consistent(p) && ValidMarket(stocks) && n <= |stocks| && FIRST_DAY <= day < Horizon(stocks)
    ensures SameFrom(p, RunStocks(p, stocks, st, day, n), |stocks|)
    decreases day + 1, n
  {
    if n == 0 {
      RunDaysKeepsUnusedSlots(p, stocks, st, day);
    } else {
      RunStocksKeepsUnusedSlots(p, stocks, st, day, n - 1);
      StepKeepsOtherSlots(RunStocks(p, stocks, st, day, n - 1), stocks, st, day, n - 1);
    }
  }

  lemma {:induction false} RunDaysKeepsUnusedSlots(p: State, stocks: seq<Stock>, st: Strategy, end: nat)
    requires Consistent(p) && ValidMarket(stocks) && FIRST_DAY <= end <= Horizon(stocks)
    ensures SameFrom(p, RunDays(p, stocks, st, end), |stocks|)
    decreases end, MAX_STOCKS + 1
  {
    if end > FIRST_DAY {
      RunStocksKeepsUnusedSlots(p, stocks, st, end - 1, |stocks|);
    }
  }

  /** A run trades only in the slots of the stocks it is given. */
  lemma SimulateKeepsUnusedSlots(p: State, stocks: seq<Stock>, st: Strategy)
    requires Consistent(p) && ValidMarket(stocks)
    ensures SameFrom(p, Simulate(p, stocks, st), |stocks|)
  {
    if Horizon(stocks) > FIRST_DAY {
      RunDaysKeepsUnusedSlots(p, stocks, st, Horizon(stocks));
    }
  }

  // ---------------------------------------------------------------- runs without trades

  predicate AllFlat(p: State)
    requires Sized(p)
  {
    forall i :: 0 <= i < MAX_STOCKS ==> p.positions[i] == 0
  }

  /** No entry rule fires for any stock on any simulated day. */
  predicate Quiet(stocks: seq<Stock>, st: Strategy)
    requires ValidMarket(stocks)
  {
    forall s, day :: 0 <= s < |stocks| && FIRST_DAY <= day < Horizon(stocks) ==> NoEntry(stocks, st, s, day)
  }

  predicate NoEntry(stocks: seq<Stock>, st: Strategy, s: int, day: int)
    requires ValidMarket(stocks) && 0 <= s < |stocks| && FIRST_DAY <= day < Horizon(stocks)
  {
    assert Covers(stocks[s], Horizon(stocks));
    EntrySignal(st, ClosePrefix(stocks[s], day), day).None?
  }

  lemma {:induction false} QuietRunStocks(p: State, stocks: seq<Stock>, st: Strategy, day: nat, n: nat)
    requires Consistent(p) && AllFlat(p) && ValidMarket(stocks) && Quiet(stocks, st)
    requires n <= |stocks| && FIRST_DAY <= day < Horizon(stocks)
    ensures RunStocks(p, stocks, st, day, n) == p
    decreases day + 1, n
  {
    if n == 0 {
      QuietRunDays(p, stocks, st, day);
    } else {
      QuietRunStocks(p, stocks, st, day, n - 1);
      assert NoEntry(stocks, st, n - 1, day);
    }
  }

  /** Days on which no stock trades leave the whole run unchanged. */
  lemma {:induction false} QuietRunDays(p: State, stocks: seq<Stock>, st: Strategy, end: nat)
    requires Consistent(p) && AllFlat(p) && ValidMarket(stocks) && Quiet(stocks, st)
    requires FIRST_DAY <= end <= Horizon(stocks)
    ensures RunDays(p, stocks, st, end) == p
    decreases end, MAX_STOCKS + 1
  {
    if end > FIRST_DAY {
      QuietRunStocks(p, stocks, st, end - 1, |stocks|);
    }
  }

  lemma QuietEveryDay(p: State, stocks: seq<Stock>, st: Strategy)
    requires Consistent(p) && AllFlat(p) && ValidMarket(stocks) && Quiet(stocks, st)
    ensures Simulate(p, stocks, st) == p
  {
    if Horizon(stocks) > FIRST_DAY {
      QuietRunDays(p, stocks, st, Horizon(stocks));
    }
  }

  /** A strategy with both SMA periods and the oversold threshold switched off
      never trades. */
  lemma DisabledStrategyNeverTrades(initialCash: real, stocks: seq<Stock>, st: Strategy)
    requires initialCash >= 0.0 && ValidMarket(stocks)
    requires !SmaEnabled(st) && st.rsiOversold <= 0.0
    ensures Simulate(Fresh(initialCash), stocks, st) == Fresh(initialCash)
  {
    var p := Fresh(initialCash);
    FreshIsFlat(initialCash);
    QuietEveryDay(p, stocks, st);
  }

  /** Over flat price histories, a strategy whose short SMA period is at most 20
      and whose oversold threshold is below 100 never trades. */
  lemma FlatMarketNeverTrades(initialCash: real, stocks: seq<Stock>, st: Strategy)
    requires initialCash >= 0.0 && ValidMarket(stocks)
    requires forall s, d :: 0 <= s < |stocks| && 0 <= d < |stocks[s].prices| ==>
               stocks[s].prices[d].close == stocks[s].prices[0].close
    requires st.smaShortPeriod <= FIRST_DAY && st.rsiOversold < 100.0
    ensures Simulate(Fresh(initialCash), stocks, st) == Fresh(initialCash)
  {
    var p := Fresh(initialCash);
    FreshIsFlat(initialCash);
    forall s, day | 0 <= s < |stocks| && FIRST_DAY <= day < Horizon(stocks)
      ensures NoEntry(stocks, st, s, day)
    {
      assert Covers(stocks[s], Horizon(stocks));
      var closes := ClosePrefix(stocks[s], day);
      var c := stocks[s].prices[0].close;
      assert forall i :: 0 <= i < |closes| ==> closes[i] == c;
      FlatHistoryNoEntry(st, closes, day, c);
    }
    QuietEveryDay(p, stocks, st);
  }
}
