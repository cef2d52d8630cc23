/** The per-instrument position state machine: which exit fires for an open
    position, which entry fires for a flat one, and how many shares a BUY takes. */
module Signals {
  import opened Structures
  import opened Indicators

  /** Percentage gain of `close` over the buying price. */
  function ProfitPct(close: real, buyPrice: real): real
    requires buyPrice > 0.0
  {
    (close - buyPrice) / buyPrice * 100.0
  }

  /** Exit rules for an open position bought at `buyPrice` on `buyDay`, checked
      in the source's order; the first rule that holds gives the reason. */
  function ExitSignal(st: Strategy, closes: seq<real>, day: int, buyPrice: real, buyDay: int): (r: Option<Reason>)
    requires 0 <= day < |closes| && buyPrice > 0.0
    ensures r.Some? ==> r.value.IsExit()
  {
    var pct := ProfitPct(closes[day], buyPrice);
    var held := day - buyDay;
    if pct >= st.takeProfitPct then Some(TakeProfit(pct))
    else if pct <= -st.stopLossPct then Some(StopLoss(pct))
    else if held >= st.maxHoldingDays then Some(MaxHolding(held))
    else if st.rsiOverbought < 100.0 then
      var rsi := Rsi(closes, day, RSI_PERIOD);
      if rsi >= st.rsiOverbought then Some(RsiOverbought(rsi)) else None
    else None
  }

  /** Exit precedence: take profit before stop loss before maximum holding
      before RSI overbought, each reason firing exactly when its own condition
      holds and every earlier one fails, and no exit when all fail. */
  lemma ExitPrecedence(st: Strategy, closes: seq<real>, day: int, buyPrice: real, buyDay: int)
    requires 0 <= day < |closes| && buyPrice > 0.0
    ensures var r := ExitSignal(st, closes, day, buyPrice, buyDay);
            var pct := ProfitPct(closes[day], buyPrice);
            var held := day - buyDay;
            var rsi := Rsi(closes, day, RSI_PERIOD);
            (r == Some(TakeProfit(pct)) <==> pct >= st.takeProfitPct)
            && (r == Some(StopLoss(pct)) <==> pct < st.takeProfitPct && pct <= -st.stopLossPct)
            && (r == Some(MaxHolding(held)) <==>
                  pct < st.takeProfitPct && pct > -st.stopLossPct && held >= st.maxHoldingDays)
            && (r == Some(RsiOverbought(rsi)) <==>
                  pct < st.takeProfitPct && pct > -st.stopLossPct && held < st.maxHoldingDays
                  && st.rsiOverbought < 100.0 && rsi >= st.rsiOverbought)
            && (r.None? <==>
                  pct < st.takeProfitPct && pct > -st.stopLossPct && held < st.maxHoldingDays
                  && !(st.rsiOverbought < 100.0 && rsi >= st.rsiOverbought))
  {
  }

  /** The moving-average rule is switched on only when both periods are positive. */
  predicate SmaEnabled(st: Strategy)
  {
    st.smaShortPeriod > 0 && st.smaLongPeriod > 0
  }

  /** An upward cross between yesterday and today: short was at or below long
      and is now strictly above it. The 0.0 sentinel of a short history takes
      part in the comparison like any other value. */
  predicate Crossed(st: Strategy, closes: seq<real>, day: int)
    requires 1 <= day < |closes| && SmaEnabled(st)
  {
    Sma(closes, day - 1, st.smaShortPeriod) <= Sma(closes, day - 1, st.smaLongPeriod)
    && Sma(closes, day, st.smaShortPeriod) > Sma(closes, day, st.smaLongPeriod)
  }

  /** Entry rules for a flat position: the crossover first, the RSI oversold
      rule only when the crossover did not fire. */
  function EntrySignal(st: Strategy, closes: seq<real>, day: int): (r: Option<Reason>)
    requires 1 <= day < |closes|
    ensures r.Some? ==> !r.value.IsExit()
  {
    var cross :=
      if SmaEnabled(st) then
        var short := Sma(closes, day, st.smaShortPeriod);
        var long := Sma(closes, day, st.smaLongPeriod);
        var prevShort := Sma(closes, day - 1, st.smaShortPeriod);
        var prevLong := Sma(closes, day - 1, st.smaLongPeriod);
        if prevShort <= prevLong && short > long then Some(SmaCrossover(short, long)) else None
      else None;
    if cross.Some? then cross
    else if st.rsiOversold > 0.0 then
      var rsi := Rsi(closes, day, RSI_PERIOD);
      if rsi <= st.rsiOversold then Some(RsiOversold(rsi)) else None
    else None
  }

  /** Entry precedence: the crossover fires exactly when both periods are on
      and the averages crossed upward, carrying today's averages; RSI oversold
      fires exactly when the crossover did not and the RSI is at or below an
      enabled threshold; otherwise there is no entry. */
  lemma EntryPrecedence(st: Strategy, closes: seq<real>, day: int)
    requires 1 <= day < |closes|
    ensures var r := EntrySignal(st, closes, day);
            var rsi := Rsi(closes, day, RSI_PERIOD);
            ((r.Some? && r.value.SmaCrossover?) <==> SmaEnabled(st) && Crossed(st, closes, day))
            && (r.Some? && r.value.SmaCrossover? ==>
                  r.value == SmaCrossover(Sma(closes, day, st.smaShortPeriod), Sma(closes, day, st.smaLongPeriod)))
            && (r == Some(RsiOversold(rsi)) <==>
                  !(SmaEnabled(st) && Crossed(st, closes, day)) && st.rsiOversold > 0.0 && rsi <= st.rsiOversold)
            && (r.None? <==>
                  !(SmaEnabled(st) && Crossed(st, closes, day))
                  && !(st.rsiOversold > 0.0 && rsi <= st.rsiOversold))
  {
  }

  /** Position size of a BUY: the whole number of shares that 20% of the cash
      buys, `(int)(cash * 0.2 / price)`. */
  function BuyQuantity(cash: real, price: real): (q: int)
    requires cash >= 0.0 && price > 0.0
    ensures q >= 0
  {
    (cash * 0.2 / price).Floor
  }

  /** The quantity is the largest whole number of shares whose cost stays
      within 20% of the cash; in particular it is affordable. */
  lemma BuyQuantityIsLargestAffordable(cash: real, price: real)
    requires cash >= 0.0 && price > 0.0
    ensures var q := BuyQuantity(cash, price);
            q as real * price <= cash * 0.2 < (q + 1) as real * price
            && q as real * price <= cash
  {
    var x := cash * 0.2 / price;
    var k := x.Floor;
    assert x * price == cash * 0.2;
    assert k as real * price <= x * price;
    assert x < (k + 1) as real;
    assert ((k + 1) as real - x) * price > 0.0;
    assert ((k + 1) as real - x) * price == (k + 1) as real * price - x * price;
    assert cash * 0.2 < (k + 1) as real * price;
  }

  // ---------------------------------------------------------------- scenarios

  /** A position bought at 100 under take-profit 10 / stop-loss 5 / holding 15
      that closes at 111 the next day is sold for take profit at +11%. */
  lemma TakeProfitScenario(st: Strategy, closes: seq<real>, day: int)
    requires st.takeProfitPct == 10.0 && st.stopLossPct == 5.0 && st.maxHoldingDays == 15
    requires 0 <= day < |closes| && closes[day] == 111.0
    ensures ExitSignal(st, closes, day, 100.0, day - 1) == Some(TakeProfit(11.0))
  {
    assert ProfitPct(111.0, 100.0) == 11.0;
  }

  /** On a flat price history no entry fires from the first simulated day on,
      provided the short average already exists the day before (short period at
      most 20) and the oversold threshold is below 100. */
  lemma FlatHistoryNoEntry(st: Strategy, closes: seq<real>, day: int, c: real)
    requires FIRST_DAY <= day < |closes| && c > 0.0
    requires forall i :: 0 <= i < |closes| ==> closes[i] == c
    requires st.smaShortPeriod <= FIRST_DAY && st.rsiOversold < 100.0
    ensures EntrySignal(st, closes, day) == None
  {
    if SmaEnabled(st) {
      var sp, lp := st.smaShortPeriod, st.smaLongPeriod;
      SmaOfConstant(closes, day - 1, sp, c);
      SmaOfConstant(closes, day, sp, c);
      if day - 1 >= lp - 1 {
        SmaOfConstant(closes, day - 1, lp, c);
        SmaOfConstant(closes, day, lp, c);
      }
      assert !Crossed(st, closes, day);
    }
    RsiHundredIffNoDownMove(closes, day, RSI_PERIOD);
  }

  /** The 0.0 sentinel takes part in the crossover test: on a flat history a
      short period of 21 and a long period of 25 fire an SMA crossover on the
      first simulated day, the short average having just come into existence
      while the long one is still the sentinel. */
  lemma FlatHistorySentinelCrossover(st: Strategy, closes: seq<real>, c: real)
    requires |closes| > FIRST_DAY && c > 0.0
    requires forall i :: 0 <= i < |closes| ==> closes[i] == c
    requires st.smaShortPeriod == 21 && st.smaLongPeriod == 25
    ensures EntrySignal(st, closes, FIRST_DAY) == Some(SmaCrossover(c, 0.0))
  {
    SmaOfConstant(closes, FIRST_DAY, 21, c);
  }
}
