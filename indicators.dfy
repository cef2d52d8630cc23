/** Moving average and relative-strength index over a prefix of closing prices.
    Both are pure: they read only the closes up to the day they are asked about. */
module Indicators {

  /** Sum of a sequence of prices, accumulated from the front. */
  function Sum(s: seq<real>): real
  {
    if s == [] then 0.0 else Sum(s[..|s| - 1]) + s[|s| - 1]
  }

  /** `calculate_sma`: the mean of the `period` closes ending at `day`, or the
      sentinel 0.0 while fewer than `period` closes exist. */
  function Sma(closes: seq<real>, day: int, period: int): (r: real)
    requires 0 <= day < |closes| && period > 0
    ensures day < period - 1 ==> r == 0.0
    ensures day >= period - 1 ==> r * period as real == Sum(closes[day - period + 1 .. day + 1])
  {
    if day < period - 1 then 0.0
    else Sum(closes[day - period + 1 .. day + 1]) / period as real
  }

  /** Day-to-day change of the close on day `j`. */
  function Change(closes: seq<real>, j: int): real
    requires 0 < j < |closes|
  {
    closes[j] - closes[j - 1]
  }

  /** Sum of the upward changes on days lo+1..hi. */
  function GainSum(closes: seq<real>, lo: int, hi: int): (g: real)
    requires 0 <= lo <= hi < |closes|
    ensures g >= 0.0
    decreases hi - lo
  {
    if hi == lo then 0.0
    else
      var c := Change(closes, hi);
      GainSum(closes, lo, hi - 1) + (if c > 0.0 then c else 0.0)
  }

  /** Sum of the magnitudes of the downward changes on days lo+1..hi. */
  function LossSum(closes: seq<real>, lo: int, hi: int): (l: real)
    requires 0 <= lo <= hi < |closes|
    ensures l >= 0.0
    decreases hi - lo
  {
    if hi == lo then 0.0
    else
      var c := Change(closes, hi);
      LossSum(closes, lo, hi - 1) + (if c > 0.0 then 0.0 else -c)
  }

  /** `calculate_rsi`: the neutral sentinel 50.0 while fewer than `period`
      changes exist, 100.0 when the window has no down-move, otherwise
      100 - 100 / (1 + average gain / average loss). */
  function Rsi(closes: seq<real>, day: int, period: int): (r: real)
    requires 0 <= day < |closes| && period > 0
    ensures 0.0 <= r <= 100.0
  {
    if day < period then 50.0
    else
      var avgGain := GainSum(closes, day - period, day) / period as real;
      var avgLoss := LossSum(closes, day - period, day) / period as real;
      if avgLoss == 0.0 then 100.0
      else 100.0 - 100.0 / (1.0 + avgGain / avgLoss)
  }

  // ---------------------------------------------------------------- sums

  lemma {:induction false} SumBounds(s: seq<real>, lo: real, hi: real)
    requires forall i :: 0 <= i < |s| ==> lo <= s[i] <= hi
    ensures |s| as real * lo <= Sum(s) <= |s| as real * hi
  {
    if s != [] {
      SumBounds(s[..|s| - 1], lo, hi);
    }
  }

  /** Sum of the arithmetic run a + b*k, a + b*(k+1), ..., n terms long. */
  lemma {:induction false} SumArithmetic(s: seq<real>, a: real, b: real, k: int)
    requires forall i :: 0 <= i < |s| ==> s[i] == a + b * (k + i) as real
    ensures 2.0 * Sum(s) == |s| as real * (2.0 * a + b * (2 * k + |s| - 1) as real)
  {
    if s != [] {
      var n := |s|;
      SumArithmetic(s[..n - 1], a, b, k);
      assert s[n - 1] == a + b * (k + n - 1) as real;
    }
  }

  lemma DivideBounds(x: real, p: real, lo: real, hi: real)
    requires p > 0.0 && p * lo <= x <= p * hi
    ensures lo <= x / p <= hi
  {
    var m := x / p;
    assert p * m == x;
    assert p * (m - lo) >= 0.0;
    assert p * (hi - m) >= 0.0;
  }

  lemma TwiceQuotient(x: real, p: real, v: real)
    requires p > 0.0 && 2.0 * x == p * v
    ensures 2.0 * (x / p) == v
  {
    var m := x / p;
    assert p * m == x;
    assert p * (2.0 * m - v) == 0.0;
  }

  // ---------------------------------------------------------------- SMA

  /** The average reads no close after `day`: any two histories that agree on
      days 0..day give the same SMA. */
  lemma SmaNoLookAhead(closes: seq<real>, other: seq<real>, day: int, period: int)
    requires 0 <= day < |closes| && day < |other| && period > 0
    requires closes[..day + 1] == other[..day + 1]
    ensures Sma(closes, day, period) == Sma(other, day, period)
  {
    if day >= period - 1 {
      assert closes[day - period + 1 .. day + 1] == closes[..day + 1][day - period + 1 ..];
      assert other[day - period + 1 .. day + 1] == other[..day + 1][day - period + 1 ..];
    }
  }

  /** A mean lies between the smallest and the largest close of its window. */
  lemma SmaWithinWindow(closes: seq<real>, day: int, period: int, lo: real, hi: real)
    requires 0 <= day < |closes| && period > 0 && day >= period - 1
    requires forall i :: day - period + 1 <= i <= day ==> lo <= closes[i] <= hi
    ensures lo <= Sma(closes, day, period) <= hi
  {
    var w := closes[day - period + 1 .. day + 1];
    assert forall i :: 0 <= i < |w| ==> w[i] == closes[day - period + 1 + i];
    SumBounds(w, lo, hi);
    DivideBounds(Sum(w), period as real, lo, hi);
  }

  /** Over a constant window the SMA is that constant. */
  lemma SmaOfConstant(closes: seq<real>, day: int, period: int, c: real)
    requires 0 <= day < |closes| && period > 0 && day >= period - 1
    requires forall i :: day - period + 1 <= i <= day ==> closes[i] == c
    ensures Sma(closes, day, period) == c
  {
    SmaWithinWindow(closes, day, period, c, c);
  }

  /** Over an arithmetic price run closes[i] = a + b*i the SMA is the value at
      the middle of the window, a + b*(day - (period-1)/2). */
  lemma SmaOfArithmetic(closes: seq<real>, day: int, period: int, a: real, b: real)
    requires 0 <= day < |closes| && period > 0 && day >= period - 1
    requires forall i :: 0 <= i < |closes| ==> closes[i] == a + b * i as real
    ensures 2.0 * Sma(closes, day, period) == 2.0 * a + b * (2 * day - period + 1) as real
  {
    var k := day - period + 1;
    var w := closes[k .. day + 1];
    assert forall i :: 0 <= i < |w| ==> w[i] == a + b * (k + i) as real;
    SumArithmetic(w, a, b, k);
    TwiceQuotient(Sum(w), period as real, 2.0 * a + b * (2 * day - period + 1) as real);
  }

  // ---------------------------------------------------------------- RSI

  lemma {:induction false} LossSumZeroIff(closes: seq<real>, lo: int, hi: int)
    requires 0 <= lo <= hi < |closes|
    ensures LossSum(closes, lo, hi) == 0.0 <==> forall j :: lo < j <= hi ==> closes[j - 1] <= closes[j]
  {
    if hi > lo {
      LossSumZeroIff(closes, lo, hi - 1);
    }
  }

  lemma {:induction false} SumsOnlyReadWindow(closes: seq<real>, other: seq<real>, lo: int, hi: int)
    requires 0 <= lo <= hi < |closes| && hi < |other|
    requires forall j :: lo <= j <= hi ==> closes[j] == other[j]
    ensures GainSum(closes, lo, hi) == GainSum(other, lo, hi)
    ensures LossSum(closes, lo, hi) == LossSum(other, lo, hi)
  {
    if hi > lo {
      SumsOnlyReadWindow(closes, other, lo, hi - 1);
    }
  }

  /** The RSI reads no close after `day`. */
  lemma RsiNoLookAhead(closes: seq<real>, other: seq<real>, day: int, period: int)
    requires 0 <= day < |closes| && day < |other| && period > 0
    requires closes[..day + 1] == other[..day + 1]
    ensures Rsi(closes, day, period) == Rsi(other, day, period)
  {
    if day >= period {
      forall j | day - period <= j <= day ensures closes[j] == other[j] {
        assert closes[j] == closes[..day + 1][j];
      }
      SumsOnlyReadWindow(closes, other, day - period, day);
    }
  }

  /** Once the window is full, the RSI is exactly 100 when no close in it
      falls below the previous one, the flat window included. */
  lemma RsiHundredIffNoDownMove(closes: seq<real>, day: int, period: int)
    requires 0 <= day < |closes| && period > 0 && day >= period
    ensures Rsi(closes, day, period) == 100.0
            <==> forall j :: day - period < j <= day ==> closes[j - 1] <= closes[j]
  {
    var g := GainSum(closes, day - period, day);
    var l := LossSum(closes, day - period, day);
    var p := period as real;
    LossSumZeroIff(closes, day - period, day);
    if l != 0.0 {
      var ag, al := g / p, l / p;
      assert ag >= 0.0 && al > 0.0;
      var rs := ag / al;
      assert rs >= 0.0;
      assert 100.0 / (1.0 + rs) > 0.0;
    }
  }

  lemma RatioOfAverages(g: real, l: real, p: real)
    requires l > 0.0 && p > 0.0
    ensures (g / p) / (l / p) == g / l
  {
    var x, y := g / p, l / p;
    assert x * p == g && y * p == l;
    assert (x / y) * l == (x / y) * (y * p);
    assert (x / y) * y == x;
  }

  lemma RsiAlgebra(g: real, l: real)
    requires g >= 0.0 && l > 0.0
    ensures 100.0 - 100.0 / (1.0 + g / l) == 100.0 * g / (g + l)
    ensures 0.0 <= 100.0 * g / (g + l) < 100.0
  {
    var rs := g / l;
    assert rs * l == g;
    assert (1.0 + rs) * l == l + g;
    var d := 100.0 / (1.0 + rs);
    assert d * (1.0 + rs) == 100.0;
    assert d * (l + g) == 100.0 * l by {
      calc {
        d * (l + g);
        d * ((1.0 + rs) * l);
        (d * (1.0 + rs)) * l;
        100.0 * l;
      }
    }
    var q := 100.0 * g / (g + l);
    assert q * (g + l) == 100.0 * g;
    assert (100.0 - d) * (g + l) == 100.0 * g;
    var z := 100.0 - d - q;
    assert z * (g + l) == 0.0;
    assert z == (z * (g + l)) / (g + l);
    assert q * (g + l) < 100.0 * (g + l);
  }

  /** Independent closed form: with G the gains and L the losses of the window,
      RSI = 100*G/(G+L) when L > 0, which lies in [0, 100). */
  lemma RsiClosedForm(closes: seq<real>, day: int, period: int)
    requires 0 <= day < |closes| && period > 0 && day >= period
    ensures var g := GainSum(closes, day - period, day);
            var l := LossSum(closes, day - period, day);
            l > 0.0 ==> Rsi(closes, day, period) == 100.0 * g / (g + l)
                        && 0.0 <= Rsi(closes, day, period) < 100.0
  {
    var g := GainSum(closes, day - period, day);
    var l := LossSum(closes, day - period, day);
    if l > 0.0 {
      RatioOfAverages(g, l, period as real);
      RsiAlgebra(g, l);
    }
  }

  /** Short history is not an error: the SMA answers 0.0 while fewer than
      `period` closes exist and the RSI answers the neutral 50.0 while fewer
      than `period` changes exist. */
  lemma IndicatorSentinels(closes: seq<real>, day: int, period: int)
    requires 0 <= day < |closes| && period > 0
    ensures day < period - 1 ==> Sma(closes, day, period) == 0.0
    ensures day < period ==> Rsi(closes, day, period) == 50.0
  {
  }
}
