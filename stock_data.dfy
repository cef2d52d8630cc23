/** The grouping loop of `load_stock_data`: the CSV's data rows, already
    parsed, become one stock per run of consecutive rows with the same symbol. */
module StockData {
  import opened Structures

  /** One parsed data line: the symbol and that day's prices. */
  datatype Row = Row(symbol: string, data: PriceData)

  /** The stocks the loader builds from `rows`: a row whose symbol differs
      from the previous row's starts a new stock, any other row is appended to
      the current one. */
  function Group(rows: seq<Row>): (stocks: seq<Stock>)
    ensures rows == [] <==> stocks == []
    ensures rows != [] ==> stocks[|stocks| - 1].symbol == rows[|rows| - 1].symbol
  {
    if rows == [] then [] else AddRow(Group(rows[..|rows| - 1]), rows[|rows| - 1])
  }

  /** One row added to the stocks built so far. */
  function AddRow(g: seq<Stock>, r: Row): (stocks: seq<Stock>)
    ensures stocks != [] && stocks[|stocks| - 1].symbol == r.symbol
  {
    if g == [] || g[|g| - 1].symbol != r.symbol then g + [Stock(r.symbol, [r.data])]
    else g[..|g| - 1] + [Stock(r.symbol, g[|g| - 1].prices + [r.data])]
  }

  /** The rows of one stock, each day tagged with the stock's symbol. */
  function Tag(stock: Stock): (rows: seq<Row>)
    ensures |rows| == |stock.prices|
  {
    seq(|stock.prices|, i requires 0 <= i < |stock.prices| => Row(stock.symbol, stock.prices[i]))
  }

  /** The rows the stocks were read from, stock after stock. */
  function Ungroup(stocks: seq<Stock>): seq<Row>
  {
    if stocks == [] then [] else Ungroup(stocks[..|stocks| - 1]) + Tag(stocks[|stocks| - 1])
  }

  /** Every stock has at least one day and neighbouring stocks differ in symbol. */
  predicate WellGrouped(stocks: seq<Stock>)
  {
    (forall i :: 0 <= i < |stocks| ==> |stocks[i].prices| > 0)
    && (forall i :: 0 < i < |stocks| ==> stocks[i - 1].symbol != stocks[i].symbol)
  }

  /** Rows at which a new stock starts: the first, and each one whose symbol
      differs from its predecessor's. */
  function RunStarts(rows: seq<Row>): nat
  {
    if rows == [] then 0
    else RunStarts(rows[..|rows| - 1])
         + (if |rows| == 1 || rows[|rows| - 2].symbol != rows[|rows| - 1].symbol then 1 else 0)
  }

  /** What the loader needs of its input: a first symbol distinct from the
      empty "current symbol" it starts with, at most MAX_STOCKS runs and at
      most MAX_DAYS rows per run, none of which the source checks. */
  predicate Loadable(rows: seq<Row>)
  {
    (rows != [] ==> rows[0].symbol != "")
    && |Group(rows)| <= MAX_STOCKS
    && forall i :: 0 <= i < |Group(rows)| ==> |Group(rows)[i].prices| <= MAX_DAYS
  }

  lemma {:induction false} GroupPrefixGrows(rows: seq<Row>, n: nat)
    requires n <= |rows|
    ensures |Group(rows[..n])| <= |Group(rows)|
    decreases |rows| - n
  {
    if n < |rows| {
      GroupPrefixGrows(rows, n + 1);
      assert rows[..n + 1][..n] == rows[..n];
    } else {
      assert rows[..n] == rows;
    }
  }

  /** The body of the loader's loop for one row: a symbol different from the
      current one opens the next stock with no days; the row's prices are
      then appended to the current stock. */
  method AddRowInPlace(stocks: array<Stock>, stockIdx: int, currentSymbol: string, row: Row,
                       ghost g: seq<Stock>)
    returns (newIdx: int, newSymbol: string)
    requires -1 <= stockIdx < stocks.Length && stocks[..stockIdx + 1] == g
    requires |AddRow(g, row)| <= stocks.Length
    requires g == [] ==> currentSymbol == "" && row.symbol != ""
    requires g != [] ==> currentSymbol == g[|g| - 1].symbol
    modifies stocks
    ensures 0 <= newIdx < stocks.Length && stocks[..newIdx + 1] == AddRow(g, row)
    ensures newSymbol == row.symbol
  {
    newIdx, newSymbol := stockIdx, currentSymbol;
    if currentSymbol != row.symbol {
      newIdx := newIdx + 1;
      stocks[newIdx] := Stock(row.symbol, []);
      newSymbol := row.symbol;
      assert stocks[..newIdx] == g;
      assert [] + [row.data] == [row.data];
    } else {
      assert stocks[..newIdx] == g[..|g| - 1];
      assert stocks[newIdx] == g[|g| - 1] && g[|g| - 1].symbol == row.symbol;
    }
    ghost var kept := stocks[..newIdx];
    stocks[newIdx] := Stock(stocks[newIdx].symbol, stocks[newIdx].prices + [row.data]);
    assert stocks[..newIdx + 1] == kept + [stocks[newIdx]];
  }

  /** `load_stock_data` after parsing: fills `stocks` in place and returns the
      stock count. */
  method LoadStockData(rows: seq<Row>, stocks: array<Stock>) returns (stockCount: nat)
    requires stocks.Length == MAX_STOCKS && Loadable(rows)
    modifies stocks
    ensures stockCount <= MAX_STOCKS && stocks[..stockCount] == Group(rows)
  {
    var currentSymbol := "";
    var stockIdx := -1;
    var n := 0;
    while n < |rows|
      invariant 0 <= n <= |rows| && -1 <= stockIdx < MAX_STOCKS
      invariant stocks[..stockIdx + 1] == Group(rows[..n])
      invariant n == 0 ==> currentSymbol == ""
      invariant n > 0 ==> currentSymbol == rows[n - 1].symbol
    {
      ghost var g := Group(rows[..n]);
      assert rows[..n + 1][..n] == rows[..n];
      assert Group(rows[..n + 1]) == AddRow(g, rows[n]);
      GroupPrefixGrows(rows, n + 1);
      stockIdx, currentSymbol := AddRowInPlace(stocks, stockIdx, currentSymbol, rows[n], g);
      n := n + 1;
    }
    assert rows[..n] == rows;
    stockCount := stockIdx + 1;
  }

  // ---------------------------------------------------------------- properties

  /** The stocks built are non-empty runs with different neighbouring symbols. */
  lemma {:induction false} GroupWellGrouped(rows: seq<Row>)
    ensures WellGrouped(Group(rows))
  {
    if rows != [] {
      GroupWellGrouped(rows[..|rows| - 1]);
      AddRowWellGrouped(Group(rows[..|rows| - 1]), rows[|rows| - 1]);
    }
  }

  lemma AddRowWellGrouped(g: seq<Stock>, r: Row)
    requires WellGrouped(g)
    ensures WellGrouped(AddRow(g, r))
  {
    var a := AddRow(g, r);
    if !(g == [] || g[|g| - 1].symbol != r.symbol) {
      forall i | 0 < i < |a| ensures a[i - 1].symbol != a[i].symbol {
        assert a[i - 1] == g[i - 1];
        if i < |a| - 1 { assert a[i] == g[i]; }
      }
    }
  }

  /** One stock per run: the number of stocks is the number of rows whose
      symbol differs from the previous row's (counting the first), so no rows
      give no stocks. */
  lemma {:induction false} GroupCountsRuns(rows: seq<Row>)
    ensures |Group(rows)| == RunStarts(rows)
  {
    if rows != [] {
      var init := rows[..|rows| - 1];
      GroupCountsRuns(init);
      if |rows| > 1 {
        assert init[|init| - 1] == rows[|rows| - 2];
      }
    }
  }

  lemma TagSnoc(symbol: string, prices: seq<PriceData>, d: PriceData)
    ensures Tag(Stock(symbol, prices + [d])) == Tag(Stock(symbol, prices)) + [Row(symbol, d)]
  {
  }

  lemma UngroupSnoc(stocks: seq<Stock>, last: Stock)
    ensures Ungroup(stocks + [last]) == Ungroup(stocks) + Tag(last)
  {
    assert (stocks + [last])[..|stocks|] == stocks;
  }

  lemma UngroupAddRow(g: seq<Stock>, r: Row)
    ensures Ungroup(AddRow(g, r)) == Ungroup(g) + [r]
  {
    if g == [] || g[|g| - 1].symbol != r.symbol {
      UngroupSnoc(g, Stock(r.symbol, [r.data]));
    } else {
      var k := |g| - 1;
      assert g == g[..k] + [g[k]];
      UngroupSnoc(g[..k], g[k]);
      UngroupSnoc(g[..k], Stock(r.symbol, g[k].prices + [r.data]));
      TagSnoc(r.symbol, g[k].prices, r.data);
    }
  }

  /** Round trip one way: reading the stocks back row by row gives the input,
      so every row lands in exactly one stock, in input order, and each
      stock's day count is the length of its run. */
  lemma {:induction false} UngroupGroup(rows: seq<Row>)
    ensures Ungroup(Group(rows)) == rows
  {
    if rows != [] {
      var init, r := rows[..|rows| - 1], rows[|rows| - 1];
      assert rows == init + [r];
      UngroupGroup(init);
      UngroupAddRow(Group(init), r);
    }
  }

  /** Appending a run of a new symbol to the rows appends one stock. */
  lemma {:induction false} GroupAppendRun(rows: seq<Row>, stock: Stock)
    requires |stock.prices| > 0
    requires rows != [] ==> rows[|rows| - 1].symbol != stock.symbol
    ensures Group(rows + Tag(stock)) == Group(rows) + [stock]
    decreases |stock.prices|
  {
    var ps := stock.prices;
    var n := |ps|;
    var sym := stock.symbol;
    var shorter := Stock(sym, ps[..n - 1]);
    TagSnoc(sym, ps[..n - 1], ps[n - 1]);
    assert ps[..n - 1] + [ps[n - 1]] == ps;
    var all := rows + Tag(stock);
    assert all == (rows + Tag(shorter)) + [Row(sym, ps[n - 1])];
    assert all[..|all| - 1] == rows + Tag(shorter);
    if n == 1 {
      assert Tag(shorter) == [];
      assert rows + Tag(shorter) == rows;
    } else {
      GroupAppendRun(rows, shorter);
    }
  }

  /** Round trip the other way: well-grouped stocks written out row by row
      are read back as the same stocks. */
  lemma {:induction false} GroupUngroup(stocks: seq<Stock>)
    requires WellGrouped(stocks)
    ensures Group(Ungroup(stocks)) == stocks
  {
    if stocks != [] {
      var init, last := stocks[..|stocks| - 1], stocks[|stocks| - 1];
      assert stocks == init + [last];
      assert WellGrouped(init) by {
        forall i | 0 <= i < |init| ensures |init[i].prices| > 0 {
          assert init[i] == stocks[i];
        }
        forall i | 0 < i < |init| ensures init[i - 1].symbol != init[i].symbol {
          assert init[i - 1] == stocks[i - 1] && init[i] == stocks[i];
        }
      }
      GroupUngroup(init);
      var rows := Ungroup(init);
      assert Ungroup(stocks) == rows + Tag(last);
      assert rows != [] ==> rows[|rows| - 1].symbol != last.symbol by {
        if rows != [] {
          assert Group(rows) == init;
          assert init[|init| - 1] == stocks[|stocks| - 2];
        }
      }
      GroupAppendRun(rows, last);
    }
  }

  /** A symbol that comes back after another one gets a second stock. */
  lemma ReappearingSymbolSplits(a: PriceData, b: PriceData, c: PriceData)
    ensures Group([Row("A", a), Row("B", b), Row("A", c)])
            == [Stock("A", [a]), Stock("B", [b]), Stock("A", [c])]
  {
    var rows := [Row("A", a), Row("B", b), Row("A", c)];
    assert "A" != "B" by { assert "A"[0] != "B"[0]; }
    assert rows[..1] == [Row("A", a)];
    assert rows[..1][..0] == [];
    assert Group(rows[..1]) == [Stock("A", [a])];
    assert rows[..2][..1] == rows[..1];
    assert Group(rows[..2]) == [Stock("A", [a]), Stock("B", [b])];
  }
}
