/**
  The screening helpers of the coin parser: the instrument table (quantity step, minimum
  order quantity and tick size per USDT symbol) and the ticker table with the Long/Short
  signals. The exchange reply is a parameter; a pandas frame built from a list of dicts is
  modelled column by column, a cell a row lacks being NaN.
 */
module ParserCoins {
  import opened Wrappers
  import opened Json

  /** `str.endswith('USDT')`. */
  predicate IsUsdt(symbol: string) {
    |symbol| >= 4 && symbol[|symbol| - 4..] == "USDT"
  }

  /** `response['result']['list']`; anything but a list there is refused. */
  function ResultList(response: Json): (r: Result<seq<Json>, Exc>)
    ensures r.Success? <==>
      && response.Obj? && "result" in response.fields
      && response.fields["result"].Obj? && "list" in response.fields["result"].fields
      && response.fields["result"].fields["list"].Arr?
    ensures r.Success? ==> r.value == response.fields["result"].fields["list"].items
  {
    var result :- Lookup(response, "result");
    var list :- Lookup(result, "list");
    if list.Arr? then Success(list.items) else Failure(TypeError)
  }

  /** The frame's cell: the row's value, or `Null` for the NaN of a row that lacks the key. */
  function Cell(row: Json, key: string): Json {
    if row.Obj? && key in row.fields then row.fields[key] else Null
  }

  /** Some row has the key, so the frame has that column. */
  predicate HasColumn(rows: seq<Json>, key: string) {
    exists i | 0 <= i < |rows| :: rows[i].Obj? && key in rows[i].fields
  }

  /** `df[key]` of a frame built from the rows: a missing column raises KeyError. */
  function Column(rows: seq<Json>, key: string): (r: Result<seq<Json>, Exc>)
    ensures r.Success? <==> HasColumn(rows, key)
    ensures r.Failure? ==> r.error == KeyError
    ensures r.Success? ==> |r.value| == |rows| && forall i | 0 <= i < |rows| :: r.value[i] == Cell(rows[i], key)
  {
    if HasColumn(rows, key) then Success(seq(|rows|, i requires 0 <= i < |rows| => Cell(rows[i], key)))
    else Failure(KeyError)
  }

  /** `float(x[key])`; a NaN cell is not subscriptable. */
  function FieldFloat(x: Json, key: string): (r: Result<real, Exc>)
    ensures r.Success? ==> x.Obj? && key in x.fields && PyFloat(x.fields[key]) == r
    ensures r.Failure? ==> r.error in {KeyError, TypeError, ValueError}
  {
    var v :- Lookup(x, key);
    PyFloat(v)
  }

  /** Every cell of the column yields a float under `key`. */
  predicate AllFloats(cells: seq<Json>, key: string) {
    forall i | 0 <= i < |cells| :: FieldFloat(cells[i], key).Success?
  }

  /** `[float(x[key]) for x in cells]`: the first failure raises. */
  function FloatsOf(cells: seq<Json>, key: string): (r: Result<seq<real>, Exc>)
    ensures r.Success? <==> AllFloats(cells, key)
    ensures r.Success? ==> |r.value| == |cells| && forall i | 0 <= i < |cells| :: FieldFloat(cells[i], key) == Success(r.value[i])
    ensures r.Failure? ==> r.error in {KeyError, TypeError, ValueError}
  {
    if |cells| == 0 then Success([])
    else
      assert AllFloats(cells, key) <==> FieldFloat(cells[0], key).Success? && AllFloats(cells[1..], key) by {
        assert forall i | 1 <= i < |cells| :: cells[i] == cells[1..][i - 1];
      }
      match FieldFloat(cells[0], key)
      case Failure(e) => Failure(e)
      case Success(x) =>
        var rest :- FloatsOf(cells[1..], key);
        Success([x] + rest)
  }

  /** The rows whose symbol is a string ending in USDT, in order, keyed by that string. */
  function KeepUsdt<T>(rows: seq<(Json, T)>): (r: seq<(string, T)>)
    ensures |r| <= |rows|
    ensures forall i | 0 <= i < |r| :: IsUsdt(r[i].0) && (Str(r[i].0), r[i].1) in rows
    ensures forall i | 0 <= i < |rows| && rows[i].0.Str? && IsUsdt(rows[i].0.s) :: (rows[i].0.s, rows[i].1) in r
  {
    if |rows| == 0 then []
    else
      var rest := KeepUsdt(rows[1..]);
      assert forall i | 1 <= i < |rows| :: rows[i] == rows[1..][i - 1];
      if rows[0].0.Str? && IsUsdt(rows[0].0.s) then [(rows[0].0.s, rows[0].1)] + rest else rest
  }

  /** Filtering the USDT rows distributes over concatenation, so the kept rows stay in order. */
  lemma {:induction false} KeepUsdtAppend<T>(a: seq<(Json, T)>, b: seq<(Json, T)>)
    ensures KeepUsdt(a + b) == KeepUsdt(a) + KeepUsdt(b)
  {
    if |a| == 0 {
      assert a + b == b;
    } else {
      assert (a + b)[0] == a[0] && (a + b)[1..] == a[1..] + b;
      KeepUsdtAppend(a[1..], b);
    }
  }

  /** The symbols are pairwise different. */
  predicate Distinct<T>(rows: seq<(string, T)>) {
    forall i, j | 0 <= i < j < |rows| :: rows[i].0 != rows[j].0
  }

  /** The symbols of the rows. */
  function Symbols<T>(rows: seq<(string, T)>): set<string> {
    set i | 0 <= i < |rows| :: rows[i].0
  }

  /** `m` holds exactly the rows' symbols, each mapped to its row's value. */
  ghost predicate Indexes<T>(rows: seq<(string, T)>, m: map<string, T>) {
    && m.Keys == Symbols(rows)
    && forall i | 0 <= i < |rows| :: m[rows[i].0] == rows[i].1
  }

  /** Appending a row with a new symbol extends the index by that entry. */
  lemma IndexesSnoc<T>(rows: seq<(string, T)>, m: map<string, T>)
    requires |rows| > 0 && Indexes(rows[..|rows| - 1], m) && rows[|rows| - 1].0 !in m
    ensures Indexes(rows, m[rows[|rows| - 1].0 := rows[|rows| - 1].1])
  {
    var n := |rows| - 1;
    assert forall i | 0 <= i < n :: rows[..n][i] == rows[i];
    assert Symbols(rows) == Symbols(rows[..n]) + {rows[n].0};
  }

  /** The last row's symbol is new exactly when it appears in no earlier row. */
  lemma DistinctSnoc<T>(rows: seq<(string, T)>, m: map<string, T>)
    requires |rows| > 0 && Indexes(rows[..|rows| - 1], m)
    ensures Distinct(rows) <==> Distinct(rows[..|rows| - 1]) && rows[|rows| - 1].0 !in m
  {
    var n := |rows| - 1;
    assert forall i | 0 <= i < n :: rows[..n][i] == rows[i];
    if rows[n].0 in m {
      var i :| 0 <= i < n && rows[..n][i].0 == rows[n].0;
    }
  }

  /** `df.to_dict(orient='index')`: one entry per symbol; a repeated symbol raises ValueError. */
  function IndexDict<T>(rows: seq<(string, T)>): (r: Result<map<string, T>, Exc>)
    ensures r.Success? <==> Distinct(rows)
    ensures r.Failure? ==> r.error == ValueError
    ensures r.Success? ==> Indexes(rows, r.value)
    decreases |rows|
  {
    if |rows| == 0 then Success(map[])
    else
      var n := |rows| - 1;
      var before := IndexDict(rows[..n]);
      if before.Failure? then
        assert !Distinct(rows) by {
          assert forall i | 0 <= i < n :: rows[..n][i] == rows[i];
        }
        before
      else
        DistinctSnoc(rows, before.value);
        if rows[n].0 in before.value then Failure(ValueError)
        else
          IndexesSnoc(rows, before.value);
          Success(before.value[rows[n].0 := rows[n].1])
  }

  /** One instrument's fields, as floats. */
  datatype Instrument = Instrument(qtyStep: real, minOrderQty: real, tickSize: real)

  /** The same fields read from one record directly: the reference for the column-wise reading. */
  function RowInfo(row: Json): Result<Instrument, Exc> {
    var lot := Cell(row, "lotSizeFilter");
    var qtyStep :- FieldFloat(lot, "qtyStep");
    var minOrderQty :- FieldFloat(lot, "minOrderQty");
    var tickSize :- FieldFloat(Cell(row, "priceFilter"), "tickSize");
    Success(Instrument(qtyStep, minOrderQty, tickSize))
  }

  /** The symbol and fields of every record, from the converted columns. */
  function InstrumentRows(symbols: seq<Json>, qty: seq<real>, minQty: seq<real>, tick: seq<real>): (r: seq<(Json, Instrument)>)
    requires |qty| == |symbols| && |minQty| == |symbols| && |tick| == |symbols|
    ensures |r| == |symbols| && forall i | 0 <= i < |r| :: r[i] == (symbols[i], Instrument(qty[i], minQty[i], tick[i]))
  {
    seq(|symbols|, i requires 0 <= i < |symbols| => (symbols[i], Instrument(qty[i], minQty[i], tick[i])))
  }

  /** The column-wise conversion gives every record the fields its direct reading gives. */
  lemma ColumnsAgree(list: seq<Json>, lot: seq<Json>, price: seq<Json>, qty: seq<real>, minQty: seq<real>, tick: seq<real>)
    requires Column(list, "lotSizeFilter") == Success(lot) && Column(list, "priceFilter") == Success(price)
    requires FloatsOf(lot, "qtyStep") == Success(qty) && FloatsOf(lot, "minOrderQty") == Success(minQty)
    requires FloatsOf(price, "tickSize") == Success(tick)
    ensures |qty| == |list| && |minQty| == |list| && |tick| == |list|
    ensures forall i | 0 <= i < |list| :: RowInfo(list[i]) == Success(Instrument(qty[i], minQty[i], tick[i]))
  {
    forall i | 0 <= i < |list| ensures RowInfo(list[i]) == Success(Instrument(qty[i], minQty[i], tick[i])) {
      assert FieldFloat(lot[i], "qtyStep") == Success(qty[i]);
      assert FieldFloat(lot[i], "minOrderQty") == Success(minQty[i]);
      assert FieldFloat(price[i], "tickSize") == Success(tick[i]);
    }
  }

  /**
    The frame of `get_instrument_info` before the USDT filter: the quantities are read from
    every record's `lotSizeFilter`, the tick size from its `priceFilter`, each column in
    turn, and the symbol column is selected. Each row agrees with its record's direct reading.
   */
  function Converted(list: seq<Json>): (r: Result<seq<(Json, Instrument)>, Exc>)
    ensures r.Success? ==> |r.value| == |list|
    ensures r.Success? ==> forall i | 0 <= i < |list| ::
      r.value[i].0 == Cell(list[i], "symbol") && RowInfo(list[i]) == Success(r.value[i].1)
    ensures r.Failure? ==> r.error in {KeyError, TypeError, ValueError}
  {
    var lot :- Column(list, "lotSizeFilter");
    var qty :- FloatsOf(lot, "qtyStep");
    var minQty :- FloatsOf(lot, "minOrderQty");
    var price :- Column(list, "priceFilter");
    var tick :- FloatsOf(price, "tickSize");
    var symbols :- Column(list, "symbol");
    ColumnsAgree(list, lot, price, qty, minQty, tick);
    Success(InstrumentRows(symbols, qty, minQty, tick))
  }

  /** `get_instrument_info` on the records: the USDT rows, indexed by symbol. */
  function InstrumentTable(list: seq<Json>): (r: Result<map<string, Instrument>, Exc>)
    ensures r.Success? ==> forall k | k in r.value :: IsUsdt(k)
    ensures r.Failure? ==> r.error in {KeyError, TypeError, ValueError}
  {
    var all :- Converted(list);
    var rows := KeepUsdt(all);
    var r := IndexDict(rows);
    assert r.Success? ==> forall k | k in r.value :: IsUsdt(k) by {
      if r.Success? {
        forall k | k in r.value ensures IsUsdt(k) {
          assert k in Symbols(rows);
        }
      }
    }
    r
  }

  /** `get_instrument_info` on the exchange's reply. */
  function InstrumentInfo(response: Json): (r: Result<map<string, Instrument>, Exc>)
    ensures ResultList(response).Success? ==> r == InstrumentTable(ResultList(response).value)
    ensures ResultList(response).Failure? ==> r.Failure?
    ensures r.Success? ==> forall k | k in r.value :: IsUsdt(k)
    ensures r.Failure? ==> r.error in {KeyError, TypeError, ValueError}
  {
    var list :- ResultList(response);
    InstrumentTable(list)
  }

  /** A successful table read every record's fields without error. */
  lemma InstrumentTableConverts(list: seq<Json>)
    requires InstrumentTable(list).Success?
    ensures forall i | 0 <= i < |list| :: RowInfo(list[i]).Success?
  {
    assert Converted(list).Success?;
  }

  /** Every key of the table is the symbol of a record whose direct reading gives that entry. */
  lemma InstrumentTableKeys(list: seq<Json>, k: string)
    requires InstrumentTable(list).Success? && k in InstrumentTable(list).value
    ensures exists i | 0 <= i < |list| ::
      Cell(list[i], "symbol") == Str(k) && RowInfo(list[i]) == Success(InstrumentTable(list).value[k])
  {
    var all := Converted(list).value;
    var rows := KeepUsdt(all);
    var m := InstrumentTable(list).value;
    assert Indexes(rows, m);
    assert k in Symbols(rows);
    var j :| 0 <= j < |rows| && rows[j].0 == k;
    assert (Str(k), rows[j].1) in all;
    var i :| 0 <= i < |all| && all[i] == (Str(k), rows[j].1);
    assert Cell(list[i], "symbol") == Str(k) && RowInfo(list[i]) == Success(m[k]);
  }

  /** Every record with a USDT symbol has an entry in the table. */
  lemma InstrumentTableComplete(list: seq<Json>, i: int)
    requires InstrumentTable(list).Success? && 0 <= i < |list|
    requires Cell(list[i], "symbol").Str? && IsUsdt(Cell(list[i], "symbol").s)
    ensures Cell(list[i], "symbol").s in InstrumentTable(list).value
  {
    var all := Converted(list).value;
    var rows := KeepUsdt(all);
    var m := InstrumentTable(list).value;
    assert Indexes(rows, m);
    var j :| 0 <= j < |rows| && rows[j] == (all[i].0.s, all[i].1);
    assert rows[j].0 in Symbols(rows);
  }

  /** `data_for_coins.get(key, default)`. */
  function Setting(data: map<string, real>, key: string, default: real): (r: real)
    ensures key in data ==> r == data[key]
    ensures key !in data ==> r == default
  {
    if key in data then data[key] else default
  }

  const DefaultLongPercentage: real := 10.0
  const DefaultShortPercentage: real := -10.0
  const DefaultVolume: real := 30000000.0

  /** One ticker row after `astype(float)`; `None` is NaN, which no comparison passes. */
  datatype Ticker = Ticker(symbol: string, markPrice: Option<real>, pct: Option<real>, turnover: Option<real>, long: bool, short: bool)

  /** `astype(float)` of one cell: NaN stays NaN, anything else goes through `float()`. */
  function AsFloat(cell: Json): (r: Result<Option<real>, Exc>)
    ensures cell == Null ==> r == Success(None)
    ensures cell != Null ==> (r.Success? <==> PyFloat(cell).Success?)
    ensures cell != Null && r.Success? ==> r.value == Some(PyFloat(cell).value)
  {
    if cell == Null then Success(None)
    else
      var x :- PyFloat(cell);
      Success(Some(x))
  }

  /** `a >= b` on a float that may be NaN. */
  predicate AtLeast(a: Option<real>, b: real) {
    a.Some? && a.value >= b
  }

  /** `a <= b` on a float that may be NaN. */
  predicate AtMost(a: Option<real>, b: real) {
    a.Some? && a.value <= b
  }

  /** `a > b` on a float that may be NaN. */
  predicate Above(a: Option<real>, b: real) {
    a.Some? && a.value > b
  }

  /** The daily change in percent: `price24hPcnt * 100`. */
  function Percent(fraction: Option<real>): (r: Option<real>)
    ensures r.Some? <==> fraction.Some?
    ensures r.Some? ==> r.value / 100.0 == fraction.value
  {
    if fraction.Some? then Some(fraction.value * 100.0) else None
  }

  /** The cells of one ticker row besides the symbol. */
  datatype Cells = Cells(mark: Json, fraction: Json, turnover: Json)

  /** The symbol and value cells of one record. */
  function RecordCells(row: Json): (Json, Cells) {
    (Cell(row, "symbol"), Cells(Cell(row, "markPrice"), Cell(row, "price24hPcnt"), Cell(row, "turnover24h")))
  }

  /** The screening of one USDT row: its four cells are converted, then the Long and Short signals computed. */
  function Screen(symbol: string, cells: Cells, data: map<string, real>): (r: Result<Ticker, Exc>)
    ensures r.Success? ==> r.value.symbol == symbol
    ensures r.Success? ==> AsFloat(cells.fraction).Success? && r.value.pct == Percent(AsFloat(cells.fraction).value)
    ensures r.Success? ==> (r.value.long <==>
      AtLeast(r.value.pct, Setting(data, "long_percentage", DefaultLongPercentage))
      && Above(r.value.turnover, Setting(data, "volume_long", DefaultVolume)))
    ensures r.Success? ==> (r.value.short <==>
      AtMost(r.value.pct, Setting(data, "short_percentage", DefaultShortPercentage))
      && Above(r.value.turnover, Setting(data, "volume_short", DefaultVolume)))
    ensures r.Failure? ==> r.error == ValueError || r.error == TypeError
    ensures r.Success? <==> AsFloat(cells.mark).Success? && AsFloat(cells.fraction).Success? && AsFloat(cells.turnover).Success?
    ensures r.Success? ==> r.value.markPrice == AsFloat(cells.mark).value && r.value.turnover == AsFloat(cells.turnover).value
    ensures AsFloat(cells.mark).Failure? ==> r == Failure(AsFloat(cells.mark).error)
    ensures AsFloat(cells.mark).Success? && AsFloat(cells.fraction).Failure? ==> r == Failure(AsFloat(cells.fraction).error)
  {
    var markPrice :- AsFloat(cells.mark);
    var fraction :- AsFloat(cells.fraction);
    var turnover :- AsFloat(cells.turnover);
    var pct := Percent(fraction);
    var long := AtLeast(pct, Setting(data, "long_percentage", DefaultLongPercentage))
      && Above(turnover, Setting(data, "volume_long", DefaultVolume));
    var short := AtMost(pct, Setting(data, "short_percentage", DefaultShortPercentage))
      && Above(turnover, Setting(data, "volume_short", DefaultVolume));
    Success(Ticker(symbol, markPrice, pct, turnover, long, short))
  }

  /** Every kept row screens without error, in order. */
  function ScreenAll(rows: seq<(string, Cells)>, data: map<string, real>): (r: Result<seq<Ticker>, Exc>)
    ensures r.Success? ==> |r.value| == |rows|
    ensures r.Success? ==> forall i | 0 <= i < |rows| ::
      Screen(rows[i].0, rows[i].1, data) == Success(r.value[i])
    ensures r.Failure? ==> r.error == ValueError || r.error == TypeError
  {
    if |rows| == 0 then Success([])
    else
      var t :- Screen(rows[0].0, rows[0].1, data);
      var rest :- ScreenAll(rows[1..], data);
      assert forall i | 1 <= i < |rows| :: rows[i] == rows[1..][i - 1];
      Success([t] + rest)
  }

  /** The symbol and the three value cells of every record, when the frame has all four columns. */
  function TickerRows(list: seq<Json>): (r: Result<seq<(Json, Cells)>, Exc>)
    ensures r.Success? <==> (
      && HasColumn(list, "markPrice") && HasColumn(list, "price24hPcnt")
      && HasColumn(list, "turnover24h") && HasColumn(list, "symbol"))
    ensures r.Success? ==> |r.value| == |list| && forall i | 0 <= i < |list| ::
      r.value[i] == RecordCells(list[i])
    ensures r.Failure? ==> r.error == KeyError
  {
    var mark :- Column(list, "markPrice");
    var fraction :- Column(list, "price24hPcnt");
    var turnover :- Column(list, "turnover24h");
    var symbols :- Column(list, "symbol");
    Success(seq(|list|, i requires 0 <= i < |list| => (symbols[i], Cells(mark[i], fraction[i], turnover[i]))))
  }

  /**
    `get_all_tickers`: the four columns are selected, the USDT rows kept in order, their
    cells converted to floats, the change scaled to percent and the signals computed
    against the coin settings or their defaults.
   */
  function AllTickers(response: Json, data: map<string, real>): (r: Result<seq<Ticker>, Exc>)
    ensures r.Success? ==> forall i | 0 <= i < |r.value| :: IsUsdt(r.value[i].symbol)
    ensures r.Failure? ==> r.error in {KeyError, TypeError, ValueError}
  {
    var list :- ResultList(response);
    var rows :- TickerRows(list);
    ScreenAll(KeepUsdt(rows), data)
  }

  /** The record carries the ticker's symbol and screens to exactly that ticker. */
  predicate ScreensTo(row: Json, t: Ticker, data: map<string, real>) {
    && RecordCells(row).0 == Str(t.symbol)
    && Screen(t.symbol, RecordCells(row).1, data) == Success(t)
  }

  /** Every ticker is the screening of a USDT record of the reply. */
  lemma TickerFromRecord(response: Json, data: map<string, real>, t: Ticker)
    requires AllTickers(response, data).Success? && t in AllTickers(response, data).value
    ensures ResultList(response).Success?
    ensures exists i | 0 <= i < |ResultList(response).value| :: ScreensTo(ResultList(response).value[i], t, data)
  {
    var list := ResultList(response).value;
    var rows := TickerRows(list).value;
    var kept := KeepUsdt(rows);
    var ts := AllTickers(response, data).value;
    var j :| 0 <= j < |ts| && ts[j] == t;
    assert (Str(kept[j].0), kept[j].1) in rows;
    var i :| 0 <= i < |rows| && rows[i] == (Str(kept[j].0), kept[j].1);
    assert rows[i] == RecordCells(list[i]);
    assert Screen(kept[j].0, kept[j].1, data) == Success(t);
    assert ScreensTo(list[i], t, data);
  }

  /** Every USDT record of the reply is screened. */
  lemma RecordScreened(response: Json, data: map<string, real>, i: int)
    requires AllTickers(response, data).Success?
    requires ResultList(response).Success? && 0 <= i < |ResultList(response).value|
    requires Cell(ResultList(response).value[i], "symbol").Str? && IsUsdt(Cell(ResultList(response).value[i], "symbol").s)
    ensures exists t | t in AllTickers(response, data).value :: t.symbol == Cell(ResultList(response).value[i], "symbol").s
  {
    var list := ResultList(response).value;
    var rows := TickerRows(list).value;
    var kept := KeepUsdt(rows);
    var ts := AllTickers(response, data).value;
    var j :| 0 <= j < |kept| && kept[j] == (rows[i].0.s, rows[i].1);
    assert ts[j].symbol == kept[j].0;
  }

  /** With the long threshold above the short one, no ticker is flagged both Long and Short. */
  lemma LongShortExclusive(response: Json, data: map<string, real>)
    requires AllTickers(response, data).Success?
    requires Setting(data, "long_percentage", DefaultLongPercentage) > Setting(data, "short_percentage", DefaultShortPercentage)
    ensures forall t | t in AllTickers(response, data).value :: !(t.long && t.short)
  {
  }
}
