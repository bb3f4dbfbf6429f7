/**
  The account helpers behind the user's menu: the API-key permission check, the list of
  open positions, and the profit of the last three months summed per month. Exchange
  replies are passed in; `fetch` stands for the closed-profit request of one chunk.
 */
module StockHelper {
  import opened Wrappers
  import opened Json
  import DatetimeHelper

  /** Python `a and b`: `a` when it is falsy, else `b`. */
  function PyAnd(a: Json, b: Json): (r: Json)
    ensures Truthy(r) <==> Truthy(a) && Truthy(b)
  {
    if Truthy(a) then b else a
  }

  /** The dict `check_permissions` returns. */
  datatype Report = Report(status: Json, readonly: bool, permissions: bool, hasApiSecret: Json, result: Json)

  /** `pd.Series(permissions)[key]`: only a dict gives a series indexed by its keys. */
  function SeriesGet(v: Json, key: string): (r: Result<Json, Exc>)
    ensures r.Success? <==> v.Obj? && key in v.fields
    ensures r.Success? ==> r.value == v.fields[key]
    ensures r.Failure? ==> r.error == KeyError
  {
    if v.Obj? && key in v.fields then Success(v.fields[key]) else Failure(KeyError)
  }

  const ContractTrade: Json := Arr([Str("Order"), Str("Position")])
  const Options: Json := Arr([Str("OptionsTrade")])
  const Derivatives: Json := Arr([Str("DerivativesTrade")])

  /** The three permission lists compare equal, in order; a key is read only once the earlier ones matched. */
  function HasPermission(permissions: Json): (r: Result<bool, Exc>)
    ensures r == Success(true) <==>
      && permissions.Obj?
      && "ContractTrade" in permissions.fields && PyEq(permissions.fields["ContractTrade"], ContractTrade)
      && "Options" in permissions.fields && PyEq(permissions.fields["Options"], Options)
      && "Derivatives" in permissions.fields && PyEq(permissions.fields["Derivatives"], Derivatives)
    ensures r.Failure? ==> r.error == KeyError
  {
    var contract :- SeriesGet(permissions, "ContractTrade");
    if !PyEq(contract, ContractTrade) then Success(false)
    else
      var options :- SeriesGet(permissions, "Options");
      if !PyEq(options, Options) then Success(false)
      else
        var derivatives :- SeriesGet(permissions, "Derivatives");
        Success(PyEq(derivatives, Derivatives))
  }

  /**
    `check_permissions(user)` with `result` the reply of the key-info request: without
    both credentials nothing is asked and every flag is false; otherwise the key must be
    read-write (`readOnly == 0`) and carry exactly the three trading permissions. A reply
    without `permissions` or `readOnly` (the request's `{}` on failure) raises.
   */
  function CheckPermissions(api: Json, secret: Json, result: Json): (r: Result<Report, Exc>)
    ensures !(Truthy(api) && Truthy(secret)) ==>
      r == Success(Report(Bool(false), false, false, PyAnd(api, secret), Obj(map[])))
    ensures r.Success? ==> (Truthy(r.value.status) <==>
      r.value.readonly && r.value.permissions && Truthy(api) && Truthy(secret))
    ensures r.Success? ==> r.value.hasApiSecret == PyAnd(api, secret)
    ensures r.Success? && Truthy(api) && Truthy(secret) ==>
      && result.Obj? && "readOnly" in result.fields && "permissions" in result.fields
      && r.value.result == result
      && (r.value.readonly <==> PyEq(result.fields["readOnly"], Int(0)))
      && (r.value.permissions <==> HasPermission(result.fields["permissions"]) == Success(true))
    ensures r.Failure? ==> r.error in {KeyError, TypeError}
  {
    var flag := PyAnd(api, secret);
    if !Truthy(flag) then Success(Report(PyAnd(PyAnd(Bool(false), Bool(false)), flag), false, false, flag, Obj(map[])))
    else
      var permissions :- Lookup(result, "permissions");
      var readOnly :- Lookup(result, "readOnly");
      var readonly := PyEq(readOnly, Int(0));
      var hasPermission :- HasPermission(permissions);
      Success(Report(PyAnd(PyAnd(Bool(readonly), Bool(hasPermission)), flag), readonly, hasPermission, flag, result))
  }

  /** `get_user_positions(user)`: the exchange's list only when both credentials are set. */
  function GetUserPositions(api: Json, secret: Json, allPositions: Json): (r: Json)
    ensures Truthy(api) && Truthy(secret) ==> r == allPositions
    ensures !(Truthy(api) && Truthy(secret)) ==> r == Arr([])
  {
    if Truthy(api) && Truthy(secret) then allPositions else Arr([])
  }

  /** The concatenation of the lists, in order. */
  function Flatten(lists: seq<seq<Json>>): seq<Json> {
    if |lists| == 0 then [] else lists[0] + Flatten(lists[1..])
  }

  /** Flattening distributes over concatenation. */
  lemma {:induction false} FlattenAppend(a: seq<seq<Json>>, b: seq<seq<Json>>)
    ensures Flatten(a + b) == Flatten(a) + Flatten(b)
  {
    if |a| == 0 {
      assert a + b == b;
    } else {
      assert (a + b)[0] == a[0] && (a + b)[1..] == a[1..] + b;
      FlattenAppend(a[1..], b);
    }
  }

  /** Every item of every list is in the flattening. */
  lemma {:induction false} FlattenContains(lists: seq<seq<Json>>, i: int, j: int)
    requires 0 <= i < |lists| && 0 <= j < |lists[i]|
    ensures lists[i][j] in Flatten(lists)
  {
    if i > 0 {
      assert lists[1..][i - 1] == lists[i];
      FlattenContains(lists[1..], i - 1, j);
    }
  }

  /** `get_pnl_result(client, chunks)`: one request per chunk, their lists joined in chunk order. */
  function PnlResult(fetch: DatetimeHelper.Window -> seq<Json>, chunks: seq<DatetimeHelper.Window>): seq<Json> {
    if |chunks| == 0 then [] else fetch(chunks[0]) + PnlResult(fetch, chunks[1..])
  }

  /** The joined result is the flattening of the per-chunk lists. */
  lemma {:induction false} PnlResultFlattens(fetch: DatetimeHelper.Window -> seq<Json>, chunks: seq<DatetimeHelper.Window>)
    ensures PnlResult(fetch, chunks) == Flatten(seq(|chunks|, i requires 0 <= i < |chunks| => fetch(chunks[i])))
  {
    var lists := seq(|chunks|, i requires 0 <= i < |chunks| => fetch(chunks[i]));
    if |chunks| > 0 {
      PnlResultFlattens(fetch, chunks[1..]);
      assert lists[1..] == seq(|chunks[1..]|, i requires 0 <= i < |chunks[1..]| => fetch(chunks[1..][i]));
    }
  }

  /** The item carries a closed profit. */
  predicate HasPnl(item: Json) {
    item.Obj? && "closedPnl" in item.fields
  }

  /** Every closed profit among the records converts to a float. */
  predicate PnlParses(items: seq<Json>) {
    forall i | 0 <= i < |items| && HasPnl(items[i]) :: PyFloat(items[i].fields["closedPnl"]).Success?
  }

  lemma PnlParsesCons(items: seq<Json>)
    requires |items| > 0
    ensures PnlParses(items) <==>
      (HasPnl(items[0]) ==> PyFloat(items[0].fields["closedPnl"]).Success?) && PnlParses(items[1..])
  {
    assert forall i | 1 <= i < |items| :: items[i] == items[1..][i - 1];
  }

  /** `sum(float(item['closedPnl']) for item in result if 'closedPnl' in item)`; the first `float()` that fails raises. */
  function PnlSum(items: seq<Json>): (r: Result<real, Exc>)
    ensures r.Success? <==> PnlParses(items)
    ensures r.Failure? ==> r.error == ValueError || r.error == TypeError
  {
    if |items| == 0 then Success(0.0)
    else
      var rest := PnlSum(items[1..]);
      PnlParsesCons(items);
      if !HasPnl(items[0]) then rest
      else
        match PyFloat(items[0].fields["closedPnl"])
        case Failure(e) => Failure(e)
        case Success(x) => if rest.Failure? then rest else Success(x + rest.value)
  }

  /** One record adds its closed profit, or nothing when it has none. */
  lemma PnlSumSingle(item: Json)
    ensures !HasPnl(item) ==> PnlSum([item]) == Success(0.0)
    ensures HasPnl(item) && PyFloat(item.fields["closedPnl"]).Success? ==>
      PnlSum([item]) == Success(PyFloat(item.fields["closedPnl"]).value)
  {
    assert [item][1..] == [];
  }

  /** The sum over two runs of records is the sum of the sums. */
  lemma {:induction false} PnlSumAppend(a: seq<Json>, b: seq<Json>)
    requires PnlSum(a).Success? && PnlSum(b).Success?
    ensures PnlSum(a + b) == Success(PnlSum(a).value + PnlSum(b).value)
  {
    if |a| > 0 {
      assert (a + b)[0] == a[0] && (a + b)[1..] == a[1..] + b;
      PnlSumAppend(a[1..], b);
    } else {
      assert a + b == b;
    }
  }

  /** The month has a first chunk and a non-empty result, so it gets an entry. */
  predicate Reported(chunks: seq<DatetimeHelper.Window>, result: seq<Json>) {
    |result| > 0 && |chunks| > 0
  }

  /** Month `i` is reported under `k` with total `v`. */
  predicate Entry(chunks: seq<seq<DatetimeHelper.Window>>, results: seq<seq<Json>>, i: int, k: int, v: real)
    requires |chunks| == |results| && 0 <= i < |chunks|
  {
    Reported(chunks[i], results[i]) && chunks[i][0].start == k && PnlSum(results[i]) == Success(v)
  }

  /** Every reported month's records sum without error. */
  predicate AllSum(chunks: seq<seq<DatetimeHelper.Window>>, results: seq<seq<Json>>)
    requires |chunks| == |results|
  {
    forall i | 0 <= i < |chunks| && Reported(chunks[i], results[i]) :: PnlSum(results[i]).Success?
  }

  /**
    The loop of `get_three_month_pnl` over the months in order: a month with an empty
    result is skipped; otherwise its first chunk's start maps to the sum of its profits,
    a later month overwriting an equal start.
   */
  function Totals(chunks: seq<seq<DatetimeHelper.Window>>, results: seq<seq<Json>>): (r: Result<map<int, real>, Exc>)
    requires |chunks| == |results|
    ensures r.Success? <==> AllSum(chunks, results)
    decreases |chunks|
  {
    if |chunks| == 0 then Success(map[])
    else
      var n := |chunks| - 1;
      var before := Totals(chunks[..n], results[..n]);
      assert AllSum(chunks, results) <==>
          AllSum(chunks[..n], results[..n]) && (Reported(chunks[n], results[n]) ==> PnlSum(results[n]).Success?) by {
        assert forall i | 0 <= i < n :: chunks[..n][i] == chunks[i] && results[..n][i] == results[i];
      }
      if before.Failure? then before
      else if !Reported(chunks[n], results[n]) then before
      else
        match PnlSum(results[n])
        case Failure(e) => Failure(e)
        case Success(s) => Success(before.value[chunks[n][0].start := s])
  }

  /** Every key of the totals is some reported month's first start, holding that month's sum. */
  lemma {:induction false} TotalsKeys(chunks: seq<seq<DatetimeHelper.Window>>, results: seq<seq<Json>>, k: int)
    requires |chunks| == |results| && Totals(chunks, results).Success? && k in Totals(chunks, results).value
    ensures exists i | 0 <= i < |chunks| :: Entry(chunks, results, i, k, Totals(chunks, results).value[k])
    decreases |chunks|
  {
    var n := |chunks| - 1;
    var before := Totals(chunks[..n], results[..n]);
    var v := Totals(chunks, results).value[k];
    if Reported(chunks[n], results[n]) && chunks[n][0].start == k {
      assert Entry(chunks, results, n, k, v);
    } else {
      TotalsKeys(chunks[..n], results[..n], k);
      var i :| 0 <= i < n && Entry(chunks[..n], results[..n], i, k, before.value[k]);
      assert chunks[..n][i] == chunks[i] && results[..n][i] == results[i];
      assert Entry(chunks, results, i, k, v);
    }
  }

  /** Every reported month has an entry under its first start, and the last such month's sum is the one kept. */
  lemma {:induction false} TotalsCover(chunks: seq<seq<DatetimeHelper.Window>>, results: seq<seq<Json>>, i: int)
    requires |chunks| == |results| && Totals(chunks, results).Success?
    requires 0 <= i < |chunks| && Reported(chunks[i], results[i])
    ensures chunks[i][0].start in Totals(chunks, results).value
    ensures (forall j | i < j < |chunks| && Reported(chunks[j], results[j]) :: chunks[j][0].start != chunks[i][0].start) ==>
      PnlSum(results[i]) == Success(Totals(chunks, results).value[chunks[i][0].start])
    decreases |chunks|
  {
    var n := |chunks| - 1;
    if i < n {
      assert chunks[..n][i] == chunks[i] && results[..n][i] == results[i];
      assert forall j | i < j < n :: chunks[..n][j] == chunks[j] && results[..n][j] == results[j];
      TotalsCover(chunks[..n], results[..n], i);
    }
  }

  /** The months of the last three, filtered to the user's membership and cut into weeks. */
  function MonthChunks(months: seq<DatetimeHelper.Window>, firstDay: int, now: int): (r: seq<seq<DatetimeHelper.Window>>)
    ensures |r| == |DatetimeHelper.FilterMonths(firstDay, months)|
    ensures forall i | 0 <= i < |r| :: r[i] == DatetimeHelper.SplitIntoWeeks(DatetimeHelper.FilterMonths(firstDay, months)[i], now)
  {
    var filtered := DatetimeHelper.FilterMonths(firstDay, months);
    seq(|filtered|, i requires 0 <= i < |filtered| => DatetimeHelper.SplitIntoWeeks(filtered[i], now))
  }

  /** Each week's start is no earlier than the user's first day. */
  lemma MonthChunksAfter(months: seq<DatetimeHelper.Window>, firstDay: int, now: int, i: int)
    requires 0 <= i < |MonthChunks(months, firstDay, now)| && |MonthChunks(months, firstDay, now)[i]| > 0
    ensures MonthChunks(months, firstDay, now)[i][0].start >= firstDay
  {
  }

  /** `[get_month_bounds(i, first_day) for i in range(3)]`: the current month and the two before it. */
  function ThreeMonths(firstDay: Option<int>, year: int, month: int): (r: Result<seq<DatetimeHelper.Window>, Exc>)
    requires DatetimeHelper.MinYear <= year <= DatetimeHelper.MaxYear && 1 <= month <= 12
    ensures r.Success? <==>
      && DatetimeHelper.GetMonthBounds(0, firstDay, year, month).Success?
      && DatetimeHelper.GetMonthBounds(1, firstDay, year, month).Success?
      && DatetimeHelper.GetMonthBounds(2, firstDay, year, month).Success?
    ensures r.Success? ==> r.value == [
      DatetimeHelper.GetMonthBounds(0, firstDay, year, month).value,
      DatetimeHelper.GetMonthBounds(1, firstDay, year, month).value,
      DatetimeHelper.GetMonthBounds(2, firstDay, year, month).value]
  {
    var m0 :- DatetimeHelper.GetMonthBounds(0, firstDay, year, month);
    var m1 :- DatetimeHelper.GetMonthBounds(1, firstDay, year, month);
    var m2 :- DatetimeHelper.GetMonthBounds(2, firstDay, year, month);
    Success([m0, m1, m2])
  }

  /** The joined weekly results of every month. */
  function MonthResults(fetch: DatetimeHelper.Window -> seq<Json>, chunks: seq<seq<DatetimeHelper.Window>>): (r: seq<seq<Json>>)
    ensures |r| == |chunks| && forall i | 0 <= i < |chunks| :: r[i] == PnlResult(fetch, chunks[i])
  {
    seq(|chunks|, i requires 0 <= i < |chunks| => PnlResult(fetch, chunks[i]))
  }

  /**
    `get_three_month_pnl(user)` at the instant `now` in month `(year, month)`: without both
    credentials `{}`. Otherwise the current and two previous months, each starting no
    earlier than the user's first day, the ones ending after it, cut into weeks; each
    month's weekly results are joined, and its profit is stored under its first week's
    start. A user without a first day fails the comparison with a TypeError.
   */
  function ThreeMonthPnl(
    api: Json, secret: Json, firstDay: Option<int>, year: int, month: int, now: int,
    fetch: DatetimeHelper.Window -> seq<Json>): (r: Result<map<int, real>, Exc>)
    requires DatetimeHelper.MinYear <= year <= DatetimeHelper.MaxYear && 1 <= month <= 12
    ensures !(Truthy(api) && Truthy(secret)) ==> r == Success(map[])
    ensures Truthy(api) && Truthy(secret) && firstDay.None? ==> r.Failure?
    ensures r.Success? ==> forall k | k in r.value :: firstDay.Some? && k >= firstDay.value
    ensures Truthy(api) && Truthy(secret) && ThreeMonths(firstDay, year, month).Failure? ==> r.Failure?
    ensures Truthy(api) && Truthy(secret) && firstDay.Some? && ThreeMonths(firstDay, year, month).Success? ==>
      var chunks := MonthChunks(ThreeMonths(firstDay, year, month).value, firstDay.value, now);
      var results := MonthResults(fetch, chunks);
      && r == Totals(chunks, results)
      && (r.Success? ==> forall k | k in r.value :: exists i | 0 <= i < |chunks| :: Entry(chunks, results, i, k, r.value[k]))
  {
    if !(Truthy(api) && Truthy(secret)) then Success(map[])
    else
      var months :- ThreeMonths(firstDay, year, month);
      if firstDay.None? then Failure(TypeError)
      else
        var chunks := MonthChunks(months, firstDay.value, now);
        var results := MonthResults(fetch, chunks);
        var r := Totals(chunks, results);
        assert r.Success? ==> forall k | k in r.value :: exists i | 0 <= i < |chunks| :: Entry(chunks, results, i, k, r.value[k]) by {
          if r.Success? {
            forall k | k in r.value ensures exists i | 0 <= i < |chunks| :: Entry(chunks, results, i, k, r.value[k]) {
              TotalsKeys(chunks, results, k);
            }
          }
        }
        assert r.Success? ==> forall k | k in r.value :: k >= firstDay.value by {
          if r.Success? {
            forall k | k in r.value ensures k >= firstDay.value {
              TotalsKeys(chunks, results, k);
              var i :| 0 <= i < |chunks| && Entry(chunks, results, i, k, r.value[k]);
              MonthChunksAfter(months, firstDay.value, now, i);
            }
          }
        }
        r
  }

  /**
    Every month of the three that ends after the user's first day and has records appears
    under its first week's start with the sum of its profits, unless a later month starts
    at the same instant.
   */
  lemma ThreeMonthPnlCover(
    api: Json, secret: Json, firstDay: int, year: int, month: int, now: int,
    fetch: DatetimeHelper.Window -> seq<Json>, i: int)
    requires DatetimeHelper.MinYear <= year <= DatetimeHelper.MaxYear && 1 <= month <= 12
    requires Truthy(api) && Truthy(secret) && ThreeMonths(Some(firstDay), year, month).Success?
    requires ThreeMonthPnl(api, secret, Some(firstDay), year, month, now, fetch).Success?
    requires
      var chunks := MonthChunks(ThreeMonths(Some(firstDay), year, month).value, firstDay, now);
      var results := MonthResults(fetch, chunks);
      && 0 <= i < |chunks| && Reported(chunks[i], results[i])
      && forall j | i < j < |chunks| && Reported(chunks[j], results[j]) :: chunks[j][0].start != chunks[i][0].start
    ensures
      var chunks := MonthChunks(ThreeMonths(Some(firstDay), year, month).value, firstDay, now);
      var r := ThreeMonthPnl(api, secret, Some(firstDay), year, month, now, fetch).value;
      && chunks[i][0].start in r
      && PnlSum(PnlResult(fetch, chunks[i])) == Success(r[chunks[i][0].start])
  {
    var chunks := MonthChunks(ThreeMonths(Some(firstDay), year, month).value, firstDay, now);
    TotalsCover(chunks, MonthResults(fetch, chunks), i);
  }
}
