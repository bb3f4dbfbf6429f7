/**
  The decisions of a user's trading bot, with every exchange reply passed in as a value:
  the balance gate, the position checks, picking an order out of the order list, finding
  the local legs the exchange no longer holds and removing them, recording a filled order
  as a leg, and the arithmetic of the entry and hedge orders.
 */
module UserTrade {
  import opened Wrappers
  import opened Json
  import TradeUtils
  import Orders
  import ODict
  import Text

  /** A dict's fields; anything else has none. */
  function Fields(v: Json): map<string, Json> {
    if v.Obj? then v.fields else map[]
  }

  /** `1e-9`, added to the total before dividing. */
  const Epsilon: real := 0.000000001

  /** The share of the margin balance that must be available. */
  const BalanceRatio: real := 0.45

  /** The two readings of the balance dict, with `get`'s defaults. */
  function Available(fields: map<string, Json>): Json {
    Orders.GetOr(fields, "totalAvailableBalance", Int(0))
  }

  function Total(fields: map<string, Json>): Json {
    Orders.GetOr(fields, "totalMarginBalance", Int(1))
  }

  /** Both readings convert, the divisor is not zero and the ratio exceeds 0.45. */
  predicate Passes(fields: map<string, Json>) {
    && PyFloat(Available(fields)).Success? && PyFloat(Total(fields)).Success?
    && PyFloat(Total(fields)).value + Epsilon != 0.0
    && PyFloat(Available(fields)).value / (PyFloat(Total(fields)).value + Epsilon) > BalanceRatio
  }

  /**
    `have_balance()`: a non-empty dict passes when the available balance (default 0) over
    the margin balance (default 1) plus 1e-9 exceeds 0.45; anything else fails. `float()`
    of a stored value may raise, and a total of exactly -1e-9 divides by zero.
   */
  function HaveBalance(balance: Json): (r: Result<bool, Exc>)
    ensures !TradeUtils.ProofResult(balance, TradeUtils.DictType) ==> r == Success(false)
    ensures r == Success(true) <==> TradeUtils.ProofResult(balance, TradeUtils.DictType) && Passes(balance.fields)
    ensures r.Failure? ==> r.error in {ValueError, TypeError, ZeroDivisionError}
  {
    if !TradeUtils.ProofResult(balance, TradeUtils.DictType) then Success(false)
    else
      var available :- PyFloat(Available(balance.fields));
      var total :- PyFloat(Total(balance.fields));
      if total + Epsilon == 0.0 then Failure(ZeroDivisionError)
      else Success(available / (total + Epsilon) > BalanceRatio)
  }

  /** With no margin balance reported the total counts as 1, so the gate is `available > 0.45 * (1 + 1e-9)`. */
  lemma HaveBalanceDefaultTotal(fields: map<string, Json>, available: real)
    requires "totalMarginBalance" !in fields
    requires "totalAvailableBalance" in fields && fields["totalAvailableBalance"] == Num(available)
    ensures HaveBalance(Obj(fields)) == Success(available > BalanceRatio * (1.0 + Epsilon))
  {
    assert TradeUtils.ProofResult(Obj(fields), TradeUtils.DictType);
    assert available / (1.0 + Epsilon) > BalanceRatio <==> available > BalanceRatio * (1.0 + Epsilon);
  }

  /** More available balance never turns a pass into a fail. */
  lemma HaveBalanceMonotone(fields: map<string, Json>, a: real, b: real, total: real)
    requires "totalMarginBalance" in fields && fields["totalMarginBalance"] == Num(total) && total + Epsilon > 0.0
    requires a <= b
    ensures HaveBalance(Obj(fields["totalAvailableBalance" := Num(a)])) == Success(true) ==>
      HaveBalance(Obj(fields["totalAvailableBalance" := Num(b)])) == Success(true)
  {
    var fa := fields["totalAvailableBalance" := Num(a)];
    var fb := fields["totalAvailableBalance" := Num(b)];
    assert TradeUtils.ProofResult(Obj(fa), TradeUtils.DictType) && TradeUtils.ProofResult(Obj(fb), TradeUtils.DictType);
    assert fa["totalMarginBalance"] == Num(total) && fb["totalMarginBalance"] == Num(total);
    assert a / (total + Epsilon) <= b / (total + Epsilon);
  }

  /** The size of one position, `float(position.get('size', 0))`; only a dict has `get`. */
  function SizeOf(position: Json): Result<real, Exc> {
    if position.Obj? then PyFloat(Orders.GetOr(position.fields, "size", Int(0))) else Failure(AttributeError)
  }

  /** The sizes of every position in order; the first failure is raised. */
  function Sizes(items: seq<Json>): (r: Result<seq<real>, Exc>)
    ensures r.Success? <==> forall i | 0 <= i < |items| :: SizeOf(items[i]).Success?
    ensures r.Success? ==> |r.value| == |items| && forall i | 0 <= i < |items| :: r.value[i] == SizeOf(items[i]).value
  {
    if |items| == 0 then Success([])
    else
      var size :- SizeOf(items[0]);
      var rest :- Sizes(items[1..]);
      assert forall i | 1 <= i < |items| :: items[i] == items[1..][i - 1];
      Success([size] + rest)
  }

  /** Python `all(sizes)`. */
  predicate AllNonZero(sizes: seq<real>) {
    forall i | 0 <= i < |sizes| :: sizes[i] != 0.0
  }

  /** Python `any(sizes)`. */
  predicate AnyNonZero(sizes: seq<real>) {
    exists i | 0 <= i < |sizes| :: sizes[i] != 0.0
  }

  /**
    `have_both_side_position(coin)`: true when there are exactly two positions, both with a
    non-zero size; a reply that is not a non-empty list counts as true.
   */
  function HaveBothSide(positions: Json): (r: Result<bool, Exc>)
    ensures !TradeUtils.ProofResult(positions, TradeUtils.ListType) ==> r == Success(true)
    ensures TradeUtils.ProofResult(positions, TradeUtils.ListType) ==>
      (r.Success? <==> Sizes(positions.items).Success?)
    ensures TradeUtils.ProofResult(positions, TradeUtils.ListType) && r.Success? ==>
      (r.value <==> |positions.items| == 2 && AllNonZero(Sizes(positions.items).value))
  {
    if !TradeUtils.ProofResult(positions, TradeUtils.ListType) then Success(true)
    else
      var sizes :- Sizes(positions.items);
      Success(|sizes| == 2 && AllNonZero(sizes))
  }

  /**
    `coin_in_trade(coin)`: true when any position has a non-zero size; a reply that is not
    a non-empty list counts as true.
   */
  function CoinInTrade(positions: Json): (r: Result<bool, Exc>)
    ensures !TradeUtils.ProofResult(positions, TradeUtils.ListType) ==> r == Success(true)
    ensures TradeUtils.ProofResult(positions, TradeUtils.ListType) ==>
      (r.Success? <==> Sizes(positions.items).Success?)
    ensures TradeUtils.ProofResult(positions, TradeUtils.ListType) && r.Success? ==>
      (r.value <==> AnyNonZero(Sizes(positions.items).value))
  {
    if !TradeUtils.ProofResult(positions, TradeUtils.ListType) then Success(true)
    else
      var sizes :- Sizes(positions.items);
      Success(AnyNonZero(sizes))
  }

  /** Both sides open means the coin is in trade. */
  lemma BothSidesInTrade(positions: Json)
    requires HaveBothSide(positions) == Success(true)
    ensures CoinInTrade(positions) == Success(true)
  {
    if TradeUtils.ProofResult(positions, TradeUtils.ListType) {
      var sizes := Sizes(positions.items).value;
      assert sizes[0] != 0.0;
    }
  }

  /** A coin is in trade exactly when some position has a non-zero size. */
  lemma CoinInTradeSizes(positions: seq<Json>, i: nat)
    requires |positions| > 0 && i < |positions| && forall j | 0 <= j < |positions| :: SizeOf(positions[j]).Success?
    requires SizeOf(positions[i]).value != 0.0
    ensures CoinInTrade(Arr(positions)) == Success(true)
  {
    assert Sizes(positions).value[i] != 0.0;
  }

  // ---------------------------------------------------------------- data frames

  /**
    A cell of a data frame built from a list of dicts: the dict's value, or NaN where the
    dict lacks a column that another dict of the list carries. NaN is truthy and equal to
    nothing, itself included.
   */
  datatype Cell = Val(v: Json) | NaN

  /** Python `c == x` between a cell and a value: NaN equals nothing. */
  predicate CellIs(c: Cell, x: Json) {
    c.Val? && PyEq(c.v, x)
  }

  /** Python `a != b` between two cells: a NaN on either side always differs. */
  predicate CellsDiffer(a: Cell, b: Cell) {
    !(a.Val? && b.Val? && PyEq(a.v, b.v))
  }

  /** The frame's columns: every key that some dict of the list carries. */
  function Columns(items: seq<Json>): set<string>
    decreases |items|
  {
    if |items| == 0 then {} else Fields(items[0]).Keys + Columns(items[1..])
  }

  /** A key is a column of the frame exactly when some dict of the list carries it. */
  lemma {:induction false} ColumnsCarried(items: seq<Json>, k: string)
    ensures k in Columns(items) <==> exists i | 0 <= i < |items| :: k in Fields(items[i])
    decreases |items|
  {
    if |items| > 0 {
      ColumnsCarried(items[1..], k);
      if k in Columns(items[1..]) {
        var j :| 0 <= j < |items[1..]| && k in Fields(items[1..][j]);
        assert k in Fields(items[j + 1]);
      }
      if exists i | 0 <= i < |items| :: k in Fields(items[i]) {
        var i :| 0 <= i < |items| && k in Fields(items[i]);
        if i > 0 {
          assert items[i] == items[1..][i - 1];
        }
      }
    }
  }

  /** One dict as a row of the frame: every column, NaN where the dict lacks it. */
  function Row(item: Json, columns: set<string>): (r: map<string, Cell>)
    ensures r.Keys == columns
    ensures forall k | k in columns && k in Fields(item) :: r[k] == Val(Fields(item)[k])
    ensures forall k | k in columns && k !in Fields(item) :: r[k] == NaN
  {
    map k | k in columns :: if k in Fields(item) then Val(Fields(item)[k]) else NaN
  }

  /** `pd.DataFrame(items).to_dict('records')`: the rows of the frame, in order. */
  function Records(items: seq<Json>): (r: seq<map<string, Cell>>)
    ensures |r| == |items| && forall i | 0 <= i < |items| :: r[i] == Row(items[i], Columns(items))
    ensures forall i | 0 <= i < |items| :: r[i].Keys == Columns(items)
  {
    seq(|items|, i requires 0 <= i < |items| => Row(items[i], Columns(items)))
  }

  // ---------------------------------------------------------------- get_order

  /** `df['orderId'] == orderId`, or `.isin(orderId)` for a list. */
  predicate IdMatches(rec: map<string, Cell>, orderId: Json) {
    "orderId" in rec &&
    if orderId.Arr? then exists k | 0 <= k < |orderId.items| :: CellIs(rec["orderId"], orderId.items[k])
    else CellIs(rec["orderId"], orderId)
  }

  /** The side filter: a take-profit or stop-loss order whose side differs from `side`. */
  predicate OppositeTpSl(rec: map<string, Cell>, side: Cell) {
    && "side" in rec && CellsDiffer(rec["side"], side)
    && "stopOrderType" in rec
    && (rec["stopOrderType"] == Val(Str("TakeProfit")) || rec["stopOrderType"] == Val(Str("StopLoss")))
  }

  /** The default `side=''`, which turns the side filter off. */
  const NoSide: Cell := Val(Str(""))

  /** A record both filters of `get_order` keep. */
  predicate Selected(rec: map<string, Cell>, orderId: Json, side: Cell) {
    (!Truthy(orderId) || IdMatches(rec, orderId)) && (side == NoSide || OppositeTpSl(rec, side))
  }

  /** The first selected record, or `{}`. */
  function FirstSelected(recs: seq<map<string, Cell>>, orderId: Json, side: Cell): (r: map<string, Cell>)
    ensures (exists i | 0 <= i < |recs| :: Selected(recs[i], orderId, side)) ==>
      exists i | 0 <= i < |recs| :: Selected(recs[i], orderId, side) && r == recs[i] &&
        forall j | 0 <= j < i :: !Selected(recs[j], orderId, side)
    ensures (forall i | 0 <= i < |recs| :: !Selected(recs[i], orderId, side)) ==> r == map[]
  {
    if |recs| == 0 then map[]
    else if Selected(recs[0], orderId, side) then recs[0]
    else
      var r := FirstSelected(recs[1..], orderId, side);
      assert forall i | 1 <= i < |recs| :: recs[i] == recs[1..][i - 1];
      assert (exists i | 0 <= i < |recs| :: Selected(recs[i], orderId, side)) ==>
        exists i | 0 <= i < |recs[1..]| :: Selected(recs[1..][i], orderId, side) by {
        if exists i | 0 <= i < |recs| :: Selected(recs[i], orderId, side) {
          var i :| 0 <= i < |recs| && Selected(recs[i], orderId, side);
          assert i > 0 && Selected(recs[1..][i - 1], orderId, side);
        }
      }
      assert (exists i | 0 <= i < |recs[1..]| :: Selected(recs[1..][i], orderId, side)) ==>
        exists i | 0 <= i < |recs| :: Selected(recs[i], orderId, side) && r == recs[i] &&
          forall j | 0 <= j < i :: !Selected(recs[j], orderId, side) by {
        if exists i | 0 <= i < |recs[1..]| :: Selected(recs[1..][i], orderId, side) {
          var i :| 0 <= i < |recs[1..]| && Selected(recs[1..][i], orderId, side) && r == recs[1..][i] &&
            forall j | 0 <= j < i :: !Selected(recs[1..][j], orderId, side);
          assert Selected(recs[i + 1], orderId, side) && r == recs[i + 1];
          forall j | 0 <= j < i + 1 ensures !Selected(recs[j], orderId, side) {
            if j > 0 {
              assert recs[j] == recs[1..][j - 1];
            }
          }
        }
      }
      r
  }

  /**
    `get_order(coin, orderId, history, side)` on the order list the exchange returned:
    anything but a non-empty list gives `{}`; a truthy `orderId` keeps the orders with
    that id (or one of those ids), a side other than `''` keeps the take-profit and
    stop-loss orders of another side, and the first order left is returned as a row of the
    frame, or `{}`. Filtering on a column that no order carries is a KeyError.
   */
  function GetOrder(orders: Json, orderId: Json, side: Cell): (r: Result<map<string, Cell>, Exc>)
    ensures !orders.Arr? || |orders.items| == 0 ==> r == Success(map[])
    ensures r.Failure? ==> r.error == KeyError
    ensures r.Success? && r.value != map[] ==> exists i | 0 <= i < |orders.items| ::
      r.value == Row(orders.items[i], Columns(orders.items)) && Selected(r.value, orderId, side)
    ensures orders.Arr? && |orders.items| > 0 ==>
      var columns := Columns(orders.items);
      && (r.Failure? <==>
            || (Truthy(orderId) && "orderId" !in columns)
            || (side != NoSide && ("side" !in columns || "stopOrderType" !in columns)))
      && (r.Success? ==> r.value == FirstSelected(Records(orders.items), orderId, side))
  {
    if !orders.Arr? || |orders.items| == 0 then Success(map[])
    else
      var columns := Columns(orders.items);
      if Truthy(orderId) && "orderId" !in columns then Failure(KeyError)
      else if side != NoSide && ("side" !in columns || "stopOrderType" !in columns) then Failure(KeyError)
      else Success(FirstSelected(Records(orders.items), orderId, side))
  }

  /** Looking an order up by its own id finds its row when it is the first with that id. */
  lemma GetOrderById(orders: seq<Json>, i: nat, id: string)
    requires i < |orders| && orders[i].Obj? && "orderId" in orders[i].fields && orders[i].fields["orderId"] == Str(id)
    requires id != ""
    requires forall j | 0 <= j < i :: !IdMatches(Records(orders)[j], Str(id))
    ensures GetOrder(Arr(orders), Str(id), NoSide) == Success(Row(orders[i], Columns(orders)))
  {
    var recs := Records(orders);
    ColumnsCarried(orders, "orderId");
    assert recs[i]["orderId"] == Val(Str(id));
    PyEqReflexive(Str(id));
    assert Selected(recs[i], Str(id), NoSide);
    var r := FirstSelected(recs, Str(id), NoSide);
    assert GetOrder(Arr(orders), Str(id), NoSide) == Success(r);
    var k :| 0 <= k < |recs| && Selected(recs[k], Str(id), NoSide) && r == recs[k] &&
      forall j | 0 <= j < k :: !Selected(recs[j], Str(id), NoSide);
    assert k == i;
  }

  /** Two history orders, the first without a status. */
  const UnstatusedOrder: Json := Obj(map["orderId" := Str("1"), "side" := Str("Buy")])
  const FilledOrder: Json := Obj(map["orderId" := Str("2"), "side" := Str("Sell"), "orderStatus" := Str("Filled")])

  /**
    An order without a status, listed next to one that has it, is found with a NaN status,
    which is not `'Cancelled'`.
   */
  lemma GetOrderNaNStatus()
    ensures GetOrder(Arr([UnstatusedOrder, FilledOrder]), Str("1"), NoSide)
      == Success(map["orderId" := Val(Str("1")), "side" := Val(Str("Buy")), "orderStatus" := NaN])
  {
    var a, b := UnstatusedOrder, FilledOrder;
    assert [a, b][1..] == [b] && [b][1..] == [];
    assert Columns([b]) == b.fields.Keys + Columns([]);
    assert Columns([a, b]) == a.fields.Keys + Columns([b]);
    var columns := Columns([a, b]);
    assert columns == {"orderId", "side", "orderStatus"};
    var row := map["orderId" := Val(Str("1")), "side" := Val(Str("Buy")), "orderStatus" := NaN];
    assert Row(a, columns).Keys == row.Keys;
    assert Row(a, columns) == row;
    assert Records([a, b])[0] == row;
    assert Selected(row, Str("1"), NoSide);
  }

  // ---------------------------------------------------------------- get_position_due_side

  /**
    `get_position_due_side(coin, side)`: every position's side is read (a position
    without one is a KeyError, a non-dict a TypeError), and the first whose side equals
    `side` is returned, or `{}`. A NaN side equals none.
   */
  function PositionDueSide(positions: seq<Json>, side: Cell): (r: Result<map<string, Json>, Exc>)
    ensures r.Success? <==> Sided(positions)
    ensures r.Success? && r.value != map[] ==> exists i | 0 <= i < |positions| ::
      r.value == positions[i].fields && CellIs(side, positions[i].fields["side"])
    ensures r.Success? ==> r.value == FirstOnSide(positions, side)
  {
    if |positions| == 0 then Success(map[])
    else if !positions[0].Obj? then Failure(TypeError)
    else if "side" !in positions[0].fields then Failure(KeyError)
    else
      var rest :- PositionDueSide(positions[1..], side);
      assert forall i | 1 <= i < |positions| :: positions[i] == positions[1..][i - 1];
      if CellIs(side, positions[0].fields["side"]) then Success(positions[0].fields) else Success(rest)
  }

  /** Every position is a dict with a side. */
  predicate Sided(positions: seq<Json>) {
    forall i | 0 <= i < |positions| :: positions[i].Obj? && "side" in positions[i].fields
  }

  /** The first position whose side equals `side`, or `{}` when there is none. */
  function FirstOnSide(positions: seq<Json>, side: Cell): (r: map<string, Json>)
    requires Sided(positions)
    ensures r == map[] <==> forall i | 0 <= i < |positions| :: !CellIs(side, positions[i].fields["side"])
    ensures r != map[] ==> exists i | 0 <= i < |positions| ::
      && r == positions[i].fields && CellIs(side, positions[i].fields["side"])
      && forall j | 0 <= j < i :: !CellIs(side, positions[j].fields["side"])
  {
    if |positions| == 0 then map[]
    else if CellIs(side, positions[0].fields["side"]) then
      assert "side" in positions[0].fields;
      positions[0].fields
    else
      assert forall i | 1 <= i < |positions| :: positions[i] == positions[1..][i - 1];
      var r := FirstOnSide(positions[1..], side);
      assert r != map[] ==> exists i | 0 <= i < |positions| ::
        && r == positions[i].fields && CellIs(side, positions[i].fields["side"])
        && forall j | 0 <= j < i :: !CellIs(side, positions[j].fields["side"]) by {
        if r != map[] {
          var i :| 0 <= i < |positions[1..]| && r == positions[1..][i].fields && CellIs(side, positions[1..][i].fields["side"])
            && forall j | 0 <= j < i :: !CellIs(side, positions[1..][j].fields["side"]);
          assert positions[i + 1] == positions[1..][i];
          forall j | 0 <= j < i + 1 ensures !CellIs(side, positions[j].fields["side"]) {
            if j > 0 {
              assert positions[j] == positions[1..][j - 1];
            }
          }
        }
      }
      r
  }

  /** A NaN side finds no position. */
  lemma NaNSideFindsNone(positions: seq<Json>)
    requires Sided(positions)
    ensures PositionDueSide(positions, NaN) == Success(map[])
  {
  }

  // ---------------------------------------------------------------- after_fetch_coin

  /** What `after_fetch_coin` did: the manager after it and the record and order id it stored, if any. */
  datatype Recorded = Recorded(state: Orders.Manager, leg: Option<(map<string, Json>, Json)>)

  /**
    `after_fetch_coin(coin, order, is_hedge)`, with the exchange's history orders, open
    orders and positions passed in. The placed order is looked up by id; nothing is
    recorded when it is missing or cancelled, when no take-profit or stop-loss order of
    another side is open, or when no position of the order's side exists. Otherwise the
    position becomes the secondary leg for a hedge, else the main leg, with the open
    order's id. Every exception is caught, and a leg already written stays written.
   */
  function AfterFetchCoin(
    m: Orders.Manager, order: map<string, Json>, history: Json, open: Json, positions: Json,
    isHedge: bool, hedgePercentage: real): (r: Recorded)
    ensures r.leg.None? ==> r.state == m
    ensures r.leg.Some? && isHedge ==> r.state == Orders.SetSecondary(m, r.leg.value.0, r.leg.value.1).state
    ensures r.leg.Some? && !isHedge ==> r.state == Orders.SetMain(m, r.leg.value.0, r.leg.value.1, hedgePercentage).state
    ensures "orderId" !in order ==> r.leg.None?
    ensures "orderId" in order && GetOrder(history, order["orderId"], NoSide) == Success(map[]) ==> r.leg.None?
    ensures r.leg.Some? ==> r.leg.value.0 != map[] && positions.Arr? && Sided(positions.items)
    ensures "orderId" in order && GetOrder(history, order["orderId"], NoSide).Success? ==>
      var entry := GetOrder(history, order["orderId"], NoSide).value;
      && ("orderStatus" in entry && entry["orderStatus"] == Val(Str("Cancelled")) ==> r.leg.None?)
      && ("side" in entry && GetOrder(open, Null, entry["side"]) == Success(map[]) ==> r.leg.None?)
      && ("side" in entry && positions.Arr? && PositionDueSide(positions.items, entry["side"]) == Success(map[]) ==> r.leg.None?)
    ensures "orderId" in order && GetOrder(history, order["orderId"], NoSide).Success? ==>
      var entry := GetOrder(history, order["orderId"], NoSide).value;
      "orderStatus" in entry && entry["orderStatus"] != Val(Str("Cancelled")) && "side" in entry &&
      GetOrder(open, Null, entry["side"]).Success? && "orderId" in GetOrder(open, Null, entry["side"]).value &&
      GetOrder(open, Null, entry["side"]).value["orderId"].Val? &&
      positions.Arr? && PositionDueSide(positions.items, entry["side"]).Success? &&
      PositionDueSide(positions.items, entry["side"]).value != map[] ==>
        r.leg == Some((PositionDueSide(positions.items, entry["side"]).value, GetOrder(open, Null, entry["side"]).value["orderId"].v))
  {
    if "orderId" !in order then Recorded(m, None)
    else
      match GetOrder(history, order["orderId"], NoSide)
      case Failure(_) => Recorded(m, None)
      case Success(entry) =>
        if entry == map[] || "orderStatus" !in entry || entry["orderStatus"] == Val(Str("Cancelled")) || "side" !in entry then
          Recorded(m, None)
        else
          var side := entry["side"];
          match GetOrder(open, Null, side)
          case Failure(_) => Recorded(m, None)
          case Success(recent) =>
            if recent == map[] || !positions.Arr? then Recorded(m, None)
            else
              match PositionDueSide(positions.items, side)
              case Failure(_) => Recorded(m, None)
              case Success(position) =>
                if position == map[] || "orderId" !in recent || recent["orderId"].NaN? then Recorded(m, None)
                else if isHedge then
                  Recorded(Orders.SetSecondary(m, position, recent["orderId"].v).state, Some((position, recent["orderId"].v)))
                else
                  Recorded(Orders.SetMain(m, position, recent["orderId"].v, hedgePercentage).state, Some((position, recent["orderId"].v)))
  }

  /** An open take-profit order on the sell side, and a position on the buy side. */
  const OpenTakeProfit: Json := Obj(map["orderId" := Str("9"), "side" := Str("Sell"), "stopOrderType" := Str("TakeProfit")])
  const BuyPosition: Json := Obj(map["symbol" := Str("A"), "side" := Str("Buy")])

  /** The placed order of the example is found, with a NaN status. */
  lemma FoundWithNaNStatus(order: map<string, Json>, history: Json) returns (entry: map<string, Cell>)
    requires order == map["orderId" := Str("1")] && history == Arr([UnstatusedOrder, FilledOrder])
    ensures "orderId" in order && GetOrder(history, order["orderId"], NoSide) == Success(entry)
    ensures entry == map["orderId" := Val(Str("1")), "side" := Val(Str("Buy")), "orderStatus" := NaN]
    ensures "orderStatus" in entry && entry["orderStatus"] != Val(Str("Cancelled"))
    ensures "side" in entry && entry["side"] == Val(Str("Buy"))
  {
    GetOrderNaNStatus();
    entry := map["orderId" := Val(Str("1")), "side" := Val(Str("Buy")), "orderStatus" := NaN];
  }

  /** Looking for the open orders of the other side than buy finds the take-profit order. */
  lemma OpenTakeProfitFound(open: Json, side: Cell) returns (recent: map<string, Cell>)
    requires open == Arr([OpenTakeProfit]) && side == Val(Str("Buy"))
    ensures GetOrder(open, Null, side) == Success(recent)
    ensures recent == map["orderId" := Val(Str("9")), "side" := Val(Str("Sell")), "stopOrderType" := Val(Str("TakeProfit"))]
    ensures "orderId" in recent && recent["orderId"] == Val(Str("9"))
  {
    assert [OpenTakeProfit][1..] == [];
    var columns := Columns([OpenTakeProfit]);
    assert columns == OpenTakeProfit.fields.Keys + Columns([]);
    recent := map["orderId" := Val(Str("9")), "side" := Val(Str("Sell")), "stopOrderType" := Val(Str("TakeProfit"))];
    assert Row(OpenTakeProfit, columns).Keys == recent.Keys;
    assert Row(OpenTakeProfit, columns) == recent;
    assert Records([OpenTakeProfit])[0] == recent;
    assert Selected(recent, Null, Val(Str("Buy")));
  }

  /** The buy-side position is the one found for the buy side. */
  lemma BuyPositionFound(positions: Json, side: Cell)
    requires positions == Arr([BuyPosition]) && side == Val(Str("Buy"))
    ensures positions.Arr? && PositionDueSide(positions.items, side) == Success(BuyPosition.fields)
    ensures BuyPosition.fields != map[]
  {
    PyEqReflexive(Str("Buy"));
  }

  /** A placed order found with a NaN status is not taken as cancelled: its fill is recorded. */
  lemma AfterFetchCoinNaNStatus(
    m: Orders.Manager, order: map<string, Json>, history: Json, open: Json, positions: Json, hedgePercentage: real)
    requires order == map["orderId" := Str("1")] && history == Arr([UnstatusedOrder, FilledOrder])
    requires open == Arr([OpenTakeProfit]) && positions == Arr([BuyPosition])
    ensures AfterFetchCoin(m, order, history, open, positions, false, hedgePercentage).leg == Some((BuyPosition.fields, Str("9")))
  {
    var entry := FoundWithNaNStatus(order, history);
    var recent := OpenTakeProfitFound(open, entry["side"]);
    BuyPositionFound(positions, entry["side"]);
    RecordsWhenFound(m, order, history, open, positions, hedgePercentage, entry, recent, BuyPosition.fields);
  }

  /** A found, uncancelled order with an open opposite order and a position on its side is recorded as main leg. */
  lemma RecordsWhenFound(
    m: Orders.Manager, order: map<string, Json>, history: Json, open: Json, positions: Json, hedgePercentage: real,
    entry: map<string, Cell>, recent: map<string, Cell>, position: map<string, Json>)
    requires "orderId" in order && GetOrder(history, order["orderId"], NoSide) == Success(entry)
    requires "orderStatus" in entry && entry["orderStatus"] != Val(Str("Cancelled")) && "side" in entry
    requires GetOrder(open, Null, entry["side"]) == Success(recent) && "orderId" in recent && recent["orderId"].Val?
    requires positions.Arr? && PositionDueSide(positions.items, entry["side"]) == Success(position) && position != map[]
    ensures AfterFetchCoin(m, order, history, open, positions, false, hedgePercentage).leg == Some((position, recent["orderId"].v))
  {
  }

  /** Recording a filled order keeps the hedge manager valid. */
  lemma AfterFetchCoinValid(
    m: Orders.Manager, order: map<string, Json>, history: Json, open: Json, positions: Json,
    isHedge: bool, hedgePercentage: real)
    requires Orders.Valid(m)
    ensures Orders.Valid(AfterFetchCoin(m, order, history, open, positions, isHedge, hedgePercentage).state)
  {
    var r := AfterFetchCoin(m, order, history, open, positions, isHedge, hedgePercentage);
    if r.leg.Some? {
      if isHedge {
        Orders.SetSecondaryValid(m, r.leg.value.0, r.leg.value.1);
      } else {
        Orders.SetMainValid(m, r.leg.value.0, r.leg.value.1, hedgePercentage);
      }
    }
  }

  /** A hedge fill never touches a main leg. */
  lemma AfterHedgeKeepsMain(
    m: Orders.Manager, order: map<string, Json>, history: Json, open: Json, positions: Json,
    hedgePercentage: real, coin: Option<string>)
    ensures Orders.GetMain(AfterFetchCoin(m, order, history, open, positions, true, hedgePercentage).state, coin) ==
      Orders.GetMain(m, coin)
  {
    var r := AfterFetchCoin(m, order, history, open, positions, true, hedgePercentage);
    if r.leg.Some? {
      Orders.SetSecondaryKeepsMain(m, r.leg.value.0, r.leg.value.1, coin);
    }
  }

  // ---------------------------------------------------------------- get_delete_positions

  /** The frame has the four exchange columns `get_delete_positions` selects. */
  predicate KeyColumns(columns: set<string>) {
    "symbol" in columns && "size" in columns && "avgPrice" in columns && "positionIdx" in columns
  }

  /** The exchange's key of a position after the column casts; a NaN part equals nothing. */
  datatype Key = Key(symbol: Cell, size: Cell, entryPrice: Cell, idx: int)

  /** `int(v)` as a column cast: a float is truncated, a string must be a sign and ASCII digits. */
  function PyInt(v: Json): (r: Result<int, Exc>)
    ensures v.Int? ==> r == Success(v.i)
    ensures r.Failure? ==> r.error == ValueError || r.error == TypeError
  {
    match v
    case Bool(b) => Success(if b then 1 else 0)
    case Int(i) => Success(i)
    case Num(x) => Success(TradeUtils.Trunc(x))
    case Str(s) =>
      (match Text.ParseInt(s)
       case Some(i) => Success(i)
       case None => Failure(ValueError))
    case _ => Failure(TypeError)
  }

  /** `astype(float)` of one cell: NaN and None become NaN, anything else goes through `float()`. */
  function FloatCell(c: Cell): (r: Result<Cell, Exc>)
    ensures c.NaN? || c == Val(Null) ==> r == Success(NaN)
    ensures c.Val? && c.v != Null ==> (r.Success? <==> PyFloat(c.v).Success?)
    ensures r.Success? && r.value.Val? ==> c.Val? && r.value == Val(Num(PyFloat(c.v).value))
    ensures r.Failure? ==> r.error == ValueError || r.error == TypeError
  {
    if c.NaN? || c == Val(Null) then Success(NaN)
    else
      var x :- PyFloat(c.v);
      Success(Val(Num(x)))
  }

  /** `astype(int)` of one cell: NaN has no integer value. */
  function IntCell(c: Cell): (r: Result<int, Exc>)
    ensures c.NaN? ==> r == Failure(ValueError)
    ensures c.Val? ==> r == PyInt(c.v)
    ensures r.Failure? ==> r.error == ValueError || r.error == TypeError
  {
    if c.NaN? then Failure(ValueError) else PyInt(c.v)
  }

  /** One column cast cell by cell from the top; the first failing cell's exception is raised. */
  function CastColumn<T>(rows: seq<map<string, Cell>>, column: string, cast: Cell -> Result<T, Exc>): (r: Result<seq<T>, Exc>)
    requires forall i | 0 <= i < |rows| :: column in rows[i]
    ensures r.Success? <==> forall i | 0 <= i < |rows| :: cast(rows[i][column]).Success?
    ensures r.Success? ==> |r.value| == |rows| && forall i | 0 <= i < |rows| :: cast(rows[i][column]) == Success(r.value[i])
    ensures r.Failure? ==> exists i | 0 <= i < |rows| :: cast(rows[i][column]) == Failure(r.error)
    decreases |rows|
  {
    if |rows| == 0 then Success([])
    else
      var x :- cast(rows[0][column]);
      var rest :- CastColumn(rows[1..], column, cast);
      assert forall i | 1 <= i < |rows| :: rows[i] == rows[1..][i - 1];
      Success([x] + rest)
  }

  /** The key of one row on its own: its symbol and the three casts of its other cells. */
  function KeyOf(row: map<string, Cell>): (r: Result<Key, Exc>)
    requires KeyColumns(row.Keys)
    ensures r.Success? <==> FloatCell(row["size"]).Success? && FloatCell(row["avgPrice"]).Success? && IntCell(row["positionIdx"]).Success?
    ensures r.Success? ==>
      && r.value.symbol == row["symbol"] && Success(r.value.size) == FloatCell(row["size"])
      && Success(r.value.entryPrice) == FloatCell(row["avgPrice"]) && Success(r.value.idx) == IntCell(row["positionIdx"])
  {
    var size :- FloatCell(row["size"]);
    var entry :- FloatCell(row["avgPrice"]);
    var idx :- IntCell(row["positionIdx"]);
    Success(Key(row["symbol"], size, entry, idx))
  }

  /**
    The keys of the exchange's positions as a frame: selecting a column no position
    carries is a KeyError; then `astype` casts the size column, the entry price column and
    the index column in turn. The keys are read exactly when every row's key is, one per
    row in order.
   */
  function KeysOf(items: seq<Json>): (r: Result<seq<Key>, Exc>)
    ensures r.Failure? ==> r.error in {KeyError, ValueError, TypeError}
    ensures r == Failure(KeyError) <==> !KeyColumns(Columns(items))
    ensures r.Success? <==> KeyColumns(Columns(items)) && forall i | 0 <= i < |items| :: KeyOf(Records(items)[i]).Success?
    ensures r.Success? ==> |r.value| == |items| && forall i | 0 <= i < |items| :: KeyOf(Records(items)[i]) == Success(r.value[i])
  {
    if !KeyColumns(Columns(items)) then Failure(KeyError)
    else
      var rows := Records(items);
      var sizes :- CastColumn(rows, "size", FloatCell);
      var prices :- CastColumn(rows, "avgPrice", FloatCell);
      var idxs :- CastColumn(rows, "positionIdx", IntCell);
      Success(seq(|rows|, i requires 0 <= i < |rows| => Key(rows[i]["symbol"], sizes[i], prices[i], idxs[i])))
  }

  /** Two exchange positions, the second without a size. */
  const SizedPosition: Json := Obj(map["symbol" := Str("A"), "size" := Int(1), "avgPrice" := Int(2), "positionIdx" := Int(1)])
  const UnsizedPosition: Json := Obj(map["symbol" := Str("B"), "avgPrice" := Int(3), "positionIdx" := Int(2)])

  /** In their frame the second position's size is NaN. */
  lemma RecordsMissingSize(items: seq<Json>)
    requires items == [SizedPosition, UnsizedPosition]
    ensures Records(items) == [
      map["symbol" := Val(Str("A")), "size" := Val(Int(1)), "avgPrice" := Val(Int(2)), "positionIdx" := Val(Int(1))],
      map["symbol" := Val(Str("B")), "size" := NaN, "avgPrice" := Val(Int(3)), "positionIdx" := Val(Int(2))]]
  {
    var a, b := SizedPosition, UnsizedPosition;
    assert [a, b][1..] == [b] && [b][1..] == [];
    assert Columns([b]) == b.fields.Keys + Columns([]);
    assert Columns([a, b]) == a.fields.Keys + Columns([b]);
    var columns := Columns([a, b]);
    assert columns == {"symbol", "size", "avgPrice", "positionIdx"};
    var ra := map["symbol" := Val(Str("A")), "size" := Val(Int(1)), "avgPrice" := Val(Int(2)), "positionIdx" := Val(Int(1))];
    var rb := map["symbol" := Val(Str("B")), "size" := NaN, "avgPrice" := Val(Int(3)), "positionIdx" := Val(Int(2))];
    assert Row(a, columns).Keys == ra.Keys && Row(b, columns).Keys == rb.Keys;
    assert Row(a, columns) == ra;
    assert Row(b, columns) == rb;
    assert Records(items)[0] == ra && Records(items)[1] == rb;
  }

  /** The keys of the two rows on their own. */
  lemma MissingSizeKeys()
    ensures KeyOf(map["symbol" := Val(Str("A")), "size" := Val(Int(1)), "avgPrice" := Val(Int(2)), "positionIdx" := Val(Int(1))])
      == Success(Key(Val(Str("A")), Val(Num(1.0)), Val(Num(2.0)), 1))
    ensures KeyOf(map["symbol" := Val(Str("B")), "size" := NaN, "avgPrice" := Val(Int(3)), "positionIdx" := Val(Int(2))])
      == Success(Key(Val(Str("B")), NaN, Val(Num(3.0)), 2))
  {
  }

  /** A position lacking its size while another carries one is read with a NaN size, and the comparison goes on. */
  lemma KeysOfMissingSize(items: seq<Json>)
    requires items == [SizedPosition, UnsizedPosition]
    ensures KeysOf(items)
      == Success([Key(Val(Str("A")), Val(Num(1.0)), Val(Num(2.0)), 1), Key(Val(Str("B")), NaN, Val(Num(3.0)), 2)])
  {
    RecordsMissingSize(items);
    MissingSizeKeys();
    var rows := Records(items);
    var ka, kb := Key(Val(Str("A")), Val(Num(1.0)), Val(Num(2.0)), 1), Key(Val(Str("B")), NaN, Val(Num(3.0)), 2);
    assert KeyOf(rows[0]) == Success(ka) && KeyOf(rows[1]) == Success(kb);
    assert KeyColumns(Columns(items)) by {
      assert KeyColumns(rows[0].Keys) && rows[0].Keys == Columns(items);
    }
    var r := KeysOf(items);
    assert r.Success?;
    assert r.value == [ka, kb];
  }

  /** The five columns kept from a local record. */
  predicate HasDbColumns(rec: map<string, Json>) {
    && "symbol" in rec && Orders.FieldName(Orders.Size) in rec && Orders.FieldName(Orders.EntryPrice) in rec
    && Orders.FieldName(Orders.PosIdx) in rec && "is_main" in rec
  }

  /** The record cut down to the five columns. */
  function Project(rec: map<string, Json>): (r: map<string, Json>)
    requires HasDbColumns(rec)
    ensures HasDbColumns(r)
    ensures r["symbol"] == rec["symbol"] && r["is_main"] == rec["is_main"]
  {
    map[
      "symbol" := rec["symbol"],
      Orders.FieldName(Orders.Size) := rec[Orders.FieldName(Orders.Size)],
      Orders.FieldName(Orders.EntryPrice) := rec[Orders.FieldName(Orders.EntryPrice)],
      Orders.FieldName(Orders.PosIdx) := rec[Orders.FieldName(Orders.PosIdx)],
      "is_main" := rec["is_main"]]
  }

  /** The local leg's key is one of the exchange's, under Python's `==` on each part; NaN parts match nothing. */
  predicate Held(rec: map<string, Json>, keys: seq<Key>)
    requires HasDbColumns(rec)
  {
    exists k | 0 <= k < |keys| ::
      && CellIs(keys[k].symbol, rec["symbol"])
      && CellIs(keys[k].size, rec[Orders.FieldName(Orders.Size)])
      && CellIs(keys[k].entryPrice, rec[Orders.FieldName(Orders.EntryPrice)])
      && PyEq(Int(keys[k].idx), rec[Orders.FieldName(Orders.PosIdx)])
  }

  /** The local records the exchange no longer holds, cut to the five columns, in order. */
  function Stale(db: seq<map<string, Json>>, keys: seq<Key>): (r: seq<map<string, Json>>)
    requires forall i | 0 <= i < |db| :: HasDbColumns(db[i])
    ensures |r| <= |db|
    ensures forall x | x in r :: exists i | 0 <= i < |db| :: x == Project(db[i]) && !Held(db[i], keys)
    ensures forall i | 0 <= i < |db| && !Held(db[i], keys) :: Project(db[i]) in r
  {
    if |db| == 0 then []
    else
      var rest := Stale(db[1..], keys);
      assert forall i | 1 <= i < |db| :: db[i] == db[1..][i - 1];
      if Held(db[0], keys) then rest else [Project(db[0])] + rest
  }

  /** The placeholder both versions return when there is nothing to compare: a single empty record. */
  const NothingToCompare: seq<map<string, Json>> := [map[]]

  /**
    `get_delete_positions()` as written: `result_api[0]` is read before anything else, so
    an empty exchange list raises IndexError; an empty first record or no local legs give
    `[{}]`; a local record missing one of the five columns, or an exchange column no
    position carries, is a KeyError; a cast that fails raises.
   */
  function DeletePositions(db: seq<map<string, Json>>, api: Json): (r: Result<seq<map<string, Json>>, Exc>)
    ensures api.Arr? && |api.items| == 0 ==> r == Failure(IndexError)
    ensures api.Arr? && |api.items| > 0 && (!Truthy(api.items[0]) || |db| == 0) ==> r == Success(NothingToCompare)
    ensures api.Arr? && |api.items| > 0 && Truthy(api.items[0]) && |db| > 0 ==> r == DeleteAgainst(db, api)
    ensures r.Success? && r != Success(NothingToCompare) ==>
      (forall i | 0 <= i < |db| :: HasDbColumns(db[i])) && api.Arr? && KeysOf(api.items).Success? &&
      r.value == Stale(db, KeysOf(api.items).value)
  {
    var first :- At(api, 0);
    if !Truthy(first) || |db| == 0 then Success(NothingToCompare)
    else DeleteAgainst(db, api)
  }

  /**
    The comparison itself, once there are local legs and exchange positions: KeyError
    exactly when a local record lacks one of the five columns or no position carries one
    of the four; otherwise the casts' exception, or the stale records.
   */
  function DeleteAgainst(db: seq<map<string, Json>>, api: Json): (r: Result<seq<map<string, Json>>, Exc>)
    ensures r.Failure? ==> r.error in {KeyError, ValueError, TypeError}
    ensures api.Arr? ==> (r == Failure(KeyError) <==>
      (exists i | 0 <= i < |db| :: !HasDbColumns(db[i])) || !KeyColumns(Columns(api.items)))
    ensures r.Success? ==>
      && (forall i | 0 <= i < |db| :: HasDbColumns(db[i])) && api.Arr? && KeysOf(api.items).Success?
      && r.value == Stale(db, KeysOf(api.items).value)
  {
    if exists i | 0 <= i < |db| :: !HasDbColumns(db[i]) then Failure(KeyError)
    else if !api.Arr? then Failure(TypeError)
    else
      var keys :- KeysOf(api.items);
      Success(Stale(db, keys))
  }

  /** With local legs and an empty exchange list the code as written raises instead of flagging them. */
  lemma DeletePositionsEmptyExchange(db: seq<map<string, Json>>)
    requires |db| > 0
    ensures DeletePositions(db, Arr([])) == Failure(IndexError)
  {
  }

  /**
    `get_delete_positions()` as evidently intended: an empty exchange list means no open
    positions, so every local leg is stale (a local record lacking a column is still a
    KeyError); the rest is as written.
   */
  function DeletePositionsFixed(db: seq<map<string, Json>>, api: Json): (r: Result<seq<map<string, Json>>, Exc>)
    ensures !(api.Arr? && |api.items| == 0) ==> r == DeletePositions(db, api)
    ensures api.Arr? ==> r != Failure(IndexError)
    ensures api.Arr? && |api.items| == 0 && |db| == 0 ==> r == Success(NothingToCompare)
  {
    if api.Arr? && |api.items| == 0 then
      if |db| == 0 then Success(NothingToCompare)
      else if exists i | 0 <= i < |db| :: !HasDbColumns(db[i]) then Failure(KeyError)
      else Success(Stale(db, []))
    else DeletePositions(db, api)
  }

  /** With the fix, an empty exchange list flags every local leg, in order. */
  lemma DeletePositionsFixedEmptyExchange(db: seq<map<string, Json>>)
    requires |db| > 0 && forall i | 0 <= i < |db| :: HasDbColumns(db[i])
    ensures DeletePositionsFixed(db, Arr([])).Success?
    ensures forall i | 0 <= i < |db| :: Project(db[i]) in DeletePositionsFixed(db, Arr([])).value
  {
  }

  /** The records of the hedge manager always carry the five columns. */
  lemma AllToDictHasColumns(positions: Orders.Positions)
    ensures forall i | 0 <= i < |Orders.AllToDict(positions)| :: HasDbColumns(Orders.AllToDict(positions)[i])
  {
  }

  // ---------------------------------------------------------------- check_positions

  /**
    One record of `check_positions`: a record without a truthy symbol is skipped; otherwise
    `is_main` (default True) picks the leg to remove. Symbols are the dict's string keys,
    so a symbol of another type finds no entry.
   */
  function RemoveOne(m: Orders.Manager, rec: map<string, Json>): (r: Orders.Manager)
    requires ODict.Unique(m.positions)
    ensures ODict.Unique(r.positions)
    ensures !Truthy(Orders.GetOr(rec, "symbol", Null)) || !Orders.GetOr(rec, "symbol", Null).Str? ==> r == m
    ensures (Orders.GetOr(rec, "symbol", Null).Str? && Truthy(Orders.GetOr(rec, "symbol", Null)) &&
             Truthy(Orders.GetOr(rec, "is_main", Bool(true)))) ==>
      var c := Some(Orders.GetOr(rec, "symbol", Null).s);
      Orders.GetMain(r, c).None? && Orders.GetSecond(r, c) == Orders.GetSecond(m, c)
    ensures (Orders.GetOr(rec, "symbol", Null).Str? && Truthy(Orders.GetOr(rec, "symbol", Null)) &&
             !Truthy(Orders.GetOr(rec, "is_main", Bool(true)))) ==>
      var c := Some(Orders.GetOr(rec, "symbol", Null).s);
      Orders.GetSecond(r, c).None? && Orders.GetMain(r, c) == Orders.GetMain(m, c)
  {
    var symbol := Orders.GetOr(rec, "symbol", Null);
    if !Truthy(symbol) || !symbol.Str? then m
    else if Truthy(Orders.GetOr(rec, "is_main", Bool(true))) then Orders.RemoveMain(m, Some(symbol.s)).state
    else Orders.RemoveSecondary(m, Some(symbol.s)).state
  }

  /** `check_positions`' inner loop over the stale records. */
  function RemoveStale(m: Orders.Manager, recs: seq<map<string, Json>>): (r: Orders.Manager)
    requires ODict.Unique(m.positions)
    ensures ODict.Unique(r.positions)
    decreases |recs|
  {
    if |recs| == 0 then m else RemoveStale(RemoveOne(m, recs[0]), recs[1..])
  }

  /** Handling one record keeps the hedge manager valid. */
  lemma RemoveOneValid(m: Orders.Manager, rec: map<string, Json>)
    requires Orders.Valid(m)
    ensures Orders.Valid(RemoveOne(m, rec))
  {
    var symbol := Orders.GetOr(rec, "symbol", Null);
    if Truthy(symbol) && symbol.Str? {
      Orders.RemoveValid(m, Some(symbol.s));
    }
  }

  /** Removing stale legs keeps the hedge manager valid. */
  lemma {:induction false} RemoveStaleValid(m: Orders.Manager, recs: seq<map<string, Json>>)
    requires Orders.Valid(m)
    ensures Orders.Valid(RemoveStale(m, recs))
    decreases |recs|
  {
    if |recs| > 0 {
      RemoveOneValid(m, recs[0]);
      RemoveStaleValid(RemoveOne(m, recs[0]), recs[1..]);
    }
  }

  /** Removing never creates a leg: a coin without a main leg keeps having none. */
  lemma {:induction false} RemoveStaleNoNewMain(m: Orders.Manager, recs: seq<map<string, Json>>, c: Option<string>)
    requires ODict.Unique(m.positions) && Orders.GetMain(m, c).None?
    ensures Orders.GetMain(RemoveStale(m, recs), c).None?
    decreases |recs|
  {
    if |recs| > 0 {
      var m' := RemoveOne(m, recs[0]);
      var symbol := Orders.GetOr(recs[0], "symbol", Null);
      if Truthy(symbol) && symbol.Str? && Some(symbol.s) != c {
        assert ODict.Get(m'.positions, c) == ODict.Get(m.positions, c);
      }
      RemoveStaleNoNewMain(m', recs[1..], c);
    }
  }

  /** After the loop no main leg is left for a coin that a main record named. */
  lemma RemoveStaleClearsMain(m: Orders.Manager, recs: seq<map<string, Json>>, i: nat)
    requires ODict.Unique(m.positions) && i < |recs|
    requires Orders.GetOr(recs[i], "symbol", Null).Str? && Truthy(Orders.GetOr(recs[i], "symbol", Null))
    requires Truthy(Orders.GetOr(recs[i], "is_main", Bool(true)))
    ensures Orders.GetMain(RemoveStale(m, recs), Some(Orders.GetOr(recs[i], "symbol", Null).s)).None?
    decreases i
  {
    if i == 0 {
      RemoveStaleNoNewMain(RemoveOne(m, recs[0]), recs[1..], Some(Orders.GetOr(recs[0], "symbol", Null).s));
    } else {
      assert recs[1..][i - 1] == recs[i];
      RemoveStaleClearsMain(RemoveOne(m, recs[0]), recs[1..], i - 1);
    }
  }

  /** An entry's records start with its main leg's. */
  lemma EntryListsMain(coin: Option<string>, h: Orders.HedgePosition, p: Orders.MainLeg)
    requires h.main == Some(p)
    ensures Orders.MainRecord(p, coin) in Orders.EntryRecords(coin, h)
  {
    match h.secondary
    case Some(q) =>
      assert Orders.EntryRecords(coin, h) == [Orders.MainRecord(p, coin), Orders.SecondaryRecord(q, coin)];
    case None =>
      assert Orders.EntryRecords(coin, h) == [Orders.MainRecord(p, coin)];
  }

  /** A main leg held by some entry has its record among the manager's records. */
  lemma {:induction false} MainRecordListed(positions: Orders.Positions, k: nat, p: Orders.MainLeg)
    requires k < |positions| && positions[k].1.main == Some(p)
    ensures Orders.MainRecord(p, positions[k].0) in Orders.AllToDict(positions)
  {
    var head := Orders.EntryRecords(positions[0].0, positions[0].1);
    var rest := Orders.AllToDict(positions[1..]);
    assert Orders.AllToDict(positions) == head + rest;
    if k == 0 {
      EntryListsMain(positions[0].0, positions[0].1, p);
    } else {
      assert Orders.MainRecord(p, positions[k].0) in rest by {
        assert positions[1..][k - 1] == positions[k];
        MainRecordListed(positions[1..], k - 1, p);
      }
    }
  }

  /**
    One round of `check_positions` against the exchange's position list: the stale legs
    are removed; an exception ends the monitoring loop, which the flag reports.
   */
  function CheckRound(m: Orders.Manager, api: Json): (r: (Orders.Manager, bool))
    requires ODict.Unique(m.positions)
    ensures ODict.Unique(r.0.positions)
    ensures !r.1 ==> r.0 == m
    ensures r.1 <==> DeletePositions(Orders.AllToDict(m.positions), api).Success?
  {
    match DeletePositions(Orders.AllToDict(m.positions), api)
    case Failure(_) => (m, false)
    case Success(recs) => (RemoveStale(m, recs), true)
  }

  /** As written, once the exchange reports no positions the loop stops with every local leg left in place. */
  lemma CheckRoundStopsOnEmptyExchange(m: Orders.Manager)
    requires ODict.Unique(m.positions) && |Orders.AllToDict(m.positions)| > 0
    ensures CheckRound(m, Arr([])) == (m, false)
  {
  }

  /** `check_positions`' round with the corrected comparison. */
  function CheckRoundFixed(m: Orders.Manager, api: Json): (r: (Orders.Manager, bool))
    requires ODict.Unique(m.positions)
    ensures ODict.Unique(r.0.positions)
    ensures !r.1 ==> r.0 == m
    ensures r.1 <==> DeletePositionsFixed(Orders.AllToDict(m.positions), api).Success?
  {
    match DeletePositionsFixed(Orders.AllToDict(m.positions), api)
    case Failure(_) => (m, false)
    case Success(recs) => (RemoveStale(m, recs), true)
  }

  /** The position of an element of a sequence. */
  lemma IndexOf<T>(s: seq<T>, x: T) returns (i: nat)
    requires x in s
    ensures i < |s| && s[i] == x
  {
    i :| 0 <= i < |s| && s[i] == x;
  }

  /** With the fix, an empty exchange list keeps the loop running and clears every main leg. */
  lemma CheckRoundFixedClearsMain(m: Orders.Manager, c: string)
    requires ODict.Unique(m.positions) && c != "" && Orders.GetMain(m, Some(c)).Some?
    ensures CheckRoundFixed(m, Arr([])).1
    ensures Orders.GetMain(CheckRoundFixed(m, Arr([])).0, Some(c)).None?
  {
    var p := Orders.GetMain(m, Some(c)).value;
    var db := Orders.AllToDict(m.positions);
    var k :| 0 <= k < |m.positions| && m.positions[k] == (Some(c), ODict.Get(m.positions, Some(c)).value);
    MainRecordListed(m.positions, k, p);
    var i := IndexOf(db, Orders.MainRecord(p, Some(c)));
    AllToDictHasColumns(m.positions);
    DeletePositionsFixedEmptyExchange(db);
    var recs := DeletePositionsFixed(db, Arr([])).value;
    assert Project(db[i]) in recs;
    var j := IndexOf(recs, Project(db[i]));
    assert Orders.GetOr(recs[j], "symbol", Null) == Str(c);
    assert Orders.GetOr(recs[j], "is_main", Bool(true)) == Bool(true);
    RemoveStaleClearsMain(m, recs, j);
  }

  // ---------------------------------------------------------------- fetch_coin / fetch_hedge_coin

  /** The screened instrument a trade is opened on. */
  datatype Coin = Coin(name: string, qtyStep: real, minOrderQty: real, tickSize: real, long: bool)

  /** The order the bot places: `sl` or `tp` is 0 when not set. */
  datatype Planned = Planned(symbol: string, amount: Json, buy: bool, tpPrice: real, slPrice: real)

  /** The price `percentage` per cent above `price`, or below it when `up` is false. */
  function Target(price: real, percentage: real, up: bool): real {
    price * (1.0 + (percentage / 100.0) * (if up then 1.0 else -1.0))
  }

  /** For a positive price and a percentage of at most 100 the target lies on the named side of the price. */
  lemma TargetSide(price: real, percentage: real, up: bool)
    requires price > 0.0 && 0.0 <= percentage <= 100.0
    ensures Target(price, percentage, up) >= 0.0
    ensures up ==> Target(price, percentage, up) >= price
    ensures !up ==> Target(price, percentage, up) <= price
  {
    var f := 1.0 + (percentage / 100.0) * (if up then 1.0 else -1.0);
    assert 0.0 <= f;
    if up {
      assert f >= 1.0;
      assert price * f - price == price * (f - 1.0);
    } else {
      assert f <= 1.0;
      assert price - price * f == price * (1.0 - f);
    }
  }

  /** `((size / 100) * margin) * leverage / price`. */
  function RawAmount(size: real, margin: real, leverage: real, price: real): real
    requires price != 0.0
  {
    ((size / 100.0) * margin) * leverage / price
  }

  /** `max(round_step_size(raw, qtyStep), minOrderQty)`. */
  function EntryAmount(raw: real, qtyStep: real, minOrderQty: real): (r: Result<real, Exc>)
    ensures r.Failure? <==> qtyStep == 0.0
    ensures r.Success? ==> r.value >= minOrderQty
  {
    var rounded :- TradeUtils.RoundStepSize(raw, qtyStep);
    Success(if rounded >= minOrderQty then rounded else minOrderQty)
  }

  /**
    For a non-negative raw amount and a positive step the amount is the minimum order
    quantity or the raw amount rounded down onto the step grid, whichever is larger.
   */
  lemma EntryAmountBounds(raw: real, qtyStep: real, minOrderQty: real)
    requires raw >= 0.0 && qtyStep > 0.0
    ensures EntryAmount(raw, qtyStep, minOrderQty).Success?
    ensures
      var a := EntryAmount(raw, qtyStep, minOrderQty).value;
      a == minOrderQty || (TradeUtils.MultipleOf(a, qtyStep) && raw - qtyStep < a <= raw)
  {
    TradeUtils.RoundStepSizeBounds(raw, qtyStep);
  }

  /** With non-negative sizing inputs the raw amount is non-negative. */
  lemma RawAmountNonNegative(size: real, margin: real, leverage: real, price: real)
    requires size >= 0.0 && margin >= 0.0 && leverage >= 0.0 && price > 0.0
    ensures RawAmount(size, margin, leverage, price) >= 0.0
  {
    assert (size / 100.0) * margin >= 0.0;
    assert ((size / 100.0) * margin) * leverage >= 0.0;
  }

  /**
    `fetch_coin(coin)`: skip a coin already in trade; with no price cached for the coin
    (`cached` None), `float(None)` raises TypeError and the coin is given up; abort without
    a non-empty balance dict or a positive exchange price `price`, which replaces the
    cached one. The amount is `size`% of the margin balance times the
    leverage over the price, rounded down to the quantity step and raised to the minimum
    order quantity; the take profit is `take_profit`% above the price for a long and
    below it for a short, rounded to the tick.
   */
  function EntryOrder(
    inTrade: bool, cached: Option<real>, balance: Json, price: real, size: real, leverage: real, takeProfit: real, coin: Coin)
    : (r: Result<Option<Planned>, Exc>)
    ensures inTrade ==> r == Success(None)
    ensures !inTrade && cached.None? ==> r == Failure(TypeError)
    ensures !inTrade && cached.Some? && (!TradeUtils.ProofResult(balance, TradeUtils.DictType) || price <= 0.0) ==> r == Success(None)
    ensures !inTrade && cached.Some? && TradeUtils.ProofResult(balance, TradeUtils.DictType) && price > 0.0 ==>
      (r.Success? && r.value.Some? <==>
        PyFloat(Orders.GetOr(balance.fields, "totalMarginBalance", Int(0))).Success? && coin.qtyStep != 0.0 && coin.tickSize != 0.0)
    ensures r.Success? && r.value.Some? ==>
      && !inTrade && cached.Some? && balance.Obj? && price > 0.0
      && r.value.value.buy == coin.long && r.value.value.slPrice == 0.0
      && PyFloat(Orders.GetOr(balance.fields, "totalMarginBalance", Int(0))).Success? && coin.qtyStep != 0.0
      && r.value.value.amount == Num(EntryAmount(
           RawAmount(size, PyFloat(Orders.GetOr(balance.fields, "totalMarginBalance", Int(0))).value, leverage, price),
           coin.qtyStep, coin.minOrderQty).value)
      && TradeUtils.RoundStepSize(Target(price, takeProfit, coin.long), coin.tickSize) == Success(r.value.value.tpPrice)
  {
    if inTrade then Success(None)
    else if cached.None? then Failure(TypeError)
    else if !(TradeUtils.ProofResult(balance, TradeUtils.DictType) && price > 0.0) then Success(None)
    else
      var margin :- PyFloat(Orders.GetOr(balance.fields, "totalMarginBalance", Int(0)));
      var amount :- EntryAmount(RawAmount(size, margin, leverage, price), coin.qtyStep, coin.minOrderQty);
      var tp :- TradeUtils.RoundStepSize(Target(price, takeProfit, coin.long), coin.tickSize);
      Success(Some(Planned(coin.name, Num(amount), coin.long, tp, 0.0)))
  }

  /**
    The entry order is at least the minimum quantity, and otherwise the sized amount
    rounded down to the step; a long's take profit lies at or above the price, at most
    one tick below its target.
   */
  lemma EntryOrderBounds(
    cached: real, balance: Json, price: real, size: real, leverage: real, takeProfit: real, coin: Coin)
    requires EntryOrder(false, Some(cached), balance, price, size, leverage, takeProfit, coin).Success?
    requires EntryOrder(false, Some(cached), balance, price, size, leverage, takeProfit, coin).value.Some?
    requires size >= 0.0 && leverage >= 0.0 && 0.0 <= takeProfit <= 100.0 && coin.qtyStep > 0.0 && coin.tickSize > 0.0
    requires balance.Obj? && PyFloat(Orders.GetOr(balance.fields, "totalMarginBalance", Int(0))).Success?
    requires PyFloat(Orders.GetOr(balance.fields, "totalMarginBalance", Int(0))).value >= 0.0
    ensures
      var o := EntryOrder(false, Some(cached), balance, price, size, leverage, takeProfit, coin).value.value;
      var raw := RawAmount(size, PyFloat(Orders.GetOr(balance.fields, "totalMarginBalance", Int(0))).value, leverage, price);
      && o.amount.Num? && o.amount.r >= coin.minOrderQty
      && (o.amount.r == coin.minOrderQty || (TradeUtils.MultipleOf(o.amount.r, coin.qtyStep) && raw - coin.qtyStep < o.amount.r <= raw))
      && Target(price, takeProfit, coin.long) - coin.tickSize < o.tpPrice <= Target(price, takeProfit, coin.long)
      && (coin.long ==> price <= Target(price, takeProfit, coin.long))
  {
    var margin := PyFloat(Orders.GetOr(balance.fields, "totalMarginBalance", Int(0))).value;
    RawAmountNonNegative(size, margin, leverage, price);
    EntryAmountBounds(RawAmount(size, margin, leverage, price), coin.qtyStep, coin.minOrderQty);
    TargetSide(price, takeProfit, coin.long);
    TradeUtils.RoundStepSizeBounds(Target(price, takeProfit, coin.long), coin.tickSize);
  }

  /**
    `fetch_hedge_coin(coin)`: nothing at a zero mark price; a missing main leg is an
    AttributeError. The hedge buys exactly when the main leg is short, for the main leg's
    size, with a stop loss `hedge_stop_loss_percentage`% above the price for a sell and
    below it for a buy, rounded to the tick.
   */
  function HedgeOrder(coin: string, price: real, main: Option<Orders.MainLeg>, hedgeStopLoss: real, tickSize: real)
    : (r: Result<Option<Planned>, Exc>)
    ensures price == 0.0 ==> r == Success(None)
    ensures price != 0.0 && main.None? ==> r == Failure(AttributeError)
    ensures r.Success? && r.value.Some? ==>
      && main.Some?
      && r.value.value.buy == (main.value.idx == Orders.Short)
      && r.value.value.amount == main.value.size
      && r.value.value.tpPrice == 0.0
      && TradeUtils.RoundStepSize(Target(price, hedgeStopLoss, main.value.idx == Orders.Long), tickSize) == Success(r.value.value.slPrice)
  {
    if price == 0.0 then Success(None)
    else if main.None? then Failure(AttributeError)
    else
      var sl :- TradeUtils.RoundStepSize(Target(price, hedgeStopLoss, main.value.idx == Orders.Long), tickSize);
      Success(Some(Planned(coin, main.value.size, main.value.idx == Orders.Short, 0.0, sl)))
  }

  /**
    The hedge takes the side opposite the main leg, and its stop loss lies on the far side
    of the price from that direction: above it for a sell, below it for a buy.
   */
  lemma HedgeOrderBounds(coin: string, price: real, main: Orders.MainLeg, hedgeStopLoss: real, tickSize: real)
    requires price > 0.0 && 0.0 <= hedgeStopLoss <= 100.0 && tickSize > 0.0
    ensures HedgeOrder(coin, price, Some(main), hedgeStopLoss, tickSize).Success?
    ensures HedgeOrder(coin, price, Some(main), hedgeStopLoss, tickSize).value.Some?
    ensures
      var o := HedgeOrder(coin, price, Some(main), hedgeStopLoss, tickSize).value.value;
      && (o.buy <==> main.idx != Orders.Long)
      && (o.buy ==> o.slPrice <= price)
      && (!o.buy ==> o.slPrice <= Target(price, hedgeStopLoss, true) < o.slPrice + tickSize && price <= Target(price, hedgeStopLoss, true))
  {
    var up := main.idx == Orders.Long;
    TargetSide(price, hedgeStopLoss, up);
    TradeUtils.RoundStepSizeBounds(Target(price, hedgeStopLoss, up), tickSize);
  }
}
