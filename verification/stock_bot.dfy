/**
  The exchange operations the bot uses: for each, the request it sends (method, endpoint
  and parameters) and how it turns the request's outcome into its return value. Every
  operation except `get_instrument_info` and `get_mark_price` catches whatever the request
  raises and returns a fixed fallback; the outcome of the (retried) request is a parameter.
  Python's `str()` of a float is the parameter `show`.
 */
module StockBot {
  import opened Wrappers
  import opened Json
  import Requester
  import ODict

  type Params = Requester.Params

  /** A request: its method, endpoint, parameters, and whether it is signed. */
  datatype Call = Call(httpMethod: string, endpoint: string, params: Params, signed: bool)

  /** `obj[k1][k2]`, raising as Python does on a missing key or a non-dict. */
  function Lookup2(v: Json, k1: string, k2: string): (r: Result<Json, Exc>)
    ensures r.Success? <==> v.Obj? && k1 in v.fields && v.fields[k1].Obj? && k2 in v.fields[k1].fields
    ensures r.Success? ==> r.value == v.fields[k1].fields[k2]
  {
    var a :- Lookup(v, k1);
    Lookup(a, k2)
  }

  /** `obj.get(k1, {}).get(k2, default)`. */
  function Get2(v: Json, k1: string, k2: string, default: Json): (r: Result<Json, Exc>)
    ensures v.Obj? && k1 !in v.fields ==> r == Success(default)
    ensures v.Obj? && k1 in v.fields && v.fields[k1].Obj? ==>
      r == Success(if k2 in v.fields[k1].fields then v.fields[k1].fields[k2] else default)
  {
    var a :- GetOr(v, k1, EmptyObj());
    GetOr(a, k2, default)
  }

  /** The value an operation returns when `try: ... finally: return value` swallows an error. */
  function OrFallback(r: Result<Json, Exc>, fallback: Json): (v: Json)
    ensures r.Success? ==> v == r.value
    ensures r.Failure? ==> v == fallback
  {
    if r.Success? then r.value else fallback
  }

  /** The fallback of the list-returning operations: `[{}]`. */
  function ListFallback(): Json {
    Arr([EmptyObj()])
  }

  // ---------------------------------------------------------------- place_order

  /**
    `place_order`'s argument checks and order body: a market GTC order on the linear
    category, Buy with position index 1 or Sell with 2, take-profit and stop-loss sent as
    strings or as null when zero.
   */
  function PlaceOrderCall(coin: string, amount: real, buy: bool, tpPrice: real, slPrice: real,
                          show: real -> string): (r: Result<Call, Exc>)
    ensures r.Failure? <==> amount <= 0.0 || (tpPrice <= 0.0 && slPrice <= 0.0)
    ensures r.Failure? ==> r.error == ValueError
    ensures r.Success? ==> r.value.httpMethod == "POST" && r.value.endpoint == "/v5/order/create" && r.value.signed
    ensures r.Success? ==>
      var body := r.value.params;
      ("symbol", Str(coin)) in body &&
      ("orderType", Str("Market")) in body &&
      ("side", Str(if buy then "Buy" else "Sell")) in body &&
      ("qty", Str(show(amount))) in body &&
      ("takeProfit", if tpPrice != 0.0 then Str(show(tpPrice)) else Null) in body &&
      ("stopLoss", if slPrice != 0.0 then Str(show(slPrice)) else Null) in body &&
      ("timeInForce", Str("GTC")) in body &&
      ("positionIdx", Int(if buy then 1 else 2)) in body
  {
    if amount <= 0.0 then Failure(ValueError)
    else if tpPrice <= 0.0 && slPrice <= 0.0 then Failure(ValueError)
    else
      var body := [
        ("category", Str("linear")),
        ("symbol", Str(coin)),
        ("orderType", Str("Market")),
        ("side", Str(if buy then "Buy" else "Sell")),
        ("qty", Str(show(amount))),
        ("takeProfit", if tpPrice != 0.0 then Str(show(tpPrice)) else Null),
        ("stopLoss", if slPrice != 0.0 then Str(show(slPrice)) else Null),
        ("timeInForce", Str("GTC")),
        ("positionIdx", Int(if buy then 1 else 2))];
      Success(Call("POST", "/v5/order/create", body, true))
  }

  /** `place_order`'s result: the exchange's reply, or `{}` when the request raised. */
  function PlaceOrderResult(reply: Result<Json, Exc>): (v: Json)
    ensures reply.Failure? ==> v == EmptyObj()
    ensures reply.Success? ==> v == reply.value
  {
    OrFallback(reply, EmptyObj())
  }

  // ---------------------------------------------------------------- set_leverage / switch_position_mode

  /** `set_leverage`: the same leverage for both sides. Its outcome is discarded. */
  function SetLeverageCall(coin: string, leverage: real, show: real -> string): (c: Call)
    ensures ("buyLeverage", Str(show(leverage))) in c.params && ("sellLeverage", Str(show(leverage))) in c.params
    ensures c.endpoint == "/v5/position/set-leverage" && c.httpMethod == "POST"
  {
    Call("POST", "/v5/position/set-leverage",
         [("category", Str("linear")), ("symbol", Str(coin)),
          ("buyLeverage", Str(show(leverage))), ("sellLeverage", Str(show(leverage)))], true)
  }

  /** `switch_position_mode`: hedge mode (3) for USDT; `True` on success, `None` otherwise. */
  function SwitchPositionModeCall(): (c: Call)
    ensures ("mode", Int(3)) in c.params && ("coin", Str("USDT")) in c.params
  {
    Call("POST", "/v5/position/switch-mode",
         [("category", Str("linear")), ("coin", Str("USDT")), ("mode", Int(3))], true)
  }

  function SwitchPositionModeResult(reply: Result<Json, Exc>): (r: Option<bool>)
    ensures r.Some? <==> reply.Success?
    ensures r.Some? ==> r.value
  {
    if reply.Success? then Some(true) else None
  }

  // ---------------------------------------------------------------- get_order

  /**
    `get_order`: the history endpoint iff `history`, `orderId` only for a non-empty id,
    and the `limit` always.
   */
  function GetOrderCall(coin: string, id: Option<string>, history: bool, limit: int): (c: Call)
    ensures c.endpoint == (if history then "/v5/order/history" else "/v5/order/realtime")
    ensures c.httpMethod == "GET"
    ensures ("symbol", Str(coin)) in c.params && ("limit", Int(limit)) in c.params
    ensures ODict.HasKey(c.params, "orderId") <==> id.Some? && |id.value| > 0
    ensures id.Some? && |id.value| > 0 ==> ("orderId", Str(id.value)) in c.params
  {
    var base := [("category", Str("linear")), ("symbol", Str(coin))];
    var withId := if id.Some? && |id.value| > 0 then base + [("orderId", Str(id.value))] else base;
    var params := withId + [("limit", Int(limit))];
    assert !(id.Some? && |id.value| > 0) ==> !ODict.HasKey(params, "orderId") by {
      if !(id.Some? && |id.value| > 0) {
        forall i | 0 <= i < |params| ensures params[i].0 != "orderId" {
          assert |params[i].0| > 0 && params[i].0[0] != 'o';
        }
      }
    }
    assert id.Some? && |id.value| > 0 ==> params[2].0 == "orderId";
    Call("GET", if history then "/v5/order/history" else "/v5/order/realtime", params, true)
  }

  /** `response['result']['list']`, or `[{}]` when the request or a lookup raised. */
  function ResultListOr(reply: Result<Json, Exc>): (v: Json)
    ensures reply.Failure? ==> v == ListFallback()
    ensures reply.Success? && Lookup2(reply.value, "result", "list").Success? ==>
      v == reply.value.fields["result"].fields["list"]
    ensures reply.Success? && Lookup2(reply.value, "result", "list").Failure? ==> v == ListFallback()
  {
    match reply
    case Failure(_) => ListFallback()
    case Success(response) => OrFallback(Lookup2(response, "result", "list"), ListFallback())
  }

  // ---------------------------------------------------------------- get_positions / get_all_position

  function GetPositionsCall(coin: string): (c: Call)
    ensures ("symbol", Str(coin)) in c.params && c.endpoint == "/v5/position/list"
  {
    Call("GET", "/v5/position/list", [("category", Str("linear")), ("symbol", Str(coin))], true)
  }

  /**
    `get_positions`' result: `response.get('result', {}).get('list', [])`, so a reply without
    `result` gives `[]`; a raised request or a non-dict `result` gives `[{}]`.
   */
  function GetPositionsResult(reply: Result<Json, Exc>): (v: Json)
    ensures reply.Failure? ==> v == ListFallback()
    ensures reply.Success? && reply.value.Obj? && "result" !in reply.value.fields ==> v == Arr([])
    ensures reply.Success? && reply.value.Obj? && "result" in reply.value.fields &&
            !reply.value.fields["result"].Obj?
        ==> v == ListFallback()
    ensures reply.Success? && !reply.value.Obj? ==> v == ListFallback()
    ensures reply.Success? && reply.value.Obj? && "result" in reply.value.fields && reply.value.fields["result"].Obj? ==>
      var result := reply.value.fields["result"].fields;
      v == if "list" in result then result["list"] else Arr([])
  {
    match reply
    case Failure(_) => ListFallback()
    case Success(response) => OrFallback(Get2(response, "result", "list", Arr([])), ListFallback())
  }

  function GetAllPositionCall(): (c: Call)
    ensures ("settleCoin", Str("USDT")) in c.params && c.endpoint == "/v5/position/list"
  {
    Call("GET", "/v5/position/list", [("category", Str("linear")), ("settleCoin", Str("USDT"))], true)
  }

  // ---------------------------------------------------------------- get_instrument_info

  /** `get_instrument_info`: a public request for the linear instruments. */
  function GetInstrumentInfoCall(): (c: Call)
    ensures !c.signed && ("category", Str("linear")) in c.params
  {
    Call("GET", "/v5/market/instruments-info", [("category", Str("linear"))], false)
  }

  /**
    Its result: `None` when the request raised; otherwise `result.list` read with `.get`
    outside any handler, so a non-dict `result` raises AttributeError to the caller.
   */
  function GetInstrumentInfoResult(reply: Result<Json, Exc>): (r: Result<Json, Exc>)
    ensures reply.Failure? ==> r == Success(Null)
    ensures reply.Success? && reply.value.Obj? && "result" !in reply.value.fields ==> r == Success(EmptyObj())
    ensures r.Failure? ==> r.error == AttributeError
    ensures reply.Success? && !reply.value.Obj? ==> r == Failure(AttributeError)
    ensures reply.Success? && reply.value.Obj? && "result" in reply.value.fields ==>
      var result := reply.value.fields["result"];
      && (!result.Obj? ==> r == Failure(AttributeError))
      && (result.Obj? ==> r == Success(if "list" in result.fields then result.fields["list"] else EmptyObj()))
  {
    match reply
    case Failure(_) => Success(Null)
    case Success(response) => Get2(response, "result", "list", EmptyObj())
  }

  // ---------------------------------------------------------------- get_api_permissions

  function GetApiPermissionsCall(): (c: Call)
    ensures c.params == [] && c.endpoint == "/v5/user/query-api"
  {
    Call("GET", "/v5/user/query-api", [], true)
  }

  /** `response['result']`, or `{}` when the request or the lookup raised. */
  function ResultOr(reply: Result<Json, Exc>): (v: Json)
    ensures reply.Failure? ==> v == EmptyObj()
    ensures reply.Success? && Lookup(reply.value, "result").Success? ==> v == reply.value.fields["result"]
    ensures reply.Success? && Lookup(reply.value, "result").Failure? ==> v == EmptyObj()
  {
    match reply
    case Failure(_) => EmptyObj()
    case Success(response) => OrFallback(Lookup(response, "result"), EmptyObj())
  }

  // ---------------------------------------------------------------- get_balance

  function GetBalanceCall(): (c: Call)
    ensures ("accountType", Str("UNIFIED")) in c.params && ("coin", Str("USDT")) in c.params
  {
    Call("GET", "/v5/account/wallet-balance", [("accountType", Str("UNIFIED")), ("coin", Str("USDT"))], true)
  }

  /**
    `get_balance`'s result. The list (default `[{}]`) is assigned before it is indexed, so
    when indexing it raises, the value returned is the list itself; a falsy list gives `{}`.
   */
  function GetBalanceResult(reply: Result<Json, Exc>): (v: Json)
    ensures reply.Failure? ==> v == EmptyObj()
    ensures reply.Success? && reply.value.Obj? && "result" !in reply.value.fields ==> v == EmptyObj()
    ensures reply.Success? && Get2(reply.value, "result", "list", ListFallback()) == Success(Arr([])) ==> v == EmptyObj()
    ensures reply.Success? && Get2(reply.value, "result", "list", ListFallback()).Success? &&
            Get2(reply.value, "result", "list", ListFallback()).value.Arr? &&
            |Get2(reply.value, "result", "list", ListFallback()).value.items| > 0 ==>
      v == Get2(reply.value, "result", "list", ListFallback()).value.items[0]
  {
    match reply
    case Failure(_) => EmptyObj()
    case Success(response) =>
      match Get2(response, "result", "list", ListFallback())
      case Failure(_) => EmptyObj()
      case Success(list) =>
        if !Truthy(list) then EmptyObj()
        else OrFallback(At(list, 0), list)
  }

  // ---------------------------------------------------------------- get_mark_price

  function GetMarkPriceCall(coin: string): (c: Call)
    ensures !c.signed && ("symbol", Str(coin)) in c.params && ("limit", Int(1)) in c.params
  {
    Call("GET", "/v5/market/mark-price-kline",
         [("accountType", Str("UNIFIED")), ("symbol", Str(coin)), ("limit", Int(1)), ("interval", Int(1))], false)
  }

  /**
    `get_mark_price`'s result: 0 when the request raised; otherwise the close (index 4)
    of the first kline as a float, or 0 for an empty list. The reply is read outside the
    handler, so a malformed one raises to the caller.
   */
  function GetMarkPriceResult(reply: Result<Json, Exc>): (r: Result<real, Exc>)
    ensures reply.Failure? ==> r == Success(0.0)
    ensures reply.Success? && Lookup2(reply.value, "result", "list") == Success(Arr([])) ==> r == Success(0.0)
    ensures reply.Success? && Lookup2(reply.value, "result", "list").Failure? ==> r.Failure?
    ensures reply.Success? && Lookup2(reply.value, "result", "list").Success? &&
            Lookup2(reply.value, "result", "list").value.Arr? &&
            |Lookup2(reply.value, "result", "list").value.items| > 0 ==>
      r == (var first := Lookup2(reply.value, "result", "list").value.items[0];
            match At(first, 4) case Success(c) => PyFloat(c) case Failure(e) => Failure(e))
  {
    match reply
    case Failure(_) => Success(0.0)
    case Success(response) =>
      var list :- Lookup2(response, "result", "list");
      if !Truthy(list) then Success(0.0)
      else
        var first :- At(list, 0);
        var close :- At(first, 4);
        PyFloat(close)
  }

  // ---------------------------------------------------------------- close_order

  /**
    `close_order`'s request: a reduce-only market order on the opposite side for the
    position's size and index. The position is read before the handler, so a position
    without one of its keys raises.
   */
  function CloseOrderCall(position: Json): (r: Result<Call, Exc>)
    ensures r.Success? <==>
      (position.Obj? && "side" in position.fields && "symbol" in position.fields &&
       "size" in position.fields && "positionIdx" in position.fields)
    ensures r.Success? ==>
      var side := if PyEq(position.fields["side"], Str("Sell")) then "Buy" else "Sell";
      ("side", Str(side)) in r.value.params &&
      ("symbol", position.fields["symbol"]) in r.value.params &&
      ("qty", position.fields["size"]) in r.value.params &&
      ("positionIdx", position.fields["positionIdx"]) in r.value.params &&
      ("reduceOnly", Bool(true)) in r.value.params
  {
    var sideValue :- Lookup(position, "side");
    var side := if PyEq(sideValue, Str("Sell")) then "Buy" else "Sell";
    var symbol :- Lookup(position, "symbol");
    var size :- Lookup(position, "size");
    var idx :- Lookup(position, "positionIdx");
    Success(Call("POST", "/v5/order/create",
      [("category", Str("linear")), ("symbol", symbol), ("side", Str(side)), ("orderType", Str("Market")),
       ("qty", size), ("marketUnit", Str("baseCoin")), ("positionIdx", idx), ("reduceOnly", Bool(true))], true))
  }

  /**
    Closing a position that an order of `place_order` opened sends the other side with
    the same position index.
   */
  lemma CloseReversesPlace(coin: string, amount: real, buy: bool, tp: real, sl: real,
                           show: real -> string, position: Json)
    requires PlaceOrderCall(coin, amount, buy, tp, sl, show).Success?
    requires position.Obj? && "symbol" in position.fields && "size" in position.fields
    requires "side" in position.fields && position.fields["side"] == Str(if buy then "Buy" else "Sell")
    requires "positionIdx" in position.fields && position.fields["positionIdx"] == Int(if buy then 1 else 2)
    ensures CloseOrderCall(position).Success?
    ensures ("side", Str(if buy then "Sell" else "Buy")) in CloseOrderCall(position).value.params
    ensures ("positionIdx", Int(if buy then 1 else 2)) in CloseOrderCall(position).value.params
    ensures ("positionIdx", Int(if buy then 1 else 2)) in PlaceOrderCall(coin, amount, buy, tp, sl, show).value.params
  {
    if buy {
      assert !PyEq(Str("Buy"), Str("Sell")) by {
        assert "Buy" != "Sell" by { assert |"Buy"| != |"Sell"|; }
      }
    } else {
      PyEqReflexive(Str("Sell"));
    }
  }

  /** `close_order`'s result: `response['result']`, or `{}` when anything raised. */
  function CloseOrderResult(reply: Result<Json, Exc>): (v: Json)
    ensures reply.Failure? ==> v == EmptyObj()
    ensures reply.Success? && Lookup(reply.value, "result").Success? ==> v == reply.value.fields["result"]
  {
    ResultOr(reply)
  }

  // ---------------------------------------------------------------- get_pnl_from_chunks

  /** The closed-PnL request for one time window, given in seconds and sent in milliseconds. */
  function PnlChunkCall(startTime: int, endTime: int): (c: Call)
    ensures ("startTime", Int(startTime * 1000)) in c.params && ("endTime", Int(endTime * 1000)) in c.params
    ensures ("limit", Int(100)) in c.params && c.endpoint == "/v5/position/closed-pnl"
  {
    Call("GET", "/v5/position/closed-pnl",
         [("category", Str("linear")), ("limit", Int(100)),
          ("startTime", Int(startTime * 1000)), ("endTime", Int(endTime * 1000))], true)
  }
}
