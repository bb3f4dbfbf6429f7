/**
  Python values as they arrive from `json.loads` on an exchange reply or a stored record,
  the exceptions the modelled code raises, and the Python operations the code applies to
  such values: truthiness, `==` across numeric types, `float()`, `d[k]`, `d.get(k, v)`,
  `xs[i]` and `x in y`.
 */
module Json {
  import opened Wrappers
  import Text

  datatype Json =
    | Null
    | Bool(b: bool)
    | Int(i: int)
    | Num(r: real)
    | Str(s: string)
    | Arr(items: seq<Json>)
    | Obj(fields: map<string, Json>)

  /** The exceptions of the modelled code, by Python class. */
  datatype Exc =
    | ValueError
    | TypeError
    | KeyError
    | IndexError
    | AttributeError
    | ZeroDivisionError
    | InvalidOperation              // decimal.InvalidOperation (remainder by zero)
    | ApiError(code: Json, msg: Json) // BybitApiError carrying retCode and retMsg
    | ConnectionError               // aiohttp.ClientConnectionError / ClientOSError
    | HttpStatusError               // aiohttp.ClientResponseError from raise_for_status
    | DataError                     // redis.DataError: a value redis cannot encode
    | WrongTypeError                // redis.ResponseError: WRONGTYPE
    | IntegrityError                // sqlalchemy IntegrityError: a column constraint
    | CompileError                  // sqlalchemy CompileError: an unknown column

  function EmptyObj(): Json {
    Obj(map[])
  }

  /** Python `bool(v)`. */
  predicate Truthy(v: Json) {
    match v
    case Null => false
    case Bool(b) => b
    case Int(i) => i != 0
    case Num(r) => r != 0.0
    case Str(s) => |s| > 0
    case Arr(a) => |a| > 0
    case Obj(m) => |m| > 0
  }

  /** The number a `bool`, `int` or `float` stands for in Python arithmetic. */
  function NumberOf(v: Json): Option<real> {
    match v
    case Bool(b) => Some(if b then 1.0 else 0.0)
    case Int(i) => Some(i as real)
    case Num(r) => Some(r)
    case _ => None
  }

  /**
    Python `a == b`: numbers compare by value across bool/int/float; lists element-wise.
    Dicts compare exactly here, where Python would compare their values with `==` in turn
    (`{"a": 1} == {"a": 1.0}`); the model uses it on ids, sides, symbols and numbers.
   */
  predicate PyEq(a: Json, b: Json)
    decreases a
  {
    if NumberOf(a).Some? && NumberOf(b).Some? then NumberOf(a).value == NumberOf(b).value
    else if a.Arr? && b.Arr? then
      |a.items| == |b.items| &&
      forall k :: 0 <= k < |a.items| ==> PyEq(a.items[k], b.items[k])
    else if NumberOf(a).Some? || NumberOf(b).Some? then false
    else a == b
  }

  lemma {:induction false} PyEqReflexive(a: Json)
    ensures PyEq(a, a)
    decreases a
  {
    if a.Arr? && NumberOf(a).None? {
      forall k | 0 <= k < |a.items| ensures PyEq(a.items[k], a.items[k]) {
        PyEqReflexive(a.items[k]);
      }
    }
  }

  /** Python `needle in [c1, c2, ...]` for a list of integer literals. */
  predicate InCodes(needle: Json, codes: seq<int>) {
    exists k | 0 <= k < |codes| :: PyEq(needle, Int(codes[k]))
  }

  /** Python `float(v)`. */
  function PyFloat(v: Json): (r: Result<real, Exc>)
    ensures NumberOf(v).Some? ==> r == Success(NumberOf(v).value)
    ensures r.Failure? ==> r.error == ValueError || r.error == TypeError
  {
    match v
    case Bool(b) => Success(if b then 1.0 else 0.0)
    case Int(i) => Success(i as real)
    case Num(r) => Success(r)
    case Str(s) =>
      (match Text.ParseReal(s)
       case Some(x) => Success(x)
       case None => Failure(ValueError))
    case _ => Failure(TypeError)
  }

  /** Python `v[key]` with a string key. */
  function Lookup(v: Json, key: string): (r: Result<Json, Exc>)
    ensures r.Success? <==> v.Obj? && key in v.fields
    ensures r.Success? ==> r.value == v.fields[key]
  {
    match v
    case Obj(m) => if key in m then Success(m[key]) else Failure(KeyError)
    case _ => Failure(TypeError)
  }

  /** Python `v.get(key, default)`: only a dict has `get`. */
  function GetOr(v: Json, key: string, default: Json): (r: Result<Json, Exc>)
    ensures r.Success? <==> v.Obj?
    ensures v.Obj? ==> r.value == (if key in v.fields then v.fields[key] else default)
  {
    match v
    case Obj(m) => Success(if key in m then m[key] else default)
    case _ => Failure(AttributeError)
  }

  /** Python `v[i]` with an integer index (negative indexes count from the end). */
  function At(v: Json, i: int): (r: Result<Json, Exc>)
    ensures v.Arr? && 0 <= i < |v.items| ==> r == Success(v.items[i])
    ensures v.Arr? && (i >= |v.items| || i < -|v.items|) ==> r == Failure(IndexError)
  {
    match v
    case Arr(a) =>
      if 0 <= i < |a| then Success(a[i])
      else if -|a| <= i < 0 then Success(a[|a| + i])
      else Failure(IndexError)
    case Str(s) =>
      if 0 <= i < |s| then Success(Str([s[i]]))
      else if -|s| <= i < 0 then Success(Str([s[|s| + i]]))
      else Failure(IndexError)
    case Obj(_) => Failure(KeyError)
    case _ => Failure(TypeError)
  }

  /** Python `needle in hay` where the needle is a string. */
  function StrIn(needle: string, hay: Json): (r: Result<bool, Exc>)
    ensures hay.Str? ==> r == Success(Text.Contains(hay.s, needle))
    ensures hay.Obj? ==> r == Success(needle in hay.fields)
  {
    match hay
    case Str(s) => Success(Text.Contains(s, needle))
    case Arr(a) => Success(exists k | 0 <= k < |a| :: a[k] == Str(needle))
    case Obj(m) => Success(needle in m)
    case _ => Failure(TypeError)
  }
}
