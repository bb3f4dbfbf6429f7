/**
  The settings records of the bot and the run state. `TradeSettings` and `CoinSettings`
  are plain dataclasses: an instance is one value per field in declaration order, and
  since a dataclass does not check the types of its fields, a value is any Python value.
 */
module Settings {
  import opened Wrappers
  import opened Json

  /** A dataclass: its field names in declaration order and their defaults. */
  datatype Schema = Schema(names: seq<string>, defaults: seq<Json>)

  predicate ValidSchema(s: Schema) {
    |s.names| == |s.defaults| &&
    forall i, j | 0 <= i < j < |s.names| :: s.names[i] != s.names[j]
  }

  /** One value per field, in declaration order. */
  predicate IsInstance(s: Schema, x: seq<Json>) {
    |x| == |s.names|
  }

  /** The trading parameters; the integer defaults stay Python `int`s until `update`. */
  const TradeSettings: Schema := Schema(
    ["size", "balance", "take_profit", "hedge_percentage", "hedge_stop_loss_percentage", "leverage"],
    [Int(1), Int(80), Int(3), Int(3), Num(0.5), Int(10)])

  /** The screening thresholds. */
  const CoinSettings: Schema := Schema(
    ["volume_long", "volume_short", "long_percentage", "short_percentage"],
    [Num(300000000.0), Num(300000000.0), Num(90.0), Num(10.0)])

  /** Every default is a number, as `initialize` can store only numbers and strings. */
  predicate NumericDefaults(s: Schema) {
    forall i | 0 <= i < |s.defaults| :: s.defaults[i].Int? || s.defaults[i].Num?
  }

  lemma SchemasValid()
    ensures ValidSchema(TradeSettings) && NumericDefaults(TradeSettings) && |TradeSettings.names| == 6
    ensures ValidSchema(CoinSettings) && NumericDefaults(CoinSettings) && |CoinSettings.names| == 4
  {
  }

  /** The instance built with no arguments. */
  function Default(s: Schema): (x: seq<Json>)
    requires ValidSchema(s)
    ensures IsInstance(s, x)
  {
    s.defaults
  }

  /** `asdict(x)`: each field name mapped to its value. */
  function ToDict(s: Schema, x: seq<Json>): (d: map<string, Json>)
    requires ValidSchema(s) && IsInstance(s, x)
    ensures forall k | k in d :: k in s.names
    ensures forall i | 0 <= i < |s.names| :: s.names[i] in d && d[s.names[i]] == x[i]
  {
    map i | 0 <= i < |s.names| :: s.names[i] := x[i]
  }

  /** The value `cls(**data)` gives field `i`: the argument if passed, else the default. */
  function Argument(s: Schema, data: map<string, Json>, i: int): Json
    requires ValidSchema(s) && 0 <= i < |s.names|
  {
    if s.names[i] in data then data[s.names[i]] else s.defaults[i]
  }

  /** `cls(**data)`: a key that names no field is a TypeError (unexpected keyword argument). */
  function FromDict(s: Schema, data: map<string, Json>): (r: Result<seq<Json>, Exc>)
    requires ValidSchema(s)
    ensures r.Success? <==> forall k | k in data :: k in s.names
    ensures r.Failure? ==> r.error == TypeError
    ensures r.Success? ==> IsInstance(s, r.value)
  {
    if forall k | k in data :: k in s.names then
      Success(seq(|s.names|, i requires 0 <= i < |s.names| => Argument(s, data, i)))
    else Failure(TypeError)
  }

  /** Building from the dict of an instance gives the instance back. */
  lemma FromDictToDict(s: Schema, x: seq<Json>)
    requires ValidSchema(s) && IsInstance(s, x)
    ensures FromDict(s, ToDict(s, x)) == Success(x)
  {
    var d := ToDict(s, x);
    assert forall k | k in d :: k in s.names;
    var r := FromDict(s, d);
    assert r.Success?;
    assert forall i | 0 <= i < |s.names| :: r.value[i] == Argument(s, d, i) == x[i];
    assert r.value == x;
  }

  /** A dict naming every field, and only fields, names the fields of the instance built from it. */
  lemma ToDictFromDictKeys(s: Schema, data: map<string, Json>)
    requires ValidSchema(s)
    requires forall k | k in data :: k in s.names
    requires forall i | 0 <= i < |s.names| :: s.names[i] in data
    ensures FromDict(s, data).Success? && ToDict(s, FromDict(s, data).value).Keys == data.Keys
  {
    var d := ToDict(s, FromDict(s, data).value);
    forall k | k in data ensures k in d {
      var i :| 0 <= i < |s.names| && s.names[i] == k;
    }
  }

  /** Each field of the instance built from such a dict holds the dict's value. */
  lemma ToDictFromDictValues(s: Schema, data: map<string, Json>)
    requires ValidSchema(s)
    requires forall k | k in data :: k in s.names
    ensures FromDict(s, data).Success?
    ensures forall k | k in data && k in ToDict(s, FromDict(s, data).value) ::
      ToDict(s, FromDict(s, data).value)[k] == data[k]
  {
    var x := FromDict(s, data).value;
    var d := ToDict(s, x);
    forall k | k in data && k in d ensures d[k] == data[k] {
      var i :| 0 <= i < |s.names| && s.names[i] == k;
      FromDictFields(s, data, i);
    }
  }

  /** A dict naming every field, and only fields, survives the trip through an instance. */
  lemma ToDictFromDict(s: Schema, data: map<string, Json>)
    requires ValidSchema(s)
    requires forall k | k in data :: k in s.names
    requires forall i | 0 <= i < |s.names| :: s.names[i] in data
    ensures FromDict(s, data).Success? && ToDict(s, FromDict(s, data).value) == data
  {
    ToDictFromDictKeys(s, data);
    ToDictFromDictValues(s, data);
  }

  /** Fields missing from the dict take their defaults; present ones take the dict's value. */
  lemma FromDictFields(s: Schema, data: map<string, Json>, i: int)
    requires ValidSchema(s) && 0 <= i < |s.names|
    requires FromDict(s, data).Success?
    ensures s.names[i] !in data ==> FromDict(s, data).value[i] == s.defaults[i]
    ensures s.names[i] in data ==> FromDict(s, data).value[i] == data[s.names[i]]
  {
  }

  /** The field `update` can set: absent from the data, or a value `float()` accepts. */
  predicate Converts(s: Schema, newData: map<string, Json>, j: int)
    requires 0 <= j < |s.names|
  {
    s.names[j] !in newData || PyFloat(newData[s.names[j]]).Success?
  }

  /** The value field `j` holds after `update` reaches it without error. */
  function Updated(s: Schema, x: seq<Json>, newData: map<string, Json>, j: int): Json
    requires IsInstance(s, x) && 0 <= j < |s.names| && Converts(s, newData, j)
  {
    if s.names[j] in newData then Num(PyFloat(newData[s.names[j]]).value) else x[j]
  }

  /**
    `update(new_data)` from field `i` on: each field present in the data is replaced by
    `float()` of its value, in declaration order; the first `float()` that raises stops
    the loop with the earlier fields already replaced.
   */
  function UpdateFrom(s: Schema, x: seq<Json>, newData: map<string, Json>, i: nat): (r: (seq<Json>, Option<Exc>))
    requires IsInstance(s, x) && i <= |s.names|
    ensures IsInstance(s, r.0)
    decreases |s.names| - i
  {
    if i == |s.names| then (x, None)
    else if s.names[i] !in newData then UpdateFrom(s, x, newData, i + 1)
    else
      match PyFloat(newData[s.names[i]])
      case Success(v) => UpdateFrom(s, x[i := Num(v)], newData, i + 1)
      case Failure(e) => (x, Some(e))
  }

  /** `x.update(new_data)`: the updated instance and the exception it ended with, if any. */
  function Update(s: Schema, x: seq<Json>, newData: map<string, Json>): (r: (seq<Json>, Option<Exc>))
    requires IsInstance(s, x)
    ensures IsInstance(s, r.0)
  {
    UpdateFrom(s, x, newData, 0)
  }

  /** From index `i` on, with every field converting, the loop sets each present field. */
  lemma {:induction false} UpdateFromAll(s: Schema, x: seq<Json>, newData: map<string, Json>, i: nat)
    requires IsInstance(s, x) && i <= |s.names|
    requires forall j | i <= j < |s.names| :: Converts(s, newData, j)
    ensures UpdateFrom(s, x, newData, i).1 == None
    ensures forall j | 0 <= j < i :: UpdateFrom(s, x, newData, i).0[j] == x[j]
    ensures forall j | i <= j < |s.names| :: UpdateFrom(s, x, newData, i).0[j] == Updated(s, x, newData, j)
    decreases |s.names| - i
  {
    if i < |s.names| {
      if s.names[i] !in newData {
        UpdateFromAll(s, x, newData, i + 1);
      } else {
        assert Converts(s, newData, i);
        var x' := x[i := Num(PyFloat(newData[s.names[i]]).value)];
        assert forall j | i + 1 <= j < |s.names| :: Updated(s, x', newData, j) == Updated(s, x, newData, j);
        UpdateFromAll(s, x', newData, i + 1);
      }
    }
  }

  /**
    When every present value converts, `update` sets exactly the fields present in the
    data to their `float()` values, ignores keys that name no field and leaves the rest.
   */
  lemma UpdateAllConvert(s: Schema, x: seq<Json>, newData: map<string, Json>)
    requires IsInstance(s, x)
    requires forall j | 0 <= j < |s.names| :: Converts(s, newData, j)
    ensures Update(s, x, newData).1 == None
    ensures forall j | 0 <= j < |s.names| && s.names[j] !in newData :: Update(s, x, newData).0[j] == x[j]
    ensures forall j | 0 <= j < |s.names| && s.names[j] in newData ::
      PyFloat(newData[s.names[j]]).Success? &&
      Update(s, x, newData).0[j] == Num(PyFloat(newData[s.names[j]]).value)
  {
    UpdateFromAll(s, x, newData, 0);
    forall j | 0 <= j < |s.names| && s.names[j] in newData
      ensures PyFloat(newData[s.names[j]]).Success?
    {
      assert Converts(s, newData, j);
    }
  }

  /** From index `i` on, the loop raises the error of field `f`, the first that does not convert. */
  lemma {:induction false} UpdateFromFails(s: Schema, x: seq<Json>, newData: map<string, Json>, i: nat, f: nat)
    requires IsInstance(s, x) && i <= f < |s.names|
    requires !Converts(s, newData, f)
    requires forall j | i <= j < f :: Converts(s, newData, j)
    ensures UpdateFrom(s, x, newData, i).1 == Some(PyFloat(newData[s.names[f]]).error)
    ensures forall j | 0 <= j < i :: UpdateFrom(s, x, newData, i).0[j] == x[j]
    ensures forall j | i <= j < f :: UpdateFrom(s, x, newData, i).0[j] == Updated(s, x, newData, j)
    ensures forall j | f <= j < |s.names| :: UpdateFrom(s, x, newData, i).0[j] == x[j]
    decreases f - i
  {
    if i < f {
      if s.names[i] !in newData {
        UpdateFromFails(s, x, newData, i + 1, f);
      } else {
        assert Converts(s, newData, i);
        var x' := x[i := Num(PyFloat(newData[s.names[i]]).value)];
        assert forall j | i + 1 <= j < f :: Updated(s, x', newData, j) == Updated(s, x, newData, j);
        UpdateFromFails(s, x', newData, i + 1, f);
      }
    }
  }

  /**
    When field `f` is the first present field whose value `float()` rejects, `update`
    raises that error after setting the earlier fields and before touching `f` or later ones.
   */
  lemma UpdateStopsAtFirstFailure(s: Schema, x: seq<Json>, newData: map<string, Json>, f: nat)
    requires IsInstance(s, x) && f < |s.names|
    requires !Converts(s, newData, f)
    requires forall j | 0 <= j < f :: Converts(s, newData, j)
    ensures Update(s, x, newData).1 == Some(PyFloat(newData[s.names[f]]).error)
    ensures forall j | 0 <= j < f :: Update(s, x, newData).0[j] == Updated(s, x, newData, j)
    ensures forall j | f <= j < |s.names| :: Update(s, x, newData).0[j] == x[j]
  {
    UpdateFromFails(s, x, newData, 0, f);
  }

  /** The run state of a user's bot. */
  datatype Run = Active | Hedge | Off

  /** The enum member's value. */
  function RunValue(r: Run): string {
    match r
    case Active => "active"
    case Hedge => "hedge"
    case Off => "off"
  }

  /** `Run(v)`: a lookup by value; anything other than the three value strings is a ValueError. */
  function RunOf(v: Json): (r: Result<Run, Exc>)
    ensures r.Success? <==> v == Str("active") || v == Str("hedge") || v == Str("off")
    ensures r.Failure? ==> r.error == ValueError
  {
    if v == Str("active") then Success(Active)
    else if v == Str("hedge") then Success(Hedge)
    else if v == Str("off") then Success(Off)
    else Failure(ValueError)
  }

  /** Each member is found by its value, and the three values are distinct. */
  lemma RunValues(r: Run, r': Run)
    ensures RunOf(Str(RunValue(r))) == Success(r)
    ensures RunValue(r) == RunValue(r') ==> r == r'
  {
  }
}
