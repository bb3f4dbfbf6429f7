/**
  The hedge positions of one user. Each coin has a `HedgePosition` with an optional main
  leg (the entry order) and an optional secondary leg (the hedge). The manager keeps them
  in an insertion-ordered dict and mirrors each entry, as its dict form, into the user's
  `hedge_positions:<id>` hash; the hash is modelled with the JSON values before
  `json.dumps`.
 */
module Orders {
  import opened Wrappers
  import opened Json
  import ODict
  import TradeUtils

  /** The exchange's position index: one-way long and short sides. */
  datatype PositionIdx = Long | Short

  function IdxValue(p: PositionIdx): int {
    match p
    case Long => 1
    case Short => 2
  }

  /**
    `PositionIdx(v)`: a lookup by value, so `1`, `1.0` and `True` all give LONG; every
    other value is a ValueError.
   */
  function IdxOf(v: Json): (r: Result<PositionIdx, Exc>)
    ensures r.Success? <==> NumberOf(v) == Some(1.0) || NumberOf(v) == Some(2.0)
    ensures r.Success? ==> NumberOf(v) == Some(IdxValue(r.value) as real)
    ensures r.Failure? ==> r.error == ValueError
  {
    if NumberOf(v) == Some(1.0) then Success(Long)
    else if NumberOf(v) == Some(2.0) then Success(Short)
    else Failure(ValueError)
  }

  /** The enum has exactly two members, each found by its stored value. */
  lemma IdxValues(p: PositionIdx, q: PositionIdx)
    ensures IdxOf(Int(IdxValue(p))) == Success(p)
    ensures IdxValue(p) == IdxValue(q) ==> p == q
    ensures IdxValue(p) == 1 || IdxValue(p) == 2
  {
  }

  /** A `MainPosition`: the dataclass does not check types, so every field but the index is any value. */
  datatype MainLeg = MainLeg(
    size: Json, amount: Json, entryPrice: Json, idx: PositionIdx, tpslOrderId: Json,
    updatedTime: Json, takeProfitPrice: Json, trackingPrice: Json)

  /** A `SecondaryPosition`. */
  datatype SecondaryLeg = SecondaryLeg(
    size: Json, amount: Json, entryPrice: Json, idx: PositionIdx, tpslOrderId: Json,
    updatedTime: Json, stopLossPrice: Json)

  /** The fields of the two leg dataclasses. */
  datatype Field =
    | Size | Amount | EntryPrice | PosIdx | TpslOrderId | UpdatedTime
    | TakeProfitPrice | TrackingPrice | StopLossPrice

  /** The field's name, the key of the dict form. */
  function FieldName(f: Field): string {
    match f
    case Size => "size"
    case Amount => "amount"
    case EntryPrice => "entry_price"
    case PosIdx => "position_idx"
    case TpslOrderId => "tpsl_order_id"
    case UpdatedTime => "updated_time"
    case TakeProfitPrice => "take_profit_price"
    case TrackingPrice => "tracking_price"
    case StopLossPrice => "stop_loss_price"
  }

  /** The field a key names, if any. */
  function FieldOf(name: string): (r: Option<Field>)
    ensures r.Some? ==> FieldName(r.value) == name
  {
    if name == "size" then Some(Size)
    else if name == "amount" then Some(Amount)
    else if name == "entry_price" then Some(EntryPrice)
    else if name == "position_idx" then Some(PosIdx)
    else if name == "tpsl_order_id" then Some(TpslOrderId)
    else if name == "updated_time" then Some(UpdatedTime)
    else if name == "take_profit_price" then Some(TakeProfitPrice)
    else if name == "tracking_price" then Some(TrackingPrice)
    else if name == "stop_loss_price" then Some(StopLossPrice)
    else None
  }

  /** Every field is found by its name, so no two fields share one. */
  lemma FieldOfName(f: Field)
    ensures FieldOf(FieldName(f)) == Some(f)
  {
  }

  predicate IsMainField(f: Field) {
    f != StopLossPrice
  }

  predicate IsSecondaryField(f: Field) {
    f != TakeProfitPrice && f != TrackingPrice
  }

  /** A main leg's fields without a default: all but `tracking_price`. */
  predicate MainRequired(f: Field) {
    IsMainField(f) && f != TrackingPrice
  }

  /** A field's value in a main leg, the index as its int value; a main leg has no stop loss. */
  function MainValue(p: MainLeg, f: Field): Json {
    match f
    case Size => p.size
    case Amount => p.amount
    case EntryPrice => p.entryPrice
    case PosIdx => Int(IdxValue(p.idx))
    case TpslOrderId => p.tpslOrderId
    case UpdatedTime => p.updatedTime
    case TakeProfitPrice => p.takeProfitPrice
    case TrackingPrice => p.trackingPrice
    case StopLossPrice => Null
  }

  /** A field's value in a secondary leg; a secondary leg has no take profit or tracking price. */
  function SecondaryValue(p: SecondaryLeg, f: Field): Json {
    match f
    case Size => p.size
    case Amount => p.amount
    case EntryPrice => p.entryPrice
    case PosIdx => Int(IdxValue(p.idx))
    case TpslOrderId => p.tpslOrderId
    case UpdatedTime => p.updatedTime
    case StopLossPrice => p.stopLossPrice
    case TakeProfitPrice => Null
    case TrackingPrice => Null
  }

  /** Every key names one of the given fields. */
  predicate KeysOf(m: map<string, Json>, isField: Field -> bool) {
    forall k | k in m :: FieldOf(k).Some? && isField(FieldOf(k).value)
  }

  /** Every one of the given fields has a key. */
  predicate HasFields(m: map<string, Json>, isField: Field -> bool) {
    forall f | isField(f) :: FieldName(f) in m
  }

  /** The dict with one key per given field, each holding that field's value. */
  function FieldsDict(isField: Field -> bool, value: Field -> Json): (d: map<string, Json>)
    ensures KeysOf(d, isField) && HasFields(d, isField)
    ensures forall f | isField(f) :: d[FieldName(f)] == value(f)
  {
    var names := set f: Field | isField(f) :: FieldName(f);
    assert forall k | k in names :: FieldOf(k).Some? && isField(FieldOf(k).value) by {
      forall k | k in names ensures FieldOf(k).Some? && isField(FieldOf(k).value) {
        var f :| isField(f) && FieldName(f) == k;
        FieldOfName(f);
      }
    }
    assert forall f | isField(f) :: FieldOf(FieldName(f)) == Some(f) by {
      forall f | isField(f) ensures FieldOf(FieldName(f)) == Some(f) {
        FieldOfName(f);
      }
    }
    map k | k in names :: value(FieldOf(k).value)
  }

  /** `to_dict()`: `asdict` with the index stored as its int value. */
  function MainToDict(p: MainLeg): (d: map<string, Json>)
    ensures KeysOf(d, IsMainField) && HasFields(d, IsMainField)
    ensures forall f | IsMainField(f) :: d[FieldName(f)] == MainValue(p, f)
  {
    FieldsDict(IsMainField, f => MainValue(p, f))
  }

  function SecondaryToDict(p: SecondaryLeg): (d: map<string, Json>)
    ensures KeysOf(d, IsSecondaryField) && HasFields(d, IsSecondaryField)
    ensures forall f | IsSecondaryField(f) :: d[FieldName(f)] == SecondaryValue(p, f)
  {
    FieldsDict(IsSecondaryField, f => SecondaryValue(p, f))
  }

  /** The index a dict holds is present and converts. */
  predicate IdxConverts(m: map<string, Json>) {
    FieldName(PosIdx) in m && IdxOf(m[FieldName(PosIdx)]).Success?
  }

  /** The index a dict holds is present and does not convert. */
  predicate IdxRejected(m: map<string, Json>) {
    FieldName(PosIdx) in m && IdxOf(m[FieldName(PosIdx)]).Failure?
  }

  /**
    `MainPosition.from_dict(data)`: a present index is converted first (ValueError);
    then `cls(**data)` raises TypeError for a non-dict, an unknown key or a missing
    required field. `tracking_price` defaults to None.
   */
  function MainFromDict(data: Json): (r: Result<MainLeg, Exc>)
    ensures r.Success? <==>
      data.Obj? && IdxConverts(data.fields) && KeysOf(data.fields, IsMainField) && HasFields(data.fields, MainRequired)
    ensures data.Obj? && IdxRejected(data.fields) ==> r == Failure(ValueError)
    ensures r.Failure? ==> r.error == ValueError || r.error == TypeError
  {
    if !data.Obj? then Failure(TypeError)
    else
      var m := data.fields;
      if IdxRejected(m) then Failure(ValueError)
      else if !KeysOf(m, IsMainField) || !HasFields(m, MainRequired) then Failure(TypeError)
      else
        assert MainRequired(Size) && MainRequired(Amount) && MainRequired(EntryPrice) && MainRequired(PosIdx);
        assert MainRequired(TpslOrderId) && MainRequired(UpdatedTime) && MainRequired(TakeProfitPrice);
        Success(MainLeg(
          m[FieldName(Size)], m[FieldName(Amount)], m[FieldName(EntryPrice)], IdxOf(m[FieldName(PosIdx)]).value,
          m[FieldName(TpslOrderId)], m[FieldName(UpdatedTime)], m[FieldName(TakeProfitPrice)],
          if FieldName(TrackingPrice) in m then m[FieldName(TrackingPrice)] else Null))
  }

  /** `SecondaryPosition.from_dict(data)`: every field is required. */
  function SecondaryFromDict(data: Json): (r: Result<SecondaryLeg, Exc>)
    ensures r.Success? <==>
      data.Obj? && IdxConverts(data.fields) && KeysOf(data.fields, IsSecondaryField) && HasFields(data.fields, IsSecondaryField)
    ensures data.Obj? && IdxRejected(data.fields) ==> r == Failure(ValueError)
    ensures r.Failure? ==> r.error == ValueError || r.error == TypeError
  {
    if !data.Obj? then Failure(TypeError)
    else
      var m := data.fields;
      if IdxRejected(m) then Failure(ValueError)
      else if !KeysOf(m, IsSecondaryField) || !HasFields(m, IsSecondaryField) then Failure(TypeError)
      else
        assert IsSecondaryField(Size) && IsSecondaryField(Amount) && IsSecondaryField(EntryPrice);
        assert IsSecondaryField(PosIdx) && IsSecondaryField(TpslOrderId) && IsSecondaryField(UpdatedTime);
        assert IsSecondaryField(StopLossPrice);
        Success(SecondaryLeg(
          m[FieldName(Size)], m[FieldName(Amount)], m[FieldName(EntryPrice)], IdxOf(m[FieldName(PosIdx)]).value,
          m[FieldName(TpslOrderId)], m[FieldName(UpdatedTime)], m[FieldName(StopLossPrice)]))
  }

  /** A main leg survives the trip through its dict form. */
  lemma MainRoundTrip(p: MainLeg)
    ensures MainFromDict(Obj(MainToDict(p))) == Success(p)
  {
    var d := MainToDict(p);
    MainToDictReadable(p);
    MainFromReadable(d);
    assert IsMainField(Size) && IsMainField(Amount) && IsMainField(EntryPrice) && IsMainField(PosIdx);
    assert IsMainField(TpslOrderId) && IsMainField(UpdatedTime) && IsMainField(TakeProfitPrice) && IsMainField(TrackingPrice);
    IdxValues(p.idx, p.idx);
  }

  /** The dict form of a main leg passes every check of `from_dict`. */
  lemma MainToDictReadable(p: MainLeg)
    ensures IdxConverts(MainToDict(p)) && KeysOf(MainToDict(p), IsMainField) && HasFields(MainToDict(p), MainRequired)
  {
    var d := MainToDict(p);
    assert IsMainField(PosIdx);
    IdxValues(p.idx, p.idx);
    assert HasFields(d, MainRequired) by {
      forall f | MainRequired(f) ensures FieldName(f) in d {
        assert IsMainField(f);
      }
    }
  }

  /** A dict that passes the checks is read field by field. */
  lemma MainFromReadable(m: map<string, Json>)
    requires IdxConverts(m) && KeysOf(m, IsMainField) && HasFields(m, MainRequired)
    ensures MainRequired(Size) && MainRequired(Amount) && MainRequired(EntryPrice) && MainRequired(PosIdx)
    ensures MainRequired(TpslOrderId) && MainRequired(UpdatedTime) && MainRequired(TakeProfitPrice)
    ensures MainFromDict(Obj(m)) == Success(MainLeg(
      m[FieldName(Size)], m[FieldName(Amount)], m[FieldName(EntryPrice)], IdxOf(m[FieldName(PosIdx)]).value,
      m[FieldName(TpslOrderId)], m[FieldName(UpdatedTime)], m[FieldName(TakeProfitPrice)],
      if FieldName(TrackingPrice) in m then m[FieldName(TrackingPrice)] else Null))
  {
  }

  /** The dict form of a secondary leg passes every check of `from_dict`. */
  lemma SecondaryToDictReadable(q: SecondaryLeg)
    ensures IdxConverts(SecondaryToDict(q)) && KeysOf(SecondaryToDict(q), IsSecondaryField)
    ensures HasFields(SecondaryToDict(q), IsSecondaryField)
  {
    var d := SecondaryToDict(q);
    assert IsSecondaryField(PosIdx);
    IdxValues(q.idx, q.idx);
    assert HasFields(d, IsSecondaryField) by {
      forall f | IsSecondaryField(f) ensures FieldName(f) in d {
      }
    }
  }

  /** A dict that passes the checks is read field by field. */
  lemma SecondaryFromReadable(m: map<string, Json>)
    requires IdxConverts(m) && KeysOf(m, IsSecondaryField) && HasFields(m, IsSecondaryField)
    ensures IsSecondaryField(Size) && IsSecondaryField(Amount) && IsSecondaryField(EntryPrice)
    ensures IsSecondaryField(PosIdx) && IsSecondaryField(TpslOrderId) && IsSecondaryField(UpdatedTime)
    ensures IsSecondaryField(StopLossPrice)
    ensures SecondaryFromDict(Obj(m)) == Success(SecondaryLeg(
      m[FieldName(Size)], m[FieldName(Amount)], m[FieldName(EntryPrice)], IdxOf(m[FieldName(PosIdx)]).value,
      m[FieldName(TpslOrderId)], m[FieldName(UpdatedTime)], m[FieldName(StopLossPrice)]))
  {
  }

  /** A secondary leg survives the trip through its dict form. */
  lemma SecondaryRoundTrip(q: SecondaryLeg)
    ensures SecondaryFromDict(Obj(SecondaryToDict(q))) == Success(q)
  {
    var d := SecondaryToDict(q);
    SecondaryToDictReadable(q);
    SecondaryFromReadable(d);
    IdxValues(q.idx, q.idx);
  }

  /** A `HedgePosition`: the coin and its two optional legs. */
  datatype HedgePosition = HedgePosition(coin: Json, main: Option<MainLeg>, secondary: Option<SecondaryLeg>)

  /** `to_dict()`: the coin, and each leg that is present (a dataclass instance is always truthy). */
  function HedgeToDict(h: HedgePosition): (d: map<string, Json>)
    ensures "coin" in d && d["coin"] == h.coin
    ensures "main_position" in d <==> h.main.Some?
    ensures "secondary_position" in d <==> h.secondary.Some?
    ensures h.main.Some? ==> d["main_position"] == Obj(MainToDict(h.main.value))
    ensures h.secondary.Some? ==> d["secondary_position"] == Obj(SecondaryToDict(h.secondary.value))
    ensures forall k | k in d :: k == "coin" || k == "main_position" || k == "secondary_position"
  {
    var d := map["coin" := h.coin];
    var d := if h.main.Some? then d["main_position" := Obj(MainToDict(h.main.value))] else d;
    if h.secondary.Some? then d["secondary_position" := Obj(SecondaryToDict(h.secondary.value))] else d
  }

  /**
    `HedgePosition.from_dict(data)`: `data["coin"]` is required (KeyError, or TypeError for
    a non-dict); each leg key whose value is truthy is parsed, the main leg first.
   */
  function HedgeFromDict(data: Json): (r: Result<HedgePosition, Exc>)
    ensures r.Success? ==> data.Obj? && "coin" in data.fields && r.value.coin == data.fields["coin"]
    ensures r.Success? ==> (r.value.main.Some? <==> "main_position" in data.fields && Truthy(data.fields["main_position"]))
    ensures r.Success? ==> (r.value.secondary.Some? <==> "secondary_position" in data.fields && Truthy(data.fields["secondary_position"]))
  {
    var coin :- Lookup(data, "coin");
    var m := data.fields;
    var main :-
      if "main_position" in m && Truthy(m["main_position"]) then
        match MainFromDict(m["main_position"])
        case Success(p) => Success(Some(p))
        case Failure(e) => Failure(e)
      else Success(None);
    var secondary :-
      if "secondary_position" in m && Truthy(m["secondary_position"]) then
        match SecondaryFromDict(m["secondary_position"])
        case Success(p) => Success(Some(p))
        case Failure(e) => Failure(e)
      else Success(None);
    Success(HedgePosition(coin, main, secondary))
  }

  /** `HedgePosition.from_dict(h.to_dict()) == h`. */
  lemma HedgeRoundTrip(h: HedgePosition)
    ensures HedgeFromDict(Obj(HedgeToDict(h))) == Success(h)
  {
    if h.main.Some? {
      MainRoundTrip(h.main.value);
      assert Truthy(Obj(MainToDict(h.main.value))) by {
        assert IsMainField(Size);
      }
    }
    if h.secondary.Some? {
      SecondaryRoundTrip(h.secondary.value);
      assert Truthy(Obj(SecondaryToDict(h.secondary.value))) by {
        assert IsSecondaryField(Size);
      }
    }
  }

  /** The manager: the in-memory positions keyed by symbol (None when the exchange sent none) and the hash. */
  datatype Manager = Manager(positions: Positions, persisted: map<string, Json>)

  type Positions = ODict.ODict<Option<string>, HedgePosition>

  /** An entry with at least one leg. */
  predicate HasLeg(h: HedgePosition) {
    h.main.Some? || h.secondary.Some?
  }

  /** Every stored entry has at least one leg. */
  ghost predicate NonEmpty(m: Manager) {
    forall k | ODict.HasKey(m.positions, k) :: HasLeg(ODict.Get(m.positions, k).value)
  }

  /** The hash holds exactly the dict form of each in-memory entry with a symbol. */
  ghost predicate Mirror(m: Manager) {
    (forall c: string | ODict.HasKey(m.positions, Some(c)) :: c in m.persisted) &&
    (forall c | c in m.persisted ::
      ODict.HasKey(m.positions, Some(c)) && m.persisted[c] == Obj(HedgeToDict(ODict.Get(m.positions, Some(c)).value)))
  }

  ghost predicate Valid(m: Manager) {
    ODict.Unique(m.positions) && NonEmpty(m) && Mirror(m)
  }

  /** The manager after an operation, what the operation returned, and the exception it raised. */
  datatype Step<T> = Step(state: Manager, value: T, error: Option<Exc>)

  /**
    `save_position_to_redis(coin)`: write the entry's dict form, or delete the field when
    the entry is gone. A None field name makes redis raise DataError and writes nothing.
   */
  function Save(m: Manager, coin: Option<string>): (r: Step<()>)
    ensures r.state.positions == m.positions
    ensures r.error.Some? <==> coin.None?
    ensures coin.None? ==> r.state == m && r.error == Some(DataError)
    ensures coin.Some? && ODict.HasKey(m.positions, coin) ==>
      coin.value in r.state.persisted && r.state.persisted[coin.value] == Obj(HedgeToDict(ODict.Get(m.positions, coin).value))
    ensures coin.Some? && !ODict.HasKey(m.positions, coin) ==> coin.value !in r.state.persisted
    ensures coin.Some? ==> forall c | c != coin.value ::
      (c in r.state.persisted <==> c in m.persisted) && (c in m.persisted ==> r.state.persisted[c] == m.persisted[c])
  {
    match coin
    case None => Step(m, (), Some(DataError))
    case Some(c) =>
      match ODict.Get(m.positions, coin)
      case Some(h) => Step(Manager(m.positions, m.persisted[c := Obj(HedgeToDict(h))]), (), None)
      case None => Step(Manager(m.positions, m.persisted - {c}), (), None)
  }

  /** Every key but `coin` looks up the same entry in both. */
  ghost predicate SameExcept(d: Positions, e: Positions, coin: Option<string>) {
    forall k | k != coin :: ODict.Get(d, k) == ODict.Get(e, k)
  }

  /**
    Changing only the entry of `coin` and then saving it keeps the hash a mirror: the
    save rewrites exactly the field that changed.
   */
  lemma SaveMirrors(m: Manager, positions: Positions, coin: Option<string>)
    requires Mirror(m) && SameExcept(positions, m.positions, coin)
    ensures Mirror(Save(Manager(positions, m.persisted), coin).state)
  {
    var r := Save(Manager(positions, m.persisted), coin).state;
    forall c: string | ODict.HasKey(r.positions, Some(c)) ensures c in r.persisted {
      assert ODict.Get(positions, Some(c)).Some?;
      if Some(c) != coin {
        assert ODict.Get(m.positions, Some(c)).Some?;
      }
    }
    forall c | c in r.persisted
      ensures ODict.HasKey(r.positions, Some(c)) && r.persisted[c] == Obj(HedgeToDict(ODict.Get(r.positions, Some(c)).value))
    {
      if Some(c) != coin {
        assert ODict.Get(positions, Some(c)) == ODict.Get(m.positions, Some(c));
      }
    }
  }

  /** The same change keeps every entry non-empty when the new entry of `coin` is. */
  lemma ChangeNonEmpty(m: Manager, positions: Positions, coin: Option<string>, persisted: map<string, Json>)
    requires NonEmpty(m) && SameExcept(positions, m.positions, coin)
    requires ODict.Get(positions, coin).Some? ==> HasLeg(ODict.Get(positions, coin).value)
    ensures NonEmpty(Manager(positions, persisted))
  {
    forall k | ODict.HasKey(positions, k) ensures HasLeg(ODict.Get(positions, k).value) {
      if k != coin {
        assert ODict.Get(m.positions, k).Some?;
      }
    }
  }

  /**
    The step every mutation ends with: the positions change only at `coin`, and the
    entry is saved. A valid manager stays valid when the new entry has a leg or is gone.
   */
  lemma CommitValid(m: Manager, positions: Positions, coin: Option<string>)
    requires Valid(m) && ODict.Unique(positions) && SameExcept(positions, m.positions, coin)
    requires ODict.Get(positions, coin).Some? ==> HasLeg(ODict.Get(positions, coin).value)
    ensures Valid(Save(Manager(positions, m.persisted), coin).state)
  {
    SaveMirrors(m, positions, coin);
    ChangeNonEmpty(m, positions, coin, Save(Manager(positions, m.persisted), coin).state.persisted);
  }

  /** Assignment to one key leaves the others. */
  lemma SetSameExcept(d: Positions, k: Option<string>, v: HedgePosition)
    ensures SameExcept(ODict.Set(d, k, v), d, k)
    ensures ODict.Get(ODict.Set(d, k, v), k) == Some(v)
  {
    forall k' | k' != k ensures ODict.Get(ODict.Set(d, k, v), k') == ODict.Get(d, k') {
      ODict.SetGet(d, k, v, k');
    }
    ODict.SetGet(d, k, v, k);
  }

  /** Deletion of one key leaves the others. */
  lemma RemoveSameExcept(d: Positions, k: Option<string>)
    requires ODict.Unique(d)
    ensures SameExcept(ODict.Remove(d, k), d, k)
    ensures ODict.Get(ODict.Remove(d, k), k) == None
  {
    forall k' | k' != k ensures ODict.Get(ODict.Remove(d, k), k') == ODict.Get(d, k') {
      ODict.RemoveGet(d, k, k');
    }
  }

  /** The fields both `set_*_position` read from an exchange position record. */
  datatype Reading = Reading(
    coin: Option<string>, idx: PositionIdx, size: real, amount: real, entryPrice: real,
    updatedTime: Json, target: real)

  /** `data.get(key, default)` on the record. */
  function GetOr(data: map<string, Json>, key: string, default: Json): Json {
    if key in data then data[key] else default
  }

  /** The leverage divisor: a zero leverage is replaced by 0.01. */
  function Leverage(data: map<string, Json>): (l: real)
    ensures l != 0.0
  {
    var l := TradeUtils.SafeFloat(GetOr(data, "leverage", Int(1)));
    if l == 0.0 then 0.01 else l
  }

  /**
    The record read by `set_main_position` (target `takeProfit`) or
    `set_secondary_position` (target `stopLoss`): the index is converted before anything
    else, and a missing index reads as 0, a ValueError. Coins are keyed by string; a
    `symbol` that is missing or not a string reads as None.
   */
  function Read(data: map<string, Json>, targetKey: string): (r: Result<Reading, Exc>)
    ensures r.Success? <==> IdxOf(Num(TradeUtils.SafeFloat(GetOr(data, "positionIdx", Int(0))))).Success?
    ensures r.Failure? ==> r.error == ValueError
    ensures "positionIdx" !in data ==> r == Failure(ValueError)
    ensures r.Success? ==> r.value.amount == TradeUtils.SafeFloat(GetOr(data, "positionValue", Int(0))) / Leverage(data)
  {
    var idx :- IdxOf(Num(TradeUtils.SafeFloat(GetOr(data, "positionIdx", Int(0)))));
    var coin := if "symbol" in data && data["symbol"].Str? then Some(data["symbol"].s) else None;
    Success(Reading(
      coin, idx,
      TradeUtils.SafeFloat(GetOr(data, "size", Null)),
      TradeUtils.SafeFloat(GetOr(data, "positionValue", Int(0))) / Leverage(data),
      TradeUtils.SafeFloat(GetOr(data, "avgPrice", Null)),
      GetOr(data, "updatedTime", Null),
      TradeUtils.SafeFloat(GetOr(data, targetKey, Null))))
  }

  /** The price at which the hedge opens: `hedge_percentage` below a long entry, above a short one. */
  function TrackingFor(idx: PositionIdx, entryPrice: real, hedgePercentage: real): (t: real)
    ensures entryPrice >= 0.0 && 0.0 <= hedgePercentage <= 100.0 && idx == Long ==> t <= entryPrice
    ensures entryPrice >= 0.0 && hedgePercentage >= 0.0 && idx == Short ==> t >= entryPrice
  {
    if idx == Long then entryPrice * (1.0 - hedgePercentage / 100.0)
    else entryPrice * (1.0 + hedgePercentage / 100.0)
  }

  /** The symbol of a dict key, as stored in a record. */
  function Symbol(coin: Option<string>): Json {
    if coin.Some? then Str(coin.value) else Null
  }

  /** The empty entry `HedgePosition(coin=coin)`. */
  function Fresh(coin: Option<string>): HedgePosition {
    HedgePosition(Symbol(coin), None, None)
  }

  /** The main leg `set_main_position` builds from a reading. */
  function NewMain(r: Reading, takeProfitOrderId: Json, hedgePercentage: real): MainLeg {
    MainLeg(
      Num(r.size), Num(r.amount), Num(r.entryPrice), r.idx, takeProfitOrderId, r.updatedTime,
      Num(r.target), Num(TrackingFor(r.idx, r.entryPrice, hedgePercentage)))
  }

  /** The secondary leg `set_secondary_position` builds from a reading. */
  function NewSecondary(r: Reading, stopLossOrderId: Json): SecondaryLeg {
    SecondaryLeg(
      Num(r.size), Num(r.amount), Num(r.entryPrice), r.idx, stopLossOrderId, r.updatedTime, Num(r.target))
  }

  /** The positions with the main leg of `coin` replaced, the entry created empty first if missing. */
  function WithMain(positions: Positions, coin: Option<string>, leg: MainLeg): (d: Positions)
    ensures SameExcept(d, positions, coin)
    ensures ODict.Get(d, coin) ==
      Some((if ODict.HasKey(positions, coin) then ODict.Get(positions, coin).value else Fresh(coin)).(main := Some(leg)))
    ensures ODict.Unique(positions) ==> ODict.Unique(d)
  {
    var h := if ODict.HasKey(positions, coin) then ODict.Get(positions, coin).value else Fresh(coin);
    SetSameExcept(positions, coin, h.(main := Some(leg)));
    assert ODict.Unique(positions) ==> ODict.Unique(ODict.Set(positions, coin, h.(main := Some(leg)))) by {
      if ODict.Unique(positions) {
        ODict.SetUnique(positions, coin, h.(main := Some(leg)));
      }
    }
    ODict.Set(positions, coin, h.(main := Some(leg)))
  }

  /**
    The update `set_main_position` makes once the record is read: create the entry if
    needed, replace its main leg and save it. The secondary leg and every other coin are
    left as they were.
   */
  function PutMain(m: Manager, rd: Reading, takeProfitOrderId: Json, hedgePercentage: real): (r: Step<()>)
    ensures
      var before := ODict.Get(m.positions, rd.coin);
      ODict.Get(r.state.positions, rd.coin) ==
        Some(HedgePosition(
          if before.Some? then before.value.coin else Symbol(rd.coin),
          Some(NewMain(rd, takeProfitOrderId, hedgePercentage)),
          if before.Some? then before.value.secondary else None))
    ensures SameExcept(r.state.positions, m.positions, rd.coin)
    ensures r.error == (if rd.coin.None? then Some(DataError) else None)
  {
    Save(Manager(WithMain(m.positions, rd.coin, NewMain(rd, takeProfitOrderId, hedgePercentage)), m.persisted), rd.coin)
  }

  /**
    `set_main_position(position_data, take_profit_order_id)`: the index is converted
    first, and a ValueError changes nothing.
   */
  function SetMain(m: Manager, data: map<string, Json>, takeProfitOrderId: Json, hedgePercentage: real): (r: Step<()>)
    ensures Read(data, "takeProfit").Failure? ==> r == Step(m, (), Some(ValueError))
    ensures Read(data, "takeProfit").Success? ==> r == PutMain(m, Read(data, "takeProfit").value, takeProfitOrderId, hedgePercentage)
  {
    match Read(data, "takeProfit")
    case Failure(e) => Step(m, (), Some(e))
    case Success(rd) => PutMain(m, rd, takeProfitOrderId, hedgePercentage)
  }

  /** `set_main_position` keeps the manager valid, whatever it raises. */
  lemma SetMainValid(m: Manager, data: map<string, Json>, takeProfitOrderId: Json, hedgePercentage: real)
    requires Valid(m)
    ensures Valid(SetMain(m, data, takeProfitOrderId, hedgePercentage).state)
  {
    if Read(data, "takeProfit").Success? {
      var rd := Read(data, "takeProfit").value;
      CommitValid(m, WithMain(m.positions, rd.coin, NewMain(rd, takeProfitOrderId, hedgePercentage)), rd.coin);
    }
  }

  /**
    The update `set_secondary_position` makes once the record is read: when the coin has
    an entry, replace its secondary leg and save it, otherwise do nothing.
   */
  function PutSecondary(m: Manager, rd: Reading, stopLossOrderId: Json): (r: Step<()>)
    ensures !ODict.HasKey(m.positions, rd.coin) ==> r == Step(m, (), None)
    ensures ODict.HasKey(m.positions, rd.coin) ==>
      && ODict.Get(r.state.positions, rd.coin) ==
        Some(ODict.Get(m.positions, rd.coin).value.(secondary := Some(NewSecondary(rd, stopLossOrderId))))
      && SameExcept(r.state.positions, m.positions, rd.coin)
      && r.error == (if rd.coin.None? then Some(DataError) else None)
  {
    match ODict.Get(m.positions, rd.coin)
    case None => Step(m, (), None)
    case Some(h) =>
      var h' := h.(secondary := Some(NewSecondary(rd, stopLossOrderId)));
      SetSameExcept(m.positions, rd.coin, h');
      Save(Manager(ODict.Set(m.positions, rd.coin, h'), m.persisted), rd.coin)
  }

  /**
    `set_secondary_position(position_data, stop_loss_order_id)`: the index is converted
    first, so a ValueError is raised even for an unknown coin.
   */
  function SetSecondary(m: Manager, data: map<string, Json>, stopLossOrderId: Json): (r: Step<()>)
    ensures Read(data, "stopLoss").Failure? ==> r == Step(m, (), Some(ValueError))
    ensures Read(data, "stopLoss").Success? ==> r == PutSecondary(m, Read(data, "stopLoss").value, stopLossOrderId)
  {
    match Read(data, "stopLoss")
    case Failure(e) => Step(m, (), Some(e))
    case Success(rd) => PutSecondary(m, rd, stopLossOrderId)
  }

  lemma SetSecondaryValid(m: Manager, data: map<string, Json>, stopLossOrderId: Json)
    requires Valid(m)
    ensures Valid(SetSecondary(m, data, stopLossOrderId).state)
  {
    if Read(data, "stopLoss").Success? {
      var rd := Read(data, "stopLoss").value;
      if ODict.HasKey(m.positions, rd.coin) {
        var h' := ODict.Get(m.positions, rd.coin).value.(secondary := Some(NewSecondary(rd, stopLossOrderId)));
        SetSameExcept(m.positions, rd.coin, h');
        ODict.SetUnique(m.positions, rd.coin, h');
        CommitValid(m, ODict.Set(m.positions, rd.coin, h'), rd.coin);
      }
    }
  }

  /** Replacing only the entry of `c`, with its main leg kept, leaves every main leg as it was. */
  lemma ReplaceKeepsMain(m: Manager, s: Manager, c: Option<string>, coin: Option<string>)
    requires ODict.HasKey(m.positions, c) && ODict.HasKey(s.positions, c)
    requires ODict.Get(s.positions, c).value.main == ODict.Get(m.positions, c).value.main
    requires SameExcept(s.positions, m.positions, c)
    ensures GetMain(s, coin) == GetMain(m, coin)
  {
    if coin != c {
      assert ODict.Get(s.positions, coin) == ODict.Get(m.positions, coin);
    }
  }

  /** Recording a secondary leg leaves every main leg as it was. */
  lemma SetSecondaryKeepsMain(m: Manager, data: map<string, Json>, stopLossOrderId: Json, coin: Option<string>)
    ensures GetMain(SetSecondary(m, data, stopLossOrderId).state, coin) == GetMain(m, coin)
  {
    if Read(data, "stopLoss").Success? {
      var rd := Read(data, "stopLoss").value;
      var r := PutSecondary(m, rd, stopLossOrderId);
      if ODict.HasKey(m.positions, rd.coin) {
        ReplaceKeepsMain(m, r.state, rd.coin, coin);
      }
    }
  }

  /** The positions after one leg of `coin` is cleared: the entry goes when no leg is left. */
  function Cleared(positions: Positions, coin: Option<string>, h: HedgePosition): (d: Positions)
    requires ODict.Unique(positions)
    ensures SameExcept(d, positions, coin) && ODict.Unique(d)
    ensures ODict.Get(d, coin) == if HasLeg(h) then Some(h) else None
  {
    if HasLeg(h) then
      SetSameExcept(positions, coin, h);
      ODict.SetUnique(positions, coin, h);
      ODict.Set(positions, coin, h)
    else
      RemoveSameExcept(positions, coin);
      ODict.RemoveUnique(positions, coin);
      ODict.Remove(positions, coin)
  }

  /**
    `remove_main_position(coin)`: for a known coin, clear the main leg, delete the entry
    when it has no secondary leg, save, and return the old main leg; an unknown coin
    changes nothing and returns None.
   */
  function RemoveMain(m: Manager, coin: Option<string>): (r: Step<Option<MainLeg>>)
    requires ODict.Unique(m.positions)
    ensures !ODict.HasKey(m.positions, coin) ==> r == Step(m, None, None)
    ensures ODict.HasKey(m.positions, coin) ==>
      var h := ODict.Get(m.positions, coin).value;
      && r.value == h.main
      && ODict.Unique(r.state.positions)
      && ODict.Get(r.state.positions, coin) == (if h.secondary.Some? then Some(h.(main := None)) else None)
      && SameExcept(r.state.positions, m.positions, coin)
      && r.error == (if coin.None? then Some(DataError) else None)
  {
    match ODict.Get(m.positions, coin)
    case None => Step(m, None, None)
    case Some(h) =>
      var s := Save(Manager(Cleared(m.positions, coin, h.(main := None)), m.persisted), coin);
      Step(s.state, h.main, s.error)
  }

  /** `remove_secondary_position(coin)`: the same with the roles of the legs exchanged. */
  function RemoveSecondary(m: Manager, coin: Option<string>): (r: Step<Option<SecondaryLeg>>)
    requires ODict.Unique(m.positions)
    ensures !ODict.HasKey(m.positions, coin) ==> r == Step(m, None, None)
    ensures ODict.HasKey(m.positions, coin) ==>
      var h := ODict.Get(m.positions, coin).value;
      && r.value == h.secondary
      && ODict.Unique(r.state.positions)
      && ODict.Get(r.state.positions, coin) == (if h.main.Some? then Some(h.(secondary := None)) else None)
      && SameExcept(r.state.positions, m.positions, coin)
      && r.error == (if coin.None? then Some(DataError) else None)
  {
    match ODict.Get(m.positions, coin)
    case None => Step(m, None, None)
    case Some(h) =>
      var s := Save(Manager(Cleared(m.positions, coin, h.(secondary := None)), m.persisted), coin);
      Step(s.state, h.secondary, s.error)
  }

  /** `remove_all_position(coin)`: pop the entry, save, and return it. */
  function RemoveAll(m: Manager, coin: Option<string>): (r: Step<Option<HedgePosition>>)
    requires ODict.Unique(m.positions)
    ensures !ODict.HasKey(m.positions, coin) ==> r == Step(m, None, None)
    ensures ODict.HasKey(m.positions, coin) ==>
      && r.value == ODict.Get(m.positions, coin)
      && !ODict.HasKey(r.state.positions, coin)
      && SameExcept(r.state.positions, m.positions, coin)
      && r.error == (if coin.None? then Some(DataError) else None)
  {
    match ODict.Get(m.positions, coin)
    case None => Step(m, None, None)
    case Some(h) =>
      RemoveSameExcept(m.positions, coin);
      var s := Save(Manager(ODict.Remove(m.positions, coin), m.persisted), coin);
      Step(s.state, Some(h), s.error)
  }

  /** The three removals keep the manager valid. */
  lemma RemoveValid(m: Manager, coin: Option<string>)
    requires Valid(m)
    ensures Valid(RemoveMain(m, coin).state)
    ensures Valid(RemoveSecondary(m, coin).state)
    ensures Valid(RemoveAll(m, coin).state)
  {
    if ODict.HasKey(m.positions, coin) {
      var h := ODict.Get(m.positions, coin).value;
      CommitValid(m, Cleared(m.positions, coin, h.(main := None)), coin);
      CommitValid(m, Cleared(m.positions, coin, h.(secondary := None)), coin);
      RemoveSameExcept(m.positions, coin);
      ODict.RemoveUnique(m.positions, coin);
      CommitValid(m, ODict.Remove(m.positions, coin), coin);
    }
  }

  /** Removing the main leg of an entry that only had one leaves no entry and no hash field. */
  lemma RemoveLastLeg(m: Manager, c: string)
    requires Valid(m) && ODict.HasKey(m.positions, Some(c))
    requires ODict.Get(m.positions, Some(c)).value.secondary.None?
    ensures RemoveMain(m, Some(c)).value.Some?
    ensures !ODict.HasKey(RemoveMain(m, Some(c)).state.positions, Some(c))
    ensures c !in RemoveMain(m, Some(c)).state.persisted
  {
    assert HasLeg(ODict.Get(m.positions, Some(c)).value);
    RemoveValid(m, Some(c));
  }

  /** `get_position(coin)`. */
  function GetPosition(m: Manager, coin: Option<string>): Option<HedgePosition> {
    ODict.Get(m.positions, coin)
  }

  /** `get_main_position(coin)`: the main leg of a known coin, else None. */
  function GetMain(m: Manager, coin: Option<string>): (r: Option<MainLeg>)
    ensures r.Some? <==> ODict.HasKey(m.positions, coin) && ODict.Get(m.positions, coin).value.main.Some?
    ensures r.Some? ==> ODict.Get(m.positions, coin).value.main == r
  {
    match ODict.Get(m.positions, coin)
    case None => None
    case Some(h) => h.main
  }

  /** `get_second_position(coin)`. */
  function GetSecond(m: Manager, coin: Option<string>): (r: Option<SecondaryLeg>)
    ensures r.Some? <==> ODict.HasKey(m.positions, coin) && ODict.Get(m.positions, coin).value.secondary.Some?
    ensures r.Some? ==> ODict.Get(m.positions, coin).value.secondary == r
  {
    match ODict.Get(m.positions, coin)
    case None => None
    case Some(h) => h.secondary
  }

  /** `get_all_coins()`: the symbols in insertion order. */
  function AllCoins(m: Manager): (r: seq<Option<string>>)
    ensures |r| == |m.positions|
    ensures forall k :: k in r <==> ODict.HasKey(m.positions, k)
  {
    ODict.Keys(m.positions)
  }

  predicate HasAny(m: Manager, coin: Option<string>) {
    ODict.HasKey(m.positions, coin)
  }

  predicate HasMain(m: Manager, coin: Option<string>) {
    GetMain(m, coin).Some?
  }

  predicate HasSecondary(m: Manager, coin: Option<string>) {
    GetSecond(m, coin).Some?
  }

  /** In a valid manager a coin has an entry exactly when it has a leg. */
  lemma HasAnyLeg(m: Manager, coin: Option<string>)
    requires Valid(m)
    ensures HasAny(m, coin) <==> HasMain(m, coin) || HasSecondary(m, coin)
  {
  }

  /** `get_tracking_price(coin)`: the main leg's tracking price, None without a main leg. */
  function GetTrackingPrice(m: Manager, coin: Option<string>): (r: Json)
    ensures GetMain(m, coin).None? ==> r == Null
    ensures GetMain(m, coin).Some? ==> r == GetMain(m, coin).value.trackingPrice
  {
    match GetMain(m, coin)
    case None => Null
    case Some(p) => p.trackingPrice
  }

  /**
    `should_create_hedge(coin, current_price)`: only a coin with a main leg, no
    secondary leg and a truthy tracking price can trigger; then a long triggers at or
    below the tracking price and a short at or above it. `current` is the cached mark
    price, None when the cache holds none; None, or a tracking price that is not a number,
    cannot be compared (TypeError).
   */
  function ShouldCreateHedge(m: Manager, coin: Option<string>, current: Option<real>): (r: Result<bool, Exc>)
    ensures GetMain(m, coin).None? || GetSecond(m, coin).Some? ==> r == Success(false)
    ensures GetMain(m, coin).Some? && !Truthy(GetMain(m, coin).value.trackingPrice) ==> r == Success(false)
    ensures r.Failure? ==> r.error == TypeError
    ensures GetMain(m, coin).Some? && GetSecond(m, coin).None? && Truthy(GetMain(m, coin).value.trackingPrice) ==>
      (r.Failure? <==> current.None? || NumberOf(GetMain(m, coin).value.trackingPrice).None?)
    ensures r == Success(true) ==>
      var p := GetMain(m, coin).value;
      && GetSecond(m, coin).None? && current.Some?
      && NumberOf(p.trackingPrice).Some?
      && (if p.idx == Long then current.value <= NumberOf(p.trackingPrice).value else current.value >= NumberOf(p.trackingPrice).value)
  {
    match ODict.Get(m.positions, coin)
    case None => Success(false)
    case Some(h) =>
      if h.main.None? || h.secondary.Some? then Success(false)
      else
        var t := h.main.value.trackingPrice;
        if !Truthy(t) then Success(false)
        else if current.None? || NumberOf(t).None? then Failure(TypeError)
        else if h.main.value.idx == Long then Success(current.value <= NumberOf(t).value)
        else Success(current.value >= NumberOf(t).value)
  }

  /** After the main leg is set on a coin without a hedge, the trigger compares with the computed tracking price. */
  lemma PutMainThenHedge(m: Manager, rd: Reading, takeProfitOrderId: Json, hedgePercentage: real, current: Option<real>)
    requires GetSecond(m, rd.coin).None?
    ensures
      var tracking := TrackingFor(rd.idx, rd.entryPrice, hedgePercentage);
      ShouldCreateHedge(PutMain(m, rd, takeProfitOrderId, hedgePercentage).state, rd.coin, current) ==
        if tracking == 0.0 then Success(false)
        else if current.None? then Failure(TypeError)
        else if rd.idx == Long then Success(current.value <= tracking)
        else Success(current.value >= tracking)
  {
    var leg := NewMain(rd, takeProfitOrderId, hedgePercentage);
    var s := PutMain(m, rd, takeProfitOrderId, hedgePercentage).state;
    assert ODict.Get(s.positions, rd.coin).value.main == Some(leg);
    assert ODict.Get(s.positions, rd.coin).value.secondary.None?;
    NewMainTracking(rd, takeProfitOrderId, hedgePercentage);
    HedgeTrigger(s, rd.coin, current);
  }

  /** The trigger of an entry with a main leg whose tracking price is a number and no secondary leg. */
  lemma HedgeTrigger(m: Manager, coin: Option<string>, current: Option<real>)
    requires ODict.Get(m.positions, coin).Some?
    requires ODict.Get(m.positions, coin).value.main.Some? && ODict.Get(m.positions, coin).value.secondary.None?
    requires NumberOf(ODict.Get(m.positions, coin).value.main.value.trackingPrice).Some?
    ensures
      var p := ODict.Get(m.positions, coin).value.main.value;
      var t := NumberOf(p.trackingPrice).value;
      ShouldCreateHedge(m, coin, current) ==
        if !Truthy(p.trackingPrice) then Success(false)
        else if current.None? then Failure(TypeError)
        else if p.idx == Long then Success(current.value <= t)
        else Success(current.value >= t)
  {
  }

  lemma NewMainTracking(rd: Reading, takeProfitOrderId: Json, hedgePercentage: real)
    ensures NumberOf(NewMain(rd, takeProfitOrderId, hedgePercentage).trackingPrice) == Some(TrackingFor(rd.idx, rd.entryPrice, hedgePercentage))
    ensures Truthy(NewMain(rd, takeProfitOrderId, hedgePercentage).trackingPrice) <==> TrackingFor(rd.idx, rd.entryPrice, hedgePercentage) != 0.0
  {
  }

  /** A record of `all_to_dict()`: a leg's fields tagged with the symbol and `is_main`. */
  predicate IsRecord(rec: map<string, Json>) {
    && "symbol" in rec && "is_main" in rec && rec["is_main"].Bool?
    && FieldName(Size) in rec && FieldName(EntryPrice) in rec && FieldName(PosIdx) in rec
  }

  /** A leg's dict form with `symbol` and `is_main` added. */
  function Tagged(d: map<string, Json>, coin: Option<string>, isMain: bool): (rec: map<string, Json>)
    requires FieldName(Size) in d && FieldName(EntryPrice) in d && FieldName(PosIdx) in d
    ensures IsRecord(rec)
    ensures rec["symbol"] == Symbol(coin) && rec["is_main"] == Bool(isMain)
    ensures forall k | k in d && k != "symbol" && k != "is_main" :: k in rec && rec[k] == d[k]
  {
    d["symbol" := Symbol(coin)]["is_main" := Bool(isMain)]
  }

  /** The record of a main leg. */
  function MainRecord(p: MainLeg, coin: Option<string>): (rec: map<string, Json>)
    ensures IsRecord(rec)
  {
    assert IsMainField(Size) && IsMainField(EntryPrice) && IsMainField(PosIdx);
    Tagged(MainToDict(p), coin, true)
  }

  /** The record of a secondary leg. */
  function SecondaryRecord(p: SecondaryLeg, coin: Option<string>): (rec: map<string, Json>)
    ensures IsRecord(rec)
  {
    assert IsSecondaryField(Size) && IsSecondaryField(EntryPrice) && IsSecondaryField(PosIdx);
    Tagged(SecondaryToDict(p), coin, false)
  }

  /** The records one entry contributes to `all_to_dict()`: its main leg, then its secondary leg. */
  function EntryRecords(coin: Option<string>, h: HedgePosition): (r: seq<map<string, Json>>)
    ensures |r| == (if h.main.Some? then 1 else 0) + (if h.secondary.Some? then 1 else 0)
    ensures forall i | 0 <= i < |r| :: IsRecord(r[i])
  {
    match (h.main, h.secondary)
    case (Some(p), Some(q)) => [MainRecord(p, coin), SecondaryRecord(q, coin)]
    case (Some(p), None) => [MainRecord(p, coin)]
    case (None, Some(q)) => [SecondaryRecord(q, coin)]
    case (None, None) => []
  }

  /** `all_to_dict()`: the records of every entry in insertion order. */
  function AllToDict(positions: Positions): (r: seq<map<string, Json>>)
    ensures forall i | 0 <= i < |r| :: IsRecord(r[i])
  {
    if |positions| == 0 then []
    else EntryRecords(positions[0].0, positions[0].1) + AllToDict(positions[1..])
  }

  /** The number of legs held. */
  function LegCount(positions: Positions): nat {
    if |positions| == 0 then 0
    else (if positions[0].1.main.Some? then 1 else 0) + (if positions[0].1.secondary.Some? then 1 else 0) + LegCount(positions[1..])
  }

  /** The records of two runs of entries are those of each, in order; there is one per leg. */
  lemma {:induction false} AllToDictAppend(d: Positions, e: Positions)
    ensures AllToDict(d + e) == AllToDict(d) + AllToDict(e)
    ensures |AllToDict(d)| == LegCount(d)
    decreases |d|
  {
    if |d| == 0 {
      assert d + e == e;
    } else {
      assert (d + e)[0] == d[0];
      assert (d + e)[1..] == d[1..] + e;
      AllToDictAppend(d[1..], e);
    }
  }

  /** A main leg's record is its dict form tagged with the symbol and `is_main`. */
  lemma MainRecordFields(coin: Option<string>, h: HedgePosition)
    requires h.main.Some?
    ensures AllToDict([(coin, h)])[0]["symbol"] == Symbol(coin)
    ensures AllToDict([(coin, h)])[0]["is_main"] == Bool(true)
    ensures forall f | IsMainField(f) :: AllToDict([(coin, h)])[0][FieldName(f)] == MainValue(h.main.value, f)
    ensures h.secondary.Some? ==> AllToDict([(coin, h)])[1]["is_main"] == Bool(false)
  {
    assert [(coin, h)][1..] == [];
    forall f | IsMainField(f) ensures FieldName(f) != "symbol" && FieldName(f) != "is_main" {
      FieldOfName(f);
    }
  }

  /**
    `load_from_redis()`: start from no entries and parse each stored field in the order
    the hash returns them; the first parse error stops the loop, leaving the entries
    read so far.
   */
  function Load(fields: seq<(string, Json)>): (r: (Positions, Option<Exc>))
    ensures |r.0| <= |fields|
    ensures r.1.None? ==> |r.0| == |fields|
  {
    if |fields| == 0 then ([], None)
    else
      match HedgeFromDict(fields[0].1)
      case Failure(e) => ([], Some(e))
      case Success(h) =>
        var rest := Load(fields[1..]);
        ([(Some(fields[0].0), h)] + rest.0, rest.1)
  }

  /** The hash fields of a manager's entries, in entry order. */
  function Stored(positions: Positions): seq<(string, Json)>
    requires forall i | 0 <= i < |positions| :: positions[i].0.Some?
  {
    seq(|positions|, i requires 0 <= i < |positions| => (positions[i].0.value, Obj(HedgeToDict(positions[i].1))))
  }

  /** Loading the hash a manager saved gives back its entries, every symbol being a string. */
  lemma {:induction false} LoadStored(positions: Positions)
    requires forall i | 0 <= i < |positions| :: positions[i].0.Some?
    ensures Load(Stored(positions)) == (positions, None)
    decreases |positions|
  {
    if |positions| > 0 {
      var fields := Stored(positions);
      HedgeRoundTrip(positions[0].1);
      assert fields[0] == (positions[0].0.value, Obj(HedgeToDict(positions[0].1)));
      assert fields[1..] == Stored(positions[1..]);
      LoadStored(positions[1..]);
      assert Load(fields) == ([(Some(fields[0].0), positions[0].1)] + positions[1..], None);
      assert [(Some(fields[0].0), positions[0].1)] + positions[1..] == positions;
    }
  }

  /** The mapping `save_all_positions_to_redis` writes: each symbol to its entry's dict form. */
  function Written(positions: Positions): (w: map<string, Json>)
    ensures forall c | c in w :: ODict.HasKey(positions, Some(c)) && w[c] == Obj(HedgeToDict(ODict.Get(positions, Some(c)).value))
    ensures forall c: string | ODict.HasKey(positions, Some(c)) :: c in w
  {
    var symbols := set i | 0 <= i < |positions| && positions[i].0.Some? :: positions[i].0.value;
    assert forall c: string | ODict.HasKey(positions, Some(c)) :: c in symbols by {
      forall c: string | ODict.HasKey(positions, Some(c)) ensures c in symbols {
        var i :| 0 <= i < |positions| && positions[i].0 == Some(c);
        assert positions[i].0.value == c;
      }
    }
    map c | c in symbols :: Obj(HedgeToDict(ODict.Get(positions, Some(c)).value))
  }

  /**
    `save_all_positions_to_redis()`: one `hset` with every entry's dict form. An empty
    mapping or a None field name makes redis raise DataError before anything is written;
    otherwise the fields are merged into the hash and no stale field is deleted.
   */
  function SaveAll(m: Manager): (r: Step<()>)
    ensures r.state.positions == m.positions
    ensures r.error.Some? <==> |m.positions| == 0 || ODict.HasKey(m.positions, None)
    ensures r.error.Some? ==> r.state == m && r.error == Some(DataError)
    ensures r.error.None? ==> forall c | c in m.persisted && !ODict.HasKey(m.positions, Some(c)) ::
      c in r.state.persisted && r.state.persisted[c] == m.persisted[c]
    ensures r.error.None? ==> forall c: string | ODict.HasKey(m.positions, Some(c)) ::
      c in r.state.persisted && r.state.persisted[c] == Obj(HedgeToDict(ODict.Get(m.positions, Some(c)).value))
  {
    if |m.positions| == 0 || ODict.HasKey(m.positions, None) then Step(m, (), Some(DataError))
    else Step(Manager(m.positions, m.persisted + Written(m.positions)), (), None)
  }
}
