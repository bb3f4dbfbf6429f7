/**
  The bot's redis client: global settings hashes, the screened coins, per-user run flags
  and cached mark prices, over the abstract store of `KeyValue`. `json.dumps` and
  `json.loads` of stored coin records are function parameters; the run flag's JSON text
  is written out, as it is a quoted enum value.
 */
module RedisDb {
  import opened Wrappers
  import opened Json
  import Text
  import KeyValue
  import Settings
  import TradeUtils

  type Store = KeyValue.Store

  const TradeSettingsKey: string := "global_trade_settings"
  const CoinSettingsKey: string := "global_coin_settings"
  const CoinsKey: string := "coins"
  const CoinInfoKey: string := "coins_info"
  const IsRunKey: string := "is_run"
  const PricesKey: string := "prices"

  /** The hash a settings field lives in: coin fields first, then trade fields, else none. */
  function GetKey(field: string): (k: Option<string>)
    ensures k == Some(CoinSettingsKey) <==> field in Settings.CoinSettings.names
    ensures k == Some(TradeSettingsKey) <==> field !in Settings.CoinSettings.names && field in Settings.TradeSettings.names
    ensures k.None? <==> field !in Settings.CoinSettings.names && field !in Settings.TradeSettings.names
  {
    if field in Settings.CoinSettings.names then Some(CoinSettingsKey)
    else if field in Settings.TradeSettings.names then Some(TradeSettingsKey)
    else None
  }

  /** The defaults of a settings record as the hash `initialize` writes. */
  function DefaultsHash(s: Settings.Schema, repr: real -> string): (h: map<string, string>)
    requires Settings.ValidSchema(s) && Settings.NumericDefaults(s)
    ensures forall k | k in h :: k in s.names
    ensures forall i | 0 <= i < |s.names| :: s.names[i] in h && h[s.names[i]] == KeyValue.Encode(s.defaults[i], repr).value
  {
    var d := Settings.ToDict(s, Settings.Default(s));
    assert forall k | k in d :: KeyValue.Encode(d[k], repr).Success? by {
      forall k | k in d ensures KeyValue.Encode(d[k], repr).Success? {
        var i :| 0 <= i < |s.names| && s.names[i] == k;
        assert d[k] == s.defaults[i];
      }
    }
    KeyValue.EncodeAll(d, repr).value
  }

  /** Write the defaults of one settings hash unless the key already exists. */
  function InitializeOne(st: Store, key: string, s: Settings.Schema, repr: real -> string): (r: Store)
    requires Settings.ValidSchema(s) && Settings.NumericDefaults(s) && |s.names| > 0
    ensures KeyValue.Exists(r, key)
    ensures KeyValue.Valid(st) ==> KeyValue.Valid(r)
    ensures KeyValue.Exists(st, key) ==> r == st
    ensures !KeyValue.Exists(st, key) ==> r == KeyValue.Store(st.hashes[key := DefaultsHash(s, repr)], st.strings)
  {
    if KeyValue.Exists(st, key) then st
    else
      var h := DefaultsHash(s, repr);
      assert s.names[0] in h;
      KeyValue.HSet(st, key, h).value
  }

  /** `initialize()`: the trade and then the coin settings hashes, each only when missing. */
  function Initialize(st: Store, repr: real -> string): (r: Store)
    ensures KeyValue.Exists(r, TradeSettingsKey) && KeyValue.Exists(r, CoinSettingsKey)
    ensures KeyValue.Valid(st) ==> KeyValue.Valid(r)
  {
    Settings.SchemasValid();
    var st1 := InitializeOne(st, TradeSettingsKey, Settings.TradeSettings, repr);
    InitializeOne(st1, CoinSettingsKey, Settings.CoinSettings, repr)
  }

  /** Initializing again changes nothing. */
  lemma InitializeIdempotent(st: Store, repr: real -> string)
    ensures Initialize(Initialize(st, repr), repr) == Initialize(st, repr)
  {
  }

  /** Initializing keeps hashes already present, even when they differ from the defaults. */
  lemma InitializeKeepsExisting(st: Store, repr: real -> string)
    requires KeyValue.Exists(st, TradeSettingsKey) && KeyValue.Exists(st, CoinSettingsKey)
    ensures Initialize(st, repr) == st
  {
  }

  /** `float()` of a stored value, with a missing value and any refusal read as 0.0. */
  function ReadFloat(value: Option<string>): real {
    match value
    case None => TradeUtils.SafeFloat(Null)
    case Some(s) => TradeUtils.SafeFloat(Str(s))
  }

  /**
    `get(field)`: the hash is chosen by `get_key`; an unknown field gives the key None,
    which the client refuses with DataError before the guarded conversion.
   */
  function Get(st: Store, field: string): (r: Result<real, Exc>)
    ensures GetKey(field).None? ==> r == Failure(DataError)
    ensures GetKey(field).Some? && KeyValue.HGet(st, GetKey(field).value, field).Success? ==>
      r == Success(ReadFloat(KeyValue.HGet(st, GetKey(field).value, field).value))
  {
    match GetKey(field)
    case None => Failure(DataError)
    case Some(key) =>
      var value :- KeyValue.HGet(st, key, field);
      Success(ReadFloat(value))
  }

  /** A stored value is read as its float when it parses and as 0.0 when it does not. */
  lemma ReadFloatValues(value: Option<string>)
    ensures value.Some? && Text.ParseReal(value.value).Some? ==> ReadFloat(value) == Text.ParseReal(value.value).value
    ensures value.None? || Text.ParseReal(value.value).None? ==> ReadFloat(value) == 0.0
  {
  }

  /** `set(field, value)`: one field of the field's hash. */
  function SetField(st: Store, field: string, value: Json, repr: real -> string): (r: Result<Store, Exc>)
    ensures GetKey(field).None? ==> r == Failure(DataError)
    ensures KeyValue.Encode(value, repr).Failure? ==> r == Failure(DataError)
  {
    match GetKey(field)
    case None => Failure(DataError)
    case Some(key) =>
      var encoded :- KeyValue.Encode(value, repr);
      KeyValue.HSet(st, key, map[field := encoded])
  }

  /** `repr` of a float is read back by `float()` as the same number. */
  ghost predicate ReprRoundTrips(repr: real -> string) {
    forall x: real :: Text.ParseReal(repr(x)) == Some(x)
  }

  /** A stored text that `float()` parses is read back as the number it denotes. */
  lemma ReadParsed(s: string, x: real)
    requires Text.ParseReal(s) == Some(x)
    ensures ReadFloat(Some(s)) == x
  {
    assert PyFloat(Str(s)) == Success(x);
  }

  /** A number encoded by the client reads back as the same number. */
  lemma ReadEncoded(v: Json, repr: real -> string)
    requires ReprRoundTrips(repr)
    requires v.Int? || v.Num?
    ensures ReadFloat(Some(KeyValue.Encode(v, repr).value)) == NumberOf(v).value
  {
    if v.Int? {
      Text.ParseRealShowInt(v.i);
      ReadParsed(Text.ShowInt(v.i), v.i as real);
    } else {
      assert Text.ParseReal(repr(v.r)) == Some(v.r);
      ReadParsed(repr(v.r), v.r);
    }
  }

  /** A number stored for a settings field is read back as that number. */
  lemma SetThenGet(st: Store, field: string, value: Json, repr: real -> string)
    requires ReprRoundTrips(repr)
    requires value.Int? || value.Num?
    requires SetField(st, field, value, repr).Success?
    ensures Get(SetField(st, field, value, repr).value, field) == Success(NumberOf(value).value)
  {
    var key := GetKey(field).value;
    var encoded := KeyValue.Encode(value, repr).value;
    var st' := SetField(st, field, value, repr).value;
    assert st' == KeyValue.HSet(st, key, map[field := encoded]).value;
    KeyValue.HSetHGet(st, key, map[field := encoded], field);
    assert KeyValue.HGet(st', key, field) == Success(Some(encoded));
    ReadEncoded(value, repr);
  }

  /** Initializing a missing settings hash stores every default, which reads back as its number. */
  lemma InitializeOneWritesDefaults(st: Store, key: string, s: Settings.Schema, repr: real -> string, i: int)
    requires ReprRoundTrips(repr)
    requires Settings.ValidSchema(s) && Settings.NumericDefaults(s) && 0 <= i < |s.names|
    requires !KeyValue.Exists(st, key)
    ensures KeyValue.HGet(InitializeOne(st, key, s, repr), key, s.names[i]).Success?
    ensures ReadFloat(KeyValue.HGet(InitializeOne(st, key, s, repr), key, s.names[i]).value) ==
      NumberOf(s.defaults[i]).value
  {
    var h := DefaultsHash(s, repr);
    assert KeyValue.HGet(InitializeOne(st, key, s, repr), key, s.names[i]) ==
      Success(Some(KeyValue.Encode(s.defaults[i], repr).value));
    ReadEncoded(s.defaults[i], repr);
  }

  /** `{k: json.dumps(v) for k, v in data.items()}`. */
  function DumpsAll(data: map<string, Json>, dumps: Json -> string): (m: map<string, string>)
    ensures m.Keys == data.Keys
    ensures forall k | k in data :: m[k] == dumps(data[k])
  {
    map k | k in data :: dumps(data[k])
  }

  /**
    `save_coins(data)`: fields of the coins hash missing from `data` are deleted, then every
    entry of `data` is written as its `json.dumps`. An empty `data` empties the hash and
    then fails with DataError.
   */
  function SaveCoins(st: Store, data: map<string, Json>, dumps: Json -> string): (r: (Store, Option<Exc>))
    ensures CoinsKey in st.strings ==> r == (st, Some(WrongTypeError))
  {
    match KeyValue.HGetAll(st, CoinsKey)
    case Failure(e) => (st, Some(e))
    case Success(existing) =>
      var toDelete := existing.Keys - data.Keys;
      var st1 := if toDelete != {} then KeyValue.HDel(st, CoinsKey, toDelete).value else st;
      match KeyValue.HSet(st1, CoinsKey, DumpsAll(data, dumps))
      case Failure(e) => (st1, Some(e))
      case Success(st2) => (st2, None)
  }

  /** The deletion step leaves only fields that `data` names. */
  lemma PruneKeepsDataKeys(st: Store, data: map<string, Json>)
    requires CoinsKey !in st.strings
    ensures var existing := KeyValue.HGetAll(st, CoinsKey).value;
      var toDelete := existing.Keys - data.Keys;
      var st1 := if toDelete != {} then KeyValue.HDel(st, CoinsKey, toDelete).value else st;
      CoinsKey !in st1.strings && (CoinsKey in st1.hashes ==> st1.hashes[CoinsKey].Keys <= data.Keys)
  {
    var existing := KeyValue.HGetAll(st, CoinsKey).value;
    var toDelete := existing.Keys - data.Keys;
    if toDelete != {} {
      var st1 := KeyValue.HDel(st, CoinsKey, toDelete).value;
      if CoinsKey in st1.hashes {
        assert st1.hashes[CoinsKey] == st.hashes[CoinsKey] - toDelete;
      }
    }
  }

  /** After a save of non-empty data the coins hash holds exactly data's keys, with data's values. */
  lemma SaveCoinsExact(st: Store, data: map<string, Json>, dumps: Json -> string)
    requires CoinsKey !in st.strings && data != map[]
    ensures SaveCoins(st, data, dumps).1.None?
    ensures var st' := SaveCoins(st, data, dumps).0;
      CoinsKey in st'.hashes && st'.hashes[CoinsKey] == DumpsAll(data, dumps)
  {
    var existing := KeyValue.HGetAll(st, CoinsKey).value;
    var toDelete := existing.Keys - data.Keys;
    var st1 := if toDelete != {} then KeyValue.HDel(st, CoinsKey, toDelete).value else st;
    PruneKeepsDataKeys(st, data);
    var jsonData := DumpsAll(data, dumps);
    assert jsonData != map[] by {
      var k0 :| k0 in data;
      assert k0 in jsonData;
    }
    KeyValue.HSetCovering(st1, CoinsKey, jsonData);
    assert SaveCoins(st, data, dumps) == (KeyValue.HSet(st1, CoinsKey, jsonData).value, None);
  }

  /** Saving nothing deletes every coin and then fails with DataError. */
  lemma SaveCoinsEmpty(st: Store, dumps: Json -> string)
    requires KeyValue.Valid(st) && CoinsKey !in st.strings
    ensures SaveCoins(st, map[], dumps).1 == Some(DataError)
    ensures CoinsKey !in SaveCoins(st, map[], dumps).0.hashes
  {
    var none: map<string, Json> := map[];
    var existing := KeyValue.HGetAll(st, CoinsKey).value;
    var toDelete := existing.Keys - none.Keys;
    var st1 := if toDelete != {} then KeyValue.HDel(st, CoinsKey, toDelete).value else st;
    if CoinsKey in st.hashes {
      assert existing == st.hashes[CoinsKey];
      var f :| f in existing;
      assert f in toDelete;
      assert existing - toDelete == map[];
    }
    assert DumpsAll(none, dumps) == map[];
    assert SaveCoins(st, none, dumps) == (st1, Some(DataError));
  }

  /** A save touches no other key. */
  lemma SaveCoinsOthersUnchanged(st: Store, data: map<string, Json>, dumps: Json -> string, k: string)
    requires k != CoinsKey
    ensures var st' := SaveCoins(st, data, dumps).0;
      st'.strings == st.strings && (k in st'.hashes <==> k in st.hashes) &&
      (k in st.hashes ==> st'.hashes[k] == st.hashes[k])
  {
  }

  /** `get_coins()`: every field of the coins hash through `json.loads`. */
  function GetCoins(st: Store, loads: string -> Json): (r: Result<map<string, Json>, Exc>)
    ensures r.Failure? <==> CoinsKey in st.strings
  {
    var h :- KeyValue.HGetAll(st, CoinsKey);
    Success(map k | k in h :: loads(h[k]))
  }

  /** What was saved is what is read, when `json.loads` inverts `json.dumps`. */
  lemma SaveCoinsThenGet(st: Store, data: map<string, Json>, dumps: Json -> string, loads: string -> Json)
    requires forall v :: loads(dumps(v)) == v
    requires CoinsKey !in st.strings && data != map[]
    ensures GetCoins(SaveCoins(st, data, dumps).0, loads) == Success(data)
  {
    SaveCoinsExact(st, data, dumps);
    var h := DumpsAll(data, dumps);
    var got := map k | k in h :: loads(h[k]);
    assert forall k | k in data :: got[k] == loads(dumps(data[k])) == data[k];
    assert got == data;
  }

  /** `save_coins_info(data)`: merge into the info hash; nothing is ever deleted. */
  function SaveCoinsInfo(st: Store, data: map<string, Json>, dumps: Json -> string): (r: Result<Store, Exc>)
    ensures r.Failure? <==> data == map[] || CoinInfoKey in st.strings
  {
    var jsonData := DumpsAll(data, dumps);
    assert data != map[] ==> jsonData != map[] by {
      if data != map[] {
        var k0 :| k0 in data;
        assert k0 in jsonData;
      }
    }
    KeyValue.HSet(st, CoinInfoKey, jsonData)
  }

  /** Every symbol already stored survives a merge; those in `data` take the new record. */
  lemma SaveCoinsInfoMerges(st: Store, data: map<string, Json>, dumps: Json -> string, sym: string)
    requires CoinInfoKey in st.hashes && sym in st.hashes[CoinInfoKey]
    requires SaveCoinsInfo(st, data, dumps).Success?
    ensures var h := SaveCoinsInfo(st, data, dumps).value.hashes[CoinInfoKey];
      sym in h && h[sym] == (if sym in data then dumps(data[sym]) else st.hashes[CoinInfoKey][sym])
  {
  }

  /** The key of a user's run flag. */
  function IsRunKeyOf(userId: int): string {
    IsRunKey + ":" + Text.ShowInt(userId)
  }

  /** `json.dumps(flag)`: the value string in double quotes. */
  function DumpsRun(flag: Settings.Run): string {
    "\"" + Settings.RunValue(flag) + "\""
  }

  /**
    `Run(json.loads(data))` on the texts `set_is_run` writes: the quoted value of each of
    the three members is read back as that member, and every other text raises ValueError.
   */
  function LoadsRun(data: string): (r: Result<Settings.Run, Exc>)
    ensures r.Failure? ==> r.error == ValueError
  {
    if data == DumpsRun(Settings.Active) then Success(Settings.Active)
    else if data == DumpsRun(Settings.Hedge) then Success(Settings.Hedge)
    else if data == DumpsRun(Settings.Off) then Success(Settings.Off)
    else Failure(ValueError)
  }

  /** `get_is_run(user_id)`: OFF when nothing (or the empty string) is stored. */
  function GetIsRun(st: Store, userId: int): (r: Result<Settings.Run, Exc>)
    ensures IsRunKeyOf(userId) !in st.strings && IsRunKeyOf(userId) !in st.hashes ==> r == Success(Settings.Off)
    ensures r.Failure? ==> r.error == ValueError || r.error == WrongTypeError
  {
    var data :- KeyValue.Get(st, IsRunKeyOf(userId));
    if data.None? || data.value == "" then Success(Settings.Off)
    else LoadsRun(data.value)
  }

  /** `set_is_run(user_id, flag)`. */
  function SetIsRun(st: Store, userId: int, flag: Settings.Run): (r: Store)
    ensures KeyValue.Valid(st) ==> KeyValue.Valid(r)
  {
    KeyValue.Set(st, IsRunKeyOf(userId), DumpsRun(flag))
  }

  /** Different users have different flag keys. */
  lemma IsRunKeyInjective(u: int, v: int)
    ensures IsRunKeyOf(u) == IsRunKeyOf(v) ==> u == v
  {
    if IsRunKeyOf(u) == IsRunKeyOf(v) {
      assert Text.ShowInt(u) == IsRunKeyOf(u)[7..];
      assert Text.ShowInt(v) == IsRunKeyOf(v)[7..];
      Text.ParseIntShowInt(u);
      Text.ParseIntShowInt(v);
    }
  }

  /** A flag set for a user is read back for that user and leaves every other user's flag. */
  lemma SetThenGetIsRun(st: Store, u: int, flag: Settings.Run, v: int)
    ensures GetIsRun(SetIsRun(st, u, flag), u) == Success(flag)
    ensures v != u ==> GetIsRun(SetIsRun(st, u, flag), v) == GetIsRun(st, v)
  {
    IsRunKeyInjective(u, v);
  }

  /** The user id in a flag key: the piece after the first colon, read by `int()`. */
  function KeyUserId(key: string): Option<int> {
    var pieces := Text.Split(key, ':');
    if |pieces| < 2 then None else Text.ParseInt(pieces[1])
  }

  /** The ids named by the keys that match `is_run:*`. */
  function FlagIds(st: Store): set<int> {
    set k | k in KeyValue.AllKeys(st) && Text.StartsWith(k, IsRunKey + ":") && KeyUserId(k).Some? ::
      KeyUserId(k).value
  }

  /**
    `get_all_is_run()`: for every key matching `is_run:*` whose suffix reads as an int, the
    flag of that user id, re-read by `get_is_run`. A flag that does not parse is skipped;
    a WRONGTYPE error ends the call. (Every matching key contains a colon, so the
    IndexError the loop also catches cannot occur.)
   */
  function GetAllIsRun(st: Store): (r: Result<map<int, Settings.Run>, Exc>)
    ensures r.Success? ==> forall id | id in r.value :: id in FlagIds(st) && GetIsRun(st, id) == Success(r.value[id])
    ensures r.Success? ==> forall id | id in FlagIds(st) && GetIsRun(st, id).Success? :: id in r.value
  {
    var ids := FlagIds(st);
    if exists id | id in ids :: GetIsRun(st, id) == Failure(WrongTypeError) then Failure(WrongTypeError)
    else Success(map id | id in ids && GetIsRun(st, id).Success? :: GetIsRun(st, id).value)
  }

  /** The id in a user's own flag key is the user's id. */
  lemma KeyUserIdOfFlagKey(u: int)
    ensures KeyUserId(IsRunKeyOf(u)) == Some(u)
    ensures Text.StartsWith(IsRunKeyOf(u), IsRunKey + ":")
  {
    Text.ParseIntShowInt(u);
    assert ':' !in Text.ShowInt(u) by {
      var s := Text.ShowInt(u);
      forall i | 0 <= i < |s| ensures s[i] != ':' {
        if i == 0 {
          assert s[0] == '-' || Text.IsDigit(s[0]);
        } else {
          assert s[1..][i - 1] == s[i];
          assert Text.IsDigit(s[i]);
        }
      }
    }
    var parts := [IsRunKey, Text.ShowInt(u)];
    assert Text.Join(parts, ":") == IsRunKeyOf(u);
    Text.SplitJoin(parts, ':');
  }

  /**
    After a flag is set, listing all flags reports it, as long as no hash sits under a flag
    key.
   */
  lemma SetThenGetAllIsRun(st: Store, u: int, flag: Settings.Run)
    requires forall k | k in st.hashes :: !Text.StartsWith(k, IsRunKey + ":")
    ensures GetAllIsRun(SetIsRun(st, u, flag)).Success?
    ensures u in GetAllIsRun(SetIsRun(st, u, flag)).value
    ensures GetAllIsRun(SetIsRun(st, u, flag)).value[u] == flag
  {
    var st' := SetIsRun(st, u, flag);
    KeyUserIdOfFlagKey(u);
    assert IsRunKeyOf(u) in KeyValue.AllKeys(st');
    assert u in FlagIds(st');
    forall id | id in FlagIds(st') ensures GetIsRun(st', id) != Failure(WrongTypeError) {
      KeyUserIdOfFlagKey(id);
      assert IsRunKeyOf(id) !in st'.hashes;
    }
    SetThenGetIsRun(st, u, flag, u);
  }

  /**
    `get_mark_price_coin(symbol)`: a cached price as a float, 0.0 when it does not parse.
    When no price is cached, `float(None)` raises TypeError, which the `finally: return`
    discards, so the call returns None.
   */
  function GetMarkPriceCoin(st: Store, symbol: string): (r: Result<Json, Exc>)
    ensures r.Failure? <==> PricesKey in st.strings
    ensures r.Success? ==> r.value == Null || r.value.Num?
    ensures r.Success? && r.value == Null <==> r.Success? && !(PricesKey in st.hashes && symbol in st.hashes[PricesKey])
    ensures PricesKey !in st.strings && PricesKey in st.hashes && symbol in st.hashes[PricesKey] ==>
      var cached := PyFloat(Str(st.hashes[PricesKey][symbol]));
      r == Success(Num(if cached.Success? then cached.value else 0.0))
  {
    var value :- KeyValue.HGet(st, PricesKey, symbol);
    match value
    case None => Success(Null)
    case Some(s) =>
      match Text.ParseReal(s)
      case Some(x) => Success(Num(x))
      case None => Success(Num(0.0))
  }

  /** A price written to the prices hash is read back as `float()` of its text. */
  lemma MarkPriceRoundTrip(st: Store, symbol: string, price: string, x: real)
    requires KeyValue.HSet(st, PricesKey, map[symbol := price]).Success?
    requires PyFloat(Str(price)) == Success(x)
    ensures GetMarkPriceCoin(KeyValue.HSet(st, PricesKey, map[symbol := price]).value, symbol) == Success(Num(x))
  {
    KeyValue.HSetHGet(st, PricesKey, map[symbol := price], symbol);
  }
}
