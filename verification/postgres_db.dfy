/**
  The user table and the services over it. The database is a map from user id to row;
  a row maps column names to values, and a column it lacks reads as SQL NULL.
  Timestamps are whole seconds since the epoch and the current time is a parameter.
 */
module PostgresDb {
  import opened Wrappers
  import opened Json

  /** The SQL type of a column. */
  datatype Kind = BigInt | Float | Text | Time | Boolean

  /** The columns of the `users` table. */
  datatype Col =
    | Id | Username | Leverage | TakeProfit | HedgePercentage | HedgeStopLossPercentage
    | Size | Balance | Api | Secret | FirstDay | LastSubTime | SubUntil | IsBanned | BybitUid

  function KindOf(c: Col): Kind {
    match c
    case Id | BybitUid => BigInt
    case Username | Api | Secret => Text
    case Leverage | TakeProfit | HedgePercentage | HedgeStopLossPercentage | Size | Balance => Float
    case FirstDay | LastSubTime | SubUntil => Time
    case IsBanned => Boolean
  }

  /** The column's name in the table and in keyword arguments. */
  function ColName(c: Col): string {
    match c
    case Id => "id"
    case Username => "username"
    case Leverage => "leverage"
    case TakeProfit => "take_profit"
    case HedgePercentage => "hedge_percentage"
    case HedgeStopLossPercentage => "hedge_stop_loss_percentage"
    case Size => "size"
    case Balance => "balance"
    case Api => "api"
    case Secret => "secret"
    case FirstDay => "first_day"
    case LastSubTime => "last_sub_time"
    case SubUntil => "sub_until"
    case IsBanned => "is_banned"
    case BybitUid => "bybit_uid"
  }

  /** The column a keyword names, if any. */
  function ColOf(name: string): (r: Option<Col>)
    ensures r.Some? ==> ColName(r.value) == name
  {
    if name == "id" then Some(Id)
    else if name == "username" then Some(Username)
    else if name == "leverage" then Some(Leverage)
    else if name == "take_profit" then Some(TakeProfit)
    else if name == "hedge_percentage" then Some(HedgePercentage)
    else if name == "hedge_stop_loss_percentage" then Some(HedgeStopLossPercentage)
    else if name == "size" then Some(Size)
    else if name == "balance" then Some(Balance)
    else if name == "api" then Some(Api)
    else if name == "secret" then Some(Secret)
    else if name == "first_day" then Some(FirstDay)
    else if name == "last_sub_time" then Some(LastSubTime)
    else if name == "sub_until" then Some(SubUntil)
    else if name == "is_banned" then Some(IsBanned)
    else if name == "bybit_uid" then Some(BybitUid)
    else None
  }

  /** Every column is found by its name, so the names are distinct. */
  lemma ColOfName(c: Col)
    ensures ColOf(ColName(c)) == Some(c)
  {
  }

  /** A value the driver accepts for a column of this type; NULL fits every column. */
  predicate Fits(k: Kind, v: Json) {
    v == Null ||
    match k
    case BigInt => v.Int?
    case Float => v.Int? || v.Num?
    case Text => v.Str?
    case Time => v.Int?
    case Boolean => v.Bool?
  }

  type Row = map<Col, Json>
  type Db = map<int, Row>

  const Day: int := 86400

  /** A column's value, NULL when the row does not hold it. */
  function Column(row: Row, c: Col): Json {
    if c in row then row[c] else Null
  }

  /** A stored row: each value of its column's type, keyed by its own id, with a username. */
  predicate ValidRow(id: int, row: Row) {
    (forall c | c in row :: Fits(KindOf(c), row[c])) &&
    Column(row, Id) == Int(id) &&
    Column(row, Username).Str?
  }

  /** The unique constraint on `bybit_uid`: no two users hold the same non-NULL uid. */
  predicate UniqueUids(db: Db) {
    forall a, b | a in db && b in db && a != b ::
      Column(db[a], BybitUid) == Null || Column(db[a], BybitUid) != Column(db[b], BybitUid)
  }

  predicate Valid(db: Db) {
    (forall id | id in db :: ValidRow(id, db[id])) && UniqueUids(db)
  }

  /** Setting a column other than the id and the username to a fitting value keeps a row valid. */
  lemma SetColumnValid(id: int, row: Row, c: Col, v: Json)
    requires ValidRow(id, row) && c != Id && c != Username && Fits(KindOf(c), v)
    ensures ValidRow(id, row[c := v])
  {
    var row' := row[c := v];
    forall d | d in row' ensures Fits(KindOf(d), row'[d]) {
      if d != c {
        assert row'[d] == row[d];
      }
    }
    assert Column(row', Id) == Column(row, Id);
    assert Column(row', Username) == Column(row, Username);
  }

  /** Storing a valid row under a free id, with a uid nobody holds, keeps the table valid. */
  lemma InsertRowValid(db: Db, id: int, row: Row)
    requires Valid(db) && id !in db && ValidRow(id, row)
    requires forall b | b in db :: Column(row, BybitUid) == Null || Column(row, BybitUid) != Column(db[b], BybitUid)
    ensures Valid(db[id := row])
  {
    var r := db[id := row];
    forall a, b | a in r && b in r && a != b
      ensures Column(r[a], BybitUid) == Null || Column(r[a], BybitUid) != Column(r[b], BybitUid)
    {
      if a != id && b != id {
        assert r[a] == db[a] && r[b] == db[b];
      }
    }
  }

  /** Deleting a row keeps the table valid. */
  lemma RemoveRowValid(db: Db, id: int)
    requires Valid(db)
    ensures Valid(db - {id})
  {
    var r := db - {id};
    assert forall a | a in r :: r[a] == db[a];
  }

  /** Replacing a row by a valid one with the same uid keeps the table valid. */
  lemma ReplaceRowValid(db: Db, id: int, row: Row)
    requires Valid(db) && id in db && ValidRow(id, row)
    requires Column(row, BybitUid) == Column(db[id], BybitUid)
    ensures Valid(db[id := row])
  {
    var r := db[id := row];
    assert forall a | a in r :: Column(r[a], BybitUid) == Column(db[a], BybitUid);
  }

  /** `get_user(user_id)`: the row with that id, or None. */
  function GetUser(db: Db, userId: int): (r: Option<Row>)
    ensures r.Some? <==> userId in db
    ensures r.Some? ==> r.value == db[userId]
  {
    if userId in db then Some(db[userId]) else None
  }

  /**
    The row an insert of `User(id=…, username=…)` stores: the column defaults, the
    registration time and a three-day trial subscription.
   */
  function NewRow(userId: int, username: string, now: int): (row: Row)
    ensures ValidRow(userId, row)
    ensures Column(row, SubUntil) == Int(now + 3 * Day) && Column(row, BybitUid) == Null
  {
    map[
      Id := Int(userId), Username := Str(username),
      Leverage := Num(10.0), TakeProfit := Num(10.0), HedgePercentage := Num(10.0),
      HedgeStopLossPercentage := Num(10.0), Size := Num(1.0), Balance := Num(50.0),
      Api := Null, Secret := Null,
      FirstDay := Int(now), LastSubTime := Int(now + 3 * Day), SubUntil := Int(now + 3 * Day),
      IsBanned := Bool(false), BybitUid := Null]
  }

  /**
    `create_new_user(user_data)`: an existing user is returned as stored; otherwise a new
    row is inserted. A Telegram user without a username violates the NOT NULL constraint.
   */
  function CreateNewUser(db: Db, userId: int, username: Option<string>, now: int): (r: Result<(Db, Row), Exc>)
    ensures userId in db ==> r == Success((db, db[userId]))
    ensures userId !in db && username.None? ==> r == Failure(IntegrityError)
    ensures r.Success? ==> userId in r.value.0 && r.value.0[userId] == r.value.1
    ensures r.Success? ==> forall id | id in db :: id in r.value.0 && r.value.0[id] == db[id]
    ensures r.Success? ==> forall id | id in r.value.0 && id != userId :: id in db
  {
    if userId in db then Success((db, db[userId]))
    else if username.None? then Failure(IntegrityError)
    else
      var row := NewRow(userId, username.value, now);
      Success((db[userId := row], row))
  }

  /** Creating a user keeps the table valid. */
  lemma CreateNewUserValid(db: Db, userId: int, username: Option<string>, now: int)
    requires Valid(db)
    requires CreateNewUser(db, userId, username, now).Success?
    ensures Valid(CreateNewUser(db, userId, username, now).value.0)
  {
  }

  /** A second registration of the same user changes nothing and returns the same row. */
  lemma CreateNewUserIdempotent(db: Db, userId: int, username: Option<string>, username': Option<string>, now: int, now': int)
    requires CreateNewUser(db, userId, username, now).Success?
    ensures var (db1, row1) := CreateNewUser(db, userId, username, now).value;
      CreateNewUser(db1, userId, username', now') == Success((db1, row1))
  {
  }

  /** Some user other than `userId` holds the uid. */
  predicate UidTaken(db: Db, userId: int, uid: int) {
    exists other | other in db && other != userId :: Column(db[other], BybitUid) == Int(uid)
  }

  /**
    `update_bybit_uid(user_id, uid)`: nothing happens for an unknown user, for a uid held
    by another user or for a user who already has one. A None uid skips both checks and
    clears the column.
   */
  function UpdateBybitUid(db: Db, userId: int, uid: Option<int>): (r: Db)
    ensures r.Keys == db.Keys
    ensures forall id | id in db && id != userId :: r[id] == db[id]
    ensures userId in db && uid.None? ==> r[userId] == db[userId][BybitUid := Null]
  {
    if userId !in db then db
    else if uid.Some? && (UidTaken(db, userId, uid.value) || Column(db[userId], BybitUid) != Null) then db
    else db[userId := db[userId][BybitUid := if uid.Some? then Int(uid.value) else Null]]
  }

  /** A non-NULL uid is stored exactly when the user exists, nobody else holds it and the user has none. */
  lemma UpdateBybitUidSets(db: Db, userId: int, uid: int)
    ensures UpdateBybitUid(db, userId, Some(uid)) != db <==>
      userId in db && !UidTaken(db, userId, uid) && Column(db[userId], BybitUid) == Null
    ensures UpdateBybitUid(db, userId, Some(uid)) != db ==>
      Column(UpdateBybitUid(db, userId, Some(uid))[userId], BybitUid) == Int(uid)
  {
    if userId in db && !UidTaken(db, userId, uid) && Column(db[userId], BybitUid) == Null {
      assert Column(UpdateBybitUid(db, userId, Some(uid))[userId], BybitUid) == Int(uid);
      assert Column(db[userId], BybitUid) == Null;
    }
  }

  /** A uid once set is never replaced by another uid. */
  lemma UpdateBybitUidNeverOverwrites(db: Db, userId: int, uid: int)
    requires userId in db && Column(db[userId], BybitUid) != Null
    ensures UpdateBybitUid(db, userId, Some(uid)) == db
  {
  }

  /** Uid updates keep the table valid, so non-NULL uids stay unique. */
  lemma UpdateBybitUidValid(db: Db, userId: int, uid: Option<int>)
    requires Valid(db)
    ensures Valid(UpdateBybitUid(db, userId, uid))
  {
    var r := UpdateBybitUid(db, userId, uid);
    if r != db {
      var row := r[userId];
      assert ValidRow(userId, row) by {
        assert forall c | c in row :: c == BybitUid || (c in db[userId] && row[c] == db[userId][c]);
      }
      forall a, b | a in r && b in r && a != b
        ensures Column(r[a], BybitUid) == Null || Column(r[a], BybitUid) != Column(r[b], BybitUid)
      {
        if a == userId && uid.Some? {
          assert !UidTaken(db, userId, uid.value);
          assert Column(db[b], BybitUid) != Int(uid.value);
        }
      }
    }
  }

  /** A keyword argument of an UPDATE: a column of the table or some other name. */
  datatype Key = Known(c: Col) | Unknown(name: string)

  /** How a keyword is read: the column of that name when there is one. */
  function KeyOf(name: string): (k: Key)
    ensures k.Known? ==> ColName(k.c) == name
    ensures k.Unknown? ==> k.name == name
  {
    match ColOf(name)
    case Some(c) => Known(c)
    case None => Unknown(name)
  }

  /** Distinct keywords are distinct keys, so merging keyed dicts is merging the Python dicts. */
  lemma KeyOfInjective(a: string, b: string)
    ensures KeyOf(a) == KeyOf(b) ==> a == b
  {
  }

  /** `fields_dict` then `kwargs`, the later winning: the values the UPDATE sets. */
  function UpdateValues(fieldsDict: map<Key, Json>, kwargs: map<Key, Json>): (v: map<Key, Json>)
    ensures forall k | k in v :: k in fieldsDict || k in kwargs
    ensures forall k | k in kwargs :: k in v && v[k] == kwargs[k]
    ensures forall k | k in fieldsDict && k !in kwargs :: k in v && v[k] == fieldsDict[k]
  {
    fieldsDict + kwargs
  }

  /** The values keyed by column. */
  function ColumnValues(values: map<Key, Json>): (cols: map<Col, Json>)
    ensures forall c | c in cols :: Known(c) in values && cols[c] == values[Known(c)]
    ensures forall c | Known(c) in values :: c in cols
  {
    map c: Col | Known(c) in values :: values[Known(c)]
  }

  /**
    `update_user_fields(user_id, fields_dict, **kwargs)`: nothing for an unknown user.
    Otherwise one UPDATE of the merged values: an unknown column is a CompileError, a
    value of the wrong type a DataError, a NULL id or username or a clash on the primary
    key or the uid an IntegrityError. Changing the id moves the row.
   */
  function UpdateUserFields(db: Db, userId: int, fieldsDict: map<Key, Json>, kwargs: map<Key, Json>): (r: Result<Db, Exc>)
    ensures userId !in db ==> r == Success(db)
    ensures r.Failure? ==> r.error in {CompileError, DataError, IntegrityError}
    ensures r.Failure? && r.error == CompileError <==>
      userId in db && exists k | k in UpdateValues(fieldsDict, kwargs) :: k.Unknown?
  {
    var values := UpdateValues(fieldsDict, kwargs);
    if userId !in db then Success(db)
    else if exists k | k in values :: k.Unknown? then Failure(CompileError)
    else
      var cols := ColumnValues(values);
      if exists c | c in cols :: !Fits(KindOf(c), cols[c]) then Failure(DataError)
      else
        var row := db[userId] + cols;
        var id := Column(row, Id);
        var uid := Column(row, BybitUid);
        if !id.Int? || !Column(row, Username).Str? then Failure(IntegrityError)
        else if id.i != userId && id.i in db then Failure(IntegrityError)
        else if uid.Int? && UidTaken(db, userId, uid.i) then Failure(IntegrityError)
        else Success((db - {userId})[id.i := row])
  }

  /** The row an update writes: the stored row with the given columns replaced. */
  function UpdatedRow(row: Row, fieldsDict: map<Key, Json>, kwargs: map<Key, Json>): Row {
    row + ColumnValues(UpdateValues(fieldsDict, kwargs))
  }

  /** Each column of the updated row: the given value if there is one, else the stored one. */
  lemma UpdatedRowColumn(row: Row, fieldsDict: map<Key, Json>, kwargs: map<Key, Json>, c: Col)
    ensures Column(UpdatedRow(row, fieldsDict, kwargs), c) ==
      if Known(c) in kwargs then kwargs[Known(c)]
      else if Known(c) in fieldsDict then fieldsDict[Known(c)]
      else Column(row, c)
  {
    var values := UpdateValues(fieldsDict, kwargs);
    var cols := ColumnValues(values);
    assert c in cols <==> Known(c) in values;
  }

  /** A successful update of a stored user stores the updated row under the id it names. */
  lemma UpdateUserFieldsResult(db: Db, userId: int, fieldsDict: map<Key, Json>, kwargs: map<Key, Json>)
    requires userId in db
    requires UpdateUserFields(db, userId, fieldsDict, kwargs).Success?
    ensures var row := UpdatedRow(db[userId], fieldsDict, kwargs);
      Column(row, Id).Int? && Column(row, Username).Str? &&
      (forall c | c in ColumnValues(UpdateValues(fieldsDict, kwargs)) ::
        Fits(KindOf(c), ColumnValues(UpdateValues(fieldsDict, kwargs))[c])) &&
      (Column(row, Id).i == userId || Column(row, Id).i !in db) &&
      (Column(row, BybitUid).Int? ==> !UidTaken(db, userId, Column(row, BybitUid).i)) &&
      UpdateUserFields(db, userId, fieldsDict, kwargs).value == (db - {userId})[Column(row, Id).i := row]
  {
  }

  /** An update that leaves the id alone rewrites the row in place. */
  lemma UpdateInPlace(db: Db, userId: int, fieldsDict: map<Key, Json>, kwargs: map<Key, Json>)
    requires Valid(db) && userId in db && Known(Id) !in fieldsDict && Known(Id) !in kwargs
    requires UpdateUserFields(db, userId, fieldsDict, kwargs).Success?
    ensures UpdateUserFields(db, userId, fieldsDict, kwargs).value == db[userId := UpdatedRow(db[userId], fieldsDict, kwargs)]
  {
    UpdateUserFieldsResult(db, userId, fieldsDict, kwargs);
    UpdatedRowColumn(db[userId], fieldsDict, kwargs, Id);
    assert ValidRow(userId, db[userId]);
  }

  /**
    A successful update that leaves the id alone writes every given value, the kwargs
    winning, and keeps the other columns and the other users.
   */
  lemma UpdateUserFieldsWrites(db: Db, userId: int, fieldsDict: map<Key, Json>, kwargs: map<Key, Json>)
    requires Valid(db) && userId in db && Known(Id) !in fieldsDict && Known(Id) !in kwargs
    requires UpdateUserFields(db, userId, fieldsDict, kwargs).Success?
    ensures var r := UpdateUserFields(db, userId, fieldsDict, kwargs).value;
      r.Keys == db.Keys &&
      (forall id | id in db && id != userId :: r[id] == db[id]) &&
      (forall c | Known(c) in kwargs :: Column(r[userId], c) == kwargs[Known(c)]) &&
      (forall c | Known(c) in fieldsDict && Known(c) !in kwargs :: Column(r[userId], c) == fieldsDict[Known(c)]) &&
      (forall c | Known(c) !in fieldsDict && Known(c) !in kwargs :: Column(r[userId], c) == Column(db[userId], c))
  {
    UpdateInPlace(db, userId, fieldsDict, kwargs);
    forall c ensures Column(UpdatedRow(db[userId], fieldsDict, kwargs), c) ==
      if Known(c) in kwargs then kwargs[Known(c)]
      else if Known(c) in fieldsDict then fieldsDict[Known(c)]
      else Column(db[userId], c)
    {
      UpdatedRowColumn(db[userId], fieldsDict, kwargs, c);
    }
  }

  /** Merging well-typed columns into a well-typed row gives a well-typed row. */
  lemma MergeFits(row: Row, cols: map<Col, Json>)
    requires forall c | c in row :: Fits(KindOf(c), row[c])
    requires forall c | c in cols :: Fits(KindOf(c), cols[c])
    ensures forall c | c in row + cols :: Fits(KindOf(c), (row + cols)[c])
  {
  }

  /** Moving a user's row to a free id, with a uid nobody else holds, keeps the table valid. */
  lemma MoveRowValid(db: Db, userId: int, id: int, row: Row)
    requires Valid(db) && userId in db && ValidRow(id, row)
    requires id == userId || id !in db
    requires Column(row, BybitUid).Int? ==> !UidTaken(db, userId, Column(row, BybitUid).i)
    ensures Valid((db - {userId})[id := row])
  {
    RemoveRowValid(db, userId);
    var rest := db - {userId};
    var uid := Column(row, BybitUid);
    forall b | b in rest ensures uid == Null || uid != Column(rest[b], BybitUid) {
      assert b in db && b != userId && rest[b] == db[b];
      if uid != Null {
        assert uid.Int?;
        assert !UidTaken(db, userId, uid.i);
      }
    }
    InsertRowValid(rest, id, row);
  }

  /** Updates that succeed keep the table valid. */
  lemma UpdateUserFieldsValid(db: Db, userId: int, fieldsDict: map<Key, Json>, kwargs: map<Key, Json>)
    requires Valid(db)
    requires UpdateUserFields(db, userId, fieldsDict, kwargs).Success?
    ensures Valid(UpdateUserFields(db, userId, fieldsDict, kwargs).value)
  {
    if userId in db {
      UpdateUserFieldsResult(db, userId, fieldsDict, kwargs);
      var row := UpdatedRow(db[userId], fieldsDict, kwargs);
      assert ValidRow(userId, db[userId]);
      MergeFits(db[userId], ColumnValues(UpdateValues(fieldsDict, kwargs)));
      MoveRowValid(db, userId, Column(row, Id).i, row);
    }
  }

  /**
    `extend_subscription(user_id, days)`: the subscription runs `days` days from its end,
    or from now when it has lapsed. Comparing a NULL end with the current time is a
    TypeError.
   */
  function ExtendSubscription(db: Db, userId: int, days: int, now: int): (r: Result<Db, Exc>)
    ensures userId !in db ==> r == Success(db)
    ensures r.Failure? <==> userId in db && !Column(db[userId], SubUntil).Int?
    ensures r.Success? ==> r.value.Keys == db.Keys && forall id | id in db && id != userId :: r.value[id] == db[id]
    ensures r.Success? && userId in db ==>
      var s := Column(db[userId], SubUntil).i;
      var s' := Column(r.value[userId], SubUntil);
      s' == Int((if s > now then s else now) + days * Day) &&
      s'.i >= now + days * Day && s'.i >= s + days * Day
    ensures r.Success? && userId in db ==> forall c | c != SubUntil :: Column(r.value[userId], c) == Column(db[userId], c)
  {
    if userId !in db then Success(db)
    else
      match Column(db[userId], SubUntil)
      case Int(s) =>
        var start := if s > now then s else now;
        Success(db[userId := db[userId][SubUntil := Int(start + days * Day)]])
      case _ => Failure(TypeError)
  }

  /** Two extensions at the same moment add up when the first is not negative. */
  lemma ExtendSubscriptionAdds(db: Db, userId: int, d1: nat, d2: int, now: int)
    requires ExtendSubscription(db, userId, d1, now).Success?
    ensures ExtendSubscription(ExtendSubscription(db, userId, d1, now).value, userId, d2, now) ==
      ExtendSubscription(db, userId, d1 + d2, now)
  {
    if userId in db {
      var row := db[userId];
      var s := Column(row, SubUntil).i;
      var start := if s > now then s else now;
      var db1 := db[userId := row[SubUntil := Int(start + d1 * Day)]];
      assert ExtendSubscription(db, userId, d1, now).value == db1;
      assert start + d1 * Day >= now;
      var row2 := row[SubUntil := Int(start + d1 * Day)][SubUntil := Int(start + d1 * Day + d2 * Day)];
      assert row2 == row[SubUntil := Int(start + (d1 + d2) * Day)];
      assert ExtendSubscription(db1, userId, d2, now).value == db1[userId := row2];
      assert db1[userId := row2] == db[userId := row2];
    }
  }

  /** `unsubscribe(user_id)`: the subscription ends now. */
  function Unsubscribe(db: Db, userId: int, now: int): (r: Db)
    ensures r.Keys == db.Keys && forall id | id in db && id != userId :: r[id] == db[id]
    ensures userId in db ==> Column(r[userId], SubUntil) == Int(now)
    ensures userId in db ==> forall c | c != SubUntil :: Column(r[userId], c) == Column(db[userId], c)
  {
    if userId !in db then db
    else db[userId := db[userId][SubUntil := Int(now)]]
  }

  /** After unsubscribing, an extension counts from the present. */
  lemma UnsubscribeThenExtend(db: Db, userId: int, days: int, now: int)
    requires userId in db
    ensures ExtendSubscription(Unsubscribe(db, userId, now), userId, days, now).Success?
    ensures Column(ExtendSubscription(Unsubscribe(db, userId, now), userId, days, now).value[userId], SubUntil) ==
      Int(now + days * Day)
  {
  }

  /** Both subscription changes keep the table valid. */
  lemma SubscriptionValid(db: Db, userId: int, days: int, now: int)
    requires Valid(db)
    ensures Valid(Unsubscribe(db, userId, now))
    ensures ExtendSubscription(db, userId, days, now).Success? ==> Valid(ExtendSubscription(db, userId, days, now).value)
  {
    if userId in db {
      var row := db[userId];
      assert ValidRow(userId, row);
      SetColumnValid(userId, row, SubUntil, Int(now));
      assert Column(row[SubUntil := Int(now)], BybitUid) == Column(row, BybitUid);
      ReplaceRowValid(db, userId, row[SubUntil := Int(now)]);
      assert Unsubscribe(db, userId, now) == db[userId := row[SubUntil := Int(now)]];
      if Column(row, SubUntil).Int? {
        var s := Column(row, SubUntil).i;
        var start := if s > now then s else now;
        var row' := row[SubUntil := Int(start + days * Day)];
        SetColumnValid(userId, row, SubUntil, Int(start + days * Day));
        assert Column(row', BybitUid) == Column(row, BybitUid);
        ReplaceRowValid(db, userId, row');
        assert ExtendSubscription(db, userId, days, now).value == db[userId := row'];
      }
    }
  }
}
