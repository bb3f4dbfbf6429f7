/**
  The part of a redis database the bot uses, as seen through a client created with
  `decode_responses=True`: keys, hash fields and values are all strings. A key holds
  either a hash or a plain string value; a command of the other kind on it fails with a
  WRONGTYPE error.
 */
module KeyValue {
  import opened Wrappers
  import opened Json
  import Text

  datatype Store = Store(hashes: map<string, map<string, string>>, strings: map<string, string>)

  /** Each key holds one kind of value, and redis deletes a hash together with its last field. */
  predicate Valid(st: Store) {
    forall k | k in st.hashes :: k !in st.strings && |st.hashes[k]| > 0
  }

  function Empty(): (st: Store)
    ensures Valid(st)
  {
    Store(map[], map[])
  }

  /** `EXISTS key`. */
  predicate Exists(st: Store, key: string) {
    key in st.hashes || key in st.strings
  }

  /** Every key in the database. */
  function AllKeys(st: Store): set<string> {
    st.hashes.Keys + st.strings.Keys
  }

  /**
    How the client turns an argument into what it sends: a str as it is, an int by `str()`,
    a float by `repr()` (given as `repr`); None, a bool or a container is refused with
    DataError.
   */
  function Encode(v: Json, repr: real -> string): (r: Result<string, Exc>)
    ensures r.Success? <==> v.Str? || v.Int? || v.Num?
    ensures v.Str? ==> r == Success(v.s)
    ensures v.Int? ==> r == Success(Text.ShowInt(v.i))
    ensures v.Num? ==> r == Success(repr(v.r))
    ensures r.Failure? ==> r.error == DataError
  {
    match v
    case Str(s) => Success(s)
    case Int(i) => Success(Text.ShowInt(i))
    case Num(x) => Success(repr(x))
    case _ => Failure(DataError)
  }

  /** Every value of a mapping encoded; the first value that cannot be is a DataError. */
  function EncodeAll(m: map<string, Json>, repr: real -> string): (r: Result<map<string, string>, Exc>)
    ensures r.Success? <==> forall k | k in m :: Encode(m[k], repr).Success?
    ensures r.Failure? ==> r.error == DataError
    ensures r.Success? ==> r.value.Keys == m.Keys
    ensures r.Success? ==> forall k | k in m :: r.value[k] == Encode(m[k], repr).value
  {
    if forall k | k in m :: Encode(m[k], repr).Success? then
      Success(map k | k in m :: Encode(m[k], repr).value)
    else Failure(DataError)
  }

  /** `HGET key field`. */
  function HGet(st: Store, key: string, field: string): (r: Result<Option<string>, Exc>)
    ensures r.Failure? <==> key in st.strings
    ensures r.Failure? ==> r.error == WrongTypeError
    ensures r.Success? && key in st.hashes && field in st.hashes[key] ==> r.value == Some(st.hashes[key][field])
    ensures r.Success? && !(key in st.hashes && field in st.hashes[key]) ==> r.value == None
  {
    if key in st.strings then Failure(WrongTypeError)
    else if key in st.hashes && field in st.hashes[key] then Success(Some(st.hashes[key][field]))
    else Success(None)
  }

  /** `HGETALL key`: the whole hash, empty when the key is missing. */
  function HGetAll(st: Store, key: string): (r: Result<map<string, string>, Exc>)
    ensures r.Failure? <==> key in st.strings
    ensures r.Failure? ==> r.error == WrongTypeError
    ensures r.Success? ==> r.value == (if key in st.hashes then st.hashes[key] else map[])
  {
    if key in st.strings then Failure(WrongTypeError)
    else if key in st.hashes then Success(st.hashes[key])
    else Success(map[])
  }

  /**
    `HSET key mapping=...`: the fields are added or overwritten. The client refuses an
    empty mapping with DataError before sending anything.
   */
  function HSet(st: Store, key: string, mapping: map<string, string>): (r: Result<Store, Exc>)
    ensures r.Failure? <==> mapping == map[] || key in st.strings
    ensures r.Failure? ==> r.error == (if mapping == map[] then DataError else WrongTypeError)
    ensures r.Success? ==> r.value.strings == st.strings
    ensures r.Success? ==> (key in r.value.hashes &&
      r.value.hashes[key] == (if key in st.hashes then st.hashes[key] + mapping else mapping))
    ensures r.Success? ==> forall k | k != key :: (k in r.value.hashes <==> k in st.hashes)
    ensures r.Success? ==> forall k | k != key && k in st.hashes :: r.value.hashes[k] == st.hashes[k]
    ensures r.Success? && Valid(st) ==> Valid(r.value)
  {
    if mapping == map[] then Failure(DataError)
    else if key in st.strings then Failure(WrongTypeError)
    else
      var merged := if key in st.hashes then st.hashes[key] + mapping else mapping;
      assert |merged| > 0 by {
        var f :| f in mapping;
        assert f in merged;
      }
      Success(Store(st.hashes[key := merged], st.strings))
  }

  /** `HDEL key f1 f2 ...`: the hash disappears with its last field. */
  function HDel(st: Store, key: string, fields: set<string>): (r: Result<Store, Exc>)
    ensures r.Failure? <==> key in st.strings
    ensures r.Failure? ==> r.error == WrongTypeError
    ensures r.Success? ==> r.value.strings == st.strings
    ensures r.Success? ==> forall k | k != key :: (k in r.value.hashes <==> k in st.hashes)
    ensures r.Success? ==> forall k | k != key && k in st.hashes :: r.value.hashes[k] == st.hashes[k]
    ensures r.Success? && key in r.value.hashes ==>
      key in st.hashes && r.value.hashes[key] == st.hashes[key] - fields && |r.value.hashes[key]| > 0
    ensures r.Success? && key !in r.value.hashes ==>
      key !in st.hashes || (st.hashes[key] - fields) == map[]
    ensures r.Success? && Valid(st) ==> Valid(r.value)
  {
    if key in st.strings then Failure(WrongTypeError)
    else if key !in st.hashes then Success(st)
    else
      var rest := st.hashes[key] - fields;
      if rest == map[] then Success(Store(st.hashes - {key}, st.strings))
      else
        assert |rest| > 0 by {
          var f :| f in rest;
        }
        Success(Store(st.hashes[key := rest], st.strings))
  }

  /** `GET key`. */
  function Get(st: Store, key: string): (r: Result<Option<string>, Exc>)
    ensures r.Failure? <==> key in st.hashes
    ensures r.Failure? ==> r.error == WrongTypeError
    ensures r.Success? ==> r.value == (if key in st.strings then Some(st.strings[key]) else None)
  {
    if key in st.hashes then Failure(WrongTypeError)
    else if key in st.strings then Success(Some(st.strings[key]))
    else Success(None)
  }

  /** `SET key value`: replaces whatever the key held. */
  function Set(st: Store, key: string, value: string): (r: Store)
    ensures key in r.strings && r.strings[key] == value && key !in r.hashes
    ensures forall k | k != key :: (k in r.strings <==> k in st.strings) && (k in r.hashes <==> k in st.hashes)
    ensures forall k | k != key && k in st.strings :: r.strings[k] == st.strings[k]
    ensures forall k | k != key && k in st.hashes :: r.hashes[k] == st.hashes[k]
    ensures Valid(st) ==> Valid(r)
  {
    Store(st.hashes - {key}, st.strings[key := value])
  }

  /** A hash written and read back gives the written fields, over what was there. */
  lemma HSetHGet(st: Store, key: string, mapping: map<string, string>, field: string)
    requires HSet(st, key, mapping).Success?
    ensures field in mapping ==> HGet(HSet(st, key, mapping).value, key, field) == Success(Some(mapping[field]))
    ensures field !in mapping ==> HGet(HSet(st, key, mapping).value, key, field) == HGet(st, key, field)
  {
  }

  /** An HSET whose mapping names every field the hash already has leaves exactly the mapping. */
  lemma HSetCovering(st: Store, key: string, mapping: map<string, string>)
    requires HSet(st, key, mapping).Success?
    requires key in st.hashes ==> st.hashes[key].Keys <= mapping.Keys
    ensures HSet(st, key, mapping).value.hashes[key] == mapping
  {
    if key in st.hashes {
      var merged := st.hashes[key] + mapping;
      assert merged.Keys == mapping.Keys;
      assert forall f | f in mapping :: merged[f] == mapping[f];
    }
  }
}
