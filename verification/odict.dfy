/**
  Python's insertion-ordered `dict` as a sequence of key/value pairs: assignment to an
  existing key keeps its position, a new key goes to the end, and deletion closes the gap.
 */
module ODict {
  import opened Wrappers

  type ODict<K, V> = seq<(K, V)>

  predicate HasKey<K(==), V>(d: ODict<K, V>, k: K) {
    exists i | 0 <= i < |d| :: d[i].0 == k
  }

  /** No key occurs twice, as in every Python dict. */
  predicate Unique<K(==), V>(d: ODict<K, V>) {
    forall i, j | 0 <= i < j < |d| :: d[i].0 != d[j].0
  }

  /** `list(d.keys())`. */
  function Keys<K, V>(d: ODict<K, V>): (ks: seq<K>)
    ensures |ks| == |d|
    ensures forall i | 0 <= i < |d| :: ks[i] == d[i].0
  {
    if |d| == 0 then [] else [d[0].0] + Keys(d[1..])
  }

  /** Past a first entry with another key, the key is present exactly when it is in the tail. */
  lemma HasKeyTail<K, V>(d: ODict<K, V>, k: K)
    requires |d| > 0 && d[0].0 != k
    ensures HasKey(d, k) <==> HasKey(d[1..], k)
  {
    if HasKey(d, k) {
      var i :| 0 <= i < |d| && d[i].0 == k;
      assert d[1..][i - 1].0 == k;
    }
    if HasKey(d[1..], k) {
      var i :| 0 <= i < |d[1..]| && d[1..][i].0 == k;
      assert d[i + 1].0 == k;
    }
  }

  /** `d.get(k)`. */
  function Get<K(==), V>(d: ODict<K, V>, k: K): (r: Option<V>)
    ensures r.Some? <==> HasKey(d, k)
    ensures r.Some? ==> exists i | 0 <= i < |d| :: d[i] == (k, r.value)
  {
    if |d| == 0 then None
    else if d[0].0 == k then Some(d[0].1)
    else
      var r := Get(d[1..], k);
      assert r.Some? ==> exists i | 0 <= i < |d| :: d[i] == (k, r.value) by {
        if r.Some? {
          var i :| 0 <= i < |d[1..]| && d[1..][i] == (k, r.value);
          assert d[i + 1] == (k, r.value);
        }
      }
      HasKeyTail(d, k);
      r
  }

  lemma GetUnique<K, V>(d: ODict<K, V>, i: int)
    requires Unique(d) && 0 <= i < |d|
    ensures Get(d, d[i].0) == Some(d[i].1)
  {
    var r := Get(d, d[i].0);
    var j :| 0 <= j < |d| && d[j] == (d[i].0, r.value);
    assert i == j;
  }

  /** `d[k] = v`: overwrite in place, or append a new key. */
  function Set<K(==), V>(d: ODict<K, V>, k: K, v: V): (r: ODict<K, V>)
    ensures HasKey(d, k) ==> |r| == |d| && Keys(r) == Keys(d)
    ensures !HasKey(d, k) ==> r == d + [(k, v)]
    ensures forall i | 0 <= i < |d| && d[i].0 != k :: r[i] == d[i]
  {
    if |d| == 0 then [(k, v)]
    else if d[0].0 == k then [(k, v)] + d[1..]
    else
      var rest := Set(d[1..], k, v);
      HasKeyTail(d, k);
      assert HasKey(d, k) ==> Keys([d[0]] + rest) == Keys(d) by {
        if HasKey(d, k) {
          assert Keys([d[0]] + rest) == [d[0].0] + Keys(rest);
        }
      }
      [d[0]] + rest
  }

  lemma {:induction false} SetGet<K, V>(d: ODict<K, V>, k: K, v: V, k': K)
    ensures Get(Set(d, k, v), k') == if k' == k then Some(v) else Get(d, k')
    decreases |d|
  {
    if |d| > 0 && d[0].0 != k {
      SetGet(d[1..], k, v, k');
      assert Set(d, k, v)[1..] == Set(d[1..], k, v);
    } else if |d| > 0 {
      assert Set(d, k, v)[1..] == d[1..];
    }
  }

  lemma SetUnique<K, V>(d: ODict<K, V>, k: K, v: V)
    requires Unique(d)
    ensures Unique(Set(d, k, v))
  {
    var r := Set(d, k, v);
    assert forall i | 0 <= i < |r| :: r[i].0 == Keys(r)[i];
    if !HasKey(d, k) {
      forall i, j | 0 <= i < j < |r| ensures r[i].0 != r[j].0 {
        if j == |d| {
          assert r[i] == d[i];
        }
      }
    }
  }

  /** `d.pop(k, None)` / `del d[k]` on a dict whose keys are unique. */
  function Remove<K(==), V>(d: ODict<K, V>, k: K): (r: ODict<K, V>)
    ensures !HasKey(r, k)
    ensures |r| <= |d|
    ensures forall i | 0 <= i < |r| :: r[i] in d
    ensures forall i | 0 <= i < |d| && d[i].0 != k :: d[i] in r
  {
    if |d| == 0 then []
    else if d[0].0 == k then
      var rest := Remove(d[1..], k);
      assert forall i | 0 < i < |d| :: d[i] == d[1..][i - 1];
      rest
    else
      var rest := Remove(d[1..], k);
      assert forall i | 0 < i < |d| :: d[i] == d[1..][i - 1];
      [d[0]] + rest
  }

  lemma {:induction false} RemoveGet<K, V>(d: ODict<K, V>, k: K, k': K)
    requires Unique(d)
    ensures Get(Remove(d, k), k') == if k' == k then None else Get(d, k')
    decreases |d|
  {
    if |d| > 0 {
      assert Unique(d[1..]);
      RemoveGet(d[1..], k, k');
      if d[0].0 != k {
        assert Remove(d, k)[1..] == Remove(d[1..], k);
      } else if k' != k && HasKey(d[1..], k') {
        assert Get(d, k') == Get(d[1..], k');
      }
    }
  }

  lemma {:induction false} RemoveUnique<K, V>(d: ODict<K, V>, k: K)
    requires Unique(d)
    ensures Unique(Remove(d, k))
    decreases |d|
  {
    if |d| > 0 {
      assert Unique(d[1..]);
      RemoveUnique(d[1..], k);
      if d[0].0 != k {
        var r := Remove(d, k);
        assert r[1..] == Remove(d[1..], k);
        forall j | 0 < j < |r| ensures r[0].0 != r[j].0 {
          assert r[j] in Remove(d[1..], k);
          assert r[j] in d[1..];
        }
      }
    }
  }

  /** `d[k] = v`, then `d.pop(a, None)` and `d.pop(b, None)`, on a dict with unique keys. */
  function SetDropping<K(==,!new), V>(d: ODict<K, V>, k: K, v: V, a: K, b: K): (r: ODict<K, V>)
    requires Unique(d) && k != a && k != b
    ensures Unique(r)
    ensures Get(r, k) == Some(v) && Get(r, a).None? && Get(r, b).None?
    ensures forall k' | k' != k && k' != a && k' != b :: Get(r, k') == Get(d, k')
  {
    SetRemoveRemove(d, k, v, a, b);
    Remove(Remove(Set(d, k, v), a), b)
  }

  lemma SetRemoveRemove<K, V>(d: ODict<K, V>, k: K, v: V, a: K, b: K)
    requires Unique(d) && k != a && k != b
    ensures Unique(Remove(Remove(Set(d, k, v), a), b))
    ensures forall k' :: Get(Remove(Remove(Set(d, k, v), a), b), k') == (if k' == k then Some(v) else if k' == a || k' == b then None else Get(d, k'))
  {
    var d1 := Set(d, k, v);
    SetUnique(d, k, v);
    var d2 := Remove(d1, a);
    RemoveUnique(d1, a);
    RemoveUnique(d2, b);
    forall k' ensures Get(Remove(d2, b), k') ==
      (if k' == k then Some(v) else if k' == a || k' == b then None else Get(d, k'))
    {
      SetGet(d, k, v, k');
      RemoveGet(d1, a, k');
      RemoveGet(d2, b, k');
    }
  }

  /** The dict's contents without its order. */
  function ToMap<K(==), V>(d: ODict<K, V>): (m: map<K, V>)
    ensures forall i | 0 <= i < |d| :: d[i].0 in m
    ensures forall k | k in m :: HasKey(d, k)
  {
    map k | k in Keys(d) :: Get(d, k).value
  }

  lemma ToMapGet<K, V>(d: ODict<K, V>, k: K)
    ensures k in ToMap(d) <==> Get(d, k).Some?
    ensures k in ToMap(d) ==> ToMap(d)[k] == Get(d, k).value
  {
  }
}
