/**
 * A Python `dict` as the list of its (key, value) items in insertion order:
 * writing an existing key keeps its position, a new key goes last, `del`
 * removes the item. Iteration order matters to the callers (`min` over the
 * keys, `.values()` comprehensions), which is why a plain `map` is not enough.
 */
module Dict {
  import opened Base

  predicate UniqueKeys<K(==), V>(d: seq<(K, V)>) {
    forall i, j | 0 <= i < j < |d| :: d[i].0 != d[j].0
  }

  /** `list(d.keys())` */
  function Keys<K, V>(d: seq<(K, V)>): (r: seq<K>)
    ensures |r| == |d|
    ensures forall i | 0 <= i < |d| :: r[i] == d[i].0
  {
    if d == [] then [] else [d[0].0] + Keys(d[1..])
  }

  /** `list(d.values())` */
  function Values<K, V>(d: seq<(K, V)>): (r: seq<V>)
    ensures |r| == |d|
    ensures forall i | 0 <= i < |d| :: r[i] == d[i].1
  {
    if d == [] then [] else [d[0].1] + Values(d[1..])
  }

  /** `d.get(k)` */
  function Get<K(==), V>(d: seq<(K, V)>, k: K): (r: Option<V>)
    ensures r.Some? <==> k in Keys(d)
    ensures r.Some? ==> (k, r.value) in d
  {
    if d == [] then None else if d[0].0 == k then Some(d[0].1) else Get(d[1..], k)
  }

  /** In a dict with unique keys, looking up the key of item `i` finds item `i`'s value. */
  lemma {:induction false} GetAt<K, V>(d: seq<(K, V)>, i: nat)
    requires UniqueKeys(d) && i < |d|
    ensures Get(d, d[i].0) == Some(d[i].1)
  {
    if i > 0 {
      GetAt(d[1..], i - 1);
    }
  }

  /** `d[k] = v` */
  function Put<K(==), V>(d: seq<(K, V)>, k: K, v: V): seq<(K, V)>
  {
    if d == [] then [(k, v)]
    else if d[0].0 == k then [(k, v)] + d[1..]
    else [d[0]] + Put(d[1..], k, v)
  }

  /**
   * After `d[k] = v`, `k` maps to `v`, every other key keeps its value, an
   * existing key keeps its position and a new key is appended.
   */
  lemma {:induction false} PutSpec<K(!new), V>(d: seq<(K, V)>, k: K, v: V)
    ensures Get(Put(d, k, v), k) == Some(v)
    ensures forall j | j != k :: Get(Put(d, k, v), j) == Get(d, j)
    ensures Keys(Put(d, k, v)) == if k in Keys(d) then Keys(d) else Keys(d) + [k]
    ensures |Put(d, k, v)| == if k in Keys(d) then |d| else |d| + 1
  {
    var r := Put(d, k, v);
    if d != [] && d[0].0 != k {
      var t := Put(d[1..], k, v);
      PutSpec(d[1..], k, v);
      assert r == [d[0]] + t && r[1..] == t;
      assert Keys(d) == [d[0].0] + Keys(d[1..]);
      assert Keys(r) == [d[0].0] + Keys(t);
      forall j | j != k ensures Get(r, j) == Get(d, j) {
      }
    }
  }

  /** Writing a key keeps the keys unique. */
  lemma PutUnique<K(!new), V>(d: seq<(K, V)>, k: K, v: V)
    requires UniqueKeys(d)
    ensures UniqueKeys(Put(d, k, v))
  {
    var r := Put(d, k, v);
    PutSpec(d, k, v);
    forall i, j | 0 <= i < j < |r| ensures r[i].0 != r[j].0 {
      assert Keys(r)[i] == r[i].0 && Keys(r)[j] == r[j].0;
      if k !in Keys(d) && j == |d| {
        assert r[i].0 == Keys(d)[i];
      }
    }
  }

  /** `del d[k]` when `k` is present; no change otherwise. */
  function Delete<K(==,!new), V>(d: seq<(K, V)>, k: K): (r: seq<(K, V)>)
    ensures forall j | j != k :: Get(r, j) == Get(d, j)
    ensures UniqueKeys(d) ==> Get(r, k) == None
    ensures UniqueKeys(d) ==> |r| == if k in Keys(d) then |d| - 1 else |d|
    ensures k !in Keys(d) ==> r == d
    ensures forall e | e in r :: e in d
  {
    if d == [] then []
    else if d[0].0 == k then
      assert UniqueKeys(d) ==> k !in Keys(d[1..]);
      d[1..]
    else [d[0]] + Delete(d[1..], k)
  }

  /** Deleting a key keeps the keys unique. */
  lemma {:induction false} DeleteUnique<K(!new), V>(d: seq<(K, V)>, k: K)
    requires UniqueKeys(d)
    ensures UniqueKeys(Delete(d, k))
  {
    if d != [] && d[0].0 != k {
      DeleteUnique(d[1..], k);
      var t := Delete(d[1..], k);
      forall e | e in t ensures e.0 != d[0].0 {
        assert e in d[1..];
      }
    }
  }

  /** Every item is stored under the key its value carries (an id field). */
  predicate KeyedBy<K(==), V>(d: seq<(K, V)>, key: V -> K) {
    forall i | 0 <= i < |d| :: d[i].0 == key(d[i].1)
  }

  /** The items after `d[k] = v` are the new item and items that were there before. */
  lemma {:induction false} PutElements<K, V>(d: seq<(K, V)>, k: K, v: V)
    ensures forall e | e in Put(d, k, v) :: e == (k, v) || e in d
  {
    if d != [] && d[0].0 != k {
      PutElements(d[1..], k, v);
    }
  }

  /** In a keyed dict the value found under a key carries that key. */
  lemma GetKeyed<K, V>(d: seq<(K, V)>, k: K, key: V -> K)
    requires KeyedBy(d, key) && k in Keys(d)
    ensures key(Get(d, k).value) == k
  {
    var v := Get(d, k).value;
    assert (k, v) in d;
    var i :| 0 <= i < |d| && d[i] == (k, v);
  }

  /** Storing a value under its own key keeps a dict keyed by that field. */
  lemma PutKeyed<K(!new), V>(d: seq<(K, V)>, k: K, v: V, key: V -> K)
    requires UniqueKeys(d) && KeyedBy(d, key) && key(v) == k
    ensures UniqueKeys(Put(d, k, v)) && KeyedBy(Put(d, k, v), key)
  {
    PutUnique(d, k, v);
    PutElements(d, k, v);
    var r := Put(d, k, v);
    forall i | 0 <= i < |r| ensures r[i].0 == key(r[i].1) {
      assert r[i] in r;
    }
  }

  /** Deleting keeps a dict keyed by a field. */
  lemma DeleteKeyed<K(!new), V>(d: seq<(K, V)>, k: K, key: V -> K)
    requires UniqueKeys(d) && KeyedBy(d, key)
    ensures UniqueKeys(Delete(d, k)) && KeyedBy(Delete(d, k), key)
  {
    DeleteUnique(d, k);
    var r := Delete(d, k);
    forall i | 0 <= i < |r| ensures r[i].0 == key(r[i].1) {
      assert r[i] in r;
    }
  }

  /** Writing a key twice is writing the second value once. */
  lemma {:induction false} PutPut<K, V>(d: seq<(K, V)>, k: K, v1: V, v2: V)
    ensures Put(Put(d, k, v1), k, v2) == Put(d, k, v2)
  {
    if d != [] && d[0].0 != k {
      PutPut(d[1..], k, v1, v2);
    }
  }

  /** Writing back the value a key already has changes nothing. */
  lemma {:induction false} PutSame<K, V>(d: seq<(K, V)>, k: K)
    requires k in Keys(d)
    ensures Put(d, k, Get(d, k).value) == d
  {
    if d[0].0 != k {
      assert Keys(d) == [d[0].0] + Keys(d[1..]);
      PutSame(d[1..], k);
    }
  }
}
