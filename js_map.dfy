/** A model of the ECMAScript `Map` as the sale index uses it: a finite map
    together with the order in which its keys were first inserted. `set` on a
    key that is already present replaces its value and keeps its position;
    `set` on a new key appends the key at the end; `forEach` visits the
    values in key order. */
module JsMap {
  import opened Wrappers

  /** Both levels of the sale index are keyed by strings. */
  type Key = string

  /** No element occurs twice. */
  ghost predicate Distinct<T>(s: seq<T>) {
    forall i, j :: 0 <= i < j < |s| ==> s[i] != s[j]
  }

  datatype OrderedMap<V> = OrderedMap(keys: seq<Key>, values: map<Key, V>)

  /** The key order lists every key of the map exactly once. */
  ghost predicate Valid<V>(m: OrderedMap<V>) {
    && Distinct(m.keys)
    && (forall k :: k in m.values <==> k in m.keys)
  }

  /** `new Map()` */
  function Empty<V>(): (m: OrderedMap<V>)
    ensures Valid(m)
    ensures forall k :: Get(m, k) == None
  {
    OrderedMap([], map[])
  }

  /** `m.get(k)`, with `undefined` as None. */
  function Get<V>(m: OrderedMap<V>, k: Key): Option<V> {
    if k in m.values then Some(m.values[k]) else None
  }

  /** `m.set(k, v)`. */
  function Put<V>(m: OrderedMap<V>, k: Key, v: V): (r: OrderedMap<V>)
    ensures Get(r, k) == Some(v)
    ensures forall k' :: k' != k ==> Get(r, k') == Get(m, k')
    ensures Valid(m) ==> Valid(r)
  {
    OrderedMap(if k in m.values then m.keys else m.keys + [k], m.values[k := v])
  }

  /** The values of `values` at the keys `ks`, in the order of `ks`. */
  function ValuesAt<V>(values: map<Key, V>, ks: seq<Key>): (r: seq<V>)
    requires forall k :: k in ks ==> k in values
    ensures |r| == |ks|
    ensures forall j :: 0 <= j < |ks| ==> r[j] == values[ks[j]]
  {
    if ks == [] then []
    else ValuesAt(values, ks[..|ks| - 1]) + [values[ks[|ks| - 1]]]
  }

  /** What `m.forEach` visits, in order. */
  function Values<V>(m: OrderedMap<V>): seq<V>
    requires Valid(m)
  {
    ValuesAt(m.values, m.keys)
  }

  /** Overwriting a present key keeps the key order and replaces the value
      in place, at the key's position. */
  lemma PutPresent<V>(m: OrderedMap<V>, k: Key, v: V)
    requires Valid(m) && Get(m, k).Some?
    ensures Put(m, k, v).keys == m.keys
    ensures Values(Put(m, k, v)) == Values(m)[IndexOf(m.keys, k) := v]
  {
    var r, p := Put(m, k, v), IndexOf(m.keys, k);
    var want := Values(m)[p := v];
    assert |Values(r)| == |want|;
    forall j | 0 <= j < |want| ensures Values(r)[j] == want[j] {
      if j != p {
        assert m.keys[j] != m.keys[p];
      }
    }
  }

  /** Setting a new key appends it to the key order and its value to the
      iteration. */
  lemma PutAbsent<V>(m: OrderedMap<V>, k: Key, v: V)
    requires Valid(m) && Get(m, k).None?
    ensures Put(m, k, v).keys == m.keys + [k]
    ensures Values(Put(m, k, v)) == Values(m) + [v]
  {
    var r := Put(m, k, v);
    var want := Values(m) + [v];
    assert |Values(r)| == |want|;
    forall j | 0 <= j < |want| ensures Values(r)[j] == want[j] {
      if j < |m.keys| {
        assert m.keys[j] != k;
      }
    }
  }

  /** The position of a key in the key order. */
  function IndexOf(ks: seq<Key>, k: Key): (p: nat)
    requires k in ks
    ensures p < |ks| && ks[p] == k
    ensures forall j :: 0 <= j < p ==> ks[j] != k
  {
    if ks[0] == k then 0 else 1 + IndexOf(ks[1..], k)
  }

  /** A second `set` of the same key supersedes the first entirely. */
  lemma PutPut<V>(m: OrderedMap<V>, k: Key, a: V, b: V)
    ensures Put(Put(m, k, a), k, b) == Put(m, k, b)
  {
    assert m.values[k := a][k := b] == m.values[k := b];
  }
}
