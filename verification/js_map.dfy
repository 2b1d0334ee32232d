/**
 * A JavaScript `Map<string, V>` as the session uses it: an insertion-ordered
 * list of entries with distinct keys. `set` on a present key replaces the value
 * where it stands; on an absent key it appends. `size` is the number of entries
 * and `Array.from(map.values())` lists the values in insertion order.
 */
module JsMap {
  import opened Wrappers

  datatype Entry<V> = Entry(key: string, value: V)

  type OrderedMap<V> = seq<Entry<V>>

  /** The set of keys of `m`. */
  function Keys<V>(m: OrderedMap<V>): set<string> {
    if m == [] then {} else {m[0].key} + Keys(m[1..])
  }

  /** No key occurs twice (always true of a JavaScript Map). */
  predicate DistinctKeys<V>(m: OrderedMap<V>) {
    m == [] || (m[0].key !in Keys(m[1..]) && DistinctKeys(m[1..]))
  }

  /** `map.get(k)`: the value of the first entry with key `k`, or None. */
  function Get<V>(m: OrderedMap<V>, k: string): (r: Option<V>)
    ensures r.None? <==> k !in Keys(m)
  {
    if m == [] then None
    else if m[0].key == k then Some(m[0].value)
    else Get(m[1..], k)
  }

  /** `map.has(k)`. */
  predicate Has<V>(m: OrderedMap<V>, k: string) {
    k in Keys(m)
  }

  /** `map.size`. */
  function Size<V>(m: OrderedMap<V>): nat {
    |m|
  }

  /** `Array.from(map.values())`: the values in insertion order. */
  function Values<V>(m: OrderedMap<V>): (vs: seq<V>)
    ensures |vs| == |m|
    ensures forall i :: 0 <= i < |m| ==> vs[i] == m[i].value
  {
    if m == [] then [] else [m[0].value] + Values(m[1..])
  }

  /**
   * `map.set(k, v)`: afterwards `k` maps to `v`, every other key keeps its
   * value, a present key keeps its position and the size grows by one exactly
   * when `k` was absent.
   */
  function Set<V>(m: OrderedMap<V>, k: string, v: V): (r: OrderedMap<V>)
    ensures Get(r, k) == Some(v)
    ensures forall j :: j != k ==> Get(r, j) == Get(m, j)
    ensures Keys(r) == Keys(m) + {k}
    ensures |r| == if k in Keys(m) then |m| else |m| + 1
    ensures DistinctKeys(m) ==> DistinctKeys(r)
  {
    if m == [] then [Entry(k, v)]
    else if m[0].key == k then [Entry(k, v)] + m[1..]
    else [m[0]] + Set(m[1..], k, v)
  }

  /** Setting the same value twice leaves the same map as setting it once. */
  lemma {:induction false} SetIdempotent<V>(m: OrderedMap<V>, k: string, v: V)
    ensures Set(Set(m, k, v), k, v) == Set(m, k, v)
  {
    if m != [] && m[0].key != k {
      SetIdempotent(m[1..], k, v);
      assert Set(m, k, v)[1..] == Set(m[1..], k, v);
    }
  }

  /** With distinct keys, the size of the map is the number of its keys. */
  lemma {:induction false} SizeIsKeyCount<V>(m: OrderedMap<V>)
    requires DistinctKeys(m)
    ensures |Keys(m)| == Size(m)
  {
    if m != [] {
      SizeIsKeyCount(m[1..]);
    }
  }
}
