/**
 * A JavaScript `Map` with numeric keys, as the store keeps its tables in.
 * Besides the key/value pairs it remembers the order in which keys were
 * first set: iteration (`Map.prototype.values`) follows that order, and
 * `set` on a key that is already present replaces the value in place.
 */
module OrderedMap {
  import opened Wrappers

  datatype OMap<V> = OMap(entries: map<int, V>, keys: seq<int>)

  /** Every key occurs once in the iteration order, and exactly the stored keys occur. */
  ghost predicate Valid<V>(m: OMap<V>) {
    && (forall i, j :: 0 <= i < j < |m.keys| ==> m.keys[i] != m.keys[j])
    && (forall k :: k in m.entries <==> k in m.keys)
    && (forall i :: 0 <= i < |m.keys| ==> m.keys[i] in m.entries)
  }

  /** `new Map()` */
  function Empty<V>(): (m: OMap<V>)
    ensures Valid(m)
    ensures m.entries == map[] && Values(m) == []
  {
    OMap(map[], [])
  }

  /** `Map.prototype.get`: the value under `k`, or none. */
  function Get<V>(m: OMap<V>, k: int): (r: Option<V>)
    ensures r.Some? <==> k in m.entries
    ensures r.Some? ==> r.value == m.entries[k]
  {
    if k in m.entries then Some(m.entries[k]) else None
  }

  /** `Array.from(m.values())`: the values in iteration order. */
  function Values<V>(m: OMap<V>): (vs: seq<V>)
    requires Valid(m)
    ensures |vs| == |m.keys|
    ensures forall i :: 0 <= i < |m.keys| ==> vs[i] == m.entries[m.keys[i]]
  {
    seq(|m.keys|, i requires 0 <= i < |m.keys| => m.entries[m.keys[i]])
  }

  /** The position of a stored key in the iteration order. */
  function Position(keys: seq<int>, k: int): (i: nat)
    requires k in keys
    ensures i < |keys| && keys[i] == k
    ensures forall j :: 0 <= j < i ==> keys[j] != k
  {
    if keys[0] == k then 0 else 1 + Position(keys[1..], k)
  }

  /** `Map.prototype.set`: a new key goes to the end of the order, a present key keeps its place. */
  function Set<V>(m: OMap<V>, k: int, v: V): (r: OMap<V>)
    requires Valid(m)
    ensures Valid(r)
    ensures Get(r, k) == Some(v)
    ensures forall k' :: k' != k ==> Get(r, k') == Get(m, k')
  {
    if k in m.entries then OMap(m.entries[k := v], m.keys)
    else OMap(m.entries[k := v], m.keys + [k])
  }

  /** Setting a key that is absent appends its value to the iteration. */
  lemma SetAbsentAppends<V>(m: OMap<V>, k: int, v: V)
    requires Valid(m) && k !in m.entries
    ensures Values(Set(m, k, v)) == Values(m) + [v]
  {
  }

  /**
   * Setting a key that is present changes the value at that key's position
   * in the iteration and nothing else.
   */
  lemma SetPresentReplaces<V>(m: OMap<V>, k: int, v: V)
    requires Valid(m) && k in m.entries
    ensures Set(m, k, v).keys == m.keys
    ensures Values(Set(m, k, v)) == Values(m)[Position(m.keys, k) := v]
  {
    var i := Position(m.keys, k);
    forall j | 0 <= j < |m.keys| && j != i
      ensures m.keys[j] != k
    {
    }
  }
}
