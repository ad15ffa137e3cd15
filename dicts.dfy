/** Python's `dict`: a map that remembers the order in which its keys were
    first inserted. The reports iterate registries in that order wherever
    they do not sort, so the order is part of the model. */
module Dicts {
  import opened Wrappers

  datatype RawDict<K(==,!new), V> = RawDict(keys: seq<K>, entries: map<K, V>)

  /** Each key is listed once, and exactly the keys of the map are listed. */
  ghost predicate Valid<K(!new), V>(d: RawDict<K, V>)
  {
    && (forall i, j :: 0 <= i < j < |d.keys| ==> d.keys[i] != d.keys[j])
    && (forall k :: k in d.entries <==> k in d.keys)
  }

  type Dict<K(==,!new), V> = d: RawDict<K, V> | Valid(d) witness RawDict([], map[])

  /** `{}` */
  function Empty<K(==,!new), V>(): (d: Dict<K, V>)
    ensures d.keys == [] && d.entries == map[]
  {
    RawDict([], map[])
  }

  /** `d[k]`, or `None` where Python raises `KeyError`. */
  function Get<K(==,!new), V>(d: Dict<K, V>, k: K): (r: Option<V>)
    ensures r.Some? <==> k in d.keys
    ensures r.Some? ==> r.value == d.entries[k]
  {
    if k in d.entries then Some(d.entries[k]) else None
  }

  /** `d[k] = v`: the value is replaced, and a key already present keeps its
      place in the order while a new key goes last. */
  function Set<K(==,!new), V>(d: Dict<K, V>, k: K, v: V): (r: Dict<K, V>)
    ensures r.entries == d.entries[k := v]
    ensures k in d.entries ==> r.keys == d.keys
    ensures k !in d.entries ==> r.keys == d.keys + [k]
  {
    var keys := if k in d.entries then d.keys else d.keys + [k];
    assert forall i, j :: 0 <= i < j < |keys| ==> keys[i] != keys[j];
    RawDict(keys, d.entries[k := v])
  }

  /** Every value replaced by `f` of its key and value, in place: the keys
      and their order stay. */
  function MapValues<K(==,!new), V>(d: Dict<K, V>, f: (K, V) -> V): (r: Dict<K, V>)
    ensures r.keys == d.keys
    ensures forall k :: k in r.entries <==> k in d.entries
    ensures forall k :: k in d.entries ==> r.entries[k] == f(k, d.entries[k])
  {
    RawDict(d.keys, map k | k in d.entries :: f(k, d.entries[k]))
  }

  /** Two dicts with the same keys in the same order and the same values
      are equal. */
  lemma Extensional<K(!new), V>(d: Dict<K, V>, e: Dict<K, V>)
    requires d.keys == e.keys
    requires forall k :: k in d.entries ==> d.entries[k] == e.entries[k]
    ensures d == e
  {
    assert d.entries.Keys == e.entries.Keys;
  }

  /** The first `n` steps of `d.update(other)`. */
  function UpdateFrom<K(==,!new), V>(d: Dict<K, V>, other: Dict<K, V>, n: nat): (r: Dict<K, V>)
    requires n <= |other.keys|
    ensures forall k :: k in r.entries <==> k in d.entries || k in other.keys[..n]
    ensures forall k :: k in other.keys[..n] ==> r.entries[k] == other.entries[k]
    ensures forall k :: k in d.entries && k !in other.keys[..n] ==> r.entries[k] == d.entries[k]
    ensures |d.keys| <= |r.keys| && r.keys[..|d.keys|] == d.keys
  {
    if n == 0 then d
    else
      var k := other.keys[n - 1];
      assert other.keys[..n] == other.keys[..n - 1] + [k];
      Set(UpdateFrom(d, other, n - 1), k, other.entries[k])
  }

  /** `d.update(other)`: every key of `other` set to its value, in
      `other`'s order; the keys of `d` keep their places at the front. */
  function Update<K(==,!new), V>(d: Dict<K, V>, other: Dict<K, V>): (r: Dict<K, V>)
    ensures forall k :: k in r.entries <==> k in d.entries || k in other.entries
    ensures forall k :: k in other.entries ==> r.entries[k] == other.entries[k]
    ensures forall k :: k in d.entries && k !in other.entries ==> r.entries[k] == d.entries[k]
    ensures |d.keys| <= |r.keys| && r.keys[..|d.keys|] == d.keys
  {
    assert other.keys[..|other.keys|] == other.keys;
    UpdateFrom(d, other, |other.keys|)
  }

  /** `list(d.values())` */
  function Values<K(==,!new), V>(d: Dict<K, V>): (r: seq<V>)
    ensures |r| == |d.keys|
    ensures forall i :: 0 <= i < |r| ==> r[i] == d.entries[d.keys[i]]
  {
    seq(|d.keys|, i requires 0 <= i < |d.keys| => d.entries[d.keys[i]])
  }
}
