/** Value types shared by the registries: an optional value and a dictionary
    that, like a Python `dict`, remembers the order in which keys were first
    inserted (the registries iterate over their dictionaries in that order). */
module Collections {

  datatype Option<T> = None | Some(value: T)

  predicate Distinct<K(==, !new)>(s: seq<K>) {
    forall i, j :: 0 <= i < j < |s| ==> s[i] != s[j]
  }

  /** `keys` lists the keys in insertion order; `entries` maps them to values. */
  datatype Dict<K(==, !new), V> = Dict(keys: seq<K>, entries: map<K, V>) {
    ghost predicate Valid() {
      && Distinct(keys)
      && (forall k :: k in keys <==> k in entries)
    }
  }

  function EmptyDict<K(==, !new), V>(): (d: Dict<K, V>)
    ensures d.Valid() && d.entries == map[] && d.keys == []
  {
    Dict([], map[])
  }

  /** `d[k] = v`: a new key goes to the end of the order, an existing key keeps its place. */
  function Put<K(==, !new), V>(d: Dict<K, V>, k: K, v: V): (r: Dict<K, V>)
    requires d.Valid()
    ensures r.Valid()
    ensures r.entries == d.entries[k := v]
    ensures k in d.entries ==> r.keys == d.keys
    ensures k !in d.entries ==> r.keys == d.keys + [k]
  {
    if k in d.entries then Dict(d.keys, d.entries[k := v])
    else Dict(d.keys + [k], d.entries[k := v])
  }

  /** `s` with every occurrence of `k` taken out, the rest in order. */
  function Erase<K(==, !new)>(s: seq<K>, k: K): (r: seq<K>)
    ensures forall x :: x in r <==> x in s && x != k
    ensures |r| <= |s|
    ensures Distinct(s) ==> Distinct(r)
  {
    if s == [] then []
    else
      var rest := Erase(s[1..], k);
      assert Distinct(s) ==> Distinct(s[1..]) && s[0] !in s[1..];
      if s[0] == k then rest else [s[0]] + rest
  }

  lemma {:induction false} EraseAbsent<K(!new)>(s: seq<K>, k: K)
    requires k !in s
    ensures Erase(s, k) == s
  {
    if s != [] {
      EraseAbsent(s[1..], k);
    }
  }

  /** Taking a present key out of a list without repeats shortens it by exactly one. */
  lemma {:induction false} EraseCount<K(!new)>(s: seq<K>, k: K)
    requires Distinct(s) && k in s
    ensures |Erase(s, k)| == |s| - 1
  {
    assert Distinct(s[1..]) && s[0] !in s[1..];
    if s[0] == k {
      EraseAbsent(s[1..], k);
    } else {
      EraseCount(s[1..], k);
    }
  }

  /** `del d[k]`, which the source only ever does when `k` is present. */
  function Remove<K(==, !new), V>(d: Dict<K, V>, k: K): (r: Dict<K, V>)
    requires d.Valid()
    ensures r.Valid()
    ensures r.entries == d.entries - {k}
    ensures r.keys == Erase(d.keys, k)
  {
    Dict(Erase(d.keys, k), d.entries - {k})
  }
}
