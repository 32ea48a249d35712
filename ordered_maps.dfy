/** A JavaScript `Map`: a finite map that remembers the order in which its
    keys were first inserted. `set` on a present key keeps its position,
    `delete` drops it, and iteration follows that order. */
module OrderedMaps {
  import opened Wrappers

  /** Every map of the core is keyed by a person id. */
  type Key = string

  /** No key occurs twice. */
  predicate Distinct(ks: seq<Key>) {
    ks == [] || (ks[0] !in ks[1..] && Distinct(ks[1..]))
  }

  lemma {:induction false} DistinctAt(ks: seq<Key>, i: nat, j: nat)
    requires Distinct(ks) && i < j < |ks|
    ensures ks[i] != ks[j]
  {
    if i == 0 {
      assert ks[j] == ks[1..][j - 1];
    } else {
      DistinctAt(ks[1..], i - 1, j - 1);
    }
  }

  lemma {:induction false} DistinctAppend(ks: seq<Key>, k: Key)
    requires Distinct(ks) && k !in ks
    ensures Distinct(ks + [k])
  {
    if ks != [] {
      assert (ks + [k])[1..] == ks[1..] + [k];
      DistinctAppend(ks[1..], k);
    }
  }

  /** `ks` without the elements of `s`, order kept. */
  function Without(ks: seq<Key>, s: set<Key>): (r: seq<Key>)
    ensures forall x :: x in r <==> x in ks && x !in s
    ensures |r| <= |ks|
  {
    if ks == [] then []
    else if ks[0] in s then Without(ks[1..], s)
    else [ks[0]] + Without(ks[1..], s)
  }

  lemma {:induction false} WithoutDistinct(ks: seq<Key>, s: set<Key>)
    requires Distinct(ks)
    ensures Distinct(Without(ks, s))
  {
    if ks != [] {
      WithoutDistinct(ks[1..], s);
      if ks[0] !in s {
        var rest := Without(ks[1..], s);
        assert ([ks[0]] + rest)[1..] == rest;
      }
    }
  }

  lemma {:induction false} WithoutTwice(ks: seq<Key>, s1: set<Key>, s2: set<Key>)
    ensures Without(Without(ks, s1), s2) == Without(ks, s1 + s2)
  {
    if ks != [] {
      WithoutTwice(ks[1..], s1, s2);
      if ks[0] !in s1 {
        var rest := Without(ks[1..], s1);
        assert Without(ks, s1) == [ks[0]] + rest;
        assert ([ks[0]] + rest)[1..] == rest;
      }
    }
  }

  datatype OrderedMap<V> = OrderedMap(keys: seq<Key>, entries: map<Key, V>) {

    /** The keys are distinct and are exactly the keys of the entries. */
    ghost predicate Valid() {
      && Distinct(keys)
      && (forall k :: k in entries <==> k in keys)
    }

    function Size(): nat {
      |keys|
    }

    /** `map.set(k, v)`. */
    function Set(k: Key, v: V): (r: OrderedMap<V>)
      requires Valid()
      ensures r.Valid()
      ensures r.entries == entries[k := v]
      ensures r.keys == if k in entries then keys else keys + [k]
    {
      if k in entries then
        OrderedMap(keys, entries[k := v])
      else
        DistinctAppend(keys, k);
        OrderedMap(keys + [k], entries[k := v])
    }

    /** Every key of `s` deleted with `map.delete`. */
    function RemoveKeys(s: set<Key>): (r: OrderedMap<V>)
      requires Valid()
      ensures r.Valid()
      ensures r.keys == Without(keys, s)
      ensures r.entries.Keys == entries.Keys - s
      ensures forall k :: k in r.entries ==> r.entries[k] == entries[k]
    {
      WithoutDistinct(keys, s);
      OrderedMap(Without(keys, s), entries - s)
    }

    /** `map.delete(k)`. */
    function Delete(k: Key): (r: OrderedMap<V>)
      requires Valid()
      ensures r.Valid()
      ensures r == RemoveKeys({k})
      ensures r.entries.Keys == entries.Keys - {k}
    {
      RemoveKeys({k})
    }

    /** `Array.from(map.values())`: the values in key order. */
    function Values(): (r: seq<V>)
      requires Valid()
      ensures |r| == |keys|
      ensures forall i :: 0 <= i < |keys| ==> r[i] == entries[keys[i]]
    {
      ValuesOf(keys, entries)
    }
  }

  /** The entries of `ks`, in the order of `ks`. */
  function ValuesOf<V>(ks: seq<Key>, entries: map<Key, V>): (r: seq<V>)
    requires forall k :: k in ks ==> k in entries
    ensures |r| == |ks|
    ensures forall i :: 0 <= i < |ks| ==> r[i] == entries[ks[i]]
  {
    if ks == [] then [] else [entries[ks[0]]] + ValuesOf(ks[1..], entries)
  }

  function Empty<V>(): (r: OrderedMap<V>)
    ensures r.Valid() && r.keys == [] && r.entries == map[]
  {
    OrderedMap([], map[])
  }

  /** Deleting two key sets one after the other is deleting their union. */
  lemma RemoveKeysTwice<V>(m: OrderedMap<V>, s1: set<Key>, s2: set<Key>)
    requires m.Valid()
    ensures m.RemoveKeys(s1).RemoveKeys(s2) == m.RemoveKeys(s1 + s2)
  {
    WithoutTwice(m.keys, s1, s2);
    var a := m.RemoveKeys(s1).RemoveKeys(s2);
    var b := m.RemoveKeys(s1 + s2);
    assert a.entries == b.entries;
  }

  lemma {:induction false} WithoutDisjoint(ks: seq<Key>, s: set<Key>)
    requires forall k :: k in ks ==> k !in s
    ensures Without(ks, s) == ks
  {
    if ks != [] {
      WithoutDisjoint(ks[1..], s);
      assert [ks[0]] + ks[1..] == ks;
    }
  }

  /** Deleting keys none of which is present changes nothing. */
  lemma RemoveAbsentKeys<V>(m: OrderedMap<V>, s: set<Key>)
    requires m.Valid()
    requires forall k :: k in s ==> k !in m.entries
    ensures m.RemoveKeys(s) == m
  {
    WithoutDisjoint(m.keys, s);
    assert m.RemoveKeys(s).entries == m.entries;
  }

  /** One step of deleting keys one at a time. */
  lemma RemoveStep<V>(m: OrderedMap<V>, before: set<Key>, after: set<Key>, k: Key, deleted: bool)
    requires m.Valid()
    requires after == before + (if deleted then {k} else {})
    ensures m.RemoveKeys(before).Valid()
    ensures (if deleted then m.RemoveKeys(before).Delete(k) else m.RemoveKeys(before)) == m.RemoveKeys(after)
  {
    if deleted {
      RemoveKeysTwice(m, before, {k});
    } else {
      assert after == before;
    }
  }
}
