/** Python dictionaries whose insertion order matters: the keys in order, and the table. */
module Dictionaries {

  datatype Dict<V> = Dict(keys: seq<string>, table: map<string, V>) {

    ghost predicate Valid() {
      && (forall k :: k in keys <==> k in table)
      && (forall i, j :: 0 <= i < j < |keys| ==> keys[i] != keys[j])
    }

    /** `d[k] = v`: a new key goes to the end, a known key keeps its place. */
    function Put(k: string, v: V): (d: Dict<V>)
      ensures Valid() ==> d.Valid()
      ensures d.table == table[k := v]
    {
      Dict(if k in table then keys else keys + [k], table[k := v])
    }

    lemma SizeIsKeyCount()
      requires Valid()
      ensures |keys| == |table|
    {
      KeyCount(keys);
      assert (set k | k in keys) == table.Keys;
    }
  }

  function Empty<V>(): (d: Dict<V>)
    ensures d.Valid() && d.table == map[]
  {
    Dict([], map[])
  }

  lemma {:induction false} KeyCount(keys: seq<string>)
    requires forall i, j :: 0 <= i < j < |keys| ==> keys[i] != keys[j]
    ensures |set k | k in keys| == |keys|
  {
    if keys == [] {
      assert (set k | k in keys) == {};
    } else {
      KeyCount(keys[1..]);
      assert (set k | k in keys) == (set k | k in keys[1..]) + {keys[0]};
    }
  }

  /** `len(set(values)) == 1`, as the resolvers ask it. */
  predicate AllEqual<V(==)>(d: Dict<V>) {
    |d.table.Values| == 1
  }

  /** One distinct value means that all keys agree. */
  lemma AllEqualMeansAgreement<V>(d: Dict<V>)
    requires d.Valid() && d.keys != []
    ensures AllEqual(d) <==> forall k :: k in d.table ==> d.table[k] == d.table[d.keys[0]]
  {
    var v := d.table[d.keys[0]];
    assert v in d.table.Values;
    assert d.table.Values == {v} + (d.table.Values - {v});
    if AllEqual(d) {
      assert |d.table.Values - {v}| == 0;
      assert forall k :: k in d.table ==> d.table[k] in d.table.Values;
    }
    assert (forall k :: k in d.table ==> d.table[k] == v) ==> d.table.Values == {v};
  }
}
