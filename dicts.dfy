/** Python's dict: a map together with the order in which its keys were
    first inserted, which is the order `keys()` and `items()` list them. */
module Dicts {
  import opened Wrappers

  datatype Dict<K(==, !new), V> = Dict(keys: seq<K>, entries: map<K, V>)
  {
    /** Each key is listed once, and exactly the mapped keys are listed. */
    predicate Valid()
    {
      (forall i, j :: 0 <= i < j < |keys| ==> keys[i] != keys[j])
      && (forall k :: k in entries ==> k in keys)
      && (forall k :: k in keys ==> k in entries)
    }

    /** `d.get(k)`. */
    function Get(k: K): (r: Option<V>)
      ensures r.Some? <==> k in entries
      ensures r.Some? ==> r.value == entries[k]
    {
      if k in entries then Some(entries[k]) else None
    }

    /** `d[k] = v`: a new key goes last, an existing key keeps its place. */
    function Put(k: K, v: V): (d: Dict<K, V>)
      ensures d.Get(k) == Some(v)
      ensures forall k' :: k' != k ==> d.Get(k') == Get(k')
      ensures Valid() ==> d.Valid()
      ensures Valid() && k in keys ==> d.keys == keys
      ensures Valid() && k !in keys ==> d.keys == keys + [k]
    {
      if k in entries then Dict(keys, entries[k := v]) else Dict(keys + [k], entries[k := v])
    }

    /** `d.items()`, in key order. */
    function Items(): (r: seq<(K, V)>)
      requires Valid()
      ensures |r| == |keys|
      ensures forall i :: 0 <= i < |r| ==> r[i].0 == keys[i] && r[i].1 == entries[keys[i]]
    {
      seq(|keys|, i requires 0 <= i < |keys| => (keys[i], entries[keys[i]]))
    }

    /** `d.update(other)`: the other dict's items put in its order. */
    function Update(other: Dict<K, V>): (d: Dict<K, V>)
      requires other.Valid()
    {
      PutAll(this, other.Items())
    }
  }

  function Empty<K(==, !new), V>(): Dict<K, V>
  {
    Dict([], map[])
  }

  /** The items put into `d` one after the other. */
  function PutAll<K(==, !new), V>(d: Dict<K, V>, items: seq<(K, V)>): Dict<K, V>
  {
    if items == [] then d
    else PutAll(d, items[..|items| - 1]).Put(items[|items| - 1].0, items[|items| - 1].1)
  }

  /** `dict(items)`. */
  function FromItems<K(==, !new), V>(items: seq<(K, V)>): Dict<K, V>
  {
    PutAll(Empty(), items)
  }

  /** The map the items describe: each key bound to its last value. */
  function MapOf<K(==, !new), V>(items: seq<(K, V)>): map<K, V>
  {
    if items == [] then map[]
    else MapOf(items[..|items| - 1])[items[|items| - 1].0 := items[|items| - 1].1]
  }

  /** The items of a dict describe exactly its map. */
  lemma {:induction false} MapOfItems<K(!new), V>(d: Dict<K, V>)
    requires d.Valid()
    ensures MapOf(d.Items()) == d.entries
  {
    var items := d.Items();
    forall n | 0 <= n <= |items|
      ensures MapOf(items[..n]) == map k | k in d.keys[..n] :: d.entries[k]
    {
      MapOfPrefix(d, n);
    }
    assert items[..|items|] == items;
    assert d.keys[..|d.keys|] == d.keys;
  }

  lemma {:induction false} MapOfPrefix<K(!new), V>(d: Dict<K, V>, n: nat)
    requires d.Valid() && n <= |d.keys|
    ensures MapOf(d.Items()[..n]) == map k | k in d.keys[..n] :: d.entries[k]
  {
    if n > 0 {
      var items := d.Items();
      MapOfPrefix(d, n - 1);
      assert items[..n][..n - 1] == items[..n - 1];
      assert d.keys[..n] == d.keys[..n - 1] + [d.keys[n - 1]];
    }
  }

  /** Putting items keeps the dict valid and its key order as a prefix. */
  lemma {:induction false} PutAllValid<K(!new), V>(d: Dict<K, V>, items: seq<(K, V)>)
    requires d.Valid()
    ensures PutAll(d, items).Valid()
    ensures d.keys <= PutAll(d, items).keys
  {
    if items != [] {
      PutAllValid(d, items[..|items| - 1]);
    }
  }

  /** Putting items overrides the dict's map with the items' map. */
  lemma {:induction false} PutAllEntries<K(!new), V>(d: Dict<K, V>, items: seq<(K, V)>)
    ensures PutAll(d, items).entries == d.entries + MapOf(items)
  {
    if items != [] {
      var init := items[..|items| - 1];
      var last := items[|items| - 1];
      PutAllEntries(d, init);
      var p := PutAll(d, init);
      var q := p.Put(last.0, last.1);
      assert q.entries == p.entries[last.0 := last.1];
    }
  }

  /** `d.update(other)` keeps d's keys first, adds other's new keys, and
      maps every key of other to other's value and every other key as
      before. */
  lemma UpdateMeaning<K(!new), V>(d: Dict<K, V>, other: Dict<K, V>)
    requires d.Valid() && other.Valid()
    ensures d.Update(other).Valid()
    ensures d.Update(other).entries == d.entries + other.entries
    ensures d.keys <= d.Update(other).keys
  {
    PutAllValid(d, other.Items());
    PutAllEntries(d, other.Items());
    MapOfItems(other);
  }

  /** `dict(items)` maps each key to the value of its last item. */
  lemma FromItemsMeaning<K(!new), V>(items: seq<(K, V)>)
    ensures FromItems(items).Valid()
    ensures FromItems(items).entries == MapOf(items)
  {
    PutAllValid(Empty<K, V>(), items);
    PutAllEntries(Empty<K, V>(), items);
    assert Empty<K, V>().entries + MapOf(items) == MapOf(items);
  }

  /** A key is in the items' map exactly when some item has it, and then
      its value is that of the last such item. */
  lemma {:induction false} MapOfLast<K(!new), V>(items: seq<(K, V)>, k: K)
    ensures k in MapOf(items) <==> exists i :: 0 <= i < |items| && items[i].0 == k
    ensures forall i :: 0 <= i < |items| && items[i].0 == k && (forall j :: i < j < |items| ==> items[j].0 != k) ==>
      MapOf(items)[k] == items[i].1
  {
    if items != [] {
      var init := items[..|items| - 1];
      MapOfLast(init, k);
      if k != items[|items| - 1].0 {
        assert forall i :: 0 <= i < |init| ==> init[i] == items[i];
      }
    }
  }

  /** The keys of the items, in order. */
  function KeysOf<K, V>(items: seq<(K, V)>): (r: seq<K>)
    ensures |r| == |items| && forall i :: 0 <= i < |items| ==> r[i] == items[i].0
  {
    seq(|items|, i requires 0 <= i < |items| => items[i].0)
  }

  /** `dict(items)` lists exactly the items' keys. */
  lemma FromItemsKeys<K(!new), V>(items: seq<(K, V)>, k: K)
    ensures k in FromItems(items).keys <==> k in KeysOf(items)
  {
    FromItemsMeaning(items);
    MapOfLast(items, k);
    if k in KeysOf(items) {
      var i :| 0 <= i < |items| && KeysOf(items)[i] == k;
      assert items[i].0 == k;
    }
  }

  /** Items with distinct keys keep their order in `dict(items)`. */
  lemma {:induction false} FromItemsDistinct<K(!new), V>(items: seq<(K, V)>)
    requires forall i, j :: 0 <= i < j < |items| ==> items[i].0 != items[j].0
    ensures FromItems(items).keys == KeysOf(items)
  {
    if items != [] {
      var init := items[..|items| - 1];
      FromItemsDistinct(init);
      PutAllValid(Empty<K, V>(), init);
      assert KeysOf(items) == KeysOf(init) + [items[|items| - 1].0];
    }
  }
}
