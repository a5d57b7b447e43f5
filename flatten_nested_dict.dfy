/** `flatten_nested_dict`: a dict whose values may themselves be dicts
    becomes a flat dict whose keys join the nested keys with a separator. */
module FlattenNestedDict {
  import opened Wrappers
  import opened Dicts

  /** A dict value: a plain value or a nested dict, given by its items in
      order. */
  datatype Value<T> = Scalar(value: T) | Nested(items: seq<(string, Value<T>)>)

  const DefaultSep := "_"

  /** The key of `k` below `parentKey`: `k` itself at the top level (empty
      parent key), `parentKey + sep + k` below it. */
  function NewKey(parentKey: string, sep: string, k: string): (key: string)
    ensures parentKey == "" ==> key == k
    ensures parentKey != "" ==> key == parentKey + sep + k && parentKey + sep <= key
  {
    if parentKey != "" then parentKey + sep + k else k
  }

  predicate HasNested<T>(d: seq<(string, Value<T>)>)
  {
    exists i :: 0 <= i < |d| && d[i].1.Nested?
  }

  /** The items the loop collects from the first `n` items of `node`. */
  function FlatItems<T>(node: Value<T>, parentKey: string, sep: string, n: nat): seq<(string, T)>
    requires node.Nested? && n <= |node.items|
    decreases node, n
  {
    if n == 0 then []
    else
      var v := node.items[n - 1].1;
      assert v < node;
      FlatItems(node, parentKey, sep, n - 1) + Contribution(v, NewKey(parentKey, sep, node.items[n - 1].0), sep)
  }

  /** What one value adds under its new key: a plain value as one item, a
      nested dict as the items of its flattened dict. */
  function Contribution<T>(v: Value<T>, key: string, sep: string): seq<(string, T)>
    decreases v, if v.Nested? then |v.items| + 1 else 0
  {
    if v.Scalar? then [(key, v.value)]
    else
      var sub := FlatItems(v, key, sep, |v.items|);
      FromItemsMeaning(sub);
      FromItems(sub).Items()
  }

  /** The flattened dict. */
  function Flat<T>(d: seq<(string, Value<T>)>, parentKey: string, sep: string): Dict<string, T>
  {
    FromItems(FlatItems(Nested(d), parentKey, sep, |d|))
  }

  /** The function as written: the recursive call names `flatten_dict`,
      which is not defined, so a nested dict raises NameError (after the
      items before it were collected); without one, every value is kept
      under its new key. */
  method FlattenNestedDictAsWritten<T>(d: seq<(string, Value<T>)>, parentKey: string, sep: string)
    returns (r: Result<Dict<string, T>>)
    ensures HasNested(d) <==> r == Err(NameError)
    ensures !HasNested(d) ==> r == Ok(Flat(d, parentKey, sep))
  {
    var items: seq<(string, T)> := [];
    var i := 0;
    while i < |d|
      invariant 0 <= i <= |d|
      invariant !HasNested(d[..i])
      invariant items == FlatItems(Nested(d), parentKey, sep, i)
    {
      var newKey := NewKey(parentKey, sep, d[i].0);
      if d[i].1.Nested? {
        assert HasNested(d);
        return Err(NameError);
      }
      ScalarStep(d, parentKey, sep, i, items);
      NoNestedStep(d, i);
      items := items + [(newKey, d[i].1.value)];
      i := i + 1;
    }
    assert d[..i] == d;
    r := Ok(FromItems(items));
  }

  /** The function as intended: a nested dict is flattened recursively with
      its new key as the parent key, and its items are collected in order. */
  method FlattenNestedDict<T>(d: seq<(string, Value<T>)>, parentKey: string, sep: string)
    returns (r: Dict<string, T>)
    ensures r == Flat(d, parentKey, sep)
    decreases Nested(d), 1
  {
    var items: seq<(string, T)> := [];
    var i := 0;
    while i < |d|
      invariant 0 <= i <= |d|
      invariant items == FlatItems(Nested(d), parentKey, sep, i)
    {
      var c := FlattenItem(d, parentKey, sep, i);
      FlatStep(d, parentKey, sep, i);
      items := items + c;
      i := i + 1;
    }
    r := FromItems(items);
  }

  /** The loop body for item i: a plain value is kept under its new key, a
      nested dict is flattened below it. */
  method FlattenItem<T>(d: seq<(string, Value<T>)>, parentKey: string, sep: string, i: nat)
    returns (c: seq<(string, T)>)
    requires i < |d|
    ensures c == Contribution(d[i].1, NewKey(parentKey, sep, d[i].0), sep)
    decreases Nested(d), 0
  {
    var newKey := NewKey(parentKey, sep, d[i].0);
    var v := d[i].1;
    FlatStep(d, parentKey, sep, i);
    if v.Nested? {
      assert v < Nested(d);
      var sub := FlattenNestedDict(v.items, newKey, sep);
      c := sub.Items();
    } else {
      c := [(newKey, v.value)];
    }
  }

  /** A plain value extends a prefix without nested dicts. */
  lemma NoNestedStep<T>(d: seq<(string, Value<T>)>, i: nat)
    requires i < |d| && d[i].1.Scalar? && !HasNested(d[..i])
    ensures !HasNested(d[..i + 1])
  {
    var prefix := d[..i + 1];
    forall j | 0 <= j < |prefix|
      ensures prefix[j].1.Scalar?
    {
      if j < i {
        assert prefix[j] == d[..i][j];
      }
    }
  }

  /** A plain value adds itself under its new key. */
  lemma ScalarStep<T>(d: seq<(string, Value<T>)>, parentKey: string, sep: string, i: nat, items: seq<(string, T)>)
    requires i < |d| && d[i].1.Scalar?
    requires items == FlatItems(Nested(d), parentKey, sep, i)
    ensures items + [(NewKey(parentKey, sep, d[i].0), d[i].1.value)] == FlatItems(Nested(d), parentKey, sep, i + 1)
  {
    FlatStep(d, parentKey, sep, i);
  }

  /** One step of either loop: item i adds its contribution, which is the
      item itself for a plain value and the items of the flattened dict for
      a nested one. */
  lemma FlatStep<T>(d: seq<(string, Value<T>)>, parentKey: string, sep: string, i: nat)
    requires i < |d|
    ensures var key := NewKey(parentKey, sep, d[i].0);
      FlatItems(Nested(d), parentKey, sep, i + 1) == FlatItems(Nested(d), parentKey, sep, i) + Contribution(d[i].1, key, sep)
    ensures var key := NewKey(parentKey, sep, d[i].0);
      d[i].1.Scalar? ==> Contribution(d[i].1, key, sep) == [(key, d[i].1.value)]
    ensures var key := NewKey(parentKey, sep, d[i].0);
      d[i].1.Nested? ==> Flat(d[i].1.items, key, sep).Valid() && Contribution(d[i].1, key, sep) == Flat(d[i].1.items, key, sep).Items()
  {
    var v := d[i].1;
    assert Nested(d).items[i] == d[i];
    if v.Nested? {
      assert v == Nested(v.items);
      FromItemsMeaning(FlatItems(v, NewKey(parentKey, sep, d[i].0), sep, |v.items|));
    }
  }

  // ---------------------------------------------------------------------------
  // Properties of the intended function

  /** Below the top level every key starts with the parent key and the
      separator. */
  lemma {:induction false} FlatKeysPrefixed<T>(node: Value<T>, parentKey: string, sep: string, n: nat)
    requires node.Nested? && n <= |node.items| && parentKey != ""
    ensures forall x :: x in KeysOf(FlatItems(node, parentKey, sep, n)) ==> parentKey + sep <= x
    decreases node, n
  {
    if n > 0 {
      var v := node.items[n - 1].1;
      var key := NewKey(parentKey, sep, node.items[n - 1].0);
      assert v < node;
      FlatKeysPrefixed(node, parentKey, sep, n - 1);
      ContributionPrefixed(v, key, sep);
      var before := FlatItems(node, parentKey, sep, n - 1);
      var added := Contribution(v, key, sep);
      assert KeysOf(before + added) == KeysOf(before) + KeysOf(added);
      forall x | x in KeysOf(added)
        ensures parentKey + sep <= x
      {
        assert key <= x;
        assert parentKey + sep <= key;
      }
    }
  }

  lemma {:induction false} ContributionPrefixed<T>(v: Value<T>, key: string, sep: string)
    requires key != ""
    ensures forall x :: x in KeysOf(Contribution(v, key, sep)) ==> key <= x
    decreases v, if v.Nested? then |v.items| + 1 else 0
  {
    if v.Nested? {
      var sub := FlatItems(v, key, sep, |v.items|);
      FlatKeysPrefixed(v, key, sep, |v.items|);
      FromItemsMeaning(sub);
      forall x | x in KeysOf(Contribution(v, key, sep))
        ensures key <= x
      {
        FromItemsKeys(sub, x);
        assert key + sep <= x;
      }
    }
  }

  /** Without nested dicts every value is kept under its new key, in order. */
  lemma {:induction false} FlatItemsPlain<T>(d: seq<(string, Value<T>)>, parentKey: string, sep: string, n: nat)
    requires n <= |d| && !HasNested(d)
    ensures FlatItems(Nested(d), parentKey, sep, n)
      == seq(n, i requires 0 <= i < n => (NewKey(parentKey, sep, d[i].0), d[i].1.value))
  {
    if n > 0 {
      FlatItemsPlain(d, parentKey, sep, n - 1);
      var key := NewKey(parentKey, sep, d[n - 1].0);
      assert d[n - 1].1.Scalar?;
      assert Contribution(d[n - 1].1, key, sep) == [(key, d[n - 1].1.value)];
      var prev := seq(n - 1, i requires 0 <= i < n - 1 => (NewKey(parentKey, sep, d[i].0), d[i].1.value));
      var all := seq(n, i requires 0 <= i < n => (NewKey(parentKey, sep, d[i].0), d[i].1.value));
      assert all == prev + [(key, d[n - 1].1.value)];
    }
  }

  /** A top-level dict without nested dicts flattens to itself: the same
      keys in the same order, each with its value. */
  lemma FlatOfPlainDict<T>(d: seq<(string, Value<T>)>, sep: string)
    requires !HasNested(d)
    requires forall i, j :: 0 <= i < j < |d| ==> d[i].0 != d[j].0
    ensures Flat(d, "", sep).keys == KeysOf(d)
    ensures forall i :: 0 <= i < |d| ==> Flat(d, "", sep).Get(d[i].0) == Some(d[i].1.value)
  {
    var items := FlatItems(Nested(d), "", sep, |d|);
    FlatItemsPlain(d, "", sep, |d|);
    FromItemsDistinct(items);
    FromItemsMeaning(items);
    forall i | 0 <= i < |d|
      ensures Flat(d, "", sep).Get(d[i].0) == Some(d[i].1.value)
    {
      assert items[i] == (d[i].0, d[i].1.value);
      assert forall j :: i < j < |items| ==> items[j].0 != d[i].0;
      MapOfLast(items, d[i].0);
    }
  }

  lemma FromTwoItems<T>(k1: string, v1: T, k2: string, v2: T)
    requires k1 != k2
    ensures FromItems([(k1, v1)]) == Dict([k1], map[k1 := v1])
    ensures FromItems([(k1, v1), (k2, v2)]) == Dict([k1, k2], map[k1 := v1, k2 := v2])
  {
    assert [(k1, v1)][..0] == [];
    assert PutAll(Empty<string, T>(), []) == Dict([], map[]);
    var empty: Dict<string, T> := Dict([], map[]);
    assert empty.Put(k1, v1) == Dict([k1], map[k1 := v1]);
    assert [(k1, v1), (k2, v2)][..1] == [(k1, v1)];
  }

  lemma InnerExample()
    ensures Contribution(Nested([("b", Scalar(1))]), "a", "_") == [("a_b", 1)]
  {
    var inner := Nested([("b", Scalar(1))]);
    assert NewKey("a", "_", "b") == "a_b";
    assert FlatItems(inner, "a", "_", 1) == [("a_b", 1)];
    FromTwoItems("a_b", 1, "c", 2);
    assert FromItems([("a_b", 1)]).Items() == [("a_b", 1)];
  }

  /** `{"a": {"b": 1}, "c": 2}` flattens to `{"a_b": 1, "c": 2}`, where the
      function as written raises NameError. */
  lemma NestedExample()
    ensures var d := [("a", Nested([("b", Scalar(1))])), ("c", Scalar(2))];
      && HasNested(d)
      && Flat(d, "", DefaultSep).keys == ["a_b", "c"]
      && Flat(d, "", DefaultSep).entries == map["a_b" := 1, "c" := 2]
  {
    var d := [("a", Nested([("b", Scalar(1))])), ("c", Scalar(2))];
    assert d[0].1.Nested?;
    InnerExample();
    assert NewKey("", "_", "a") == "a";
    assert NewKey("", "_", "c") == "c";
    assert FlatItems(Nested(d), "", "_", 1) == [("a_b", 1)];
    assert FlatItems(Nested(d), "", "_", 2) == [("a_b", 1), ("c", 2)];
    FromTwoItems("a_b", 1, "c", 2);
  }
}
