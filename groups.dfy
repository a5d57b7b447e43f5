/** Grouping of table rows by a key column, as `DataFrame.groupby` sees
    it: a missing key belongs to no group, and within a group the rows
    keep their table order. */
module Groups {
  import opened Wrappers
  import opened Seqs

  /** The ascending row numbers below m whose key is k. */
  function GroupIdx(keys: seq<Option<real>>, k: real, m: nat): (r: seq<int>)
    requires m <= |keys|
    ensures StrictlyIncreasing(r) && AllIn(r, m)
    ensures forall i :: i in r <==> 0 <= i < m && keys[i] == Some(k)
  {
    if m == 0 then []
    else GroupIdx(keys, k, m - 1) + (if keys[m - 1] == Some(k) then [m - 1] else [])
  }

  /** The position of row i within its group: the number of earlier rows
      with the same key. */
  function Rank(keys: seq<Option<real>>, i: nat): nat
    requires i < |keys| && keys[i].Some?
  {
    |GroupIdx(keys, keys[i].value, i)|
  }

  /** The previous row of the same group, or -1 for the group's first row
      (and for a row with no key). */
  function Prev(keys: seq<Option<real>>, i: nat): (p: int)
    requires i < |keys|
    ensures -1 <= p < i as int
    ensures p >= 0 ==> keys[p] == keys[i] && keys[i].Some?
    ensures p >= 0 ==> forall j :: p < j < i ==> keys[j] != keys[i]
  {
    if keys[i].None? || Rank(keys, i) == 0 then -1
    else
      var g := GroupIdx(keys, keys[i].value, i);
      var p := g[|g| - 1];
      assert p in g;
      p
  }

  /** The values of group k, in table order: what the smoother sees. */
  function GroupValues(values: seq<Option<real>>, keys: seq<Option<real>>, k: real): (r: seq<Option<real>>)
    requires |values| == |keys|
    ensures |r| == |GroupIdx(keys, k, |keys|)|
  {
    var g := GroupIdx(keys, k, |keys|);
    seq(|g|, j requires 0 <= j < |g| => values[g[j]])
  }

  // ---------------------------------------------------------------------------
  // Properties

  /** Going further down the table only appends to a group's row list. */
  lemma {:induction false} GroupIdxPrefix(keys: seq<Option<real>>, k: real, m: nat, m': nat)
    requires m <= m' <= |keys|
    ensures GroupIdx(keys, k, m) <= GroupIdx(keys, k, m')
    decreases m' - m
  {
    if m < m' {
      GroupIdxPrefix(keys, k, m, m' - 1);
    }
  }

  /** Row i sits at position Rank(i) of its group. */
  lemma RankIsPosition(keys: seq<Option<real>>, i: nat)
    requires i < |keys| && keys[i].Some?
    ensures var g := GroupIdx(keys, keys[i].value, |keys|); Rank(keys, i) < |g| && g[Rank(keys, i)] == i
  {
    GroupIdxPrefix(keys, keys[i].value, i + 1, |keys|);
  }

  /** Each row's value is found again in its group's series at its rank,
      so writing a group's results back by position keeps every row's own
      result. */
  lemma GroupValuesAtRank(values: seq<Option<real>>, keys: seq<Option<real>>, i: nat)
    requires |values| == |keys| && i < |keys| && keys[i].Some?
    ensures Rank(keys, i) < |GroupValues(values, keys, keys[i].value)|
    ensures GroupValues(values, keys, keys[i].value)[Rank(keys, i)] == values[i]
  {
    RankIsPosition(keys, i);
  }

  /** No row with key k in [a, b): the group's rows below b are those below a. */
  lemma {:induction false} GroupIdxGap(keys: seq<Option<real>>, k: real, a: nat, b: nat)
    requires a <= b <= |keys|
    requires forall j :: a <= j < b ==> keys[j] != Some(k)
    ensures GroupIdx(keys, k, b) == GroupIdx(keys, k, a)
    decreases b - a
  {
    if a < b {
      GroupIdxGap(keys, k, a, b - 1);
    }
  }

  /** The previous row of a group is one rank lower. */
  lemma PrevRank(keys: seq<Option<real>>, i: nat)
    requires i < |keys| && keys[i].Some? && Prev(keys, i) >= 0
    ensures Rank(keys, Prev(keys, i)) == Rank(keys, i) - 1
  {
    var p := Prev(keys, i);
    var k := keys[i].value;
    GroupIdxGap(keys, k, p + 1, i);
  }

  /** The first row of a group has no previous row. */
  lemma PrevFirst(keys: seq<Option<real>>, i: nat)
    requires i < |keys| && keys[i].Some?
    ensures Prev(keys, i) < 0 <==> Rank(keys, i) == 0
  {
  }

  /** When the rows of a group are contiguous, the previous row of the group
      is the previous row of the table. */
  lemma PrevContiguous(keys: seq<Option<real>>, i: nat)
    requires 0 < i < |keys| && keys[i].Some? && keys[i - 1] == keys[i]
    ensures Prev(keys, i) == i - 1
  {
    assert i - 1 in GroupIdx(keys, keys[i].value, i);
  }
}
