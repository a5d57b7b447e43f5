/** Inter-beat intervals (IBI) between successive beat peaks of one group,
    their per-group minimum and maximum, and the group heart rate, written
    as columns of the biomarker table. */
module BasicBiomarkers {
  import opened Wrappers
  import opened Seqs

  /** The input columns a row of the table needs. */
  datatype PeakRow = PeakRow(timestampMs: int, isBeatPeak: bool, groupId: int, globalBeatIndex: int)

  /** Row j comes before row i when peaks are sorted by time within a
      group; the sort keeps table order among equal times. */
  predicate SortsBefore(rows: seq<PeakRow>, j: int, i: int)
    requires 0 <= j < |rows| && 0 <= i < |rows|
  {
    rows[j].timestampMs < rows[i].timestampMs || (rows[j].timestampMs == rows[i].timestampMs && j < i)
  }

  /** Row j is a peak of row i's group that sorts before it. */
  predicate EarlierPeak(rows: seq<PeakRow>, j: int, i: int)
    requires 0 <= i < |rows|
  {
    0 <= j < |rows| && rows[j].isBeatPeak && rows[j].groupId == rows[i].groupId && SortsBefore(rows, j, i)
  }

  /** The time of the latest peak among rows below m that sorts before row
      i in its group: the row `diff()` subtracts. */
  function LatestBefore(rows: seq<PeakRow>, i: nat, m: nat): (r: Option<int>)
    requires i < |rows| && m <= |rows|
    ensures r.Some? ==> exists j :: 0 <= j < m && EarlierPeak(rows, j, i) && rows[j].timestampMs == r.value
    ensures forall j :: 0 <= j < m && EarlierPeak(rows, j, i) ==> r.Some? && rows[j].timestampMs <= r.value
  {
    if m == 0 then None
    else
      var r := LatestBefore(rows, i, m - 1);
      if EarlierPeak(rows, m - 1, i) && (r.None? || rows[m - 1].timestampMs > r.value)
      then Some(rows[m - 1].timestampMs)
      else r
  }

  /** The `ibi_ms` column. */
  function Ibis(rows: seq<PeakRow>): (ibi: seq<Option<int>>)
    ensures |ibi| == |rows|
  {
    seq(|rows|, i requires 0 <= i < |rows| =>
      if !rows[i].isBeatPeak then None
      else
        match LatestBefore(rows, i, |rows|)
        case None => None
        case Some(t) => Some(rows[i].timestampMs - t))
  }

  /** The IBIs present on the peak rows of group g, in table order. */
  function GroupIbis(rows: seq<PeakRow>, ibi: seq<Option<int>>, g: int, m: nat): (s: seq<int>)
    requires |ibi| == |rows| && m <= |rows|
    ensures forall x :: x in s <==> exists j :: 0 <= j < m && rows[j].isBeatPeak && rows[j].groupId == g && ibi[j] == Some(x)
  {
    if m == 0 then []
    else
      var j := m - 1;
      GroupIbis(rows, ibi, g, j) + (if rows[j].isBeatPeak && rows[j].groupId == g && ibi[j].Some? then [ibi[j].value] else [])
  }

  function MinOf(s: seq<int>): (m: int)
    requires |s| > 0
    ensures m in s && forall x :: x in s ==> m <= x
  {
    if |s| == 1 then s[0]
    else
      var m := MinOf(s[..|s| - 1]);
      assert forall x :: x in s ==> x in s[..|s| - 1] || x == s[|s| - 1];
      if s[|s| - 1] < m then s[|s| - 1] else m
  }

  function MaxOf(s: seq<int>): (m: int)
    requires |s| > 0
    ensures m in s && forall x :: x in s ==> x <= m
  {
    if |s| == 1 then s[0]
    else
      var m := MaxOf(s[..|s| - 1]);
      assert forall x :: x in s ==> x in s[..|s| - 1] || x == s[|s| - 1];
      if s[|s| - 1] > m then s[|s| - 1] else m
  }

  /** `groupby('group_id')['ibi_ms'].agg(['min', 'max'])` mapped back on
      every row of the group; a group without IBIs gets None. */
  function GroupMin(rows: seq<PeakRow>, ibi: seq<Option<int>>): (c: seq<Option<int>>)
    requires |ibi| == |rows|
    ensures |c| == |rows|
  {
    seq(|rows|, i requires 0 <= i < |rows| =>
      var s := GroupIbis(rows, ibi, rows[i].groupId, |rows|);
      if |s| == 0 then None else Some(MinOf(s)))
  }

  function GroupMax(rows: seq<PeakRow>, ibi: seq<Option<int>>): (c: seq<Option<int>>)
    requires |ibi| == |rows|
    ensures |c| == |rows|
  {
    seq(|rows|, i requires 0 <= i < |rows| =>
      var s := GroupIbis(rows, ibi, rows[i].groupId, |rows|);
      if |s| == 0 then None else Some(MaxOf(s)))
  }

  function SumInt(s: seq<int>): int
  {
    if s == [] then 0 else SumInt(s[..|s| - 1]) + s[|s| - 1]
  }

  /** 60000 divided by the group's mean IBI; None for a group without IBIs
      or with a zero mean. */
  function GroupBpm(rows: seq<PeakRow>, ibi: seq<Option<int>>): (c: seq<Option<real>>)
    requires |ibi| == |rows|
    ensures |c| == |rows|
  {
    seq(|rows|, i requires 0 <= i < |rows| =>
      var s := GroupIbis(rows, ibi, rows[i].groupId, |rows|);
      if |s| == 0 || SumInt(s) == 0 then None
      else Some(60000.0 / (SumInt(s) as real / |s| as real)))
  }

  /** The table: the input rows, copied at construction, and the columns
      the methods add. A column not yet computed is None. */
  class BasicBiomarkers {
    const rows: seq<PeakRow>
    var ibi: Option<seq<Option<int>>>
    var ibiMinGroup: Option<seq<Option<int>>>
    var ibiMaxGroup: Option<seq<Option<int>>>
    var groupBpm: Option<seq<Option<real>>>

    ghost predicate Valid()
      reads this
    {
      (ibi.Some? ==> |ibi.value| == |rows|)
    }

    constructor (rows: seq<PeakRow>)
      ensures this.rows == rows && ibi.None? && ibiMinGroup.None? && ibiMaxGroup.None? && groupBpm.None?
      ensures Valid()
    {
      this.rows := rows;
      ibi := None;
      ibiMinGroup := None;
      ibiMaxGroup := None;
      groupBpm := None;
    }

    /** `compute_ibi`: writes `ibi_ms`. */
    method ComputeIbi()
      modifies this
      ensures ibi == Some(Ibis(rows)) && Valid()
      ensures ibiMinGroup == old(ibiMinGroup) && ibiMaxGroup == old(ibiMaxGroup) && groupBpm == old(groupBpm)
    {
      ibi := Some(Ibis(rows));
    }

    /** `compute_group_ibi_stats`: writes `ibi_min_group` and
        `ibi_max_group`; a KeyError without `ibi_ms`. */
    method ComputeGroupIbiStats() returns (r: Result<()>)
      requires Valid()
      modifies this
      ensures Valid() && ibi == old(ibi) && groupBpm == old(groupBpm)
      ensures ibi.None? ==> r == Err(KeyError) && ibiMinGroup == old(ibiMinGroup) && ibiMaxGroup == old(ibiMaxGroup)
      ensures ibi.Some? ==>
        r == Ok(()) && ibiMinGroup == Some(GroupMin(rows, ibi.value)) && ibiMaxGroup == Some(GroupMax(rows, ibi.value))
    {
      if ibi.None? {
        return Err(KeyError);
      }
      ibiMinGroup := Some(GroupMin(rows, ibi.value));
      ibiMaxGroup := Some(GroupMax(rows, ibi.value));
      return Ok(());
    }

    /** `compute_bpm_from_ibi_group`: writes `group_bpm`; a KeyError
        without `ibi_ms`. */
    method ComputeBpmFromIbiGroup() returns (r: Result<()>)
      requires Valid()
      modifies this
      ensures Valid() && ibi == old(ibi) && ibiMinGroup == old(ibiMinGroup) && ibiMaxGroup == old(ibiMaxGroup)
      ensures ibi.None? ==> r == Err(KeyError) && groupBpm == old(groupBpm)
      ensures ibi.Some? ==> r == Ok(()) && groupBpm == Some(GroupBpm(rows, ibi.value))
    {
      if ibi.None? {
        return Err(KeyError);
      }
      groupBpm := Some(GroupBpm(rows, ibi.value));
      return Ok(());
    }
  }

  // ---------------------------------------------------------------------------
  // Properties

  /** Only peak rows carry an IBI; it is the time since the previous peak
      of the same group, so it is never negative, no other peak of the
      group lies between the two, and the first peak of a group has none. */
  lemma IbiIsGapToPreviousPeak(rows: seq<PeakRow>, i: nat)
    requires i < |rows|
    ensures !rows[i].isBeatPeak ==> Ibis(rows)[i].None?
    ensures rows[i].isBeatPeak && (forall j :: !EarlierPeak(rows, j, i)) ==> Ibis(rows)[i].None?
    ensures Ibis(rows)[i].Some? ==>
      rows[i].isBeatPeak && Ibis(rows)[i].value >= 0
      && exists j ::
           EarlierPeak(rows, j, i) && Ibis(rows)[i].value == rows[i].timestampMs - rows[j].timestampMs
           && forall j' :: EarlierPeak(rows, j', i) ==> rows[j'].timestampMs <= rows[j].timestampMs
  {
    if Ibis(rows)[i].Some? {
      var t := LatestBefore(rows, i, |rows|).value;
      var j :| 0 <= j < |rows| && EarlierPeak(rows, j, i) && rows[j].timestampMs == t;
      assert forall j' :: EarlierPeak(rows, j', i) ==> rows[j'].timestampMs <= rows[j].timestampMs;
    }
  }

  /** Every row of a group carries the same minimum and maximum, the
      minimum is at most the maximum, and both are IBIs of peaks of the
      group. */
  lemma GroupStats(rows: seq<PeakRow>, ibi: seq<Option<int>>, i: nat, k: nat)
    requires |ibi| == |rows| && i < |rows| && k < |rows| && rows[k].groupId == rows[i].groupId
    ensures GroupMin(rows, ibi)[i] == GroupMin(rows, ibi)[k] && GroupMax(rows, ibi)[i] == GroupMax(rows, ibi)[k]
    ensures GroupMin(rows, ibi)[i].Some? <==> GroupMax(rows, ibi)[i].Some?
    ensures GroupMin(rows, ibi)[i].Some? ==> GroupMin(rows, ibi)[i].value <= GroupMax(rows, ibi)[i].value
    ensures GroupMin(rows, ibi)[i].Some? ==>
      (exists j ::
         0 <= j < |rows| && rows[j].isBeatPeak && rows[j].groupId == rows[i].groupId && ibi[j] == GroupMin(rows, ibi)[i])
      && (exists j ::
         0 <= j < |rows| && rows[j].isBeatPeak && rows[j].groupId == rows[i].groupId && ibi[j] == GroupMax(rows, ibi)[i])
    ensures forall j :: 0 <= j < |rows| && rows[j].isBeatPeak && rows[j].groupId == rows[i].groupId && ibi[j].Some? ==>
      GroupMin(rows, ibi)[i].Some? && GroupMin(rows, ibi)[i].value <= ibi[j].value <= GroupMax(rows, ibi)[i].value
  {
    var s := GroupIbis(rows, ibi, rows[i].groupId, |rows|);
    if |s| > 0 {
      assert MinOf(s) <= MaxOf(s) by {
        assert MaxOf(s) in s;
      }
    }
    forall j | 0 <= j < |rows| && rows[j].isBeatPeak && rows[j].groupId == rows[i].groupId && ibi[j].Some?
      ensures ibi[j].value in s
    {
    }
  }

  lemma {:induction false} SumBounds(s: seq<int>, lo: int, hi: int)
    requires forall k :: 0 <= k < |s| ==> lo <= s[k] <= hi
    ensures |s| * lo <= SumInt(s) <= |s| * hi
  {
    if s != [] {
      SumBounds(s[..|s| - 1], lo, hi);
    }
  }

  /** A mean between lo and hi gives a rate between theirs. */
  lemma RateBetween(sum: int, n: nat, lo: int, hi: int)
    requires n > 0 && lo > 0 && n * lo <= sum <= n * hi
    ensures sum > 0
    ensures 60000.0 / hi as real <= 60000.0 / (sum as real / n as real) <= 60000.0 / lo as real
  {
    var N := n as real;
    var mean := sum as real / N;
    assert (n * lo) as real == N * lo as real && (n * hi) as real == N * hi as real;
    MeanAbove(sum as real, N, lo as real);
    MeanBelow(sum as real, N, hi as real);
    DivideMonotone(60000.0, lo as real, mean);
    DivideMonotone(60000.0, mean, hi as real);
  }

  lemma MeanAbove(s: real, n: real, lo: real)
    requires n > 0.0 && n * lo <= s
    ensures lo <= s / n
  {
    var m := s / n;
    assert m * n == s;
    assert (m - lo) * n == s - n * lo;
    MulSign(m - lo, n);
  }

  lemma MeanBelow(s: real, n: real, hi: real)
    requires n > 0.0 && s <= n * hi
    ensures s / n <= hi
  {
    var m := s / n;
    assert m * n == s;
    assert (hi - m) * n == n * hi - s;
    MulSign(hi - m, n);
  }

  /** A product with a positive factor has the other factor's sign. */
  lemma MulSign(a: real, n: real)
    requires n > 0.0 && a * n >= 0.0
    ensures a >= 0.0
  {
  }

  /** The group rate lies between the rates of the longest and the
      shortest IBI of the group. */
  lemma BpmBetweenExtremes(rows: seq<PeakRow>, ibi: seq<Option<int>>, i: nat)
    requires |ibi| == |rows| && i < |rows|
    requires GroupMin(rows, ibi)[i].Some? && GroupMin(rows, ibi)[i].value > 0
    ensures GroupBpm(rows, ibi)[i].Some? && GroupMax(rows, ibi)[i].Some?
    ensures 60000.0 / GroupMax(rows, ibi)[i].value as real <= GroupBpm(rows, ibi)[i].value
    ensures GroupBpm(rows, ibi)[i].value <= 60000.0 / GroupMin(rows, ibi)[i].value as real
  {
    var s := GroupIbis(rows, ibi, rows[i].groupId, |rows|);
    var lo := MinOf(s);
    var hi := MaxOf(s);
    assert GroupMin(rows, ibi)[i] == Some(lo) && GroupMax(rows, ibi)[i] == Some(hi);
    assert forall k :: 0 <= k < |s| ==> s[k] in s;
    SumBounds(s, lo, hi);
    RateBetween(SumInt(s), |s|, lo, hi);
    assert GroupBpm(rows, ibi)[i] == Some(60000.0 / (SumInt(s) as real / |s| as real));
  }

  lemma DivideMonotone(c: real, x: real, y: real)
    requires c > 0.0 && 0.0 < x <= y
    ensures c / y <= c / x
  {
    assert c / y * y == c == c / x * x;
  }
}
