/** Signal quality indices (SQI): per-row IBI checks written into the
    biomarker table, a plausible-rate check, a combiner and a factory. */
module SqiIbiMax {
  import opened Wrappers
  import opened Frames

  /** The slowest plausible rate and the longest IBI it allows, 60000 / 30 ms. */
  const MinBpm: real := 30.0
  const MaxIbi: real := 60000.0 / MinBpm

  /** `max_threshold_check`: a missing value fails. */
  predicate BelowThreshold(v: Option<real>, threshold: real)
  {
    v.Some? && v.value < threshold
  }

  function IbiMaxFlags(ibi: Column): (flags: seq<bool>)
    ensures |flags| == |ibi|
  {
    seq(|ibi|, i requires 0 <= i < |ibi| => BelowThreshold(ibi[i], MaxIbi))
  }

  class SqiIbiMax {
    constructor ()
    {
    }

    /** `compute`: writes `sqi_ibi_max`, row by row, into the given table
        and returns that same table; a KeyError without `ibi_ms`. */
    method Compute(data: Frame) returns (r: Result<Frame>)
      requires data.Valid()
      modifies data
      ensures data.Valid() && data.columns == old(data.columns)
      ensures "ibi_ms" !in data.columns ==> r == Err(KeyError) && data.flags == old(data.flags)
      ensures "ibi_ms" in data.columns ==>
        r == Ok(data) && data.flags == old(data.flags)["sqi_ibi_max" := IbiMaxFlags(data.columns["ibi_ms"])]
    {
      if "ibi_ms" !in data.columns {
        return Err(KeyError);
      }
      data.PutFlags("sqi_ibi_max", IbiMaxFlags(data.columns["ibi_ms"]));
      return Ok(data);
    }
  }

  /** A positive IBI passes exactly when the rate it implies is above
      30 per minute. */
  lemma FlagMeansRateAbove(ibi: Column, i: nat)
    requires i < |ibi| && ibi[i].Some? && ibi[i].value > 0.0
    ensures IbiMaxFlags(ibi)[i] <==> 60000.0 / ibi[i].value > MinBpm
  {
    var v := ibi[i].value;
    var q := 60000.0 / v;
    assert MaxIbi == 2000.0;
    assert q * v == 60000.0;
    assert (q - MinBpm) * v == 60000.0 - 30.0 * v;
    SignOfProduct(q - MinBpm, v);
  }

  lemma SignOfProduct(a: real, n: real)
    requires n > 0.0
    ensures a * n > 0.0 <==> a > 0.0
  {
  }
}

module SqiIbiRatioGroup {
  import opened Wrappers
  import opened Frames

  const RatioThreshold: real := 1.1

  /** `(max / min < 1.1) & ratio.notnull()`: a missing operand gives a
      missing ratio; dividing by zero gives an infinity of the numerator's
      sign, or NaN for 0 / 0, which only the negative infinity passes. */
  predicate RatioBelow(mx: Option<real>, mn: Option<real>)
  {
    mx.Some? && mn.Some? && (if mn.value == 0.0 then mx.value < 0.0 else mx.value / mn.value < RatioThreshold)
  }

  function RatioFlags(mx: Column, mn: Column): (flags: seq<bool>)
    requires |mx| == |mn|
    ensures |flags| == |mx|
  {
    seq(|mx|, i requires 0 <= i < |mx| => RatioBelow(mx[i], mn[i]))
  }

  class SqiIbiRatioGroup {
    constructor ()
    {
    }

    /** `compute` as written: `ibi_min_group` is overwritten with
        `ibi_max_group` before the ratio is taken, so the ratio is max / max. */
    method ComputeAsWritten(data: Frame) returns (r: Result<()>)
      requires data.Valid()
      modifies data
      ensures data.Valid()
      ensures "ibi_max_group" !in old(data.columns) ==>
        r == Err(KeyError) && data.columns == old(data.columns) && data.flags == old(data.flags)
      ensures "ibi_max_group" in old(data.columns) ==>
        var mx := old(data.columns["ibi_max_group"]);
        r == Ok(())
        && data.columns == old(data.columns)["ibi_min_group" := mx]
        && data.flags == old(data.flags)["sqi_ibi_ratio_group" := RatioFlags(mx, mx)]
    {
      if "ibi_max_group" !in data.columns {
        return Err(KeyError);
      }
      var mx := data.columns["ibi_max_group"];
      data.Put("ibi_min_group", mx);
      data.PutFlags("sqi_ibi_ratio_group", RatioFlags(mx, mx));
      return Ok(());
    }

    /** `compute` with the minimum read from `ibi_min_group`: the flag says
        whether max / min is below 1.1. */
    method Compute(data: Frame) returns (r: Result<()>)
      requires data.Valid()
      modifies data
      ensures data.Valid() && data.columns == old(data.columns)
      ensures "ibi_max_group" !in data.columns || "ibi_min_group" !in data.columns ==>
        r == Err(KeyError) && data.flags == old(data.flags)
      ensures "ibi_max_group" in data.columns && "ibi_min_group" in data.columns ==>
        r == Ok(()) && data.flags == old(data.flags)["sqi_ibi_ratio_group" :=
          RatioFlags(data.columns["ibi_max_group"], data.columns["ibi_min_group"])]
    {
      if "ibi_max_group" !in data.columns || "ibi_min_group" !in data.columns {
        return Err(KeyError);
      }
      data.PutFlags("sqi_ibi_ratio_group", RatioFlags(data.columns["ibi_max_group"], data.columns["ibi_min_group"]));
      return Ok(());
    }
  }

  /** As written, the flag only says that the group maximum is present and
      non-zero; the minimum plays no part. */
  lemma AsWrittenIgnoresMin(mx: Column, i: nat)
    requires i < |mx|
    ensures RatioFlags(mx, mx)[i] <==> mx[i].Some? && mx[i].value != 0.0
  {
    if mx[i].Some? && mx[i].value != 0.0 {
      assert mx[i].value / mx[i].value == 1.0;
    }
  }

  /** A group with IBIs 1000 and 3000 ms passes as written but not with the
      intended ratio 3.0. */
  lemma RatioCounterexample()
    ensures RatioFlags([Some(3000.0)], [Some(3000.0)])[0]
    ensures !RatioFlags([Some(3000.0)], [Some(1000.0)])[0]
  {
    assert 3000.0 / 3000.0 == 1.0;
    assert 3000.0 / 1000.0 == 3.0;
  }

  /** With a positive minimum, a group passes exactly when its maximum is
      less than 10 % above its minimum. */
  lemma RatioMeaning(mx: Column, mn: Column, i: nat)
    requires |mx| == |mn| && i < |mx| && mx[i].Some? && mn[i].Some? && mn[i].value > 0.0
    ensures RatioFlags(mx, mn)[i] <==> mx[i].value < RatioThreshold * mn[i].value
  {
    var a := mx[i].value;
    var b := mn[i].value;
    var q := a / b;
    assert q * b == a;
    if q < RatioThreshold {
      assert (RatioThreshold - q) * b > 0.0;
    } else {
      assert (q - RatioThreshold) * b >= 0.0;
    }
  }
}

module SqiBpmPlausible {

  const MaxBpm := 180
  const MinBpm := 30

  /** The rate check, with both bounds excluded. */
  predicate Plausible(bpm: int)
  {
    bpm < MaxBpm && bpm > MinBpm
  }

  /** `compute`: the rate is fixed at 100, so every segment passes; the
      segment is not read. */
  function Compute<T>(segment: T): (r: bool)
    ensures r
  {
    Plausible(100)
  }
}

module CompositeSqi {
  import opened Wrappers
  import opened Seqs

  const DefaultStrategy := "sequential_validation"

  /** The SQIs and the strategy name, which is not checked when the
      composite is built. */
  datatype CompositeSqi<-T> = CompositeSqi(sqis: seq<T -> bool>, combineStrategy: string)

  function New<T>(sqis: seq<T -> bool>): (c: CompositeSqi<T>)
    ensures c.sqis == sqis && c.combineStrategy == DefaultStrategy
  {
    CompositeSqi(sqis, DefaultStrategy)
  }

  /** Every SQI's result on the segment, in list order. */
  function Results<T>(c: CompositeSqi<T>, segment: T): (r: seq<bool>)
    ensures |r| == |c.sqis| && forall i :: 0 <= i < |r| ==> r[i] == c.sqis[i](segment)
  {
    seq(|c.sqis|, i requires 0 <= i < |c.sqis| => c.sqis[i](segment))
  }

  /** `compute`: "average" is the share of SQIs that pass, a division by
      zero for an empty list; "sequential_validation" gives None; any other
      strategy is a ValueError. */
  function Compute<T>(c: CompositeSqi<T>, segment: T): (r: Result<Option<real>>)
    ensures c.combineStrategy == "average" && |c.sqis| == 0 ==> r == Err(ZeroDivisionError)
    ensures c.combineStrategy == "average" && |c.sqis| > 0 ==>
      r == Ok(Some(CountTrue(Results(c, segment)) as real / |c.sqis| as real))
    ensures c.combineStrategy == "sequential_validation" ==> r == Ok(None)
    ensures c.combineStrategy !in {"average", "sequential_validation"} ==> r == Err(ValueError)
    ensures r.Ok? && r.value.Some? ==> c.combineStrategy == "average" && 0.0 <= r.value.value <= 1.0
  {
    var results := Results(c, segment);
    if c.combineStrategy == "average" then
      if |results| == 0 then Err(ZeroDivisionError)
      else
        ShareBounds(CountTrue(results), |results|);
        Ok(Some(CountTrue(results) as real / |results| as real))
    else if c.combineStrategy == "sequential_validation" then Ok(None)
    else Err(ValueError)
  }

  /** A count of at most n out of n > 0 is a share in [0, 1]. */
  lemma ShareBounds(k: nat, n: nat)
    requires 0 < n && k <= n
    ensures 0.0 <= k as real / n as real <= 1.0
  {
    var q := k as real / n as real;
    assert q * n as real == k as real;
  }

  lemma {:induction false} CountAll(s: seq<bool>)
    ensures CountTrue(s) == |s| <==> forall i :: 0 <= i < |s| ==> s[i]
  {
    if s != [] {
      CountAll(s[..|s| - 1]);
      assert forall i :: 0 <= i < |s| - 1 ==> s[..|s| - 1][i] == s[i];
    }
  }

  /** The average is 1 exactly when every SQI passes. */
  lemma AverageOneIffAllPass<T>(c: CompositeSqi<T>, segment: T)
    requires c.combineStrategy == "average" && |c.sqis| > 0
    ensures Compute(c, segment) == Ok(Some(1.0)) <==> forall i :: 0 <= i < |c.sqis| ==> c.sqis[i](segment)
  {
    var results := Results(c, segment);
    CountAll(results);
    var n := |results| as real;
    var k := CountTrue(results) as real;
    assert Compute(c, segment) == Ok(Some(k / n));
    assert forall i :: 0 <= i < |c.sqis| ==> results[i] == c.sqis[i](segment);
    if k / n == 1.0 {
      assert k / n * n == k;
    }
    assert k / n == 1.0 <==> CountTrue(results) == |results|;
  }
}

module SqiFactory {
  import opened Wrappers

  datatype SqiKind = BpmPlausible

  /** `create_sqi`: only "bpm_plausible" is known; a keyword argument other
      than the type (such as the composite details the pipeline passes) is
      a TypeError before the name is looked at. */
  function CreateSqi(sqiType: string, otherArguments: set<string>): (r: Result<SqiKind>)
    ensures otherArguments != {} ==> r == Err(TypeError)
    ensures otherArguments == {} ==> (r.Ok? <==> sqiType == "bpm_plausible")
    ensures otherArguments == {} && r.Err? ==> r.error == ValueError
  {
    if otherArguments != {} then Err(TypeError)
    else if sqiType == "bpm_plausible" then Ok(BpmPlausible)
    else Err(ValueError)
  }
}
