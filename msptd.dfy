/** The multi-scale peak and trough detector (MSPTD) of
    `periodic_peak_detectors/msptd.py`: two boolean scalograms of N rows
    (sample positions) and L columns (scales), a choice of scale depth, and
    the positions flagged at every kept scale. */
module Msptd {
  import opened Wrappers
  import opened Seqs

  /** A float sample as NumPy holds it. */
  datatype Sample = Finite(v: real) | NaN | PosInf | NegInf

  /** Which scalogram: local maxima (`Mx`) or local minima (`Mn`). */
  datatype Extremum = Max | Min

  /** `np.nan_to_num(data, nan=0.0, posinf=0.0, neginf=0.0)`. */
  function NanToNum(data: seq<Sample>): (r: seq<real>)
    ensures |r| == |data|
    ensures forall i :: 0 <= i < |data| ==> r[i] == (if data[i].Finite? then data[i].v else 0.0)
  {
    seq(|data|, i requires 0 <= i < |data| => if data[i].Finite? then data[i].v else 0.0)
  }

  function Mean(x: seq<real>): real
  {
    if x == [] then 0.0 else Sum(x) / (|x| as real)
  }

  /** `data - c`, element by element. */
  function Minus(x: seq<real>, c: real): (r: seq<real>)
    ensures |r| == |x|
    ensures forall i :: 0 <= i < |x| ==> r[i] == x[i] - c
  {
    seq(|x|, i requires 0 <= i < |x| => x[i] - c)
  }

  /** `int(np.ceil(m / 2)) - 1` for an integer m. */
  function HalfScale(m: int): int
  {
    (m + 1) / 2 - 1
  }

  /** The scale depth L: from `max_interval` when it is given, else from the signal length. */
  function ScaleDepth(maxInterval: Option<int>, n: nat): int
  {
    match maxInterval
    case Some(m) => HalfScale(m)
    case None => HalfScale(n)
  }

  predicate Beyond(dir: Extremum, a: real, b: real)
  {
    match dir
    case Max => a > b
    case Min => a < b
  }

  /** Cell (p, k - 1) of the scalogram: p has neighbours at distance k on
      both sides and lies strictly above (or below) both of them. */
  predicate Flag(x: seq<real>, dir: Extremum, p: int, k: int)
  {
    1 <= k && k <= p && p + k < |x| && Beyond(dir, x[p], x[p - k]) && Beyond(dir, x[p], x[p + k])
  }

  /** The number of flagged rows among the first m rows at scale k (a column sum). */
  function ColumnCount(x: seq<real>, dir: Extremum, k: int, m: nat): (c: nat)
    ensures c <= m
  {
    if m == 0 then 0 else ColumnCount(x, dir, k, m - 1) + (if Flag(x, dir, m - 1, k) then 1 else 0)
  }

  /** `np.sum(M, axis=0)`: one count per scale column. */
  function ColumnSums(x: seq<real>, dir: Extremum, L: nat): (y: seq<int>)
    ensures |y| == L
  {
    seq(L, s requires 0 <= s < L => ColumnCount(x, dir, s + 1, |x|) as int)
  }

  /** `np.argmax` of the column sums: the index of the last kept column,
      the first column with the largest count. */
  function Depth(x: seq<real>, dir: Extremum, L: nat): (d: nat)
    requires L > 0
    ensures d < L
    ensures forall s :: 0 <= s < L ==> ColumnSums(x, dir, L)[s] <= ColumnSums(x, dir, L)[d]
    ensures forall s :: 0 <= s < d ==> ColumnSums(x, dir, L)[s] < ColumnSums(x, dir, L)[d]
  {
    ArgMaxInt(ColumnSums(x, dir, L))
  }

  /** Row p of the cut scalogram is true in every column 0..d. */
  predicate FlaggedThrough(x: seq<real>, dir: Extremum, p: int, d: nat)
  {
    forall k :: 1 <= k <= d + 1 ==> Flag(x, dir, p, k)
  }

  /** `np.where(np.sum(~M[:, :d + 1], axis=1) == 0)[0]` restricted to the first m rows. */
  function Extrema(x: seq<real>, dir: Extremum, d: nat, m: nat): (r: seq<int>)
    ensures StrictlyIncreasing(r) && AllIn(r, m)
    ensures forall p :: p in r <==> 0 <= p < m && FlaggedThrough(x, dir, p, d)
  {
    if m == 0 then []
    else Extrema(x, dir, d, m - 1) + (if FlaggedThrough(x, dir, m - 1, d) then [m - 1] else [])
  }

  /** Everything `beat_detect_msptd` returns. The scalograms are given by
      their dimensions: their cells are `Flag` (see `BuildScalograms`). */
  datatype Detection = Detection(peaks: seq<int>, troughs: seq<int>, rows: nat, scales: nat)

  /** The result on the detrended samples x with scale depth L > 0. */
  function Detect(x: seq<real>, L: nat): (r: Detection)
    requires L > 0
    ensures r.rows == |x| && r.scales == L
    ensures StrictlyIncreasing(r.peaks) && AllIn(r.peaks, |x|) && StrictlyIncreasing(r.troughs) && AllIn(r.troughs, |x|)
    ensures forall p :: p in r.peaks <==> 0 <= p < |x| && FlaggedThrough(x, Max, p, Depth(x, Max, L))
    ensures forall p :: p in r.troughs <==> 0 <= p < |x| && FlaggedThrough(x, Min, p, Depth(x, Min, L))
  {
    Detection(
      Extrema(x, Max, Depth(x, Max, L), |x|),
      Extrema(x, Min, Depth(x, Min, L), |x|),
      |x|, L)
  }

  /** The nested loops that fill `Mx` and `Mn`: cell (p, s) is set iff
      position p is a strict local maximum (minimum) at distance s + 1. */
  method BuildScalograms(x: seq<real>, L: nat) returns (mx: array2<bool>, mn: array2<bool>)
    ensures fresh(mx) && fresh(mn)
    ensures mx.Length0 == |x| && mx.Length1 == L && mn.Length0 == |x| && mn.Length1 == L
    ensures forall p, s :: 0 <= p < |x| && 0 <= s < L ==> mx[p, s] == Flag(x, Max, p, s + 1)
    ensures forall p, s :: 0 <= p < |x| && 0 <= s < L ==> mn[p, s] == Flag(x, Min, p, s + 1)
  {
    var n := |x|;
    mx := new bool[n, L]((p, s) => false);
    mn := new bool[n, L]((p, s) => false);
    var scale := 0;
    while scale < L
      invariant 0 <= scale <= L
      invariant forall p, s :: 0 <= p < n && 0 <= s < scale ==> mx[p, s] == Flag(x, Max, p, s + 1)
      invariant forall p, s :: 0 <= p < n && 0 <= s < scale ==> mn[p, s] == Flag(x, Min, p, s + 1)
      invariant forall p, s :: 0 <= p < n && scale <= s < L ==> !mx[p, s] && !mn[p, s]
    {
      var k := scale + 1;
      var p := k;
      while p < n - k
        invariant k <= p
        invariant forall q, s :: 0 <= q < n && 0 <= s < scale ==> mx[q, s] == Flag(x, Max, q, s + 1)
        invariant forall q, s :: 0 <= q < n && 0 <= s < scale ==> mn[q, s] == Flag(x, Min, q, s + 1)
        invariant forall q :: 0 <= q < n && q < p ==> mx[q, scale] == Flag(x, Max, q, k)
        invariant forall q :: 0 <= q < n && q < p ==> mn[q, scale] == Flag(x, Min, q, k)
        invariant forall q :: 0 <= q < n && p <= q ==> !mx[q, scale] && !mn[q, scale]
        invariant forall q, s :: 0 <= q < n && scale < s < L ==> !mx[q, s] && !mn[q, s]
      {
        if x[p] > x[p - k] && x[p] > x[p + k] {
          mx[p, scale] := true;
        }
        if x[p] < x[p - k] && x[p] < x[p + k] {
          mn[p, scale] := true;
        }
        p := p + 1;
      }
      scale := scale + 1;
    }
  }

  /** `beat_detect_msptd`: NaN and ±inf become 0, the scale depth comes from
      `max_interval` (or from the length), the mean is subtracted, and the full
      N x L scalograms are returned beside the peaks and troughs. A depth
      L <= 0 makes the allocation (L < 0) or the argmax over no columns (L = 0)
      raise ValueError. */
  method BeatDetectMsptd(data: seq<Sample>, maxInterval: Option<int>)
    returns (r: Result<Detection>, mx: array2<bool>, mn: array2<bool>)
    ensures ScaleDepth(maxInterval, |data|) <= 0 ==> r == Err(ValueError)
    ensures ScaleDepth(maxInterval, |data|) > 0 ==>
      && r == Ok(Detect(NanToNum(data), ScaleDepth(maxInterval, |data|)))
      && mx.Length0 == |data| && mx.Length1 == ScaleDepth(maxInterval, |data|)
      && mn.Length0 == |data| && mn.Length1 == ScaleDepth(maxInterval, |data|)
      && (forall p, s :: 0 <= p < |data| && 0 <= s < mx.Length1 ==>
            mx[p, s] == Flag(NanToNum(data), Max, p, s + 1) && mn[p, s] == Flag(NanToNum(data), Min, p, s + 1))
  {
    var clean := NanToNum(data);
    var L := ScaleDepth(maxInterval, |clean|);
    if L <= 0 {
      mx := new bool[0, 0];
      mn := new bool[0, 0];
      return Err(ValueError), mx, mn;
    }
    var x := Minus(clean, Mean(clean));
    mx, mn := BuildScalograms(x, L);
    r := Ok(Detect(x, L));
    DetectShift(clean, Mean(clean), L);
    forall p, s | 0 <= p < |data| && 0 <= s < L
      ensures mx[p, s] == Flag(clean, Max, p, s + 1) && mn[p, s] == Flag(clean, Min, p, s + 1)
    {
      FlagShift(clean, Mean(clean), Max, p, s + 1);
      FlagShift(clean, Mean(clean), Min, p, s + 1);
    }
  }

  /** `MSPTDDetector.detect`: `beat_detect_msptd` with `max_interval = 1000`
      (the call itself names an undefined `_beat_detect_msptd`; the model
      calls the method of the class that was evidently meant). */
  method DetectorDetect(signal: seq<Sample>) returns (r: Result<Detection>, mx: array2<bool>, mn: array2<bool>)
    ensures r == Ok(Detect(NanToNum(signal), 499))
    ensures mx.Length0 == |signal| && mx.Length1 == 499 && mn.Length0 == |signal| && mn.Length1 == 499
    ensures forall p, s :: 0 <= p < |signal| && 0 <= s < 499 ==>
      mx[p, s] == Flag(NanToNum(signal), Max, p, s + 1) && mn[p, s] == Flag(NanToNum(signal), Min, p, s + 1)
  {
    DetectScaleDepth(|signal|);
    r, mx, mn := BeatDetectMsptd(signal, Some(1000));
  }

  // ---------------------------------------------------------------------------
  // Properties

  /** `detect` passes `max_interval = 1000`, so the depth is 499 whatever the length. */
  lemma DetectScaleDepth(n: nat)
    ensures ScaleDepth(Some(1000), n) == 499
    ensures ScaleDepth(None, n) == if n % 2 == 0 then n / 2 - 1 else n / 2
  {
  }

  /** Subtracting a constant does not change any strict comparison, so no flag changes. */
  lemma FlagShift(x: seq<real>, c: real, dir: Extremum, p: int, k: int)
    ensures Flag(Minus(x, c), dir, p, k) <==> Flag(x, dir, p, k)
  {
  }

  lemma {:induction false} ColumnCountShift(x: seq<real>, c: real, dir: Extremum, k: int, m: nat)
    ensures ColumnCount(Minus(x, c), dir, k, m) == ColumnCount(x, dir, k, m)
  {
    if m > 0 {
      ColumnCountShift(x, c, dir, k, m - 1);
      FlagShift(x, c, dir, m - 1, k);
    }
  }

  lemma {:induction false} ExtremaShift(x: seq<real>, c: real, dir: Extremum, d: nat, m: nat)
    ensures Extrema(Minus(x, c), dir, d, m) == Extrema(x, dir, d, m)
  {
    if m > 0 {
      ExtremaShift(x, c, dir, d, m - 1);
      var p := m - 1;
      forall k | 1 <= k <= d + 1
        ensures Flag(Minus(x, c), dir, p, k) <==> Flag(x, dir, p, k)
      {
        FlagShift(x, c, dir, p, k);
      }
    }
  }

  /** Detrending by the mean does not change the detection. */
  lemma DetectShift(x: seq<real>, c: real, L: nat)
    requires L > 0
    ensures Detect(Minus(x, c), L) == Detect(x, L)
  {
    forall dir | dir == Max || dir == Min
      ensures ColumnSums(Minus(x, c), dir, L) == ColumnSums(x, dir, L)
    {
      forall k | 1 <= k <= L
        ensures ColumnCount(Minus(x, c), dir, k, |x|) == ColumnCount(x, dir, k, |x|)
      {
        ColumnCountShift(x, c, dir, k, |x|);
      }
    }
    ExtremaShift(x, c, Max, Depth(x, Max, L), |x|);
    ExtremaShift(x, c, Min, Depth(x, Min, L), |x|);
  }

  /** Every returned position is flagged at scale 1, the column that is never cut. */
  lemma {:induction false} ExtremaAtScaleOne(x: seq<real>, dir: Extremum, d: nat, m: nat)
    ensures forall p :: p in Extrema(x, dir, d, m) ==> Flag(x, dir, p, 1)
  {
    forall p | p in Extrema(x, dir, d, m) ensures Flag(x, dir, p, 1) {
      assert FlaggedThrough(x, dir, p, d);
    }
  }

  /** Column 0 is always kept, so the first and last positions are never
      returned and no position is both a peak and a trough. */
  lemma DetectShape(x: seq<real>, L: nat)
    requires L > 0
    ensures var det := Detect(x, L);
      && StrictlyIncreasing(det.peaks) && StrictlyIncreasing(det.troughs)
      && (forall p :: p in det.peaks ==> 1 <= p < |x| - 1)
      && (forall p :: p in det.troughs ==> 1 <= p < |x| - 1)
      && (forall p :: p in det.peaks ==> p !in det.troughs)
  {
    ExtremaAtScaleOne(x, Max, Depth(x, Max, L), |x|);
    ExtremaAtScaleOne(x, Min, Depth(x, Min, L), |x|);
  }

  predicate Constant(x: seq<real>)
  {
    forall i, j :: 0 <= i < |x| && 0 <= j < |x| ==> x[i] == x[j]
  }

  /** A constant signal gives no peaks and no troughs. */
  lemma ConstantSignal(x: seq<real>, L: nat)
    requires L > 0 && Constant(x)
    ensures Detect(x, L).peaks == [] && Detect(x, L).troughs == []
  {
    var peaks, troughs := Detect(x, L).peaks, Detect(x, L).troughs;
    ExtremaAtScaleOne(x, Max, Depth(x, Max, L), |x|);
    ExtremaAtScaleOne(x, Min, Depth(x, Min, L), |x|);
    forall p | 1 <= p < |x| ensures !Flag(x, Max, p, 1) && !Flag(x, Min, p, 1) {
      assert x[p] == x[p - 1];
    }
    FirstIsMember(peaks);
    FirstIsMember(troughs);
  }

  lemma FirstIsMember(s: seq<int>)
    ensures s == [] || s[0] in s
  {
  }
}
