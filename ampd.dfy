/** Automatic multiscale peak detection (AMPD) of
    `periodic_peak_detectors/ampd.py`. The local maxima scalogram (LMS) has
    L = ceil(N/2) - 1 rows (scales) and N columns (positions); it starts as
    random noise in [1, 2) and a cell is overwritten where the position is a
    strict local maximum at that scale. The scale with the smallest row sum
    is chosen, and the peaks are the columns whose kept cells are all equal
    (standard deviation 0). */
module Ampd {
  import opened Wrappers
  import opened Seqs
  import opened Msptd

  /** A value of `np.random.rand`. */
  type Unit = r: real | 0.0 <= r < 1.0

  /** One draw of `np.random.rand(L, N)`: a value in [0, 1) per (row, column). */
  type Draw = (int, int) -> Unit

  /** The selector of `_compute_lms`: 0 is the Python loop, 1 (the default)
      the vectorised version; any other value matches no case. */
  const LoopImplementation := 0
  const VectorisedImplementation := 1

  /** Cell (row, i) of the finished scalogram, at scale k = row + 1. */
  function Cell(x: seq<real>, draw: Draw, implementation: int, row: int, i: int): real
  {
    if implementation == VectorisedImplementation && Flag(x, Max, i, row + 1) then 0.0
    else if implementation == LoopImplementation && Flag(x, Max, i, row + 1) then 1.0
    else draw(row, i) + 1.0
  }

  /** All rows have n columns. */
  predicate Rectangular(m: seq<seq<real>>, n: nat)
  {
    forall r :: 0 <= r < |m| ==> |m[r]| == n
  }

  /** The scalogram as a list of rows, for L = HalfScale(N) >= 0. */
  function Scalogram(x: seq<real>, draw: Draw, implementation: int): (lms: seq<seq<real>>)
    requires HalfScale(|x|) >= 0
    ensures |lms| == HalfScale(|x|) && Rectangular(lms, |x|)
    ensures forall r, i :: 0 <= r < |lms| && 0 <= i < |x| ==> lms[r][i] == Cell(x, draw, implementation, r, i)
  {
    seq(HalfScale(|x|), r => seq(|x|, i => Cell(x, draw, implementation, r, i)))
  }

  /** `np.sum(lms, axis=1)`. */
  function RowSums(m: seq<seq<real>>): (g: seq<real>)
    ensures |g| == |m|
    ensures forall r :: 0 <= r < |m| ==> g[r] == Sum(m[r])
  {
    seq(|m|, r requires 0 <= r < |m| => Sum(m[r]))
  }

  /** Column c has standard deviation 0: all its cells are equal. */
  predicate ZeroStd(m: seq<seq<real>>, n: nat, c: int)
    requires Rectangular(m, n)
  {
    0 <= c < n && forall r :: 0 <= r < |m| ==> m[r][c] == m[0][c]
  }

  /** `np.where(np.std(m, axis=0) == 0)[0]` over the first k columns. */
  function ZeroStdColumns(m: seq<seq<real>>, n: nat, k: nat): (r: seq<int>)
    requires Rectangular(m, n) && k <= n
    ensures StrictlyIncreasing(r) && AllIn(r, k)
    ensures forall c :: c in r <==> 0 <= c < k && ZeroStd(m, n, c)
  {
    if k == 0 then []
    else ZeroStdColumns(m, n, k - 1) + (if ZeroStd(m, n, k - 1) then [k - 1] else [])
  }

  /** Everything `_peak_detect_ampd` returns; `lms` is the cut scalogram. */
  datatype AmpdResult = AmpdResult(peaks: seq<int>, lms: seq<seq<real>>, gamma: seq<real>, lambdaScale: nat)

  /** The result for a detrended signal of at least 3 samples. */
  function PeakDetection(x: seq<real>, draw: Draw): (r: AmpdResult)
    requires |x| >= 3
    ensures r.lambdaScale < HalfScale(|x|) && |r.lms| == r.lambdaScale + 1
    ensures StrictlyIncreasing(r.peaks) && AllIn(r.peaks, |x|)
    ensures forall c :: c in r.peaks <==>
      && 0 <= c < |x|
      && forall k :: 0 <= k <= r.lambdaScale ==> Cell(x, draw, VectorisedImplementation, k, c) == Cell(x, draw, VectorisedImplementation, 0, c)
  {
    var lms := Scalogram(x, draw, VectorisedImplementation);
    var gamma := RowSums(lms);
    var lam := ArgMin(gamma);
    AmpdResult(ZeroStdColumns(lms[..lam + 1], |x|, |x|), lms[..lam + 1], gamma, lam)
  }

  /** The rows of a matrix. */
  function Contents(a: array2<real>): (m: seq<seq<real>>)
    reads a
    ensures |m| == a.Length0 && Rectangular(m, a.Length1)
    ensures forall r, i :: 0 <= r < a.Length0 && 0 <= i < a.Length1 ==> m[r][i] == a[r, i]
  {
    seq(a.Length0, r requires 0 <= r < a.Length0 reads a => seq(a.Length1, i requires 0 <= i < a.Length1 reads a => a[r, i]))
  }

  /** `_compute_lms`: the noise matrix is allocated (a negative row count
      raises ValueError), then each scale's row is overwritten at the strict
      local maxima of that scale. */
  method ComputeLms(x: seq<real>, draw: Draw, implementation: int) returns (r: Result<array2<real>>)
    ensures HalfScale(|x|) < 0 <==> r.Err?
    ensures r.Err? ==> r.error == ValueError
    ensures r.Ok? ==> fresh(r.value) && Contents(r.value) == Scalogram(x, draw, implementation)
  {
    var n := |x|;
    var L := HalfScale(n);
    if L < 0 {
      return Err(ValueError);
    }
    var lms := new real[L, n]((row, i) => draw(row, i) + 1.0);
    var row := 0;
    while row < L
      invariant 0 <= row <= L
      invariant forall q, i :: 0 <= q < row && 0 <= i < n ==> lms[q, i] == Cell(x, draw, implementation, q, i)
      invariant forall q, i :: row <= q < L && 0 <= i < n ==> lms[q, i] == draw(q, i) + 1.0
    {
      FillRow(lms, x, draw, implementation, row);
      row := row + 1;
    }
    ContentsIsScalogram(lms, x, draw, implementation);
    return Ok(lms);
  }

  lemma ContentsIsScalogram(a: array2<real>, x: seq<real>, draw: Draw, implementation: int)
    requires HalfScale(|x|) >= 0 && a.Length0 == HalfScale(|x|) && a.Length1 == |x|
    requires forall r, i :: 0 <= r < a.Length0 && 0 <= i < a.Length1 ==> a[r, i] == Cell(x, draw, implementation, r, i)
    ensures Contents(a) == Scalogram(x, draw, implementation)
  {
    var m, s := Contents(a), Scalogram(x, draw, implementation);
    forall r | 0 <= r < |m| ensures m[r] == s[r] {
    }
  }

  /** One pass of the `for k` loop: row k - 1 is overwritten at the strict
      local maxima at distance k, positions k..N-k-1. */
  method FillRow(lms: array2<real>, x: seq<real>, draw: Draw, implementation: int, row: nat)
    requires lms.Length0 > row && lms.Length1 == |x|
    requires forall i :: 0 <= i < |x| ==> lms[row, i] == draw(row, i) + 1.0
    modifies lms
    ensures forall i :: 0 <= i < |x| ==> lms[row, i] == Cell(x, draw, implementation, row, i)
    ensures forall q, i :: 0 <= q < lms.Length0 && q != row && 0 <= i < |x| ==> lms[q, i] == old(lms[q, i])
  {
    var n := |x|;
    var k := row + 1;
    var i := k;
    while i < n - k
      invariant k <= i
      invariant forall j :: 0 <= j < n && j < i ==> lms[row, j] == Cell(x, draw, implementation, row, j)
      invariant forall j :: 0 <= j < n && i <= j ==> lms[row, j] == draw(row, j) + 1.0
      invariant forall q, j :: 0 <= q < lms.Length0 && q != row && 0 <= j < n ==> lms[q, j] == old(lms[q, j])
    {
      if x[i] > x[i - k] && x[i] > x[i + k] {
        if implementation == LoopImplementation {
          lms[row, i] := 1.0;
        } else if implementation == VectorisedImplementation {
          lms[row, i] := 0.0;
        }
      }
      i := i + 1;
    }
  }

  /** `AMPDDetector._peak_detect_ampd` (and `detect`, which passes its
      result through). The signal is taken as already detrended. */
  method PeakDetectAmpd(signal: seq<real>, draw: Draw) returns (res: AmpdResult)
    ensures |signal| < 3 ==> res == AmpdResult([], [], [], 0)
    ensures |signal| >= 3 ==> res == PeakDetection(signal, draw)
  {
    if |signal| < 3 {
      return AmpdResult([], [], [], 0);
    }
    var r := ComputeLms(signal, draw, VectorisedImplementation);
    var lms := Contents(r.value);
    var gamma := RowSums(lms);
    var lam := ArgMin(gamma);
    var kept := lms[..lam + 1];
    res := AmpdResult(ZeroStdColumns(kept, |signal|, |signal|), kept, gamma, lam);
  }

  // ---------------------------------------------------------------------------
  // Properties

  /** Every cell is 0 or lies in [1, 2), whichever implementation fills it. */
  lemma CellRange(x: seq<real>, draw: Draw, implementation: int, row: int, i: int)
    ensures var v := Cell(x, draw, implementation, row, i); v == 0.0 || 1.0 <= v < 2.0
  {
  }

  /** The vectorised version writes 0 exactly at the strict local maxima. */
  lemma VectorisedZeroIff(x: seq<real>, draw: Draw, row: int, i: int)
    ensures Cell(x, draw, VectorisedImplementation, row, i) == 0.0 <==> Flag(x, Max, i, row + 1)
  {
  }

  /** The loop version writes 1, not 0, so it never marks a maximum with 0. */
  lemma LoopNeverZero(x: seq<real>, draw: Draw, row: int, i: int)
    ensures Cell(x, draw, LoopImplementation, row, i) != 0.0
  {
  }

  /** The chosen scale has the smallest row sum, and it is the first such
      row; the cut scalogram keeps the rows 0..lambda. */
  lemma AmpdScale(x: seq<real>, draw: Draw)
    requires |x| >= 3
    ensures var res := PeakDetection(x, draw);
      && |res.gamma| == HalfScale(|x|) && res.lambdaScale < |res.gamma|
      && (forall r :: 0 <= r < |res.gamma| ==> res.gamma[r] == Sum(Scalogram(x, draw, VectorisedImplementation)[r]))
      && (forall r :: 0 <= r < |res.gamma| ==> res.gamma[res.lambdaScale] <= res.gamma[r])
      && (forall r :: 0 <= r < res.lambdaScale ==> res.gamma[res.lambdaScale] < res.gamma[r])
      && |res.lms| == res.lambdaScale + 1 && Rectangular(res.lms, |x|)
  {
  }

  /** `r` lists the indices 0 .. k - 1 in order. */
  predicate AllIndices(r: seq<int>, k: nat)
  {
    |r| == k && forall i :: 0 <= i < k ==> r[i] == i
  }

  /** Every column of a single-row matrix has standard deviation 0. */
  lemma {:induction false} SingleRowAllColumns(m: seq<seq<real>>, n: nat, k: nat)
    requires Rectangular(m, n) && |m| == 1 && k <= n
    ensures AllIndices(ZeroStdColumns(m, n, k), k)
  {
    if k > 0 {
      SingleRowAllColumns(m, n, k - 1);
      assert ZeroStd(m, n, k - 1);
      var prev := ZeroStdColumns(m, n, k - 1);
      assert ZeroStdColumns(m, n, k) == prev + [k - 1];
    }
  }

  /** When lambda is 0 every index is a peak. */
  lemma LambdaZeroAllPeaks(x: seq<real>, draw: Draw)
    requires |x| >= 3 && PeakDetection(x, draw).lambdaScale == 0
    ensures AllIndices(PeakDetection(x, draw).peaks, |x|)
  {
    var res := PeakDetection(x, draw);
    SingleRowAllColumns(res.lms, |x|, |x|);
  }

  /** For N = 3 or 4 there is one scale, so lambda is 0 and every index is a peak. */
  lemma ShortSignalAllPeaks(x: seq<real>, draw: Draw)
    requires |x| == 3 || |x| == 4
    ensures PeakDetection(x, draw).lambdaScale == 0
    ensures AllIndices(PeakDetection(x, draw).peaks, |x|)
  {
    LambdaZeroAllPeaks(x, draw);
  }

  /** A column that is a strict local maximum at every kept scale is all
      zeros, hence a peak; when lambda >= 1, a column that is a maximum at
      one kept scale and not at another mixes 0 with noise and is not. */
  lemma KeptColumns(x: seq<real>, draw: Draw, c: int)
    requires |x| >= 3 && 0 <= c < |x|
    ensures FlaggedThrough(x, Max, c, PeakDetection(x, draw).lambdaScale) ==> c in PeakDetection(x, draw).peaks
    ensures (exists k :: 1 <= k <= PeakDetection(x, draw).lambdaScale + 1 && Flag(x, Max, c, k))
         && (exists k :: 1 <= k <= PeakDetection(x, draw).lambdaScale + 1 && !Flag(x, Max, c, k))
        ==> c !in PeakDetection(x, draw).peaks
  {
    var res := PeakDetection(x, draw);
    var lam := res.lambdaScale;
    if FlaggedThrough(x, Max, c, lam) {
      forall r | 0 <= r < |res.lms| ensures res.lms[r][c] == 0.0 {
        assert Flag(x, Max, c, r + 1);
      }
    }
    if (exists k :: 1 <= k <= lam + 1 && Flag(x, Max, c, k))
       && (exists k :: 1 <= k <= lam + 1 && !Flag(x, Max, c, k))
    {
      var k1 :| 1 <= k1 <= lam + 1 && Flag(x, Max, c, k1);
      var k2 :| 1 <= k2 <= lam + 1 && !Flag(x, Max, c, k2);
      assert res.lms[k1 - 1][c] == 0.0;
      assert res.lms[k2 - 1][c] >= 1.0;
    }
  }

  /** With at least two kept scales whose noise differs in column c, the
      column is a peak exactly when it is a strict local maximum at every
      kept scale: one that is a maximum at none keeps two different noise
      values. */
  lemma KeptColumnsExact(x: seq<real>, draw: Draw, c: int)
    requires |x| >= 3 && 0 <= c < |x|
    requires PeakDetection(x, draw).lambdaScale >= 1 && draw(0, c) != draw(1, c)
    ensures c in PeakDetection(x, draw).peaks <==> FlaggedThrough(x, Max, c, PeakDetection(x, draw).lambdaScale)
  {
    var lam := PeakDetection(x, draw).lambdaScale;
    KeptColumns(x, draw, c);
    if !FlaggedThrough(x, Max, c, lam) && !Flag(x, Max, c, 1) && !Flag(x, Max, c, 2) {
      assert Cell(x, draw, VectorisedImplementation, 1, c) != Cell(x, draw, VectorisedImplementation, 0, c);
    }
  }
}
