/** The older module-level copy of AMPD in `beat_detector_ampd.py`. Its
    `compute_lms` is the same code as `Ampd.ComputeLms`; `peak_detect_ampd`
    lacks the short-signal guard of the newer copy. */
module AmpdLegacy {
  import opened Wrappers
  import opened Seqs
  import opened Msptd
  import opened Ampd

  /** `peak_detect_ampd` on an already detrended signal. For N = 0 the
      scalogram allocation has a negative row count, and for N = 1 or 2 it
      has no rows, so `np.argmin` of the empty `gamma` raises: every signal
      shorter than 3 samples raises ValueError instead of returning empty
      peaks. */
  method PeakDetectAmpdLegacy(signal: seq<real>, draw: Draw) returns (r: Result<AmpdResult>)
    ensures |signal| < 3 <==> r == Err(ValueError)
    ensures |signal| >= 3 ==> r == Ok(PeakDetection(signal, draw))
  {
    var lms := ComputeLms(signal, draw, VectorisedImplementation);
    if lms.Err? {
      return Err(lms.error);
    }
    var rows := Contents(lms.value);
    var gamma := RowSums(rows);
    if |gamma| == 0 {
      return Err(ValueError);
    }
    var lam := ArgMin(gamma);
    var kept := rows[..lam + 1];
    r := Ok(AmpdResult(ZeroStdColumns(kept, |signal|, |signal|), kept, gamma, lam));
  }

  /** Shape of `compute_lms`: ceil(N/2) - 1 rows of N columns with cells 0 or
      in [1, 2), and every strict local maximum at distance 1 has a 0 in its
      column. */
  lemma LmsShape(x: seq<real>, draw: Draw)
    requires |x| >= 3
    ensures var lms := Scalogram(x, draw, VectorisedImplementation);
      && |lms| == HalfScale(|x|) && Rectangular(lms, |x|)
      && (forall r, i :: 0 <= r < |lms| && 0 <= i < |x| ==> lms[r][i] == 0.0 || 1.0 <= lms[r][i] < 2.0)
      && (forall i :: 0 <= i < |x| && Flag(x, Max, i, 1) ==> lms[0][i] == 0.0)
  {
  }
}
