/** `PeakDetectorFactory.create` and the view of a detector that the beat
    detector relies on: a function from a signal to strictly ascending
    in-range peak indices. */
module DetectorFactory {
  import opened Wrappers
  import opened Seqs
  import Msptd
  import Ampd

  /** The two detector classes the factory knows. */
  datatype DetectorKind = AmpdDetector | MsptdDetector

  /** The factory's name table, case-sensitive. */
  function Create(name: string): (r: Result<DetectorKind>)
    ensures r == Ok(AmpdDetector) <==> name == "ampd"
    ensures r == Ok(MsptdDetector) <==> name == "msptd"
    ensures r.Err? <==> name != "ampd" && name != "msptd"
    ensures r.Err? ==> r.error == ValueError
  {
    if name == "ampd" then Ok(AmpdDetector)
    else if name == "msptd" then Ok(MsptdDetector)
    else Err(ValueError)
  }

  /** What `detect(signal)["peaks"]` promises to its callers. */
  type PeakFinder = f: seq<real> -> seq<int> | forall s :: StrictlyIncreasing(f(s)) && AllIn(f(s), |s|)
    witness (s: seq<real>) => []

  /** A detrending step that keeps the length (scipy's `detrend`, which the
      model does not see). */
  type Detrend = f: seq<real> -> seq<real> | forall s :: |f(s)| == |s|
    witness (s: seq<real>) => s

  function AsSamples(s: seq<real>): (r: seq<Msptd.Sample>)
    ensures |r| == |s|
    ensures forall i :: 0 <= i < |s| ==> r[i] == Msptd.Finite(s[i])
  {
    seq(|s|, i requires 0 <= i < |s| => Msptd.Finite(s[i]))
  }

  /** The peaks of `MSPTDDetector.detect` on a finite signal. */
  function MsptdPeaks(s: seq<real>): (r: seq<int>)
    ensures StrictlyIncreasing(r) && AllIn(r, |s|)
  {
    Msptd.Detect(Msptd.NanToNum(AsSamples(s)), 499).peaks
  }

  /** The peaks of `AMPDDetector.detect` with a given detrending and noise draw. */
  function AmpdPeaks(detrend: Detrend, draw: Ampd.Draw, s: seq<real>): (r: seq<int>)
    ensures StrictlyIncreasing(r) && AllIn(r, |s|)
  {
    if |s| < 3 then [] else Ampd.PeakDetection(detrend(s), draw).peaks
  }

  /** Both detectors are peak finders; the detector a kind selects. */
  function Finder(kind: DetectorKind, detrend: Detrend, draw: Ampd.Draw): PeakFinder
  {
    match kind
    case AmpdDetector => (s: seq<real>) => AmpdPeaks(detrend, draw, s)
    case MsptdDetector => (s: seq<real>) => MsptdPeaks(s)
  }

  /** A differently-cased name is rejected. */
  lemma CaseSensitive()
    ensures Create("AMPD") == Err(ValueError) && Create("MSPTD") == Err(ValueError)
  {
  }
}
