/** The older module-level copy of MSPTD in `beat_detector_MSPTD.py`. It
    differs from `Msptd.BeatDetectMsptd` in its preprocessing: NaN entries of
    the caller's array are overwritten in place with the NaN-ignoring mean,
    ±inf is kept, and `max_interval` defaults to the signal length. */
module MsptdLegacy {
  import opened Wrappers
  import opened Seqs
  import opened Msptd

  /** The finite values, in order. */
  function Finites(s: seq<Sample>): (r: seq<real>)
    ensures |r| <= |s|
  {
    if s == [] then []
    else Finites(s[..|s| - 1]) + (if s[|s| - 1].Finite? then [s[|s| - 1].v] else [])
  }

  predicate HasPosInf(s: seq<Sample>) { exists i :: 0 <= i < |s| && s[i] == PosInf }
  predicate HasNegInf(s: seq<Sample>) { exists i :: 0 <= i < |s| && s[i] == NegInf }

  /** `np.nanmean`: NaN entries are ignored; an infinity dominates, opposite
      infinities give NaN, and no values at all give NaN. */
  function NanMean(s: seq<Sample>): Sample
  {
    if HasPosInf(s) && HasNegInf(s) then NaN
    else if HasPosInf(s) then PosInf
    else if HasNegInf(s) then NegInf
    else if Finites(s) == [] then NaN
    else Finite(Sum(Finites(s)) / (|Finites(s)| as real))
  }

  /** `data[np.isnan(data)] = mean_val`, element by element. */
  function Filled(s: seq<Sample>, fill: Sample): (r: seq<Sample>)
    ensures |r| == |s|
    ensures forall i :: 0 <= i < |s| ==> r[i] == (if s[i].NaN? then fill else s[i])
  {
    seq(|s|, i requires 0 <= i < |s| => if s[i].NaN? then fill else s[i])
  }

  predicate AllFinite(s: seq<Sample>)
  {
    forall i :: 0 <= i < |s| ==> s[i].Finite?
  }

  /** The NaN fill, in place on the caller's array. */
  method FillNaN(data: array<Sample>)
    modifies data
    ensures data[..] == Filled(old(data[..]), NanMean(old(data[..])))
  {
    var fill := NanMean(data[..]);
    ghost var before := data[..];
    var i := 0;
    while i < data.Length
      invariant 0 <= i <= data.Length
      invariant forall j :: 0 <= j < i ==> data[j] == (if before[j].NaN? then fill else before[j])
      invariant forall j :: i <= j < data.Length ==> data[j] == before[j]
    {
      if data[i].NaN? {
        data[i] := fill;
      }
      i := i + 1;
    }
  }

  /** The values the scalogram loops compare, up to a common shift. When every
      filled sample is finite they are the samples themselves (the mean is
      subtracted afterwards, which `Msptd.DetectShift` shows changes nothing).
      Otherwise `np.mean` is ±inf or NaN, every detrended sample becomes ±inf
      or NaN with one common infinity, and every strict comparison between
      two of them is false: a constant signal has the same flags. */
  function Comparable(filled: seq<Sample>): (x: seq<real>)
    ensures |x| == |filled|
  {
    if AllFinite(filled) then NanToNum(filled) else seq(|filled|, i => 0.0)
  }

  /** `beat_detect_msptd` of the older copy. The fill happens before the
      scalogram allocation, so it also happens when L <= 0 makes that
      allocation or the argmax over no columns raise. */
  method BeatDetectMsptdLegacy(data: array<Sample>, maxInterval: Option<int>)
    returns (r: Result<Detection>, mx: array2<bool>, mn: array2<bool>)
    modifies data
    ensures data[..] == Filled(old(data[..]), NanMean(old(data[..])))
    ensures ScaleDepth(maxInterval, data.Length) <= 0 ==> r == Err(ValueError)
    ensures ScaleDepth(maxInterval, data.Length) > 0 ==>
      && r == Ok(Detect(Comparable(data[..]), ScaleDepth(maxInterval, data.Length)))
      && mx.Length0 == data.Length && mx.Length1 == ScaleDepth(maxInterval, data.Length)
      && mn.Length0 == data.Length && mn.Length1 == ScaleDepth(maxInterval, data.Length)
      && (forall p, s :: 0 <= p < data.Length && 0 <= s < mx.Length1 ==>
            mx[p, s] == Flag(Comparable(data[..]), Max, p, s + 1)
            && mn[p, s] == Flag(Comparable(data[..]), Min, p, s + 1))
  {
    var L := ScaleDepth(maxInterval, data.Length);
    FillNaN(data);
    if L <= 0 {
      mx := new bool[0, 0];
      mn := new bool[0, 0];
      return Err(ValueError), mx, mn;
    }
    var x := Comparable(data[..]);
    var y := Minus(x, Mean(x));
    mx, mn := BuildScalograms(y, L);
    r := Ok(Detect(y, L));
    DetectShift(x, Mean(x), L);
    forall p, s | 0 <= p < data.Length && 0 <= s < L
      ensures mx[p, s] == Flag(x, Max, p, s + 1) && mn[p, s] == Flag(x, Min, p, s + 1)
    {
      FlagShift(x, Mean(x), Max, p, s + 1);
      FlagShift(x, Mean(x), Min, p, s + 1);
    }
  }

  // ---------------------------------------------------------------------------
  // Properties

  /** The fill leaves every non-NaN entry alone, and afterwards no NaN is left
      unless the NaN-ignoring mean is itself NaN. */
  lemma FillKeepsOthers(s: seq<Sample>)
    ensures forall i :: 0 <= i < |s| && !s[i].NaN? ==> Filled(s, NanMean(s))[i] == s[i]
    ensures !NanMean(s).NaN? ==> forall i :: 0 <= i < |s| ==> !Filled(s, NanMean(s))[i].NaN?
  {
  }

  lemma {:induction false} FinitesOfAllFinite(s: seq<Sample>)
    requires AllFinite(s)
    ensures Finites(s) == NanToNum(s)
  {
    if s != [] {
      FinitesOfAllFinite(s[..|s| - 1]);
      assert NanToNum(s) == NanToNum(s[..|s| - 1]) + [s[|s| - 1].v];
    }
  }

  /** With at least one finite sample and no infinity, every NaN becomes that
      mean and the whole signal is finite afterwards. */
  lemma FillFinite(s: seq<Sample>)
    requires !HasPosInf(s) && !HasNegInf(s)
    requires exists i :: 0 <= i < |s| && s[i].Finite?
    ensures AllFinite(Filled(s, NanMean(s)))
  {
    var i :| 0 <= i < |s| && s[i].Finite?;
    FiniteMember(s, i);
  }

  lemma {:induction false} FiniteMember(s: seq<Sample>, i: int)
    requires 0 <= i < |s| && s[i].Finite?
    ensures Finites(s) != []
  {
    if i < |s| - 1 {
      FiniteMember(s[..|s| - 1], i);
    }
  }

  /** On a signal with no NaN and no infinity the two copies agree. */
  lemma LegacyAgrees(s: seq<Sample>, L: nat)
    requires L > 0 && AllFinite(s)
    ensures Detect(Comparable(Filled(s, NanMean(s))), L) == Detect(NanToNum(s), L)
  {
    assert Filled(s, NanMean(s)) == s;
  }

  /** An all-NaN signal, or one holding both infinities, gives no peaks and no troughs. */
  lemma NonFiniteMeanSignal(s: seq<Sample>, L: nat)
    requires L > 0 && NanMean(s).NaN?
    requires exists i :: 0 <= i < |s| && !s[i].Finite?
    ensures Detect(Comparable(Filled(s, NanMean(s))), L).peaks == []
    ensures Detect(Comparable(Filled(s, NanMean(s))), L).troughs == []
  {
    var i :| 0 <= i < |s| && !s[i].Finite?;
    var f := Filled(s, NanMean(s));
    assert !f[i].Finite?;
    ConstantSignal(Comparable(f), L);
  }
}
