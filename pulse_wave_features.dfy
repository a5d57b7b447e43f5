/** Beat-level fiducial points of a PPG pulse wave: zero crossings, the
    systolic peak and beat duration on the signal, ms and the systole and
    diastole crossings on the first derivative, and the a to f waves on
    the second derivative, each searched in a window set by earlier ones. */
module PulseWaveFeatures {
  import opened Wrappers
  import opened Seqs

  /** One row of a beat, in table order: the table's row label, the time,
      the filtered signal and its first and second derivatives. */
  datatype BeatRow = BeatRow(index: int, timestampMs: int, filteredValue: real, d1: Option<real>, d2: Option<real>)

  function Timestamps(beat: seq<BeatRow>): (ts: seq<int>)
    ensures |ts| == |beat|
  {
    seq(|beat|, i requires 0 <= i < |beat| => beat[i].timestampMs)
  }

  function FirstDerivative(beat: seq<BeatRow>): (s: seq<Option<real>>)
    ensures |s| == |beat|
  {
    seq(|beat|, i requires 0 <= i < |beat| => beat[i].d1)
  }

  function SecondDerivative(beat: seq<BeatRow>): (s: seq<Option<real>>)
    ensures |s| == |beat|
  {
    seq(|beat|, i requires 0 <= i < |beat| => beat[i].d2)
  }

  // ---------------------------------------------------------------------------
  // Zero crossings

  /** `signal > 0`: a missing value is not positive. */
  predicate Positive(v: Option<real>)
  {
    v.Some? && v.value > 0.0
  }

  /** Whether the step from i to i + 1 is a crossing of the given kind. */
  predicate Crosses(s: seq<Option<real>>, kind: string, i: int)
    requires 0 <= i < |s| - 1
  {
    (kind in {"pos2neg", "both"} && Positive(s[i]) && !Positive(s[i + 1]))
    || (kind in {"neg2pos", "both"} && !Positive(s[i]) && Positive(s[i + 1]))
  }

  /** The ascending crossing positions below m. */
  function CrossingIdxs(s: seq<Option<real>>, kind: string, m: nat): (r: seq<int>)
    requires m <= |s| - 1
    ensures StrictlyIncreasing(r) && AllIn(r, m)
    ensures forall i :: i in r <==> 0 <= i < m && Crosses(s, kind, i)
  {
    if m == 0 then []
    else CrossingIdxs(s, kind, m - 1) + (if Crosses(s, kind, m - 1) then [m - 1] else [])
  }

  datatype Crossings = Crossings(count: nat, kind: string, times: seq<int>, idxs: seq<int>)

  /** `ZeroCrossingAnalyser.compute_zero_crossings`: the positions i whose
      step to i + 1 crosses zero in the requested direction, with their
      times and their number; any other kind is a ValueError. */
  function ZeroCrossings(s: seq<Option<real>>, timestamps: seq<int>, kind: string): (r: Result<Crossings>)
    requires |timestamps| == |s|
    ensures r.Ok? <==> kind in {"pos2neg", "neg2pos", "both"}
    ensures r.Err? ==> r.error == ValueError
    ensures r.Ok? ==> r.value.kind == kind && r.value.count == |r.value.idxs| == |r.value.times|
    ensures r.Ok? ==> StrictlyIncreasing(r.value.idxs) && AllIn(r.value.idxs, |s| - 1)
    ensures r.Ok? ==> forall i :: i in r.value.idxs <==> 0 <= i < |s| - 1 && Crosses(s, kind, i)
    ensures r.Ok? ==> forall j :: 0 <= j < |r.value.idxs| ==> r.value.times[j] == timestamps[r.value.idxs[j]]
  {
    if kind !in {"pos2neg", "neg2pos", "both"} then Err(ValueError)
    else
      var idxs := if |s| == 0 then [] else CrossingIdxs(s, kind, |s| - 1);
      Ok(Crossings(|idxs|, kind, seq(|idxs|, j requires 0 <= j < |idxs| => timestamps[idxs[j]]), idxs))
  }

  /** "both" finds exactly the union of the two directions, and no step
      crosses both ways. */
  lemma BothIsUnion(s: seq<Option<real>>, timestamps: seq<int>, i: int)
    requires |timestamps| == |s|
    ensures i in ZeroCrossings(s, timestamps, "both").value.idxs <==>
      i in ZeroCrossings(s, timestamps, "pos2neg").value.idxs || i in ZeroCrossings(s, timestamps, "neg2pos").value.idxs
    ensures !(i in ZeroCrossings(s, timestamps, "pos2neg").value.idxs && i in ZeroCrossings(s, timestamps, "neg2pos").value.idxs)
  {
  }

  /** Between two successive falling crossings there is a rising one. */
  lemma {:induction false} FallsAlternate(s: seq<Option<real>>, i: int, j: int)
    requires 0 <= i < j < |s| - 1
    requires Crosses(s, "pos2neg", i) && Crosses(s, "pos2neg", j)
    ensures exists k :: i < k < j && Crosses(s, "neg2pos", k)
  {
    RiseBefore(s, i + 1, j);
  }

  /** A non-positive value followed, later, by a positive one is a rise. */
  lemma {:induction false} RiseBefore(s: seq<Option<real>>, lo: int, hi: int)
    requires 0 <= lo < hi < |s|
    requires !Positive(s[lo]) && Positive(s[hi])
    ensures exists k :: lo <= k < hi && Crosses(s, "neg2pos", k)
    decreases hi - lo
  {
    if Positive(s[lo + 1]) {
      assert Crosses(s, "neg2pos", lo);
    } else {
      RiseBefore(s, lo + 1, hi);
    }
  }

  // ---------------------------------------------------------------------------
  // Peak finding

  /** What `scipy.signal.find_peaks` is taken to return: ascending interior
      positions of present values. */
  predicate Located(s: seq<Option<real>>, idx: seq<int>)
  {
    StrictlyIncreasing(idx) && forall j :: 0 <= j < |idx| ==> 0 < idx[j] < |s| - 1 && s[idx[j]].Some?
  }

  /** `local_maxima`: `find_peaks` with its prominence and distance, which is
      not part of this model beyond `Located`. */
  type Locator = f: seq<Option<real>> -> seq<int> | forall s :: Located(s, f(s))
    witness (s: seq<Option<real>>) => []

  function Negate(s: seq<Option<real>>): (r: seq<Option<real>>)
    ensures |r| == |s| && forall i :: 0 <= i < |s| ==> (r[i].Some? <==> s[i].Some?)
  {
    seq(|s|, i requires 0 <= i < |s| => if s[i].Some? then Some(-s[i].value) else None)
  }

  /** `local_minima`: the maxima of the negated signal. */
  function Minima(maxima: Locator, s: seq<Option<real>>): (r: seq<int>)
    ensures Located(s, r)
  {
    maxima(Negate(s))
  }

  /** The values at located positions. */
  function ValuesAt(s: seq<Option<real>>, idx: seq<int>): (v: seq<real>)
    requires Located(s, idx)
    ensures |v| == |idx| && forall j :: 0 <= j < |idx| ==> s[idx[j]] == Some(v[j])
  {
    seq(|idx|, j requires 0 <= j < |idx| => s[idx[j]].value)
  }

  // ---------------------------------------------------------------------------
  // Features of the signal (y)

  datatype Systole = Systole(idxLocal: nat, idxGlobal: int, time: int)
  datatype YFeatures = YFeatures(systole: Systole, beatDuration: Option<int>)

  /** `compute_features_y`: the first maximum of the filtered signal, its row
      label and time, and the beat duration when there is more than one
      sample. */
  function FeaturesY(beat: seq<BeatRow>): (r: YFeatures)
    requires |beat| > 0
    ensures r.systole.idxLocal < |beat|
    ensures forall i :: 0 <= i < |beat| ==> beat[i].filteredValue <= beat[r.systole.idxLocal].filteredValue
    ensures forall i :: 0 <= i < r.systole.idxLocal ==> beat[i].filteredValue < beat[r.systole.idxLocal].filteredValue
    ensures r.systole.idxGlobal == beat[r.systole.idxLocal].index && r.systole.time == beat[r.systole.idxLocal].timestampMs
    ensures r.beatDuration.Some? <==> |beat| > 1
    ensures r.beatDuration.Some? ==> r.beatDuration.value == beat[|beat| - 1].timestampMs - beat[0].timestampMs
  {
    var values := seq(|beat|, i requires 0 <= i < |beat| => beat[i].filteredValue);
    var k := ArgMax(values);
    assert forall i :: 0 <= i < |beat| ==> values[i] == beat[i].filteredValue;
    YFeatures(Systole(k, beat[k].index, beat[k].timestampMs),
              if |beat| > 1 then Some(beat[|beat| - 1].timestampMs - beat[0].timestampMs) else None)
  }

  // ---------------------------------------------------------------------------
  // Features of the first derivative (dydx)

  function MissingCount(s: seq<Option<real>>): (c: nat)
    ensures c <= |s|
    ensures c < |s| ==> exists i :: 0 <= i < |s| && s[i].Some?
  {
    if s == [] then 0 else MissingCount(s[..|s| - 1]) + (if s[|s| - 1].None? then 1 else 0)
  }

  /** `np.nanargmax`: the first position of the largest present value. */
  function NanArgMax(s: seq<Option<real>>): (k: nat)
    requires exists i :: 0 <= i < |s| && s[i].Some?
    ensures k < |s| && s[k].Some?
    ensures forall i :: 0 <= i < |s| && s[i].Some? ==> s[i].value <= s[k].value
    ensures forall i :: 0 <= i < k && s[i].Some? ==> s[i].value < s[k].value
  {
    var last := |s| - 1;
    if !exists i :: 0 <= i < last && s[i].Some? then last
    else
      var k := NanArgMax(s[..last]);
      if s[last].Some? && s[last].value > s[k].value then last else k
  }

  /** The entries greater than `bound`, in order. */
  function After(idxs: seq<int>, bound: int): (r: seq<int>)
    ensures forall x :: x in r <==> x in idxs && x > bound
    ensures StrictlyIncreasing(idxs) ==> StrictlyIncreasing(r)
  {
    if idxs == [] then []
    else
      var rest := After(idxs[..|idxs| - 1], bound);
      var x := idxs[|idxs| - 1];
      assert forall y :: y in idxs <==> y in idxs[..|idxs| - 1] || y == x;
      assert StrictlyIncreasing(idxs) ==> StrictlyIncreasing(idxs[..|idxs| - 1]);
      assert StrictlyIncreasing(idxs) ==> forall i :: 0 <= i < |rest| ==> rest[i] in idxs[..|idxs| - 1] && rest[i] < x;
      rest + (if x > bound then [x] else [])
  }

  datatype Point = Absent | Point(idx: nat, time: int)

  datatype DydxFeatures =
    | DydxNotDetected
    | Dydx(zeroCrossings: Crossings, ms: nat, systole: Point, diastole: Point, deltaT: Option<int>)

  /** `compute_features_dydx`: nothing when the beat has fewer than two
      samples or more than half of its first derivative is missing;
      otherwise ms is the first maximum of the derivative, systole and
      diastole are the first and second falling crossings after ms, and
      their time difference is given when both exist. */
  function FeaturesDydx(beat: seq<BeatRow>): (r: DydxFeatures)
  {
    var d1 := FirstDerivative(beat);
    if |beat| < 2 || 2 * MissingCount(d1) > |beat| then DydxNotDetected
    else
      var ts := Timestamps(beat);
      var ms := NanArgMax(d1);
      var zc := ZeroCrossings(d1, ts, "pos2neg").value;
      var after := After(zc.idxs, ms);
      assert |after| > 0 ==> after[0] in zc.idxs;
      assert |after| > 1 ==> after[1] in zc.idxs;
      Dydx(zc, ms,
           if |after| > 0 then Point(after[0], ts[after[0]]) else Absent,
           if |after| > 1 then Point(after[1], ts[after[1]]) else Absent,
           if |after| > 1 then Some(ts[after[1]] - ts[after[0]]) else None)
  }

  /** Detection and ms: nothing is detected exactly for a single sample or
      a mostly missing first derivative; otherwise ms is the first largest
      first-derivative value. */
  lemma DydxMs(beat: seq<BeatRow>)
    ensures FeaturesDydx(beat).DydxNotDetected? <==> |beat| < 2 || 2 * MissingCount(FirstDerivative(beat)) > |beat|
    ensures FeaturesDydx(beat).Dydx? ==>
      var f := FeaturesDydx(beat);
      var d1 := FirstDerivative(beat);
      && f.ms < |beat| && d1[f.ms].Some?
      && (forall i :: 0 <= i < |beat| && d1[i].Some? ==> d1[i].value <= d1[f.ms].value)
      && (forall i :: 0 <= i < f.ms && d1[i].Some? ==> d1[i].value < d1[f.ms].value)
  {
  }

  /** The systole is the first falling crossing after ms; without one
      there is no falling crossing after ms. */
  lemma DydxSystole(beat: seq<BeatRow>)
    requires FeaturesDydx(beat).Dydx?
    ensures var f := FeaturesDydx(beat);
      var d1 := FirstDerivative(beat);
      && (f.systole.Point? ==>
            f.ms < f.systole.idx < |beat| - 1 && Crosses(d1, "pos2neg", f.systole.idx)
            && f.systole.time == beat[f.systole.idx].timestampMs
            && forall i :: f.ms < i < f.systole.idx ==> !Crosses(d1, "pos2neg", i))
      && (f.systole.Absent? ==> forall i :: f.ms < i < |beat| - 1 ==> !Crosses(d1, "pos2neg", i))
  {
    var d1 := FirstDerivative(beat);
    var f := FeaturesDydx(beat);
    var ts := Timestamps(beat);
    var zc := ZeroCrossings(d1, ts, "pos2neg").value;
    var after := After(zc.idxs, f.ms);
    if |after| > 0 {
      assert after[0] in after;
      forall i | f.ms < i < after[0] && i < |beat| - 1 ensures !Crosses(d1, "pos2neg", i) {
        assert Crosses(d1, "pos2neg", i) ==> i in after;
      }
    } else {
      forall i | f.ms < i < |beat| - 1 ensures !Crosses(d1, "pos2neg", i) {
        assert Crosses(d1, "pos2neg", i) ==> i in after;
      }
    }
  }

  /** Two consecutive falling crossings past a bound have no falling
      crossing between them. */
  lemma {:induction false} NoCrossingBetween(s: seq<Option<real>>, timestamps: seq<int>, bound: int)
    requires |timestamps| == |s|
    ensures ZeroCrossings(s, timestamps, "pos2neg").Ok?
    ensures var after := After(ZeroCrossings(s, timestamps, "pos2neg").value.idxs, bound);
      |after| > 1 ==>
        && 0 <= after[0] < after[1] < |s| - 1
        && forall i :: after[0] < i < after[1] ==> !Crosses(s, "pos2neg", i)
  {
    var zc := ZeroCrossings(s, timestamps, "pos2neg").value;
    var after := After(zc.idxs, bound);
    if |after| > 1 {
      assert after[0] in after && after[0] in zc.idxs && after[1] in zc.idxs;
      forall i | after[0] < i < after[1] ensures !Crosses(s, "pos2neg", i) {
        forall k | 0 <= k < |after| ensures after[k] != i {
          if k > 1 {
            assert after[1] < after[k];
          }
        }
        assert i !in after && i > bound;
        assert i !in zc.idxs;
      }
    }
  }

  /** When only one falling crossing lies beyond `bound`, none follows it. */
  lemma {:induction false} NoCrossingAfter(s: seq<Option<real>>, timestamps: seq<int>, bound: int)
    requires |timestamps| == |s|
    ensures ZeroCrossings(s, timestamps, "pos2neg").Ok?
    ensures var after := After(ZeroCrossings(s, timestamps, "pos2neg").value.idxs, bound);
      |after| == 1 ==>
        && 0 <= after[0] < |s| - 1
        && forall i :: after[0] < i < |s| - 1 ==> !Crosses(s, "pos2neg", i)
  {
    var zc := ZeroCrossings(s, timestamps, "pos2neg").value;
    var after := After(zc.idxs, bound);
    if |after| == 1 {
      assert after[0] in after && after[0] in zc.idxs;
      forall i | after[0] < i < |s| - 1 ensures !Crosses(s, "pos2neg", i) {
        assert i !in after && i > bound;
        assert i !in zc.idxs;
      }
    }
  }

  /** The diastole is the next falling crossing after the systole, so a
      diastole implies a systole before it with no falling crossing
      between the two; it is absent only when no falling crossing follows
      the systole (or there is no systole). */
  lemma DydxDiastole(beat: seq<BeatRow>)
    requires FeaturesDydx(beat).Dydx?
    ensures var f := FeaturesDydx(beat);
      var d1 := FirstDerivative(beat);
      f.diastole.Point? ==>
        && f.systole.Point? && f.systole.idx < f.diastole.idx < |beat| - 1
        && Crosses(d1, "pos2neg", f.diastole.idx) && f.diastole.time == beat[f.diastole.idx].timestampMs
        && forall i :: f.systole.idx < i < f.diastole.idx ==> !Crosses(d1, "pos2neg", i)
    ensures var f := FeaturesDydx(beat);
      var d1 := FirstDerivative(beat);
      f.diastole.Absent? ==>
        f.systole.Absent? || forall i :: f.systole.idx < i < |beat| - 1 ==> !Crosses(d1, "pos2neg", i)
  {
    var d1 := FirstDerivative(beat);
    var f := FeaturesDydx(beat);
    var ts := Timestamps(beat);
    var zc := ZeroCrossings(d1, ts, "pos2neg").value;
    var after := After(zc.idxs, f.ms);
    NoCrossingBetween(d1, ts, f.ms);
    NoCrossingAfter(d1, ts, f.ms);
    if |after| > 1 {
      assert after[0] in after && after[1] in after;
      assert after[1] in zc.idxs && after[1] < |d1| - 1;
      assert f.systole == Point(after[0], ts[after[0]]);
      assert f.diastole == Point(after[1], ts[after[1]]);
    }
    if |after| == 1 {
      assert f.systole == Point(after[0], ts[after[0]]);
    }
  }

  /** The systole-to-diastole time exists exactly when the diastole does,
      and is the difference of their times. */
  lemma DydxDeltaT(beat: seq<BeatRow>)
    requires FeaturesDydx(beat).Dydx?
    ensures var f := FeaturesDydx(beat);
      && (f.deltaT.Some? <==> f.diastole.Point?)
      && (f.deltaT.Some? ==> f.systole.Point? && f.deltaT.value == f.diastole.time - f.systole.time)
  {
  }

  /** Over half the first derivative missing, or a single sample, gives no
      ms; a beat with no first derivative at all is one of these. */
  lemma NoDerivativeNoMs(beat: seq<BeatRow>)
    requires forall i :: 0 <= i < |beat| ==> beat[i].d1.None?
    ensures FeaturesDydx(beat).DydxNotDetected?
  {
    if |beat| >= 2 {
      assert MissingCount(FirstDerivative(beat)) == |beat|;
    }
  }

  // ---------------------------------------------------------------------------
  // Features of the second derivative (d2ydx2)

  datatype Wave = NoWave | Wave(idx: nat, value: real, time: int)

  /** A detected wave lies within the beat. */
  predicate InBeat(w: Wave, n: int)
  {
    w.Wave? ==> w.idx < n
  }

  /** A detected wave sits on a present second-derivative value and carries
      that value and the row's time. */
  predicate OnSignal(w: Wave, s: seq<Option<real>>, ts: seq<int>)
    requires |ts| == |s|
  {
    w.Wave? ==> w.idx < |s| && s[w.idx] == Some(w.value) && w.time == ts[w.idx]
  }

  /** `peaks[np.argmax(region[peaks])]`: the first located position with the
      highest value. */
  function Highest(region: seq<Option<real>>, peaks: seq<int>): (p: int)
    requires Located(region, peaks) && |peaks| > 0
    ensures p in peaks && 0 < p < |region| - 1 && region[p].Some?
    ensures forall q :: q in peaks ==> region[q].value <= region[p].value
    ensures exists j :: 0 <= j < |peaks| && peaks[j] == p && forall i :: 0 <= i < j ==> region[peaks[i]].value < region[p].value
    ensures forall q :: q in peaks && q < p ==> region[q].value < region[p].value
  {
    var values := ValuesAt(region, peaks);
    var j := ArgMax(values);
    forall q | q in peaks && q < peaks[j] ensures region[q].value < values[j] {
      var i :| 0 <= i < |peaks| && peaks[i] == q;
      assert values[i] < values[j];
    }
    assert forall q :: q in peaks ==> region[q].value <= values[j] by {
      forall q | q in peaks ensures region[q].value <= values[j] {
        var i :| 0 <= i < |peaks| && peaks[i] == q;
        assert values[i] <= values[j];
      }
    }
    peaks[j]
  }

  /** `minima[np.argmin(region[minima])]`: the first located position with
      the lowest value. */
  function Lowest(region: seq<Option<real>>, minima: seq<int>): (p: int)
    requires Located(region, minima) && |minima| > 0
    ensures p in minima && 0 < p < |region| - 1 && region[p].Some?
    ensures forall q :: q in minima ==> region[p].value <= region[q].value
    ensures exists j :: 0 <= j < |minima| && minima[j] == p && forall i :: 0 <= i < j ==> region[p].value < region[minima[i]].value
    ensures forall q :: q in minima && q < p ==> region[p].value < region[q].value
  {
    var values := ValuesAt(region, minima);
    var j := ArgMin(values);
    forall q | q in minima && q < minima[j] ensures values[j] < region[q].value {
      var i :| 0 <= i < |minima| && minima[i] == q;
      assert values[j] < values[i];
    }
    assert forall q :: q in minima ==> values[j] <= region[q].value by {
      forall q | q in minima ensures values[j] <= region[q].value {
        var i :| 0 <= i < |minima| && minima[i] == q;
        assert values[j] <= values[i];
      }
    }
    minima[j]
  }

  /** The a wave: the highest local maximum before ms. */
  function AWave(s: seq<Option<real>>, ts: seq<int>, ms: nat, maxima: Locator): (w: Wave)
    requires |ts| == |s| && ms < |s|
    ensures OnSignal(w, s, ts)
    ensures w.Wave? ==> 0 < w.idx < ms && w.idx in maxima(s[..ms])
    ensures w.Wave? ==> forall p :: p in maxima(s[..ms]) ==> s[p].value <= w.value
    ensures w.Wave? ==> forall p :: p in maxima(s[..ms]) && p < w.idx ==> s[p].value < w.value
    ensures w.NoWave? ==> ms == 0 || maxima(s[..ms]) == []
  {
    if ms > 0 then
      var region := s[..ms];
      var peaks := maxima(region);
      if |peaks| > 0 then
        var a := Highest(region, peaks);
        Wave(a, region[a].value, ts[a])
      else NoWave
    else NoWave
  }

  /** The b wave: the first local minimum after a. */
  function BWave(s: seq<Option<real>>, ts: seq<int>, a: Wave, maxima: Locator): (w: Wave)
    requires |ts| == |s| && InBeat(a, |s|)
    ensures OnSignal(w, s, ts)
    ensures w.Wave? ==> a.Wave? && a.idx < w.idx
    ensures w.Wave? ==> var m := Minima(maxima, s[a.idx + 1..]); |m| > 0 && w.idx == m[0] + a.idx + 1
    ensures w.NoWave? ==> a.NoWave? || a.idx == |s| - 1 || Minima(maxima, s[a.idx + 1..]) == []
  {
    if a.Wave? && a.idx < |s| - 1 then
      var minima := Minima(maxima, s[a.idx + 1..]);
      if |minima| > 0 then
        var i := minima[0] + a.idx + 1;
        Wave(i, s[i].value, ts[i])
      else NoWave
    else NoWave
  }

  /** The c wave: the highest local maximum in [b, e). */
  function CWave(s: seq<Option<real>>, ts: seq<int>, b: Wave, e: Wave, maxima: Locator): (w: Wave)
    requires |ts| == |s| && InBeat(b, |s|) && InBeat(e, |s|)
    ensures OnSignal(w, s, ts)
    ensures w.Wave? ==> b.Wave? && e.Wave? && b.idx < w.idx < e.idx
    ensures w.Wave? ==> var region := s[b.idx..e.idx];
      && w.idx - b.idx in maxima(region)
      && (forall p :: p in maxima(region) ==> region[p].Some? && region[p].value <= w.value)
      && (forall p :: p in maxima(region) && p < w.idx - b.idx ==> region[p].value < w.value)
    ensures w.NoWave? ==> b.NoWave? || e.NoWave? || b.idx >= e.idx || maxima(s[b.idx..e.idx]) == []
  {
    if b.Wave? && e.Wave? && b.idx < e.idx then
      var region := s[b.idx..e.idx];
      var peaks := maxima(region);
      if |peaks| > 0 then
        var j := Highest(region, peaks);
        var i := j + b.idx;
        assert s[i] == region[j];
        Wave(i, s[i].value, ts[i])
      else NoWave
    else NoWave
  }

  /** The d wave: the lowest local minimum in [c, e); with none it is not
      detected. */
  function DWave(s: seq<Option<real>>, ts: seq<int>, c: Wave, e: Wave, maxima: Locator): (w: Wave)
    requires |ts| == |s| && InBeat(c, |s|) && InBeat(e, |s|)
    ensures OnSignal(w, s, ts)
    ensures w.Wave? ==> c.Wave? && e.Wave? && c.idx < w.idx < e.idx
    ensures w.Wave? ==> var region := s[c.idx..e.idx];
      && w.idx - c.idx in Minima(maxima, region)
      && (forall p :: p in Minima(maxima, region) ==> region[p].Some? && w.value <= region[p].value)
      && (forall p :: p in Minima(maxima, region) && p < w.idx - c.idx ==> w.value < region[p].value)
    ensures w.NoWave? ==> c.NoWave? || e.NoWave? || c.idx >= e.idx || Minima(maxima, s[c.idx..e.idx]) == []
  {
    if c.Wave? && e.Wave? && c.idx < e.idx then
      var region := s[c.idx..e.idx];
      var minima := Minima(maxima, region);
      if |minima| > 0 then
        var j := Lowest(region, minima);
        var i := j + c.idx;
        assert s[i] == region[j];
        Wave(i, s[i].value, ts[i])
      else NoWave
    else NoWave
  }

  /** The f wave: the first local minimum after e. */
  function FWave(s: seq<Option<real>>, ts: seq<int>, e: Wave, maxima: Locator): (p: Point)
    requires |ts| == |s| && InBeat(e, |s|)
    ensures p.Point? ==> e.Wave? && e.idx < p.idx < |s| && s[p.idx].Some? && p.time == ts[p.idx]
    ensures p.Point? ==> var m := Minima(maxima, s[e.idx + 1..]); |m| > 0 && p.idx == m[0] + e.idx + 1
    ensures p.Absent? ==> e.NoWave? || e.idx == |s| - 1 || Minima(maxima, s[e.idx + 1..]) == []
  {
    if e.Wave? && e.idx < |s| - 1 then
      var minima := Minima(maxima, s[e.idx + 1..]);
      if |minima| > 0 then
        var i := minima[0] + e.idx + 1;
        Point(i, ts[i])
      else Absent
    else Absent
  }

  datatype D2Features =
    | D2NotDetected
    | D2(zeroCrossings: Crossings, a: Wave, b: Wave, c: Wave, d: Wave, e: Wave, f: Point)

  /** `FeatureExtractorD2ydx2.compute_features`: nothing without ms;
      otherwise the crossings of the second derivative in both directions
      and the a to f waves, each searched after or between the waves it
      depends on. The e wave is an input. */
  function FeaturesD2ydx2(beat: seq<BeatRow>, dydx: DydxFeatures, e: Wave, maxima: Locator): (r: D2Features)
    requires InBeat(e, |beat|)
    requires dydx.Dydx? ==> dydx.ms < |beat|
    ensures r.D2NotDetected? <==> dydx.DydxNotDetected?
  {
    if dydx.DydxNotDetected? then D2NotDetected
    else
      var s := SecondDerivative(beat);
      var ts := Timestamps(beat);
      var a := AWave(s, ts, dydx.ms, maxima);
      var b := BWave(s, ts, a, maxima);
      var c := CWave(s, ts, b, e, maxima);
      D2(ZeroCrossings(s, ts, "both").value, a, b, c, DWave(s, ts, c, e, maxima), e, FWave(s, ts, e, maxima))
  }

  /** An undetected wave leaves every wave that depends on it undetected,
      and the detected waves come in the order a < b < c < d < e < f, with
      a before ms. */
  lemma WaveOrder(beat: seq<BeatRow>, dydx: DydxFeatures, e: Wave, maxima: Locator)
    requires InBeat(e, |beat|)
    requires dydx.Dydx? ==> dydx.ms < |beat|
    ensures var r := FeaturesD2ydx2(beat, dydx, e, maxima);
      r.D2? ==>
        && (r.a.Wave? ==> r.a.idx < dydx.ms)
        && (r.b.Wave? ==> r.a.Wave? && r.a.idx < r.b.idx)
        && (r.c.Wave? ==> r.b.Wave? && r.e.Wave? && r.b.idx < r.c.idx < r.e.idx)
        && (r.d.Wave? ==> r.c.Wave? && r.e.Wave? && r.c.idx < r.d.idx < r.e.idx)
        && (r.f.Point? ==> r.e.Wave? && r.e.idx < r.f.idx)
        && (r.d.Wave? ==> r.a.idx < r.b.idx < r.c.idx < r.d.idx < r.e.idx)
  {
  }

  // ---------------------------------------------------------------------------
  // The per-beat table

  /** The b, c, d and e entries that `PulseWaveFeatures` fills with fixed
      values: index 1, value 1 and the time of the a wave. */
  datatype Stub = Stub(idx: int, value: real, time: Option<int>)

  datatype D2Summary = D2Summary(zeroCrossings: Crossings, a: Wave, b: Stub, c: Stub, d: Stub, e: Stub)

  /** `PulseWaveFeatures.compute_features_d2ydx2`: None without ms, else the
      crossings, the a wave and four stubs. */
  function SummaryD2ydx2(beat: seq<BeatRow>, dydx: DydxFeatures, maxima: Locator): (r: Option<D2Summary>)
    requires dydx.Dydx? ==> dydx.ms < |beat|
    ensures r.None? <==> dydx.DydxNotDetected?
    ensures r.Some? ==> r.value.a == AWave(SecondDerivative(beat), Timestamps(beat), dydx.ms, maxima)
    ensures r.Some? ==> var t := if r.value.a.Wave? then Some(r.value.a.time) else None;
      r.value.b == r.value.c == r.value.d == r.value.e == Stub(1, 1.0, t)
  {
    if dydx.DydxNotDetected? then None
    else
      var s := SecondDerivative(beat);
      var ts := Timestamps(beat);
      var a := AWave(s, ts, dydx.ms, maxima);
      var stub := Stub(1, 1.0, if a.Wave? then Some(a.time) else None);
      Some(D2Summary(ZeroCrossings(s, ts, "both").value, a, stub, stub, stub, stub))
  }

  /** One group of the table: a beat and its `global_beat_index`. */
  datatype Beat = Beat(key: real, rows: seq<BeatRow>)

  datatype BeatFeatures = BeatFeatures(globalBeatIndex: real, y: YFeatures, dydx: DydxFeatures, d2ydx2: D2Summary)

  /** The features of one beat, or None when the update of its row fails
      because the second-derivative features are None. */
  function FeaturesOf(beat: Beat, maxima: Locator): (r: Option<BeatFeatures>)
    requires |beat.rows| > 0
    ensures r.None? <==> FeaturesDydx(beat.rows).DydxNotDetected?
    ensures r.Some? ==> r.value.globalBeatIndex == beat.key && r.value.dydx == FeaturesDydx(beat.rows)
    ensures r.Some? ==>
      && r.value.y == FeaturesY(beat.rows)
      && Some(r.value.d2ydx2) == SummaryD2ydx2(beat.rows, FeaturesDydx(beat.rows), maxima)
  {
    var dydx := FeaturesDydx(beat.rows);
    DydxMs(beat.rows);
    var d2 := SummaryD2ydx2(beat.rows, dydx, maxima);
    if d2.None? then None else Some(BeatFeatures(beat.key, FeaturesY(beat.rows), dydx, d2.value))
  }

  predicate NonEmptyBeats(beats: seq<Beat>)
  {
    forall i :: 0 <= i < |beats| ==> |beats[i].rows| > 0
  }

  /** The rows of the beat table, in beat order, skipping dropped beats. */
  function Table(beats: seq<Beat>, maxima: Locator): (t: seq<BeatFeatures>)
    requires NonEmptyBeats(beats)
    ensures |t| <= |beats|
  {
    if beats == [] then []
    else
      var last := beats[|beats| - 1];
      var f := FeaturesOf(last, maxima);
      Table(beats[..|beats| - 1], maxima) + (if f.Some? then [f.value] else [])
  }

  /** `create_beats_features`: one row per beat, in `global_beat_index`
      order, for every beat whose ms exists. */
  method CreateBeatsFeatures(beats: seq<Beat>, maxima: Locator) returns (table: seq<BeatFeatures>)
    requires NonEmptyBeats(beats)
    ensures table == Table(beats, maxima)
  {
    table := [];
    var i := 0;
    while i < |beats|
      invariant 0 <= i <= |beats|
      invariant table == Table(beats[..i], maxima)
    {
      var f := FeaturesOf(beats[i], maxima);
      assert beats[..i + 1][..i] == beats[..i];
      if f.Some? {
        table := table + [f.value];
      }
      i := i + 1;
    }
    assert beats[..|beats|] == beats;
  }

  function KeysOf(table: seq<BeatFeatures>): seq<real>
  {
    if table == [] then [] else KeysOf(table[..|table| - 1]) + [table[|table| - 1].globalBeatIndex]
  }

  /** The keys of the beats whose ms exists, in beat order. */
  function MsKeys(beats: seq<Beat>): seq<real>
  {
    if beats == [] then []
    else MsKeys(beats[..|beats| - 1])
         + (if FeaturesDydx(beats[|beats| - 1].rows).Dydx? then [beats[|beats| - 1].key] else [])
  }

  /** The table holds one row per beat whose ms exists, in beat order, and
      none for the others. */
  lemma {:induction false} TableKeys(beats: seq<Beat>, maxima: Locator)
    requires NonEmptyBeats(beats)
    ensures KeysOf(Table(beats, maxima)) == MsKeys(beats)
  {
    if beats != [] {
      var init := beats[..|beats| - 1];
      TableKeys(init, maxima);
      var t := Table(init, maxima);
      var f := FeaturesOf(beats[|beats| - 1], maxima);
      if f.Some? {
        assert (t + [f.value])[..|t|] == t;
      } else {
        assert t + [] == t;
      }
    }
  }

  /** A beat without any first derivative is dropped from the table. */
  lemma DroppedWithoutDerivative(beat: Beat, maxima: Locator)
    requires |beat.rows| > 0
    requires forall i :: 0 <= i < |beat.rows| ==> beat.rows[i].d1.None?
    ensures FeaturesOf(beat, maxima).None?
  {
    NoDerivativeNoMs(beat.rows);
  }
}
