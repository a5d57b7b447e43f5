/** `HeartBeatDetector` of `beat_detectors/beat_detection.py`: troughs of
    each compliance section are found by running a peak detector on the
    negated signal; consecutive troughs delimit beats, which are labelled
    with per-section ids, and each beat's first maximum is flagged. */
module BeatDetection {
  import opened Wrappers
  import opened Seqs
  import opened DetectorFactory

  /** A row of a preprocessed section: the columns the detector reads. */
  datatype SectionRow = SectionRow(timestampMs: int, filteredValue: real)

  /** A row after `_annotate_heart_beats`, with its four new columns. */
  datatype AnnotatedRow = AnnotatedRow(row: SectionRow, sectionId: int, beat: int, isBeatPeak: bool, isBeatTrough: bool)

  function Values(section: seq<SectionRow>): (v: seq<real>)
    ensures |v| == |section|
    ensures forall i :: 0 <= i < |section| ==> v[i] == section[i].filteredValue
  {
    seq(|section|, i requires 0 <= i < |section| => section[i].filteredValue)
  }

  /** `section.filtered_value * -1`. */
  function Negated(v: seq<real>): (r: seq<real>)
    ensures |r| == |v|
    ensures forall i :: 0 <= i < |v| ==> r[i] == -v[i]
  {
    seq(|v|, i requires 0 <= i < |v| => -v[i])
  }

  /** The last of the first m troughs at or before p, or -1. */
  function Owner(t: seq<int>, m: nat, p: int): (o: int)
    requires m <= |t|
    ensures -1 <= o < m
    ensures o >= 0 ==> t[o] <= p
    ensures forall i :: o < i < m ==> t[i] > p
  {
    if m == 0 then -1 else if t[m - 1] <= p then m - 1 else Owner(t, m - 1, p)
  }

  /** The `beat` column after the first j iterations of the trough-pair loop:
      `loc[t_i:t_{i+1}]` is inclusive, so a later beat overwrites the trough
      it shares with the previous one. */
  function LabelAfter(t: seq<int>, j: nat, p: int): int
    requires j < |t|
  {
    if 1 <= j && t[0] <= p <= t[j] then Owner(t, j, p) else -1
  }

  /** The final `beat` label of position p. */
  function Label(t: seq<int>, p: int): int
  {
    if |t| >= 2 then LabelAfter(t, |t| - 1, p) else -1
  }

  predicate ValidTroughs(t: seq<int>, n: int)
  {
    StrictlyIncreasing(t) && AllIn(t, n)
  }

  /** `section.iloc[t_j:t_{j+1}]['filtered_value'].idxmax()`: the first
      maximum of beat j, which ends before the next trough. */
  function BeatPeak(v: seq<real>, t: seq<int>, j: int): (p: int)
    requires ValidTroughs(t, |v|) && 0 <= j < |t| - 1
    ensures t[j] <= p < t[j + 1]
    ensures forall q :: t[j] <= q < t[j + 1] ==> v[q] <= v[p]
    ensures forall q :: t[j] <= q < p ==> v[q] < v[p]
  {
    var k := ArgMax(v[t[j]..t[j + 1]]);
    assert forall q :: t[j] <= q < t[j + 1] ==> v[q] == v[t[j]..t[j + 1]][q - t[j]];
    t[j] + k
  }

  /** `is_beat_peak` after the first m iterations of the loop. */
  predicate PeakAfter(v: seq<real>, t: seq<int>, m: nat, p: int)
    requires ValidTroughs(t, |v|) && m < |t|
  {
    exists j :: 0 <= j < m && p == BeatPeak(v, t, j)
  }

  predicate IsBeatPeak(v: seq<real>, t: seq<int>, p: int)
    requires ValidTroughs(t, |v|)
  {
    |t| >= 2 && PeakAfter(v, t, |t| - 1, p)
  }

  /** The annotated section, row by row. */
  function Annotation(section: seq<SectionRow>, t: seq<int>, sectionId: int): (rows: seq<AnnotatedRow>)
    requires ValidTroughs(t, |section|)
    ensures |rows| == |section|
  {
    seq(|section|, p requires 0 <= p < |section| =>
      AnnotatedRow(section[p], sectionId, Label(t, p), IsBeatPeak(Values(section), t, p), p in t))
  }

  lemma LabelStep(t: seq<int>, j: nat, p: int)
    requires StrictlyIncreasing(t) && j + 1 < |t|
    ensures LabelAfter(t, j + 1, p) == if t[j] <= p <= t[j + 1] then j else LabelAfter(t, j, p)
  {
    if j >= 1 && !(t[j] <= p <= t[j + 1]) && t[0] <= p <= t[j] {
      assert Owner(t, j + 1, p) == Owner(t, j, p);
    }
  }

  /** `section.loc[troughs, 'is_beat_trough'] = True` on a fresh False column. */
  method MarkTroughs(n: nat, troughs: seq<int>) returns (isTrough: array<bool>)
    requires AllIn(troughs, n)
    ensures fresh(isTrough) && isTrough.Length == n
    ensures forall p :: 0 <= p < n ==> isTrough[p] == (p in troughs)
  {
    isTrough := new bool[n](_ => false);
    var i := 0;
    while i < |troughs|
      invariant 0 <= i <= |troughs|
      invariant forall p :: 0 <= p < n ==> isTrough[p] == (p in troughs[..i])
    {
      isTrough[troughs[i]] := true;
      i := i + 1;
    }
    assert troughs[..|troughs|] == troughs;
  }

  /** `section.loc[start:end, 'beat'] = j`, both ends included. */
  method AssignBeat(beat: array<int>, start: int, end: int, j: int)
    requires 0 <= start <= end < beat.Length
    modifies beat
    ensures forall p :: 0 <= p < beat.Length ==> beat[p] == if start <= p <= end then j else old(beat[p])
  {
    var q := start;
    while q <= end
      invariant start <= q <= end + 1
      invariant forall p :: 0 <= p < beat.Length ==> beat[p] == if start <= p < q then j else old(beat[p])
    {
      beat[q] := j;
      q := q + 1;
    }
  }

  /** The loop over consecutive trough pairs, from fresh columns `beat = -1`
      and `is_beat_peak = False`. */
  method LabelBeats(v: seq<real>, troughs: seq<int>) returns (beat: array<int>, isPeak: array<bool>)
    requires ValidTroughs(troughs, |v|)
    ensures fresh(beat) && fresh(isPeak) && beat.Length == |v| && isPeak.Length == |v|
    ensures forall p :: 0 <= p < |v| ==> beat[p] == Label(troughs, p) && isPeak[p] == IsBeatPeak(v, troughs, p)
  {
    var n := |v|;
    beat := new int[n](_ => -1);
    isPeak := new bool[n](_ => false);
    if |troughs| == 0 {
      return;
    }
    var j := 0;
    while j + 1 < |troughs|
      invariant 0 <= j < |troughs|
      invariant forall p :: 0 <= p < n ==> beat[p] == LabelAfter(troughs, j, p)
      invariant forall p :: 0 <= p < n ==> isPeak[p] == PeakAfter(v, troughs, j, p)
    {
      AssignBeat(beat, troughs[j], troughs[j + 1], j);
      forall p | 0 <= p < n ensures beat[p] == LabelAfter(troughs, j + 1, p) {
        LabelStep(troughs, j, p);
      }
      var peak := BeatPeak(v, troughs, j);
      isPeak[peak] := true;
      forall p | 0 <= p < n ensures isPeak[p] == PeakAfter(v, troughs, j + 1, p) {
        if p == peak {
          assert p == BeatPeak(v, troughs, j);
        }
      }
      j := j + 1;
    }
  }

  /** `_annotate_heart_beats`: the columns are initialised, the troughs
      flagged, then each consecutive trough pair labels its beat and flags
      its peak. */
  method AnnotateHeartBeats(section: seq<SectionRow>, troughs: seq<int>, sectionId: int)
    returns (annotated: seq<AnnotatedRow>)
    requires ValidTroughs(troughs, |section|)
    ensures annotated == Annotation(section, troughs, sectionId)
  {
    var n := |section|;
    var isTrough := MarkTroughs(n, troughs);
    var beat, isPeak := LabelBeats(Values(section), troughs);
    annotated := seq(n, p requires 0 <= p < n reads beat, isPeak, isTrough =>
      AnnotatedRow(section[p], sectionId, beat[p], isPeak[p], isTrough[p]));
  }

  /** The rows of beat j, in order: `section[section['beat'] == j]`. */
  function BeatRows(rows: seq<AnnotatedRow>, j: int): (r: seq<AnnotatedRow>)
    ensures |r| <= |rows|
  {
    if rows == [] then []
    else BeatRows(rows[..|rows| - 1], j) + (if rows[|rows| - 1].beat == j then [rows[|rows| - 1]] else [])
  }

  /** The segmented beats of one annotated section, one per id 0..k-2 (the
      order of `unique()`, as labels never decrease along the section, see
      `LabelMonotone`). */
  function SectionBeats(rows: seq<AnnotatedRow>, k: nat): (r: seq<seq<AnnotatedRow>>)
    ensures |r| == if k >= 2 then k - 1 else 0
  {
    seq(if k >= 2 then k - 1 else 0, j => BeatRows(rows, j))
  }

  /** Everything `process_sections` returns: the combined table and the list of beats. */
  datatype Processed = Processed(combined: seq<AnnotatedRow>, allBeats: seq<seq<AnnotatedRow>>)

  function SectionTroughs(finder: PeakFinder, section: seq<SectionRow>): (t: seq<int>)
    ensures ValidTroughs(t, |section|)
  {
    finder(Negated(Values(section)))
  }

  /** The annotated sections, each tagged with its list position. */
  function AnnotatedSections(finder: PeakFinder, sections: seq<seq<SectionRow>>): (r: seq<seq<AnnotatedRow>>)
    ensures |r| == |sections|
  {
    if sections == [] then []
    else
      var i := |sections| - 1;
      AnnotatedSections(finder, sections[..i]) + [Annotation(sections[i], SectionTroughs(finder, sections[i]), i)]
  }

  /** The segmented beats, section by section. */
  function AllBeats(finder: PeakFinder, sections: seq<seq<SectionRow>>): seq<seq<seq<AnnotatedRow>>>
  {
    if sections == [] then []
    else
      var i := |sections| - 1;
      var t := SectionTroughs(finder, sections[i]);
      AllBeats(finder, sections[..i]) + [SectionBeats(Annotation(sections[i], t, i), |t|)]
  }

  lemma SectionsStep(finder: PeakFinder, sections: seq<seq<SectionRow>>, i: nat)
    requires i < |sections|
    ensures var t := SectionTroughs(finder, sections[i]);
      && AnnotatedSections(finder, sections[..i + 1]) == AnnotatedSections(finder, sections[..i]) + [Annotation(sections[i], t, i)]
      && AllBeats(finder, sections[..i + 1]) == AllBeats(finder, sections[..i]) + [SectionBeats(Annotation(sections[i], t, i), |t|)]
  {
    assert sections[..i + 1][..i] == sections[..i];
  }

  /** `process_sections`: the detector name is looked up first, the sections
      are processed in order, and `pd.concat` of no sections raises. */
  method ProcessSections(detectorName: string, detrend: Detrend, draw: Ampd.Draw, sections: seq<seq<SectionRow>>)
    returns (r: Result<Processed>)
    ensures Create(detectorName).Err? ==> r == Err(ValueError)
    ensures Create(detectorName).Ok? && sections == [] ==> r == Err(ValueError)
    ensures Create(detectorName).Ok? && sections != [] ==>
      var finder := Finder(Create(detectorName).value, detrend, draw);
      r == Ok(Processed(Flatten(AnnotatedSections(finder, sections)), Flatten(AllBeats(finder, sections))))
  {
    var kind := Create(detectorName);
    if kind.Err? {
      return Err(kind.error);
    }
    var finder := Finder(kind.value, detrend, draw);
    var annotatedSections: seq<seq<AnnotatedRow>> := [];
    var allBeats: seq<seq<AnnotatedRow>> := [];
    var sectionId := 0;
    while sectionId < |sections|
      invariant 0 <= sectionId <= |sections|
      invariant annotatedSections == AnnotatedSections(finder, sections[..sectionId])
      invariant allBeats == Flatten(AllBeats(finder, sections[..sectionId]))
    {
      var section := sections[sectionId];
      var troughs := finder(Negated(Values(section)));
      var annotated := AnnotateHeartBeats(section, troughs, sectionId);
      var beats := SectionBeats(annotated, |troughs|);
      SectionsStep(finder, sections, sectionId);
      FlattenAppend(AllBeats(finder, sections[..sectionId]), beats);
      annotatedSections := annotatedSections + [annotated];
      allBeats := allBeats + beats;
      sectionId := sectionId + 1;
    }
    assert sections[..|sections|] == sections;
    if annotatedSections == [] {
      return Err(ValueError);
    }
    r := Ok(Processed(Flatten(annotatedSections), allBeats));
  }

  // ---------------------------------------------------------------------------
  // Properties

  lemma OwnerIs(t: seq<int>, m: nat, j: int, p: int)
    requires StrictlyIncreasing(t) && 0 <= j < m <= |t| && t[j] <= p
    requires j + 1 < m ==> p < t[j + 1]
    ensures Owner(t, m, p) == j
  {
  }

  /** Beat j covers t_j..t_{j+1} - 1, the last trough belongs to the last
      beat k - 2, and everything before the first or after the last trough
      stays -1. */
  lemma LabelSpans(t: seq<int>, p: int)
    requires StrictlyIncreasing(t)
    ensures forall j :: 0 <= j < |t| - 1 && t[j] <= p < t[j + 1] ==> Label(t, p) == j
    ensures |t| >= 2 && p == t[|t| - 1] ==> Label(t, p) == |t| - 2
    ensures |t| < 2 || p < t[0] || p > t[|t| - 1] ==> Label(t, p) == -1
    ensures Label(t, p) == -1 || 0 <= Label(t, p) <= |t| - 2
    ensures Label(t, p) >= 0 ==> t[Label(t, p)] <= p <= t[|t| - 1]
    ensures Label(t, p) >= 0 && Label(t, p) < |t| - 2 ==> p < t[Label(t, p) + 1]
  {
    forall j | 0 <= j < |t| - 1 && t[j] <= p < t[j + 1] ensures Label(t, p) == j {
      assert t[0] <= t[j] && t[j + 1] <= t[|t| - 1];
      OwnerIs(t, |t| - 1, j, p);
    }
    if |t| >= 2 && p == t[|t| - 1] {
      OwnerIs(t, |t| - 1, |t| - 2, p);
    }
  }

  /** Labels never decrease along the section, so `unique()` lists the beat
      ids in ascending order. */
  lemma LabelMonotone(t: seq<int>, p: int, q: int)
    requires StrictlyIncreasing(t) && p <= q && Label(t, p) >= 0 && Label(t, q) >= 0
    ensures Label(t, p) <= Label(t, q)
  {
    LabelSpans(t, p);
    LabelSpans(t, q);
  }

  /** Each beat has exactly one peak: a row is a peak iff it is the first
      maximum of the beat it belongs to. */
  lemma OnePeakPerBeat(v: seq<real>, t: seq<int>, p: int)
    requires ValidTroughs(t, |v|)
    ensures IsBeatPeak(v, t, p) <==> 0 <= Label(t, p) && p == BeatPeak(v, t, Label(t, p))
  {
    LabelSpans(t, p);
    if IsBeatPeak(v, t, p) {
      var j :| 0 <= j < |t| - 1 && p == BeatPeak(v, t, j);
      assert Label(t, p) == j;
    }
    if 0 <= Label(t, p) {
      var j := Label(t, p);
      if j < |t| - 1 && p == BeatPeak(v, t, j) {
        assert PeakAfter(v, t, |t| - 1, p);
      }
    }
  }

  /** Fewer than two troughs give no beat and no peak. */
  lemma FewTroughs(v: seq<real>, t: seq<int>, p: int)
    requires ValidTroughs(t, |v|) && |t| < 2
    ensures Label(t, p) == -1 && !IsBeatPeak(v, t, p)
  {
  }

  /** When exactly the rows lo..hi-1 carry id j, the beat's segment is that slice. */
  lemma {:induction false} BeatRowsSlice(rows: seq<AnnotatedRow>, j: int, lo: int, hi: int)
    requires 0 <= lo <= hi <= |rows|
    requires forall p :: 0 <= p < |rows| ==> (rows[p].beat == j <==> lo <= p < hi)
    ensures BeatRows(rows, j) == rows[lo..hi]
  {
    if rows != [] {
      var n := |rows| - 1;
      var init := rows[..n];
      if hi == |rows| {
        if lo == hi {
          BeatRowsSlice(init, j, n, n);
        } else {
          BeatRowsSlice(init, j, lo, n);
          assert rows[lo..hi] == init[lo..n] + [rows[n]];
        }
      } else {
        BeatRowsSlice(init, j, lo, hi);
        assert rows[lo..hi] == init[lo..hi];
      }
    }
  }

  /** The segment of beat j is the rows from its opening trough up to, not
      including, the next one; the last beat also takes the last trough. */
  lemma BeatSegments(section: seq<SectionRow>, t: seq<int>, sectionId: int, j: int)
    requires ValidTroughs(t, |section|) && 0 <= j < |t| - 1
    ensures var rows := Annotation(section, t, sectionId);
      BeatRows(rows, j) == if j < |t| - 2 then rows[t[j]..t[j + 1]] else rows[t[j]..t[j + 1] + 1]
  {
    var rows := Annotation(section, t, sectionId);
    var hi := if j < |t| - 2 then t[j + 1] else t[j + 1] + 1;
    forall p | 0 <= p < |rows| ensures rows[p].beat == j <==> t[j] <= p < hi {
      LabelSpans(t, p);
      if j < |t| - 2 && p == t[j + 1] {
        assert t[j + 1] < t[j + 2];
      }
    }
    BeatRowsSlice(rows, j, t[j], hi);
  }

  // ---------------------------------------------------------------------------
  // Chunked detection

  /** `_detect_beat_fixed_chunk_size` as written: `range` rejects a zero
      step, a negative step gives no chunk, and the first chunk of a
      non-empty signal evaluates the undefined name `check_size`. */
  function DetectFixedChunkSizeAsWritten(signal: seq<real>, finder: PeakFinder, chunkSize: int): (r: Result<seq<int>>)
    ensures r == Err(NameError) <==> chunkSize > 0 && signal != []
  {
    if chunkSize == 0 then Err(ValueError)
    else if chunkSize < 0 || signal == [] then Ok([])
    else Err(NameError)
  }

  /** The default chunk size of 3000 fails on every non-empty signal. */
  lemma ChunkSizeNameError(finder: PeakFinder)
    ensures DetectFixedChunkSizeAsWritten([0.0], finder, 3000) == Err(NameError)
  {
  }

  function Min(a: int, b: int): int { if a <= b then a else b }

  /** The troughs of the chunks from `start` on, each chunk's local indices
      moved by the chunk's start, as the evidently intended
      `min(start + chunk_size, len(signal))` cuts them. */
  function ChunkTroughs(signal: seq<real>, finder: seq<real> -> seq<int>, chunkSize: int, start: nat): seq<int>
    requires chunkSize > 0
    decreases |signal| - start
  {
    if start >= |signal| then []
    else ChunkAt(signal, finder, chunkSize, start) + ChunkTroughs(signal, finder, chunkSize, Min(start + chunkSize, |signal|))
  }

  /** The troughs of the chunk `signal[start:min(start + chunk_size, len(signal))]`,
      moved from chunk positions to signal positions. */
  function ChunkAt(signal: seq<real>, finder: seq<real> -> seq<int>, chunkSize: int, start: nat): seq<int>
    requires chunkSize > 0 && start < |signal|
  {
    Shift(finder(signal[start..Min(start + chunkSize, |signal|)]), start)
  }

  /** The chunks do not overlap and come in order, so their troughs are
      strictly ascending and lie inside the signal. */
  lemma {:induction false} ChunkTroughsSorted(signal: seq<real>, finder: PeakFinder, chunkSize: int, start: nat)
    requires chunkSize > 0
    ensures StrictlyIncreasing(ChunkTroughs(signal, finder, chunkSize, start))
    ensures forall i :: 0 <= i < |ChunkTroughs(signal, finder, chunkSize, start)| ==>
      start <= ChunkTroughs(signal, finder, chunkSize, start)[i] < |signal|
    decreases |signal| - start
  {
    if start < |signal| {
      var end := Min(start + chunkSize, |signal|);
      var local := finder(signal[start..end]);
      var here := ChunkAt(signal, finder, chunkSize, start);
      var rest := ChunkTroughs(signal, finder, chunkSize, end);
      ChunkTroughsSorted(signal, finder, chunkSize, end);
      ShiftIncreasing(local, start);
      assert forall i :: 0 <= i < |here| ==> start <= here[i] < end;
      ConcatIncreasing(here, rest, end);
      var r := here + rest;
      assert r == ChunkTroughs(signal, finder, chunkSize, start);
      forall i | 0 <= i < |r| ensures start <= r[i] < |signal| {
        if i >= |here| {
          assert r[i] == rest[i - |here|];
        }
      }
    }
  }

  /** `_detect_beat_fixed_chunk_size` with `chunk_size` in place of the
      undefined `check_size`. The chunks are visited in order and their
      index ranges do not overlap, so the concatenation is already strictly
      ascending and `sorted` returns it unchanged. */
  method DetectFixedChunkSize(signal: seq<real>, finder: PeakFinder, chunkSize: int) returns (r: Result<seq<int>>)
    ensures chunkSize == 0 ==> r == Err(ValueError)
    ensures chunkSize < 0 ==> r == Ok([])
    ensures chunkSize > 0 ==> r == Ok(ChunkTroughs(signal, finder, chunkSize, 0))
    ensures r.Ok? ==> StrictlyIncreasing(r.value) && AllIn(r.value, |signal|)
  {
    if chunkSize == 0 {
      return Err(ValueError);
    }
    if chunkSize < 0 {
      return Ok([]);
    }
    var troughs := CollectChunks(signal, finder, chunkSize);
    ChunkTroughsSorted(signal, finder, chunkSize, 0);
    return Ok(troughs);
  }

  /** The loop over `range(0, len(signal), chunk_size)`: each chunk's
      troughs, moved to signal positions, are appended in turn. */
  method CollectChunks(signal: seq<real>, finder: seq<real> -> seq<int>, chunkSize: int) returns (troughs: seq<int>)
    requires chunkSize > 0
    ensures troughs == ChunkTroughs(signal, finder, chunkSize, 0)
  {
    troughs := [];
    var start := 0;
    CollectedStart(signal, finder, chunkSize);
    while start < |signal|
      invariant 0 <= start
      invariant Collected(signal, finder, chunkSize, start, troughs)
      decreases |signal| - start
    {
      var globalTroughs := ChunkAt(signal, finder, chunkSize, start);
      ChunkStep(signal, finder, chunkSize, start, troughs);
      troughs := troughs + globalTroughs;
      start := start + chunkSize;
    }
    CollectedDone(signal, finder, chunkSize, start, troughs);
  }

  /** `troughs` holds the troughs of the chunks before `start`: followed by
      those from `start` on, it gives all of them. */
  predicate Collected(signal: seq<real>, finder: seq<real> -> seq<int>, chunkSize: int, start: nat, troughs: seq<int>)
    requires chunkSize > 0
  {
    troughs + ChunkTroughs(signal, finder, chunkSize, start) == ChunkTroughs(signal, finder, chunkSize, 0)
  }

  /** Nothing is collected before the first chunk. */
  lemma CollectedStart(signal: seq<real>, finder: seq<real> -> seq<int>, chunkSize: int)
    requires chunkSize > 0
    ensures Collected(signal, finder, chunkSize, 0, [])
  {
    assert [] + ChunkTroughs(signal, finder, chunkSize, 0) == ChunkTroughs(signal, finder, chunkSize, 0);
  }

  /** One loop step: appending the chunk at `start` moves the start to the
      next multiple of the chunk size. */
  lemma ChunkStep(signal: seq<real>, finder: seq<real> -> seq<int>, chunkSize: int, start: nat, troughs: seq<int>)
    requires chunkSize > 0 && start < |signal|
    requires Collected(signal, finder, chunkSize, start, troughs)
    ensures Collected(signal, finder, chunkSize, start + chunkSize, troughs + ChunkAt(signal, finder, chunkSize, start))
  {
    var here := ChunkAt(signal, finder, chunkSize, start);
    var end := Min(start + chunkSize, |signal|);
    var rest := ChunkTroughs(signal, finder, chunkSize, start + chunkSize);
    if start + chunkSize >= |signal| {
      assert ChunkTroughs(signal, finder, chunkSize, end) == [] == rest;
    }
    assert ChunkTroughs(signal, finder, chunkSize, start) == here + rest;
    assert (troughs + here) + rest == troughs + (here + rest);
  }

  /** Past the end of the signal nothing is left to collect. */
  lemma CollectedDone(signal: seq<real>, finder: seq<real> -> seq<int>, chunkSize: int, start: nat, troughs: seq<int>)
    requires chunkSize > 0 && start >= |signal|
    requires Collected(signal, finder, chunkSize, start, troughs)
    ensures troughs == ChunkTroughs(signal, finder, chunkSize, 0)
  {
    assert troughs + [] == troughs;
  }

  /** A chunk size at least the signal length gives one chunk: the detector's own result. */
  lemma SingleChunk(signal: seq<real>, finder: PeakFinder, chunkSize: int)
    requires chunkSize >= |signal| > 0
    ensures ChunkTroughs(signal, finder, chunkSize, 0) == finder(signal)
  {
    assert signal[0..|signal|] == signal;
    var local := finder(signal);
    assert Shift(local, 0) == local;
  }
}
