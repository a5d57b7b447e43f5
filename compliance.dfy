/** Wear-compliance sectioning of Polar Verity PPG recordings: samples above
    a threshold count as worn, maximal worn runs that last long enough are
    kept, and long runs are cut into sections of at most 60000 samples. */
module Compliance {
  import opened Wrappers
  import opened Seqs
  import opened BeatOrganiser

  const MaxLength := 60000

  datatype PolarRow = PolarRow(timestampMs: int, ppg: real)

  /** A row of a returned section: `above_threshold` is dropped and
      `section_id` is the section's number. */
  datatype SectionRow = SectionRow(timestampMs: int, ppg: real, sectionId: int)

  /** `data['ppg'] > threshold`. */
  function Above(rows: seq<PolarRow>, threshold: real): (a: seq<bool>)
    ensures |a| == |rows| && forall i :: 0 <= i < |rows| ==> (a[i] <==> rows[i].ppg > threshold)
  {
    seq(|rows|, i requires 0 <= i < |rows| => rows[i].ppg > threshold)
  }

  /** `(above != above.shift()).cumsum()` at row i: 1 on the first row,
      one more at every change of compliance. */
  function RunId(above: seq<bool>, i: nat): int
    requires i < |above|
  {
    if i == 0 then 1 else RunId(above, i - 1) + (if above[i] != above[i - 1] then 1 else 0)
  }

  function RunIds(above: seq<bool>): (ids: seq<int>)
    ensures |ids| == |above|
  {
    seq(|above|, i requires 0 <= i < |above| => RunId(above, i))
  }

  /** The end of the run of equal compliance that starts at `start`. */
  function RunEnd(above: seq<bool>, start: nat): (e: nat)
    requires start < |above|
    ensures start < e <= |above|
    ensures forall k :: start <= k < e ==> above[k] == above[start]
    ensures e < |above| ==> above[e] != above[start]
    decreases |above| - start
  {
    if start + 1 == |above| || above[start + 1] != above[start] then start + 1
    else RunEnd(above, start + 1)
  }

  /** The maximal compliant runs from `start` on, in order: the groups of
      the compliant rows by `section_id`. */
  function Runs(rows: seq<PolarRow>, above: seq<bool>, start: nat): (r: seq<seq<PolarRow>>)
    requires |above| == |rows| && start <= |rows|
    ensures forall k :: 0 <= k < |r| ==> |r[k]| > 0
    decreases |rows| - start
  {
    if start == |rows| then []
    else
      var e := RunEnd(above, start);
      (if above[start] then [rows[start..e]] else []) + Runs(rows, above, e)
  }

  function Duration(run: seq<PolarRow>): int
    requires |run| > 0
  {
    run[|run| - 1].timestampMs - run[0].timestampMs
  }

  /** What one compliant run contributes: nothing when it lasts less than
      `minDurationMs`, else the run itself, cut into consecutive chunks of
      60000 samples when it is longer than that. */
  function Kept(run: seq<PolarRow>, minDurationMs: real): seq<seq<PolarRow>>
    requires |run| > 0
  {
    if Duration(run) as real >= minDurationMs then
      (if |run| > MaxLength then Slices(run, MaxLength) else [run])
    else []
  }

  /** The valid sections, in order. */
  function Chunks(runs: seq<seq<PolarRow>>, minDurationMs: real): seq<seq<PolarRow>>
    requires forall k :: 0 <= k < |runs| ==> |runs[k]| > 0
  {
    if runs == [] then []
    else Chunks(runs[..|runs| - 1], minDurationMs) + Kept(runs[|runs| - 1], minDurationMs)
  }

  /** The runs that last long enough, uncut. */
  function LongRuns(runs: seq<seq<PolarRow>>, minDurationMs: real): (r: seq<seq<PolarRow>>)
    requires forall k :: 0 <= k < |runs| ==> |runs[k]| > 0
    ensures forall k :: 0 <= k < |r| ==> |r[k]| > 0 && Duration(r[k]) as real >= minDurationMs
  {
    if runs == [] then []
    else
      var run := runs[|runs| - 1];
      LongRuns(runs[..|runs| - 1], minDurationMs) + (if Duration(run) as real >= minDurationMs then [run] else [])
  }

  function Section(chunk: seq<PolarRow>, id: int): seq<SectionRow>
  {
    seq(|chunk|, j requires 0 <= j < |chunk| => SectionRow(chunk[j].timestampMs, chunk[j].ppg, id))
  }

  /** Section i + 1 is the i-th chunk, renumbered. */
  function Numbered(chunks: seq<seq<PolarRow>>): (r: seq<seq<SectionRow>>)
    ensures |r| == |chunks|
  {
    seq(|chunks|, i requires 0 <= i < |chunks| => Section(chunks[i], i + 1))
  }

  /** The recording; the sectioning adds the `above_threshold` and
      `section_id` columns to it. */
  class PolarFrame {
    const rows: seq<PolarRow>
    var aboveThreshold: Option<seq<bool>>
    var sectionId: Option<seq<int>>

    constructor (rows: seq<PolarRow>)
      ensures this.rows == rows && aboveThreshold.None? && sectionId.None?
    {
      this.rows := rows;
      aboveThreshold := None;
      sectionId := None;
    }
  }

  /** `create_compliance_sections` with the configured threshold and
      minimum duration in seconds. */
  method CreateComplianceSections(data: PolarFrame, threshold: real, minDuration: real)
    returns (sections: seq<seq<SectionRow>>)
    modifies data
    ensures data.aboveThreshold == Some(Above(data.rows, threshold))
    ensures data.sectionId == Some(RunIds(Above(data.rows, threshold)))
    ensures sections == Numbered(Chunks(Runs(data.rows, Above(data.rows, threshold), 0), minDuration * 1000.0))
  {
    var above := Above(data.rows, threshold);
    data.aboveThreshold := Some(above);
    data.sectionId := Some(RunIds(above));
    var runs := Runs(data.rows, above, 0);

    var valid := ValidSections(runs, minDuration * 1000.0);
    sections := Renumber(valid);
  }

  /** The loop over the compliant runs that keeps the long enough ones and
      cuts the longest. */
  method ValidSections(runs: seq<seq<PolarRow>>, minDurationMs: real) returns (valid: seq<seq<PolarRow>>)
    requires forall k :: 0 <= k < |runs| ==> |runs[k]| > 0
    ensures valid == Chunks(runs, minDurationMs)
  {
    valid := [];
    var i := 0;
    while i < |runs|
      invariant 0 <= i <= |runs|
      invariant valid == Chunks(runs[..i], minDurationMs)
    {
      var run := runs[i];
      assert runs[..i + 1][..i] == runs[..i];
      if Duration(run) as real >= minDurationMs {
        if |run| > MaxLength {
          valid := valid + Slices(run, MaxLength);
        } else {
          valid := valid + [run];
        }
      }
      i := i + 1;
    }
    assert runs[..|runs|] == runs;
  }

  /** The loop that sets `section_id` to the position of each section, from 1. */
  method Renumber(valid: seq<seq<PolarRow>>) returns (sections: seq<seq<SectionRow>>)
    ensures sections == Numbered(valid)
  {
    sections := [];
    var k := 0;
    while k < |valid|
      invariant 0 <= k <= |valid|
      invariant sections == Numbered(valid)[..k]
    {
      sections := sections + [Section(valid[k], k + 1)];
      k := k + 1;
    }
  }

  // ---------------------------------------------------------------------------
  // Properties

  /** Two rows share a `section_id` exactly when compliance does not change
      between them; ids never decrease. */
  lemma {:induction false} RunIdsSame(above: seq<bool>, i: nat, j: nat)
    requires i <= j < |above|
    ensures RunId(above, i) <= RunId(above, j)
    ensures RunId(above, i) == RunId(above, j) <==> forall k :: i <= k <= j ==> above[k] == above[i]
    decreases j
  {
    if j > i {
      RunIdsSame(above, i, j - 1);
    }
  }

  /** The compliant rows from `start` on, in order. */
  function Compliant(rows: seq<PolarRow>, above: seq<bool>, start: nat): seq<PolarRow>
    requires |above| == |rows| && start <= |rows|
    decreases |rows| - start
  {
    if start == |rows| then [] else (if above[start] then [rows[start]] else []) + Compliant(rows, above, start + 1)
  }

  lemma {:induction false} CompliantRun(rows: seq<PolarRow>, above: seq<bool>, s: nat, e: nat)
    requires |above| == |rows| && s < e <= |rows|
    requires forall k :: s <= k < e ==> above[k] == above[s]
    ensures Compliant(rows, above, s) == (if above[s] then rows[s..e] else []) + Compliant(rows, above, e)
    decreases e - s
  {
    assert Compliant(rows, above, s) == (if above[s] then [rows[s]] else []) + Compliant(rows, above, s + 1);
    if s + 1 < e {
      CompliantRun(rows, above, s + 1, e);
      assert above[s + 1] == above[s];
      if above[s] {
        assert [rows[s]] + rows[s + 1..e] == rows[s..e];
      }
    } else {
      if above[s] {
        assert rows[s..e] == [rows[s]];
      }
    }
  }

  /** The runs hold exactly the compliant rows, in input order. */
  lemma {:induction false} RunsAreCompliantRows(rows: seq<PolarRow>, above: seq<bool>, start: nat)
    requires |above| == |rows| && start <= |rows|
    ensures Flatten(Runs(rows, above, start)) == Compliant(rows, above, start)
    decreases |rows| - start
  {
    if start < |rows| {
      var e := RunEnd(above, start);
      RunsAreCompliantRows(rows, above, e);
      CompliantRun(rows, above, start, e);
      var head: seq<seq<PolarRow>> := if above[start] then [rows[start..e]] else [];
      assert Runs(rows, above, start) == head + Runs(rows, above, e);
      FlattenConcat(head, Runs(rows, above, e));
      if above[start] {
        assert Flatten(head) == Flatten([]) + rows[start..e];
      } else {
        assert Flatten(head) == [];
      }
    }
  }

  /** Every run is compliant throughout and cannot be extended. */
  lemma {:induction false} RunsMaximal(rows: seq<PolarRow>, above: seq<bool>, start: nat, k: nat)
    requires |above| == |rows| && start <= |rows| && k < |Runs(rows, above, start)|
    ensures exists s, e ::
      && start <= s < e <= |rows| && Runs(rows, above, start)[k] == rows[s..e]
      && (forall i :: s <= i < e ==> above[i])
      && (s > start ==> !above[s - 1]) && (e < |rows| ==> !above[e])
    decreases |rows| - start
  {
    var e := RunEnd(above, start);
    var rest := Runs(rows, above, e);
    if above[start] && k == 0 {
      assert Runs(rows, above, start)[0] == rows[start..e];
    } else {
      var k' := if above[start] then k - 1 else k;
      assert Runs(rows, above, start)[k] == rest[k'];
      RunsMaximal(rows, above, e, k');
      var s2, e2 :| e <= s2 < e2 <= |rows| && rest[k'] == rows[s2..e2]
        && (forall i :: s2 <= i < e2 ==> above[i]) && (s2 > e ==> !above[s2 - 1]) && (e2 < |rows| ==> !above[e2]);
      if s2 == e {
        assert !above[start];
        assert above[e - 1] == above[start];
      }
    }
  }

  /** Every row of every run is above the threshold. */
  lemma {:induction false} RunsAbove(rows: seq<PolarRow>, threshold: real, start: nat)
    requires start <= |rows|
    ensures AllAbove(Runs(rows, Above(rows, threshold), start), threshold)
    decreases |rows| - start
  {
    if start < |rows| {
      var above := Above(rows, threshold);
      var e := RunEnd(above, start);
      RunsAbove(rows, threshold, e);
      var head: seq<seq<PolarRow>> := if above[start] then [rows[start..e]] else [];
      assert Runs(rows, above, start) == head + Runs(rows, above, e);
      assert forall k, j :: 0 <= k < |head| && 0 <= j < |head[k]| ==> head[k][j] == rows[start + j];
    }
  }

  lemma KeptShape(run: seq<PolarRow>, minDurationMs: real)
    requires |run| > 0
    ensures var c := Kept(run, minDurationMs);
      forall k :: 0 <= k < |c| ==> 0 < |c[k]| <= MaxLength
    ensures Flatten(Kept(run, minDurationMs)) == if Duration(run) as real >= minDurationMs then run else []
  {
    if Duration(run) as real >= minDurationMs {
      if |run| > MaxLength {
        SlicesSizes(run, MaxLength);
        SlicesFlatten(run, MaxLength);
      } else {
        assert Flatten([run]) == Flatten([]) + run;
      }
    }
  }

  /** Every section is a nonempty block of at most 60000 rows, and the
      sections hold exactly the rows of the runs that last long enough,
      in order. */
  lemma {:induction false} ChunksShape(runs: seq<seq<PolarRow>>, minDurationMs: real)
    requires forall k :: 0 <= k < |runs| ==> |runs[k]| > 0
    ensures var c := Chunks(runs, minDurationMs);
      forall k :: 0 <= k < |c| ==> 0 < |c[k]| <= MaxLength
    ensures Flatten(Chunks(runs, minDurationMs)) == Flatten(LongRuns(runs, minDurationMs))
    decreases |runs|
  {
    if runs != [] {
      var init := runs[..|runs| - 1];
      var run := runs[|runs| - 1];
      ChunksShape(init, minDurationMs);
      KeptShape(run, minDurationMs);
      FlattenConcat(Chunks(init, minDurationMs), Kept(run, minDurationMs));
      var tail: seq<seq<PolarRow>> := if Duration(run) as real >= minDurationMs then [run] else [];
      FlattenConcat(LongRuns(init, minDurationMs), tail);
      assert Flatten(tail) == Flatten([]) + (if Duration(run) as real >= minDurationMs then run else []);
    }
  }

  lemma SliceMember<T>(s: seq<T>, g: nat, k: nat, j: nat)
    requires g > 0 && k < |Slices(s, g)| && j < |Slices(s, g)[k]|
    ensures Slices(s, g)[k][j] in s
  {
    SlicesFlatten(s, g);
    FlattenMember(Slices(s, g), k, j);
  }

  lemma {:induction false} FlattenMember<T>(ss: seq<seq<T>>, k: nat, j: nat)
    requires k < |ss| && j < |ss[k]|
    ensures ss[k][j] in Flatten(ss)
  {
    var m := |ss| - 1;
    if k < m {
      FlattenMember(ss[..m], k, j);
      assert ss[..m][k] == ss[k];
    } else {
      assert Flatten(ss) == Flatten(ss[..m]) + ss[m];
    }
  }

  /** Every row of every block is above the threshold. */
  predicate AllAbove(blocks: seq<seq<PolarRow>>, threshold: real)
  {
    forall k, j :: 0 <= k < |blocks| && 0 <= j < |blocks[k]| ==> blocks[k][j].ppg > threshold
  }

  /** Every row of every section is above the threshold. */
  lemma {:induction false} ChunksAbove(runs: seq<seq<PolarRow>>, minDurationMs: real, threshold: real)
    requires forall k :: 0 <= k < |runs| ==> |runs[k]| > 0
    requires AllAbove(runs, threshold)
    ensures AllAbove(Chunks(runs, minDurationMs), threshold)
    decreases |runs|
  {
    if runs != [] {
      var init := runs[..|runs| - 1];
      var run := runs[|runs| - 1];
      assert forall k :: 0 <= k < |init| ==> init[k] == runs[k];
      ChunksAbove(init, minDurationMs, threshold);
      var ci := Chunks(init, minDurationMs);
      var kept := Kept(run, minDurationMs);
      forall k, j | 0 <= k < |kept| && 0 <= j < |kept[k]|
        ensures kept[k][j] in run
      {
        if |run| > MaxLength && Duration(run) as real >= minDurationMs {
          SliceMember(run, MaxLength, k, j);
        }
      }
      assert forall x :: x in run ==> x.ppg > threshold;
      var c: seq<seq<PolarRow>> := Chunks(runs, minDurationMs);
      assert c == ci + kept;
      forall k, j | 0 <= k < |c| && 0 <= j < |c[k]|
        ensures c[k][j].ppg > threshold
      {
        if k >= |ci| {
          assert c[k] == kept[k - |ci|];
          assert kept[k - |ci|][j] in run;
        } else {
          assert c[k] == ci[k];
        }
      }
    }
  }

  /** What `create_compliance_sections` returns: numbered sections of 1 to
      60000 rows, every row above the threshold and carrying its section's
      number. */
  lemma SectionsShape(rows: seq<PolarRow>, threshold: real, minDuration: real)
    ensures var s := Numbered(Chunks(Runs(rows, Above(rows, threshold), 0), minDuration * 1000.0));
      forall k :: 0 <= k < |s| ==>
        && 0 < |s[k]| <= MaxLength
        && forall j :: 0 <= j < |s[k]| ==> s[k][j].ppg > threshold && s[k][j].sectionId == k + 1
  {
    var runs := Runs(rows, Above(rows, threshold), 0);
    RunsAbove(rows, threshold, 0);
    ChunksShape(runs, minDuration * 1000.0);
    ChunksAbove(runs, minDuration * 1000.0, threshold);
    var c := Chunks(runs, minDuration * 1000.0);
    var sections: seq<seq<SectionRow>> := Numbered(c);
    forall k | 0 <= k < |sections|
      ensures 0 < |sections[k]| <= MaxLength
      ensures forall j :: 0 <= j < |sections[k]| ==> sections[k][j].ppg > threshold && sections[k][j].sectionId == k + 1
    {
      assert sections[k] == Section(c[k], k + 1);
      assert forall j :: 0 <= j < |c[k]| ==> c[k][j].ppg > threshold;
    }
  }
}
