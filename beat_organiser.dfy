/** `BeatOrganiser.group_n_beats` of `sqi/beat_organiser.py`: the list of
    segmented beats is cut into consecutive groups of `group_size` beats,
    and each group's beats are concatenated into one table. A beat is a
    table, here a sequence of rows of any type. */
module BeatOrganiser {
  import opened Wrappers
  import opened Seqs

  /** `[beats[i:i + g] for i in range(0, len(beats), g)]` for g > 0. */
  function Slices<T>(beats: seq<T>, g: nat): (r: seq<seq<T>>)
    requires g > 0
    decreases |beats|
  {
    if beats == [] then []
    else if |beats| <= g then [beats]
    else [beats[..g]] + Slices(beats[g..], g)
  }

  /** Each group is `pd.concat` of its beats. */
  function Groups<R>(beats: seq<seq<R>>, g: nat): (r: seq<seq<R>>)
    requires g > 0
    ensures |r| == |Slices(beats, g)|
  {
    var s := Slices(beats, g);
    seq(|s|, k requires 0 <= k < |s| => Flatten(s[k]))
  }

  /** `group_n_beats`: `range` rejects a zero step and yields nothing for a
      negative one. */
  function GroupNBeats<R>(beats: seq<seq<R>>, groupSize: int): (r: Result<seq<seq<R>>>)
    ensures groupSize == 0 <==> r == Err(ValueError)
    ensures groupSize < 0 ==> r == Ok([])
    ensures groupSize > 0 ==> r == Ok(Groups(beats, groupSize))
  {
    if groupSize == 0 then Err(ValueError)
    else if groupSize < 0 then Ok([])
    else Ok(Groups(beats, groupSize))
  }

  // ---------------------------------------------------------------------------
  // Properties

  /** Concatenating the groups' beats in order gives back the beats. */
  lemma {:induction false} SlicesFlatten<T>(beats: seq<T>, g: nat)
    requires g > 0
    ensures Flatten(Slices(beats, g)) == beats
    decreases |beats|
  {
    if beats == [] {
    } else if |beats| <= g {
      assert Flatten([beats]) == Flatten([]) + beats;
    } else {
      SlicesFlatten(beats[g..], g);
      FlattenConcat([beats[..g]], Slices(beats[g..], g));
      assert Flatten([beats[..g]]) == Flatten([]) + beats[..g];
      assert beats[..g] + beats[g..] == beats;
    }
  }

  /** There are ceil(n / g) groups, that is the c with (c - 1) g < n <= c g;
      every group holds g beats except the last, which holds the
      remaining n - (c - 1) g, between 1 and g. */
  lemma {:induction false} SlicesSizes<T>(beats: seq<T>, g: nat)
    requires g > 0
    ensures var c := |Slices(beats, g)|;
      && (beats == [] <==> c == 0)
      && (beats != [] ==> (c - 1) * g < |beats| <= c * g)
      && (forall k :: 0 <= k < c - 1 ==> |Slices(beats, g)[k]| == g)
      && (beats != [] ==> |Slices(beats, g)[c - 1]| == |beats| - (c - 1) * g)
    decreases |beats|
  {
    if beats != [] && |beats| > g {
      var rest := beats[g..];
      SlicesSizes(rest, g);
      var c' := |Slices(rest, g)|;
      var s := Slices(beats, g);
      assert s == [beats[..g]] + Slices(rest, g);
      assert |s| == c' + 1;
      assert c' * g == (c' - 1) * g + g;
      assert (c' + 1) * g == c' * g + g;
      assert |s[|s| - 1]| == |Slices(rest, g)[c' - 1]|;
    }
  }

  lemma {:induction false} FlattenGroups<R>(s: seq<seq<seq<R>>>)
    ensures Flatten(seq(|s|, k requires 0 <= k < |s| => Flatten(s[k]))) == Flatten(Flatten(s))
    decreases |s|
  {
    if s != [] {
      var m := |s| - 1;
      var f := seq(|s|, k requires 0 <= k < |s| => Flatten(s[k]));
      var f' := seq(m, k requires 0 <= k < m => Flatten(s[..m][k]));
      FlattenGroups(s[..m]);
      assert f[..m] == f';
      FlattenConcat(Flatten(s[..m]), s[m]);
    }
  }

  /** The groups hold exactly the rows of all beats, in order: nothing is
      lost, duplicated or reordered. */
  lemma GroupsRows<R>(beats: seq<seq<R>>, g: nat)
    requires g > 0
    ensures Flatten(Groups(beats, g)) == Flatten(beats)
  {
    FlattenGroups(Slices(beats, g));
    SlicesFlatten(beats, g);
  }

  /** No beats give no groups. */
  lemma NoBeats<R>(g: nat)
    requires g > 0
    ensures GroupNBeats<R>([], g) == Ok([])
  {
  }
}
