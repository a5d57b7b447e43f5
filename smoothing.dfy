/** Per-group smoothing of a signal column: a smoother is looked up by
    name and run on every group; a group whose smoother raises ValueError
    is flagged and left missing, the other groups keep their results. */
module Smoothing {
  import opened Wrappers
  import opened Groups
  import opened Frames

  datatype Smoother = RollingAvg | SavitzkyGolay | FdaBspline

  /** `getattr(self, "_" + method)`: the three private smoothers. */
  function SmootherNamed(name: string): (r: Result<Smoother>)
    ensures r.Ok? <==> name in {"rolling_avg", "savitzky_golay", "fda_bspline"}
    ensures r.Err? ==> r.error == ValueError
  {
    if name == "rolling_avg" then Ok(RollingAvg)
    else if name == "savitzky_golay" then Ok(SavitzkyGolay)
    else if name == "fda_bspline" then Ok(FdaBspline)
    else Err(ValueError)
  }

  /** The keyword parameters each smoother accepts besides the series. */
  function Parameters(m: Smoother): set<string>
  {
    match m
    case RollingAvg => {"window"}
    case SavitzkyGolay => {"window_size", "poly_order"}
    case FdaBspline => {"n_basis"}
  }

  /** A keyword argument, or its default. */
  function Arg(kwargs: map<string, int>, name: string, default: int): int
  {
    if name in kwargs then kwargs[name] else default
  }

  /** `scipy.signal.savgol_filter(series, window, order)`: not part of this
      model beyond returning one value per sample. */
  type Filter = f: (Column, int, int) -> Column | forall s, w, p :: |f(s, w, p)| == |s|
    witness (s: Column, w: int, p: int) => s

  /** The sum of the present values. */
  function SumPresent(s: Column): real
  {
    if s == [] then 0.0 else SumPresent(s[..|s| - 1]) + (if s[|s| - 1].Some? then s[|s| - 1].value else 0.0)
  }

  /** `series.rolling(window=w, center=True).mean()` at position i: the
      window runs from w / 2 samples before i to (w - 1) / 2 samples after
      it, and the mean is missing unless all w samples exist and are
      present. */
  function Window(s: Column, i: int, w: nat): (r: Option<real>)
    ensures r.Some? <==>
      && w > 0 && 0 <= i - w / 2 && i + (w - 1) / 2 < |s|
      && forall j :: i - w / 2 <= j <= i + (w - 1) / 2 ==> s[j].Some?
    ensures r.Some? ==> r.value * w as real == SumPresent(s[i - w / 2..i + (w - 1) / 2 + 1])
  {
    var hi := i + (w - 1) / 2 + 1;
    var lo := hi - w;
    if w == 0 || lo < 0 || hi > |s| || exists j :: lo <= j < hi && s[j].None? then None
    else Some(SumPresent(s[lo..hi]) / w as real)
  }

  function RollingMean(s: Column, w: nat): (r: Column)
    ensures |r| == |s|
  {
    seq(|s|, i requires 0 <= i < |s| => Window(s, i, w))
  }

  /** One smoother on one group's series, with the keyword arguments bound
      to their defaults (window 5; window 13, order 3). */
  function SmoothGroup(m: Smoother, kwargs: map<string, int>, filter: Filter, s: Column): (r: Result<Column>)
    ensures r.Ok? ==> |r.value| == |s|
    ensures r.Err? ==> r.error == ValueError
  {
    match m
    case RollingAvg =>
      var w := Arg(kwargs, "window", 5);
      if w < 0 then Err(ValueError) else Ok(RollingMean(s, w))
    case SavitzkyGolay =>
      var size := Arg(kwargs, "window_size", 13);
      if |s| < size then Err(ValueError) else Ok(filter(s, size, Arg(kwargs, "poly_order", 3)))
    case FdaBspline =>
      // `_fda_bspline` is `pass` and returns None; an all-missing column stands in for it
      Ok(seq(|s|, _ => None))
  }

  /** The keys that name at least one row. */
  function GroupKeys(keys: Column): set<real>
  {
    set i | 0 <= i < |keys| && keys[i].Some? :: keys[i].value
  }

  /** The groups whose smoother raised ValueError. */
  function Flagged(m: Smoother, kwargs: map<string, int>, filter: Filter, signal: Column, keys: Column): set<real>
    requires |signal| == |keys|
  {
    set k | k in GroupKeys(keys) && SmoothGroup(m, kwargs, filter, GroupValues(signal, keys, k)).Err?
  }

  /** The output column: each row takes its group's result at its own
      position in the group; rows of a flagged group and rows without a
      group are missing. */
  function Smoothed(m: Smoother, kwargs: map<string, int>, filter: Filter, signal: Column, keys: Column): (r: Column)
    requires |signal| == |keys|
    ensures |r| == |signal|
  {
    seq(|signal|, i requires 0 <= i < |signal| =>
      if keys[i].None? then None
      else
        var g := SmoothGroup(m, kwargs, filter, GroupValues(signal, keys, keys[i].value));
        GroupValuesAtRank(signal, keys, i);
        if g.Err? then None else g.value[Rank(keys, i)])
  }

  class SignalSmoothing {
    const data: Frame
    const signalCol: string
    const groupCol: string
    const outputCol: string

    constructor (data: Frame, signalCol: string, groupCol: string, outputCol: string)
      ensures this.data == data && this.signalCol == signalCol
      ensures this.groupCol == groupCol && this.outputCol == outputCol
    {
      this.data := data;
      this.signalCol := signalCol;
      this.groupCol := groupCol;
      this.outputCol := outputCol;
    }

    /** `group_apply(method, **kwargs)`: writes the smoothed column into
        the shared frame and returns the list of flagged groups that the
        source only prints as a warning. An unknown name
        is a ValueError and a missing group column a KeyError. When some
        row has a group, a missing signal column is a KeyError and an
        argument the smoother does not take is a TypeError; neither is
        caught per group. */
    method GroupApply(name: string, kwargs: map<string, int>, filter: Filter) returns (r: Result<set<real>>)
      requires data.Valid()
      modifies data
      ensures data.Valid()
      ensures SmootherNamed(name).Err? ==> r == Err(ValueError) && data.columns == old(data.columns)
      ensures SmootherNamed(name).Ok? && groupCol !in old(data.columns) ==>
        r == Err(KeyError) && data.columns == old(data.columns)
      ensures SmootherNamed(name).Ok? && groupCol in old(data.columns) && GroupKeys(old(data.columns[groupCol])) == {} ==>
        r == Ok({}) && data.columns == old(data.columns)[outputCol := seq(old(data.rows), _ => None)]
      ensures SmootherNamed(name).Ok? && groupCol in old(data.columns) && GroupKeys(old(data.columns[groupCol])) != {} ==>
        (signalCol !in old(data.columns) ==> r == Err(KeyError) && data.columns == old(data.columns))
        && (signalCol in old(data.columns) && !(kwargs.Keys <= Parameters(SmootherNamed(name).value)) ==>
             r == Err(TypeError) && data.columns == old(data.columns))
      ensures (SmootherNamed(name).Ok? && groupCol in old(data.columns) && GroupKeys(old(data.columns[groupCol])) != {}
               && signalCol in old(data.columns) && kwargs.Keys <= Parameters(SmootherNamed(name).value)) ==>
        var m := SmootherNamed(name).value;
        var signal := old(data.columns[signalCol]);
        var keys := old(data.columns[groupCol]);
        r == Ok(Flagged(m, kwargs, filter, signal, keys))
        && data.columns == old(data.columns)[outputCol := Smoothed(m, kwargs, filter, signal, keys)]
    {
      var found := SmootherNamed(name);
      if found.Err? {
        return Err(found.error);
      }
      if groupCol !in data.columns {
        return Err(KeyError);
      }
      var keys := data.columns[groupCol];
      if GroupKeys(keys) == {} {
        data.Put(outputCol, seq(data.rows, _ => None));
        return Ok({});
      }
      if signalCol !in data.columns {
        return Err(KeyError);
      }
      if !(kwargs.Keys <= Parameters(found.value)) {
        return Err(TypeError);
      }
      var signal := data.columns[signalCol];
      var flagged := Flagged(found.value, kwargs, filter, signal, keys);
      data.Put(outputCol, Smoothed(found.value, kwargs, filter, signal, keys));
      return Ok(flagged);
    }
  }

  // ---------------------------------------------------------------------------
  // Properties

  lemma {:induction false} SumPresentConstant(s: Column, c: real)
    requires forall j :: 0 <= j < |s| ==> s[j] == Some(c)
    ensures SumPresent(s) == |s| as real * c
  {
    if s != [] {
      SumPresentConstant(s[..|s| - 1], c);
    }
  }

  /** A rolling mean over a run of one constant value is that value
      wherever the whole window fits, and missing elsewhere. */
  lemma RollingConstant(s: Column, c: real, w: nat, i: nat)
    requires forall j :: 0 <= j < |s| ==> s[j] == Some(c)
    requires i < |s| && w > 0
    ensures var hi := i + (w - 1) / 2 + 1;
      RollingMean(s, w)[i] == if hi - w < 0 || hi > |s| then None else Some(c)
  {
    var hi := i + (w - 1) / 2 + 1;
    if 0 <= hi - w && hi <= |s| {
      var win := s[hi - w..hi];
      SumPresentConstant(win, c);
      assert !exists j :: hi - w <= j < hi && s[j].None? by {
        forall j | hi - w <= j < hi ensures s[j].Some? {
        }
      }
      assert |win| == w && SumPresent(win) == w as real * c;
      MeanOfConstant(w, c);
      assert Window(s, i, w) == Some(SumPresent(win) / w as real);
    }
  }

  lemma MeanOfConstant(w: nat, c: real)
    requires w > 0
    ensures (w as real * c) / w as real == c
  {
  }

  /** A window of one sample gives the series back. */
  lemma RollingOneIdentity(s: Column)
    ensures RollingMean(s, 1) == s
  {
    forall i | 0 <= i < |s|
      ensures RollingMean(s, 1)[i] == s[i]
    {
      var win := s[i..i + 1];
      assert win == [s[i]] && win[..0] == [];
      if s[i].Some? {
        assert SumPresent(win) == s[i].value;
        assert !exists j :: i <= j < i + 1 && s[j].None?;
      }
    }
  }

  /** A row of an unflagged group takes its group's result at its rank;
      a row of a flagged group is missing. */
  lemma SmoothedRow(m: Smoother, kwargs: map<string, int>, filter: Filter, signal: Column, keys: Column, i: nat)
    requires |signal| == |keys| && i < |keys| && keys[i].Some?
    ensures var g := SmoothGroup(m, kwargs, filter, GroupValues(signal, keys, keys[i].value));
      (keys[i].value in Flagged(m, kwargs, filter, signal, keys) <==> g.Err?)
      && (g.Err? ==> Smoothed(m, kwargs, filter, signal, keys)[i].None?)
      && (g.Ok? ==> Rank(keys, i) < |g.value| && Smoothed(m, kwargs, filter, signal, keys)[i] == g.value[Rank(keys, i)])
  {
    var k := keys[i].value;
    assert k in GroupKeys(keys);
    FlaggedMember(m, kwargs, filter, signal, keys, k);
    GroupValuesAtRank(signal, keys, i);
  }

  lemma FlaggedMember(m: Smoother, kwargs: map<string, int>, filter: Filter, signal: Column, keys: Column, k: real)
    requires |signal| == |keys| && k in GroupKeys(keys)
    ensures k in Flagged(m, kwargs, filter, signal, keys) <==> SmoothGroup(m, kwargs, filter, GroupValues(signal, keys, k)).Err?
  {
  }

  /** Rolling with a one-sample window writes every grouped row's own
      signal value back to it: results are aligned on the original rows. */
  lemma WindowOneKeepsSignal(kwargs: map<string, int>, filter: Filter, signal: Column, keys: Column, i: nat)
    requires |signal| == |keys| && i < |keys| && keys[i].Some?
    requires "window" in kwargs && kwargs["window"] == 1
    ensures Smoothed(RollingAvg, kwargs, filter, signal, keys)[i] == signal[i]
  {
    GroupValuesAtRank(signal, keys, i);
    RollingOneIdentity(GroupValues(signal, keys, keys[i].value));
  }

  /** A group shorter than the Savitzky-Golay window is flagged and left
      missing. */
  lemma ShortGroupFlagged(kwargs: map<string, int>, filter: Filter, signal: Column, keys: Column, i: nat)
    requires |signal| == |keys| && i < |keys| && keys[i].Some?
    requires |GroupValues(signal, keys, keys[i].value)| < Arg(kwargs, "window_size", 13)
    ensures keys[i].value in Flagged(SavitzkyGolay, kwargs, filter, signal, keys)
    ensures Smoothed(SavitzkyGolay, kwargs, filter, signal, keys)[i].None?
  {
    SmoothedRow(SavitzkyGolay, kwargs, filter, signal, keys, i);
  }
}
