/** Finite differences of a column within each group of rows (one group
    per beat), written back into the shared frame. */
module Derivatives {
  import opened Wrappers
  import opened Groups
  import opened Frames

  const Smoothed := "sig_smooth"
  const FirstDerivative := "sig_1deriv"
  const SecondDerivative := "sig_2deriv"
  const ThirdDerivative := "sig_3deriv"

  /** `group[column].diff() / group[time].diff()` for every group, aligned
      back on the rows: the first row of a group, a row without a group
      and a row next to a missing value get `None`. */
  function Diff(v: Column, t: Column, keys: Column): (d: Column)
    requires |v| == |t| == |keys|
    ensures |d| == |v|
  {
    seq(|v|, i requires 0 <= i < |v| =>
      var p := Prev(keys, i);
      if p < 0 || v[i].None? || v[p].None? || t[i].None? || t[p].None? || t[i].value == t[p].value then None
      else Some((v[i].value - v[p].value) / (t[i].value - t[p].value)))
  }

  /** The n-th difference quotient of `base`. */
  function Derivative(base: Column, t: Column, keys: Column, n: nat): (d: Column)
    requires |base| == |t| == |keys|
    ensures |d| == |base|
  {
    if n == 0 then base else Diff(Derivative(base, t, keys, n - 1), t, keys)
  }

  /** The required columns that the frame lacks, in the order they are listed. */
  function Missing(columns: set<string>, timeCol: string, signalCol: string, groupCol: string): (m: seq<string>)
    ensures forall c :: c in m <==> c in [timeCol, signalCol, groupCol] && c !in columns
  {
    (if timeCol in columns then [] else [timeCol])
    + (if signalCol in columns then [] else [signalCol])
    + (if groupCol in columns then [] else [groupCol])
  }

  class DerivativesCalculator {
    const data: Frame
    const timeCol: string
    const signalCol: string
    const groupCol: string

    ghost predicate Valid()
      reads this, data
    {
      data.Valid() && timeCol in data.columns && groupCol in data.columns
      && timeCol !in {FirstDerivative, SecondDerivative, ThirdDerivative}
      && groupCol !in {FirstDerivative, SecondDerivative, ThirdDerivative}
    }

    function Time(): Column
      reads this, data
      requires Valid()
    {
      data.columns[timeCol]
    }

    function Keys(): Column
      reads this, data
      requires Valid()
    {
      data.columns[groupCol]
    }

    constructor Make(data: Frame, timeCol: string, signalCol: string, groupCol: string)
      requires data.Valid()
      requires Missing(data.columns.Keys, timeCol, signalCol, groupCol) == []
      requires timeCol !in {FirstDerivative, SecondDerivative, ThirdDerivative}
      requires groupCol !in {FirstDerivative, SecondDerivative, ThirdDerivative}
      ensures this.data == data && this.timeCol == timeCol && this.signalCol == signalCol && this.groupCol == groupCol
      ensures Valid()
    {
      this.data := data;
      this.timeCol := timeCol;
      this.signalCol := signalCol;
      this.groupCol := groupCol;
    }

    /** The `__init__` with its `_validate_input` check: a ValueError when
        any of the three named columns is missing. The calculator keeps a
        reference to the caller's frame, not a copy. */
    static method New(data: Frame, timeCol: string, signalCol: string, groupCol: string)
      returns (r: Result<DerivativesCalculator>)
      requires data.Valid()
      requires timeCol !in {FirstDerivative, SecondDerivative, ThirdDerivative}
      requires groupCol !in {FirstDerivative, SecondDerivative, ThirdDerivative}
      ensures r.Err? <==> Missing(data.columns.Keys, timeCol, signalCol, groupCol) != []
      ensures r.Err? ==> r.error == ValueError
      ensures r.Ok? ==> r.value.Valid() && r.value.data == data && fresh(r.value)
    {
      if Missing(data.columns.Keys, timeCol, signalCol, groupCol) != [] {
        return Err(ValueError);
      }
      var c := new DerivativesCalculator.Make(data, timeCol, signalCol, groupCol);
      return Ok(c);
    }

    /** The derivative of a column within each group; a KeyError when the
        column is missing. */
    method ComputeDerivative(column: string) returns (r: Result<Column>)
      requires Valid()
      ensures column !in data.columns ==> r == Err(KeyError)
      ensures column in data.columns ==> r == Ok(Diff(data.columns[column], Time(), Keys()))
    {
      if column !in data.columns {
        return Err(KeyError);
      }
      return Ok(Diff(data.columns[column], Time(), Keys()));
    }

    /** Differentiates `sig_smooth` (whatever the signal column is) into
        `sig_1deriv`. */
    method ComputeFirstDerivative() returns (r: Result<()>)
      requires Valid()
      modifies data
      ensures Valid() && Time() == old(Time()) && Keys() == old(Keys())
      ensures Smoothed !in old(data.columns) ==> r == Err(KeyError) && data.columns == old(data.columns)
      ensures Smoothed in old(data.columns) ==> (r == Ok(()) &&
        data.columns == old(data.columns)[FirstDerivative := Derivative(old(data.columns[Smoothed]), Time(), Keys(), 1)])
    {
      var d := ComputeDerivative(Smoothed);
      if d.Err? {
        return Err(d.error);
      }
      data.Put(FirstDerivative, d.value);
      return Ok(());
    }

    /** Differentiates `sig_1deriv` into `sig_2deriv`, computing the first
        derivative beforehand when the frame has none. */
    method ComputeSecondDerivative() returns (r: Result<()>)
      requires Valid()
      modifies data
      ensures Valid() && Time() == old(Time()) && Keys() == old(Keys())
      ensures FirstDerivative in old(data.columns) ==> (r == Ok(()) &&
        data.columns == old(data.columns)[SecondDerivative := Derivative(old(data.columns[FirstDerivative]), Time(), Keys(), 1)])
      ensures FirstDerivative !in old(data.columns) && Smoothed in old(data.columns) ==> (r == Ok(()) &&
        data.columns == old(data.columns)[FirstDerivative := Derivative(old(data.columns[Smoothed]), Time(), Keys(), 1)]
                                         [SecondDerivative := Derivative(old(data.columns[Smoothed]), Time(), Keys(), 2)])
      ensures FirstDerivative !in old(data.columns) && Smoothed !in old(data.columns) ==>
        r == Err(KeyError) && data.columns == old(data.columns)
    {
      if FirstDerivative !in data.columns {
        var first := ComputeFirstDerivative();
        if first.Err? {
          return first;
        }
      }
      var d := ComputeDerivative(FirstDerivative);
      data.Put(SecondDerivative, d.value);
      return Ok(());
    }

    /** Differentiates `sig_2deriv` into `sig_3deriv`, computing the lower
        derivatives beforehand when the frame has none. */
    method ComputeThirdDerivative() returns (r: Result<()>)
      requires Valid()
      modifies data
      ensures Valid() && Time() == old(Time()) && Keys() == old(Keys())
      ensures SecondDerivative in old(data.columns) ==> (r == Ok(()) &&
        data.columns == old(data.columns)[ThirdDerivative := Derivative(old(data.columns[SecondDerivative]), Time(), Keys(), 1)])
      ensures SecondDerivative !in old(data.columns) && FirstDerivative in old(data.columns) ==> (r == Ok(()) &&
        data.columns == old(data.columns)[SecondDerivative := Derivative(old(data.columns[FirstDerivative]), Time(), Keys(), 1)]
                                         [ThirdDerivative := Derivative(old(data.columns[FirstDerivative]), Time(), Keys(), 2)])
      ensures SecondDerivative !in old(data.columns) && FirstDerivative !in old(data.columns) && Smoothed in old(data.columns) ==>
        r == Ok(()) &&
        data.columns == old(data.columns)[FirstDerivative := Derivative(old(data.columns[Smoothed]), Time(), Keys(), 1)]
                                         [SecondDerivative := Derivative(old(data.columns[Smoothed]), Time(), Keys(), 2)]
                                         [ThirdDerivative := Derivative(old(data.columns[Smoothed]), Time(), Keys(), 3)]
      ensures SecondDerivative !in old(data.columns) && FirstDerivative !in old(data.columns) && Smoothed !in old(data.columns) ==>
        r == Err(KeyError) && data.columns == old(data.columns)
    {
      if SecondDerivative !in data.columns {
        var second := ComputeSecondDerivative();
        if second.Err? {
          return second;
        }
      }
      var d := ComputeDerivative(SecondDerivative);
      data.Put(ThirdDerivative, d.value);
      return Ok(());
    }
  }

  // ---------------------------------------------------------------------------
  // Properties

  /** A difference never spans two groups: row i is differenced with the
      previous row of its own group, and the first row of a group has none. */
  lemma DiffWithinGroup(v: Column, t: Column, keys: Column, i: nat)
    requires |v| == |t| == |keys| && i < |keys|
    ensures Diff(v, t, keys)[i].Some? ==>
      var p := Prev(keys, i);
      0 <= p < i && keys[p] == keys[i] && keys[i].Some?
      && Diff(v, t, keys)[i].value == (v[i].value - v[p].value) / (t[i].value - t[p].value)
    ensures keys[i].Some? && Rank(keys, i) == 0 ==> Diff(v, t, keys)[i].None?
  {
  }

  /** On a table whose groups are contiguous, row i is differenced with
      row i - 1 when both rows belong to the same group. */
  lemma DiffContiguous(v: Column, t: Column, keys: Column, i: nat)
    requires |v| == |t| == |keys| && 0 < i < |keys|
    requires keys[i].Some? && keys[i - 1] == keys[i]
    requires v[i].Some? && v[i - 1].Some? && t[i].Some? && t[i - 1].Some? && t[i].value != t[i - 1].value
    ensures Diff(v, t, keys)[i] == Some((v[i].value - v[i - 1].value) / (t[i].value - t[i - 1].value))
  {
    PrevContiguous(keys, i);
  }

  /** The first n rows of every group are missing in the n-th derivative. */
  lemma {:induction false} LeadingRowsMissing(base: Column, t: Column, keys: Column, n: nat, i: nat)
    requires |base| == |t| == |keys| && i < |keys| && keys[i].Some?
    requires Rank(keys, i) < n
    ensures Derivative(base, t, keys, n)[i].None?
  {
    var p := Prev(keys, i);
    if p >= 0 {
      PrevRank(keys, i);
      LeadingRowsMissing(base, t, keys, n - 1, p);
    }
  }
}
