/** A pandas DataFrame as the biomarker classes share it: named numeric
    columns of one common length, updated in place. */
module Frames {
  import opened Wrappers

  /** One column; `None` is a missing value (NaN, NA or None). */
  type Column = seq<Option<real>>

  /** Numeric columns and boolean flag columns, all `rows` long. */
  class Frame {
    var columns: map<string, Column>
    var flags: map<string, seq<bool>>
    var rows: nat

    ghost predicate Valid()
      reads this
    {
      (forall c :: c in columns ==> |columns[c]| == rows)
      && (forall c :: c in flags ==> |flags[c]| == rows)
    }

    constructor (columns: map<string, Column>, rows: nat)
      requires forall c :: c in columns ==> |columns[c]| == rows
      ensures this.columns == columns && this.flags == map[] && this.rows == rows
      ensures Valid()
    {
      this.columns := columns;
      this.flags := map[];
      this.rows := rows;
    }

    /** `df[name] = values`: adds the column or replaces it. */
    method Put(name: string, values: Column)
      requires Valid() && |values| == rows
      modifies this
      ensures columns == old(columns)[name := values] && flags == old(flags) && rows == old(rows)
      ensures Valid()
    {
      columns := columns[name := values];
    }

    /** `df[name] = mask` for a boolean column. */
    method PutFlags(name: string, values: seq<bool>)
      requires Valid() && |values| == rows
      modifies this
      ensures flags == old(flags)[name := values] && columns == old(columns) && rows == old(rows)
      ensures Valid()
    {
      flags := flags[name := values];
    }
  }
}
