/**
 * The part of a pandas DataFrame the model needs: an index, an ordered list of distinct
 * column labels, and rows mapping every label to a cell value; and the column and row
 * operations the modelled code performs on frames.
 */
module Tables {
  import opened Grouping

  /** A cell value. `Time` is a timestamp in nanoseconds since 1970-01-01 00:00. */
  datatype Value =
    | Int(i: int)
    | Real(r: real)
    | Str(s: string)
    | Bool(b: bool)
    | Time(ticks: int)

  type Row = map<string, Value>

  datatype Table = Table(index: seq<Value>, columns: seq<string>, rows: seq<Row>)

  function Labels(cols: seq<string>): set<string>
  {
    set c | c in cols
  }

  /** One index label per row, distinct column labels, and every row holding exactly the columns. */
  predicate WellFormed(t: Table)
  {
    && |t.index| == |t.rows|
    && Distinct(t.columns)
    && forall i :: 0 <= i < |t.rows| ==> t.rows[i].Keys == Labels(t.columns)
  }

  /** `cols` without the labels in `excluded`, in their original order (`[c for c in cols if c not in excluded]`). */
  function Without(cols: seq<string>, excluded: seq<string>): (r: seq<string>)
    ensures forall c :: c in r <==> c in cols && c !in excluded
    ensures IsSubsequence(r, cols)
    ensures Distinct(cols) ==> Distinct(r)
  {
    if cols == [] then []
    else if cols[0] in excluded then Without(cols[1..], excluded)
    else [cols[0]] + Without(cols[1..], excluded)
  }

  /** The values of column `c`, row by row (`df[c]`). */
  function Column(t: Table, c: string): (r: seq<Value>)
    requires WellFormed(t) && c in t.columns
    ensures |r| == |t.rows|
    ensures forall i :: 0 <= i < |r| ==> r[i] == t.rows[i][c]
  {
    seq(|t.rows|, i requires 0 <= i < |t.rows| => t.rows[i][c])
  }

  /** The rows at positions `idxs`, in that order, with their index labels (`df.take(idxs)`). */
  function SelectRows(t: Table, idxs: seq<nat>): (r: Table)
    requires forall k :: 0 <= k < |idxs| ==> idxs[k] < |t.rows|
    requires |t.index| == |t.rows|
    ensures WellFormed(t) ==> WellFormed(r)
    ensures r.columns == t.columns && |r.rows| == |r.index| == |idxs|
    ensures forall k :: 0 <= k < |idxs| ==> r.rows[k] == t.rows[idxs[k]] && r.index[k] == t.index[idxs[k]]
  {
    Table(seq(|idxs|, k requires 0 <= k < |idxs| => t.index[idxs[k]]),
          t.columns,
          seq(|idxs|, k requires 0 <= k < |idxs| => t.rows[idxs[k]]))
  }

  function RestrictRow(row: Row, drop: seq<string>): Row
  {
    map c | c in row && c !in drop :: row[c]
  }

  /** The frame without the columns `drop`; rows and index are kept (`df.drop(columns=drop)`). */
  function DropColumns(t: Table, drop: seq<string>): (r: Table)
    requires WellFormed(t)
    ensures WellFormed(r)
    ensures r.index == t.index && |r.rows| == |t.rows|
    ensures r.columns == Without(t.columns, drop)
    ensures forall c :: c in drop ==> c !in r.columns
    ensures forall i, c :: 0 <= i < |r.rows| && c in r.rows[i] ==> c in t.rows[i] && r.rows[i][c] == t.rows[i][c]
  {
    var cols := Without(t.columns, drop);
    var r := Table(t.index, cols, seq(|t.rows|, i requires 0 <= i < |t.rows| => RestrictRow(t.rows[i], drop)));
    assert forall i :: 0 <= i < |r.rows| ==> r.rows[i].Keys == Labels(cols);
    r
  }

  /**
   * Column assignment `df[c] = vals`: an existing column `c` is overwritten where it
   * stands, a new one is appended after the last column.
   */
  function SetColumn(t: Table, c: string, vals: seq<Value>): (r: Table)
    requires WellFormed(t) && |vals| == |t.rows|
    ensures WellFormed(r)
    ensures r.index == t.index && |r.rows| == |t.rows|
    ensures r.columns == if c in t.columns then t.columns else t.columns + [c]
    ensures forall i :: 0 <= i < |r.rows| ==> c in r.rows[i] && r.rows[i][c] == vals[i]
    ensures forall i, d :: 0 <= i < |r.rows| && d in t.rows[i] && d != c ==> d in r.rows[i] && r.rows[i][d] == t.rows[i][d]
  {
    var cols := if c in t.columns then t.columns else t.columns + [c];
    assert Labels(cols) == Labels(t.columns) + {c};
    Table(t.index, cols, seq(|t.rows|, i requires 0 <= i < |t.rows| => t.rows[i][c := vals[i]]))
  }

  /** Scalar column assignment `df[c] = v`: every row gets `v` in column `c`. */
  function Broadcast(t: Table, c: string, v: Value): (r: Table)
    requires WellFormed(t)
    ensures WellFormed(r)
    ensures r.index == t.index && |r.rows| == |t.rows|
    ensures r.columns == if c in t.columns then t.columns else t.columns + [c]
    ensures forall i :: 0 <= i < |r.rows| ==> c in r.rows[i] && r.rows[i][c] == v
    ensures forall i, d :: 0 <= i < |r.rows| && d in t.rows[i] && d != c ==> d in r.rows[i] && r.rows[i][d] == t.rows[i][d]
  {
    SetColumn(t, c, seq(|t.rows|, _ => v))
  }

  /** A DataFrame object whose contents callers see change when it is assigned to in place. */
  class DataFrame {
    var table: Table

    constructor (table: Table)
      ensures this.table == table
    {
      this.table := table;
    }
  }
}
