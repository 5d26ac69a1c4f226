/** The parsed table the dashboard works on, and the sequence helpers that
    every stage of the pipeline shares (boolean-mask selection of columns and
    of rows, first index of a name). */
module Frames {

  datatype Option<T> = None | Some(value: T)

  datatype Result<T, E> = Success(value: T) | Failure(error: E)

  /** A parsed cell value: a number or a piece of text. Booleans that the CSV
      parser would turn into True/False are represented as the numbers 1 and 0. */
  datatype Value = Num(n: real) | Text(s: string)

  /** A cell of the table; None is a missing value (NaN once parsed). */
  type Cell = Option<Value>

  /** A parsed table, row by row: the header, then one sequence of cells per row. */
  datatype Frame = Frame(columns: seq<string>, rows: seq<seq<Cell>>) {
    /** Every row has one cell per column. */
    predicate Valid() {
      forall r | 0 <= r < |rows| :: |rows[r]| == |columns|
    }
  }

  predicate AllDistinct<T(==)>(s: seq<T>) {
    forall i, j | 0 <= i < j < |s| :: s[i] != s[j]
  }

  /** The indices at which a boolean mask is true, in increasing order. */
  function Positions(keep: seq<bool>): (p: seq<nat>)
    ensures forall k | 0 <= k < |p| :: p[k] < |keep| && keep[p[k]]
    ensures forall k, l | 0 <= k < l < |p| :: p[k] < p[l]
    ensures forall i | 0 <= i < |keep| && keep[i] :: i in p
  {
    if keep == [] then []
    else
      var n := |keep| - 1;
      Positions(keep[..n]) + (if keep[n] then [n] else [])
  }

  /** The elements of s at which the mask is true, in their original order
      (pandas' boolean indexing, df.loc[mask] or df.loc[:, mask]). */
  function Select<T>(s: seq<T>, keep: seq<bool>): seq<T>
    requires |keep| == |s|
  {
    var p := Positions(keep);
    seq(|p|, k requires 0 <= k < |p| => s[p[k]])
  }

  /** Position of the first occurrence of x in s. */
  function IndexOf<T(==)>(s: seq<T>, x: T): (i: nat)
    requires x in s
    ensures i < |s| && s[i] == x && x !in s[..i]
  {
    if s[0] == x then 0 else 1 + IndexOf(s[1..], x)
  }

  /** The cells of column j, one per row (pandas' df[c] for the column at j). */
  function Column(df: Frame, j: nat): (c: seq<Cell>)
    requires df.Valid() && j < |df.columns|
  {
    seq(|df.rows|, r requires 0 <= r < |df.rows| => df.rows[r][j])
  }

  /** r consists of the columns of df at positions p, in that order, each
      with its cells in every row. */
  predicate PicksColumns(r: Frame, df: Frame, p: seq<nat>)
    requires r.Valid() && df.Valid()
  {
    && |r.columns| == |p| && |r.rows| == |df.rows|
    && (forall k | 0 <= k < |p| :: p[k] < |df.columns| && r.columns[k] == df.columns[p[k]])
    && (forall i, k | 0 <= i < |df.rows| && 0 <= k < |p| :: r.rows[i][k] == df.rows[i][p[k]])
  }

  /** Keeps the columns whose mask entry is true, in every row. */
  function KeepColumns(df: Frame, keep: seq<bool>): (r: Frame)
    requires df.Valid() && |keep| == |df.columns|
    ensures r.Valid()
    ensures |r.rows| == |df.rows|
    ensures PicksColumns(r, df, Positions(keep))
  {
    Frame(Select(df.columns, keep),
          seq(|df.rows|, i requires 0 <= i < |df.rows| => Select(df.rows[i], keep)))
  }
}
