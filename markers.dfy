/** Marker selection: the columns with exactly two distinct non-missing
    values, without the label column Diagnosis and the demographic column
    Gender. */
module MarkerSelection {
  import opened Frames

  const Target := "Diagnosis"
  const Gender := "Gender"

  /** The distinct non-missing values of a column. */
  function Observed(cells: seq<Cell>): set<Value> {
    set i | 0 <= i < |cells| && cells[i].Some? :: cells[i].value
  }

  /** Series.nunique(), which ignores missing values. */
  function NUnique(cells: seq<Cell>): nat {
    |Observed(cells)|
  }

  predicate IsBinary(df: Frame, j: nat)
    requires df.Valid() && j < |df.columns|
  {
    NUnique(Column(df, j)) == 2
  }

  /** [c for c in df.columns if df[c].nunique() == 2] */
  function BinaryCols(df: Frame): seq<string>
    requires df.Valid()
  {
    Select(df.columns, seq(|df.columns|, j requires 0 <= j < |df.columns| => IsBinary(df, j)))
  }

  /** The label column, plus Gender when the table has one. */
  function RemoveCols(df: Frame): seq<string> {
    [Target] + (if Gender in df.columns then [Gender] else [])
  }

  /** [c for c in binary_cols if c not in remove_cols] */
  function Markers(df: Frame): seq<string>
    requires df.Valid()
  {
    var binary := BinaryCols(df);
    var remove := RemoveCols(df);
    Select(binary, seq(|binary|, k requires 0 <= k < |binary| => binary[k] !in remove))
  }

  lemma IndexOfDistinct<T>(s: seq<T>, i: nat)
    requires AllDistinct(s) && i < |s|
    ensures IndexOf(s, s[i]) == i
  {
  }

  /** A column of a table with distinct names is a marker exactly when it
      has two distinct non-missing values and is neither Diagnosis nor Gender. */
  lemma MarkerIff(df: Frame, j: nat)
    requires df.Valid() && AllDistinct(df.columns) && j < |df.columns|
    ensures df.columns[j] in Markers(df) <==>
      IsBinary(df, j) && df.columns[j] != Target && df.columns[j] != Gender
  {
    var c := df.columns[j];
    var isBin := seq(|df.columns|, j requires 0 <= j < |df.columns| => IsBinary(df, j));
    var p := Positions(isBin);
    var binary := BinaryCols(df);
    var remove := RemoveCols(df);
    var keep := seq(|binary|, k requires 0 <= k < |binary| => binary[k] !in remove);
    var q := Positions(keep);
    var markers := Markers(df);
    if c in markers {
      var k :| 0 <= k < |markers| && markers[k] == c;
      assert markers[k] == binary[q[k]] == df.columns[p[q[k]]];
      assert p[q[k]] == j;
      assert c !in remove;
    }
    if IsBinary(df, j) && c != Target && c != Gender {
      assert isBin[j];
      var k :| 0 <= k < |p| && p[k] == j;
      assert binary[k] == c;
      assert keep[k];
      var l :| 0 <= l < |q| && q[l] == k;
      assert markers[l] == c;
    }
  }

  /** Every marker is a column of the table. */
  lemma MarkersAreColumns(df: Frame)
    requires df.Valid()
    ensures forall m | m in Markers(df) :: m in df.columns
  {
    var isBin := seq(|df.columns|, j requires 0 <= j < |df.columns| => IsBinary(df, j));
    var p := Positions(isBin);
    var binary := BinaryCols(df);
    var remove := RemoveCols(df);
    var keep := seq(|binary|, k requires 0 <= k < |binary| => binary[k] !in remove);
    var q := Positions(keep);
    var markers := Markers(df);
    forall k | 0 <= k < |markers|
      ensures markers[k] == df.columns[p[q[k]]]
    {
    }
  }

  /** The markers keep the table's column order and name distinct columns. */
  lemma MarkersInColumnOrder(df: Frame)
    requires df.Valid() && AllDistinct(df.columns)
    ensures forall m | m in Markers(df) :: m in df.columns
    ensures forall k, l | 0 <= k < l < |Markers(df)| ::
      IndexOf(df.columns, Markers(df)[k]) < IndexOf(df.columns, Markers(df)[l])
  {
    var isBin := seq(|df.columns|, j requires 0 <= j < |df.columns| => IsBinary(df, j));
    var p := Positions(isBin);
    var binary := BinaryCols(df);
    var remove := RemoveCols(df);
    var keep := seq(|binary|, k requires 0 <= k < |binary| => binary[k] !in remove);
    var q := Positions(keep);
    var markers := Markers(df);
    forall k | 0 <= k < |markers|
      ensures markers[k] == df.columns[p[q[k]]] && IndexOf(df.columns, markers[k]) == p[q[k]]
    {
      IndexOfDistinct(df.columns, p[q[k]]);
    }
  }
}
