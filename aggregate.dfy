/** The "Other" row filter and the per-diagnosis mean of each marker
    (df_plot.groupby("Diagnosis")[markers].mean()). */
module Aggregate {
  import opened Frames
  import opened MarkerSelection

  const Other: Value := Text("Other")

  /** df_plot["Diagnosis"] != "Other": a missing label compares unequal, so
      its row passes. */
  function NotOther(df: Frame, li: nat): seq<bool>
    requires df.Valid() && li < |df.columns|
  {
    seq(|df.rows|, r requires 0 <= r < |df.rows| => df.rows[r][li] != Some(Other))
  }

  /** The filter applied to df_plot: rows labelled "Other" go unless they are
      to be included. */
  function FilterRows(df: Frame, li: nat, includeOther: bool): (r: Frame)
    requires df.Valid() && li < |df.columns|
    ensures r.Valid() && r.columns == df.columns
  {
    if includeOther then df else df.(rows := Select(df.rows, NotOther(df, li)))
  }

  /** With the flag set the table is unchanged; without it, the rows left are
      exactly the rows not labelled "Other", in their original order. */
  lemma FilterRowsKeepsOrder(df: Frame, li: nat)
    requires df.Valid() && li < |df.columns|
    ensures FilterRows(df, li, true) == df
    ensures var f := FilterRows(df, li, false); var p := Positions(NotOther(df, li));
      && |f.rows| == |p|
      && (forall k | 0 <= k < |p| :: f.rows[k] == df.rows[p[k]] && f.rows[k][li] != Some(Other))
      && (forall k, l | 0 <= k < l < |p| :: p[k] < p[l])
      && (forall r | 0 <= r < |df.rows| :: r in p <==> df.rows[r][li] != Some(Other))
  {
    var p := Positions(NotOther(df, li));
    forall r | 0 <= r < |df.rows| && r in p
      ensures df.rows[r][li] != Some(Other)
    {
      var k :| 0 <= k < |p| && p[k] == r;
    }
  }

  /** The group keys of df.groupby("Diagnosis"): the distinct non-missing labels. */
  function Labels(df: Frame, li: nat): set<Value>
    requires df.Valid() && li < |df.columns|
  {
    Observed(Column(df, li))
  }

  /** Filtering removes the "Other" group and no other group. */
  lemma LabelsAfterFilter(df: Frame, li: nat)
    requires df.Valid() && li < |df.columns|
    ensures Labels(FilterRows(df, li, false), li) == Labels(df, li) - {Other}
    ensures Labels(FilterRows(df, li, true), li) == Labels(df, li)
  {
    var f := FilterRows(df, li, false);
    var p := Positions(NotOther(df, li));
    forall g | g in Labels(df, li) && g != Other
      ensures g in Labels(f, li)
    {
      var r :| 0 <= r < |df.rows| && df.rows[r][li] == Some(g);
      assert NotOther(df, li)[r];
      var k :| 0 <= k < |p| && p[k] == r;
      assert Column(f, li)[k] == Some(g);
    }
    forall g | g in Labels(f, li)
      ensures g in Labels(df, li) && g != Other
    {
      var k :| 0 <= k < |f.rows| && f.rows[k][li] == Some(g);
      assert Column(df, li)[p[k]] == Some(g);
    }
  }

  predicate InGroup(df: Frame, li: nat, g: Value, r: nat)
    requires df.Valid() && li < |df.columns| && r < |df.rows|
  {
    df.rows[r][li] == Some(g)
  }

  predicate IsNumber(c: Cell) {
    c.Some? && c.value.Num?
  }

  /** Sum of the numeric cells of column j over the first n rows labelled g. */
  function GroupSum(df: Frame, li: nat, j: nat, g: Value, n: nat): real
    requires df.Valid() && li < |df.columns| && j < |df.columns| && n <= |df.rows|
  {
    if n == 0 then 0.0
    else
      var c := df.rows[n - 1][j];
      GroupSum(df, li, j, g, n - 1) + (if InGroup(df, li, g, n - 1) && IsNumber(c) then c.value.n else 0.0)
  }

  /** Number of non-missing cells of column j over the first n rows labelled g. */
  function GroupCount(df: Frame, li: nat, j: nat, g: Value, n: nat): nat
    requires df.Valid() && li < |df.columns| && j < |df.columns| && n <= |df.rows|
  {
    if n == 0 then 0
    else GroupCount(df, li, j, g, n - 1) + (if InGroup(df, li, g, n - 1) && IsNumber(df.rows[n - 1][j]) then 1 else 0)
  }

  /** Number of cells holding 1 in column j over the first n rows labelled g. */
  function GroupOnes(df: Frame, li: nat, j: nat, g: Value, n: nat): nat
    requires df.Valid() && li < |df.columns| && j < |df.columns| && n <= |df.rows|
  {
    if n == 0 then 0
    else GroupOnes(df, li, j, g, n - 1) + (if InGroup(df, li, g, n - 1) && df.rows[n - 1][j] == Some(Num(1.0)) then 1 else 0)
  }

  /** The mean of column j within group g, skipping missing values; None
      (NaN) when the group has no value in that column. */
  function GroupMean(df: Frame, li: nat, j: nat, g: Value): Option<real>
    requires df.Valid() && li < |df.columns| && j < |df.columns|
  {
    var count := GroupCount(df, li, j, g, |df.rows|);
    if count == 0 then None else Some(GroupSum(df, li, j, g, |df.rows|) / count as real)
  }

  /** A 0/1 indicator column: every cell is missing, 0 or 1. */
  predicate ZeroOne(df: Frame, j: nat)
    requires df.Valid() && j < |df.columns|
  {
    forall r | 0 <= r < |df.rows| :: df.rows[r][j] in {None, Some(Num(0.0)), Some(Num(1.0))}
  }

  lemma {:induction false} SumCountsOnes(df: Frame, li: nat, j: nat, g: Value, n: nat)
    requires df.Valid() && li < |df.columns| && j < |df.columns| && n <= |df.rows|
    requires ZeroOne(df, j)
    ensures GroupSum(df, li, j, g, n) == GroupOnes(df, li, j, g, n) as real
    ensures GroupOnes(df, li, j, g, n) <= GroupCount(df, li, j, g, n)
  {
    if n > 0 {
      SumCountsOnes(df, li, j, g, n - 1);
    }
  }

  /** For a 0/1 marker the group mean is the prevalence: the share of the
      group's recorded values that are 1, hence a number in [0, 1]. */
  lemma MeanIsPrevalence(df: Frame, li: nat, j: nat, g: Value)
    requires df.Valid() && li < |df.columns| && j < |df.columns|
    requires ZeroOne(df, j)
    ensures var count := GroupCount(df, li, j, g, |df.rows|);
      GroupMean(df, li, j, g) == if count == 0 then None
                                 else Some(GroupOnes(df, li, j, g, |df.rows|) as real / count as real)
    ensures GroupMean(df, li, j, g).Some? ==> 0.0 <= GroupMean(df, li, j, g).value <= 1.0
  {
    SumCountsOnes(df, li, j, g, |df.rows|);
    var ones := GroupOnes(df, li, j, g, |df.rows|) as real;
    var count := GroupCount(df, li, j, g, |df.rows|) as real;
    if count > 0.0 {
      RatioInUnitInterval(ones, count);
    }
  }

  lemma RatioInUnitInterval(a: real, b: real)
    requires 0.0 <= a <= b && 0.0 < b
    ensures 0.0 <= a / b <= 1.0
  {
    var q := a / b;
    assert q * b == a;
    assert (q - 1.0) * b <= 0.0;
  }

  /** From pandas 2 on, groupby(...).mean() raises a TypeError when a marker
      holds text in a labelled row. */
  predicate HasText(df: Frame, li: nat, j: nat)
    requires df.Valid() && li < |df.columns| && j < |df.columns|
  {
    exists r | 0 <= r < |df.rows| :: df.rows[r][li].Some? && df.rows[r][j].Some? && df.rows[r][j].value.Text?
  }

  /** df_plot.groupby("Diagnosis")[markers].mean(): for every label, the
      group mean of every listed marker, in the order of the list. */
  function Prevalence(df: Frame, li: nat, markers: seq<string>): map<Value, seq<Option<real>>>
    requires df.Valid() && li < |df.columns|
    requires forall m | m in markers :: m in df.columns
  {
    map g | g in Labels(df, li) ::
      seq(|markers|, k requires 0 <= k < |markers| => GroupMean(df, li, IndexOf(df.columns, markers[k]), g))
  }

  /** One row per label, one cell per listed marker, and every cell of a 0/1
      marker lies in [0, 1]. */
  lemma PrevalenceShape(df: Frame, li: nat, markers: seq<string>)
    requires df.Valid() && li < |df.columns|
    requires forall m | m in markers :: m in df.columns
    ensures Prevalence(df, li, markers).Keys == Labels(df, li)
    ensures forall g | g in Labels(df, li) :: |Prevalence(df, li, markers)[g]| == |markers|
    ensures forall g, k | g in Labels(df, li) && 0 <= k < |markers| && ZeroOne(df, IndexOf(df.columns, markers[k])) ::
      var cell := Prevalence(df, li, markers)[g][k];
      cell.Some? ==> 0.0 <= cell.value <= 1.0
  {
    forall g, k | g in Labels(df, li) && 0 <= k < |markers| && ZeroOne(df, IndexOf(df.columns, markers[k]))
      ensures var cell := Prevalence(df, li, markers)[g][k]; cell.Some? ==> 0.0 <= cell.value <= 1.0
    {
      MeanIsPrevalence(df, li, IndexOf(df.columns, markers[k]), g);
    }
  }
}
