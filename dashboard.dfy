/** One render of the dashboard: load, check for the label column, select the
    markers, filter, rank and build the prevalence table shown as a heatmap.
    The two st.error/st.stop halts become Failure values. */
module Dashboard {
  import opened Frames
  import opened Loader
  import opened MarkerSelection
  import opened Aggregate
  import opened Ranking

  /** Why a render stops without a heatmap. */
  datatype Stop =
    | MissingDiagnosis   // "Column 'Diagnosis' not found."
    | NoBinaryMarkers    // "No binary marker columns found (0/1)."
    | NonNumericMarker   // the groupby mean raising TypeError on a text marker (pandas 2)

  /** What a render shows: the ranked (marker, score) list of the expander,
      the top markers, and the heatmap table keyed by diagnosis. */
  datatype View = View(
    ranking: seq<(string, Option<real>)>,
    topMarkers: seq<string>,
    heatmap: map<Value, seq<Option<real>>>)

  /** The bounds of the Top N slider. */
  const MinTopN: nat := 5
  const MaxTopN: nat := 20

  function ScoreOf(score: Scores, m: string): Option<real> {
    if m in score then Some(score[m]) else None
  }

  /** The script from the label check to the heatmap data, for the parsed
      table raw, the two sidebar controls and the variability scores. */
  function Render(raw: Frame, includeOther: bool, topN: nat, score: Scores): Result<View, Stop>
    requires raw.Valid() && MinTopN <= topN <= MaxTopN
  {
    var df := Loaded(raw);
    if Target !in df.columns then Failure(MissingDiagnosis)
    else if |Markers(df)| == 0 then Failure(NoBinaryMarkers)
    else Plot(df, includeOther, topN, score)
  }

  /** From the "Other" filter on: rank the markers and build the heatmap data. */
  function Plot(df: Frame, includeOther: bool, topN: nat, score: Scores): Result<View, Stop>
    requires df.Valid() && Target in df.columns
  {
    var markers := Markers(df);
    MarkersAreColumns(df);
    var li := IndexOf(df.columns, Target);
    var plot := FilterRows(df, li, includeOther);
    if AnyTextMarker(plot, li, markers) then Failure(NonNumericMarker)
    else
      var top := TopN(score, markers, topN);
      TopNAreColumns(score, markers, topN, df.columns);
      Success(View(Ranked(score, top), top, Prevalence(plot, li, top)))
  }

  /** Some marker holds text in a labelled row, so its group mean fails. */
  predicate AnyTextMarker(df: Frame, li: nat, markers: seq<string>)
    requires df.Valid() && li < |df.columns|
    requires forall m | m in markers :: m in df.columns
  {
    exists k | 0 <= k < |markers| :: HasText(df, li, IndexOf(df.columns, markers[k]))
  }

  /** marker_variation.head(top_n) as (marker, score) pairs. */
  function Ranked(score: Scores, top: seq<string>): seq<(string, Option<real>)> {
    seq(|top|, k requires 0 <= k < |top| => (top[k], ScoreOf(score, top[k])))
  }

  lemma TopNAreColumns(score: Scores, markers: seq<string>, n: nat, columns: seq<string>)
    requires forall m | m in markers :: m in columns
    ensures forall m | m in TopN(score, markers, n) :: m in columns
  {
    TopNIsBest(score, markers, n);
    assert forall m | m in TopN(score, markers, n) :: m in multiset(markers);
  }

  /** The render stops for a missing label column exactly when the loaded
      table has no Diagnosis column, and for want of markers exactly when it
      has one but no marker column; neither halt depends on the controls or
      the scores. */
  lemma RenderHalts(raw: Frame, includeOther: bool, topN: nat, score: Scores)
    requires raw.Valid() && MinTopN <= topN <= MaxTopN
    ensures Render(raw, includeOther, topN, score) == Failure(MissingDiagnosis) <==>
      Target !in Loaded(raw).columns
    ensures Render(raw, includeOther, topN, score) == Failure(NoBinaryMarkers) <==>
      Target in Loaded(raw).columns && Markers(Loaded(raw)) == []
  {
  }

  /** A halt for a missing label or for missing markers happens before the
      controls are read: any other controls and scores give the same halt. */
  lemma HaltsPrecedeControls(raw: Frame, include1: bool, topN1: nat, score1: Scores,
                             include2: bool, topN2: nat, score2: Scores)
    requires raw.Valid() && MinTopN <= topN1 <= MaxTopN && MinTopN <= topN2 <= MaxTopN
    requires Render(raw, include1, topN1, score1) in {Failure(MissingDiagnosis), Failure(NoBinaryMarkers)}
    ensures Render(raw, include2, topN2, score2) == Render(raw, include1, topN1, score1)
  {
    RenderHalts(raw, include1, topN1, score1);
    RenderHalts(raw, include2, topN2, score2);
  }

  /** The ranking of a successful render: between 1 and N distinct markers,
      best first, none left out outranking one shown, each with its score. */
  lemma RenderRanking(raw: Frame, includeOther: bool, topN: nat, score: Scores)
    requires raw.Valid() && MinTopN <= topN <= MaxTopN
    requires Render(raw, includeOther, topN, score).Success?
    ensures var markers := Markers(Loaded(raw));
      var v := Render(raw, includeOther, topN, score).value;
      && |v.topMarkers| == Min(topN, |markers|) && |v.topMarkers| >= 1
      && AllDistinct(v.topMarkers)
      && (forall m | m in v.topMarkers :: m in markers)
      && SortedByScore(score, v.topMarkers)
      && (forall m, t | m in markers && m !in v.topMarkers && t in v.topMarkers :: !Outranks(score, m, t))
      && |v.ranking| == |v.topMarkers|
      && (forall k | 0 <= k < |v.ranking| :: v.ranking[k] == (v.topMarkers[k], ScoreOf(score, v.topMarkers[k])))
  {
    var df := Loaded(raw);
    LoadedHeader(raw);
    assert Render(raw, includeOther, topN, score) == Plot(df, includeOther, topN, score);
    PlotRanking(df, includeOther, topN, score);
  }

  lemma PlotRanking(df: Frame, includeOther: bool, topN: nat, score: Scores)
    requires df.Valid() && Target in df.columns && AllDistinct(df.columns) && 1 <= topN
    requires Markers(df) != []
    requires Plot(df, includeOther, topN, score).Success?
    ensures var markers := Markers(df);
      var v := Plot(df, includeOther, topN, score).value;
      && |v.topMarkers| == Min(topN, |markers|) && |v.topMarkers| >= 1
      && AllDistinct(v.topMarkers)
      && (forall m | m in v.topMarkers :: m in markers)
      && SortedByScore(score, v.topMarkers)
      && (forall m, t | m in markers && m !in v.topMarkers && t in v.topMarkers :: !Outranks(score, m, t))
      && |v.ranking| == |v.topMarkers|
      && (forall k | 0 <= k < |v.ranking| :: v.ranking[k] == (v.topMarkers[k], ScoreOf(score, v.topMarkers[k])))
  {
    var markers := Markers(df);
    MarkersInColumnOrder(df);
    TopNIsBest(score, markers, topN);
    var top := TopN(score, markers, topN);
    PlotShowsTopN(df, includeOther, topN, score);
    assert forall m | m in top :: m in multiset(markers);
  }

  lemma PlotShowsTopN(df: Frame, includeOther: bool, topN: nat, score: Scores)
    requires df.Valid() && Target in df.columns
    requires Plot(df, includeOther, topN, score).Success?
    ensures var v := Plot(df, includeOther, topN, score).value;
      v.topMarkers == TopN(score, Markers(df), topN) && v.ranking == Ranked(score, v.topMarkers)
  {
  }

  /** What the heatmap v shows for the table df: one row per diagnosis left
      after the filter ("Other" only when included), one cell per top marker
      holding that marker's mean within that diagnosis over the filtered rows,
      and every cell of a 0/1 marker in [0, 1]. */
  predicate ShowsPrevalence(df: Frame, includeOther: bool, v: View)
    requires df.Valid() && Target in df.columns
    requires forall m | m in v.topMarkers :: m in df.columns
  {
    var li := IndexOf(df.columns, Target);
    && v.heatmap.Keys == (if includeOther then Labels(df, li) else Labels(df, li) - {Other})
    && (forall g | g in v.heatmap :: |v.heatmap[g]| == |v.topMarkers|)
    && (forall g, k | g in v.heatmap && 0 <= k < |v.topMarkers| ::
          v.heatmap[g][k] == GroupMean(FilterRows(df, li, includeOther), li, IndexOf(df.columns, v.topMarkers[k]), g))
    && (forall g, k | g in v.heatmap && 0 <= k < |v.topMarkers| && ZeroOne(df, IndexOf(df.columns, v.topMarkers[k])) ::
          v.heatmap[g][k].Some? ==> 0.0 <= v.heatmap[g][k].value <= 1.0)
  }

  /** The heatmap of a successful render shows, for every diagnosis left
      after the filter, each top marker's prevalence in that diagnosis. */
  lemma RenderHeatmap(raw: Frame, includeOther: bool, topN: nat, score: Scores)
    requires raw.Valid() && MinTopN <= topN <= MaxTopN
    requires Render(raw, includeOther, topN, score).Success?
    ensures var df := Loaded(raw);
      var v := Render(raw, includeOther, topN, score).value;
      && Target in df.columns
      && (forall m | m in v.topMarkers :: m in df.columns)
      && ShowsPrevalence(df, includeOther, v)
  {
    var df := Loaded(raw);
    assert Render(raw, includeOther, topN, score) == Plot(df, includeOther, topN, score);
    PlotHeatmap(df, includeOther, topN, score);
  }

  lemma PlotHeatmap(df: Frame, includeOther: bool, topN: nat, score: Scores)
    requires df.Valid() && Target in df.columns
    requires Plot(df, includeOther, topN, score).Success?
    ensures var v := Plot(df, includeOther, topN, score).value;
      && (forall m | m in v.topMarkers :: m in df.columns)
      && ShowsPrevalence(df, includeOther, v)
  {
    var markers := Markers(df);
    var li := IndexOf(df.columns, Target);
    var plot := FilterRows(df, li, includeOther);
    MarkersAreColumns(df);
    var top := TopN(score, markers, topN);
    TopNAreColumns(score, markers, topN, df.columns);
    var v := Plot(df, includeOther, topN, score).value;
    assert v.topMarkers == top && v.heatmap == Prevalence(plot, li, top);
    LabelsAfterFilter(df, li);
    PrevalenceShape(plot, li, top);
    forall k | 0 <= k < |top| && ZeroOne(df, IndexOf(df.columns, top[k]))
      ensures ZeroOne(plot, IndexOf(plot.columns, top[k]))
    {
      FilterKeepsZeroOne(df, li, includeOther, IndexOf(df.columns, top[k]));
    }
  }

  /** Removing rows keeps a 0/1 column 0/1. */
  lemma FilterKeepsZeroOne(df: Frame, li: nat, includeOther: bool, j: nat)
    requires df.Valid() && li < |df.columns| && j < |df.columns|
    requires ZeroOne(df, j)
    ensures ZeroOne(FilterRows(df, li, includeOther), j)
  {
    var p := Positions(NotOther(df, li));
    var f := FilterRows(df, li, includeOther);
    if !includeOther {
      forall r | 0 <= r < |f.rows|
        ensures f.rows[r][j] in {None, Some(Num(0.0)), Some(Num(1.0))}
      {
        assert f.rows[r] == df.rows[p[r]];
      }
    }
  }
}
