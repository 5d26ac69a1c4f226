/** Concrete tables that show the pipeline's edge cases. */
module Scenarios {
  import opened Frames
  import opened ColumnNames
  import opened Loader
  import opened Aggregate

  /** A header cell " Patient_ID" is not the identifier when the drop is
      decided, so after stripping it reaches the loaded table as Patient_ID. */
  lemma PaddedIdColumnIsKept()
    ensures IdColumn in Loaded(Frame([" Patient_ID", "Diagnosis"], [])).columns
  {
    var raw := Frame([" Patient_ID", "Diagnosis"], []);
    PaddedIdNormalizes();
    assert raw.columns[0] != IdColumn && Normalize(raw.columns[0]) == IdColumn;
    IdColumnSurvivesOnlyByRenaming(raw);
  }

  lemma PaddedIdNormalizes()
    ensures Normalize(" Patient_ID") == IdColumn
  {
    PaddedIdTrims();
    IdColumnIsNormalized();
    NormalizeTrimmed(" Patient_ID", IdColumn);
  }

  lemma PaddedIdTrims()
    ensures TrimStart(" Patient_ID") == IdColumn
  {
    var padded := " Patient_ID";
    assert IsSpace(padded[0]);
    assert padded[1..] == IdColumn;
    assert !IsSpace(IdColumn[0]);
  }

  /** A name whose leading whitespace leaves a standardised name t standardises to t. */
  lemma NormalizeTrimmed(s: string, t: string)
    requires TrimStart(s) == t && IsNormalized(t)
    ensures Normalize(s) == t
  {
    StripFixesTrimmed(t);
    assert Strip(s) == TrimEnd(t);
    ReplaceAbsent(t, ' ', '_');
    ReplaceAbsent(t, '-', '_');
  }

  lemma IdColumnIsNormalized()
    ensures IsNormalized(IdColumn)
  {
    assert IdColumn == ['P', 'a', 't', 'i', 'e', 'n', 't', '_', 'I', 'D'];
  }

  /** Labels A, A, B, B, Other with marker values 1, 0, 1, 0, 1: without
      "Other" both groups have prevalence 0.5. */
  lemma TwoGroupsSamePrevalence()
    ensures var a, b := Text("A"), Text("B");
      var one, zero := Some(Num(1.0)), Some(Num(0.0));
      var df := Frame(["Diagnosis", "M"],
        [[Some(a), one], [Some(a), zero], [Some(b), one], [Some(b), zero], [Some(Other), one]]);
      Prevalence(FilterRows(df, 0, false), 0, ["M"]) == map[a := [Some(0.5)], b := [Some(0.5)]]
  {
    var a, b := Text("A"), Text("B");
    var one, zero := Some(Num(1.0)), Some(Num(0.0));
    var df := Frame(["Diagnosis", "M"],
      [[Some(a), one], [Some(a), zero], [Some(b), one], [Some(b), zero], [Some(Other), one]]);
    var plot := FilterRows(df, 0, false);
    KeptRows(df);
    assert plot.rows == df.rows[..4];
    assert Labels(plot, 0) == {a, b} by {
      var labels := Column(plot, 0);
      assert labels == [Some(a), Some(a), Some(b), Some(b)];
      assert labels[0].value == a && labels[2].value == b;
    }
    GroupMeans(plot);
  }

  lemma KeptRows(df: Frame)
    requires df.Valid() && 0 < |df.columns| && |df.rows| == 5
    requires forall r | 0 <= r < 4 :: df.rows[r][0] != Some(Other)
    requires df.rows[4][0] == Some(Other)
    ensures Positions(NotOther(df, 0)) == [0, 1, 2, 3]
  {
    var keep := NotOther(df, 0);
    FourKept(keep);
  }

  lemma FourKept(keep: seq<bool>)
    requires |keep| == 5 && keep[0] && keep[1] && keep[2] && keep[3] && !keep[4]
    ensures Positions(keep) == [0, 1, 2, 3]
  {
    AllKept(keep[..4]);
    assert Positions(keep) == Positions(keep[..4]);
    assert seq(4, i => i) == [0, 1, 2, 3];
  }

  /** A mask that is true everywhere keeps every position. */
  lemma {:induction false} AllKept(keep: seq<bool>)
    requires forall i | 0 <= i < |keep| :: keep[i]
    ensures Positions(keep) == seq(|keep|, i => i)
  {
    if keep != [] {
      var n := |keep| - 1;
      AllKept(keep[..n]);
      assert seq(|keep|, i => i) == seq(n, i => i) + [n];
    }
  }

  lemma GroupMeans(plot: Frame)
    requires plot.Valid() && |plot.columns| == 2
    requires plot.rows == [[Some(Text("A")), Some(Num(1.0))], [Some(Text("A")), Some(Num(0.0))],
                           [Some(Text("B")), Some(Num(1.0))], [Some(Text("B")), Some(Num(0.0))]]
    requires plot.columns == ["Diagnosis", "M"]
    requires Labels(plot, 0) == {Text("A"), Text("B")}
    ensures Prevalence(plot, 0, ["M"]) == map[Text("A") := [Some(0.5)], Text("B") := [Some(0.5)]]
  {
    var a, b := Text("A"), Text("B");
    GroupA(plot);
    GroupB(plot);
    assert IndexOf(plot.columns, "M") == 1;
    var m := Prevalence(plot, 0, ["M"]);
    assert m.Keys == {a, b};
    assert m[a] == [Some(0.5)] && m[b] == [Some(0.5)];
  }

  lemma GroupA(plot: Frame)
    requires plot.Valid() && |plot.columns| == 2
    requires plot.rows == [[Some(Text("A")), Some(Num(1.0))], [Some(Text("A")), Some(Num(0.0))],
                           [Some(Text("B")), Some(Num(1.0))], [Some(Text("B")), Some(Num(0.0))]]
    ensures GroupMean(plot, 0, 1, Text("A")) == Some(0.5)
  {
    var a := Text("A");
    assert InGroup(plot, 0, a, 0) && InGroup(plot, 0, a, 1) && !InGroup(plot, 0, a, 2) && !InGroup(plot, 0, a, 3);
    assert GroupCount(plot, 0, 1, a, 1) == 1 && GroupSum(plot, 0, 1, a, 1) == 1.0;
    assert GroupCount(plot, 0, 1, a, 2) == 2 && GroupSum(plot, 0, 1, a, 2) == 1.0;
    assert GroupCount(plot, 0, 1, a, 3) == 2 && GroupSum(plot, 0, 1, a, 3) == 1.0;
    assert GroupCount(plot, 0, 1, a, 4) == 2 && GroupSum(plot, 0, 1, a, 4) == 1.0;
  }

  lemma GroupB(plot: Frame)
    requires plot.Valid() && |plot.columns| == 2
    requires plot.rows == [[Some(Text("A")), Some(Num(1.0))], [Some(Text("A")), Some(Num(0.0))],
                           [Some(Text("B")), Some(Num(1.0))], [Some(Text("B")), Some(Num(0.0))]]
    ensures GroupMean(plot, 0, 1, Text("B")) == Some(0.5)
  {
    var b := Text("B");
    assert Text("A") != b;
    assert !InGroup(plot, 0, b, 0) && !InGroup(plot, 0, b, 1) && InGroup(plot, 0, b, 2) && InGroup(plot, 0, b, 3);
    assert GroupCount(plot, 0, 1, b, 0) == 0 && GroupSum(plot, 0, 1, b, 0) == 0.0;
    assert GroupCount(plot, 0, 1, b, 1) == 0 && GroupSum(plot, 0, 1, b, 1) == 0.0;
    assert GroupCount(plot, 0, 1, b, 2) == 0 && GroupSum(plot, 0, 1, b, 2) == 0.0;
    assert GroupCount(plot, 0, 1, b, 3) == 1 && GroupSum(plot, 0, 1, b, 3) == 1.0;
    assert GroupCount(plot, 0, 1, b, 4) == 2 && GroupSum(plot, 0, 1, b, 4) == 1.0;
  }
}
