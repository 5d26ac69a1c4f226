/** load_data: drop the identifier column, standardise the header, then keep
    only the first column of every name the standardisation made equal. */
module Loader {
  import opened Frames
  import opened ColumnNames

  const IdColumn := "Patient_ID"

  /** True at every name other than the given one. */
  function OtherThan(names: seq<string>, name: string): seq<bool> {
    seq(|names|, j requires 0 <= j < |names| => names[j] != name)
  }

  /** df.drop(name, axis=1): removes every column carrying exactly that name
      and keeps the others, in order, with their cells. */
  function DropColumn(df: Frame, name: string): (r: Frame)
    requires df.Valid()
    ensures r.Valid() && |r.rows| == |df.rows|
    ensures PicksColumns(r, df, Positions(OtherThan(df.columns, name)))
    ensures forall c :: c in r.columns <==> c in df.columns && c != name
  {
    var keep := OtherThan(df.columns, name);
    var p := Positions(keep);
    assert forall c | c in df.columns && c != name :: c in KeepColumns(df, keep).columns by {
      forall c | c in df.columns && c != name
        ensures c in KeepColumns(df, keep).columns
      {
        var j :| 0 <= j < |df.columns| && df.columns[j] == c;
        assert keep[j];
        var k :| 0 <= k < |p| && p[k] == j;
        assert KeepColumns(df, keep).columns[k] == c;
      }
    }
    KeepColumns(df, keep)
  }

  function NormalizeAll(names: seq<string>): seq<string> {
    seq(|names|, i requires 0 <= i < |names| => Normalize(names[i]))
  }

  /** The negation of df.columns.duplicated() (keep='first'): true exactly at
      the first occurrence of each name. */
  function FirstOccurrences(names: seq<string>): seq<bool> {
    seq(|names|, i requires 0 <= i < |names| => names[i] !in names[..i])
  }

  /** The table after the identifier drop and the renaming, before de-duplication. */
  function Renamed(raw: Frame): (df: Frame)
    requires raw.Valid()
    ensures df.Valid() && |df.rows| == |raw.rows|
    ensures var dropped := if IdColumn in raw.columns then DropColumn(raw, IdColumn) else raw;
      df.rows == dropped.rows && df.columns == NormalizeAll(dropped.columns)
  {
    var dropped := if IdColumn in raw.columns then DropColumn(raw, IdColumn) else raw;
    dropped.(columns := NormalizeAll(dropped.columns))
  }

  /** What load_data returns for the parsed table raw. */
  function Loaded(raw: Frame): (df: Frame)
    requires raw.Valid()
    ensures df.Valid() && |df.rows| == |raw.rows|
  {
    var named := Renamed(raw);
    KeepColumns(named, FirstOccurrences(named.columns))
  }

  /** df.columns.duplicated(): scans the names once with a set of the names
      already seen. */
  method DuplicatedMask(names: seq<string>) returns (dup: seq<bool>)
    ensures |dup| == |names|
    ensures forall i | 0 <= i < |names| :: dup[i] <==> names[i] in names[..i]
  {
    var seen: set<string> := {};
    dup := [];
    for i := 0 to |names|
      invariant |dup| == i
      invariant forall c :: c in seen <==> c in names[..i]
      invariant forall k | 0 <= k < i :: dup[k] <==> names[k] in names[..k]
    {
      dup := dup + [names[i] in seen];
      assert names[..i + 1] == names[..i] + [names[i]];
      seen := seen + {names[i]};
    }
  }

  /** load_data, one rebinding of df at a time. */
  method LoadData(raw: Frame) returns (df: Frame)
    requires raw.Valid()
    ensures df == Loaded(raw)
  {
    df := raw;
    if IdColumn in df.columns {
      df := DropColumn(df, IdColumn);
    }
    ghost var dropped := df;
    df := df.(columns := seq(|df.columns|, i requires 0 <= i < |df.columns| => Strip(df.columns[i])));
    df := df.(columns := seq(|df.columns|, i requires 0 <= i < |df.columns| => ReplaceChar(df.columns[i], ' ', '_')));
    df := df.(columns := seq(|df.columns|, i requires 0 <= i < |df.columns| => ReplaceChar(df.columns[i], '-', '_')));
    assert df == Renamed(raw);
    var dup := DuplicatedMask(df.columns);
    var keep := seq(|dup|, i requires 0 <= i < |dup| => !dup[i]);
    assert keep == FirstOccurrences(df.columns);
    df := KeepColumns(df, keep);
  }

  /** The loaded header is standardised and free of repeated names. */
  lemma LoadedHeader(raw: Frame)
    requires raw.Valid()
    ensures AllDistinct(Loaded(raw).columns)
    ensures forall c | c in Loaded(raw).columns :: IsNormalized(c)
  {
    var named := Renamed(raw);
    assert Loaded(raw).columns == Select(named.columns, FirstOccurrences(named.columns));
    FirstOccurrencesDistinct(named.columns);
    forall c | c in named.columns
      ensures IsNormalized(c)
    {
      var dropped := if IdColumn in raw.columns then DropColumn(raw, IdColumn) else raw;
      var j :| 0 <= j < |named.columns| && named.columns[j] == c;
      NormalizeIsNormalized(dropped.columns[j]);
    }
    FirstOccurrencesCover(named.columns);
  }

  /** Keeping the first occurrence of every name leaves no name twice. */
  lemma FirstOccurrencesDistinct(names: seq<string>)
    ensures AllDistinct(Select(names, FirstOccurrences(names)))
  {
    var p := Positions(FirstOccurrences(names));
    var kept := Select(names, FirstOccurrences(names));
    forall k, l | 0 <= k < l < |kept|
      ensures kept[k] != kept[l]
    {
      assert kept[k] == names[p[k]] && kept[l] == names[p[l]];
      assert names[p[k]] in names[..p[l]];
    }
  }

  /** The loaded table holds, in their original order, exactly the first
      column of each standardised name, with that column's cells. */
  lemma LoadedKeepsFirstOccurrences(raw: Frame)
    requires raw.Valid()
    ensures var named := Renamed(raw); var p := Positions(FirstOccurrences(named.columns));
      && |Loaded(raw).columns| == |p|
      && (forall k | 0 <= k < |p| ::
            && Loaded(raw).columns[k] == named.columns[p[k]]
            && named.columns[p[k]] !in named.columns[..p[k]])
      && (forall r, k | 0 <= r < |raw.rows| && 0 <= k < |p| :: Loaded(raw).rows[r][k] == named.rows[r][p[k]])
      && (forall c :: c in Loaded(raw).columns <==> c in named.columns)
  {
    var named := Renamed(raw);
    var keep := FirstOccurrences(named.columns);
    var loaded := Loaded(raw);
    assert loaded == KeepColumns(named, keep);
    assert loaded.columns == Select(named.columns, keep);
    FirstOccurrencesCover(named.columns);
  }

  /** Keeping the first occurrence of every name loses no name. */
  lemma FirstOccurrencesCover(names: seq<string>)
    ensures forall c :: c in Select(names, FirstOccurrences(names)) <==> c in names
  {
    var keep := FirstOccurrences(names);
    var p := Positions(keep);
    var kept := Select(names, keep);
    forall c | c in names
      ensures c in kept
    {
      var i := IndexOf(names, c);
      assert keep[i];
      var k :| 0 <= k < |p| && p[k] == i;
      assert kept[k] == c;
    }
  }

  /** Column k of df is raw column j: the first raw column, other than
      Patient_ID, whose name standardises to the name of column k, with the
      same cell in every row. */
  predicate OriginOf(raw: Frame, df: Frame, k: nat, j: nat)
    requires raw.Valid() && df.Valid() && |df.rows| == |raw.rows|
    requires k < |df.columns| && j < |raw.columns|
  {
    && raw.columns[j] != IdColumn && Normalize(raw.columns[j]) == df.columns[k]
    && (forall j' | 0 <= j' < j :: raw.columns[j'] == IdColumn || Normalize(raw.columns[j']) != df.columns[k])
    && (forall i | 0 <= i < |raw.rows| :: df.rows[i][k] == raw.rows[i][j])
  }

  /** Column k of df comes from some raw column. */
  predicate HasOrigin(raw: Frame, df: Frame, k: nat)
    requires raw.Valid() && df.Valid() && |df.rows| == |raw.rows| && k < |df.columns|
  {
    exists j {:trigger OriginOf(raw, df, k, j)} | 0 <= j < |raw.columns| :: OriginOf(raw, df, k, j)
  }

  /** Every loaded column is the first raw column, other than Patient_ID,
      whose name standardises to the loaded name, and it carries that raw
      column's cells in every row. */
  lemma LoadedColumnOrigin(raw: Frame)
    requires raw.Valid()
    ensures forall k | 0 <= k < |Loaded(raw).columns| :: HasOrigin(raw, Loaded(raw), k)
  {
    var dropped, q := DroppedView(raw);
    var named := Renamed(raw);
    var p := Positions(FirstOccurrences(named.columns));
    assert PicksColumns(Loaded(raw), named, p);
    assert forall k | 0 <= k < |p| :: named.columns[p[k]] !in named.columns[..p[k]];
    OriginAll(raw, dropped, named, Loaded(raw), q, p);
  }

  /** The table left by the identifier drop is the raw table's columns at
      positions q: every column other than Patient_ID, in order. */
  lemma DroppedView(raw: Frame) returns (dropped: Frame, q: seq<nat>)
    requires raw.Valid()
    ensures dropped.Valid() && dropped == (if IdColumn in raw.columns then DropColumn(raw, IdColumn) else raw)
    ensures Renamed(raw).rows == dropped.rows && Renamed(raw).columns == NormalizeAll(dropped.columns)
    ensures PicksColumns(dropped, raw, q)
    ensures forall m, l | 0 <= m < l < |q| :: q[m] < q[l]
    ensures forall m | 0 <= m < |q| :: raw.columns[q[m]] != IdColumn
    ensures forall j | 0 <= j < |raw.columns| && raw.columns[j] != IdColumn :: j in q
  {
    if IdColumn in raw.columns {
      dropped := DropColumn(raw, IdColumn);
      var keep := OtherThan(raw.columns, IdColumn);
      q := Positions(keep);
      forall j | 0 <= j < |raw.columns| && raw.columns[j] != IdColumn
        ensures j in q
      {
        assert keep[j];
      }
      forall m | 0 <= m < |q|
        ensures raw.columns[q[m]] != IdColumn
      {
        assert keep[q[m]];
      }
    } else {
      dropped := raw;
      q := seq(|raw.columns|, j requires 0 <= j < |raw.columns| => j);
      forall j | 0 <= j < |raw.columns|
        ensures j in q
      {
        assert q[j] == j;
      }
    }
  }

  /** LoadedColumnOrigin for a table df that picks the columns p of named,
      which renames the columns q of raw. */
  lemma OriginAll(raw: Frame, dropped: Frame, named: Frame, df: Frame, q: seq<nat>, p: seq<nat>)
    requires raw.Valid() && dropped.Valid() && named.Valid() && df.Valid()
    requires PicksColumns(dropped, raw, q)
    requires forall m, l | 0 <= m < l < |q| :: q[m] < q[l]
    requires forall m | 0 <= m < |q| :: raw.columns[q[m]] != IdColumn
    requires forall j | 0 <= j < |raw.columns| && raw.columns[j] != IdColumn :: j in q
    requires named.rows == dropped.rows && named.columns == NormalizeAll(dropped.columns)
    requires PicksColumns(df, named, p)
    requires forall k | 0 <= k < |p| :: named.columns[p[k]] !in named.columns[..p[k]]
    ensures forall k | 0 <= k < |df.columns| :: HasOrigin(raw, df, k)
  {
    forall k | 0 <= k < |df.columns|
      ensures HasOrigin(raw, df, k)
    {
      OriginAt(raw, dropped, named, df, q, p, k);
    }
  }

  /** The k-th column of df comes from raw column q[p[k]]. */
  lemma OriginAt(raw: Frame, dropped: Frame, named: Frame, df: Frame, q: seq<nat>, p: seq<nat>, k: nat)
    requires raw.Valid() && dropped.Valid() && named.Valid() && df.Valid()
    requires PicksColumns(dropped, raw, q)
    requires forall m, l | 0 <= m < l < |q| :: q[m] < q[l]
    requires forall m | 0 <= m < |q| :: raw.columns[q[m]] != IdColumn
    requires forall j | 0 <= j < |raw.columns| && raw.columns[j] != IdColumn :: j in q
    requires named.rows == dropped.rows && named.columns == NormalizeAll(dropped.columns)
    requires PicksColumns(df, named, p) && k < |p|
    requires named.columns[p[k]] !in named.columns[..p[k]]
    ensures q[p[k]] < |raw.columns| && OriginOf(raw, df, k, q[p[k]])
  {
    var m := p[k];
    var j := q[m];
    assert df.columns[k] == named.columns[m] == Normalize(raw.columns[j]);
    forall j' | 0 <= j' < j && raw.columns[j'] != IdColumn
      ensures Normalize(raw.columns[j']) != df.columns[k]
    {
      var m' :| 0 <= m' < |q| && q[m'] == j';
      assert m' < m;
      assert named.columns[m'] == Normalize(raw.columns[j']);
      assert named.columns[m'] in named.columns[..m];
    }
    forall i | 0 <= i < |raw.rows|
      ensures df.rows[i][k] == raw.rows[i][j]
    {
      assert df.rows[i][k] == named.rows[i][m] == dropped.rows[i][m];
    }
  }

  /** A name is in the renamed header exactly when it is the standardised
      form of some raw name other than Patient_ID. */
  lemma RenamedHeader(raw: Frame, c: string)
    requires raw.Valid()
    ensures c in Renamed(raw).columns <==>
      exists i | 0 <= i < |raw.columns| :: raw.columns[i] != IdColumn && Normalize(raw.columns[i]) == c
  {
    var dropped := if IdColumn in raw.columns then DropColumn(raw, IdColumn) else raw;
    assert forall d :: d in dropped.columns <==> d in raw.columns && d != IdColumn;
    MapHeader(raw.columns, dropped.columns, c);
  }

  lemma MapHeader(raw: seq<string>, dropped: seq<string>, c: string)
    requires forall d :: d in dropped <==> d in raw && d != IdColumn
    ensures c in NormalizeAll(dropped) <==>
      exists i | 0 <= i < |raw| :: raw[i] != IdColumn && Normalize(raw[i]) == c
  {
    var names := NormalizeAll(dropped);
    if c in names {
      var j :| 0 <= j < |names| && names[j] == c;
      var d := dropped[j];
      assert d in dropped;
      var i :| 0 <= i < |raw| && raw[i] == d;
      assert Normalize(d) == c;
    }
    if exists i | 0 <= i < |raw| :: raw[i] != IdColumn && Normalize(raw[i]) == c {
      var i :| 0 <= i < |raw| && raw[i] != IdColumn && Normalize(raw[i]) == c;
      var d := raw[i];
      assert d in dropped;
      var j :| 0 <= j < |dropped| && dropped[j] == d;
      assert names[j] == c;
    }
  }

  /** A column called exactly Patient_ID is dropped before the header is
      standardised, so the loaded table has a Patient_ID column exactly when
      some other raw name standardises to it (" Patient_ID", "Patient ID"). */
  lemma IdColumnSurvivesOnlyByRenaming(raw: Frame)
    requires raw.Valid()
    ensures IdColumn in Loaded(raw).columns <==>
      exists i | 0 <= i < |raw.columns| :: raw.columns[i] != IdColumn && Normalize(raw.columns[i]) == IdColumn
  {
    LoadedKeepsFirstOccurrences(raw);
    RenamedHeader(raw, IdColumn);
  }
}
