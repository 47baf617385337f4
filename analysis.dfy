/** The Analyze page: the rows of the data file whose category is the
    requested one, kept in file order, and the view built from them. The
    view takes its description and units from the FIRST matching row, so
    the oldest metadata collected for a category is what is shown. */
module Analysis {
  import opened Wrappers
  import opened Storage

  /** One `{year, value}` entry of the view's `data` list. */
  datatype Point = Point(year: int, value: real)

  /** The dataset view handed to the chart and to the analysis prompt. */
  datatype View = View(description: string, units: string, data: seq<Point>)

  /** `ReadError` is the page shown when reading the file fails (a missing
      file included); `NoData` the "no data" message; `Shown` the chart and
      analysis page for a view. */
  datatype AnalyzeOutcome = ReadError | NoData | Shown(view: View)

  /** The category column equals the requested category; a request
      without the query argument matches no row. */
  predicate Matches(row: Row, category: Option<string>)
  {
    category == Some(row.category)
  }

  /** The boolean-mask selection of the matching rows, in file order. */
  function RowsOf(rows: seq<Row>, category: Option<string>): (m: seq<Row>)
    ensures |m| <= |rows|
    ensures forall i :: 0 <= i < |m| ==> Matches(m[i], category)
    ensures forall i :: 0 <= i < |rows| && Matches(rows[i], category) ==> rows[i] in m
    ensures forall r :: r in m ==> r in rows
  {
    if rows == [] then []
    else if Matches(rows[0], category) then [rows[0]] + RowsOf(rows[1..], category)
    else RowsOf(rows[1..], category)
  }

  /** Filtering keeps file order: the rows matched in a concatenation are
      those matched in the first part followed by those matched in the second. */
  lemma {:induction false} RowsOfAppend(a: seq<Row>, b: seq<Row>, category: Option<string>)
    ensures RowsOf(a + b, category) == RowsOf(a, category) + RowsOf(b, category)
  {
    if a != [] {
      var ab := a + b;
      assert ab[0] == a[0] && ab[1..] == a[1..] + b;
      RowsOfAppend(a[1..], b, category);
      if Matches(a[0], category) {
        assert RowsOf(ab, category) == [a[0]] + RowsOf(a[1..] + b, category);
        assert [a[0]] + (RowsOf(a[1..], category) + RowsOf(b, category))
            == ([a[0]] + RowsOf(a[1..], category)) + RowsOf(b, category);
      } else {
        assert RowsOf(ab, category) == RowsOf(a[1..] + b, category);
      }
    } else {
      assert a + b == b;
    }
  }

  /** When every row matches, the filter keeps them all. */
  lemma {:induction false} RowsOfAll(rows: seq<Row>, category: Option<string>)
    requires forall i :: 0 <= i < |rows| ==> Matches(rows[i], category)
    ensures RowsOf(rows, category) == rows
  {
    if rows != [] {
      RowsOfAll(rows[1..], category);
    }
  }

  /** When no row matches, the filter keeps nothing. */
  lemma {:induction false} RowsOfNone(rows: seq<Row>, category: Option<string>)
    requires forall i :: 0 <= i < |rows| ==> !Matches(rows[i], category)
    ensures RowsOf(rows, category) == []
  {
    if rows != [] {
      RowsOfNone(rows[1..], category);
    }
  }

  /** The first row kept is the first matching row of the file (`iloc[0]`). */
  lemma {:induction false} RowsOfFirst(rows: seq<Row>, category: Option<string>, i: nat)
    requires i < |rows| && Matches(rows[i], category)
    requires forall j :: 0 <= j < i ==> !Matches(rows[j], category)
    ensures RowsOf(rows, category) != [] && RowsOf(rows, category)[0] == rows[i]
  {
    if i > 0 {
      RowsOfFirst(rows[1..], category, i - 1);
    }
  }

  /** The year and value columns of some rows, one point per row. */
  function Points(rows: seq<Row>): (pts: seq<Point>)
    ensures |pts| == |rows|
    ensures forall k :: 0 <= k < |rows| ==> pts[k].year == rows[k].year && pts[k].value == rows[k].value
  {
    seq(|rows|, k requires 0 <= k < |rows| => Point(rows[k].year, rows[k].value))
  }

  lemma {:induction false} PointsAppend(a: seq<Row>, b: seq<Row>)
    ensures Points(a + b) == Points(a) + Points(b)
  {
    assert forall k :: 0 <= k < |a + b| ==> Points(a + b)[k] == (Points(a) + Points(b))[k];
  }

  /** The Analyze page for the file's current contents. */
  function Analyze(file: Option<seq<Row>>, category: Option<string>): (out: AnalyzeOutcome)
    ensures out.ReadError? <==> file.None?
    ensures out.NoData? <==>
      file.Some? && forall i :: 0 <= i < |file.value| ==> !Matches(file.value[i], category)
    ensures out.Shown? ==> |out.view.data| == |RowsOf(file.value, category)| > 0
  {
    match file
    case None => ReadError
    case Some(rows) =>
      var matching := RowsOf(rows, category);
      if matching == [] then NoData
      else
        assert matching[0] in rows;
        Shown(View(matching[0].description, matching[0].units, Points(matching)))
  }

  /** A view, when there is one, carries the description and units of the
      first matching row and one point per matching row, in file order. */
  lemma {:induction false} AnalyzeShowsFirstMatch(rows: seq<Row>, category: Option<string>, i: nat)
    requires i < |rows| && Matches(rows[i], category)
    requires forall j :: 0 <= j < i ==> !Matches(rows[j], category)
    ensures Analyze(Some(rows), category)
         == Shown(View(rows[i].description, rows[i].units, Points(RowsOf(rows, category))))
  {
    RowsOfFirst(rows, category, i);
  }

  /** Collecting a category for the first time and then analysing it shows
      the collected description, units and records. */
  lemma {:induction false} AnalyzeAfterFirstCollect(prior: seq<Row>, category: string, ds: Dataset)
    requires forall i :: 0 <= i < |prior| ==> prior[i].category != category
    requires ds.records != []
    ensures Analyze(Some(prior + Flatten(category, ds)), Some(category))
         == Shown(View(ds.description, ds.units, Points(Flatten(category, ds))))
    ensures Records(Flatten(category, ds)) == ds.records
  {
    var added := Flatten(category, ds);
    RowsOfNone(prior, Some(category));
    RowsOfAll(added, Some(category));
    RowsOfAppend(prior, added, Some(category));
    assert RowsOf(prior + added, Some(category)) == added;
    FlattenRoundTrip(category, ds);
  }

  /** Collecting a category again appends its new points after the old ones,
      but the view keeps the description and units of the oldest row of
      that category, whatever the new dataset says. */
  lemma {:induction false} AnalyzeAfterRepeatCollect(prior: seq<Row>, category: string, ds: Dataset, i: nat)
    requires i < |prior| && prior[i].category == category
    requires forall j :: 0 <= j < i ==> prior[j].category != category
    ensures Analyze(Some(prior + Flatten(category, ds)), Some(category))
         == Shown(View(prior[i].description, prior[i].units,
                       Points(RowsOf(prior, Some(category))) + Points(Flatten(category, ds))))
  {
    var added := Flatten(category, ds);
    var all := prior + added;
    RowsOfAll(added, Some(category));
    RowsOfAppend(prior, added, Some(category));
    PointsAppend(RowsOf(prior, Some(category)), added);
    assert all[i] == prior[i];
    AnalyzeShowsFirstMatch(all, Some(category), i);
  }

  /** `create_trend_chart`'s two lists: the years and the values of the
      view's points, one year label per value, in the view's order. */
  function ChartAxes(view: View): (axes: (seq<int>, seq<real>))
    ensures |axes.0| == |axes.1| == |view.data|
    ensures forall k :: 0 <= k < |view.data| ==> view.data[k] == Point(axes.0[k], axes.1[k])
  {
    (seq(|view.data|, k requires 0 <= k < |view.data| => view.data[k].year),
     seq(|view.data|, k requires 0 <= k < |view.data| => view.data[k].value))
  }
}
