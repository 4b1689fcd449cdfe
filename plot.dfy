/** The Time-Series Builder of `plot_metric_vs_time`: the records with a
    time and a parseable metric become points, sorted by time. */
module Plot {
  import opened JsValues
  import opened JsStrings
  import opened Dataset
  import opened Sorting

  /** One chart point. The source also carries a locale date label. */
  datatype Point = Point(time: Value, value: real, title: string)

  /** `v[timeField] != null && !isNaN(parseFloat(v[metric]))`. */
  predicate Plottable(o: Oracles, v: Record, metric: string, timeField: string)
  {
    Get(v, timeField).Some? && !Get(v, timeField).value.Null? && FieldNumber(o, v, metric).Some?
  }

  /** `s.slice(0, n)`. */
  function Prefix(s: string, n: nat): (r: string)
    ensures |r| <= n && StartsWith(s, r)
    ensures |s| <= n ==> r == s
    ensures |s| > n ==> |r| == n
  {
    if |s| <= n then s else s[..n]
  }

  /** The point of one plottable record; `None` is the TypeError a
      non-string title raises on `.slice`. */
  function PointOf(o: Oracles, v: Record, metric: string, timeField: string): (r: Option<Point>)
    requires Plottable(o, v, metric, timeField)
    ensures r.None? <==> TitleText(v).None?
    ensures r.Some? ==> r.value.time == Get(v, timeField).value && Some(r.value.value) == FieldNumber(o, v, metric)
                        && r.value.title == Prefix(TitleText(v).value, 40)
  {
    match TitleText(v)
    case None => None
    case Some(t) => Some(Point(Get(v, timeField).value, FieldNumber(o, v, metric).value, Prefix(t, 40)))
  }

  /** `videos.filter((v) => v[timeField] != null && !isNaN(parseFloat(v[metric])))`. */
  function Kept(o: Oracles, videos: seq<Record>, metric: string, timeField: string): (r: seq<Record>)
    ensures |r| <= |videos|
    ensures forall v :: v in r ==> v in videos && Plottable(o, v, metric, timeField)
    ensures forall v :: v in videos && Plottable(o, v, metric, timeField) ==> v in r
  {
    if videos == [] then []
    else
      var rest := Kept(o, videos[1..], metric, timeField);
      assert forall v :: v in videos ==> v == videos[0] || v in videos[1..];
      if Plottable(o, videos[0], metric, timeField) then [videos[0]] + rest else rest
  }

  /** `s.filter(keep)` on any list. */
  function Filter<T>(s: seq<T>, keep: T -> bool): seq<T>
  {
    if s == [] then [] else (if keep(s[0]) then [s[0]] else []) + Filter(s[1..], keep)
  }

  lemma {:induction false} FilterCounts<T>(s: seq<T>, keep: T -> bool, x: T)
    ensures multiset(Filter(s, keep))[x] == if keep(x) then multiset(s)[x] else 0
  {
    if s != [] {
      FilterCounts(s[1..], keep, x);
      assert s == [s[0]] + s[1..];
    }
  }

  lemma {:induction false} FilterAppend<T>(a: seq<T>, b: seq<T>, keep: T -> bool)
    ensures Filter(a + b, keep) == Filter(a, keep) + Filter(b, keep)
  {
    if a == [] {
      assert a + b == b;
    } else {
      var h := if keep(a[0]) then [a[0]] else [];
      assert (a + b)[0] == a[0];
      assert (a + b)[1..] == a[1..] + b;
      calc {
        Filter(a + b, keep);
        h + Filter(a[1..] + b, keep);
        { FilterAppend(a[1..], b, keep); }
        h + (Filter(a[1..], keep) + Filter(b, keep));
        (h + Filter(a[1..], keep)) + Filter(b, keep);
      }
    }
  }

  /** The test of `plot_metric_vs_time`'s filter, as a function value. */
  function PlottableIn(o: Oracles, metric: string, timeField: string): Record -> bool
  {
    (v: Record) => Plottable(o, v, metric, timeField)
  }

  /** `Kept` is `filter` with the plot's test. */
  lemma {:induction false} KeptIsFilter(o: Oracles, videos: seq<Record>, metric: string, timeField: string)
    ensures Kept(o, videos, metric, timeField) == Filter(videos, PlottableIn(o, metric, timeField))
  {
    if videos != [] {
      KeptIsFilter(o, videos[1..], metric, timeField);
    }
  }

  /** `filter` keeps each plottable record once per occurrence and drops
      every other record. */
  lemma KeptCounts(o: Oracles, videos: seq<Record>, metric: string, timeField: string, v: Record)
    ensures multiset(Kept(o, videos, metric, timeField))[v]
         == if Plottable(o, v, metric, timeField) then multiset(videos)[v] else 0
  {
    KeptIsFilter(o, videos, metric, timeField);
    FilterCounts(videos, PlottableIn(o, metric, timeField), v);
  }

  /** `filter` keeps order: filtering a concatenation concatenates the
      filtered parts. With `KeptSingle` this determines `Kept` on every list. */
  lemma KeptAppend(o: Oracles, a: seq<Record>, b: seq<Record>, metric: string, timeField: string)
    ensures Kept(o, a + b, metric, timeField) == Kept(o, a, metric, timeField) + Kept(o, b, metric, timeField)
  {
    KeptIsFilter(o, a + b, metric, timeField);
    KeptIsFilter(o, a, metric, timeField);
    KeptIsFilter(o, b, metric, timeField);
    FilterAppend(a, b, PlottableIn(o, metric, timeField));
  }

  /** A single record is kept exactly when it is plottable. */
  lemma KeptSingle(o: Oracles, v: Record, metric: string, timeField: string)
    ensures Kept(o, [v], metric, timeField) == if Plottable(o, v, metric, timeField) then [v] else []
  {
    assert [v][1..] == [];
  }

  /** `.map((v) => ({ time, date, value, title }))` over the kept records,
      or `None` when a title throws. */
  function PointsOf(o: Oracles, kept: seq<Record>, metric: string, timeField: string): (r: Option<seq<Point>>)
    requires forall v :: v in kept ==> Plottable(o, v, metric, timeField)
    ensures r.Some? ==> |r.value| == |kept|
    ensures r.Some? ==> forall k :: 0 <= k < |kept| ==> PointOf(o, kept[k], metric, timeField) == Some(r.value[k])
    ensures r.None? <==> exists v :: v in kept && TitleText(v).None?
  {
    if kept == [] then Some([])
    else
      assert kept[0] in kept;
      match PointOf(o, kept[0], metric, timeField)
      case None => None
      case Some(p) =>
        var tail := kept[1..];
        assert forall v :: v in tail ==> v in kept;
        match PointsOf(o, tail, metric, timeField)
        case None => None
        case Some(ps) =>
          PointsOfCons(o, kept, metric, timeField, p, ps);
          TitlesOfCons(kept);
          Some([p] + ps)
  }

  lemma PointsOfCons(o: Oracles, kept: seq<Record>, metric: string, timeField: string, p: Point, ps: seq<Point>)
    requires kept != [] && forall v :: v in kept ==> Plottable(o, v, metric, timeField)
    requires PointOf(o, kept[0], metric, timeField) == Some(p)
    requires |ps| == |kept| - 1
    requires forall k :: 0 <= k < |kept| - 1 ==> PointOf(o, kept[1..][k], metric, timeField) == Some(ps[k])
    ensures forall k :: 0 <= k < |kept| ==> PointOf(o, kept[k], metric, timeField) == Some(([p] + ps)[k])
  {
    var r := [p] + ps;
    forall k | 0 <= k < |kept| ensures PointOf(o, kept[k], metric, timeField) == Some(r[k]) {
      if k > 0 {
        assert kept[k] == kept[1..][k - 1] && r[k] == ps[k - 1];
      }
    }
  }

  lemma TitlesOfCons(kept: seq<Record>)
    requires kept != [] && TitleText(kept[0]).Some?
    requires forall v :: v in kept[1..] ==> TitleText(v).Some?
    ensures forall v :: v in kept ==> TitleText(v).Some?
  {
    forall v | v in kept ensures TitleText(v).Some? {
      if v != kept[0] {
        var k :| 0 <= k < |kept| && kept[k] == v;
        assert kept[1..][k - 1] == v;
      }
    }
  }

  /** `new Date(p.time)` as the comparator's subtraction reads it. */
  function TimeKey(o: Oracles): Point -> real
  {
    (p: Point) => o.dateValue(p.time) as real
  }

  /** Whether some record has a truthy time field (`dates.length`). */
  predicate SomeTime(videos: seq<Record>, timeField: string)
  {
    exists i :: 0 <= i < |videos| && Truthy(Get(videos[i], timeField))
  }

  datatype PlotOutcome = NoPlotData | PlotThrew | Chart(data: seq<Point>)

  /** The body of `plot_metric_vs_time` once the two field names are resolved. */
  function BuildChart(o: Oracles, videos: seq<Record>, metric: string, timeField: string): (r: PlotOutcome)
    // the error case: no metric value parses, or no record has a truthy time
    ensures r.NoPlotData? <==> NumericValues(o, videos, metric) == [] || !SomeTime(videos, timeField)
    // a kept record whose title is a number or `true` throws
    ensures r.PlotThrew? <==> !r.NoPlotData? && exists v :: v in Kept(o, videos, metric, timeField) && TitleText(v).None?
    // a chart is the points of the kept records, reordered by time and nothing else
    ensures r.Chart? ==> PointsOf(o, Kept(o, videos, metric, timeField), metric, timeField).Some?
    ensures r.Chart? ==> multiset(r.data) == multiset(PointsOf(o, Kept(o, videos, metric, timeField), metric, timeField).value)
    ensures r.Chart? ==> SortedBy(r.data, TimeKey(o)) && |r.data| <= |videos|
    // one point per surviving record
    ensures r.Chart? ==> |r.data| == |Kept(o, videos, metric, timeField)|
    // each point is drawn from a record with a non-null time and a parseable metric
    ensures r.Chart? ==> forall p :: p in r.data ==> exists v :: (v in videos
      && Plottable(o, v, metric, timeField) && PointOf(o, v, metric, timeField) == Some(p))
    ensures r.Chart? ==> forall p :: p in r.data ==> |p.title| <= 40
  {
    if NumericValues(o, videos, metric) == [] || !SomeTime(videos, timeField) then NoPlotData
    else
      var kept := Kept(o, videos, metric, timeField);
      match PointsOf(o, kept, metric, timeField)
      case None => PlotThrew
      case Some(points) =>
        var data := SortBy(points, TimeKey(o));
        ChartPointsFromRecords(o, videos, metric, timeField, kept, points, data);
        Chart(data)
  }

  lemma ChartPointsFromRecords(o: Oracles, videos: seq<Record>, metric: string, timeField: string,
                               kept: seq<Record>, points: seq<Point>, data: seq<Point>)
    requires forall v :: v in kept ==> v in videos && Plottable(o, v, metric, timeField)
    requires |points| == |kept|
    requires forall k :: 0 <= k < |kept| ==> PointOf(o, kept[k], metric, timeField) == Some(points[k])
    requires multiset(data) == multiset(points)
    ensures forall p :: p in data ==> exists v :: (v in videos
      && Plottable(o, v, metric, timeField) && PointOf(o, v, metric, timeField) == Some(p))
    ensures forall p :: p in data ==> |p.title| <= 40
  {
    forall p | p in data
      ensures exists v :: (v in videos
        && Plottable(o, v, metric, timeField) && PointOf(o, v, metric, timeField) == Some(p))
      ensures |p.title| <= 40
    {
      assert p in multiset(points);
      var k :| 0 <= k < |points| && points[k] == p;
      assert kept[k] in kept;
      assert PointOf(o, kept[k], metric, timeField).value.title == Prefix(TitleText(kept[k]).value, 40);
    }
  }

  /** Every record that is plottable and whose title is a string (or
      missing) contributes its point to the chart. */
  lemma ChartHasEveryPlottableRecord(o: Oracles, videos: seq<Record>, metric: string, timeField: string, v: Record)
    requires v in videos && Plottable(o, v, metric, timeField)
    requires BuildChart(o, videos, metric, timeField).Chart?
    ensures PointOf(o, v, metric, timeField).Some?
    ensures PointOf(o, v, metric, timeField).value in BuildChart(o, videos, metric, timeField).data
  {
    var kept := Kept(o, videos, metric, timeField);
    var points := PointsOf(o, kept, metric, timeField).value;
    var k :| 0 <= k < |kept| && kept[k] == v;
    assert points[k] in multiset(points);
  }
}
