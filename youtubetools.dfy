/** The Tool Dispatcher `executeYouTubeTool` of src/services/youtubeTools.js:
    it names four tools and returns a result object or an `error`. */
module YouTubeTools {
  import opened JsValues
  import opened JsStrings
  import opened Dataset
  import opened Statistics
  import opened Selection
  import opened Plot
  import opened Sorting

  datatype Tool = GenerateImage | PlotMetricVsTime | PlayVideo | ComputeStatsJson

  /** The name under which each tool is declared and dispatched. */
  function Name(t: Tool): string
  {
    match t
    case GenerateImage => "generateImage"
    case PlotMetricVsTime => "plot_metric_vs_time"
    case PlayVideo => "play_video"
    case ComputeStatsJson => "compute_stats_json"
  }

  /** The `switch (toolName)`: the tool of that name, if any. */
  function ToolNamed(name: string): (r: Option<Tool>)
    ensures r.Some? ==> Name(r.value) == name
    ensures r.None? ==> forall t :: Name(t) != name
  {
    if name == "generateImage" then Some(GenerateImage)
    else if name == "plot_metric_vs_time" then Some(PlotMetricVsTime)
    else if name == "play_video" then Some(PlayVideo)
    else if name == "compute_stats_json" then Some(ComputeStatsJson)
    else None
  }

  /** No two tools share a name, so every tool is found under its own. */
  lemma ToolNamedName(t: Tool)
    ensures ToolNamed(Name(t)) == Some(t)
  {
    match t
    case GenerateImage =>
    case PlotMetricVsTime => assert Name(t)[0] != "generateImage"[0];
    case PlayVideo => assert Name(t)[2] != "generateImage"[2] && Name(t)[2] != "plot_metric_vs_time"[2];
    case ComputeStatsJson => assert Name(t)[0] != "generateImage"[0] && Name(t)[0] != "play_video"[0];
  }

  /** The four `error` results. */
  datatype ToolError =
    | NoChartData(metric: string, timeField: string, available: seq<string>)
    | NoMatch(selection: Option<string>)
    | NoNumericValues(field: Option<string>, available: seq<string>)
    | UnknownTool(name: string)

  /** A value in a template literal; `undefined` prints as "undefined". */
  function Show(s: Option<string>): string
  {
    match s
    case None => "undefined"
    case Some(x) => x
  }

  /** The text of each `error`. */
  function Message(e: ToolError): string
  {
    match e
    case NoChartData(metric, timeField, available) =>
      "No data for metric \"" + metric + "\" or time field \"" + timeField + "\". Available: " + Join(available, ", ")
    case NoMatch(selection) =>
      "No video matched \"" + Show(selection) + "\". Try \"first\", \"most viewed\", or part of a title."
    case NoNumericValues(field, available) =>
      "No numeric values for field \"" + Show(field) + "\". Available: " + Join(available, ", ")
    case UnknownTool(name) => "Unknown tool: " + name
  }

  /** A message that lists the available keys names every one of them. */
  lemma MessageListsKeys(e: ToolError, k: string)
    requires e.NoChartData? || e.NoNumericValues?
    requires k in e.available
    ensures Contains(Message(e), k)
  {
    var i :| 0 <= i < |e.available| && e.available[i] == k;
    JoinContains(e.available, ", ", i);
    var head := if e.NoChartData? then "No data for metric \"" + e.metric + "\" or time field \"" + e.timeField + "\". Available: "
                else "No numeric values for field \"" + Show(e.field) + "\". Available: ";
    assert Message(e) == head + Join(e.available, ", ");
    ContainsAfter(head, Join(e.available, ", "), k);
  }

  lemma MessageListsAllKeys(e: ToolError)
    requires e.NoChartData? || e.NoNumericValues?
    ensures forall k :: k in e.available ==> Contains(Message(e), k)
  {
    forall k | k in e.available ensures Contains(Message(e), k) {
      MessageListsKeys(e, k);
    }
  }

  datatype ToolResult =
    | Failed(error: ToolError)
    | ImageRequest(prompt: Option<string>, anchorImageBase64: Option<string>, anchorMimeType: Option<string>, callApi: bool)
    | MetricChart(metricField: string, timeField: string, data: seq<Point>)
    | VideoCard(title: Option<Value>, thumbnailUrl: Option<Value>, videoUrl: Option<Value>, videoId: Option<Value>)
    | Stats(field: Option<string>, summary: Summary)
    | Threw

  /** `Object.keys(videos[0] || {})`. */
  function AvailableKeys(videos: seq<Record>): seq<string>
  {
    if videos == [] then [] else videos[0].keys
  }

  /** The property key `v[field]` reads: an `undefined` field is the key "undefined". */
  function FieldKey(field: Option<string>): string
  {
    Show(field)
  }

  /** `args.x || null` for a string argument. */
  function OrNull(arg: Option<string>): (r: Option<string>)
    ensures r.Some? <==> arg.Some? && arg.value != ""
    ensures r.Some? ==> r == arg
  {
    if arg.Some? && arg.value != "" then arg else None
  }

  /** The `generateImage` case. */
  function GenerateImageTool(args: map<string, string>): (r: ToolResult)
    ensures r.ImageRequest?
  {
    ImageRequest(Lookup(args, "prompt"), OrNull(Lookup(args, "anchorImageBase64")), OrNull(Lookup(args, "anchorMimeType")), true)
  }

  /** The `plot_metric_vs_time` case. */
  function PlotTool(o: Oracles, args: map<string, string>, videos: seq<Record>): (r: ToolResult)
    ensures r.Failed? ==> r.error.NoChartData?
    ensures r.Failed? || r.MetricChart? || r.Threw?
  {
    var metric := PlotFieldOf(videos, Lookup(args, "metric"), "view_count");
    var timeField := PlotFieldOf(videos, Lookup(args, "timeField"), "published_at");
    match BuildChart(o, videos, metric, timeField)
    case NoPlotData => Failed(NoChartData(metric, timeField, AvailableKeys(videos)))
    case PlotThrew => Threw
    case Chart(data) => MetricChart(metric, timeField, data)
  }

  /** The `play_video` result for the resolver's choice: the card of the
      chosen record, the no-match error quoting the selection, or the
      title TypeError. */
  function VideoCardOf(c: Choice, selection: Option<string>): (r: ToolResult)
    ensures r.VideoCard? <==> c.Chosen?
    ensures c.Chosen? ==> r.title == Get(c.video, "title") && r.thumbnailUrl == Get(c.video, "thumbnail_url")
                          && r.videoUrl == Get(c.video, "video_url") && r.videoId == Get(c.video, "video_id")
    ensures c.NoChoice? <==> r == Failed(NoMatch(selection))
    ensures c.SelectionThrew? <==> r.Threw?
  {
    match c
    case Chosen(v) => VideoCard(Get(v, "title"), Get(v, "thumbnail_url"), Get(v, "video_url"), Get(v, "video_id"))
    case NoChoice => Failed(NoMatch(selection))
    case SelectionThrew => Threw
  }

  /** The `play_video` case. */
  function PlayVideoTool(o: Oracles, args: map<string, string>, videos: seq<Record>): (r: ToolResult)
    ensures r.VideoCard? || r == Failed(NoMatch(Lookup(args, "selection"))) || r.Threw?
    // a card shows the fields of one of the dataset's records
    ensures r.VideoCard? ==> exists v :: (v in videos && r.title == Get(v, "title") && r.thumbnailUrl == Get(v, "thumbnail_url")
                                          && r.videoUrl == Get(v, "video_url") && r.videoId == Get(v, "video_id"))
    // an empty dataset has no video to play
    ensures videos == [] ==> r == Failed(NoMatch(Lookup(args, "selection")))
  {
    SelectChoosesFromDataset(o, Lookup(args, "selection"), videos);
    VideoCardOf(Select(o, Lookup(args, "selection"), videos), Lookup(args, "selection"))
  }

  /** The `compute_stats_json` case. */
  function ComputeStatsTool(o: Oracles, args: map<string, string>, videos: seq<Record>): (r: ToolResult)
    ensures r.Failed? ==> r.error.NoNumericValues?
    ensures r.Failed? || r.Stats?
  {
    var field := ResolveField(videos, Lookup(args, "field"));
    var vals := NumericValues(o, videos, FieldKey(field));
    if vals == [] then Failed(NoNumericValues(field, AvailableKeys(videos)))
    else Stats(field, Summarize(vals))
  }

  /** `if (!Array.isArray(videos)) videos = []`; `None` is a non-array. */
  function Videos(input: Option<seq<Record>>): seq<Record>
  {
    if input.Some? then input.value else []
  }

  /** The `case` of the `switch` for a known tool. */
  function RunTool(o: Oracles, t: Tool, args: map<string, string>, videos: seq<Record>): (r: ToolResult)
    ensures !(r.Failed? && r.error.UnknownTool?)
    ensures r.ImageRequest? <==> t == GenerateImage
    ensures r.MetricChart? ==> t == PlotMetricVsTime
    ensures r.VideoCard? ==> t == PlayVideo
    ensures r.Stats? ==> t == ComputeStatsJson
  {
    match t
    case GenerateImage => GenerateImageTool(args)
    case PlotMetricVsTime => PlotTool(o, args, videos)
    case PlayVideo => PlayVideoTool(o, args, videos)
    case ComputeStatsJson => ComputeStatsTool(o, args, videos)
  }

  /** `executeYouTubeTool(toolName, args, videos)`. */
  function Execute(o: Oracles, toolName: string, args: map<string, string>, input: Option<seq<Record>>): (r: ToolResult)
    ensures ToolNamed(toolName).None? <==> r == Failed(UnknownTool(toolName))
    ensures r.ImageRequest? <==> ToolNamed(toolName) == Some(GenerateImage)
    ensures r.MetricChart? ==> ToolNamed(toolName) == Some(PlotMetricVsTime)
    ensures r.VideoCard? ==> ToolNamed(toolName) == Some(PlayVideo)
    ensures r.Stats? ==> ToolNamed(toolName) == Some(ComputeStatsJson)
  {
    match ToolNamed(toolName)
    case None => Failed(UnknownTool(toolName))
    case Some(t) => RunTool(o, t, args, Videos(input))
  }

  /** Each tool's name runs that tool's case on the dataset (empty when not an array). */
  lemma ExecuteDispatches(o: Oracles, t: Tool, args: map<string, string>, input: Option<seq<Record>>)
    ensures Execute(o, Name(t), args, input) == RunTool(o, t, args, Videos(input))
  {
    ToolNamedName(t);
  }

  /** A `videos` that is not an array behaves as the empty dataset. */
  lemma NonArrayIsEmpty(o: Oracles, toolName: string, args: map<string, string>)
    ensures Execute(o, toolName, args, None) == Execute(o, toolName, args, Some([]))
  {
  }

  /** `generateImage` computes nothing: it echoes the prompt, turns a
      missing or empty anchor into null, and asks the caller to call the API. */
  lemma GenerateImageEchoes(args: map<string, string>)
    ensures var r := GenerateImageTool(args);
      r.ImageRequest? && r.callApi
      && r.prompt == Lookup(args, "prompt")
      && (r.anchorImageBase64.Some? <==> "anchorImageBase64" in args && args["anchorImageBase64"] != "")
      && (r.anchorImageBase64.Some? ==> r.anchorImageBase64.value == args["anchorImageBase64"])
      && (r.anchorMimeType.Some? <==> "anchorMimeType" in args && args["anchorMimeType"] != "")
      && (r.anchorMimeType.Some? ==> r.anchorMimeType.value == args["anchorMimeType"])
  {
  }

  /** The field the plot reads: the given name, or its default, or a key of
      the first record with the same normal form. */
  predicate PlotField(videos: seq<Record>, arg: Option<string>, default: string, field: string)
  {
    var name := OrElse(arg, default);
    field == name || (videos != [] && field in videos[0].keys && Normalize(field) == Normalize(name))
  }

  /** The field a plot argument resolves to, with its default. */
  function PlotFieldOf(videos: seq<Record>, arg: Option<string>, default: string): string
  {
    ResolveField(videos, Some(OrElse(arg, default))).value
  }

  lemma PlotFieldResolved(videos: seq<Record>, arg: Option<string>, default: string)
    ensures PlotField(videos, arg, default, PlotFieldOf(videos, arg, default))
  {
  }

  /** `plot_metric_vs_time` fails only with the no-data error, which fires
      exactly when no metric value parses or no record has a truthy time;
      the metric defaults to `view_count` and the time field to
      `published_at`, and the message names every key of the first record. */
  lemma PlotFailureProperties(o: Oracles, args: map<string, string>, videos: seq<Record>)
    ensures var r := PlotTool(o, args, videos);
      r.Failed? || r.MetricChart? || r.Threw?
    ensures var r := PlotTool(o, args, videos);
      r.Failed? ==>
        r.error.NoChartData? && PlotField(videos, Lookup(args, "metric"), "view_count", r.error.metric)
        && PlotField(videos, Lookup(args, "timeField"), "published_at", r.error.timeField)
        && (NumericValues(o, videos, r.error.metric) == [] || !SomeTime(videos, r.error.timeField))
        && r.error.available == AvailableKeys(videos)
        && forall k :: k in AvailableKeys(videos) ==> Contains(Message(r.error), k)
  {
    var r := PlotTool(o, args, videos);
    PlotFieldResolved(videos, Lookup(args, "metric"), "view_count");
    PlotFieldResolved(videos, Lookup(args, "timeField"), "published_at");
    if r.Failed? {
      MessageListsAllKeys(r.error);
    }
  }

  /** A `plot_metric_vs_time` chart is sorted by time, no longer than the
      dataset, and made of points of records with a non-null time and a
      parseable metric, each title at most 40 characters. */
  lemma PlotChartProperties(o: Oracles, args: map<string, string>, videos: seq<Record>)
    ensures var r := PlotTool(o, args, videos);
      r.MetricChart? ==>
        PlotField(videos, Lookup(args, "metric"), "view_count", r.metricField)
        && PlotField(videos, Lookup(args, "timeField"), "published_at", r.timeField)
        && NumericValues(o, videos, r.metricField) != [] && SomeTime(videos, r.timeField)
        && SortedBy(r.data, TimeKey(o)) && |r.data| <= |videos|
        && (forall p :: p in r.data ==> |p.title| <= 40)
        && forall p :: p in r.data ==> exists v :: (v in videos
             && Plottable(o, v, r.metricField, r.timeField) && PointOf(o, v, r.metricField, r.timeField) == Some(p))
  {
    PlotFieldResolved(videos, Lookup(args, "metric"), "view_count");
    PlotFieldResolved(videos, Lookup(args, "timeField"), "published_at");
  }

  /** `compute_stats_json`: the error fires exactly when no value of the
      resolved field parses, and lists every key of the first record;
      otherwise the figures summarise the parsed values. */
  lemma ComputeStatsProperties(o: Oracles, args: map<string, string>, videos: seq<Record>)
    ensures var field := ResolveField(videos, Lookup(args, "field"));
      var vals := NumericValues(o, videos, FieldKey(field));
      var r := ComputeStatsTool(o, args, videos);
      (r.Failed? <==> vals == [])
      && (r.Failed? ==> r.error == NoNumericValues(field, AvailableKeys(videos))
                        && forall k :: k in AvailableKeys(videos) ==> Contains(Message(r.error), k))
      && (!r.Failed? ==> r.Stats? && r.field == field && r.summary.count == |vals| && |vals| <= |videos|
                         && r.summary.min <= r.summary.mean <= r.summary.max
                         && r.summary.min <= r.summary.median <= r.summary.max
                         && r.summary.variance >= 0.0
                         && r.summary.min in vals && r.summary.max in vals
                         && forall i :: 0 <= i < |vals| ==> r.summary.min <= vals[i] <= r.summary.max)
  {
    var r := ComputeStatsTool(o, args, videos);
    if r.Failed? {
      MessageListsAllKeys(r.error);
    }
  }

  /** Any name other than the four is the unknown-tool error quoting it. */
  lemma UnknownToolMessage(o: Oracles, toolName: string, args: map<string, string>, input: Option<seq<Record>>)
    requires forall t :: Name(t) != toolName
    ensures Execute(o, toolName, args, input) == Failed(UnknownTool(toolName))
    ensures Message(Execute(o, toolName, args, input).error) == "Unknown tool: " + toolName
  {
  }
}
