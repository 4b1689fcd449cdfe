/** The sequential part of the channel-ingest handler of server/index.js:
    the clamp of the requested video count, the paginated collection of
    upload ids, the truncation to the clamped count and the split of the ids
    into batches of 50 for the statistics requests. The HTTP responses the
    handler reads are parameters. */
module Ingest {
  import opened JsValues
  import opened JsStrings
  import opened Dataset

  // ---------------------------------------------------------------------
  // The clamp `Math.min(Math.max(parseInt(maxVideos, 10) || 10, 1), 100)`
  // ---------------------------------------------------------------------

  /** `String(x)`, the conversion `parseInt` applies to its argument first. */
  function JsString(o: Oracles, j: Json): string
    decreases j, 1
  {
    match j
    case Prim(Null) => "null"
    case Prim(Bool(b)) => if b then "true" else "false"
    case Prim(Num(n)) => o.numberToString(n)
    case Prim(Str(s)) => s
    case Arr(items) => JoinElements(o, items)
    case Obj(_) => "[object Object]"
  }

  /** `Array.prototype.join(",")`: a `null` element is written as nothing. */
  function JoinElements(o: Oracles, items: seq<Json>): string
    decreases items, 0
  {
    if items == [] then ""
    else
      var first := if items[0] == Prim(Null) then "" else JsString(o, items[0]);
      if |items| == 1 then first else first + "," + JoinElements(o, items[1..])
  }

  /** `parseInt(maxVideos, 10)` after the destructuring default
      `maxVideos = 10`, which replaces only a missing property. */
  function ParseMaxVideos(o: Oracles, maxVideos: Option<Json>): (r: Option<int>)
    // a missing property takes the default
    ensures maxVideos.None? ==> r == Some(10)
    // a decimal string is read as its value
    ensures (maxVideos.Some? && maxVideos.value.Prim? && maxVideos.value.p.Str? && maxVideos.value.p.s != []
            && AllDigits(maxVideos.value.p.s)) ==> r == Some(DigitsValue(maxVideos.value.p.s))
  {
    match maxVideos
    case None => Some(10)
    case Some(j) => ParseInt(JsString(o, j))
  }

  /** The clamped number of videos to ingest. */
  function MaxVideos(o: Oracles, maxVideos: Option<Json>): (r: int)
    ensures 1 <= r <= 100
    // NaN and 0 are falsy, so `|| 10` replaces them
    ensures ParseMaxVideos(o, maxVideos) in {None, Some(0)} ==> r == 10
    ensures ParseMaxVideos(o, maxVideos).Some? && ParseMaxVideos(o, maxVideos).value < 0 ==> r == 1
    ensures ParseMaxVideos(o, maxVideos).Some? && 1 <= ParseMaxVideos(o, maxVideos).value <= 100
            ==> r == ParseMaxVideos(o, maxVideos).value
    ensures ParseMaxVideos(o, maxVideos).Some? && ParseMaxVideos(o, maxVideos).value > 100 ==> r == 100
  {
    var n := match ParseMaxVideos(o, maxVideos)
      case None => 10
      case Some(k) => if k == 0 then 10 else k;
    var atLeastOne := if n > 1 then n else 1;
    if atLeastOne < 100 then atLeastOne else 100
  }

  /** A request without `maxVideos` ingests ten videos. */
  lemma MaxVideosDefault(o: Oracles)
    ensures MaxVideos(o, None) == 10
  {
  }

  /** A count sent as a decimal string is taken as it is when it lies in
      [1, 100] and clamped to the nearer end otherwise. */
  lemma MaxVideosOfNumeral(o: Oracles, n: nat)
    ensures MaxVideos(o, Some(Prim(Str(NatToString(n))))) == if n == 0 then 10 else if n <= 100 then n else 100
  {
    ParseIntOfNatToString(n);
  }

  /** `null`, `true`, `false`, an object and an empty array all parse as NaN
      and give the default. */
  lemma MaxVideosOfNonNumbers(o: Oracles, j: Json)
    requires j == Prim(Null) || (j.Prim? && j.p.Bool?) || j.Obj? || j == Arr([])
    ensures MaxVideos(o, Some(j)) == 10
  {
    var s := JsString(o, j);
    if j.Obj? {
      assert TrimStart(s) == s by { assert !IsSpace(s[0]); }
      assert DigitPrefix(s) == "" by { assert !IsDigit(s[0]); }
    } else if j == Prim(Null) || j.Prim? {
      assert TrimStart(s) == s by { assert !IsSpace(s[0]); }
      assert DigitPrefix(s) == "" by { assert !IsDigit(s[0]); }
    }
  }

  // ---------------------------------------------------------------------
  // Collecting upload ids page by page (the `do ... while` loop)
  // ---------------------------------------------------------------------

  /** One `playlistItems` response as the loop reads it: the
      `item.snippet?.resourceId?.videoId` of each item (`None` when absent)
      and `listData.nextPageToken || ''`; a response without `items` has none. */
  datatype Page = Page(videoIds: seq<Option<string>>, nextPageToken: string)

  /** The `k`-th response. Requests beyond the given responses return an
      empty page without a continuation token. */
  function Fetch(pages: seq<Page>, k: nat): (r: Page)
    ensures k >= |pages| ==> r == Page([], "")
  {
    if k < |pages| then pages[k] else Page([], "")
  }

  /** `if (vid)`: a missing or empty id is skipped. */
  predicate Usable(vid: Option<string>)
  {
    vid.Some? && vid.value != ""
  }

  /** The usable ids of a list of items, in order. */
  function UsableIds(items: seq<Option<string>>): (r: seq<string>)
    ensures |r| <= |items|
  {
    if items == [] then []
    else
      var init := UsableIds(items[..|items| - 1]);
      var last := items[|items| - 1];
      if Usable(last) then init + [last.value] else init
  }

  /** The usable ids of the first `k` responses, in order. */
  function IdsOfPages(pages: seq<Page>, k: nat): seq<string>
  {
    if k == 0 then [] else IdsOfPages(pages, k - 1) + UsableIds(Fetch(pages, k - 1).videoIds)
  }

  /** The index of the first response at or after `k` without a
      continuation token: the last page the loop requests when the count is
      never reached. */
  function LastPage(pages: seq<Page>, k: nat): (r: nat)
    decreases |pages| - k
    ensures k <= r <= if k <= |pages| then |pages| else k
    ensures Fetch(pages, r).nextPageToken == ""
    ensures forall j :: k <= j < r ==> Fetch(pages, j).nextPageToken != ""
  {
    if Fetch(pages, k).nextPageToken == "" then k else LastPage(pages, k + 1)
  }

  /** `s.slice(0, n)`. */
  function Take<T>(s: seq<T>, n: nat): (r: seq<T>)
    ensures |r| <= n && |r| <= |s|
    ensures r == s[..|r|]
    ensures |s| <= n ==> r == s
    ensures |s| > n ==> |r| == n
  {
    if |s| <= n then s else s[..n]
  }

  /** The ids the loop collects: the usable ids of every page up to the
      first one without a continuation token, cut at `max`. */
  function CollectedIds(pages: seq<Page>, max: nat): (r: seq<string>)
    // never more than `max` ids, in page order
    ensures |r| <= max && |r| <= |IdsOfPages(pages, LastPage(pages, 0) + 1)|
    ensures r == IdsOfPages(pages, LastPage(pages, 0) + 1)[..|r|]
    // short of `max`, every usable id up to the last page
    ensures |r| < max ==> r == IdsOfPages(pages, LastPage(pages, 0) + 1)
  {
    Take(IdsOfPages(pages, LastPage(pages, 0) + 1), max)
  }

  /** Once `n` elements are taken, a longer sequence yields the same ones. */
  lemma TakeOfExtension<T>(a: seq<T>, b: seq<T>, n: nat)
    requires |a| <= |b| && a == b[..|a|]
    requires |Take(a, n)| >= n
    ensures Take(b, n) == Take(a, n)
  {
  }

  lemma {:induction false} UsableIdsPrefix(items: seq<Option<string>>, i: nat)
    requires i <= |items|
    ensures |UsableIds(items[..i])| <= |UsableIds(items)|
    ensures UsableIds(items[..i]) == UsableIds(items)[..|UsableIds(items[..i])|]
    decreases |items| - i
  {
    if i < |items| {
      UsableIdsPrefix(items, i + 1);
      assert items[..i + 1][..i] == items[..i];
    } else {
      assert items[..i] == items;
    }
  }

  lemma {:induction false} IdsOfPagesPrefix(pages: seq<Page>, j: nat, k: nat)
    requires j <= k
    ensures |IdsOfPages(pages, j)| <= |IdsOfPages(pages, k)|
    ensures IdsOfPages(pages, j) == IdsOfPages(pages, k)[..|IdsOfPages(pages, j)|]
    decreases k
  {
    if j < k {
      IdsOfPagesPrefix(pages, j, k - 1);
    }
  }

  /** One more item adds its id when it is usable. */
  lemma UsableIdsStep(items: seq<Option<string>>, i: nat)
    requires i < |items|
    ensures UsableIds(items[..i + 1]) == UsableIds(items[..i]) + if Usable(items[i]) then [items[i].value] else []
  {
    assert items[..i + 1][..i] == items[..i];
  }

  /** Once the ids of the first `i` items reach `max`, the rest add nothing to the first `max`. */
  lemma FullAfter(before: seq<string>, items: seq<Option<string>>, i: nat, max: nat)
    requires i <= |items| && |before + UsableIds(items[..i])| == max
    ensures Take(before + UsableIds(items), max) == before + UsableIds(items[..i])
  {
    UsableIdsPrefix(items, i);
    TakeOfExtension(before + UsableIds(items[..i]), before + UsableIds(items), max);
  }

  /** The `for (const item of listData.items || [])` loop over one page:
      appends the usable ids to `before`, stopping once `max` ids are held. */
  method CollectFromPage(before: seq<string>, items: seq<Option<string>>, max: nat) returns (videoIds: seq<string>)
    requires |before| < max
    ensures videoIds == Take(before + UsableIds(items), max)
  {
    videoIds := before;
    var i := 0;
    while i < |items|
      invariant i <= |items|
      invariant videoIds == before + UsableIds(items[..i])
      invariant |videoIds| < max
    {
      var vid := items[i];
      UsableIdsStep(items, i);
      if Usable(vid) {
        videoIds := videoIds + [vid.value];
      }
      if |videoIds| >= max {
        FullAfter(before, items, i + 1, max);
        return;
      }
      i := i + 1;
    }
    assert items[..i] == items;
  }

  /** Before the count is reached, collecting page `k` gives the ids of the first `k + 1` pages. */
  lemma PageExtendsIds(pages: seq<Page>, k: nat, max: nat)
    requires |Take(IdsOfPages(pages, k), max)| < max
    ensures Take(Take(IdsOfPages(pages, k), max) + UsableIds(Fetch(pages, k).videoIds), max) == Take(IdsOfPages(pages, k + 1), max)
  {
  }

  /** The loop stops with the collected ids: either page `k - 1` has no
      continuation token, so it is the last page, or `max` ids are held. */
  lemma StopsAtCollected(pages: seq<Page>, k: nat, max: nat)
    requires 1 <= k <= LastPage(pages, 0) + 1
    requires Fetch(pages, k - 1).nextPageToken == "" || |Take(IdsOfPages(pages, k), max)| >= max
    ensures Take(IdsOfPages(pages, k), max) == CollectedIds(pages, max)
  {
    if Fetch(pages, k - 1).nextPageToken != "" {
      IdsOfPagesPrefix(pages, k, LastPage(pages, 0) + 1);
      TakeOfExtension(IdsOfPages(pages, k), IdsOfPages(pages, LastPage(pages, 0) + 1), max);
    }
  }

  /** The collection loop. `pages` are the responses in the order they are
      requested; `max` is the clamped count, at least 1. */
  method CollectVideoIds(pages: seq<Page>, max: nat) returns (videoIds: seq<string>)
    requires max >= 1
    ensures videoIds == CollectedIds(pages, max)
    ensures |videoIds| <= max
  {
    videoIds := [];
    var k := 0;
    var nextPageToken := "";
    var more := true;
    while more
      invariant k <= LastPage(pages, 0) + 1
      invariant videoIds == Take(IdsOfPages(pages, k), max)
      invariant more ==> k <= LastPage(pages, 0) && |videoIds| < max
      invariant !more ==> videoIds == CollectedIds(pages, max)
      decreases LastPage(pages, 0) + 1 - k, more
    {
      var page := Fetch(pages, k);
      videoIds := CollectFromPage(videoIds, page.videoIds, max);
      PageExtendsIds(pages, k, max);
      nextPageToken := page.nextPageToken;
      k := k + 1;
      more := nextPageToken != "" && |videoIds| < max;
      if !more {
        StopsAtCollected(pages, k, max);
      }
    }
  }

  /** `videoIds.slice(0, max)` after the loop changes nothing: the loop
      already stops at `max`. */
  lemma SliceAfterCollectIsNoOp(pages: seq<Page>, max: nat)
    ensures Take(CollectedIds(pages, max), max) == CollectedIds(pages, max)
    ensures |CollectedIds(pages, max)| <= max
  {
  }

  // ---------------------------------------------------------------------
  // Batches of 50 ids for the `videos` requests
  // ---------------------------------------------------------------------

  function Min(a: int, b: int): int { if a < b then a else b }

  /** The batches concatenated in order. */
  function Flatten(batches: seq<seq<string>>): seq<string>
  {
    if batches == [] then [] else Flatten(batches[..|batches| - 1]) + batches[|batches| - 1]
  }

  /** `batch` number `j` is `ids.slice(50 * j, 50 * j + 50)`. */
  ghost predicate BatchesOf(ids: seq<string>, batches: seq<seq<string>>)
  {
    forall j :: 0 <= j < |batches| ==> 50 * j <= |ids| && batches[j] == ids[50 * j..Min(50 * j + 50, |ids|)]
  }

  /** Appending the slice at `i = 50 * |batches|` keeps every batch at its place. */
  lemma BatchesOfStep(ids: seq<string>, batches: seq<seq<string>>, i: nat)
    requires i == 50 * |batches| < |ids| && BatchesOf(ids, batches)
    ensures BatchesOf(ids, batches + [ids[i..Min(i + 50, |ids|)]])
  {
    var next := batches + [ids[i..Min(i + 50, |ids|)]];
    forall j | 0 <= j < |next| ensures 50 * j <= |ids| && next[j] == ids[50 * j..Min(50 * j + 50, |ids|)] {
      if j < |batches| { assert next[j] == batches[j]; }
    }
  }

  /** Appending the slice at `i` extends the flattened prefix `ids[..i]`. */
  lemma FlattenStep(ids: seq<string>, batches: seq<seq<string>>, i: nat, e: nat)
    requires i <= e <= |ids| && Flatten(batches) == ids[..i]
    ensures Flatten(batches + [ids[i..e]]) == ids[..e]
  {
    var next := batches + [ids[i..e]];
    assert next[..|next| - 1] == batches;
    assert ids[..e] == ids[..i] + ids[i..e];
  }

  /** `for (let i = 0; i < ids.length; i += 50) ids.slice(i, i + 50)`. */
  method Batches(ids: seq<string>) returns (batches: seq<seq<string>>)
    ensures BatchesOf(ids, batches)
    ensures |batches| == (|ids| + 49) / 50
    ensures Flatten(batches) == ids
  {
    batches := [];
    var i := 0;
    while i < |ids|
      invariant i == 50 * |batches|
      invariant i == 0 || i < |ids| + 50
      invariant BatchesOf(ids, batches)
      invariant Flatten(batches) == ids[..Min(i, |ids|)]
    {
      BatchesOfStep(ids, batches, i);
      FlattenStep(ids, batches, i, Min(i + 50, |ids|));
      batches := batches + [ids[i..Min(i + 50, |ids|)]];
      i := i + 50;
    }
    BatchCount(|ids|, |batches|);
  }

  /** `b` slices of 50 cover `n` ids exactly when `b` is `n / 50` rounded up. */
  lemma BatchCount(n: nat, b: nat)
    requires n <= 50 * b && (b == 0 || 50 * b < n + 50)
    ensures b == (n + 49) / 50
  {
  }

  /** Every batch holds between 1 and 50 ids, and all but the last hold
      exactly 50. */
  lemma BatchSizes(ids: seq<string>, batches: seq<seq<string>>)
    requires BatchesOf(ids, batches) && |batches| == (|ids| + 49) / 50
    ensures forall j :: 0 <= j < |batches| ==> 0 < |batches[j]| <= 50
    ensures forall j :: 0 <= j < |batches| - 1 ==> |batches[j]| == 50
  {
    forall j | 0 <= j < |batches|
      ensures 0 < |batches[j]| <= 50
      ensures j < |batches| - 1 ==> |batches[j]| == 50
    {
      assert 50 * j < |ids|;
    }
  }

  /** The id pipeline of the handler: clamp, collect, `slice(0, max)`, batch.
      Every collected id is requested exactly once, in order, at most 50 at a time. */
  method PlanVideoRequests(o: Oracles, maxVideos: Option<Json>, pages: seq<Page>) returns (batches: seq<seq<string>>)
    ensures Flatten(batches) == CollectedIds(pages, MaxVideos(o, maxVideos))
    ensures |Flatten(batches)| <= MaxVideos(o, maxVideos)
    ensures forall j :: 0 <= j < |batches| ==> 0 < |batches[j]| <= 50
  {
    var max := MaxVideos(o, maxVideos);
    var videoIds := CollectVideoIds(pages, max);
    var ids := Take(videoIds, max);
    batches := Batches(ids);
    BatchSizes(ids, batches);
  }
}
