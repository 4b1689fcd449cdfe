/** The Selection Resolver of `play_video`: a free-text selection picks one
    record by "most viewed", by ordinal, or by a title fragment. */
module Selection {
  import opened JsValues
  import opened JsStrings
  import opened Dataset
  import opened Sorting

  /** `(v.view_count || 0)` as the comparator's subtraction reads it. A
      string count goes through `Number`; one that is NaN counts as 0. */
  function ViewCount(o: Oracles, v: Record): (r: real)
    // a falsy count is replaced by 0
    ensures !Truthy(Get(v, "view_count")) ==> r == 0.0
    // a number is its own count
    ensures Get(v, "view_count").Some? && Get(v, "view_count").value.Num? ==> r == Get(v, "view_count").value.n
  {
    match Get(v, "view_count")
    case Some(Num(n)) => n
    case Some(Bool(b)) => if b then 1.0 else 0.0
    case Some(Str(s)) =>
      if s == "" then 0.0
      else (match o.toNumber(s) case Some(n) => n case None => 0.0)
    case _ => 0.0
  }

  /** `[...videos].sort((a, b) => (b.view_count || 0) - (a.view_count || 0))[0]`:
      a stable ascending sort on the negated count. */
  function MostViewed(o: Oracles, videos: seq<Record>): (r: Option<Record>)
    ensures r.None? <==> videos == []
    ensures r.Some? ==> r.value in videos
  {
    if videos == [] then None
    else
      var sorted := SortBy(videos, (v: Record) => -ViewCount(o, v));
      assert sorted[0] in multiset(sorted);
      Some(sorted[0])
  }

  /** "Most viewed" yields a record with the largest count, the earliest one on a tie. */
  lemma MostViewedIsFirstMaximum(o: Oracles, videos: seq<Record>)
    requires videos != []
    ensures MostViewed(o, videos).Some?
    ensures exists i :: (0 <= i < |videos| && MostViewed(o, videos) == Some(videos[i])
      && (forall j :: 0 <= j < |videos| ==> ViewCount(o, videos[j]) <= ViewCount(o, videos[i]))
      && (forall j :: 0 <= j < i ==> ViewCount(o, videos[j]) < ViewCount(o, videos[i])))
  {
    var key := (v: Record) => -ViewCount(o, v);
    var i := FirstArgMin(videos, key);
    SortByHead(videos, key);
    assert forall j :: 0 <= j < |videos| ==> key(videos[i]) <= key(videos[j]);
    assert forall j :: 0 <= j < i ==> key(videos[i]) < key(videos[j]);
  }

  /** The `play_video` ordinal regular expression
      `/^first|1(st)?$|^second|2(nd)?$|^third|3(rd)?$|^\d+$/i`: each anchor
      binds to its own alternative only. */
  predicate LooksOrdinal(sel: string)
    // the empty selection is not an ordinal
    ensures LooksOrdinal(sel) ==> sel != []
    // every word the ordinal branch indexes, and every numeral, passes
    ensures sel in OrdinalWords[0] + OrdinalWords[1] + OrdinalWords[2] ==> LooksOrdinal(sel)
    ensures sel != [] && AllDigits(sel) ==> LooksOrdinal(sel)
  {
    StartsWith(sel, "first") || EndsWith(sel, "1") || EndsWith(sel, "1st")
    || StartsWith(sel, "second") || EndsWith(sel, "2") || EndsWith(sel, "2nd")
    || StartsWith(sel, "third") || EndsWith(sel, "3") || EndsWith(sel, "3rd")
    || (sel != "" && AllDigits(sel))
  }

  /** The words the ordinal branch maps to an index of its own, by rank:
      the words of `OrdinalWords[k]` pick position `k`. */
  const OrdinalWords: seq<seq<string>> := [["first", "1", "1st"], ["second", "2", "2nd"], ["third", "3", "3rd"]]

  /** The index the ordinal branch computes; `None` is NaN from `parseInt`. */
  function OrdinalIndex(sel: string): (r: Option<int>)
    // a word of rank k picks position k
    ensures sel in OrdinalWords[0] ==> r == Some(0)
    ensures sel in OrdinalWords[1] ==> r == Some(1)
    ensures sel in OrdinalWords[2] ==> r == Some(2)
    // a numeral N picks position N - 1
    ensures sel != [] && AllDigits(sel) ==> r == Some(DigitsValue(sel) - 1)
  {
    assert DigitsValue("1") == 1 && DigitsValue("2") == 2 && DigitsValue("3") == 3;
    if sel == "first" || sel == "1" || sel == "1st" then Some(0)
    else if sel == "second" || sel == "2" || sel == "2nd" then Some(1)
    else if sel == "third" || sel == "3" || sel == "3rd" then Some(2)
    else match ParseInt(sel)
      case None => None
      case Some(n) => Some(n - 1)
  }

  datatype TitleSearch = Found(index: nat) | NotFound | TitleThrew

  /** Whether a record's title, lower-cased, contains `sel`; `None` when the title throws. */
  function TitleMatches(v: Record, sel: string): Option<bool>
  {
    match TitleText(v)
    case None => None
    case Some(t) => Some(Contains(ToLower(t), sel))
  }

  /** No title among the first `n` records contains `sel`, and none throws. */
  predicate MissesBefore(videos: seq<Record>, sel: string, n: nat)
    requires n <= |videos|
  {
    forall j :: 0 <= j < n ==> TitleMatches(videos[j], sel) == Some(false)
  }

  /** A miss at the head extends the misses of the tail by one. */
  lemma MissesBeforeCons(videos: seq<Record>, sel: string, n: nat)
    requires n < |videos| && TitleMatches(videos[0], sel) == Some(false)
    requires MissesBefore(videos[1..], sel, n)
    ensures MissesBefore(videos, sel, n + 1)
  {
    forall j | 1 <= j < n + 1 ensures TitleMatches(videos[j], sel) == Some(false) {
      assert videos[1..][j - 1] == videos[j];
    }
  }

  /** A throwing title in the tail, after a miss at the head, throws in the whole. */
  lemma ThrowAfterMiss(videos: seq<Record>, sel: string)
    requires videos != [] && TitleMatches(videos[0], sel) == Some(false)
    requires exists j :: (0 <= j < |videos[1..]| && TitleMatches(videos[1..][j], sel).None?
      && MissesBefore(videos[1..], sel, j))
    ensures exists j :: (0 <= j < |videos| && TitleMatches(videos[j], sel).None?
      && MissesBefore(videos, sel, j))
  {
    var j :| 0 <= j < |videos[1..]| && TitleMatches(videos[1..][j], sel).None?
      && MissesBefore(videos[1..], sel, j);
    MissesBeforeCons(videos, sel, j);
    assert videos[1..][j] == videos[j + 1];
  }

  /** `videos.find((v) => (v.title || '').toLowerCase().includes(sel))`. */
  function FindTitle(videos: seq<Record>, sel: string): (r: TitleSearch)
    ensures r.Found? ==> (r.index < |videos| && TitleMatches(videos[r.index], sel) == Some(true)
      && MissesBefore(videos, sel, r.index))
    ensures r.NotFound? ==> MissesBefore(videos, sel, |videos|)
    ensures r.TitleThrew? ==> exists j :: (0 <= j < |videos| && TitleMatches(videos[j], sel).None?
      && MissesBefore(videos, sel, j))
  {
    if videos == [] then NotFound
    else match TitleMatches(videos[0], sel)
      case None => TitleThrew
      case Some(true) => Found(0)
      case Some(false) =>
        var tail := videos[1..];
        match FindTitle(tail, sel)
        case Found(i) =>
          MissesBeforeCons(videos, sel, i);
          Found(i + 1)
        case NotFound =>
          MissesBeforeCons(videos, sel, |tail|);
          NotFound
        case TitleThrew =>
          ThrowAfterMiss(videos, sel);
          TitleThrew
  }

  /** The outcome of the resolver; `SelectionThrew` is the TypeError a
      non-string title raises during the title search. */
  datatype Choice = Chosen(video: Record) | NoChoice | SelectionThrew

  /** `(args.selection || '').trim().toLowerCase()`. */
  function NormalizeSelection(selection: Option<string>): string
  {
    ToLower(Trim(OrElse(selection, "")))
  }

  predicate IsMostViewed(sel: string) { sel == "most viewed" || sel == "most viewed video" }

  /** The three-tier selection of `play_video`. */
  function Select(o: Oracles, selection: Option<string>, videos: seq<Record>): (r: Choice)
    // an empty dataset never yields a record nor throws
    ensures videos == [] ==> r == NoChoice
    // only the title search can throw
    ensures r.SelectionThrew? ==> !IsMostViewed(NormalizeSelection(selection)) && !LooksOrdinal(NormalizeSelection(selection))
                                  && FindTitle(videos, NormalizeSelection(selection)).TitleThrew?
    // in the title tier: nothing is chosen exactly when every title misses
    ensures !IsMostViewed(NormalizeSelection(selection)) && !LooksOrdinal(NormalizeSelection(selection)) ==>
      (r == NoChoice <==> MissesBefore(videos, NormalizeSelection(selection), |videos|))
    // and a title that throws before any title matches makes the selection throw
    ensures !IsMostViewed(NormalizeSelection(selection)) && !LooksOrdinal(NormalizeSelection(selection)) ==>
      ((exists j :: 0 <= j < |videos| && TitleMatches(videos[j], NormalizeSelection(selection)).None?
          && MissesBefore(videos, NormalizeSelection(selection), j)) ==> r.SelectionThrew?)
  {
    var sel := NormalizeSelection(selection);
    if IsMostViewed(sel) then
      match MostViewed(o, videos)
      case None => NoChoice
      case Some(v) => Chosen(v)
    else if LooksOrdinal(sel) then
      match OrdinalIndex(sel)
      case Some(i) => if 0 <= i < |videos| then Chosen(videos[i]) else NoChoice
      case None => NoChoice
    else
      match FindTitle(videos, sel)
      case Found(i) => Chosen(videos[i])
      case NotFound => NoChoice
      case TitleThrew => SelectionThrew
  }

  /** Whatever the selection, a chosen record is one of the dataset's. */
  lemma SelectChoosesFromDataset(o: Oracles, selection: Option<string>, videos: seq<Record>)
    ensures Select(o, selection, videos).Chosen? ==> Select(o, selection, videos).video in videos
  {
    var sel := NormalizeSelection(selection);
    if IsMostViewed(sel) && videos != [] {
      var sorted := SortBy(videos, (v: Record) => -ViewCount(o, v));
      assert sorted[0] in multiset(sorted);
    }
  }

  /** "most viewed" (in any case, with surrounding white space) picks the
      first record of largest count; an empty dataset matches nothing. */
  lemma SelectMostViewed(o: Oracles, selection: Option<string>, videos: seq<Record>)
    requires IsMostViewed(NormalizeSelection(selection))
    ensures videos == [] ==> Select(o, selection, videos) == NoChoice
    ensures videos != [] ==> exists i :: (0 <= i < |videos| && Select(o, selection, videos) == Chosen(videos[i])
      && (forall j :: 0 <= j < |videos| ==> ViewCount(o, videos[j]) <= ViewCount(o, videos[i]))
      && (forall j :: 0 <= j < i ==> ViewCount(o, videos[j]) < ViewCount(o, videos[i])))
  {
    if videos != [] {
      MostViewedIsFirstMaximum(o, videos);
    }
  }

  /** A selection already trimmed and in lower case normalises to itself. */
  lemma NormalizedWord(w: string)
    requires forall i :: 0 <= i < |w| ==> !('A' <= w[i] <= 'Z')
    requires w == [] || (!IsSpace(w[0]) && !IsSpace(w[|w| - 1]))
    ensures NormalizeSelection(Some(w)) == w
  {
    assert TrimStart(w) == w;
    assert TrimEnd(w) == w;
    assert ToLower(w) == w;
  }

  /** Each ordinal word normalises to itself. */
  lemma OrdinalWordIsNormal(w: string, k: nat)
    requires k < |OrdinalWords| && w in OrdinalWords[k]
    ensures NormalizeSelection(Some(w)) == w
  {
    if k == 0 {
      assert w == "first" || w == "1" || w == "1st";
    } else if k == 1 {
      assert w == "second" || w == "2" || w == "2nd";
    } else {
      assert w == "third" || w == "3" || w == "3rd";
    }
    NormalizedWord(w);
  }

  /** Each ordinal word passes the ordinal expression and is not "most viewed". */
  lemma OrdinalWordIsOrdinal(w: string, k: nat)
    requires k < |OrdinalWords| && w in OrdinalWords[k]
    ensures LooksOrdinal(w) && !IsMostViewed(w)
  {
    assert |w| < |"most viewed"|;
  }

  /** A word of rank `k` picks the record at `k`. */
  lemma OrdinalWordSelects(o: Oracles, w: string, k: nat, videos: seq<Record>)
    requires k < |OrdinalWords| && w in OrdinalWords[k]
    ensures Select(o, Some(w), videos) == if k < |videos| then Chosen(videos[k]) else NoChoice
  {
    OrdinalWordIsNormal(w, k);
    OrdinalWordIsOrdinal(w, k);
    OrdinalNeverSearchesTitles(o, Some(w), videos);
  }

  /** The three words of rank `k` pick the same record. */
  lemma RankOrdinals(o: Oracles, k: nat, videos: seq<Record>)
    requires k < |OrdinalWords|
    ensures Select(o, Some(OrdinalWords[k][0]), videos) == Select(o, Some(OrdinalWords[k][1]), videos)
      == Select(o, Some(OrdinalWords[k][2]), videos) == if k < |videos| then Chosen(videos[k]) else NoChoice
  {
    OrdinalWordSelects(o, OrdinalWords[k][0], k, videos);
    OrdinalWordSelects(o, OrdinalWords[k][1], k, videos);
    OrdinalWordSelects(o, OrdinalWords[k][2], k, videos);
  }

  /** "first", "1" and "1st" all pick the first record. */
  lemma FirstOrdinals(o: Oracles, videos: seq<Record>)
    ensures Select(o, Some("first"), videos) == Select(o, Some("1"), videos) == Select(o, Some("1st"), videos)
      == if |videos| > 0 then Chosen(videos[0]) else NoChoice
  {
    RankOrdinals(o, 0, videos);
  }

  /** "second", "2" and "2nd" all pick the second record. */
  lemma SecondOrdinals(o: Oracles, videos: seq<Record>)
    ensures Select(o, Some("second"), videos) == Select(o, Some("2"), videos) == Select(o, Some("2nd"), videos)
      == if |videos| > 1 then Chosen(videos[1]) else NoChoice
  {
    RankOrdinals(o, 1, videos);
  }

  /** "third", "3" and "3rd" all pick the third record. */
  lemma ThirdOrdinals(o: Oracles, videos: seq<Record>)
    ensures Select(o, Some("third"), videos) == Select(o, Some("3"), videos) == Select(o, Some("3rd"), videos)
      == if |videos| > 2 then Chosen(videos[2]) else NoChoice
  {
    RankOrdinals(o, 2, videos);
  }

  /** A string of digits differs from any word with a non-digit at position `i`. */
  lemma NumeralIsNotWord(s: string, w: string, i: nat)
    requires AllDigits(s) && i < |w| && !IsDigit(w[i])
    ensures s != w
  {
    if i < |s| {
      assert IsDigit(s[i]);
    }
  }

  lemma NumeralIndex(n: nat)
    ensures OrdinalIndex(NatToString(n)) == Some(n - 1)
  {
    DigitsValueOfNatToString(n);
  }

  /** A numeral N picks the N-th record; "0" and an N past the end match nothing. */
  lemma NumeralSelectsPosition(o: Oracles, n: nat, videos: seq<Record>)
    ensures Select(o, Some(NatToString(n)), videos) == if 1 <= n <= |videos| then Chosen(videos[n - 1]) else NoChoice
  {
    NumeralIsOrdinal(n);
    NumeralIndex(n);
  }

  lemma NumeralIsOrdinal(n: nat)
    ensures var s := NatToString(n); NormalizeSelection(Some(s)) == s && LooksOrdinal(s) && !IsMostViewed(s)
  {
    var s := NatToString(n);
    assert IsDigit(s[0]) && IsDigit(s[|s| - 1]);
    assert forall i :: 0 <= i < |s| ==> IsDigit(s[i]);
    NormalizedWord(s);
    NumeralIsNotWord(s, "most viewed", 0);
    NumeralIsNotWord(s, "most viewed video", 0);
  }

  /** A selection the ordinal expression accepts never reaches the title
      search: it picks the record at its ordinal index or nothing, and it
      cannot raise the title TypeError. */
  lemma OrdinalNeverSearchesTitles(o: Oracles, selection: Option<string>, videos: seq<Record>)
    requires var sel := NormalizeSelection(selection); !IsMostViewed(sel) && LooksOrdinal(sel)
    ensures Select(o, selection, videos)
      == if OrdinalIndex(NormalizeSelection(selection)).Some? && 0 <= OrdinalIndex(NormalizeSelection(selection)).value < |videos|
         then Chosen(videos[OrdinalIndex(NormalizeSelection(selection)).value]) else NoChoice
  {
  }

  /** "first video" passes the ordinal expression, `parseInt` gives NaN, and
      nothing is chosen, even when a title is exactly "first video". */
  lemma FirstVideoMatchesNothing(o: Oracles, v: Record)
    requires Get(v, "title") == Some(Str("first video"))
    ensures Select(o, Some("first video"), [v]) == NoChoice
  {
    FirstVideoIsOrdinal();
    FirstVideoHasNoIndex();
    OrdinalNeverSearchesTitles(o, Some("first video"), [v]);
  }

  lemma FirstVideoIsOrdinal()
    ensures NormalizeSelection(Some("first video")) == "first video"
    ensures LooksOrdinal("first video") && !IsMostViewed("first video")
  {
    NormalizedWord("first video");
    assert StartsWith("first video", "first");
  }

  lemma FirstVideoHasNoIndex()
    ensures OrdinalIndex("first video") == None
  {
    var w := "first video";
    assert TrimStart(w) == w;
    assert DigitPrefix(w) == "";
    assert ParseInt(w) == None;
  }

  lemma {:induction false} FindTitleFirst(videos: seq<Record>, sel: string, i: nat)
    requires i < |videos| && TitleMatches(videos[i], sel) == Some(true)
    requires MissesBefore(videos, sel, i)
    ensures FindTitle(videos, sel) == Found(i)
  {
    if i > 0 {
      assert TitleMatches(videos[0], sel) == Some(false);
      var tail := videos[1..];
      assert forall j :: 0 <= j < |tail| ==> tail[j] == videos[j + 1];
      FindTitleFirst(tail, sel, i - 1);
    }
  }

  /** Any other selection is a title search: the first record whose
      lower-cased title contains it, when every earlier title is a string
      (or empty) that does not. */
  lemma SelectByTitle(o: Oracles, selection: Option<string>, videos: seq<Record>, i: nat)
    requires var sel := NormalizeSelection(selection); !IsMostViewed(sel) && !LooksOrdinal(sel)
    requires i < |videos| && TitleMatches(videos[i], NormalizeSelection(selection)) == Some(true)
    requires forall j :: 0 <= j < i ==> TitleMatches(videos[j], NormalizeSelection(selection)) == Some(false)
    ensures Select(o, selection, videos) == Chosen(videos[i])
  {
    FindTitleFirst(videos, NormalizeSelection(selection), i);
  }

  /** An empty (or blank, or missing) selection is a title search that the
      first record satisfies, when its title does not throw. */
  lemma EmptySelectionPicksFirst(o: Oracles, selection: Option<string>, videos: seq<Record>)
    requires NormalizeSelection(selection) == ""
    requires videos != [] && TitleText(videos[0]).Some?
    ensures Select(o, selection, videos) == Chosen(videos[0])
  {
    var t := ToLower(TitleText(videos[0]).value);
    assert StartsWith(t, "");
    assert TitleMatches(videos[0], "") == Some(true);
    assert !LooksOrdinal("");
    SelectByTitle(o, selection, videos, 0);
  }
}
