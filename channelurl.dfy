/** `parseChannelUrl` of server/index.js: which of the three YouTube channel
    URL shapes a string holds, tried in priority order with the regular
    expressions `youtube\.com\/channel\/([a-zA-Z0-9_-]+)`,
    `youtube\.com\/@([a-zA-Z0-9_.-]+)` and `youtube\.com\/user\/([a-zA-Z0-9_-]+)`. */
module ChannelUrl {
  import opened JsValues
  import opened JsStrings

  datatype UrlKind = ChannelId | Handle | Username | Unknown

  /** `{ type, value }`; `None` is `null`. */
  datatype ChannelRef = ChannelRef(kind: UrlKind, value: Option<string>)

  /** The two character classes of the expressions. */
  datatype CharClass = IdClass | HandleClass

  predicate IsAsciiLetter(c: char) { 'a' <= c <= 'z' || 'A' <= c <= 'Z' }

  /** `[a-zA-Z0-9_-]`, and `[a-zA-Z0-9_.-]` for handles. */
  predicate InClass(c: char, k: CharClass)
  {
    IsAsciiLetter(c) || IsDigit(c) || c == '_' || c == '-' || (k == HandleClass && c == '.')
  }

  /** The longest run of class characters at the start of `s`: what the
      greedy `[...]+` captures. */
  function Run(s: string, k: CharClass): (r: string)
    ensures StartsWith(s, r)
    ensures forall i :: 0 <= i < |r| ==> InClass(r[i], k)
    ensures |r| == |s| || !InClass(s[|r|], k)
  {
    if s != [] && InClass(s[0], k) then [s[0]] + Run(s[1..], k) else ""
  }

  /** The capture when the expression `prefix([class]+)` matches at `q`. */
  function MatchAt(u: string, q: nat, prefix: string, k: CharClass): (r: Option<string>)
    requires q <= |u|
  {
    if StartsWith(u[q..], prefix) && |prefix| <= |u| - q && Run(u[q + |prefix|..], k) != [] then
      Some(Run(u[q + |prefix|..], k))
    else None
  }

  /** `u.match(...)`: the capture of the leftmost match at or after `from`. */
  function FirstMatch(u: string, prefix: string, k: CharClass, from: nat): (r: Option<string>)
    decreases |u| - from
    ensures r.Some? ==> exists q :: (from <= q <= |u| && MatchAt(u, q, prefix, k) == r
      && forall p :: from <= p < q ==> MatchAt(u, p, prefix, k).None?)
    ensures r.None? <==> forall q :: from <= q <= |u| ==> MatchAt(u, q, prefix, k).None?
  {
    if from > |u| then None
    else match MatchAt(u, from, prefix, k)
      case Some(v) => Some(v)
      case None => FirstMatch(u, prefix, k, from + 1)
  }

  const ChannelPrefix: string := "youtube.com/channel/"
  const HandlePrefix: string := "youtube.com/@"
  const UserPrefix: string := "youtube.com/user/"

  /** `parseChannelUrl(url)`. */
  function ParseChannelUrl(url: Option<Json>): (r: ChannelRef)
    // `type` is 'unknown' exactly when `value` is null
    ensures r.kind == Unknown <==> r.value.None?
    // a missing, empty or non-string url is unknown
    ensures !(url.Some? && url.value.Prim? && url.value.p.Str? && url.value.p.s != "") ==> r == ChannelRef(Unknown, None)
    // the value is non-empty and drawn from its expression's class
    ensures r.value.Some? ==> r.value.value != []
    ensures r.kind == Handle ==> forall i :: 0 <= i < |r.value.value| ==> InClass(r.value.value[i], HandleClass)
    ensures r.kind in {ChannelId, Username} ==> forall i :: 0 <= i < |r.value.value| ==> InClass(r.value.value[i], IdClass)
    // and follows its prefix in the trimmed url
    ensures r.kind == ChannelId ==> Contains(Trim(url.value.p.s), ChannelPrefix + r.value.value)
    ensures r.kind == Handle ==> Contains(Trim(url.value.p.s), HandlePrefix + r.value.value)
    ensures r.kind == Username ==> Contains(Trim(url.value.p.s), UserPrefix + r.value.value)
    // priority: a later shape is tried only when the earlier ones do not match
    ensures r.kind in {Handle, Username} ==> FirstMatch(Trim(url.value.p.s), ChannelPrefix, IdClass, 0).None?
    ensures r.kind == Username ==> FirstMatch(Trim(url.value.p.s), HandlePrefix, HandleClass, 0).None?
    // the value is the leftmost capture of the first expression, in priority order, that matches
    ensures url.Some? && url.value.Prim? && url.value.p.Str? && url.value.p.s != "" ==>
      r == if FirstMatch(Trim(url.value.p.s), ChannelPrefix, IdClass, 0).Some? then
             ChannelRef(ChannelId, FirstMatch(Trim(url.value.p.s), ChannelPrefix, IdClass, 0))
           else if FirstMatch(Trim(url.value.p.s), HandlePrefix, HandleClass, 0).Some? then
             ChannelRef(Handle, FirstMatch(Trim(url.value.p.s), HandlePrefix, HandleClass, 0))
           else if FirstMatch(Trim(url.value.p.s), UserPrefix, IdClass, 0).Some? then
             ChannelRef(Username, FirstMatch(Trim(url.value.p.s), UserPrefix, IdClass, 0))
           else ChannelRef(Unknown, None)
  {
    if !(url.Some? && url.value.Prim? && url.value.p.Str? && url.value.p.s != "") then ChannelRef(Unknown, None)
    else
      var u := Trim(url.value.p.s);
      match FirstMatch(u, ChannelPrefix, IdClass, 0)
      case Some(v) => MatchFollowsPrefix(u, ChannelPrefix, IdClass); ChannelRef(ChannelId, Some(v))
      case None =>
        match FirstMatch(u, HandlePrefix, HandleClass, 0)
        case Some(v) => MatchFollowsPrefix(u, HandlePrefix, HandleClass); ChannelRef(Handle, Some(v))
        case None =>
          match FirstMatch(u, UserPrefix, IdClass, 0)
          case Some(v) => MatchFollowsPrefix(u, UserPrefix, IdClass); ChannelRef(Username, Some(v))
          case None => ChannelRef(Unknown, None)
  }

  /** `u` is its pieces cut at `q <= p <= e`. */
  lemma SplitAround(u: string, q: nat, p: nat, e: nat)
    requires q <= p <= e <= |u|
    ensures u == u[..q] + (u[q..p] + u[p..e]) + u[e..]
  {
    assert u == u[..q] + u[q..p] + u[p..e] + u[e..];
  }

  /** A capture at `q` follows the prefix in `u`. */
  lemma MatchAtContains(u: string, q: nat, prefix: string, k: CharClass)
    requires q <= |u| && MatchAt(u, q, prefix, k).Some?
    ensures Contains(u, prefix + MatchAt(u, q, prefix, k).value)
  {
    var v := MatchAt(u, q, prefix, k).value;
    var p := q + |prefix|;
    var e := p + |v|;
    assert u[q..p] == prefix by { assert u[q..][..|prefix|] == u[q..p]; }
    assert u[p..e] == v by { assert u[p..][..|v|] == u[p..e]; }
    SplitAround(u, q, p, e);
    ContainsInfix(u[..q], prefix + v, u[e..]);
  }

  /** A capture is a non-empty class run that follows the prefix in `u`. */
  lemma MatchFollowsPrefix(u: string, prefix: string, k: CharClass)
    requires FirstMatch(u, prefix, k, 0).Some?
    ensures FirstMatch(u, prefix, k, 0).value != []
    ensures forall i :: 0 <= i < |FirstMatch(u, prefix, k, 0).value| ==> InClass(FirstMatch(u, prefix, k, 0).value[i], k)
    ensures Contains(u, prefix + FirstMatch(u, prefix, k, 0).value)
  {
    var q :| 0 <= q <= |u| && MatchAt(u, q, prefix, k) == FirstMatch(u, prefix, k, 0);
    MatchAtContains(u, q, prefix, k);
  }

  predicate AllInClass(s: string, k: CharClass)
  {
    forall i :: 0 <= i < |s| ==> InClass(s[i], k)
  }

  lemma {:induction false} RunOfClassRun(s: string, k: CharClass)
    requires AllInClass(s, k)
    ensures Run(s, k) == s
  {
    if s != [] {
      assert AllInClass(s[1..], k) by {
        forall i | 0 <= i < |s[1..]| ensures InClass(s[1..][i], k) { assert s[1..][i] == s[i + 1]; }
      }
      RunOfClassRun(s[1..], k);
    }
  }

  /** `prefix + v` is matched at its start and captures all of `v`. */
  lemma MatchAtStart(prefix: string, v: string, k: CharClass)
    requires v != [] && AllInClass(v, k)
    ensures MatchAt(prefix + v, 0, prefix, k) == Some(v)
    ensures FirstMatch(prefix + v, prefix, k, 0) == Some(v)
  {
    var u := prefix + v;
    assert u[0..] == u && u[..|prefix|] == prefix && u[|prefix|..] == v;
    RunOfClassRun(v, k);
  }

  /** Trimming leaves a string alone whose ends are not white space. */
  lemma TrimUnpadded(s: string)
    requires s != [] && !IsSpace(s[0]) && !IsSpace(s[|s| - 1])
    ensures Trim(s) == s
  {
  }

  /** No match at all when the prefix needs the character `c` at offsets
      `a` and `b` of the match and `u` holds `c` at one position only, or at
      two positions that are not `b - a` apart. */
  lemma NoMatchByPositions(u: string, prefix: string, k: CharClass, c: char, a: nat, b: nat, positions: set<nat>)
    requires a < b < |prefix| && prefix[a] == c && prefix[b] == c
    requires forall i :: 0 <= i < |u| && u[i] == c ==> i in positions
    requires forall i, j :: i in positions && j in positions && j - i == b - a ==> false
    ensures FirstMatch(u, prefix, k, 0).None?
  {
    forall q | 0 <= q <= |u| ensures MatchAt(u, q, prefix, k).None? {
      if q + |prefix| <= |u| {
        assert u[q..][..|prefix|][a] == u[q + a] && u[q..][..|prefix|][b] == u[q + b];
      }
    }
  }

  /** No match when `u` never holds some character of the prefix. */
  lemma NoMatchWithout(u: string, prefix: string, k: CharClass, a: nat)
    requires a < |prefix|
    requires forall i :: 0 <= i < |u| ==> u[i] != prefix[a]
    ensures FirstMatch(u, prefix, k, 0).None?
  {
    forall q | 0 <= q <= |u| ensures MatchAt(u, q, prefix, k).None? {
      if q + |prefix| <= |u| {
        assert u[q..][..|prefix|][a] == u[q + a];
      }
    }
  }

  /** In `prefix + v`, where `v` never holds `c`, `c` sits only where the prefix has it. */
  lemma CharOnlyInPrefix(prefix: string, v: string, c: char, positions: set<nat>)
    requires forall i :: 0 <= i < |v| ==> v[i] != c
    requires forall i :: 0 <= i < |prefix| && prefix[i] == c ==> i in positions
    ensures forall i :: 0 <= i < |prefix + v| && (prefix + v)[i] == c ==> i in positions
  {
    forall i | 0 <= i < |prefix + v| ensures (prefix + v)[i] == c ==> i in positions {
      if i >= |prefix| { assert (prefix + v)[i] == v[i - |prefix|]; }
    }
  }

  /** `youtube.com/channel/<id>` is read back as that channel id. */
  lemma ChannelIdRoundTrip(id: string)
    requires id != [] && AllInClass(id, IdClass)
    ensures ParseChannelUrl(Some(Prim(Str(ChannelPrefix + id)))) == ChannelRef(ChannelId, Some(id))
  {
    var u := ChannelPrefix + id;
    assert u[0] == 'y' && u[|u| - 1] == id[|id| - 1];
    TrimUnpadded(u);
    MatchAtStart(ChannelPrefix, id, IdClass);
  }

  /** `youtube.com/@<handle>` is read back as that handle: the channel
      expression needs two slashes and the url holds one. */
  lemma HandleRoundTrip(h: string)
    requires h != [] && AllInClass(h, HandleClass)
    ensures ParseChannelUrl(Some(Prim(Str(HandlePrefix + h)))) == ChannelRef(Handle, Some(h))
  {
    var u := HandlePrefix + h;
    assert u[0] == 'y' && u[|u| - 1] == h[|h| - 1];
    TrimUnpadded(u);
    CharOnlyInPrefix(HandlePrefix, h, '/', {11});
    NoMatchByPositions(u, ChannelPrefix, IdClass, '/', 11, 19, {11});
    MatchAtStart(HandlePrefix, h, HandleClass);
  }

  /** `youtube.com/user/<name>` is read back as that user name: its slashes
      are 5 apart where the channel expression needs 8, and it holds no `@`. */
  lemma UsernameRoundTrip(n: string)
    requires n != [] && AllInClass(n, IdClass)
    ensures ParseChannelUrl(Some(Prim(Str(UserPrefix + n)))) == ChannelRef(Username, Some(n))
  {
    var u := UserPrefix + n;
    assert u[0] == 'y' && u[|u| - 1] == n[|n| - 1];
    TrimUnpadded(u);
    CharOnlyInPrefix(UserPrefix, n, '/', {11, 16});
    NoMatchByPositions(u, ChannelPrefix, IdClass, '/', 11, 19, {11, 16});
    CharOnlyInPrefix(UserPrefix, n, '@', {});
    NoMatchWithout(u, HandlePrefix, HandleClass, 12);
    MatchAtStart(UserPrefix, n, IdClass);
  }

  /** A url in which some position starts a match of an expression is
      recognised: the shape found is that one or one of higher priority. */
  lemma ShapeRecognised(url: string, q: nat)
    requires url != [] && q <= |Trim(url)|
    ensures MatchAt(Trim(url), q, ChannelPrefix, IdClass).Some? ==>
      ParseChannelUrl(Some(Prim(Str(url)))).kind == ChannelId
    ensures MatchAt(Trim(url), q, HandlePrefix, HandleClass).Some? ==>
      ParseChannelUrl(Some(Prim(Str(url)))).kind in {ChannelId, Handle}
    ensures MatchAt(Trim(url), q, UserPrefix, IdClass).Some? ==>
      ParseChannelUrl(Some(Prim(Str(url)))).kind != Unknown
  {
  }

  /** When `u` holds the character `prefix[a]` only at `pos`, a match can
      start only at `pos - a`. */
  lemma MatchOnlyAt(u: string, prefix: string, k: CharClass, a: nat, pos: nat)
    requires a < |prefix| && a <= pos < |u|
    requires forall i :: 0 <= i < |u| && u[i] == prefix[a] ==> i == pos
    ensures FirstMatch(u, prefix, k, 0) == MatchAt(u, pos - a, prefix, k)
  {
    var p := pos - a;
    var r := FirstMatch(u, prefix, k, 0);
    if r.Some? {
      var q :| 0 <= q <= |u| && MatchAt(u, q, prefix, k) == r;
      assert StartsWith(u[q..], prefix) && q + |prefix| <= |u|;
      assert u[q..][a] == u[q + a];
      assert q == p;
    }
  }

  const BrowserOrigin: string := "https://www."

  /** The channel expression does not match a browser handle url. */
  lemma BrowserHandleNoChannel(h: string)
    requires AllInClass(h, HandleClass)
    ensures FirstMatch(BrowserOrigin + HandlePrefix + h, ChannelPrefix, IdClass, 0).None?
  {
    var w := BrowserOrigin + HandlePrefix;
    CharOnlyInPrefix(w, h, '/', {6, 7, 23});
    NoMatchByPositions(w + h, ChannelPrefix, IdClass, '/', 11, 19, {6, 7, 23});
  }

  /** A match right after a text `a` is the match at the start of what follows it. */
  lemma MatchAtAfter(a: string, b: string, prefix: string, k: CharClass)
    ensures MatchAt(a + b, |a|, prefix, k) == MatchAt(b, 0, prefix, k)
  {
    assert (a + b)[|a|..] == b;
  }

  /** A browser handle url holds `@` only where its handle prefix has it. */
  lemma BrowserHandleAt(h: string)
    requires AllInClass(h, HandleClass)
    ensures forall i :: 0 <= i < |BrowserOrigin + HandlePrefix + h| && (BrowserOrigin + HandlePrefix + h)[i] == '@' ==> i == 24
  {
    CharOnlyInPrefix(BrowserOrigin + HandlePrefix, h, '@', {24});
  }

  /** In a browser handle url the handle expression can match only at 12. */
  lemma BrowserHandleMatchOnlyAt(h: string)
    requires AllInClass(h, HandleClass)
    ensures FirstMatch(BrowserOrigin + HandlePrefix + h, HandlePrefix, HandleClass, 0)
         == MatchAt(BrowserOrigin + HandlePrefix + h, 12, HandlePrefix, HandleClass)
  {
    BrowserHandleAt(h);
    MatchOnlyAt(BrowserOrigin + HandlePrefix + h, HandlePrefix, HandleClass, 12, 24);
  }

  /** The match at 12 is the match at the start of `HandlePrefix + h`. */
  lemma BrowserHandleAfterOrigin(h: string)
    ensures MatchAt(BrowserOrigin + HandlePrefix + h, 12, HandlePrefix, HandleClass)
         == MatchAt(HandlePrefix + h, 0, HandlePrefix, HandleClass)
  {
    assert BrowserOrigin + HandlePrefix + h == BrowserOrigin + (HandlePrefix + h);
    MatchAtAfter(BrowserOrigin, HandlePrefix + h, HandlePrefix, HandleClass);
  }

  /** The handle expression captures the whole handle of a browser handle url. */
  lemma BrowserHandleCapture(h: string)
    requires h != [] && AllInClass(h, HandleClass)
    ensures FirstMatch(BrowserOrigin + HandlePrefix + h, HandlePrefix, HandleClass, 0) == Some(h)
  {
    BrowserHandleMatchOnlyAt(h);
    BrowserHandleAfterOrigin(h);
    MatchAtStart(HandlePrefix, h, HandleClass);
  }

  /** A handle url as a browser shows it, `https://www.youtube.com/@<handle>`,
      is read as that handle: its slashes are 1, 16 and 17 apart where the
      channel expression needs 8, and its one `@` starts the handle. */
  lemma BrowserHandleRoundTrip(h: string)
    requires h != [] && AllInClass(h, HandleClass)
    ensures ParseChannelUrl(Some(Prim(Str(BrowserOrigin + HandlePrefix + h)))) == ChannelRef(Handle, Some(h))
  {
    var u := BrowserOrigin + HandlePrefix + h;
    assert u[0] == 'h' && u[|u| - 1] == h[|h| - 1];
    TrimUnpadded(u);
    BrowserHandleNoChannel(h);
    BrowserHandleCapture(h);
  }

  /** The example `https://www.youtube.com/@veritasium` is the handle `veritasium`. */
  lemma VeritasiumIsHandle()
    ensures ParseChannelUrl(Some(Prim(Str("https://www.youtube.com/@veritasium")))) == ChannelRef(Handle, Some("veritasium"))
  {
    var h := "veritasium";
    assert AllInClass(h, HandleClass);
    assert BrowserOrigin + HandlePrefix + h == "https://www.youtube.com/@veritasium";
    BrowserHandleRoundTrip(h);
  }
}
