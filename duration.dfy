/** `parseDuration` of server/index.js: an ISO 8601 duration such as
    `PT1H2M3S` (the time part of the designator format, section 4.4.3.2 of
    ISO 8601:2004) read into seconds with the regular expression
    `/PT(?:(\d+)H)?(?:(\d+)M)?(?:(\d+)S)?/`. */
module Duration {
  import opened JsValues
  import opened JsStrings

  /** The first position at which `t` occurs in `s` at or after `from`. */
  function IndexOf(s: string, t: string, from: nat): (r: Option<nat>)
    decreases |s| - from
    ensures r.Some? ==> from <= r.value <= |s| && StartsWith(s[r.value..], t)
    ensures r.Some? ==> forall q :: from <= q < r.value ==> !StartsWith(s[q..], t)
    ensures r.None? ==> forall q :: from <= q <= |s| ==> !StartsWith(s[q..], t)
  {
    if from > |s| then None
    else if StartsWith(s[from..], t) then Some(from)
    else IndexOf(s, t, from + 1)
  }

  /** No non-empty run of digits at the start of `t` is followed by `x`. */
  predicate NoGroup(t: string, x: char)
  {
    forall n :: 0 < n < |t| && AllDigits(t[..n]) ==> t[n] != x
  }

  /** One optional group `(?:(\d+)X)?` tried at position `p`: the longest
      run of digits there, when the designator `x` follows it, with the
      position after the designator; otherwise no group and `p` unchanged.
      A shorter run could never be followed by `x`, so backtracking finds
      nothing more. */
  function Component(s: string, p: nat, x: char): (r: (Option<string>, nat))
    requires p <= |s| && !IsDigit(x)
    ensures r.1 <= |s|
    ensures r.0.None? ==> r.1 == p
    // a group is a non-empty digit run at `p` with `x` right after it
    ensures r.0.Some? ==> r.0.value != [] && AllDigits(r.0.value) && r.1 == p + |r.0.value| + 1
    ensures r.0.Some? ==> s[p..p + |r.0.value|] == r.0.value && s[p + |r.0.value|] == x
    // and there is none exactly when no digit run at `p` is followed by `x`
    ensures r.0.None? <==> NoGroup(s[p..], x)
  {
    var d := DigitPrefix(s[p..]);
    NoGroupBeyondRun(s[p..], d, x);
    if d != [] && p + |d| < |s| && s[p + |d|] == x then
      assert s[p..][..|d|] == s[p..p + |d|];
      assert s[p..][|d|] == s[p + |d|];
      (Some(d), p + |d| + 1)
    else (None, p)
  }

  /** `d` is the longest run of digits at the start of `t`. */
  predicate LongestRun(t: string, d: string)
  {
    AllDigits(d) && StartsWith(t, d) && (|d| == |t| || !IsDigit(t[|d|]))
  }

  /** A run of digits at the start of `t` lies within its longest one. */
  lemma DigitRunWithin(t: string, d: string, n: nat)
    requires LongestRun(t, d) && n <= |t| && AllDigits(t[..n])
    ensures n <= |d|
  {
  }

  /** Only the longest digit run at the start of `t` can be followed by a
      non-digit `x`. */
  lemma NoGroupBeyondRun(t: string, d: string, x: char)
    requires !IsDigit(x) && d == DigitPrefix(t)
    ensures NoGroup(t, x) <==> (d == [] || |d| == |t| || t[|d|] != x)
  {
    if d == [] || |d| == |t| || t[|d|] != x {
      assert LongestRun(t, d);
      NoGroupOfRun(t, d, x);
    } else {
      assert t[..|d|] == d;
    }
  }

  lemma NoGroupOfRun(t: string, d: string, x: char)
    requires !IsDigit(x) && LongestRun(t, d)
    requires d == [] || |d| == |t| || t[|d|] != x
    ensures NoGroup(t, x)
  {
    forall n | 0 < n < |t| && AllDigits(t[..n]) ensures t[n] != x {
      DigitRunWithin(t, d, n);
      if n < |d| {
        assert t[n] == t[..|d|][n];
      }
    }
  }

  /** `parseInt(match?.[k] || '0', 10)`: a group is all digits. */
  function ValueOr0(g: Option<string>): nat
    requires g.Some? ==> AllDigits(g.value)
  {
    match g
    case None => 0
    case Some(d) => DigitsValue(d)
  }

  /** The hours, minutes and seconds groups read from position `p`. */
  function TimePart(s: string, p: nat): (r: (nat, nat, nat))
    requires p <= |s|
  {
    var (h, p1) := Component(s, p, 'H');
    var (m, sec) := MinutesSeconds(s, p1);
    (ValueOr0(h), m, sec)
  }

  /** The minutes and seconds groups read from position `p`. */
  function MinutesSeconds(s: string, p: nat): (r: (nat, nat))
    requires p <= |s|
  {
    var (m, p2) := Component(s, p, 'M');
    var (sec, _) := Component(s, p2, 'S');
    (ValueOr0(m), ValueOr0(sec))
  }

  function Seconds(h: nat, m: nat, s: nat): nat { h * 3600 + m * 60 + s }

  /** `parseDuration(iso)` as written; `None` is `undefined`. */
  function ParseDuration(iso: Option<string>): (r: nat)
    ensures iso.None? || iso.value == "" ==> r == 0
    ensures iso.Some? && IndexOf(iso.value, "PT", 0).None? ==> r == 0
  {
    if iso.None? || iso.value == "" then 0
    else match IndexOf(iso.value, "PT", 0)
      case None => 0
      case Some(i) =>
        var (h, m, s) := TimePart(iso.value, i + 2);
        Seconds(h, m, s)
  }

  /** A run of digits followed by the designator `x` is read as the group
      for `x`, and reading continues just after the designator. */
  lemma ComponentOfDigits(s: string, p: nat, d: string, x: char, rest: string)
    requires d != [] && AllDigits(d) && !IsDigit(x)
    requires p <= |s| && s[p..] == d + ([x] + rest)
    ensures Component(s, p, x) == (Some(d), p + |d| + 1)
    ensures s[p + |d| + 1..] == rest
  {
    DigitPrefixOfNumeral(d, [x] + rest);
    assert s[p + |d|] == s[p..][|d|];
    assert s[p + |d| + 1..] == s[p..][|d| + 1..];
  }

  /** A component as `String` writes it followed by its designator, or
      nothing when the component is absent. */
  function Part(c: Option<nat>, x: char): string
  {
    if c.Some? then NatToString(c.value) + [x] else ""
  }

  /** An absent component counts as 0, as `match?.[k] || '0'` reads it. */
  function OrZero(c: Option<nat>): nat
  {
    if c.Some? then c.value else 0
  }

  /** `#H#M#S` with each of the three components present or left out. */
  function TimeText(h: Option<nat>, m: Option<nat>, s: Option<nat>): string
  {
    Part(h, 'H') + (Part(m, 'M') + Part(s, 'S'))
  }

  /** A duration text as YouTube writes one without days: `PT` then the
      components that are present, such as `PT4M13S` or `PT1H`. */
  function Format(h: Option<nat>, m: Option<nat>, s: Option<nat>): string
  {
    "PT" + TimeText(h, m, s)
  }

  /** A component written before `rest` leaves no group for a designator
      other than its own. */
  lemma NoGroupAfterPart(c: Option<nat>, y: char, rest: string, x: char)
    requires !IsDigit(x) && !IsDigit(y) && y != x
    requires c.None? ==> NoGroup(rest, x)
    ensures NoGroup(Part(c, y) + rest, x)
  {
    var t := Part(c, y) + rest;
    if c.None? {
      assert t == rest;
    } else {
      var d := NatToString(c.value);
      assert t == d + ([y] + rest);
      DigitPrefixOfNumeral(d, [y] + rest);
      NoGroupBeyondRun(t, d, x);
    }
  }

  /** The group for `x` reads a written component back, and reading
      continues just after it. */
  lemma ComponentOfPart(s: string, p: nat, c: Option<nat>, x: char, rest: string)
    requires !IsDigit(x) && p <= |s| && s[p..] == Part(c, x) + rest
    requires c.None? ==> NoGroup(rest, x)
    ensures Component(s, p, x).1 == p + |Part(c, x)|
    ensures ValueOr0(Component(s, p, x).0) == OrZero(c)
    ensures s[p + |Part(c, x)|..] == rest
  {
    if c.Some? {
      ComponentOfNumeral(s, p, c.value, x, rest);
    } else {
      assert s[p..] == rest;
    }
  }

  lemma ComponentOfNumeral(s: string, p: nat, n: nat, x: char, rest: string)
    requires !IsDigit(x) && p <= |s| && s[p..] == NatToString(n) + ([x] + rest)
    ensures Component(s, p, x) == (Some(NatToString(n)), p + |NatToString(n)| + 1)
    ensures ValueOr0(Component(s, p, x).0) == n
    ensures s[p + |NatToString(n)| + 1..] == rest
  {
    ComponentOfDigits(s, p, NatToString(n), x, rest);
    DigitsValueOfNatToString(n);
  }

  /** The three groups read back from a time text, absent ones as 0. */
  lemma TimePartOfFormat(t: string, p: nat, h: Option<nat>, m: Option<nat>, s: Option<nat>)
    requires p <= |t| && t[p..] == TimeText(h, m, s)
    ensures TimePart(t, p) == (OrZero(h), OrZero(m), OrZero(s))
  {
    NoGroupAfterPart(s, 'S', "", 'H');
    NoGroupAfterPart(m, 'M', Part(s, 'S'), 'H');
    ComponentOfPart(t, p, h, 'H', Part(m, 'M') + Part(s, 'S'));
    MinutesSecondsOfFormat(t, Component(t, p, 'H').1, m, s);
  }

  /** The minutes and seconds groups read back, absent ones as 0. */
  lemma MinutesSecondsOfFormat(t: string, p: nat, m: Option<nat>, s: Option<nat>)
    requires p <= |t| && t[p..] == Part(m, 'M') + Part(s, 'S')
    ensures MinutesSeconds(t, p) == (OrZero(m), OrZero(s))
  {
    NoGroupAfterPart(s, 'S', "", 'M');
    ComponentOfPart(t, p, m, 'M', Part(s, 'S'));
    var p2 := Component(t, p, 'M').1;
    assert t[p2..] == Part(s, 'S') + "";
    ComponentOfPart(t, p2, s, 'S', "");
  }

  /** A text found at the start is found at position 0. */
  lemma IndexOfLeading(t: string, rest: string)
    ensures IndexOf(t + rest, t, 0) == Some(0)
  {
    assert (t + rest)[0..][..|t|] == t;
  }

  /** `parseDuration` reads back every `PT` text, each absent component
      counted as 0: `PT4M13S` is 253 seconds and `PT1H` is 3600. */
  lemma ParseDurationFormat(h: Option<nat>, m: Option<nat>, s: Option<nat>)
    ensures ParseDuration(Some(Format(h, m, s))) == Seconds(OrZero(h), OrZero(m), OrZero(s))
  {
    var t := Format(h, m, s);
    IndexOfLeading("PT", TimeText(h, m, s));
    assert t[2..] == TimeText(h, m, s);
    TimePartOfFormat(t, 2, h, m, s);
  }

  /** The shortened forms YouTube writes for most videos. */
  lemma MinutesAndSecondsRead()
    ensures ParseDuration(Some("PT4M13S")) == 253
  {
    assert NatToString(13) == NatToString(1) + [DigitChar(3)];
    assert "PT4M13S" == Format(None, Some(4), Some(13));
    ParseDurationFormat(None, Some(4), Some(13));
  }

  lemma SecondsRead()
    ensures ParseDuration(Some("PT45S")) == 45
  {
    assert NatToString(45) == NatToString(4) + [DigitChar(5)];
    assert "PT45S" == Format(None, None, Some(45));
    ParseDurationFormat(None, None, Some(45));
  }

  lemma HoursRead()
    ensures ParseDuration(Some("PT1H")) == 3600
  {
    assert "PT1H" == Format(Some(1), None, None);
    ParseDurationFormat(Some(1), None, None);
  }

  /** "PT" starts at `q` only where a `P` is followed by a `T`. */
  lemma NoPTAt(s: string, q: nat)
    requires q <= |s|
    requires q + 1 < |s| ==> s[q] != 'P' || s[q + 1] != 'T'
    ensures !StartsWith(s[q..], "PT")
  {
    if q + 2 <= |s| {
      assert s[q..][..2] == [s[q], s[q + 1]];
    }
  }

  /** A day designator defeats the expression: "P1DT2H" has no "PT", so it
      reads as zero seconds although it is 26 hours. */
  lemma DayDurationReadsZero()
    ensures ParseDuration(Some("P1DT2H")) == 0
  {
    var t := "P1DT2H";
    NoPTAt(t, 0); NoPTAt(t, 1); NoPTAt(t, 2); NoPTAt(t, 3);
    NoPTAt(t, 4); NoPTAt(t, 5); NoPTAt(t, 6);
    assert IndexOf(t, "PT", 0).None?;
  }

  /** The evidently intended reader, `/P(?:(\d+)D)?T(?:(\d+)H)?(?:(\d+)M)?(?:(\d+)S)?/`:
      an optional day count before the `T`. Matches at `q` when a `P` there,
      after the optional day group, is followed by `T`; the position of the
      time part. */
  function DayMatchAt(s: string, q: nat): (r: Option<(nat, nat)>)
    requires q <= |s|
    ensures r.Some? ==> r.value.1 <= |s|
  {
    if q < |s| && s[q] == 'P' then
      var (d, p) := Component(s, q + 1, 'D');
      if p < |s| && s[p] == 'T' then Some((ValueOr0(d), p + 1)) else None
    else None
  }

  /** The leftmost match of the corrected expression at or after `from`. */
  function FindDayMatch(s: string, from: nat): (r: Option<(nat, nat, nat)>)
    decreases |s| - from
    ensures r.Some? ==> from <= r.value.0 <= |s| && DayMatchAt(s, r.value.0) == Some((r.value.1, r.value.2))
    ensures r.Some? ==> forall q :: from <= q < r.value.0 ==> DayMatchAt(s, q).None?
    ensures r.None? ==> forall q :: from <= q <= |s| ==> DayMatchAt(s, q).None?
  {
    if from > |s| then None
    else match DayMatchAt(s, from)
      case Some((d, p)) => Some((from, d, p))
      case None => FindDayMatch(s, from + 1)
  }

  /** The corrected `parseDuration`: days count 86400 seconds each. */
  function ParseDurationWithDays(iso: Option<string>): (r: nat)
    ensures iso.None? || iso.value == "" ==> r == 0
    ensures iso.Some? && FindDayMatch(iso.value, 0).None? ==> r == 0
  {
    if iso.None? || iso.value == "" then 0
    else match FindDayMatch(iso.value, 0)
      case None => 0
      case Some((_, d, p)) =>
        var (h, m, s) := TimePart(iso.value, p);
        d * 86400 + Seconds(h, m, s)
  }

  /** The canonical text of a duration with a day part. */
  function FormatWithDays(d: nat, h: Option<nat>, m: Option<nat>, s: Option<nat>): string
  {
    "P" + (NatToString(d) + ("D" + ("T" + TimeText(h, m, s))))
  }

  /** A text `P#DT...` matches the corrected expression at its start, with
      the time part after the `T`. */
  lemma DayMatchOfFormatWithDays(d: nat, h: Option<nat>, m: Option<nat>, s: Option<nat>)
    ensures FindDayMatch(FormatWithDays(d, h, m, s), 0) == Some((0, d, |NatToString(d)| + 3))
    ensures FormatWithDays(d, h, m, s)[|NatToString(d)| + 3..] == TimeText(h, m, s)
  {
    DayMatchBefore(d, TimeText(h, m, s));
  }

  /** `P#DT` followed by any text matches at its start. */
  lemma DayMatchBefore(d: nat, rest: string)
    ensures FindDayMatch("P" + (NatToString(d) + ("D" + ("T" + rest))), 0) == Some((0, d, |NatToString(d)| + 3))
    ensures ("P" + (NatToString(d) + ("D" + ("T" + rest))))[|NatToString(d)| + 3..] == rest
  {
    var t := "P" + (NatToString(d) + ("D" + ("T" + rest)));
    var ds := NatToString(d);
    assert t[1..] == ds + ("D" + ("T" + rest));
    ComponentOfDigits(t, 1, ds, 'D', "T" + rest);
    DigitsValueOfNatToString(d);
    var p := |ds| + 2;
    assert t[p..] == "T" + rest;
    assert t[p] == t[p..][0];
    assert t[p + 1..] == t[p..][1..];
  }

  /** The corrected reader reads back every `P#DT...` text, each absent
      time component counted as 0. */
  lemma ParseDurationWithDaysFormat(d: nat, h: Option<nat>, m: Option<nat>, s: Option<nat>)
    ensures ParseDurationWithDays(Some(FormatWithDays(d, h, m, s))) == d * 86400 + Seconds(OrZero(h), OrZero(m), OrZero(s))
  {
    var t := FormatWithDays(d, h, m, s);
    DayMatchOfFormatWithDays(d, h, m, s);
    TimePartOfFormat(t, |NatToString(d)| + 3, h, m, s);
  }

  /** The corrected reader sees a `PT` text as a match with no day group. */
  lemma DayMatchOfFormat(h: Option<nat>, m: Option<nat>, s: Option<nat>)
    ensures FindDayMatch(Format(h, m, s), 0) == Some((0, 0, 2))
  {
    var t := Format(h, m, s);
    assert t[0] == 'P' && t[1] == 'T' && t[1..][0] == 'T';
    assert DigitPrefix(t[1..]) == "";
    assert Component(t, 1, 'D') == (None, 1);
    assert DayMatchAt(t, 0) == Some((0, 2));
  }

  /** The corrected reader reads a `PT` text as the source does. */
  lemma ParseDurationWithDaysOfFormat(h: Option<nat>, m: Option<nat>, s: Option<nat>)
    ensures ParseDurationWithDays(Some(Format(h, m, s))) == Seconds(OrZero(h), OrZero(m), OrZero(s))
  {
    var t := Format(h, m, s);
    DayMatchOfFormat(h, m, s);
    assert t[2..] == TimeText(h, m, s);
    TimePartOfFormat(t, 2, h, m, s);
  }

  /** On every `PT` text the corrected reader agrees with the source. */
  lemma ParseDurationWithDaysAgrees(h: Option<nat>, m: Option<nat>, s: Option<nat>)
    ensures ParseDurationWithDays(Some(Format(h, m, s))) == ParseDuration(Some(Format(h, m, s)))
  {
    ParseDurationFormat(h, m, s);
    ParseDurationWithDaysOfFormat(h, m, s);
  }

  /** The corrected reader gives "P1DT2H" its 26 hours. */
  lemma DayDurationCorrected()
    ensures ParseDurationWithDays(Some("P1DT2H")) == 93600
  {
    assert "P1DT2H" == FormatWithDays(1, Some(2), None, None);
    ParseDurationWithDaysFormat(1, Some(2), None, None);
  }

}
