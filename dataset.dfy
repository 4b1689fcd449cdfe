/** Video records, the abstract JavaScript conversions the tools rely on,
    the Field Resolver (`resolveField`) and the numeric column
    (`numericValues`) of src/services/youtubeTools.js. */
module Dataset {
  import opened JsValues
  import opened JsStrings

  predicate Distinct(keys: seq<string>)
  {
    forall i, j :: 0 <= i < j < |keys| ==> keys[i] != keys[j]
  }

  /** A JavaScript object with primitive fields; `keys` is `Object.keys` order. */
  datatype Object = Object(keys: seq<string>, fields: map<string, Value>)

  /** A video record: its key list and its fields name the same keys, once each. */
  type Record = o: Object | Distinct(o.keys) && (forall k :: k in o.fields <==> k in o.keys)
    witness Object([], map[])

  /** `v[field]`; `None` is `undefined`. */
  function Get(v: Record, field: string): (r: Option<Value>)
    ensures r.Some? <==> field in v.keys
    ensures r.Some? ==> r.value == v.fields[field]
  {
    if field in v.fields then Some(v.fields[field]) else None
  }

  /** The conversions whose exact JavaScript semantics are not modelled:
      `parseFloat` and `Number` of a string (`None` is NaN), the time value
      of `new Date(v)`, and `String` of a number. */
  datatype Oracles = Oracles(
    parseFloat: string -> Option<real>,
    toNumber: string -> Option<real>,
    dateValue: Value -> int,
    numberToString: real -> string)

  /** `parseFloat(x)` for a field read: a number is itself, `undefined`,
      `null` and booleans are NaN, a string goes to the oracle. */
  function ParseFloat(o: Oracles, x: Option<Value>): (r: Option<real>)
    ensures x.None? ==> r.None?
    ensures x.Some? && x.value.Num? ==> r == Some(x.value.n)
  {
    match x
    case None => None
    case Some(Num(n)) => Some(n)
    case Some(Str(s)) => o.parseFloat(s)
    case Some(_) => None
  }

  /** `parseFloat(v[field])`. */
  function FieldNumber(o: Oracles, v: Record, field: string): Option<real>
  {
    ParseFloat(o, Get(v, field))
  }

  /** `numericValues(videos, field)`: the parsed values, NaN dropped, in record order. */
  function NumericValues(o: Oracles, videos: seq<Record>, field: string): (vals: seq<real>)
    ensures |vals| <= |videos|
    ensures vals == [] <==> forall i :: 0 <= i < |videos| ==> FieldNumber(o, videos[i], field).None?
    ensures forall x :: x in vals ==> exists i :: 0 <= i < |videos| && FieldNumber(o, videos[i], field) == Some(x)
  {
    if videos == [] then []
    else
      var init := NumericValues(o, videos[..|videos| - 1], field);
      assert forall i :: 0 <= i < |videos| - 1 ==> videos[..|videos| - 1][i] == videos[i];
      match FieldNumber(o, videos[|videos| - 1], field)
      case None => init
      case Some(x) => init + [x]
  }

  /** The positions of the records whose field parses, in increasing order. */
  ghost function NumericIndices(o: Oracles, videos: seq<Record>, field: string): (idx: seq<nat>)
    ensures forall k :: 0 <= k < |idx| ==> idx[k] < |videos|
    ensures forall k, l :: 0 <= k < l < |idx| ==> idx[k] < idx[l]
    ensures forall i :: 0 <= i < |videos| ==> (i in idx <==> FieldNumber(o, videos[i], field).Some?)
  {
    if videos == [] then []
    else
      var init := NumericIndices(o, videos[..|videos| - 1], field);
      assert forall i :: 0 <= i < |videos| - 1 ==> videos[..|videos| - 1][i] == videos[i];
      if FieldNumber(o, videos[|videos| - 1], field).None? then init else init + [|videos| - 1]
  }

  /** `vals[k]` is the parse of record `idx[k]`, for every `k`. */
  ghost predicate ParsedAt(o: Oracles, videos: seq<Record>, field: string, vals: seq<real>, idx: seq<nat>)
  {
    |idx| == |vals| && forall k :: 0 <= k < |vals| ==> idx[k] < |videos| && FieldNumber(o, videos[idx[k]], field) == Some(vals[k])
  }

  /** Pairs read in a prefix of the records are read the same in the whole. */
  lemma ParsedAtExtend(o: Oracles, videos: seq<Record>, field: string, vals: seq<real>, idx: seq<nat>)
    requires videos != [] && ParsedAt(o, videos[..|videos| - 1], field, vals, idx)
    ensures ParsedAt(o, videos, field, vals, idx)
    ensures FieldNumber(o, videos[|videos| - 1], field).Some? ==>
      ParsedAt(o, videos, field, vals + [FieldNumber(o, videos[|videos| - 1], field).value], idx + [|videos| - 1])
  {
    var init := videos[..|videos| - 1];
    forall k | 0 <= k < |vals| ensures idx[k] < |videos| && FieldNumber(o, videos[idx[k]], field) == Some(vals[k]) {
      assert videos[idx[k]] == init[idx[k]];
    }
  }

  /** `numericValues` is exactly the order-preserving subsequence of the
      records whose field parses: with the kept positions of
      `NumericIndices`, one value per kept position, each that record's parse. */
  lemma {:induction false} NumericValuesIsParsedSubsequence(o: Oracles, videos: seq<Record>, field: string)
    ensures ParsedAt(o, videos, field, NumericValues(o, videos, field), NumericIndices(o, videos, field))
  {
    if videos != [] {
      var init := videos[..|videos| - 1];
      NumericValuesIsParsedSubsequence(o, init, field);
      ParsedAtExtend(o, videos, field, NumericValues(o, init, field), NumericIndices(o, init, field));
    }
  }

  /** A field-name separator: white space, `_` or `-`. */
  predicate IsSeparator(c: char) { IsSpace(c) || c == '_' || c == '-' }

  function RemoveSeparators(s: string): (r: string)
    ensures |r| <= |s|
    ensures forall i :: 0 <= i < |r| ==> !IsSeparator(r[i])
    // every other character is kept: a name without separators is unchanged
    ensures forall c :: c in s && !IsSeparator(c) ==> c in r
    ensures (forall i :: 0 <= i < |s| ==> !IsSeparator(s[i])) ==> r == s
  {
    if s == [] then ""
    else (if IsSeparator(s[0]) then "" else [s[0]]) + RemoveSeparators(s[1..])
  }

  /** `norm(s)`: lower-cased, every separator deleted. */
  function Normalize(s: string): string
  {
    RemoveSeparators(ToLower(s))
  }

  /** The first position of a key whose normal form is `target` (`keys.find`). */
  function FindKey(keys: seq<string>, target: string): (r: Option<nat>)
    ensures r.Some? ==> r.value < |keys| && Normalize(keys[r.value]) == target
    ensures r.Some? ==> forall j :: 0 <= j < r.value ==> Normalize(keys[j]) != target
    ensures r.None? ==> forall j :: 0 <= j < |keys| ==> Normalize(keys[j]) != target
  {
    if keys == [] then None
    else if Normalize(keys[0]) == target then Some(0)
    else match FindKey(keys[1..], target)
      case None => None
      case Some(i) => Some(i + 1)
  }

  /** `resolveField(videos, name)`; `None` is an `undefined` name. */
  function ResolveField(videos: seq<Record>, name: Option<string>): (r: Option<string>)
    // an empty dataset or a falsy name is returned unchanged
    ensures videos == [] || name.None? || name.value == "" ==> r == name
    // so is a name that is already a key of the first record
    ensures videos != [] && name.Some? && name.value in videos[0].keys ==> r == name
    // otherwise the result is the name or a key of the first record with the same normal form
    ensures r == name || (r.Some? && videos != [] && name.Some? && r.value in videos[0].keys
                          && Normalize(r.value) == Normalize(name.value))
  {
    if videos == [] || name.None? || name.value == "" then name
    else if name.value in videos[0].keys then name
    else match FindKey(videos[0].keys, Normalize(name.value))
      case Some(i) => if videos[0].keys[i] != "" then Some(videos[0].keys[i]) else name
      case None => name
  }

  /** The resolver picks the first key, in key order, that matches once case
      and separators are ignored, unless that key is the empty string (which
      `find(...) || name` treats as no match). */
  lemma ResolveFieldFirstMatch(videos: seq<Record>, name: string, i: nat)
    requires videos != [] && name != "" && name !in videos[0].keys
    requires i < |videos[0].keys| && Normalize(videos[0].keys[i]) == Normalize(name)
    requires forall j :: 0 <= j < i ==> Normalize(videos[0].keys[j]) != Normalize(name)
    ensures ResolveField(videos, Some(name)) == if videos[0].keys[i] != "" then Some(videos[0].keys[i]) else Some(name)
  {
    var f := FindKey(videos[0].keys, Normalize(name));
    assert f.Some?;
    assert f.value == i;
  }

  /** With no key of the same normal form, the name comes back unchanged. */
  lemma ResolveFieldNoMatch(videos: seq<Record>, name: string)
    requires videos != []
    requires forall j :: 0 <= j < |videos[0].keys| ==> Normalize(videos[0].keys[j]) != Normalize(name)
    ensures ResolveField(videos, Some(name)) == Some(name)
  {
  }

  /** The normal form ignores case: lower-casing a name first changes nothing. */
  lemma {:induction false} NormalizeIgnoresCase(s: string)
    ensures Normalize(ToLower(s)) == Normalize(s)
  {
    assert ToLower(ToLower(s)) == ToLower(s) by {
      forall i | 0 <= i < |s| ensures ToLower(ToLower(s))[i] == ToLower(s)[i] {
        assert LowerChar(LowerChar(s[i])) == LowerChar(s[i]);
      }
    }
  }

  lemma {:induction false} RemoveSeparatorsAppend(a: string, b: string)
    ensures RemoveSeparators(a + b) == RemoveSeparators(a) + RemoveSeparators(b)
  {
    if a != [] {
      assert (a + b)[0] == a[0];
      assert (a + b)[1..] == a[1..] + b;
      RemoveSeparatorsAppend(a[1..], b);
      var p := if IsSeparator(a[0]) then "" else [a[0]];
      calc {
        RemoveSeparators(a + b);
        p + RemoveSeparators(a[1..] + b);
        p + (RemoveSeparators(a[1..]) + RemoveSeparators(b));
        (p + RemoveSeparators(a[1..])) + RemoveSeparators(b);
      }
    } else {
      assert a + b == b;
    }
  }

  /** The normal form ignores separators: inserting one anywhere in a name changes nothing. */
  lemma NormalizeIgnoresSeparator(a: string, c: char, b: string)
    requires IsSeparator(c)
    ensures Normalize(a + [c] + b) == Normalize(a + b)
  {
    assert ToLower(a + [c] + b) == ToLower(a) + [LowerChar(c)] + ToLower(b);
    assert ToLower(a + b) == ToLower(a) + ToLower(b);
    RemoveSeparatorsAppend(ToLower(a) + [LowerChar(c)], ToLower(b));
    RemoveSeparatorsAppend(ToLower(a), [LowerChar(c)]);
    RemoveSeparatorsAppend(ToLower(a), ToLower(b));
  }

  /** `(v.title || '')` as a string; `None` when the title is a truthy
      number or boolean, on which `.slice` and `.toLowerCase` throw a TypeError. */
  function TitleText(v: Record): (r: Option<string>)
    ensures !Truthy(Get(v, "title")) ==> r == Some("")
    ensures Get(v, "title").Some? && Get(v, "title").value.Str? ==> r == Some(Get(v, "title").value.s)
    // the TypeError: exactly a truthy title that is not a string
    ensures r.None? <==> Truthy(Get(v, "title")) && !Get(v, "title").value.Str?
  {
    match Get(v, "title")
    case Some(Str(s)) => Some(s)
    case t => if Truthy(t) then None else Some("")
  }
}
