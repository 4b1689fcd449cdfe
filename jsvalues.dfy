/** JavaScript values as the two core files see them.

    A video record holds primitive JSON values (`Value`); request bodies and
    stored message documents may hold any JSON value (`Json`). A property
    that is absent reads as `undefined`, written `None` here. */
module JsValues {

  datatype Option<+T> = None | Some(value: T)

  /** A primitive JSON value. JSON has no NaN, so `Num` is always a number. */
  datatype Value = Null | Bool(b: bool) | Num(n: real) | Str(s: string)

  /** Any JSON value. */
  datatype Json = Prim(p: Value) | Arr(items: seq<Json>) | Obj(props: map<string, Json>)

  /** JavaScript truthiness of a property read (`None` is `undefined`). */
  predicate Truthy(v: Option<Value>)
  {
    match v
    case None => false
    case Some(Null) => false
    case Some(Bool(b)) => b
    case Some(Num(n)) => n != 0.0
    case Some(Str(s)) => s != ""
  }

  /** Truthiness of any JSON value: arrays and objects, even empty ones, are truthy. */
  predicate JsonTruthy(j: Option<Json>)
  {
    match j
    case None => false
    case Some(Prim(p)) => Truthy(Some(p))
    case Some(Arr(_)) => true
    case Some(Obj(_)) => true
  }

  /** A string argument read with `args.x || fallback`: a missing or empty string gives the fallback. */
  function OrElse(arg: Option<string>, fallback: string): (r: string)
    ensures arg.Some? && arg.value != "" ==> r == arg.value
    ensures (arg.None? || arg.value == "") ==> r == fallback
  {
    if arg.Some? && arg.value != "" then arg.value else fallback
  }

  /** Reads an optional key of a string map, `undefined` when absent. */
  function Lookup(m: map<string, string>, k: string): (r: Option<string>)
    ensures r.Some? <==> k in m
    ensures r.Some? ==> r.value == m[k]
  {
    if k in m then Some(m[k]) else None
  }
}
