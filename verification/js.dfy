/**
 * The few JavaScript value semantics the guards and handlers depend on:
 * truthiness, the `||` operator and strict equality against a string.
 */
module Js {
  import opened Wrappers

  /**
   * A JSON-like value as it can appear in a request body or route parameter.
   * Numbers are modelled as integers; `Obj` stands for any object or array.
   */
  datatype JsValue = Undefined | Null | Bool(b: bool) | Num(n: int) | Str(s: string) | Obj

  /** ECMAScript ToBoolean on the modelled values. */
  predicate Truthy(v: JsValue)
  {
    match v
    case Undefined => false
    case Null => false
    case Bool(b) => b
    case Num(n) => n != 0
    case Str(s) => s != ""
    case Obj => true
  }

  /** `a || b`: the left operand when it is truthy, otherwise the right one. */
  function Or(a: JsValue, b: JsValue): (r: JsValue)
    ensures Truthy(a) ==> r == a
    ensures !Truthy(a) ==> r == b
    ensures Truthy(r) <==> Truthy(a) || Truthy(b)
  {
    if Truthy(a) then a else b
  }

  /** `v === s` for a string `s`: only a string with the same characters is strictly equal. */
  predicate StrictEqualsString(v: JsValue, s: string)
  {
    v.Str? && v.s == s
  }

  /** A property of an object that may be missing: `obj[key]`, `undefined` when absent. */
  function Property(obj: map<string, JsValue>, key: string): (r: JsValue)
    ensures key !in obj ==> r == Undefined
    ensures key in obj ==> r == obj[key]
  {
    if key in obj then obj[key] else Undefined
  }

  /** The JavaScript value of an optional string field. */
  function OfField(f: Option<string>): (r: JsValue)
    ensures f.None? <==> r == Undefined
    ensures f.Some? ==> r == Str(f.value)
  {
    match f
    case None => Undefined
    case Some(s) => Str(s)
  }

  /** An optional string field is truthy iff it is present and non-empty (`if (field)`). */
  predicate Present(f: Option<string>)
  {
    Truthy(OfField(f))
  }
}
