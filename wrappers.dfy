/** Option and Result values, and the JavaScript truthiness rules the services rely on. */
module Wrappers {

  datatype Option<+T> = None | Some(value: T)

  /** A value or an error message (a thrown `Error`, seen through its `message`). */
  datatype Result<+T> = Success(value: T) | Failure(error: string)

  /** A string-valued property as JavaScript sees it: `None` is a property that is absent (`undefined`). */
  type JsString = Option<string>

  /** `!!v` for a string-valued property: only a present, non-empty string is truthy. */
  predicate Truthy(v: JsString) {
    v.Some? && v.value != ""
  }

  /** `a || b` on string-valued properties. */
  function Or(a: JsString, b: JsString): (r: JsString)
    ensures Truthy(a) ==> r == a
    ensures !Truthy(a) ==> r == b
  {
    if Truthy(a) then a else b
  }

  /** `a || fallback` where the fallback is a string literal. */
  function OrElse(a: JsString, fallback: string): (r: string)
    ensures Truthy(a) ==> r == a.value
    ensures !Truthy(a) ==> r == fallback
  {
    if Truthy(a) then a.value else fallback
  }

  /** How a template literal `${v}` renders a string-valued property. */
  function Interpolate(v: JsString): (r: string)
    ensures v.Some? ==> r == v.value
    ensures v.None? ==> r == "undefined"
  {
    match v
    case Some(s) => s
    case None => "undefined"
  }
}
