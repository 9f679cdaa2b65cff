/**
 * The JavaScript values the client reads out of server responses and
 * storage: primitives, objects as maps from keys to values (a missing key
 * reads as undefined), truthiness and String() conversion.
 */
module JsValues {
  import Text

  datatype JsValue = Undefined | Null | Bool(b: bool) | Num(n: int) | Str(s: string)

  type JsObject = map<string, JsValue>

  /** `o[key]`: undefined when the key is absent. */
  function Get(o: JsObject, key: string): (v: JsValue)
    ensures key !in o ==> v == Undefined
    ensures key in o ==> v == o[key]
  {
    if key in o then o[key] else Undefined
  }

  /** Truthiness: false, 0, '', null and undefined are falsy. */
  predicate Truthy(v: JsValue)
  {
    match v
    case Undefined => false
    case Null => false
    case Bool(b) => b
    case Num(n) => n != 0
    case Str(s) => s != ""
  }

  /** String(v), which localStorage.setItem applies to the value it stores. */
  function ToJsString(v: JsValue): (s: string)
    ensures v.Str? ==> s == v.s
  {
    match v
    case Undefined => "undefined"
    case Null => "null"
    case Bool(b) => if b then "true" else "false"
    case Num(n) => Text.IntToString(n)
    case Str(s) => s
  }
}
