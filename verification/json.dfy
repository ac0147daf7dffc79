/** JavaScript values as they reach the validators: parsed JSON bodies, query objects, CSV rows. */
module Json {

  /** A JavaScript value; `NaN` is the number `parseFloat` returns for text that is not a number. */
  datatype JsVal =
    | Undefined
    | Null
    | Num(x: real)
    | NaN
    | Str(s: string)
    | Arr(items: seq<JsVal>)
    | Obj(fields: map<string, JsVal>)

  /** A plain object; a missing key reads as `undefined`. */
  type JsObject = map<string, JsVal>

  /** `o[k]`. */
  function Get(o: JsObject, k: string): JsVal {
    if k in o then o[k] else Undefined
  }

  /** JavaScript truthiness (`if (v)`, `v ? a : b`, `!v`). */
  predicate Truthy(v: JsVal) {
    match v
    case Undefined => false
    case Null => false
    case NaN => false
    case Num(x) => x != 0.0
    case Str(s) => s != ""
    case Arr(_) => true
    case Obj(_) => true
  }

  /** An array of strings. */
  function StrArr(xs: seq<string>): (v: JsVal)
    ensures v.Arr? && |v.items| == |xs|
    ensures forall k :: 0 <= k < |xs| ==> v.items[k] == Str(xs[k])
  {
    Arr(seq(|xs|, k requires 0 <= k < |xs| => Str(xs[k])))
  }
}
