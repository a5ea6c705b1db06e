/**
 * The slice of JavaScript's dynamic values that the option checks and
 * response checks inspect: `typeof`, truthiness and property lookup.
 * Numbers are modelled as integers (no NaN, no fractions, no infinities).
 */
module JsValues {

  datatype JsValue =
    | JsUndefined
    | JsNull
    | JsBool(b: bool)
    | JsNumber(n: int)
    | JsString(s: string)
    | JsObject(props: map<string, JsValue>)

  /** The string the `typeof` operator yields (`typeof null` is "object"). */
  function TypeOf(v: JsValue): (t: string)
    ensures t in {"undefined", "object", "boolean", "number", "string"}
    ensures t == "number" <==> v.JsNumber?
    ensures t == "string" <==> v.JsString?
    ensures t == "object" <==> (v.JsNull? || v.JsObject?)
  {
    match v
    case JsUndefined => "undefined"
    case JsNull => "object"
    case JsBool(_) => "boolean"
    case JsNumber(_) => "number"
    case JsString(_) => "string"
    case JsObject(_) => "object"
  }

  /** JavaScript truthiness: undefined, null, false, 0 and "" are falsy. */
  predicate Truthy(v: JsValue) {
    match v
    case JsUndefined => false
    case JsNull => false
    case JsBool(b) => b
    case JsNumber(n) => n != 0
    case JsString(s) => s != ""
    case JsObject(_) => true
  }

  /** Property read `v.name` (optional chaining on a nullish value also gives undefined). */
  function Prop(v: JsValue, name: string): (r: JsValue)
    ensures !v.JsObject? ==> r == JsUndefined
    ensures v.JsObject? && name !in v.props ==> r == JsUndefined
  {
    if v.JsObject? && name in v.props then v.props[name] else JsUndefined
  }
}
