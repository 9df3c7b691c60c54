/**
 * The untyped values the routes receive (`unknown`, a parsed JSON body, an
 * API response), with JavaScript's truthiness, `typeof ... === 'object'`
 * and optional chaining `v?.key`.
 */
module JsValues {

  datatype Value =
    | Undefined
    | Null
    | Bool(b: bool)
    | Num(n: real)
    | Str(s: string)
    | Arr(items: seq<Value>)
    | Obj(fields: map<string, Value>)

  /** The values `if (v)` accepts: all but undefined, null, false, 0 and the empty string. */
  predicate Truthy(v: Value)
  {
    match v
    case Undefined => false
    case Null => false
    case Bool(b) => b
    case Num(n) => n != 0.0
    case Str(s) => s != []
    case Arr(_) => true
    case Obj(_) => true
  }

  /** The values `??` replaces. */
  predicate IsNullish(v: Value)
  {
    v.Undefined? || v.Null?
  }

  /** `typeof v === 'object'`: null, arrays and objects. */
  predicate IsObjectType(v: Value)
  {
    v.Null? || v.Arr? || v.Obj?
  }

  /** `v?.key`: the property of an object, undefined for every other value and for a missing key. */
  function Get(v: Value, key: string): (r: Value)
    ensures v.Obj? && key in v.fields ==> r == v.fields[key]
    ensures !(v.Obj? && key in v.fields) ==> r == Undefined
  {
    if v.Obj? && key in v.fields then v.fields[key] else Undefined
  }
}
