/**
 * JavaScript values as the portal's handlers see them after JSON decoding:
 * request bodies, parsed GeoJSON documents and tenant configuration files.
 * Numbers are integers here; NaN and fractional numbers are not modelled.
 */
module JsValues {

  datatype Option<+T> = None | Some(value: T)

  /** A decoded JSON value, with `undefined` for a missing property. */
  datatype JsValue =
    | Undefined
    | Null
    | Bool(b: bool)
    | Num(n: int)
    | Str(s: string)
    | Arr(items: seq<JsValue>)
    | Obj(fields: map<string, JsValue>)

  /** JavaScript truthiness: `undefined`, `null`, `false`, `0` and `""` are falsy. */
  predicate Truthy(v: JsValue)
  {
    match v
    case Undefined => false
    case Null => false
    case Bool(b) => b
    case Num(n) => n != 0
    case Str(s) => s != ""
    case Arr(_) => true
    case Obj(_) => true
  }

  /** Outcome of reading `v.key`: a TypeError on `null`/`undefined`, else the property or `undefined`. */
  datatype PropertyRead = TypeError | Value(v: JsValue)

  function GetProperty(v: JsValue, key: string): (r: PropertyRead)
    ensures r.TypeError? <==> v.Undefined? || v.Null?
    ensures r.Value? && v.Obj? && key in v.fields ==> r.v == v.fields[key]
    ensures r.Value? && !(v.Obj? && key in v.fields) ==> r.v == Undefined
  {
    match v
    case Undefined => TypeError
    case Null => TypeError
    case Obj(fields) => if key in fields then Value(fields[key]) else Value(Undefined)
    case _ => Value(Undefined)
  }
}
