/** The few JavaScript runtime notions the rest of the model relies on: JSON values as
    JSON.parse produces them, truthiness, property reads and thrown values. */
module Js {

  datatype Option<+T> = None | Some(value: T) {
    /** `this ?? fallback` when None stands for undefined. */
    function GetOr(fallback: T): T {
      match this
      case Some(v) => v
      case None => fallback
    }
  }

  /** A value produced by JSON.parse. An object is a map from keys to values (the insertion
      order of its keys is not modelled). JSON cannot encode NaN, undefined or functions. */
  datatype Json =
    | JNull
    | JBool(b: bool)
    | JNum(n: real)
    | JStr(s: string)
    | JArr(items: seq<Json>)
    | JObj(fields: map<string, Json>)

  /** JavaScript truthiness: null, false, 0 and "" are falsy; arrays and objects are truthy. */
  predicate Truthy(v: Json) {
    match v
    case JNull => false
    case JBool(b) => b
    case JNum(n) => n != 0.0
    case JStr(s) => s != ""
    case JArr(_) => true
    case JObj(_) => true
  }

  /** `typeof v === 'object'`, which holds for null, arrays and objects. */
  predicate IsObjectType(v: Json) {
    v.JNull? || v.JArr? || v.JObj?
  }

  /** The property read `v.key` on a non-null value, for the named field keys the model
      reads (none of them is `length` or an array index); None is `undefined`. */
  function Prop(v: Json, key: string): Option<Json> {
    if v.JObj? && key in v.fields then Some(v.fields[key]) else None
  }

  /** `!!v.key`: the property exists and is truthy. */
  predicate TruthyProp(v: Json, key: string) {
    Prop(v, key).Some? && Truthy(Prop(v, key).value)
  }

  /** What a `catch` clause receives: an instance of Error with its message, or any other value. */
  datatype Thrown = ErrorObject(message: string) | OtherValue

  /** `e instanceof Error ? e.message : fallback`. */
  function MessageOr(e: Thrown, fallback: string): string {
    match e
    case ErrorObject(m) => m
    case OtherValue => fallback
  }
}
