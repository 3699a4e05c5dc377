/** JavaScript values as a parsed JSON response presents them to the validators, with `undefined`
    standing for a missing property. */
module JsonValues {

  datatype Json =
    | JUndefined
    | JNull
    | JBool(b: bool)
    | JNumber(n: real)
    | JString(s: string)
    | JArray(items: seq<Json>)
    | JObject(fields: map<string, Json>)

  /** The `typeof` operator: null and arrays are "object". */
  function TypeOf(v: Json): string
  {
    match v
    case JUndefined => "undefined"
    case JNull => "object"
    case JBool(_) => "boolean"
    case JNumber(_) => "number"
    case JString(_) => "string"
    case JArray(_) => "object"
    case JObject(_) => "object"
  }

  /** Reading `v.key`; reading a property of null or undefined throws, hence the precondition.
      Arrays and primitives have none of the named properties the validators read. */
  function Get(v: Json, key: string): Json
    requires !v.JNull? && !v.JUndefined?
  {
    if v.JObject? && key in v.fields then v.fields[key] else JUndefined
  }

  /** `key` is present on an object and holds a string. */
  predicate StringField(v: Json, key: string)
  {
    v.JObject? && key in v.fields && v.fields[key].JString?
  }

  /** `key` is present on an object and holds a number. */
  predicate NumberField(v: Json, key: string)
  {
    v.JObject? && key in v.fields && v.fields[key].JNumber?
  }
}
