/** JSON values as the request bodies and client-side form data carry them. */
module Json {
  import opened Wrappers

  datatype Json =
    | JNull
    | JBool(b: bool)
    | JNumber(n: real)
    | JString(s: string)
    | JArray(items: seq<Json>)
    | JObject(fields: map<string, Json>)

  /** JavaScript truthiness of a property read, where a missing property
      (`undefined`) is `None`: `null`, `false`, `0`, `""` and `undefined` are
      falsy, arrays and objects are truthy. */
  predicate Truthy(v: Option<Json>)
  {
    match v
    case None => false
    case Some(JNull) => false
    case Some(JBool(b)) => b
    case Some(JNumber(n)) => n != 0.0
    case Some(JString(s)) => s != ""
    case Some(JArray(_)) => true
    case Some(JObject(_)) => true
  }

  /** `obj[key]`, `undefined` when the key is absent. */
  function Get(obj: map<string, Json>, key: string): Option<Json>
  {
    if key in obj then Some(obj[key]) else None
  }
}
