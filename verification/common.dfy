/** Values shared by the modules of the model: an optional value, and the JSON
    values that requests carry and records store. */
module Common {

  /** A value that may be absent, as a key missing from a request body. */
  datatype Option<+T> = None | Some(value: T) {
    /** The value, or `default` when absent (Python's `dict.get(key, default)`). */
    function GetOr(default: T): T {
      match this
      case Some(v) => v
      case None => default
    }
  }

  /** A JSON value as decoded from a request body. Integers and floating-point
      numbers are both represented by `JNumber`. */
  datatype Json =
    | JNull
    | JBool(b: bool)
    | JNumber(n: real)
    | JString(s: string)
    | JArray(items: seq<Json>)
    | JObject(fields: map<string, Json>)

  /** The empty JSON object `{}`. */
  const EmptyObject: Json := JObject(map[])
}
