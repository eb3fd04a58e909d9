/** The JavaScript values that shapes, default values and token shapes are made of. */
module JsonValues {
  /** A JSON-like value; `JUndefined` is JavaScript's `undefined`, distinct from `null`. */
  datatype Json =
    | JNull
    | JUndefined
    | JString(text: string)
    | JList(elements: seq<Json>)
    | JObject(fields: map<string, Json>)
}
