/**
 * JSON values as Python's `json` module produces and consumes them. Only
 * their shape is modelled; the text `json.dumps(value, indent=2)` prints for
 * a value is supplied to the tool model as a function parameter.
 */
module Json {

  datatype Json =
    | JNull
    | JBool(b: bool)
    | JNumber(literal: string)
    | JString(s: string)
    | JArray(items: seq<Json>)
    | JObject(members: seq<(string, Json)>)
}
