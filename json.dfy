/** The JSON values `json.loads` produces, and what `dict.get` sees in them. */
module Json {

  datatype JsonValue =
    | JNull
    | JBool(b: bool)
    | JNumber(n: int)
    | JString(s: string)
    | JArray(items: seq<JsonValue>)
    | JObject(fields: map<string, JsonValue>)

  /** The outcome of `r.get(key)`: AttributeError when `r` is not a dict, else the value or None. */
  datatype Lookup = NotAnObject | Missing | Found(v: JsonValue)

  function Get(r: JsonValue, key: string): (l: Lookup)
    ensures l.NotAnObject? <==> !r.JObject?
    ensures l.Found? <==> r.JObject? && key in r.fields
    ensures l.Found? ==> l.v == r.fields[key]
  {
    match r
    case JObject(fields) => if key in fields then Found(fields[key]) else Missing
    case _ => NotAnObject
  }

  /** `r.get(key) == text` for a dict `r`: only a string value equal to `text` compares equal. */
  predicate FieldIs(r: JsonValue, key: string, text: string)
    requires r.JObject?
  {
    Get(r, key) == Found(JString(text))
  }
}
