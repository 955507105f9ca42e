/** JSON values as `json.loads` produces them and response bodies are serialized. */
module Json {

  /** Numbers are integers here: timestamps are whole seconds in this model. */
  datatype JsonValue =
    | JNull
    | JBool(b: bool)
    | JNumber(n: int)
    | JString(s: string)
    | JArray(items: seq<JsonValue>)
    | JObject(fields: map<string, JsonValue>)

  type JsonObject = map<string, JsonValue>
}
