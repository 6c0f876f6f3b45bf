/** Decoded JSON values, as both the Ruby plugin and the Go receivers see them. */
module Json {
  import opened Wrappers

  /** A JSON value. Numbers are kept as integers: no operation of the model
      looks inside them. */
  datatype Json =
    | JNull
    | JBool(b: bool)
    | JNumber(n: int)
    | JString(s: string)
    | JArray(items: seq<Json>)
    | JObject(fields: map<string, Json>)

  /** A decoded object: a hash in Ruby, `map[string]interface{}` in Go. */
  type Object = map<string, Json>

  /** Ruby truthiness of a hash value: everything but `nil` and `false`. */
  predicate Truthy(v: Json) {
    v != JNull && v != JBool(false)
  }

  /** `hash[key]` in Ruby: the value, or `nil` when the key is absent. */
  function Lookup(m: Object, key: string): (r: Option<Json>)
    ensures r.Some? <==> key in m
    ensures r.Some? ==> r.value == m[key]
  {
    if key in m then Some(m[key]) else None
  }

  /** The JSON decoder the plugin calls, given as two functions because the
      model does not implement JSON:
      - `parse(text)` is `JSON.parse(text)`: the decoded value, or None when it raises;
      - `parseStringLiteral(text)` is `JSON.parse(text)` for a text that is one
        quoted string literal: the decoded string, or None when it raises. */
  datatype Decoder = Decoder(
    parse: string -> Option<Json>,
    parseStringLiteral: string -> Option<string>)
}
