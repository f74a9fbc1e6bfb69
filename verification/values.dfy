/** Plain values shared by the account self-service model: optional values,
    the JSON documents stored as `customData`, and JavaScript truthiness. */
module Values {

  /** An optional value; `None` stands for a missing key, `null` or `undefined`. */
  datatype Option<+T> = None | Some(value: T)

  /** A JSON value. Numbers are kept as integers: the handlers never look
      inside `customData`, they only store and echo it. */
  datatype Json =
    | Null
    | Bool(b: bool)
    | Number(n: int)
    | Str(s: string)
    | Array(items: seq<Json>)
    | Object(fields: map<string, Json>)

  /** The arbitrary JSON object accepted and returned as `customData`. */
  type CustomData = map<string, Json>

  /** JavaScript truthiness of a value that is either a string or missing:
      both a missing value and the empty string are falsy. */
  function Truthy(s: Option<string>): (truthy: bool)
    ensures s.None? ==> !truthy
    ensures s == Some("") ==> !truthy
    ensures s.Some? && |s.value| > 0 ==> truthy
  {
    s.Some? && s.value != ""
  }
}
