/**
  The JSON values a relayed `message` may carry, and JavaScript truthiness on
  them, which decides whether `data.content || null` keeps a field or turns it
  into `null`.
 */
module Payload {
  import opened Wrappers

  datatype Json =
    | JNull
    | JBool(b: bool)
    | JNum(x: real)
    | JStr(s: string)
    | JArray(items: seq<Json>)
    | JObject(members: seq<(string, Json)>)

  /** JavaScript truthiness; JSON has no NaN, and `-0` equals `0.0` here. */
  predicate Truthy(v: Json) {
    match v
    case JNull => false
    case JBool(b) => b
    case JNum(x) => x != 0.0
    case JStr(s) => s != ""
    case JArray(_) => true
    case JObject(_) => true
  }

  /** `field || null` for a field that may be absent from the payload. */
  function OrNull(field: Option<Json>): (v: Json)
    ensures v == JNull || Truthy(v)
    ensures Truthy(v) ==> field == Some(v)
    ensures field.Some? && Truthy(field.value) ==> v == field.value
  {
    if field.Some? && Truthy(field.value) then field.value else JNull
  }
}
