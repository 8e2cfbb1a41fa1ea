/** The request-body schema of todo creation: an object whose only key is
    `value`, a string of 1 to 50 characters. */
module CreateSchema {
  import opened Todos

  /** A parsed JSON value of the request body (numbers restricted to integers). */
  datatype Json =
    | JNull
    | JBool(b: bool)
    | JNumber(n: int)
    | JString(s: string)
    | JArray(items: seq<Json>)
    | JObject(fields: map<string, Json>)

  const MinLength: nat := 1
  const MaxLength: nat := 50

  /** The schema's validation: the validated `value`, or `None` when the body
      is rejected. `value` is required, must be a string within the length
      bounds, and the object admits no other key. */
  function Validate(body: map<string, Json>): (r: Option<string>)
    ensures r.Some? ==> body == map["value" := JString(r.value)]
    ensures r.Some? ==> MinLength <= |r.value| <= MaxLength
    ensures forall s :: body == map["value" := JString(s)] && MinLength <= |s| <= MaxLength ==> r == Some(s)
  {
    if "value" !in body then None
    else if body.Keys != {"value"} then None
    else match body["value"]
      case JString(s) => if MinLength <= |s| <= MaxLength then Some(s) else None
      case _ => None
  }
}
