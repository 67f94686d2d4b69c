/** Parsed JSON values and the JavaScript notions the request handlers apply
    to them: truthiness and property lookup by destructuring. */
module Json {
  import opened Wrappers

  /** A value produced by `JSON.parse`. `JNumber` holds the value of the
      parsed double as a real; rounding, overflow to an infinity and
      underflow to zero happen in the parser, which is not modelled. */
  datatype Json =
    | JNull
    | JBool(b: bool)
    | JNumber(n: real)
    | JString(s: string)
    | JArray(elems: seq<Json>)
    | JObject(members: map<string, Json>)

  /** JavaScript truthiness. `false`, `0`, `-0`, `""` and `null` are falsy;
      every array and every object is truthy, even when empty. */
  predicate Truthy(v: Json)
  {
    match v
    case JNull => false
    case JBool(b) => b
    case JNumber(n) => n != 0.0
    case JString(s) => s != ""
    case JArray(_) => true
    case JObject(_) => true
  }

  /** Truthiness of a property read, where `None` is `undefined`. */
  predicate TruthyField(v: Option<Json>)
  {
    v.Some? && Truthy(v.value)
  }

  /** The value `body[key]` that `const { key } = body` binds, for a body
      that is not `null`. Only an object has the handlers' keys as own
      properties; on any other value the read is `undefined`. */
  function Field(body: Json, key: string): (v: Option<Json>)
    ensures v.Some? <==> body.JObject? && key in body.members
    ensures v.Some? ==> v.value == body.members[key]
  {
    match body
    case JObject(m) => if key in m then Some(m[key]) else None
    case _ => None
  }

  /** The expression `v || null`. */
  function OrNull(v: Option<Json>): Json
  {
    if TruthyField(v) then v.value else JNull
  }

  lemma OrNullIsNullOrTruthy(v: Option<Json>)
    ensures OrNull(v) == JNull || Truthy(OrNull(v))
    ensures OrNull(v) != JNull ==> v == Some(OrNull(v))
    ensures !Truthy(OrNull(v)) <==> !TruthyField(v)
  {
  }
}
