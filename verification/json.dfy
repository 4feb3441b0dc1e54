/**
  An already-decoded JSON document, standing in for Jansson's `json_t` tree.
  A `json_t *` that may be `NULL` is an `Option<Value>`; the decoder itself
  is not modelled, and a body it cannot decode shows up as a `None` root.
 */
module Json {
  import opened Wrappers

  /** JSON numbers are kept only as integers: the real-valued members the
      library reads (latitude and longitude) are not part of the model. */
  datatype Value =
    | Null
    | Bool(b: bool)
    | Number(n: int)
    | Str(s: string)
    | Array(items: seq<Value>)
    | Object(members: map<string, Value>)

  /** `json_object_get`: the member `key` of `v`, or `None` when `v` is
      missing, is not an object, or has no such member. */
  function Member(v: Option<Value>, key: string): (r: Option<Value>)
    ensures r.Some? <==> v.Some? && v.value.Object? && key in v.value.members
    ensures r.Some? ==> r.value == v.value.members[key]
  {
    match v
    case Some(Object(members)) => if key in members then Some(members[key]) else None
    case _ => None
  }

  /** `json_string_value` of a present member, or `None` when it is not a string. */
  function StringOf(v: Option<Value>): (r: Option<string>)
    ensures r.Some? <==> v.Some? && v.value.Str?
    ensures r.Some? ==> r.value == v.value.s
  {
    match v
    case Some(Str(s)) => Some(s)
    case _ => None
  }
}
