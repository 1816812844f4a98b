// A JSON value, as serde_json::Value and Go's decoded `interface{}` hold it.
// Integers are kept exactly; non-integral numbers are kept only as a marker,
// since floating point is not part of this model.
module Json {
  import opened Wrappers

  datatype Json =
    | JNull
    | JBool(b: bool)
    | JInt(n: int)
    | JFloat
    | JString(s: string)
    | JArray(items: seq<Json>)
    | JObject(fields: map<string, Json>)
  {
    /** serde_json's `as_str`. */
    function AsStr(): (r: Option<string>)
      ensures r.Some? <==> this.JString?
    {
      if this.JString? then Some(s) else None
    }

    /** serde_json's `as_i64`: an integer that fits in 64 signed bits. */
    function AsI64(): (r: Option<int>)
      ensures r.Some? ==> this.JInt? && r.value == n
      ensures r.Some? ==> -0x8000_0000_0000_0000 <= r.value < 0x8000_0000_0000_0000
      ensures this.JInt? && -0x8000_0000_0000_0000 <= n < 0x8000_0000_0000_0000 ==> r.Some?
    {
      if this.JInt? && -0x8000_0000_0000_0000 <= n < 0x8000_0000_0000_0000 then Some(n) else None
    }

    /** serde_json's `as_bool`. */
    function AsBool(): (r: Option<bool>)
      ensures r.Some? <==> this.JBool?
    {
      if this.JBool? then Some(b) else None
    }
  }
}
