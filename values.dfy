/** JavaScript values as the wrapper sees them: request fields, response
    payloads, locals and error bodies. Numbers are modelled as integers. */
module Values {

  datatype Option<+T> = None | Some(value: T) {
    function GetOr(default: T): T {
      match this
      case Some(v) => v
      case None => default
    }
  }

  /** A JavaScript value that can travel through the wrapper. `Bytes` is a
      Node Buffer; `Undefined` is a key that is present with no value. */
  datatype Value =
    | Undefined
    | Null
    | Bool(b: bool)
    | Num(n: int)
    | Str(s: string)
    | Arr(items: seq<Value>)
    | Obj(fields: map<string, Value>)
    | Bytes(data: seq<bv8>)

  /** JavaScript truthiness of an optional string (`undefined` and `""` are falsy). */
  predicate Truthy(o: Option<string>) {
    o.Some? && o.value != ""
  }

  /** The header table of a response as a JSON object of strings. */
  function HeadersValue(h: map<string, string>): (v: Value)
    ensures v.Obj? && v.fields.Keys == h.Keys
    ensures forall k :: k in h ==> v.fields[k] == Str(h[k])
  {
    Obj(map k | k in h :: Str(h[k]))
  }
}
