/**
 * Untyped document values: the dictionaries that the validators of a raw
 * segment receive and the field maps stored in the `segments` collection.
 * Floats are opaque: they are modelled as `real` and only ever copied.
 */
module Documents {

  datatype Value =
    | VNull
    | VBool(b: bool)
    | VInt(i: int)
    | VFloat(f: real)
    | VStr(s: string)
    | VList(items: seq<Value>)
    | VDoc(fields: map<string, Value>)
      /** A `LatLng` object built by a validator from a two-element list. */
    | VLatLng(lat: Value, lng: Value)

  /** A document: field name to value. */
  type Doc = map<string, Value>

  /** Python truthiness of a value: empty containers, zero, `""` and `None` are false. */
  predicate Truthy(v: Value)
  {
    match v
    case VNull => false
    case VBool(b) => b
    case VInt(i) => i != 0
    case VFloat(f) => f != 0.0
    case VStr(s) => s != ""
    case VList(items) => items != []
    case VDoc(fields) => fields != map[]
    case VLatLng(_, _) => true
  }
}
