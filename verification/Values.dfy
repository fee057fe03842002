/** Firestore values: the one-of of docstore/gcpfirestore/codec.go. */
module Values {
  import opened Listing

  datatype Value =
    | NullValue
    | BooleanValue(b: bool)
    | IntegerValue(i: int)
    | DoubleValue(d: real)
    | TimestampValue(t: int)
    | StringValue(s: string)
    | BytesValue(bytes: seq<byte>)
    | GeoPointValue(lat: real, lng: real)
    | ReferenceValue(path: string)
    | ArrayValue(elems: seq<Value>)
    | MapValue(fields: map<string, Value>)

  type Fields = map<string, Value>
}
