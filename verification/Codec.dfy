/** The document codec: encode and decode of docstore/driver/codec.go, through the encoder and decoder of
    docstore/gcpfirestore/codec.go. */
module Codec {
  import opened Wrappers
  import opened Listing
  import opened Values
  import opened GoTypes

  function ToBytes(elems: seq<GoValue>): seq<byte>
    requires forall i :: 0 <= i < |elems| ==> HasType(UintT(W8), elems[i])
  {
    seq(|elems|, i requires 0 <= i < |elems| && HasType(UintT(W8), elems[i]) => elems[i].u as byte)
  }

  function FromBytes(bs: seq<byte>): seq<GoValue> {
    seq(|bs|, i requires 0 <= i < |bs| => UintV(bs[i] as int))
  }

  // ---------------------------------------------------------------- encoding

  /** A well-typed value whose encoding does not panic. */
  ghost predicate CanEncode(t: GoType, v: GoValue) {
    HasType(t, v) && GoodType(t) && Safe(t, v)
  }

  /** A map's encoded values under its printed keys. */
  ghost function ByString(m: map<Key, Value>, kt: KeyType): (r: map<string, Value>)
    requires forall k :: k in m ==> HasKeyType(kt, k)
    ensures forall k :: k in m ==> StringifyMapKey(k) in r && r[StringifyMapKey(k)] == m[k]
    ensures forall s :: s in r ==> exists k :: k in m && StringifyMapKey(k) == s
  {
    KeysDistinct(kt, m.Keys);
    map k | k in m :: StringifyMapKey(k) := m[k]
  }

  /** A struct's encoded fields under their names, without the omitted ones. */
  ghost function ByName(fs: seq<Field>, values: seq<GoValue>, ps: seq<Value>): (r: map<string, Value>)
    requires |fs| == |values| == |ps| && DistinctFields(fs)
    ensures forall i :: 0 <= i < |fs| && !Omitted(fs[i], values[i]) ==> fs[i].name in r && r[fs[i].name] == ps[i]
    ensures forall i :: 0 <= i < |fs| && Omitted(fs[i], values[i]) ==> fs[i].name !in r
    ensures forall s :: s in r ==> exists i :: 0 <= i < |fs| && fs[i].name == s && !Omitted(fs[i], values[i])
  {
    map i | 0 <= i < |fs| && !Omitted(fs[i], values[i]) :: fs[i].name := ps[i]
  }

  ghost function Encode(t: GoType, v: GoValue): Value
    requires CanEncode(t, v)
    decreases v
  {
    match v
    case Nil => NullValue
    case BoolV(b) => BooleanValue(b)
    case StringV(s) => StringValue(s)
    case FloatV(d) => DoubleValue(d)
    case IntV(i) => IntegerValue(i)
    case UintV(u) => IntegerValue(ToInt64(u))
    case TimeV(x) => TimestampValue(x)
    case TimestampV(x) => TimestampValue(x)
    case LatLngV(lat, lng) => GeoPointValue(lat, lng)
    case ListV(elems) =>
      if t == BYTES_T then BytesValue(ToBytes(elems))
      else ArrayValue(seq(|elems|, i requires 0 <= i < |elems| => Encode(t.elem, elems[i])))
    case MapV(entries) => MapValue(ByString(map k | k in entries :: Encode(t.elem, entries[k]), t.key))
    case PointerV(e) => if e.TimeV? then BytesValue(MarshalTime(e.t)) else Encode(t.elem, e)
    case StructV(values) =>
      MapValue(ByName(t.fields, values, seq(|values|, i requires 0 <= i < |values| =>
        if Omitted(t.fields[i], values[i]) then NullValue else Encode(t.fields[i].typ, values[i]))))
    case AnyV(typ, x) => Encode(typ, x)
  }

  lemma ListEncoding(t: GoType, v: GoValue)
    requires CanEncode(t, v) && v.ListV? && t != BYTES_T
    ensures (t.SliceT? && t.elem != UintT(W8)) || (t.ArrayT? && t.len == |v.elems|)
    ensures forall i :: 0 <= i < |v.elems| ==> CanEncode(t.elem, v.elems[i])
    ensures
      var p := Encode(t, v);
      p.ArrayValue? && |p.elems| == |v.elems| && forall i :: 0 <= i < |v.elems| ==>
        p.elems[i] == Encode(t.elem, v.elems[i])
  {
  }

  lemma MapEncoding(t: GoType, v: GoValue)
    requires CanEncode(t, v) && v.MapV?
    ensures t.MapT? && forall k :: k in v.entries ==> HasKeyType(t.key, k) && CanEncode(t.elem, v.entries[k])
    ensures Encode(t, v).MapValue?
    ensures forall k :: k in v.entries ==>
      StringifyMapKey(k) in Encode(t, v).fields
        && Encode(t, v).fields[StringifyMapKey(k)] == Encode(t.elem, v.entries[k])
    ensures forall s :: s in Encode(t, v).fields ==> exists k :: k in v.entries && StringifyMapKey(k) == s
  {
    hide StringifyMapKey, ByString;
  }

  lemma StructEncoding(t: GoType, v: GoValue)
    requires CanEncode(t, v) && v.StructV?
    ensures t.StructT? && |v.values| == |t.fields|
    ensures forall i :: 0 <= i < |v.values| && !Omitted(t.fields[i], v.values[i]) ==>
      CanEncode(t.fields[i].typ, v.values[i])
    ensures Encode(t, v).MapValue?
    ensures forall i :: 0 <= i < |v.values| && !Omitted(t.fields[i], v.values[i]) ==>
      t.fields[i].name in Encode(t, v).fields
      && Encode(t, v).fields[t.fields[i].name] == Encode(t.fields[i].typ, v.values[i])
    ensures forall i :: 0 <= i < |v.values| && Omitted(t.fields[i], v.values[i]) ==>
      t.fields[i].name !in Encode(t, v).fields
    ensures forall s :: s in Encode(t, v).fields ==>
      exists i :: 0 <= i < |v.values| && t.fields[i].name == s && !Omitted(t.fields[i], v.values[i])
  {
    hide Omitted, ByName;
  }

  // ---------------------------------------------------------------- decoding

  ghost predicate AllDecoded(ds: seq<Option<GoValue>>) {
    forall i :: 0 <= i < |ds| ==> ds[i].Some?
  }

  ghost function ValuesOf(ds: seq<Option<GoValue>>): (r: seq<GoValue>)
    requires AllDecoded(ds)
    ensures |r| == |ds| && forall i :: 0 <= i < |r| ==> r[i] == ds[i].value
  {
    seq(|ds|, i requires 0 <= i < |ds| => ds[i].value)
  }

  ghost predicate AllValues(ds: map<string, Option<GoValue>>) {
    forall s :: s in ds ==> ds[s].Some?
  }

  ghost function Gathered(ds: map<string, Option<GoValue>>): (r: map<string, GoValue>)
    requires AllValues(ds)
    ensures r.Keys == ds.Keys && forall s :: s in ds ==> r[s] == ds[s].value
  {
    map s | s in ds :: ds[s].value
  }

  /** A map with string keys. */
  ghost function StringKeyed(m: map<string, GoValue>): (r: map<Key, GoValue>)
    ensures forall s :: s in m ==> StringK(s) in r && r[StringK(s)] == m[s]
    ensures forall k :: k in r ==> k.StringK? && k.s in m
  {
    map s | s in m :: StringK(s) := m[s]
  }

  /** The Go value that best represents a Firestore value, in an interface. */
  ghost function AnyOf(p: Value): Option<GoValue>
    decreases p, 1
  {
    match p
    case NullValue => Some(Nil)
    case BooleanValue(b) => Some(AnyV(BoolT, BoolV(b)))
    case IntegerValue(i) => Some(AnyV(IntT(W64), IntV(i)))
    case DoubleValue(d) => Some(AnyV(FloatT, FloatV(d)))
    case StringValue(s) => Some(AnyV(StringT, StringV(s)))
    case BytesValue(bs) => Some(AnyV(BYTES_T, ListV(FromBytes(bs))))
    case TimestampValue(x) => Some(AnyV(TimeT, TimeV(x)))
    case ReferenceValue(_) => None
    case GeoPointValue(lat, lng) => Some(AnyV(LatLngT, LatLngV(lat, lng)))
    case ArrayValue(_) =>
      if AllDecoded(AnyElems(p)) then Some(AnyV(SliceT(AnyT), ListV(ValuesOf(AnyElems(p))))) else None
    case MapValue(_) =>
      if AllValues(AnyValues(p)) then Some(AnyV(MapT(StringKey, AnyT), MapV(StringKeyed(Gathered(AnyValues(p))))))
        else None
  }

  ghost function AnyElems(p: Value): (ds: seq<Option<GoValue>>)
    requires p.ArrayValue?
    ensures |ds| == |p.elems| && forall i :: 0 <= i < |ds| ==> ds[i] == AnyOf(p.elems[i])
    decreases p, 0
  {
    seq(|p.elems|, i requires 0 <= i < |p.elems| => AnyOf(p.elems[i]))
  }

  ghost function AnyValues(p: Value): (ds: map<string, Option<GoValue>>)
    requires p.MapValue?
    ensures ds.Keys == p.fields.Keys && forall s :: s in p.fields ==> ds[s] == AnyOf(p.fields[s])
    decreases p, 0
  {
    map s | s in p.fields :: AnyOf(p.fields[s])
  }

  /** An integral floating-point number between the limits is accepted for an integer: those of an int64
      for signed types, and those of a uint64 for unsigned ones. */
  function IntegralOf(d: real, low: int, high: int): Option<int> {
    if d == d.Floor as real && low <= d.Floor < high then Some(d.Floor) else None
  }

  /** Every string is a key of this type. */
  ghost predicate KeysParse(ss: set<string>, kt: KeyType) {
    forall s :: s in ss ==> UnstringifyMapKey(s, kt).Some?
  }

  /** The keys that these strings are. */
  ghost function ParsedKeys(ss: set<string>, kt: KeyType): (r: set<Key>)
    requires KeysParse(ss, kt)
    ensures forall s :: s in ss ==> UnstringifyMapKey(s, kt).value in r
    ensures forall k :: k in r ==> exists s :: s in ss && UnstringifyMapKey(s, kt) == Some(k)
  {
    set s | s in ss :: UnstringifyMapKey(s, kt).value
  }

  /** A string for the key. When several are, Go keeps the value of the one that it comes to last; this is any. */
  ghost function StringFor(ss: set<string>, kt: KeyType, k: Key): (s: string)
    requires KeysParse(ss, kt) && k in ParsedKeys(ss, kt)
    ensures s in ss && UnstringifyMapKey(s, kt) == Some(k)
  {
    var s :| s in ss && UnstringifyMapKey(s, kt) == Some(k); s
  }

  /** A map's decoded values under their parsed keys. */
  ghost function ByKey(m: map<string, GoValue>, kt: KeyType): (r: map<Key, GoValue>)
    requires KeysParse(m.Keys, kt)
    ensures r.Keys == ParsedKeys(m.Keys, kt)
    ensures forall k :: k in r ==> exists s :: s in m && UnstringifyMapKey(s, kt) == Some(k) && r[k] == m[s]
  {
    map k | k in ParsedKeys(m.Keys, kt) :: m[StringFor(m.Keys, kt, k)]
  }

  /** A map of values that were decoded one by one. */
  ghost function MapOf(ds: map<string, Option<GoValue>>, kt: KeyType): Option<GoValue> {
    if KeysParse(ds.Keys, kt) && AllValues(ds) then Some(MapV(ByKey(Gathered(ds), kt))) else None
  }

  function Padded(elems: seq<GoValue>, n: nat, e: GoType): (r: seq<GoValue>)
    requires |elems| <= n
    ensures |r| == n && forall i :: 0 <= i < n ==> r[i] == if i < |elems| then elems[i] else Zero(e)
  {
    elems + seq(n - |elems|, i requires 0 <= i < n - |elems| => Zero(e))
  }

  /** A list of values that were decoded one by one, in a slice or array of length n; the rest of an array is zero. */
  ghost function ListOf(ds: seq<Option<GoValue>>, n: nat, e: GoType): Option<GoValue> {
    if |ds| <= n && AllDecoded(ds) then Some(ListV(Padded(ValuesOf(ds), n, e))) else None
  }

  ghost predicate IsFieldName(fs: seq<Field>, name: string) {
    exists i :: 0 <= i < |fs| && fs[i].name == name
  }

  /** Decodes into a fresh variable of the type. */
  ghost function Decode(t: GoType, p: Value): Option<GoValue>
    decreases t, 1
  {
    if p == NullValue && Nillable(t) then Some(Nil)
    else match t
    case BoolT => if p.BooleanValue? then Some(BoolV(p.b)) else None
    case StringT => if p.StringValue? then Some(StringV(p.s)) else None
    case FloatT => if p.DoubleValue? then Some(FloatV(p.d)) else None
    case IntT(w) =>
      var i := if p.IntegerValue? then Some(p.i) else if p.DoubleValue? then IntegralOf(p.d, -TWO63, TWO63) else None;
      if i.Some? && FitsInt(i.value, w) then Some(IntV(i.value)) else None
    case UintT(w) =>
      var u := if p.IntegerValue? then Some(ToUint64(p.i)) else if p.DoubleValue? then IntegralOf(p.d, 0, TWO64)
        else None;
      if u.Some? && FitsUint(u.value, w) then Some(UintV(u.value)) else None
    case TimeT => if p.TimestampValue? then Some(TimeV(p.t)) else None
    case TimestampT => if p.TimestampValue? then Some(TimestampV(p.t)) else None
    case LatLngT => if p.GeoPointValue? then Some(LatLngV(p.lat, p.lng)) else None
    case SliceT(e) =>
      if e == UintT(W8) && p.BytesValue? then Some(ListV(FromBytes(p.bytes)))
      else if !p.ArrayValue? then None
      else if p.elems == [] then Some(Nil)
      else ListOf(DecodeElems(t, p.elems), |p.elems|, e)
    case ArrayT(n, e) =>
      if e == UintT(W8) && p.BytesValue? then
        if |p.bytes| <= n then Some(ListV(Padded(FromBytes(p.bytes), n, e))) else None
      else if p.ArrayValue? then ListOf(DecodeElems(t, p.elems), n, e)
      else None
    case MapT(kt, e) => if p.MapValue? then MapOf(DecodeValues(t, p.fields), kt) else None
    case PointerT(e) => (match Decode(e, p) case None => None case Some(x) => Some(PointerV(x)))
    case StructT(fs) =>
      if p.MapValue? && (forall s :: s in p.fields ==> IsFieldName(fs, s)) && AllDecoded(DecodeFields(t, p.fields)) then
        Some(StructV(ValuesOf(DecodeFields(t, p.fields))))
      else None
    case AnyT => AnyOf(p)
  }

  /** Null is decoded to nil for the types that have one, and is an error for all other basic ones. */
  lemma DecodeOfNull(t: GoType)
    ensures t.SliceT? || t.MapT? || t.PointerT? || t.AnyT? || t.TimestampT? || t.LatLngT? <==>
      Decode(t, NullValue) == Some(Nil)
    ensures t.BoolT? || t.StringT? || t.FloatT? || t.IntT? || t.UintT? || t.TimeT? || t.ArrayT? || t.StructT? ==>
      Decode(t, NullValue) == None
  {
  }

  /** Values of the wrong kind are errors. */
  lemma WrongKind(t: GoType, p: Value)
    requires p != NullValue
    ensures t == BoolT && !p.BooleanValue? ==> Decode(t, p) == None
    ensures t == StringT && !p.StringValue? ==> Decode(t, p) == None
    ensures t == FloatT && !p.DoubleValue? ==> Decode(t, p) == None
    ensures (t.IntT? || t.UintT?) && !p.IntegerValue? && !p.DoubleValue? ==> Decode(t, p) == None
    ensures (t == TimeT || t == TimestampT) && !p.TimestampValue? ==> Decode(t, p) == None
    ensures t == LatLngT && !p.GeoPointValue? ==> Decode(t, p) == None
    ensures (t.SliceT? || t.ArrayT?) && !p.ArrayValue? && !(t.elem == UintT(W8) && p.BytesValue?) ==>
      Decode(t, p) == None
    ensures (t.MapT? || t.StructT?) && !p.MapValue? ==> Decode(t, p) == None
  {
  }

  /** References cannot be decoded into anything. */
  lemma {:induction false} NoReferences(t: GoType, path: string)
    ensures Decode(t, ReferenceValue(path)) == None
    decreases t
  {
    if t.PointerT? { NoReferences(t.elem, path); }
  }

  /** An integer is decoded to itself, for an unsigned type cast first; a double only if it is that integer. Either
      must be in the range of the type. */
  lemma NumberDecodes(w: Width, i: int, d: real)
    requires FitsInt(i, W64)
    ensures Decode(IntT(w), IntegerValue(i)) == if FitsInt(i, w) then Some(IntV(i)) else None
    ensures
      var u := if i < 0 then i + 0x1_0000_0000_0000_0000 else i;
      Decode(UintT(w), IntegerValue(i)) == if FitsUint(u, w) then Some(UintV(u)) else None
    ensures forall j: int :: Decode(IntT(w), DoubleValue(d)) == Some(IntV(j)) <==> d == j as real && FitsInt(j, w)
    ensures forall j: int :: Decode(UintT(w), DoubleValue(d)) == Some(UintV(j)) <==> d == j as real && FitsUint(j, w)
    ensures Decode(IntT(w), DoubleValue(d)).Some? ==> Decode(IntT(w), DoubleValue(d)).value.IntV?
    ensures Decode(UintT(w), DoubleValue(d)).Some? ==> Decode(UintT(w), DoubleValue(d)).value.UintV?
  {
  }

  /** A list is decoded into an array that is long enough, element by element; the rest of the array is zero. */
  lemma ArrayDecodes(n: nat, e: GoType, p: Value)
    requires p.ArrayValue?
    ensures Decode(ArrayT(n, e), p).Some? <==>
      |p.elems| <= n && forall i :: 0 <= i < |p.elems| ==> Decode(e, p.elems[i]).Some?
    ensures Decode(ArrayT(n, e), p).Some? ==>
      var r := Decode(ArrayT(n, e), p).value;
      r.ListV? && |r.elems| == n
      && forall i :: 0 <= i < n ==>
        r.elems[i] == if i < |p.elems| then Decode(e, p.elems[i]).value else Zero(e)
  {
    var ds := DecodeElems(ArrayT(n, e), p.elems);
    assert Decode(ArrayT(n, e), p) == ListOf(ds, n, e);
    assert forall i :: 0 <= i < |p.elems| ==> ds[i] == Decode(e, p.elems[i]);
    hide Decode, Zero;
  }

  /** Bytes too: into a slice of bytes, or an array of bytes that is long enough. */
  lemma BytesDecode(n: nat, bs: seq<byte>)
    ensures
      var r := Decode(SliceT(UintT(W8)), BytesValue(bs));
      r.Some? && r.value.ListV? && |r.value.elems| == |bs|
      && forall i :: 0 <= i < |bs| ==> r.value.elems[i] == UintV(bs[i] as int)
    ensures
      var r := Decode(ArrayT(n, UintT(W8)), BytesValue(bs));
      (r.Some? <==> |bs| <= n)
      && (r.Some? ==> r.value.ListV? && |r.value.elems| == n)
      && (r.Some? ==> forall i :: 0 <= i < n ==> r.value.elems[i] == UintV(if i < |bs| then bs[i] as int else 0))
  {
  }

  /** A map is decoded into a struct that has a field for each of its names, field by field; the others are zero. */
  lemma StructDecodes(fs: seq<Field>, p: Value)
    requires p.MapValue?
    ensures Decode(StructT(fs), p).Some? <==>
      (forall s :: s in p.fields ==> exists i :: 0 <= i < |fs| && fs[i].name == s)
      && forall i :: 0 <= i < |fs| && fs[i].name in p.fields ==> Decode(fs[i].typ, p.fields[fs[i].name]).Some?
    ensures Decode(StructT(fs), p).Some? ==>
      var r := Decode(StructT(fs), p).value;
      r.StructV? && |r.values| == |fs|
      && forall i :: 0 <= i < |fs| ==>
        r.values[i] == if fs[i].name in p.fields then Decode(fs[i].typ, p.fields[fs[i].name]).value else Zero(fs[i].typ)
  {
    var t := StructT(fs);
    var ds := DecodeFields(t, p.fields);
    assert Decode(t, p) ==
      if (forall s :: s in p.fields ==> IsFieldName(fs, s)) && AllDecoded(ds)
      then Some(StructV(ValuesOf(ds))) else None;
    assert forall i :: 0 <= i < |fs| && fs[i].name in p.fields ==> ds[i] == Decode(fs[i].typ, p.fields[fs[i].name]);
    hide Decode, Zero;
  }

  ghost function DecodeElems(t: GoType, ps: seq<Value>): (ds: seq<Option<GoValue>>)
    requires t.SliceT? || t.ArrayT?
    ensures |ds| == |ps| && forall i :: 0 <= i < |ps| ==> ds[i] == Decode(t.elem, ps[i])
    decreases t, 0
  {
    seq(|ps|, i requires 0 <= i < |ps| => Decode(t.elem, ps[i]))
  }

  ghost function DecodeValues(t: GoType, m: map<string, Value>): (ds: map<string, Option<GoValue>>)
    requires t.MapT?
    ensures ds.Keys == m.Keys && forall s :: s in m ==> ds[s] == Decode(t.elem, m[s])
    decreases t, 0
  {
    map s | s in m :: Decode(t.elem, m[s])
  }

  /** The fields of a struct; one that the document does not have stays zero. */
  ghost function DecodeFields(t: GoType, m: map<string, Value>): (ds: seq<Option<GoValue>>)
    requires t.StructT?
    ensures |ds| == |t.fields|
    ensures forall i :: 0 <= i < |ds| ==>
      ds[i] == if t.fields[i].name in m then Decode(t.fields[i].typ, m[t.fields[i].name])
        else Some(Zero(t.fields[i].typ))
    decreases t, 0
  {
    seq(|t.fields|, i requires 0 <= i < |t.fields| =>
      if t.fields[i].name in m then Decode(t.fields[i].typ, m[t.fields[i].name]) else Some(Zero(t.fields[i].typ)))
  }

  // ---------------------------------------------------------------- the round trip

  /** A value that is encoded as null: nil, or a pointer or an interface that leads to nil. */
  predicate EncodesNull(v: GoValue)
    decreases v
  {
    v == Nil || (v.PointerV? && EncodesNull(v.elem)) || (v.AnyV? && EncodesNull(v.value))
  }

  /** The Firestore value that stands for each basic value; an unsigned integer is cast to a signed one. */
  lemma EncodedAs(t: GoType, v: GoValue)
    requires CanEncode(t, v)
    ensures v.BoolV? ==> Encode(t, v) == BooleanValue(v.b)
    ensures v.StringV? ==> Encode(t, v) == StringValue(v.s)
    ensures v.FloatV? ==> Encode(t, v) == DoubleValue(v.d)
    ensures v.IntV? ==> Encode(t, v) == IntegerValue(v.i)
    ensures v.UintV? && v.u < 0x8000_0000_0000_0000 ==> Encode(t, v) == IntegerValue(v.u)
    ensures v.UintV? && v.u >= 0x8000_0000_0000_0000 ==> Encode(t, v) == IntegerValue(v.u - 0x1_0000_0000_0000_0000)
    ensures v.TimeV? || v.TimestampV? ==> Encode(t, v) == TimestampValue(v.t)
    ensures v.LatLngV? ==> Encode(t, v) == GeoPointValue(v.lat, v.lng)
    ensures v == Nil ==> Encode(t, v) == NullValue
  {
  }

  /** Only a slice of bytes is encoded as bytes; every other list, element by element; maps and structs as maps;
      an interface as what it holds. */
  lemma EncodedInto(t: GoType, v: GoValue)
    requires CanEncode(t, v)
    ensures v.ListV? ==> (Encode(t, v).BytesValue? <==> t == SliceT(UintT(W8)))
    ensures v.ListV? && Encode(t, v).BytesValue? ==>
      var bs := Encode(t, v).bytes;
      |bs| == |v.elems| && forall i :: 0 <= i < |bs| ==> v.elems[i] == UintV(bs[i] as int)
    ensures v.ListV? && !Encode(t, v).BytesValue? ==> Encode(t, v).ArrayValue? && |Encode(t, v).elems| == |v.elems|
    ensures v.MapV? || v.StructV? ==> Encode(t, v).MapValue?
    ensures v.AnyV? ==> CanEncode(v.typ, v.value) && Encode(t, v) == Encode(v.typ, v.value)
  {
    if v.ListV? && t == SliceT(UintT(W8)) {
      forall i | 0 <= i < |v.elems| ensures v.elems[i] == UintV(ToBytes(v.elems)[i] as int) {
        assert HasType(UintT(W8), v.elems[i]);
      }
    }
  }

  /** A field is absent from the encoding exactly when it has omitempty and is nil, the zero value of a basic type,
      or a slice, array or map without elements. */
  lemma AbsentIff(t: GoType, v: GoValue, i: nat)
    requires CanEncode(t, v) && v.StructV? && i < |v.values|
    ensures t.StructT? && |v.values| == |t.fields| && Encode(t, v).MapValue?
    ensures
      var f, x := t.fields[i], v.values[i];
      f.name !in Encode(t, v).fields <==>
        f.omitEmpty
        && (x == Nil
            || ((f.typ.BoolT? || f.typ.StringT? || f.typ.FloatT? || f.typ.IntT? || f.typ.UintT?) && x == Zero(f.typ))
            || (x.ListV? && |x.elems| == 0) || (x.MapV? && |x.entries| == 0))
  {
    StructEncoding(t, v);
    OmittedIff(t.fields[i], v.values[i]);
    hide Encode, Omitted, Zero;
  }

  lemma {:induction false} NullIff(t: GoType, v: GoValue)
    requires CanEncode(t, v)
    ensures Encode(t, v) == NullValue <==> EncodesNull(v)
    decreases v
  {
    match v
    case PointerV(e) => NullIff(t.elem, e);
    case AnyV(typ, x) => NullIff(typ, x);
    case _ =>
  }

  lemma BytesRoundTrip(elems: seq<GoValue>)
    requires forall i :: 0 <= i < |elems| ==> HasType(UintT(W8), elems[i])
    ensures FromBytes(ToBytes(elems)) == elems
  {
    forall i | 0 <= i < |elems| ensures FromBytes(ToBytes(elems))[i] == elems[i] {
      assert HasType(UintT(W8), elems[i]);
    }
  }

  ghost predicate AllEntries(ds: map<Key, Option<GoValue>>) {
    forall k :: k in ds ==> ds[k].Some?
  }

  ghost function EntriesOf(ds: map<Key, Option<GoValue>>): (r: map<Key, GoValue>)
    requires AllEntries(ds)
    ensures r.Keys == ds.Keys && forall k :: k in ds ==> r[k] == ds[k].value
  {
    map k | k in ds :: ds[k].value
  }

  /** What is decoded from an encoded value. A pointer to a time.Time is encoded as bytes, which are not
      decoded into one; pointers that lead to nil become nil, empty slices become nil, omitted fields become
      zero, and interfaces hold the best Go value. */
  ghost function Decoded(t: GoType, v: GoValue): Option<GoValue>
    requires CanEncode(t, v)
    decreases v, 1
  {
    match v
    case ListV(elems) =>
      if t == BYTES_T then Some(v)
      else if t.SliceT? && elems == [] then Some(Nil)
      else if AllDecoded(DecodedElems(t, v)) then Some(ListV(ValuesOf(DecodedElems(t, v))))
      else None
    case MapV(_) => if AllEntries(DecodedEntries(t, v)) then Some(MapV(EntriesOf(DecodedEntries(t, v)))) else None
    case PointerV(e) =>
      if e.TimeV? then None
      else PointerTo(e, Decoded(t.elem, e))
    case StructV(_) => if AllDecoded(DecodedFields(t, v)) then Some(StructV(ValuesOf(DecodedFields(t, v)))) else None
    case AnyV(typ, x) => AnyOf(Encode(typ, x))
    case _ => Some(v)
  }

  ghost function DecodedElems(t: GoType, v: GoValue): (ds: seq<Option<GoValue>>)
    requires CanEncode(t, v) && v.ListV? && t != BYTES_T
    ensures |ds| == |v.elems|
    ensures forall i :: 0 <= i < |ds| ==> CanEncode(t.elem, v.elems[i]) && ds[i] == Decoded(t.elem, v.elems[i])
    decreases v, 0
  {
    seq(|v.elems|, i requires 0 <= i < |v.elems| => Decoded(t.elem, v.elems[i]))
  }

  ghost function DecodedEntries(t: GoType, v: GoValue): (ds: map<Key, Option<GoValue>>)
    requires CanEncode(t, v) && v.MapV?
    ensures ds.Keys == v.entries.Keys
    ensures forall k :: k in ds ==> CanEncode(t.elem, v.entries[k]) && ds[k] == Decoded(t.elem, v.entries[k])
    decreases v, 0
  {
    map k | k in v.entries :: Decoded(t.elem, v.entries[k])
  }

  ghost function DecodedFields(t: GoType, v: GoValue): (ds: seq<Option<GoValue>>)
    requires CanEncode(t, v) && v.StructV?
    ensures |ds| == |v.values| == |t.fields|
    ensures forall i :: 0 <= i < |ds| && Omitted(t.fields[i], v.values[i]) ==> ds[i] == Some(Zero(t.fields[i].typ))
    ensures forall i :: 0 <= i < |ds| && !Omitted(t.fields[i], v.values[i]) ==>
      CanEncode(t.fields[i].typ, v.values[i]) && ds[i] == Decoded(t.fields[i].typ, v.values[i])
    decreases v, 0
  {
    seq(|v.values|, i requires 0 <= i < |v.values| =>
      if Omitted(t.fields[i], v.values[i]) then Some(Zero(t.fields[i].typ)) else Decoded(t.fields[i].typ, v.values[i]))
  }

  /** Encoding makes no references, so its result always fits an interface. */
  lemma {:induction false} AnyOfEncoded(t: GoType, v: GoValue)
    requires CanEncode(t, v)
    ensures AnyOf(Encode(t, v)).Some?
    decreases v, 1
  {
    match v
    case ListV(elems) => if t != BYTES_T { AnyOfEncodedList(t, v); }
    case MapV(entries) => AnyOfEncodedMap(t, v);
    case PointerV(e) => AnyOfEncoded(t.elem, e);
    case StructV(values) => AnyOfEncodedStruct(t, v);
    case AnyV(typ, x) => AnyOfEncoded(typ, x);
    case _ =>
  }

  lemma {:induction false} AnyOfEncodedList(t: GoType, v: GoValue)
    requires CanEncode(t, v) && v.ListV? && t != BYTES_T
    ensures AnyOf(Encode(t, v)).Some?
    decreases v, 0
  {
    ListEncoding(t, v);
    hide Encode, HasType, GoodType;
    forall i | 0 <= i < |v.elems| ensures AnyOf(Encode(t, v).elems[i]).Some? { AnyOfEncoded(t.elem, v.elems[i]); }
  }

  lemma AnyOfMap(p: Value)
    requires p.MapValue? && forall s :: s in p.fields ==> AnyOf(p.fields[s]).Some?
    ensures AnyOf(p).Some?
  {
  }

  lemma {:induction false} AnyOfEncodedMap(t: GoType, v: GoValue)
    requires CanEncode(t, v) && v.MapV?
    ensures AnyOf(Encode(t, v)).Some?
    decreases v, 0
  {
    MapEncoding(t, v);
    hide *;
    forall s | s in Encode(t, v).fields ensures AnyOf(Encode(t, v).fields[s]).Some? {
      var k :| k in v.entries && StringifyMapKey(k) == s;
      AnyOfEncoded(t.elem, v.entries[k]);
    }
    AnyOfMap(Encode(t, v));
  }

  lemma {:induction false} AnyOfEncodedStruct(t: GoType, v: GoValue)
    requires CanEncode(t, v) && v.StructV?
    ensures AnyOf(Encode(t, v)).Some?
    decreases v, 0
  {
    StructEncoding(t, v);
    hide *;
    forall s | s in Encode(t, v).fields ensures AnyOf(Encode(t, v).fields[s]).Some? {
      var i :| 0 <= i < |v.values| && t.fields[i].name == s && !Omitted(t.fields[i], v.values[i]);
      AnyOfEncoded(t.fields[i].typ, v.values[i]);
    }
    AnyOfMap(Encode(t, v));
  }

  /** Parsing printed keys gives the map back. */
  lemma ByKeyAll(m: map<string, GoValue>, kt: KeyType, rs: map<Key, GoValue>)
    requires forall k :: k in rs ==> HasKeyType(kt, k) && StringifyMapKey(k) in m && m[StringifyMapKey(k)] == rs[k]
    requires forall s :: s in m ==> exists k :: k in rs && StringifyMapKey(k) == s
    ensures KeysParse(m.Keys, kt) && ByKey(m, kt) == rs
  {
    hide StringifyMapKey, UnstringifyMapKey, HasKeyType, StringFor, ByKey, ParsedKeys;
    forall k | k in rs ensures UnstringifyMapKey(StringifyMapKey(k), kt) == Some(k) { KeyRoundTrip(kt, k); }
    var r := ByKey(m, kt);
    forall k | k in r ensures k in rs && r[k] == rs[k] {
      var s :| s in m && UnstringifyMapKey(s, kt) == Some(k) && r[k] == m[s];
    }
    forall k | k in rs ensures k in r { assert StringifyMapKey(k) in m; }
  }

  /** A map of decoded values under printed keys is decoded exactly when all of them are. */
  lemma MapOfPrinted(ds: map<string, Option<GoValue>>, kt: KeyType, es: map<Key, Option<GoValue>>)
    requires forall k :: k in es ==> HasKeyType(kt, k) && StringifyMapKey(k) in ds && ds[StringifyMapKey(k)] == es[k]
    requires forall s :: s in ds ==> exists k :: k in es && StringifyMapKey(k) == s
    ensures MapOf(ds, kt) == if AllEntries(es) then Some(MapV(EntriesOf(es))) else None
  {
    hide StringifyMapKey, UnstringifyMapKey, HasKeyType, KeysParse, ByKey, Gathered, EntriesOf;
    if AllEntries(es) {
      forall s | s in ds ensures ds[s].Some? {
        var k :| k in es && StringifyMapKey(k) == s;
      }
      GatheredAll(ds, kt, es);
    }
  }

  lemma GatheredAll(ds: map<string, Option<GoValue>>, kt: KeyType, es: map<Key, Option<GoValue>>)
    requires AllValues(ds) && AllEntries(es)
    requires forall k :: k in es ==> HasKeyType(kt, k) && StringifyMapKey(k) in ds && ds[StringifyMapKey(k)] == es[k]
    requires forall s :: s in ds ==> exists k :: k in es && StringifyMapKey(k) == s
    ensures KeysParse(ds.Keys, kt) && ByKey(Gathered(ds), kt) == EntriesOf(es)
  {
    hide *;
    var m, rs := Gathered(ds), EntriesOf(es);
    forall k | k in rs ensures HasKeyType(kt, k) && StringifyMapKey(k) in m && m[StringifyMapKey(k)] == rs[k] {
      assert k in es;
    }
    forall s | s in m ensures exists k :: k in rs && StringifyMapKey(k) == s {
      var k :| k in es && StringifyMapKey(k) == s;
      assert k in rs;
    }
    ByKeyAll(m, kt, rs);
  }

  /** Decoding what was encoded gives exactly the decoded form, or fails when that says so, for every value
      that can be encoded. */
  lemma {:induction false} DecodeOfEncoded(t: GoType, v: GoValue)
    requires CanEncode(t, v)
    ensures Decode(t, Encode(t, v)) == Decoded(t, v)
    decreases v, 1
  {
    hide *;
    if v.ListV? {
      ListRoundTrip(t, v);
    } else if v.MapV? {
      MapRoundTrip(t, v);
    } else if v.PointerV? {
      PointerRoundTrip(t, v);
    } else if v.StructV? {
      StructRoundTrip(t, v);
    } else {
      ScalarRoundTrip(t, v);
    }
  }

  /** Among others: an unsigned integer survives the signed field that carries it, over its whole range. */
  lemma ScalarRoundTrip(t: GoType, v: GoValue)
    requires CanEncode(t, v) && !v.ListV? && !v.MapV? && !v.PointerV? && !v.StructV?
    ensures Decode(t, Encode(t, v)) == Decoded(t, v)
  {
    if v.UintV? { CastsInvert(v.u); }
  }

  lemma PointerParts(t: GoType, v: GoValue)
    requires CanEncode(t, v) && v.PointerV?
    ensures t.PointerT? && CanEncode(t.elem, v.elem)
    ensures v.elem.TimeV? ==> Decode(t, Encode(t, v)) == None == Decoded(t, v)
    ensures !v.elem.TimeV? ==>
      Encode(t, v) == Encode(t.elem, v.elem) && Decoded(t, v) == PointerTo(v.elem, Decoded(t.elem, v.elem))
  {
  }

  /** A pointer to what was decoded, or a nil one. */
  function PointerTo(e: GoValue, d: Option<GoValue>): Option<GoValue> {
    if EncodesNull(e) then Some(Nil) else match d case None => None case Some(x) => Some(PointerV(x))
  }

  lemma DecodeOfPointer(t: GoType, p: Value)
    requires t.PointerT?
    ensures p == NullValue ==> Decode(t, p) == Some(Nil)
    ensures p != NullValue && Decode(t.elem, p) == None ==> Decode(t, p) == None
    ensures p != NullValue && Decode(t.elem, p).Some? ==> Decode(t, p) == Some(PointerV(Decode(t.elem, p).value))
  {
  }

  lemma {:induction false} PointerRoundTrip(t: GoType, v: GoValue)
    requires CanEncode(t, v) && v.PointerV?
    ensures Decode(t, Encode(t, v)) == Decoded(t, v)
    decreases v, 0
  {
    hide Encode, Decode, Decoded, CanEncode, EncodesNull;
    PointerParts(t, v);
    if !v.elem.TimeV? {
      DecodeOfEncoded(t.elem, v.elem);
      NullIff(t.elem, v.elem);
      DecodeOfPointer(t, Encode(t, v));
    }
  }

  lemma DecodeOfArray(t: GoType, p: Value)
    requires p.ArrayValue? && ((t.SliceT? && p.elems != []) || (t.ArrayT? && t.len == |p.elems|))
    ensures Decode(t, p) == ListOf(DecodeElems(t, p.elems), |p.elems|, t.elem)
  {
  }

  lemma ListOfWhole(ds: seq<Option<GoValue>>, e: GoType)
    ensures ListOf(ds, |ds|, e) == if AllDecoded(ds) then Some(ListV(ValuesOf(ds))) else None
  {
    if AllDecoded(ds) { assert Padded(ValuesOf(ds), |ds|, e) == ValuesOf(ds); }
  }

  lemma DecodedList(t: GoType, v: GoValue)
    requires CanEncode(t, v) && v.ListV?
    ensures t == BYTES_T ==> Decoded(t, v) == Some(v) && Decode(t, Encode(t, v)) == Some(v)
    ensures t.SliceT? && v.elems == [] && t != BYTES_T ==> Decoded(t, v) == Some(Nil) == Decode(t, Encode(t, v))
    ensures t != BYTES_T && !(t.SliceT? && v.elems == []) ==>
      Decoded(t, v) == if AllDecoded(DecodedElems(t, v)) then Some(ListV(ValuesOf(DecodedElems(t, v)))) else None
  {
    if t == BYTES_T {
      BytesRoundTrip(v.elems);
    }
  }

  lemma {:induction false} ListRoundTrip(t: GoType, v: GoValue)
    requires CanEncode(t, v) && v.ListV?
    ensures Decode(t, Encode(t, v)) == Decoded(t, v)
    decreases v, 0
  {
    hide *;
    DecodedList(t, v);
    if t != BYTES_T && !(t.SliceT? && v.elems == []) {
      ListEncoding(t, v);
      var p := Encode(t, v);
      DecodeOfArray(t, p);
      forall i | 0 <= i < |v.elems| ensures DecodeElems(t, p.elems)[i] == DecodedElems(t, v)[i] {
        DecodeOfEncoded(t.elem, v.elems[i]);
      }
      assert DecodeElems(t, p.elems) == DecodedElems(t, v);
      ListOfWhole(DecodedElems(t, v), t.elem);
    }
  }

  lemma DecodeOfMap(t: GoType, p: Value)
    requires t.MapT? && p.MapValue?
    ensures Decode(t, p) == MapOf(DecodeValues(t, p.fields), t.key)
  {
  }

  lemma DecodedMap(t: GoType, v: GoValue)
    requires CanEncode(t, v) && v.MapV?
    ensures Decoded(t, v)
      == if AllEntries(DecodedEntries(t, v)) then Some(MapV(EntriesOf(DecodedEntries(t, v)))) else None
  {
  }

  lemma {:induction false} MapRoundTrip(t: GoType, v: GoValue)
    requires CanEncode(t, v) && v.MapV?
    ensures Decode(t, Encode(t, v)) == Decoded(t, v)
    decreases v, 0
  {
    hide *;
    MapEncoding(t, v);
    DecodedMap(t, v);
    var p, es := Encode(t, v), DecodedEntries(t, v);
    DecodeOfMap(t, p);
    var ds := DecodeValues(t, p.fields);
    forall k | k in es ensures StringifyMapKey(k) in ds && ds[StringifyMapKey(k)] == es[k] {
      DecodeOfEncoded(t.elem, v.entries[k]);
    }
    forall s | s in ds ensures exists k :: k in es && StringifyMapKey(k) == s {
      var k :| k in v.entries && StringifyMapKey(k) == s;
      assert k in es;
    }
    MapOfPrinted(ds, t.key, es);
  }

  lemma DecodedStruct(t: GoType, v: GoValue)
    requires CanEncode(t, v) && v.StructV?
    ensures Decoded(t, v)
      == if AllDecoded(DecodedFields(t, v)) then Some(StructV(ValuesOf(DecodedFields(t, v)))) else None
  {
  }

  lemma DecodeOfStruct(t: GoType, p: Value)
    requires t.StructT? && p.MapValue? && forall s :: s in p.fields ==> IsFieldName(t.fields, s)
    ensures
      var ds := DecodeFields(t, p.fields);
      Decode(t, p) == if AllDecoded(ds) then Some(StructV(ValuesOf(ds))) else None
  {
    hide IsFieldName;
  }

  lemma {:induction false} StructRoundTrip(t: GoType, v: GoValue)
    requires CanEncode(t, v) && v.StructV?
    ensures Decode(t, Encode(t, v)) == Decoded(t, v)
    decreases v, 0
  {
    hide *;
    StructEncoding(t, v);
    DecodedStruct(t, v);
    EncodedNames(t, v);
    var p := Encode(t, v);
    DecodeOfStruct(t, p);
    forall i | 0 <= i < |v.values| ensures DecodeFields(t, p.fields)[i] == DecodedFields(t, v)[i] {
      if !Omitted(t.fields[i], v.values[i]) { DecodeOfEncoded(t.fields[i].typ, v.values[i]); }
    }
    assert DecodeFields(t, p.fields) == DecodedFields(t, v);
  }

  lemma EncodedNames(t: GoType, v: GoValue)
    requires CanEncode(t, v) && v.StructV?
    ensures t.StructT? && Encode(t, v).MapValue? && forall s :: s in Encode(t, v).fields ==> IsFieldName(t.fields, s)
  {
    StructEncoding(t, v);
    hide Encode, CanEncode, Omitted;
  }

  // ---------------------------------------------------------------- types of decoded values

  /** The integers in a Firestore value are of 64 bits. */
  predicate Int64s(p: Value)
    decreases p
  {
    match p
    case IntegerValue(i) => FitsInt(i, W64)
    case ArrayValue(elems) => forall i :: 0 <= i < |elems| ==> Int64s(elems[i])
    case MapValue(fields) => forall s :: s in fields ==> Int64s(fields[s])
    case _ => true
  }

  lemma FromBytesTyped(bs: seq<byte>)
    ensures forall i :: 0 <= i < |FromBytes(bs)| ==> HasType(UintT(W8), FromBytes(bs)[i])
  {
  }

  lemma {:induction false} AnyOfTyped(p: Value)
    requires Int64s(p) && AnyOf(p).Some?
    ensures HasType(AnyT, AnyOf(p).value)
    decreases p, 1
  {
    match p
    case BytesValue(bs) => FromBytesTyped(bs);
    case ArrayValue(elems) =>
      forall i | 0 <= i < |elems| ensures HasType(AnyT, AnyElems(p)[i].value) {
        assert AnyElems(p)[i] == AnyOf(elems[i]) && AnyElems(p)[i].Some?;
        AnyOfTyped(elems[i]);
      }
    case MapValue(_) => AnyOfMapTyped(p);
    case _ =>
  }

  lemma {:induction false} AnyOfMapTyped(p: Value)
    requires Int64s(p) && p.MapValue? && AnyOf(p).Some?
    ensures HasType(AnyT, AnyOf(p).value)
    decreases p, 0
  {
    AnyOfMap(p);
    var m := StringKeyed(Gathered(AnyValues(p)));
    forall k | k in m ensures HasType(AnyT, m[k]) {
      assert k.s in Gathered(AnyValues(p)) && AnyValues(p)[k.s] == AnyOf(p.fields[k.s]);
      AnyOfTyped(p.fields[k.s]);
    }
  }

  /** Whatever is decoded is a value of the type. */
  lemma {:induction false} DecodeTyped(t: GoType, p: Value)
    requires GoodType(t) && Int64s(p) && Decode(t, p).Some?
    ensures HasType(t, Decode(t, p).value)
    decreases t
  {
    if p == NullValue && Nillable(t) {
    } else if t.SliceT? || t.ArrayT? {
      DecodedListTyped(t, p);
    } else if t.MapT? {
      DecodedMapTyped(t, p);
    } else if t.StructT? {
      DecodedFieldsTyped(t, p);
    } else if t.PointerT? {
      DecodeTyped(t.elem, p);
    } else if t.AnyT? {
      AnyOfTyped(p);
    }
  }

  lemma {:induction false} DecodedListTyped(t: GoType, p: Value)
    requires GoodType(t) && Int64s(p) && Decode(t, p).Some? && (t.SliceT? || t.ArrayT?) && p != NullValue
    ensures HasType(t, Decode(t, p).value)
    decreases t, 0
  {
    ZeroIs(t.elem);
    if p.BytesValue? {
      FromBytesTyped(p.bytes);
    } else {
      var ds := DecodeElems(t, p.elems);
      forall i | 0 <= i < |p.elems| && ds[i].Some? ensures HasType(t.elem, ds[i].value) {
        assert ds[i] == Decode(t.elem, p.elems[i]);
        DecodeTyped(t.elem, p.elems[i]);
      }
    }
  }

  lemma {:induction false} DecodedMapTyped(t: GoType, p: Value)
    requires GoodType(t) && Int64s(p) && Decode(t, p).Some? && t.MapT? && p != NullValue
    ensures HasType(t, Decode(t, p).value)
    decreases t, 0
  {
    DecodeOfMap(t, p);
    var ds := DecodeValues(t, p.fields);
    var m := ByKey(Gathered(ds), t.key);
    forall k | k in m ensures HasKeyType(t.key, k) && HasType(t.elem, m[k]) {
      var s :| s in Gathered(ds) && UnstringifyMapKey(s, t.key) == Some(k) && m[k] == Gathered(ds)[s];
      ParsedKeyTyped(s, t.key);
      assert ds[s] == Decode(t.elem, p.fields[s]);
      DecodeTyped(t.elem, p.fields[s]);
    }
    assert Decode(t, p) == Some(MapV(m));
  }

  lemma {:induction false} DecodedFieldsTyped(t: GoType, p: Value)
    requires GoodType(t) && Int64s(p) && Decode(t, p).Some? && t.StructT? && p != NullValue
    ensures HasType(t, Decode(t, p).value)
    decreases t, 0
  {
    StructDecodes(t.fields, p);
    var r := Decode(t, p).value;
    forall i | 0 <= i < |t.fields| ensures HasType(t.fields[i].typ, r.values[i]) {
      ZeroIs(t.fields[i].typ);
      if t.fields[i].name in p.fields { DecodeTyped(t.fields[i].typ, p.fields[t.fields[i].name]); }
    }
  }
}
