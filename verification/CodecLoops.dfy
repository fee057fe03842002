/** The loops of docstore/driver/codec.go: encoding drives a stateful encoder, decoding goes through lists and
    maps, the latter in any order. */
module CodecLoops {
  import opened Wrappers
  import opened Values
  import opened GoTypes
  import opened Codec
  import opened DecodeOrders

  /** The encoder of docstore/gcpfirestore/codec.go: it holds the value encoded last, and, for a list or a map,
      the values stored so far. */
  class Encoder {
    var pv: Value
    var s: seq<Value>
    var m: map<string, Value>

    constructor (n: nat)
      ensures |s| == n && m == map[]
    {
      pv, m := NullValue, map[];
      s := seq(n, i => NullValue);
    }

    method ListIndex(i: nat)
      requires i < |s|
      modifies this`s
      ensures s == old(s)[i := pv]
    {
      s := s[i := pv];
    }

    method MapKey(k: string)
      modifies this`m
      ensures m == old(m)[k := pv]
    {
      m := m[k := pv];
    }
  }

  /** Leaves the encoding in the encoder; false stands for a panic. */
  method EncodeValue(t: GoType, v: GoValue, enc: Encoder) returns (ok: bool)
    requires HasType(t, v) && GoodType(t)
    modifies enc`pv
    ensures ok <==> CanEncode(t, v)
    ensures ok ==> enc.pv == Encode(t, v)
    decreases v, 1
  {
    ok := true;
    match v {
      case Nil =>
        // MarshalBinary of time.Time is called on a nil pointer.
        if t == PointerT(TimeT) { return false; }
        enc.pv := NullValue;
      case BoolV(b) => enc.pv := BooleanValue(b);
      case StringV(s) => enc.pv := StringValue(s);
      case FloatV(d) => enc.pv := DoubleValue(d);
      case IntV(i) => enc.pv := IntegerValue(i);
      case UintV(u) => enc.pv := IntegerValue(ToInt64(u));
      case TimeV(x) => enc.pv := TimestampValue(x);
      case TimestampV(x) => enc.pv := TimestampValue(x);
      case LatLngV(lat, lng) => enc.pv := GeoPointValue(lat, lng);
      case ListV(elems) =>
        if t == BYTES_T {
          BytesEncoding(v);
          enc.pv := BytesValue(ToBytes(elems));
        } else {
          ok := EncodeList(t, v, enc);
        }
      case MapV(entries) => ok := EncodeMap(t, v, enc);
      case PointerV(e) =>
        // *time.Time is not one of the special types, but it has MarshalBinary.
        PointerTyped(t, v);
        if e.TimeV? { enc.pv := BytesValue(MarshalTime(e.t)); } else { ok := EncodeValue(t.elem, e, enc); }
      case StructV(values) => ok := EncodeStruct(t, v, enc);
      case AnyV(typ, x) =>
        AnyTyped(t, v);
        ok := EncodeValue(typ, x, enc);
    }
  }

  lemma PointerTyped(t: GoType, v: GoValue)
    requires HasType(t, v) && GoodType(t) && v.PointerV?
    ensures t.PointerT? && HasType(t.elem, v.elem) && GoodType(t.elem)
    ensures CanEncode(t, v) <==> CanEncode(t.elem, v.elem)
    ensures v.elem.TimeV? ==> CanEncode(t, v) && Encode(t, v) == BytesValue(MarshalTime(v.elem.t))
    ensures !v.elem.TimeV? && CanEncode(t, v) ==> Encode(t, v) == Encode(t.elem, v.elem)
  {
  }

  lemma AnyTyped(t: GoType, v: GoValue)
    requires HasType(t, v) && v.AnyV?
    ensures HasType(v.typ, v.value) && GoodType(v.typ) && (CanEncode(t, v) <==> CanEncode(v.typ, v.value))
    ensures CanEncode(t, v) ==> Encode(t, v) == Encode(v.typ, v.value)
  {
  }

  lemma BytesEncoding(v: GoValue)
    requires HasType(BYTES_T, v) && v.ListV?
    ensures forall i :: 0 <= i < |v.elems| ==> HasType(UintT(W8), v.elems[i])
    ensures CanEncode(BYTES_T, v) && Encode(BYTES_T, v) == BytesValue(ToBytes(v.elems))
  {
    forall i | 0 <= i < |v.elems| ensures Safe(UintT(W8), v.elems[i]) { assert HasType(UintT(W8), v.elems[i]); }
  }

  lemma ListTyped(t: GoType, v: GoValue)
    requires HasType(t, v) && GoodType(t) && v.ListV?
    ensures (t.SliceT? || t.ArrayT?) && GoodType(t.elem)
    ensures forall i :: 0 <= i < |v.elems| ==> HasType(t.elem, v.elems[i])
    ensures CanEncode(t, v) <==> forall i :: 0 <= i < |v.elems| ==> CanEncode(t.elem, v.elems[i])
  {
  }

  /** Element by element; it panics with the first element that does. */
  method EncodeList(t: GoType, v: GoValue, enc: Encoder) returns (ok: bool)
    requires HasType(t, v) && GoodType(t) && v.ListV? && t != BYTES_T
    modifies enc`pv
    ensures ok <==> CanEncode(t, v)
    ensures ok ==> enc.pv == Encode(t, v)
    decreases v, 0
  {
    hide *;
    ListTyped(t, v);
    var enc2 := new Encoder(|v.elems|);
    for i := 0 to |v.elems|
      invariant |enc2.s| == |v.elems|
      invariant forall j :: 0 <= j < i ==> CanEncode(t.elem, v.elems[j]) && enc2.s[j] == Encode(t.elem, v.elems[j])
    {
      ok := EncodeValue(t.elem, v.elems[i], enc2);
      if !ok { return; }
      enc2.ListIndex(i);
    }
    ListEncoding(t, v);
    assert enc2.s == Encode(t, v).elems;
    enc.pv := ArrayValue(enc2.s);
    ok := true;
  }

  /** What is in the first map is in the second. */
  ghost predicate Within(a: map<string, Value>, b: map<string, Value>) {
    forall s :: s in a ==> s in b && a[s] == b[s]
  }

  lemma WithinAdd(a: map<string, Value>, b: map<string, Value>, s: string)
    requires Within(a, b) && s in b
    ensures Within(a[s := b[s]], b)
  {
  }

  lemma WithinAll(a: map<string, Value>, b: map<string, Value>)
    requires Within(a, b) && forall s :: s in b ==> s in a
    ensures a == b
  {
  }

  lemma MapTyped(t: GoType, v: GoValue)
    requires HasType(t, v) && GoodType(t) && v.MapV?
    ensures t.MapT? && GoodType(t.elem) && forall k :: k in v.entries ==> HasType(t.elem, v.entries[k])
    ensures CanEncode(t, v) <==> forall k :: k in v.entries ==> CanEncode(t.elem, v.entries[k])
  {
  }

  /** The entries that are left to encode are the only ones not yet there. */
  ghost predicate EncodedSoFar(t: GoType, v: GoValue, rest: set<Key>, m: map<string, Value>)
    requires t.MapT? && v.MapV?
  {
    (forall k :: k in v.entries && k !in rest ==> CanEncode(t.elem, v.entries[k]) && StringifyMapKey(k) in m)
    && (CanEncode(t, v) ==> Encode(t, v).MapValue? && Within(m, Encode(t, v).fields))
  }

  lemma EncodedOneMore(t: GoType, v: GoValue, rest: set<Key>, m: map<string, Value>, k: Key)
    requires t.MapT? && v.MapV? && EncodedSoFar(t, v, rest, m) && k in v.entries && CanEncode(t.elem, v.entries[k])
    ensures EncodedSoFar(t, v, rest - {k}, m[StringifyMapKey(k) := Encode(t.elem, v.entries[k])])
  {
    hide Encode, CanEncode, StringifyMapKey, Within;
    if CanEncode(t, v) { EncodedEntry(t, v, m, k); }
  }

  lemma EncodedEntry(t: GoType, v: GoValue, m: map<string, Value>, k: Key)
    requires CanEncode(t, v) && v.MapV? && k in v.entries && Encode(t, v).MapValue? && Within(m, Encode(t, v).fields)
    ensures CanEncode(t.elem, v.entries[k])
    ensures Within(m[StringifyMapKey(k) := Encode(t.elem, v.entries[k])], Encode(t, v).fields)
  {
    hide *;
    MapEncoding(t, v);
    WithinAdd(m, Encode(t, v).fields, StringifyMapKey(k));
  }

  lemma EncodedStart(t: GoType, v: GoValue)
    requires t.MapT? && v.MapV?
    ensures EncodedSoFar(t, v, v.entries.Keys, map[])
  {
    if CanEncode(t, v) { MapEncoding(t, v); }
    hide Encode, CanEncode, StringifyMapKey;
  }

  lemma EncodedEnd(t: GoType, v: GoValue, m: map<string, Value>)
    requires HasType(t, v) && GoodType(t) && t.MapT? && v.MapV? && EncodedSoFar(t, v, {}, m)
    ensures CanEncode(t, v) && Encode(t, v) == MapValue(m)
  {
    MapTyped(t, v);
    hide HasType, CanEncode, Encode, StringifyMapKey;
    MapEncoding(t, v);
    WithinAll(m, Encode(t, v).fields);
  }

  /** Goes through the entries in any order; it panics when one of them does. */
  method EncodeMap(t: GoType, v: GoValue, enc: Encoder) returns (ok: bool)
    requires HasType(t, v) && GoodType(t) && v.MapV?
    modifies enc`pv
    ensures ok <==> CanEncode(t, v)
    ensures ok ==> enc.pv == Encode(t, v)
    decreases v, 0
  {
    hide *;
    MapTyped(t, v);
    var enc2 := new Encoder(0);
    var rest := v.entries.Keys;
    EncodedStart(t, v);
    while rest != {}
      invariant rest <= v.entries.Keys && EncodedSoFar(t, v, rest, enc2.m)
      decreases rest
    {
      var k :| k in rest;
      ok := EncodeValue(t.elem, v.entries[k], enc2);
      if !ok { return; }
      EncodedOneMore(t, v, rest, enc2.m, k);
      enc2.MapKey(StringifyMapKey(k));
      rest := rest - {k};
    }
    EncodedEnd(t, v, enc2.m);
    enc.pv := MapValue(enc2.m);
    ok := true;
  }

  /** The first n fields, without the omitted ones, are there. */
  ghost predicate NamesIn(t: GoType, v: GoValue, n: nat, m: map<string, Value>)
    requires t.StructT? && v.StructV? && n <= |v.values| == |t.fields|
  {
    forall i :: 0 <= i < n && !Omitted(t.fields[i], v.values[i]) ==> t.fields[i].name in m
  }

  lemma StructTyped(t: GoType, v: GoValue)
    requires HasType(t, v) && GoodType(t) && v.StructV?
    ensures t.StructT? && |v.values| == |t.fields| && DistinctFields(t.fields)
    ensures forall i :: 0 <= i < |v.values| ==> HasType(t.fields[i].typ, v.values[i]) && GoodType(t.fields[i].typ)
    ensures CanEncode(t, v) <==>
      forall i :: 0 <= i < |v.values| && !Omitted(t.fields[i], v.values[i]) ==> CanEncode(t.fields[i].typ, v.values[i])
  {
    hide Omitted;
  }

  /** The first n fields are encoded. */
  ghost predicate FieldsSoFar(t: GoType, v: GoValue, n: nat, m: map<string, Value>)
    requires t.StructT? && v.StructV? && n <= |v.values| == |t.fields|
  {
    NamesIn(t, v, n, m)
    && (forall i :: 0 <= i < n && !Omitted(t.fields[i], v.values[i]) ==> CanEncode(t.fields[i].typ, v.values[i]))
    && (CanEncode(t, v) ==> Encode(t, v).MapValue? && Within(m, Encode(t, v).fields))
  }

  lemma FieldsStart(t: GoType, v: GoValue)
    requires t.StructT? && v.StructV? && |v.values| == |t.fields|
    ensures FieldsSoFar(t, v, 0, map[])
  {
    if CanEncode(t, v) { StructEncoding(t, v); }
  }

  lemma FieldsOneMore(t: GoType, v: GoValue, n: nat, m: map<string, Value>)
    requires t.StructT? && v.StructV? && n < |v.values| == |t.fields| && FieldsSoFar(t, v, n, m)
    ensures Omitted(t.fields[n], v.values[n]) ==> FieldsSoFar(t, v, n + 1, m)
    ensures !Omitted(t.fields[n], v.values[n]) && CanEncode(t.fields[n].typ, v.values[n]) ==>
      FieldsSoFar(t, v, n + 1, m[t.fields[n].name := Encode(t.fields[n].typ, v.values[n])])
  {
    if CanEncode(t, v) && !Omitted(t.fields[n], v.values[n]) { EncodedField(t, v, n, m); }
    hide Encode, CanEncode, Omitted, Within;
  }

  lemma EncodedField(t: GoType, v: GoValue, n: nat, m: map<string, Value>)
    requires CanEncode(t, v) && t.StructT? && v.StructV? && n < |v.values| == |t.fields| && Encode(t, v).MapValue?
    requires !Omitted(t.fields[n], v.values[n]) && Within(m, Encode(t, v).fields)
    ensures CanEncode(t.fields[n].typ, v.values[n])
    ensures Within(m[t.fields[n].name := Encode(t.fields[n].typ, v.values[n])], Encode(t, v).fields)
  {
    hide *;
    StructEncoding(t, v);
    WithinAdd(m, Encode(t, v).fields, t.fields[n].name);
  }

  lemma FieldsEnd(t: GoType, v: GoValue, m: map<string, Value>)
    requires HasType(t, v) && GoodType(t) && t.StructT? && v.StructV? && |v.values| == |t.fields|
    requires FieldsSoFar(t, v, |v.values|, m)
    ensures CanEncode(t, v) && Encode(t, v) == MapValue(m)
  {
    StructTyped(t, v);
    hide HasType, CanEncode, Encode, Omitted;
    StructEncoding(t, v);
    WithinAll(m, Encode(t, v).fields);
  }

  /** Encodes the fields in order, without the omitted ones; it panics with the first that does. */
  method EncodeStruct(t: GoType, v: GoValue, enc: Encoder) returns (ok: bool)
    requires HasType(t, v) && GoodType(t) && v.StructV?
    modifies enc`pv
    ensures ok <==> CanEncode(t, v)
    ensures ok ==> enc.pv == Encode(t, v)
    decreases v, 0
  {
    hide *;
    StructTyped(t, v);
    FieldsStart(t, v);
    var enc2 := new Encoder(0);
    for i := 0 to |v.values|
      invariant FieldsSoFar(t, v, i, enc2.m)
    {
      FieldsOneMore(t, v, i, enc2.m);
      if Omitted(t.fields[i], v.values[i]) { continue; }
      ok := EncodeValue(t.fields[i].typ, v.values[i], enc2);
      if !ok { return; }
      enc2.MapKey(t.fields[i].name);
    }
    FieldsEnd(t, v, enc2.m);
    enc.pv := MapValue(enc2.m);
    ok := true;
  }

  // ---------------------------------------------------------------- decoding

  /** The outcome of decoding: it fails exactly when Decode says so, and otherwise gives one of the values that
      the order of going through maps allows. */
  ghost predicate Outcome(t: GoType, p: Value, r: Option<GoValue>) {
    (r == None <==> Decode(t, p) == None) && (r.Some? ==> Possible(t, p, r.value))
  }

  lemma OutcomeOfDecode(t: GoType, p: Value)
    ensures Outcome(t, p, Decode(t, p))
  {
    hide Decode, Possible;
    if Decode(t, p).Some? { DecodeIsPossible(t, p); }
  }

  /** Without a clash, that is what Decode says. */
  lemma OutcomeWithoutClash(t: GoType, p: Value, r: Option<GoValue>)
    requires Outcome(t, p, r) && !Clash(t, p)
    ensures r == Decode(t, p)
  {
    hide Decode, Possible, Clash;
    if r.Some? { OneWithoutClash(t, p, r.value); }
  }

  lemma OutcomeOfPointer(t: GoType, p: Value, x: Option<GoValue>)
    requires t.PointerT? && p != NullValue && Outcome(t.elem, p, x)
    ensures Outcome(t, p, if x.Some? then Some(PointerV(x.value)) else None)
  {
    DecodeOfPointer(t, p);
  }

  /** What encoding produced is decoded to the decoded form in every order. */
  lemma OutcomeOfEncoded(t: GoType, v: GoValue, r: Option<GoValue>)
    requires CanEncode(t, v) && Outcome(t, Encode(t, v), r)
    ensures r == Decoded(t, v)
  {
    hide *;
    EncodedNoClash(t, v);
    OutcomeWithoutClash(t, Encode(t, v), r);
    DecodeOfEncoded(t, v);
  }

  method DecodeValue(t: GoType, p: Value) returns (r: Option<GoValue>)
    requires GoodType(t)
    ensures Outcome(t, p, r)
    decreases t, p, 1
  {
    hide Outcome, Possible;
    OutcomeOfDecode(t, p);
    if p == NullValue && Nillable(t) { return Some(Nil); }
    match t {
      case BoolT => r := if p.BooleanValue? then Some(BoolV(p.b)) else None;
      case StringT => r := if p.StringValue? then Some(StringV(p.s)) else None;
      case FloatT => r := if p.DoubleValue? then Some(FloatV(p.d)) else None;
      case IntT(w) =>
        var i := if p.IntegerValue? then Some(p.i) else if p.DoubleValue? then IntegralOf(p.d, -TWO63, TWO63) else None;
        r := if i.Some? && FitsInt(i.value, w) then Some(IntV(i.value)) else None;
      case UintT(w) =>
        var u := if p.IntegerValue? then Some(ToUint64(p.i)) else if p.DoubleValue? then IntegralOf(p.d, 0, TWO64)
          else None;
        r := if u.Some? && FitsUint(u.value, w) then Some(UintV(u.value)) else None;
      case TimeT => r := if p.TimestampValue? then Some(TimeV(p.t)) else None;
      case TimestampT => r := if p.TimestampValue? then Some(TimestampV(p.t)) else None;
      case LatLngT => r := if p.GeoPointValue? then Some(LatLngV(p.lat, p.lng)) else None;
      case SliceT(e) =>
        if e == UintT(W8) && p.BytesValue? { return Some(ListV(FromBytes(p.bytes))); }
        if !p.ArrayValue? { return None; }
        if p.elems == [] { return Some(Nil); }
        r := DecodeList(t, p, |p.elems|);
      case ArrayT(n, e) =>
        if e == UintT(W8) && p.BytesValue? {
          r := if |p.bytes| <= n then Some(ListV(Padded(FromBytes(p.bytes), n, e))) else None;
        } else if p.ArrayValue? {
          r := DecodeList(t, p, n);
        } else {
          r := None;
        }
      case MapT(kt, e) => if p.MapValue? { r := DecodeMap(t, p); } else { r := None; }
      case PointerT(e) =>
        var x := DecodeValue(e, p);
        OutcomeOfPointer(t, p, x);
        r := if x.Some? then Some(PointerV(x.value)) else None;
      case StructT(fs) => if p.MapValue? { r := DecodeStruct(t, p); } else { r := None; }
      case AnyT => r := DecodeAny(p);
    }
  }

  /** The list is decoded exactly when it fits and all its elements are decoded. */
  lemma ListDecodes(t: GoType, p: Value, n: nat)
    requires p.ArrayValue? && ((t.SliceT? && p.elems != [] && n == |p.elems|) || (t.ArrayT? && n == t.len))
    ensures Decode(t, p).Some? <==> |p.elems| <= n && forall i :: 0 <= i < |p.elems| ==>
      Decode(t.elem, p.elems[i]).Some?
  {
    assert Decode(t, p) == ListOf(DecodeElems(t, p.elems), n, t.elem);
    hide Decode;
    var ds := DecodeElems(t, p.elems);
    forall i | 0 <= i < |p.elems| ensures ds[i] == Decode(t.elem, p.elems[i]) {}
  }

  lemma ListDone(t: GoType, p: Value, n: nat, elems: seq<GoValue>)
    requires p.ArrayValue? && ((t.SliceT? && p.elems != [] && n == |p.elems|) || (t.ArrayT? && n == t.len))
    requires |elems| == |p.elems| <= n && forall i :: 0 <= i < |elems| ==> Outcome(t.elem, p.elems[i], Some(elems[i]))
    ensures Outcome(t, p, Some(ListV(Padded(elems, n, t.elem))))
  {
    ListDecodes(t, p, n);
    PossibleList(t, p, ListV(Padded(elems, n, t.elem)));
    hide Decode, Possible, Clash;
  }

  /** Decodes the elements in order into a slice or array of length n, whose other elements are zero. */
  method DecodeList(t: GoType, p: Value, n: nat) returns (r: Option<GoValue>)
    requires GoodType(t) && p.ArrayValue?
    requires ((t.SliceT? && p.elems != [] && n == |p.elems|) || (t.ArrayT? && n == t.len))
    ensures Outcome(t, p, r)
    decreases t, p, 0
  {
    hide Decode, Possible;
    ListDecodes(t, p, n);
    if |p.elems| > n { return None; }
    var elems: seq<GoValue> := [];
    for i := 0 to |p.elems|
      invariant |elems| == i && forall j :: 0 <= j < i ==> Outcome(t.elem, p.elems[j], Some(elems[j]))
    {
      var x := DecodeValue(t.elem, p.elems[i]);
      if x == None { return None; }
      elems := elems + [x.value];
    }
    ListDone(t, p, n, elems);
    r := Some(ListV(Padded(elems, n, t.elem)));
  }

  /** The map is decoded exactly when all its strings are keys and all its values are decoded. */
  lemma MapDecodesIff(t: GoType, p: Value)
    requires t.MapT? && p.MapValue?
    ensures Decode(t, p).Some? <==>
      forall s :: s in p.fields ==> UnstringifyMapKey(s, t.key).Some? && Decode(t.elem, p.fields[s]).Some?
  {
    DecodeOfMap(t, p);
    hide Decode, UnstringifyMapKey;
    var ds := DecodeValues(t, p.fields);
    forall s | s in p.fields ensures ds[s] == Decode(t.elem, p.fields[s]) {}
  }

  /** The map has the decoded entries of the strings that are not left. */
  ghost predicate Entered(t: GoType, p: Value, rest: set<string>, m: map<Key, GoValue>)
    requires t.MapT? && p.MapValue?
  {
    (forall s :: s in p.fields && s !in rest ==>
      UnstringifyMapKey(s, t.key).Some? && UnstringifyMapKey(s, t.key).value in m && Decode(t.elem, p.fields[s]).Some?)
    && forall k :: k in m ==> EnteredKey(t, p, rest, k, m[k])
  }

  ghost predicate EnteredKey(t: GoType, p: Value, rest: set<string>, k: Key, x: GoValue)
    requires t.MapT? && p.MapValue?
  {
    exists s :: s in p.fields && s !in rest && UnstringifyMapKey(s, t.key) == Some(k)
      && Possible(t.elem, p.fields[s], x)
  }

  lemma EnteredMore(t: GoType, p: Value, rest: set<string>, m: map<Key, GoValue>, s: string, k: Key, x: GoValue)
    requires t.MapT? && p.MapValue? && Entered(t, p, rest, m) && s in p.fields && s in rest
    requires UnstringifyMapKey(s, t.key) == Some(k) && Outcome(t.elem, p.fields[s], Some(x))
    ensures Entered(t, p, rest - {s}, m[k := x])
  {
    hide UnstringifyMapKey, Decode, Possible;
    var after := m[k := x];
    forall l | l in after ensures EnteredKey(t, p, rest - {s}, l, after[l]) {
      if l != k {
        var u :| u in p.fields && u !in rest && UnstringifyMapKey(u, t.key) == Some(l)
          && Possible(t.elem, p.fields[u], m[l]);
        assert u !in rest - {s};
      }
    }
  }

  lemma EnteredAll(t: GoType, p: Value, m: map<Key, GoValue>)
    requires t.MapT? && p.MapValue? && Entered(t, p, {}, m)
    ensures Outcome(t, p, Some(MapV(m)))
  {
    MapDecodesIff(t, p);
    PossibleMap(t, p, MapV(m));
    hide UnstringifyMapKey, Decode, Possible, ParsedKeys;
    forall k | k in m ensures EntryPossible(t, p, k, m[k]) {
      assert EnteredKey(t, p, {}, k, m[k]);
    }
    assert m.Keys == ParsedKeys(p.fields.Keys, t.key);
  }

  lemma EnteredNone(t: GoType, p: Value)
    requires t.MapT? && p.MapValue?
    ensures Entered(t, p, p.fields.Keys, map[])
  {
  }

  lemma MapFails(t: GoType, p: Value, s: string, x: Option<GoValue>)
    requires t.MapT? && p.MapValue? && s in p.fields && Outcome(t.elem, p.fields[s], x)
    requires x == None || UnstringifyMapKey(s, t.key) == None
    ensures Outcome(t, p, None)
  {
    MapDecodesIff(t, p);
    hide UnstringifyMapKey, Decode, Possible;
  }

  /** Decodes the entries in any order. */
  method DecodeMap(t: GoType, p: Value) returns (r: Option<GoValue>)
    requires GoodType(t) && p.MapValue? && t.MapT?
    ensures Outcome(t, p, r)
    decreases t, p, 0
  {
    assert GoodType(t.elem);
    hide *;
    var m: map<Key, GoValue> := map[];
    var rest := p.fields.Keys;
    EnteredNone(t, p);
    while rest != {}
      invariant rest <= p.fields.Keys && Entered(t, p, rest, m)
      decreases rest
    {
      var s :| s in rest;
      var x := DecodeValue(t.elem, p.fields[s]);
      if x == None {
        MapFails(t, p, s, x);
        return None;
      }
      var k := UnstringifyMapKey(s, t.key);
      if k == None {
        MapFails(t, p, s, x);
        return None;
      }
      EnteredMore(t, p, rest, m, s, k.value, x.value);
      m := m[k.value := x.value];
      rest := rest - {s};
    }
    EnteredAll(t, p, m);
    r := Some(MapV(m));
  }

  /** The field of that name. */
  method MatchExact(fs: seq<Field>, name: string) returns (i: nat)
    ensures i <= |fs| && (i < |fs| ==> fs[i].name == name) && (i == |fs| ==> !IsFieldName(fs, name))
  {
    i := 0;
    while i < |fs|
      invariant i <= |fs| && forall j :: 0 <= j < i ==> fs[j].name != name
    {
      if fs[i].name == name { return; }
      i := i + 1;
    }
  }

  /** The struct is decoded exactly when all names are those of fields and all fields are decoded. */
  lemma StructDecodesIff(t: GoType, p: Value)
    requires t.StructT? && p.MapValue?
    ensures Decode(t, p).Some? <==>
      (forall s :: s in p.fields ==> IsFieldName(t.fields, s))
      && forall i :: 0 <= i < |t.fields| && t.fields[i].name in p.fields ==>
        Decode(t.fields[i].typ, p.fields[t.fields[i].name]).Some?
  {
    hide IsFieldName;
    var ds := DecodeFields(t, p.fields);
    forall i | 0 <= i < |t.fields| && t.fields[i].name in p.fields
      ensures ds[i] == Decode(t.fields[i].typ, p.fields[t.fields[i].name])
    {
    }
  }

  /** The fields whose names were met are decoded, and the others are zero. */
  ghost predicate FieldsSet(t: GoType, p: Value, rest: set<string>, values: seq<GoValue>)
    requires t.StructT? && p.MapValue?
  {
    |values| == |t.fields|
    && (forall s :: s in p.fields && s !in rest ==> IsFieldName(t.fields, s))
    && forall i :: 0 <= i < |values| ==> FieldSet(t, p, rest, values, i)
  }

  ghost predicate FieldSet(t: GoType, p: Value, rest: set<string>, values: seq<GoValue>, i: nat)
    requires t.StructT? && p.MapValue? && |values| == |t.fields| && i < |values|
  {
    var f := t.fields[i];
    if f.name in p.fields && f.name !in rest then Outcome(f.typ, p.fields[f.name], Some(values[i]))
    else values[i] == Zero(f.typ)
  }

  lemma FieldsSetNone(t: GoType, p: Value, values: seq<GoValue>)
    requires t.StructT? && p.MapValue? && |values| == |t.fields|
    requires forall i :: 0 <= i < |values| ==> values[i] == Zero(t.fields[i].typ)
    ensures FieldsSet(t, p, p.fields.Keys, values)
  {
    hide Zero, Outcome;
  }

  lemma FieldsSetMore(t: GoType, p: Value, rest: set<string>, values: seq<GoValue>, s: string, i: nat, x: GoValue)
    requires t.StructT? && p.MapValue? && FieldsSet(t, p, rest, values) && s in p.fields && s in rest
    requires DistinctFields(t.fields) && i < |values| && t.fields[i].name == s
    requires Outcome(t.fields[i].typ, p.fields[s], Some(x))
    ensures FieldsSet(t, p, rest - {s}, values[i := x])
  {
    hide Outcome, Zero;
    assert IsFieldName(t.fields, s);
    var after := values[i := x];
    forall j | 0 <= j < |values| ensures FieldSet(t, p, rest - {s}, after, j) {
      assert FieldSet(t, p, rest, values, j);
      assert j != i ==> t.fields[j].name != s;
    }
  }

  lemma FieldsSetAll(t: GoType, p: Value, values: seq<GoValue>)
    requires t.StructT? && p.MapValue? && FieldsSet(t, p, {}, values)
    ensures Outcome(t, p, Some(StructV(values)))
  {
    assert forall s :: s in p.fields ==> IsFieldName(t.fields, s);
    assert |values| == |t.fields|;
    forall i | 0 <= i < |values| ensures FieldSet(t, p, {}, values, i) {}
    hide *;
    forall i | 0 <= i < |values| ensures FieldDone(t, p, values, i) { FieldIsDone(t, p, values, i); }
    StructDone(t, p, values);
  }

  /** A field that is decoded, or absent and zero. */
  ghost predicate FieldDone(t: GoType, p: Value, values: seq<GoValue>, i: nat)
    requires t.StructT? && p.MapValue? && i < |values| == |t.fields|
  {
    var f := t.fields[i];
    if f.name in p.fields then Decode(f.typ, p.fields[f.name]).Some? && Possible(f.typ, p.fields[f.name], values[i])
    else values[i] == Zero(f.typ)
  }

  lemma FieldIsDone(t: GoType, p: Value, values: seq<GoValue>, i: nat)
    requires t.StructT? && p.MapValue? && i < |values| == |t.fields| && FieldSet(t, p, {}, values, i)
    ensures FieldDone(t, p, values, i)
  {
    hide Decode, Possible;
  }

  lemma StructDone(t: GoType, p: Value, values: seq<GoValue>)
    requires t.StructT? && p.MapValue? && |values| == |t.fields|
    requires forall s :: s in p.fields ==> IsFieldName(t.fields, s)
    requires forall i :: 0 <= i < |values| ==> FieldDone(t, p, values, i)
    ensures Outcome(t, p, Some(StructV(values)))
  {
    hide Decode, Possible, IsFieldName, FieldDone;
    StructDoneDecodes(t, p, values);
    StructDonePossible(t, p, values);
  }

  lemma StructDoneDecodes(t: GoType, p: Value, values: seq<GoValue>)
    requires t.StructT? && p.MapValue? && |values| == |t.fields|
    requires forall s :: s in p.fields ==> IsFieldName(t.fields, s)
    requires forall i :: 0 <= i < |values| ==> FieldDone(t, p, values, i)
    ensures Decode(t, p).Some?
  {
    hide Decode, Possible, IsFieldName;
    forall i | 0 <= i < |t.fields| && t.fields[i].name in p.fields
      ensures Decode(t.fields[i].typ, p.fields[t.fields[i].name]).Some?
    {
      assert FieldDone(t, p, values, i);
    }
    hide *;
    StructDecodesIff(t, p);
  }

  lemma StructDonePossible(t: GoType, p: Value, values: seq<GoValue>)
    requires t.StructT? && p.MapValue? && |values| == |t.fields|
    requires forall i :: 0 <= i < |values| ==> FieldDone(t, p, values, i)
    ensures Possible(t, p, StructV(values))
  {
    hide Decode, Possible, Zero;
    forall i | 0 <= i < |t.fields|
      ensures t.fields[i].name in p.fields ==> Possible(t.fields[i].typ, p.fields[t.fields[i].name], values[i])
      ensures t.fields[i].name !in p.fields ==> values[i] == Zero(t.fields[i].typ)
    {
      assert FieldDone(t, p, values, i);
    }
    hide *;
    PossibleStruct(t, p, StructV(values));
  }

  lemma StructFails(t: GoType, p: Value, s: string, i: nat)
    requires t.StructT? && p.MapValue? && s in p.fields && i <= |t.fields|
    requires if i == |t.fields| then !IsFieldName(t.fields, s)
      else t.fields[i].name == s && Outcome(t.fields[i].typ, p.fields[s], None)
    ensures Outcome(t, p, None)
  {
    StructDecodesIff(t, p);
    hide IsFieldName, Decode, Possible;
  }

  lemma StructGood(t: GoType)
    requires t.StructT? && GoodType(t)
    ensures DistinctFields(t.fields) && forall i :: 0 <= i < |t.fields| ==> GoodType(t.fields[i].typ)
  {
  }

  /** Decodes the fields in any order; a name that is no field's is an error. */
  method DecodeStruct(t: GoType, p: Value) returns (r: Option<GoValue>)
    requires GoodType(t) && p.MapValue? && t.StructT?
    ensures Outcome(t, p, r)
    decreases t, p, 0
  {
    hide *;
    StructGood(t);
    var fs := t.fields;
    var values := seq(|fs|, i requires 0 <= i < |fs| => Zero(fs[i].typ));
    FieldsSetNone(t, p, values);
    var rest := p.fields.Keys;
    while rest != {}
      invariant rest <= p.fields.Keys && FieldsSet(t, p, rest, values) && |values| == |fs|
      decreases rest
    {
      var s :| s in rest;
      var i := MatchExact(fs, s);
      if i == |fs| {
        StructFails(t, p, s, i);
        return None;
      }
      var x := DecodeValue(fs[i].typ, p.fields[s]);
      if x == None {
        StructFails(t, p, s, i);
        return None;
      }
      FieldsSetMore(t, p, rest, values, s, i, x.value);
      values := values[i := x.value];
      rest := rest - {s};
    }
    FieldsSetAll(t, p, values);
    r := Some(StructV(values));
  }

  /** decodeValue of docstore/gcpfirestore/codec.go. */
  method DecodeAny(p: Value) returns (r: Option<GoValue>)
    ensures r == AnyOf(p)
    decreases p, 1
  {
    match p {
      case NullValue => r := Some(Nil);
      case BooleanValue(b) => r := Some(AnyV(BoolT, BoolV(b)));
      case IntegerValue(i) => r := Some(AnyV(IntT(W64), IntV(i)));
      case DoubleValue(d) => r := Some(AnyV(FloatT, FloatV(d)));
      case StringValue(s) => r := Some(AnyV(StringT, StringV(s)));
      case BytesValue(bs) => r := Some(AnyV(BYTES_T, ListV(FromBytes(bs))));
      case TimestampValue(x) => r := Some(AnyV(TimeT, TimeV(x)));
      case ReferenceValue(_) => r := None;
      case GeoPointValue(lat, lng) => r := Some(AnyV(LatLngT, LatLngV(lat, lng)));
      case ArrayValue(_) => r := DecodeAnyList(p);
      case MapValue(_) => r := DecodeAnyMap(p);
    }
  }

  method DecodeAnyList(p: Value) returns (r: Option<GoValue>)
    requires p.ArrayValue?
    ensures r == AnyOf(p)
    decreases p, 0
  {
    hide AnyOf;
    var elems: seq<GoValue> := [];
    for i := 0 to |p.elems|
      invariant |elems| == i && forall j :: 0 <= j < i ==> AnyElems(p)[j] == Some(elems[j])
    {
      var x := DecodeAny(p.elems[i]);
      if x == None {
        AnyListIs(p);
        assert AnyElems(p)[i] == None;
        return None;
      }
      elems := elems + [x.value];
    }
    AnyListIs(p);
    assert ValuesOf(AnyElems(p)) == elems;
    r := Some(AnyV(SliceT(AnyT), ListV(elems)));
  }

  lemma AnyListIs(p: Value)
    requires p.ArrayValue?
    ensures AnyOf(p) == if AllDecoded(AnyElems(p)) then Some(AnyV(SliceT(AnyT), ListV(ValuesOf(AnyElems(p))))) else None
  {
  }

  lemma AnyMapIs(p: Value)
    requires p.MapValue?
    ensures AnyOf(p) ==
      if AllValues(AnyValues(p)) then Some(AnyV(MapT(StringKey, AnyT), MapV(StringKeyed(Gathered(AnyValues(p))))))
        else None
  {
  }

  /** Decodes the entries in any order. */
  method DecodeAnyMap(p: Value) returns (r: Option<GoValue>)
    requires p.MapValue?
    ensures r == AnyOf(p)
    decreases p, 0
  {
    hide AnyOf, Gathered, StringKeyed, AnyValues;
    var entries: map<Key, GoValue> := map[];
    var rest := p.fields.Keys;
    while rest != {}
      invariant rest <= p.fields.Keys
      invariant forall s :: s in p.fields && s !in rest ==>
        StringK(s) in entries && AnyValues(p)[s] == Some(entries[StringK(s)])
      invariant forall k :: k in entries ==> k.StringK? && k.s in p.fields && k.s !in rest
      decreases rest
    {
      var s :| s in rest;
      var x := DecodeAny(p.fields[s]);
      if x == None {
        AnyMapIs(p);
        assert AnyValues(p)[s] == None;
        return None;
      }
      entries := entries[StringK(s) := x.value];
      rest := rest - {s};
    }
    AnyMapIs(p);
    assert AllValues(AnyValues(p));
    assert StringKeyed(Gathered(AnyValues(p))) == entries;
    r := Some(AnyV(MapT(StringKey, AnyT), MapV(entries)));
  }
}
