/** Which values the codec gives back. */
module Faithful {
  import opened Wrappers
  import opened Values
  import opened GoTypes
  import opened Codec

  // ---------------------------------------------------------------- values in interfaces

  /** A value in an interface of the type that decoding chooses, all the way down. */
  predicate Canonical(v: GoValue)
    decreases v
  {
    v == Nil
    || (v.AnyV?
        && match v.typ
           case BoolT => v.value.BoolV?
           case StringT => v.value.StringV?
           case FloatT => v.value.FloatV?
           case IntT(w) => w == W64 && v.value.IntV?
           case TimeT => v.value.TimeV?
           case LatLngT => v.value.LatLngV?
           case SliceT(e) =>
             v.value.ListV?
             && (e == UintT(W8) || (e == AnyT && forall i :: 0 <= i < |v.value.elems| ==> Canonical(v.value.elems[i])))
           case MapT(kt, e) =>
             v.value.MapV? && kt == StringKey && e == AnyT
             && forall k :: k in v.value.entries ==> Canonical(v.value.entries[k])
           case _ => false)
  }

  /** Decoding into an interface gives canonical values only. */
  lemma {:induction false} AnyOfCanonical(p: Value)
    ensures AnyOf(p).Some? ==> Canonical(AnyOf(p).value)
    decreases p
  {
    if AnyOf(p).Some? {
      match p
      case ArrayValue(ps) => forall i | 0 <= i < |ps| { AnyOfCanonical(ps[i]); }
      case MapValue(m) => forall s | s in m { AnyOfCanonical(m[s]); }
      case _ =>
    }
  }

  /** Encoding a canonical value does not panic: it has no pointers. */
  lemma {:induction false} CanonicalSafe(v: GoValue)
    requires HasType(AnyT, v) && Canonical(v)
    ensures CanEncode(AnyT, v)
    decreases v
  {
    if v.AnyV? && v.typ == SliceT(AnyT) {
      forall i | 0 <= i < |v.value.elems| ensures Safe(AnyT, v.value.elems[i]) { CanonicalSafe(v.value.elems[i]); }
    } else if v.AnyV? && v.typ.MapT? {
      forall k | k in v.value.entries ensures Safe(AnyT, v.value.entries[k]) { CanonicalSafe(v.value.entries[k]); }
    } else if v.AnyV? && v.typ == BYTES_T {
      BytesTyped(v.value);
      assert Safe(v.typ, v.value);
    }
  }

  /** Canonical values come back as they were. */
  lemma {:induction false} CanonicalKept(v: GoValue)
    requires CanEncode(AnyT, v) && Canonical(v)
    ensures AnyOf(Encode(AnyT, v)) == Some(v)
    decreases v, 1
  {
    if v.AnyV? && v.typ == SliceT(AnyT) {
      CanonicalListKept(v);
    } else if v.AnyV? && v.typ.MapT? {
      CanonicalMapKept(v);
    } else if v.AnyV? && v.typ == BYTES_T {
      BytesTyped(v.value);
      BytesRoundTrip(v.value.elems);
    }
  }

  lemma BytesTyped(v: GoValue)
    requires HasType(BYTES_T, v) && v.ListV?
    ensures forall i :: 0 <= i < |v.elems| ==> HasType(UintT(W8), v.elems[i]) && v.elems[i].UintV?
    ensures Safe(BYTES_T, v)
  {
    forall i | 0 <= i < |v.elems| ensures v.elems[i].UintV? && Safe(UintT(W8), v.elems[i]) {
      assert HasType(UintT(W8), v.elems[i]);
    }
  }

  lemma {:induction false} CanonicalListKept(v: GoValue)
    requires CanEncode(AnyT, v) && Canonical(v) && v.AnyV? && v.typ == SliceT(AnyT)
    ensures AnyOf(Encode(AnyT, v)) == Some(v)
    decreases v, 0
  {
    ListEncoding(v.typ, v.value);
    var p := Encode(v.typ, v.value);
    forall i | 0 <= i < |v.value.elems| ensures AnyElems(p)[i] == Some(v.value.elems[i]) {
      CanonicalKept(v.value.elems[i]);
    }
    assert ValuesOf(AnyElems(p)) == v.value.elems;
  }

  lemma {:induction false} CanonicalMapKept(v: GoValue)
    requires CanEncode(AnyT, v) && Canonical(v) && v.AnyV? && v.typ.MapT?
    ensures AnyOf(Encode(AnyT, v)) == Some(v)
    decreases v, 0
  {
    CanonicalEntries(v);
    MapEncoding(v.typ, v.value);
    hide *;
    var p, m := Encode(v.typ, v.value), v.value.entries;
    forall k | k in m ensures k.s in p.fields && AnyOf(p.fields[k.s]) == Some(m[k]) {
      CanonicalKept(m[k]);
    }
    AnyOfEntries(p, m);
  }

  /** The keys of a canonical map are printed as they are, and its values are canonical. */
  lemma CanonicalEntries(v: GoValue)
    requires CanEncode(AnyT, v) && Canonical(v) && v.AnyV? && v.typ.MapT?
    ensures v.typ == MapT(StringKey, AnyT) && v.value.MapV? && CanEncode(v.typ, v.value)
    ensures Encode(AnyT, v) == Encode(v.typ, v.value)
    ensures forall k :: k in v.value.entries ==>
      k.StringK? && StringifyMapKey(k) == k.s && CanEncode(AnyT, v.value.entries[k]) && Canonical(v.value.entries[k])
    ensures v == AnyV(MapT(StringKey, AnyT), MapV(v.value.entries))
  {
    hide Encode;
    AnyEncoding(v);
  }

  lemma AnyEncoding(v: GoValue)
    requires CanEncode(AnyT, v) && v.AnyV?
    ensures CanEncode(v.typ, v.value) && Encode(AnyT, v) == Encode(v.typ, v.value)
  {
  }

  lemma AnyOfMapIs(p: Value)
    requires p.MapValue?
    ensures AnyOf(p) ==
      if AllValues(AnyValues(p)) then Some(AnyV(MapT(StringKey, AnyT), MapV(StringKeyed(Gathered(AnyValues(p))))))
        else None
    ensures AllValues(AnyValues(p)) <==> forall s :: s in p.fields ==> AnyOf(p.fields[s]).Some?
  {
    hide AnyValues, StringKeyed, Gathered;
  }

  lemma StringKeysPrinted(m: map<Key, GoValue>)
    requires forall k :: k in m ==> k.StringK?
    ensures forall k :: k in m ==> StringifyMapKey(k) == k.s && StringK(k.s) == k
  {
  }

  lemma AnyOfEntries(p: Value, m: map<Key, GoValue>)
    requires p.MapValue? && forall k :: k in m ==> k.StringK? && k.s in p.fields && AnyOf(p.fields[k.s]) == Some(m[k])
    requires forall s :: s in p.fields ==> exists k :: k in m && StringifyMapKey(k) == s
    ensures AnyOf(p) == Some(AnyV(MapT(StringKey, AnyT), MapV(m)))
  {
    hide *;
    StringKeysPrinted(m);
    AnyOfMapIs(p);
    forall s | s in p.fields ensures StringK(s) in m && AnyOf(p.fields[s]) == Some(m[StringK(s)]) {
      var k :| k in m && StringifyMapKey(k) == s;
    }
    assert StringKeyed(Gathered(AnyValues(p))) == m;
  }

  /** A value in an interface comes back as it was exactly when it is canonical. */
  lemma AnyExact(v: GoValue)
    requires HasType(AnyT, v)
    ensures CanEncode(AnyT, v) && AnyOf(Encode(AnyT, v)) == Some(v) <==> Canonical(v)
  {
    if Canonical(v) {
      CanonicalSafe(v);
      CanonicalKept(v);
    } else if CanEncode(AnyT, v) {
      AnyOfCanonical(Encode(AnyT, v));
    }
  }

  // ---------------------------------------------------------------- values of any type

  /** The value itself, but with nil for empty slices, and zero for the empty fields that are omitted. */
  ghost function Normal(t: GoType, v: GoValue): GoValue
    requires HasType(t, v)
    decreases v
  {
    match v
    case ListV(elems) =>
      if t == BYTES_T then v
      else if t.SliceT? && elems == [] then Nil
      else ListV(seq(|elems|, i requires 0 <= i < |elems| => Normal(t.elem, elems[i])))
    case MapV(entries) => MapV(map k | k in entries :: Normal(t.elem, entries[k]))
    case PointerV(e) => PointerV(Normal(t.elem, e))
    case StructV(values) =>
      StructV(seq(|values|, i requires 0 <= i < |values| =>
        if Omitted(t.fields[i], values[i]) then Zero(t.fields[i].typ) else Normal(t.fields[i].typ, values[i])))
    case _ => v
  }

  /** Equal, up to what is empty: nil, an empty slice or an empty map. */
  predicate SameUpToEmpty(v: GoValue, w: GoValue)
    decreases v
  {
    v == w || (v.ListV? && v.elems == [] && w == Nil) || (v.MapV? && v.entries == map[] && w == Nil)
    || (v.ListV? && w.ListV? && |v.elems| == |w.elems|
        && forall i :: 0 <= i < |v.elems| ==> SameUpToEmpty(v.elems[i], w.elems[i]))
    || (v.MapV? && w.MapV? && v.entries.Keys == w.entries.Keys
        && forall k :: k in v.entries ==> SameUpToEmpty(v.entries[k], w.entries[k]))
    || (v.PointerV? && w.PointerV? && SameUpToEmpty(v.elem, w.elem))
    || (v.StructV? && w.StructV? && |v.values| == |w.values|
        && forall i :: 0 <= i < |v.values| ==> SameUpToEmpty(v.values[i], w.values[i]))
  }

  /** Only what is empty is the same as nil. */
  lemma SameAsNil(v: GoValue)
    ensures SameUpToEmpty(v, Nil) <==>
      v == Nil || (v.ListV? && |v.elems| == 0) || (v.MapV? && |v.entries| == 0)
  {
  }

  /** Nothing in the value is empty. */
  predicate NoneEmpty(v: GoValue)
    decreases v
  {
    match v
    case ListV(elems) => elems != [] && forall i :: 0 <= i < |elems| ==> NoneEmpty(elems[i])
    case MapV(entries) => entries != map[] && forall k :: k in entries ==> NoneEmpty(entries[k])
    case PointerV(e) => NoneEmpty(e)
    case StructV(values) => forall i :: 0 <= i < |values| ==> NoneEmpty(values[i])
    case _ => true
  }

  /** And without anything empty, being the same is being equal. */
  lemma {:induction false} SameIsEqual(v: GoValue, w: GoValue)
    requires NoneEmpty(v)
    ensures SameUpToEmpty(v, w) <==> v == w
    decreases v
  {
    if SameUpToEmpty(v, w) {
      match v
      case ListV(elems) =>
        forall i | 0 <= i < |elems| ensures elems[i] == w.elems[i] { SameIsEqual(elems[i], w.elems[i]); }
        assert v.elems == w.elems;
      case MapV(entries) =>
        forall k | k in entries ensures entries[k] == w.entries[k] { SameIsEqual(entries[k], w.entries[k]); }
        assert v.entries == w.entries;
      case PointerV(e) => SameIsEqual(e, w.elem);
      case StructV(values) =>
        forall i | 0 <= i < |values| ensures values[i] == w.values[i] { SameIsEqual(values[i], w.values[i]); }
        assert v.values == w.values;
      case _ =>
    }
  }

  lemma OmittedIsZero(t: GoType, v: GoValue)
    requires HasType(t, v) && IsEmptyValue(v)
    ensures SameUpToEmpty(v, Zero(t))
  {
  }

  lemma {:induction false} NormalIsSame(t: GoType, v: GoValue)
    requires HasType(t, v)
    ensures SameUpToEmpty(v, Normal(t, v))
    decreases v
  {
    match v
    case ListV(elems) =>
      if t != BYTES_T {
        forall i | 0 <= i < |elems| { NormalIsSame(t.elem, elems[i]); }
      }
    case MapV(entries) => forall k | k in entries { NormalIsSame(t.elem, entries[k]); }
    case PointerV(e) => NormalIsSame(t.elem, e);
    case StructV(values) =>
      forall i | 0 <= i < |values| ensures SameUpToEmpty(values[i], Normal(t, v).values[i]) {
        if Omitted(t.fields[i], values[i]) {
          OmittedIsZero(t.fields[i].typ, values[i]);
        } else {
          NormalIsSame(t.fields[i].typ, values[i]);
        }
      }
    case _ =>
  }

  /** No pointer leads to nil or to a time.Time, and every interface holds a canonical value, except in
      omitted fields. */
  predicate Clean(t: GoType, v: GoValue)
    requires HasType(t, v)
    decreases v
  {
    match v
    case Nil => t != PointerT(TimeT)
    case ListV(elems) => t == BYTES_T || forall i :: 0 <= i < |elems| ==> Clean(t.elem, elems[i])
    case MapV(entries) => forall k :: k in entries ==> Clean(t.elem, entries[k])
    case PointerV(e) => !e.TimeV? && !EncodesNull(e) && Clean(t.elem, e)
    case StructV(values) =>
      forall i :: 0 <= i < |values| ==> Omitted(t.fields[i], values[i]) || Clean(t.fields[i].typ, values[i])
    case AnyV(_, _) => Canonical(v)
    case _ => true
  }

  /** Encoding a clean value does not panic. */
  lemma {:induction false} CleanSafe(t: GoType, v: GoValue)
    requires HasType(t, v) && Clean(t, v)
    ensures Safe(t, v)
    decreases v
  {
    match v
    case ListV(elems) =>
      if t == BYTES_T {
        forall i | 0 <= i < |elems| ensures Safe(t.elem, elems[i]) { assert HasType(UintT(W8), elems[i]); }
      } else {
        forall i | 0 <= i < |elems| ensures Safe(t.elem, elems[i]) { CleanSafe(t.elem, elems[i]); }
      }
    case MapV(entries) => forall k | k in entries ensures Safe(t.elem, entries[k]) { CleanSafe(t.elem, entries[k]); }
    case PointerV(e) => CleanSafe(t.elem, e);
    case StructV(values) =>
      forall i | 0 <= i < |values| && !Omitted(t.fields[i], values[i]) ensures Safe(t.fields[i].typ, values[i]) {
        CleanSafe(t.fields[i].typ, values[i]);
      }
    case AnyV(_, _) => CanonicalSafe(v);
    case _ =>
  }

  /** The decoded form is the original, up to nil for empty, exactly for clean values. */
  lemma {:induction false} CleanIff(t: GoType, v: GoValue)
    requires CanEncode(t, v)
    ensures CanEncode(t, v) && HasType(t, v)
    ensures Decoded(t, v) == Some(Normal(t, v)) <==> Clean(t, v)
    decreases v, 1
  {
    Typed(t, v);
    hide *;
    if v.ListV? && t != BYTES_T {
      CleanList(t, v);
    } else if v.MapV? {
      CleanMap(t, v);
    } else if v.PointerV? {
      CleanPointer(t, v);
    } else if v.StructV? {
      CleanStruct(t, v);
    } else if v.AnyV? {
      CleanAny(t, v);
    } else {
      CleanScalar(t, v);
    }
  }

  lemma Typed(t: GoType, v: GoValue)
    requires CanEncode(t, v)
    ensures HasType(t, v)
  {
  }

  lemma CleanScalar(t: GoType, v: GoValue)
    requires CanEncode(t, v) && (v.ListV? ==> t == BYTES_T)
    requires !v.MapV? && !v.PointerV? && !v.StructV? && !v.AnyV?
    ensures HasType(t, v) && Decoded(t, v) == Some(Normal(t, v)) && Clean(t, v)
  {
  }

  lemma CleanPointerParts(t: GoType, v: GoValue)
    requires CanEncode(t, v) && v.PointerV?
    ensures HasType(t, v) && HasType(t.elem, v.elem) && Normal(t, v) == PointerV(Normal(t.elem, v.elem))
    ensures Clean(t, v) <==> !v.elem.TimeV? && !EncodesNull(v.elem) && Clean(t.elem, v.elem)
  {
  }

  lemma {:induction false} CleanPointer(t: GoType, v: GoValue)
    requires CanEncode(t, v) && HasType(t, v) && v.PointerV?
    ensures Decoded(t, v) == Some(Normal(t, v)) <==> Clean(t, v)
    decreases v, 0
  {
    hide Decoded, Normal, Clean, CanEncode, HasType, EncodesNull;
    PointerParts(t, v);
    CleanPointerParts(t, v);
    CleanIff(t.elem, v.elem);
  }

  lemma CleanAny(t: GoType, v: GoValue)
    requires CanEncode(t, v) && HasType(t, v) && v.AnyV?
    ensures Decoded(t, v) == Some(Normal(t, v)) <==> Clean(t, v)
  {
    AnyExact(v);
    AnyEncoding(v);
  }

  lemma SameElements(ds: seq<Option<GoValue>>, b: seq<GoValue>)
    requires |ds| == |b|
    ensures AllDecoded(ds) && ValuesOf(ds) == b <==> forall i :: 0 <= i < |ds| ==> ds[i] == Some(b[i])
  {
  }

  lemma SameEntries(ds: map<Key, Option<GoValue>>, b: map<Key, GoValue>)
    requires ds.Keys == b.Keys
    ensures AllEntries(ds) && EntriesOf(ds) == b <==> forall k :: k in ds ==> ds[k] == Some(b[k])
  {
    if forall k :: k in ds ==> ds[k] == Some(b[k]) { assert EntriesOf(ds) == b; }
  }

  lemma NormalList(t: GoType, v: GoValue)
    requires HasType(t, v) && v.ListV? && t != BYTES_T
    ensures t.SliceT? || t.ArrayT?
    ensures t.SliceT? && v.elems == [] ==> Normal(t, v) == Nil
    ensures forall i :: 0 <= i < |v.elems| ==> HasType(t.elem, v.elems[i])
    ensures !(t.SliceT? && v.elems == []) ==>
      Normal(t, v).ListV? && |Normal(t, v).elems| == |v.elems|
      && forall i :: 0 <= i < |v.elems| ==> Normal(t, v).elems[i] == Normal(t.elem, v.elems[i])
    ensures Clean(t, v) <==> forall i :: 0 <= i < |v.elems| ==> Clean(t.elem, v.elems[i])
  {
  }

  lemma {:induction false} CleanList(t: GoType, v: GoValue)
    requires CanEncode(t, v) && HasType(t, v) && v.ListV? && t != BYTES_T
    ensures Decoded(t, v) == Some(Normal(t, v)) <==> Clean(t, v)
    decreases v, 0
  {
    hide *;
    DecodedList(t, v);
    NormalList(t, v);
    if !(t.SliceT? && v.elems == []) {
      var ds, n := DecodedElems(t, v), Normal(t, v);
      forall i | 0 <= i < |v.elems| ensures ds[i] == Some(n.elems[i]) <==> Clean(t.elem, v.elems[i]) {
        CleanIff(t.elem, v.elems[i]);
      }
      SameElements(ds, n.elems);
      assert n == ListV(n.elems);
    }
  }

  lemma NormalMap(t: GoType, v: GoValue)
    requires HasType(t, v) && v.MapV?
    ensures t.MapT? && forall k :: k in v.entries ==> HasType(t.elem, v.entries[k])
    ensures Normal(t, v).MapV? && Normal(t, v).entries.Keys == v.entries.Keys
    ensures forall k :: k in v.entries ==> Normal(t, v).entries[k] == Normal(t.elem, v.entries[k])
    ensures Clean(t, v) <==> forall k :: k in v.entries ==> Clean(t.elem, v.entries[k])
  {
  }

  lemma {:induction false} CleanMap(t: GoType, v: GoValue)
    requires CanEncode(t, v) && HasType(t, v) && v.MapV?
    ensures Decoded(t, v) == Some(Normal(t, v)) <==> Clean(t, v)
    decreases v, 0
  {
    hide *;
    DecodedMap(t, v);
    NormalMap(t, v);
    var ds, n := DecodedEntries(t, v), Normal(t, v);
    forall k | k in v.entries ensures ds[k] == Some(n.entries[k]) <==> Clean(t.elem, v.entries[k]) {
      CleanIff(t.elem, v.entries[k]);
    }
    SameEntries(ds, n.entries);
    assert n == MapV(n.entries);
  }

  lemma NormalStruct(t: GoType, v: GoValue)
    requires HasType(t, v) && v.StructV?
    ensures t.StructT? && Normal(t, v).StructV? && |Normal(t, v).values| == |v.values| == |t.fields|
    ensures forall i :: 0 <= i < |v.values| ==> HasType(t.fields[i].typ, v.values[i])
    ensures forall i :: 0 <= i < |v.values| ==> (Normal(t, v).values[i]
      == if Omitted(t.fields[i], v.values[i]) then Zero(t.fields[i].typ) else Normal(t.fields[i].typ, v.values[i]))
    ensures Clean(t, v) <==>
      forall i :: 0 <= i < |v.values| ==> Omitted(t.fields[i], v.values[i]) || Clean(t.fields[i].typ, v.values[i])
  {
  }

  lemma {:induction false} CleanStruct(t: GoType, v: GoValue)
    requires CanEncode(t, v) && HasType(t, v) && v.StructV?
    ensures Decoded(t, v) == Some(Normal(t, v)) <==> Clean(t, v)
    decreases v, 0
  {
    hide *;
    DecodedStruct(t, v);
    NormalStruct(t, v);
    var ds, n := DecodedFields(t, v), Normal(t, v);
    forall i | 0 <= i < |v.values|
      ensures ds[i] == Some(n.values[i]) <==> Omitted(t.fields[i], v.values[i]) || Clean(t.fields[i].typ, v.values[i])
    {
      if !Omitted(t.fields[i], v.values[i]) { CleanIff(t.fields[i].typ, v.values[i]); }
    }
    SameElements(ds, n.values);
    assert n == StructV(n.values);
  }

  /** Encoding does not panic, and decoding into a fresh variable gives the original, up to nil for empty. */
  ghost predicate ComesBack(t: GoType, v: GoValue)
    requires HasType(t, v)
  {
    CanEncode(t, v) && Decode(t, Encode(t, v)) == Some(Normal(t, v))
  }

  /** The round trip: the clean values are exactly those that come back. */
  lemma RoundTrip(t: GoType, v: GoValue)
    requires HasType(t, v) && GoodType(t)
    ensures ComesBack(t, v) <==> Clean(t, v)
    ensures SameUpToEmpty(v, Normal(t, v))
  {
    hide Decode, Encode, Normal, Clean, SameUpToEmpty, HasType, GoodType, Safe;
    NormalIsSame(t, v);
    if Clean(t, v) { CleanSafe(t, v); }
    if CanEncode(t, v) {
      DecodeOfEncoded(t, v);
      CleanIff(t, v);
    }
  }

  /** A pointer to a nil slice comes back as a nil pointer. */
  lemma PointerToNilExample() returns (t: GoType, v: GoValue)
    ensures HasType(t, v) && CanEncode(t, v) && v == PointerV(Nil) && Decode(t, Encode(t, v)) == Some(Nil)
    ensures !ComesBack(t, v)
  {
    t, v := PointerT(SliceT(BoolT)), PointerV(Nil);
    DecodeOfEncoded(t, v);
  }

  /** A pointer to a time.Time is encoded as bytes and then cannot be decoded; a nil one cannot be encoded. */
  lemma TimePointerExample(x: int)
    ensures
      var t, v := PointerT(TimeT), PointerV(TimeV(x));
      CanEncode(t, v) && Encode(t, v) == BytesValue(MarshalTime(x)) && Decode(t, Encode(t, v)) == None
      && !CanEncode(t, Nil) && HasType(t, Nil)
  {
    PointerParts(PointerT(TimeT), PointerV(TimeV(x)));
  }
}
