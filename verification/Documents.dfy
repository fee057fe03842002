/** Whole documents: encodeDoc and decodeDoc of docstore/gcpfirestore/codec.go, which keep the name of a document
    out of its fields and restore it from the document's path. */
module Documents {
  import opened Wrappers
  import opened Values
  import opened GoTypes
  import opened Codec
  import opened Faithful

  // ---------------------------------------------------------------- path.Base

  function StripSlashes(s: string): string {
    if s != "" && s[|s|-1] == '/' then StripSlashes(s[..|s|-1]) else s
  }

  /** What follows the last slash. */
  function AfterSlash(s: string): (r: string)
    ensures '/' !in r
  {
    if s == "" || s[|s|-1] == '/' then "" else AfterSlash(s[..|s|-1]) + [s[|s|-1]]
  }

  function Base(path: string): (r: string)
    ensures r != "" && (r == "/" || '/' !in r)
  {
    if path == "" then "."
    else
      var b := AfterSlash(StripSlashes(path));
      if b == "" then "/" else b
  }

  predicate AllSlashes(s: string) {
    forall c :: c in s ==> c == '/'
  }

  lemma {:induction false} StripKeepsOthers(s: string)
    requires !AllSlashes(s)
    ensures StripSlashes(s) != "" && StripSlashes(s)[|StripSlashes(s)|-1] != '/'
  {
    assert s != "";
    if s[|s|-1] == '/' {
      var c :| c in s && c != '/';
      assert s == s[..|s|-1] + [s[|s|-1]];
      assert c in s[..|s|-1];
      StripKeepsOthers(s[..|s|-1]);
    }
  }

  lemma {:induction false} AfterSlashOf(prefix: string, name: string)
    requires '/' !in name
    ensures AfterSlash(prefix + "/" + name) == name
  {
    var s := prefix + "/" + name;
    if name != "" {
      assert s[..|s|-1] == prefix + "/" + name[..|name|-1];
      assert name[|name|-1] in name;
      AfterSlashOf(prefix, name[..|name|-1]);
    }
  }

  /** The base of a document's path is its name exactly when the name is not empty and has no slash. */
  lemma BaseOfPath(coll: string, name: string)
    requires !AllSlashes(coll)
    ensures Base(coll + "/" + name) == name <==> name != "" && '/' !in name
  {
    var s := coll + "/" + name;
    if name != "" && '/' !in name {
      assert name[|name|-1] in name;
      AfterSlashOf(coll, name);
    } else if name == "/" {
      var c :| c in coll && c != '/';
      assert c in s;
      StripKeepsOthers(s);
    }
  }

  // ---------------------------------------------------------------- documents

  datatype PbDocument = PbDocument(name: string, fields: Fields)

  /** A document is a struct, or a map from strings to anything. */
  predicate IsDocType(t: GoType) {
    t.StructT? || t == MapT(StringKey, AnyT)
  }

  ghost predicate NameAt(t: GoType, values: seq<GoValue>, i: nat, nameField: string, name: string) {
    t.StructT? && i < |values| == |t.fields|
    && t.fields[i].name == nameField && t.fields[i].typ == StringT && values[i] == StringV(name)
  }

  /** The value's name field holds this name. */
  ghost predicate HasName(t: GoType, v: GoValue, nameField: string, name: string) {
    (v.StructV? && exists i: nat :: NameAt(t, v.values, i, nameField, name))
    || (t == MapT(StringKey, AnyT) && v.MapV? && StringK(nameField) in v.entries
        && v.entries[StringK(nameField)] == AnyV(StringT, StringV(name)))
  }

  ghost function EncodeDoc(t: GoType, v: GoValue, path: string, nameField: string): PbDocument
    requires CanEncode(t, v) && (v.StructV? || v.MapV?)
  {
    var fields := Encode(t, v).fields;
    PbDocument(path, if nameField != "" then fields - {nameField} else fields)
  }

  /** A document is stored under its path, with all encoded fields but that for its name. */
  lemma DocStored(t: GoType, v: GoValue, path: string, nameField: string, s: string)
    requires CanEncode(t, v) && (v.StructV? || v.MapV?)
    ensures Encode(t, v).MapValue? && EncodeDoc(t, v, path, nameField).name == path
    ensures
      var stored, fields := EncodeDoc(t, v, path, nameField).fields, Encode(t, v).fields;
      (s in stored <==> s in fields && (s != nameField || nameField == ""))
      && (s in stored ==> stored[s] == fields[s])
  {
    hide CanEncode, HasType;
  }

  ghost function DecodeDoc(t: GoType, doc: PbDocument, nameField: string): Option<GoValue> {
    Decode(t, MapValue(if nameField != "" then doc.fields[nameField := StringValue(Base(doc.name))] else doc.fields))
  }

  lemma StringEncoding(name: string)
    ensures CanEncode(StringT, StringV(name)) && Encode(StringT, StringV(name)) == StringValue(name)
    ensures CanEncode(AnyT, AnyV(StringT, StringV(name)))
    ensures Encode(AnyT, AnyV(StringT, StringV(name))) == StringValue(name)
    ensures IsEmptyValue(StringV(name)) <==> name == ""
    ensures Decode(StringT, StringValue(name)) == Some(StringV(name))
    ensures Decode(AnyT, StringValue(name)) == Some(AnyV(StringT, StringV(name)))
    ensures Normal(StringT, StringV(name)) == StringV(name) == (if name == "" then Zero(StringT) else StringV(name))
    ensures Normal(AnyT, AnyV(StringT, StringV(name))) == AnyV(StringT, StringV(name))
  {
  }

  lemma NamedField(t: GoType, v: GoValue, nameField: string, name: string)
    requires CanEncode(t, v) && v.StructV? && HasName(t, v, nameField, name)
    ensures Encode(t, v).MapValue?
    ensures name != "" ==> nameField in Encode(t, v).fields
    ensures nameField in Encode(t, v).fields ==> Encode(t, v).fields[nameField] == StringValue(name)
    ensures HasType(t, v) && HasName(t, Normal(t, v), nameField, name)
  {
    hide *;
    Typed(t, v);
    StructEncoding(t, v);
    NormalStruct(t, v);
    StringEncoding(name);
    var i := NameIndex(t, v, nameField, name);
    NamedAtZero(t.fields[i], name);
    HasNameAt(t, Normal(t, v), i, nameField, name);
  }

  lemma NamedAtZero(f: Field, name: string)
    ensures Omitted(f, StringV(name)) ==> name == ""
  {
  }

  lemma NameIndex(t: GoType, v: GoValue, nameField: string, name: string) returns (i: nat)
    requires v.StructV? && HasName(t, v, nameField, name)
    ensures t.StructT? && i < |v.values| == |t.fields|
    ensures t.fields[i].name == nameField && t.fields[i].typ == StringT && v.values[i] == StringV(name)
  {
    i :| NameAt(t, v.values, i, nameField, name);
  }

  lemma HasNameAt(t: GoType, v: GoValue, i: nat, nameField: string, name: string)
    requires t.StructT? && v.StructV? && i < |v.values| == |t.fields|
    requires t.fields[i].name == nameField && t.fields[i].typ == StringT && v.values[i] == StringV(name)
    ensures HasName(t, v, nameField, name)
  {
    assert NameAt(t, v.values, i, nameField, name);
  }

  lemma NamedEntry(t: GoType, v: GoValue, nameField: string, name: string)
    requires CanEncode(t, v) && v.MapV? && HasName(t, v, nameField, name)
    ensures Encode(t, v).MapValue? && nameField in Encode(t, v).fields
    ensures Encode(t, v).fields[nameField] == StringValue(name)
    ensures HasType(t, v) && HasName(t, Normal(t, v), nameField, name)
  {
    MapEncoding(t, v);
    NormalMap(t, v);
    hide Encode, Normal, HasType, GoodType, CanEncode, Clean;
    StringEncoding(name);
    assert StringifyMapKey(StringK(nameField)) == nameField;
  }

  /** Encoding puts the name under the name field, unless it is empty and the field is omitted. */
  lemma EncodedName(t: GoType, v: GoValue, nameField: string, name: string)
    requires CanEncode(t, v) && HasName(t, v, nameField, name) && (v.StructV? || v.MapV?)
    ensures Encode(t, v).MapValue?
    ensures name != "" ==> nameField in Encode(t, v).fields
    ensures nameField in Encode(t, v).fields ==> Encode(t, v).fields[nameField] == StringValue(name)
    ensures HasType(t, v) && HasName(t, Normal(t, v), nameField, name)
  {
    hide *;
    if v.StructV? { NamedField(t, v, nameField, name); } else { NamedEntry(t, v, nameField, name); }
  }

  lemma StructGivesName(t: GoType, m: Fields, nameField: string, name: string, r: GoValue, other: string)
    requires t.StructT? && nameField in m && m[nameField] == StringValue(name)
    requires Decode(t, MapValue(m)) == Some(r) && HasName(t, r, nameField, other)
    ensures name == other
  {
    assert r == StructV(ValuesOf(DecodeFields(t, m)));
    hide Decode;
    StringEncoding(name);
    var i: nat :| NameAt(t, r.values, i, nameField, other);
    assert DecodeFields(t, m)[i] == Decode(StringT, StringValue(name));
  }

  lemma MapGivesName(m: Fields, nameField: string, name: string, r: GoValue, other: string)
    requires nameField in m && m[nameField] == StringValue(name)
    requires Decode(MapT(StringKey, AnyT), MapValue(m)) == Some(r)
    requires HasName(MapT(StringKey, AnyT), r, nameField, other)
    ensures name == other
  {
    var t := MapT(StringKey, AnyT);
    DecodeOfMap(t, MapValue(m));
    hide Decode;
    StringEncoding(name);
    assert DecodeValues(t, m)[nameField] == Some(AnyV(StringT, StringV(name)));
    assert UnstringifyMapKey(nameField, StringKey) == Some(StringK(nameField));
    assert r == MapV(ByKey(Gathered(DecodeValues(t, m)), StringKey));
  }

  /** A decoded document has the name that it was given. */
  lemma DecodeGivesName(t: GoType, m: Fields, nameField: string, name: string, r: GoValue, other: string)
    requires IsDocType(t) && nameField in m && m[nameField] == StringValue(name)
    requires Decode(t, MapValue(m)) == Some(r) && HasName(t, r, nameField, other)
    ensures name == other
  {
    if t.StructT? {
      hide *;
      StructGivesName(t, m, nameField, name, r, other);
    } else {
      assert t == MapT(StringKey, AnyT);
      hide *;
      MapGivesName(m, nameField, name, r, other);
    }
  }

  lemma DecodeDocIs(t: GoType, v: GoValue, path: string, nameField: string)
    requires CanEncode(t, v) && (v.StructV? || v.MapV?) && nameField != ""
    ensures Encode(t, v).MapValue?
    ensures DecodeDoc(t, EncodeDoc(t, v, path, nameField), nameField)
      == Decode(t, MapValue((Encode(t, v).fields - {nameField})[nameField := StringValue(Base(path))]))
  {
    hide Decode, Base;
  }

  /** Encoding does not panic, and decoding gives the document back, name and all, up to nil for empty. */
  ghost predicate DocComesBack(t: GoType, v: GoValue, path: string, nameField: string)
    requires HasType(t, v) && (v.StructV? || v.MapV?)
  {
    CanEncode(t, v) && DecodeDoc(t, EncodeDoc(t, v, path, nameField), nameField) == Some(Normal(t, v))
  }

  lemma EncodableDoc(t: GoType, v: GoValue, coll: string, nameField: string, name: string)
    requires CanEncode(t, v) && HasType(t, v) && IsDocType(t) && (v.StructV? || v.MapV?)
    requires nameField != "" && HasName(t, v, nameField, name) && !AllSlashes(coll)
    ensures DocComesBack(t, v, coll + "/" + name, nameField) <==> ComesBack(t, v) && name != "" && '/' !in name
  {
    hide Encode, Decode, Normal, CanEncode, HasType, HasName, IsDocType, Base, DecodeDoc, EncodeDoc;
    EncodedName(t, v, nameField, name);
    BaseOfPath(coll, name);
    DecodeDocIs(t, v, coll + "/" + name, nameField);
    var fields, base := Encode(t, v).fields, Base(coll + "/" + name);
    var m := (fields - {nameField})[nameField := StringValue(base)];
    if base == name {
      assert m == fields;
      assert Encode(t, v) == MapValue(m);
    } else if Decode(t, MapValue(m)) == Some(Normal(t, v)) {
      DecodeGivesName(t, m, nameField, base, Normal(t, v), name);
    }
  }

  /** A whole document comes back exactly when its value does, and its name is not empty and has no slash. */
  lemma DocRoundTrip(t: GoType, v: GoValue, coll: string, nameField: string, name: string)
    requires HasType(t, v) && GoodType(t) && (t.StructT? || t == MapT(StringKey, AnyT)) && (v.StructV? || v.MapV?)
    requires nameField != "" && HasName(t, v, nameField, name) && !AllSlashes(coll)
    ensures DocComesBack(t, v, coll + "/" + name, nameField) <==> Clean(t, v) && name != "" && '/' !in name
  {
    hide Encode, Decode, Normal, Clean, CanEncode, HasType, HasName, DecodeDoc, EncodeDoc;
    RoundTrip(t, v);
    if CanEncode(t, v) { EncodableDoc(t, v, coll, nameField, name); }
  }
}
