/** What the order in which Go goes through a map can change about decoding. */
module DecodeOrders {
  import opened Wrappers
  import opened Values
  import opened GoTypes
  import opened Codec

  /** A value that decoding can give in some order: where two strings are the same key, the one that comes
      last wins. */
  ghost predicate Possible(t: GoType, p: Value, r: GoValue)
    decreases t
  {
    if p == NullValue && Nillable(t) then r == Nil
    else match t
    case SliceT(e) =>
      if p.ArrayValue? && p.elems != [] then
        r.ListV? && |r.elems| == |p.elems| && forall i :: 0 <= i < |p.elems| ==> Possible(e, p.elems[i], r.elems[i])
      else Decode(t, p) == Some(r)
    case ArrayT(n, e) =>
      if p.ArrayValue? then
        r.ListV? && |p.elems| <= |r.elems| == n
        && forall i :: 0 <= i < n ==> if i < |p.elems| then Possible(e, p.elems[i], r.elems[i])
          else r.elems[i] == Zero(e)
      else Decode(t, p) == Some(r)
    case MapT(kt, e) =>
      p.MapValue? && KeysParse(p.fields.Keys, kt) && r.MapV? && r.entries.Keys == ParsedKeys(p.fields.Keys, kt)
      && forall k :: k in r.entries ==>
        exists s :: s in p.fields && UnstringifyMapKey(s, kt) == Some(k) && Possible(e, p.fields[s], r.entries[k])
    case PointerT(e) => r.PointerV? && Possible(e, p, r.elem)
    case StructT(fs) =>
      p.MapValue? && r.StructV? && |r.values| == |fs|
      && forall i :: 0 <= i < |fs| ==>
        if fs[i].name in p.fields then Possible(fs[i].typ, p.fields[fs[i].name], r.values[i])
          else r.values[i] == Zero(fs[i].typ)
    case _ => Decode(t, p) == Some(r)
  }

  predicate AlikeKeys(r: string, s: string, kt: KeyType) {
    UnstringifyMapKey(r, kt).Some? && UnstringifyMapKey(r, kt) == UnstringifyMapKey(s, kt)
  }

  /** Somewhere, two strings are the same key, and their values are decoded differently. */
  ghost predicate Clash(t: GoType, p: Value)
    decreases t
  {
    match t
    case SliceT(e) => p.ArrayValue? && exists i :: 0 <= i < |p.elems| && Clash(e, p.elems[i])
    case ArrayT(_, e) => p.ArrayValue? && exists i :: 0 <= i < |p.elems| && Clash(e, p.elems[i])
    case MapT(kt, e) =>
      p.MapValue?
      && ((exists s :: s in p.fields && Clash(e, p.fields[s]))
          || exists r, s ::
            r in p.fields && s in p.fields && AlikeKeys(r, s, kt) && Decode(e, p.fields[r]) != Decode(e, p.fields[s]))
    case PointerT(e) => p != NullValue && Clash(e, p)
    case StructT(fs) =>
      p.MapValue? && exists i :: 0 <= i < |fs| && fs[i].name in p.fields && Clash(fs[i].typ, p.fields[fs[i].name])
    case _ => false
  }

  // ---------------------------------------------------------------- maps

  lemma MapParts(t: GoType, p: Value)
    requires t.MapT? && Decode(t, p).Some? && p != NullValue
    ensures p.MapValue? && KeysParse(p.fields.Keys, t.key)
    ensures forall s :: s in p.fields ==> Decode(t.elem, p.fields[s]).Some?
    ensures Decode(t, p).value.MapV? && Decode(t, p).value.entries.Keys == ParsedKeys(p.fields.Keys, t.key)
    ensures forall k :: k in Decode(t, p).value.entries ==> EntryDecoded(t, p, k, Decode(t, p).value.entries[k])
  {
    DecodeOfMap(t, p);
    hide Decode, ByKey, Gathered, DecodeValues;
    var ds := DecodeValues(t, p.fields);
    var m := Gathered(ds);
    forall k | k in ByKey(m, t.key) ensures EntryDecoded(t, p, k, ByKey(m, t.key)[k]) {
      var s :| s in m && UnstringifyMapKey(s, t.key) == Some(k) && ByKey(m, t.key)[k] == m[s];
      assert ds[s] == Some(m[s]);
    }
  }

  ghost predicate EntryPossible(t: GoType, p: Value, k: Key, x: GoValue)
    requires t.MapT? && p.MapValue?
  {
    exists s :: s in p.fields && UnstringifyMapKey(s, t.key) == Some(k) && Possible(t.elem, p.fields[s], x)
  }

  lemma PossibleMap(t: GoType, p: Value, r: GoValue)
    requires t.MapT? && p.MapValue?
    ensures Possible(t, p, r) <==>
      KeysParse(p.fields.Keys, t.key) && r.MapV? && r.entries.Keys == ParsedKeys(p.fields.Keys, t.key)
      && forall k :: k in r.entries ==> EntryPossible(t, p, k, r.entries[k])
  {
  }

  // ---------------------------------------------------------------- decoding is possible

  /** What Decode says is one of the possible results. */
  lemma {:induction false} DecodeIsPossible(t: GoType, p: Value)
    requires Decode(t, p).Some?
    ensures Possible(t, p, Decode(t, p).value)
    decreases t
  {
    var r := Decode(t, p).value;
    if p != NullValue || !Nillable(t) {
      match t
      case SliceT(e) =>
        if p.ArrayValue? && p.elems != [] {
          forall i | 0 <= i < |p.elems| ensures Possible(e, p.elems[i], r.elems[i]) {
            assert DecodeElems(t, p.elems)[i] == Decode(e, p.elems[i]);
            DecodeIsPossible(e, p.elems[i]);
          }
        }
      case ArrayT(n, e) =>
        if p.ArrayValue? {
          forall i | 0 <= i < |p.elems| ensures Possible(e, p.elems[i], r.elems[i]) {
            assert DecodeElems(t, p.elems)[i] == Decode(e, p.elems[i]);
            DecodeIsPossible(e, p.elems[i]);
          }
        }
      case MapT(kt, e) =>
        MapParts(t, p);
        forall k | k in r.entries ensures EntryPossible(t, p, k, r.entries[k]) {
          assert EntryDecoded(t, p, k, r.entries[k]);
          var s :| s in p.fields && UnstringifyMapKey(s, kt) == Some(k) && Decode(e, p.fields[s]) == Some(r.entries[k]);
          DecodeIsPossible(e, p.fields[s]);
        }
        PossibleMap(t, p, r);
      case PointerT(e) => DecodeIsPossible(e, p);
      case StructT(fs) =>
        forall i | 0 <= i < |fs| && fs[i].name in p.fields
          ensures Possible(fs[i].typ, p.fields[fs[i].name], r.values[i])
        {
          assert DecodeFields(t, p.fields)[i] == Decode(fs[i].typ, p.fields[fs[i].name]);
          DecodeIsPossible(fs[i].typ, p.fields[fs[i].name]);
        }
      case _ =>
    }
  }

  lemma ListParts(t: GoType, p: Value)
    requires (t.SliceT? || t.ArrayT?) && p.ArrayValue? && Decode(t, p).Some? && !(t.SliceT? && p.elems == [])
    ensures Decode(t, p).value.ListV? && |Decode(t, p).value.elems| == if t.SliceT? then |p.elems| else t.len
    ensures |p.elems| <= |Decode(t, p).value.elems|
    ensures forall i :: 0 <= i < |p.elems| ==> Decode(t.elem, p.elems[i]) == Some(Decode(t, p).value.elems[i])
    ensures forall i :: |p.elems| <= i < |Decode(t, p).value.elems| ==> Decode(t, p).value.elems[i] == Zero(t.elem)
  {
    forall i | 0 <= i < |p.elems| ensures Decode(t.elem, p.elems[i]) == Some(Decode(t, p).value.elems[i]) {
      assert DecodeElems(t, p.elems)[i] == Decode(t.elem, p.elems[i]);
    }
  }

  lemma PossibleList(t: GoType, p: Value, r: GoValue)
    requires (t.SliceT? || t.ArrayT?) && p.ArrayValue? && !(t.SliceT? && p.elems == [])
    ensures Possible(t, p, r) <==>
      r.ListV? && |r.elems| == (if t.SliceT? then |p.elems| else t.len) && |p.elems| <= |r.elems|
      && (forall i :: 0 <= i < |p.elems| ==> Possible(t.elem, p.elems[i], r.elems[i]))
      && forall i :: |p.elems| <= i < |r.elems| ==> r.elems[i] == Zero(t.elem)
    ensures Clash(t, p) <==> exists i :: 0 <= i < |p.elems| && Clash(t.elem, p.elems[i])
  {
  }

  lemma StructParts(t: GoType, p: Value)
    requires t.StructT? && p.MapValue? && Decode(t, p).Some?
    ensures Decode(t, p).value.StructV? && |Decode(t, p).value.values| == |t.fields|
    ensures forall i :: 0 <= i < |t.fields| && t.fields[i].name in p.fields ==>
      Decode(t.fields[i].typ, p.fields[t.fields[i].name]) == Some(Decode(t, p).value.values[i])
    ensures forall i :: 0 <= i < |t.fields| && t.fields[i].name !in p.fields ==>
      Decode(t, p).value.values[i] == Zero(t.fields[i].typ)
  {
    forall i | 0 <= i < |t.fields| ensures DecodeFields(t, p.fields)[i] == Some(Decode(t, p).value.values[i]) {}
  }

  // ---------------------------------------------------------------- when the order matters

  /** Without a clash, decoding gives one value in every order. */
  lemma {:induction false} OneWithoutClash(t: GoType, p: Value, r: GoValue)
    requires Decode(t, p).Some? && !Clash(t, p) && Possible(t, p, r)
    ensures r == Decode(t, p).value
    decreases t, 2
  {
    if p == NullValue && Nillable(t) {
    } else if (t.SliceT? || t.ArrayT?) && p.ArrayValue? && !(t.SliceT? && p.elems == []) {
      ListParts(t, p);
      PossibleList(t, p, r);
      hide *;
      var d := Decode(t, p).value;
      forall i | 0 <= i < |d.elems| ensures r.elems[i] == d.elems[i] {
        if i < |p.elems| { OneWithoutClash(t.elem, p.elems[i], r.elems[i]); }
      }
      assert r.elems == d.elems;
    } else if t.MapT? {
      OneMap(t, p, r);
    } else if t.PointerT? {
      OneWithoutClash(t.elem, p, r.elem);
    } else if t.StructT? {
      OneStruct(t, p, r);
    }
  }

  lemma {:induction false} OneMap(t: GoType, p: Value, r: GoValue)
    requires t.MapT? && p != NullValue && Decode(t, p).Some? && !Clash(t, p) && Possible(t, p, r)
    ensures r == Decode(t, p).value
    decreases t, 1
  {
    hide *;
    MapParts(t, p);
    PossibleMap(t, p, r);
    var d := Decode(t, p).value;
    forall k | k in d.entries ensures r.entries[k] == d.entries[k] { OneEntry(t, p, k, r.entries[k], d.entries[k]); }
    assert r.entries == d.entries;
  }

  /** The value that decoding chose for the key. */
  ghost predicate EntryDecoded(t: GoType, p: Value, k: Key, x: GoValue)
    requires t.MapT? && p.MapValue?
  {
    exists s :: s in p.fields && UnstringifyMapKey(s, t.key) == Some(k) && Decode(t.elem, p.fields[s]) == Some(x)
  }

  lemma {:induction false} OneEntry(t: GoType, p: Value, k: Key, x: GoValue, y: GoValue)
    requires t.MapT? && p.MapValue? && !Clash(t, p) && EntryPossible(t, p, k, x) && EntryDecoded(t, p, k, y)
    requires forall s :: s in p.fields ==> Decode(t.elem, p.fields[s]).Some?
    ensures x == y
    decreases t, 0
  {
    NoClashMap(t, p);
    hide Decode, Possible, Clash, UnstringifyMapKey;
    var s :| s in p.fields && UnstringifyMapKey(s, t.key) == Some(k) && Possible(t.elem, p.fields[s], x);
    var u :| u in p.fields && UnstringifyMapKey(u, t.key) == Some(k) && Decode(t.elem, p.fields[u]) == Some(y);
    assert AlikeKeys(s, u, t.key);
    OneWithoutClash(t.elem, p.fields[s], x);
  }

  lemma NoClashMap(t: GoType, p: Value)
    requires t.MapT? && p.MapValue?
    ensures Clash(t, p) <==>
      (exists s :: s in p.fields && Clash(t.elem, p.fields[s]))
      || exists r, s ::
        r in p.fields && s in p.fields && AlikeKeys(r, s, t.key)
        && Decode(t.elem, p.fields[r]) != Decode(t.elem, p.fields[s])
  {
  }

  lemma PossibleStruct(t: GoType, p: Value, r: GoValue)
    requires t.StructT? && p.MapValue?
    ensures Possible(t, p, r) <==>
      r.StructV? && |r.values| == |t.fields|
      && (forall i :: 0 <= i < |t.fields| && t.fields[i].name in p.fields ==>
            Possible(t.fields[i].typ, p.fields[t.fields[i].name], r.values[i]))
      && forall i :: 0 <= i < |t.fields| && t.fields[i].name !in p.fields ==> r.values[i] == Zero(t.fields[i].typ)
    ensures Clash(t, p) <==>
      exists i :: 0 <= i < |t.fields| && t.fields[i].name in p.fields
        && Clash(t.fields[i].typ, p.fields[t.fields[i].name])
  {
  }

  lemma {:induction false} OneStruct(t: GoType, p: Value, r: GoValue)
    requires t.StructT? && Decode(t, p).Some? && !Clash(t, p) && Possible(t, p, r)
    ensures r == Decode(t, p).value
    decreases t, 0
  {
    StructParts(t, p);
    PossibleStruct(t, p, r);
    hide *;
    var d := Decode(t, p).value;
    forall i | 0 <= i < |t.fields| ensures r.values[i] == d.values[i] {
      if t.fields[i].name in p.fields { OneWithoutClash(t.fields[i].typ, p.fields[t.fields[i].name], r.values[i]); }
    }
    assert r.values == d.values;
  }

  /** With a clash, another order gives another value. */
  lemma {:induction false} AnotherWithClash(t: GoType, p: Value) returns (r: GoValue)
    requires Decode(t, p).Some? && Clash(t, p)
    ensures Possible(t, p, r) && r != Decode(t, p).value
    decreases t, 2
  {
    DecodeIsPossible(t, p);
    var d := Decode(t, p).value;
    if t.SliceT? || t.ArrayT? {
      r := AnotherList(t, p);
    } else if t.MapT? {
      r := AnotherMap(t, p);
    } else if t.PointerT? {
      var x := AnotherWithClash(t.elem, p);
      r := PointerV(x);
    } else {
      r := AnotherStruct(t, p);
    }
  }

  lemma ListWith(t: GoType, p: Value, d: GoValue, i: nat, x: GoValue)
    requires (t.SliceT? || t.ArrayT?) && p.ArrayValue? && i < |p.elems| && Possible(t, p, d)
    requires Possible(t.elem, p.elems[i], x)
    ensures d.ListV? && i < |d.elems| && Possible(t, p, ListV(d.elems[i := x]))
  {
    PossibleList(t, p, d);
    PossibleList(t, p, ListV(d.elems[i := x]));
    hide Possible, Clash;
  }

  lemma StructWith(t: GoType, p: Value, d: GoValue, i: nat, x: GoValue)
    requires t.StructT? && p.MapValue? && i < |t.fields| && t.fields[i].name in p.fields && Possible(t, p, d)
    requires Possible(t.fields[i].typ, p.fields[t.fields[i].name], x)
    ensures d.StructV? && i < |d.values| && Possible(t, p, StructV(d.values[i := x]))
  {
    PossibleStruct(t, p, d);
    PossibleStruct(t, p, StructV(d.values[i := x]));
    hide Possible, Clash;
  }

  lemma MapWith(t: GoType, p: Value, d: GoValue, k: Key, x: GoValue)
    requires t.MapT? && p.MapValue? && Possible(t, p, d) && d.MapV? && k in d.entries && EntryPossible(t, p, k, x)
    ensures Possible(t, p, MapV(d.entries[k := x]))
  {
    PossibleMap(t, p, d);
    PossibleMap(t, p, MapV(d.entries[k := x]));
    hide Possible, EntryPossible, KeysParse, ParsedKeys;
  }

  lemma {:induction false} AnotherList(t: GoType, p: Value) returns (r: GoValue)
    requires (t.SliceT? || t.ArrayT?) && Decode(t, p).Some? && Clash(t, p)
    ensures Possible(t, p, r) && r != Decode(t, p).value
    decreases t, 0
  {
    ListParts(t, p);
    hide Decode, Possible;
    DecodeIsPossible(t, p);
    var d := Decode(t, p).value;
    var i :| 0 <= i < |p.elems| && Clash(t.elem, p.elems[i]);
    hide Clash;
    var x := AnotherWithClash(t.elem, p.elems[i]);
    ListWith(t, p, d, i, x);
    r := ListV(d.elems[i := x]);
    assert r.elems[i] != d.elems[i];
  }

  lemma {:induction false} AnotherStruct(t: GoType, p: Value) returns (r: GoValue)
    requires t.StructT? && Decode(t, p).Some? && Clash(t, p)
    ensures Possible(t, p, r) && r != Decode(t, p).value
    decreases t, 0
  {
    StructParts(t, p);
    hide Decode, Possible;
    DecodeIsPossible(t, p);
    var d := Decode(t, p).value;
    var i :| 0 <= i < |t.fields| && t.fields[i].name in p.fields && Clash(t.fields[i].typ, p.fields[t.fields[i].name]);
    hide Clash;
    var x := AnotherWithClash(t.fields[i].typ, p.fields[t.fields[i].name]);
    StructWith(t, p, d, i, x);
    r := StructV(d.values[i := x]);
    assert r.values[i] != d.values[i];
  }

  lemma ClashIsMap(t: GoType, p: Value)
    requires t.MapT? && Clash(t, p)
    ensures p.MapValue?
  {
  }

  lemma {:induction false} AnotherMap(t: GoType, p: Value) returns (r: GoValue)
    requires t.MapT? && Decode(t, p).Some? && Clash(t, p)
    ensures Possible(t, p, r) && r != Decode(t, p).value
    decreases t, 1
  {
    hide *;
    ClashIsMap(t, p);
    MapParts(t, p);
    DecodeIsPossible(t, p);
    var d := Decode(t, p).value;
    var s, x := TwoForOneKey(t, p, d);
    var k := UnstringifyMapKey(s, t.key).value;
    EntryOf(t, p, s, x);
    MapWith(t, p, d, k, x);
    r := MapV(d.entries[k := x]);
    assert r.entries[k] != d.entries[k];
  }

  lemma EntryOf(t: GoType, p: Value, s: string, x: GoValue)
    requires t.MapT? && p.MapValue? && s in p.fields && UnstringifyMapKey(s, t.key).Some?
    requires Possible(t.elem, p.fields[s], x)
    ensures EntryPossible(t, p, UnstringifyMapKey(s, t.key).value, x)
  {
  }

  /** A string and a possible value of it, other than the one that its key has in d. */
  lemma {:induction false} TwoForOneKey(t: GoType, p: Value, d: GoValue) returns (s: string, x: GoValue)
    requires t.MapT? && p.MapValue? && KeysParse(p.fields.Keys, t.key) && d.MapV? && Clash(t, p)
    requires d.entries.Keys == ParsedKeys(p.fields.Keys, t.key)
    requires forall s :: s in p.fields ==> Decode(t.elem, p.fields[s]).Some?
    ensures s in p.fields && UnstringifyMapKey(s, t.key).Some? && UnstringifyMapKey(s, t.key).value in d.entries
    ensures Possible(t.elem, p.fields[s], x) && x != d.entries[UnstringifyMapKey(s, t.key).value]
    decreases t, 0
  {
    NoClashMap(t, p);
    hide Decode, Possible, Clash, UnstringifyMapKey, ParsedKeys;
    if u :| u in p.fields && Clash(t.elem, p.fields[u]) {
      s := u;
      x := AnotherWithClash(t.elem, p.fields[u]);
      DecodeIsPossible(t.elem, p.fields[u]);
      if x == d.entries[UnstringifyMapKey(s, t.key).value] { x := Decode(t.elem, p.fields[u]).value; }
    } else {
      var u, w :| u in p.fields && w in p.fields && AlikeKeys(u, w, t.key)
        && Decode(t.elem, p.fields[u]) != Decode(t.elem, p.fields[w]);
      DecodeIsPossible(t.elem, p.fields[u]);
      DecodeIsPossible(t.elem, p.fields[w]);
      s := if Decode(t.elem, p.fields[u]).value != d.entries[UnstringifyMapKey(u, t.key).value] then u else w;
      x := Decode(t.elem, p.fields[s]).value;
    }
  }

  /** Two orders can give different values. */
  ghost predicate Ambiguous(t: GoType, p: Value) {
    exists r, s :: Possible(t, p, r) && Possible(t, p, s) && r != s
  }

  lemma TwoPossible(t: GoType, p: Value, r: GoValue, s: GoValue)
    requires Possible(t, p, r) && Possible(t, p, s) && r != s
    ensures Ambiguous(t, p)
  {
  }

  /** That is so exactly when there is a clash. */
  lemma OrderMatters(t: GoType, p: Value)
    requires Decode(t, p).Some?
    ensures Ambiguous(t, p) <==> Clash(t, p)
  {
    hide Decode, Possible, Clash;
    if Clash(t, p) {
      hide *;
      DecodeIsPossible(t, p);
      var r := AnotherWithClash(t, p);
      TwoPossible(t, p, r, Decode(t, p).value);
    } else if Ambiguous(t, p) {
      var r, s :| Possible(t, p, r) && Possible(t, p, s) && r != s;
      OneWithoutClash(t, p, r);
      OneWithoutClash(t, p, s);
    }
  }

  lemma OneParses()
    ensures UnstringifyMapKey("1", IntKey(W64)) == Some(IntK(1)) == UnstringifyMapKey("01", IntKey(W64))
  {
    assert "01"[..1] == "0";
    assert ParseDigits("0") == Some(0) && ParseDigits("1") == Some(1) && ParseDigits("01") == Some(1);
  }

  lemma MapDecodes(t: GoType, p: Value)
    requires t.MapT? && p.MapValue? && (forall s :: s in p.fields ==> Decode(t.elem, p.fields[s]).Some?)
    requires forall s :: s in p.fields ==> UnstringifyMapKey(s, t.key).Some?
    ensures Decode(t, p).Some?
  {
    DecodeOfMap(t, p);
    hide Decode, UnstringifyMapKey;
  }

  lemma ClashOfTwo(t: GoType, p: Value, r: string, s: string)
    requires t.MapT? && p.MapValue? && r in p.fields && s in p.fields && UnstringifyMapKey(r, t.key).Some?
    requires UnstringifyMapKey(r, t.key) == UnstringifyMapKey(s, t.key)
    requires Decode(t.elem, p.fields[r]) != Decode(t.elem, p.fields[s])
    ensures Clash(t, p)
  {
    assert AlikeKeys(r, s, t.key);
  }

  lemma DecodeBool(b: bool)
    ensures Decode(BoolT, BooleanValue(b)) == Some(BoolV(b))
  {
  }

  /** The strings "1" and "01" are the same key of a map from integers. */
  lemma ClashExample(m: map<string, Value>)
    requires m == map["1" := BooleanValue(true), "01" := BooleanValue(false)]
    ensures Decode(MapT(IntKey(W64), BoolT), MapValue(m)).Some? && Clash(MapT(IntKey(W64), BoolT), MapValue(m))
  {
    hide *;
    var t, p := MapT(IntKey(W64), BoolT), MapValue(m);
    OneParses();
    DecodeBool(true);
    DecodeBool(false);
    assert "1" != "01";
    MapDecodes(t, p);
    ClashOfTwo(t, p, "1", "01");
  }

  // ---------------------------------------------------------------- encodings have no clash

  /** What encoding produces has no clash: printed keys are parsed to different keys. */
  lemma {:induction false} EncodedNoClash(t: GoType, v: GoValue)
    requires CanEncode(t, v)
    ensures !Clash(t, Encode(t, v))
    decreases v, 1
  {
    if v.MapV? {
      EncodedMapNoClash(t, v);
    } else if v.ListV? && t != BYTES_T {
      ListEncoding(t, v);
      forall i | 0 <= i < |v.elems| { EncodedNoClash(t.elem, v.elems[i]); }
    } else if v.StructV? {
      EncodedStructNoClash(t, v);
    } else if v.PointerV? {
      PointerParts(t, v);
      EncodedNoClash(t.elem, v.elem);
    }
  }

  lemma {:induction false} EncodedStructNoClash(t: GoType, v: GoValue)
    requires CanEncode(t, v) && v.StructV?
    ensures !Clash(t, Encode(t, v))
    decreases v, 0
  {
    StructEncoding(t, v);
    var p := Encode(t, v);
    PossibleStruct(t, p, v);
    hide *;
    forall i | 0 <= i < |t.fields| && t.fields[i].name in p.fields
      ensures !Clash(t.fields[i].typ, p.fields[t.fields[i].name])
    {
      EncodedNoClash(t.fields[i].typ, v.values[i]);
    }
  }

  lemma {:induction false} EncodedMapNoClash(t: GoType, v: GoValue)
    requires CanEncode(t, v) && v.MapV?
    ensures !Clash(t, Encode(t, v))
    decreases v, 0
  {
    MapEncoding(t, v);
    var p := Encode(t, v);
    NoClashMap(t, p);
    hide Encode, CanEncode, StringifyMapKey, UnstringifyMapKey, Clash, Decode;
    forall s | s in p.fields ensures !Clash(t.elem, p.fields[s]) {
      var k :| k in v.entries && StringifyMapKey(k) == s;
      EncodedNoClash(t.elem, v.entries[k]);
    }
    forall r, s | r in p.fields && s in p.fields && AlikeKeys(r, s, t.key) ensures r == s {
      var k :| k in v.entries && StringifyMapKey(k) == r;
      var l :| l in v.entries && StringifyMapKey(l) == s;
      KeyRoundTrip(t.key, k);
      KeyRoundTrip(t.key, l);
    }
  }
}
