/** Update modifications: toDriverMods of docstore/docstore.go, and their compilation into a document,
    a mask and transforms, processMods of docstore/gcpfirestore/fs.go. */
module Mods {
  import opened Wrappers
  import opened Lex
  import opened FieldPaths
  import opened Values

  /** A modification: nil deletes the field, an increment adds to it, anything else is stored,
      provided that it can be encoded. */
  datatype ModValue =
    | DeleteField
    | Increment(amount: Amount)
    | SetField(value: Value)
    | Unencodable

  datatype Amount = Number(v: Value) | NotANumber

  datatype Mod = Mod(path: Path, value: ModValue)

  // ---------------------------------------------------------------- accepting modifications

  /** Neither path is a component-wise prefix of the other. */
  predicate Incomparable(p: Path, q: Path) {
    !(p <= q) && !(q <= p)
  }

  ghost predicate PrefixFree(mods: seq<Mod>) {
    forall i, j :: 0 <= i < j < |mods| ==> Incomparable(mods[i].path, mods[j].path)
  }

  /** What a caller of Update must see to: paths that parse, numeric increments, and no path
      a prefix of another. */
  ghost predicate Acceptable(mods: map<string, ModValue>) {
    mods != map[]
    && (forall k :: k in mods ==> ParseFieldPath(k).Some? && mods[k] != Increment(NotANumber))
    && forall k, l :: k in mods && l in mods && k != l ==>
      ParseFieldPath(k).Some? && ParseFieldPath(l).Some? ==>
      !(ParseFieldPath(k).value <= ParseFieldPath(l).value)
  }

  datatype DriverMods = Accepted(mods: seq<Mod>) | Rejected

  ghost function ModFor(mods: map<string, ModValue>, k: string): Mod
    requires k in mods && ParseFieldPath(k).Some?
  {
    Mod(ParseFieldPath(k).value, mods[k])
  }

  /** The modifications for the first keys, converted, with no path a prefix of another. */
  ghost predicate Converted(mods: map<string, ModValue>, keys: seq<string>, dmods: seq<Mod>) {
    |dmods| <= |keys|
    && (forall j :: 0 <= j < |dmods| ==> keys[j] in mods && ParseFieldPath(keys[j]).Some?)
    && (forall j :: 0 <= j < |dmods| ==> dmods[j] == ModFor(mods, keys[j]) && dmods[j].value != Increment(NotANumber))
    && PrefixFree(dmods)
  }

  lemma ConvertedNone(mods: map<string, ModValue>, keys: seq<string>)
    ensures Converted(mods, keys, [])
  {
  }

  lemma PrefixFreeSnoc(mods: seq<Mod>, m: Mod)
    requires PrefixFree(mods) && forall d :: d in mods ==> Incomparable(d.path, m.path)
    ensures PrefixFree(mods + [m])
  {
    forall i, j | 0 <= i < j < |mods + [m]| ensures Incomparable((mods + [m])[i].path, (mods + [m])[j].path) {
      if j == |mods| { assert mods[i] in mods; }
    }
  }

  lemma ConvertedNext(mods: map<string, ModValue>, keys: seq<string>, dmods: seq<Mod>, m: Mod)
    requires Converted(mods, keys, dmods) && keys == SortSet(mods.Keys) && |dmods| < |keys|
    requires keys[|dmods|] in mods && ParseFieldPath(keys[|dmods|]) == Some(m.path)
    requires m.value == mods[keys[|dmods|]] && m.value != Increment(NotANumber)
    requires forall d :: d in dmods ==> !(d.path <= m.path)
    ensures Converted(mods, keys, dmods + [m])
  {
    hide Less, SortSet, Split, Join, ParseFieldPath, PrefixFree;
    forall d | d in dmods ensures Incomparable(d.path, m.path) {
      var l :| 0 <= l < |dmods| && dmods[l] == d;
      assert Less(keys[l], keys[|dmods|]);
      Asymmetric(keys[l], keys[|dmods|]);
      if m.path <= d.path { PrefixSortsFirst(keys[|dmods|], keys[l]); }
    }
    PrefixFreeSnoc(dmods, m);
  }

  lemma ConvertedAll(mods: map<string, ModValue>, keys: seq<string>, dmods: seq<Mod>)
    requires Converted(mods, keys, dmods) && keys == SortSet(mods.Keys) && |dmods| == |keys| && mods != map[]
    ensures Acceptable(mods)
  {
    hide Less, SortSet, Split, Join, ParseFieldPath;
    forall k | k in mods ensures ParseFieldPath(k).Some? && mods[k] != Increment(NotANumber) { assert k in keys; }
    forall k, l | k in mods && l in mods && k != l && ParseFieldPath(k).Some? && ParseFieldPath(l).Some?
      ensures !(ParseFieldPath(k).value <= ParseFieldPath(l).value)
    {
      assert k in keys && l in keys;
      var i :| 0 <= i < |keys| && keys[i] == k;
      var j :| 0 <= j < |keys| && keys[j] == l;
      assert i < j ==> Incomparable(dmods[i].path, dmods[j].path);
      assert j < i ==> Incomparable(dmods[j].path, dmods[i].path);
    }
  }

  /** A path with an earlier one as its prefix makes the modifications unacceptable. */
  lemma ClashRejected(mods: map<string, ModValue>, keys: seq<string>, dmods: seq<Mod>, d: Mod)
    requires Converted(mods, keys, dmods) && keys == SortSet(mods.Keys) && |dmods| < |keys| && d in dmods
    requires ParseFieldPath(keys[|dmods|]).Some? && d.path <= ParseFieldPath(keys[|dmods|]).value
    ensures !Acceptable(mods)
  {
    hide Less, SortSet, Split, Join, ParseFieldPath;
    var j :| 0 <= j < |dmods| && dmods[j] == d;
    assert Less(keys[j], keys[|dmods|]);
    Irreflexive(keys[j]);
    assert keys[j] in keys && keys[|dmods|] in keys;
  }

  /** Modifications as the compiler gets them. */
  ghost predicate GoodMods(mods: seq<Mod>) {
    mods != [] && PrefixFree(mods)
    && forall m :: m in mods ==> m.path != [] && m.value != Increment(NotANumber)
  }

  lemma AcceptedMods(mods: map<string, ModValue>, dmods: seq<Mod>)
    requires mods != map[] && Converted(mods, SortSet(mods.Keys), dmods) && |dmods| == |SortSet(mods.Keys)|
    ensures GoodMods(dmods)
  {
    var k :| k in mods;
    assert k in SortSet(mods.Keys);
    forall d | d in dmods ensures d.path != [] && d.value != Increment(NotANumber) {
      var j :| 0 <= j < |dmods| && dmods[j] == d;
    }
  }

  /** All of the user's modifications, and no others, with parsed paths and in the order of their keys. */
  ghost predicate ConvertedAllOf(mods: map<string, ModValue>, dmods: seq<Mod>) {
    Converted(mods, SortSet(mods.Keys), dmods) && |dmods| == |SortSet(mods.Keys)| == |mods|
  }

  /** Each of the user's modifications is among them. */
  lemma ConvertedHas(mods: map<string, ModValue>, dmods: seq<Mod>, k: string) returns (d: Mod)
    requires ConvertedAllOf(mods, dmods) && k in mods
    ensures d in dmods && ParseFieldPath(k) == Some(d.path) && d.value == mods[k]
  {
    hide Less, SortSet, Split, Join, ParseFieldPath;
    assert k in SortSet(mods.Keys);
    var j :| 0 <= j < |SortSet(mods.Keys)| && SortSet(mods.Keys)[j] == k;
    d := dmods[j];
  }

  /** Accepts exactly the acceptable modifications, though it compares each path only with the paths
      that were sorted before it. */
  method ToDriverMods(mods: map<string, ModValue>) returns (r: DriverMods)
    ensures r.Accepted? <==> Acceptable(mods)
    ensures r.Accepted? ==> ConvertedAllOf(mods, r.mods) && GoodMods(r.mods)
  {
    hide Less, SortSet, Split, Join, ParseFieldPath, Converted;
    if mods == map[] { return Rejected; }
    var keys := SortKeys(mods.Keys);
    var dmods: seq<Mod> := [];
    ConvertedNone(mods, keys);
    for i := 0 to |keys|
      invariant |dmods| == i && Converted(mods, keys, dmods)
    {
      var k := keys[i];
      assert k in keys;
      var v := mods[k];
      var fp := ParseFieldPath(k);
      if fp == None { return Rejected; }
      for j := 0 to i
        invariant forall l :: 0 <= l < j ==> !(dmods[l].path <= fp.value)
      {
        var isPrefix := FpHasPrefix(fp.value, dmods[j].path);
        if isPrefix {
          ClashRejected(mods, keys, dmods, dmods[j]);
          return Rejected;
        }
      }
      if v == Increment(NotANumber) { return Rejected; }
      ConvertedNext(mods, keys, dmods, Mod(fp.value, v));
      dmods := dmods + [Mod(fp.value, v)];
    }
    ConvertedAll(mods, keys, dmods);
    SortedSize(keys, mods.Keys);
    AcceptedMods(mods, dmods);
    r := Accepted(dmods);
  }

  // ---------------------------------------------------------------- what a modification means

  /** How the service adds: to the old value of a field, if there is one. It stays uninterpreted. */
  type Add = (Option<Value>, Value) -> Value

  /** The new value of the field that a modification names. */
  function Leaf(v: ModValue, add: Add, old_: Option<Value>): Option<Value> {
    match v
    case DeleteField => None
    case Increment(Number(n)) => Some(add(old_, n))
    case SetField(x) => Some(x)
    case _ => old_
  }

  function Lookup(m: Fields, k: string): Option<Value> {
    if k in m then Some(m[k]) else None
  }

  function PutField(m: Fields, k: string, v: Option<Value>): Fields {
    if v.Some? then m[k := v.value] else m - {k}
  }

  function SubFields(v: Option<Value>): Fields {
    if v.Some? && v.value.MapValue? then v.value.fields else map[]
  }

  /** Applies one modification at a path. A missing or non-map parent becomes a map, except that
      deleting below it changes nothing. */
  function ApplyAt(m: Fields, p: Path, v: ModValue, add: Add): Fields
    requires p != []
    decreases |p|, 1
  {
    PutField(m, p[0], ApplyBelow(Lookup(m, p[0]), p[1..], v, add))
  }

  /** The same, on the value of the path's first field. */
  function ApplyBelow(f: Option<Value>, rest: Path, v: ModValue, add: Add): Option<Value>
    decreases |rest|, 2
  {
    if rest == [] then Leaf(v, add, f)
    else if v == DeleteField && !(f.Some? && f.value.MapValue?) then f
    else Some(MapValue(ApplyAt(SubFields(f), rest, v, add)))
  }

  function ApplyMods(m: Fields, mods: seq<Mod>, add: Add): Fields
    requires forall d :: d in mods ==> d.path != []
    decreases |mods|
  {
    if mods == [] then m
    else ApplyMods(ApplyAt(m, mods[0].path, mods[0].value, add), mods[1..], add)
  }

  lemma PutPut(m: Fields, k: string, l: string, v: Option<Value>, w: Option<Value>)
    requires k != l
    ensures PutField(PutField(m, k, v), l, w) == PutField(PutField(m, l, w), k, v)
    ensures Lookup(PutField(m, k, v), l) == Lookup(m, l)
  {
  }

  lemma PutLookup(m: Fields, k: string, v: Option<Value>, w: Option<Value>)
    ensures Lookup(PutField(m, k, v), k) == v
    ensures PutField(PutField(m, k, v), k, w) == PutField(m, k, w)
    ensures PutField(m, k, Lookup(m, k)) == m
  {
  }

  lemma {:induction false} DeleteFromEmpty(p: Path, add: Add)
    requires p != []
    ensures ApplyAt(map[], p, DeleteField, add) == map[]
  {
  }

  /** Modifications at incomparable paths commute. */
  lemma {:induction false} Commute(m: Fields, p: Path, v: ModValue, q: Path, w: ModValue, add: Add)
    requires p != [] && q != [] && Incomparable(p, q)
    ensures ApplyAt(ApplyAt(m, p, v, add), q, w, add) == ApplyAt(ApplyAt(m, q, w, add), p, v, add)
    decreases |p|, 1
  {
    hide PutField, Lookup, ApplyBelow;
    if p[0] != q[0] {
      PutPut(m, p[0], q[0], ApplyBelow(Lookup(m, p[0]), p[1..], v, add), ApplyBelow(Lookup(m, q[0]), q[1..], w, add));
      PutPut(m, q[0], p[0], ApplyBelow(Lookup(m, q[0]), q[1..], w, add), ApplyBelow(Lookup(m, p[0]), p[1..], v, add));
    } else {
      var k, f := p[0], Lookup(m, p[0]);
      var fv, fw := ApplyBelow(f, p[1..], v, add), ApplyBelow(f, q[1..], w, add);
      PutLookup(m, k, fv, ApplyBelow(fv, q[1..], w, add));
      PutLookup(m, k, fw, ApplyBelow(fw, p[1..], v, add));
      IncomparableTails(p, q);
      CommuteBelow(f, p[1..], v, q[1..], w, add);
    }
  }

  lemma IncomparableTails(p: Path, q: Path)
    requires p != [] && q != [] && Incomparable(p, q) && p[0] == q[0]
    ensures p[1..] != [] && q[1..] != [] && Incomparable(p[1..], q[1..])
  {
    assert p == [p[0]] + p[1..] && q == [q[0]] + q[1..];
  }

  lemma {:induction false} CommuteBelow(f: Option<Value>, p: Path, v: ModValue, q: Path, w: ModValue, add: Add)
    requires p != [] && q != [] && Incomparable(p, q)
    ensures ApplyBelow(ApplyBelow(f, p, v, add), q, w, add) == ApplyBelow(ApplyBelow(f, q, w, add), p, v, add)
    decreases |p|, 2
  {
    hide ApplyAt;
    Commute(SubFields(f), p, v, q, w, add);
    if v == DeleteField { DeleteFromEmpty(p, add); }
    if w == DeleteField { DeleteFromEmpty(q, add); }
  }

  // ---------------------------------------------------------------- what a modification leaves

  /** The value at a path: fields of maps, one after the other. */
  lemma GetAtSteps(m: Fields, k: string, p: Path)
    ensures GetAt(m, [k]) == if k in m then Some(m[k]) else None
    ensures p != [] ==>
      GetAt(m, [k] + p) == if k in m && m[k].MapValue? then GetAt(m[k].fields, p) else None
  {
    assert p != [] ==> ([k] + p)[1..] == p;
  }

  /** What a modification that can be encoded leaves at its own path, by what was there. */
  ghost predicate Leaves(v: ModValue, add: Add, before: Option<Value>, after: Option<Value>) {
    (v == DeleteField ==> after == None)
    && (v.SetField? ==> after == Some(v.value))
    && (v.Increment? && v.amount.Number? ==> after == Some(add(before, v.amount.v)))
  }

  /** At its own path a modification deletes, stores or adds. */
  lemma {:induction false} EffectAt(m: Fields, p: Path, v: ModValue, add: Add)
    requires p != []
    ensures Leaves(v, add, GetAt(m, p), GetAt(ApplyAt(m, p, v, add), p))
    decreases |p|
  {
    if |p| > 1 {
      EffectAt(SubFields(Lookup(m, p[0])), p[1..], v, add);
      if !(p[0] in m && m[p[0]].MapValue?) { NothingAt(p[1..]); }
    }
  }

  lemma NothingAt(p: Path)
    requires p != []
    ensures GetAt(map[], p) == None
  {
  }

  /** At every path that is neither its own, nor above or below it, it changes nothing. */
  lemma {:induction false} KeepsOther(m: Fields, p: Path, v: ModValue, add: Add, q: Path)
    requires p != [] && q != [] && Incomparable(p, q)
    ensures GetAt(ApplyAt(m, p, v, add), q) == GetAt(m, q)
    decreases |p|
  {
    if p[0] == q[0] {
      IncomparableTails(p, q);
      KeepsOther(SubFields(Lookup(m, p[0])), p[1..], v, add, q[1..]);
      NothingAt(q[1..]);
    }
  }

  /** Deleting what is not there changes nothing at all. */
  lemma {:induction false} DeletesNothing(m: Fields, p: Path, add: Add)
    requires p != [] && GetAt(m, p) == None
    ensures ApplyAt(m, p, DeleteField, add) == m
    decreases |p|
  {
    if |p| > 1 && p[0] in m && m[p[0]].MapValue? { DeletesNothing(m[p[0]].fields, p[1..], add); }
  }

  /** A modification of a top-level field. */
  lemma TopLevel(m: Fields, k: string, x: Value, add: Add)
    ensures ApplyAt(m, [k], DeleteField, add) == m - {k}
    ensures ApplyAt(m, [k], SetField(x), add) == m[k := x]
    ensures ApplyAt(m, [k], Increment(Number(x)), add) == m[k := add(if k in m then Some(m[k]) else None, x)]
  {
  }

  lemma {:induction false} AllKeepOther(m: Fields, mods: seq<Mod>, add: Add, q: Path)
    requires NonEmptyPaths(mods) && q != [] && forall d :: d in mods ==> Incomparable(d.path, q)
    ensures GetAt(ApplyMods(m, mods, add), q) == GetAt(m, q)
    decreases |mods|
  {
    hide ApplyAt, GetAt, Incomparable;
    if mods != [] {
      assert mods[0] in mods;
      KeepsOther(m, mods[0].path, mods[0].value, add, q);
      AllKeepOther(ApplyAt(m, mods[0].path, mods[0].value, add), mods[1..], add, q);
    }
  }

  /** Among accepted modifications each has its own effect, on what was there before any of them. */
  lemma {:induction false} EachEffect(m: Fields, mods: seq<Mod>, add: Add, i: nat)
    requires PrefixFree(mods) && NonEmptyPaths(mods) && i < |mods|
    ensures mods[i].path != []
    ensures
      Leaves(mods[i].value, add, GetAt(m, mods[i].path), GetAt(ApplyMods(m, mods, add), mods[i].path))
    decreases |mods|
  {
    hide ApplyAt, GetAt, Incomparable, Leaves;
    assert mods[i] in mods && mods[0] in mods;
    var next := ApplyAt(m, mods[0].path, mods[0].value, add);
    assert forall j :: 1 <= j < |mods| ==> mods[j] == mods[1..][j-1];
    if i == 0 {
      forall d | d in mods[1..] ensures Incomparable(d.path, mods[0].path) {
        EitherWay(mods[0].path, d.path);
      }
      EffectAt(m, mods[0].path, mods[0].value, add);
      AllKeepOther(next, mods[1..], add, mods[0].path);
    } else {
      KeepsOther(m, mods[0].path, mods[0].value, add, mods[i].path);
      EachEffect(next, mods[1..], add, i - 1);
    }
  }

  /** What all modifications together leave of a document. */
  ghost predicate LeavesAll(mods: seq<Mod>, add: Add, before: Fields, after: Fields)
    requires NonEmptyPaths(mods)
  {
    (forall d :: d in mods ==> Leaves(d.value, add, GetAt(before, d.path), GetAt(after, d.path)))
    && forall q: Path :: q != [] && (forall d :: d in mods ==> Incomparable(d.path, q)) ==>
      GetAt(after, q) == GetAt(before, q)
  }

  /** Every accepted modification has its own effect, and everything else stays. */
  lemma EveryEffect(m: Fields, mods: seq<Mod>, add: Add)
    requires PrefixFree(mods) && NonEmptyPaths(mods)
    ensures LeavesAll(mods, add, m, ApplyMods(m, mods, add))
  {
    hide ApplyMods, GetAt, Incomparable, Leaves;
    forall d | d in mods ensures Leaves(d.value, add, GetAt(m, d.path), GetAt(ApplyMods(m, mods, add), d.path)) {
      var i :| 0 <= i < |mods| && mods[i] == d;
      EachEffect(m, mods, add, i);
    }
    forall q: Path | q != [] && (forall d :: d in mods ==> Incomparable(d.path, q))
      ensures GetAt(ApplyMods(m, mods, add), q) == GetAt(m, q)
    {
      AllKeepOther(m, mods, add, q);
    }
  }

  // ---------------------------------------------------------------- any order

  ghost predicate NonEmptyPaths(mods: seq<Mod>) {
    forall d :: d in mods ==> d.path != []
  }

  function Without(mods: seq<Mod>, i: nat): seq<Mod>
    requires i < |mods|
  {
    mods[..i] + mods[i+1..]
  }

  lemma WithoutElements(mods: seq<Mod>, i: nat)
    requires i < |mods|
    ensures multiset(mods) == multiset(Without(mods, i)) + multiset{mods[i]}
    ensures forall d :: d in Without(mods, i) ==> d in mods
  {
    assert mods == mods[..i] + [mods[i]] + mods[i+1..];
  }

  /** A modification that is incomparable with those before it can be applied first. */
  lemma {:induction false} MoveToFront(m: Fields, mods: seq<Mod>, i: nat, add: Add)
    requires i < |mods| && NonEmptyPaths(mods)
    requires forall j :: 0 <= j < i ==> Incomparable(mods[j].path, mods[i].path)
    ensures NonEmptyPaths(Without(mods, i)) && mods[i].path != []
    ensures ApplyMods(m, mods, add)
      == ApplyMods(ApplyAt(m, mods[i].path, mods[i].value, add), Without(mods, i), add)
    decreases i
  {
    hide ApplyAt;
    WithoutElements(mods, i);
    assert mods[i] in mods && mods[0] in mods;
    if i == 0 {
      assert Without(mods, 0) == mods[1..];
    } else {
      var first := ApplyAt(m, mods[0].path, mods[0].value, add);
      MoveToFront(first, mods[1..], i - 1, add);
      assert Without(mods, i)[0] == mods[0];
      assert Without(mods, i)[1..] == Without(mods[1..], i - 1);
      Commute(m, mods[0].path, mods[0].value, mods[i].path, mods[i].value, add);
    }
  }

  /** The first element of a permutation, found in the other sequence; the rest is again a permutation. */
  lemma PermutationTail(a: seq<Mod>, b: seq<Mod>) returns (i: nat)
    requires a != [] && multiset(a) == multiset(b)
    ensures i < |b| && b[i] == a[0] && multiset(Without(b, i)) == multiset(a[1..])
  {
    assert a[0] in multiset(b);
    i :| 0 <= i < |b| && b[i] == a[0];
    WithoutElements(b, i);
    assert a == [a[0]] + a[1..];
    assert multiset(a) == multiset(a[1..]) + multiset{a[0]};
    assert multiset(Without(b, i)) == multiset(b) - multiset{a[0]} == multiset(a[1..]);
  }

  lemma EitherWay(p: Path, q: Path)
    ensures Incomparable(p, q) == Incomparable(q, p)
  {
  }

  lemma {:induction false} PrefixFreePermutation(a: seq<Mod>, b: seq<Mod>)
    requires PrefixFree(a) && multiset(a) == multiset(b)
    ensures PrefixFree(b)
  {
    hide Incomparable;
    if a != [] {
      var i := PermutationTail(a, b);
      PrefixFreePermutation(a[1..], Without(b, i));
      forall k | 0 <= k < |b| && k != i ensures Incomparable(a[0].path, b[k].path) {
        assert b[k] == Without(b, i)[if k < i then k else k - 1];
        assert b[k] in multiset(a[1..]);
        EitherWay(a[0].path, b[k].path);
      }
      forall k, l | 0 <= k < l < |b| ensures Incomparable(b[k].path, b[l].path) {
        EitherWay(b[k].path, b[l].path);
        if k != i && l != i {
          assert b[k] == Without(b, i)[if k < i then k else k - 1];
          assert b[l] == Without(b, i)[if l < i then l else l - 1];
        }
      }
    } else {
      assert |multiset(b)| == 0;
    }
  }

  /** Accepted modifications mean the same in every order. */
  lemma {:induction false} AnyOrder(m: Fields, a: seq<Mod>, b: seq<Mod>, add: Add)
    requires PrefixFree(a) && NonEmptyPaths(a) && multiset(a) == multiset(b)
    ensures NonEmptyPaths(b) && ApplyMods(m, a, add) == ApplyMods(m, b, add)
    decreases |a|
  {
    hide ApplyAt, Incomparable;
    forall d | d in b ensures d.path != [] { assert d in multiset(a); }
    if a == [] {
      assert |multiset(b)| == 0;
    } else {
      var i := PermutationTail(a, b);
      PrefixFreePermutation(a, b);
      MoveToFront(m, b, i, add);
      AnyOrder(ApplyAt(m, a[0].path, a[0].value, add), a[1..], Without(b, i), add);
    }
  }

  // ---------------------------------------------------------------- compiling modifications

  datatype Transform = Transform(path: string, amount: Value)

  /** What an Update sends: the fields to set, the paths to set or delete, and the increments. */
  datatype Compiled = Compiled(fields: Fields, mask: seq<string>, transforms: seq<Transform>)

  datatype CompileResult = Done(c: Compiled) | EncodeError | PathError

  /** setAtFieldPath: creates intermediate maps, and fails when a non-final component is not a map. */
  function SetAtFieldPath(m: Fields, fp: Path, v: Value): Option<Fields>
    requires fp != []
    decreases |fp|
  {
    var k := fp[0];
    if |fp| == 1 then Some(m[k := v])
    else if k in m && !m[k].MapValue? then None
    else
      match SetAtFieldPath(if k in m then m[k].fields else map[], fp[1..], v)
      case None => None
      case Some(sub) => Some(m[k := MapValue(sub)])
  }

  predicate Encodable(v: ModValue) {
    v != Unencodable && v != Increment(NotANumber)
  }

  const NO_ADD: Add := (old_: Option<Value>, v: Value) => v

  /** The fields that the first to last of these modifications set, in an empty document. */
  ghost function SetAll(mods: seq<Mod>): Fields
    requires NonEmptyPaths(mods)
  {
    if mods == [] then map[] else
      var last := mods[|mods|-1];
      var m := SetAll(mods[..|mods|-1]);
      if last.value.SetField? then ApplyAt(m, last.path, last.value, NO_ADD) else m
  }

  ghost function MaskOf(mods: seq<Mod>): seq<string> {
    if mods == [] then [] else
      var last := mods[|mods|-1];
      var before := MaskOf(mods[..|mods|-1]);
      if last.value.Increment? then before else before + [ToServiceFieldPath(last.path)]
  }

  ghost function TransformsOf(mods: seq<Mod>): seq<Transform> {
    if mods == [] then [] else
      var last := mods[|mods|-1];
      var before := TransformsOf(mods[..|mods|-1]);
      match last.value
      case Increment(Number(n)) => before + [Transform(ToServiceFieldPath(last.path), n)]
      case _ => before
  }

  /** No proper prefix of the path holds something that is not a map. */
  ghost predicate Open(m: Fields, p: Path)
    requires p != []
    decreases |p|
  {
    |p| == 1 || (p[0] in m ==> m[p[0]].MapValue? && Open(m[p[0]].fields, p[1..]))
  }

  lemma {:induction false} SetAtOpen(m: Fields, p: Path, v: Value)
    requires p != [] && Open(m, p)
    ensures SetAtFieldPath(m, p, v) == Some(ApplyAt(m, p, SetField(v), NO_ADD))
    decreases |p|
  {
    if |p| > 1 {
      var sub := if p[0] in m then m[p[0]].fields else map[];
      assert Open(sub, p[1..]) by { if p[0] !in m { OpenEmpty(p[1..]); } }
      SetAtOpen(sub, p[1..], v);
    }
  }

  /** On any other path it fails. */
  lemma {:induction false} SetAtBlocked(m: Fields, p: Path, v: Value)
    requires p != [] && !Open(m, p)
    ensures SetAtFieldPath(m, p, v) == None
    decreases |p|
  {
    if m[p[0]].MapValue? { SetAtBlocked(m[p[0]].fields, p[1..], v); }
  }

  lemma OpenEmpty(p: Path)
    requires p != []
    ensures Open(map[], p)
  {
  }

  /** Setting one path leaves an incomparable one open, and what is there unchanged. */
  lemma {:induction false} SetKeepsOther(m: Fields, p: Path, v: Value, q: Path)
    requires p != [] && q != [] && Incomparable(p, q)
    ensures Open(m, q) ==> Open(ApplyAt(m, p, SetField(v), NO_ADD), q)
    ensures GetAt(ApplyAt(m, p, SetField(v), NO_ADD), q) == GetAt(m, q)
    decreases |p|
  {
    if p[0] == q[0] {
      IncomparableTails(p, q);
      var sub := SubFields(Lookup(m, p[0]));
      SetKeepsOther(sub, p[1..], v, q[1..]);
      if p[0] !in m || !m[p[0]].MapValue? {
        OpenEmpty(q[1..]);
      }
    }
  }

  ghost function GetAt(m: Fields, p: Path): Option<Value>
    requires p != []
    decreases |p|
  {
    if p[0] !in m then None
    else if |p| == 1 then Some(m[p[0]])
    else if m[p[0]].MapValue? then GetAt(m[p[0]].fields, p[1..])
    else None
  }

  lemma {:induction false} GetOfSet(m: Fields, p: Path, v: Value)
    requires p != []
    ensures GetAt(ApplyAt(m, p, SetField(v), NO_ADD), p) == Some(v)
    decreases |p|
  {
    if |p| > 1 { GetOfSet(SubFields(Lookup(m, p[0])), p[1..], v); }
  }

  lemma {:induction false} SetAllKeepsOther(mods: seq<Mod>, q: Path)
    requires NonEmptyPaths(mods) && q != [] && forall d :: d in mods ==> Incomparable(d.path, q)
    ensures Open(SetAll(mods), q) && GetAt(SetAll(mods), q) == None
  {
    if mods == [] {
      OpenEmpty(q);
    } else {
      var last := mods[|mods|-1];
      assert last in mods;
      SetAllKeepsOther(mods[..|mods|-1], q);
      if last.value.SetField? { SetKeepsOther(SetAll(mods[..|mods|-1]), last.path, last.value.value, q); }
    }
  }

  /** In the compiled fields, each path holds the value its modification sets, and nothing otherwise. */
  lemma {:induction false} SetAllHolds(mods: seq<Mod>, i: nat)
    requires NonEmptyPaths(mods) && PrefixFree(mods) && i < |mods| && mods[i].path != []
    ensures GetAt(SetAll(mods), mods[i].path)
      == if mods[i].value.SetField? then Some(mods[i].value.value) else None
    decreases |mods|
  {
    var n := |mods| - 1;
    var last := mods[n];
    assert last in mods && mods[i] in mods;
    var init := mods[..n];
    forall d | d in init ensures Incomparable(d.path, last.path) {
      var j :| 0 <= j < n && mods[j] == d;
    }
    if i == n {
      SetAllKeepsOther(init, last.path);
      if last.value.SetField? { GetOfSet(SetAll(init), last.path, last.value.value); }
    } else {
      assert init[i] == mods[i];
      SetAllHolds(init, i);
      if last.value.SetField? { SetKeepsOther(SetAll(init), last.path, last.value.value, mods[i].path); }
    }
  }

  /** Compiles accepted modifications. It fails only on a value that cannot be encoded, never on a path. */
  method ProcessMods(mods: seq<Mod>) returns (r: CompileResult)
    requires PrefixFree(mods) && NonEmptyPaths(mods)
    ensures r.Done? <==> forall d :: d in mods ==> Encodable(d.value)
    ensures r != PathError
    ensures r.Done? ==> r.c == Compiled(SetAll(mods), MaskOf(mods), TransformsOf(mods))
  {
    hide ApplyAt, SetAtFieldPath, Open;
    var fields: Fields := map[];
    var maskPaths: seq<string> := [];
    var transforms: seq<Transform> := [];
    for i := 0 to |mods|
      invariant forall j :: 0 <= j < i ==> Encodable(mods[j].value)
      invariant fields == SetAll(mods[..i]) && maskPaths == MaskOf(mods[..i]) && transforms == TransformsOf(mods[..i])
    {
      var m := mods[i];
      assert m in mods;
      assert mods[..i+1][..i] == mods[..i];
      var sfp := ToServiceFieldPath(m.path);
      match m.value {
        case Increment(amount) =>
          if amount == NotANumber { return EncodeError; }
          transforms := transforms + [Transform(sfp, amount.v)];
        case DeleteField =>
          maskPaths := maskPaths + [sfp];
        case Unencodable =>
          return EncodeError;
        case SetField(v) =>
          maskPaths := maskPaths + [sfp];
          forall d | d in mods[..i] ensures Incomparable(d.path, m.path) {}
          SetAllKeepsOther(mods[..i], m.path);
          SetAtOpen(fields, m.path, v);
          var updated := SetAtFieldPath(fields, m.path, v);
          if updated == None { return PathError; }
          fields := updated.value;
      }
    }
    assert mods[..|mods|] == mods;
    r := Done(Compiled(fields, maskPaths, transforms));
  }

  // ---------------------------------------------------------------- what the compiled form means

  /** The update write: each path of the mask takes its value from the fields, or is deleted. */
  ghost function ApplyMask(doc: Fields, fields: Fields, mask: seq<string>, add: Add): Fields
  {
    if mask == [] then doc else
      var before := ApplyMask(doc, fields, mask[..|mask|-1], add);
      match ReadServicePath(mask[|mask|-1])
      case None => before
      case Some(p) =>
        if p == [] then before else
          ApplyAt(before, p, match GetAt(fields, p) case Some(v) => SetField(v) case None => DeleteField, add)
  }

  /** The transform write: each path is incremented. */
  ghost function ApplyTransforms(doc: Fields, transforms: seq<Transform>, add: Add): Fields
  {
    if transforms == [] then doc else
      var before := ApplyTransforms(doc, transforms[..|transforms|-1], add);
      var t := transforms[|transforms|-1];
      match ReadServicePath(t.path)
      case None => before
      case Some(p) => if p == [] then before else ApplyAt(before, p, Increment(Number(t.amount)), add)
  }

  ghost function ApplyCompiled(doc: Fields, c: Compiled, add: Add): Fields {
    ApplyTransforms(ApplyMask(doc, c.fields, c.mask, add), c.transforms, add)
  }

  ghost function MaskMods(mods: seq<Mod>): (r: seq<Mod>)
    ensures forall d :: d in r ==> d in mods
  {
    if mods == [] then [] else
      var last := mods[|mods|-1];
      var before := MaskMods(mods[..|mods|-1]);
      if last.value.Increment? then before else before + [last]
  }

  ghost function IncMods(mods: seq<Mod>): (r: seq<Mod>)
    ensures forall d :: d in r ==> d in mods
  {
    if mods == [] then [] else
      var last := mods[|mods|-1];
      var before := IncMods(mods[..|mods|-1]);
      if last.value.Increment? then before + [last] else before
  }

  lemma {:induction false} Reordered(mods: seq<Mod>)
    ensures multiset(MaskMods(mods) + IncMods(mods)) == multiset(mods)
  {
    if mods != [] {
      var init, last := mods[..|mods|-1], mods[|mods|-1];
      Reordered(init);
      calc {
        multiset(mods);
        { assert mods == init + [last]; }
        multiset(init) + multiset{last};
        multiset(MaskMods(init)) + multiset(IncMods(init)) + multiset{last};
        multiset(MaskMods(mods)) + multiset(IncMods(mods));
      }
    }
  }

  lemma {:induction false} ApplyModsConcat(m: Fields, a: seq<Mod>, b: seq<Mod>, add: Add)
    requires NonEmptyPaths(a) && NonEmptyPaths(b)
    ensures NonEmptyPaths(a + b)
    ensures ApplyMods(m, a + b, add) == ApplyMods(ApplyMods(m, a, add), b, add)
    decreases |a|
  {
    if a == [] {
      assert a + b == b;
    } else {
      assert (a + b)[1..] == a[1..] + b;
      assert a[0] in a;
      ApplyModsConcat(ApplyAt(m, a[0].path, a[0].value, add), a[1..], b, add);
    }
  }

  lemma ApplyModsSnoc(m: Fields, a: seq<Mod>, d: Mod, add: Add)
    requires NonEmptyPaths(a) && d.path != []
    ensures NonEmptyPaths(a + [d])
    ensures ApplyMods(m, a + [d], add) == ApplyAt(ApplyMods(m, a, add), d.path, d.value, add)
  {
    ApplyModsConcat(m, a, [d], add);
    assert [d][1..] == [];
  }

  lemma MaskSnoc(doc: Fields, fields: Fields, mask: seq<string>, p: Path, add: Add)
    requires p != []
    ensures ApplyMask(doc, fields, mask + [ToServiceFieldPath(p)], add)
      == ApplyAt(ApplyMask(doc, fields, mask, add), p,
           match GetAt(fields, p) case Some(v) => SetField(v) case None => DeleteField, add)
  {
    ReadOfPrinted(p);
    assert (mask + [ToServiceFieldPath(p)])[..|mask|] == mask;
  }

  lemma TransformsSnoc(doc: Fields, ts: seq<Transform>, p: Path, n: Value, add: Add)
    requires p != []
    ensures ApplyTransforms(doc, ts + [Transform(ToServiceFieldPath(p), n)], add)
      == ApplyAt(ApplyTransforms(doc, ts, add), p, Increment(Number(n)), add)
  {
    ReadOfPrinted(p);
    assert (ts + [Transform(ToServiceFieldPath(p), n)])[..|ts|] == ts;
  }

  lemma {:induction false} MaskMeaning(doc: Fields, fields: Fields, mods: seq<Mod>, add: Add)
    requires NonEmptyPaths(mods) && forall d :: d in mods ==> Encodable(d.value)
    requires forall d :: d in mods ==> GetAt(fields, d.path) == if d.value.SetField? then Some(d.value.value) else None
    ensures ApplyMask(doc, fields, MaskOf(mods), add) == ApplyMods(doc, MaskMods(mods), add)
  {
    hide ApplyAt, ToServiceFieldPath, GetAt;
    if mods != [] {
      var last, init := mods[|mods|-1], mods[..|mods|-1];
      assert last in mods;
      MaskMeaning(doc, fields, init, add);
      if !last.value.Increment? {
        MaskSnoc(doc, fields, MaskOf(init), last.path, add);
        ApplyModsSnoc(doc, MaskMods(init), last, add);
      }
    }
  }

  lemma {:induction false} TransformsMeaning(doc: Fields, mods: seq<Mod>, add: Add)
    requires NonEmptyPaths(mods) && forall d :: d in mods ==> Encodable(d.value)
    ensures ApplyTransforms(doc, TransformsOf(mods), add) == ApplyMods(doc, IncMods(mods), add)
  {
    hide ApplyAt, ToServiceFieldPath;
    if mods != [] {
      var last, init := mods[|mods|-1], mods[..|mods|-1];
      assert last in mods;
      TransformsMeaning(doc, init, add);
      if last.value.Increment? {
        TransformsSnoc(doc, TransformsOf(init), last.path, last.value.amount.v, add);
        ApplyModsSnoc(doc, IncMods(init), last, add);
      }
    }
  }

  /** The compiler preserves meaning: for accepted, encodable modifications, what is sent changes any
      document as the modifications do one at a time, in any order. */
  lemma CompiledMeaning(doc: Fields, mods: seq<Mod>, order: seq<Mod>, add: Add)
    requires PrefixFree(mods) && NonEmptyPaths(mods) && (forall d :: d in mods ==> Encodable(d.value))
    requires multiset(order) == multiset(mods)
    ensures NonEmptyPaths(order)
    ensures ApplyCompiled(doc, Compiled(SetAll(mods), MaskOf(mods), TransformsOf(mods)), add)
      == ApplyMods(doc, order, add)
  {
    hide ApplyAt, SetAll, MaskOf, TransformsOf, ApplyMask, ApplyTransforms, ApplyMods, GetAt, MaskMods, IncMods;
    forall d | d in mods
      ensures GetAt(SetAll(mods), d.path) == if d.value.SetField? then Some(d.value.value) else None
    {
      var i :| 0 <= i < |mods| && mods[i] == d;
      SetAllHolds(mods, i);
    }
    MaskMeaning(doc, SetAll(mods), mods, add);
    TransformsMeaning(ApplyMods(doc, MaskMods(mods), add), mods, add);
    ApplyModsConcat(doc, MaskMods(mods), IncMods(mods), add);
    Reordered(mods);
    AnyOrder(doc, mods, MaskMods(mods) + IncMods(mods), add);
    AnyOrder(doc, mods, order, add);
  }

  /** So compiled modifications leave of a document what each of them says, and everything else as it was. */
  lemma CompiledLeaves(doc: Fields, mods: seq<Mod>, add: Add)
    requires PrefixFree(mods) && NonEmptyPaths(mods) && forall d :: d in mods ==> Encodable(d.value)
    ensures
      LeavesAll(mods, add, doc, ApplyCompiled(doc, Compiled(SetAll(mods), MaskOf(mods), TransformsOf(mods)), add))
  {
    CompiledMeaning(doc, mods, mods, add);
    EveryEffect(doc, mods, add);
  }
}
