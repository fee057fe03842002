/** The Go types and values that docstore/driver/codec.go encodes, in place of reflection. */
module GoTypes {
  import opened Wrappers
  import opened Listing

  datatype Width = W8 | W16 | W32 | W64

  const TWO63 := 0x8000_0000_0000_0000
  const TWO64 := 0x1_0000_0000_0000_0000

  function UintLimit(w: Width): int {
    match w case W8 => 0x100 case W16 => 0x1_0000 case W32 => 0x1_0000_0000 case W64 => TWO64
  }

  predicate FitsUint(u: int, w: Width) { 0 <= u < UintLimit(w) }

  predicate FitsInt(i: int, w: Width) { -UintLimit(w) <= 2 * i < UintLimit(w) }

  /** int64(u) for a uint64, and uint64(i) for an int64: the casts that wrap. */
  function ToInt64(u: int): int { if u < TWO63 then u else u - TWO64 }

  function ToUint64(i: int): int { if i < 0 then i + TWO64 else i }

  /** The ranges of the integer types. */
  lemma Ranges(x: int)
    ensures FitsInt(x, W8) <==> -128 <= x <= 127
    ensures FitsInt(x, W16) <==> -32_768 <= x <= 32_767
    ensures FitsInt(x, W32) <==> -2_147_483_648 <= x <= 2_147_483_647
    ensures FitsInt(x, W64) <==> -9_223_372_036_854_775_808 <= x <= 9_223_372_036_854_775_807
    ensures FitsUint(x, W8) <==> 0 <= x <= 255
    ensures FitsUint(x, W16) <==> 0 <= x <= 65_535
    ensures FitsUint(x, W32) <==> 0 <= x <= 4_294_967_295
    ensures FitsUint(x, W64) <==> 0 <= x <= 18_446_744_073_709_551_615
  {
  }

  /** A cast keeps what a number is up to multiples of 2 to the 64, in the range of the other type. */
  lemma CastsCongruent(x: int)
    ensures FitsUint(x, W64) ==>
      FitsInt(ToInt64(x), W64) && (ToInt64(x) == x || ToInt64(x) == x - 18_446_744_073_709_551_616)
    ensures FitsInt(x, W64) ==>
      FitsUint(ToUint64(x), W64) && (ToUint64(x) == x || ToUint64(x) == x + 18_446_744_073_709_551_616)
  {
  }

  lemma CastsInvert(u: int)
    requires FitsUint(u, W64)
    ensures FitsInt(ToInt64(u), W64) && ToUint64(ToInt64(u)) == u
  {
  }

  // ---------------------------------------------------------------- marshaled times

  /** The low n bytes of a number, the highest first. */
  function BigEndian(x: int, n: nat): (bs: seq<byte>)
    ensures |bs| == n
    decreases n
  {
    if n == 0 then [] else BigEndian(x / 256, n - 1) + [(x % 256) as byte]
  }

  /** MarshalBinary of a UTC time.Time, x nanoseconds after its zero time: the version, the seconds, the
      nanoseconds, and the zone offset that stands for UTC. */
  function MarshalTime(x: int): seq<byte> {
    [1] + BigEndian(x / 1_000_000_000, 8) + BigEndian(x % 1_000_000_000, 4) + [255, 255]
  }

  function Power256(n: nat): nat {
    if n == 0 then 1 else 256 * Power256(n - 1)
  }

  /** The number that bytes are, the highest first. */
  function ValueOf(bs: seq<byte>): nat {
    if bs == [] then 0 else 256 * ValueOf(bs[..|bs|-1]) + bs[|bs|-1] as nat
  }

  lemma OneMoreByte(x: int, k: int, p: nat, v: nat)
    requires x / 256 == k * p + v && v < p
    ensures x == k * (256 * p) + (256 * v + x % 256) && 256 * v + x % 256 < 256 * p
  {
    assert x == 256 * (x / 256) + x % 256;
    assert 256 * (k * p) == k * (256 * p);
  }

  /** The bytes are those of the number, up to multiples of 256 to the n. */
  lemma {:induction false} BigEndianValue(x: int, n: nat) returns (k: int)
    ensures x == k * Power256(n) + ValueOf(BigEndian(x, n)) && ValueOf(BigEndian(x, n)) < Power256(n)
    decreases n
  {
    if n == 0 {
      k := x;
    } else {
      k := BigEndianValue(x / 256, n - 1);
      assert BigEndian(x, n)[..n-1] == BigEndian(x / 256, n - 1);
      OneMoreByte(x, k, Power256(n - 1), ValueOf(BigEndian(x / 256, n - 1)));
    }
  }

  /** The fifteen bytes of a marshaled time from its zero time on, before the seconds overflow. */
  lemma MarshaledTime(x: nat)
    requires x / 1_000_000_000 < Power256(8)
    ensures
      var bs := MarshalTime(x);
      |bs| == 15 && bs[0] == 1 && bs[13..] == [255, 255]
      && ValueOf(bs[1..9]) == x / 1_000_000_000 && ValueOf(bs[9..13]) == x % 1_000_000_000
  {
    var bs, seconds, nanos := MarshalTime(x), x / 1_000_000_000, x % 1_000_000_000;
    assert bs[1..9] == BigEndian(seconds, 8) && bs[9..13] == BigEndian(nanos, 4);
    var k := BigEndianValue(seconds, 8);
    NoMultiple(seconds, k, Power256(8), ValueOf(BigEndian(seconds, 8)));
    var l := BigEndianValue(nanos, 4);
    assert Power256(4) == 4_294_967_296 by {
      assert Power256(2) == 65_536;
    }
    NoMultiple(nanos, l, Power256(4), ValueOf(BigEndian(nanos, 4)));
  }

  lemma NoMultiple(x: int, k: int, p: int, v: int)
    requires x == k * p + v && 0 <= x < p && 0 <= v < p
    ensures x == v
  {
    AtLeastOnce(k, p);
  }

  lemma AtLeastOnce(k: int, p: int)
    requires p > 0
    ensures (k >= 1 ==> k * p >= p) && (k <= -1 ==> k * p <= -p)
  {
  }

  // ---------------------------------------------------------------- types and values

  datatype KeyType = StringKey | IntKey(w: Width) | UintKey(w: Width)

  datatype Key = StringK(s: string) | IntK(i: int) | UintK(u: int)

  /** A field of a struct, with its name and tag. */
  datatype Field = Field(name: string, typ: GoType, omitEmpty: bool)

  /** TimeT is time.Time; TimestampT and LatLngT are pointers to protocol buffers; AnyT is the empty interface. */
  datatype GoType =
    | BoolT | StringT | FloatT | IntT(w: Width) | UintT(w: Width) | TimeT | TimestampT | LatLngT
    | SliceT(elem: GoType) | ArrayT(len: nat, elem: GoType) | MapT(key: KeyType, elem: GoType)
    | PointerT(elem: GoType) | StructT(fields: seq<Field>) | AnyT

  /** Nil is a nil slice, map, pointer or interface. An interface holds a type and a value of it. */
  datatype GoValue =
    | Nil | BoolV(b: bool) | StringV(s: string) | FloatV(d: real) | IntV(i: int) | UintV(u: int)
    | TimeV(t: int) | TimestampV(t: int) | LatLngV(lat: real, lng: real)
    | ListV(elems: seq<GoValue>) | MapV(entries: map<Key, GoValue>) | PointerV(elem: GoValue)
    | StructV(values: seq<GoValue>) | AnyV(typ: GoType, value: GoValue)

  const BYTES_T := SliceT(UintT(W8))

  predicate HasKeyType(t: KeyType, k: Key) {
    match t
    case StringKey => k.StringK?
    case IntKey(w) => k.IntK? && FitsInt(k.i, w)
    case UintKey(w) => k.UintK? && FitsUint(k.u, w)
  }

  predicate DistinctFields(fs: seq<Field>) {
    forall i, j :: 0 <= i < j < |fs| ==> fs[i].name != fs[j].name
  }

  /** Fields of a struct have different names. */
  predicate GoodType(t: GoType)
    decreases t
  {
    match t
    case SliceT(e) => GoodType(e)
    case ArrayT(_, e) => GoodType(e)
    case MapT(_, e) => GoodType(e)
    case PointerT(e) => GoodType(e)
    case StructT(fs) =>
      DistinctFields(fs) && forall i :: 0 <= i < |fs| ==> GoodType(fs[i].typ)
    case _ => true
  }

  ghost predicate HasType(t: GoType, v: GoValue)
    decreases v
  {
    match v
    case Nil => Nillable(t)
    case BoolV(_) => t == BoolT
    case StringV(_) => t == StringT
    case FloatV(_) => t == FloatT
    case IntV(i) => t.IntT? && FitsInt(i, t.w)
    case UintV(u) => t.UintT? && FitsUint(u, t.w)
    case TimeV(_) => t == TimeT
    case TimestampV(_) => t == TimestampT
    case LatLngV(_, _) => t == LatLngT
    case ListV(elems) =>
      (t.SliceT? || (t.ArrayT? && |elems| == t.len)) && forall i :: 0 <= i < |elems| ==> HasType(t.elem, elems[i])
    case MapV(entries) => t.MapT? && forall k :: k in entries ==> HasKeyType(t.key, k) && HasType(t.elem, entries[k])
    case PointerV(e) => t.PointerT? && HasType(t.elem, e)
    case StructV(values) =>
      t.StructT? && |values| == |t.fields| && forall i :: 0 <= i < |values| ==> HasType(t.fields[i].typ, values[i])
    case AnyV(typ, x) => t == AnyT && typ != AnyT && GoodType(typ) && HasType(typ, x)
  }

  /** Only two fields of one name make a type bad, in whatever it is built into. */
  lemma GoodTypeIff(t: GoType)
    ensures t.SliceT? || t.ArrayT? || t.MapT? || t.PointerT? ==> (GoodType(t) <==> GoodType(t.elem))
    ensures t.StructT? ==>
      (GoodType(t) <==>
        (forall i, j :: 0 <= i < j < |t.fields| ==> t.fields[i].name != t.fields[j].name)
        && forall i :: 0 <= i < |t.fields| ==> GoodType(t.fields[i].typ))
    ensures !t.SliceT? && !t.ArrayT? && !t.MapT? && !t.PointerT? && !t.StructT? ==> GoodType(t)
  {
  }

  predicate Nillable(t: GoType) {
    t.SliceT? || t.MapT? || t.PointerT? || t.AnyT? || t.TimestampT? || t.LatLngT?
  }

  function Zero(t: GoType): GoValue
    decreases t
  {
    match t
    case BoolT => BoolV(false)
    case StringT => StringV("")
    case FloatT => FloatV(0.0)
    case IntT(_) => IntV(0)
    case UintT(_) => UintV(0)
    case TimeT => TimeV(0)
    case ArrayT(n, e) => ListV(seq(n, i requires 0 <= i < n => Zero(e)))
    case StructT(fs) => StructV(seq(|fs|, i requires 0 <= i < |fs| => Zero(fs[i].typ)))
    case _ => Nil
  }

  /** Whether encoding the value ends. It panics on a nil *time.Time, whose MarshalBinary method is called;
      a field that is omitted is not encoded. */
  predicate Safe(t: GoType, v: GoValue)
    requires HasType(t, v)
    decreases v
  {
    match v
    case Nil => t != PointerT(TimeT)
    case ListV(elems) => forall i :: 0 <= i < |elems| ==> Safe(t.elem, elems[i])
    case MapV(entries) => forall k :: k in entries ==> Safe(t.elem, entries[k])
    case PointerV(e) => Safe(t.elem, e)
    case StructV(values) =>
      forall i :: 0 <= i < |values| ==> Omitted(t.fields[i], values[i]) || Safe(t.fields[i].typ, values[i])
    case AnyV(typ, x) => Safe(typ, x)
    case _ => true
  }

  /** A field that encoding skips. */
  predicate Omitted(f: Field, v: GoValue) {
    f.omitEmpty && IsEmptyValue(v)
  }

  /** What omitempty leaves out: nil, the zero value of a basic type, and a slice, array or map without elements. */
  lemma OmittedIff(f: Field, v: GoValue)
    requires HasType(f.typ, v)
    ensures Omitted(f, v) <==>
      f.omitEmpty
      && (v == Nil
          || ((f.typ.BoolT? || f.typ.StringT? || f.typ.FloatT? || f.typ.IntT? || f.typ.UintT?) && v == Zero(f.typ))
          || (v.ListV? && |v.elems| == 0) || (v.MapV? && |v.entries| == 0))
  {
  }

  /** The zero values: those of the basic types, and of arrays and structs element by element; nil for the rest. */
  lemma ZeroIs(t: GoType)
    ensures t == BoolT ==> Zero(t) == BoolV(false)
    ensures t == StringT ==> Zero(t) == StringV("")
    ensures t == FloatT ==> Zero(t) == FloatV(0.0)
    ensures t.IntT? ==> Zero(t) == IntV(0)
    ensures t.UintT? ==> Zero(t) == UintV(0)
    ensures t.SliceT? || t.MapT? || t.PointerT? || t.AnyT? || t.TimestampT? || t.LatLngT? <==> Zero(t) == Nil
    ensures t == TimeT ==> Zero(t) == TimeV(0)
    ensures t.ArrayT? ==>
      Zero(t).ListV? && |Zero(t).elems| == t.len && forall x :: x in Zero(t).elems ==> x == Zero(t.elem)
    ensures t.StructT? ==>
      Zero(t).StructV? && |Zero(t).values| == |t.fields|
      && forall i :: 0 <= i < |t.fields| ==> Zero(t).values[i] == Zero(t.fields[i].typ)
    ensures GoodType(t) ==> HasType(t, Zero(t))
    decreases t
  {
    if t.ArrayT? { ZeroIs(t.elem); }
    if t.StructT? {
      forall i | 0 <= i < |t.fields| { ZeroIs(t.fields[i].typ); }
    }
  }

  predicate IsEmptyValue(v: GoValue) {
    match v
    case Nil => true
    case BoolV(b) => !b
    case StringV(s) => s == ""
    case FloatV(d) => d == 0.0
    case IntV(i) => i == 0
    case UintV(u) => u == 0
    case ListV(elems) => elems == []
    case MapV(entries) => entries == map[]
    case _ => false
  }

  // ---------------------------------------------------------------- map keys

  function Digit(d: nat): (c: char)
    requires d < 10
    ensures IsDigit(c) && DigitValue(c) == d
  {
    ('0' as int + d) as char
  }

  predicate IsDigit(c: char) { '0' <= c <= '9' }

  function DigitValue(c: char): nat
    requires IsDigit(c)
  {
    c as int - '0' as int
  }

  /** strconv.FormatUint(n, 10). */
  function FormatUint(n: nat): (s: string)
    ensures s != "" && IsDigit(s[0])
  {
    if n < 10 then [Digit(n)] else FormatUint(n / 10) + [Digit(n % 10)]
  }

  function FormatInt(i: int): string {
    if i < 0 then "-" + FormatUint(-i) else FormatUint(i)
  }

  function ParseDigits(s: string): Option<nat> {
    if s == "" || !IsDigit(s[|s|-1]) then None
    else if |s| == 1 then Some(DigitValue(s[0]))
    else
      match ParseDigits(s[..|s|-1])
      case None => None
      case Some(n) => Some(10 * n + DigitValue(s[|s|-1]))
  }

  /** strconv.ParseUint(s, 10, 64). */
  function ParseUint(s: string): Option<int> {
    match ParseDigits(s)
    case None => None
    case Some(n) => if n < TWO64 then Some(n) else None
  }

  /** strconv.ParseInt(s, 10, 64). */
  function ParseInt(s: string): Option<int> {
    if s == "" then None
    else
      match ParseDigits(if s[0] == '-' || s[0] == '+' then s[1..] else s)
      case None => None
      case Some(n) =>
        var m: int := n;
        var i := if s[0] == '-' then -m else m;
        if -TWO63 <= i < TWO63 then Some(i) else None
  }

  function StringifyMapKey(k: Key): string {
    match k
    case StringK(s) => s
    case IntK(i) => FormatInt(i)
    case UintK(u) => if u >= 0 then FormatUint(u) else ""
  }

  function UnstringifyMapKey(s: string, t: KeyType): Option<Key> {
    match t
    case StringKey => Some(StringK(s))
    case IntKey(w) =>
      (match ParseInt(s)
       case None => None
       case Some(i) => if FitsInt(i, w) then Some(IntK(i)) else None)
    case UintKey(w) =>
      (match ParseUint(s)
       case None => None
       case Some(u) => if FitsUint(u, w) then Some(UintK(u)) else None)
  }

  /** Digits, by their codes: all characters of a number are, and each adds to ten times what comes before. */
  lemma {:induction false} DigitsMean(s: string)
    ensures ParseDigits(s).Some? <==> s != "" && forall i :: 0 <= i < |s| ==> 48 <= s[i] as int <= 57
    ensures ParseDigits(s).Some? ==>
      var last := s[|s|-1] as int - 48;
      ParseDigits(s).value
      == last + if |s| == 1 then 0 else match ParseDigits(s[..|s|-1]) case Some(n) => 10 * n case None => 0
  {
    if |s| > 1 { DigitsMean(s[..|s|-1]); }
  }

  /** A signed key may begin with a sign, an unsigned one may not, and both must be in the range of 64 bits. */
  lemma ParsesMean(s: string, n: nat)
    requires ParseDigits(s) == Some(n)
    ensures ParseInt(s) == ParseInt("+" + s) == if n < 0x8000_0000_0000_0000 then Some(n) else None
    ensures ParseInt("-" + s) == if n <= 0x8000_0000_0000_0000 then Some(0 - n) else None
    ensures ParseUint(s) == if n < 0x1_0000_0000_0000_0000 then Some(n) else None
  {
    DigitsMean(s);
    assert ("+" + s)[1..] == s && ("-" + s)[1..] == s;
  }

  /** Nothing else parses. */
  lemma ParsesOnly(s: string)
    ensures ParseUint(s).Some? ==> ParseDigits(s).Some?
    ensures ParseInt(s).Some? ==>
      s != "" && (ParseDigits(s).Some? || ((s[0] == '-' || s[0] == '+') && ParseDigits(s[1..]).Some?))
  {
  }

  lemma {:induction false} ParseOfFormat(n: nat)
    ensures ParseDigits(FormatUint(n)) == Some(n)
  {
    if n >= 10 {
      ParseOfFormat(n / 10);
      var s := FormatUint(n);
      assert s[..|s|-1] == FormatUint(n / 10);
    }
  }

  /** A printed number has digits only, without leading zeros, and a minus sign if it is negative. */
  lemma {:induction false} PrintedNumber(n: nat)
    ensures ParseDigits(FormatUint(n)) == Some(n)
    ensures |FormatUint(n)| > 1 ==> FormatUint(n)[0] != '0'
    ensures n > 0 ==> FormatUint(n)[0] != '0'
    ensures FormatInt(n) == FormatUint(n) && (n > 0 ==> FormatInt(0 - n) == "-" + FormatUint(n))
    ensures StringifyMapKey(IntK(n)) == StringifyMapKey(UintK(n)) == FormatUint(n)
    ensures n > 0 ==> StringifyMapKey(IntK(0 - n)) == "-" + FormatUint(n)
  {
    ParseOfFormat(n);
    if n >= 10 { PrintedNumber(n / 10); }
  }

  /** Parsing a printed key gives the key back, over the whole range of its type. */
  lemma KeyRoundTrip(t: KeyType, k: Key)
    requires HasKeyType(t, k)
    ensures UnstringifyMapKey(StringifyMapKey(k), t) == Some(k)
  {
    hide FormatUint, ParseDigits;
    match k {
      case StringK(_) =>
      case IntK(i) =>
        ParseOfFormat(if i < 0 then -i else i);
        if i < 0 { assert FormatInt(i)[1..] == FormatUint(-i); }
      case UintK(u) => ParseOfFormat(u);
    }
  }

  /** What is parsed is a key of the type. */
  lemma ParsedKeyTyped(s: string, t: KeyType)
    ensures UnstringifyMapKey(s, t).Some? ==> HasKeyType(t, UnstringifyMapKey(s, t).value)
  {
    hide ParseInt, ParseUint;
  }

  /** So different keys are printed differently. */
  lemma KeysDistinct(t: KeyType, keys: set<Key>)
    requires forall k :: k in keys ==> HasKeyType(t, k)
    ensures forall k, l :: k in keys && l in keys && StringifyMapKey(k) == StringifyMapKey(l) ==> k == l
  {
    forall k, l | k in keys && l in keys && StringifyMapKey(k) == StringifyMapKey(l) ensures k == l {
      KeyRoundTrip(t, k);
      KeyRoundTrip(t, l);
    }
  }
}
