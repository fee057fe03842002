/** Field paths: parseFieldPath and fpHasPrefix of docstore/docstore.go, and the printed form that the
    Firestore service expects, toServiceFieldPath of docstore/gcpfirestore/fs.go. */
module FieldPaths {
  import opened Wrappers
  import opened Lex

  type Path = seq<string>

  // ---------------------------------------------------------------- dotted strings

  /** strings.Split(s, "."). */
  function Split(s: string): (r: seq<string>)
    ensures r != []
  {
    if s == [] then [[]]
    else
      var rest := Split(s[1..]);
      if s[0] == '.' then [[]] + rest
      else [[s[0]] + rest[0]] + rest[1..]
  }

  /** strings.Join(cs, "."). */
  function Join(cs: seq<string>): string {
    if cs == [] then [] else if |cs| == 1 then cs[0] else cs[0] + "." + Join(cs[1..])
  }

  lemma {:induction false} JoinOfSplit(s: string)
    ensures Join(Split(s)) == s
  {
    if s != [] {
      JoinOfSplit(s[1..]);
      var rest := Split(s[1..]);
      if s[0] == '.' {
        assert ([[]] + rest)[1..] == rest;
      } else if |rest| > 1 {
        assert ([[s[0]] + rest[0]] + rest[1..])[1..] == rest[1..];
      }
    }
  }

  /** No component holds a dot. */
  lemma {:induction false} SplitAtDots(s: string)
    ensures forall c :: c in Split(s) ==> '.' !in c
  {
    if s != [] { SplitAtDots(s[1..]); }
  }

  lemma {:induction false} SplitPlain(s: string)
    requires '.' !in s
    ensures Split(s) == [s]
  {
    if s != [] {
      SplitPlain(s[1..]);
      assert [s[0]] + s[1..] == s;
    }
  }

  lemma Longer(x: char, c: seq<string>, r: seq<string>)
    requires c != []
    ensures [[x] + (c + r)[0]] + (c + r)[1..] == ([[x] + c[0]] + c[1..]) + r
  {
  }

  lemma SplitStep(s: string)
    requires s != ""
    ensures Split(s) ==
      var rest := Split(s[1..]);
      if s[0] == '.' then [[]] + rest else [[s[0]] + rest[0]] + rest[1..]
  {
  }

  lemma {:induction false} SplitAround(a: string, rest: string)
    ensures Split(a + "." + rest) == Split(a) + Split(rest)
  {
    hide Split;
    var s, tail := a + "." + rest, Split(rest);
    SplitStep(s);
    if a == [] {
      assert s[1..] == rest;
      assert Split("") == [[]] by { SplitPlain(""); }
    } else {
      assert s[1..] == a[1..] + "." + rest && s[0] == a[0];
      SplitAround(a[1..], rest);
      SplitStep(a);
      var c := Split(a[1..]);
      if a[0] == '.' {
        assert [[]] + (c + tail) == ([[]] + c) + tail;
      } else {
        Longer(a[0], c, tail);
      }
    }
  }

  /** A dotted string has an empty component where it is empty, begins or ends with a dot, or has two in a row. */
  predicate Malformed(s: string) {
    s == "" || s[0] == '.' || EndsBadly(s)
  }

  predicate EndsBadly(s: string) {
    s != "" && (s[|s|-1] == '.' || exists i :: 0 <= i < |s| - 1 && s[i] == '.' && s[i+1] == '.')
  }

  lemma EndsBadlyNext(s: string)
    requires s != ""
    ensures EndsBadly(s) <==> EndsBadly(s[1..]) || (s[0] == '.' && (|s| == 1 || s[1] == '.'))
  {
    var t := s[1..];
    assert forall i :: 0 <= i < |t| ==> t[i] == s[i+1];
    if i :| 0 <= i < |t| - 1 && t[i] == '.' && t[i+1] == '.' {
      assert s[i+1] == '.' && s[i+1+1] == '.';
    }
    if i :| 0 <= i < |s| - 1 && s[i] == '.' && s[i+1] == '.' {
      assert i > 0 ==> t[i-1] == '.' && t[i-1+1] == '.';
    }
  }

  lemma {:induction false} EmptyComponent(s: string)
    ensures Split(s)[0] == "" <==> s == "" || s[0] == '.'
    ensures "" in Split(s)[1..] <==> EndsBadly(s)
  {
    hide EndsBadly;
    if s == [] {
      assert !EndsBadly(s) by { NoBadEnd(); }
    } else {
      var rest := Split(s[1..]);
      EmptyComponent(s[1..]);
      EndsBadlyNext(s);
      assert rest == [rest[0]] + rest[1..];
      if s[0] == '.' {
        assert Split(s)[1..] == rest;
      } else {
        assert Split(s)[1..] == rest[1..];
      }
    }
  }

  lemma NoBadEnd()
    ensures !EndsBadly("")
  {
  }

  /** A string has a path exactly when it is well formed. */
  lemma EmptyInSplit(s: string)
    ensures "" in Split(s) <==> Malformed(s)
  {
    hide EndsBadly;
    EmptyComponent(s);
    var cs := Split(s);
    assert cs == [cs[0]] + cs[1..];
  }

  lemma {:induction false} JoinOfPrefix(a: Path, b: Path)
    requires a != [] && a <= b
    ensures Join(a) <= Join(b)
  {
    if |a| > 1 {
      assert a[1..] <= b[1..];
      JoinOfPrefix(a[1..], b[1..]);
    }
  }

  predicate ValidPath(p: Path) {
    p != [] && forall c :: c in p ==> c != ""
  }

  /** Refuses exactly the malformed strings, and otherwise gives the only components without dots that make up
      the string. */
  function ParseFieldPath(fp: string): (r: Option<Path>)
    ensures r.Some? ==> ValidPath(r.value) && Join(r.value) == fp
    ensures r.Some? ==> forall c :: c in r.value ==> '.' !in c
    ensures r == None <==> Malformed(fp)
  {
    JoinOfSplit(fp);
    SplitAtDots(fp);
    EmptyInSplit(fp);
    if fp == "" then None
    else if "" in Split(fp) then None
    else Some(Split(fp))
  }

  /** A string without a dot is one component. */
  lemma ParseOne(c: string)
    requires c != "" && '.' !in c
    ensures ParseFieldPath(c) == Some([c])
  {
    SplitPlain(c);
  }

  /** What stands before the first dot is the first component, and what follows it is parsed by itself. */
  lemma ParseMore(c: string, rest: string)
    requires c != "" && '.' !in c
    ensures ParseFieldPath(c + "." + rest) ==
      match ParseFieldPath(rest) { case None => None case Some(cs) => Some([c] + cs) }
  {
    SplitAround(c, rest);
    SplitPlain(c);
    EmptyInSplit(rest);
    EmptyInSplit(c + "." + rest);
    hide Split, Malformed;
    assert "" in [c] + Split(rest) <==> "" in Split(rest);
  }

  lemma {:induction false} JoinTwo(p: Path, q: Path)
    requires p != [] && q != []
    ensures Join(p + q) == Join(p) + "." + Join(q)
  {
    if |p| == 1 {
      assert (p + q)[1..] == q;
    } else {
      assert (p + q)[1..] == p[1..] + q;
      JoinTwo(p[1..], q);
    }
  }

  lemma JoinOfExtension(p: Path, q: Path)
    requires p != [] && p <= q
    ensures p == q || Join(p) + "." <= Join(q)
  {
    var rest := q[|p|..];
    assert q == p + rest;
    if rest != [] { JoinTwo(p, rest); }
  }

  lemma SplitOfExtension(a: string, b: string)
    requires a + "." <= b
    ensures Split(a) <= Split(b)
  {
    var rest := b[|a|+1..];
    assert b == a + "." + rest;
    SplitAround(a, rest);
  }

  /** So one path is a prefix of another exactly when its string is the other's, or that up to a dot. */
  lemma PrefixAsStrings(a: string, b: string)
    requires ParseFieldPath(a).Some? && ParseFieldPath(b).Some?
    ensures ParseFieldPath(a).value <= ParseFieldPath(b).value <==> a == b || a + "." <= b
  {
    hide Malformed, Join, Split;
    var p, q := ParseFieldPath(a).value, ParseFieldPath(b).value;
    if p <= q { JoinOfExtension(p, q); }
    if a + "." <= b { SplitOfExtension(a, b); }
  }

  /** fpHasPrefix: component by component. */
  method FpHasPrefix(fp: Path, prefix: Path) returns (r: bool)
    ensures r <==> prefix <= fp
  {
    if |fp| < |prefix| { return false; }
    for i := 0 to |prefix|
      invariant forall j :: 0 <= j < i ==> fp[j] == prefix[j]
    {
      if fp[i] != prefix[i] { return false; }
    }
    r := true;
  }

  /** A path that begins with another's components is printed after it: sorting the dotted strings
      puts every prefix before what it is a prefix of. */
  lemma PrefixSortsFirst(a: string, b: string)
    requires ParseFieldPath(a).Some? && ParseFieldPath(b).Some? && a != b
    requires ParseFieldPath(a).value <= ParseFieldPath(b).value
    ensures Less(a, b)
  {
    JoinOfPrefix(ParseFieldPath(a).value, ParseFieldPath(b).value);
    PrefixLeq(a, b);
  }

  // ---------------------------------------------------------------- the service's form

  predicate IsLetter(c: char) { 'A' <= c <= 'Z' || 'a' <= c <= 'z' || c == '_' }

  predicate IsWord(c: char) { IsLetter(c) || '0' <= c <= '9' }

  /** The components that need no quotes. */
  predicate Unquoted(key: string) {
    key != [] && IsLetter(key[0]) && forall i :: 0 <= i < |key| ==> IsWord(key[i])
  }

  /** Puts a backslash before every backtick and backslash. */
  function Escape(key: string): string {
    if key == [] then [] else
      (if key[0] == '`' || key[0] == '\\' then ['\\', key[0]] else [key[0]]) + Escape(key[1..])
  }

  function ToServiceFieldPathComponent(key: string): string {
    if Unquoted(key) then key else "`" + Escape(key) + "`"
  }

  /** The letters, digits and the underscore, by their codes. */
  predicate WordCode(n: int) { 65 <= n <= 90 || 97 <= n <= 122 || n == 95 || DigitCode(n) }

  predicate DigitCode(n: int) { 48 <= n <= 57 }

  lemma {:induction false} EscapeGrows(key: string)
    ensures |Escape(key)| >= |key|
  {
    if key != [] { EscapeGrows(key[1..]); }
  }

  /** A component is printed as it is exactly when it is a word that does not begin with a digit; otherwise it
      stands between backticks. */
  lemma PrintedPlain(key: string)
    ensures ToServiceFieldPathComponent(key) == key <==>
      key != "" && !DigitCode(key[0] as int) && forall i :: 0 <= i < |key| ==> WordCode(key[i] as int)
    ensures ToServiceFieldPathComponent(key) != key ==>
      var p := ToServiceFieldPathComponent(key);
      |p| >= |key| + 2 && p[0] == '`' && p[|p|-1] == '`'
  {
    hide Escape;
    EscapeGrows(key);
  }

  function Components(fp: Path): (cs: seq<string>)
    ensures |cs| == |fp| && forall i :: 0 <= i < |cs| ==> cs[i] == ToServiceFieldPathComponent(fp[i])
  {
    seq(|fp|, i requires 0 <= i < |fp| => ToServiceFieldPathComponent(fp[i]))
  }

  function ToServiceFieldPath(fp: Path): string {
    Join(Components(fp))
  }

  /** Reads the rest of a quoted component: what it says, and what follows the closing backtick. */
  function ReadQuoted(s: string): (r: Option<(string, string)>)
    ensures r.Some? ==> |r.value.1| < |s|
  {
    if s == [] then None
    else if s[0] == '`' then Some(([], s[1..]))
    else if s[0] == '\\' then
      if |s| < 2 then None else
        match ReadQuoted(s[2..])
        case None => None
        case Some((c, rest)) => Some(([s[1]] + c, rest))
    else
      match ReadQuoted(s[1..])
      case None => None
      case Some((c, rest)) => Some(([s[0]] + c, rest))
  }

  /** Reads a plain component: the longest run of word characters. */
  function ReadPlain(s: string): (r: (string, string))
    ensures |r.1| <= |s|
  {
    if s != [] && IsWord(s[0]) then
      var (c, rest) := ReadPlain(s[1..]);
      ([s[0]] + c, rest)
    else ([], s)
  }

  function ReadComponent(s: string): (r: Option<(string, string)>)
    ensures r.Some? ==> |r.value.1| < |s|
  {
    if s == [] then None
    else if s[0] == '`' then ReadQuoted(s[1..])
    else if IsLetter(s[0]) then Some(ReadPlain(s))
    else None
  }

  /** A reader of the service's form: components, plain or in backticks, separated by dots. */
  function ReadServicePath(s: string): Option<Path>
    decreases |s|
  {
    match ReadComponent(s)
    case None => None
    case Some((c, rest)) =>
      if rest == [] then Some([c])
      else if rest[0] == '.' then
        match ReadServicePath(rest[1..])
        case None => None
        case Some(cs) => Some([c] + cs)
      else None
  }

  lemma {:induction false} ReadEscaped(key: string, rest: string)
    ensures ReadQuoted(Escape(key) + "`" + rest) == Some((key, rest))
  {
    var s := Escape(key) + "`" + rest;
    if key == [] {
      assert s[1..] == rest;
    } else {
      ReadEscaped(key[1..], rest);
      assert [key[0]] + key[1..] == key;
      var tail := Escape(key[1..]) + "`" + rest;
      if key[0] == '`' || key[0] == '\\' {
        assert s[0] == '\\' && s[1] == key[0] && s[2..] == tail;
      } else {
        assert s[0] == key[0] && s[1..] == tail;
      }
    }
  }

  lemma {:induction false} ReadWord(key: string, rest: string)
    requires forall i :: 0 <= i < |key| ==> IsWord(key[i])
    requires rest == [] || rest[0] == '.'
    ensures ReadPlain(key + rest) == (key, rest)
  {
    if key == [] {
      assert key + rest == rest;
    } else {
      assert (key + rest)[1..] == key[1..] + rest;
      ReadWord(key[1..], rest);
      assert [key[0]] + key[1..] == key;
    }
  }

  lemma ReadOfComponent(key: string, rest: string)
    requires rest == [] || rest[0] == '.'
    ensures ReadComponent(ToServiceFieldPathComponent(key) + rest) == Some((key, rest))
  {
    hide ReadQuoted, ReadPlain, Escape;
    var s := ToServiceFieldPathComponent(key) + rest;
    if Unquoted(key) {
      ReadWord(key, rest);
    } else {
      ReadEscaped(key, rest);
      assert s[1..] == Escape(key) + "`" + rest;
    }
  }

  lemma PrintedTail(fp: Path)
    requires |fp| > 1
    ensures ToServiceFieldPath(fp) == ToServiceFieldPathComponent(fp[0]) + ("." + ToServiceFieldPath(fp[1..]))
  {
    assert Components(fp)[1..] == Components(fp[1..]);
  }

  /** Reading undoes printing, on every path, whatever dots, backticks and backslashes its
      components hold. */
  lemma {:induction false} ReadOfPrinted(fp: Path)
    requires fp != []
    ensures ReadServicePath(ToServiceFieldPath(fp)) == Some(fp)
  {
    hide ReadComponent, ToServiceFieldPathComponent;
    if |fp| == 1 {
      ReadOfComponent(fp[0], []);
      assert ToServiceFieldPath(fp) == ToServiceFieldPathComponent(fp[0]) + [];
      assert fp == [fp[0]];
    } else {
      var rest := "." + ToServiceFieldPath(fp[1..]);
      PrintedTail(fp);
      ReadOfComponent(fp[0], rest);
      ReadOfPrinted(fp[1..]);
      assert rest[1..] == ToServiceFieldPath(fp[1..]);
      assert fp == [fp[0]] + fp[1..];
    }
  }

  /** So different paths are printed differently. */
  lemma PrintingInjective(a: Path, b: Path)
    requires a != [] && b != [] && ToServiceFieldPath(a) == ToServiceFieldPath(b)
    ensures a == b
  {
    ReadOfPrinted(a);
    ReadOfPrinted(b);
  }
}
