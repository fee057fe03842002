/** Lexicographic order on strings, and the sorted listing of a finite set of strings.

    A Go string is compared byte by byte; on valid UTF-8 that is the order of the code points,
    which is the order of Dafny's `char`. */
module Lex {

  /** Strict lexicographic order. */
  predicate Less(a: string, b: string) {
    if b == [] then false
    else if a == [] then true
    else if a[0] != b[0] then a[0] < b[0]
    else Less(a[1..], b[1..])
  }

  predicate Leq(a: string, b: string) {
    a == b || Less(a, b)
  }

  ghost predicate Sorted(s: seq<string>) {
    forall i, j :: 0 <= i < j < |s| ==> Less(s[i], s[j])
  }

  /** The strings agree up to a place, and there the first one ends or has the smaller character. */
  ghost predicate Differ(a: string, b: string, i: nat) {
    i <= |a| && i < |b| && a[..i] == b[..i] && (i == |a| || a[i] < b[i])
  }

  lemma {:induction false} LessIff(a: string, b: string)
    ensures Less(a, b) <==> exists i: nat :: Differ(a, b, i)
  {
    if a != [] && b != [] && a[0] == b[0] {
      LessIff(a[1..], b[1..]);
      if i: nat :| Differ(a[1..], b[1..], i) {
        assert a[..i+1] == [a[0]] + a[1..][..i] && b[..i+1] == [b[0]] + b[1..][..i];
        assert Differ(a, b, i + 1);
      }
      if i: nat :| Differ(a, b, i) && i > 0 {
        assert a[1..][..i-1] == a[..i][1..] && b[1..][..i-1] == b[..i][1..];
        assert Differ(a[1..], b[1..], i - 1);
      }
      assert Differ(a, b, 0) ==> false;
    } else if Less(a, b) {
      assert Differ(a, b, 0);
    } else {
      forall i: nat ensures !Differ(a, b, i) {
        if i > 0 && i <= |a| && i < |b| { assert a[..i][0] == a[0] && b[..i][0] == b[0]; }
      }
    }
  }

  lemma {:induction false} Irreflexive(a: string)
    ensures !Less(a, a)
  {
    if a != [] { Irreflexive(a[1..]); }
  }

  lemma {:induction false} Total(a: string, b: string)
    ensures Less(a, b) || a == b || Less(b, a)
  {
    if a != [] && b != [] && a[0] == b[0] {
      Total(a[1..], b[1..]);
      if a[1..] == b[1..] { assert a == [a[0]] + a[1..] == [b[0]] + b[1..] == b; }
    }
  }

  lemma {:induction false} Transitive(a: string, b: string, c: string)
    requires Less(a, b) && Less(b, c)
    ensures Less(a, c)
  {
    if a != [] && a[0] == b[0] == c[0] { Transitive(a[1..], b[1..], c[1..]); }
  }

  lemma Asymmetric(a: string, b: string)
    requires Less(a, b)
    ensures !Less(b, a) && a != b
  {
    hide Less;
    if Less(b, a) { Transitive(a, b, a); }
    Irreflexive(a);
  }

  lemma LeqTransitive(a: string, b: string, c: string)
    requires Leq(a, b) && Leq(b, c)
    ensures Leq(a, c)
    ensures Less(a, b) || Less(b, c) ==> Less(a, c)
  {
    hide Less;
    if Less(a, b) && Less(b, c) { Transitive(a, b, c); }
  }

  /** A proper prefix comes first. */
  lemma {:induction false} PrefixLeq(p: string, s: string)
    requires p <= s
    ensures Leq(p, s)
  {
    if p != [] { PrefixLeq(p[1..], s[1..]); }
  }

  /** The strings that begin with p form an interval of the order. */
  lemma {:induction false} PrefixInterval(p: string, b: string, c: string)
    requires p <= c && Leq(p, b) && Leq(b, c)
    ensures p <= b
  {
    if p != [] {
      if p == b || b == c {
      } else {
        assert b != [];
        assert b[0] == c[0] == p[0];
        PrefixInterval(p[1..], b[1..], c[1..]);
      }
    }
  }

  lemma {:induction false} LessAfterPrefix(p: string, a: string, b: string)
    ensures Less(p + a, p + b) == Less(a, b)
  {
    if p == [] {
      assert p + a == a && p + b == b;
    } else {
      assert (p + a)[1..] == p[1..] + a && (p + b)[1..] == p[1..] + b;
      LessAfterPrefix(p[1..], a, b);
    }
  }

  /** A strictly sorted sequence is determined by its elements. */
  lemma {:induction false} SortedUnique(s: seq<string>, t: seq<string>)
    requires Sorted(s) && Sorted(t)
    requires forall k :: k in s <==> k in t
    ensures s == t
    decreases |s|
  {
    hide Less;
    assert s != [] ==> s[0] in s;
    assert t != [] ==> t[0] in t;
    if s != [] {
      assert s[0] in t;
      assert t[0] in s;
      if s[0] != t[0] {
        assert Less(s[0], t[0]);
        assert Less(t[0], s[0]);
        Asymmetric(s[0], t[0]);
      }
      Irreflexive(s[0]);
      forall k ensures k in s[1..] <==> k in t[1..] {
        if k in s[1..] { assert Less(s[0], k) && k in t; }
        if k in t[1..] { assert Less(t[0], k) && k in s; }
      }
      SortedUnique(s[1..], t[1..]);
      assert s == [s[0]] + s[1..] == [t[0]] + t[1..] == t;
    }
  }

  function Insert(x: string, s: seq<string>): (r: seq<string>)
    ensures |r| == |s| + 1
    ensures forall k :: k in r <==> k == x || k in s
  {
    if s == [] || Less(x, s[0]) then [x] + s else [s[0]] + Insert(x, s[1..])
  }

  lemma {:induction false} InsertSorted(x: string, s: seq<string>)
    requires Sorted(s) && x !in s
    ensures Sorted(Insert(x, s))
  {
    hide Less;
    if s == [] {
    } else if Less(x, s[0]) {
      forall k | k in s ensures Less(x, k) {
        if k != s[0] { Transitive(x, s[0], k); }
      }
    } else {
      Total(x, s[0]);
      InsertSorted(x, s[1..]);
      forall k | k in Insert(x, s[1..]) ensures Less(s[0], k) {}
    }
  }

  /** The elements of a set in increasing order. */
  ghost function SortSet(keys: set<string>): (s: seq<string>)
    ensures Sorted(s)
    ensures forall k :: k in s <==> k in keys
  {
    if keys == {} then [] else
      var x :| x in keys;
      var rest := SortSet(keys - {x});
      InsertSorted(x, rest);
      Insert(x, rest)
  }

  lemma SortSetUnique(keys: set<string>, s: seq<string>)
    requires Sorted(s) && forall k :: k in s <==> k in keys
    ensures s == SortSet(keys)
  {
    SortedUnique(s, SortSet(keys));
  }

  lemma {:induction false} SortedSize(s: seq<string>, keys: set<string>)
    requires Sorted(s) && forall k :: k in s <==> k in keys
    ensures |s| == |keys|
    decreases |s|
  {
    hide Less;
    if s == [] {
      assert keys == {};
    } else {
      Irreflexive(s[0]);
      assert s[0] in s;
      forall k ensures k in s[1..] <==> k in keys - {s[0]} {
        if k in s[1..] { assert Less(s[0], k); }
        if k in keys - {s[0]} { assert k in s; }
      }
      SortedSize(s[1..], keys - {s[0]});
    }
  }

  /** The keys of a Go map, collected in an arbitrary order and then sorted. */
  method SortKeys(keys: set<string>) returns (s: seq<string>)
    ensures s == SortSet(keys)
  {
    s := [];
    var rest := keys;
    while rest != {}
      invariant rest <= keys && Sorted(s)
      invariant forall k :: k in s <==> k in keys - rest
      decreases rest
    {
      var x :| x in rest;
      InsertSorted(x, s);
      s := Insert(x, s);
      rest := rest - {x};
    }
    SortSetUnique(keys, s);
  }

  lemma SortedSnoc(s: seq<string>, x: string)
    requires Sorted(s) && forall e :: e in s ==> Less(e, x)
    ensures Sorted(s + [x])
  {
    hide Less;
    forall i, j | 0 <= i < j < |s + [x]| ensures Less((s + [x])[i], (s + [x])[j]) {
      if j == |s| { assert s[i] in s; }
    }
  }

  /** In a sorted listing, what lies above an element of it is what follows that element. */
  lemma SortedSuffix(s: seq<string>, n: nat, above: set<string>)
    requires Sorted(s) && 0 < n <= |s|
    requires forall k :: k in above <==> k in s && Less(s[n-1], k)
    ensures s[n..] == SortSet(above)
  {
    hide Less, SortSet;
    forall k ensures k in s[n..] <==> k in above {
      if k in above {
        var i :| 0 <= i < |s| && s[i] == k;
        if i < n - 1 { Asymmetric(s[i], s[n-1]); }
        if i == n - 1 { Irreflexive(k); }
        assert k == s[n..][i - n];
      }
    }
    SortSetUnique(above, s[n..]);
  }
}
