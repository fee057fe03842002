/** What a listing of a bucket is: the keys under a prefix, with "directories" collapsed,
    sorted, without duplicates, cut into pages. */
module Listing {
  import opened Lex

  newtype byte = x: int | 0 <= x < 256

  datatype Attributes = Attributes(
    contentType: string,
    metadata: map<string, string>,
    size: nat,
    createTime: int,
    modTime: int,
    md5: seq<byte>)

  datatype Blob = Blob(content: seq<byte>, attributes: Attributes)

  datatype ListObject = ListObject(key: string, modTime: int, size: nat, md5: seq<byte>, isDir: bool)

  datatype ListPage = ListPage(objects: seq<ListObject>, nextPageToken: string)

  datatype ListOptions = ListOptions(prefix: string, delimiter: string, pageSize: nat, pageToken: string)

  const DEFAULT_PAGE_SIZE: nat := 1000

  function Min(a: int, b: int): int { if a < b then a else b }

  // ---------------------------------------------------------------- collapsing one key

  predicate OccursAt(s: string, d: string, j: int) {
    0 <= j && j + |d| <= |s| && s[j..j+|d|] == d
  }

  /** strings.Index: the first place where d occurs in s, or -1. */
  function IndexOf(s: string, d: string): (r: int)
    requires d != []
    ensures r == -1 || OccursAt(s, d, r)
  {
    if |s| < |d| then -1
    else if d == s[..|d|] then 0
    else
      var r := IndexOf(s[1..], d);
      if r == -1 then -1 else
        assert s[1..][r..r+|d|] == s[r+1..r+1+|d|];
        r + 1
  }

  lemma {:induction false} IndexOfFirst(s: string, d: string, j: int)
    requires d != [] && OccursAt(s, d, j)
    ensures 0 <= IndexOf(s, d) <= j
  {
    if d != s[..|d|] {
      assert s[1..][j-1..j-1+|d|] == s[j..j+|d|];
      IndexOfFirst(s[1..], d, j - 1);
    }
  }

  /** Whether a key lies in a "directory" below the prefix. */
  predicate InDir(prefix: string, delim: string, key: string) {
    delim != [] && prefix <= key && IndexOf(key[|prefix|..], delim) != -1
  }

  /** The listed name of a key: the key, or the "directory" it lies in. */
  function Collapse(prefix: string, delim: string, key: string): (c: string)
    requires prefix <= key
    ensures c <= key && prefix <= c
  {
    if InDir(prefix, delim, key)
    then prefix + key[|prefix|..][..IndexOf(key[|prefix|..], delim) + |delim|]
    else key
  }

  /** The two cases of Collapse, as ListPaged computes them. */
  lemma CollapseCases(prefix: string, delim: string, key: string)
    requires prefix <= key
    ensures InDir(prefix, delim, key) <==> delim != "" && IndexOf(key[|prefix|..], delim) != -1
    ensures !InDir(prefix, delim, key) ==> Collapse(prefix, delim, key) == key
    ensures InDir(prefix, delim, key) ==>
      var k := key[|prefix|..];
      var n := IndexOf(k, delim) + |delim|;
      0 <= n <= |k| && Collapse(prefix, delim, key) == prefix + k[..n]
  {
  }

  /** A key is listed under its name up to the first delimiter after the prefix, delimiter included; as itself, when
      there is none. */
  lemma CollapseIs(prefix: string, delim: string, key: string)
    requires prefix <= key
    ensures InDir(prefix, delim, key) <==> delim != "" && exists i :: i >= |prefix| && OccursAt(key, delim, i)
    ensures !InDir(prefix, delim, key) ==> Collapse(prefix, delim, key) == key
    ensures InDir(prefix, delim, key) ==>
      var end := |Collapse(prefix, delim, key)| - |delim|;
      end >= |prefix| && OccursAt(key, delim, end) && Collapse(prefix, delim, key) == key[..end+|delim|]
      && forall i :: |prefix| <= i < end ==> !OccursAt(key, delim, i)
  {
    if delim != "" {
      var k, n := key[|prefix|..], |prefix|;
      forall i | i >= n ensures OccursAt(key, delim, i) <==> OccursAt(k, delim, i - n) {
        if i + |delim| <= |key| { assert key[i..i+|delim|] == k[i-n..i-n+|delim|]; }
      }
      var first := IndexOf(k, delim);
      if first != -1 { assert OccursAt(key, delim, first + n); }
      forall j | OccursAt(k, delim, j) ensures 0 <= first <= j { IndexOfFirst(k, delim, j); }
      if i :| i >= n && OccursAt(key, delim, i) { assert OccursAt(k, delim, i - n); }
      if first != -1 {
        assert prefix + k[..first+|delim|] == key[..n+first+|delim|];
      }
    }
  }

  /** The first occurrence of d in a string does not depend on what follows it. */
  lemma {:induction false} IndexOfExtension(k: string, o: string, d: string)
    requires d != [] && IndexOf(k, d) != -1
    requires k[..IndexOf(k, d) + |d|] <= o
    ensures IndexOf(o, d) == IndexOf(k, d)
  {
    var i := IndexOf(k, d);
    assert k[..i+|d|][..|d|] == k[..|d|];
    assert o[..i+|d|] == k[..i+|d|];
    assert o[..i+|d|][..|d|] == o[..|d|];
    if d != k[..|d|] {
      assert k[..i+|d|][1..] == k[1..][..i-1+|d|];
      assert k[..i+|d|][1..] <= o[1..];
      IndexOfExtension(k[1..], o[1..], d);
    }
  }

  /** Every key that begins with a directory's name collapses to that directory. */
  lemma CollapseOfExtension(prefix: string, delim: string, key: string, other: string)
    requires InDir(prefix, delim, key)
    requires Collapse(prefix, delim, key) <= other
    ensures InDir(prefix, delim, other)
    ensures Collapse(prefix, delim, other) == Collapse(prefix, delim, key)
  {
    var k, o := key[|prefix|..], other[|prefix|..];
    var n := IndexOf(k, delim) + |delim|;
    var c := Collapse(prefix, delim, key);
    assert c == prefix + k[..n];
    assert other[..|c|] == c;
    assert o[..n] == other[..|c|][|prefix|..] == k[..n];
    IndexOfExtension(k, o, delim);
  }

  /** Collapsing keeps the order of keys. */
  lemma CollapseMonotone(prefix: string, delim: string, a: string, b: string)
    requires prefix <= a && prefix <= b && Less(a, b)
    ensures Leq(Collapse(prefix, delim, a), Collapse(prefix, delim, b))
  {
    var ca, cb := Collapse(prefix, delim, a), Collapse(prefix, delim, b);
    Total(ca, cb);
    if Less(cb, ca) {
      PrefixLeq(ca, a);
      LeqTransitive(cb, ca, a);
      Asymmetric(a, b);
      assert cb != b by { if cb == b { Asymmetric(a, cb); } }
      assert InDir(prefix, delim, b);
      PrefixInterval(cb, a, b);
      CollapseOfExtension(prefix, delim, b, a);
      Irreflexive(ca);
    }
  }

  /** Two different keys share a listed name only if both lie in that directory. */
  lemma CollapseCollision(prefix: string, delim: string, a: string, b: string)
    requires prefix <= a && prefix <= b && a != b
    requires Collapse(prefix, delim, a) == Collapse(prefix, delim, b)
    ensures InDir(prefix, delim, a) && InDir(prefix, delim, b)
  {
    if InDir(prefix, delim, a) {
      CollapseOfExtension(prefix, delim, a, b);
    } else {
      CollapseOfExtension(prefix, delim, b, a);
    }
  }

  lemma CollapseIdempotent(prefix: string, delim: string, key: string)
    requires prefix <= key
    ensures InDir(prefix, delim, Collapse(prefix, delim, key)) == InDir(prefix, delim, key)
    ensures Collapse(prefix, delim, Collapse(prefix, delim, key)) == Collapse(prefix, delim, key)
  {
    if InDir(prefix, delim, key) {
      CollapseOfExtension(prefix, delim, key, Collapse(prefix, delim, key));
    }
  }

  // ---------------------------------------------------------------- listings and pages

  /** The names listed for a set of keys. */
  ghost function Entries(keys: set<string>, prefix: string, delim: string): set<string> {
    set k | k in keys && prefix <= k :: Collapse(prefix, delim, k)
  }

  /** The object listed under a name. */
  function ObjectFor(blobs: map<string, Blob>, prefix: string, delim: string, name: string): ListObject {
    if name in blobs && !InDir(prefix, delim, name)
    then
      var a := blobs[name].attributes;
      ListObject(name, a.modTime, a.size, a.md5, false)
    else ListObject(name, 0, 0, [], true)
  }

  function ObjectsFor(blobs: map<string, Blob>, prefix: string, delim: string, names: seq<string>): (r: seq<ListObject>)
    ensures |r| == |names|
    ensures forall i :: 0 <= i < |r| ==> r[i] == ObjectFor(blobs, prefix, delim, names[i]) && r[i].key == names[i]
  {
    seq(|names|, i requires 0 <= i < |names| => ObjectFor(blobs, prefix, delim, names[i]))
  }

  lemma ObjectsForSnoc(blobs: map<string, Blob>, prefix: string, delim: string, names: seq<string>, name: string)
    ensures ObjectsFor(blobs, prefix, delim, names + [name])
      == ObjectsFor(blobs, prefix, delim, names) + [ObjectFor(blobs, prefix, delim, name)]
  {
  }

  /** A stored key is listed as a directory without attributes, or as itself with its blob's. */
  lemma ListedAs(blobs: map<string, Blob>, prefix: string, delim: string, key: string)
    requires key in blobs && prefix <= key
    ensures ObjectFor(blobs, prefix, delim, Collapse(prefix, delim, key)) ==
      if InDir(prefix, delim, key) then ListObject(Collapse(prefix, delim, key), 0, 0, [], true)
      else
        var a := blobs[key].attributes;
        ListObject(key, a.modTime, a.size, a.md5, false)
  {
    CollapseIdempotent(prefix, delim, key);
  }

  /** The names that a page token leaves to be listed. */
  ghost function Above(names: set<string>, token: string): set<string> {
    set e | e in names && (token == "" || Less(token, e))
  }

  ghost function PageNames(names: set<string>, token: string, size: nat): (r: seq<string>)
    ensures Sorted(r) && |r| <= size
    ensures forall e :: e in r ==> e in names && (token == "" || Less(token, e))
  {
    var full := SortSet(Above(names, token));
    if |full| <= size then full else
      assert forall e :: e in full[..size] ==> e in full;
      full[..size]
  }

  /** The name of the last object of a full page when there are more; otherwise empty. */
  ghost function PageToken(names: set<string>, token: string, size: nat): string
    requires size > 0
  {
    var full := SortSet(Above(names, token));
    if |full| <= size then "" else full[size-1]
  }

  function EffectiveSize(opts: ListOptions): (n: nat)
    ensures n > 0
  {
    if opts.pageSize == 0 then DEFAULT_PAGE_SIZE else opts.pageSize
  }

  /** The page that a listing of these blobs returns. */
  ghost function PageOf(blobs: map<string, Blob>, opts: ListOptions): ListPage {
    var names := Entries(blobs.Keys, opts.prefix, opts.delimiter);
    ListPage(
      ObjectsFor(blobs, opts.prefix, opts.delimiter, PageNames(names, opts.pageToken, EffectiveSize(opts))),
      PageToken(names, opts.pageToken, EffectiveSize(opts)))
  }

  /** How long a page is: as asked for, or 1000 when no size is given, unless fewer names are left. */
  lemma PageLength(blobs: map<string, Blob>, opts: ListOptions)
    ensures
      var left := |SortSet(Above(Entries(blobs.Keys, opts.prefix, opts.delimiter), opts.pageToken))|;
      var size := if opts.pageSize == 0 then 1000 else opts.pageSize;
      |PageOf(blobs, opts).objects| == Min(left, size) && (left <= size ==> PageOf(blobs, opts).nextPageToken == "")
  {
    hide SortSet, Above, Entries;
  }

  /** What lies above a name that is itself above the token. */
  lemma AboveAbove(names: set<string>, token: string, next: string)
    requires next in Above(names, token) && next != ""
    ensures forall k :: k in Above(names, next) <==> k in Above(names, token) && Less(next, k)
  {
    hide Less;
    forall k | k in names && Less(next, k) && token != "" ensures Less(token, k) {
      Transitive(token, next, k);
    }
  }

  /** A first page of one name, where that name is empty and there are more: its token is the empty name,
      which says that nothing is left. */
  ghost predicate StopsEarly(names: set<string>, token: string, size: nat) {
    token == "" && size == 1 && "" in names && names != {""}
  }

  /** The empty name comes first. */
  lemma EmptyNameFirst(names: set<string>)
    requires "" in names
    ensures SortSet(names) != [] && SortSet(names)[0] == ""
    ensures |SortSet(names)| > 1 <==> names != {""}
  {
    var sorted := SortSet(names);
    assert "" in sorted;
    assert sorted[0] == "";
    if |sorted| == 1 {
      forall k ensures k in names <==> k in {""} { assert k in names <==> k in sorted; }
    } else {
      assert sorted[1] in sorted && sorted[1] != "";
    }
  }

  /** That is the only case in which a page with more names behind it has an empty token. */
  lemma EmptyTokenMeansDone(names: set<string>, token: string, size: nat)
    requires size > 0
    ensures
      (PageToken(names, token, size) == "" ==> |SortSet(Above(names, token))| <= size)
      <==> !StopsEarly(names, token, size)
  {
    var left := SortSet(Above(names, token));
    if token == "" { assert Above(names, token) == names; }
    if token == "" && "" in names { EmptyNameFirst(names); }
    if |left| > size {
      assert left[0] in left && left[size-1] in left;
    }
  }

  lemma EmptyTokenNotEarly(names: set<string>, token: string, size: nat)
    requires size > 0 && PageToken(names, token, size) != ""
    ensures !StopsEarly(names, token, size)
  {
    hide StopsEarly, SortSet, Above;
    EmptyTokenMeansDone(names, token, size);
  }

  /** A non-empty token means that the page is full and the token is its last name;
      what lies above the token is then exactly what the page left out. */
  lemma PageThenRest(names: set<string>, token: string, size: nat)
    requires size > 0 && !StopsEarly(names, token, size)
    ensures
      var page, next := PageNames(names, token, size), PageToken(names, token, size);
      var full := SortSet(Above(names, token));
      if next == ""
      then page == full && |full| <= size
      else |page| == size && next == page[size-1] && full == page + SortSet(Above(names, next))
           && |full| > size && next in page
  {
    hide Less, Above, SortSet, StopsEarly;
    EmptyTokenMeansDone(names, token, size);
    var full := SortSet(Above(names, token));
    if |full| > size {
      var next := full[size-1];
      assert next in full;
      AboveAbove(names, token, next);
      SortedSuffix(full, size, Above(names, next));
      assert full == full[..size] + full[size..];
      assert next == full[..size][size-1];
    }
  }

  // ---------------------------------------------------------------- following the tokens

  /** One fetch of a scan: the keys stored at that moment and the page size asked for. */
  datatype Fetch = Fetch(keys: set<string>, size: nat)

  /** The names returned by a scan that follows the page tokens, starting from a token. */
  ghost function Scan(fetches: seq<Fetch>, prefix: string, delim: string, token: string): seq<string>
    requires forall f :: f in fetches ==> f.size > 0
  {
    if fetches == [] then [] else
      var names := Entries(fetches[0].keys, prefix, delim);
      var next := PageToken(names, token, fetches[0].size);
      PageNames(names, token, fetches[0].size)
      + (if next == "" then [] else Scan(fetches[1..], prefix, delim, next))
  }

  /** Whether the scan saw an empty next token within these fetches. */
  ghost predicate Finishes(fetches: seq<Fetch>, prefix: string, delim: string, token: string)
    requires forall f :: f in fetches ==> f.size > 0
  {
    fetches != [] &&
    var next := PageToken(Entries(fetches[0].keys, prefix, delim), token, fetches[0].size);
    next == "" || Finishes(fetches[1..], prefix, delim, next)
  }

  /** Whether the first page of a scan stops it too early. */
  ghost predicate StopsScan(fetches: seq<Fetch>, prefix: string, delim: string, token: string) {
    fetches != [] && StopsEarly(Entries(fetches[0].keys, prefix, delim), token, fetches[0].size)
  }

  /** Two sorted sequences, the second above a token that the first does not pass. */
  lemma SortedConcat(a: seq<string>, b: seq<string>, token: string)
    requires Sorted(a) && Sorted(b)
    requires a != [] && token == a[|a|-1]
    requires forall e :: e in b ==> Less(token, e)
    ensures Sorted(a + b)
  {
    hide Less;
    forall i, j | 0 <= i < j < |a + b| ensures Less((a + b)[i], (a + b)[j]) {
      if i < |a| <= j {
        assert Leq(a[i], token);
        assert b[j - |a|] in b;
        LeqTransitive(a[i], token, b[j - |a|]);
      }
    }
  }

  /** Under arbitrary writes and deletes between fetches, a scan returns strictly increasing names
      above its token. */
  lemma {:induction false} ScanIncreasing(fetches: seq<Fetch>, prefix: string, delim: string, token: string)
    requires forall f :: f in fetches ==> f.size > 0
    ensures Sorted(Scan(fetches, prefix, delim, token))
    ensures forall e :: e in Scan(fetches, prefix, delim, token) ==> token == "" || Less(token, e)
  {
    hide Less, SortSet, Entries, Above, PageNames, PageToken;
    if fetches != [] {
      var f0 := fetches[0];
      assert f0 in fetches;
      var names := Entries(f0.keys, prefix, delim);
      var page, next := PageNames(names, token, f0.size), PageToken(names, token, f0.size);
      if next != "" {
        EmptyTokenNotEarly(names, token, f0.size);
        PageThenRest(names, token, f0.size);
      }
      if next != "" {
        var rest := Scan(fetches[1..], prefix, delim, next);
        ScanIncreasing(fetches[1..], prefix, delim, next);
        SortedConcat(page, rest, next);
        forall e | e in rest ensures token == "" || Less(token, e) {
          if token != "" { Transitive(token, next, e); }
        }
      }
    }
  }

  /** Whether some fetch lists the name. */
  ghost predicate ListedBySome(fetches: seq<Fetch>, prefix: string, delim: string, e: string) {
    exists f :: f in fetches && e in Entries(f.keys, prefix, delim)
  }

  /** A scan returns only names that some fetch lists. */
  lemma {:induction false} ScanSound(fetches: seq<Fetch>, prefix: string, delim: string, token: string, e: string)
    requires forall f :: f in fetches ==> f.size > 0
    requires e in Scan(fetches, prefix, delim, token)
    ensures ListedBySome(fetches, prefix, delim, e)
  {
    hide Less, SortSet, Collapse, InDir;
    var f0 := fetches[0];
    assert f0 in fetches;
    var names := Entries(f0.keys, prefix, delim);
    if e !in PageNames(names, token, f0.size) {
      ScanSound(fetches[1..], prefix, delim, PageToken(names, token, f0.size), e);
      var f :| f in fetches[1..] && e in Entries(f.keys, prefix, delim);
      assert f in fetches;
    }
  }

  /** Whether every fetch lists the name. */
  ghost predicate ListedByAll(fetches: seq<Fetch>, prefix: string, delim: string, e: string) {
    forall f :: f in fetches ==> e in Entries(f.keys, prefix, delim)
  }

  /** A name above the token that every fetch lists is returned by a scan that finishes. */
  lemma {:induction false} ScanComplete(fetches: seq<Fetch>, prefix: string, delim: string, token: string, e: string)
    requires forall f :: f in fetches ==> f.size > 0
    requires !StopsScan(fetches, prefix, delim, token)
    requires ListedByAll(fetches, prefix, delim, e) && Finishes(fetches, prefix, delim, token)
    requires token == "" || Less(token, e)
    ensures e in Scan(fetches, prefix, delim, token)
  {
    hide Less, SortSet, Collapse, InDir;
    var f0 := fetches[0];
    assert f0 in fetches;
    var names := Entries(f0.keys, prefix, delim);
    var page, next := PageNames(names, token, f0.size), PageToken(names, token, f0.size);
    PageThenRest(names, token, f0.size);
    assert e in SortSet(Above(names, token));
    if e !in page {
      assert e in SortSet(Above(names, next));
      ScanComplete(fetches[1..], prefix, delim, next, e);
    }
  }

  /** Whether e occurs exactly once in s. */
  ghost predicate OccursOnce(s: seq<string>, e: string) {
    exists i :: 0 <= i < |s| && s[i] == e && forall j :: 0 <= j < |s| && s[j] == e ==> j == i
  }

  /** The main claim about scans under concurrent changes: from the first page, whatever is written
      and deleted between fetches, the names come out strictly increasing, and a name that was there
      at every fetch comes out exactly once, unless the empty key stops the scan after the first page:
      then only the empty name comes out. */
  lemma ScanUnderChanges(fetches: seq<Fetch>, prefix: string, delim: string)
    requires forall f :: f in fetches ==> f.size > 0
    requires Finishes(fetches, prefix, delim, "")
    ensures Sorted(Scan(fetches, prefix, delim, ""))
    ensures forall e :: e in Scan(fetches, prefix, delim, "") ==> ListedBySome(fetches, prefix, delim, e)
    ensures
      forall e :: ListedByAll(fetches, prefix, delim, e) ==>
        if StopsScan(fetches, prefix, delim, "") && e != "" then e !in Scan(fetches, prefix, delim, "")
        else OccursOnce(Scan(fetches, prefix, delim, ""), e)
  {
    hide Less, SortSet, Collapse, InDir, Scan, Finishes, ListedByAll, ListedBySome, StopsScan;
    var got := Scan(fetches, prefix, delim, "");
    ScanIncreasing(fetches, prefix, delim, "");
    if StopsScan(fetches, prefix, delim, "") { ScanStopped(fetches, prefix, delim); }
    forall e | ListedByAll(fetches, prefix, delim, e) && (e == "" || !StopsScan(fetches, prefix, delim, ""))
      ensures OccursOnce(got, e)
    {
      if !StopsScan(fetches, prefix, delim, "") { ScanComplete(fetches, prefix, delim, "", e); }
      var i :| 0 <= i < |got| && got[i] == e;
      Irreflexive(e);
    }
    forall e | e in got ensures ListedBySome(fetches, prefix, delim, e) {
      ScanSound(fetches, prefix, delim, "", e);
    }
  }

  lemma ScanStopped(fetches: seq<Fetch>, prefix: string, delim: string)
    requires forall f :: f in fetches ==> f.size > 0
    requires StopsScan(fetches, prefix, delim, "")
    ensures Scan(fetches, prefix, delim, "") == [""]
  {
    hide Less, SortSet, Entries, StopsEarly;
    StoppedPage(Entries(fetches[0].keys, prefix, delim), fetches[0].size);
  }

  lemma StoppedPage(names: set<string>, size: nat)
    requires StopsEarly(names, "", size)
    ensures PageNames(names, "", size) == [""] && PageToken(names, "", size) == ""
  {
    hide Less, SortSet;
    EmptyNameFirst(names);
    assert Above(names, "") == names;
  }

  /** Over an unchanging key set, the pages of any positive sizes, concatenated,
      are the whole sorted listing. */
  lemma {:induction false} ScanOfUnchanged(fetches: seq<Fetch>, keys: set<string>, prefix: string, delim: string,
      token: string)
    requires forall f :: f in fetches ==> f.size > 0 && f.keys == keys
    requires !StopsScan(fetches, prefix, delim, token)
    requires Finishes(fetches, prefix, delim, token)
    ensures Scan(fetches, prefix, delim, token) == SortSet(Above(Entries(keys, prefix, delim), token))
  {
    hide Less, SortSet, Collapse, InDir;
    assert fetches[0] in fetches;
    var names := Entries(keys, prefix, delim);
    var next := PageToken(names, token, fetches[0].size);
    PageThenRest(names, token, fetches[0].size);
    if next != "" {
      ScanOfUnchanged(fetches[1..], keys, prefix, delim, next);
    }
  }

  /** An unchanging key set is exhausted by enough fetches: one more than it has names is enough. */
  lemma {:induction false} ScanFinishes(fetches: seq<Fetch>, keys: set<string>, prefix: string, delim: string,
      token: string)
    requires forall f :: f in fetches ==> f.size > 0 && f.keys == keys
    requires |fetches| > |SortSet(Above(Entries(keys, prefix, delim), token))|
    ensures Finishes(fetches, prefix, delim, token)
    decreases |fetches|
  {
    hide Less, SortSet, Collapse, InDir;
    assert fetches[0] in fetches;
    var names := Entries(keys, prefix, delim);
    var next := PageToken(names, token, fetches[0].size);
    if next != "" {
      EmptyTokenNotEarly(names, token, fetches[0].size);
      PageThenRest(names, token, fetches[0].size);
      ScanFinishes(fetches[1..], keys, prefix, delim, next);
    }
  }

  /** The empty name is listed exactly when the empty key is stored and no prefix is asked for. */
  lemma EmptyNameIffEmptyKey(keys: set<string>, prefix: string, delim: string)
    ensures "" in Entries(keys, prefix, delim) <==> prefix == "" && "" in keys
  {
    if prefix == "" && "" in keys { assert Collapse("", delim, "") == ""; }
    if "" in Entries(keys, prefix, delim) {
      var k :| k in keys && prefix <= k && Collapse(prefix, delim, k) == "";
      assert k == "";
    }
  }
}
