/** The prefixed bucket of blob/driver/driver.go over the in-memory bucket: it behaves as a bucket that holds
    just the keys under the prefix, without it. */
module Prefixed {
  import opened Lex
  import opened Listing
  import opened Memblob

  /** The keys under a prefix, with the prefix stripped. */
  function Under(keys: set<string>, p: string): (r: set<string>)
    ensures forall k :: k in r <==> p + k in keys
  {
    assert forall k | p + k in keys :: (p + k)[|p|..] == k;
    assert forall full: string | p <= full :: p + full[|p|..] == full;
    set full | full in keys && p <= full :: full[|p|..]
  }

  /** The blobs under a prefix, with the prefix stripped. */
  function View(blobs: map<string, Blob>, p: string): map<string, Blob> {
    map k | k in Under(blobs.Keys, p) :: blobs[p + k]
  }

  /** The blobs that a prefixed bucket does not reach. */
  function Outside(blobs: map<string, Blob>, p: string): map<string, Blob> {
    map k | k in blobs && !(p <= k) :: blobs[k]
  }

  /** Nothing outside changed exactly when every key without the prefix is as it was. */
  lemma OutsideIs(a: map<string, Blob>, b: map<string, Blob>, p: string)
    ensures Outside(a, p) == Outside(b, p) <==>
      forall k :: !(p <= k) ==> (k in a <==> k in b) && (k in a && k in b ==> a[k] == b[k])
  {
    if Outside(a, p) == Outside(b, p) {
      forall k | !(p <= k) ensures (k in a <==> k in b) && (k in a && k in b ==> a[k] == b[k]) {
        assert k in Outside(a, p) <==> k in a;
        assert k in Outside(b, p) <==> k in b;
        assert k in a ==> Outside(a, p)[k] == a[k];
        assert k in b ==> Outside(b, p)[k] == b[k];
      }
    }
  }

  lemma InView(blobs: map<string, Blob>, p: string, k: string)
    ensures k in View(blobs, p) <==> p + k in blobs
    ensures k in View(blobs, p) ==> View(blobs, p)[k] == blobs[p + k]
  {
  }

  lemma ViewsEqual(blobs: map<string, Blob>, p: string, v: map<string, Blob>)
    requires forall k :: k in v <==> p + k in blobs
    requires forall k :: k in v ==> v[k] == blobs[p + k]
    ensures View(blobs, p) == v
  {
    forall k ensures k in View(blobs, p) <==> k in v { InView(blobs, p, k); }
    forall k | k in v ensures View(blobs, p)[k] == v[k] { InView(blobs, p, k); }
  }

  /** Writing one key under the prefix changes that key of the view, and nothing outside. */
  lemma ViewOfUpdate(blobs: map<string, Blob>, p: string, key: string, blob: Blob)
    ensures View(blobs[p + key := blob], p) == View(blobs, p)[key := blob]
    ensures Outside(blobs[p + key := blob], p) == Outside(blobs, p)
  {
    var v := View(blobs, p)[key := blob];
    forall k ensures k in v <==> p + k in blobs[p + key := blob] {
      InView(blobs, p, k);
      assert p + k == p + key ==> k == (p + k)[|p|..] == (p + key)[|p|..] == key;
    }
    forall k | k in v ensures v[k] == blobs[p + key := blob][p + k] {
      InView(blobs, p, k);
      assert p + k == p + key ==> k == (p + k)[|p|..] == (p + key)[|p|..] == key;
    }
    ViewsEqual(blobs[p + key := blob], p, v);
  }

  lemma ViewOfRemoval(blobs: map<string, Blob>, p: string, key: string)
    ensures View(blobs - {p + key}, p) == View(blobs, p) - {key}
    ensures Outside(blobs - {p + key}, p) == Outside(blobs, p)
  {
    var v := View(blobs, p) - {key};
    forall k ensures k in v <==> p + k in blobs - {p + key} {
      InView(blobs, p, k);
      assert p + k == p + key ==> k == (p + k)[|p|..] == (p + key)[|p|..] == key;
    }
    forall k | k in v ensures v[k] == (blobs - {p + key})[p + k] { InView(blobs, p, k); }
    ViewsEqual(blobs - {p + key}, p, v);
  }

  /** Storing through the prefix stores in the view, creation time included. */
  lemma ViewOfStored(blobs: map<string, Blob>, p: string, key: string, content: seq<byte>, contentType: string,
      metadata: map<string, string>, md5: seq<byte>, now: int)
    ensures View(Stored(blobs, p + key, content, contentType, metadata, md5, now), p)
      == Stored(View(blobs, p), key, content, contentType, metadata, md5, now)
    ensures Outside(Stored(blobs, p + key, content, contentType, metadata, md5, now), p) == Outside(blobs, p)
  {
    InView(blobs, p, key);
    var created := if p + key in blobs then blobs[p + key].attributes.createTime else now;
    ViewOfUpdate(blobs, p, key, Blob(content, Attributes(contentType, metadata, |content|, created, now, md5)));
  }

  /** A prefixed view of a prefixed view is the view under both prefixes. */
  lemma ViewOfView(blobs: map<string, Blob>, p: string, q: string)
    ensures View(View(blobs, p), q) == View(blobs, p + q)
  {
    hide View, Under;
    var v := View(blobs, p + q);
    forall k
      ensures k in v <==> q + k in View(blobs, p)
      ensures k in v ==> v[k] == View(blobs, p)[q + k]
    {
      InView(blobs, p + q, k);
      InView(blobs, p, q + k);
      assert p + (q + k) == (p + q) + k;
    }
    ViewsEqual(View(blobs, p), q, v);
  }

  // ---------------------------------------------------------------- listings through the prefix

  /** strings.TrimPrefix on the key of a listed object. */
  function Trim(o: ListObject, p: string): ListObject {
    if p <= o.key then o.(key := o.key[|p|..]) else o
  }

  function TrimAll(objects: seq<ListObject>, p: string): (r: seq<ListObject>)
    ensures |r| == |objects| && forall i :: 0 <= i < |r| ==> r[i] == Trim(objects[i], p)
  {
    seq(|objects|, i requires 0 <= i < |objects| => Trim(objects[i], p))
  }

  /** The base bucket's token for a place in the view: the empty token stands for the start in both. */
  function BaseToken(p: string, token: string): string {
    if token == "" then "" else p + token
  }

  function AddPrefix(p: string, names: seq<string>): (r: seq<string>)
    ensures |r| == |names| && forall i :: 0 <= i < |r| ==> r[i] == p + names[i]
  {
    seq(|names|, i requires 0 <= i < |names| => p + names[i])
  }

  lemma {:induction false} CollapseUnderPrefix(p: string, q: string, delim: string, k: string)
    requires q <= k
    ensures InDir(p + q, delim, p + k) == InDir(q, delim, k)
    ensures Collapse(p + q, delim, p + k) == p + Collapse(q, delim, k)
  {
    assert (p + k)[|p + q|..] == k[|q|..];
    assert p + q <= p + k;
  }

  /** The names listed through the prefix are the view's names with the prefix put back. */
  lemma EntriesUnderPrefix(blobs: map<string, Blob>, p: string, q: string, delim: string, e: string)
    ensures e in Entries(blobs.Keys, p + q, delim)
      <==> p <= e && e[|p|..] in Entries(View(blobs, p).Keys, q, delim)
  {
    hide Collapse, InDir;
    if e in Entries(blobs.Keys, p + q, delim) {
      var full :| full in blobs.Keys && p + q <= full && e == Collapse(p + q, delim, full);
      var k := full[|p|..];
      assert full == p + k && q <= k;
      InView(blobs, p, k);
      CollapseUnderPrefix(p, q, delim, k);
      assert e[|p|..] == Collapse(q, delim, k);
    }
    if p <= e && e[|p|..] in Entries(View(blobs, p).Keys, q, delim) {
      var k :| k in View(blobs, p).Keys && q <= k && e[|p|..] == Collapse(q, delim, k);
      InView(blobs, p, k);
      CollapseUnderPrefix(p, q, delim, k);
      assert p + q <= p + k && p + k in blobs.Keys;
      assert e == p + e[|p|..];
    }
  }

  /** What is left after a token, through the prefix and in the view. */
  lemma AboveUnderPrefix(blobs: map<string, Blob>, p: string, q: string, delim: string, token: string)
    ensures SortSet(Above(Entries(blobs.Keys, p + q, delim), BaseToken(p, token)))
      == AddPrefix(p, SortSet(Above(Entries(View(blobs, p).Keys, q, delim), token)))
  {
    hide Less, SortSet, Collapse, InDir, Entries;
    var base := Above(Entries(blobs.Keys, p + q, delim), BaseToken(p, token));
    var view := Above(Entries(View(blobs, p).Keys, q, delim), token);
    var names := SortSet(view);
    forall e ensures e in AddPrefix(p, names) <==> e in base {
      EntriesUnderPrefix(blobs, p, q, delim, e);
      if p <= e {
        assert e == p + e[|p|..];
        LessAfterPrefix(p, token, e[|p|..]);
        if e[|p|..] in names {
          var i :| 0 <= i < |names| && names[i] == e[|p|..];
          assert AddPrefix(p, names)[i] == e;
        }
      }
      if e in AddPrefix(p, names) {
        var i :| 0 <= i < |names| && AddPrefix(p, names)[i] == e;
        assert e[|p|..] == names[i];
      }
    }
    forall i, j | 0 <= i < j < |names| ensures Less(AddPrefix(p, names)[i], AddPrefix(p, names)[j]) {
      LessAfterPrefix(p, names[i], names[j]);
    }
    SortSetUnique(base, AddPrefix(p, names));
  }

  lemma ObjectUnderPrefix(blobs: map<string, Blob>, p: string, q: string, delim: string, name: string)
    requires q <= name
    ensures Trim(ObjectFor(blobs, p + q, delim, p + name), p) == ObjectFor(View(blobs, p), q, delim, name)
  {
    hide Collapse, View;
    InView(blobs, p, name);
    CollapseUnderPrefix(p, q, delim, name);
    assert (p + name)[|p|..] == name;
  }

  lemma EntryHasPrefix(keys: set<string>, q: string, delim: string, e: string)
    requires e in Entries(keys, q, delim)
    ensures q <= e
  {
  }

  lemma ObjectsUnderPrefix(blobs: map<string, Blob>, p: string, q: string, delim: string, names: seq<string>)
    requires forall e :: e in names ==> q <= e
    ensures TrimAll(ObjectsFor(blobs, p + q, delim, AddPrefix(p, names)), p)
      == ObjectsFor(View(blobs, p), q, delim, names)
  {
    hide ObjectFor, View, Trim;
    forall i | 0 <= i < |names|
      ensures Trim(ObjectFor(blobs, p + q, delim, p + names[i]), p) == ObjectFor(View(blobs, p), q, delim, names[i])
    {
      assert names[i] in names;
      ObjectUnderPrefix(blobs, p, q, delim, names[i]);
    }
  }

  /** The first page of the view is a single blob with the empty key, and there are more: in the view, the
      page token is then empty, which ends the listing. */
  ghost predicate EmptyKeyFillsPage(view: map<string, Blob>, opts: ListOptions) {
    StopsEarly(Entries(view.Keys, opts.prefix, opts.delimiter), opts.pageToken, EffectiveSize(opts))
  }

  /** Page by page, listing through the prefix is listing the view: always the same objects, and next tokens for
      the same place, except in exactly one case, which needs a blob at exactly the prefix. */
  lemma PageUnderPrefix(blobs: map<string, Blob>, p: string, opts: ListOptions)
    ensures
      var base := PageOf(blobs, opts.(prefix := p + opts.prefix, pageToken := BaseToken(p, opts.pageToken)));
      var view := PageOf(View(blobs, p), opts);
      TrimAll(base.objects, p) == view.objects
      && (base.nextPageToken == BaseToken(p, view.nextPageToken)
        <==> p == "" || !EmptyKeyFillsPage(View(blobs, p), opts))
  {
    hide Less, SortSet, Collapse, InDir, ObjectFor, ObjectsFor, View, TrimAll, Above, Entries, StopsEarly,
      PageNames, PageToken, AddPrefix, BaseToken;
    var q, delim, token, size := opts.prefix, opts.delimiter, opts.pageToken, EffectiveSize(opts);
    var names := Entries(View(blobs, p).Keys, q, delim);
    NamesUnderPrefix(blobs, p, q, delim, token, size);
    var page := PageNames(names, token, size);
    forall e | e in page ensures q <= e { EntryHasPrefix(View(blobs, p).Keys, q, delim, e); }
    ObjectsUnderPrefix(blobs, p, q, delim, page);
  }

  /** The names of the page and the token after it. */
  lemma NamesUnderPrefix(blobs: map<string, Blob>, p: string, q: string, delim: string, token: string, size: nat)
    requires size > 0
    ensures
      var base, names := Entries(blobs.Keys, p + q, delim), Entries(View(blobs, p).Keys, q, delim);
      PageNames(base, BaseToken(p, token), size) == AddPrefix(p, PageNames(names, token, size))
      && (PageToken(base, BaseToken(p, token), size) == BaseToken(p, PageToken(names, token, size))
          <==> p == "" || !StopsEarly(names, token, size))
  {
    hide Less, SortSet, View, Above, Entries, StopsEarly;
    var names := Entries(View(blobs, p).Keys, q, delim);
    AboveUnderPrefix(blobs, p, q, delim, token);
    EmptyTokenMeansDone(names, token, size);
  }

  /** Nesting: trimming one prefix after the other is trimming both at once. */
  lemma NestedTrim(objects: seq<ListObject>, p: string, q: string)
    requires forall o :: o in objects ==> p + q <= o.key
    ensures TrimAll(TrimAll(objects, p), q) == TrimAll(objects, p + q)
  {
    forall i | 0 <= i < |objects|
      ensures Trim(Trim(objects[i], p), q) == Trim(objects[i], p + q)
    {
      var k := objects[i].key;
      assert objects[i] in objects;
      assert p <= p + q;
      assert (p + q)[|p|..] == q;
      assert k[|p|..][|q|..] == k[|p + q|..];
    }
  }

  /** A page listed through prefix q over prefix p is the page listed through p + q. */
  lemma NestedPage(blobs: map<string, Blob>, p: string, q: string, opts: ListOptions)
    ensures
      var inner := PageOf(blobs, opts.(prefix := p + (q + opts.prefix)));
      var whole := PageOf(blobs, opts.(prefix := (p + q) + opts.prefix));
      TrimAll(TrimAll(inner.objects, p), q) == TrimAll(whole.objects, p + q)
      && inner.nextPageToken == whole.nextPageToken
  {
    hide Less, SortSet, Collapse, InDir, ObjectFor, Above, Entries;
    assert p + (q + opts.prefix) == (p + q) + opts.prefix;
    var whole := PageOf(blobs, opts.(prefix := (p + q) + opts.prefix));
    var entries := Entries(blobs.Keys, (p + q) + opts.prefix, opts.delimiter);
    var names := PageNames(entries, opts.pageToken, EffectiveSize(opts));
    forall o | o in whole.objects ensures p + q <= o.key {
      var i :| 0 <= i < |whole.objects| && whole.objects[i] == o;
      assert names[i] in names;
      EntryHasPrefix(blobs.Keys, (p + q) + opts.prefix, opts.delimiter, names[i]);
    }
    NestedTrim(whole.objects, p, q);
  }

  // ---------------------------------------------------------------- the bucket

  class PrefixedBucket {
    const base: Bucket
    const prefix: string

    constructor (base: Bucket, prefix: string)
      ensures this.base == base && this.prefix == prefix
    {
      this.base, this.prefix := base, prefix;
    }

    function Blobs(): map<string, Blob>
      reads base
    {
      View(base.blobs, prefix)
    }

    method GetAttributes(key: string) returns (r: Open<Attributes>)
      ensures r == if key in Blobs() then Opened(Blobs()[key].attributes) else Failed(NotFound)
    {
      InView(base.blobs, prefix, key);
      r := base.GetAttributes(prefix + key);
    }

    method NewRangeReader(key: string, offset: nat, length: int) returns (r: Open<DriverReader>)
      ensures r.Failed? <==> key !in Blobs()
      ensures r.Failed? ==> r.outcome == NotFound
      ensures r.Opened? ==>
        fresh(r.value) && r.value.Remaining() == Window(Blobs()[key].content, offset, length)
        && r.value.size == Blobs()[key].attributes.size
    {
      InView(base.blobs, prefix, key);
      r := base.NewRangeReader(prefix + key, offset, length);
    }

    /** Unlike the base bucket, the prefixed one must check the key before adding the prefix. */
    method NewTypedWriter(ctx: Context, key: string, contentType: string, opts: WriterOptions)
      returns (r: Open<DriverWriter>)
      ensures r.Failed? <==> key == ""
      ensures r.Failed? ==> r.outcome == InvalidKey
      ensures r.Opened? ==>
        var w := r.value;
        fresh(w) && w.b == base && w.ctx == ctx && w.key == prefix + key && w.contentType == contentType
        && w.opts == opts && w.buf == []
    {
      if key == "" { return Failed(InvalidKey); }
      r := base.NewTypedWriter(ctx, prefix + key, contentType, opts);
    }

    /** Closing a writer opened through the prefix stores in the view what it would store in a bucket. */
    method WriteBlob(key: string, contentType: string, opts: WriterOptions, content: seq<byte>, now: int)
      returns (r: Outcome)
      modifies base
      ensures r == if key == "" then InvalidKey
                   else if opts.ifNotExist && key in old(Blobs()) then AlreadyExists else Ok
      ensures Blobs() == if r == Ok
        then Stored(old(Blobs()), key, content, contentType, opts.metadata, base.Sum(content), now) else old(Blobs())
      ensures Outside(base.blobs, prefix) == old(Outside(base.blobs, prefix))
    {
      hide View, Under, Stored, Outside;
      InView(base.blobs, prefix, key);
      var ctx := new Context();
      var opening := NewTypedWriter(ctx, key, contentType, opts);
      if opening.Failed? { return opening.outcome; }
      var w := opening.value;
      var _ := w.Write(content);
      assert w.buf == content;
      ViewOfStored(base.blobs, prefix, key, content, contentType, opts.metadata, base.Sum(content), now);
      r := w.Close(now);
    }

    method Copy(dstKey: string, srcKey: string) returns (r: Outcome)
      modifies base
      ensures srcKey !in old(Blobs()) ==> r == NotFound && Blobs() == old(Blobs())
      ensures srcKey in old(Blobs()) ==> r == Ok && Blobs() == old(Blobs())[dstKey := old(Blobs())[srcKey]]
      ensures Outside(base.blobs, prefix) == old(Outside(base.blobs, prefix))
    {
      InView(base.blobs, prefix, srcKey);
      if prefix + srcKey in base.blobs {
        ViewOfUpdate(base.blobs, prefix, dstKey, base.blobs[prefix + srcKey]);
      }
      r := base.Copy(prefix + dstKey, prefix + srcKey);
    }

    method Delete(key: string) returns (r: Outcome)
      modifies base
      ensures r == if key in old(Blobs()) then Ok else NotFound
      ensures Blobs() == old(Blobs()) - {key}
      ensures Outside(base.blobs, prefix) == old(Outside(base.blobs, prefix))
    {
      InView(base.blobs, prefix, key);
      ViewOfRemoval(base.blobs, prefix, key);
      r := base.Delete(prefix + key);
    }

    /** Rewrites the keys of the base bucket's page in place; the page token passes through unchanged. That is the
        page of the view whose token is the same place in the view. */
    method ListPaged(opts: ListOptions, ghost token: string) returns (page: ListPage)
      ensures
        var whole := PageOf(base.blobs, opts.(prefix := prefix + opts.prefix));
        page == ListPage(TrimAll(whole.objects, prefix), whole.nextPageToken)
      ensures opts.pageToken == BaseToken(prefix, token) ==>
        var view := PageOf(Blobs(), opts.(pageToken := token));
        page.objects == view.objects
        && (page.nextPageToken == BaseToken(prefix, view.nextPageToken)
            <==> prefix == "" || !EmptyKeyFillsPage(Blobs(), opts.(pageToken := token)))
    {
      var myopts := opts.(prefix := prefix + opts.prefix);
      page := base.ListPaged(myopts);
      var objects := page.objects;
      for i := 0 to |objects|
        invariant |objects| == |page.objects|
        invariant forall j :: 0 <= j < |objects| ==>
          objects[j] == if j < i then Trim(page.objects[j], prefix) else page.objects[j]
      {
        objects := objects[i := Trim(objects[i], prefix)];
      }
      assert objects == TrimAll(page.objects, prefix);
      page := page.(objects := objects);
      PageUnderPrefix(base.blobs, prefix, opts.(pageToken := token));
    }
  }
  lemma TwoNames(p: string)
    ensures Sorted([p, p + "a"]) && SortSet({p, p + "a"}) == [p, p + "a"]
    ensures Entries({p, p + "a"}, p, "") == {p, p + "a"}
    ensures SortSet({p + "a"}) == [p + "a"] && Above({p, p + "a"}, "") == {p, p + "a"}
    ensures p != "" ==> Above({p, p + "a"}, p) == {p + "a"}
  {
    hide Less;
    PrefixLeq(p, p + "a");
    Irreflexive(p);
    assert Collapse(p, "", p) == p && Collapse(p, "", p + "a") == p + "a";
    SortSetUnique({p, p + "a"}, [p, p + "a"]);
    SortSetUnique({p + "a"}, [p + "a"]);
  }

  lemma KeysOfView(blobs: map<string, Blob>, p: string)
    requires View(blobs, p).Keys == {"", "a"} && Outside(blobs, p) == map[]
    ensures blobs.Keys == {p, p + "a"}
  {
    assert p + "" == p;
    forall k ensures k in blobs <==> k in {p, p + "a"} {
      if k in blobs {
        assert k !in Outside(blobs, p);
        assert k[|p|..] in View(blobs, p);
        assert k == p + k[|p|..];
      }
      InView(blobs, p, "");
      InView(blobs, p, "a");
    }
  }

  /** The pages of one of a bucket that stores a prefix and one key under it. */
  lemma PagesOfTwo(blobs: map<string, Blob>, p: string)
    requires blobs.Keys == {p, p + "a"}
    ensures
      var page := PageOf(blobs, ListOptions(p, "", 1, ""));
      TrimAll(page.objects, p) == [Trim(ObjectFor(blobs, p, "", p), p)]
      && Trim(ObjectFor(blobs, p, "", p), p).key == "" && page.nextPageToken == p
    ensures p != "" ==>
      var rest := PageOf(blobs, ListOptions(p, "", 1, p));
      TrimAll(rest.objects, p) == [Trim(ObjectFor(blobs, p, "", p + "a"), p)]
      && Trim(ObjectFor(blobs, p, "", p + "a"), p).key == "a" && rest.nextPageToken == ""
  {
    hide Less, SortSet, Entries, Collapse, InDir;
    TwoNames(p);
  }

  /** Copy stores a blob under the empty key; the first page of one is then that blob with an empty token, which
      means that there are no more, although there is "a". */
  method EmptyKeyByCopy(md5: seq<byte> -> seq<byte>) returns (page: ListPage)
    ensures |page.objects| == 1 && page.objects[0].key == "" && page.nextPageToken == ""
  {
    hide Less, SortSet, PageOf, Collapse, InDir, Entries, ObjectFor;
    var b := new Bucket(false, md5);
    var ctx := new Context();
    var w := new DriverWriter(b, ctx, "a", "text/plain", WriterOptions(map[], false));
    var closed := w.Close(0);
    var copied := b.Copy("", "a");
    assert b.blobs.Keys == {"", "a"};
    assert "" + "a" == "a";
    PagesOfTwo(b.blobs, "");
    page := b.ListPaged(ListOptions("", "", 1, ""));
    assert |TrimAll(page.objects, "")| == 1;
  }

  /** Through a prefix the same page has a token, and the next one has the other blob. */
  method EmptyKeyThroughPrefix(md5: seq<byte> -> seq<byte>) returns (page: ListPage, rest: ListPage)
    ensures |page.objects| == 1 && page.objects[0].key == "" && page.nextPageToken == "p/"
    ensures |rest.objects| == 1 && rest.objects[0].key == "a" && rest.nextPageToken == ""
  {
    hide Less, SortSet, PageOf, Collapse, InDir, Entries, ObjectFor;
    var b := new Bucket(false, md5);
    var view := new PrefixedBucket(b, "p/");
    var stored := view.WriteBlob("a", "text/plain", WriterOptions(map[], false), [1], 0);
    var copied := view.Copy("", "a");
    assert View(b.blobs, "p/").Keys == {"", "a"};
    KeysOfView(b.blobs, "p/");
    assert "p/" + "" == "p/";
    PagesOfTwo(b.blobs, "p/");
    page := view.ListPaged(ListOptions("", "", 1, ""), "");
    rest := view.ListPaged(ListOptions("", "", 1, page.nextPageToken), "");
  }
}
