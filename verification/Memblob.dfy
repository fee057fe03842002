/** The in-memory bucket: blob/memblob/memblob.go. */
module Memblob {
  import opened Lex
  import opened Listing

  datatype Outcome = Ok | NotFound | AlreadyExists | InvalidKey | Canceled

  // ---------------------------------------------------------------- the loop of ListPaged

  /** The names of the keys that the loop has passed. */
  ghost function Seen(keys: seq<string>, i: nat, prefix: string, delim: string): set<string>
    requires i <= |keys|
  {
    Entries((set k | k in keys[..i]), prefix, delim)
  }

  lemma SeenNext(keys: seq<string>, i: nat, prefix: string, delim: string)
    requires i < |keys|
    ensures Seen(keys, i + 1, prefix, delim)
      == Seen(keys, i, prefix, delim) + (if prefix <= keys[i] then {Collapse(prefix, delim, keys[i])} else {})
  {
    hide Collapse, InDir;
    assert keys[..i+1] == keys[..i] + [keys[i]];
  }

  /** The last directory among the names seen, or "" when there was none. */
  ghost predicate LastDir(seen: set<string>, prefix: string, delim: string, last: string) {
    (last == "" || last in seen)
    && forall e :: e in seen && InDir(prefix, delim, e) ==> Leq(e, last)
  }

  /** The next key's name comes after all names seen; if it was seen, it is a directory. */
  lemma NextName(keys: seq<string>, i: nat, prefix: string, delim: string)
    requires Sorted(keys) && i < |keys| && prefix <= keys[i]
    ensures
      var seen, name := Seen(keys, i, prefix, delim), Collapse(prefix, delim, keys[i]);
      (forall e :: e in seen ==> Leq(e, name)) && (name in seen ==> InDir(prefix, delim, keys[i]))
  {
    hide Less, SortSet, Collapse, InDir;
    var seen, name := Seen(keys, i, prefix, delim), Collapse(prefix, delim, keys[i]);
    forall e | e in seen ensures Leq(e, name) && (e == name ==> InDir(prefix, delim, keys[i])) {
      var k :| k in keys[..i] && prefix <= k && e == Collapse(prefix, delim, k);
      CollapseMonotone(prefix, delim, k, keys[i]);
      Irreflexive(k);
      if e == name { CollapseCollision(prefix, delim, k, keys[i]); }
    }
  }

  /** Comparing a directory with the last one only is the same as looking for it among all names seen. */
  lemma SeenIffLast(keys: seq<string>, i: nat, prefix: string, delim: string, last: string)
    requires Sorted(keys) && i < |keys| && InDir(prefix, delim, keys[i])
    requires LastDir(Seen(keys, i, prefix, delim), prefix, delim, last)
    ensures Collapse(prefix, delim, keys[i]) in Seen(keys, i, prefix, delim)
      <==> Collapse(prefix, delim, keys[i]) == last
  {
    hide Collapse;
    var name := Collapse(prefix, delim, keys[i]);
    NextName(keys, i, prefix, delim);
    CollapseIdempotent(prefix, delim, keys[i]);
    if name in Seen(keys, i, prefix, delim) {
      if last == "" {
        assert Leq(name, "");
      } else if name != last {
        Asymmetric(name, last);
      }
    }
  }

  /** A sorted part of a set that lies below everything else in it is a prefix of its listing. */
  lemma FirstPart(all: set<string>, part: seq<string>)
    requires Sorted(part)
    requires forall e :: e in part ==> e in all
    requires forall e, n :: e in all && e !in part && n in part ==> Less(n, e)
    ensures part <= SortSet(all)
    ensures |part| == |SortSet(all)| ==> part == SortSet(all)
    ensures (exists e :: e in all && e !in part) ==> |part| < |SortSet(all)|
  {
    hide Less, SortSet;
    var rest := SortSet(set e | e in all && e !in part);
    forall i, j | 0 <= i < j < |part + rest| ensures Less((part + rest)[i], (part + rest)[j]) {
      if i < |part| <= j { assert part[i] in part && rest[j - |part|] in rest; }
    }
    SortSetUnique(all, part + rest);
  }

  /** The state of ListPaged's loop before key i: the names put on the page, and the last directory. */
  ghost predicate Scanned(keys: seq<string>, i: nat, opts: ListOptions, names: seq<string>, last: string)
    requires i <= |keys|
  {
    var seen := Seen(keys, i, opts.prefix, opts.delimiter);
    Sorted(keys) && Sorted(names)
    && (forall e :: e in names <==> e in Above(seen, opts.pageToken))
    && LastDir(seen, opts.prefix, opts.delimiter, last)
  }

  lemma ScannedFirst(keys: seq<string>, opts: ListOptions)
    requires Sorted(keys)
    ensures Scanned(keys, 0, opts, [], "")
  {
  }

  /** One turn of the loop. A key is passed over when it lacks the prefix, when its directory was the
      last one, or when its name does not lie above the token; otherwise its name goes on the page. */
  lemma ScannedNext(keys: seq<string>, i: nat, opts: ListOptions, names: seq<string>, last: string)
    requires i < |keys| && Scanned(keys, i, opts, names, last)
    ensures !(opts.prefix <= keys[i]) ==> Scanned(keys, i + 1, opts, names, last)
    ensures opts.prefix <= keys[i] ==>
      var dir, name := InDir(opts.prefix, opts.delimiter, keys[i]), Collapse(opts.prefix, opts.delimiter, keys[i]);
      if dir && name == last then Scanned(keys, i + 1, opts, names, last)
      else
        name !in Seen(keys, i, opts.prefix, opts.delimiter)
        && var last' := if dir then name else last;
           if opts.pageToken != "" && Leq(name, opts.pageToken)
           then Scanned(keys, i + 1, opts, names, last')
           else Scanned(keys, i + 1, opts, names + [name], last')
                && (opts.pageToken == "" || Less(opts.pageToken, name))
  {
    hide Less, SortSet, Collapse, InDir;
    var prefix, delim, token := opts.prefix, opts.delimiter, opts.pageToken;
    SeenNext(keys, i, prefix, delim);
    var seen := Seen(keys, i, prefix, delim);
    if prefix <= keys[i] {
      var name := Collapse(prefix, delim, keys[i]);
      NextName(keys, i, prefix, delim);
      CollapseIdempotent(prefix, delim, keys[i]);
      if InDir(prefix, delim, keys[i]) { SeenIffLast(keys, i, prefix, delim, last); }
      if InDir(prefix, delim, keys[i]) && name == last {
        assert seen + {name} == seen;
      } else {
        assert LastDir(seen + {name}, prefix, delim, if InDir(prefix, delim, keys[i]) then name else last);
        Total(token, name);
        if token != "" && Leq(name, token) && Less(token, name) { Asymmetric(token, name); }
        assert forall e :: e in names ==> e in seen;
        SortedSnoc(names, name);
      }
    }
  }

  /** What a later key adds comes after all names seen so far, unless it was seen. */
  lemma LaterNames(keys: seq<string>, i: nat, prefix: string, delim: string, e: string)
    requires Sorted(keys) && i < |keys| && prefix <= keys[i]
    requires e in Entries((set k | k in keys), prefix, delim)
    ensures e in Seen(keys, i, prefix, delim) || Leq(Collapse(prefix, delim, keys[i]), e)
  {
    hide Less, SortSet, Collapse, InDir;
    var k :| k in keys && prefix <= k && e == Collapse(prefix, delim, k);
    var j :| 0 <= j < |keys| && keys[j] == k;
    if j < i {
      assert k in keys[..i];
    } else if i < j {
      CollapseMonotone(prefix, delim, keys[i], k);
    }
  }

  /** When the page is full and one more name turns up, the page is done, and its last name is the token. */
  lemma FullPage(keys: seq<string>, i: nat, blobs: map<string, Blob>, opts: ListOptions, names: seq<string>,
      last: string)
    requires i < |keys| && Scanned(keys, i, opts, names, last) && |names| == EffectiveSize(opts)
    requires (set k | k in keys) == blobs.Keys && opts.prefix <= keys[i]
    requires
      var name := Collapse(opts.prefix, opts.delimiter, keys[i]);
      name !in Seen(keys, i, opts.prefix, opts.delimiter) && (opts.pageToken == "" || Less(opts.pageToken, name))
    ensures PageOf(blobs, opts)
      == ListPage(ObjectsFor(blobs, opts.prefix, opts.delimiter, names), names[|names|-1])
  {
    hide Less, SortSet, Collapse, InDir, ObjectsFor;
    var prefix, delim, token := opts.prefix, opts.delimiter, opts.pageToken;
    var all := Above(Entries(blobs.Keys, prefix, delim), token);
    var name := Collapse(prefix, delim, keys[i]);
    assert keys[i] in blobs.Keys;
    assert name in all;
    NextName(keys, i, prefix, delim);
    forall e, n | e in all && e !in names && n in names ensures Less(n, e) {
      LaterNames(keys, i, prefix, delim, e);
      LeqTransitive(n, name, e);
    }
    forall e | e in names ensures e in all {
      var k :| k in keys[..i] && prefix <= k && e == Collapse(prefix, delim, k);
      assert k in blobs.Keys;
    }
    FirstPart(all, names);
    assert SortSet(all)[..|names|] == names;
  }

  /** At the end of the keys the page holds all names above the token. */
  lemma LastPage(keys: seq<string>, blobs: map<string, Blob>, opts: ListOptions, names: seq<string>, last: string)
    requires Scanned(keys, |keys|, opts, names, last) && |names| <= EffectiveSize(opts)
    requires (set k | k in keys) == blobs.Keys
    ensures PageOf(blobs, opts) == ListPage(ObjectsFor(blobs, opts.prefix, opts.delimiter, names), "")
  {
    hide Less, SortSet, Collapse, InDir, ObjectsFor;
    assert keys[..|keys|] == keys;
    SortSetUnique(Above(Entries(blobs.Keys, opts.prefix, opts.delimiter), opts.pageToken), names);
  }

  /** What a reader opened at an offset, for at most a length (negative: no limit), has to give. */
  function Window(content: seq<byte>, offset: nat, length: int): seq<byte> {
    var end := if length < 0 then |content| else Min(|content|, offset + length);
    if offset >= end then [] else content[offset..end]
  }

  /** The bytes from the offset on, as many as asked for, as far as there are any. */
  lemma WindowIs(content: seq<byte>, offset: nat, length: int)
    ensures
      var w, left := Window(content, offset, length), |content| - offset;
      |w| == (if left <= 0 then 0 else if 0 <= length < left then length else left)
      && forall i :: 0 <= i < |w| ==> w[i] == content[offset + i]
  {
  }

  datatype Open<T> = Opened(value: T) | Failed(outcome: Outcome)

  /** A byte reader over the content, cut off by a limit reader when the length is not negative. */
  class DriverReader {
    const content: seq<byte>
    const size: nat
    var pos: nat
    var limit: int

    constructor (content: seq<byte>, size: nat, offset: nat, length: int)
      ensures this.content == content && this.size == size
      ensures Remaining() == Window(content, offset, length)
    {
      this.content, this.size, this.pos, this.limit := content, size, offset, length;
    }

    function Remaining(): seq<byte>
      reads this
    {
      Window(content, pos, limit)
    }

    /** Reads into a buffer of n bytes. */
    method Read(n: nat) returns (data: seq<byte>, eof: bool)
      modifies this
      ensures eof == (old(Remaining()) == [])
      ensures data == old(Remaining())[..Min(n, |old(Remaining())|)]
      ensures Remaining() == old(Remaining())[|data|..]
    {
      if limit == 0 || pos >= |content| { return [], true; }
      var want := if limit > 0 then Min(n, limit) else n;
      var end := Min(pos + want, |content|);
      data, eof := content[pos..end], false;
      pos := end;
      if limit > 0 { limit := limit - |data|; }
    }
  }

  /** A cancelable context. */
  class Context {
    var canceled: bool

    constructor ()
      ensures !canceled
    {
      canceled := false;
    }
  }

  datatype WriterOptions = WriterOptions(metadata: map<string, string>, ifNotExist: bool)

  /** The bucket after a blob is stored: a replaced blob keeps its creation time. */
  function Stored(blobs: map<string, Blob>, key: string, content: seq<byte>, contentType: string,
      metadata: map<string, string>, md5: seq<byte>, now: int): map<string, Blob>
  {
    var created := if key in blobs then blobs[key].attributes.createTime else now;
    blobs[key := Blob(content, Attributes(contentType, metadata, |content|, created, now, md5))]
  }

  /** What is stored: the content with its size, type, metadata and digest, modified now, created when the first blob
      of that key was; no other key changes. */
  lemma StoredIs(blobs: map<string, Blob>, key: string, content: seq<byte>, contentType: string,
      metadata: map<string, string>, md5: seq<byte>, now: int)
    ensures
      var after := Stored(blobs, key, content, contentType, metadata, md5, now);
      after.Keys == blobs.Keys + {key} && (forall k :: k in blobs && k != key ==> after[k] == blobs[k])
      && after[key].content == content
      && var a := after[key].attributes;
         a.contentType == contentType && a.metadata == metadata && a.size == |content| && a.md5 == md5
         && a.modTime == now && a.createTime == (if key in blobs then blobs[key].attributes.createTime else now)
  {
  }

  /** Collects what is written; Close stores it in one step. */
  class DriverWriter {
    const b: Bucket
    const ctx: Context
    const key: string
    const contentType: string
    const opts: WriterOptions
    var buf: seq<byte>

    constructor (b: Bucket, ctx: Context, key: string, contentType: string, opts: WriterOptions)
      ensures this.b == b && this.ctx == ctx && this.key == key && this.contentType == contentType
      ensures this.opts == opts && buf == []
    {
      this.b, this.ctx, this.key, this.contentType, this.opts, this.buf := b, ctx, key, contentType, opts, [];
    }

    method Write(p: seq<byte>) returns (n: nat)
      modifies this
      ensures n == |p| && buf == old(buf) + p
    {
      buf := buf + p;
      n := |p|;
    }

    method Close(now: int) returns (r: Outcome)
      modifies b
      ensures r == if ctx.canceled then Canceled
                   else if opts.ifNotExist && key in old(b.blobs) then AlreadyExists else Ok
      ensures b.blobs == if r == Ok
        then Stored(old(b.blobs), key, buf, contentType, opts.metadata, b.Sum(buf), now) else old(b.blobs)
      ensures r == Ok ==> key in b.blobs && b.blobs[key].attributes.md5 == if b.noMD5 then [] else b.md5(buf)
    {
      if ctx.canceled { return Canceled; }
      var md5sum := b.Sum(buf);
      var createTime := now;
      if key in b.blobs {
        if opts.ifNotExist { return AlreadyExists; }
        createTime := b.blobs[key].attributes.createTime;
      }
      b.blobs := b.blobs[key := Blob(buf, Attributes(contentType, opts.metadata, |buf|, createTime, now, md5sum))];
      r := Ok;
    }
  }

  class Bucket {
    var blobs: map<string, Blob>
    const noMD5: bool
    const md5: seq<byte> -> seq<byte>

    /** The digest stored with a blob; absent when hashing is disabled. */
    function Sum(content: seq<byte>): seq<byte> {
      if noMD5 then [] else md5(content)
    }

    method GetAttributes(key: string) returns (r: Open<Attributes>)
      ensures r == if key in blobs then Opened(blobs[key].attributes) else Failed(NotFound)
    {
      if key !in blobs { return Failed(NotFound); }
      r := Opened(blobs[key].attributes);
    }

    method NewRangeReader(key: string, offset: nat, length: int) returns (r: Open<DriverReader>)
      ensures r.Failed? <==> key !in blobs
      ensures r.Failed? ==> r.outcome == NotFound
      ensures r.Opened? ==>
        fresh(r.value) && r.value.Remaining() == Window(blobs[key].content, offset, length)
        && r.value.size == blobs[key].attributes.size
    {
      if key !in blobs { return Failed(NotFound); }
      var dr := new DriverReader(blobs[key].content, blobs[key].attributes.size, offset, length);
      r := Opened(dr);
    }

    method NewTypedWriter(ctx: Context, key: string, contentType: string, opts: WriterOptions)
      returns (r: Open<DriverWriter>)
      ensures r.Failed? <==> key == ""
      ensures r.Failed? ==> r.outcome == InvalidKey
      ensures r.Opened? ==>
        var w := r.value;
        fresh(w) && w.b == this && w.ctx == ctx && w.key == key && w.contentType == contentType
        && w.opts == opts && w.buf == []
    {
      if key == "" { return Failed(InvalidKey); }
      var w := new DriverWriter(this, ctx, key, contentType, opts);
      r := Opened(w);
    }

    constructor (noMD5: bool, md5: seq<byte> -> seq<byte>)
      ensures blobs == map[] && this.noMD5 == noMD5 && this.md5 == md5
    {
      blobs, this.noMD5, this.md5 := map[], noMD5, md5;
    }

    method Delete(key: string) returns (r: Outcome)
      modifies this
      ensures r == if key in old(blobs) then Ok else NotFound
      ensures blobs == old(blobs) - {key}
    {
      if key !in blobs {
        assert blobs - {key} == blobs;
        return NotFound;
      }
      blobs := blobs - {key};
      r := Ok;
    }

    /** The destination key is not checked: Copy can store a blob under the empty key. */
    method Copy(dstKey: string, srcKey: string) returns (r: Outcome)
      modifies this
      ensures srcKey !in old(blobs) ==> r == NotFound && blobs == old(blobs)
      ensures srcKey in old(blobs) ==> r == Ok && blobs == old(blobs)[dstKey := old(blobs)[srcKey]]
    {
      if srcKey !in blobs { return NotFound; }
      blobs := blobs[dstKey := blobs[srcKey]];
      r := Ok;
    }

    /** One page of a listing. The loop remembers only the last "directory" it met, which is enough
        to list every directory once because collapsing keeps the order of keys. */
    method ListPaged(opts: ListOptions) returns (page: ListPage)
      ensures page == PageOf(blobs, opts)
    {
      hide *;
      var prefix, delim, token := opts.prefix, opts.delimiter, opts.pageToken;
      var pageSize := EffectiveSize(opts);
      var keys := SortKeys(blobs.Keys);
      var lastPrefix := "";
      var objects: seq<ListObject> := [];
      ghost var names: seq<string> := [];
      assert (set k | k in keys) == blobs.Keys;
      ScannedFirst(keys, opts);
      for i := 0 to |keys|
        invariant |names| <= pageSize
        invariant objects == ObjectsFor(blobs, prefix, delim, names)
        invariant Scanned(keys, i, opts, names, lastPrefix)
      {
        var key := keys[i];
        ghost var last := lastPrefix;
        if prefix <= key { CollapseCases(prefix, delim, key); }
        ghost var name := if prefix <= key then Collapse(prefix, delim, key) else "";
        ScannedNext(keys, i, opts, names, lastPrefix);
        if !(prefix <= key) { continue; }
        var a := blobs[key].attributes;
        var obj := ListObject(key, a.modTime, a.size, a.md5, false);
        if delim != "" {
          var keyWithoutPrefix := key[|prefix|..];
          var idx := IndexOf(keyWithoutPrefix, delim);
          if idx != -1 {
            var dir := prefix + keyWithoutPrefix[..idx+|delim|];
            if dir == lastPrefix { continue; }
            obj := ListObject(dir, 0, 0, [], true);
            lastPrefix := dir;
          }
        }
        ListedAs(blobs, prefix, delim, key);
        ObjectsForSnoc(blobs, prefix, delim, names, name);
        if token != "" && Leq(obj.key, token) { continue; }
        if |objects| == pageSize {
          FullPage(keys, i, blobs, opts, names, last);
          return ListPage(objects, objects[pageSize-1].key);
        }
        objects := objects + [obj];
        names := names + [name];
      }
      LastPage(keys, blobs, opts, names, lastPrefix);
      page := ListPage(objects, "");
    }
  }
}
