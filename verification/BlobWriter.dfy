/** The portable writer of blob/blob.go: it holds back the first bytes until it can tell the content type,
    and checks the MD5 of what was written against the one it was given. */
module BlobWriter {
  import opened Wrappers
  import opened Listing
  import opened Memblob

  const SNIFF_LEN: nat := 512

  /** What content-type detection looks at: at most the first 512 bytes. */
  function Head(content: seq<byte>): seq<byte> {
    if |content| <= SNIFF_LEN then content else content[..SNIFF_LEN]
  }

  /** The first 512 bytes, or all there are. */
  lemma HeadIs(content: seq<byte>)
    ensures Head(content) <= content && |Head(content)| == if |content| < 512 then |content| else 512
  {
  }

  lemma HeadOfExtension(content: seq<byte>, more: seq<byte>)
    requires |content| >= SNIFF_LEN
    ensures Head(content + more) == Head(content)
  {
    assert (content + more)[..SNIFF_LEN] == content[..SNIFF_LEN];
  }

  function Concat(chunks: seq<seq<byte>>): seq<byte> {
    if chunks == [] then [] else Concat(chunks[..|chunks|-1]) + chunks[|chunks|-1]
  }

  datatype WriteResult = Wrote(n: nat) | WriteFailed(outcome: Outcome)

  datatype CloseResult = Closed | MD5Mismatch | CloseFailed(outcome: Outcome)

  /** The settings of a writer: a content type, unless it is to be detected; the expected MD5, unless empty. */
  datatype Settings = Settings(contentType: Option<string>, contentMD5: seq<byte>, opts: WriterOptions)

  class Writer {
    const b: Bucket
    const key: string
    const ctx: Context
    const contentMD5: seq<byte>
    const opts: WriterOptions
    const md5: seq<byte> -> seq<byte>
    const sniff: seq<byte> -> string
    /** The content type given, when there is one; None asks for detection. */
    ghost const givenType: Option<string>
    var w: DriverWriter?
    var hashed: seq<byte>
    var buf: seq<byte>
    /** How often a driver writer was opened. */
    ghost var opens: nat

    /** Everything written so far, whether it has reached the driver's writer or not. */
    ghost function Written(): seq<byte>
      reads this, w
    {
      if w == null then buf else w.buf
    }

    ghost function TypeFor(content: seq<byte>): string {
      match givenType case Some(t) => t case None => sniff(Head(content))
    }

    ghost predicate Valid()
      reads this, w
    {
      (w == null ==> opens == 0 && givenType == None && |buf| < SNIFF_LEN)
      && (w != null ==>
        opens == 1 && w.b == b && w.ctx == ctx && w.key == key && w.opts == opts
        && w.contentType == TypeFor(w.buf) && (givenType == None ==> |w.buf| >= SNIFF_LEN))
      && (contentMD5 != [] ==> hashed == Written())
    }

    constructor (b: Bucket, key: string, ctx: Context, settings: Settings, w: DriverWriter?,
        md5: seq<byte> -> seq<byte>, sniff: seq<byte> -> string)
      requires w == null <==> settings.contentType == None
      requires w != null ==>
        w.b == b && w.ctx == ctx && w.key == key && w.opts == settings.opts && w.buf == []
        && w.contentType == settings.contentType.value
      ensures Valid() && Written() == [] && this.w == w
      ensures this.b == b && this.key == key && this.ctx == ctx && this.contentMD5 == settings.contentMD5
      ensures this.opts == settings.opts && this.givenType == settings.contentType && this.md5 == md5
      ensures this.sniff == sniff
    {
      this.b, this.key, this.ctx, this.contentMD5, this.opts := b, key, ctx, settings.contentMD5, settings.opts;
      this.md5, this.sniff, this.givenType, this.w := md5, sniff, settings.contentType, w;
      hashed, buf, opens := [], [], if w == null then 0 else 1;
    }

    /** Detects the content type of p, opens the driver's writer and hands it p. */
    method Open(p: seq<byte>) returns (r: WriteResult)
      requires w == null && opens == 0 && givenType == None
      modifies this
      ensures hashed == old(hashed)
      ensures key == "" ==> r == WriteFailed(InvalidKey) && w == null && buf == old(buf) && opens == 0
      ensures key != "" ==>
        r == Wrote(|p|) && opens == 1 && w != null && fresh(w) && w.buf == p && w.contentType == sniff(Head(p))
        && w.b == b && w.ctx == ctx && w.key == key && w.opts == opts
    {
      var ct := sniff(Head(p));
      var opening := b.NewTypedWriter(ctx, key, ct, opts);
      if opening.Failed? { return WriteFailed(opening.outcome); }
      w := opening.value;
      opens := opens + 1;
      buf := [];
      var n := w.Write(p);
      r := Wrote(n);
    }

    /** Every successful Write appends p, however the content is cut; the count is that of p, even when
        earlier bytes leave the buffer with it. Write fails only when the driver refuses the key. */
    method Write(p: seq<byte>) returns (r: WriteResult)
      requires Valid()
      modifies this, if w == null then {} else {w}
      ensures old(w) == null ==> w == null || fresh(w)
      ensures old(w) != null ==> w == old(w)
      ensures r.Wrote? ==> Valid() && r.n == |p| && Written() == old(Written()) + p
      ensures r.WriteFailed? <==> key == "" && old(w) == null && |old(buf)| + |p| >= SNIFF_LEN
      ensures r.WriteFailed? ==> r.outcome == InvalidKey && w == null
    {
      if contentMD5 != [] { hashed := hashed + p; }
      if w != null {
        if |w.buf| >= SNIFF_LEN { HeadOfExtension(w.buf, p); }
        var n := w.Write(p);
        return Wrote(n);
      }
      if buf == [] && |p| >= SNIFF_LEN {
        assert buf + p == p;
        r := Open(p);
        return;
      }
      buf := buf + p;
      var n := |p|;
      if |buf| >= SNIFF_LEN {
        var o := Open(buf);
        return if o.Wrote? then Wrote(n) else o;
      }
      r := Wrote(n);
    }

    /** A mismatched MD5 cancels the write: the bucket does not change. Otherwise the whole content
        is stored in one step, under the type that detection finds for it. */
    method Close(now: int) returns (r: CloseResult)
      requires Valid()
      modifies this, b, ctx
      ensures r ==
        if contentMD5 != [] && md5(old(Written())) != contentMD5 then MD5Mismatch
        else if key == "" && old(w) == null then CloseFailed(InvalidKey)
        else if old(ctx.canceled) then CloseFailed(Canceled)
        else if opts.ifNotExist && key in old(b.blobs) then CloseFailed(AlreadyExists)
        else Closed
      ensures r != Closed ==> b.blobs == old(b.blobs)
      ensures r == Closed ==>
        var content := old(Written());
        b.blobs == Stored(old(b.blobs), key, content, TypeFor(content), opts.metadata, b.Sum(content), now)
        && opens == 1
    {
      if contentMD5 != [] {
        if md5(hashed) != contentMD5 {
          ctx.canceled := true;
          if w != null { var _ := w.Close(now); }
          return MD5Mismatch;
        }
      }
      if w == null {
        var o := Open(buf);
        if o.WriteFailed? {
          ctx.canceled := true;
          return CloseFailed(o.outcome);
        }
      }
      var c := w.Close(now);
      ctx.canceled := true;
      r := if c == Ok then Closed else CloseFailed(c);
    }
  }

  datatype NewResult = Made(writer: Writer) | NewFailed(outcome: Outcome)

  /** A writer with its own cancelable context; with a content type it opens the driver's writer at once. */
  method NewWriter(b: Bucket, key: string, settings: Settings, md5: seq<byte> -> seq<byte>, sniff: seq<byte> -> string)
    returns (r: NewResult)
    ensures r.NewFailed? <==> key == "" && settings.contentType != None
    ensures r.NewFailed? ==> r.outcome == InvalidKey
    ensures r.Made? ==>
      var w := r.writer;
      fresh(w) && fresh(w.ctx) && !w.ctx.canceled && (w.w != null ==> fresh(w.w)) && w.Valid() && w.Written() == []
      && w.b == b && w.key == key && w.contentMD5 == settings.contentMD5 && w.opts == settings.opts
      && w.givenType == settings.contentType && w.md5 == md5 && w.sniff == sniff
  {
    var ctx := new Context();
    var dw: DriverWriter? := null;
    if settings.contentType != None {
      var opening := b.NewTypedWriter(ctx, key, settings.contentType.value, settings.opts);
      if opening.Failed? { return NewFailed(opening.outcome); }
      dw := opening.value;
    }
    var w := new Writer(b, key, ctx, settings, dw, md5, sniff);
    r := Made(w);
  }

  /** A whole upload, cut into any chunks: the result depends only on their concatenation. */
  method Upload(b: Bucket, key: string, settings: Settings, md5: seq<byte> -> seq<byte>, sniff: seq<byte> -> string,
      chunks: seq<seq<byte>>, now: int) returns (ok: bool)
    modifies b
    ensures ok == (
      key != "" && !(settings.opts.ifNotExist && key in old(b.blobs))
      && (settings.contentMD5 == [] || md5(Concat(chunks)) == settings.contentMD5))
    ensures b.blobs == if !ok then old(b.blobs) else
      var content := Concat(chunks);
      var contentType := match settings.contentType case Some(t) => t case None => sniff(Head(content));
      Stored(old(b.blobs), key, content, contentType, settings.opts.metadata, b.Sum(content), now)
  {
    var made := NewWriter(b, key, settings, md5, sniff);
    if made.NewFailed? { return false; }
    var w := made.writer;
    for i := 0 to |chunks|
      invariant fresh(w) && fresh(w.ctx) && !w.ctx.canceled && (w.w != null ==> fresh(w.w)) && w.Valid()
      invariant w.Written() == Concat(chunks[..i]) && b.blobs == old(b.blobs)
      invariant w.b == b && w.key == key && w.contentMD5 == settings.contentMD5 && w.opts == settings.opts
      invariant w.givenType == settings.contentType && w.md5 == md5 && w.sniff == sniff
      invariant key == "" ==> w.w == null
    {
      assert chunks[..i+1][..i] == chunks[..i];
      var r := w.Write(chunks[i]);
      if r.WriteFailed? { return false; }
    }
    assert chunks[..|chunks|] == chunks;
    var c := w.Close(now);
    ok := c == Closed;
  }
}
