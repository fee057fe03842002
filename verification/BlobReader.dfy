/** The seekable reader of blob/blob.go, which reopens the driver's reader only when it has to. */
module BlobReader {
  import opened Listing
  import opened Memblob

  datatype Whence = SeekStart | SeekCurrent | SeekEnd | SeekOther

  datatype ReadResult = ReadOk(data: seq<byte>, eof: bool) | InvalidSeek | BlobGone

  datatype SeekResult = SeekOk(offset: int) | BeforeStart

  // ---------------------------------------------------------------- what a run should return

  /** The farthest offset that Seek allows, relative to the base offset. */
  function MaxRelative(size: nat, baseOffset: nat, baseLength: int): int {
    if 0 <= baseLength < size - baseOffset then baseLength else size - baseOffset
  }

  function SeekTarget(cursor: int, max: int, offset: int, whence: Whence): int {
    match whence
    case SeekStart => offset
    case SeekCurrent => cursor + offset
    case SeekEnd => max + offset
    case SeekOther => cursor
  }

  /** Where a Seek leaves the cursor: at the target, moved into the range from 0 to max. */
  function SeekCursor(cursor: int, max: int, offset: int, whence: Whence): int {
    var target := SeekTarget(cursor, max, offset, whence);
    if target < 0 then 0 else if target > max then max else target
  }

  function SeekReply(cursor: int, max: int, offset: int, whence: Whence): SeekResult {
    if SeekTarget(cursor, max, offset, whence) < 0 then BeforeStart
    else SeekOk(SeekCursor(cursor, max, offset, whence))
  }

  /** What each kind of Seek does: from the start, from the cursor, from the farthest offset, or not at all; before
      the start is refused and leaves the cursor there, and beyond the farthest offset it stops at it. */
  lemma SeekMeans(cursor: int, max: int, offset: int)
    ensures SeekReply(cursor, max, offset, SeekStart)
      == if offset < 0 then BeforeStart else SeekOk(if offset > max then max else offset)
    ensures SeekReply(cursor, max, offset, SeekCurrent)
      == if cursor + offset < 0 then BeforeStart else SeekOk(if cursor + offset > max then max else cursor + offset)
    ensures SeekReply(cursor, max, offset, SeekEnd)
      == if max + offset < 0 then BeforeStart else SeekOk(if offset > 0 then max else max + offset)
    ensures 0 <= cursor <= max ==> SeekReply(cursor, max, offset, SeekOther) == SeekOk(cursor)
    ensures forall w ::
      if SeekReply(cursor, max, offset, w) == BeforeStart then SeekCursor(cursor, max, offset, w) == 0
      else SeekReply(cursor, max, offset, w) == SeekOk(SeekCursor(cursor, max, offset, w))
  {
  }

  datatype Op = OpRead(n: nat) | OpSeek(offset: int, whence: Whence)

  datatype Reply = Read(r: ReadResult) | Sought(s: SeekResult)

  /** What a cursor has before it; nothing, where it is outside the window. */
  function Rest(window: seq<byte>, cursor: int): seq<byte> {
    if 0 <= cursor <= |window| then window[cursor..] else []
  }

  /** One operation of the simple reader, a cursor over a fixed window of bytes that Seek keeps up to max. */
  function SpecStep(window: seq<byte>, max: int, cursor: int, op: Op): (Reply, int) {
    match op
    case OpRead(n) =>
      var rest := Rest(window, cursor);
      var data := rest[..Min(n, |rest|)];
      (Read(ReadOk(data, rest == [])), cursor + |data|)
    case OpSeek(o, w) =>
      (Sought(SeekReply(cursor, max, o, w)), SeekCursor(cursor, max, o, w))
  }

  function SpecRun(window: seq<byte>, max: int, cursor: int, ops: seq<Op>): seq<Reply>
    ensures |SpecRun(window, max, cursor, ops)| == |ops|
    decreases |ops|
  {
    if ops == [] then [] else
      var (reply, next) := SpecStep(window, max, cursor, ops[0]);
      [reply] + SpecRun(window, max, next, ops[1..])
  }

  lemma SpecRunNext(window: seq<byte>, max: int, cursor: int, ops: seq<Op>, i: nat)
    requires i < |ops|
    ensures
      var (reply, next) := SpecStep(window, max, cursor, ops[i]);
      SpecRun(window, max, cursor, ops[i..]) == [reply] + SpecRun(window, max, next, ops[i+1..])
  {
    assert ops[i..][0] == ops[i] && ops[i..][1..] == ops[i+1..];
  }

  /** For a base offset within the blob, max is the length of the window. */
  lemma MaxIsWindow(content: seq<byte>, offset: nat, length: int)
    ensures
      if offset <= |content| then |Window(content, offset, length)| == MaxRelative(|content|, offset, length)
      else Window(content, offset, length) == [] && MaxRelative(|content|, offset, length) < 0
  {
  }

  ghost predicate NeverNegative(max: int) {
    forall cursor: nat, offset: int, whence: Whence :: 0 <= SeekCursor(cursor, max, offset, whence)
  }

  /** No Seek ends before the start of the window if and only if the base offset lies within the blob.
      Otherwise the clamp to the end of the blob makes the reported offset negative. */
  lemma SeekStaysInWindow(size: nat, baseOffset: nat, baseLength: int)
    ensures NeverNegative(MaxRelative(size, baseOffset, baseLength)) <==> baseOffset <= size
  {
    if baseOffset > size {
      assert SeekCursor(0, MaxRelative(size, baseOffset, baseLength), 0, SeekStart) == size - baseOffset;
    }
  }

  /** Such a reader is easy to get: offset 5 of a blob of 3 bytes. Seeking to its start reports offset -2. */
  lemma SeekPastEndExample()
    ensures SeekReply(0, MaxRelative(3, 5, -1), 0, SeekStart) == SeekOk(-2)
  {
  }

  // ---------------------------------------------------------------- the reader

  class Reader {
    const b: Bucket
    const key: string
    const baseOffset: nat
    const baseLength: int
    ghost const content: seq<byte>
    var r: DriverReader
    var relativeOffset: int
    var savedOffset: int

    /** The bytes of the window asked for, from a relative offset on. */
    ghost function Tail(rel: int): seq<byte> {
      if baseOffset + rel < 0 || (baseLength >= 0 && rel > baseLength) then []
      else Window(content, baseOffset + rel, if baseLength < 0 then baseLength else baseLength - rel)
    }

    ghost function Max(): int {
      MaxRelative(|content|, baseOffset, baseLength)
    }

    /** The blob may be gone, but it has not been replaced since the reader was opened. */
    ghost predicate Unreplaced()
      reads b
    {
      key in b.blobs ==> b.blobs[key].content == content && b.blobs[key].attributes.size == |content|
    }

    predicate InRange(rel: int, size: nat) {
      if baseOffset <= size then 0 <= rel <= MaxRelative(size, baseOffset, baseLength)
      else size - baseOffset <= rel <= 0
    }

    /** The driver's reader stands at savedOffset, or at relativeOffset when savedOffset is -1;
        it ends where the window ends. */
    ghost predicate Valid()
      reads this, r
    {
      r.size == |content|
      && InRange(relativeOffset, |content|)
      && (savedOffset == -1 || InRange(savedOffset, |content|))
      && r.Remaining() == Tail(if savedOffset == -1 then relativeOffset else savedOffset)
    }

    lemma TailOfWindow(rel: nat)
      requires baseOffset <= |content| && rel <= Max()
      ensures Tail(0) == Window(content, baseOffset, baseLength) && |Tail(0)| == Max()
      ensures Tail(rel) == Tail(0)[rel..]
    {
    }

    lemma TailFromStart()
      ensures Tail(0) == Window(content, baseOffset, baseLength)
    {
    }

    /** Past the end of the blob there is nothing to read. */
    lemma TailPastEnd(rel: int)
      requires baseOffset > |content| && InRange(rel, |content|)
      ensures Tail(rel) == []
    {
    }

    /** A reader reopened at rel gives the rest of the window; the length left is not negative. */
    lemma TailReopened(rel: int)
      requires InRange(rel, |content|)
      ensures baseOffset + rel >= 0 && (baseLength >= 0 ==> baseLength - rel >= 0)
      ensures Tail(rel) == Window(content, baseOffset + rel, if baseLength < 0 then baseLength else baseLength - rel)
    {
    }

    /** Reading k bytes moves to the rest of the window. */
    lemma TailDrop(rel: int, k: nat)
      requires InRange(rel, |content|) && k <= |Tail(rel)|
      ensures InRange(rel + k, |content|) && Tail(rel + k) == Tail(rel)[k..]
    {
      if baseOffset <= |content| {
        TailOfWindow(rel);
        TailOfWindow(rel + k);
      } else {
        TailPastEnd(rel);
      }
    }

    lemma SeekInRange(cursor: int, offset: int, whence: Whence)
      ensures InRange(SeekCursor(cursor, Max(), offset, whence), |content|)
    {
    }

    lemma RangeOfMinusOne()
      ensures InRange(-1, |content|) ==> baseOffset > |content|
    {
    }

    constructor (b: Bucket, key: string, baseOffset: nat, baseLength: int, r: DriverReader, ghost content: seq<byte>)
      requires r.size == |content| && r.Remaining() == Window(content, baseOffset, baseLength)
      ensures Valid() && relativeOffset == 0 && this.r == r
      ensures this.b == b && this.key == key && this.content == content
      ensures this.baseOffset == baseOffset && this.baseLength == baseLength
    {
      this.b, this.key, this.baseOffset, this.baseLength := b, key, baseOffset, baseLength;
      this.r, this.content := r, content;
      relativeOffset, savedOffset := 0, -1;
    }

    /** Reads into a buffer of n bytes: the next bytes of the window at the cursor. The driver's reader
        is reopened only after a Seek that moved the cursor; its length is then never negative. */
    method Read(n: nat) returns (result: ReadResult)
      requires Valid() && Unreplaced()
      modifies this, r
      ensures Valid() && (r == old(r) || fresh(r))
      ensures result == BlobGone <==>
        key !in b.blobs && old(savedOffset) != -1 && old(savedOffset) != old(relativeOffset)
      ensures result == BlobGone ==>
        relativeOffset == old(relativeOffset) && savedOffset == old(savedOffset) && r == old(r)
      ensures result != BlobGone ==>
        var tail := Tail(old(relativeOffset));
        result == ReadOk(tail[..Min(n, |tail|)], tail == [])
        && relativeOffset == old(relativeOffset) + |result.data| && savedOffset == -1
    {
      hide Tail, Window, InRange;
      if savedOffset != -1 {
        var saved := savedOffset;
        if relativeOffset == saved {
          savedOffset := -1;
        } else {
          TailReopened(relativeOffset);
          var length := baseLength;
          if length >= 0 {
            length := length - relativeOffset;
            if length < 0 { return InvalidSeek; }
          }
          var newR := b.NewRangeReader(key, baseOffset + relativeOffset, length);
          if newR.Failed? { return BlobGone; }
          savedOffset := -1;
          r := newR.value;
        }
      }
      TailDrop(relativeOffset, Min(n, |Tail(relativeOffset)|));
      var data, eof := r.Read(n);
      relativeOffset := relativeOffset + |data|;
      result := ReadOk(data, eof);
    }

    /** Moves the cursor only; the driver's reader stays where it is until the next Read. */
    method Seek(offset: int, whence: Whence) returns (result: SeekResult)
      requires Valid()
      modifies this
      ensures Valid() && r == old(r)
      ensures result == SeekReply(old(relativeOffset), Max(), offset, whence)
      ensures relativeOffset == SeekCursor(old(relativeOffset), Max(), offset, whence)
    {
      hide Tail, Window, InRange;
      ghost var start := relativeOffset;
      SeekInRange(start, offset, whence);
      if savedOffset == -1 { savedOffset := relativeOffset; }
      var maxRelativeOffset := r.size - baseOffset;
      if baseLength >= 0 && baseLength < maxRelativeOffset { maxRelativeOffset := baseLength; }
      match whence {
        case SeekStart => relativeOffset := offset;
        case SeekCurrent => relativeOffset := relativeOffset + offset;
        case SeekEnd => relativeOffset := maxRelativeOffset + offset;
        case SeekOther =>
      }
      if relativeOffset < 0 {
        relativeOffset := 0;
        result := BeforeStart;
      } else {
        if relativeOffset > maxRelativeOffset { relativeOffset := maxRelativeOffset; }
        result := SeekOk(relativeOffset);
      }
      if savedOffset == -1 {
        // Only past the end of the blob is -1 also an offset.
        RangeOfMinusOne();
        TailPastEnd(start);
        TailPastEnd(relativeOffset);
      }
    }

    lemma TailIsRest(rel: int)
      requires InRange(rel, |content|)
      ensures Tail(rel) == Rest(Tail(0), rel)
    {
      if baseOffset <= |content| {
        TailOfWindow(rel);
      } else {
        TailPastEnd(rel);
        TailPastEnd(0);
      }
    }

    /** One operation, as the simple reader does it. */
    method Do(op: Op) returns (reply: Reply)
      requires Valid() && Unreplaced() && key in b.blobs
      modifies this, r
      ensures Valid() && (r == old(r) || fresh(r))
      ensures (reply, relativeOffset) == SpecStep(Tail(0), Max(), old(relativeOffset), op)
    {
      hide Window, Tail, InRange;
      TailIsRest(relativeOffset);
      match op {
        case OpRead(n) =>
          var result := Read(n);
          reply := Reply.Read(result);
        case OpSeek(o, whence) =>
          var result := Seek(o, whence);
          reply := Sought(result);
      }
    }
  }

  datatype OpenResult = Opened(reader: Reader) | InvalidArgument | OpenNotFound

  method NewReader(b: Bucket, key: string, offset: int, length: int) returns (result: OpenResult)
    requires key in b.blobs ==> b.blobs[key].attributes.size == |b.blobs[key].content|
    ensures result == InvalidArgument <==> offset < 0
    ensures offset >= 0 ==> (result == OpenNotFound <==> key !in b.blobs)
    ensures result.Opened? ==>
      var rd := result.reader;
      fresh(rd) && fresh(rd.r) && rd.Valid() && rd.relativeOffset == 0
      && rd.b == b && rd.key == key && rd.content == b.blobs[key].content
      && rd.baseOffset == offset && rd.baseLength == length
  {
    if offset < 0 { return InvalidArgument; }
    var dr := b.NewRangeReader(key, offset, length);
    if dr.Failed? { return OpenNotFound; }
    var rd := new Reader(b, key, offset, length, dr.value, b.blobs[key].content);
    result := OpenResult.Opened(rd);
  }

  /** Any run of reads and seeks on a fresh reader is the run of a cursor over the window asked for. */
  method Run(b: Bucket, key: string, offset: nat, length: int, ops: seq<Op>) returns (replies: seq<Reply>)
    requires key in b.blobs && b.blobs[key].attributes.size == |b.blobs[key].content|
    ensures
      var content := b.blobs[key].content;
      replies == SpecRun(Window(content, offset, length), MaxRelative(|content|, offset, length), 0, ops)
  {
    hide Window, SpecRun, SpecStep, MaxRelative;
    var opening := NewReader(b, key, offset, length);
    var rd := opening.reader;
    ghost var content := b.blobs[key].content;
    ghost var window, max := Window(content, offset, length), MaxRelative(|content|, offset, length);
    rd.TailFromStart();
    replies := [];
    for i := 0 to |ops|
      invariant fresh(rd) && fresh(rd.r) && rd.Valid() && rd.Unreplaced()
      invariant rd.b == b && rd.key == key && rd.content == content
      invariant rd.Tail(0) == window && rd.Max() == max
      invariant replies + SpecRun(window, max, rd.relativeOffset, ops[i..]) == SpecRun(window, max, 0, ops)
    {
      SpecRunNext(window, max, rd.relativeOffset, ops, i);
      var reply := rd.Do(ops[i]);
      replies := replies + [reply];
    }
  }
}
