/** Commit calls of docstore/gcpfirestore/fs.go: how write actions become writes and calls, and how the
    results of a call are matched back to its actions. The service is an abstract store whose commits
    are atomic. */
module Commits {
  import opened Wrappers
  import opened FieldPaths
  import opened Values
  import opened Mods
  import opened Actions

  // ---------------------------------------------------------------- the service

  datatype Entry = Entry(fields: Fields, rev: nat)

  /** The documents of the collection, by name. */
  type Store = map<string, Entry>

  datatype Precondition = Exists(b: bool) | UpdateTime(rev: nat)

  datatype Op =
    | UpdateDoc(name: string, fields: Fields, mask: Option<seq<string>>)
    | TransformDoc(name: string, transforms: seq<Transform>)
    | DeleteDoc(name: string)

  datatype Write = Write(op: Op, pc: Option<Precondition>)

  function Doc(store: Store, name: string): Option<Entry> {
    if name in store then Some(store[name]) else None
  }

  predicate Met(pc: Option<Precondition>, old_: Option<Entry>) {
    match pc
    case None => true
    case Some(Exists(b)) => old_.Some? == b
    case Some(UpdateTime(rev)) => old_.Some? && old_.value.rev == rev
  }

  function OldFields(old_: Option<Entry>): Fields {
    if old_.Some? then old_.value.fields else map[]
  }

  ghost function NewFields(op: Op, old_: Option<Entry>, add: Add): Option<Fields> {
    match op
    case UpdateDoc(_, fields, None) => Some(fields)
    case UpdateDoc(_, fields, Some(mask)) => Some(ApplyMask(OldFields(old_), fields, mask, add))
    case TransformDoc(_, transforms) => Some(ApplyTransforms(OldFields(old_), transforms, add))
    case DeleteDoc(_) => None
  }

  function Updated(store: Store, name: string, fields: Option<Fields>, now: nat): Store {
    if fields.Some? then store[name := Entry(fields.value, now)] else store - {name}
  }

  ghost function ApplyWrite(store: Store, w: Write, now: nat, add: Add): Option<Store> {
    var old_ := Doc(store, w.op.name);
    if Met(w.pc, old_) then Some(Updated(store, w.op.name, NewFields(w.op, old_, add), now)) else None
  }

  /** A commit: all writes in order, or nothing when a precondition fails. */
  ghost function ApplyWrites(store: Store, ws: seq<Write>, now: nat, add: Add): Option<Store>
    decreases |ws|
  {
    if ws == [] then Some(store) else
      match ApplyWrite(store, ws[0], now, add)
      case None => None
      case Some(s) => ApplyWrites(s, ws[1..], now, add)
  }

  lemma {:induction false} ApplyConcat(store: Store, a: seq<Write>, b: seq<Write>, now: nat, add: Add)
    ensures ApplyWrites(store, a + b, now, add) ==
      match ApplyWrites(store, a, now, add) { case None => None case Some(s) => ApplyWrites(s, b, now, add) }
    decreases |a|
  {
    hide ApplyWrite;
    if a == [] {
      assert a + b == b;
    } else {
      assert (a + b)[1..] == a[1..] + b;
      match ApplyWrite(store, a[0], now, add)
      case None =>
      case Some(s) => ApplyConcat(s, a[1..], b, now, add);
    }
  }

  lemma ApplyOne(store: Store, w: Write, now: nat, add: Add)
    ensures ApplyWrites(store, [w], now, add) == ApplyWrite(store, w, now, add)
  {
    assert [w][1..] == [];
  }

  lemma ApplyTwo(store: Store, w: Write, x: Write, now: nat, add: Add)
    ensures ApplyWrites(store, [w, x], now, add) ==
      match ApplyWrite(store, w, now, add) { case None => None case Some(s) => ApplyWrite(s, x, now, add) }
  {
    assert [w, x] == [w] + [x];
    ApplyConcat(store, [w], [x], now, add);
    ApplyOne(store, w, now, add);
    match ApplyWrite(store, w, now, add)
    case None =>
    case Some(s) => ApplyOne(s, x, now, add);
  }

  // ---------------------------------------------------------------- what an action means

  datatype Outcome = Fails | Becomes(fields: Option<Fields>)

  /** The revision that a document names; a zero timestamp names none. */
  function RevOf(doc: Document): Option<nat> {
    if doc.rev.Stamp? && doc.rev.time != 0 then Some(doc.rev.time) else None
  }

  /** The action can be sent: its document or modifications can be encoded, and its revision is a timestamp. */
  ghost predicate Encodes(a: Action) {
    match a.kind
    case Create => a.doc.fields.Some?
    case Replace => a.doc.rev != WrongType && a.doc.fields.Some?
    case Put => a.doc.rev != WrongType && a.doc.fields.Some?
    case Delete => a.doc.rev != WrongType
    case Update => a.doc.rev != WrongType && GoodMods(a.mods) && forall d :: d in a.mods ==> Encodable(d.value)
    case Get => false
  }

  /** The revision that an action names is the stored one. */
  predicate RevMatches(doc: Document, old_: Option<Entry>) {
    RevOf(doc).Some? ==> old_.Some? && old_.value.rev == RevOf(doc).value
  }

  /** What a write action does to its document: a Create needs it missing, a Replace and an Update need it
      present, and a named revision must be the stored one. */
  ghost function Does(a: Action, old_: Option<Entry>, add: Add): Outcome
    requires Encodes(a)
  {
    match a.kind
    case Create => if old_.Some? then Fails else Becomes(a.doc.fields)
    case Replace => if old_.Some? && RevMatches(a.doc, old_) then Becomes(a.doc.fields) else Fails
    case Put => if RevMatches(a.doc, old_) then Becomes(a.doc.fields) else Fails
    case Delete => if RevMatches(a.doc, old_) then Becomes(None) else Fails
    case Update =>
      if old_.Some? && RevMatches(a.doc, old_) then Becomes(Some(ApplyMods(old_.value.fields, a.mods, add))) else Fails
  }

  // ---------------------------------------------------------------- actions to writes

  function PreconditionFromTimestamp(rev: Option<nat>): Option<Precondition> {
    match rev
    case None => None
    case Some(r) => Some(UpdateTime(r))
  }

  /** At most two writes: one sets and deletes, the other increments. The first has the precondition. */
  function NewUpdateWrites(name: string, rev: Option<nat>, c: Compiled): seq<Write> {
    var pc := if rev == None then Some(Exists(true)) else PreconditionFromTimestamp(rev);
    if c.fields != map[] || c.mask != [] then
      [Write(UpdateDoc(name, c.fields, Some(c.mask)), pc)]
      + if c.transforms != [] then [Write(TransformDoc(name, c.transforms), None)] else []
    else if c.transforms != [] then [Write(TransformDoc(name, c.transforms), pc)]
    else []
  }

  ghost function WritesOf(a: Action, name: string): seq<Write>
    requires Encodes(a)
  {
    var pc := PreconditionFromTimestamp(RevOf(a.doc));
    match a.kind
    case Create => [Write(UpdateDoc(name, a.doc.fields.value, None), Some(Exists(false)))]
    case Replace => [Write(UpdateDoc(name, a.doc.fields.value, None), if pc == None then Some(Exists(true)) else pc)]
    case Put => [Write(UpdateDoc(name, a.doc.fields.value, None), pc)]
    case Delete => [Write(DeleteDoc(name), pc)]
    case Update => NewUpdateWrites(name, RevOf(a.doc), Compiled(SetAll(a.mods), MaskOf(a.mods), TransformsOf(a.mods)))
  }

  /** The name of the action's document; a Create without a key gets a generated one. */
  function NameOf(a: Action, unique: nat -> string): string {
    if a.key.Some? then a.key.value else if a.kind == Create then unique(a.index) else ""
  }

  function NewNameOf(a: Action, unique: nat -> string): string {
    if a.key == None && a.kind == Create then unique(a.index) else ""
  }

  method ActionToWrites(a: Action, unique: nat -> string) returns (ws: Option<seq<Write>>, newName: string)
    requires a.kind == Update ==> GoodMods(a.mods)
    ensures ws.Some? <==> Encodes(a)
    ensures ws == None <==>
      a.kind == Get || (a.kind != Create && a.doc.rev == WrongType)
      || ((a.kind == Create || a.kind == Replace || a.kind == Put) && a.doc.fields == None)
      || (a.kind == Update && exists d :: d in a.mods && d.value == Unencodable)
    ensures ws.Some? ==> ws.value == WritesOf(a, NameOf(a, unique)) && newName == NewNameOf(a, unique)
  {
    var docName := NameOf(a, unique);
    newName := "";
    ws := None;
    if a.kind == Get || (a.kind != Create && a.doc.rev == WrongType) { return; }
    var pc := PreconditionFromTimestamp(RevOf(a.doc));
    match a.kind {
      case Create =>
        newName := NewNameOf(a, unique);
        if a.doc.fields.Some? {
          ws := Some([Write(UpdateDoc(docName, a.doc.fields.value, None), Some(Exists(false)))]);
        }
      case Replace =>
        if pc == None { pc := Some(Exists(true)); }
        if a.doc.fields.Some? { ws := Some([Write(UpdateDoc(docName, a.doc.fields.value, None), pc)]); }
      case Put =>
        if a.doc.fields.Some? { ws := Some([Write(UpdateDoc(docName, a.doc.fields.value, None), pc)]); }
      case Update =>
        var compiled := ProcessMods(a.mods);
        if compiled.Done? { ws := Some(NewUpdateWrites(docName, RevOf(a.doc), compiled.c)); }
      case Delete =>
        ws := Some([Write(DeleteDoc(docName), pc)]);
    }
  }

  /** Every write of an action is of the document that it names, by its key or, for a Create without one, by the
      generated name, which is also what the document is then told. */
  lemma WrittenUnder(a: Action, unique: nat -> string, w: Write)
    requires Encodes(a) && w in WritesOf(a, NameOf(a, unique))
    ensures a.key.Some? ==> w.op.name == a.key.value && NewNameOf(a, unique) == ""
    ensures a.key == None && a.kind == Create ==> w.op.name == unique(a.index) == NewNameOf(a, unique)
  {
    WritesShape(a, NameOf(a, unique));
  }

  lemma {:induction false} SomethingCompiled(mods: seq<Mod>)
    requires mods != [] && forall d :: d in mods ==> Encodable(d.value)
    ensures MaskOf(mods) != [] || TransformsOf(mods) != []
  {
    assert mods[|mods|-1] in mods;
  }

  lemma WritesShape(a: Action, name: string)
    requires Encodes(a)
    ensures
      var ws := WritesOf(a, name);
      1 <= |ws| <= 2 && (forall w :: w in ws ==> w.op.name == name)
      && (|ws| == 2 ==> ws[0].op.UpdateDoc? && ws[1].op.TransformDoc? && ws[1].pc == None)
  {
    hide SetAll, MaskOf, TransformsOf;
    if a.kind == Update { SomethingCompiled(a.mods); }
  }

  /** The writes of an action do what the action means. */
  lemma ActionMeaning(a: Action, name: string, store: Store, now: nat, add: Add)
    requires Encodes(a)
    ensures ApplyWrites(store, WritesOf(a, name), now, add) ==
      match Does(a, Doc(store, name), add) { case Fails => None case Becomes(f) => Some(Updated(store, name, f, now)) }
  {
    if a.kind == Update {
      UpdateMeaning(a, name, store, now, add);
    }
  }

  lemma UpdateMeaning(a: Action, name: string, store: Store, now: nat, add: Add)
    requires Encodes(a) && a.kind == Update
    ensures ApplyWrites(store, WritesOf(a, name), now, add) ==
      match Does(a, Doc(store, name), add) { case Fails => None case Becomes(f) => Some(Updated(store, name, f, now)) }
  {
    hide SetAll, MaskOf, TransformsOf, ApplyMods, ApplyMask, ApplyTransforms;
    SomethingCompiled(a.mods);
    var old_ := Doc(store, name);
    CompiledMeaning(OldFields(old_), a.mods, a.mods, add);
    var c := Compiled(SetAll(a.mods), MaskOf(a.mods), TransformsOf(a.mods));
    NothingMasked(OldFields(old_), c.fields, add);
    NothingMasked(ApplyMask(OldFields(old_), c.fields, c.mask, add), c.fields, add);
    var ws := WritesOf(a, name);
    if |ws| == 1 {
      ApplyOne(store, ws[0], now, add);
      assert ws == [ws[0]];
    } else {
      assert ws == [ws[0], ws[1]];
      ApplyTwo(store, ws[0], ws[1], now, add);
      UpdatedTwice(store, name, NewFields(ws[0].op, old_, add), Some(ApplyMods(OldFields(old_), a.mods, add)), now);
    }
  }

  /** When committing an action's writes succeeds: a Create needs the document missing, a revision that is named (a
      timestamp other than zero) must be the stored one, and otherwise a Replace and an Update need the document. */
  lemma CommitSucceeds(a: Action, name: string, store: Store, now: nat, add: Add)
    requires Encodes(a)
    ensures
      var done := ApplyWrites(store, WritesOf(a, name), now, add).Some?;
      (done <==> Does(a, Doc(store, name), add) != Fails)
      && (a.kind == Create ==> (done <==> name !in store))
      && (a.kind != Create && a.doc.rev.Stamp? && a.doc.rev.time != 0 ==>
        (done <==> name in store && store[name].rev == a.doc.rev.time))
      && (a.kind != Create && (a.doc.rev.Stamp? ==> a.doc.rev.time == 0) ==>
        (done <==> a.kind == Put || a.kind == Delete || name in store))
  {
    ActionMeaning(a, name, store, now, add);
  }

  /** What it then leaves: the document given, nothing, or what the modifications make of the old one, under a new
      revision; all other documents are as they were. */
  lemma CommitLeaves(a: Action, name: string, store: Store, now: nat, add: Add)
    requires Encodes(a) && ApplyWrites(store, WritesOf(a, name), now, add).Some?
    ensures
      var after := ApplyWrites(store, WritesOf(a, name), now, add).value;
      (a.kind == Create || a.kind == Replace || a.kind == Put ==>
        after == store[name := Entry(a.doc.fields.value, now)])
      && (a.kind == Delete ==> after == store - {name})
      && (a.kind == Update ==>
        name in store && name in after && after == store[name := Entry(after[name].fields, now)]
        && NonEmptyPaths(a.mods) && LeavesAll(a.mods, add, store[name].fields, after[name].fields))
  {
    ActionMeaning(a, name, store, now, add);
    CommitSucceeds(a, name, store, now, add);
    if a.kind == Update {
      hide ApplyMods, LeavesAll, WritesOf, ApplyWrites;
      EveryEffect(store[name].fields, a.mods, add);
    }
  }

  /** From the user's modifications: after an accepted Update every path that was named holds what was asked for. */
  lemma UpdateLeaves(u: UserAction, a: Action, name: string, store: Store, now: nat, add: Add, k: string)
    requires ConvertsTo(u, a) && u.kind == Update && Encodes(a) && k in u.mods
    requires ApplyWrites(store, WritesOf(a, name), now, add).Some?
    ensures ParseFieldPath(k).Some? && ParseFieldPath(k).value != []
    ensures
      var after, p := ApplyWrites(store, WritesOf(a, name), now, add).value, ParseFieldPath(k).value;
      name in store && name in after
      && Leaves(u.mods[k], add, GetAt(store[name].fields, p), GetAt(after[name].fields, p))
  {
    CommitLeaves(a, name, store, now, add);
    var d := ConvertedHas(u.mods, a.mods, k);
    hide Leaves, GetAt, WritesOf, ApplyWrites, Encodes;
  }

  lemma UpdatedTwice(store: Store, name: string, f: Option<Fields>, g: Option<Fields>, now: nat)
    ensures Updated(Updated(store, name, f, now), name, g, now) == Updated(store, name, g, now)
    ensures Doc(Updated(store, name, f, now), name) == if f.Some? then Some(Entry(f.value, now)) else None
  {
  }

  lemma NothingMasked(doc: Fields, fields: Fields, add: Add)
    ensures ApplyMask(doc, fields, [], add) == doc && ApplyTransforms(doc, [], add) == doc
  {
  }

  // ---------------------------------------------------------------- calls

  /** A Commit call: the writes of its actions, in order, and the generated names. */
  datatype CommitCall = CommitCall(writes: seq<Write>, actions: seq<Action>, newNames: seq<string>)

  ghost predicate AllEncode(actions: seq<Action>) {
    forall a :: a in actions ==> Encodes(a)
  }

  ghost function Writes(actions: seq<Action>, unique: nat -> string): seq<Write>
    requires AllEncode(actions)
  {
    if actions == [] then [] else
      var last := actions[|actions|-1];
      Writes(actions[..|actions|-1], unique) + WritesOf(last, NameOf(last, unique))
  }

  function NewNames(actions: seq<Action>, unique: nat -> string): (r: seq<string>)
    ensures |r| == |actions| && forall i :: 0 <= i < |r| ==> r[i] == NewNameOf(actions[i], unique)
  {
    if actions == [] then [] else
      NewNames(actions[..|actions|-1], unique) + [NewNameOf(actions[|actions|-1], unique)]
  }

  ghost function CallFor(actions: seq<Action>, unique: nat -> string): CommitCall
    requires AllEncode(actions)
  {
    CommitCall(Writes(actions, unique), actions, NewNames(actions, unique))
  }

  lemma CallOfNone(unique: nat -> string)
    ensures CallFor([], unique) == CommitCall([], [], [])
  {
  }

  lemma CallSnoc(actions: seq<Action>, a: Action, unique: nat -> string)
    requires AllEncode(actions) && Encodes(a)
    ensures AllEncode(actions + [a])
    ensures
      var c := CallFor(actions, unique);
      c.actions == actions
      && CallFor(actions + [a], unique)
        == CommitCall(c.writes + WritesOf(a, NameOf(a, unique)), actions + [a], c.newNames + [NewNameOf(a, unique)])
  {
    hide Encodes, WritesOf, NameOf, NewNameOf;
    assert (actions + [a])[..|actions|] == actions;
  }

  lemma CallOne(a: Action, unique: nat -> string)
    requires Encodes(a)
    ensures AllEncode([a])
    ensures CallFor([a], unique) == CommitCall(WritesOf(a, NameOf(a, unique)), [a], [NewNameOf(a, unique)])
  {
    hide Encodes, WritesOf, NameOf, NewNameOf, CallFor;
    assert [] + [a] == [a];
    CallOfNone(unique);
    CallSnoc([], a, unique);
  }

  /** Whether the action can fail: its first write has a precondition. */
  ghost predicate CanFail(a: Action)
    requires Encodes(a)
  {
    WritesOf(a, "")[0].pc.Some?
  }

  /** Which actions can fail: all but a Put and a Delete that name no revision. */
  lemma CanFailIff(a: Action)
    requires Encodes(a)
    ensures CanFail(a) <==>
      !((a.kind == Put || a.kind == Delete) && (a.doc.rev.Stamp? ==> a.doc.rev.time == 0))
  {
    hide SetAll, MaskOf, TransformsOf;
    WritesShape(a, "");
  }

  lemma CanFailWrites(a: Action, name: string)
    requires Encodes(a)
    ensures WritesOf(a, name) != [] && (WritesOf(a, name)[0].pc.Some? <==> CanFail(a))
    ensures !CanFail(a) ==> a.kind in {Put, Delete} && RevOf(a.doc) == None
  {
    hide SetAll, MaskOf, TransformsOf;
    WritesShape(a, "");
    WritesShape(a, name);
  }

  /** An action whose writes have no precondition succeeds on every store. */
  lemma CannotFail(a: Action, old_: Option<Entry>, add: Add)
    requires Encodes(a) && !CanFail(a)
    ensures Does(a, old_, add) != Fails
  {
    CanFailWrites(a, "");
  }

  /** The actions that can be sent and have, or do not have, a precondition. */
  ghost function Sendable(actions: seq<Action>, canFail: bool): (r: seq<Action>)
    ensures forall a :: a in r <==> a in actions && Encodes(a) && CanFail(a) == canFail
  {
    if actions == [] then [] else
      var last := actions[|actions|-1];
      var before := Sendable(actions[..|actions|-1], canFail);
      if Encodes(last) && CanFail(last) == canFail then before + [last] else before
  }

  /** One call for each action. */
  ghost function Singles(actions: seq<Action>, unique: nat -> string): (r: seq<CommitCall>)
    requires AllEncode(actions)
    ensures |r| == |actions| && forall i :: 0 <= i < |r| ==> r[i] == CallFor([actions[i]], unique)
  {
    seq(|actions|, i requires 0 <= i < |actions| => CallFor([actions[i]], unique))
  }

  datatype Err = BadDocument | CommitFailed | SetFailed | NotFound | RpcFailed | Internal

  predicate IndicesFit(actions: seq<Action>, n: nat) {
    forall a :: a in actions ==> a.index < n
  }

  /** The error slots after the unsendable ones among these actions reported theirs. */
  ghost predicate UnsendableReported(before: seq<Option<Err>>, after: seq<Option<Err>>, actions: seq<Action>) {
    |after| == |before|
    && forall i :: 0 <= i < |after| ==>
      after[i] == if exists a :: a in actions && !Encodes(a) && a.index == i then Some(BadDocument) else before[i]
  }

  lemma ReportedSnoc(before: seq<Option<Err>>, after: seq<Option<Err>>, actions: seq<Action>, a: Action)
    requires UnsendableReported(before, after, actions) && a.index < |after|
    ensures UnsendableReported(before, if Encodes(a) then after else after[a.index := Some(BadDocument)], actions + [a])
  {
    hide Encodes;
    var r := if Encodes(a) then after else after[a.index := Some(BadDocument)];
    forall i | 0 <= i < |after|
      ensures r[i]
        == if exists x :: x in actions + [a] && !Encodes(x) && x.index == i then Some(BadDocument) else before[i]
    {
      if x :| x in actions + [a] && !Encodes(x) && x.index == i {
        assert x == a || x in actions;
      } else {
        assert a in actions + [a];
        assert forall x :: x in actions ==> x in actions + [a];
      }
    }
  }

  lemma SendableSnoc(actions: seq<Action>, a: Action, canFail: bool)
    ensures Sendable(actions + [a], canFail)
      == if Encodes(a) && CanFail(a) == canFail then Sendable(actions, canFail) + [a] else Sendable(actions, canFail)
  {
    hide Encodes, CanFail;
    assert (actions + [a])[..|actions|] == actions;
  }

  /** The calls that are built so far. */
  ghost predicate Built(calls: seq<CommitCall>, nCall: CommitCall, actions: seq<Action>, unique: nat -> string) {
    calls == Singles(Sendable(actions, true), unique) && nCall == CallFor(Sendable(actions, false), unique)
  }

  lemma SinglesSnoc(actions: seq<Action>, a: Action, unique: nat -> string)
    requires AllEncode(actions) && Encodes(a)
    ensures AllEncode(actions + [a])
    ensures Singles(actions + [a], unique) == Singles(actions, unique) + [CallFor([a], unique)]
  {
    hide Encodes, CallFor;
  }

  lemma BuiltSingle(calls: seq<CommitCall>, nCall: CommitCall, actions: seq<Action>, a: Action, unique: nat -> string)
    requires Built(calls, nCall, actions, unique) && Encodes(a) && CanFail(a)
    ensures
      var c := CommitCall(WritesOf(a, NameOf(a, unique)), [a], [NewNameOf(a, unique)]);
      Built(calls + [c], nCall, actions + [a], unique)
  {
    hide Encodes, CanFail, WritesOf, Sendable, Writes;
    SendableSnoc(actions, a, true);
    SendableSnoc(actions, a, false);
    CallOne(a, unique);
    SinglesSnoc(Sendable(actions, true), a, unique);
  }

  lemma BuiltShared(calls: seq<CommitCall>, nCall: CommitCall, actions: seq<Action>, a: Action, unique: nat -> string)
    requires Built(calls, nCall, actions, unique) && Encodes(a) && !CanFail(a)
    ensures
      var c := CommitCall(
        nCall.writes + WritesOf(a, NameOf(a, unique)), nCall.actions + [a], nCall.newNames + [NewNameOf(a, unique)]);
      Built(calls, c, actions + [a], unique)
  {
    hide Encodes, CanFail, WritesOf, Sendable, Writes;
    SendableSnoc(actions, a, true);
    SendableSnoc(actions, a, false);
    CallSnoc(Sendable(actions, false), a, unique);
  }

  lemma BuiltSkip(calls: seq<CommitCall>, nCall: CommitCall, actions: seq<Action>, a: Action, unique: nat -> string)
    requires Built(calls, nCall, actions, unique) && !Encodes(a)
    ensures Built(calls, nCall, actions + [a], unique)
  {
    hide Encodes, CanFail, WritesOf, Sendable, Writes;
    SendableSnoc(actions, a, true);
    SendableSnoc(actions, a, false);
  }

  lemma {:induction false} WritesEmpty(actions: seq<Action>, unique: nat -> string)
    requires AllEncode(actions)
    ensures Writes(actions, unique) == [] <==> actions == []
  {
    hide WritesOf;
    if actions != [] {
      var last := actions[|actions|-1];
      CanFailWrites(last, NameOf(last, unique));
    }
  }

  /** Each action that can fail gets a call of its own; the others, which cannot, share the last call. */
  method BuildCommitCalls(actions: seq<Action>, errs: array<Option<Err>>, unique: nat -> string)
    returns (calls: seq<CommitCall>)
    requires IndicesFit(actions, errs.Length) && forall a :: a in actions && a.kind == Update ==> GoodMods(a.mods)
    modifies errs
    ensures UnsendableReported(old(errs[..]), errs[..], actions)
    ensures
      var n := Sendable(actions, false);
      calls == Singles(Sendable(actions, true), unique) + if n == [] then [] else [CallFor(n, unique)]
  {
    var nCall := CommitCall([], [], []);
    var pCalls: seq<CommitCall> := [];
    for i := 0 to |actions|
      invariant UnsendableReported(old(errs[..]), errs[..], actions[..i])
      invariant Built(pCalls, nCall, actions[..i], unique)
    {
      hide Encodes, WritesOf, CallFor, CanFail, Built, UnsendableReported;
      var a := actions[i];
      assert actions[..i+1] == actions[..i] + [a];
      var ws, nn := ActionToWrites(a, unique);
      ReportedSnoc(old(errs[..]), errs[..], actions[..i], a);
      if ws == None {
        BuiltSkip(pCalls, nCall, actions[..i], a, unique);
        errs[a.index] := Some(BadDocument);
      } else {
        CanFailWrites(a, NameOf(a, unique));
        if ws.value[0].pc == None {
          BuiltShared(pCalls, nCall, actions[..i], a, unique);
          nCall := CommitCall(nCall.writes + ws.value, nCall.actions + [a], nCall.newNames + [nn]);
        } else {
          BuiltSingle(pCalls, nCall, actions[..i], a, unique);
          pCalls := pCalls + [CommitCall(ws.value, [a], [nn])];
        }
      }
    }
    assert actions[..|actions|] == actions;
    WritesEmpty(Sendable(actions, false), unique);
    calls := if |nCall.writes| == 0 then pCalls else pCalls + [nCall];
  }

  // ---------------------------------------------------------------- atomic writes

  /** The position of the first action that cannot be sent. */
  ghost function FirstBad(actions: seq<Action>): (i: nat)
    requires !AllEncode(actions)
    ensures i < |actions| && !Encodes(actions[i]) && AllEncode(actions[..i])
  {
    if !Encodes(actions[0]) then 0 else
      assert AllEncode(actions[1..]) ==> AllEncode(actions) by {
        assert forall a :: a in actions ==> a == actions[0] || a in actions[1..];
      }
      var i := FirstBad(actions[1..]) + 1;
      assert forall a :: a in actions[..i] ==> a == actions[0] || a in actions[1..][..i-1];
      i
  }

  /** All keyed atomic writes share one call; when one of them cannot be sent there is no call. */
  method BuildAtomicWritesCommitCall(actions: seq<Action>, errs: array<Option<Err>>, unique: nat -> string)
    returns (call: Option<CommitCall>)
    requires IndicesFit(actions, errs.Length) && forall a :: a in actions && a.kind == Update ==> GoodMods(a.mods)
    modifies errs
    ensures call.Some? <==> AllEncode(actions)
    ensures call.Some? ==> call.value == CallFor(actions, unique) && errs[..] == old(errs[..])
    ensures call == None ==> errs[..] == old(errs[..])[actions[FirstBad(actions)].index := Some(BadDocument)]
  {
    hide Encodes, WritesOf, CallFor, FirstBad;
    var c := CommitCall([], [], []);
    CallOfNone(unique);
    for i := 0 to |actions|
      invariant AllEncode(actions[..i]) && errs[..] == old(errs[..])
      invariant c == CallFor(actions[..i], unique)
    {
      var a := actions[i];
      var ws, nn := ActionToWrites(a, unique);
      if ws == None {
        assert a in actions;
        FirstBadAt(actions, i);
        errs[a.index] := Some(BadDocument);
        return None;
      }
      CallSnoc(actions[..i], a, unique);
      assert actions[..i+1] == actions[..i] + [a];
      c := CommitCall(c.writes + ws.value, c.actions + [a], c.newNames + [nn]);
    }
    assert actions[..|actions|] == actions;
    call := Some(c);
  }

  lemma FirstBadAt(actions: seq<Action>, i: nat)
    requires i < |actions| && AllEncode(actions[..i]) && !Encodes(actions[i])
    ensures !AllEncode(actions) && FirstBad(actions) == i
  {
    hide Encodes;
    assert actions[i] in actions;
    var f := FirstBad(actions);
    forall k | 0 <= k < i ensures Encodes(actions[k]) { assert actions[k] in actions[..i]; }
    forall k | 0 <= k < f ensures Encodes(actions[k]) { assert actions[k] in actions[..f]; }
  }

  ghost predicate DistinctIndices(actions: seq<Action>) {
    forall i, j :: 0 <= i < j < |actions| ==> actions[i].index != actions[j].index
  }

  /** Every action has an error in its slot. */
  ghost predicate AllReport(errs: seq<Option<Err>>, actions: seq<Action>)
    requires IndicesFit(actions, |errs|)
  {
    forall a :: a in actions ==> errs[a.index].Some?
  }

  /** Atomic writes are sent together or all report an error exactly when they can all be sent, or there is
      only one. Otherwise only the first unsendable one reports, and the rest are dropped silently. */
  lemma SentOrReported(errs: seq<Option<Err>>, actions: seq<Action>)
    requires IndicesFit(actions, |errs|) && DistinctIndices(actions)
    requires forall a :: a in actions ==> errs[a.index] == None
    ensures !AllEncode(actions) ==>
      (AllReport(errs[actions[FirstBad(actions)].index := Some(BadDocument)], actions) <==> |actions| == 1)
  {
    hide Encodes;
    if !AllEncode(actions) {
      var f := FirstBad(actions);
      var after := errs[actions[f].index := Some(BadDocument)];
      if |actions| > 1 {
        var other := if f == 0 then 1 else 0;
        assert actions[other] in actions && after[actions[other].index] == None;
      } else {
        assert forall a :: a in actions ==> a == actions[0];
      }
    }
  }

  /** Two atomic deletes, the first with a revision of the wrong type. */
  function DropExample(): seq<Action> {
    [Action(Delete, Document(Name("a"), WrongType, None), Some("a"), [], [], 0, true),
     Action(Delete, Document(Name("b"), NoField, None), Some("b"), [], [], 1, true)]
  }

  /** The second could be sent, but it neither happens nor reports. */
  lemma SilentDropExample()
    ensures !AllEncode(DropExample()) && Encodes(DropExample()[1])
    ensures [None, None][DropExample()[FirstBad(DropExample())].index := Some(BadDocument)] == [Some(BadDocument), None]
  {
    FirstBadAt(DropExample(), 0);
  }

  // ---------------------------------------------------------------- the cursor

  ghost predicate DistinctNames(actions: seq<Action>, unique: nat -> string) {
    forall i, j :: 0 <= i < j < |actions| ==> NameOf(actions[i], unique) != NameOf(actions[j], unique)
  }

  /** Where the writes of action i start. */
  ghost function Offset(actions: seq<Action>, i: nat, unique: nat -> string): nat
    requires AllEncode(actions) && i <= |actions|
  {
    |Writes(actions[..i], unique)|
  }

  predicate HasFollowingTransform(writes: seq<Write>, i: nat) {
    i + 1 < |writes| && writes[i].op.UpdateDoc? && writes[i+1].op.TransformDoc?
    && writes[i].op.name == writes[i+1].op.name
  }

  function Advance(writes: seq<Write>, j: nat): nat {
    if HasFollowingTransform(writes, j) then j + 2 else j + 1
  }

  /** The cursor of doCommitCall at iteration i. */
  function Cursor(writes: seq<Write>, i: nat): nat {
    if i == 0 then 0 else Advance(writes, Cursor(writes, i - 1))
  }

  lemma {:induction false} WritesAt(actions: seq<Action>, i: nat, unique: nat -> string)
    requires AllEncode(actions) && i < |actions|
    ensures
      var o, n := Offset(actions, i, unique), |WritesOf(actions[i], NameOf(actions[i], unique))|;
      o + n == Offset(actions, i + 1, unique) <= |Writes(actions, unique)|
      && Writes(actions, unique)[o..o+n] == WritesOf(actions[i], NameOf(actions[i], unique))
    decreases |actions|
  {
    hide WritesOf, Encodes;
    var init := actions[..|actions|-1];
    if i < |init| {
      WritesAt(init, i, unique);
      assert init[..i] == actions[..i] && init[..i+1] == actions[..i+1];
    } else {
      assert actions[..i] == init && actions[..i+1] == actions;
    }
  }

  /** The writes at an action's offset tell how many writes the action has, because names are distinct. */
  lemma FollowingTransform(actions: seq<Action>, i: nat, unique: nat -> string)
    requires AllEncode(actions) && DistinctNames(actions, unique) && i < |actions|
    ensures Advance(Writes(actions, unique), Offset(actions, i, unique)) == Offset(actions, i + 1, unique)
    ensures Offset(actions, i, unique) < |Writes(actions, unique)|
  {
    hide WritesOf, Encodes, Writes;
    var name := NameOf(actions[i], unique);
    var ws, all, o := WritesOf(actions[i], name), Writes(actions, unique), Offset(actions, i, unique);
    WritesAt(actions, i, unique);
    WritesShape(actions[i], name);
    assert all[o] == all[o..o+|ws|][0] == ws[0];
    if |ws| == 2 {
      assert all[o+1] == all[o..o+|ws|][1] == ws[1];
    } else if i + 1 < |actions| {
      var next := NameOf(actions[i+1], unique);
      WritesAt(actions, i + 1, unique);
      WritesShape(actions[i+1], next);
      var ns := WritesOf(actions[i+1], next);
      assert all[o+1] == all[o+1..o+1+|ns|][0] == ns[0];
    } else {
      assert actions[..i+1] == actions;
    }
  }

  /** At iteration i the cursor is at the first write of action i, inside the results, and it ends at their number. */
  lemma {:induction false} CursorAtOffset(actions: seq<Action>, i: nat, unique: nat -> string)
    requires AllEncode(actions) && DistinctNames(actions, unique) && i <= |actions|
    ensures Cursor(Writes(actions, unique), i) == Offset(actions, i, unique)
    ensures i < |actions| ==> Cursor(Writes(actions, unique), i) < |Writes(actions, unique)|
    ensures i == |actions| ==> Cursor(Writes(actions, unique), i) == |Writes(actions, unique)|
  {
    hide WritesOf, Encodes, Writes;
    if i == 0 {
      WritesNone(actions, unique);
    } else {
      CursorAtOffset(actions, i - 1, unique);
      FollowingTransform(actions, i - 1, unique);
    }
    if i < |actions| { FollowingTransform(actions, i, unique); }
    assert actions[..|actions|] == actions;
  }

  lemma WritesNone(actions: seq<Action>, unique: nat -> string)
    ensures Writes(actions[..0], unique) == []
  {
  }

  datatype WriteResult = WriteResult(updateTime: Option<nat>)

  ghost predicate HasIndex(actions: seq<Action>, i: nat) {
    exists a :: a in actions && a.index == i
  }

  /** Gives all these actions the same error. */
  method SetErr(actions: seq<Action>, errs: array<Option<Err>>, e: Err)
    requires IndicesFit(actions, errs.Length)
    modifies errs
    ensures forall i :: 0 <= i < errs.Length ==> errs[i] == if HasIndex(actions, i) then Some(e) else old(errs[i])
  {
    for i := 0 to |actions|
      invariant forall k :: 0 <= k < errs.Length && !HasIndex(actions, k) ==> errs[k] == old(errs[k])
      invariant forall k :: 0 <= k < i ==> errs[actions[k].index] == Some(e)
    {
      assert actions[i] in actions;
      errs[actions[i].index] := Some(e);
    }
  }

  /** What a successful call leaves in the revision field of an action's document, if it has one that can be set. */
  function RevAfter(a: Action, wr: WriteResult, fixed: bool, before: Option<nat>): Option<nat> {
    if a.doc.rev != NoField && !fixed then wr.updateTime else before
  }

  /** A document whose revision field cannot be set reports that, although its write succeeded. */
  function ErrAfter(a: Action, fixed: bool, before: Option<Err>): Option<Err> {
    if a.doc.rev != NoField && fixed then Some(SetFailed) else before
  }

  function NameAfter(a: Action, unique: nat -> string, before: string): string {
    if NewNameOf(a, unique) != "" then NewNameOf(a, unique) else before
  }

  /** The slots that a call may change, one of each for every action of the list; the revision fields of the
      documents in `fixed` cannot be set. */
  datatype CallSlots = CallSlots(errs: seq<Option<Err>>, revs: seq<Option<nat>>, names: seq<string>, fixed: seq<bool>) {
    ghost predicate Fit(n: nat) {
      |errs| == |revs| == |names| == |fixed| == n
    }

    function After(a: Action, wr: WriteResult, unique: nat -> string): CallSlots
      requires a.index < |errs| == |revs| == |names| == |fixed|
    {
      var i := a.index;
      CallSlots(errs[i := ErrAfter(a, fixed[i], errs[i])], revs[i := RevAfter(a, wr, fixed[i], revs[i])],
        names[i := NameAfter(a, unique, names[i])], fixed)
    }
  }

  /** The first n actions have the update time of their first write, and their generated name. */
  ghost predicate Stamped(actions: seq<Action>, n: nat, wrs: seq<WriteResult>, unique: nat -> string,
      before: CallSlots, now: CallSlots)
    requires AllEncode(actions) && n <= |actions| && IndicesFit(actions, |now.errs|)
    requires |wrs| == |Writes(actions, unique)| && before.Fit(|now.errs|) && now.Fit(|now.errs|)
  {
    (forall i :: 0 <= i < |now.errs| && !HasIndex(actions[..n], i) ==>
      now.errs[i] == before.errs[i] && now.revs[i] == before.revs[i] && now.names[i] == before.names[i])
    && forall i :: 0 <= i < n ==> StampedAt(actions, i, wrs, unique, before, now)
  }

  ghost predicate StampedAt(actions: seq<Action>, i: nat, wrs: seq<WriteResult>, unique: nat -> string,
      before: CallSlots, now: CallSlots)
    requires AllEncode(actions) && i < |actions| && IndicesFit(actions, |now.errs|)
    requires |wrs| == |Writes(actions, unique)| && before.Fit(|now.errs|) && now.Fit(|now.errs|)
  {
    var a, o := actions[i], Offset(actions, i, unique);
    o < |wrs| && now.errs[a.index] == ErrAfter(a, before.fixed[a.index], before.errs[a.index])
    && now.revs[a.index] == RevAfter(a, wrs[o], before.fixed[a.index], before.revs[a.index])
    && now.names[a.index] == NameAfter(a, unique, before.names[a.index])
  }

  lemma StampedNext(actions: seq<Action>, n: nat, wrs: seq<WriteResult>, unique: nat -> string, before: CallSlots,
      now: CallSlots)
    requires AllEncode(actions) && n < |actions| && IndicesFit(actions, |now.errs|) && DistinctIndices(actions)
    requires |wrs| == |Writes(actions, unique)| && before.Fit(|now.errs|) && now.Fit(|now.errs|)
    requires before.fixed == now.fixed
    requires Stamped(actions, n, wrs, unique, before, now) && Offset(actions, n, unique) < |wrs|
    ensures actions[n].index < |now.errs|
    ensures Stamped(actions, n + 1, wrs, unique, before, now.After(actions[n], wrs[Offset(actions, n, unique)], unique))
  {
    hide Encodes, Writes;
    var a := actions[n];
    assert a in actions;
    assert !HasIndex(actions[..n], a.index);
    assert a in actions[..n+1];
    var next := now.After(a, wrs[Offset(actions, n, unique)], unique);
    forall i | 0 <= i < |next.errs| && !HasIndex(actions[..n+1], i)
      ensures next.errs[i] == before.errs[i] && next.revs[i] == before.revs[i] && next.names[i] == before.names[i]
    {
      assert forall b :: b in actions[..n] ==> b in actions[..n+1];
      assert !HasIndex(actions[..n], i);
    }
    forall i | 0 <= i < n + 1 ensures StampedAt(actions, i, wrs, unique, before, next) {
      if i < n { assert StampedAt(actions, i, wrs, unique, before, now); }
    }
  }

  /** Distributes the results of a call. The reply is None when the call fails; a reply of the wrong length
      counts as a failure. A document that has a revision field gets the update time of its first write. */
  method DoCommitCall(call: CommitCall, reply: Option<seq<WriteResult>>, errs: array<Option<Err>>,
                      revs: array<Option<nat>>, names: array<string>, fixed: seq<bool>, ghost unique: nat -> string)
    requires AllEncode(call.actions) && call == CallFor(call.actions, unique)
    requires DistinctNames(call.actions, unique) && DistinctIndices(call.actions)
    requires IndicesFit(call.actions, errs.Length) && errs.Length == revs.Length == names.Length == |fixed|
    modifies errs, revs, names
    ensures reply.Some? && |reply.value| == |call.writes| ==>
      Stamped(call.actions, |call.actions|, reply.value, unique,
        old(CallSlots(errs[..], revs[..], names[..], fixed)), CallSlots(errs[..], revs[..], names[..], fixed))
    ensures !(reply.Some? && |reply.value| == |call.writes|) ==>
      revs[..] == old(revs[..]) && names[..] == old(names[..])
      && forall i :: 0 <= i < errs.Length ==> errs[i] == if HasIndex(call.actions, i) then Some(CommitFailed)
        else old(errs[i])
  {
    hide Encodes, WritesOf, Writes, Cursor;
    var actions := call.actions;
    if reply == None || |reply.value| != |call.writes| {
      SetErr(actions, errs, CommitFailed);
      return;
    }
    hide Stamped, Offset;
    var wrs := reply.value;
    var j := 0;
    ghost var before := CallSlots(errs[..], revs[..], names[..], fixed);
    CursorStart(actions, wrs, unique, before);
    for i := 0 to |actions|
      invariant j == Offset(actions, i, unique)
      invariant Stamped(actions, i, wrs, unique, before, CallSlots(errs[..], revs[..], names[..], fixed))
    {
      var a := actions[i];
      assert a in actions;
      FollowingTransform(actions, i, unique);
      ghost var now := CallSlots(errs[..], revs[..], names[..], fixed);
      StampedNext(actions, i, wrs, unique, before, now);
      var wr := wrs[j];
      if a.doc.rev != NoField {
        if fixed[a.index] { errs[a.index] := Some(SetFailed); } else { revs[a.index] := wr.updateTime; }
      }
      if call.newNames[i] != "" { names[a.index] := call.newNames[i]; }
      assert CallSlots(errs[..], revs[..], names[..], fixed) == now.After(a, wr, unique);
      j := Advance(call.writes, j);
    }
  }

  lemma CursorStart(actions: seq<Action>, wrs: seq<WriteResult>, unique: nat -> string, s: CallSlots)
    requires AllEncode(actions) && IndicesFit(actions, |s.errs|) && |wrs| == |Writes(actions, unique)|
    requires s.Fit(|s.errs|)
    ensures Offset(actions, 0, unique) == 0 && Stamped(actions, 0, wrs, unique, s, s)
  {
    WritesNone(actions, unique);
  }

  lemma {:induction false} WrittenNames(actions: seq<Action>, unique: nat -> string, w: Write)
    requires AllEncode(actions) && w in Writes(actions, unique)
    ensures exists a :: a in actions && NameOf(a, unique) == w.op.name
    decreases |actions|
  {
    hide Encodes, WritesOf, NameOf;
    var init, last := actions[..|actions|-1], actions[|actions|-1];
    if w in Writes(init, unique) {
      WrittenNames(init, unique, w);
    } else {
      WritesShape(last, NameOf(last, unique));
      assert last in actions;
    }
  }

  lemma {:induction false} WritesOfFirst(actions: seq<Action>, i: nat, unique: nat -> string)
    requires AllEncode(actions) && i <= |actions|
    ensures Writes(actions[..i], unique) <= Writes(actions, unique)
    decreases |actions|
  {
    hide Encodes, WritesOf, NameOf;
    if i == |actions| {
      assert actions[..i] == actions;
    } else {
      var init := actions[..|actions|-1];
      assert init[..i] == actions[..i];
      WritesOfFirst(init, i, unique);
    }
  }

  /** The first write of a document in a call, which is where its action starts. */
  ghost predicate FirstWriteOf(writes: seq<Write>, o: nat, name: string) {
    o < |writes| && writes[o].op.name == name && forall m :: 0 <= m < o ==> writes[m].op.name != name
  }

  lemma OffsetIsFirst(actions: seq<Action>, i: nat, unique: nat -> string)
    requires AllEncode(actions) && DistinctNames(actions, unique) && i < |actions|
    ensures FirstWriteOf(Writes(actions, unique), Offset(actions, i, unique), NameOf(actions[i], unique))
  {
    hide Encodes, WritesOf, NameOf, Writes;
    var all, o, name := Writes(actions, unique), Offset(actions, i, unique), NameOf(actions[i], unique);
    WritesAt(actions, i, unique);
    WritesShape(actions[i], name);
    FollowingTransform(actions, i, unique);
    assert all[o] == all[o..o+|WritesOf(actions[i], name)|][0];
    WritesOfFirst(actions, i, unique);
    forall m | 0 <= m < o ensures all[m].op.name != name {
      assert all[m] == Writes(actions[..i], unique)[m];
      WrittenNames(actions[..i], unique, all[m]);
      var a :| a in actions[..i] && NameOf(a, unique) == all[m].op.name;
      var j :| 0 <= j < i && actions[j] == a;
    }
  }

  /** What a successful call leaves for an action: in its document's revision field the time of the first write of
      that document, or its own error when the field cannot be set; and the name that a Create without a key was
      written under. */
  ghost predicate CallTells(writes: seq<Write>, a: Action, wrs: seq<WriteResult>, unique: nat -> string,
      before: CallSlots, now: CallSlots)
    requires a.index < |now.errs| && |wrs| == |writes| && before.Fit(|now.errs|) && now.Fit(|now.errs|)
  {
    var i := a.index;
    exists o: nat ::
      FirstWriteOf(writes, o, NameOf(a, unique))
      && now.revs[i] == (if a.doc.rev == NoField || before.fixed[i] then before.revs[i] else wrs[o].updateTime)
      && now.errs[i] == (if a.doc.rev == NoField || !before.fixed[i] then before.errs[i] else Some(SetFailed))
      && now.names[i] ==
         (if a.key == None && a.kind == Create && writes[o].op.name != "" then writes[o].op.name else before.names[i])
  }

  lemma StampedTells(actions: seq<Action>, i: nat, wrs: seq<WriteResult>, unique: nat -> string,
      before: CallSlots, now: CallSlots)
    requires AllEncode(actions) && DistinctNames(actions, unique) && i < |actions| && IndicesFit(actions, |now.errs|)
    requires |wrs| == |Writes(actions, unique)| && before.Fit(|now.errs|) && now.Fit(|now.errs|)
    requires Stamped(actions, |actions|, wrs, unique, before, now)
    ensures actions[i].index < |now.errs|
    ensures CallTells(Writes(actions, unique), actions[i], wrs, unique, before, now)
  {
    hide Encodes, Writes;
    assert actions[i] in actions;
    OffsetIsFirst(actions, i, unique);
    assert StampedAt(actions, i, wrs, unique, before, now);
  }
}
