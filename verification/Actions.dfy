/** Action lists: what docstore/docstore.go accepts, and how docstore/driver/util.go groups it. */
module Actions {
  import opened Wrappers
  import opened FieldPaths
  import opened Values
  import opened Mods

  datatype Kind = Create | Replace | Put | Get | Delete | Update

  /** What a document says about its key. An empty name counts as missing. */
  datatype KeyField = NoKey | Name(s: string) | NotAString

  /** What a document says about its revision; the zero timestamp counts as none. */
  datatype RevField = NoField | NilRev | Stamp(time: nat) | WrongType

  /** A document: its key and revision fields, and its encoding, unless it cannot be encoded. */
  datatype Document = Document(key: KeyField, rev: RevField, fields: Option<Fields>)

  /** An action as the user added it to the list. */
  datatype UserAction = UserAction(
    kind: Kind, doc: Document, fieldPaths: seq<string>, mods: map<string, ModValue>, inAtomicWrite: bool)

  /** An action as drivers get it. */
  datatype Action = Action(
    kind: Kind, doc: Document, key: Option<string>, fieldPaths: seq<Path>, mods: seq<Mod>,
    index: nat, inAtomicWrite: bool)

  // ---------------------------------------------------------------- accepting a list

  predicate HasRevision(doc: Document) {
    doc.rev.Stamp? || doc.rev.WrongType?
  }

  function KeyOf(doc: Document): Option<string> {
    if doc.key.Name? && doc.key.s != "" then Some(doc.key.s) else None
  }

  /** Whether an action by itself is acceptable. */
  ghost predicate Convertible(a: UserAction) {
    a.doc.key != NotAString
    && (a.kind == Create || KeyOf(a.doc).Some?)
    && !(a.kind == Create && HasRevision(a.doc))
    && (forall s :: s in a.fieldPaths ==> ParseFieldPath(s).Some?)
    && (a.kind == Update ==> Acceptable(a.mods))
  }

  ghost predicate ConvertsTo(a: UserAction, d: Action) {
    Convertible(a)
    && d.kind == (if a.kind == Put && HasRevision(a.doc) then Replace else a.kind)
    && d.doc == a.doc && d.key == KeyOf(a.doc) && d.inAtomicWrite == a.inAtomicWrite
    && |d.fieldPaths| == |a.fieldPaths|
    && (forall i :: 0 <= i < |d.fieldPaths| ==> ParseFieldPath(a.fieldPaths[i]) == Some(d.fieldPaths[i]))
    && (a.kind == Update ==> ConvertedAllOf(a.mods, d.mods) && GoodMods(d.mods))
    && (a.kind != Update ==> d.mods == [])
  }

  /** Which actions are accepted, in the user's terms: all but a Create need a key, a Create must not have a revision,
      the paths must be well formed, and no path of an Update may lie below another. */
  lemma AcceptedIff(a: UserAction)
    ensures Convertible(a) <==>
      a.doc.key != NotAString && (a.kind == Create || (a.doc.key.Name? && a.doc.key.s != ""))
      && (a.kind == Create ==> a.doc.rev == NoField || a.doc.rev == NilRev)
      && (forall s :: s in a.fieldPaths ==> !Malformed(s))
      && (a.kind == Update ==>
        a.mods != map[] && (forall k :: k in a.mods ==> !Malformed(k) && a.mods[k] != Increment(NotANumber))
        && forall k, l :: k in a.mods && l in a.mods ==> !(k + "." <= l))
  {
    hide Malformed, ParseFieldPath;
    forall k, l | k in a.mods && l in a.mods && ParseFieldPath(k).Some? && ParseFieldPath(l).Some?
      ensures ParseFieldPath(k).value <= ParseFieldPath(l).value <==> k == l || k + "." <= l
    {
      PrefixAsStrings(k, l);
    }
  }

  /** What becomes of an action: only a Put with a revision changes its kind, and an empty name is no key. */
  lemma ConvertedInto(a: UserAction, d: Action)
    requires ConvertsTo(a, d)
    ensures d.kind == if a.kind == Put && a.doc.rev != NoField && a.doc.rev != NilRev then Replace else a.kind
    ensures d.key.Some? <==> a.doc.key.Name? && a.doc.key.s != ""
    ensures d.key.Some? ==> d.key.value == a.doc.key.s
  {
    hide ConvertedAllOf, ParseFieldPath;
  }

  datatype Conversion = Converted(d: Action) | Refused

  method ToDriverAction(a: UserAction) returns (r: Conversion)
    ensures r.Converted? <==> Convertible(a)
    ensures r.Converted? ==> ConvertsTo(a, r.d)
  {
    hide ParseFieldPath, Acceptable, ConvertedAllOf;
    if a.doc.key == NotAString { return Refused; }
    var key := KeyOf(a.doc);
    if key == None && a.kind != Create { return Refused; }
    if a.kind == Create && HasRevision(a.doc) { return Refused; }
    var kind := if a.kind == Put && HasRevision(a.doc) then Replace else a.kind;
    var fps: seq<Path> := [];
    for i := 0 to |a.fieldPaths|
      invariant |fps| == i
      invariant forall j :: 0 <= j < i ==> ParseFieldPath(a.fieldPaths[j]) == Some(fps[j])
    {
      var fp := ParseFieldPath(a.fieldPaths[i]);
      if fp == None {
        assert a.fieldPaths[i] in a.fieldPaths;
        return Refused;
      }
      fps := fps + [fp.value];
    }
    var mods: seq<Mod> := [];
    if a.kind == Update {
      var dm := ToDriverMods(a.mods);
      if dm == Rejected { return Refused; }
      mods := dm.mods;
    }
    r := Conversion.Converted(Action(kind, a.doc, key, fps, mods, 0, a.inAtomicWrite));
  }

  /** Two actions that may not stand in one list: both gets, or both writes, of the same key. */
  ghost predicate Duplicates(a: UserAction, b: UserAction) {
    Convertible(a) && Convertible(b) && KeyOf(a.doc).Some? && KeyOf(a.doc) == KeyOf(b.doc)
    && (a.kind == Get) == (b.kind == Get)
  }

  /** In the user's terms: both name the same document, and both or none of them is a Get. */
  lemma DuplicatesIff(a: UserAction, b: UserAction)
    requires Convertible(a) && Convertible(b)
    ensures Duplicates(a, b) <==>
      a.doc.key.Name? && a.doc.key == b.doc.key && a.doc.key.s != "" && (a.kind == Get <==> b.kind == Get)
  {
    hide Acceptable, ParseFieldPath;
  }

  ghost predicate Bad(actions: seq<UserAction>, i: nat)
    requires i < |actions|
  {
    !Convertible(actions[i]) || exists j :: 0 <= j < i && Duplicates(actions[j], actions[i])
  }

  predicate IsGet(a: Action) { a.kind == Get }

  /** What GroupActions relies on: the indices are the positions, an action without a key is a Create,
      and no two gets and no two writes share a key. */
  ghost predicate WellFormed(as_: seq<Action>) {
    (forall i :: 0 <= i < |as_| ==> as_[i].index == i && (as_[i].key == None ==> as_[i].kind == Create))
    && (forall i :: 0 <= i < |as_| && as_[i].kind == Update ==> GoodMods(as_[i].mods))
    && forall i, j :: 0 <= i < j < |as_| && as_[i].key.Some? && as_[i].key == as_[j].key ==>
      IsGet(as_[i]) != IsGet(as_[j])
  }

  lemma ConvertedList(actions: seq<UserAction>, das: seq<Action>)
    requires |das| == |actions| && forall i :: 0 <= i < |das| ==> ConvertsTo(actions[i], das[i]) && das[i].index == i
    requires forall i :: 0 <= i < |actions| ==> !Bad(actions, i)
    ensures WellFormed(das)
  {
    forall i, j | 0 <= i < j < |das| && das[i].key.Some? && das[i].key == das[j].key
      ensures IsGet(das[i]) != IsGet(das[j])
    {
      assert !Bad(actions, j);
      assert !Duplicates(actions[i], actions[j]);
    }
  }

  lemma ConvertedKey(a: UserAction, d: Action, i: nat)
    requires ConvertsTo(a, d)
    ensures Convertible(a) && d.key == KeyOf(a.doc) && (d.kind == Get) == (a.kind == Get)
    ensures ConvertsTo(a, d.(index := i))
  {
    hide Convertible, ConvertedAllOf;
  }

  datatype DriverActions = Accepted(das: seq<Action>) | Errors(indices: seq<nat>)

  /** The list is refused exactly when it holds a bad action, and the errors name exactly the bad ones.
      An accepted list is converted action by action, in order. */
  method ToDriverActions(actions: seq<UserAction>) returns (r: DriverActions)
    ensures r.Accepted? <==> forall i :: 0 <= i < |actions| ==> !Bad(actions, i)
    ensures r.Errors? ==> r.indices != [] && forall i :: i in r.indices <==> 0 <= i < |actions| && Bad(actions, i)
    ensures r.Accepted? ==>
      |r.das| == |actions|
      && (forall i :: 0 <= i < |actions| ==> ConvertsTo(actions[i], r.das[i]) && r.das[i].index == i)
      && WellFormed(r.das)
  {
    hide Convertible, ConvertsTo, KeyOf, WellFormed;
    var das: seq<Action> := [];
    var alerr: seq<nat> := [];
    var seen: set<(string, bool)> := {};
    for i := 0 to |actions|
      invariant forall j :: j in alerr <==> 0 <= j < i && Bad(actions, j)
      invariant alerr == [] ==> |das| == i
      invariant alerr == [] ==> forall j :: 0 <= j < i ==> ConvertsTo(actions[j], das[j]) && das[j].index == j
      invariant forall k, g :: (k, g) in seen <==>
        exists j :: 0 <= j < i && Convertible(actions[j]) && KeyOf(actions[j].doc) == Some(k)
          && (actions[j].kind == Get) == g
    {
      var c := ToDriverAction(actions[i]);
      var bad := c == Refused;
      if !bad { ConvertedKey(actions[i], c.d, i); }
      if c != Refused && c.d.key.Some? {
        var kk := (c.d.key.value, c.d.kind == Get);
        if kk in seen { bad := true; } else { seen := seen + {kk}; }
      }
      assert bad <==> Bad(actions, i);
      if bad {
        alerr := alerr + [i];
      } else {
        das := das + [c.d.(index := i)];
      }
    }
    if alerr != [] {
      assert alerr[0] in alerr;
      return Errors(alerr);
    }
    ConvertedList(actions, das);
    r := DriverActions.Accepted(das);
  }
}
