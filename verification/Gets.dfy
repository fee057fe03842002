/** Reading documents: runGets and batchGet of docstore/gcpfirestore/fs.go. */
module Gets {
  import opened Wrappers
  import opened FieldPaths
  import opened Values
  import opened Actions
  import opened Grouping
  import opened Commits

  /** One BatchGet call. An empty mask asks for all fields. */
  datatype GetRequest = GetRequest(documents: seq<string>, mask: seq<string>)

  datatype Response = Found(name: string, fields: Fields) | Missing(name: string) | Unrecognized

  /** What a BatchGet call brings: it may fail to open, and its stream may end with an error. */
  datatype Reply = Reply(started: bool, responses: seq<Response>, broken: bool)

  /** What a mask leaves of a document. It stays uninterpreted. */
  type Project = (Fields, seq<string>) -> Fields

  function MaskFor(fps: seq<Path>): (r: seq<string>)
    ensures |r| == |fps| && forall i :: 0 <= i < |r| ==> r[i] == ToServiceFieldPath(fps[i])
  {
    seq(|fps|, i requires 0 <= i < |fps| => ToServiceFieldPath(fps[i]))
  }

  ghost predicate Truthful(req: GetRequest, r: Response, store: Store, project: Project) {
    match r
    case Found(name, fields) =>
      name in req.documents && name in store && fields == project(store[name].fields, req.mask)
    case Missing(name) => name in req.documents && name !in store
    case Unrecognized => false
  }

  ghost predicate Names(r: Response, name: string) {
    !r.Unrecognized? && r.name == name
  }

  ghost predicate Named(rs: seq<Response>, name: string) {
    exists r :: r in rs && Names(r, name)
  }

  /** The service answers for every requested document, in any order, from one state of the store. */
  ghost predicate Answers(req: GetRequest, reply: Reply, store: Store, project: Project) {
    reply.started && !reply.broken
    && (forall r :: r in reply.responses ==> Truthful(req, r, store, project))
    && forall name :: name in req.documents ==> Named(reply.responses, name)
  }

  /** A get that reports what the store has: its own field paths of its own document. */
  ghost predicate Right(g: Action, store: Store, project: Project, err: Option<Err>, doc: Option<Fields>)
    requires g.key.Some?
  {
    if g.key.value in store then
      err == None && doc == Some(project(store[g.key.value].fields, MaskFor(g.fieldPaths)))
    else err == Some(NotFound)
  }

  ghost predicate GetsOfKeys(gets: seq<Action>) {
    (forall g :: g in gets ==> g.key.Some?)
    && forall i, j :: 0 <= i < j < |gets| ==> gets[i].key != gets[j].key && gets[i].index != gets[j].index
  }

  ghost predicate RequestFor(req: GetRequest, gets: seq<Action>)
    requires GetsOfKeys(gets) && gets != []
  {
    |req.documents| == |gets| && (forall i :: 0 <= i < |gets| ==> req.documents[i] == gets[i].key.value)
    && req.mask == MaskFor(gets[0].fieldPaths)
  }

  /** The request for these gets; there is only one. */
  ghost function RequestOf(gets: seq<Action>): (req: GetRequest)
    requires GetsOfKeys(gets) && gets != []
    ensures RequestFor(req, gets)
  {
    GetRequest(seq(|gets|, i requires 0 <= i < |gets| => gets[i].key.value), MaskFor(gets[0].fieldPaths))
  }

  lemma OneRequest(req: GetRequest, gets: seq<Action>)
    requires GetsOfKeys(gets) && gets != [] && RequestFor(req, gets)
    ensures req == RequestOf(gets)
  {
  }

  method NewGetRequest(gets: seq<Action>) returns (req: GetRequest)
    requires GetsOfKeys(gets) && gets != []
    ensures RequestFor(req, gets)
  {
    var documents: seq<string> := [];
    for i := 0 to |gets|
      invariant |documents| == i && forall k :: 0 <= k < i ==> documents[k] == gets[k].key.value
    {
      assert gets[i] in gets;
      documents := documents + [gets[i].key.value];
    }
    req := GetRequest(documents, MaskFor(gets[0].fieldPaths));
  }

  /** Where each path is in the request. */
  method IndexByPath(paths: seq<string>) returns (m: map<string, nat>)
    requires forall i, j :: 0 <= i < j < |paths| ==> paths[i] != paths[j]
    ensures m.Keys == set p | p in paths
    ensures forall i :: 0 <= i < |paths| ==> m[paths[i]] == i
  {
    m := map[];
    for i := 0 to |paths|
      invariant m.Keys == set p | p in paths[..i]
      invariant forall k :: 0 <= k < i ==> m[paths[k]] == k
    {
      assert forall k :: 0 <= k < i ==> paths[k] in paths[..i] && paths[k] != paths[i];
      assert paths[..i+1] == paths[..i] + [paths[i]];
      m := m[paths[i] := i];
    }
    assert paths[..|paths|] == paths;
  }

  /** The gets that some response names are right. */
  ghost predicate ReadSoFar(gets: seq<Action>, rs: seq<Response>, store: Store, project: Project,
                            e: seq<Option<Err>>, d: seq<Option<Fields>>)
    requires GetsOfKeys(gets) && IndicesFit(gets, |e|) && |e| == |d|
  {
    forall g :: g in gets ==> Named(rs, g.key.value) ==> Right(g, store, project, e[g.index], d[g.index])
  }

  ghost predicate SameElsewhere(gets: seq<Action>, e0: seq<Option<Err>>, e: seq<Option<Err>>, d0: seq<Option<Fields>>,
      d: seq<Option<Fields>>)
  {
    |e0| == |e| == |d0| == |d| && forall i :: 0 <= i < |e| && !HasIndex(gets, i) ==> e[i] == e0[i] && d[i] == d0[i]
  }

  lemma ReadOne(gets: seq<Action>, rs: seq<Response>, r: Response, i: nat, store: Store, project: Project,
                e: seq<Option<Err>>, d: seq<Option<Fields>>, err: Option<Err>, doc: Option<Fields>)
    requires GetsOfKeys(gets) && IndicesFit(gets, |e|) && |e| == |d| && i < |gets| && gets[i] in gets
    requires ReadSoFar(gets, rs, store, project, e, d)
    requires Names(r, gets[i].key.value) && Right(gets[i], store, project, err, doc)
    ensures ReadSoFar(gets, rs + [r], store, project, e[gets[i].index := err], d[gets[i].index := doc])
  {
    hide Right;
    var e1, d1 := e[gets[i].index := err], d[gets[i].index := doc];
    forall g | g in gets && Named(rs + [r], g.key.value)
      ensures Right(g, store, project, e1[g.index], d1[g.index])
    {
      if g != gets[i] {
        var k :| 0 <= k < |gets| && gets[k] == g;
        assert k != i && g.key != gets[i].key && g.index != gets[i].index;
        var x :| x in rs + [r] && Names(x, g.key.value);
        assert x in rs;
      }
    }
  }

  ghost predicate AllErr(gets: seq<Action>, e: seq<Option<Err>>, err: Err) {
    forall g :: g in gets ==> g.index < |e| && e[g.index] == Some(err)
  }

  /** What gets of one call report: the call's failure, all of them; or what its answers say. */
  ghost predicate CallReported(gets: seq<Action>, reply: GetRequest -> Reply, store: Store, project: Project,
                           e: seq<Option<Err>>, d: seq<Option<Fields>>)
    requires GetsOfKeys(gets) && gets != [] && |e| == |d|
  {
    var res := reply(RequestOf(gets));
    if !res.started then AllErr(gets, e, RpcFailed)
    else if Unrecognized in res.responses then AllErr(gets, e, Internal)
    else if res.broken then AllErr(gets, e, RpcFailed)
    else Answers(RequestOf(gets), res, store, project) ==>
      forall g :: g in gets ==> g.index < |e| && Right(g, store, project, e[g.index], d[g.index])
  }

  lemma AnswersRecognized(req: GetRequest, res: Reply, store: Store, project: Project)
    requires Answers(req, res, store, project)
    ensures res.started && !res.broken && Unrecognized !in res.responses
  {
    forall r | r in res.responses ensures r != Unrecognized { assert Truthful(req, r, store, project); }
  }

  lemma ErrAll(gets: seq<Action>, e0: seq<Option<Err>>, e1: seq<Option<Err>>, err: Err)
    requires IndicesFit(gets, |e1|) && |e0| == |e1|
    requires forall i :: 0 <= i < |e0| ==> e1[i] == if HasIndex(gets, i) then Some(err) else e0[i]
    ensures AllErr(gets, e1, err)
  {
    forall g | g in gets ensures e1[g.index] == Some(err) { assert HasIndex(gets, g.index); }
  }

  lemma AnsweredOne(req: GetRequest, res: Reply, n: nat, store: Store, project: Project)
    requires Answers(req, res, store, project) && n < |res.responses|
    ensures Truthful(req, res.responses[n], store, project)
  {
  }

  /** A true response is right for the get at its position. */
  lemma ResponseRight(req: GetRequest, r: Response, gets: seq<Action>, i: nat, store: Store, project: Project,
      doc: Option<Fields>)
    requires Uniform(gets) && GetsOfKeys(gets) && RequestFor(req, gets) && Truthful(req, r, store, project)
    requires i < |gets| && Names(r, gets[i].key.value)
    ensures r.Found? ==> Right(gets[i], store, project, None, Some(r.fields))
    ensures r.Missing? ==> Right(gets[i], store, project, Some(NotFound), doc)
  {
    assert gets[i] in gets;
  }

  lemma AllRead(req: GetRequest, res: Reply, gets: seq<Action>, store: Store, project: Project,
                e: seq<Option<Err>>, d: seq<Option<Fields>>)
    requires GetsOfKeys(gets) && gets != [] && RequestFor(req, gets) && IndicesFit(gets, |e|) && |e| == |d|
    requires Answers(req, res, store, project) && ReadSoFar(gets, res.responses, store, project, e, d)
    ensures forall g :: g in gets ==> Right(g, store, project, e[g.index], d[g.index])
  {
    hide Right;
    forall g | g in gets ensures Right(g, store, project, e[g.index], d[g.index]) {
      var i :| 0 <= i < |gets| && gets[i] == g;
      assert req.documents[i] == g.key.value;
      assert g.key.value in req.documents;
    }
  }

  lemma ReadNothing(gets: seq<Action>, store: Store, project: Project, e: seq<Option<Err>>, d: seq<Option<Fields>>)
    requires GetsOfKeys(gets) && IndicesFit(gets, |e|) && |e| == |d|
    ensures ReadSoFar(gets, [], store, project, e, d)
  {
  }

  lemma UniformNonempty(gets: seq<Action>)
    requires Uniform(gets)
    ensures gets != []
  {
  }

  lemma SameAsBefore(gets: seq<Action>, e: seq<Option<Err>>, d: seq<Option<Fields>>)
    requires |e| == |d|
    ensures SameElsewhere(gets, e, e, d, d)
  {
  }

  lemma ErrSame(gets: seq<Action>, e0: seq<Option<Err>>, e1: seq<Option<Err>>, d: seq<Option<Fields>>, err: Err)
    requires |e0| == |e1| == |d|
    requires forall i :: 0 <= i < |e0| ==> e1[i] == if HasIndex(gets, i) then Some(err) else e0[i]
    ensures SameElsewhere(gets, e0, e1, d, d)
  {
  }

  lemma SlotSame(gets: seq<Action>, g: Action, e: seq<Option<Err>>, d: seq<Option<Fields>>, err: Option<Err>,
      doc: Option<Fields>)
    requires g in gets && g.index < |e| == |d|
    ensures SameElsewhere(gets, e, e[g.index := err], d, d[g.index := doc])
  {
  }

  lemma SameTwice(a: seq<Action>, all: seq<Action>, e0: seq<Option<Err>>, e1: seq<Option<Err>>, e2: seq<Option<Err>>,
                  d0: seq<Option<Fields>>, d1: seq<Option<Fields>>, d2: seq<Option<Fields>>)
    requires SameElsewhere(all, e0, e1, d0, d1) && SameElsewhere(a, e1, e2, d1, d2) && forall g :: g in a ==> g in all
    ensures SameElsewhere(all, e0, e2, d0, d2)
  {
    forall i | 0 <= i < |e2| && !HasIndex(all, i) ensures !HasIndex(a, i) {}
  }

  /** Handles one response; false means that reading stops. */
  method HandleResponse(req: GetRequest, indexByPath: map<string, nat>, gets: seq<Action>, r: Response,
                        errs: array<Option<Err>>, docs: array<Option<Fields>>,
                        ghost rs: seq<Response>, ghost store: Store, ghost project: Project) returns (more: bool)
    requires gets != [] && Uniform(gets) && GetsOfKeys(gets) && RequestFor(req, gets) && IndicesFit(gets, errs.Length)
    requires indexByPath.Keys == (set p | p in req.documents)
    requires forall i :: 0 <= i < |gets| ==> indexByPath[req.documents[i]] == i
    requires errs.Length == docs.Length
    modifies errs, docs
    ensures SameElsewhere(gets, old(errs[..]), errs[..], old(docs[..]), docs[..])
    ensures more <==> r != Unrecognized
    ensures !more ==> AllErr(gets, errs[..], Internal)
    ensures Truthful(req, r, store, project) && old(ReadSoFar(gets, rs, store, project, errs[..], docs[..])) ==>
      more && ReadSoFar(gets, rs + [r], store, project, errs[..], docs[..])
  {
    hide Right, ReadSoFar, Uniform, HasIndex, SameElsewhere, GetsOfKeys, AllErr;
    more := true;
    ghost var e, d := errs[..], docs[..];
    ghost var good := Truthful(req, r, store, project) && ReadSoFar(gets, rs, store, project, e, d);
    match r {
      case Found(name, fields) =>
        if name !in indexByPath {
          SetErr(gets, errs, Internal);
          ErrSame(gets, e, errs[..], d, Internal);
        } else {
          var i := indexByPath[name];
          PositionOf(req, indexByPath, gets, name);
          SlotSame(gets, gets[i], e, d, None, Some(fields));
          if good {
            ResponseRight(req, r, gets, i, store, project, None);
            ReadOne(gets, rs, r, i, store, project, e, d, None, Some(fields));
          }
          docs[gets[i].index] := Some(fields);
          errs[gets[i].index] := None;
          assert errs[..] == e[gets[i].index := None] && docs[..] == d[gets[i].index := Some(fields)];
        }
      case Missing(name) =>
        // A name that was not requested is looked up as position zero.
        var i := if name in indexByPath then indexByPath[name] else 0;
        if name in indexByPath { PositionOf(req, indexByPath, gets, name); }
        assert gets[i] in gets;
        SlotSame(gets, gets[i], e, d, Some(NotFound), d[gets[i].index]);
        if good {
          ResponseRight(req, r, gets, i, store, project, d[gets[i].index]);
          ReadOne(gets, rs, r, i, store, project, e, d, Some(NotFound), d[gets[i].index]);
        }
        errs[gets[i].index] := Some(NotFound);
        assert errs[..] == e[gets[i].index := Some(NotFound)] && docs[..] == d[gets[i].index := d[gets[i].index]];
      case Unrecognized =>
        SetErr(gets, errs, Internal);
        ErrSame(gets, e, errs[..], d, Internal);
        ErrAll(gets, e, errs[..], Internal);
        more := false;
    }
  }

  lemma PositionOf(req: GetRequest, indexByPath: map<string, nat>, gets: seq<Action>, name: string)
    requires GetsOfKeys(gets) && gets != [] && RequestFor(req, gets) && name in indexByPath
    requires indexByPath.Keys == (set p | p in req.documents)
    requires forall i :: 0 <= i < |gets| ==> indexByPath[req.documents[i]] == i
    ensures indexByPath[name] < |gets| && gets[indexByPath[name]].key == Some(name) && gets[indexByPath[name]] in gets
  {
    var i :| 0 <= i < |gets| && req.documents[i] == name;
    assert gets[i] in gets;
  }

  /** Reads the documents of gets that ask for the same fields. Whatever the order of the responses, each get
      receives the answer for its own document; when the call cannot start, its stream breaks or something
      unknown comes, all report that. */
  method BatchGet(gets: seq<Action>, reply: GetRequest -> Reply, errs: array<Option<Err>>, docs: array<Option<Fields>>,
                  ghost store: Store, ghost project: Project)
    requires Uniform(gets) && GetsOfKeys(gets) && gets != [] && IndicesFit(gets, errs.Length)
    requires errs.Length == docs.Length
    modifies errs, docs
    ensures SameElsewhere(gets, old(errs[..]), errs[..], old(docs[..]), docs[..])
    ensures CallReported(gets, reply, store, project, errs[..], docs[..])
  {
    hide Right, Answers, ReadSoFar, Truthful, SameElsewhere, HasIndex, Uniform, AllErr;
    ghost var e0, d0 := errs[..], docs[..];
    SameAsBefore(gets, e0, d0);
    var req := NewGetRequest(gets);
    OneRequest(req, gets);
    var indexByPath := IndexByPath(req.documents);
    var res := reply(req);
    if !res.started {
      SetErr(gets, errs, RpcFailed);
      ErrSame(gets, e0, errs[..], d0, RpcFailed);
      ErrAll(gets, e0, errs[..], RpcFailed);
      return;
    }
    ghost var answered := Answers(req, res, store, project);
    if answered { AnswersRecognized(req, res, store, project); }
    ReadNothing(gets, store, project, errs[..], docs[..]);
    for n := 0 to |res.responses|
      invariant SameElsewhere(gets, old(errs[..]), errs[..], old(docs[..]), docs[..])
      invariant Unrecognized !in res.responses[..n]
      invariant answered ==> ReadSoFar(gets, res.responses[..n], store, project, errs[..], docs[..])
    {
      var r := res.responses[n];
      assert res.responses[..n+1] == res.responses[..n] + [r];
      if answered { AnsweredOne(req, res, n, store, project); }
      ghost var e, d := errs[..], docs[..];
      var more := HandleResponse(req, indexByPath, gets, r, errs, docs, res.responses[..n], store, project);
      SameTwice(gets, gets, e0, e, errs[..], d0, d, docs[..]);
      if !more { return; }
    }
    assert res.responses[..|res.responses|] == res.responses;
    if res.broken {
      ghost var e, d := errs[..], docs[..];
      SetErr(gets, errs, RpcFailed);
      ErrSame(gets, e, errs[..], d, RpcFailed);
      ErrAll(gets, e, errs[..], RpcFailed);
      SameTwice(gets, gets, e0, e, errs[..], d0, d, docs[..]);
      return;
    }
    if answered { AllRead(req, res, gets, store, project, errs[..], docs[..]); }
  }

  /** The first groups report the fate of their own calls. */
  ghost predicate GroupsReported(groups: seq<seq<Action>>, n: nat, reply: GetRequest -> Reply, store: Store,
      project: Project, e: seq<Option<Err>>, d: seq<Option<Fields>>)
    requires n <= |groups| && |e| == |d| && forall i :: 0 <= i < |groups| ==> groups[i] != [] && GetsOfKeys(groups[i])
  {
    forall i :: 0 <= i < n ==> CallReported(groups[i], reply, store, project, e, d)
  }

  /** What gets report depends on their own slots only. */
  lemma ReportedSame(gets: seq<Action>, reply: GetRequest -> Reply, store: Store, project: Project,
                     e0: seq<Option<Err>>, e: seq<Option<Err>>, d0: seq<Option<Fields>>, d: seq<Option<Fields>>)
    requires GetsOfKeys(gets) && gets != [] && |e0| == |e| == |d0| == |d|
    requires CallReported(gets, reply, store, project, e0, d0)
    requires forall g :: g in gets && g.index < |e| ==> e[g.index] == e0[g.index] && d[g.index] == d0[g.index]
    ensures CallReported(gets, reply, store, project, e, d)
  {
    hide Right, Answers, GetsOfKeys;
  }

  /** Groups of different field paths share no index, so reading one leaves what the others reported. */
  lemma GroupRead(groups: seq<seq<Action>>, n: nat, actions: seq<Action>, reply: GetRequest -> Reply, store: Store,
      project: Project, e0: seq<Option<Err>>, e: seq<Option<Err>>, d0: seq<Option<Fields>>, d: seq<Option<Fields>>)
    requires n < |groups| && |e0| == |e| == |d0| == |d| && GetsOfKeys(actions) && IndicesFit(actions, |e|)
    requires forall i :: 0 <= i < |groups| ==> groups[i] != [] && GetsOfKeys(groups[i])
    requires forall g, a :: g in groups && a in g ==> a in actions
    requires (forall g :: g in groups ==> Uniform(g)) && PairwiseApart(groups)
    requires GroupsReported(groups, n, reply, store, project, e0, d0) && SameElsewhere(groups[n], e0, e, d0, d)
    requires CallReported(groups[n], reply, store, project, e, d)
    ensures GroupsReported(groups, n + 1, reply, store, project, e, d)
  {
    hide CallReported, Uniform, PairwiseApart, GetsOfKeys;
    forall i | 0 <= i < n ensures CallReported(groups[i], reply, store, project, e, d) {
      assert groups[i] in groups;
      forall g | g in groups[i] ensures g.index < |e| && e[g.index] == e0[g.index] && d[g.index] == d0[g.index] {
        assert g in actions;
        forall b | b in groups[n] ensures b.index != g.index { Separate(groups, i, n, actions, g, b); }
        assert !HasIndex(groups[n], g.index);
      }
      ReportedSame(groups[i], reply, store, project, e0, e, d0, d);
    }
  }

  lemma Separate(groups: seq<seq<Action>>, i: nat, n: nat, actions: seq<Action>, g: Action, b: Action)
    requires i < n < |groups| && GetsOfKeys(actions) && g in groups[i] && b in groups[n] && g in actions && b in actions
    requires Uniform(groups[i]) && Uniform(groups[n]) && PairwiseApart(groups)
    ensures b.index != g.index
  {
    assert Follows(groups[i], groups[n]);
    assert g != b;
  }

  lemma {:induction false} InFlatten(groups: seq<seq<Action>>, a: Action)
    ensures a in Flatten(groups) <==> exists i :: 0 <= i < |groups| && a in groups[i]
  {
    if groups != [] {
      InFlatten(groups[..|groups|-1], a);
    }
  }

  lemma GroupOfKeys(g: seq<Action>, actions: seq<Action>)
    requires Distinct(g) && GetsOfKeys(actions) && forall a :: a in g ==> a in actions
    ensures GetsOfKeys(g)
  {
    forall i, j | 0 <= i < j < |g| ensures g[i].key != g[j].key && g[i].index != g[j].index {
      assert g[i] in actions && g[j] in actions;
    }
  }

  /** Every get is in exactly one call, and every call is for gets of the same field paths. */
  ghost predicate Calls(groups: seq<seq<Action>>, actions: seq<Action>) {
    multiset(Flatten(groups)) == multiset(actions) && PairwiseApart(groups)
    && (forall i :: 0 <= i < |groups| ==> groups[i] != [] && GetsOfKeys(groups[i]) && Uniform(groups[i]))
    && forall a :: a in actions <==> exists i :: 0 <= i < |groups| && a in groups[i]
  }

  lemma GroupsAreCalls(groups: seq<seq<Action>>, actions: seq<Action>)
    requires GetsOfKeys(actions) && multiset(Flatten(groups)) == multiset(actions) && PairwiseApart(groups)
    requires forall g :: g in groups ==> Uniform(g) && Distinct(g)
    ensures Calls(groups, actions)
    ensures forall g, a :: g in groups && a in g ==> a in actions
  {
    hide Flatten, PairwiseApart, Uniform, Distinct, GetsOfKeys;
    forall a ensures a in actions <==> exists i :: 0 <= i < |groups| && a in groups[i] {
      InFlatten(groups, a);
      assert a in actions <==> a in multiset(actions) <==> a in multiset(Flatten(groups)) <==> a in Flatten(groups);
    }
    forall i | 0 <= i < |groups| ensures groups[i] != [] && GetsOfKeys(groups[i]) {
      assert groups[i] in groups;
      UniformNonempty(groups[i]);
      GroupOfKeys(groups[i], actions);
    }
  }

  /** Every get of the list reports the fate of its own call: the failure of that call, or the answer for its own
      document and field paths. */
  method RunGets(actions: seq<Action>, reply: GetRequest -> Reply, errs: array<Option<Err>>,
      docs: array<Option<Fields>>, ghost store: Store, ghost project: Project) returns (ghost groups: seq<seq<Action>>)
    requires GetsOfKeys(actions) && IndicesFit(actions, errs.Length) && errs.Length == docs.Length
    modifies errs, docs
    ensures SameElsewhere(actions, old(errs[..]), errs[..], old(docs[..]), docs[..])
    ensures Calls(groups, actions) && GroupsReported(groups, |groups|, reply, store, project, errs[..], docs[..])
  {
    hide Right, Answers, Uniform, Flatten, HasIndex, Calls, PairwiseApart, SameElsewhere, CallReported;
    var split := GroupByFieldPath(actions);
    groups := split;
    GroupsAreCalls(groups, actions);
    CallsParts(groups, actions);
    SameAsBefore(actions, errs[..], docs[..]);
    for n := 0 to |split|
      invariant SameElsewhere(actions, old(errs[..]), errs[..], old(docs[..]), docs[..])
      invariant GroupsReported(groups, n, reply, store, project, errs[..], docs[..])
    {
      ghost var e, d := errs[..], docs[..];
      assert groups[n] in groups;
      BatchGet(split[n], reply, errs, docs, store, project);
      SameTwice(groups[n], actions, old(errs[..]), e, errs[..], old(docs[..]), d, docs[..]);
      GroupRead(groups, n, actions, reply, store, project, e, errs[..], d, docs[..]);
    }
  }

  lemma CallsParts(groups: seq<seq<Action>>, actions: seq<Action>)
    requires Calls(groups, actions)
    ensures PairwiseApart(groups) && forall g :: g in groups ==> Uniform(g)
    ensures forall i :: 0 <= i < |groups| ==> groups[i] != [] && GetsOfKeys(groups[i])
  {
  }

  /** When all calls are answered from one state of the store, all gets are right. */
  lemma AllAnswered(groups: seq<seq<Action>>, actions: seq<Action>, reply: GetRequest -> Reply, store: Store,
      project: Project, e: seq<Option<Err>>, d: seq<Option<Fields>>)
    requires |e| == |d| && GetsOfKeys(actions) && Calls(groups, actions)
    requires GroupsReported(groups, |groups|, reply, store, project, e, d)
    requires forall g :: g in groups ==> Answers(RequestOf(g), reply(RequestOf(g)), store, project)
    ensures forall a :: a in actions ==> a.index < |e| && Right(a, store, project, e[a.index], d[a.index])
  {
    hide Right, Answers, Uniform, PairwiseApart, Flatten;
    forall a | a in actions ensures a.index < |e| && Right(a, store, project, e[a.index], d[a.index]) {
      var i :| 0 <= i < |groups| && a in groups[i];
      assert groups[i] in groups;
      AnswersRecognized(RequestOf(groups[i]), reply(RequestOf(groups[i])), store, project);
      assert CallReported(groups[i], reply, store, project, e, d);
    }
  }
}
