/** Every list can be run, whichever calls fail: what `Execution.Execute` demands of its schedule and of the service
    can always be met. */
module Feasible {
  import opened Wrappers
  import opened Mods
  import opened Actions
  import opened Grouping
  import opened Commits
  import opened Gets
  import opened Reference
  import opened Schedule
  import opened Prepare
  import opened R = RunActions
  import opened Execution

  // ---------------------------------------------------------------- schedules

  lemma LeftBelow(p: Plan, s0: Store, s: State)
    requires GoodPlan(p) && Inv(p, s0, s)
    ensures Left(p, s) + |p.calls| + 1 >= 0
  {
    hide GoodPlan, StoreAfter, Expected, SlotsOk, Counters, ToReadOk;
    SmallSet(s.committed, |p.calls|);
  }

  /** From every reachable state some schedule goes on to the end. */
  lemma CanFinish(p: Plan, s0: Store, s: State) returns (steps: seq<Step>, t: State)
    requires GoodPlan(p) && Inv(p, s0, s)
    ensures R.Run(p, s, steps, t) && t.phase == Finished
    decreases Left(p, s) + |p.calls| + 1
  {
    hide GoodPlan, Inv, Enabled, Do, Left;
    LeftBelow(p, s0, s);
    if s.phase == Finished {
      return [], s;
    }
    var st := NextStep(p, s0, s);
    StepInv(p, s0, s, st);
    InvControl(p, s0, s);
    StepLeft(p, s, st);
    LeftBelow(p, s0, Do(p, s, st));
    var rest;
    rest, t := CanFinish(p, s0, Do(p, s, st));
    steps := [st] + rest;
    assert steps[1..] == rest;
  }

  lemma InvControl(p: Plan, s0: Store, s: State)
    requires Inv(p, s0, s)
    ensures Control(p, s)
  {
  }

  // ---------------------------------------------------------------- services

  /** The request is for gets that are not answered. */
  ghost predicate LostRequest(l: ActionList, class_: Class, req: GetRequest) {
    exists g: seq<Action> :: GetsOf(l, class_, g) && RequestOf(g) == req && g[0].index in l.unheard
  }

  function AnswerFor(store: Store, project: Project, mask: seq<string>, name: string): Response {
    if name in store then Found(name, project(store[name].fields, mask)) else Missing(name)
  }

  /** A reply to the request from this store. */
  function FullReply(req: GetRequest, store: Store, project: Project): Reply {
    var n := |req.documents|;
    Reply(true, seq(n, i requires 0 <= i < n => AnswerFor(store, project, req.mask, req.documents[i])), false)
  }

  lemma FullReplyAnswers(req: GetRequest, store: Store, project: Project)
    ensures Answers(req, FullReply(req, store, project), store, project)
  {
    var reply := FullReply(req, store, project);
    forall r | r in reply.responses ensures Truthful(req, r, store, project) {
      var i :| 0 <= i < |req.documents| && reply.responses[i] == r;
    }
    forall name | name in req.documents ensures Named(reply.responses, name) {
      var i :| 0 <= i < |req.documents| && req.documents[i] == name;
      assert reply.responses[i] in reply.responses && Names(reply.responses[i], name);
    }
  }

  ghost function TrueReply(l: ActionList, class_: Class, store: Store, project: Project): GetRequest -> Reply {
    req => if LostRequest(l, class_, req) then Reply(false, [], false) else FullReply(req, store, project)
  }

  /** Requests that are alike are for the same gets, since no two gets of a list share a key. */
  lemma FirstOfRequest(l: ActionList, class_: Class, g: seq<Action>, h: seq<Action>)
    requires GoodList(l) && GetsOf(l, class_, g) && GetsOf(l, class_, h) && RequestOf(g) == RequestOf(h)
    ensures g[0].index == h[0].index
  {
    assert g[0] in g && h[0] in h;
    assert RequestOf(g).documents[0] == RequestOf(h).documents[0];
    assert g[0].key == h[0].key;
    hide Encodes, ClassOf, Uniform, NamesApart;
    assert l.as_[g[0].index].key == l.as_[h[0].index].key;
  }

  lemma OneReplyTrue(l: ActionList, class_: Class, g: seq<Action>, store: Store, project: Project)
    requires GoodList(l) && GetsOf(l, class_, g)
    ensures
      var reply := TrueReply(l, class_, store, project)(RequestOf(g));
      if g[0].index in l.unheard then ReplyFails(reply) else Answers(RequestOf(g), reply, store, project)
  {
    hide GoodList, GetsOfKeys, Uniform, ClassOf, Answers, FullReply;
    if LostRequest(l, class_, RequestOf(g)) {
      var h: seq<Action> :| GetsOf(l, class_, h) && RequestOf(h) == RequestOf(g) && h[0].index in l.unheard;
      FirstOfRequest(l, class_, g, h);
    } else {
      FullReplyAnswers(RequestOf(g), store, project);
    }
  }

  lemma TrueReplyIsTrue(l: ActionList, class_: Class, store: Store, project: Project)
    requires GoodList(l)
    ensures TrueReads(l, class_, TrueReply(l, class_, store, project), store, project)
  {
    hide GoodList, GetsOfKeys, Uniform, ClassOf, Answers, FullReply, TrueReply, ReplyFails;
    forall g: seq<Action> | GetsOf(l, class_, g)
      ensures
        var reply := TrueReply(l, class_, store, project)(RequestOf(g));
        if g[0].index in l.unheard then ReplyFails(reply) else Answers(RequestOf(g), reply, store, project)
    {
      OneReplyTrue(l, class_, g, store, project);
    }
  }

  /** A reply to a Commit call that is true at this moment. */
  ghost function TrueResults(p: Plan, store: Store, c: nat, now: nat): Option<seq<WriteResult>>
    requires c < |p.calls| && AllEncode(p.calls[c])
  {
    if Effect(p, store, c, now).Some? && !CallUnheard(p, c)
    then Some(seq(|CallFor(p.calls[c], p.l.unique).writes|, i => WriteResult(Some(now))))
    else None
  }

  lemma TrueResultsTrue(p: Plan, store: Store, c: nat, now: nat)
    requires c < |p.calls| && AllEncode(p.calls[c])
    ensures TrueCommit(p, store, c, now, TrueResults(p, store, c, now))
  {
    hide Effect, CallUnheard, CallFor, Encodes;
  }

  // ---------------------------------------------------------------- the service of a run

  /** The services agree on everything that is still to come. */
  ghost predicate SameAhead(s: State, v: Service, w: Service) {
    (forall c :: c !in s.committed ==> v.commits(c) == w.commits(c))
    && (s.phase == ReadingBefore ==> v.before == w.before)
    && (s.phase in {ReadingBefore, Spawning, ReadingBeside} ==> v.beside == w.beside)
    && (s.phase != Finished ==> v.after == w.after)
  }

  lemma AheadKept(p: Plan, s: State, st: Step, v: Service, w: Service, project: Project)
    requires Enabled(p, s, st) && SameAhead(s, v, w)
    ensures SameAhead(Do(p, s, st), v, w)
    ensures TrueAt(p, s, st, v, project) ==> TrueAt(p, s, st, w, project)
  {
    hide Effect, Record, Members, Encodes, TrueReads, TrueCommit, Send, Received;
  }

  lemma {:induction false} TrueAgain(p: Plan, s: State, steps: seq<Step>, t: State, v: Service, w: Service,
      project: Project)
    requires TrueRun(p, s, steps, t, v, project) && SameAhead(s, v, w)
    ensures TrueRun(p, s, steps, t, w, project)
    decreases |steps|
  {
    hide Enabled, Do, TrueAt, SameAhead;
    if steps != [] {
      AheadKept(p, s, steps[0], v, w, project);
      TrueAgain(p, Do(p, s, steps[0]), steps[1..], t, v, w, project);
    }
  }

  /** The service, made true at this step. */
  ghost function TrueNow(p: Plan, s: State, st: Step, v: Service, project: Project): Service
    requires Enabled(p, s, st)
  {
    match st
    case Commit(c, now) => v.(commits := (d: nat) => if d == c then TrueResults(p, s.store, c, now) else v.commits(d))
    case EndBefore => v.(before := TrueReply(p.l, BeforeGet, s.store, project))
    case EndBeside => v.(beside := TrueReply(p.l, ConcurrentGet, s.store, project))
    case EndAfter => v.(after := TrueReply(p.l, AfterGet, s.store, project))
    case _ => v
  }

  lemma TrueNowTrue(p: Plan, s: State, st: Step, v: Service, project: Project)
    requires GoodList(p.l) && Enabled(p, s, st)
    ensures TrueAt(p, s, st, TrueNow(p, s, st, v, project), project)
    ensures SameAhead(Do(p, s, st), v, TrueNow(p, s, st, v, project))
  {
    hide Effect, Record, Members, Encodes, TrueReads, TrueCommit, Send, Received, GoodList, TrueReply, TrueResults;
    match st {
      case Commit(c, now) => TrueResultsTrue(p, s.store, c, now);
      case EndBefore => TrueReplyIsTrue(p.l, BeforeGet, s.store, project);
      case EndBeside => TrueReplyIsTrue(p.l, ConcurrentGet, s.store, project);
      case EndAfter => TrueReplyIsTrue(p.l, AfterGet, s.store, project);
      case _ =>
    }
  }

  /** For every run there is a service that is true all along it. */
  lemma {:induction false} SomeService(p: Plan, s: State, steps: seq<Step>, t: State, project: Project)
    returns (v: Service)
    requires GoodList(p.l) && R.Run(p, s, steps, t)
    ensures TrueRun(p, s, steps, t, v, project)
    decreases |steps|
  {
    hide GoodList, Enabled, Do, TrueAt, SameAhead, TrueNow;
    if steps == [] {
      var none := (req: GetRequest) => Reply(false, [], false);
      v := Service(c => None, none, none, none);
    } else {
      var rest := SomeService(p, Do(p, s, steps[0]), steps[1..], t, project);
      v := TrueNow(p, s, steps[0], rest, project);
      TrueNowTrue(p, s, steps[0], rest, project);
      TrueAgain(p, Do(p, s, steps[0]), steps[1..], t, rest, v, project);
    }
  }

  /** So `Execution.Execute` can be called for every list and all failures that the actions of a call share: some
      schedule finishes, and some service is true all along it. */
  lemma CanExecute(l: ActionList, limit: int, s0: Store, project: Project)
    returns (schedule: seq<Step>, t: State, v: Service)
    requires GoodList(l) && SharedFate(PlanOf(l, limit))
    ensures t.phase == Finished
    ensures TrueRun(PlanOf(l, limit), Init(PlanOf(l, limit), s0), schedule, t, v, project)
  {
    hide *;
    var p := PlanOf(l, limit);
    PlanIsOf(l, limit);
    PlanGood(l, limit);
    InitInv(p, s0);
    schedule, t := CanFinish(p, s0, Init(p, s0));
    v := SomeService(p, Init(p, s0), schedule, t, project);
  }

  // ---------------------------------------------------------------- an ordinary partial failure

  const REPLACE_A := Action(Replace, Document(Name("a"), NoField, Some(map[])), Some("a"), [], [], 0, false)
  const DELETE_B := Action(Delete, Document(Name("b"), NoField, None), Some("b"), [], [], 1, false)

  /** A Replace of "a", whose call gets no answer, and a Delete of "b". */
  function PartialFailure(unique: nat -> string, add: Add): ActionList {
    ActionList([REPLACE_A, DELETE_B], unique, add, {}, {0})
  }

  lemma PartialIsGood(unique: nat -> string, add: Add)
    ensures GoodList(PartialFailure(unique, add)) && SharedReads(PartialFailure(unique, add))
  {
  }

  lemma PartialGroups(c: Class)
    ensures Group([REPLACE_A, DELETE_B], 2, c) == if c == PlainWrite then [REPLACE_A, DELETE_B] else []
  {
    var w := [REPLACE_A, DELETE_B];
    assert ClassOf(w, 2, 0) == PlainWrite && ClassOf(w, 2, 1) == PlainWrite;
    hide ClassOf;
    assert GroupFrom(w, 2, 0, c) == [];
    assert GroupFrom(w, 2, 1, c) == if c == PlainWrite then [REPLACE_A] else [];
    assert GroupFrom(w, 2, 2, c) == if c == PlainWrite then [REPLACE_A] + [DELETE_B] else [];
  }

  lemma PartialSendable(canFail: bool)
    ensures Sendable([REPLACE_A, DELETE_B], canFail) == [if canFail then REPLACE_A else DELETE_B]
  {
    var w := [REPLACE_A, DELETE_B];
    CanFailIff(REPLACE_A);
    CanFailIff(DELETE_B);
    hide CanFail;
    assert w[..1] == [REPLACE_A] && w[..1][..0] == [];
    assert Sendable([], canFail) == [];
    assert Sendable(w[..1], canFail) == if canFail then [REPLACE_A] else [];
  }

  /** The two go in different calls. */
  lemma PartialPlan(unique: nat -> string, add: Add, limit: int)
    ensures PlanOf(PartialFailure(unique, add), limit).calls == [[REPLACE_A], [DELETE_B]]
  {
    hide Group, Sendable, CanFail, Encodes;
    var l := PartialFailure(unique, add);
    PartialGroups(PlainWrite);
    PartialGroups(KeylessWrite);
    PartialGroups(AtomicWrite);
    assert Ordinary(l) == l.as_ && Transaction(l) == [];
    PartialSendable(true);
    PartialSendable(false);
  }

  /** One ordinary call fails and the other is answered: `Execution.Execute` can be called, and what its contract
      then promises is that the Replace reports the failure of its call and the Delete is done. */
  lemma PartialFailureExample(unique: nat -> string, add: Add, limit: int, s0: Store, project: Project,
      stamp: nat -> nat)
    returns (schedule: seq<Step>, t: State, v: Service)
    ensures
      var l := PartialFailure(unique, add);
      var p := PlanOf(l, limit);
      GoodList(l) && SharedFate(p) && SharedReads(l)
      && t.phase == Finished && TrueRun(p, Init(p, s0), schedule, t, v, project)
      && CallUnheard(p, 0) && !CallUnheard(p, 1)
      && Meaning(l, s0, stamp).results == [Lost, Wrote]
  {
    var l := PartialFailure(unique, add);
    var p := PlanOf(l, limit);
    PartialIsGood(unique, add);
    PartialPlan(unique, add, limit);
    PlanIsOf(l, limit);
    hide PlanOf, GoodList, SharedReads, TrueRun, Init, Meaning;
    assert InCall(p, 0, 0) && !InCall(p, 1, 0);
    schedule, t, v := CanExecute(l, limit, s0, project);
    MeaningExpected(l, s0, stamp);
    assert Sent(l, 0) && Sent(l, 1);
    assert Meaning(l, s0, stamp).results == [Lost, Wrote];
  }
}
