/** RunActions of docstore/gcpfirestore/fs.go as it runs: its methods fill one slice of errors while the goroutines
    interleave in any way, and the slice ends as the list means. */
module Execution {
  import opened Wrappers
  import opened Values
  import opened Actions
  import opened Grouping
  import opened Commits
  import opened Gets
  import opened Reference
  import opened Schedule
  import opened Prepare
  import opened R = RunActions

  // ---------------------------------------------------------------- the service

  /** What the service sends back: to each Commit call, and to the BatchGet calls of the three rounds of reads. */
  datatype Service = Service(commits: nat -> Option<seq<WriteResult>>,
    before: GetRequest -> Reply, beside: GetRequest -> Reply, after: GetRequest -> Reply)

  ghost predicate ReplyFails(res: Reply) {
    !res.started || Unrecognized in res.responses || res.broken
  }

  /** The call gets no answer. */
  ghost predicate CallUnheard(p: Plan, c: nat) {
    exists i: nat :: InCall(p, c, i) && i in p.l.unheard
  }

  /** A call that succeeds and is answered brings one result for each of its writes; no other does. */
  ghost predicate TrueCommit(p: Plan, store: Store, c: nat, now: nat, reply: Option<seq<WriteResult>>)
    requires c < |p.calls| && AllEncode(p.calls[c])
  {
    (reply.Some? && |reply.value| == |CallFor(p.calls[c], p.l.unique).writes|)
    <==> (Effect(p, store, c, now).Some? && !CallUnheard(p, c))
  }

  ghost predicate GetsOf(l: ActionList, class_: Class, g: seq<Action>) {
    g != [] && Uniform(g) && GetsOfKeys(g)
    && forall a :: a in g ==>
      IsGet(a) && a.index < |l.as_| && l.as_[a.index] == a && ClassOf(l.as_, |l.as_|, a.index) == class_
  }

  /** The service answers the calls that are heard from the store of the moment, and fails the others. */
  ghost predicate TrueReads(l: ActionList, class_: Class, reply: GetRequest -> Reply, store: Store, project: Project) {
    forall g: seq<Action> :: GetsOf(l, class_, g) ==>
      if g[0].index in l.unheard then ReplyFails(reply(RequestOf(g)))
        else Answers(RequestOf(g), reply(RequestOf(g)), store, project)
  }

  /** These two are gets that go in one call. */
  ghost predicate ReadTogether(l: ActionList, i: nat, j: nat) {
    i < |l.as_| && j < |l.as_| && IsGet(l.as_[i]) && IsGet(l.as_[j]) && l.as_[i].fieldPaths == l.as_[j].fieldPaths
    && ClassOf(l.as_, |l.as_|, i) == ClassOf(l.as_, |l.as_|, j)
  }

  /** Gets that go in one call share its fate. */
  ghost predicate SharedReads(l: ActionList) {
    forall i: nat, j: nat :: ReadTogether(l, i, j) ==> (i in l.unheard <==> j in l.unheard)
  }

  /** The service is true at this step. The reads of a round come at its end. */
  ghost predicate TrueAt(p: Plan, s: State, st: Step, v: Service, project: Project)
    requires Enabled(p, s, st)
  {
    match st
    case Commit(c, now) => TrueCommit(p, s.store, c, now, v.commits(c))
    case EndBefore => TrueReads(p.l, BeforeGet, v.before, s.store, project)
    case EndBeside => TrueReads(p.l, ConcurrentGet, v.beside, s.store, project)
    case EndAfter => TrueReads(p.l, AfterGet, v.after, s.store, project)
    case _ => true
  }

  /** A run during which the service is true. */
  ghost predicate TrueRun(p: Plan, s: State, steps: seq<Step>, t: State, v: Service, project: Project)
    decreases |steps|
  {
    if steps == [] then s == t else
      Enabled(p, s, steps[0]) && TrueAt(p, s, steps[0], v, project)
      && TrueRun(p, Do(p, s, steps[0]), steps[1..], t, v, project)
  }

  lemma {:induction false} TrueIsRun(p: Plan, s: State, steps: seq<Step>, t: State, v: Service, project: Project)
    requires TrueRun(p, s, steps, t, v, project)
    ensures R.Run(p, s, steps, t)
    decreases |steps|
  {
    hide Enabled, Do, TrueAt;
    if steps != [] { TrueIsRun(p, Do(p, s, steps[0]), steps[1..], t, v, project); }
  }

  // ---------------------------------------------------------------- slots and results

  /** A slot of the slice of errors, and a document, say this result. */
  ghost predicate Says(a: Action, r: Result, e: Option<Err>, d: Option<Fields>, fixed: bool, project: Project) {
    match r
    case Wrote => e == ErrAfter(a, fixed, None)
    case Skipped => e == None
    case NotWritten => e == Some(CommitFailed)
    case Unsendable => e == Some(BadDocument)
    case Lost => if IsGet(a) then e == Some(RpcFailed) || e == Some(Internal) else e == Some(CommitFailed)
    case Got(f) => e == None && d == Some(project(f, MaskFor(a.fieldPaths)))
    case Absent => e == Some(NotFound)
  }

  /** What a caller can tell from a slot: no error exactly when the write took effect or was passed over, or the
      document was found; and each kind of failure by its error. */
  lemma SaysWhich(a: Action, r: Result, e: Option<Err>, d: Option<Fields>, project: Project)
    requires Says(a, r, e, d, false, project)
    ensures e == None <==> r.Wrote? || r.Skipped? || r.Got?
    ensures e == Some(BadDocument) <==> r.Unsendable?
    ensures e == Some(NotFound) <==> r.Absent?
    ensures e == Some(CommitFailed) <==> r.NotWritten? || (r.Lost? && !IsGet(a))
    ensures e == Some(RpcFailed) || e == Some(Internal) <==> r.Lost? && IsGet(a)
    ensures r.Got? ==> d == Some(project(r.fields, MaskFor(a.fieldPaths)))
  {
  }

  /** The slices that RunActions fills; a document's revision field may be one that cannot be set. */
  datatype Slices = Slices(errs: seq<Option<Err>>, docs: seq<Option<Fields>>, fixed: seq<bool>)

  predicate RoundOver(phase: Phase, class_: Class) {
    match class_
    case BeforeGet => phase != ReadingBefore
    case ConcurrentGet => phase != ReadingBefore && phase != Spawning && phase != ReadingBeside
    case AfterGet => phase == Finished
    case _ => true
  }

  /** The action's method has filled its slot. */
  ghost predicate Filled(p: Plan, s: State, i: nat)
    requires i < |p.l.as_|
  {
    if IsGet(p.l.as_[i]) then RoundOver(s.phase, ClassOf(p.l.as_, |p.l.as_|, i)) else i in s.results
  }

  ghost predicate SlotSays(p: Plan, s0: Store, s: State, z: Slices, project: Project, i: nat)
    requires i < |p.l.as_| == |z.errs| == |z.docs| == |z.fixed|
  {
    if Filled(p, s, i) then Says(p.l.as_[i], Expected(p.l, s0, Tx(p, s0), i), z.errs[i], z.docs[i], z.fixed[i], project)
    else z.errs[i] == None
  }

  ghost predicate SlotsSay(p: Plan, s0: Store, s: State, z: Slices, project: Project) {
    |z.errs| == |z.docs| == |z.fixed| == |p.l.as_|
    && forall i: nat :: i < |p.l.as_| ==> SlotSays(p, s0, s, z, project, i)
  }

  // ---------------------------------------------------------------- the commits

  lemma CommitAt(p: Plan, s0: Store, s: State, c: nat, now: nat, i: nat)
    requires GoodPlan(p) && Inv(p, s0, s) && Enabled(p, s, Commit(c, now)) && i < |p.l.as_|
    ensures
      if InCall(p, c, i) then
        !IsGet(p.l.as_[i]) && i !in s.results && i in Do(p, s, Commit(c, now)).results
        && Expected(p.l, s0, Tx(p, s0), i)
           == (if CallUnheard(p, c) then Lost else if Effect(p, s.store, c, now).Some? then Wrote else NotWritten)
      else i in s.results <==> i in Do(p, s, Commit(c, now)).results
    ensures Do(p, s, Commit(c, now)).phase == s.phase
  {
    hide GoodPlan, Encodes, StoreAfter, Expected, Effect, PassedOver, Inv;
    CommitInv(p, s0, s, c, now);
    InvParts(p, s0, s);
    MoreWritesIn(p, s.committed, c);
    CommitStep(p, s0, s.store, WritesIn(p, s.committed), c, now);
    if InCall(p, c, i) {
      InCallWrites(p, c, i);
      UnheardTogether(p, c, i);
    }
  }

  lemma InvParts(p: Plan, s0: Store, s: State)
    requires Inv(p, s0, s)
    ensures StoreAfter(p.l, s0, Tx(p, s0), s.store, WritesIn(p, s.committed)) && Control(p, s) && SlotsOk(p, s0, s)
  {
    hide GoodPlan, StoreAfter, Expected, Control, Counters, SlotsOk;
  }

  lemma UnheardTogether(p: Plan, c: nat, i: nat)
    requires GoodPlan(p) && InCall(p, c, i)
    ensures CallUnheard(p, c) <==> i in p.l.unheard
  {
    hide GoodList, Sorted3, FromList, Encodes;
  }

  lemma CallHasIndex(p: Plan, c: nat, i: nat)
    requires GoodPlan(p) && c < |p.calls| && i < |p.l.as_|
    ensures HasIndex(p.calls[c], i) <==> InCall(p, c, i)
    ensures IndicesFit(p.calls[c], |p.l.as_|) && AllEncode(p.calls[c]) && DistinctNames(p.calls[c], p.l.unique)
  {
    hide Encodes, Sorted3, SharedFate, PassedOver, DistinctNames;
    assert FromList(p, c);
    IndexIs(p.l, i);
  }

  /** What one Commit call does to the slice of errors. */
  ghost predicate CallFills(p: Plan, c: nat, ok: bool, e0: seq<Option<Err>>, e1: seq<Option<Err>>, fixed: seq<bool>)
    requires |e0| == |e1| == |fixed| == |p.l.as_|
  {
    forall i: nat :: i < |e0| ==>
      e1[i] == if !InCall(p, c, i) then e0[i] else if ok then ErrAfter(p.l.as_[i], fixed[i], e0[i])
        else Some(CommitFailed)
  }

  lemma StampedFills(p: Plan, c: nat, wrs: seq<WriteResult>, before: CallSlots, now: CallSlots)
    requires GoodPlan(p) && c < |p.calls| && AllEncode(p.calls[c]) && IndicesFit(p.calls[c], |now.errs|)
    requires |now.errs| == |p.l.as_| && before.Fit(|now.errs|) && now.Fit(|now.errs|)
    requires |wrs| == |Writes(p.calls[c], p.l.unique)|
    requires Stamped(p.calls[c], |p.calls[c]|, wrs, p.l.unique, before, now)
    ensures CallFills(p, c, true, before.errs, now.errs, before.fixed)
  {
    var actions := p.calls[c];
    forall i: nat | i < |p.l.as_|
      ensures now.errs[i]
        == if InCall(p, c, i) then ErrAfter(p.l.as_[i], before.fixed[i], before.errs[i]) else before.errs[i]
    {
      hide Encodes, GoodPlan, PassedOver, Writes, ErrAfter;
      CallHasIndex(p, c, i);
      assert actions[..|actions|] == actions;
      if InCall(p, c, i) {
        InCallIndex(p, i);
        var k :| 0 <= k < |actions| && actions[k] == p.l.as_[i];
        assert StampedAt(actions, k, wrs, p.l.unique, before, now);
      }
    }
  }

  lemma InCallIndex(p: Plan, i: nat)
    requires GoodPlan(p) && i < |p.l.as_|
    ensures p.l.as_[i].index == i
  {
    hide Encodes, Sorted3, SharedFate, FromList, PassedOver;
  }

  lemma FailedFills(p: Plan, c: nat, e0: seq<Option<Err>>, e1: seq<Option<Err>>, fixed: seq<bool>)
    requires GoodPlan(p) && c < |p.calls| && |e0| == |e1| == |fixed| == |p.l.as_|
    requires forall i :: 0 <= i < |e1| ==> e1[i] == if HasIndex(p.calls[c], i) then Some(CommitFailed) else e0[i]
    ensures CallFills(p, c, false, e0, e1, fixed)
  {
    hide GoodPlan, HasIndex, InCall;
    forall i: nat | i < |e0| { CallHasIndex(p, c, i); }
  }

  /** After a commit the slots of its actions say what is expected of them, and the others what they said. */
  lemma CommitSays(p: Plan, s0: Store, s: State, c: nat, now: nat, ok: bool, z: Slices, e: seq<Option<Err>>,
      project: Project)
    requires GoodPlan(p) && Inv(p, s0, s) && Enabled(p, s, Commit(c, now)) && SlotsSay(p, s0, s, z, project)
    requires |e| == |z.errs|
    requires ok <==> Effect(p, s.store, c, now).Some? && !CallUnheard(p, c)
    requires CallFills(p, c, ok, z.errs, e, z.fixed)
    ensures SlotsSay(p, s0, Do(p, s, Commit(c, now)), z.(errs := e), project)
  {
    hide GoodPlan, Inv, Expected, Effect, CallUnheard, InCall, Do, Enabled, ClassOf;
    var t := Do(p, s, Commit(c, now));
    forall i: nat | i < |p.l.as_| ensures SlotSays(p, s0, t, z.(errs := e), project, i) {
      assert SlotSays(p, s0, s, z, project, i);
      CommitAt(p, s0, s, c, now, i);
    }
  }

  // ---------------------------------------------------------------- the reads

  function RoundOf(phase: Phase): Class
    requires Reading(phase)
  {
    match phase
    case ReadingBefore => BeforeGet
    case ReadingBeside => ConcurrentGet
    case ReadingAfter => AfterGet
  }

  function EndOf(phase: Phase): Step
    requires Reading(phase)
  {
    match phase
    case ReadingBefore => EndBefore
    case ReadingBeside => EndBeside
    case ReadingAfter => EndAfter
  }

  /** A get of the round that is read at this moment reads what is expected. */
  lemma ReadNow(p: Plan, s0: Store, s: State, i: nat)
    requires GoodPlan(p) && Inv(p, s0, s) && Reading(s.phase) && i < |p.l.as_|
    requires ClassOf(p.l.as_, |p.l.as_|, i) == RoundOf(s.phase)
    ensures IsGet(p.l.as_[i]) && p.l.as_[i].key.Some?
    ensures Heard(p.l, i, ReadOf(FieldsOf(Doc(s.store, NameAt(p.l, i))))) == Expected(p.l, s0, Tx(p, s0), i)
  {
    hide Encodes, GoodPlan, PassedOver, StoreAfter, Expected, SlotsOk, Counters;
    ClassOfGet(p, i);
    var u := s.(toRead := Members(p, RoundOf(s.phase)));
    assert Control(p, u) && ToReadOk(p, u) && i in u.toRead by { hide ClassOf; }
    forall j: nat | Sent(p.l, j) && NameAt(p.l, j) == NameAt(p.l, i) ensures j in WritesIn(p, s.committed) <==> j < i {
      ReadersPlace(p, u, i, j);
    }
    GoodPlanList(p, s0, s);
    ReadExpected(p.l, s0, Tx(p, s0), s.store, WritesIn(p, s.committed), i);
  }

  lemma RoundGets(l: ActionList, class_: Class)
    requires GoodList(l) && class_ in {BeforeGet, ConcurrentGet, AfterGet}
    ensures
      var gets := Group(l.as_, |l.as_|, class_);
      GetsOfKeys(gets) && IndicesFit(gets, |l.as_|)
      && (forall i: nat :: i < |l.as_| ==> (HasIndex(gets, i) <==> ClassOf(l.as_, |l.as_|, i) == class_))
      && forall a :: a in gets ==>
        IsGet(a) && a.index < |l.as_| && l.as_[a.index] == a && ClassOf(l.as_, |l.as_|, a.index) == class_
  {
    var n := |l.as_|;
    var gets := Group(l.as_, n, class_);
    GroupAscending(l.as_, n, n, class_);
    forall a | a in gets
      ensures a.key.Some? && IsGet(a) && a.index < n && l.as_[a.index] == a && ClassOf(l.as_, n, a.index) == class_
    {
      var j :| 0 <= j < n && ClassOf(l.as_, n, j) == class_ && l.as_[j] == a;
    }
    forall i, j | 0 <= i < j < |gets| ensures gets[i].key != gets[j].key && gets[i].index != gets[j].index {
      assert gets[i] in gets && gets[j] in gets;
    }
    forall i: nat | i < n ensures HasIndex(gets, i) <==> ClassOf(l.as_, n, i) == class_ {
      if ClassOf(l.as_, n, i) == class_ { assert l.as_[i] in gets; }
    }
  }

  /** What a get's slot says when its call was answered truly, or failed. */
  lemma GetSays(l: ActionList, class_: Class, g: seq<Action>, a: Action, reply: GetRequest -> Reply, store: Store,
                project: Project, e: seq<Option<Err>>, d: seq<Option<Fields>>, fixed: bool)
    requires SharedReads(l) && GetsOf(l, class_, g) && a in g && IsGet(a) && |e| == |d| == |l.as_|
    requires TrueReads(l, class_, reply, store, project) && CallReported(g, reply, store, project, e, d)
    ensures a.key.Some? && a.index < |l.as_|
    ensures
      var r := Heard(l, a.index, ReadOf(FieldsOf(Doc(store, a.key.value))));
      Says(a, r, e[a.index], d[a.index], fixed, project)
  {
    hide Answers;
    assert g[0] in g;
    assert ReadTogether(l, a.index, g[0].index);
    assert a.index in l.unheard <==> g[0].index in l.unheard;
    if g[0].index !in l.unheard {
      AnswersRecognized(RequestOf(g), reply(RequestOf(g)), store, project);
      assert Right(a, store, project, e[a.index], d[a.index]);
    }
  }

  /** What a round of reads leaves in the slices. */
  ghost predicate RoundFills(l: ActionList, class_: Class, reply: GetRequest -> Reply, store: Store, project: Project,
      z: Slices, e: seq<Option<Err>>, d: seq<Option<Fields>>, groups: seq<seq<Action>>)
    requires GoodList(l) && class_ in {BeforeGet, ConcurrentGet, AfterGet} && |e| == |d|
  {
    RoundGets(l, class_);
    var gets := Group(l.as_, |l.as_|, class_);
    SameElsewhere(gets, z.errs, e, z.docs, d)
    && Calls(groups, gets) && GroupsReported(groups, |groups|, reply, store, project, e, d)
  }

  lemma RoundFillsOne(l: ActionList, class_: Class, reply: GetRequest -> Reply, store: Store, project: Project,
      z: Slices, e: seq<Option<Err>>, d: seq<Option<Fields>>, groups: seq<seq<Action>>, i: nat)
    requires GoodList(l) && SharedReads(l) && class_ in {BeforeGet, ConcurrentGet, AfterGet} && |e| == |d| == |l.as_|
    requires TrueReads(l, class_, reply, store, project)
    requires RoundFills(l, class_, reply, store, project, z, e, d, groups)
    requires i < |l.as_| && IsGet(l.as_[i]) && ClassOf(l.as_, |l.as_|, i) == class_ && |z.fixed| == |l.as_|
    ensures l.as_[i].key.Some?
    ensures
      var r := Heard(l, i, ReadOf(FieldsOf(Doc(store, l.as_[i].key.value))));
      Says(l.as_[i], r, e[i], d[i], z.fixed[i], project)
  {
    hide SharedReads, TrueReads, Says, ClassOf, Group, Encodes, GetsOfKeys, Uniform, PairwiseApart, Flatten, GoodList,
      CallReported;
    var gets := Group(l.as_, |l.as_|, class_);
    RoundGets(l, class_);
    IndexIs(l, i);
    var a := l.as_[i];
    assert HasIndex(gets, i);
    assert a in gets;
    var k :| 0 <= k < |groups| && a in groups[k];
    assert groups[k] in groups;
    assert GetsOf(l, class_, groups[k]);
    GetSays(l, class_, groups[k], a, reply, store, project, e, d, z.fixed[i]);
  }

  lemma RoundFillsOther(l: ActionList, class_: Class, reply: GetRequest -> Reply, store: Store, project: Project,
      z: Slices, e: seq<Option<Err>>, d: seq<Option<Fields>>, groups: seq<seq<Action>>, i: nat)
    requires GoodList(l) && class_ in {BeforeGet, ConcurrentGet, AfterGet} && |e| == |d| == |l.as_|
    requires RoundFills(l, class_, reply, store, project, z, e, d, groups)
    requires i < |l.as_| && ClassOf(l.as_, |l.as_|, i) != class_
    ensures |z.errs| == |z.docs| == |l.as_| && e[i] == z.errs[i] && d[i] == z.docs[i]
  {
    hide ClassOf, Group, Encodes, GetsOfKeys, Calls, GoodList, GroupsReported;
    RoundGets(l, class_);
  }

  lemma RoundFilled(p: Plan, s: State, i: nat)
    requires GoodPlan(p) && Reading(s.phase) && Enabled(p, s, EndOf(s.phase)) && i < |p.l.as_|
    ensures
      var t := Do(p, s, EndOf(s.phase));
      if ClassOf(p.l.as_, |p.l.as_|, i) == RoundOf(s.phase) then IsGet(p.l.as_[i]) && Filled(p, t, i)
      else Filled(p, t, i) <==> Filled(p, s, i)
  {
    hide GoodPlan, ClassOf, Received;
    ClassOfGet(p, i);
  }

  /** After a round the slots of its gets say what is expected of them, and the others what they said. */
  lemma RoundSays(p: Plan, s0: Store, s: State, reply: GetRequest -> Reply, groups: seq<seq<Action>>, z: Slices,
                  e: seq<Option<Err>>, d: seq<Option<Fields>>, project: Project)
    requires GoodPlan(p) && SharedReads(p.l) && Inv(p, s0, s) && Reading(s.phase) && Enabled(p, s, EndOf(s.phase))
    requires SlotsSay(p, s0, s, z, project) && |e| == |d| == |p.l.as_|
    requires TrueReads(p.l, RoundOf(s.phase), reply, s.store, project)
    requires GoodList(p.l) && RoundFills(p.l, RoundOf(s.phase), reply, s.store, project, z, e, d, groups)
    ensures SlotsSay(p, s0, Do(p, s, EndOf(s.phase)), Slices(e, d, z.fixed), project)
  {
    hide Inv, GoodPlan, GoodList, SharedReads, Expected, TrueReads, RoundFills, Says, ClassOf, Filled, Enabled, Do;
    var t := Do(p, s, EndOf(s.phase));
    forall i: nat | i < |p.l.as_| ensures SlotSays(p, s0, t, Slices(e, d, z.fixed), project, i) {
      assert SlotSays(p, s0, s, z, project, i);
      RoundFilled(p, s, i);
      if ClassOf(p.l.as_, |p.l.as_|, i) == RoundOf(s.phase) {
        ReadNow(p, s0, s, i);
        RoundFillsOne(p.l, RoundOf(s.phase), reply, s.store, project, z, e, d, groups, i);
      } else {
        RoundFillsOther(p.l, RoundOf(s.phase), reply, s.store, project, z, e, d, groups, i);
      }
    }
  }

  // ---------------------------------------------------------------- the whole

  /** The steps that leave the slices alone. */
  predicate Silent(st: Step) {
    !st.Commit? && !st.EndBefore? && !st.EndBeside? && !st.EndAfter?
  }

  lemma OtherFilled(p: Plan, s0: Store, s: State, st: Step, i: nat)
    requires GoodPlan(p) && Inv(p, s0, s) && Enabled(p, s, st) && Silent(st) && i < |p.l.as_|
    ensures Filled(p, Do(p, s, st), i) <==> Filled(p, s, i)
  {
    hide GoodPlan, ClassOf, StoreAfter, Expected, Received, Send, SlotsOk, Counters, Encodes, Control;
    ClassOfGet(p, i);
    if st.Read? { ClassOfGet(p, st.i); }
  }

  lemma OtherSays(p: Plan, s0: Store, s: State, st: Step, z: Slices, project: Project)
    requires GoodPlan(p) && Inv(p, s0, s) && Enabled(p, s, st) && Silent(st) && SlotsSay(p, s0, s, z, project)
    ensures SlotsSay(p, s0, Do(p, s, st), z, project)
  {
    hide GoodPlan, Inv, Enabled, Do, Filled, Expected, Says, Silent;
    var t := Do(p, s, st);
    forall i: nat | i < |p.l.as_| ensures SlotSays(p, s0, t, z, project, i) {
      assert SlotSays(p, s0, s, z, project, i);
      OtherFilled(p, s0, s, st, i);
    }
  }

  /** Before any call only the unsendable writes have reported. */
  lemma FirstSays(p: Plan, s0: Store, z: Slices, project: Project)
    requires GoodPlan(p) && |z.errs| == |z.docs| == |z.fixed| == |p.l.as_|
    requires forall i :: 0 <= i < |z.errs| ==> z.errs[i] == FoundUnsendable(p.l, i)
    ensures SlotsSay(p, s0, Init(p, s0), z, project)
  {
    hide GoodPlan, ClassOf, Encodes, DocAfter, PassedOver;
    forall i: nat | i < |p.l.as_| ensures SlotSays(p, s0, Init(p, s0), z, project, i) {
      ClassOfGet(p, i);
      if PassedOver(p.l, i) { KeyedIfPassed(p.l, i); }
    }
  }

  lemma LastSays(p: Plan, s0: Store, steps: seq<Step>, t: State, z: Slices, project: Project, stamp: nat -> nat)
    requires GoodPlan(p) && Reachable(p, s0, steps, t) && t.phase == Finished && SlotsSay(p, s0, t, z, project)
    ensures
      var results := Meaning(p.l, s0, stamp).results;
      |z.errs| == |z.docs| == |z.fixed| == |results| == |p.l.as_|
      && forall i :: 0 <= i < |results| ==> Says(p.l.as_[i], results[i], z.errs[i], z.docs[i], z.fixed[i], project)
  {
    hide GoodPlan, ClassOf, Encodes, Expected, Says, Meaning, Reachable, Inv;
    ReachableInv(p, s0, steps, t);
    FinishedAll(p, s0, t);
    RunMeaning(p, s0, steps, t, stamp);
    forall i: nat | i < |p.l.as_| ensures Says(p.l.as_[i], t.results[i], z.errs[i], z.docs[i], z.fixed[i], project) {
      assert SlotSays(p, s0, t, z, project, i);
      ClassOfGet(p, i);
    }
  }

  /** One commit, whenever the schedule has it. */
  method CommitOne(call: CommitCall, reply: Option<seq<WriteResult>>, errs: array<Option<Err>>,
      docs: array<Option<Fields>>, revs: array<Option<nat>>, names: array<string>, fixed: seq<bool>,
                   ghost p: Plan, ghost s0: Store, ghost s: State, ghost c: nat, ghost now: nat, ghost project: Project)
    requires GoodPlan(p) && Inv(p, s0, s) && Enabled(p, s, Commit(c, now)) && call == CallFor(p.calls[c], p.l.unique)
    requires TrueCommit(p, s.store, c, now, reply)
    requires errs.Length == docs.Length == revs.Length == names.Length == |fixed| == |p.l.as_|
    requires SlotsSay(p, s0, s, Slices(errs[..], docs[..], fixed), project)
    modifies errs, revs, names
    ensures SlotsSay(p, s0, Do(p, s, Commit(c, now)), Slices(errs[..], docs[..], fixed), project)
  {
    hide GoodPlan, Inv, Do, Stamped, SlotsSay, HasIndex, Effect, CallUnheard, CallFills, Encodes, Writes,
      DistinctNames, DistinctIndices;
    ghost var z := Slices(errs[..], docs[..], fixed);
    ghost var before := CallSlots(errs[..], revs[..], names[..], fixed);
    ghost var ok := Effect(p, s.store, c, now).Some? && !CallUnheard(p, c);
    CallReady(p, c);
    DoCommitCall(call, reply, errs, revs, names, fixed, p.l.unique);
    if ok {
      StampedFills(p, c, reply.value, before, CallSlots(errs[..], revs[..], names[..], fixed));
    } else {
      FailedFills(p, c, z.errs, errs[..], fixed);
    }
    CommitSays(p, s0, s, c, now, ok, z, errs[..], project);
  }

  lemma PlanList(p: Plan)
    requires GoodPlan(p)
    ensures GoodList(p.l)
  {
  }

  lemma CallReady(p: Plan, c: nat)
    requires GoodPlan(p) && c < |p.calls|
    ensures AllEncode(p.calls[c]) && DistinctNames(p.calls[c], p.l.unique) && IndicesFit(p.calls[c], |p.l.as_|)
    ensures DistinctIndices(p.calls[c])
    ensures CallFor(p.calls[c], p.l.unique).actions == p.calls[c]
    ensures CallFor(p.calls[c], p.l.unique).writes == Writes(p.calls[c], p.l.unique)
  {
    hide Encodes, Sorted3, SharedFate, GoodList, Writes;
    assert FromList(p, c);
    var actions := p.calls[c];
    forall i, j | 0 <= i < j < |actions| ensures actions[i].index != actions[j].index {
      assert actions[i] in actions && actions[j] in actions;
    }
  }

  /** One round of reads. */
  method ReadRound(gets: seq<Action>, reply: GetRequest -> Reply, errs: array<Option<Err>>,
      docs: array<Option<Fields>>, fixed: seq<bool>, ghost p: Plan, ghost s0: Store, ghost s: State, ghost st: Step,
      ghost class_: Class, ghost project: Project)
    requires GoodPlan(p) && SharedReads(p.l) && Inv(p, s0, s) && Enabled(p, s, st)
    requires AtEnd(p, s, st, class_, reply, project) && gets == Group(p.l.as_, |p.l.as_|, class_)
    requires errs.Length == docs.Length == |fixed| == |p.l.as_|
    requires SlotsSay(p, s0, s, Slices(errs[..], docs[..], fixed), project)
    modifies errs, docs
    ensures SlotsSay(p, s0, Do(p, s, st), Slices(errs[..], docs[..], fixed), project)
  {
    hide GoodPlan, SharedReads, Inv, Do, SlotsSay, TrueReads, Enabled, EndOf, SameElsewhere, Calls, GroupsReported,
      GoodList, Group, ClassOf, HasIndex;
    ghost var z := Slices(errs[..], docs[..], fixed);
    PlanList(p);
    RoundGets(p.l, RoundOf(s.phase));
    ghost var groups := RunGets(gets, reply, errs, docs, s.store, project);
    RoundSays(p, s0, s, reply, groups, z, errs[..], docs[..], project);
  }

  /** RunActions, with its goroutines interleaved as the schedule says: it groups the list and builds the calls,
      which reports the unsendable writes; each commit distributes its own results; each round of reads fills its
      own slots. Under every schedule, and whichever calls fail, the slices end as the list means. */
  method Execute(l: ActionList, schedule: seq<Step>, v: Service, errs: array<Option<Err>>, docs: array<Option<Fields>>,
                 revs: array<Option<nat>>, names: array<string>, fixed: seq<bool>,
                 ghost limit: int, ghost s0: Store, ghost t: State, ghost project: Project, ghost stamp: nat -> nat)
    requires GoodList(l) && SharedFate(PlanOf(l, limit)) && SharedReads(l)
    requires errs.Length == docs.Length == revs.Length == names.Length == |fixed| == |l.as_|
    requires forall i :: 0 <= i < errs.Length ==> errs[i] == None
    requires TrueRun(PlanOf(l, limit), Init(PlanOf(l, limit), s0), schedule, t, v, project) && t.phase == Finished
    modifies errs, docs, revs, names
    ensures
      var results := Meaning(l, s0, stamp).results;
      |results| == errs.Length
      && forall i :: 0 <= i < errs.Length ==> Says(l.as_[i], results[i], errs[i], docs[i], fixed[i], project)
  {
    hide *;
    ghost var p := PlanOf(l, limit);
    PlanGood(l, limit);
    PlanIsOf(l, limit);
    var beforeGets, gets, calls, afterGets := Prepare.Prepare(l, errs);
    ghost var s := Init(p, s0);
    InitInv(p, s0);
    FirstSays(p, s0, Slices(errs[..], docs[..], fixed), project);
    for k := 0 to |schedule|
      invariant Inv(p, s0, s) && SlotsSay(p, s0, s, Slices(errs[..], docs[..], fixed), project)
      invariant TrueRun(p, s, schedule[k..], t, v, project)
    {
      var st := schedule[k];
      assert schedule[k..][0] == st && schedule[k..][1..] == schedule[k+1..];
      TrueNext(p, s, schedule[k..], t, v, project);
      StepInv(p, s0, s, st);
      match st {
        case Commit(c, now) =>
          CommitOne(calls[c], v.commits(c), errs, docs, revs, names, fixed, p, s0, s, c, now, project);
        case EndBefore =>
          ReadRound(beforeGets, v.before, errs, docs, fixed, p, s0, s, st, BeforeGet, project);
        case EndBeside =>
          ReadRound(gets, v.beside, errs, docs, fixed, p, s0, s, st, ConcurrentGet, project);
        case EndAfter =>
          ReadRound(afterGets, v.after, errs, docs, fixed, p, s0, s, st, AfterGet, project);
        case _ =>
          OtherSays(p, s0, s, st, Slices(errs[..], docs[..], fixed), project);
      }
      s := Do(p, s, st);
    }
    TrueDone(p, s, t, v, project);
    TrueIsReachable(p, s0, schedule, t, v, project);
    LastSays(p, s0, schedule, t, Slices(errs[..], docs[..], fixed), project, stamp);
  }

  /** The step ends a round of reads that are answered truly. */
  ghost predicate AtEnd(p: Plan, s: State, st: Step, class_: Class, reply: GetRequest -> Reply, project: Project) {
    Reading(s.phase) && st == EndOf(s.phase) && class_ == RoundOf(s.phase)
      && TrueReads(p.l, class_, reply, s.store, project)
  }

  lemma TrueNext(p: Plan, s: State, steps: seq<Step>, t: State, v: Service, project: Project)
    requires TrueRun(p, s, steps, t, v, project) && steps != []
    ensures Enabled(p, s, steps[0]) && TrueRun(p, Do(p, s, steps[0]), steps[1..], t, v, project)
    ensures
      match steps[0]
      case Commit(c, now) => c < |p.calls| && AllEncode(p.calls[c]) && TrueCommit(p, s.store, c, now, v.commits(c))
      case EndBefore => AtEnd(p, s, steps[0], BeforeGet, v.before, project)
      case EndBeside => AtEnd(p, s, steps[0], ConcurrentGet, v.beside, project)
      case EndAfter => AtEnd(p, s, steps[0], AfterGet, v.after, project)
      case _ => Silent(steps[0])
  {
    hide Do, TrueReads, TrueCommit, Encodes;
  }

  lemma TrueDone(p: Plan, s: State, t: State, v: Service, project: Project)
    requires TrueRun(p, s, [], t, v, project)
    ensures s == t
  {
  }

  lemma TrueIsReachable(p: Plan, s0: Store, steps: seq<Step>, t: State, v: Service, project: Project)
    requires TrueRun(p, Init(p, s0), steps, t, v, project)
    ensures Reachable(p, s0, steps, t)
  {
    hide TrueRun, R.Run, Init;
    TrueIsRun(p, Init(p, s0), steps, t, v, project);
  }
}
