/** RunActions of docstore/gcpfirestore/fs.go as a system of steps: the gets that come before the writes, then
    the Commit calls and the independent gets side by side under a throttle, then the gets that come after.
    Every interleaving means what the list means in the user's order. */
module RunActions {
  import opened Actions
  import opened Grouping
  import opened Commits
  import opened Reference
  import opened Schedule

  /** Where the calling goroutine is. It has a token of the throttle while it is ReadingBeside, and has handed it
      back but is still counted by the wait group while it is Leaving. */
  datatype Phase = ReadingBefore | Spawning | ReadingBeside | Leaving | Waiting | ReadingAfter | Finished

  /** The wait group's count, and the tokens in the throttle's channel; without a limit there is no channel. */
  datatype Throttle = Throttle(wg: nat, tokens: nat)

  /** next calls have been started, and `entering` says that an Acquire is under way: counted, not yet through the
      channel. The active goroutines have a token, the leaving ones have handed it back but are still counted. The
      committed calls have been carried out or have failed. */
  datatype State = State(phase: Phase, toRead: set<nat>, next: nat, entering: bool, active: set<nat>, leaving: set<nat>,
                         committed: set<nat>, throttle: Throttle, store: Store, results: map<nat, Result>)

  /** Enter and Spawn or StartBeside are an Acquire; Receive and Leave, as EndBeside and LeaveBeside, a Release. */
  datatype Step =
    | Read(i: nat) | EndBefore | Enter | Spawn | StartBeside
    | Commit(c: nat, now: nat) | Receive(c: nat) | Leave(c: nat)
    | EndBeside | LeaveBeside | Wait | EndAfter

  ghost function Members(p: Plan, c: Class): set<nat> {
    set i: nat | i < |p.l.as_| && ClassOf(p.l.as_, |p.l.as_|, i) == c
  }

  ghost predicate Unsent(p: Plan, i: nat) {
    IsWrite(p.l, i) && !Sent(p.l, i)
  }

  /** The writes were converted, which found those that cannot be sent, and the throttle is new. */
  ghost function Init(p: Plan, s0: Store): State {
    State(ReadingBefore, Members(p, BeforeGet), 0, false, {}, {}, {}, Throttle(0, 0), s0,
      map i: nat | i < |p.l.as_| && Unsent(p, i) :: if PassedOver(p.l, i) then Skipped else Unsendable)
  }

  predicate HasChannel(p: Plan) {
    p.limit > 0
  }

  /** Sending on the channel blocks while it is full. */
  predicate CanSend(p: Plan, t: Throttle) {
    HasChannel(p) ==> t.tokens < p.limit
  }

  function Send(p: Plan, t: Throttle): Throttle {
    if HasChannel(p) then t.(tokens := t.tokens + 1) else t
  }

  /** Receiving from the channel blocks while it is empty. */
  predicate CanReceive(p: Plan, t: Throttle) {
    HasChannel(p) ==> t.tokens > 0
  }

  function Received(p: Plan, t: Throttle): Throttle
    requires CanReceive(p, t)
  {
    if HasChannel(p) then t.(tokens := t.tokens - 1) else t
  }

  predicate Reading(phase: Phase) {
    phase == ReadingBefore || phase == ReadingBeside || phase == ReadingAfter
  }

  /** The wait group's count must not become negative. */
  predicate CanLeave(t: Throttle) {
    t.wg > 0
  }

  ghost predicate Enabled(p: Plan, s: State, st: Step) {
    match st
    case Read(i) => Reading(s.phase) && i in s.toRead && i < |p.l.as_|
    case EndBefore => s.phase == ReadingBefore && s.toRead == {}
    case Enter => s.phase == Spawning && !s.entering
    case Spawn => s.phase == Spawning && s.entering && s.next < |p.calls| && CanSend(p, s.throttle)
    case StartBeside => s.phase == Spawning && s.entering && s.next == |p.calls| && CanSend(p, s.throttle)
    case Commit(c, now) => c in s.active && c !in s.committed && c < |p.calls| && AllEncode(p.calls[c])
    case Receive(c) => c in s.active && c in s.committed && CanReceive(p, s.throttle)
    case Leave(c) => c in s.leaving && CanLeave(s.throttle)
    case EndBeside => s.phase == ReadingBeside && s.toRead == {} && CanReceive(p, s.throttle)
    case LeaveBeside => s.phase == Leaving && CanLeave(s.throttle)
    case Wait => s.phase == Waiting && s.throttle.wg == 0
    case EndAfter => s.phase == ReadingAfter && s.toRead == {}
  }

  /** The results of a call's actions, recorded at their indices. */
  ghost function Record(p: Plan, c: nat, results: map<nat, Result>, r: Result): map<nat, Result> {
    results + map i: nat | i in CallIndices(p, c) :: Heard(p.l, i, r)
  }

  ghost function Do(p: Plan, s: State, st: Step): State
    requires Enabled(p, s, st)
  {
    match st
    case Read(i) =>
      var r := Heard(p.l, i, ReadOf(FieldsOf(Doc(s.store, NameAt(p.l, i)))));
      s.(toRead := s.toRead - {i}, results := s.results[i := r])
    case EndBefore => s.(phase := Spawning)
    case Enter => s.(entering := true, throttle := s.throttle.(wg := s.throttle.wg + 1))
    case Spawn =>
      s.(entering := false, active := s.active + {s.next}, next := s.next + 1, throttle := Send(p, s.throttle))
    case StartBeside =>
      s.(entering := false, phase := ReadingBeside, toRead := Members(p, ConcurrentGet),
         throttle := Send(p, s.throttle))
    case Commit(c, now) =>
      (match Effect(p, s.store, c, now)
       case None => s.(committed := s.committed + {c}, results := Record(p, c, s.results, NotWritten))
       case Some(store) =>
         s.(committed := s.committed + {c}, store := store, results := Record(p, c, s.results, Wrote)))
    case Receive(c) =>
      s.(active := s.active - {c}, leaving := s.leaving + {c}, throttle := Received(p, s.throttle))
    case Leave(c) => s.(leaving := s.leaving - {c}, throttle := s.throttle.(wg := s.throttle.wg - 1))
    case EndBeside => s.(phase := Leaving, throttle := Received(p, s.throttle))
    case LeaveBeside => s.(phase := Waiting, throttle := s.throttle.(wg := s.throttle.wg - 1))
    case Wait => s.(phase := ReadingAfter, toRead := Members(p, AfterGet))
    case EndAfter => s.(phase := Finished)
  }

  /** A run takes enabled steps only. */
  ghost predicate Run(p: Plan, s: State, steps: seq<Step>, t: State)
    decreases |steps|
  {
    if steps == [] then s == t else Enabled(p, s, steps[0]) && Run(p, Do(p, s, steps[0]), steps[1..], t)
  }

  // ---------------------------------------------------------------- what every step keeps

  /** Calls are started in order and committed while they are active; those no longer active are committed.
      Gets after the writes start only when every call is done. */
  ghost predicate Control(p: Plan, s: State) {
    s.next <= |p.calls|
    && (forall c :: c in s.active ==> c < s.next) && (forall c :: c in s.committed ==> c < s.next)
    && (forall c: nat :: c < s.next ==> c in s.active || c in s.committed)
    && s.leaving <= s.committed && s.leaving !! s.active
    && (s.phase == ReadingBefore ==> s.next == 0)
    && (s.phase != Spawning ==> !s.entering)
    && (s.phase != ReadingBefore && s.phase != Spawning ==> s.next == |p.calls|)
    && (s.phase == ReadingAfter || s.phase == Finished ==> s.active == {})
  }

  /** Whether the calling goroutine has a token, and whether the wait group counts it. */
  function OwnToken(s: State): nat {
    if s.phase == ReadingBeside then 1 else 0
  }

  function OwnCount(s: State): nat {
    if s.entering || s.phase == ReadingBeside || s.phase == Leaving then 1 else 0
  }

  /** The two counters count what they should, and the channel is never overfull. */
  ghost predicate Counters(p: Plan, s: State) {
    s.throttle.wg == |s.active| + |s.leaving| + OwnCount(s)
    && s.throttle.tokens == (if HasChannel(p) then |s.active| + OwnToken(s) else 0)
    && (HasChannel(p) ==> s.throttle.tokens <= p.limit)
  }

  ghost predicate ToReadOk(p: Plan, s: State) {
    match s.phase
    case ReadingBefore => s.toRead <= Members(p, BeforeGet)
    case ReadingBeside => s.toRead <= Members(p, ConcurrentGet)
    case ReadingAfter => s.toRead <= Members(p, AfterGet)
    case _ => s.toRead == {}
  }

  /** The action has been carried out. */
  ghost predicate CarriedOut(p: Plan, s: State, i: nat)
    requires i < |p.l.as_|
  {
    if IsGet(p.l.as_[i]) then
      i !in s.toRead
      && match ClassOf(p.l.as_, |p.l.as_|, i)
         case ConcurrentGet => s.phase != ReadingBefore && s.phase != Spawning
         case AfterGet => s.phase == ReadingAfter || s.phase == Finished
         case _ => true
    else Unsent(p, i) || i in WritesIn(p, s.committed)
  }

  /** Exactly the actions that are done have reported, each what is expected of it. */
  ghost predicate SlotsOk(p: Plan, s0: Store, s: State) {
    (forall i :: i in s.results ==> i < |p.l.as_|)
    && forall i: nat :: i < |p.l.as_| ==> SlotOk(p, s0, s, i)
  }

  ghost predicate SlotOk(p: Plan, s0: Store, s: State, i: nat)
    requires i < |p.l.as_|
  {
    (i in s.results <==> CarriedOut(p, s, i)) && (i in s.results ==> s.results[i] == Expected(p.l, s0, Tx(p, s0), i))
  }

  ghost predicate Inv(p: Plan, s0: Store, s: State) {
    Control(p, s) && Counters(p, s) && ToReadOk(p, s) && SlotsOk(p, s0, s)
      && StoreAfter(p.l, s0, Tx(p, s0), s.store, WritesIn(p, s.committed))
  }

  lemma ClassOfGet(p: Plan, i: nat)
    requires GoodPlan(p) && i < |p.l.as_|
    ensures IsGet(p.l.as_[i]) <==> ClassOf(p.l.as_, |p.l.as_|, i) in {BeforeGet, ConcurrentGet, AfterGet}
  {
  }

  lemma InitInv(p: Plan, s0: Store)
    requires GoodPlan(p)
    ensures Inv(p, s0, Init(p, s0))
  {
    hide Encodes, GoodList, ClassOf, DocAfter, SharedFate, Sorted3, FromList, PassedOver;
    var s := Init(p, s0);
    assert WritesIn(p, {}) == {};
    NothingDone(p.l, s0, Tx(p, s0));
    forall i: nat | i < |p.l.as_| ensures SlotOk(p, s0, s, i) { ClassOfGet(p, i); }
  }

  /** A get of a before-class has its writer, if any, after it; and so on. */
  lemma ReadersPlace(p: Plan, s: State, i: nat, j: nat)
    requires GoodPlan(p) && Control(p, s) && ToReadOk(p, s) && i in s.toRead && i < |p.l.as_|
    requires Sent(p.l, j) && NameAt(p.l, j) == NameAt(p.l, i)
    ensures IsGet(p.l.as_[i]) && (j in WritesIn(p, s.committed) <==> j < i)
  {
    hide Encodes, FromList, Sorted3, SharedFate, PassedOver;
    ClassOfGet(p, i);
    WriterClass(p, i, j);
    if j < i {
      var c: nat :| InCall(p, c, j);
      assert c in s.committed;
      assert InSome(p, s.committed, j);
    }
  }

  lemma WriterClass(p: Plan, i: nat, j: nat)
    requires GoodPlan(p) && i < |p.l.as_| && IsGet(p.l.as_[i]) && IsWrite(p.l, j) && NameAt(p.l, j) == NameAt(p.l, i)
    ensures i != j
    ensures ClassOf(p.l.as_, |p.l.as_|, i) == if j < i then AfterGet else BeforeGet
  {
    hide Encodes, FromList, Sorted3, SharedFate, PassedOver;
    var k := NameAt(p.l, i);
    assert WritesKey(p.l.as_[j], k);
    if WrittenIn(p.l.as_, 0, i, k) {
      var m :| 0 <= m < i && WritesKey(p.l.as_[m], k);
      OneWrite(p.l, m, j);
    }
  }

  /** A read reports what is expected, whatever has been committed by then. */
  lemma ReadStep(p: Plan, s0: Store, s: State, i: nat)
    requires GoodPlan(p) && Inv(p, s0, s) && Enabled(p, s, Read(i))
    ensures i !in s.results && Inv(p, s0, Do(p, s, Read(i)))
  {
    hide Encodes, GoodList, FromList, Sorted3, SharedFate, PassedOver, ClassOf, StoreAfter, Expected;
    var t := Do(p, s, Read(i));
    ClassOfGet(p, i);
    assert SlotOk(p, s0, s, i);
    forall j: nat | Sent(p.l, j) && NameAt(p.l, j) == NameAt(p.l, i)
      ensures j in WritesIn(p, s.committed) <==> j < i
    {
      ReadersPlace(p, s, i, j);
    }
    ReadExpected(p.l, s0, Tx(p, s0), s.store, WritesIn(p, s.committed), i);
    forall j: nat | j < |p.l.as_| ensures SlotOk(p, s0, t, j) {
      assert SlotOk(p, s0, s, j);
    }
  }

  predicate IsControl(st: Step) {
    !st.Read? && !st.Commit?
  }

  lemma ControlSame(p: Plan, s: State, st: Step)
    requires Enabled(p, s, st) && IsControl(st)
    ensures
      var t := Do(p, s, st);
      t.store == s.store && t.results == s.results && t.committed == s.committed
  {
  }

  lemma ControlKept(p: Plan, s: State, st: Step)
    requires Control(p, s) && Counters(p, s) && ToReadOk(p, s) && Enabled(p, s, st) && IsControl(st)
    ensures Control(p, Do(p, s, st)) && ToReadOk(p, Do(p, s, st))
  {
    if st == Wait { NoneActive(p, s); }
    if IsAcquire(st) || IsRelease(st) {
      ThrottleStepKeeps(p, s, st);
    } else {
      hide Members, Encodes, Counters;
    }
  }

  lemma ThrottleStepKeeps(p: Plan, s: State, st: Step)
    requires Control(p, s) && ToReadOk(p, s) && Enabled(p, s, st) && (IsAcquire(st) || IsRelease(st))
    ensures Control(p, Do(p, s, st)) && ToReadOk(p, Do(p, s, st))
  {
    hide Members, Encodes, Send, Received, Effect, Record;
  }

  lemma NoneActive(p: Plan, s: State)
    requires Counters(p, s) && s.throttle.wg == 0
    ensures s.active == {} && s.leaving == {}
  {
  }

  lemma OneLess(s: set<nat>, i: nat)
    ensures i in s ==> |s - {i}| == |s| - 1
    ensures i !in s ==> |s + {i}| == |s| + 1
  {
  }

  lemma CommitFields(p: Plan, s: State, st: Step)
    requires Enabled(p, s, st) && st.Commit?
    ensures
      var t := Do(p, s, st);
      t == s.(committed := s.committed + {st.c}, store := t.store, results := t.results)
  {
  }

  /** Each step of an Acquire or a Release moves one of the counters as it moves a goroutine. */
  lemma CountersKept(p: Plan, s: State, st: Step)
    requires Control(p, s) && Counters(p, s) && Enabled(p, s, st)
    ensures Counters(p, Do(p, s, st))
  {
    if st.Commit? {
      CommitFields(p, s, st);
      hide Do, Enabled, Control;
    } else if IsAcquire(st) {
      AcquireKeeps(p, s, st);
    } else if IsRelease(st) {
      ReleaseKeeps(p, s, st);
    } else {
      hide Members, Encodes, Control;
    }
  }

  predicate IsAcquire(st: Step) {
    st.Enter? || st.Spawn? || st.StartBeside?
  }

  predicate IsRelease(st: Step) {
    st.Receive? || st.Leave? || st.EndBeside? || st.LeaveBeside?
  }

  lemma AcquireKeeps(p: Plan, s: State, st: Step)
    requires Control(p, s) && Counters(p, s) && Enabled(p, s, st) && IsAcquire(st)
    ensures Counters(p, Do(p, s, st))
  {
    OneLess(s.active, s.next);
    assert s.next !in s.active && (s.phase != Spawning ==> !s.entering);
    hide Members, Encodes, Control, Effect, Record;
  }

  lemma ReleaseKeeps(p: Plan, s: State, st: Step)
    requires Control(p, s) && Counters(p, s) && Enabled(p, s, st) && IsRelease(st)
    ensures Counters(p, Do(p, s, st))
  {
    hide Counters;
    if st.Receive? || st.EndBeside? { ReceiveKeeps(p, s, st); } else { LeaveKeeps(p, s, st); }
  }

  lemma ReceiveFields(p: Plan, s: State, st: Step)
    requires Enabled(p, s, st) && (st.Receive? || st.EndBeside?)
    ensures CanReceive(p, s.throttle) && (st.Receive? ==> st.c in s.active)
    ensures st.EndBeside? ==> s.phase == ReadingBeside
    ensures Do(p, s, st) ==
      if st.Receive? then
        s.(active := s.active - {st.c}, leaving := s.leaving + {st.c}, throttle := Received(p, s.throttle))
      else s.(phase := Leaving, throttle := Received(p, s.throttle))
  {
    hide Received, Effect, Record, Members, Encodes;
  }

  lemma ReceiveKeeps(p: Plan, s: State, st: Step)
    requires Control(p, s) && Counters(p, s) && Enabled(p, s, st) && (st.Receive? || st.EndBeside?)
    ensures Counters(p, Do(p, s, st))
  {
    ReceiveFields(p, s, st);
    if st.Receive? {
      OneLess(s.active, st.c);
      OneLess(s.leaving, st.c);
    }
    assert s.leaving !! s.active && (s.phase != Spawning ==> !s.entering);
    hide Do, Enabled, Control;
  }

  lemma LeaveFields(p: Plan, s: State, st: Step)
    requires Enabled(p, s, st) && (st.Leave? || st.LeaveBeside?)
    ensures s.throttle.wg > 0 && (st.Leave? ==> st.c in s.leaving) && (st.LeaveBeside? ==> s.phase == Leaving)
    ensures Do(p, s, st) ==
      var left := s.throttle.(wg := s.throttle.wg - 1);
      if st.Leave? then s.(leaving := s.leaving - {st.c}, throttle := left) else s.(phase := Waiting, throttle := left)
  {
    hide Effect, Record, Members, Encodes;
  }

  lemma LeaveKeeps(p: Plan, s: State, st: Step)
    requires Control(p, s) && Counters(p, s) && Enabled(p, s, st) && (st.Leave? || st.LeaveBeside?)
    ensures Counters(p, Do(p, s, st))
  {
    LeaveFields(p, s, st);
    if st.Leave? { OneLess(s.leaving, st.c); }
    assert s.phase != Spawning ==> !s.entering;
    hide Do, Enabled, Control;
  }

  lemma DoneKept(p: Plan, s: State, st: Step, i: nat)
    requires GoodPlan(p) && Control(p, s) && ToReadOk(p, s) && Enabled(p, s, st) && IsControl(st) && i < |p.l.as_|
    ensures CarriedOut(p, Do(p, s, st), i) == CarriedOut(p, s, i)
  {
    hide GoodPlan, ClassOf, WritesIn, Encodes, Control, Sent, Send, Received;
    ClassOfGet(p, i);
  }

  /** The steps of the control flow alone leave done what was done. */
  lemma ControlStep(p: Plan, s0: Store, s: State, st: Step)
    requires GoodPlan(p) && Inv(p, s0, s) && Enabled(p, s, st) && IsControl(st)
    ensures Inv(p, s0, Do(p, s, st))
  {
    hide GoodPlan, StoreAfter, Expected, CarriedOut, Do, Enabled, IsControl, Control, Counters, ToReadOk;
    var t := Do(p, s, st);
    ControlSame(p, s, st);
    ControlKept(p, s, st);
    CountersKept(p, s, st);
    forall j: nat | j < |p.l.as_| ensures SlotOk(p, s0, t, j) {
      assert SlotOk(p, s0, s, j);
      DoneKept(p, s, st, j);
    }
  }

  lemma MoreWritesIn(p: Plan, committed: set<nat>, c: nat)
    requires GoodPlan(p) && c < |p.calls|
    ensures WritesIn(p, committed + {c}) == WritesIn(p, committed) + CallIndices(p, c)
    ensures c !in committed ==> WritesIn(p, committed) !! CallIndices(p, c)
  {
    hide GoodList, FromList, Sorted3, SharedFate, Encodes;
    forall i: nat ensures InSome(p, committed + {c}, i) <==> InSome(p, committed, i) || InCall(p, c, i) {
      if InCall(p, c, i) { assert c in committed + {c}; }
      if InSome(p, committed, i) {
        var d :| d in committed && InCall(p, d, i);
        assert d in committed + {c};
      }
    }
  }

  /** A commit reports what is expected of each of its writes, whatever has been committed by then. */
  lemma CommitInv(p: Plan, s0: Store, s: State, c: nat, now: nat)
    requires GoodPlan(p) && Inv(p, s0, s) && Enabled(p, s, Commit(c, now))
    ensures forall i :: InCall(p, c, i) ==> i !in s.results
    ensures Inv(p, s0, Do(p, s, Commit(c, now)))
  {
    hide GoodPlan, StoreAfter, Expected, Effect, Record, SlotsOk, Counters, Encodes;
    MoreWritesIn(p, s.committed, c);
    CommitStep(p, s0, s.store, WritesIn(p, s.committed), c, now);
    CountersKept(p, s, Commit(c, now));
    forall i: nat | i < |p.l.as_|
      ensures SlotOk(p, s0, Do(p, s, Commit(c, now)), i) && (InCall(p, c, i) ==> i !in s.results)
    {
      CommitSlot(p, s0, s, c, now, i);
    }
    CommitResults(p, s0, s, c, now);
    hide Do, Control, ToReadOk;
  }

  lemma CommitSlot(p: Plan, s0: Store, s: State, c: nat, now: nat, i: nat)
    requires GoodPlan(p) && SlotsOk(p, s0, s) && Enabled(p, s, Commit(c, now)) && i < |p.l.as_|
    requires WritesIn(p, s.committed + {c}) == WritesIn(p, s.committed) + CallIndices(p, c)
    requires WritesIn(p, s.committed) !! CallIndices(p, c)
    requires InCall(p, c, i) ==>
      Expected(p.l, s0, Tx(p, s0), i) == Heard(p.l, i, if Effect(p, s.store, c, now).Some? then Wrote else NotWritten)
    ensures SlotOk(p, s0, Do(p, s, Commit(c, now)), i) && (InCall(p, c, i) ==> i !in s.results)
  {
    hide GoodPlan, ClassOf, Expected, Effect, Encodes, PassedOver, WritesIn;
    assert SlotOk(p, s0, s, i);
    if InCall(p, c, i) { InCallWrites(p, c, i); }
  }

  lemma CommitResults(p: Plan, s0: Store, s: State, c: nat, now: nat)
    requires SlotsOk(p, s0, s) && Enabled(p, s, Commit(c, now))
    requires forall i: nat :: i < |p.l.as_| ==> SlotOk(p, s0, Do(p, s, Commit(c, now)), i)
    ensures SlotsOk(p, s0, Do(p, s, Commit(c, now)))
  {
    hide SlotOk, Effect, Encodes;
  }

  lemma StepInv(p: Plan, s0: Store, s: State, st: Step)
    requires GoodPlan(p) && Inv(p, s0, s) && Enabled(p, s, st)
    ensures Inv(p, s0, Do(p, s, st))
  {
    hide GoodPlan, Inv, Enabled, Do;
    match st {
      case Read(i) => ReadStep(p, s0, s, i);
      case Commit(c, now) => CommitInv(p, s0, s, c, now);
      case _ => ControlStep(p, s0, s, st);
    }
  }

  lemma {:induction false} RunInv(p: Plan, s0: Store, s: State, steps: seq<Step>, t: State)
    requires GoodPlan(p) && Inv(p, s0, s) && Run(p, s, steps, t)
    ensures Inv(p, s0, t)
    decreases |steps|
  {
    hide GoodPlan, Inv, Enabled, Do;
    if steps != [] {
      StepInv(p, s0, s, steps[0]);
      RunInv(p, s0, Do(p, s, steps[0]), steps[1..], t);
    }
  }

  ghost predicate Reachable(p: Plan, s0: Store, steps: seq<Step>, s: State) {
    Run(p, Init(p, s0), steps, s)
  }

  lemma ReachableInv(p: Plan, s0: Store, steps: seq<Step>, s: State)
    requires GoodPlan(p) && Reachable(p, s0, steps, s)
    ensures Inv(p, s0, s)
  {
    hide GoodPlan, Init, Inv, Run;
    InitInv(p, s0);
    RunInv(p, s0, Init(p, s0), steps, s);
  }

  // ---------------------------------------------------------------- the meaning is preserved

  /** When a run finishes, every action has reported, and the store has all writes that were sent. */
  lemma FinishedAll(p: Plan, s0: Store, t: State)
    requires GoodPlan(p) && Inv(p, s0, t) && t.phase == Finished
    ensures forall i: nat :: i in t.results <==> i < |p.l.as_|
    ensures forall i: nat :: i < |p.l.as_| ==> t.results[i] == Expected(p.l, s0, Tx(p, s0), i)
    ensures forall i: nat :: IsWrite(p.l, i) ==> (i in WritesIn(p, t.committed) <==> Sent(p.l, i))
  {
    hide Encodes, GoodList, FromList, Sorted3, SharedFate, PassedOver, ClassOf, StoreAfter, Expected;
    forall i: nat | IsWrite(p.l, i) ensures i in WritesIn(p, t.committed) <==> Sent(p.l, i) {
      if Sent(p.l, i) {
        var c: nat :| InCall(p, c, i);
        assert c in t.committed;
        assert InSome(p, t.committed, i);
      } else if InSome(p, t.committed, i) {
        var c :| c in t.committed && InCall(p, c, i);
        InCallWrites(p, c, i);
      }
    }
    forall i: nat | i < |p.l.as_| ensures i in t.results && t.results[i] == Expected(p.l, s0, Tx(p, s0), i) {
      assert SlotOk(p, s0, t, i);
    }
  }

  /** Every finished run, however its commits and reads were interleaved, reports for each action what the
      list means in the user's order, and leaves the same documents up to revision stamps. */
  lemma RunMeaning(p: Plan, s0: Store, steps: seq<Step>, t: State, stamp: nat -> nat)
    requires GoodPlan(p) && Reachable(p, s0, steps, t) && t.phase == Finished
    ensures
      var m := Meaning(p.l, s0, stamp);
      |m.results| == |p.l.as_|
      && t.results == (map i: nat | i < |p.l.as_| :: m.results[i])
      && SameFields(t.store, m.store)
  {
    hide Encodes, GoodPlan, Inv, Reachable, Expected, Meaning, StoreAfter, NameIn, PassedOver;
    ReachableInv(p, s0, steps, t);
    GoodPlanList(p, s0, t);
    MeaningExpected(p.l, s0, stamp);
    FinishedAll(p, s0, t);
    var m, all := Meaning(p.l, s0, stamp), WritesUpTo(p.l, |p.l.as_|);
    forall i | i in all && i !in WritesIn(p, t.committed)
      ensures IsWrite(p.l, i) && !Sent(p.l, i) && !NameIn(p.l, NameAt(p.l, i), WritesIn(p, t.committed))
    {
      NotYetNamed(p.l, i, WritesIn(p, t.committed));
    }
    StoresAgree(p.l, s0, Tx(p, s0), t.store, WritesIn(p, t.committed), m.store, all);
  }

  lemma GoodPlanList(p: Plan, s0: Store, t: State)
    requires GoodPlan(p) && Inv(p, s0, t)
    ensures GoodList(p.l) && StoreAfter(p.l, s0, Tx(p, s0), t.store, WritesIn(p, t.committed))
    ensures forall i :: i in WritesIn(p, t.committed) ==> IsWrite(p.l, i)
  {
    hide GoodList, FromList, Sorted3, SharedFate, Encodes;
    forall i | i in WritesIn(p, t.committed) ensures IsWrite(p.l, i) {
      var c :| c in t.committed && InCall(p, c, i);
      InCallWrites(p, c, i);
    }
  }

  // ---------------------------------------------------------------- slots, tokens, progress

  /** The activity that owns an action writes its slot, once; no step touches a slot that was written. */
  lemma SlotsWrittenOnce(p: Plan, s0: Store, steps: seq<Step>, s: State, st: Step, i: nat)
    requires GoodPlan(p) && Reachable(p, s0, steps, s) && Enabled(p, s, st)
    ensures
      var t := Do(p, s, st);
      if i in s.results then i in t.results && t.results[i] == s.results[i]
      else i in t.results ==> st == Read(i) || (st.Commit? && InCall(p, st.c, i))
  {
    hide GoodPlan, Inv, Encodes, Reachable;
    ReachableInv(p, s0, steps, s);
    match st {
      case Read(j) => ReadStep(p, s0, s, j);
      case Commit(c, now) => CommitInv(p, s0, s, c, now);
      case _ =>
    }
  }

  /** When a get that comes after the writes is read, every call has been committed and released. */
  lemma AfterGetsLast(p: Plan, s0: Store, steps: seq<Step>, s: State, i: nat)
    requires GoodPlan(p) && Reachable(p, s0, steps, s) && Enabled(p, s, Read(i))
    requires ClassOf(p.l.as_, |p.l.as_|, i) == AfterGet
    ensures s.active == {} && forall c: nat :: c < |p.calls| ==> c in s.committed
  {
    ReachableInv(p, s0, steps, s);
    hide Reachable, ClassOf, Encodes, FromList, Sorted3, GoodList, StoreAfter, Expected;
  }

  /** The throttle's channel never holds more tokens than its limit, nor than the wait group counts; each active
      goroutine has one. Wait goes on exactly when nobody is counted, and then every call is committed. */
  lemma ThrottleWorks(p: Plan, s0: Store, steps: seq<Step>, s: State)
    requires GoodPlan(p) && Reachable(p, s0, steps, s)
    ensures p.limit > 0 ==> |s.active| + (if s.phase == ReadingBeside then 1 else 0) == s.throttle.tokens <= p.limit
    ensures p.limit <= 0 && s.phase == Spawning && s.entering ==> Enabled(p, s, Spawn) || Enabled(p, s, StartBeside)
    ensures s.throttle.tokens <= s.throttle.wg
    ensures Enabled(p, s, Wait) <==>
      s.phase == Waiting && s.active == {} && s.leaving == {}
    ensures Enabled(p, s, Wait) ==> forall c: nat :: c < |p.calls| ==> c in s.committed
  {
    hide Reachable, GoodPlan, Encodes, StoreAfter, SlotsOk;
    ReachableInv(p, s0, steps, s);
  }

  /** Whoever is to receive finds a token in the channel, and is counted by the wait group. */
  ghost predicate CanRelease(p: Plan, s: State) {
    (forall c :: c in s.active && c in s.committed ==> Enabled(p, s, Receive(c)))
    && (forall c :: c in s.leaving ==> Enabled(p, s, Leave(c)))
    && (s.phase == ReadingBeside && s.toRead == {} ==> Enabled(p, s, EndBeside))
    && (s.phase == Leaving ==> Enabled(p, s, LeaveBeside))
  }

  /** A Release is never blocked, and never lowers the wait group's count below zero. */
  lemma ReleaseNeverBlocks(p: Plan, s0: Store, steps: seq<Step>, s: State)
    requires GoodPlan(p) && Reachable(p, s0, steps, s)
    ensures CanRelease(p, s)
  {
    hide GoodPlan, Reachable, Inv, CanRelease;
    ReachableInv(p, s0, steps, s);
    CountersRelease(p, s0, s);
  }

  lemma CountersRelease(p: Plan, s0: Store, s: State)
    requires Inv(p, s0, s)
    ensures CanRelease(p, s)
  {
    hide Encodes, StoreAfter, Expected, SlotsOk, ToReadOk, Control;
  }

  lemma NobodyElse(p: Plan, s: State)
    requires Counters(p, s) && s.active == {}
    ensures s.phase == Spawning ==> CanSend(p, s.throttle)
    ensures s.phase == Waiting && !s.entering && s.leaving == {} ==> s.throttle.wg == 0
  {
  }

  /** No run is stuck before it finishes: some step is enabled, whatever the limit. */
  lemma NoDeadlock(p: Plan, s0: Store, steps: seq<Step>, s: State) returns (st: Step)
    requires GoodPlan(p) && Reachable(p, s0, steps, s) && s.phase != Finished
    ensures Enabled(p, s, st)
  {
    hide GoodPlan, Reachable, Inv, Enabled;
    ReachableInv(p, s0, steps, s);
    st := NextStep(p, s0, s);
  }

  lemma CallsEncode(p: Plan)
    requires GoodPlan(p)
    ensures forall c :: 0 <= c < |p.calls| ==> AllEncode(p.calls[c])
  {
    hide GoodList, SharedFate, Sorted3, Encodes;
    forall c | 0 <= c < |p.calls| ensures AllEncode(p.calls[c]) { assert FromList(p, c); }
  }

  lemma NextStep(p: Plan, s0: Store, s: State) returns (st: Step)
    requires GoodPlan(p) && Inv(p, s0, s) && s.phase != Finished
    ensures Enabled(p, s, st)
  {
    hide GoodPlan, Encodes, StoreAfter, SlotsOk, ClassOf, Counters;
    CallsEncode(p);
    CountersRelease(p, s0, s);
    if s.active == {} { NobodyElse(p, s); }
    if Reading(s.phase) {
      if s.toRead != {} {
        var i :| i in s.toRead;
        st := Read(i);
      } else {
        st := if s.phase == ReadingBefore then EndBefore else if s.phase == ReadingBeside then EndBeside else EndAfter;
      }
    } else if s.phase == Leaving {
      st := LeaveBeside;
    } else if s.phase == Spawning && !s.entering {
      st := Enter;
    } else if s.phase == Spawning && CanSend(p, s.throttle) {
      st := if s.next < |p.calls| then Spawn else StartBeside;
    } else if s.active != {} {
      var c :| c in s.active;
      st := if c in s.committed then Receive(c) else Commit(c, 0);
    } else if s.leaving != {} {
      var c :| c in s.leaving;
      st := Leave(c);
    } else {
      st := Wait;
    }
  }

  /** Room for the phases that are left, each with up to n reads. */
  function Ahead(phase: Phase, n: nat): nat {
    match phase
    case ReadingBefore => 5 * n + 8
    case Spawning => 4 * n + 7
    case ReadingBeside => 3 * n + 5
    case Leaving => 3 * n + 4
    case Waiting => 3 * n + 3
    case ReadingAfter => n + 1
    case Finished => 0
  }

  /** Bounds the number of steps that are left. */
  function Left(p: Plan, s: State): int {
    Ahead(s.phase, |p.l.as_|) + |s.toRead| - (if s.entering then 1 else 0)
    + 6 * (|p.calls| - s.next) + 3 * |s.active| + |s.leaving| - |s.committed|
  }

  lemma {:induction false} SmallSet(s: set<nat>, n: nat)
    requires forall i :: i in s ==> i < n
    ensures |s| <= n
  {
    if n == 0 {
      assert s == {};
    } else {
      SmallSet(s - {n - 1}, n - 1);
      assert n - 1 in s ==> s == (s - {n - 1}) + {n - 1};
      assert n - 1 !in s ==> s == s - {n - 1};
    }
  }

  lemma MembersFew(p: Plan, c: Class)
    ensures |Members(p, c)| <= |p.l.as_|
  {
    hide ClassOf;
    SmallSet(Members(p, c), |p.l.as_|);
  }

  lemma PhaseLeft(p: Plan, s: State, st: Step)
    requires Enabled(p, s, st) && st in {EndBefore, StartBeside, EndBeside, LeaveBeside, Wait, EndAfter}
    ensures Left(p, Do(p, s, st)) < Left(p, s)
  {
    hide Members, Encodes, Effect, Record, Send, Received;
    MembersFew(p, ConcurrentGet);
    MembersFew(p, AfterGet);
  }

  /** Every step brings the end nearer. */
  lemma StepLeft(p: Plan, s: State, st: Step)
    requires Control(p, s) && Enabled(p, s, st)
    ensures Left(p, Do(p, s, st)) < Left(p, s)
  {
    if st in {EndBefore, StartBeside, EndBeside, LeaveBeside, Wait, EndAfter} {
      hide *;
      PhaseLeft(p, s, st);
    } else if st.Commit? {
      CommitFields(p, s, st);
      hide Do, Control;
      OneLess(s.committed, st.c);
    } else {
      hide Effect, Record, Encodes, Members, Send, Received;
      match st {
        case Read(i) => OneLess(s.toRead, i);
        case Enter =>
        case Spawn => OneLess(s.active, s.next);
        case Receive(c) => OneLess(s.active, c); OneLess(s.leaving, c);
        case Leave(c) => OneLess(s.leaving, c);
      }
    }
  }

  /** So no run takes more steps than this; with NoDeadlock, every run that goes on as long as it can finishes. */
  lemma RunsEnd(p: Plan, s0: Store, steps: seq<Step>, s: State)
    requires GoodPlan(p) && Reachable(p, s0, steps, s)
    ensures |steps| <= 6 * |p.l.as_| + 9 + 7 * |p.calls|
  {
    InitInv(p, s0);
    MembersFew(p, BeforeGet);
    assert Left(p, Init(p, s0)) <= 6 * |p.l.as_| + 8 + 6 * |p.calls|;
    hide GoodPlan, Init, Run, Inv;
    StepsLeft(p, s0, Init(p, s0), steps, s);
  }

  lemma {:induction false} StepsLeft(p: Plan, s0: Store, s: State, steps: seq<Step>, t: State)
    requires GoodPlan(p) && Inv(p, s0, s) && Run(p, s, steps, t)
    ensures |steps| <= Left(p, s) + |p.calls| + 1
    decreases |steps|
  {
    hide GoodPlan, Enabled, Do;
    if steps == [] {
      SmallSet(s.committed, |p.calls|);
    } else {
      StepInv(p, s0, s, steps[0]);
      StepLeft(p, s, steps[0]);
      StepsLeft(p, s0, Do(p, s, steps[0]), steps[1..], t);
    }
  }
}
