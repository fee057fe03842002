/** The Variable of runtimevar/runtimevar.go: a background goroutine that publishes values, and callers of
    Watch, Latest and Close, as steps that interleave in any order. */
module Variables {
  import opened Wrappers

  /** A value that the driver found, with its metadata. */
  type Snapshot = nat

  datatype Err = NoValueYet | ErrClosed | DriverErr(code: nat) | CtxErr

  /** What the driver reports when something changed. */
  datatype DriverState = Good(value: Snapshot) | Bad(code: nat)

  /** The result of Watch or Latest; the zero Snapshot is None. */
  datatype Answer = Answer(value: Option<Snapshot>, err: Option<Err>)

  // ---------------------------------------------------------------- the shared fields

  /** Channels are numbers; a channel below next was made, and closed has the closed ones. */
  type Chan = nat

  const HAVE_GOOD: Chan := 0
  const BACKGROUND_DONE: Chan := 1

  datatype Shared = Shared(
    closed: set<Chan>, next: Chan, changed: Chan, lastWatch: Chan,
    last: Option<Snapshot>, lastErr: Option<Err>, lastGood: Option<Snapshot>)

  const NEW := Shared({}, 3, 2, 2, None, Some(NoValueYet), None)

  predicate IsClosed(f: Shared) {
    f.lastErr == Some(ErrClosed)
  }

  /** The background goroutine's update under the lock; the variable is not closed. */
  function Published(f: Shared, d: DriverState): Shared {
    var g := match d
      case Good(v) => f.(last := Some(v), lastErr := None, lastGood := Some(v), closed := f.closed + {HAVE_GOOD})
      case Bad(e) => f.(last := None, lastErr := Some(DriverErr(e)));
    g.(closed := g.closed + {f.changed}, changed := f.next, next := f.next + 1)
  }

  /** Close's update under the lock; the variable is not closed. */
  function Closing(f: Shared): Shared {
    f.(last := None, lastErr := Some(ErrClosed), closed := f.closed + {f.changed, HAVE_GOOD})
  }

  function WatchAnswer(f: Shared, ctxDone: bool): Answer {
    if IsClosed(f) then Answer(None, Some(ErrClosed))
    else if ctxDone then Answer(None, Some(CtxErr))
    else Answer(f.last, f.lastErr)
  }

  function Watched(f: Shared, ctxDone: bool): Shared {
    if IsClosed(f) || ctxDone then f else f.(lastWatch := f.changed)
  }

  function LatestAnswer(f: Shared, haveGood: bool): Answer {
    if haveGood && !IsClosed(f) then Answer(f.lastGood, None) else Answer(None, f.lastErr)
  }

  /** The object that the goroutines share. Each method is one critical section. */
  class Variable {
    var closed: set<Chan>
    var next: Chan
    var changed: Chan
    var lastWatch: Chan
    var last: Option<Snapshot>
    var lastErr: Option<Err>
    var lastGood: Option<Snapshot>

    ghost function State(): Shared
      reads this
    {
      Shared(closed, next, changed, lastWatch, last, lastErr, lastGood)
    }

    constructor ()
      ensures State() == NEW
    {
      closed, next, changed, lastWatch := {}, 3, 2, 2;
      last, lastErr, lastGood := None, Some(NoValueYet), None;
    }

    /** Closing a closed channel would panic, so that is ruled out. */
    method CloseChan(c: Chan)
      requires c !in closed
      modifies this`closed
      ensures closed == old(closed) + {c}
    {
      closed := closed + {c};
    }

    /** The background goroutine's critical section; false means that it exits. */
    method Publish(d: DriverState) returns (more: bool)
      requires FieldsOk(State()) && BACKGROUND_DONE !in closed
      modifies this
      ensures more == !IsClosed(old(State()))
      ensures more ==> State() == Published(old(State()), d)
      ensures !more ==> State() == old(State()).(closed := old(closed) + {BACKGROUND_DONE})
    {
      if lastErr == Some(ErrClosed) {
        CloseChan(BACKGROUND_DONE);
        return false;
      }
      match d {
        case Good(v) =>
          last, lastErr, lastGood := Some(v), None, Some(v);
          if HAVE_GOOD !in closed { CloseChan(HAVE_GOOD); }
        case Bad(e) =>
          last, lastErr := None, Some(DriverErr(e));
      }
      CloseChan(changed);
      changed, next := next, next + 1;
      more := true;
    }

    method Watch(ctxDone: bool) returns (a: Answer)
      modifies this`lastWatch
      ensures a == WatchAnswer(old(State()), ctxDone) && State() == Watched(old(State()), ctxDone)
    {
      if lastErr == Some(ErrClosed) { return Answer(None, Some(ErrClosed)); }
      if ctxDone { return Answer(None, Some(CtxErr)); }
      lastWatch := changed;
      a := Answer(last, lastErr);
    }

    method Latest(haveGood: bool) returns (a: Answer)
      ensures a == LatestAnswer(State(), haveGood)
    {
      if haveGood && lastErr != Some(ErrClosed) { return Answer(lastGood, None); }
      a := Answer(None, lastErr);
    }

    /** Close's critical section; false means that the variable was closed already. */
    method Close() returns (first: bool)
      requires FieldsOk(State())
      modifies this
      ensures first == !IsClosed(old(State()))
      ensures State() == if first then Closing(old(State())) else old(State())
    {
      if lastErr == Some(ErrClosed) { return false; }
      last, lastErr := None, Some(ErrClosed);
      CloseChan(changed);
      if HAVE_GOOD !in closed { CloseChan(HAVE_GOOD); }
      first := true;
    }
  }

  /** What the critical sections need of the fields: until Close, the current channel is open. */
  ghost predicate FieldsOk(f: Shared) {
    f.changed > BACKGROUND_DONE && f.changed < f.next && (!IsClosed(f) ==> f.changed !in f.closed)
    && (forall c :: c in f.closed ==> c < f.next)
  }

  // ---------------------------------------------------------------- the goroutines

  datatype Background = Selecting | InDriver | HasState(d: DriverState) | Exited

  /** The one Close call that gets past the lock. */
  datatype Closer = NotYet | Cancelling | AwaitingBackground | ClosingDriver | ClosedDriver

  datatype Watcher = NotWatching | Blocked | Woken(ctxDone: bool)

  datatype LatestCall = Checking | BlockedForGood | Decided(haveGood: bool)

  /** goods are the good values in the order they were published; changes counts the publications and the
      close, and consumed is that count when Watch last took an answer. */
  datatype System = System(
    f: Shared, bg: Background, closer: Closer, cancelled: bool, watcher: Watcher, latests: map<nat, LatestCall>,
    driverCloses: nat, goods: seq<Snapshot>, changes: nat, consumed: nat)

  const START := System(NEW, Selecting, NotYet, false, NotWatching, map[], 0, [], 0, 0)

  datatype Step =
    | BgStart | BgCancelled | BgNoChange | BgState(d: DriverState) | BgPublish
    | WatchCall | WatchWake | WatchCtx | WatchLock
    | LatestCheck(i: nat) | LatestWake(i: nat) | LatestCtx(i: nat) | LatestLock(i: nat)
    | CloseLock | CloseCancel | CloseWait | CloseDriver

  predicate Enabled(s: System, st: Step) {
    match st
    case BgStart => s.bg == Selecting
    case BgCancelled => s.bg == Selecting && s.cancelled
    case BgNoChange => s.bg == InDriver
    case BgState(d) => s.bg == InDriver
    case BgPublish => s.bg.HasState?
    case WatchCall => s.watcher == NotWatching
    case WatchWake => s.watcher == Blocked && s.f.lastWatch in s.f.closed
    case WatchCtx => s.watcher == Blocked
    case WatchLock => s.watcher.Woken?
    case LatestCheck(i) => i !in s.latests || s.latests[i] == Checking
    case LatestWake(i) => i in s.latests && s.latests[i] == BlockedForGood && HAVE_GOOD in s.f.closed
    case LatestCtx(i) => i in s.latests && s.latests[i] == BlockedForGood
    case LatestLock(i) => i in s.latests && s.latests[i].Decided?
    case CloseLock => true
    case CloseCancel => s.closer == Cancelling
    case CloseWait => s.closer == AwaitingBackground && BACKGROUND_DONE in s.f.closed
    case CloseDriver => s.closer == ClosingDriver
  }

  function CloseDone(f: Shared): Shared {
    f.(closed := f.closed + {BACKGROUND_DONE})
  }

  function Do(s: System, st: Step): System
    requires Enabled(s, st)
  {
    match st
    case BgStart => s.(bg := InDriver)
    case BgCancelled => s.(bg := Exited, f := CloseDone(s.f))
    case BgNoChange => s.(bg := Selecting)
    case BgState(d) => s.(bg := HasState(d))
    case BgPublish =>
      if IsClosed(s.f) then s.(bg := Exited, f := CloseDone(s.f))
      else s.(bg := Selecting, f := Published(s.f, s.bg.d), changes := s.changes + 1,
              goods := if s.bg.d.Good? then s.goods + [s.bg.d.value] else s.goods)
    case WatchCall => s.(watcher := Blocked)
    case WatchWake => s.(watcher := Woken(false))
    case WatchCtx => s.(watcher := Woken(true))
    case WatchLock =>
      s.(watcher := NotWatching, f := Watched(s.f, s.watcher.ctxDone),
         consumed := if IsClosed(s.f) || s.watcher.ctxDone then s.consumed else s.changes)
    case LatestCheck(i) =>
      s.(latests := s.latests[i := if HAVE_GOOD in s.f.closed then Decided(true) else BlockedForGood])
    case LatestWake(i) => s.(latests := s.latests[i := Decided(true)])
    case LatestCtx(i) => s.(latests := s.latests[i := Decided(false)])
    case LatestLock(i) => s.(latests := s.latests[i := Checking])
    case CloseLock => if IsClosed(s.f) then s else s.(f := Closing(s.f), closer := Cancelling, changes := s.changes + 1)
    case CloseCancel => s.(cancelled := true, closer := AwaitingBackground)
    case CloseWait => s.(closer := ClosingDriver)
    case CloseDriver => s.(closer := ClosedDriver, driverCloses := s.driverCloses + 1)
  }

  /** The channels that a step closes. */
  function Closes(s: System, st: Step): set<Chan>
    requires Enabled(s, st)
  {
    match st
    case BgCancelled => {BACKGROUND_DONE}
    case BgPublish =>
      if IsClosed(s.f) then {BACKGROUND_DONE}
      else {s.f.changed} + if s.bg.d.Good? && HAVE_GOOD !in s.f.closed then {HAVE_GOOD} else {}
    case CloseLock =>
      if IsClosed(s.f) then {} else {s.f.changed} + if HAVE_GOOD !in s.f.closed then {HAVE_GOOD} else {}
    case _ => {}
  }

  /** A run takes enabled steps only. */
  ghost predicate Run(s: System, steps: seq<Step>, t: System)
    decreases |steps|
  {
    if steps == [] then s == t else Enabled(s, steps[0]) && Run(Do(s, steps[0]), steps[1..], t)
  }

  ghost predicate Reachable(s: System, steps: seq<Step>) {
    Run(START, steps, s)
  }

  // ---------------------------------------------------------------- what every step keeps

  ghost predicate Inv(s: System) {
    ChannelsOk(s) && ValuesOk(s) && CloseOk(s)
  }

  /** The watched channel is open exactly when nothing changed since Watch last took an answer. */
  ghost predicate ChannelsOk(s: System) {
    FieldsOk(s.f) && s.consumed <= s.changes
    && s.f.lastWatch < s.f.next && s.f.lastWatch > BACKGROUND_DONE
    && (s.f.changed in s.f.closed <==> IsClosed(s.f))
    && (s.f.lastWatch !in s.f.closed <==> s.changes == s.consumed)
    && (s.changes == s.consumed ==> s.f.lastWatch == s.f.changed)
    && (s.f.lastWatch == s.f.changed && !IsClosed(s.f) ==> s.changes == s.consumed)
  }

  /** The channel haveGoodCh is closed exactly when there is a good value or the variable is closed. */
  ghost predicate ValuesOk(s: System) {
    (HAVE_GOOD in s.f.closed <==> s.goods != [] || IsClosed(s.f))
    && s.f.lastGood == (if s.goods == [] then None else Some(s.goods[|s.goods|-1]))
    && (s.f.lastErr == None ==> s.f.last.Some? && s.f.last == s.f.lastGood)
    && (forall i :: i in s.latests && s.latests[i] == Decided(true) ==> HAVE_GOOD in s.f.closed)
  }

  /** The driver is closed once, by the one Close call that found the variable open, after the background
      goroutine has ended. */
  ghost predicate CloseOk(s: System) {
    (IsClosed(s.f) <==> s.closer != NotYet)
    && (s.cancelled <==> s.closer != NotYet && s.closer != Cancelling)
    && (BACKGROUND_DONE in s.f.closed <==> s.bg == Exited)
    && (s.bg == Exited ==> IsClosed(s.f))
    && (s.closer == ClosingDriver || s.closer == ClosedDriver ==> s.bg == Exited)
    && s.driverCloses == if s.closer == ClosedDriver then 1 else 0
  }

  lemma ChannelsStep(s: System, st: Step)
    requires ChannelsOk(s) && Enabled(s, st)
    ensures ChannelsOk(Do(s, st))
  {
  }

  lemma ValuesStep(s: System, st: Step)
    requires ChannelsOk(s) && ValuesOk(s) && Enabled(s, st)
    ensures ValuesOk(Do(s, st))
  {
  }

  lemma CloseStep(s: System, st: Step)
    requires ChannelsOk(s) && CloseOk(s) && Enabled(s, st)
    ensures CloseOk(Do(s, st))
  {
  }

  lemma {:induction false} RunInv(s: System, steps: seq<Step>, t: System)
    requires Inv(s) && Run(s, steps, t)
    ensures Inv(t)
    decreases |steps|
  {
    hide ChannelsOk, ValuesOk, CloseOk, Enabled, Do;
    if steps != [] {
      ChannelsStep(s, steps[0]);
      ValuesStep(s, steps[0]);
      CloseStep(s, steps[0]);
      RunInv(Do(s, steps[0]), steps[1..], t);
    }
  }

  lemma ReachableInv(s: System, steps: seq<Step>)
    requires Reachable(s, steps)
    ensures Inv(s)
  {
    StartInv();
    hide Inv, Run;
    RunInv(START, steps, s);
  }

  lemma StartInv()
    ensures Inv(START)
  {
  }

  /** No channel is closed twice. */
  lemma NoDoubleClose(s: System, steps: seq<Step>, st: Step)
    requires Reachable(s, steps) && Enabled(s, st)
    ensures Closes(s, st) !! s.f.closed
    ensures Do(s, st).f.closed == s.f.closed + Closes(s, st)
  {
    ReachableInv(s, steps);
  }

  /** A closed variable stays closed: Watch and Latest answer ErrClosed, and no one blocks. */
  lemma ClosedForGood(s: System, steps: seq<Step>, st: Step)
    requires Reachable(s, steps) && IsClosed(s.f) && Enabled(s, st)
    ensures IsClosed(Do(s, st).f)
    ensures forall b :: WatchAnswer(s.f, b) == Answer(None, Some(ErrClosed)) == LatestAnswer(s.f, b)
    ensures s.watcher == Blocked ==> Enabled(s, WatchWake)
    ensures forall i :: i in s.latests && s.latests[i] == BlockedForGood ==> Enabled(s, LatestWake(i))
  {
    ReachableInv(s, steps);
  }

  /** Watch wakes exactly when something changed since it last took an answer, and then takes the newest. */
  lemma WatchSeesChanges(s: System, steps: seq<Step>)
    requires Reachable(s, steps) && s.watcher == Blocked
    ensures Enabled(s, WatchWake) <==> s.changes > s.consumed
  {
    ReachableInv(s, steps);
  }

  /** Once Latest saw haveGoodCh closed, an open variable gives it the newest good value. */
  lemma LatestIsNewest(s: System, steps: seq<Step>, i: nat)
    requires Reachable(s, steps) && i in s.latests && s.latests[i] == Decided(true) && !IsClosed(s.f)
    ensures s.goods != [] && LatestAnswer(s.f, true) == Answer(Some(s.goods[|s.goods|-1]), None)
  {
    ReachableInv(s, steps);
  }

  /** What a step changes for everybody: a publication, or the close. */
  datatype Change = NoChange | Publication(d: DriverState) | Closure

  function ChangeOf(s: System, st: Step): Change {
    if IsClosed(s.f) then NoChange
    else if st.BgPublish? && s.bg.HasState? then Publication(s.bg.d)
    else if st.CloseLock? then Closure
    else NoChange
  }

  /** The last change in a run. */
  ghost function LastChange(s: System, steps: seq<Step>): Change
    decreases |steps|
  {
    if steps == [] || !Enabled(s, steps[0]) then NoChange else
      var later := LastChange(Do(s, steps[0]), steps[1..]);
      if later == NoChange then ChangeOf(s, steps[0]) else later
  }

  predicate IsOwn(st: Step, i: nat) {
    st == LatestCheck(i) || st == LatestWake(i) || st == LatestCtx(i) || st == LatestLock(i)
  }

  /** The context of Latest call i ended it: that was its last step. */
  ghost predicate EndedByContext(steps: seq<Step>, i: nat) {
    exists k :: 0 <= k < |steps| && steps[k] == LatestCtx(i) && NoneOwn(steps[k+1..], i)
  }

  ghost predicate NoneOwn(steps: seq<Step>, i: nat) {
    forall m :: 0 <= m < |steps| ==> !IsOwn(steps[m], i)
  }

  /** The error that a change leaves. */
  function ErrorAfter(before: Option<Err>, c: Change): Option<Err> {
    match c
    case NoChange => before
    case Publication(Good(_)) => None
    case Publication(Bad(e)) => Some(DriverErr(e))
    case Closure => Some(ErrClosed)
  }

  lemma ErrorStep(s: System, st: Step)
    requires Enabled(s, st)
    ensures Do(s, st).f.lastErr == ErrorAfter(s.f.lastErr, ChangeOf(s, st))
  {
  }

  lemma {:induction false} ErrorOfRun(s: System, steps: seq<Step>, t: System)
    requires Run(s, steps, t)
    ensures t.f.lastErr == ErrorAfter(s.f.lastErr, LastChange(s, steps))
    decreases |steps|
  {
    hide Enabled, Do, ChangeOf;
    if steps != [] {
      ErrorStep(s, steps[0]);
      ErrorOfRun(Do(s, steps[0]), steps[1..], t);
    }
  }

  /** The value that a change leaves. */
  function ValueAfter(before: Option<Snapshot>, c: Change): Option<Snapshot> {
    match c
    case NoChange => before
    case Publication(Good(v)) => Some(v)
    case _ => None
  }

  lemma ValueStep(s: System, st: Step)
    requires Enabled(s, st)
    ensures Do(s, st).f.last == ValueAfter(s.f.last, ChangeOf(s, st))
  {
  }

  lemma {:induction false} ValueOfRun(s: System, steps: seq<Step>, t: System)
    requires Run(s, steps, t)
    ensures t.f.last == ValueAfter(s.f.last, LastChange(s, steps))
    decreases |steps|
  {
    hide Enabled, Do, ChangeOf;
    if steps != [] {
      ValueStep(s, steps[0]);
      ValueOfRun(Do(s, steps[0]), steps[1..], t);
    }
  }

  /** A Watch that was not woken by its context has something new to take. */
  ghost predicate WokenOk(s: System) {
    s.watcher == Woken(false) ==> s.changes > s.consumed
  }

  lemma WokenStep(s: System, st: Step)
    requires ChannelsOk(s) && WokenOk(s) && Enabled(s, st)
    ensures WokenOk(Do(s, st))
  {
  }

  lemma ChangesStep(s: System, st: Step)
    requires Enabled(s, st)
    ensures Do(s, st).changes == s.changes + if ChangeOf(s, st) == NoChange then 0 else 1
  {
  }

  lemma {:induction false} WokenRun(s: System, steps: seq<Step>, t: System)
    requires Inv(s) && WokenOk(s) && Run(s, steps, t)
    ensures WokenOk(t) && (t.changes == s.changes <==> LastChange(s, steps) == NoChange) && t.changes >= s.changes
    decreases |steps|
  {
    hide ChannelsOk, ValuesOk, CloseOk, Enabled, Do, WokenOk, ChangeOf;
    if steps != [] {
      ChannelsStep(s, steps[0]);
      ValuesStep(s, steps[0]);
      CloseStep(s, steps[0]);
      WokenStep(s, steps[0]);
      ChangesStep(s, steps[0]);
      WokenRun(Do(s, steps[0]), steps[1..], t);
    }
  }

  /** What Watch answers: the last publication of the run, value or error; or that its context ended, in which case it
      still has that publication to take; or that the variable is closed. */
  lemma WatchTakesLast(s: System, steps: seq<Step>)
    requires Reachable(s, steps) && s.watcher.Woken?
    ensures
      var last, answer, after := LastChange(START, steps), WatchAnswer(s.f, s.watcher.ctxDone), Do(s, WatchLock).f;
      (IsClosed(s.f) <==> last == Closure)
      && (last == Closure ==> answer == Answer(None, Some(ErrClosed)) && after == s.f)
      && (last != Closure && s.watcher.ctxDone ==>
        answer == Answer(None, Some(CtxErr)) && after == s.f)
      && (last != Closure && !s.watcher.ctxDone ==>
        last.Publication? && after == s.f.(lastWatch := s.f.changed)
        && (last.d.Good? ==> answer == Answer(Some(last.d.value), None))
        && (last.d.Bad? ==> answer == Answer(None, Some(DriverErr(last.d.code)))))
  {
    StartInv();
    ErrorOfRun(START, steps, s);
    ValueOfRun(START, steps, s);
    WokenRun(START, steps, s);
    hide Run, LastChange, Inv;
  }

  lemma {:induction false} RunSnoc(s: System, steps: seq<Step>, t: System, st: Step)
    requires Run(s, steps, t) && Enabled(t, st)
    ensures Run(s, steps + [st], Do(t, st))
    decreases |steps|
  {
    hide Enabled, Do;
    if steps == [] {
      assert steps + [st] == [st] && [st][1..] == [];
    } else {
      RunSnoc(Do(s, steps[0]), steps[1..], t, st);
      assert (steps + [st])[1..] == steps[1..] + [st];
    }
  }

  lemma Further(s: System, steps: seq<Step>, st: Step) returns (t: System, more: seq<Step>)
    requires Reachable(s, steps) && Enabled(s, st)
    ensures t == Do(s, st) && more == steps + [st] && Reachable(t, more)
  {
    t, more := Do(s, st), steps + [st];
    RunSnoc(START, steps, s, st);
  }

  lemma PublishNext(s: System, steps: seq<Step>, d: DriverState) returns (t: System, more: seq<Step>)
    requires Reachable(s, steps) && s.bg == Selecting && !IsClosed(s.f)
    ensures Reachable(t, more) && t.bg == Selecting && t.f == Published(s.f, d) && t.watcher == s.watcher
  {
    hide Reachable;
    t, more := Further(s, steps, BgStart);
    t, more := Further(t, more, BgState(d));
    t, more := Further(t, more, BgPublish);
  }

  /** A good value is published, then an error: Watch answers the error and no value. */
  lemma WatchExample() returns (s: System, steps: seq<Step>)
    ensures Reachable(s, steps) && s.watcher == Woken(false)
    ensures WatchAnswer(s.f, false) == Answer(None, Some(DriverErr(9)))
  {
    assert Run(START, [], START);
    hide Reachable;
    s, steps := PublishNext(START, [], Good(1));
    s, steps := PublishNext(s, steps, Bad(9));
    s, steps := Further(s, steps, WatchCall);
    s, steps := Further(s, steps, WatchWake);
  }

  /** What may happen at any time: the driver reports anything or nothing, contexts end, callers call. */
  lemma Free(s: System, d: DriverState, i: nat)
    ensures s.bg == Selecting ==> Enabled(s, BgStart)
    ensures s.bg == InDriver ==> Enabled(s, BgState(d)) && Enabled(s, BgNoChange)
    ensures s.watcher == NotWatching ==> Enabled(s, WatchCall)
    ensures s.watcher == Blocked ==> Enabled(s, WatchCtx)
    ensures i !in s.latests || s.latests[i] == Checking ==> Enabled(s, LatestCheck(i))
    ensures i in s.latests && s.latests[i] == BlockedForGood ==> Enabled(s, LatestCtx(i))
    ensures Enabled(s, CloseLock)
  {
  }

  /** The good values of a run, in order. */
  ghost function GoodsOf(s: System, steps: seq<Step>): seq<Snapshot>
    decreases |steps|
  {
    if steps == [] || !Enabled(s, steps[0]) then [] else
      (match ChangeOf(s, steps[0]) case Publication(Good(v)) => [v] case _ => [])
      + GoodsOf(Do(s, steps[0]), steps[1..])
  }

  lemma GoodsStep(s: System, st: Step)
    requires Enabled(s, st)
    ensures Do(s, st).goods == s.goods + match ChangeOf(s, st) case Publication(Good(v)) => [v] case _ => []
  {
  }

  lemma {:induction false} GoodsOfRun(s: System, steps: seq<Step>, t: System)
    requires Run(s, steps, t)
    ensures t.goods == s.goods + GoodsOf(s, steps)
    decreases |steps|
  {
    hide Enabled, Do, ChangeOf;
    if steps != [] {
      GoodsStep(s, steps[0]);
      GoodsOfRun(Do(s, steps[0]), steps[1..], t);
    }
  }

  /** What Latest answers: the newest good value of the run, if it saw that there is one; otherwise the error of the
      last publication, which says why there is none. A closed variable answers that it is closed. */
  lemma LatestAnswers(s: System, steps: seq<Step>, i: nat)
    requires Reachable(s, steps) && i in s.latests && s.latests[i].Decided?
    ensures
      var last, goods := LastChange(START, steps), GoodsOf(START, steps);
      var answer := LatestAnswer(s.f, s.latests[i].haveGood);
      (last == Closure ==> answer == Answer(None, Some(ErrClosed)))
      && (last != Closure && s.latests[i].haveGood ==>
        goods != [] && answer == Answer(Some(goods[|goods|-1]), None))
      && (last != Closure && !s.latests[i].haveGood ==>
        answer == Answer(None, match last
                               case Publication(Good(_)) => None
                               case Publication(Bad(e)) => Some(DriverErr(e))
                               case _ => Some(NoValueYet)))
  {
    ReachableInv(s, steps);
    ErrorOfRun(START, steps, s);
    GoodsOfRun(START, steps, s);
    hide Run, LastChange, GoodsOf, ChannelsOk, CloseOk;
  }

  ghost predicate OutOfTime(s: System, i: nat) {
    i in s.latests && s.latests[i] == Decided(false)
  }

  lemma OwnStep(s: System, st: Step, i: nat)
    requires Enabled(s, st)
    ensures OutOfTime(Do(s, st), i) <==> st == LatestCtx(i) || (OutOfTime(s, i) && !IsOwn(st, i))
  {
  }

  lemma EndedNext(steps: seq<Step>, i: nat)
    requires steps != []
    ensures NoneOwn(steps, i) <==> !IsOwn(steps[0], i) && NoneOwn(steps[1..], i)
    ensures EndedByContext(steps, i) <==>
      EndedByContext(steps[1..], i) || (steps[0] == LatestCtx(i) && NoneOwn(steps[1..], i))
  {
    var rest := steps[1..];
    assert forall m :: 0 <= m < |rest| ==> rest[m] == steps[m+1];
    assert forall m :: 1 <= m < |steps| ==> steps[m] == rest[m-1];
    if EndedByContext(steps, i) {
      var k :| 0 <= k < |steps| && steps[k] == LatestCtx(i) && NoneOwn(steps[k+1..], i);
      if k > 0 { assert rest[k-1] == LatestCtx(i) && rest[k-1+1..] == steps[k+1..]; }
    }
    if EndedByContext(rest, i) {
      var k :| 0 <= k < |rest| && rest[k] == LatestCtx(i) && NoneOwn(rest[k+1..], i);
      assert steps[k+1] == LatestCtx(i) && steps[k+1+1..] == rest[k+1..];
    }
  }

  lemma {:induction false} OutOfTimeIff(s: System, steps: seq<Step>, t: System, i: nat)
    requires Run(s, steps, t)
    ensures OutOfTime(t, i) <==> EndedByContext(steps, i) || (OutOfTime(s, i) && NoneOwn(steps, i))
    decreases |steps|
  {
    hide Enabled, Do, EndedByContext, NoneOwn, OutOfTime, IsOwn;
    if steps == [] {
      NothingOwn(i);
    } else {
      OwnStep(s, steps[0], i);
      EndedNext(steps, i);
      OutOfTimeIff(Do(s, steps[0]), steps[1..], t, i);
    }
  }

  lemma NothingOwn(i: nat)
    ensures NoneOwn([], i) && !EndedByContext([], i)
  {
  }

  /** Latest answers without an error and without a value exactly when its context ended it and the last change
      before it looked was a good publication. */
  lemma LatestEmptyAnswer(s: System, steps: seq<Step>, i: nat)
    requires Reachable(s, steps) && i in s.latests && s.latests[i].Decided?
    ensures LatestAnswer(s.f, s.latests[i].haveGood) == Answer(None, None)
      <==> EndedByContext(steps, i) && LastChange(START, steps).Publication? && LastChange(START, steps).d.Good?
  {
    ReachableInv(s, steps);
    ErrorOfRun(START, steps, s);
    OutOfTimeIff(START, steps, s, i);
    hide EndedByContext, NoneOwn, LastChange, Run, ChannelsOk, CloseOk;
  }

  ghost predicate Late(s: System, i: nat) {
    i in s.latests && (s.latests[i] == BlockedForGood || s.latests[i] == Decided(false))
  }

  lemma LateStep(s: System, st: Step, i: nat)
    requires Enabled(s, st) && Late(Do(s, st), i)
    ensures if st == LatestCheck(i) then HAVE_GOOD !in s.f.closed else Late(s, i)
  {
  }

  /** Such a call found no good value when it checked. */
  lemma {:induction false} CheckedBefore(s: System, steps: seq<Step>, t: System, i: nat) returns (k: int, a: System)
    requires Run(s, steps, t) && Late(t, i)
    ensures k == -1 ==> Late(s, i)
    ensures -1 <= k < |steps|
    ensures k >= 0 ==>
      steps[k] == LatestCheck(i) && LatestCheck(i) !in steps[k+1..]
      && Run(s, steps[..k], a) && HAVE_GOOD !in a.f.closed
    ensures k == -1 ==> LatestCheck(i) !in steps
    decreases |steps|
  {
    hide Enabled, Do, Late;
    if steps == [] {
      return -1, s;
    }
    var u := Do(s, steps[0]);
    k, a := CheckedBefore(u, steps[1..], t, i);
    if k >= 0 {
      assert steps[1..][..k] == steps[..k+1][1..] && steps[1..][k+1..] == steps[k+2..];
      k := k + 1;
    } else {
      LateStep(s, steps[0], i);
      assert steps == [steps[0]] + steps[1..];
      if steps[0] == LatestCheck(i) {
        k, a := 0, s;
        assert steps[..0] == [] && steps[0+1..] == steps[1..];
      }
    }
  }

  /** So in that case the good publication came in the middle of the call: when the call checked, no good value had
      been published yet and the variable was open. */
  lemma LatestEmptyMidway(s: System, steps: seq<Step>, i: nat) returns (k: nat, a: System)
    requires Reachable(s, steps) && i in s.latests && s.latests[i].Decided?
    requires LatestAnswer(s.f, s.latests[i].haveGood) == Answer(None, None)
    ensures k < |steps| && steps[k] == LatestCheck(i) && LatestCheck(i) !in steps[k+1..]
    ensures Reachable(a, steps[..k]) && a.goods == [] && !IsClosed(a.f)
    ensures s.goods != [] && !IsClosed(s.f)
  {
    ReachableInv(s, steps);
    var j;
    j, a := CheckedBefore(START, steps, s, i);
    k := j;
    ReachableInv(a, steps[..k]);
    hide Run;
  }

  /** That does happen: the context of a Latest call ends, then a good value is published, then it looks. */
  lemma LatestEmptyExample() returns (s: System, steps: seq<Step>)
    ensures Reachable(s, steps) && 0 in s.latests && s.latests[0].Decided?
    ensures LatestAnswer(s.f, s.latests[0].haveGood) == Answer(None, None)
  {
    steps := [LatestCheck(0), LatestCtx(0), BgStart, BgState(Good(7)), BgPublish];
    var s1 := Do(START, LatestCheck(0));
    var s2 := Do(s1, LatestCtx(0));
    var s3 := Do(s2, BgStart);
    var s4 := Do(s3, BgState(Good(7)));
    s := Do(s4, BgPublish);
    assert Run(s, [], s);
    assert steps[4..] == [BgPublish] && [BgPublish][1..] == [];
    assert Run(s4, steps[4..], s);
    assert steps[3..][1..] == steps[4..] && Run(s3, steps[3..], s);
    assert steps[2..][1..] == steps[3..] && Run(s2, steps[2..], s);
    assert steps[1..][1..] == steps[2..] && Run(s1, steps[1..], s);
  }

  /** The driver is closed at most once, and only when the background goroutine has ended. */
  lemma DriverClosedOnce(s: System, steps: seq<Step>)
    requires Reachable(s, steps)
    ensures s.driverCloses <= 1
    ensures s.driverCloses == 1 || Enabled(s, CloseDriver) ==> s.bg == Exited
    ensures Enabled(s, CloseDriver) ==> s.driverCloses == 0
  {
    ReachableInv(s, steps);
  }

  /** A Close that waits for the background goroutine does not wait in vain: that goroutine has ended, or it
      can end within two of its own steps, once the driver returns. */
  lemma CloseDoesNotHang(s: System, steps: seq<Step>) returns (rest: seq<Step>)
    requires Reachable(s, steps) && s.closer == AwaitingBackground
    ensures |rest| <= 2
    ensures |rest| == 0 ==> Enabled(s, CloseWait)
    ensures |rest| == 1 ==> Enabled(s, rest[0]) && Enabled(Do(s, rest[0]), CloseWait)
    ensures |rest| == 2 ==>
      Enabled(s, rest[0]) && Enabled(Do(s, rest[0]), rest[1]) && Enabled(Do(Do(s, rest[0]), rest[1]), CloseWait)
  {
    ReachableInv(s, steps);
    rest := match s.bg
      case Exited => []
      case Selecting => [BgCancelled]
      case HasState(_) => [BgPublish]
      case InDriver => [BgNoChange, BgCancelled];
  }
}
