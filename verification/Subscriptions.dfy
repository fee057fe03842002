/** The Subscription of pubsub/pubsub.go: callers of Receive and one background fetch, as steps that
    interleave in any order. Each section that holds the lock is one step. */
module Subscriptions {
  import opened Wrappers
  import opened BatchSize

  type Message = nat

  type Chan = nat

  datatype Err = Driver(code: nat) | Ack(code: nat) | Shutdown

  // ---------------------------------------------------------------- the shared fields

  /** The fields that the lock protects; waitc is nil or the channel of the fetch in progress. */
  datatype Shared = Shared(q: seq<Message>, err: Option<Err>, waitc: Option<Chan>, next: Chan, closed: set<Chan>,
    rate: Rate)

  const NEW := Shared([], None, None, 0, {}, Rate(1.0, None, 0))

  /** What Receive does next, when it leaves its locked section. */
  datatype Outcome = Failed(err: Err) | CtxDone | Delivered(m: Message) | Wait(c: Chan)

  /** Receive starts a fetch when none is in progress and few messages are left. */
  predicate StartsFetch(s: Shared) {
    s.waitc == None && |s.q| as real <= s.rate.running * PREFETCH_RATIO
  }

  function Started(s: Shared, opts: Option<BatchOptions>, now: real): Shared {
    s.(waitc := Some(s.next), next := s.next + 1, rate := if OneAtATime(opts) then s.rate else Measured(s.rate, now))
  }

  /** The locked section of Receive: the outcome, and the fields after it. */
  function TopOfLoop(s: Shared, ctxDone: bool, opts: Option<BatchOptions>, now: real): (Shared, Outcome)
    requires s.q == [] ==> s.waitc.Some? || StartsFetch(s)
  {
    if s.err.Some? then (s, Failed(s.err.value))
    else if ctxDone then (s, CtxDone)
    else
      var t := if StartsFetch(s) then Started(s, opts, now) else s;
      if t.q != [] then (t.(q := t.q[1..], rate := t.rate.(count := t.rate.count + 1)), Delivered(t.q[0]))
      else (t, Wait(t.waitc.value))
  }

  /** The object that the goroutines share. Each method is one section under the lock. */
  class Subscription {
    const opts: Option<BatchOptions>
    const throughput: Throughput
    var q: seq<Message>
    var err: Option<Err>
    var waitc: Option<Chan>
    var next: Chan
    var closed: set<Chan>

    ghost function State(): Shared
      reads this, throughput
    {
      Shared(q, err, waitc, next, closed, throughput.State())
    }

    constructor (opts: Option<BatchOptions>)
      ensures State() == NEW && fresh(throughput)
    {
      this.opts := opts;
      q, err, waitc, next, closed := [], None, None, 0, {};
      throughput := new Throughput();
    }

    method Receive(ctxDone: bool, now: real) returns (o: Outcome)
      requires throughput.runningBatchSize > 0.0
      modifies this, throughput
      ensures (State(), o) == TopOfLoop(old(State()), ctxDone, opts, now)
    {
      if err != None { return Failed(err.value); }
      if ctxDone { return CtxDone; }
      if waitc == None && |q| as real <= throughput.runningBatchSize * PREFETCH_RATIO {
        waitc, next := Some(next), next + 1;
        var batchSize := throughput.UpdateBatchSize(opts, now);
      }
      if |q| > 0 {
        o := Delivered(q[0]);
        q := q[1..];
        throughput.throughputCount := throughput.throughputCount + 1;
        return;
      }
      o := Wait(waitc.value);
    }

    /** The fetch goroutine brings messages. */
    method Enqueue(msgs: seq<Message>)
      modifies this`q
      ensures State() == old(State()).(q := old(q) + msgs)
    {
      q := q + msgs;
    }

    /** The fetch goroutine, an acknowledgement or Shutdown records a permanent error. */
    method Fail(e: Err)
      modifies this`err
      ensures State() == old(State()).(err := Some(e))
    {
      err := Some(e);
    }

    /** The fetch goroutine ends. */
    method EndFetch()
      requires waitc.Some? && waitc.value !in closed
      modifies this`waitc, this`closed
      ensures State() == old(State()).(waitc := None, closed := old(closed) + {old(waitc).value})
    {
      closed := closed + {waitc.value};
      waitc := None;
    }
  }

  // ---------------------------------------------------------------- the goroutines

  /** What the result channel carries. */
  datatype Item = Msgs(msgs: seq<Message>) | Error(e: Err)

  /** Where the fetch goroutine is: reading the result channel, holding what it read, offering a wakeup on
      waitc, or about to close it. */
  datatype At = Ranging | Holding(item: Item) | Notifying | Finishing

  /** A fetch: calls in the driver, batches that returned and are about to be sent, the result channel with its
      capacity, and the group's first error. */
  datatype Fetch =
    | Idle
    | Live(at: At, capacity: nat, inDriver: nat, got: seq<seq<Message>>, buffer: seq<Item>,
           failed: Option<Err>, errSent: bool, resultClosed: bool)

  datatype Caller = Out | Waiting(c: Chan) | Woken

  /** delivered and arrived are all messages that Receive returned and that reached the result channel. */
  datatype System = System(s: Shared, fetch: Fetch, callers: map<nat, Caller>, delivered: seq<Message>,
    arrived: seq<Message>)

  const START := System(NEW, Idle, map[], [], [])

  datatype Step =
    | Receive(i: nat, ctxDone: bool, now: real, batches: nat)
    | Wake(i: nat) | Rendezvous(i: nat) | CtxEnds(i: nat)
    | DriverReturns(msgs: seq<Message>) | DriverFails(e: Err)
    | WorkerSend(k: nat) | GroupError | GroupClose
    | FetchPop | FetchStore | FetchEnd | FetchClose
    | AckFails(e: Err) | ShutDown

  function CallerAt(y: System, i: nat): Caller {
    if i in y.callers then y.callers[i] else Out
  }

  predicate WaitsOn(y: System, i: nat, c: Chan) {
    CallerAt(y, i) == Waiting(c)
  }

  predicate Enabled(opts: Option<BatchOptions>, y: System, st: Step) {
    match st
    case Receive(i, ctxDone, now, batches) => !CallerAt(y, i).Waiting?
    case Wake(i) => CallerAt(y, i).Waiting? && CallerAt(y, i).c in y.s.closed
    case Rendezvous(i) => y.fetch.Live? && y.fetch.at == Notifying && y.s.waitc.Some? && WaitsOn(y, i, y.s.waitc.value)
    case CtxEnds(i) => CallerAt(y, i).Waiting?
    case DriverReturns(msgs) => y.fetch.Live? && y.fetch.inDriver > 0
    case DriverFails(e) => y.fetch.Live? && y.fetch.inDriver > 0
    case WorkerSend(k) => y.fetch.Live? && k < |y.fetch.got| && |y.fetch.buffer| < y.fetch.capacity
    case GroupError =>
      y.fetch.Live? && y.fetch.inDriver == 0 && y.fetch.got == [] && y.fetch.failed.Some? && !y.fetch.errSent
      && |y.fetch.buffer| < y.fetch.capacity
    case GroupClose =>
      y.fetch.Live? && y.fetch.inDriver == 0 && y.fetch.got == [] && (y.fetch.failed.Some? ==> y.fetch.errSent)
      && !y.fetch.resultClosed
    case FetchPop => y.fetch.Live? && y.fetch.at == Ranging && y.fetch.buffer != []
    case FetchStore => y.fetch.Live? && y.fetch.at.Holding?
    case FetchEnd => y.fetch.Live? && y.fetch.at == Ranging && y.fetch.buffer == [] && y.fetch.resultClosed
    case FetchClose => y.fetch.Live? && y.fetch.at == Finishing && y.s.waitc.Some?
    case AckFails(e) => true
    case ShutDown => true
  }

  /** A new fetch replaces whatever fetch there was: that there was none has to be proved. */
  function NewFetch(batches: nat): Fetch {
    Live(Ranging, batches, batches, [], [], None, false, false)
  }

  /** A Receive would wait on a nil channel. */
  predicate NilWait(y: System, st: Step) {
    st.Receive? && y.s.q == [] && y.s.waitc == None && !StartsFetch(y.s)
  }

  function Do(opts: Option<BatchOptions>, y: System, st: Step): System
    requires Enabled(opts, y, st) && !NilWait(y, st)
  {
    match st
    case Receive(i, ctxDone, now, batches) =>
      var (t, o) := TopOfLoop(y.s, ctxDone, opts, now);
      var fetch := if y.s.err == None && !ctxDone && StartsFetch(y.s) then NewFetch(batches) else y.fetch;
      System(t, fetch, y.callers[i := if o.Wait? then Waiting(o.c) else Out],
             if o.Delivered? then y.delivered + [o.m] else y.delivered, y.arrived)
    case Wake(i) => y.(callers := y.callers[i := Woken])
    case Rendezvous(i) => y.(callers := y.callers[i := Woken], fetch := y.fetch.(at := Ranging))
    case CtxEnds(i) => y.(callers := y.callers[i := Out])
    case DriverReturns(msgs) => y.(fetch := y.fetch.(inDriver := y.fetch.inDriver - 1, got := y.fetch.got + [msgs]))
    case DriverFails(e) =>
      var failed := if y.fetch.failed == None then Some(e) else y.fetch.failed;
      y.(fetch := y.fetch.(inDriver := y.fetch.inDriver - 1, failed := failed))
    case WorkerSend(k) =>
      var msgs := y.fetch.got[k];
      y.(fetch := y.fetch.(got := y.fetch.got[..k] + y.fetch.got[k+1..], buffer := y.fetch.buffer + [Msgs(msgs)]),
         arrived := y.arrived + msgs)
    case GroupError => y.(fetch := y.fetch.(buffer := y.fetch.buffer + [Error(y.fetch.failed.value)], errSent := true))
    case GroupClose => y.(fetch := y.fetch.(resultClosed := true))
    case FetchPop => y.(fetch := y.fetch.(at := Holding(y.fetch.buffer[0]), buffer := y.fetch.buffer[1..]))
    case FetchStore =>
      (match y.fetch.at.item
       case Msgs(msgs) =>
         if msgs != [] then y.(s := y.s.(q := y.s.q + msgs), fetch := y.fetch.(at := Notifying))
         else y.(fetch := y.fetch.(at := Ranging))
       case Error(e) => y.(s := y.s.(err := Some(e)), fetch := y.fetch.(at := Ranging)))
    case FetchEnd => y.(fetch := y.fetch.(at := Finishing))
    case FetchClose => y.(s := y.s.(waitc := None, closed := y.s.closed + {y.s.waitc.value}), fetch := Idle)
    case AckFails(e) => y.(s := y.s.(err := Some(e)))
    case ShutDown => if y.s.err == Some(Shutdown) then y else y.(s := y.s.(err := Some(Shutdown)))
  }

  // ---------------------------------------------------------------- what every step keeps

  /** There is a fetch exactly when there is a channel to wait on, and that channel is open. */
  ghost predicate FetchOk(y: System) {
    (y.s.waitc.Some? <==> y.fetch.Live?)
    && (y.s.waitc.Some? ==> y.s.waitc.value < y.s.next && y.s.waitc.value !in y.s.closed)
    && (forall c :: c in y.s.closed ==> c < y.s.next)
    && y.s.rate.running > 0.0
  }

  /** Who waits, waits on the channel of the fetch in progress or on one that is closed. */
  ghost predicate CallersOk(y: System) {
    forall i :: i in y.callers && y.callers[i].Waiting? ==>
      y.callers[i].c in y.s.closed || y.s.waitc == Some(y.callers[i].c)
  }

  function ErrorToSend(f: Fetch): nat
    requires f.Live?
  {
    if f.failed.Some? && !f.errSent then 1 else 0
  }

  /** The result channel has room for everything that is still to be sent on it. */
  ghost predicate RoomOk(y: System) {
    y.fetch.Live? ==>
      |y.fetch.buffer| + y.fetch.inDriver + |y.fetch.got| + ErrorToSend(y.fetch) <= y.fetch.capacity
      && (y.fetch.failed == None ==> !y.fetch.errSent)
      && (y.fetch.resultClosed ==> y.fetch.inDriver == 0 && y.fetch.got == [] && ErrorToSend(y.fetch) == 0)
      && (y.fetch.at == Finishing ==> y.fetch.buffer == [] && y.fetch.resultClosed)
  }

  function MsgsOf(item: Item): seq<Message> {
    if item.Msgs? then item.msgs else []
  }

  function AllMsgs(items: seq<Item>): seq<Message> {
    if items == [] then [] else MsgsOf(items[0]) + AllMsgs(items[1..])
  }

  /** The messages on their way from the result channel to the queue. */
  function InTransit(f: Fetch): seq<Message> {
    if f.Idle? then [] else (if f.at.Holding? then MsgsOf(f.at.item) else []) + AllMsgs(f.buffer)
  }

  /** What was delivered, then what is queued, then what is on its way, is what arrived, in order. */
  ghost predicate OrderOk(y: System) {
    y.delivered + y.s.q + InTransit(y.fetch) == y.arrived
  }

  ghost predicate Inv(y: System) {
    FetchOk(y) && CallersOk(y) && RoomOk(y) && OrderOk(y)
  }

  /** With a positive batch size, a Receive that finds nothing has a fetch to wait for, or starts one. */
  lemma WaitsForSomething(y: System)
    requires FetchOk(y)
    ensures y.s.q == [] ==> y.s.waitc.Some? || StartsFetch(y.s)
  {
  }

  lemma FetchStep(opts: Option<BatchOptions>, y: System, st: Step)
    requires FetchOk(y) && Enabled(opts, y, st) && !NilWait(y, st)
    ensures FetchOk(Do(opts, y, st))
  {
    if st.Receive? { MeasuredBounds(y.s.rate, st.now); }
  }

  lemma CallersStep(opts: Option<BatchOptions>, y: System, st: Step)
    requires FetchOk(y) && CallersOk(y) && Enabled(opts, y, st) && !NilWait(y, st)
    ensures CallersOk(Do(opts, y, st))
  {
  }

  lemma RoomStep(opts: Option<BatchOptions>, y: System, st: Step)
    requires FetchOk(y) && RoomOk(y) && Enabled(opts, y, st) && !NilWait(y, st)
    ensures RoomOk(Do(opts, y, st))
  {
  }

  lemma {:induction false} AllMsgsSnoc(items: seq<Item>, item: Item)
    ensures AllMsgs(items + [item]) == AllMsgs(items) + MsgsOf(item)
  {
    if items == [] {
      assert [item][1..] == [];
    } else {
      assert (items + [item])[1..] == items[1..] + [item];
      AllMsgsSnoc(items[1..], item);
    }
  }

  lemma ReceiveMoves(opts: Option<BatchOptions>, y: System, st: Step)
    requires FetchOk(y) && Enabled(opts, y, st) && st.Receive? && !NilWait(y, st)
    ensures
      var z := Do(opts, y, st);
      z.delivered + z.s.q == y.delivered + y.s.q && InTransit(z.fetch) == InTransit(y.fetch) && z.arrived == y.arrived
  {
    hide Measured;
    if y.s.q != [] { assert y.s.q == [y.s.q[0]] + y.s.q[1..]; }
  }

  function Sent(y: System, st: Step): seq<Message> {
    if st.WorkerSend? && y.fetch.Live? && st.k < |y.fetch.got| then y.fetch.got[st.k] else []
  }

  lemma SendMoves(opts: Option<BatchOptions>, y: System, st: Step)
    requires Enabled(opts, y, st) && (st.WorkerSend? || st.GroupError?)
    ensures
      var z := Do(opts, y, st);
      var sent := Sent(y, st);
      z.delivered == y.delivered && z.s.q == y.s.q
      && InTransit(z.fetch) == InTransit(y.fetch) + sent && z.arrived == y.arrived + sent
  {
    hide AllMsgs;
    var item := if st.WorkerSend? then Msgs(y.fetch.got[st.k]) else Error(y.fetch.failed.value);
    AllMsgsSnoc(y.fetch.buffer, item);
  }

  lemma PopMoves(opts: Option<BatchOptions>, y: System)
    requires Enabled(opts, y, FetchPop)
    ensures InTransit(Do(opts, y, FetchPop).fetch) == InTransit(y.fetch)
  {
  }

  lemma StoreMoves(opts: Option<BatchOptions>, y: System)
    requires Enabled(opts, y, FetchStore)
    ensures
      var z := Do(opts, y, FetchStore);
      z.s.q + InTransit(z.fetch) == y.s.q + InTransit(y.fetch)
  {
    hide AllMsgs;
    var rest := AllMsgs(y.fetch.buffer);
    assert [] + rest == rest;
    Regroup(y.s.q, MsgsOf(y.fetch.at.item), rest);
  }

  lemma CloseMoves(opts: Option<BatchOptions>, y: System)
    requires Enabled(opts, y, FetchClose) && RoomOk(y)
    ensures InTransit(Do(opts, y, FetchClose).fetch) == InTransit(y.fetch)
  {
  }

  lemma OtherMoves(opts: Option<BatchOptions>, y: System, st: Step)
    requires Enabled(opts, y, st) && !st.Receive? && !st.WorkerSend? && !st.GroupError?
    requires !st.FetchPop? && !st.FetchStore? && !st.FetchClose?
    ensures
      var z := Do(opts, y, st);
      z.s.q == y.s.q && InTransit(z.fetch) == InTransit(y.fetch)
  {
    hide AllMsgs;
  }

  lemma FetchMoves(opts: Option<BatchOptions>, y: System, st: Step)
    requires RoomOk(y) && Enabled(opts, y, st) && !st.Receive? && !st.WorkerSend? && !st.GroupError?
    ensures
      var z := Do(opts, y, st);
      z.delivered == y.delivered && z.s.q + InTransit(z.fetch) == y.s.q + InTransit(y.fetch) && z.arrived == y.arrived
  {
    hide AllMsgs, RoomOk, InTransit;
    match st {
      case FetchPop => PopMoves(opts, y);
      case FetchStore => StoreMoves(opts, y);
      case FetchClose => CloseMoves(opts, y);
      case _ => OtherMoves(opts, y, st);
    }
  }

  lemma OrderStep(opts: Option<BatchOptions>, y: System, st: Step)
    requires FetchOk(y) && RoomOk(y) && OrderOk(y) && Enabled(opts, y, st) && !NilWait(y, st)
    ensures OrderOk(Do(opts, y, st))
  {
    hide Do, InTransit, Enabled, RoomOk, FetchOk;
    var z := Do(opts, y, st);
    if st.Receive? {
      ReceiveMoves(opts, y, st);
    } else if st.WorkerSend? || st.GroupError? {
      SendMoves(opts, y, st);
      Regroup(y.delivered + y.s.q, InTransit(y.fetch), Sent(y, st));
    } else {
      FetchMoves(opts, y, st);
      Regroup(y.delivered, y.s.q, InTransit(y.fetch));
      Regroup(z.delivered, z.s.q, InTransit(z.fetch));
    }
  }

  lemma Regroup(a: seq<Message>, b: seq<Message>, c: seq<Message>)
    ensures a + b + c == a + (b + c)
  {
  }

  // ---------------------------------------------------------------- runs

  /** A run takes enabled steps only. A Receive that finds nothing must have a fetch to wait for, or the
      nil channel would block it for ever: that this is so is proved. */
  ghost predicate Run(opts: Option<BatchOptions>, y: System, steps: seq<Step>, z: System)
    decreases |steps|
  {
    if steps == [] then y == z else
      Enabled(opts, y, steps[0])
      && (NilWait(y, steps[0]) || Run(opts, Do(opts, y, steps[0]), steps[1..], z))
  }

  ghost predicate Reachable(opts: Option<BatchOptions>, y: System, steps: seq<Step>) {
    Run(opts, START, steps, y)
  }

  lemma StepInv(opts: Option<BatchOptions>, y: System, st: Step)
    requires Inv(y) && Enabled(opts, y, st)
    ensures !NilWait(y, st) && Inv(Do(opts, y, st))
  {
    WaitsForSomething(y);
    hide FetchOk, CallersOk, RoomOk, OrderOk, Enabled, Do;
    FetchStep(opts, y, st);
    CallersStep(opts, y, st);
    RoomStep(opts, y, st);
    OrderStep(opts, y, st);
  }

  lemma {:induction false} RunInv(opts: Option<BatchOptions>, y: System, steps: seq<Step>, z: System)
    requires Inv(y) && Run(opts, y, steps, z)
    ensures Inv(z)
    decreases |steps|
  {
    hide Inv, Enabled, Do, NilWait;
    if steps != [] {
      StepInv(opts, y, steps[0]);
      RunInv(opts, Do(opts, y, steps[0]), steps[1..], z);
    }
  }

  lemma ReachableInv(opts: Option<BatchOptions>, y: System, steps: seq<Step>)
    requires Reachable(opts, y, steps)
    ensures Inv(y)
  {
    assert Inv(START);
    hide Inv, Run;
    RunInv(opts, START, steps, y);
  }

  /** Messages are delivered in the order in which their batches arrived, none lost and none twice. */
  lemma DeliveredInOrder(opts: Option<BatchOptions>, y: System, steps: seq<Step>)
    requires Reachable(opts, y, steps)
    ensures y.delivered + y.s.q <= y.arrived
    ensures y.fetch.Idle? ==> y.delivered + y.s.q == y.arrived
  {
    ReachableInv(opts, y, steps);
    hide AllMsgs;
  }

  /** A fetch starts only when there is none, so at most one is live. */
  lemma OneFetch(opts: Option<BatchOptions>, y: System, steps: seq<Step>)
    requires Reachable(opts, y, steps) && StartsFetch(y.s)
    ensures y.fetch == Idle
  {
    ReachableInv(opts, y, steps);
  }

  /** The channel that a caller waits on is not nil: it is the live fetch's, or closed. */
  lemma WaitsOnLiveOrClosed(opts: Option<BatchOptions>, y: System, steps: seq<Step>, i: nat)
    requires Reachable(opts, y, steps) && CallerAt(y, i).Waiting?
    ensures CallerAt(y, i).c in y.s.closed || (y.fetch.Live? && y.s.waitc == Some(CallerAt(y, i).c))
  {
    ReachableInv(opts, y, steps);
  }

  /** No send on the result channel blocks. */
  lemma SendsNeverBlock(opts: Option<BatchOptions>, y: System, steps: seq<Step>, k: nat)
    requires Reachable(opts, y, steps) && y.fetch.Live?
    ensures k < |y.fetch.got| ==> Enabled(opts, y, WorkerSend(k))
    ensures y.fetch.inDriver == 0 && y.fetch.got == [] && ErrorToSend(y.fetch) == 1 ==> Enabled(opts, y, GroupError)
  {
    ReachableInv(opts, y, steps);
  }

  /** A permanent error stays, though it may be replaced by another. */
  lemma ErrorStays(opts: Option<BatchOptions>, y: System, steps: seq<Step>, st: Step)
    requires Reachable(opts, y, steps) && y.s.err.Some? && Enabled(opts, y, st)
    ensures !NilWait(y, st) && Do(opts, y, st).s.err.Some?
  {
    ReachableInv(opts, y, steps);
    WaitsForSomething(y);
  }

  /** The error that a step records, if any. */
  function Records(y: System, st: Step): Option<Err> {
    match st
    case AckFails(e) => Some(e)
    case ShutDown => Some(Shutdown)
    case FetchStore =>
      if y.fetch.Live? && y.fetch.at.Holding? && y.fetch.at.item.Error? then Some(y.fetch.at.item.e) else None
    case _ => None
  }

  lemma OneStepError(opts: Option<BatchOptions>, y: System, st: Step)
    requires y.s.err.Some? && Enabled(opts, y, st) && !NilWait(y, st)
    ensures Do(opts, y, st).s.err == if Records(y, st).Some? then Records(y, st) else y.s.err
  {
    hide Measured;
  }

  /** After every prefix of the run, Receive answers this error, whether its context is done or not. */
  ghost predicate ReportsAlong(opts: Option<BatchOptions>, y: System, steps: seq<Step>, e: Err)
    decreases |steps|
  {
    Reports(y, e)
    && (steps != [] && Enabled(opts, y, steps[0]) && !NilWait(y, steps[0]) ==>
      ReportsAlong(opts, Do(opts, y, steps[0]), steps[1..], e))
  }

  ghost predicate Reports(y: System, e: Err) {
    (y.s.q == [] ==> y.s.waitc.Some? || StartsFetch(y.s))
    && forall ctxDone: bool, opts: Option<BatchOptions>, now: real :: TopOfLoop(y.s, ctxDone, opts, now).1 == Failed(e)
  }

  /** No step of the run records another error: no acknowledgement fails with one, the subscription is not
      shut down, and the fetch goroutine does not come to one. */
  ghost predicate RecordsNoOther(opts: Option<BatchOptions>, y: System, steps: seq<Step>, e: Err)
    decreases |steps|
  {
    steps != [] ==>
      (Records(y, steps[0]) == None || Records(y, steps[0]) == Some(e))
      && (Enabled(opts, y, steps[0]) && !NilWait(y, steps[0]) ==>
        RecordsNoOther(opts, Do(opts, y, steps[0]), steps[1..], e))
  }

  lemma ReportsIff(y: System, e: Err)
    requires FetchOk(y) && y.s.err.Some?
    ensures Reports(y, e) <==> y.s.err == Some(e)
  {
    WaitsForSomething(y);
    hide Measured, FetchOk;
    assert forall ctxDone: bool, opts: Option<BatchOptions>, now: real ::
      TopOfLoop(y.s, ctxDone, opts, now).1 == Failed(y.s.err.value);
    var t := TopOfLoop(y.s, false, None, 0.0);
  }

  lemma {:induction false} ReportsAlongIff(opts: Option<BatchOptions>, y: System, steps: seq<Step>, z: System, e: Err)
    requires Inv(y) && Run(opts, y, steps, z) && y.s.err == Some(e)
    ensures ReportsAlong(opts, y, steps, e) <==> RecordsNoOther(opts, y, steps, e)
    decreases |steps|
  {
    InvParts(y);
    hide Inv, FetchOk, Reports, Enabled, Do, NilWait, Records;
    ReportsIff(y, e);
    if steps != [] {
      StepInv(opts, y, steps[0]);
      OneStepError(opts, y, steps[0]);
      var w := Do(opts, y, steps[0]);
      if w.s.err == Some(e) {
        ReportsAlongIff(opts, w, steps[1..], z, e);
      } else {
        InvParts(w);
        ReportsIff(w, e);
        NotReported(opts, w, steps[1..], e);
      }
    }
  }

  lemma InvParts(y: System)
    requires Inv(y)
    ensures FetchOk(y)
  {
  }

  lemma NotReported(opts: Option<BatchOptions>, y: System, steps: seq<Step>, e: Err)
    requires !Reports(y, e)
    ensures !ReportsAlong(opts, y, steps, e)
  {
  }

  /** The documented promise, that Receive returns the same error from then on, is kept along a run exactly when
      no other error is recorded in it. */
  lemma ErrorReplaced(opts: Option<BatchOptions>, before: seq<Step>, y: System, steps: seq<Step>, z: System, e: Err)
    requires Reachable(opts, y, before) && Run(opts, y, steps, z) && y.s.err == Some(e)
    ensures ReportsAlong(opts, y, steps, e) <==> RecordsNoOther(opts, y, steps, e)
  {
    hide *;
    ReachableInv(opts, y, before);
    ReportsAlongIff(opts, y, steps, z, e);
  }

  /** And that happens: acknowledgements fail, then the subscription is shut down. */
  lemma ErrorReplacedExample(opts: Option<BatchOptions>) returns (y: System, z: System)
    ensures Reachable(opts, y, [AckFails(Ack(1))]) && Reachable(opts, z, [AckFails(Ack(1)), ShutDown])
    ensures y.s.err.Some? && z.s.err.Some? && y.s.err != z.s.err
  {
    y := Do(opts, START, AckFails(Ack(1)));
    z := Do(opts, y, ShutDown);
    assert Run(opts, y, [], y) && Run(opts, z, [], z);
    assert [AckFails(Ack(1))][1..] == [] && [ShutDown][1..] == [] && [AckFails(Ack(1)), ShutDown][1..] == [ShutDown];
    assert Run(opts, y, [ShutDown], z);
  }

  /** The steps that neither the driver nor a new call has to take. */
  predicate IsInner(st: Step) {
    st.Wake? || st.Rendezvous? || st.WorkerSend? || st.GroupError? || st.GroupClose?
    || st.FetchPop? || st.FetchStore? || st.FetchEnd? || st.FetchClose?
  }

  /** The fetch is waiting for the driver, and for nothing else. */
  predicate InsideDriver(f: Fetch) {
    f.Live? && f.at == Ranging && f.buffer == [] && f.got == [] && f.inDriver > 0
  }

  /** While a caller waits, some inner step is enabled unless the fetch is inside the driver. */
  lemma NoDeadlock(opts: Option<BatchOptions>, y: System, steps: seq<Step>, i: nat) returns (st: Step)
    requires Reachable(opts, y, steps) && CallerAt(y, i).Waiting? && !InsideDriver(y.fetch)
    ensures IsInner(st) && Enabled(opts, y, st)
  {
    ReachableInv(opts, y, steps);
    var f := y.fetch;
    if CallerAt(y, i).c in y.s.closed { return Wake(i); }
    match f.at {
      case Holding(_) => st := FetchStore;
      case Notifying => st := Rendezvous(i);
      case Finishing => st := FetchClose;
      case Ranging =>
        if f.buffer != [] { st := FetchPop; }
        else if f.got != [] { st := WorkerSend(0); }
        else if f.resultClosed { st := FetchEnd; }
        else if ErrorToSend(f) == 1 { st := GroupError; }
        else { st := GroupClose; }
    }
  }

  /** Bounds the steps that a fetch still takes, those of the driver included. */
  function Left(f: Fetch): nat {
    match f
    case Idle => 0
    case Live(at, _, inDriver, got, buffer, failed, errSent, resultClosed) =>
      1 + 5 * inDriver + 4 * |got| + 4 * ErrorToSend(f) + 3 * |buffer|
      + (match at case Ranging => 1 case Holding(_) => 3 case Notifying => 2 case Finishing => 0)
      + if resultClosed then 0 else 1
  }

  /** Every step of a fetch brings its end nearer, and no other step puts it off, so a waiting caller is woken
      once the driver has returned. */
  lemma FetchEnds(opts: Option<BatchOptions>, y: System, steps: seq<Step>, st: Step)
    requires Reachable(opts, y, steps) && Enabled(opts, y, st) && y.fetch.Live?
    ensures !NilWait(y, st)
    ensures Left(Do(opts, y, st).fetch) <= Left(y.fetch)
    ensures (IsInner(st) && !st.Wake?) || st.DriverReturns? || st.DriverFails? ==>
      Left(Do(opts, y, st).fetch) < Left(y.fetch)
  {
    ReachableInv(opts, y, steps);
    WaitsForSomething(y);
    hide AllMsgs, OrderOk, CallersOk, Reachable, Measured;
  }

  // ---------------------------------------------------------------- one wakeup for each batch

  /** The step offers a wakeup: messages were queued, which offers one, or the fetch ends, which offers it to all. */
  predicate Offers(y: System, st: Step) {
    st.FetchClose? || (st.FetchStore? && y.fetch.Live? && y.fetch.at.Holding? && MsgsOf(y.fetch.at.item) != [])
  }

  ghost predicate OffersAlong(opts: Option<BatchOptions>, y: System, steps: seq<Step>)
    decreases |steps|
  {
    steps != [] && Enabled(opts, y, steps[0]) && !NilWait(y, steps[0])
    && (Offers(y, steps[0]) || OffersAlong(opts, Do(opts, y, steps[0]), steps[1..]))
  }

  predicate WakesUp(st: Step, i: nat) {
    st == Wake(i) || st == Rendezvous(i)
  }

  ghost predicate WokenIn(steps: seq<Step>, i: nat) {
    exists k :: 0 <= k < |steps| && WakesUp(steps[k], i)
  }

  /** No wakeup is on offer to the caller. */
  ghost predicate NoOffer(y: System, i: nat, c: Chan) {
    y.fetch.Live? && y.fetch.at != Notifying && y.s.waitc == Some(c) && c !in y.s.closed
    && (CallerAt(y, i).Waiting? ==> CallerAt(y, i).c == c)
  }

  lemma NoOfferStep(opts: Option<BatchOptions>, y: System, st: Step, i: nat, c: Chan)
    requires NoOffer(y, i, c) && Enabled(opts, y, st) && !NilWait(y, st) && !Offers(y, st)
    ensures !WakesUp(st, i) && NoOffer(Do(opts, y, st), i, c)
  {
    hide Measured;
  }

  lemma {:induction false} NoOfferRun(opts: Option<BatchOptions>, y: System, steps: seq<Step>, z: System, i: nat,
      c: Chan)
    requires Inv(y) && NoOffer(y, i, c) && Run(opts, y, steps, z) && !OffersAlong(opts, y, steps)
    ensures !WokenIn(steps, i)
    decreases |steps|
  {
    hide Inv, Enabled, Do, NilWait, NoOffer, Offers;
    if steps != [] {
      StepInv(opts, y, steps[0]);
      NoOfferStep(opts, y, steps[0], i, c);
      NoOfferRun(opts, Do(opts, y, steps[0]), steps[1..], z, i, c);
      assert forall k :: 1 <= k < |steps| ==> steps[k] == steps[1..][k-1];
    }
  }

  /** Whatever happens, the caller sleeps until messages are queued once more or the fetch ends. */
  ghost predicate SleepsUntilOffer(opts: Option<BatchOptions>, y: System, i: nat) {
    forall steps: seq<Step>, z: System :: Run(opts, y, steps, z) && WokenIn(steps, i) ==> OffersAlong(opts, y, steps)
  }

  /** A waiting caller is left asleep exactly when its channel is open and no wakeup is on offer, however many
      messages are queued: each batch wakes one caller only. */
  lemma AsleepIff(opts: Option<BatchOptions>, y: System, before: seq<Step>, i: nat)
    requires Reachable(opts, y, before) && CallerAt(y, i).Waiting?
    ensures SleepsUntilOffer(opts, y, i)
      <==> CallerAt(y, i).c !in y.s.closed && y.fetch.Live? && y.fetch.at != Notifying
  {
    ReachableInv(opts, y, before);
    WaitsOnLiveOrClosed(opts, y, before, i);
    var c := CallerAt(y, i).c;
    if c !in y.s.closed && y.fetch.at != Notifying {
      hide Reachable, Run, Inv;
      forall steps: seq<Step>, z: System | Run(opts, y, steps, z) && WokenIn(steps, i)
        ensures OffersAlong(opts, y, steps)
      {
        if !OffersAlong(opts, y, steps) { NoOfferRun(opts, y, steps, z, i, c); }
      }
    } else {
      var st := if c in y.s.closed then Wake(i) else Rendezvous(i);
      OneStepRun(opts, y, st);
      assert [st][0] == st;
      assert WokenIn([st], i);
    }
  }

  lemma OneStepRun(opts: Option<BatchOptions>, y: System, st: Step)
    requires Enabled(opts, y, st) && !NilWait(y, st)
    ensures Run(opts, y, [st], Do(opts, y, st)) && (OffersAlong(opts, y, [st]) <==> Offers(y, st))
  {
    assert [st][1..] == [];
  }

  function OnOffer(y: System): nat {
    if y.fetch.Live? && y.fetch.at == Notifying then 1 else 0
  }

  function Rendezvouses(steps: seq<Step>): nat {
    if steps == [] then 0 else (if steps[0].Rendezvous? then 1 else 0) + Rendezvouses(steps[1..])
  }

  /** How often messages were queued. */
  ghost function Queued(opts: Option<BatchOptions>, y: System, steps: seq<Step>): nat
    decreases |steps|
  {
    if steps == [] || !Enabled(opts, y, steps[0]) || NilWait(y, steps[0]) then 0 else
      (if steps[0].FetchStore? && Offers(y, steps[0]) then 1 else 0) + Queued(opts, Do(opts, y, steps[0]), steps[1..])
  }

  lemma OfferStep(opts: Option<BatchOptions>, y: System, st: Step)
    requires FetchOk(y) && Enabled(opts, y, st) && !NilWait(y, st)
    ensures
      OnOffer(Do(opts, y, st)) + (if st.Rendezvous? then 1 else 0)
      == OnOffer(y) + if st.FetchStore? && Offers(y, st) then 1 else 0
  {
    hide Measured;
  }

  /** While callers sleep, the wakeups given are the batches queued, but for the one still on offer. */
  lemma {:induction false} OneWakePerBatch(opts: Option<BatchOptions>, y: System, steps: seq<Step>, z: System)
    requires Inv(y) && Run(opts, y, steps, z)
    ensures Rendezvouses(steps) + OnOffer(z) == Queued(opts, y, steps) + OnOffer(y)
    decreases |steps|
  {
    hide Inv, Enabled, Do, NilWait, Offers, OnOffer;
    if steps != [] {
      StepInv(opts, y, steps[0]);
      InvParts(y);
      OfferStep(opts, y, steps[0]);
      OneWakePerBatch(opts, Do(opts, y, steps[0]), steps[1..], z);
    }
  }

  lemma {:induction false} RunSnoc(opts: Option<BatchOptions>, y: System, steps: seq<Step>, z: System, st: Step)
    requires Inv(y) && Run(opts, y, steps, z) && Enabled(opts, z, st) && !NilWait(z, st)
    ensures Run(opts, y, steps + [st], Do(opts, z, st))
    decreases |steps|
  {
    hide Inv, Enabled, Do, NilWait;
    if steps == [] {
      assert steps + [st] == [st] && [st][1..] == [];
    } else {
      StepInv(opts, y, steps[0]);
      RunSnoc(opts, Do(opts, y, steps[0]), steps[1..], z, st);
      assert (steps + [st])[1..] == steps[1..] + [st];
    }
  }

  lemma Further(opts: Option<BatchOptions>, y: System, steps: seq<Step>, st: Step) returns (z: System, more: seq<Step>)
    requires Reachable(opts, y, steps) && Enabled(opts, y, st) && !NilWait(y, st)
    ensures z == Do(opts, y, st) && more == steps + [st] && Reachable(opts, z, more)
  {
    z, more := Do(opts, y, st), steps + [st];
    assert Inv(START);
    hide Inv, Enabled, Do, NilWait, Run;
    RunSnoc(opts, START, steps, y, st);
  }

  lemma FetchStarted(opts: Option<BatchOptions>, batches: nat) returns (y: System, steps: seq<Step>)
    ensures Reachable(opts, y, steps) && y.s.q == [] && y.s.err == None && y.s.waitc == Some(0) && y.s.closed == {}
    ensures y.fetch == NewFetch(batches) && y.callers == map[0 := Waiting(0)] && y.delivered == [] == y.arrived
  {
    hide Measured;
    assert Run(opts, START, [], START);
    y, steps := Further(opts, START, [], Receive(0, false, 0.0, batches));
  }

  /** A batch arrives and is held by the fetch goroutine. */
  lemma BatchHeld(opts: Option<BatchOptions>, y: System, steps: seq<Step>, msgs: seq<Message>)
    returns (z: System, more: seq<Step>)
    requires Reachable(opts, y, steps) && y.fetch.Live? && y.fetch.inDriver > 0 && y.fetch.got == []
    requires y.fetch.buffer == []
    requires y.fetch.capacity > 0 && y.fetch.at == Ranging
    ensures Reachable(opts, z, more)
    ensures z
      == y.(fetch := y.fetch.(inDriver := y.fetch.inDriver - 1, at := Holding(Msgs(msgs))), arrived := y.arrived + msgs)
  {
    hide Reachable;
    var a, b;
    a, b := Further(opts, y, steps, DriverReturns(msgs));
    assert a.fetch.got == [msgs];
    a, b := Further(opts, a, b, WorkerSend(0));
    assert a.fetch.got == [] && a.fetch.buffer == [Msgs(msgs)];
    z, more := Further(opts, a, b, FetchPop);
    assert z.fetch.buffer == [] && z.fetch.got == [];
  }

  /** Two callers wait; a batch of two messages wakes the first, which takes one. The other sleeps beside the
      second message for as long as the fetch is inside the driver. */
  lemma AsleepExample(opts: Option<BatchOptions>) returns (y: System, steps: seq<Step>)
    ensures Reachable(opts, y, steps) && CallerAt(y, 1).Waiting? && y.s.q == [6] && InsideDriver(y.fetch)
    ensures SleepsUntilOffer(opts, y, 1)
  {
    hide Reachable, Measured, SleepsUntilOffer;
    y, steps := FetchStarted(opts, 2);
    y, steps := Further(opts, y, steps, Receive(1, false, 0.0, 0));
    y, steps := BatchHeld(opts, y, steps, [5, 6]);
    y, steps := Further(opts, y, steps, FetchStore);
    y, steps := Further(opts, y, steps, Rendezvous(0));
    y, steps := Further(opts, y, steps, Receive(0, false, 0.0, 0));
    AsleepIff(opts, y, steps, 1);
  }

  // ---------------------------------------------------------------- a wakeup that nobody takes

  /** The fetch goroutine never gets past its offer. */
  ghost predicate Stuck(opts: Option<BatchOptions>, y: System) {
    forall steps: seq<Step>, z: System :: Run(opts, y, steps, z) ==> z.fetch.Live? && z.fetch.at == Notifying
  }

  /** A caller waits for the fetch in progress. */
  ghost predicate SomeoneWaits(y: System) {
    y.s.waitc.Some? && exists i: nat :: WaitsOn(y, i, y.s.waitc.value)
  }

  ghost predicate Deserted(y: System) {
    y.fetch.Live? && y.fetch.at == Notifying && y.s.err.Some? && !SomeoneWaits(y)
  }

  lemma DesertedStep(opts: Option<BatchOptions>, y: System, st: Step)
    requires FetchOk(y) && Deserted(y) && Enabled(opts, y, st) && !NilWait(y, st)
    ensures Deserted(Do(opts, y, st))
  {
    hide Measured;
    var z := Do(opts, y, st);
    assert z.s.waitc == y.s.waitc;
    forall i: nat ensures !WaitsOn(z, i, y.s.waitc.value) {
      assert !WaitsOn(y, i, y.s.waitc.value);
    }
  }

  lemma {:induction false} DesertedRun(opts: Option<BatchOptions>, y: System, steps: seq<Step>, z: System)
    requires Inv(y) && Deserted(y) && Run(opts, y, steps, z)
    ensures Deserted(z)
    decreases |steps|
  {
    hide Inv, Deserted, Enabled, Do, NilWait, FetchOk;
    if steps != [] {
      StepInv(opts, y, steps[0]);
      InvParts(y);
      DesertedStep(opts, y, steps[0]);
      DesertedRun(opts, Do(opts, y, steps[0]), steps[1..], z);
    }
  }

  lemma {:induction false} Unused(s: set<nat>) returns (n: nat)
    ensures forall i :: i in s ==> i < n
    decreases s
  {
    if s == {} {
      n := 0;
    } else {
      var x :| x in s;
      var m := Unused(s - {x});
      n := if m > x then m else x + 1;
      assert forall i :: i in s ==> i == x || i in s - {x};
    }
  }

  /** Without an error, a new caller drains the queue, then waits, and takes the offer. */
  lemma {:induction false} DrainThenWait(opts: Option<BatchOptions>, y: System, i: nat)
    returns (steps: seq<Step>, z: System)
    requires Inv(y) && y.fetch.Live? && y.fetch.at == Notifying && y.s.err == None && CallerAt(y, i) == Out
    ensures Run(opts, y, steps, z) && z.fetch.Live? && z.fetch.at == Ranging
    decreases |y.s.q|
  {
    InvParts(y);
    var st := Receive(i, false, 0.0, 0);
    StepInv(opts, y, st);
    var x := Do(opts, y, st);
    hide Measured, Inv;
    if y.s.q == [] {
      assert WaitsOn(x, i, x.s.waitc.value);
      z := Do(opts, x, Rendezvous(i));
      OneStepRun(opts, x, Rendezvous(i));
      steps := [st] + [Rendezvous(i)];
      assert steps[1..] == [Rendezvous(i)];
    } else {
      var rest;
      rest, z := DrainThenWait(opts, x, i);
      steps := [st] + rest;
      assert steps[1..] == rest;
    }
  }

  /** A fetch that offers a wakeup is stuck for ever exactly when the subscription has an error and nobody waits:
      from then on every caller returns that error, and nobody will wait again. */
  lemma StuckIff(opts: Option<BatchOptions>, y: System, before: seq<Step>)
    requires Reachable(opts, y, before) && y.fetch.Live? && y.fetch.at == Notifying
    ensures Stuck(opts, y) <==> y.s.err.Some? && !SomeoneWaits(y)
  {
    ReachableInv(opts, y, before);
    InvParts(y);
    hide Reachable, Inv, Run;
    if y.s.err.Some? && !SomeoneWaits(y) {
      forall steps: seq<Step>, z: System | Run(opts, y, steps, z) ensures z.fetch.Live? && z.fetch.at == Notifying {
        DesertedRun(opts, y, steps, z);
      }
    } else if SomeoneWaits(y) {
      var i: nat :| WaitsOn(y, i, y.s.waitc.value);
      OneStepRun(opts, y, Rendezvous(i));
    } else {
      var i := Unused(y.callers.Keys);
      var steps, z := DrainThenWait(opts, y, i);
    }
  }

  /** That happens: the only caller's context ends, then its messages come, then an acknowledgement fails. */
  lemma StuckExample(opts: Option<BatchOptions>) returns (y: System, steps: seq<Step>)
    ensures Reachable(opts, y, steps) && y.fetch.Live? && Stuck(opts, y)
  {
    hide Reachable, Measured, Stuck;
    y, steps := FetchStarted(opts, 1);
    y, steps := BatchHeld(opts, y, steps, [5]);
    y, steps := Further(opts, y, steps, CtxEnds(0));
    y, steps := Further(opts, y, steps, FetchStore);
    y, steps := Further(opts, y, steps, AckFails(Ack(1)));
    StuckIff(opts, y, steps);
  }

  // ---------------------------------------------------------------- what one Receive does

  /** What comes first decides: the recorded error, then the context, then the queue. */
  lemma ReceiveMeans(s: Shared, ctxDone: bool, opts: Option<BatchOptions>, now: real)
    requires s.q == [] ==> s.waitc.Some? || StartsFetch(s)
    ensures
      var (t, o) := TopOfLoop(s, ctxDone, opts, now);
      (s.err.Some? ==> o == Failed(s.err.value) && t == s)
      && (s.err == None && ctxDone ==> o == CtxDone && t == s)
      && (s.err == None && !ctxDone && s.q != [] ==> o == Delivered(s.q[0]) && t.q == s.q[1..])
      && (s.err == None && !ctxDone && s.q == [] ==> t.q == [] && t.waitc.Some? && o == Wait(t.waitc.value))
      && t.err == s.err && t.closed == s.closed
  {
    hide Measured;
  }

  /** It starts a fetch, with a new channel to wait on, exactly when there is none and no more messages are queued
      than half of the running batch size. */
  lemma StartsFetchIff(s: Shared, opts: Option<BatchOptions>, now: real)
    requires s.q == [] ==> s.waitc.Some? || StartsFetch(s)
    requires s.err == None
    ensures
      var t := TopOfLoop(s, false, opts, now).0;
      if s.waitc == None && 2.0 * |s.q| as real <= s.rate.running then t.waitc == Some(s.next) && t.next == s.next + 1
      else t.waitc == s.waitc && t.next == s.next && t.rate.running == s.rate.running && t.rate.start == s.rate.start
  {
    hide Measured;
  }

  // ---------------------------------------------------------------- what the driver returned

  function Flat(batches: seq<seq<Message>>): multiset<Message> {
    if batches == [] then multiset{} else multiset(batches[0]) + Flat(batches[1..])
  }

  /** The messages of calls that returned, not yet sent on the result channel. */
  function Held(f: Fetch): multiset<Message> {
    if f.Idle? then multiset{} else Flat(f.got)
  }

  /** All messages that the driver returned in a run. */
  ghost function ReturnedAlong(steps: seq<Step>): multiset<Message> {
    if steps == [] then multiset{} else
      (if steps[0].DriverReturns? then multiset(steps[0].msgs) else multiset{}) + ReturnedAlong(steps[1..])
  }

  lemma {:induction false} FlatSnoc(batches: seq<seq<Message>>, b: seq<Message>)
    ensures Flat(batches + [b]) == Flat(batches) + multiset(b)
  {
    if batches == [] {
      assert batches + [b] == [b] && [b][1..] == [];
    } else {
      assert (batches + [b])[1..] == batches[1..] + [b];
      FlatSnoc(batches[1..], b);
    }
  }

  lemma {:induction false} FlatWithout(batches: seq<seq<Message>>, k: nat)
    requires k < |batches|
    ensures Flat(batches) == Flat(batches[..k] + batches[k+1..]) + multiset(batches[k])
  {
    var rest := batches[..k] + batches[k+1..];
    if k == 0 {
      assert rest == batches[1..];
    } else {
      FlatWithout(batches[1..], k - 1);
      assert rest[1..] == batches[1..][..k-1] + batches[1..][k..];
    }
  }

  /** The steps that change neither what was returned nor what was sent. */
  predicate MovesNone(st: Step) {
    !st.DriverReturns? && !st.WorkerSend? && !st.FetchClose? && !st.Receive?
  }

  lemma HeldSame(opts: Option<BatchOptions>, y: System, st: Step)
    requires Enabled(opts, y, st) && !NilWait(y, st) && MovesNone(st)
    ensures Do(opts, y, st).arrived == y.arrived && Held(Do(opts, y, st).fetch) == Held(y.fetch)
  {
    hide Flat;
  }

  lemma HeldNone(opts: Option<BatchOptions>, y: System, st: Step)
    requires FetchOk(y) && RoomOk(y) && Enabled(opts, y, st) && !NilWait(y, st) && (st.FetchClose? || st.Receive?)
    ensures Do(opts, y, st).arrived == y.arrived && Held(Do(opts, y, st).fetch) == Held(y.fetch)
  {
    hide Measured;
  }

  lemma HeldStep(opts: Option<BatchOptions>, y: System, st: Step)
    requires FetchOk(y) && RoomOk(y) && Enabled(opts, y, st) && !NilWait(y, st)
    ensures
      var z := Do(opts, y, st);
      multiset(z.arrived) + Held(z.fetch)
      == multiset(y.arrived) + Held(y.fetch) + if st.DriverReturns? then multiset(st.msgs) else multiset{}
  {
    if MovesNone(st) {
      HeldSame(opts, y, st);
      hide Do, Held;
    } else if st.FetchClose? || st.Receive? {
      HeldNone(opts, y, st);
      hide Do, Held;
    } else {
      hide Flat;
      if st.DriverReturns? { FlatSnoc(y.fetch.got, st.msgs); } else { FlatWithout(y.fetch.got, st.k); }
    }
  }

  lemma {:induction false} HeldRun(opts: Option<BatchOptions>, y: System, steps: seq<Step>, z: System)
    requires Inv(y) && Run(opts, y, steps, z)
    ensures multiset(z.arrived) + Held(z.fetch) == multiset(y.arrived) + Held(y.fetch) + ReturnedAlong(steps)
    decreases |steps|
  {
    hide FetchOk, CallersOk, RoomOk, OrderOk, Enabled, Do, NilWait, Held;
    if steps != [] {
      StepInv(opts, y, steps[0]);
      HeldStep(opts, y, steps[0]);
      HeldRun(opts, Do(opts, y, steps[0]), steps[1..], z);
    }
  }

  /** No message that the driver returned is lost or doubled: each was delivered, is queued, is on its way to the
      queue, or is about to be sent; when no fetch is live, each was delivered or is queued. */
  lemma NothingLost(opts: Option<BatchOptions>, y: System, steps: seq<Step>)
    requires Reachable(opts, y, steps)
    ensures multiset(y.delivered) + multiset(y.s.q) + multiset(InTransit(y.fetch)) + Held(y.fetch)
      == ReturnedAlong(steps)
    ensures y.fetch.Idle? ==> multiset(y.delivered) + multiset(y.s.q) == ReturnedAlong(steps)
  {
    ReachableInv(opts, y, steps);
    assert Inv(START) && START.arrived == [] && Held(START.fetch) == multiset{};
    hide Run, FetchOk, CallersOk, RoomOk, AllMsgs, Flat;
    HeldRun(opts, START, steps, y);
    assert multiset(y.arrived)
      == multiset(y.delivered) + multiset(y.s.q) + multiset(InTransit(y.fetch));
  }

  // ---------------------------------------------------------------- the first failure

  /** The error of a fetch is the first that one of its calls failed with, and that is what it sends and records. */
  lemma FirstFailure(opts: Option<BatchOptions>, y: System, steps: seq<Step>, st: Step)
    requires Reachable(opts, y, steps) && Enabled(opts, y, st) && y.fetch.Live?
    ensures !NilWait(y, st)
    ensures
      var z := Do(opts, y, st);
      (z.fetch.Live? ==>
        z.fetch.failed == if y.fetch.failed == None && st.DriverFails? then Some(st.e) else y.fetch.failed)
      && (st.GroupError? ==> y.fetch.failed.Some? && z.fetch.buffer == y.fetch.buffer + [Error(y.fetch.failed.value)])
      && (st.FetchStore? && y.fetch.at.item.Error? ==> z.s.err == Some(y.fetch.at.item.e))
  {
    ReachableInv(opts, y, steps);
    WaitsForSomething(y);
    hide Measured, AllMsgs, OrderOk, CallersOk, Reachable;
  }

  /** A call of the driver fails, and Receive reports it from then on. */
  lemma FailureExample(opts: Option<BatchOptions>) returns (y: System, steps: seq<Step>)
    ensures Reachable(opts, y, steps) && y.s.err == Some(Driver(5))
  {
    hide Reachable, Measured;
    y, steps := FetchStarted(opts, 1);
    y, steps := Further(opts, y, steps, DriverFails(Driver(5)));
    y, steps := Further(opts, y, steps, GroupError);
    y, steps := Further(opts, y, steps, FetchPop);
    y, steps := Further(opts, y, steps, FetchStore);
  }

  /** What may happen at any time: callers call and their contexts end, the driver returns anything or fails,
      acknowledgements fail, and the subscription is shut down. */
  lemma Free(opts: Option<BatchOptions>, y: System, i: nat, ctxDone: bool, now: real, batches: nat,
      msgs: seq<Message>, e: Err)
    ensures CallerAt(y, i).Waiting? ==> Enabled(opts, y, CtxEnds(i))
    ensures !CallerAt(y, i).Waiting? ==> Enabled(opts, y, Receive(i, ctxDone, now, batches))
    ensures y.fetch.Live? && y.fetch.inDriver > 0 ==>
      Enabled(opts, y, DriverReturns(msgs)) && Enabled(opts, y, DriverFails(e))
    ensures Enabled(opts, y, AckFails(e)) && Enabled(opts, y, ShutDown)
  {
  }

  // ---------------------------------------------------------------- the messages that are counted

  /** How many messages were delivered since the last measurement, which is made when a fetch starts, unless calls are
      for one message at a time. */
  ghost function Counted(opts: Option<BatchOptions>, y: System, steps: seq<Step>, before: nat): nat
    decreases |steps|
  {
    if steps == [] || !Enabled(opts, y, steps[0]) || NilWait(y, steps[0]) then before else
      var z := Do(opts, y, steps[0]);
      var oneAtATime := opts.Some? && opts.value == BatchOptions(1, 1);
      var kept := if z.s.next > y.s.next && !oneAtATime then 0 else before;
      Counted(opts, z, steps[1..], kept + if |z.delivered| > |y.delivered| then 1 else 0)
  }

  lemma CountStep(opts: Option<BatchOptions>, y: System, st: Step)
    requires Enabled(opts, y, st) && !NilWait(y, st)
    ensures
      var z := Do(opts, y, st);
      z.s.rate.count ==
        (if z.s.next > y.s.next && !(opts.Some? && opts.value == BatchOptions(1, 1)) then 0 else y.s.rate.count)
        + if |z.delivered| > |y.delivered| then 1 else 0
  {
  }

  lemma {:induction false} CountRun(opts: Option<BatchOptions>, y: System, steps: seq<Step>, z: System)
    requires Inv(y) && Run(opts, y, steps, z)
    ensures z.s.rate.count == Counted(opts, y, steps, y.s.rate.count)
    decreases |steps|
  {
    hide Inv, Enabled, Do, NilWait;
    if steps != [] {
      StepInv(opts, y, steps[0]);
      CountStep(opts, y, steps[0]);
      CountRun(opts, Do(opts, y, steps[0]), steps[1..], z);
    }
  }

  /** The count that the batch size is measured by is that of the messages delivered since the last measurement. */
  lemma CountsDelivered(opts: Option<BatchOptions>, y: System, steps: seq<Step>)
    requires Reachable(opts, y, steps)
    ensures y.s.rate.count == Counted(opts, START, steps, 0)
  {
    assert Inv(START);
    hide Inv, Run;
    CountRun(opts, START, steps, y);
  }
}
