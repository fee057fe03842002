/** Plans for RunActions of docstore/gcpfirestore/fs.go, and what one Commit call of a plan does,
    whenever it happens. */
module Schedule {
  import opened Wrappers
  import opened Actions
  import opened Commits
  import opened Effects
  import opened Reference

  // ---------------------------------------------------------------- plans

  /** A grouped list: the actions of each Commit call, and the most activities at once, if positive. */
  datatype Plan = Plan(l: ActionList, calls: seq<seq<Action>>, limit: int)

  /** The actions of a call are sendable writes of the list with names of their own. */
  ghost predicate FromList(p: Plan, c: nat)
    requires c < |p.calls|
  {
    AllEncode(p.calls[c]) && DistinctNames(p.calls[c], p.l.unique)
    && forall a :: a in p.calls[c] ==> a.index < |p.l.as_| && p.l.as_[a.index] == a && !IsGet(a)
  }

  /** A call is one ordinary write, or ordinary writes that cannot fail, or the whole transaction. */
  ghost predicate Sorted3(p: Plan, c: nat)
    requires c < |p.calls| && AllEncode(p.calls[c])
  {
    (|p.calls[c]| == 1 && !KeyedAtomic(p.calls[c][0]))
    || (forall a :: a in p.calls[c] ==> !CanFail(a) && !KeyedAtomic(a))
    || forall i :: 0 <= i < |p.l.as_| ==> (p.l.as_[i] in p.calls[c] <==> KeyedAtomic(p.l.as_[i]))
  }

  ghost predicate InCall(p: Plan, c: nat, i: nat) {
    c < |p.calls| && i < |p.l.as_| && p.l.as_[i] in p.calls[c]
  }

  /** What goes wrong with a call goes wrong with all its actions. */
  ghost predicate SharedFate(p: Plan) {
    forall c: nat, i: nat, j: nat :: InCall(p, c, i) && InCall(p, c, j) ==>
      (i in p.l.dropped <==> j in p.l.dropped) && (i in p.l.unheard <==> j in p.l.unheard)
  }

  ghost predicate GoodPlan(p: Plan) {
    GoodList(p.l) && SharedFate(p)
    && (forall c :: 0 <= c < |p.calls| ==> FromList(p, c) && Sorted3(p, c))
    && (forall i: nat :: Sent(p.l, i) ==> exists c: nat :: InCall(p, c, i))
    && forall c: nat, d: nat, i: nat :: InCall(p, c, i) && InCall(p, d, i) ==> c == d
  }

  /** The call never reaches the service. */
  ghost predicate Dropped(p: Plan, c: nat) {
    exists i: nat :: InCall(p, c, i) && i in p.l.dropped
  }

  ghost function CallIndices(p: Plan, c: nat): set<nat> {
    set i: nat | i < |p.l.as_| && InCall(p, c, i)
  }

  /** The writes of these calls. */
  ghost function WritesIn(p: Plan, calls: set<nat>): set<nat> {
    set i: nat | i < |p.l.as_| && InSome(p, calls, i)
  }

  ghost predicate InSome(p: Plan, calls: set<nat>, i: nat) {
    exists c :: c in calls && InCall(p, c, i)
  }

  ghost predicate Tx(p: Plan, s0: Store) {
    TxSucceeds(p.l, s0)
  }

  // ---------------------------------------------------------------- one commit

  lemma InCallWrites(p: Plan, c: nat, i: nat)
    requires GoodPlan(p) && InCall(p, c, i)
    ensures Sent(p.l, i) && FromList(p, c)
  {
    hide Encodes, Does, GoodList, CanFail, SharedFate;
    assert FromList(p, c) && Sorted3(p, c);
    if KeyedAtomic(p.l.as_[i]) {
      assert forall j :: 0 <= j < |p.l.as_| && KeyedAtomic(p.l.as_[j]) ==> Encodes(p.l.as_[j]);
    }
  }

  /** All writes of a call take effect, or none does. */
  lemma AllOrNone(p: Plan, s0: Store, c: nat, i: nat)
    requires GoodPlan(p) && InCall(p, c, i)
    ensures IsWrite(p.l, i) && AllEncode(p.calls[c])
    ensures TakesEffect(p.l, s0, Tx(p, s0), i) <==> !Dropped(p, c) && AllSucceed(p.calls[c], s0, p.l.unique, p.l.add)
  {
    hide Encodes, Does, CanFail, GoodList, PassedOver;
    InCallWrites(p, c, i);
    assert Dropped(p, c) <==> i in p.l.dropped;
    var a := p.l.as_[i];
    if |p.calls[c]| == 1 && !KeyedAtomic(p.calls[c][0]) {
      assert a == p.calls[c][0];
    } else if forall b :: b in p.calls[c] ==> !CanFail(b) && !KeyedAtomic(b) {
      forall b | b in p.calls[c] ensures Does(b, Doc(s0, NameOf(b, p.l.unique)), p.l.add) != Fails {
        CannotFail(b, Doc(s0, NameOf(b, p.l.unique)), p.l.add);
      }
    } else if !Dropped(p, c) {
      TransactionCall(p, s0, c);
      assert KeyedAtomic(a);
    }
  }

  lemma TransactionCall(p: Plan, s0: Store, c: nat)
    requires GoodPlan(p) && c < |p.calls| && FromList(p, c) && !Dropped(p, c)
    requires forall i :: 0 <= i < |p.l.as_| ==> (p.l.as_[i] in p.calls[c] <==> KeyedAtomic(p.l.as_[i]))
    ensures Tx(p, s0) <==> AllSucceed(p.calls[c], s0, p.l.unique, p.l.add)
  {
    hide Encodes, Does, PassedOver, SharedFate, Sorted3, GoodList;
    if Tx(p, s0) {
      forall a | a in p.calls[c] ensures Does(a, Doc(s0, NameOf(a, p.l.unique)), p.l.add) != Fails {
        assert p.l.as_[a.index] == a;
        assert InCall(p, c, a.index);
        InCallWrites(p, c, a.index);
        assert !Refuses(p.l, s0, a.index);
      }
    }
    if AllSucceed(p.calls[c], s0, p.l.unique, p.l.add) {
      forall i: nat | i < |p.l.as_| ensures !Refuses(p.l, s0, i) {}
    }
  }

  /** The documents of a call's writes are still as they were. */
  lemma CallUntouched(p: Plan, s0: Store, store: Store, done: set<nat>, c: nat)
    requires GoodPlan(p) && c < |p.calls| && StoreAfter(p.l, s0, Tx(p, s0), store, done) && done !! CallIndices(p, c)
    ensures forall a :: a in p.calls[c] ==> Doc(store, NameOf(a, p.l.unique)) == Doc(s0, NameOf(a, p.l.unique))
  {
    hide Encodes, Does, GoodList, DocAfter, Sorted3, NameIn;
    forall a | a in p.calls[c] ensures Doc(store, NameOf(a, p.l.unique)) == Doc(s0, NameOf(a, p.l.unique)) {
      assert FromList(p, c);
      assert InCall(p, c, a.index);
      NotYetNamed(p.l, a.index, done);
    }
  }

  /** A write of the call is a write of the list. */
  lemma WrittenIsNamed(p: Plan, c: nat, name: string)
    requires GoodPlan(p) && c < |p.calls|
    ensures Written(p.calls[c], name, p.l.unique) <==> NameIn(p.l, name, CallIndices(p, c))
  {
    hide Encodes, Does, GoodList, Sorted3;
    assert FromList(p, c);
    if Written(p.calls[c], name, p.l.unique) {
      var a :| a in p.calls[c] && NameOf(a, p.l.unique) == name;
      assert InCall(p, c, a.index);
      assert a.index in CallIndices(p, c);
    }
  }

  lemma NameInUnion(l: ActionList, name: string, a: set<nat>, b: set<nat>)
    ensures NameIn(l, name, a + b) <==> NameIn(l, name, a) || NameIn(l, name, b)
  {
    if NameIn(l, name, a) {
      var i :| i in a && i < |l.as_| && NameAt(l, i) == name;
      assert i in a + b;
    }
    if NameIn(l, name, b) {
      var i :| i in b && i < |l.as_| && NameAt(l, i) == name;
      assert i in a + b;
    }
  }

  /** The store after a successful call. */
  lemma CallDone(p: Plan, s0: Store, store: Store, done: set<nat>, c: nat, after: Store, now: nat)
    requires GoodPlan(p) && c < |p.calls| && StoreAfter(p.l, s0, Tx(p, s0), store, done) && done !! CallIndices(p, c)
    requires AllEncode(p.calls[c]) && AfterAll(store, after, p.calls[c], p.l.unique, now, p.l.add)
    requires AllSucceed(p.calls[c], s0, p.l.unique, p.l.add) && !Dropped(p, c)
    ensures StoreAfter(p.l, s0, Tx(p, s0), after, done + CallIndices(p, c))
  {
    hide Encodes, Does, GoodList, Sorted3, SharedFate, Dropped, PassedOver, NameIn, Written, AllSucceed, TakesEffect,
      Tx;
    CallUntouched(p, s0, store, done, c);
    forall name { WrittenIsNamed(p, c, name); }
    forall i | i in done + CallIndices(p, c)
      ensures IsWrite(p.l, i) && FieldsOf(Doc(after, NameAt(p.l, i))) == DocAfter(p.l, s0, Tx(p, s0), i)
    {
      if i in done {
        NotInCall(p, c, done, i);
      } else {
        InCallWrites(p, c, i);
        AllOrNone(p, s0, c, i);
        assert After(store, after, p.l.as_[i], p.l.unique, now, p.l.add);
      }
    }
    forall name | !NameIn(p.l, name, done + CallIndices(p, c)) ensures Doc(after, name) == Doc(s0, name) {
      NameInUnion(p.l, name, done, CallIndices(p, c));
    }
  }

  lemma NotInCall(p: Plan, c: nat, done: set<nat>, i: nat)
    requires GoodPlan(p) && c < |p.calls| && done !! CallIndices(p, c) && i in done && IsWrite(p.l, i)
    ensures !NameIn(p.l, NameAt(p.l, i), CallIndices(p, c))
  {
    hide Encodes, Does, GoodList, Sorted3;
    forall j | j in CallIndices(p, c) && j < |p.l.as_| ensures NameAt(p.l, j) != NameAt(p.l, i) {
      InCallWrites(p, c, j);
      if NameAt(p.l, j) == NameAt(p.l, i) { OneWrite(p.l, i, j); }
    }
  }

  /** What a call leaves of the store: nothing new if it is dropped or refused. */
  ghost function Effect(p: Plan, store: Store, c: nat, now: nat): Option<Store>
    requires c < |p.calls| && AllEncode(p.calls[c])
  {
    if Dropped(p, c) then None else ApplyWrites(store, Writes(p.calls[c], p.l.unique), now, p.l.add)
  }

  /** A commit, whenever it happens, gives each of its writes the expected result, and the store the
      expected documents. */
  lemma CommitStep(p: Plan, s0: Store, store: Store, done: set<nat>, c: nat, now: nat)
    requires GoodPlan(p) && c < |p.calls| && StoreAfter(p.l, s0, Tx(p, s0), store, done) && done !! CallIndices(p, c)
    ensures AllEncode(p.calls[c])
    ensures
      var after := Effect(p, store, c, now);
      StoreAfter(p.l, s0, Tx(p, s0), if after.Some? then after.value else store, done + CallIndices(p, c))
      && forall i :: InCall(p, c, i) ==>
        Expected(p.l, s0, Tx(p, s0), i) == Heard(p.l, i, if after.Some? then Wrote else NotWritten)
  {
    hide Encodes, Does, GoodList, Sorted3, SharedFate, Dropped, PassedOver, StoreAfter, Writes, ApplyWrites,
      DistinctNames, TakesEffect, DocAfter, Tx, AfterAll;
    assert FromList(p, c);
    var actions := p.calls[c];
    CommitEffect(actions, store, p.l.unique, now, p.l.add);
    CallUntouched(p, s0, store, done, c);
    assert AllSucceed(actions, store, p.l.unique, p.l.add) <==> AllSucceed(actions, s0, p.l.unique, p.l.add);
    var after := Effect(p, store, c, now);
    forall i: nat | InCall(p, c, i) ensures Sent(p.l, i) && (TakesEffect(p.l, s0, Tx(p, s0), i) <==> after.Some?) {
      InCallWrites(p, c, i);
      AllOrNone(p, s0, c, i);
    }
    if after.Some? {
      CallDone(p, s0, store, done, c, after.value, now);
    } else {
      CallRefused(p, s0, store, done, c);
    }
  }

  /** The store after a failed call. */
  lemma CallRefused(p: Plan, s0: Store, store: Store, done: set<nat>, c: nat)
    requires GoodPlan(p) && c < |p.calls| && StoreAfter(p.l, s0, Tx(p, s0), store, done) && done !! CallIndices(p, c)
    requires AllEncode(p.calls[c]) && (Dropped(p, c) || !AllSucceed(p.calls[c], s0, p.l.unique, p.l.add))
    ensures StoreAfter(p.l, s0, Tx(p, s0), store, done + CallIndices(p, c))
  {
    hide Encodes, Does, GoodList, Sorted3, SharedFate, Dropped, PassedOver, NameIn, AllSucceed, TakesEffect, Tx;
    CallUntouched(p, s0, store, done, c);
    forall i | i in done + CallIndices(p, c)
      ensures IsWrite(p.l, i) && FieldsOf(Doc(store, NameAt(p.l, i))) == DocAfter(p.l, s0, Tx(p, s0), i)
    {
      if i !in done {
        InCallWrites(p, c, i);
        AllOrNone(p, s0, c, i);
      }
    }
    forall name | !NameIn(p.l, name, done + CallIndices(p, c)) ensures Doc(store, name) == Doc(s0, name) {
      NameInUnion(p.l, name, done, CallIndices(p, c));
    }
  }
}
