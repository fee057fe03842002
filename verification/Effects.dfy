/** What a Commit call does to the store: to each of its actions, what that action would do alone. */
module Effects {
  import opened Wrappers
  import opened Mods
  import opened Actions
  import opened Commits

  ghost predicate AllSucceed(actions: seq<Action>, store: Store, unique: nat -> string, add: Add)
    requires AllEncode(actions)
  {
    forall a :: a in actions ==> Does(a, Doc(store, NameOf(a, unique)), add) != Fails
  }

  /** A document of the store after a call: the named action's result, or what was there. */
  ghost predicate After(store: Store, after: Store, a: Action, unique: nat -> string, now: nat, add: Add)
    requires Encodes(a)
  {
    var name := NameOf(a, unique);
    Does(a, Doc(store, name), add).Becomes?
    && Doc(after, name) == match Does(a, Doc(store, name), add).fields
       case None => None
       case Some(f) => Some(Entry(f, now))
  }

  ghost predicate Written(actions: seq<Action>, name: string, unique: nat -> string) {
    exists a :: a in actions && NameOf(a, unique) == name
  }

  ghost predicate AfterAll(store: Store, after: Store, actions: seq<Action>, unique: nat -> string, now: nat, add: Add)
    requires AllEncode(actions)
  {
    (forall a :: a in actions ==> After(store, after, a, unique, now, add))
    && forall name :: !Written(actions, name, unique) ==> Doc(after, name) == Doc(store, name)
  }

  lemma WritesSnoc(actions: seq<Action>, unique: nat -> string)
    requires AllEncode(actions) && actions != []
    ensures
      var init, last := actions[..|actions|-1], actions[|actions|-1];
      last in actions && AllEncode(init)
      && Writes(actions, unique) == Writes(init, unique) + WritesOf(last, NameOf(last, unique))
  {
  }

  lemma ElementsSnoc(actions: seq<Action>)
    requires actions != []
    ensures forall a :: a in actions <==> a in actions[..|actions|-1] || a == actions[|actions|-1]
  {
    assert actions == actions[..|actions|-1] + [actions[|actions|-1]];
  }

  /** The last action's name is not written by the others. */
  lemma LastName(actions: seq<Action>, unique: nat -> string)
    requires actions != [] && DistinctNames(actions, unique)
    ensures !Written(actions[..|actions|-1], NameOf(actions[|actions|-1], unique), unique)
    ensures DistinctNames(actions[..|actions|-1], unique)
  {
  }

  lemma AfterOne(store: Store, mid: Store, last: Action, init: seq<Action>, unique: nat -> string, now: nat, add: Add)
    requires AllEncode(init) && Encodes(last) && AfterAll(store, mid, init, unique, now, add)
    requires !Written(init, NameOf(last, unique), unique) && Does(last, Doc(store, NameOf(last, unique)), add).Becomes?
    ensures
      var name := NameOf(last, unique);
      var after := Updated(mid, name, Does(last, Doc(store, name), add).fields, now);
      AllEncode(init + [last]) && AfterAll(store, after, init + [last], unique, now, add)
  {
    hide Encodes, Does;
    var name := NameOf(last, unique);
    var after := Updated(mid, name, Does(last, Doc(store, name), add).fields, now);
    forall a | a in init + [last] ensures After(store, after, a, unique, now, add) {
      if a in init { assert NameOf(a, unique) != name; }
    }
    forall n | !Written(init + [last], n, unique) ensures Doc(after, n) == Doc(store, n) {
      assert last in init + [last];
      assert forall a :: a in init ==> a in init + [last];
      assert !Written(init, n, unique);
    }
  }

  /** A call over distinct names succeeds exactly when each of its actions would succeed alone, and then
      leaves each document as that action alone would; every other document stays. */
  lemma {:induction false} CommitEffect(actions: seq<Action>, store: Store, unique: nat -> string, now: nat, add: Add)
    requires AllEncode(actions) && DistinctNames(actions, unique)
    ensures
      var after := ApplyWrites(store, Writes(actions, unique), now, add);
      (after.Some? <==> AllSucceed(actions, store, unique, add))
      && (after.Some? ==> AfterAll(store, after.value, actions, unique, now, add))
    decreases |actions|
  {
    hide Encodes, Does, Writes, WritesOf, Updated;
    if actions == [] {
      NoWrites(store, unique, now, add);
    } else {
      var init, last := actions[..|actions|-1], actions[|actions|-1];
      var name := NameOf(last, unique);
      WritesSnoc(actions, unique);
      ElementsSnoc(actions);
      LastName(actions, unique);
      ApplyConcat(store, Writes(init, unique), WritesOf(last, name), now, add);
      CommitEffect(init, store, unique, now, add);
      assert AllSucceed(actions, store, unique, add) <==>
        AllSucceed(init, store, unique, add) && Does(last, Doc(store, name), add) != Fails;
      var mid := ApplyWrites(store, Writes(init, unique), now, add);
      if mid.Some? {
        ActionMeaning(last, name, mid.value, now, add);
        assert Doc(mid.value, name) == Doc(store, name);
        if Does(last, Doc(store, name), add).Becomes? {
          AfterOne(store, mid.value, last, init, unique, now, add);
          assert init + [last] == actions;
        }
      }
    }
  }

  lemma NoWrites(store: Store, unique: nat -> string, now: nat, add: Add)
    ensures ApplyWrites(store, Writes([], unique), now, add) == Some(store)
    ensures AfterAll(store, store, [], unique, now, add)
  {
  }

  /** Each ordinary write gets the outcome it would have alone: whatever the store, its call succeeds exactly
      when the write would, since a call is shared only by writes that cannot fail. */
  lemma OrdinaryOutcome(actions: seq<Action>, call: CommitCall, a: Action, store: Store, unique: nat -> string,
      now: nat, add: Add)
    requires DistinctNames(actions, unique)
    requires
      var n := Sendable(actions, false);
      call in Singles(Sendable(actions, true), unique) + (if n == [] then [] else [CallFor(n, unique)])
    requires a in call.actions
    ensures Encodes(a)
    ensures
      var after := ApplyWrites(store, call.writes, now, add);
      (after.Some? <==> Does(a, Doc(store, NameOf(a, unique)), add) != Fails)
      && (after.Some? ==> After(store, after.value, a, unique, now, add))
  {
    hide Encodes, Does, WritesOf, After, CanFail;
    var n := Sendable(actions, false);
    if call in Singles(Sendable(actions, true), unique) {
      assert call == CallFor([a], unique);
      CommitEffect([a], store, unique, now, add);
    } else {
      SendableDistinct(actions, false, unique);
      CommitEffect(n, store, unique, now, add);
      forall b | b in n ensures Does(b, Doc(store, NameOf(b, unique)), add) != Fails {
        CannotFail(b, Doc(store, NameOf(b, unique)), add);
      }
    }
  }

  ghost predicate OnlyIn(calls: seq<CommitCall>, a: Action, k: nat) {
    k < |calls| && a in calls[k].actions && forall l :: 0 <= l < |calls| && a in calls[l].actions ==> l == k
  }

  /** Every ordinary write that can be sent is in exactly one call. */
  lemma InOneCall(actions: seq<Action>, a: Action, unique: nat -> string) returns (k: nat)
    requires a in actions && Encodes(a) && DistinctNames(actions, unique)
    ensures
      var n := Sendable(actions, false);
      OnlyIn(Singles(Sendable(actions, true), unique) + (if n == [] then [] else [CallFor(n, unique)]), a, k)
  {
    hide Encodes, WritesOf, CanFail, Writes, Sendable;
    var p, n := Sendable(actions, true), Sendable(actions, false);
    var calls := Singles(p, unique) + if n == [] then [] else [CallFor(n, unique)];
    SendableDistinct(actions, true, unique);
    forall l | 0 <= l < |p| ensures a in calls[l].actions <==> p[l] == a {
      assert calls[l].actions == [p[l]];
    }
    if CanFail(a) {
      k :| 0 <= k < |p| && p[k] == a;
    } else {
      k := |p|;
      assert forall l :: 0 <= l < |p| ==> p[l] in p && p[l] != a;
    }
  }

  lemma {:induction false} SendableDistinct(actions: seq<Action>, canFail: bool, unique: nat -> string)
    requires DistinctNames(actions, unique)
    ensures DistinctNames(Sendable(actions, canFail), unique)
  {
    hide Encodes, CanFail;
    if actions != [] {
      LastName(actions, unique);
      SendableDistinct(actions[..|actions|-1], canFail, unique);
    }
  }
}
