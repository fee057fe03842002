/** The start of RunActions in docstore/gcpfirestore/fs.go: grouping a list and building its calls gives a good plan. */
module Prepare {
  import opened Wrappers
  import opened Mods
  import opened Actions
  import opened Grouping
  import opened Commits
  import opened Effects
  import opened Reference
  import opened Schedule
  import R = RunActions

  ghost function Ordinary(l: ActionList): seq<Action> {
    Group(l.as_, |l.as_|, PlainWrite) + Group(l.as_, |l.as_|, KeylessWrite)
  }

  ghost function Transaction(l: ActionList): seq<Action> {
    Group(l.as_, |l.as_|, AtomicWrite)
  }

  ghost function SingleActions(s: seq<Action>): (r: seq<seq<Action>>)
    ensures |r| == |s| && forall i :: 0 <= i < |r| ==> r[i] == [s[i]]
  {
    seq(|s|, i requires 0 <= i < |s| => [s[i]])
  }

  ghost function OrdinaryCalls(l: ActionList): seq<seq<Action>> {
    var n := Sendable(Ordinary(l), false);
    SingleActions(Sendable(Ordinary(l), true)) + if n == [] then [] else [n]
  }

  ghost function PlanOf(l: ActionList, limit: int): Plan {
    var t := Transaction(l);
    Plan(l, OrdinaryCalls(l) + (if t != [] && AllEncode(t) then [t] else []), limit)
  }

  ghost predicate OfList(l: ActionList, s: seq<Action>) {
    forall a :: a in s ==> a.index < |l.as_| && l.as_[a.index] == a && !IsGet(a)
  }

  /** What is in the groups of writes. */
  lemma InWriteGroups(l: ActionList, i: nat)
    requires GoodList(l) && i < |l.as_|
    ensures l.as_[i] in Ordinary(l) <==> IsWrite(l, i) && !KeyedAtomic(l.as_[i])
    ensures l.as_[i] in Transaction(l) <==> KeyedAtomic(l.as_[i])
  {
    var n := |l.as_|;
    assert forall j :: 0 <= j < n && l.as_[j] == l.as_[i] ==> j == i;
  }

  lemma GroupOfList(l: ActionList, c: Class)
    requires GoodList(l) && c in {PlainWrite, KeylessWrite, AtomicWrite}
    ensures OfList(l, Group(l.as_, |l.as_|, c)) && DistinctIndices(Group(l.as_, |l.as_|, c))
    ensures forall a :: a in Group(l.as_, |l.as_|, c) ==> (a.key == None <==> c == KeylessWrite)
  {
    var n := |l.as_|;
    GroupAscending(l.as_, n, n, c);
    forall a | a in Group(l.as_, n, c)
      ensures a.index < n && l.as_[a.index] == a && !IsGet(a) && (a.key == None <==> c == KeylessWrite)
    {
      var j :| 0 <= j < n && ClassOf(l.as_, n, j) == c && l.as_[j] == a;
    }
  }

  lemma TransactionAscending(l: ActionList)
    requires GoodList(l)
    ensures Ascending(Transaction(l))
  {
    GroupAscending(l.as_, |l.as_|, |l.as_|, AtomicWrite);
  }

  lemma ComesBefore(s: seq<Action>, k: nat, f: nat)
    requires Ascending(s) && k < |s| && f < |s| && s[k].index < s[f].index
    ensures k < f
  {
  }

  /** The first bad write of the transaction's group is the first in the list. */
  lemma FirstBadOfList(l: ActionList)
    requires GoodList(l) && !AllEncode(Transaction(l))
    ensures FirstUnsendable(l, Transaction(l)[FirstBad(Transaction(l))].index)
  {
    hide Encodes, GoodList, Group;
    var t := Transaction(l);
    var f := FirstBad(t);
    TransactionAscending(l);
    GroupOfList(l, AtomicWrite);
    InWriteGroups(l, t[f].index);
    assert t[f] in t;
    forall j | 0 <= j < t[f].index && KeyedAtomic(l.as_[j]) ensures Encodes(l.as_[j]) {
      InWriteGroups(l, j);
      IndexIs(l, j);
      var k :| 0 <= k < |t| && t[k] == l.as_[j];
      ComesBefore(t, k, f);
      assert t[k] in t[..f];
    }
  }

  lemma OneFirst(l: ActionList, i: nat, j: nat)
    requires FirstUnsendable(l, i) && FirstUnsendable(l, j)
    ensures i == j
  {
    hide Encodes;
  }

  /** The writes that are sent are those of the calls: the whole transaction, or nothing of it. */
  lemma TransactionSent(l: ActionList, i: nat)
    requires GoodList(l) && IsWrite(l, i) && KeyedAtomic(l.as_[i])
    ensures Sent(l, i) <==> AllEncode(Transaction(l))
    ensures !AllEncode(Transaction(l)) ==>
      (PassedOver(l, i) <==> i != Transaction(l)[FirstBad(Transaction(l))].index)
  {
    hide Encodes, Group, GoodList;
    var t := Transaction(l);
    InWriteGroups(l, i);
    if AllEncode(t) {
      if PassedOver(l, i) {
        var j: nat :| FirstUnsendable(l, j) && j != i;
        InWriteGroups(l, j);
      }
    } else {
      var f := t[FirstBad(t)].index;
      FirstBadOfList(l);
      if PassedOver(l, i) {
        var j: nat :| FirstUnsendable(l, j) && j != i;
        OneFirst(l, j, f);
      }
    }
  }

  /** Some write is passed over exactly when two or more keyed atomic writes include one that cannot be sent. */
  lemma WhenPassedOver(l: ActionList)
    requires GoodList(l)
    ensures (exists i: nat :: PassedOver(l, i)) <==> !AllEncode(Transaction(l)) && |Transaction(l)| > 1
  {
    hide Encodes, Group, GoodList, PassedOver;
    var t := Transaction(l);
    if i: nat :| PassedOver(l, i) {
      assert KeyedAtomic(l.as_[i]) by { assert PassedOver(l, i); KeyedIfPassed(l, i); }
      TransactionSent(l, i);
      InWriteGroups(l, i);
      if |t| <= 1 {
        GroupsOfList(l);
        IndexIs(l, i);
      }
    }
    if !AllEncode(t) && |t| > 1 {
      var k := if FirstBad(t) == 0 then 1 else 0;
      assert t[k] in t && t[FirstBad(t)] in t;
      GroupsOfList(l);
      InWriteGroups(l, t[k].index);
      TransactionSent(l, t[k].index);
    }
  }

  lemma KeyedIfPassed(l: ActionList, i: nat)
    requires PassedOver(l, i)
    ensures IsWrite(l, i) && KeyedAtomic(l.as_[i]) && !Sent(l, i)
  {
  }

  lemma GroupsOfList(l: ActionList)
    requires GoodList(l)
    ensures OfList(l, Ordinary(l)) && OfList(l, Transaction(l))
    ensures DistinctNames(Ordinary(l), l.unique) && DistinctNames(Transaction(l), l.unique)
    ensures DistinctIndices(Ordinary(l)) && DistinctIndices(Transaction(l))
  {
    hide GoodList, Group;
    GroupOfList(l, PlainWrite);
    GroupOfList(l, KeylessWrite);
    GroupOfList(l, AtomicWrite);
    var a, b := Group(l.as_, |l.as_|, PlainWrite), Group(l.as_, |l.as_|, KeylessWrite);
    forall i, j | 0 <= i < |a| && 0 <= j < |b| ensures a[i].index != b[j].index {
      assert a[i] in a && b[j] in b;
    }
    IndicesToNames(l, Ordinary(l));
    IndicesToNames(l, Transaction(l));
  }

  lemma IndicesToNames(l: ActionList, s: seq<Action>)
    requires GoodList(l) && OfList(l, s) && DistinctIndices(s)
    ensures DistinctNames(s, l.unique)
  {
    hide GoodList;
    forall i, j | 0 <= i < j < |s| ensures NameOf(s[i], l.unique) != NameOf(s[j], l.unique) {
      assert s[i] in s && s[j] in s;
      if NameOf(s[i], l.unique) == NameOf(s[j], l.unique) { OneWrite(l, s[i].index, s[j].index); }
    }
  }

  lemma OrdinaryCall(l: ActionList, limit: int, c: nat)
    requires GoodList(l) && c < |OrdinaryCalls(l)|
    ensures
      var p := PlanOf(l, limit);
      p.calls[c] == OrdinaryCalls(l)[c] && FromList(p, c) && Sorted3(p, c)
      && forall a :: a in p.calls[c] ==> a in Ordinary(l)
  {
    hide Encodes, CanFail, Group, GoodList;
    GroupsOfList(l);
    var w := Ordinary(l);
    SendableDistinct(w, false, l.unique);
    forall a | a in w ensures !KeyedAtomic(a) { InWriteGroups(l, a.index); }
  }

  lemma TransactionLast(l: ActionList, limit: int)
    requires GoodList(l) && Transaction(l) != [] && AllEncode(Transaction(l))
    ensures
      var p, c := PlanOf(l, limit), |OrdinaryCalls(l)|;
      |p.calls| == c + 1 && p.calls[c] == Transaction(l) && FromList(p, c) && Sorted3(p, c)
  {
    hide Encodes, CanFail, Group, GoodList;
    GroupsOfList(l);
    forall i: nat | i < |l.as_| ensures l.as_[i] in Transaction(l) <==> KeyedAtomic(l.as_[i]) { InWriteGroups(l, i); }
  }

  lemma EveryWriteInACall(l: ActionList, limit: int, i: nat) returns (c: nat)
    requires GoodList(l) && Sent(l, i)
    ensures InCall(PlanOf(l, limit), c, i)
    ensures c < |OrdinaryCalls(l)| <==> !KeyedAtomic(l.as_[i])
  {
    hide Encodes, CanFail, Group, GoodList;
    var a, p := l.as_[i], PlanOf(l, limit);
    InWriteGroups(l, i);
    if KeyedAtomic(a) {
      c := |OrdinaryCalls(l)|;
      TransactionSent(l, i);
      TransactionLast(l, limit);
    } else {
      GroupsOfList(l);
      var w := Ordinary(l);
      var k := InOneCall(w, a, l.unique);
      c := k;
      OrdinarySame(l, c);
    }
  }

  /** The calls that the builder makes are those of the plan. */
  lemma OrdinarySame(l: ActionList, c: nat)
    ensures
      var w := Ordinary(l);
      var n := Sendable(w, false);
      var calls := Singles(Sendable(w, true), l.unique) + if n == [] then [] else [CallFor(n, l.unique)];
      |calls| == |OrdinaryCalls(l)|
      && (c < |calls| ==> AllEncode(OrdinaryCalls(l)[c]))
      && (c < |calls| ==> calls[c] == CallFor(OrdinaryCalls(l)[c], l.unique) && calls[c].actions == OrdinaryCalls(l)[c])
  {
    hide Encodes, CanFail, Group, Writes;
  }

  lemma OneCallOnly(l: ActionList, limit: int, c: nat, d: nat, i: nat)
    requires GoodList(l) && InCall(PlanOf(l, limit), c, i) && InCall(PlanOf(l, limit), d, i)
    ensures c == d
  {
    hide Encodes, CanFail, Group, GoodList, FromList, Sorted3;
    var a, p, m := l.as_[i], PlanOf(l, limit), |OrdinaryCalls(l)|;
    InWriteGroups(l, i);
    if c < m { OrdinaryCall(l, limit, c); }
    if d < m { OrdinaryCall(l, limit, d); }
    if c < m && d < m {
      GroupsOfList(l);
      OrdinarySame(l, c);
      OrdinarySame(l, d);
      var w := Ordinary(l);
      var k := InOneCall(w, a, l.unique);
    }
  }

  /** Grouping and building calls gives a good plan, also when the transaction cannot be sent. */
  lemma PlanGood(l: ActionList, limit: int)
    requires GoodList(l) && SharedFate(PlanOf(l, limit))
    ensures GoodPlan(PlanOf(l, limit))
  {
    hide Encodes, CanFail, GoodList, Sorted3, OrdinaryCalls, Transaction, PassedOver, SharedFate, DistinctNames;
    var p := PlanOf(l, limit);
    forall c | 0 <= c < |p.calls| ensures FromList(p, c) && Sorted3(p, c) {
      if c < |OrdinaryCalls(l)| { OrdinaryCall(l, limit, c); } else { TransactionLast(l, limit); }
    }
    forall i: nat | Sent(p.l, i) ensures exists c: nat :: InCall(p, c, i) {
      var c := EveryWriteInACall(l, limit, i);
    }
    forall c: nat, d: nat, i: nat | InCall(p, c, i) && InCall(p, d, i) ensures c == d {
      OneCallOnly(l, limit, c, d, i);
    }
  }

  lemma WriteGroups(l: ActionList)
    requires GoodList(l)
    ensures IndicesFit(Ordinary(l), |l.as_|) && IndicesFit(Transaction(l), |l.as_|)
    ensures forall a :: a in Ordinary(l) && a.kind == Update ==> GoodMods(a.mods)
    ensures forall a :: a in Transaction(l) && a.kind == Update ==> GoodMods(a.mods)
  {
    hide Group, GoodMods;
    GroupsOfList(l);
    GoodListUpdates(l);
  }

  lemma GoodListUpdates(l: ActionList)
    requires GoodList(l)
    ensures WellFormed(l.as_)
    ensures forall i :: 0 <= i < |l.as_| && l.as_[i].kind == Update ==> GoodMods(l.as_[i].mods)
  {
  }

  /** The error that was found before any call. */
  ghost function FoundUnsendable(l: ActionList, i: nat): Option<Err>
    requires i < |l.as_|
  {
    if IsWrite(l, i) && !Encodes(l.as_[i]) && !PassedOver(l, i) then Some(BadDocument) else None
  }

  lemma ReportedAll(l: ActionList, e0: seq<Option<Err>>, e1: seq<Option<Err>>, e2: seq<Option<Err>>, i: nat)
    requires GoodList(l) && |e0| == |e1| == |e2| == |l.as_|
    requires (forall k :: 0 <= k < |e0| ==> e0[k] == None) && UnsendableReported(e0, e1, Ordinary(l))
    requires IndicesFit(Transaction(l), |l.as_|) && i < |l.as_|
    requires if AllEncode(Transaction(l)) then e2 == e1
      else e2 == e1[Transaction(l)[FirstBad(Transaction(l))].index := Some(BadDocument)]
    ensures e2[i] == FoundUnsendable(l, i)
  {
    hide Encodes, Group, GoodList, PassedOver;
    var a, t := l.as_[i], Transaction(l);
    InWriteGroups(l, i);
    GroupsOfList(l);
    IndexIs(l, i);
    if IsWrite(l, i) && KeyedAtomic(a) { TransactionSent(l, i); }
    if !AllEncode(t) {
      FirstBadOfList(l);
      assert t[FirstBad(t)] in t;
    }
    if PassedOver(l, i) { KeyedIfPassed(l, i); }
  }

  lemma IndexIs(l: ActionList, i: nat)
    requires GoodList(l) && i < |l.as_|
    ensures l.as_[i].index == i
  {
  }

  /** So every finished run of a list, whatever the limit and the interleaving, and whichever calls fail on the way,
      has the results and the documents of the list's meaning. */
  lemma RunOfList(l: ActionList, limit: int, s0: Store, steps: seq<R.Step>, t: R.State, stamp: nat -> nat)
    requires GoodList(l) && SharedFate(PlanOf(l, limit))
    requires R.Reachable(PlanOf(l, limit), s0, steps, t) && t.phase == R.Finished
    ensures
      var m := Meaning(l, s0, stamp);
      |m.results| == |l.as_|
      && t.results == (map i: nat | i < |l.as_| :: m.results[i])
      && SameFields(t.store, m.store)
  {
    PlanGood(l, limit);
    hide *;
    PlanIsOf(l, limit);
    R.RunMeaning(PlanOf(l, limit), s0, steps, t, stamp);
  }

  lemma PlanIsOf(l: ActionList, limit: int)
    ensures PlanOf(l, limit).l == l
  {
  }

  /** The part of RunActions that comes before any call: it reports the unsendable writes, and its groups and
      calls are those of the plan. */
  method Prepare(l: ActionList, errs: array<Option<Err>>)
    returns (beforeGets: seq<Action>, gets: seq<Action>, calls: seq<CommitCall>, afterGets: seq<Action>)
    requires GoodList(l) && errs.Length == |l.as_| && forall i :: 0 <= i < errs.Length ==> errs[i] == None
    modifies errs
    ensures beforeGets == Group(l.as_, |l.as_|, BeforeGet) && gets == Group(l.as_, |l.as_|, ConcurrentGet)
    ensures afterGets == Group(l.as_, |l.as_|, AfterGet)
    ensures forall limit ::
      |calls| == |PlanOf(l, limit).calls|
      && forall c :: 0 <= c < |calls| ==>
        AllEncode(PlanOf(l, limit).calls[c]) && calls[c] == CallFor(PlanOf(l, limit).calls[c], l.unique)
    ensures forall i :: 0 <= i < errs.Length ==> errs[i] == FoundUnsendable(l, i)
  {
    hide Encodes, Group, CanFail, Writes, GoodList, FoundUnsendable, GoodMods;
    var writes, writesTx;
    ghost var e0 := errs[..];
    GoodListUpdates(l);
    WriteGroups(l);
    beforeGets, gets, writes, writesTx, afterGets := GroupActions(l.as_);
    calls := BuildCommitCalls(writes, errs, l.unique);
    ghost var e1 := errs[..];
    forall c { OrdinarySame(l, c); }
    var atomic := BuildAtomicWritesCommitCall(writesTx, errs, l.unique);
    forall i: nat | i < errs.Length ensures errs[i] == FoundUnsendable(l, i) {
      ReportedAll(l, e0, e1, errs[..], i);
    }
    if atomic.Some? && |atomic.value.actions| > 0 { calls := calls + [atomic.value]; }
  }
}
