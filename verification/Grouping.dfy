/** GroupActions and GroupByFieldPath of docstore/driver/util.go. */
module Grouping {
  import opened Wrappers
  import opened FieldPaths
  import opened Actions

  // ---------------------------------------------------------------- what the groups are

  /** The place of an action in the schedule. */
  datatype Class = BeforeGet | ConcurrentGet | PlainWrite | KeylessWrite | AtomicWrite | AfterGet

  ghost predicate WritesKey(a: Action, k: string) {
    a.key == Some(k) && !IsGet(a)
  }

  ghost predicate WrittenIn(as_: seq<Action>, lo: nat, hi: nat, k: string)
    requires lo <= hi <= |as_|
  {
    exists j :: lo <= j < hi && WritesKey(as_[j], k)
  }

  /** The class of action i within the first n actions of the list: a get follows the write of its key
      that precedes it, precedes the write that follows it, and otherwise runs beside the writes. */
  ghost function ClassOf(as_: seq<Action>, n: nat, i: nat): Class
    requires i < n <= |as_|
  {
    var a := as_[i];
    if a.key == None then KeylessWrite
    else if IsGet(a) then
      if WrittenIn(as_, 0, i, a.key.value) then AfterGet
      else if WrittenIn(as_, i, n, a.key.value) then BeforeGet
      else ConcurrentGet
    else if a.inAtomicWrite then AtomicWrite
    else PlainWrite
  }

  /** The first n actions that are of a class, in list order. */
  ghost function Group(as_: seq<Action>, n: nat, c: Class): seq<Action>
    requires n <= |as_|
  {
    GroupFrom(as_, n, n, c)
  }

  ghost function GroupFrom(as_: seq<Action>, n: nat, i: nat, c: Class): (r: seq<Action>)
    requires i <= n <= |as_|
    ensures forall a :: a in r <==> exists j :: 0 <= j < i && ClassOf(as_, n, j) == c && as_[j] == a
  {
    if i == 0 then [] else
      var before := GroupFrom(as_, n, i - 1, c);
      if ClassOf(as_, n, i - 1) == c then before + [as_[i-1]] else before
  }

  ghost predicate Ascending(s: seq<Action>) {
    forall i, j :: 0 <= i < j < |s| ==> s[i].index < s[j].index
  }

  lemma {:induction false} GroupAscending(as_: seq<Action>, n: nat, i: nat, c: Class)
    requires i <= n <= |as_| && WellFormed(as_)
    ensures Ascending(GroupFrom(as_, n, i, c))
    ensures forall a :: a in GroupFrom(as_, n, i, c) ==> a.index < i
  {
    if i > 0 { GroupAscending(as_, n, i - 1, c); }
  }

  /** A sequence in index order is determined by its elements. */
  lemma {:induction false} AscendingUnique(s: seq<Action>, t: seq<Action>)
    requires Ascending(s) && Ascending(t) && forall a :: a in s <==> a in t
    ensures s == t
    decreases |s|
  {
    assert s != [] ==> s[0] in s;
    assert t != [] ==> t[0] in t;
    if s != [] {
      assert s[0] in t && t[0] in s;
      assert s[0] == t[0];
      forall a ensures a in s[1..] <==> a in t[1..] {
        if a in s[1..] { assert a in t && a.index > s[0].index; }
        if a in t[1..] { assert a in s && a.index > t[0].index; }
      }
      AscendingUnique(s[1..], t[1..]);
      assert s == [s[0]] + s[1..] && t == [t[0]] + t[1..];
    }
  }

  function Insert(a: Action, s: seq<Action>): (r: seq<Action>)
    ensures forall x :: x in r <==> x == a || x in s
  {
    if s == [] || a.index < s[0].index then [a] + s else [s[0]] + Insert(a, s[1..])
  }

  lemma {:induction false} InsertAscending(a: Action, s: seq<Action>)
    requires Ascending(s) && forall x :: x in s ==> x.index != a.index
    ensures Ascending(Insert(a, s))
  {
    if s != [] && s[0].index < a.index {
      InsertAscending(a, s[1..]);
      forall x | x in Insert(a, s[1..]) ensures s[0].index < x.index {}
    }
  }

  // ---------------------------------------------------------------- GroupActions

  /** A map from keys holds exactly the first n actions of a class. */
  ghost predicate Holds(m: map<string, Action>, as_: seq<Action>, n: nat, c: Class)
    requires n <= |as_|
  {
    (forall k :: k in m ==>
      exists i :: 0 <= i < n && ClassOf(as_, n, i) == c && as_[i].key == Some(k) && m[k] == as_[i])
    && forall i :: 0 <= i < n && ClassOf(as_, n, i) == c && as_[i].key.Some? ==>
      as_[i].key.value in m && m[as_[i].key.value] == as_[i]
  }

  /** How one more action changes the classes of the earlier ones: only a concurrent get of the key
      that it writes, which now has to run before. */
  lemma ClassNext(as_: seq<Action>, n: nat, i: nat)
    requires i < n < |as_| && WellFormed(as_)
    ensures ClassOf(as_, n + 1, i) ==
      if ClassOf(as_, n, i) == ConcurrentGet && WritesKey(as_[n], as_[i].key.value) then BeforeGet
      else ClassOf(as_, n, i)
  {
    if as_[i].key.Some? && IsGet(as_[i]) {
      var k := as_[i].key.value;
      if WrittenIn(as_, i, n + 1, k) && !WrittenIn(as_, i, n, k) {
        var j :| i <= j < n + 1 && WritesKey(as_[j], k);
        assert j == n;
      }
      if WrittenIn(as_, i, n, k) {
        var j :| i <= j < n && WritesKey(as_[j], k);
        assert WrittenIn(as_, i, n + 1, k);
      }
      if WritesKey(as_[n], k) { assert WrittenIn(as_, i, n + 1, k); }
    }
  }

  /** An action that joins a class is added to that class's map. */
  lemma HoldsAdd(m: map<string, Action>, as_: seq<Action>, n: nat, c: Class)
    requires n < |as_| && WellFormed(as_) && Holds(m, as_, n, c) && as_[n].key.Some?
    requires ClassOf(as_, n + 1, n) == c != BeforeGet
    ensures Holds(m[as_[n].key.value := as_[n]], as_, n + 1, c)
  {
    hide ClassOf;
    ClassFacts(as_, n);
    forall i | 0 <= i < n ensures ClassOf(as_, n + 1, i) == c <==> ClassOf(as_, n, i) == c {
      ClassNext(as_, n, i);
    }
  }

  /** A map stays when the action neither joins its class nor writes the key of a concurrent get. */
  lemma HoldsSkip(m: map<string, Action>, as_: seq<Action>, n: nat, c: Class)
    requires n < |as_| && WellFormed(as_) && Holds(m, as_, n, c)
    requires ClassOf(as_, n + 1, n) != c
    requires c == ConcurrentGet || c == BeforeGet ==> as_[n].key == None || IsGet(as_[n])
    ensures Holds(m, as_, n + 1, c)
  {
    hide ClassOf;
    forall i | 0 <= i < n ensures ClassOf(as_, n + 1, i) == c <==> ClassOf(as_, n, i) == c {
      ClassNext(as_, n, i);
    }
  }

  /** What the class of an action says about it. */
  lemma ClassFacts(as_: seq<Action>, n: nat)
    requires n < |as_| && WellFormed(as_)
    ensures forall i :: 0 <= i <= n && as_[i].key.Some? ==>
      (IsGet(as_[i]) <==> ClassOf(as_, n + 1, i) in {BeforeGet, ConcurrentGet, AfterGet})
    ensures forall i :: 0 <= i < n && as_[i].key.Some? ==>
      (IsGet(as_[i]) <==> ClassOf(as_, n, i) in {BeforeGet, ConcurrentGet, AfterGet})
  {
  }

  /** How a write changes the classes of the earlier actions. */
  lemma ClassesMove(as_: seq<Action>, n: nat, k: string)
    requires n < |as_| && WellFormed(as_) && WritesKey(as_[n], k)
    ensures forall i :: 0 <= i < n ==> (ClassOf(as_, n + 1, i) ==
      if ClassOf(as_, n, i) == ConcurrentGet && as_[i].key == Some(k) then BeforeGet else ClassOf(as_, n, i))
  {
    hide ClassOf;
    forall i | 0 <= i < n
      ensures ClassOf(as_, n + 1, i) ==
        if ClassOf(as_, n, i) == ConcurrentGet && as_[i].key == Some(k) then BeforeGet else ClassOf(as_, n, i)
    {
      ClassNext(as_, n, i);
      if ClassOf(as_, n, i) == ConcurrentGet { ConcurrentHasKey(as_, n, i); }
    }
  }

  /** A write moves the concurrent get of its key to the gets that run before. */
  lemma HoldsMove(bgets: map<string, Action>, cgets: map<string, Action>, as_: seq<Action>, n: nat, k: string)
    requires n < |as_| && WellFormed(as_) && Holds(bgets, as_, n, BeforeGet) && Holds(cgets, as_, n, ConcurrentGet)
    requires WritesKey(as_[n], k)
    ensures Holds(if k in cgets then bgets[k := cgets[k]] else bgets, as_, n + 1, BeforeGet)
  {
    hide ClassOf;
    ClassFacts(as_, n);
    ClassesMove(as_, n, k);
    forall i | 0 <= i < n ensures k in cgets && ClassOf(as_, n, i) == BeforeGet ==> as_[i].key != Some(k) {
      if k in cgets {
        var j :| 0 <= j < n && ClassOf(as_, n, j) == ConcurrentGet && as_[j].key == Some(k) && cgets[k] == as_[j];
        assert as_[i].key == Some(k) && IsGet(as_[i]) ==> i == j;
      }
    }
  }

  lemma HoldsRemove(cgets: map<string, Action>, as_: seq<Action>, n: nat, k: string)
    requires n < |as_| && WellFormed(as_) && Holds(cgets, as_, n, ConcurrentGet) && WritesKey(as_[n], k)
    ensures Holds(cgets - {k}, as_, n + 1, ConcurrentGet)
  {
    hide ClassOf;
    ClassFacts(as_, n);
    ClassesMove(as_, n, k);
  }

  lemma ConcurrentHasKey(as_: seq<Action>, n: nat, i: nat)
    requires i < n <= |as_| && ClassOf(as_, n, i) == ConcurrentGet
    ensures as_[i].key.Some?
  {
  }

  /** A get comes after a write of its key exactly when one of the write maps has the key. */
  lemma GetClass(writes: map<string, Action>, writesTx: map<string, Action>, as_: seq<Action>, n: nat)
    requires n < |as_| && WellFormed(as_) && Holds(writes, as_, n, PlainWrite) && Holds(writesTx, as_, n, AtomicWrite)
    requires as_[n].key.Some? && IsGet(as_[n])
    ensures ClassOf(as_, n + 1, n) ==
      if as_[n].key.value in writes || as_[n].key.value in writesTx then AfterGet else ConcurrentGet
  {
    var k := as_[n].key.value;
    if WrittenIn(as_, 0, n, k) {
      var j :| 0 <= j < n && WritesKey(as_[j], k);
      assert ClassOf(as_, n, j) == PlainWrite || ClassOf(as_, n, j) == AtomicWrite;
    }
    assert !WrittenIn(as_, n, n + 1, k);
  }

  lemma {:induction false} KeylessStable(as_: seq<Action>, n: nat, i: nat)
    requires i <= n < |as_|
    ensures GroupFrom(as_, n + 1, i, KeylessWrite) == GroupFrom(as_, n, i, KeylessWrite)
  {
    if i > 0 { KeylessStable(as_, n, i - 1); }
  }

  /** The values of a class's map, in an arbitrary order, sorted by index: the group. */
  method Vals(m: map<string, Action>, ghost as_: seq<Action>, ghost c: Class) returns (r: seq<Action>)
    requires WellFormed(as_) && Holds(m, as_, |as_|, c) && c != KeylessWrite
    ensures r == Group(as_, |as_|, c)
  {
    hide ClassOf;
    r := [];
    var rest := m.Keys;
    while rest != {}
      invariant rest <= m.Keys && Ascending(r)
      invariant forall a :: a in r <==> exists k :: k in m.Keys - rest && m[k] == a
      decreases rest
    {
      var k :| k in rest;
      InsertAscending(m[k], r);
      r := Insert(m[k], r);
      rest := rest - {k};
    }
    GroupAscending(as_, |as_|, |as_|, c);
    forall a ensures a in r <==> a in Group(as_, |as_|, c) {
      if a in Group(as_, |as_|, c) {
        var j :| 0 <= j < |as_| && ClassOf(as_, |as_|, j) == c && as_[j] == a;
        KeyedClass(as_, j);
      }
    }
    AscendingUnique(r, Group(as_, |as_|, c));
  }

  lemma KeyedClass(as_: seq<Action>, j: nat)
    requires j < |as_|
    ensures ClassOf(as_, |as_|, j) != KeylessWrite ==> as_[j].key.Some?
  {
  }

  method GroupActions(actions: seq<Action>)
    returns (beforeGets: seq<Action>, getList: seq<Action>, writeList: seq<Action>, writesTxList: seq<Action>,
      afterGets: seq<Action>)
    requires WellFormed(actions)
    ensures beforeGets == Group(actions, |actions|, BeforeGet)
    ensures getList == Group(actions, |actions|, ConcurrentGet)
    ensures writeList == Group(actions, |actions|, PlainWrite) + Group(actions, |actions|, KeylessWrite)
    ensures writesTxList == Group(actions, |actions|, AtomicWrite)
    ensures afterGets == Group(actions, |actions|, AfterGet)
  {
    hide Holds;
    var bgets, agets, cgets, writes, writesTx: map<string, Action> := map[], map[], map[], map[], map[];
    var nilkeys: seq<Action> := [];
    NothingGrouped(actions);
    for n := 0 to |actions|
      invariant Holds(bgets, actions, n, BeforeGet) && Holds(agets, actions, n, AfterGet)
      invariant Holds(cgets, actions, n, ConcurrentGet)
      invariant Holds(writes, actions, n, PlainWrite) && Holds(writesTx, actions, n, AtomicWrite)
      invariant nilkeys == Group(actions, n, KeylessWrite)
    {
      var a := actions[n];
      ghost var c := ClassOf(actions, n + 1, n);
      KeylessStable(actions, n, n);
      if c != PlainWrite { HoldsSkip(writes, actions, n, PlainWrite); }
      if c != AtomicWrite { HoldsSkip(writesTx, actions, n, AtomicWrite); }
      if c != AfterGet { HoldsSkip(agets, actions, n, AfterGet); }
      if a.key == None {
        HoldsSkip(bgets, actions, n, BeforeGet);
        HoldsSkip(cgets, actions, n, ConcurrentGet);
        nilkeys := nilkeys + [a];
      } else {
        var k := a.key.value;
        if a.kind == Get {
          GetClass(writes, writesTx, actions, n);
          HoldsSkip(bgets, actions, n, BeforeGet);
          if c == AfterGet {
            HoldsAdd(agets, actions, n, AfterGet);
            HoldsSkip(cgets, actions, n, ConcurrentGet);
          } else {
            HoldsAdd(cgets, actions, n, ConcurrentGet);
          }
          if k in writes { agets := agets[k := a]; }
          else if k in writesTx { agets := agets[k := a]; }
          else { cgets := cgets[k := a]; }
        } else {
          HoldsMove(bgets, cgets, actions, n, k);
          HoldsRemove(cgets, actions, n, k);
          if k in cgets {
            var g := cgets[k];
            cgets := cgets - {k};
            bgets := bgets[k := g];
          } else {
            assert cgets - {k} == cgets;
          }
          if a.inAtomicWrite {
            HoldsAdd(writesTx, actions, n, AtomicWrite);
            writesTx := writesTx[k := a];
          } else {
            HoldsAdd(writes, actions, n, PlainWrite);
            writes := writes[k := a];
          }
        }
      }
    }
    beforeGets := Vals(bgets, actions, BeforeGet);
    getList := Vals(cgets, actions, ConcurrentGet);
    writeList := Vals(writes, actions, PlainWrite);
    writeList := writeList + nilkeys;
    writesTxList := Vals(writesTx, actions, AtomicWrite);
    afterGets := Vals(agets, actions, AfterGet);
  }

  lemma NothingGrouped(as_: seq<Action>)
    ensures forall c :: Holds(map[], as_, 0, c)
  {
  }

  ghost function Count(as_: seq<Action>, i: nat, c: Class, x: Action): nat
    requires i <= |as_|
  {
    multiset(GroupFrom(as_, |as_|, i, c))[x]
  }

  lemma CountStep(as_: seq<Action>, i: nat, c: Class, x: Action)
    requires i < |as_|
    ensures Count(as_, i + 1, c, x)
      == Count(as_, i, c, x) + if ClassOf(as_, |as_|, i) == c && as_[i] == x then 1 else 0
  {
    hide ClassOf;
  }

  /** How often x is in the groups of the first i actions. */
  ghost function CountAll(as_: seq<Action>, i: nat, x: Action): nat
    requires i <= |as_|
  {
    Count(as_, i, BeforeGet, x) + Count(as_, i, ConcurrentGet, x) + Count(as_, i, PlainWrite, x)
    + Count(as_, i, KeylessWrite, x) + Count(as_, i, AtomicWrite, x) + Count(as_, i, AfterGet, x)
  }

  lemma CountAllStep(as_: seq<Action>, i: nat, x: Action)
    requires i < |as_|
    ensures CountAll(as_, i + 1, x) == CountAll(as_, i, x) + if as_[i] == x then 1 else 0
  {
    hide ClassOf, Count;
    CountStep(as_, i, BeforeGet, x);
    CountStep(as_, i, ConcurrentGet, x);
    CountStep(as_, i, PlainWrite, x);
    CountStep(as_, i, KeylessWrite, x);
    CountStep(as_, i, AtomicWrite, x);
    CountStep(as_, i, AfterGet, x);
  }

  lemma MultisetSnoc<T>(s: seq<T>, i: nat, x: T)
    requires i < |s|
    ensures multiset(s[..i+1])[x] == multiset(s[..i])[x] + if s[i] == x then 1 else 0
  {
    assert s[..i+1] == s[..i] + [s[i]];
  }

  lemma {:induction false} CountsAgree(as_: seq<Action>, i: nat, x: Action)
    requires i <= |as_|
    ensures CountAll(as_, i, x) == multiset(as_[..i])[x]
  {
    if i > 0 {
      hide CountAll;
      CountsAgree(as_, i - 1, x);
      CountAllStep(as_, i - 1, x);
      MultisetSnoc(as_, i - 1, x);
    }
  }

  /** No action is lost or duplicated. */
  lemma GroupsPartition(as_: seq<Action>)
    ensures
      var n := |as_|;
      multiset(Group(as_, n, BeforeGet)) + multiset(Group(as_, n, ConcurrentGet)) + multiset(Group(as_, n, PlainWrite))
      + multiset(Group(as_, n, KeylessWrite)) + multiset(Group(as_, n, AtomicWrite)) + multiset(Group(as_, n, AfterGet))
      == multiset(as_)
  {
    hide GroupFrom, ClassOf;
    forall x: Action ensures CountAll(as_, |as_|, x) == multiset(as_)[x] {
      CountsAgree(as_, |as_|, x);
      assert as_[..|as_|] == as_;
    }
  }

  /** The gets that run beside the writes have keys that no action of the list writes. */
  lemma ConcurrentKeysDisjoint(as_: seq<Action>, i: nat, j: nat)
    requires i < |as_| && j < |as_| && ClassOf(as_, |as_|, i) == ConcurrentGet
    requires ClassOf(as_, |as_|, j) in {PlainWrite, AtomicWrite}
    ensures as_[i].key != as_[j].key
  {
    var k := as_[i].key.value;
    assert !WrittenIn(as_, 0, i, k) && !WrittenIn(as_, i, |as_|, k);
    assert !WritesKey(as_[j], k);
  }

  // ---------------------------------------------------------------- GroupByFieldPath

  method FieldPathsEqual(fp1: Path, fp2: Path) returns (r: bool)
    ensures r <==> fp1 == fp2
  {
    if |fp1| != |fp2| { return false; }
    for i := 0 to |fp1|
      invariant fp1[..i] == fp2[..i]
    {
      if fp1[i] != fp2[i] { return false; }
    }
    assert fp1[..|fp1|] == fp1 && fp2[..|fp2|] == fp2;
    r := true;
  }

  method FpsEqual(fps1: seq<Path>, fps2: seq<Path>) returns (r: bool)
    ensures r <==> fps1 == fps2
  {
    if |fps1| != |fps2| { return false; }
    for i := 0 to |fps1|
      invariant fps1[..i] == fps2[..i]
    {
      var same := FieldPathsEqual(fps1[i], fps2[i]);
      if !same { return false; }
    }
    assert fps1[..|fps1|] == fps1 && fps2[..|fps2|] == fps2;
    r := true;
  }

  function Flatten<T>(groups: seq<seq<T>>): seq<T> {
    if groups == [] then [] else Flatten(groups[..|groups|-1]) + groups[|groups|-1]
  }

  lemma FlattenSnoc<T>(groups: seq<seq<T>>, g: seq<T>)
    ensures Flatten(groups + [g]) == Flatten(groups) + g
  {
    assert (groups + [g])[..|groups|] == groups;
  }

  ghost predicate Distinct(as_: seq<Action>) {
    forall i, j :: 0 <= i < j < |as_| ==> as_[i].index != as_[j].index
  }

  ghost function Unseen(gets: seq<Action>, seen: set<nat>): (r: seq<Action>)
    ensures forall a :: a in r <==> a in gets && a.index !in seen
  {
    if gets == [] then [] else
      var before := Unseen(gets[..|gets|-1], seen);
      if gets[|gets|-1].index in seen then before else before + [gets[|gets|-1]]
  }

  lemma {:induction false} SeeOne(gets: seq<Action>, seen: set<nat>, a: Action)
    requires Distinct(gets) && a in gets && a.index !in seen
    ensures multiset(Unseen(gets, seen)) == multiset(Unseen(gets, seen + {a.index})) + multiset{a}
  {
    var init, last := gets[..|gets|-1], gets[|gets|-1];
    if a in init {
      SeeOne(init, seen, a);
      assert last.index != a.index;
    } else {
      assert last == a;
      SeeOthers(init, seen, a);
    }
  }

  lemma {:induction false} SeeOthers(gets: seq<Action>, seen: set<nat>, a: Action)
    requires forall b :: b in gets ==> b.index != a.index
    ensures Unseen(gets, seen + {a.index}) == Unseen(gets, seen)
  {
    if gets != [] {
      assert gets[|gets|-1] in gets;
      SeeOthers(gets[..|gets|-1], seen, a);
    }
  }

  lemma {:induction false} NothingSeen(gets: seq<Action>)
    ensures Unseen(gets, {}) == gets
  {
    if gets != [] { NothingSeen(gets[..|gets|-1]); }
  }

  /** Every action of gets is in one group or still unseen. */
  ghost predicate Accounted(groups: seq<seq<Action>>, g: seq<Action>, gets: seq<Action>, seen: set<nat>) {
    multiset(Flatten(groups)) + multiset(g) + multiset(Unseen(gets, seen)) == multiset(gets)
    && |seen| + |Unseen(gets, seen)| == |gets|
  }

  lemma AccountedNone(gets: seq<Action>)
    ensures Accounted([], [], gets, {}) && AllApart([], gets, {})
  {
    NothingSeen(gets);
  }

  lemma AccountedAll(groups: seq<seq<Action>>, gets: seq<Action>, seen: set<nat>)
    requires Accounted(groups, [], gets, seen) && |seen| >= |gets|
    ensures multiset(Flatten(groups)) == multiset(gets)
  {
    hide Flatten, Unseen;
    assert Unseen(gets, seen) == [];
  }

  lemma AccountedTake(groups: seq<seq<Action>>, g: seq<Action>, gets: seq<Action>, seen: set<nat>, a: Action)
    requires Accounted(groups, g, gets, seen) && Distinct(gets) && a in gets && a.index !in seen
    ensures Accounted(groups, g + [a], gets, seen + {a.index})
  {
    hide Unseen, Flatten;
    SeeOne(gets, seen, a);
    assert |multiset(Unseen(gets, seen))| == |Unseen(gets, seen)|;
    assert |multiset(Unseen(gets, seen + {a.index}))| == |Unseen(gets, seen + {a.index})|;
  }

  /** While fewer actions are seen than there are, one of them is not seen. */
  lemma AccountedMore(groups: seq<seq<Action>>, g: seq<Action>, gets: seq<Action>, seen: set<nat>) returns (i: nat)
    requires Accounted(groups, g, gets, seen) && |seen| < |gets|
    ensures i < |gets| && gets[i].index !in seen
  {
    hide Flatten;
    assert Unseen(gets, seen)[0] in gets;
    i :| 0 <= i < |gets| && gets[i] == Unseen(gets, seen)[0];
  }

  ghost predicate Uniform(g: seq<Action>) {
    g != [] && forall a :: a in g ==> a.fieldPaths == g[0].fieldPaths
  }

  /** The action asks for other field paths than the group. */
  ghost predicate Apart(g: seq<Action>, a: Action) {
    g != [] && a.fieldPaths != g[0].fieldPaths
  }

  /** No later action asks for the field paths of an earlier group. */
  ghost predicate AllApart(groups: seq<seq<Action>>, as_: seq<Action>, seen: set<nat>) {
    forall h, a :: h in groups && a in as_ && a.index !in seen ==> Apart(h, a)
  }

  lemma UniformSnoc(g: seq<Action>, a: Action)
    requires g == [] || (Uniform(g) && g[0].fieldPaths == a.fieldPaths)
    ensures Uniform(g + [a])
    ensures forall x :: Apart(g, x) ==> Apart(g + [a], x)
  {
  }

  lemma ApartIff(g: seq<Action>, a: Action)
    ensures Apart(g, a) <==> g != [] && g[0].fieldPaths != a.fieldPaths
  {
  }

  /** A pass over the gets ends with a new, nonempty group that keeps apart from all others. */
  lemma GroupDone(groups: seq<seq<Action>>, g: seq<Action>, gets: seq<Action>, before: set<nat>, seen: set<nat>)
    requires Accounted(groups, g, gets, seen) && AllApart(groups, gets, before)
    requires |before| < |gets| && before <= seen && |seen| == |before| + |g|
    requires forall a :: a in g ==> a in gets && a.index !in before
    requires forall j :: 0 <= j < |gets| ==> gets[j].index in seen || Apart(g, gets[j])
    ensures g != [] && Accounted(groups + [g], [], gets, seen) && AllApart(groups + [g], gets, seen)
    ensures forall h :: h in groups ==> Apart(h, g[0])
  {
    hide Unseen, Flatten;
    if g == [] {
      var i := AccountedMore(groups, g, gets, seen);
      assert false;
    }
    FlattenSnoc(groups, g);
    assert g[0] in g;
    forall h, a | h in groups + [g] && a in gets && a.index !in seen ensures Apart(h, a) {
      var j :| 0 <= j < |gets| && gets[j] == a;
    }
  }

  /** One pass: takes the first unseen action and every other that asks for the same field paths. */
  method TakeGroup(gets: seq<Action>, ghost groups: seq<seq<Action>>, before: set<nat>)
    returns (g: seq<Action>, seen: set<nat>)
    requires Distinct(gets) && Accounted(groups, [], gets, before) && |before| < |gets|
    requires AllApart(groups, gets, before)
    ensures Accounted(groups + [g], [], gets, seen) && |seen| > |before| && AllApart(groups + [g], gets, seen)
    ensures g != [] && Uniform(g) && Distinct(g) && forall h :: h in groups ==> Apart(h, g[0])
  {
    hide Unseen, Flatten, Accounted, Uniform, Apart, AllApart;
    g, seen := [], before;
    for i := 0 to |gets|
      invariant Accounted(groups, g, gets, seen)
      invariant before <= seen && |seen| == |before| + |g|
      invariant g != [] ==> Uniform(g)
      invariant Distinct(g) && forall a :: a in g ==> a.index in seen
      invariant forall a :: a in g ==> a in gets && a.index !in before
      invariant forall j :: 0 <= j < i ==> gets[j].index in seen || Apart(g, gets[j])
    {
      var a := gets[i];
      if a.index !in seen {
        var joins := g == [];
        if !joins { joins := FpsEqual(g[0].fieldPaths, a.fieldPaths); }
        if joins {
          AccountedTake(groups, g, gets, seen, a);
          UniformSnoc(g, a);
          g := g + [a];
          seen := seen + {a.index};
        } else {
          assert Apart(g, a) by { ApartIff(g, a); }
        }
      }
    }
    GroupDone(groups, g, gets, before, seen);
  }

  /** A later group, which has an action, asks for other field paths than an earlier one. */
  ghost predicate Follows(g: seq<Action>, later: seq<Action>) {
    later != [] && Apart(g, later[0])
  }

  ghost predicate PairwiseApart(groups: seq<seq<Action>>) {
    forall i, j :: 0 <= i < j < |groups| ==> Follows(groups[i], groups[j])
  }

  lemma PairwiseApartSnoc(groups: seq<seq<Action>>, g: seq<Action>)
    requires PairwiseApart(groups) && g != [] && forall h :: h in groups ==> Apart(h, g[0])
    ensures PairwiseApart(groups + [g])
  {
    forall i, j | 0 <= i < j < |groups + [g]| ensures Follows((groups + [g])[i], (groups + [g])[j]) {
      assert groups[i] in groups;
    }
  }

  /** Splits gets of distinct actions into groups, one for each list of field paths. The loop ends
      because every pass takes at least one more action; with the same action twice it would not. */
  method GroupByFieldPath(gets: seq<Action>) returns (groups: seq<seq<Action>>)
    requires Distinct(gets)
    ensures multiset(Flatten(groups)) == multiset(gets)
    ensures forall g :: g in groups ==> Uniform(g) && Distinct(g)
    ensures PairwiseApart(groups)
  {
    hide Accounted, AllApart, Uniform, Flatten, Distinct;
    groups := [];
    var seen: set<nat> := {};
    AccountedNone(gets);
    while |seen| < |gets|
      invariant Accounted(groups, [], gets, seen)
      invariant forall g :: g in groups ==> Uniform(g) && Distinct(g)
      invariant AllApart(groups, gets, seen)
      invariant PairwiseApart(groups)
      decreases |gets| - |seen|
    {
      var g: seq<Action>;
      g, seen := TakeGroup(gets, groups, seen);
      PairwiseApartSnoc(groups, g);
      groups := groups + [g];
    }
    AccountedAll(groups, gets, seen);
  }
}
