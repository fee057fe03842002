/** AtomicWrites of docstore/docstore.go: when the flagged writes of a list are one atomic operation. */
module AtomicWrites {
  import opened Wrappers
  import opened Mods
  import opened Actions
  import opened Commits
  import opened Reference
  import opened Schedule
  import opened Prepare
  import R = RunActions

  // ---------------------------------------------------------------- the promise

  ghost predicate Flagged(l: ActionList, i: nat) {
    IsWrite(l, i) && l.as_[i].inAtomicWrite
  }

  ghost predicate Happens(l: ActionList, s0: Store, i: nat)
    requires IsWrite(l, i)
  {
    TakesEffect(l, s0, TxSucceeds(l, s0), i)
  }

  /** From this store, all flagged writes take effect, or none does. */
  ghost predicate Together(l: ActionList, s0: Store) {
    (forall i: nat :: Flagged(l, i) ==> Happens(l, s0, i)) || (forall i: nat :: Flagged(l, i) ==> !Happens(l, s0, i))
  }

  /** What AtomicWrites is documented to do, whatever is stored. */
  ghost predicate OneOperation(l: ActionList) {
    forall s0: Store :: Together(l, s0)
  }

  // ---------------------------------------------------------------- when it is kept

  ghost predicate Arrives(l: ActionList, i: nat) {
    Sent(l, i) && i !in l.dropped
  }

  /** The keyed atomic writes go in one call, which reaches the service or does not. */
  ghost predicate OneFate(l: ActionList) {
    forall i: nat, j: nat :: Sent(l, i) && Sent(l, j) && KeyedAtomic(l.as_[i]) && KeyedAtomic(l.as_[j]) ==>
      (i in l.dropped <==> j in l.dropped)
  }

  /** A Create whose name is generated. */
  ghost predicate FlaggedKeyless(l: ActionList, i: nat) {
    Flagged(l, i) && l.as_[i].key == None
  }

  ghost predicate OneFlagged(l: ActionList) {
    forall i: nat, j: nat :: Flagged(l, i) && Flagged(l, j) ==> i == j
  }

  // ---------------------------------------------------------------- a store that suits every write

  ghost predicate NeedsPresent(l: ActionList, i: nat, name: string) {
    IsWrite(l, i) && l.as_[i].kind != Create && NameAt(l, i) == name
  }

  ghost function PresentNames(l: ActionList): set<string> {
    set i: nat | i < |l.as_| && NeedsPresent(l, i, NameAt(l, i)) :: NameAt(l, i)
  }

  ghost function RevNeeded(l: ActionList, name: string): nat
    requires name in PresentNames(l)
  {
    var i: nat :| NeedsPresent(l, i, name);
    if RevOf(l.as_[i].doc).Some? then RevOf(l.as_[i].doc).value else 0
  }

  ghost function SuitingStore(l: ActionList): Store {
    map name | name in PresentNames(l) :: Entry(map[], RevNeeded(l, name))
  }

  /** Every sendable write would succeed on that store. */
  lemma Suits(l: ActionList, i: nat)
    requires GoodList(l) && Sent(l, i)
    ensures Does(l.as_[i], Doc(SuitingStore(l), NameAt(l, i)), l.add).Becomes?
  {
    hide GoodList, PassedOver, ApplyMods, GoodMods;
    var name := NameAt(l, i);
    if l.as_[i].kind == Create {
      forall j: nat | NeedsPresent(l, j, name) ensures j == i { OneWrite(l, i, j); }
      assert name !in PresentNames(l);
    } else {
      assert NeedsPresent(l, i, name);
      forall j: nat | NeedsPresent(l, j, name) ensures j == i { OneWrite(l, i, j); }
    }
  }

  /** The store that suits every write but a Create, whose name is taken. */
  ghost function SuitingBut(l: ActionList, i: nat): Store
    requires i < |l.as_|
  {
    SuitingStore(l)[NameAt(l, i) := Entry(map[], 0)]
  }

  lemma SuitsBut(l: ActionList, i: nat, j: nat)
    requires GoodList(l) && FlaggedKeyless(l, i) && Sent(l, j) && j != i
    ensures Does(l.as_[j], Doc(SuitingBut(l, i), NameAt(l, j)), l.add).Becomes?
  {
    hide GoodList, PassedOver, Does;
    Suits(l, j);
    if NameAt(l, i) == NameAt(l, j) { OneWrite(l, i, j); }
  }

  lemma KeylessIsCreate(l: ActionList, i: nat)
    requires GoodList(l) && FlaggedKeyless(l, i)
    ensures l.as_[i].kind == Create && !KeyedAtomic(l.as_[i])
  {
  }

  /** On the suiting store every write that arrives happens. */
  lemma AllHappen(l: ActionList, j: nat)
    requires GoodList(l) && IsWrite(l, j)
    ensures Happens(l, SuitingStore(l), j) <==> Arrives(l, j)
  {
    hide GoodList, PassedOver, Does, SuitingStore;
    forall i: nat | i < |l.as_| ensures !Refuses(l, SuitingStore(l), i) {
      if Sent(l, i) { Suits(l, i); }
    }
    if Sent(l, j) { Suits(l, j); }
  }

  /** With its name taken, the Create does not happen, and every other write that arrives does. */
  lemma AllButOneHappen(l: ActionList, i: nat, j: nat)
    requires GoodList(l) && FlaggedKeyless(l, i) && Arrives(l, j)
    ensures Happens(l, SuitingBut(l, i), j) <==> j != i
  {
    hide GoodList, PassedOver;
    KeylessIsCreate(l, i);
    if j != i {
      hide Does, SuitingBut;
      forall k: nat | k < |l.as_| ensures !Refuses(l, SuitingBut(l, i), k) {
        if Sent(l, k) && k != i { SuitsBut(l, i, k); }
      }
      SuitsBut(l, i, j);
    }
  }

  /** Keyed flagged writes are the transaction. */
  lemma TransactionTogether(l: ActionList, s0: Store)
    requires GoodList(l) && OneFate(l) && forall i: nat :: !FlaggedKeyless(l, i)
    ensures Together(l, s0)
  {
    hide GoodList, PassedOver, Does;
    forall i: nat, j: nat | Flagged(l, i) && Flagged(l, j) && Happens(l, s0, i) ensures Happens(l, s0, j) {
      assert !FlaggedKeyless(l, i) && !FlaggedKeyless(l, j);
      TransactionSent(l, i);
      TransactionSent(l, j);
      assert !Refuses(l, s0, j);
    }
  }

  /** The writes after AtomicWrites are one operation from every store exactly when none of them is a Create without
      a key, or there is only one, or none of them reaches the service anyway. */
  lemma OneOperationIff(l: ActionList)
    requires GoodList(l) && OneFate(l)
    ensures OneOperation(l) <==>
      (forall i: nat :: !FlaggedKeyless(l, i)) || OneFlagged(l) || (forall i: nat :: Flagged(l, i) ==> !Arrives(l, i))
  {
    hide GoodList, OneFate, PassedOver, SuitingStore, SuitingBut;
    if forall i: nat :: !FlaggedKeyless(l, i) {
      forall s0: Store ensures Together(l, s0) { TransactionTogether(l, s0); }
    } else if OneFlagged(l) || forall i: nat :: Flagged(l, i) ==> !Arrives(l, i) {
      hide Does, TxSucceeds;
      forall s0: Store ensures Together(l, s0) {}
    } else {
      var i: nat :| FlaggedKeyless(l, i);
      var k: nat :| Flagged(l, k) && Arrives(l, k);
      var j := AnotherFlagged(l, i);
      NotTogether(l, i, j, k);
    }
  }

  lemma AnotherFlagged(l: ActionList, i: nat) returns (j: nat)
    requires !OneFlagged(l) && Flagged(l, i)
    ensures Flagged(l, j) && j != i
  {
    var a: nat, b: nat :| Flagged(l, a) && Flagged(l, b) && a != b;
    j := if a == i then b else a;
  }

  lemma NotTogether(l: ActionList, i: nat, j: nat, k: nat)
    requires GoodList(l) && FlaggedKeyless(l, i) && Flagged(l, j) && j != i && Flagged(l, k) && Arrives(l, k)
    ensures !OneOperation(l)
  {
    hide GoodList, Arrives, Happens, SuitingStore, SuitingBut;
    if Arrives(l, i) && Arrives(l, j) {
      AllButOneHappen(l, i, i);
      AllButOneHappen(l, i, j);
      assert !Together(l, SuitingBut(l, i));
    } else {
      AllHappen(l, i);
      AllHappen(l, j);
      AllHappen(l, k);
      assert !Together(l, SuitingStore(l));
    }
  }

  /** Two flagged writes, the first a Create without a key. */
  function TwoFlagged(unique: nat -> string, add: Add): ActionList {
    ActionList([Action(Create, Document(NoKey, NoField, Some(map[])), None, [], [], 0, true),
                Action(Delete, Document(Name("b"), NoField, None), Some("b"), [], [], 1, true)], unique, add, {}, {})
  }

  /** Where the generated name is taken, the Create is refused and the Delete is carried out all the same. */
  lemma TwoFlaggedExample(unique: nat -> string, add: Add)
    requires unique(0) != "b"
    ensures
      var l, s0 := TwoFlagged(unique, add), map[unique(0) := Entry(map[], 0), "b" := Entry(map[], 0)];
      GoodList(l) && OneFate(l) && Flagged(l, 0) && Flagged(l, 1) && !Happens(l, s0, 0) && Happens(l, s0, 1)
  {
    var l, s0 := TwoFlagged(unique, add), map[unique(0) := Entry(map[], 0), "b" := Entry(map[], 0)];
    assert l.as_[0].key == None && !KeyedAtomic(l.as_[0]) && Encodes(l.as_[1]);
    assert forall i: nat :: !FirstUnsendable(l, i);
    assert forall i: nat :: i < |l.as_| ==> !Refuses(l, s0, i);
  }

  // ---------------------------------------------------------------- in runs

  /** In a plan's runs the transaction has one fate. */
  lemma FateOfPlan(l: ActionList, limit: int)
    requires GoodList(l) && SharedFate(PlanOf(l, limit))
    ensures OneFate(l)
  {
    hide GoodList, PassedOver, OrdinaryCalls, Transaction, Encodes;
    forall i: nat, j: nat | Sent(l, i) && Sent(l, j) && KeyedAtomic(l.as_[i]) && KeyedAtomic(l.as_[j])
      ensures i in l.dropped <==> j in l.dropped
    {
      var c := EveryWriteInACall(l, limit, i);
      var d := EveryWriteInACall(l, limit, j);
      assert c == d == |OrdinaryCalls(l)|;
    }
  }

  /** In every finished run a write that is answered reports success exactly when it happens, and its document is
      then as it leaves it. */
  lemma HappensInRuns(l: ActionList, limit: int, s0: Store, steps: seq<R.Step>, t: R.State, i: nat)
    requires GoodList(l) && SharedFate(PlanOf(l, limit)) && R.Reachable(PlanOf(l, limit), s0, steps, t)
    requires t.phase == R.Finished
    requires IsWrite(l, i) && i !in l.unheard
    ensures i in t.results && (t.results[i] == Wrote <==> Happens(l, s0, i))
    ensures Sent(l, i) ==> FieldsOf(Doc(t.store, NameAt(l, i))) == DocAfter(l, s0, TxSucceeds(l, s0), i)
  {
    var p := PlanOf(l, limit);
    PlanIsOf(l, limit);
    PlanGood(l, limit);
    hide GoodPlan, GoodList, SharedFate, PlanOf, PassedOver, Encodes, Does, R.Inv, R.Reachable, TxSucceeds, DocAfter;
    R.ReachableInv(p, s0, steps, t);
    R.FinishedAll(p, s0, t);
    R.GoodPlanList(p, s0, t);
  }
}
