/** What an action list means: its actions one after the other in the user's order, with the keyed atomic
    writes as one transaction, over a service that may fail to hear or to answer. */
module Reference {
  import opened Wrappers
  import opened Values
  import opened Mods
  import opened Actions
  import opened Commits

  /** What an action reports: Lost is the failure of its call on the way, and Skipped reports nothing at all. */
  datatype Result = Wrote | NotWritten | Unsendable | Skipped | Lost | Got(fields: Fields) | Absent

  /** An action list with the names that its Creates without keys get, and what goes wrong on the way: the writes
      that never reach the service, and the actions that get no answer, which include them. */
  datatype ActionList = ActionList(as_: seq<Action>, unique: nat -> string, add: Add, dropped: set<nat>,
    unheard: set<nat>)

  ghost predicate KeyedAtomic(a: Action) {
    a.key.Some? && !IsGet(a) && a.inAtomicWrite
  }

  /** A generated name is the name of no other action. */
  ghost predicate NamesApart(l: ActionList) {
    forall i, j :: 0 <= i < |l.as_| && 0 <= j < |l.as_| && i != j && l.as_[i].key == None ==>
      NameOf(l.as_[i], l.unique) != NameOf(l.as_[j], l.unique)
  }

  ghost predicate GoodList(l: ActionList) {
    WellFormed(l.as_) && NamesApart(l) && l.dropped <= l.unheard
  }

  function FieldsOf(d: Option<Entry>): Option<Fields> {
    if d.Some? then Some(d.value.fields) else None
  }

  function ReadOf(f: Option<Fields>): Result {
    if f.Some? then Got(f.value) else Absent
  }

  function NameAt(l: ActionList, i: nat): string
    requires i < |l.as_|
  {
    NameOf(l.as_[i], l.unique)
  }

  ghost predicate IsWrite(l: ActionList, i: nat) {
    i < |l.as_| && !IsGet(l.as_[i])
  }

  /** A name is written at most once. */
  lemma OneWrite(l: ActionList, i: nat, j: nat)
    requires GoodList(l) && IsWrite(l, i) && IsWrite(l, j) && NameAt(l, i) == NameAt(l, j)
    ensures i == j
  {
  }

  // ---------------------------------------------------------------- the outcomes

  /** The first write of the transaction that cannot be sent. */
  ghost predicate FirstUnsendable(l: ActionList, i: nat) {
    i < |l.as_| && KeyedAtomic(l.as_[i]) && !Encodes(l.as_[i])
    && forall j :: 0 <= j < i && KeyedAtomic(l.as_[j]) ==> Encodes(l.as_[j])
  }

  /** The other writes of a transaction that cannot be sent are passed over without a word. */
  ghost predicate PassedOver(l: ActionList, i: nat) {
    i < |l.as_| && KeyedAtomic(l.as_[i]) && exists j: nat :: FirstUnsendable(l, j) && j != i
  }

  ghost predicate Sent(l: ActionList, i: nat) {
    IsWrite(l, i) && Encodes(l.as_[i]) && !PassedOver(l, i)
  }

  function Heard(l: ActionList, i: nat, r: Result): Result {
    if i in l.unheard then Lost else r
  }

  /** A write takes effect when it reaches the service, would take effect alone and, if it is part of the
      transaction, that does. */
  ghost predicate TakesEffect(l: ActionList, s0: Store, tx: bool, i: nat)
    requires IsWrite(l, i)
  {
    var a := l.as_[i];
    Sent(l, i) && i !in l.dropped && Does(a, Doc(s0, NameAt(l, i)), l.add).Becomes? && (KeyedAtomic(a) ==> tx)
  }

  /** The document of a write once it was tried. */
  ghost function DocAfter(l: ActionList, s0: Store, tx: bool, i: nat): Option<Fields>
    requires IsWrite(l, i)
  {
    var old_ := Doc(s0, NameAt(l, i));
    if TakesEffect(l, s0, tx, i) then Does(l.as_[i], old_, l.add).fields else FieldsOf(old_)
  }

  ghost predicate WrittenBefore(l: ActionList, i: nat) {
    exists j: nat :: j < i && IsWrite(l, j) && i < |l.as_| && NameAt(l, j) == NameAt(l, i)
  }

  ghost function WriterBefore(l: ActionList, i: nat): (j: nat)
    requires i < |l.as_| && WrittenBefore(l, i)
    ensures j < i && IsWrite(l, j) && NameAt(l, j) == NameAt(l, i)
  {
    var j: nat :| j < i && IsWrite(l, j) && NameAt(l, j) == NameAt(l, i); j
  }

  ghost function Expected(l: ActionList, s0: Store, tx: bool, i: nat): Result
    requires i < |l.as_|
  {
    if IsGet(l.as_[i]) then
      var fields := if WrittenBefore(l, i) then DocAfter(l, s0, tx, WriterBefore(l, i))
        else FieldsOf(Doc(s0, NameAt(l, i)));
      Heard(l, i, ReadOf(fields))
    else if PassedOver(l, i) then Skipped
    else if !Encodes(l.as_[i]) then Unsendable
    else Heard(l, i, if TakesEffect(l, s0, tx, i) then Wrote else NotWritten)
  }

  /** The documents of these writes are as after them, and all others are as they were. */
  ghost predicate StoreAfter(l: ActionList, s0: Store, tx: bool, store: Store, done: set<nat>) {
    (forall i :: i in done ==> IsWrite(l, i) && FieldsOf(Doc(store, NameAt(l, i))) == DocAfter(l, s0, tx, i))
    && forall name :: !NameIn(l, name, done) ==> Doc(store, name) == Doc(s0, name)
  }

  ghost predicate NameIn(l: ActionList, name: string, done: set<nat>) {
    exists i :: i in done && i < |l.as_| && NameAt(l, i) == name
  }

  lemma NotYetNamed(l: ActionList, i: nat, done: set<nat>)
    requires GoodList(l) && IsWrite(l, i) && i !in done && forall j :: j in done ==> IsWrite(l, j)
    ensures !NameIn(l, NameAt(l, i), done)
  {
    forall j | j in done && NameAt(l, j) == NameAt(l, i) ensures false { OneWrite(l, i, j); }
  }

  /** A write that is not sent leaves its document as it was. */
  lemma UnsentDoc(l: ActionList, s0: Store, tx: bool, i: nat)
    requires IsWrite(l, i) && !Sent(l, i)
    ensures DocAfter(l, s0, tx, i) == FieldsOf(Doc(s0, NameAt(l, i)))
  {
  }

  /** What a get finds once the writes of its name that come before it are done, and those after are not. */
  lemma ReadExpected(l: ActionList, s0: Store, tx: bool, store: Store, done: set<nat>, i: nat)
    requires GoodList(l) && StoreAfter(l, s0, tx, store, done) && i < |l.as_| && IsGet(l.as_[i])
    requires forall j: nat :: Sent(l, j) && NameAt(l, j) == NameAt(l, i) ==> (j in done <==> j < i)
    ensures Heard(l, i, ReadOf(FieldsOf(Doc(store, NameAt(l, i))))) == Expected(l, s0, tx, i)
  {
    hide DocAfter, Encodes, GoodList, Sent;
    var name := NameAt(l, i);
    if NameIn(l, name, done) {
      var j :| j in done && j < |l.as_| && NameAt(l, j) == name;
      if WrittenBefore(l, i) { OneWrite(l, j, WriterBefore(l, i)); }
      if !Sent(l, j) { UnsentDoc(l, s0, tx, j); }
    } else if WrittenBefore(l, i) {
      var j := WriterBefore(l, i);
      assert j in done ==> NameIn(l, name, done);
      UnsentDoc(l, s0, tx, j);
    }
  }

  /** Two stores after the writes that are sent and after all writes hold the same documents. */
  lemma StoresAgree(l: ActionList, s0: Store, tx: bool, a: Store, da: set<nat>, b: Store, db: set<nat>)
    requires StoreAfter(l, s0, tx, a, da) && StoreAfter(l, s0, tx, b, db) && da <= db
    requires forall i :: i in db && i !in da ==> IsWrite(l, i) && !Sent(l, i) && !NameIn(l, NameAt(l, i), da)
    ensures SameFields(a, b)
  {
    hide Encodes, Does, Sent;
    forall name ensures FieldsOf(Doc(a, name)) == FieldsOf(Doc(b, name)) {
      if NameIn(l, name, da) {
        var i :| i in da && i < |l.as_| && NameAt(l, i) == name;
        assert i in db;
      } else if NameIn(l, name, db) {
        var i :| i in db && i < |l.as_| && NameAt(l, i) == name;
        assert DocAfter(l, s0, tx, i) == FieldsOf(Doc(s0, name));
      }
    }
  }

  /** The same documents, up to revisions. */
  ghost predicate SameFields(a: Store, b: Store) {
    forall name :: FieldsOf(Doc(a, name)) == FieldsOf(Doc(b, name))
  }

  /** The same names, each with the same fields. */
  lemma SameFieldsIs(a: Store, b: Store, name: string)
    requires SameFields(a, b)
    ensures name in a <==> name in b
    ensures name in a ==> a[name].fields == b[name].fields
  {
    assert FieldsOf(Doc(a, name)) == FieldsOf(Doc(b, name));
  }

  // ---------------------------------------------------------------- running in order

  /** The documents, what was reported, and whether a write of the transaction was refused. */
  datatype Progress = Progress(store: Store, results: seq<Result>, refused: bool)

  /** One more action; stamp gives the revision that each write leaves. The transaction's writes are refused when
      tx is false. */
  ghost function Next(l: ActionList, tx: bool, p: Progress, n: nat, stamp: nat -> nat): Progress
    requires n < |l.as_|
  {
    var a, name := l.as_[n], NameAt(l, n);
    if IsGet(a) then p.(results := p.results + [Heard(l, n, ReadOf(FieldsOf(Doc(p.store, name))))])
    else if PassedOver(l, n) then p.(results := p.results + [Skipped])
    else if !Encodes(a) then p.(results := p.results + [Unsendable])
    else if n in l.dropped then p.(results := p.results + [Lost])
    else if KeyedAtomic(a) && !tx then p.(results := p.results + [Heard(l, n, NotWritten)], refused := true)
    else match Does(a, Doc(p.store, name), l.add)
      case Fails =>
        p.(results := p.results + [Heard(l, n, NotWritten)], refused := p.refused || KeyedAtomic(a))
      case Becomes(f) =>
        p.(store := Updated(p.store, name, f, stamp(n)), results := p.results + [Heard(l, n, Wrote)])
  }

  /** The first n actions in order. */
  ghost function InOrder(l: ActionList, s0: Store, tx: bool, n: nat, stamp: nat -> nat): Progress
    requires n <= |l.as_|
  {
    if n == 0 then Progress(s0, [], false) else Next(l, tx, InOrder(l, s0, tx, n - 1, stamp), n - 1, stamp)
  }

  /** The meaning of the list: if a write of the transaction is refused on the way, all of them are. */
  ghost function Meaning(l: ActionList, s0: Store, stamp: nat -> nat): Progress {
    var p := InOrder(l, s0, true, |l.as_|, stamp);
    if p.refused then InOrder(l, s0, false, |l.as_|, stamp) else p
  }

  ghost function WritesUpTo(l: ActionList, n: nat): set<nat>
    requires n <= |l.as_|
  {
    set i: nat | i < n && IsWrite(l, i)
  }

  /** One more write is done. */
  lemma OneMoreDone(l: ActionList, s0: Store, tx: bool, store: Store, done: set<nat>, n: nat, s: Store)
    requires GoodList(l) && StoreAfter(l, s0, tx, store, done) && IsWrite(l, n) && n !in done
    requires forall name :: name != NameAt(l, n) ==> Doc(s, name) == Doc(store, name)
    requires FieldsOf(Doc(s, NameAt(l, n))) == DocAfter(l, s0, tx, n)
    ensures StoreAfter(l, s0, tx, s, done + {n})
  {
    hide DocAfter, NameIn;
    OthersNamed(l, done, n);
    forall i | i in done ensures FieldsOf(Doc(s, NameAt(l, i))) == DocAfter(l, s0, tx, i) {
      if NameAt(l, i) == NameAt(l, n) { OneWrite(l, i, n); }
    }
  }

  lemma WriteInOrder(l: ActionList, s0: Store, tx: bool, store: Store, n: nat, now: nat)
    requires GoodList(l) && n < |l.as_| && IsWrite(l, n) && StoreAfter(l, s0, tx, store, WritesUpTo(l, n))
    ensures Doc(store, NameAt(l, n)) == Doc(s0, NameAt(l, n))
    ensures
      var s := if TakesEffect(l, s0, tx, n)
        then Updated(store, NameAt(l, n), Does(l.as_[n], Doc(s0, NameAt(l, n)), l.add).fields, now) else store;
      StoreAfter(l, s0, tx, s, WritesUpTo(l, n + 1))
  {
    hide Encodes, Does, GoodList, NameIn, PassedOver;
    var done := WritesUpTo(l, n);
    NotYetNamed(l, n, done);
    assert WritesUpTo(l, n + 1) == done + {n};
    var s := if TakesEffect(l, s0, tx, n)
      then Updated(store, NameAt(l, n), Does(l.as_[n], Doc(s0, NameAt(l, n)), l.add).fields, now) else store;
    OneMoreDone(l, s0, tx, store, done, n, s);
  }

  lemma OthersNamed(l: ActionList, done: set<nat>, n: nat)
    requires n < |l.as_|
    ensures forall name :: NameIn(l, name, done + {n}) <==> NameIn(l, name, done) || name == NameAt(l, n)
    ensures forall i :: i in done && i < |l.as_| ==> NameIn(l, NameAt(l, i), done)
  {
    forall name ensures NameIn(l, name, done + {n}) <==> NameIn(l, name, done) || name == NameAt(l, n) {
      assert n in done + {n};
      if NameIn(l, name, done) {
        var i :| i in done && i < |l.as_| && NameAt(l, i) == name;
        assert i in done + {n};
      }
    }
  }

  /** The write is part of the transaction and is refused when it arrives. */
  ghost predicate Refuses(l: ActionList, s0: Store, i: nat) {
    Sent(l, i) && i !in l.dropped && KeyedAtomic(l.as_[i]) && !Does(l.as_[i], Doc(s0, NameAt(l, i)), l.add).Becomes?
  }

  /** One more action reports what is expected of it. */
  lemma NextExpected(l: ActionList, s0: Store, tx: bool, p: Progress, n: nat, stamp: nat -> nat)
    requires GoodList(l) && n < |l.as_| && StoreAfter(l, s0, tx, p.store, WritesUpTo(l, n))
    ensures
      var q := Next(l, tx, p, n, stamp);
      q.results == p.results + [Expected(l, s0, tx, n)] && StoreAfter(l, s0, tx, q.store, WritesUpTo(l, n + 1))
      && (tx ==> (q.refused <==> p.refused || Refuses(l, s0, n)))
  {
    hide Encodes, Does, StoreAfter, WrittenBefore, WriterBefore, DocAfter, PassedOver, WellFormed, NamesApart, NameOf,
      Updated;
    if IsGet(l.as_[n]) {
      forall j: nat | Sent(l, j) && NameAt(l, j) == NameAt(l, n) ensures j in WritesUpTo(l, n) <==> j < n {}
      ReadExpected(l, s0, tx, p.store, WritesUpTo(l, n), n);
      assert WritesUpTo(l, n + 1) == WritesUpTo(l, n);
    } else {
      WriteInOrder(l, s0, tx, p.store, n, stamp(n));
    }
  }

  /** In order, every action reports what is expected. */
  lemma {:induction false} InOrderExpected(l: ActionList, s0: Store, tx: bool, n: nat, stamp: nat -> nat)
    requires GoodList(l) && n <= |l.as_|
    ensures
      var p := InOrder(l, s0, tx, n, stamp);
      |p.results| == n && (forall i :: 0 <= i < n ==> p.results[i] == Expected(l, s0, tx, i))
      && StoreAfter(l, s0, tx, p.store, WritesUpTo(l, n))
      && (tx ==> (p.refused <==> exists i: nat :: i < n && Refuses(l, s0, i)))
  {
    hide GoodList, StoreAfter, Expected, Refuses, Next, WritesUpTo;
    if n == 0 {
      NothingDone(l, s0, tx);
    } else {
      InOrderExpected(l, s0, tx, n - 1, stamp);
      NextExpected(l, s0, tx, InOrder(l, s0, tx, n - 1, stamp), n - 1, stamp);
    }
  }

  lemma NothingDone(l: ActionList, s0: Store, tx: bool)
    ensures StoreAfter(l, s0, tx, s0, {}) && WritesUpTo(l, 0) == {}
  {
  }

  /** Every write of the transaction that arrives would succeed alone. */
  ghost predicate TxSucceeds(l: ActionList, s0: Store) {
    forall i: nat :: i < |l.as_| ==> !Refuses(l, s0, i)
  }

  /** The meaning of a list, action by action. */
  lemma MeaningExpected(l: ActionList, s0: Store, stamp: nat -> nat)
    requires GoodList(l)
    ensures
      var p, tx := Meaning(l, s0, stamp), TxSucceeds(l, s0);
      |p.results| == |l.as_| && (forall i :: 0 <= i < |l.as_| ==> p.results[i] == Expected(l, s0, tx, i))
      && StoreAfter(l, s0, tx, p.store, WritesUpTo(l, |l.as_|))
  {
    hide GoodList, StoreAfter, Expected, Refuses;
    InOrderExpected(l, s0, true, |l.as_|, stamp);
    InOrderExpected(l, s0, false, |l.as_|, stamp);
  }
}
