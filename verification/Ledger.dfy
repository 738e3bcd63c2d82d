/**
  Runs of statements against the trigger-protected tables. A multi-row UPDATE checks row
  by row; RAISE(FAIL) stops the statement at the first refused row and keeps the rows
  already changed. INSERT OR REPLACE and UPDATE OR REPLACE remove the rows they conflict with
  without firing the DELETE triggers, because no connection turns recursive_triggers on. For
  every run this module says exactly when a row, and exactly when past knowledge, stays as it was.
 */
module Ledger {
  import opened Options
  import opened AppendOnly

  datatype Key = Key(table: Table, id: int)

  type Db = map<Key, Row>

  /**
    One row's part of an UPDATE: a new image from SQL, or what an ORM instance has dirty. `evicted`
    are the rows that conflict with the new image on a unique key, for UPDATE OR REPLACE; an
    ordinary UPDATE has none.
   */
  datatype Change = Image(id: int, row: Row, evicted: set<int>) | FromInstance(x: Instance)

  datatype Statement =
    | Insert(table: Table, row: Row)
    | Update(table: Table, changes: seq<Change>)                 // in scan order
    | Delete(table: Table, ids: seq<int>)
    | OrmFlush(table: Table, instances: seq<Instance>)
    | Replace(table: Table, row: Row, evicted: set<int>)         // evicted: rows that conflict on another unique key

  ghost function Target(c: Change): int {
    match c
    case Image(id, _, _) => id
    case FromInstance(x) => Cell(x.loaded, Id).GetOr(0)
  }

  /** The row image the change asks for, from the row as it is stored by then. */
  ghost function Asked(c: Change, stored: Row): Row {
    match c
    case Image(_, row, _) => row
    case FromInstance(x) => Emitted(stored, x)
  }

  /** An instance without dirty columns emits no UPDATE. */
  ghost predicate Idle(c: Change) {
    c.FromInstance? && Dirty(c.x) == {}
  }

  /** The trigger fires before the conflicting rows are removed, and only for the row itself. */
  ghost predicate Takes(db: Db, t: Table, c: Change) {
    var k := Key(t, Target(c));
    !Idle(c) && k in db && UpdateAllowed(t, db[k], Asked(c, db[k]))
  }

  ghost predicate Stops(db: Db, t: Table, c: Change) {
    var k := Key(t, Target(c));
    !Idle(c) && k in db && !UpdateAllowed(t, db[k], Asked(c, db[k]))
  }

  function Evicted(c: Change): set<int> {
    match c
    case Image(id, _, evicted) => evicted - {id}
    case FromInstance(_) => {}
  }

  ghost function Without(db: Db, t: Table, ids: set<int>): Db {
    db - set id | id in ids :: Key(t, id)
  }

  ghost function Written(db: Db, t: Table, c: Change): Db
    requires Takes(db, t, c)
  {
    var k := Key(t, Target(c));
    Without(db, t, Evicted(c))[k := Asked(c, db[k])]
  }

  /** Row by row: unmatched ids are skipped, the first refused image stops the statement. */
  ghost function Updated(db: Db, t: Table, changes: seq<Change>): Db {
    if changes == [] || Stops(db, t, changes[0]) then db
    else if Takes(db, t, changes[0]) then Updated(Written(db, t, changes[0]), t, changes[1..])
    else Updated(db, t, changes[1..])
  }

  function FromAll(instances: seq<Instance>): seq<Change> {
    seq(|instances|, i requires 0 <= i < |instances| => FromInstance(instances[i]))
  }

  ghost predicate AllFlushAllowed(instances: seq<Instance>) {
    forall i :: 0 <= i < |instances| ==> FlushAllowed(instances[i])
  }

  ghost function Replaced(db: Db, t: Table, row: Row, evicted: set<int>): Db {
    if Cell(row, Id) == None then db
    else Without(db, t, evicted)[Key(t, Cell(row, Id).value) := row]
  }

  ghost function After(db: Db, s: Statement): Db {
    match s
    case Insert(t, row) =>
      if Cell(row, Id).Some? && Key(t, Cell(row, Id).value) !in db
      then db[Key(t, Cell(row, Id).value) := row] else db
    case Update(t, changes) => Updated(db, t, changes)
    case Delete(_, _) => db                            // BEFORE DELETE refuses every row of every one of these tables
    case OrmFlush(t, instances) => if AllFlushAllowed(instances) then Updated(db, t, FromAll(instances)) else db
    case Replace(t, row, evicted) => Replaced(db, t, row, evicted)
  }

  ghost function AfterAll(db: Db, run: seq<Statement>): Db {
    if run == [] then db else After(AfterAll(db, run[..|run| - 1]), run[|run| - 1])
  }

  // ---- immutability ----

  predicate Frozen(t: Table, c: Column) {
    if Whitelisted(t) then c in NonWhitelistedColumns(t)
    else if t == ResearchFacts then c in FACT_COLUMNS
    else true
  }

  ghost predicate KeepsRow(t: Table, r1: Row, r2: Row) {
    forall c :: Frozen(t, c) ==> Cell(r1, c) == Cell(r2, c)
  }

  /** The row is still there with every frozen column of `row`. */
  ghost predicate Kept(db: Db, k: Key, row: Row) {
    k in db && KeepsRow(k.table, row, db[k])
  }

  /** An accepted change of the UPDATE conflicts with row k, which is removed. */
  ghost predicate Evicts(db: Db, t: Table, changes: seq<Change>, k: Key) {
    changes != [] && !Stops(db, t, changes[0]) &&
    if Takes(db, t, changes[0]) then
      (t == k.table && k.id in Evicted(changes[0])) || Evicts(Written(db, t, changes[0]), t, changes[1..], k)
    else Evicts(db, t, changes[1..], k)
  }

  /** An INSERT OR REPLACE that changes a frozen column of row k, or removes it. */
  ghost predicate Overwrites(s: Statement, k: Key, row: Row) {
    && s.Replace? && s.table == k.table && Cell(s.row, Id).Some?
    && if Cell(s.row, Id).value == k.id then !KeepsRow(k.table, row, s.row) else k.id in s.evicted
  }

  /** What gets past the triggers: an INSERT OR REPLACE over row k, or an UPDATE OR REPLACE that evicts it. */
  ghost predicate Clobbers(db: Db, s: Statement, k: Key, row: Row) {
    Overwrites(s, k, row) || (s.Update? && Evicts(db, s.table, s.changes, k))
  }

  lemma AllowedKeepsRow(t: Table, r1: Row, r2: Row)
    requires UpdateAllowed(t, r1, r2)
    ensures KeepsRow(t, r1, r2)
  {
  }

  /** A multi-row UPDATE, stopped part-way or not, keeps the frozen columns of exactly the rows it does not evict. */
  lemma {:induction false} UpdatedKeepsExactly(db: Db, t: Table, changes: seq<Change>, k: Key, row: Row)
    requires Kept(db, k, row)
    ensures Kept(Updated(db, t, changes), k, row) <==> !Evicts(db, t, changes, k)
    decreases |changes|
  {
    if changes == [] || Stops(db, t, changes[0]) {
    } else if Takes(db, t, changes[0]) {
      var next := Written(db, t, changes[0]);
      if t == k.table && k.id in Evicted(changes[0]) {
        StaysGone(next, t, changes[1..], k);
      } else {
        if Key(t, Target(changes[0])) == k {
          AllowedKeepsRow(t, db[k], Asked(changes[0], db[k]));
        }
        UpdatedKeepsExactly(next, t, changes[1..], k, row);
      }
    } else {
      UpdatedKeepsExactly(db, t, changes[1..], k, row);
    }
  }

  /** An UPDATE brings no row back. */
  lemma {:induction false} StaysGone(db: Db, t: Table, changes: seq<Change>, k: Key)
    requires k !in db
    ensures k !in Updated(db, t, changes)
    decreases |changes|
  {
    if changes == [] || Stops(db, t, changes[0]) {
    } else if Takes(db, t, changes[0]) {
      StaysGone(Written(db, t, changes[0]), t, changes[1..], k);
    } else {
      StaysGone(db, t, changes[1..], k);
    }
  }

  lemma {:induction false} PlainUpdatesEvictNothing(db: Db, t: Table, changes: seq<Change>, k: Key)
    requires forall i :: 0 <= i < |changes| ==> Evicted(changes[i]) == {}
    ensures !Evicts(db, t, changes, k)
    decreases |changes|
  {
    if changes == [] || Stops(db, t, changes[0]) {
    } else if Takes(db, t, changes[0]) {
      PlainUpdatesEvictNothing(Written(db, t, changes[0]), t, changes[1..], k);
    } else {
      PlainUpdatesEvictNothing(db, t, changes[1..], k);
    }
  }

  lemma StepKeepsExactly(db: Db, s: Statement, k: Key, row: Row)
    requires Kept(db, k, row)
    ensures Kept(After(db, s), k, row) <==> !Clobbers(db, s, k, row)
  {
    match s
    case Update(t, changes) => UpdatedKeepsExactly(db, t, changes, k, row);
    case OrmFlush(t, instances) =>
      UpdatedKeepsExactly(db, t, FromAll(instances), k, row);
      PlainUpdatesEvictNothing(db, t, FromAll(instances), k);
    case _ =>
  }

  ghost predicate KeptUntil(db: Db, run: seq<Statement>, n: nat, k: Key, row: Row)
    requires n <= |run|
  {
    Kept(AfterAll(db, run[..n]), k, row)
  }

  ghost predicate ClobberedBy(db: Db, run: seq<Statement>, n: nat, k: Key, row: Row)
    requires n < |run|
  {
    Clobbers(AfterAll(db, run[..n]), run[n], k, row)
  }

  lemma NextKeptExactly(db: Db, run: seq<Statement>, n: nat, k: Key, row: Row)
    requires n < |run| && KeptUntil(db, run, n, k, row)
    ensures KeptUntil(db, run, n + 1, k, row) <==> !ClobberedBy(db, run, n, k, row)
  {
    assert run[..n + 1][..n] == run[..n];
    StepKeepsExactly(AfterAll(db, run[..n]), run[n], k, row);
  }

  lemma {:induction false} RowStaysUpTo(db: Db, run: seq<Statement>, k: Key, row: Row, m: nat)
    requires Kept(db, k, row) && m <= |run|
    ensures (forall n :: 0 <= n <= m ==> KeptUntil(db, run, n, k, row)) <==>
            forall n :: 0 <= n < m ==> !ClobberedBy(db, run, n, k, row)
  {
    if m == 0 {
      assert run[..0] == [];
    } else {
      RowStaysUpTo(db, run, k, row, m - 1);
      if KeptUntil(db, run, m - 1, k, row) {
        NextKeptExactly(db, run, m - 1, k, row);
      }
    }
  }

  /** A row keeps its frozen columns throughout a run exactly when no statement of it clobbers the row as it then is. */
  lemma RowStaysExactly(db: Db, run: seq<Statement>, k: Key, row: Row)
    requires Kept(db, k, row)
    ensures (forall n :: 0 <= n <= |run| ==> KeptUntil(db, run, n, k, row)) <==>
            forall n :: 0 <= n < |run| ==> !ClobberedBy(db, run, n, k, row)
  {
    RowStaysUpTo(db, run, k, row, |run|);
  }

  /**
    Over every run of ORM and raw statements, from any state, no row of it disappears or changes
    a frozen column exactly when no INSERT OR REPLACE hits one with other frozen values and no
    accepted UPDATE OR REPLACE evicts one.
   */
  lemma LedgerIsImmutable(db: Db, run: seq<Statement>)
    ensures (forall k, n :: k in db && 0 <= n <= |run| ==> KeptUntil(db, run, n, k, db[k])) <==>
            forall k, n :: k in db && 0 <= n < |run| ==> !ClobberedBy(db, run, n, k, db[k])
  {
    forall k | k in db
      ensures (forall n :: 0 <= n <= |run| ==> KeptUntil(db, run, n, k, db[k])) <==>
              forall n :: 0 <= n < |run| ==> !ClobberedBy(db, run, n, k, db[k])
    {
      RowStaysExactly(db, run, k, db[k]);
    }
  }

  /** A fully locked table accepts no UPDATE, so none evicts from it. */
  lemma {:induction false} LockedEvictsNothing(db: Db, t: Table, changes: seq<Change>, k: Key)
    requires FullyLocked(k.table)
    ensures !Evicts(db, t, changes, k)
    decreases |changes|
  {
    if changes == [] || Stops(db, t, changes[0]) {
    } else if Takes(db, t, changes[0]) {
      LockedEvictsNothing(Written(db, t, changes[0]), t, changes[1..], k);
    } else {
      LockedEvictsNothing(db, t, changes[1..], k);
    }
  }

  /** A row of a fully locked table is the same, cell by cell, in every later state unless INSERT OR REPLACE hits it. */
  lemma LockedRowNeverChanges(db: Db, run: seq<Statement>, k: Key, c: Column)
    requires k in db && FullyLocked(k.table)
    requires forall n :: 0 <= n < |run| ==> !Overwrites(run[n], k, db[k])
    ensures k in AfterAll(db, run) && Cell(AfterAll(db, run)[k], c) == Cell(db[k], c)
  {
    forall n | 0 <= n < |run| ensures !ClobberedBy(db, run, n, k, db[k]) {
      if run[n].Update? {
        LockedEvictsNothing(AfterAll(db, run[..n]), run[n].table, run[n].changes, k);
      }
    }
    RowStaysExactly(db, run, k, db[k]);
    assert KeptUntil(db, run, |run|, k, db[k]) && run[..|run|] == run;
    assert Frozen(k.table, c);
  }

  /** The statement that gets past the triggers: replacing a fill changes its quantity. */
  lemma ReplaceOverwritesFill()
    ensures var k, old_ := Key(Fills, 1), map[Id := Some(1), Quantity := Some(5)];
            var s := Replace(Fills, map[Id := Some(1), Quantity := Some(9)], {});
            Overwrites(s, k, old_) && Cell(After(map[k := old_], s)[k], Quantity) == Some(9)
  {
    assert Frozen(Fills, Quantity);
  }

  /** An UPDATE OR REPLACE that the trigger accepts erases every row it conflicts with. */
  lemma EvictionErases(db: Db, t: Table, id: int, image: Row, victim: int)
    requires Key(t, id) in db && UpdateAllowed(t, db[Key(t, id)], image) && victim != id
    ensures var s := Update(t, [Image(id, image, {victim})]);
            && Key(t, victim) !in After(db, s) && Key(t, id) in After(db, s)
            && Evicts(db, t, s.changes, Key(t, victim))
  {
    var c := Image(id, image, {victim});
    assert Asked(c, db[Key(t, id)]) == image && Takes(db, t, c) && [c][1..] == [];
    assert Updated(Written(db, t, c), t, []) == Written(db, t, c);
    assert Updated(db, t, [c]) == Updated(Written(db, t, c), t, [c][1..]);
  }

  /** Giving an order a broker order id that another order holds erases the other order. */
  lemma UpdateOrReplaceErasesOrder()
    ensures var a, b := map[Id := Some(1), BrokerOrderId := None], map[Id := Some(2), BrokerOrderId := Some(7)];
            var s := Update(Orders, [Image(1, a[BrokerOrderId := Some(7)], {2})]);
            Key(Orders, 2) !in After(map[Key(Orders, 1) := a, Key(Orders, 2) := b], s)
  {
    var a, b := map[Id := Some(1), BrokerOrderId := None], map[Id := Some(2), BrokerOrderId := Some(7)];
    EvictionErases(map[Key(Orders, 1) := a, Key(Orders, 2) := b], Orders, 1, a[BrokerOrderId := Some(7)], 2);
  }

  /** The dedupe key is outside the trigger's list, so it may change in the UPDATE that closes the fact. */
  function ClosedWithKey(a: Row, key: int, now: int): Row {
    a[DedupeKey := Some(key)][RecordedTo := Some(now)]
  }

  lemma ClosingMayChangeKey(a: Row, key: int, now: int)
    requires Cell(a, RecordedTo) == None
    ensures UpdateAllowed(ResearchFacts, a, ClosedWithKey(a, key, now))
  {
    assert DedupeKey !in FACT_COLUMNS && RecordedTo !in FACT_COLUMNS;
    forall c | c in FACT_COLUMNS ensures Cell(a, c) == Cell(ClosedWithKey(a, key, now), c) {
    }
  }

  /** Closing any open fact while giving it the dedupe key of another fact erases the other one, closed or not. */
  lemma UpdateOrReplaceErasesFact(db: Db, id: int, victim: int, key: int, now: int)
    requires Key(ResearchFacts, id) in db && Key(ResearchFacts, victim) in db && victim != id
    requires Cell(db[Key(ResearchFacts, id)], RecordedTo) == None
    ensures var s := Update(ResearchFacts, [Image(id, ClosedWithKey(db[Key(ResearchFacts, id)], key, now), {victim})]);
            Key(ResearchFacts, victim) !in After(db, s)
  {
    var a := db[Key(ResearchFacts, id)];
    ClosingMayChangeKey(a, key, now);
    EvictionErases(db, ResearchFacts, id, ClosedWithKey(a, key, now), victim);
  }

  // ---- one-shot supersession ----

  /** How many changes of row k a multi-row UPDATE gets accepted. */
  ghost function Accepted(db: Db, t: Table, changes: seq<Change>, k: Key): nat {
    if changes == [] || Stops(db, t, changes[0]) then 0
    else if Takes(db, t, changes[0]) then
      (if Key(t, Target(changes[0])) == k then 1 else 0) + Accepted(Written(db, t, changes[0]), t, changes[1..], k)
    else Accepted(db, t, changes[1..], k)
  }

  ghost function AcceptedBy(db: Db, s: Statement, k: Key): nat {
    match s
    case Update(t, changes) => Accepted(db, t, changes, k)
    case OrmFlush(t, instances) => if AllFlushAllowed(instances) then Accepted(db, t, FromAll(instances), k) else 0
    case _ => 0
  }

  ghost function AcceptedInRun(db: Db, run: seq<Statement>, k: Key): nat {
    if run == [] then 0
    else
      AcceptedInRun(db, run[..|run| - 1], k) + AcceptedBy(AfterAll(db, run[..|run| - 1]), run[|run| - 1], k)
  }

  /** A fact whose recorded_to is set cannot be updated again. */
  ghost function Closed(db: Db, k: Key): nat {
    if k in db && Cell(db[k], RecordedTo).Some? then 1 else 0
  }

  /** A fact closed already, or by the statement itself, is put back open or removed so that it can be inserted anew. */
  ghost predicate Reopens(db: Db, s: Statement, k: Key) {
    && Closed(db, k) + AcceptedBy(db, s, k) > 0
    && match s
       case Replace(t, row, evicted) =>
         t == k.table && Cell(row, Id).Some?
         && if Cell(row, Id).value == k.id then Cell(row, RecordedTo) == None else k.id in evicted
       case Update(t, changes) => Evicts(db, t, changes, k)
       case _ => false
  }

  lemma WrittenCloses(db: Db, t: Table, c: Change, k: Key)
    requires k.table == ResearchFacts && Takes(db, t, c) && !(t == k.table && k.id in Evicted(c))
    ensures (if Key(t, Target(c)) == k then 1 else 0) + Closed(db, k) <= Closed(Written(db, t, c), k)
  {
  }

  lemma {:induction false} AcceptedOnce(db: Db, t: Table, changes: seq<Change>, k: Key)
    requires k.table == ResearchFacts && !Evicts(db, t, changes, k)
    ensures Accepted(db, t, changes, k) + Closed(db, k) <= Closed(Updated(db, t, changes), k)
    decreases |changes|
  {
    if changes == [] || Stops(db, t, changes[0]) {
    } else if Takes(db, t, changes[0]) {
      WrittenCloses(db, t, changes[0], k);
      AcceptedOnce(Written(db, t, changes[0]), t, changes[1..], k);
    } else {
      AcceptedOnce(db, t, changes[1..], k);
    }
  }

  lemma {:induction false} EvictedIsGone(db: Db, t: Table, changes: seq<Change>, k: Key)
    requires Evicts(db, t, changes, k)
    ensures k !in Updated(db, t, changes)
    decreases |changes|
  {
    if Takes(db, t, changes[0]) {
      var next := Written(db, t, changes[0]);
      if t == k.table && k.id in Evicted(changes[0]) {
        StaysGone(next, t, changes[1..], k);
      } else {
        EvictedIsGone(next, t, changes[1..], k);
      }
    } else {
      EvictedIsGone(db, t, changes[1..], k);
    }
  }

  /** A closed fact stays closed exactly under the statements that do not reopen it. */
  lemma ClosedStaysExactly(db: Db, s: Statement, k: Key)
    requires k.table == ResearchFacts && Closed(db, k) == 1
    ensures Closed(After(db, s), k) == 1 <==> !Reopens(db, s, k)
  {
    match s
    case Update(t, changes) =>
      if Evicts(db, t, changes, k) { EvictedIsGone(db, t, changes, k); } else { AcceptedOnce(db, t, changes, k); }
    case OrmFlush(t, instances) =>
      PlainUpdatesEvictNothing(db, t, FromAll(instances), k);
      AcceptedOnce(db, t, FromAll(instances), k);
    case _ =>
  }

  ghost predicate ReopenedBy(db: Db, run: seq<Statement>, n: nat, k: Key)
    requires n < |run|
  {
    Reopens(AfterAll(db, run[..n]), run[n], k)
  }

  lemma StepAcceptsOnce(db: Db, s: Statement, k: Key)
    requires k.table == ResearchFacts && !Reopens(db, s, k)
    ensures AcceptedBy(db, s, k) + Closed(db, k) <= Closed(After(db, s), k)
  {
    if Closed(db, k) == 1 {
      ClosedStaysExactly(db, s, k);
    }
    match s
    case Update(t, changes) => if !Evicts(db, t, changes, k) { AcceptedOnce(db, t, changes, k); }
    case OrmFlush(t, instances) =>
      PlainUpdatesEvictNothing(db, t, FromAll(instances), k);
      AcceptedOnce(db, t, FromAll(instances), k);
    case _ =>
  }

  /** While nothing reopens it a research fact accepts one UPDATE at most, ORM or raw, and by it gets a recorded_to. */
  lemma {:induction false} FactUpdatedAtMostOnce(run: seq<Statement>, k: Key)
    requires k.table == ResearchFacts && forall n :: 0 <= n < |run| ==> !ReopenedBy(map[], run, n, k)
    ensures AcceptedInRun(map[], run, k) <= Closed(AfterAll(map[], run), k) <= 1
  {
    if run == [] {
    } else {
      var m := |run| - 1;
      forall n | 0 <= n < m ensures !ReopenedBy(map[], run[..m], n, k) {
        assert !ReopenedBy(map[], run, n, k) && run[..m][..n] == run[..n];
      }
      FactUpdatedAtMostOnce(run[..m], k);
      assert !ReopenedBy(map[], run, m, k);
      StepAcceptsOnce(AfterAll(map[], run[..m]), run[m], k);
    }
  }

  lemma RunAppend(db: Db, run: seq<Statement>, s: Statement, k: Key)
    ensures AfterAll(db, run + [s]) == After(AfterAll(db, run), s)
    ensures AcceptedInRun(db, run + [s], k) == AcceptedInRun(db, run, k) + AcceptedBy(AfterAll(db, run), s, k)
  {
    assert (run + [s])[..|run|] == run;
  }

  lemma ClosingIsAccepted(db: Db, k: Key, image: Row)
    requires k.table == ResearchFacts && k in db && UpdateAllowed(ResearchFacts, db[k], image)
    ensures var s := Update(ResearchFacts, [Image(k.id, image, {})]);
            After(db, s) == db[k := image] && AcceptedBy(db, s, k) == 1
  {
    var c, next := Image(k.id, image, {}), db[k := image];
    assert Key(ResearchFacts, Target(c)) == k && Asked(c, db[k]) == image && Takes(db, ResearchFacts, c);
    assert Written(db, ResearchFacts, c) == next && [c][1..] == [];
    assert Updated(next, ResearchFacts, []) == next && Accepted(next, ResearchFacts, [], k) == 0;
    assert Updated(db, ResearchFacts, [c]) == Updated(next, ResearchFacts, [c][1..]);
    assert Accepted(db, ResearchFacts, [c], k) == 1 + Accepted(next, ResearchFacts, [c][1..], k);
  }

  /** The same statement gets past that: closed, replaced by its open version and closed again, a fact accepts two. */
  lemma ReplacedFactIsUpdatedTwice(db: Db, k: Key, image: Row) returns (run: seq<Statement>)
    requires k.table == ResearchFacts && k in db && Cell(db[k], Id) == Some(k.id)
    requires UpdateAllowed(ResearchFacts, db[k], image)
    ensures AcceptedInRun(db, run, k) == 2
  {
    var close, reopen := Update(ResearchFacts, [Image(k.id, image, {})]), Replace(ResearchFacts, db[k], {});
    ClosingIsAccepted(db, k, image);
    RunAppend(db, [], close, k);
    RunAppend(db, [] + [close], reopen, k);
    var reopened := After(After(db, close), reopen);
    assert reopened[k] == db[k];
    ClosingIsAccepted(reopened, k, image);
    RunAppend(db, [] + [close] + [reopen], close, k);
    run := [] + [close] + [reopen] + [close];
  }

  // ---- bitemporal stability ----

  /** The dual-axis predicate: valid at `at`, and known at `at`. */
  ghost predicate VisibleAt(r: Row, at: int) {
    && Cell(r, EffectiveFrom).Some? && Cell(r, EffectiveFrom).value <= at
    && (Cell(r, EffectiveTo).Some? ==> at < Cell(r, EffectiveTo).value)
    && Cell(r, RecordedFrom).Some? && Cell(r, RecordedFrom).value <= at
    && (Cell(r, RecordedTo).Some? ==> at < Cell(r, RecordedTo).value)
  }

  /** The ids of the facts as_of returns for the universe rows of a symbol. */
  ghost predicate AsOf(db: Db, universe: set<int>, at: int, id: int) {
    var k := Key(ResearchFacts, id);
    && k in db && VisibleAt(db[k], at)
    && Cell(db[k], SymbolUniverseId).Some? && Cell(db[k], SymbolUniverseId).value in universe
  }

  ghost predicate SameAsOf(db1: Db, db2: Db, at: int) {
    forall universe, id :: AsOf(db1, universe, at, id) <==> AsOf(db2, universe, at, id)
  }

  /** The universe row under which a row is returned at `at`, if it is. */
  ghost function SeenRow(r: Row, at: int): Option<int> {
    if VisibleAt(r, at) then Cell(r, SymbolUniverseId) else None
  }

  ghost function Seen(db: Db, id: int, at: int): Option<int> {
    if Key(ResearchFacts, id) in db then SeenRow(db[Key(ResearchFacts, id)], at) else None
  }

  lemma AsOfIsSeen(db: Db, universe: set<int>, at: int, id: int)
    ensures AsOf(db, universe, at, id) <==> Seen(db, id, at).Some? && Seen(db, id, at).value in universe
  {
  }

  lemma SameAsOfIsSameSeen(db1: Db, db2: Db, at: int)
    ensures SameAsOf(db1, db2, at) <==> forall id :: Seen(db1, id, at) == Seen(db2, id, at)
  {
    if SameAsOf(db1, db2, at) {
      forall id ensures Seen(db1, id, at) == Seen(db2, id, at) {
        var u1, u2 := Seen(db1, id, at), Seen(db2, id, at);
        AsOfIsSeen(db1, {u1.GetOr(0)}, at, id);
        AsOfIsSeen(db2, {u1.GetOr(0)}, at, id);
        AsOfIsSeen(db1, {u2.GetOr(0)}, at, id);
        AsOfIsSeen(db2, {u2.GetOr(0)}, at, id);
      }
    } else {
      var universe, id :| AsOf(db1, universe, at, id) != AsOf(db2, universe, at, id);
      AsOfIsSeen(db1, universe, at, id);
      AsOfIsSeen(db2, universe, at, id);
    }
  }

  /** An accepted supersession changes what is known at `at` exactly when it closes a visible fact at `at` or before. */
  lemma SupersessionChangesPastExactly(db: Db, k: Key, image: Row, universe: set<int>, at: int)
    requires k in db && k.table == ResearchFacts && UpdateAllowed(ResearchFacts, db[k], image)
    ensures (AsOf(db, universe, at, k.id) <==> AsOf(db[k := image], universe, at, k.id)) <==>
            !(AsOf(db, universe, at, k.id) && Cell(image, RecordedTo).value <= at)
    ensures SeenRow(image, at) == if Cell(image, RecordedTo).value <= at then None else SeenRow(db[k], at)
  {
    assert SameOn(FACT_COLUMNS, db[k], image);
    assert EffectiveFrom in FACT_COLUMNS && EffectiveTo in FACT_COLUMNS && RecordedFrom in FACT_COLUMNS;
    assert SymbolUniverseId in FACT_COLUMNS;
  }

  /** An accepted insert changes what is known at `at` exactly when the new row is itself visible there. */
  lemma InsertChangesPastExactly(db: Db, row: Row, at: int)
    requires Cell(row, Id).Some? && Key(ResearchFacts, Cell(row, Id).value) !in db
    ensures SameAsOf(db, After(db, Insert(ResearchFacts, row)), at) <==>
            !(VisibleAt(row, at) && Cell(row, SymbolUniverseId).Some?)
  {
    var next := After(db, Insert(ResearchFacts, row));
    SameAsOfIsSameSeen(db, next, at);
    assert Seen(next, Cell(row, Id).value, at) == SeenRow(row, at);
  }

  /** A row that carries a publication date: marked as known from 5, it changes what was known at 7. */
  lemma BackdatedInsertChangesPast()
    ensures var row := map[Id := Some(1), EffectiveFrom := Some(5), RecordedFrom := Some(5),
                           SymbolUniverseId := Some(1)];
            !SameAsOf(map[], After(map[], Insert(ResearchFacts, row)), 7)
  {
    var row := map[Id := Some(1), EffectiveFrom := Some(5), RecordedFrom := Some(5), SymbolUniverseId := Some(1)];
    InsertChangesPastExactly(map[], row, 7);
  }

  /** Some accepted change of the UPDATE closes the visible fact id at or before `at`, or evicts it. */
  ghost predicate HidesSeen(db: Db, changes: seq<Change>, id: int, at: int) {
    changes != [] && !Stops(db, ResearchFacts, changes[0]) &&
    var c, k := changes[0], Key(ResearchFacts, Target(changes[0]));
    if Takes(db, ResearchFacts, c) then
      (Seen(db, id, at).Some? && k.id == id && Cell(Asked(c, db[k]), RecordedTo).value <= at)
      || (Seen(db, id, at).Some? && id in Evicted(c))
      || HidesSeen(Written(db, ResearchFacts, c), changes[1..], id, at)
    else HidesSeen(db, changes[1..], id, at)
  }

  lemma WrittenSeen(db: Db, c: Change, id: int, at: int)
    requires Takes(db, ResearchFacts, c)
    ensures var k := Key(ResearchFacts, Target(c));
            Seen(Written(db, ResearchFacts, c), id, at) ==
            if id in Evicted(c) || (k.id == id && Cell(Asked(c, db[k]), RecordedTo).value <= at) then None
            else Seen(db, id, at)
  {
    var k := Key(ResearchFacts, Target(c));
    SupersessionChangesPastExactly(db, k, Asked(c, db[k]), {}, at);
  }

  lemma {:induction false} UpdatedSeen(db: Db, changes: seq<Change>, id: int, at: int)
    ensures Seen(Updated(db, ResearchFacts, changes), id, at) ==
            if HidesSeen(db, changes, id, at) then None else Seen(db, id, at)
    ensures HidesSeen(db, changes, id, at) ==> Seen(db, id, at).Some?
    decreases |changes|
  {
    if changes == [] || Stops(db, ResearchFacts, changes[0]) {
    } else if Takes(db, ResearchFacts, changes[0]) {
      WrittenSeen(db, changes[0], id, at);
      UpdatedSeen(Written(db, ResearchFacts, changes[0]), changes[1..], id, at);
    } else {
      UpdatedSeen(db, changes[1..], id, at);
    }
  }

  lemma {:induction false} UpdatedElsewhere(db: Db, t: Table, changes: seq<Change>, id: int, at: int)
    requires t != ResearchFacts
    ensures Seen(Updated(db, t, changes), id, at) == Seen(db, id, at)
    decreases |changes|
  {
    if changes == [] || Stops(db, t, changes[0]) {
    } else if Takes(db, t, changes[0]) {
      UpdatedElsewhere(Written(db, t, changes[0]), t, changes[1..], id, at);
    } else {
      UpdatedElsewhere(db, t, changes[1..], id, at);
    }
  }

  /** How a statement changes the answer at `at`: a visible row appears, is closed, is evicted or is replaced. */
  ghost predicate Unsettles(db: Db, s: Statement, id: int, at: int) {
    && s.table == ResearchFacts
    && match s
       case Insert(_, row) =>
         Cell(row, Id) == Some(id) && Key(ResearchFacts, id) !in db && SeenRow(row, at).Some?
       case Update(_, changes) => HidesSeen(db, changes, id, at)
       case Delete(_, _) => false
       case OrmFlush(_, instances) => AllFlushAllowed(instances) && HidesSeen(db, FromAll(instances), id, at)
       case Replace(_, row, evicted) =>
         && Cell(row, Id).Some?
         && if Cell(row, Id).value == id then SeenRow(row, at) != Seen(db, id, at)
            else id in evicted && Seen(db, id, at).Some?
  }

  lemma StepUnsettlesExactly(db: Db, s: Statement, id: int, at: int)
    ensures Seen(After(db, s), id, at) != Seen(db, id, at) <==> Unsettles(db, s, id, at)
  {
    match s
    case Update(t, changes) =>
      if t == ResearchFacts { UpdatedSeen(db, changes, id, at); } else { UpdatedElsewhere(db, t, changes, id, at); }
    case OrmFlush(t, instances) =>
      if t == ResearchFacts { UpdatedSeen(db, FromAll(instances), id, at); }
      else { UpdatedElsewhere(db, t, FromAll(instances), id, at); }
    case _ =>
  }

  ghost predicate SettledUntil(db: Db, run: seq<Statement>, n: nat, at: int)
    requires n <= |run|
  {
    SameAsOf(db, AfterAll(db, run[..n]), at)
  }

  ghost predicate UnsettledBy(db: Db, run: seq<Statement>, n: nat, at: int)
    requires n < |run|
  {
    exists id :: Unsettles(AfterAll(db, run[..n]), run[n], id, at)
  }

  lemma NextSettledExactly(db: Db, run: seq<Statement>, n: nat, at: int)
    requires n < |run| && SettledUntil(db, run, n, at)
    ensures SettledUntil(db, run, n + 1, at) <==> !UnsettledBy(db, run, n, at)
  {
    var before := AfterAll(db, run[..n]);
    assert run[..n + 1][..n] == run[..n];
    var next := After(before, run[n]);
    SameAsOfIsSameSeen(db, before, at);
    SameAsOfIsSameSeen(db, next, at);
    forall id ensures Seen(next, id, at) != Seen(db, id, at) <==> Unsettles(before, run[n], id, at) {
      StepUnsettlesExactly(before, run[n], id, at);
    }
  }

  /**
    What as_of returns for an instant is the same all along a run exactly when no statement of it
    inserts a fact visible at that instant, closes one at or before it, or does either or removes
    one by OR REPLACE.
   */
  lemma {:induction false} PastIsStableExactly(db: Db, run: seq<Statement>, at: int, m: nat)
    requires m <= |run|
    ensures (forall n :: 0 <= n <= m ==> SettledUntil(db, run, n, at)) <==>
            forall n :: 0 <= n < m ==> !UnsettledBy(db, run, n, at)
  {
    if m == 0 {
      assert run[..0] == [];
    } else {
      PastIsStableExactly(db, run, at, m - 1);
      if SettledUntil(db, run, m - 1, at) {
        NextSettledExactly(db, run, m - 1, at);
      }
    }
  }

  /** By the statement alone: nothing is recorded or closed as of `at` or before, and no fact is replaced or evicted. */
  ghost predicate LeavesPast(s: Statement, at: int) {
    s.table == ResearchFacts ==>
      match s
      case Insert(_, row) => SeenRow(row, at) == None
      case Update(_, changes) =>
        forall i :: 0 <= i < |changes| ==> ClosesAfter(changes[i], at) && Evicted(changes[i]) == {}
      case Delete(_, _) => true
      case OrmFlush(_, instances) =>
        AllFlushAllowed(instances) ==> forall i :: 0 <= i < |instances| ==> ClosesAfter(FromInstance(instances[i]), at)
      case Replace(_, _, _) => false
  }

  ghost predicate ClosesAfter(c: Change, at: int) {
    match c
    case Image(_, row, _) => Cell(row, RecordedTo).Some? ==> at < Cell(row, RecordedTo).value
    case FromInstance(x) =>
      RecordedTo in Dirty(x) && Cell(x.current, RecordedTo).Some? ==> at < Cell(x.current, RecordedTo).value
  }

  lemma {:induction false} LaterHidesNothing(db: Db, changes: seq<Change>, id: int, at: int)
    requires forall i :: 0 <= i < |changes| ==> ClosesAfter(changes[i], at) && Evicted(changes[i]) == {}
    ensures !HidesSeen(db, changes, id, at)
    decreases |changes|
  {
    if changes == [] || Stops(db, ResearchFacts, changes[0]) {
    } else {
      assert ClosesAfter(changes[0], at) && Evicted(changes[0]) == {};
      if Takes(db, ResearchFacts, changes[0]) {
        LaterHidesNothing(Written(db, ResearchFacts, changes[0]), changes[1..], id, at);
      } else {
        LaterHidesNothing(db, changes[1..], id, at);
      }
    }
  }

  lemma LeavingPastUnsettlesNothing(db: Db, s: Statement, id: int, at: int)
    requires LeavesPast(s, at)
    ensures !Unsettles(db, s, id, at)
  {
    if s.table == ResearchFacts {
      match s
      case Update(_, changes) => LaterHidesNothing(db, changes, id, at);
      case OrmFlush(_, instances) =>
        if AllFlushAllowed(instances) { LaterHidesNothing(db, FromAll(instances), id, at); }
      case _ =>
    }
  }

  lemma LeavingPastClobbersNothing(db: Db, s: Statement, at: int, k: Key, row: Row)
    requires LeavesPast(s, at) && k.table == ResearchFacts
    ensures !Clobbers(db, s, k, row)
  {
    if s.Update? {
      if s.table == ResearchFacts {
        PlainUpdatesEvictNothing(db, s.table, s.changes, k);
      } else {
        OthersEvictElsewhere(db, s.table, s.changes, k);
      }
    }
  }

  lemma {:induction false} OthersEvictElsewhere(db: Db, t: Table, changes: seq<Change>, k: Key)
    requires t != k.table
    ensures !Evicts(db, t, changes, k)
    decreases |changes|
  {
    if changes == [] || Stops(db, t, changes[0]) {
    } else if Takes(db, t, changes[0]) {
      OthersEvictElsewhere(Written(db, t, changes[0]), t, changes[1..], k);
    } else {
      OthersEvictElsewhere(db, t, changes[1..], k);
    }
  }

  /**
    Past knowledge is stable: if no later statement records or closes a fact as of `at` or before,
    what as_of returns for `at` never changes, nor do the listed columns of the facts.
   */
  lemma PastIsStable(db: Db, run: seq<Statement>, at: int)
    requires forall i :: 0 <= i < |run| ==> LeavesPast(run[i], at)
    ensures SameAsOf(db, AfterAll(db, run), at)
    ensures forall id :: Key(ResearchFacts, id) in db ==>
              && Key(ResearchFacts, id) in AfterAll(db, run)
              && SameOn(FACT_COLUMNS, db[Key(ResearchFacts, id)], AfterAll(db, run)[Key(ResearchFacts, id)])
  {
    forall n | 0 <= n < |run| ensures !UnsettledBy(db, run, n, at) {
      forall id ensures !Unsettles(AfterAll(db, run[..n]), run[n], id, at) {
        LeavingPastUnsettlesNothing(AfterAll(db, run[..n]), run[n], id, at);
      }
    }
    PastIsStableExactly(db, run, at, |run|);
    assert SettledUntil(db, run, |run|, at) && run[..|run|] == run;
    forall id | Key(ResearchFacts, id) in db
      ensures Kept(AfterAll(db, run), Key(ResearchFacts, id), db[Key(ResearchFacts, id)])
    {
      var k := Key(ResearchFacts, id);
      forall n | 0 <= n < |run| ensures !ClobberedBy(db, run, n, k, db[k]) {
        LeavingPastClobbersNothing(AfterAll(db, run[..n]), run[n], at, k, db[k]);
      }
      RowStaysExactly(db, run, k, db[k]);
      assert KeptUntil(db, run, |run|, Key(ResearchFacts, id), db[Key(ResearchFacts, id)]);
    }
  }

  /** Writers that stamp the clock: a new fact is recorded from now, a superseded one recorded to now. */
  ghost predicate StampedWith(s: Statement, now: int) {
    s.table == ResearchFacts ==>
      match s
      case Insert(_, row) => Cell(row, RecordedFrom) == Some(now)
      case Update(_, changes) =>
        forall i :: 0 <= i < |changes| ==>
          changes[i].Image? && changes[i].evicted == {} && Cell(changes[i].row, RecordedTo) == Some(now)
      case OrmFlush(_, instances) =>
        forall i :: 0 <= i < |instances| ==> instances[i].model.appendOnly && instances[i].model.mutableColumns == {}
      case Delete(_, _) => true
      case Replace(_, _, _) => false
  }

  /** Stamping the clock is one way of leaving every earlier instant alone. */
  lemma StampingLeavesPast(s: Statement, now: int, at: int)
    requires StampedWith(s, now) && at < now
    ensures LeavesPast(s, at)
  {
    if s.OrmFlush? && s.table == ResearchFacts && AllFlushAllowed(s.instances) {
      forall i | 0 <= i < |s.instances| ensures Dirty(s.instances[i]) == {} {
        assert FlushAllowed(s.instances[i]);
      }
    }
  }
}
