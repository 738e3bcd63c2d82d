/**
  Tenant isolation over whole runs of flushes and SELECTs: what rows can exist, and that
  one tenant's query results do not depend on what other tenants inserted.
 */
module TenantIsolation {
  import opened Options
  import opened TenantListener

  /** `boundAt` is history: the tenant bound when the row was flushed. */
  datatype Row = Row(entity: Entity, tenant: Option<int>, data: int, boundAt: Option<int>)

  /** An instance in session.new, with the tenant_id its creator gave it. */
  datatype Item = Item(entity: Entity, tenant: Option<int>, data: int)

  datatype Action =
    | Flush(bound: Option<int>, items: seq<Item>)
    | Select(bound: Option<int>, query: Query)

  ghost predicate Accepted(bound: Option<int>, items: seq<Item>) {
    forall i :: 0 <= i < |items| ==> StampOf(items[i].entity, items[i].tenant, bound).Flushed?
  }

  ghost function RowOf(bound: Option<int>, x: Item): Row
    requires StampOf(x.entity, x.tenant, bound).Flushed?
  {
    Row(x.entity, StampOf(x.entity, x.tenant, bound).tenant, x.data, bound)
  }

  ghost function Inserted(bound: Option<int>, items: seq<Item>): seq<Row>
    requires Accepted(bound, items)
  {
    seq(|items|, i requires 0 <= i < |items| => RowOf(bound, items[i]))
  }

  ghost function Applied(db: seq<Row>, a: Action): seq<Row> {
    if a.Flush? && Accepted(a.bound, a.items) then db + Inserted(a.bound, a.items) else db
  }

  ghost predicate Passes(criteria: seq<Criterion>, r: Row) {
    forall i :: 0 <= i < |criteria| && criteria[i].entity == r.entity ==> r.tenant == criteria[i].tenant
  }

  ghost function Matching(db: seq<Row>, touched: set<Entity>, criteria: seq<Criterion>): seq<Row> {
    if db == [] then []
    else
      var r := db[|db| - 1];
      Matching(db[..|db| - 1], touched, criteria) + if r.entity in touched && Passes(criteria, r) then [r] else []
  }

  /** The rows a query can see, or None when the listener raises. */
  ghost function Answer(registry: seq<Entity>, db: seq<Row>, q: Query, bound: Option<int>): Option<seq<Row>> {
    match Criteria(registry, q.selected, bound)
    case None => None
    case Some(criteria) => Some(Matching(db, q.touched, criteria))
  }

  /** The database after a run that starts from db. */
  ghost function After(db: seq<Row>, run: seq<Action>): seq<Row> {
    if run == [] then db else Applied(After(db, run[..|run| - 1]), run[|run| - 1])
  }

  /** The answers to every query made under tenant t, or under none, in order. */
  ghost function Answers(registry: seq<Entity>, db: seq<Row>, run: seq<Action>, t: Option<int>): seq<Option<seq<Row>>> {
    if run == [] then []
    else
      var before, a := run[..|run| - 1], run[|run| - 1];
      Answers(registry, db, before, t)
      + if a.Select? && a.bound == t then [Answer(registry, After(db, before), a.query, a.bound)] else []
  }

  /** Every class in the run is a mapped class of the registry. */
  ghost predicate Mapped(registry: seq<Entity>, run: seq<Action>) {
    forall n :: 0 <= n < |run| && run[n].Flush? ==>
      forall i :: 0 <= i < |run[n].items| ==> run[n].items[i].entity in registry
  }

  // ---- which rows can exist ----

  ghost predicate WellStamped(r: Row) {
    Guarded(r.entity) ==> r.tenant == r.boundAt && (r.tenant == None ==> r.entity.table == AUDIT_LOG)
  }

  /** Every stored row of a guarded class carries the tenant bound at its insert; only audit_log rows have none. */
  lemma {:induction false} RowsCarryTheirTenant(run: seq<Action>)
    ensures forall i :: 0 <= i < |After([], run)| ==> WellStamped(After([], run)[i])
  {
    if run == [] {
    } else {
      RowsCarryTheirTenant(run[..|run| - 1]);
    }
  }

  // ---- non-interference ----

  ghost predicate VisibleTo(t: Option<int>, r: Row) {
    Guarded(r.entity) ==> r.tenant == t
  }

  ghost function View(db: seq<Row>, t: Option<int>): seq<Row> {
    if db == [] then []
    else View(db[..|db| - 1], t) + if VisibleTo(t, db[|db| - 1]) then [db[|db| - 1]] else []
  }

  function Shared(items: seq<Item>): seq<Item> {
    if items == [] then []
    else
      var last := items[|items| - 1];
      Shared(items[..|items| - 1]) + if Guarded(last.entity) then [] else [last]
  }

  /** A step with every guarded insert that was not made under t taken out. */
  ghost function Purged(a: Action, t: Option<int>): Action {
    if a.Select? || a.bound == t then a
    else Flush(a.bound, if Accepted(a.bound, a.items) then Shared(a.items) else [])
  }

  ghost function PurgedRun(run: seq<Action>, t: Option<int>): seq<Action> {
    seq(|run|, n requires 0 <= n < |run| => Purged(run[n], t))
  }

  lemma {:induction false} ViewConcat(a: seq<Row>, b: seq<Row>, t: Option<int>)
    ensures View(a + b, t) == View(a, t) + View(b, t)
  {
    if b == [] {
      assert a + b == a;
    } else {
      ViewConcat(a, b[..|b| - 1], t);
      assert (a + b)[..|a + b| - 1] == a + b[..|b| - 1];
    }
  }

  lemma InsertedAppend(bound: Option<int>, items: seq<Item>, x: Item)
    requires Accepted(bound, items) && StampOf(x.entity, x.tenant, bound).Flushed?
    ensures Accepted(bound, items + [x])
    ensures Inserted(bound, items + [x]) == Inserted(bound, items) + [RowOf(bound, x)]
  {
  }

  lemma OtherIsHidden(bound: Option<int>, x: Item, t: Option<int>)
    requires bound != t && StampOf(x.entity, x.tenant, bound).Flushed? && Guarded(x.entity)
    ensures !VisibleTo(t, RowOf(bound, x))
  {
  }

  /** What a flush under another tenant adds to t's view is its shared rows. */
  lemma {:induction false} OthersAddOnlyShared(bound: Option<int>, items: seq<Item>, t: Option<int>)
    requires bound != t && Accepted(bound, items)
    ensures Accepted(bound, Shared(items))
    ensures View(Inserted(bound, items), t) == View(Inserted(bound, Shared(items)), t)
  {
    if items == [] {
    } else {
      var n := |items| - 1;
      var rest, x := items[..n], items[n];
      assert items == rest + [x];
      OthersAddOnlyShared(bound, rest, t);
      InsertedAppend(bound, rest, x);
      ViewAppend(Inserted(bound, rest), RowOf(bound, x), t);
      if Guarded(x.entity) {
        OtherIsHidden(bound, x, t);
        assert View(Inserted(bound, rest), t) + [] == View(Inserted(bound, rest), t);
        assert Shared(rest) + [] == Shared(rest);
      } else {
        InsertedAppend(bound, Shared(rest), x);
        ViewAppend(Inserted(bound, Shared(rest)), RowOf(bound, x), t);
      }
    }
  }

  lemma StepViewsAgree(db: seq<Row>, db': seq<Row>, a: Action, t: Option<int>)
    requires View(db, t) == View(db', t)
    ensures View(Applied(db, a), t) == View(Applied(db', Purged(a, t)), t)
  {
    if a.Flush? && Accepted(a.bound, a.items) {
      ViewConcat(db, Inserted(a.bound, a.items), t);
      if a.bound == t {
        ViewConcat(db', Inserted(a.bound, a.items), t);
      } else {
        OthersAddOnlyShared(a.bound, a.items, t);
        ViewConcat(db', Inserted(a.bound, Shared(a.items)), t);
      }
    } else if a.Flush? && a.bound != t {
      assert Inserted(a.bound, []) == [];
      assert db' + [] == db';
    }
  }

  lemma {:induction false} ViewsAgree(run: seq<Action>, t: Option<int>)
    ensures View(After([], run), t) == View(After([], PurgedRun(run, t)), t)
  {
    if run == [] {
    } else {
      var n := |run| - 1;
      ViewsAgree(run[..n], t);
      assert PurgedRun(run, t)[..n] == PurgedRun(run[..n], t);
      StepViewsAgree(After([], run[..n]), After([], PurgedRun(run[..n], t)), run[n], t);
    }
  }

  lemma {:induction false} CriteriaAre(registry: seq<Entity>, t: int)
    ensures forall i :: 0 <= i < |TenantCriteria(registry, t)| ==>
              TenantCriteria(registry, t)[i].tenant == Some(t) && Guarded(TenantCriteria(registry, t)[i].entity)
    ensures forall e :: e in registry && Guarded(e) ==> Criterion(e, Some(t)) in TenantCriteria(registry, t)
  {
    if registry == [] {
    } else {
      CriteriaAre(registry[..|registry| - 1], t);
      assert registry == registry[..|registry| - 1] + [registry[|registry| - 1]];
    }
  }

  lemma PassesIffVisible(registry: seq<Entity>, t: int, r: Row)
    requires r.entity in registry
    ensures Passes(TenantCriteria(registry, t), r) <==> VisibleTo(Some(t), r)
  {
    CriteriaAre(registry, t);
    var cs := TenantCriteria(registry, t);
    if Guarded(r.entity) && Passes(cs, r) {
      var i :| 0 <= i < |cs| && cs[i] == Criterion(r.entity, Some(t));
    }
  }

  lemma MatchingAppend(db: seq<Row>, r: Row, touched: set<Entity>, criteria: seq<Criterion>)
    ensures Matching(db + [r], touched, criteria) ==
            Matching(db, touched, criteria) + if r.entity in touched && Passes(criteria, r) then [r] else []
  {
    assert (db + [r])[..|db|] == db;
  }

  lemma ViewAppend(db: seq<Row>, r: Row, t: Option<int>)
    ensures View(db + [r], t) == View(db, t) + if VisibleTo(t, r) then [r] else []
  {
    assert (db + [r])[..|db|] == db;
  }

  /** The criteria let no row of a touched class through that t must not see. */
  ghost predicate Hides(touched: set<Entity>, criteria: seq<Criterion>, t: Option<int>, r: Row) {
    r.entity in touched && Passes(criteria, r) ==> VisibleTo(t, r)
  }

  /** Criteria that hide what t must not see select from t's own view of the database. */
  lemma {:induction false} MatchingFromView(
    db: seq<Row>, touched: set<Entity>, criteria: seq<Criterion>, t: Option<int>)
    requires forall i :: 0 <= i < |db| ==> Hides(touched, criteria, t, db[i])
    ensures Matching(db, touched, criteria) == Matching(View(db, t), touched, criteria)
  {
    if db == [] {
    } else {
      var n := |db| - 1;
      MatchingFromView(db[..n], touched, criteria, t);
      assert Hides(touched, criteria, t, db[n]);
      if !VisibleTo(t, db[n]) {
        assert View(db, t) == View(db[..n], t);
      } else {
        MatchingAppend(View(db[..n], t), db[n], touched, criteria);
      }
    }
  }

  lemma {:induction false} RowsAreMapped(registry: seq<Entity>, run: seq<Action>)
    requires Mapped(registry, run)
    ensures forall i :: 0 <= i < |After([], run)| ==> After([], run)[i].entity in registry
  {
    if run == [] {
    } else {
      assert Mapped(registry, run[..|run| - 1]);
      RowsAreMapped(registry, run[..|run| - 1]);
    }
  }

  lemma {:induction false} SharedAreItems(items: seq<Item>)
    ensures forall i :: 0 <= i < |Shared(items)| ==> Shared(items)[i] in items
  {
    if items == [] {
    } else {
      SharedAreItems(items[..|items| - 1]);
    }
  }

  lemma PurgedIsMapped(registry: seq<Entity>, run: seq<Action>, t: Option<int>)
    requires Mapped(registry, run)
    ensures Mapped(registry, PurgedRun(run, t))
  {
    forall n | 0 <= n < |run| && run[n].Flush? ensures Purged(run[n], t).Flush? &&
      forall i :: 0 <= i < |Purged(run[n], t).items| ==> Purged(run[n], t).items[i].entity in registry
    {
      SharedAreItems(run[n].items);
    }
  }

  /**
    What a query must not do with no tenant bound: touch a guarded class for which no criterion is
    added. The listener only looks at the classes a query selects.
   */
  ghost predicate Covered(q: Query) {
    OnlyUnscoped(q.selected) || OnlyAudit(q.selected) ==>
      forall e :: e in q.touched && Guarded(e) ==> OnlyAudit(q.selected) && e.table == AUDIT_LOG
  }

  lemma CriteriaHide(registry: seq<Entity>, q: Query, t: Option<int>, r: Row)
    requires r.entity in registry && Criteria(registry, q.selected, t).Some? && (t == None ==> Covered(q))
    ensures Hides(q.touched, Criteria(registry, q.selected, t).value, t, r)
  {
    match t
    case Some(tenant) => PassesIffVisible(registry, tenant, r);
    case None =>
      AuditCriteriaAre(registry);
      if r.entity in q.touched && Guarded(r.entity) && Passes(Criteria(registry, q.selected, t).value, r) {
        var cs := AuditCriteria(registry);
        var k :| 0 <= k < |cs| && cs[k] == Criterion(r.entity, None);
      }
  }

  lemma AnswerFromView(registry: seq<Entity>, db1: seq<Row>, db2: seq<Row>, q: Query, t: Option<int>)
    requires forall i :: 0 <= i < |db1| ==> db1[i].entity in registry
    requires forall i :: 0 <= i < |db2| ==> db2[i].entity in registry
    requires View(db1, t) == View(db2, t) && (t == None ==> Covered(q))
    ensures Answer(registry, db1, q, t) == Answer(registry, db2, q, t)
  {
    if Criteria(registry, q.selected, t).Some? {
      var cs := Criteria(registry, q.selected, t).value;
      forall i | 0 <= i < |db1| ensures Hides(q.touched, cs, t, db1[i]) {
        CriteriaHide(registry, q, t, db1[i]);
      }
      forall i | 0 <= i < |db2| ensures Hides(q.touched, cs, t, db2[i]) {
        CriteriaHide(registry, q, t, db2[i]);
      }
      MatchingFromView(db1, q.touched, cs, t);
      MatchingFromView(db2, q.touched, cs, t);
    }
  }

  /** With no tenant bound, every query of the run is one the listener covers. */
  ghost predicate UnboundCovered(run: seq<Action>) {
    forall n :: 0 <= n < |run| && run[n].Select? && run[n].bound == None ==> Covered(run[n].query)
  }

  lemma {:induction false} AnswersFromView(registry: seq<Entity>, run: seq<Action>, t: Option<int>)
    requires Mapped(registry, run) && (t == None ==> UnboundCovered(run))
    ensures Answers(registry, [], run, t) == Answers(registry, [], PurgedRun(run, t), t)
  {
    if run == [] {
    } else {
      var n := |run| - 1;
      var before, a := run[..n], run[n];
      assert Mapped(registry, before);
      AnswersFromView(registry, before, t);
      assert PurgedRun(run, t)[..n] == PurgedRun(before, t);
      if a.Select? && a.bound == t {
        PurgedIsMapped(registry, before, t);
        RowsAreMapped(registry, before);
        RowsAreMapped(registry, PurgedRun(before, t));
        ViewsAgree(before, t);
        AnswerFromView(registry, After([], before), After([], PurgedRun(before, t)), a.query, t);
      }
    }
  }

  /**
    Non-interference: the answers to tenant t's queries are the same in the run from which
    every guarded row inserted under another tenant, or under none, has been taken out.
   */
  lemma AnswersIgnoreOtherTenants(registry: seq<Entity>, run: seq<Action>, t: int)
    requires Mapped(registry, run)
    ensures Answers(registry, [], run, Some(t)) == Answers(registry, [], PurgedRun(run, Some(t)), Some(t))
  {
    AnswersFromView(registry, run, Some(t));
  }

  /**
    The answers to queries made with no tenant bound are the same in the run from which every
    guarded row inserted under any tenant has been taken out.
   */
  lemma UnboundAnswersIgnoreTenants(registry: seq<Entity>, run: seq<Action>)
    requires Mapped(registry, run) && UnboundCovered(run)
    ensures Answers(registry, [], run, None) == Answers(registry, [], PurgedRun(run, None), None)
  {
    AnswersFromView(registry, run, None);
  }

  // ---- queries with no tenant bound ----

  lemma {:induction false} AuditCriteriaAre(registry: seq<Entity>)
    ensures forall e :: e in registry && e.table == AUDIT_LOG ==> Criterion(e, None) in AuditCriteria(registry)
    ensures forall i :: 0 <= i < |AuditCriteria(registry)| ==> AuditCriteria(registry)[i].entity.table == AUDIT_LOG
  {
    if registry == [] {
    } else {
      AuditCriteriaAre(registry[..|registry| - 1]);
      assert registry == registry[..|registry| - 1] + [registry[|registry| - 1]];
    }
  }

  lemma {:induction false} MatchingMembers(db: seq<Row>, touched: set<Entity>, criteria: seq<Criterion>, r: Row)
    requires r in Matching(db, touched, criteria)
    ensures r in db && r.entity in touched && Passes(criteria, r)
  {
    var n := |db| - 1;
    if r in Matching(db[..n], touched, criteria) {
      MatchingMembers(db[..n], touched, criteria, r);
    }
  }

  /** In no database does the unbound query return a guarded row that carries a tenant. */
  ghost predicate ShowsNoTenant(registry: seq<Entity>, q: Query) {
    forall db, r ::
      Answer(registry, db, q, None).Some? && r in Answer(registry, db, q, None).value && Guarded(r.entity) ==>
        r.tenant == None && r.entity.table == AUDIT_LOG
  }

  lemma UncoveredShows(registry: seq<Entity>, q: Query, e: Entity)
    requires OnlyUnscoped(q.selected) || OnlyAudit(q.selected)
    requires e in q.touched && Guarded(e) && !(OnlyAudit(q.selected) && e.table == AUDIT_LOG)
    ensures !ShowsNoTenant(registry, q)
  {
    var r := Row(e, Some(1), 0, Some(1));
    var cs := Criteria(registry, q.selected, None).value;
    AuditCriteriaAre(registry);
    assert Passes(cs, r);
    MatchingAppend([], r, q.touched, cs);
    assert [] + [r] == [r];
    assert r in Answer(registry, [r], q, None).value;
  }

  /**
    With no tenant bound, a query is refused or shows only audit_log rows without a tenant of the
    guarded classes, whatever is stored, exactly when it touches no guarded class uncovered.
   */
  lemma UnboundSeesNoTenantExactly(registry: seq<Entity>, q: Query)
    requires forall e :: e in q.touched ==> e in registry
    ensures ShowsNoTenant(registry, q) <==> Covered(q)
  {
    if Covered(q) {
      forall db, r |
        Answer(registry, db, q, None).Some? && r in Answer(registry, db, q, None).value && Guarded(r.entity)
        ensures r.tenant == None && r.entity.table == AUDIT_LOG
      {
        var cs := Criteria(registry, q.selected, None).value;
        MatchingMembers(db, q.touched, cs, r);
        CriteriaHide(registry, q, None, r);
        assert Hides(q.touched, cs, None, r);
      }
    } else {
      var e :| e in q.touched && Guarded(e) && !(OnlyAudit(q.selected) && e.table == AUDIT_LOG);
      UncoveredShows(registry, q, e);
    }
  }

  // ---- which unbound queries ignore the tenants ----

  /** q is the only query the run makes with no tenant bound. */
  ghost predicate AsksOnly(run: seq<Action>, q: Query) {
    forall n :: 0 <= n < |run| && run[n].Select? && run[n].bound == None ==> run[n].query == q
  }

  ghost predicate IgnoresTenants(registry: seq<Entity>, run: seq<Action>) {
    Answers(registry, [], run, None) == Answers(registry, [], PurgedRun(run, None), None)
  }

  lemma OneFlush(bound: Option<int>, items: seq<Item>)
    ensures After([], [Flush(bound, items)]) == if Accepted(bound, items) then Inserted(bound, items) else []
  {
    var a := Flush(bound, items);
    assert [a][..0] == [] && After([], []) == [];
    assert Accepted(bound, items) ==> [] + Inserted(bound, items) == Inserted(bound, items);
  }

  lemma FlushThenAsk(registry: seq<Entity>, f: Action, q: Query)
    requires f.Flush?
    ensures Answers(registry, [], [f, Select(None, q)], None) == [Answer(registry, After([], [f]), q, None)]
  {
    var run := [f, Select(None, q)];
    assert run[..1] == [f] && [f][..0] == [];
    assert Answers(registry, [], [], None) == [] && Answers(registry, [], [f], None) == [];
  }

  /** A query that touches a guarded class uncovered answers differently once a tenant has inserted a row of it. */
  lemma UncoveredDepends(registry: seq<Entity>, q: Query, e: Entity)
    requires OnlyUnscoped(q.selected) || OnlyAudit(q.selected)
    requires e in q.touched && Guarded(e) && !(OnlyAudit(q.selected) && e.table == AUDIT_LOG)
    ensures !IgnoresTenants(registry, [Flush(Some(1), [Item(e, Some(1), 0)]), Select(None, q)])
  {
    var f, item := Flush(Some(1), [Item(e, Some(1), 0)]), Item(e, Some(1), 0);
    var run, r, cs := [f, Select(None, q)], Row(e, Some(1), 0, Some(1)), Criteria(registry, q.selected, None).value;
    var g := Purged(f, None);
    assert [item][..0] == [] && Shared([item]) == [];
    assert PurgedRun(run, None) == [g, Select(None, q)];
    FlushThenAsk(registry, f, q);
    FlushThenAsk(registry, g, q);
    OneFlush(Some(1), [item]);
    OneFlush(Some(1), []);
    assert Inserted(Some(1), [item]) == [r] && Inserted(Some(1), []) == [];
    AuditCriteriaAre(registry);
    MatchingAppend([], r, q.touched, cs);
    assert [] + [r] == [r];
  }

  /**
    The answers to an unbound query are, in every run, those of the run without any tenant's guarded
    inserts exactly when the query touches no guarded class uncovered.
   */
  lemma UnboundAnswersExactly(registry: seq<Entity>, q: Query)
    requires forall e :: e in q.touched ==> e in registry
    ensures (forall run :: Mapped(registry, run) && AsksOnly(run, q) ==> IgnoresTenants(registry, run)) <==> Covered(q)
  {
    if Covered(q) {
      forall run | Mapped(registry, run) && AsksOnly(run, q) ensures IgnoresTenants(registry, run) {
        UnboundAnswersIgnoreTenants(registry, run);
      }
    } else {
      var e :| e in q.touched && Guarded(e) && !(OnlyAudit(q.selected) && e.table == AUDIT_LOG);
      var run := [Flush(Some(1), [Item(e, Some(1), 0)]), Select(None, q)];
      UncoveredDepends(registry, q, e);
      assert Mapped(registry, run) && AsksOnly(run, q);
    }
  }
}
