/**
  persistence/tenant_listener.py: the two session listeners that keep tenants apart.
  One adds filter criteria to ORM SELECTs, the other stamps and checks tenant_id on
  inserts. A query is the mapped classes it selects and touches; its result is what
  the added criteria leave of the rows of those classes.
 */
module TenantListener {
  import opened Options

  const AUDIT_LOG := "audit_log"

  /** A mapped class: its table, __tenant_scoped__, and whether it has a tenant_id attribute. */
  datatype Entity = Entity(table: string, scoped: bool, hasTenant: bool)

  predicate Guarded(e: Entity) {
    e.scoped && e.hasTenant
  }

  // ---- SELECT: criteria ----

  /** with_loader_criteria: rows of this class must have exactly this tenant_id (None is IS NULL). */
  datatype Criterion = Criterion(entity: Entity, tenant: Option<int>)

  /** `selected` are the column descriptions; a None stands for one without a mapped class. */
  datatype Query = Query(selected: seq<Option<Entity>>, touched: set<Entity>)

  ghost predicate OnlyUnscoped(selected: seq<Option<Entity>>) {
    && (exists i :: 0 <= i < |selected| && selected[i].Some?)
    && (forall i :: 0 <= i < |selected| && selected[i].Some? ==> !Guarded(selected[i].value))
  }

  ghost predicate OnlyAudit(selected: seq<Option<Entity>>) {
    && (exists i :: 0 <= i < |selected| && selected[i].Some? && Guarded(selected[i].value))
    && (forall i :: 0 <= i < |selected| && selected[i].Some? && Guarded(selected[i].value) ==>
          selected[i].value.table == AUDIT_LOG)
  }

  function AuditCriteria(registry: seq<Entity>): seq<Criterion> {
    if registry == [] then []
    else
      var e := registry[|registry| - 1];
      AuditCriteria(registry[..|registry| - 1]) + if e.table == AUDIT_LOG then [Criterion(e, None)] else []
  }

  function TenantCriteria(registry: seq<Entity>, tenant: int): seq<Criterion> {
    if registry == [] then []
    else
      var e := registry[|registry| - 1];
      TenantCriteria(registry[..|registry| - 1], tenant) + if Guarded(e) then [Criterion(e, Some(tenant))] else []
  }

  /** The criteria added to a query, or None when it is refused for want of a tenant. */
  ghost function Criteria(registry: seq<Entity>, selected: seq<Option<Entity>>, tenant: Option<int>)
    : Option<seq<Criterion>>
  {
    match tenant
    case Some(t) => Some(TenantCriteria(registry, t))
    case None =>
      if OnlyUnscoped(selected) then Some([])
      else if OnlyAudit(selected) then Some(AuditCriteria(registry))
      else None
  }

  class OrmExecuteState {
    const selected: seq<Option<Entity>>
    var criteria: seq<Criterion>  // the loader criteria attached to the statement

    constructor (selected: seq<Option<Entity>>)
      ensures this.selected == selected && criteria == []
    {
      this.selected, criteria := selected, [];
    }

    method TargetsOnlyUnscoped() returns (result: bool)
      ensures result <==> OnlyUnscoped(selected)
    {
      var seenAny := false;
      for n := 0 to |selected|
        invariant seenAny <==> exists i :: 0 <= i < n && selected[i].Some?
        invariant forall i :: 0 <= i < n && selected[i].Some? ==> !Guarded(selected[i].value)
      {
        if selected[n].Some? {
          seenAny := true;
          if Guarded(selected[n].value) {
            return false;
          }
        }
      }
      return seenAny;
    }

    method ScopedNames() returns (names: set<string>)
      ensures names ==
              set i | 0 <= i < |selected| && selected[i].Some? && Guarded(selected[i].value) :: selected[i].value.table
    {
      names := {};
      for n := 0 to |selected|
        invariant names ==
                  set i | 0 <= i < n && selected[i].Some? && Guarded(selected[i].value) :: selected[i].value.table
      {
        if selected[n].Some? && Guarded(selected[n].value) {
          names := names + {selected[n].value.table};
        }
      }
    }

    method InjectTenantFilter(registry: seq<Entity>, tenant: Option<int>) returns (raised: bool)
      modifies this
      ensures raised <==> Criteria(registry, selected, tenant) == None
      ensures criteria == old(criteria) + Criteria(registry, selected, tenant).GetOr([])
    {
      raised := false;
      if tenant == None {
        var unscoped := TargetsOnlyUnscoped();
        if unscoped {
          return;
        }
        var names := ScopedNames();
        if names == {AUDIT_LOG} {
          AuditNames(selected, names);
          for n := 0 to |registry|
            invariant criteria == old(criteria) + AuditCriteria(registry[..n])
          {
            assert registry[..n + 1][..n] == registry[..n];
            if registry[n].table == AUDIT_LOG {
              criteria := criteria + [Criterion(registry[n], None)];
            }
          }
          assert registry[..|registry|] == registry;
          return;
        }
        AuditNames(selected, names);
        return true;
      }
      for n := 0 to |registry|
        invariant criteria == old(criteria) + TenantCriteria(registry[..n], tenant.value)
      {
        assert registry[..n + 1][..n] == registry[..n];
        if Guarded(registry[n]) {
          criteria := criteria + [Criterion(registry[n], tenant)];
        }
      }
      assert registry[..|registry|] == registry;
    }
  }

  lemma AuditNames(selected: seq<Option<Entity>>, names: set<string>)
    requires names ==
             set i | 0 <= i < |selected| && selected[i].Some? && Guarded(selected[i].value) :: selected[i].value.table
    ensures names == {AUDIT_LOG} <==> OnlyAudit(selected)
  {
    if OnlyAudit(selected) {
      assert forall t :: t in names <==> t == AUDIT_LOG;
    } else if names == {AUDIT_LOG} {
      assert AUDIT_LOG in names;
      assert forall i :: 0 <= i < |selected| && selected[i].Some? && Guarded(selected[i].value) ==>
          selected[i].value.table in names;
    }
  }

  // ---- INSERT: stamping ----

  datatype StampError = ContextMissing | Mismatch

  /** The tenant an instance is flushed with, or why the flush is refused. */
  datatype Stamp = Flushed(tenant: Option<int>) | Refused(error: StampError)

  function StampOf(e: Entity, current: Option<int>, bound: Option<int>): Stamp {
    if !Guarded(e) then Flushed(current)
    else if current == None && e.table == AUDIT_LOG && bound == None then Flushed(None)
    else if bound == None then Refused(ContextMissing)
    else if current == None || current == bound then Flushed(bound)
    else Refused(Mismatch)
  }

  class Instance {
    const entity: Entity
    var tenantId: Option<int>

    constructor (entity: Entity, tenantId: Option<int>)
      ensures this.entity == entity && this.tenantId == tenantId
    {
      this.entity, this.tenantId := entity, tenantId;
    }
  }

  /** before_flush over session.new (a set, so no instance comes twice): stops at the first refusal. */
  method StampTenantOnInserts(instances: seq<Instance>, bound: Option<int>)
    returns (error: Option<StampError>, ghost stop: nat)
    requires forall i, j :: 0 <= i < j < |instances| ==> instances[i] != instances[j]
    modifies set x | x in instances
    ensures stop <= |instances| && (error == None <==> stop == |instances|)
    ensures forall i :: 0 <= i < stop ==>
              StampOf(instances[i].entity, old(instances[i].tenantId), bound) == Flushed(instances[i].tenantId)
    ensures forall i :: stop <= i < |instances| ==> instances[i].tenantId == old(instances[i].tenantId)
    ensures error.Some? ==>
              StampOf(instances[stop].entity, old(instances[stop].tenantId), bound) == Refused(error.value)
  {
    var tenantSeen: Option<int> := None;
    error, stop := None, 0;
    for n := 0 to |instances|
      invariant tenantSeen == None || tenantSeen == bound
      invariant stop == n
      invariant forall i :: 0 <= i < n ==>
                  StampOf(instances[i].entity, old(instances[i].tenantId), bound) == Flushed(instances[i].tenantId)
      invariant forall i :: n <= i < |instances| ==> instances[i].tenantId == old(instances[i].tenantId)
    {
      var x := instances[n];
      if Guarded(x.entity) && !(x.tenantId == None && x.entity.table == AUDIT_LOG && bound == None) {
        if tenantSeen == None {
          if bound == None {
            return Some(ContextMissing), n;
          }
          tenantSeen := bound;
        }
        if x.tenantId == None {
          x.tenantId := tenantSeen;
        } else if x.tenantId != tenantSeen {
          return Some(Mismatch), n;
        }
      }
      stop := n + 1;
    }
  }
}
