/**
  shared/contextvars.py: the three context variables of one task, set and reset around
  blocks, and run_in_session_scope. A task's behaviour is a program of nested scopes; the
  class runs it by setting and resetting variables in place, and is proved to do what
  Eval says. What nesting guarantees is then proved about Eval for every program.
 */
module ScopedContext {
  import opened Options
  import opened DedupWindow
  import opened MessageBus

  datatype Prog =
    | Skip
    | Raise
    | Write(value: int)
    | Publish(event: Event)
    | CloseBus
    | Then(first: Prog, second: Prog)
    | Swallow(body: Prog)                                              // try: body / except BaseException: pass
    | WithTenant(tenant: Option<int>, body: Prog)
    | WithSession(session: nat, tenantOrNone: Option<int>, body: Prog)
    | UnitOfWork(tenantOrNone: Option<int>, body: Prog, commitFails: bool)

  /** A row added to a session, with the tenant bound at that moment. */
  datatype Row = Row(tenant: Option<int>, value: int)

  /** The values of tenant_id_var, session_var and publish_outbox_var. */
  datatype Vars = Vars(tenant: Option<int>, session: Option<nat>, outbox: Option<seq<Event>>)

  /** Rows pending per session, committed rows, events fanned out, and the bus flag. */
  datatype World = World(pending: map<nat, seq<Row>>, sessions: nat, store: seq<Row>, sent: seq<Event>, closed: bool)

  datatype Result = Result(raised: bool, vars: Vars, world: World)

  function Pending(w: World, session: nat): seq<Row> {
    if session in w.pending then w.pending[session] else []
  }

  function Sent(v: Vars, w: World, events: seq<Event>): Result {
    if w.closed then Result(events != [], v, w)
    else
      match v.outbox
      case None => Result(false, v, w.(sent := w.sent + events))
      case Some(items) => Result(false, v.(outbox := Some(items + events)), w)
  }

  /** The variables inside run_in_session_scope: a new session, the tenant when given, an empty outbox. */
  function Entered(tenant: Option<int>, v: Vars, w: World): Vars {
    Vars(if tenant.Some? then tenant else v.tenant, Some(w.sessions), Some([]))
  }

  function Opened(w: World): World {
    w.(sessions := w.sessions + 1, pending := w.pending[w.sessions := []])
  }

  /** Commit or roll back, reset the variables, and only then publish what was buffered. */
  function Left(v: Vars, session: nat, commitFails: bool, inner: Result): Result {
    var rows := Pending(inner.world, session);
    var cleared := inner.world.(pending := inner.world.pending[session := []]);
    if inner.raised || commitFails then Result(true, v, cleared)
    else Sent(v, cleared.(store := cleared.store + rows), inner.vars.outbox.GetOr([]))
  }

  function Eval(p: Prog, v: Vars, w: World): Result
    decreases p, 0
  {
    match p
    case Skip => Result(false, v, w)
    case Raise => Result(true, v, w)
    case Write(x) =>
      if v.session == None then Result(true, v, w)
      else Result(false, v, w.(pending := w.pending[v.session.value :=
                                                    Pending(w, v.session.value) + [Row(v.tenant, x)]]))
    case Publish(e) => Sent(v, w, [e])
    case CloseBus => Result(false, v, w.(closed := true))
    case Then(first, second) =>
      var r := Eval(first, v, w);
      if r.raised then r else Eval(second, r.vars, r.world)
    case Swallow(body) => Eval(body, v, w).(raised := false)
    case WithTenant(t, body) =>
      var r := Eval(body, v.(tenant := t), w);
      r.(vars := r.vars.(tenant := v.tenant))
    case WithSession(session, t, body) =>
      var r := Eval(body, v.(session := Some(session), tenant := if t.Some? then t else v.tenant), w);
      r.(vars := r.vars.(session := v.session, tenant := if t.Some? then v.tenant else r.vars.tenant))
    case UnitOfWork(t, body, commitFails) => InScope(t, body, commitFails, v, w)
  }

  function InScope(t: Option<int>, body: Prog, commitFails: bool, v: Vars, w: World): Result
    decreases body, 1
  {
    var inner := Eval(body, Entered(t, v, w), Opened(w));
    Left(v.(tenant := if t.Some? then v.tenant else inner.vars.tenant), w.sessions, commitFails, inner)
  }

  // ---- guarantees of nesting ----

  /** Whatever scopes are nested, and whether or not it raises, a program leaves the variables as it found them. */
  lemma {:induction false} VariablesRestored(p: Prog, v: Vars, w: World)
    ensures var after := Eval(p, v, w).vars;
            && after.tenant == v.tenant && after.session == v.session
            && (after.outbox.Some? <==> v.outbox.Some?)
            && (v.outbox.Some? ==> v.outbox.value <= after.outbox.value)
  {
    match p
    case Then(first, second) =>
      VariablesRestored(first, v, w);
      var r := Eval(first, v, w);
      VariablesRestored(second, r.vars, r.world);
    case Swallow(body) => VariablesRestored(body, v, w);
    case WithTenant(t, body) => VariablesRestored(body, v.(tenant := t), w);
    case WithSession(session, t, body) =>
      VariablesRestored(body, v.(session := Some(session), tenant := if t.Some? then t else v.tenant), w);
    case UnitOfWork(t, body, commitFails) => VariablesRestored(body, Entered(t, v, w), Opened(w));
    case _ =>
  }

  /** What is committed or fanned out stays so, and a closed bus never fans out again. */
  lemma {:induction false} WorldGrows(p: Prog, v: Vars, w: World)
    ensures var after := Eval(p, v, w).world;
            w.store <= after.store && w.sent <= after.sent && w.sessions <= after.sessions
            && (w.closed ==> after.closed && after.sent == w.sent)
  {
    match p
    case Then(first, second) =>
      WorldGrows(first, v, w);
      var r := Eval(first, v, w);
      WorldGrows(second, r.vars, r.world);
    case Swallow(body) => WorldGrows(body, v, w);
    case WithTenant(t, body) => WorldGrows(body, v.(tenant := t), w);
    case WithSession(session, t, body) =>
      WorldGrows(body, v.(session := Some(session), tenant := if t.Some? then t else v.tenant), w);
    case UnitOfWork(t, body, commitFails) => WorldGrows(body, Entered(t, v, w), Opened(w));
    case _ =>
  }

  /** Inside a unit of work nothing is fanned out, however deeply units are nested. */
  lemma {:induction false} BufferedInsideUnit(p: Prog, v: Vars, w: World)
    requires v.outbox.Some?
    ensures Eval(p, v, w).world.sent == w.sent
  {
    match p
    case Then(first, second) =>
      BufferedInsideUnit(first, v, w);
      VariablesRestored(first, v, w);
      var r := Eval(first, v, w);
      BufferedInsideUnit(second, r.vars, r.world);
    case Swallow(body) => BufferedInsideUnit(body, v, w);
    case WithTenant(t, body) => BufferedInsideUnit(body, v.(tenant := t), w);
    case WithSession(session, t, body) =>
      BufferedInsideUnit(body, v.(session := Some(session), tenant := if t.Some? then t else v.tenant), w);
    case UnitOfWork(t, body, commitFails) => BufferedInsideUnit(body, Entered(t, v, w), Opened(w));
    case _ =>
  }

  /**
    A unit nested anywhere in the body of another commits its rows at once, yet its events
    reach the bus only if the outer unit commits: when the outer unit fails, the rows of the
    nested units remain in the store and nothing at all has been fanned out.
   */
  lemma OuterDecidesDelivery(t: Option<int>, body: Prog, commitFails: bool, v: Vars, w: World)
    requires v.outbox == None
    ensures var inner := Eval(body, Entered(t, v, w), Opened(w));
            var r := Eval(UnitOfWork(t, body, commitFails), v, w);
            && r.vars == v
            && (inner.raised || commitFails ==>
                  r.raised && r.world.store == inner.world.store && r.world.sent == w.sent)
            && (!inner.raised && !commitFails ==>
                  && r.world.store == inner.world.store + Pending(inner.world, w.sessions)
                  && (!r.raised ==> r.world.sent == w.sent + inner.vars.outbox.GetOr([]))
                  && (r.raised ==> r.world.closed && r.world.sent == w.sent))
  {
    VariablesRestored(UnitOfWork(t, body, commitFails), v, w);
    BufferedInsideUnit(body, Entered(t, v, w), Opened(w));
    VariablesRestored(body, Entered(t, v, w), Opened(w));
  }

  /** The rows an inner unit commits are in the store although the outer unit raises right after. */
  lemma NestedCommitSurvives(t: Option<int>, inner: Prog, v: Vars, w: World)
    requires v.outbox == None && !w.closed
    requires !Eval(UnitOfWork(t, inner, false), Entered(t, v, w), Opened(w)).raised
    ensures var nested := Eval(inner, Entered(t, Entered(t, v, w), Opened(w)), Opened(Opened(w)));
            var r := Eval(UnitOfWork(t, Then(UnitOfWork(t, inner, false), Raise), false), v, w);
            && r.raised && r.world.sent == w.sent
            && r.world.store == nested.world.store + Pending(nested.world, w.sessions + 1)
  {
    OuterDecidesDelivery(t, Then(UnitOfWork(t, inner, false), Raise), false, v, w);
  }

  lemma SentInTurn(v: Vars, w: World, events: seq<Event>, next: Option<Event>)
    ensures !w.closed && next.Some? ==>
              var r := Sent(v, w, events); Sent(r.vars, r.world, [next.value]) == Sent(v, w, events + [next.value])
    ensures events == [] ==> Sent(v, w, events) == Result(false, v, w)
  {
    if events == [] {
      assert w.sent + events == w.sent;
      assert v.outbox.Some? ==> v.outbox.value + events == v.outbox.value;
    }
    if next.Some? {
      assert (w.sent + events) + [next.value] == w.sent + (events + [next.value]);
      assert v.outbox.Some? ==>
          (v.outbox.value + events) + [next.value] == v.outbox.value + (events + [next.value]);
    }
  }

  // ---- the task that sets and resets the variables in place ----

  class SharedWorld {
    var pending: map<nat, seq<Row>>
    var sessions: nat
    var store: seq<Row>
    var sent: seq<Event>
    var closed: bool

    ghost function View(): World
      reads this
    {
      World(pending, sessions, store, sent, closed)
    }

    constructor ()
      ensures View() == World(map[], 0, [], [], false)
    {
      pending, sessions, store, sent, closed := map[], 0, [], [], false;
    }
  }

  class TaskContext {
    var tenant: Option<int>
    var session: Option<nat>
    var outbox: Outbox?
    const world: SharedWorld

    ghost function View(): Vars
      reads this, outbox
    {
      Vars(tenant, session, if outbox == null then None else Some(outbox.items))
    }

    constructor (world: SharedWorld)
      ensures View() == Vars(None, None, None) && this.world == world
    {
      tenant, session, outbox, this.world := None, None, null, world;
    }

    /** bus.publish as called from this task. */
    method PublishEvent(e: Event) returns (raised: bool)
      modifies world, outbox
      ensures var r := Sent(old(View()), old(world.View()), [e]);
              raised == r.raised && View() == r.vars && world.View() == r.world
    {
      if world.closed {
        return true;
      }
      if outbox != null {
        outbox.items := outbox.items + [e];
      } else {
        world.sent := world.sent + [e];
      }
      raised := false;
    }

    /** for event in outbox: await bus.publish(event) */
    method FlushAll(items: seq<Event>) returns (raised: bool)
      modifies world, outbox
      ensures var r := Sent(old(View()), old(world.View()), items);
              raised == r.raised && View() == r.vars && world.View() == r.world
    {
      SentInTurn(View(), world.View(), [], None);
      for n := 0 to |items|
        invariant world.closed == old(world.closed)
        invariant world.closed ==> n == 0
        invariant var r := Sent(old(View()), old(world.View()), items[..n]);
                  View() == r.vars && world.View() == r.world
      {
        SentInTurn(old(View()), old(world.View()), items[..n], Some(items[n]));
        assert items[..n + 1] == items[..n] + [items[n]];
        raised := PublishEvent(items[n]);
        if raised {
          return;
        }
      }
      assert items[..|items|] == items;
      raised := false;
    }

    method Run(p: Prog) returns (raised: bool)
      modifies this, world, outbox
      ensures outbox == old(outbox)
      ensures var r := Eval(p, old(View()), old(world.View()));
              raised == r.raised && View() == r.vars && world.View() == r.world
      decreases p, 0
    {
      raised := false;
      match p {
        case Skip =>
        case Raise => raised := true;
        case Write(x) =>
          if session == None {
            return true;
          }
          var rows := if session.value in world.pending then world.pending[session.value] else [];
          world.pending := world.pending[session.value := rows + [Row(tenant, x)]];
        case Publish(e) => raised := PublishEvent(e);
        case CloseBus => world.closed := true;
        case Then(first, second) =>
          raised := Run(first);
          if !raised {
            raised := Run(second);
          }
        case Swallow(body) =>
          var ignored := Run(body);
        case WithTenant(t, body) =>
          var token := tenant;
          tenant := t;
          raised := Run(body);
          tenant := token;
        case WithSession(s, t, body) =>
          raised := RunWithSession(s, t, body);
        case UnitOfWork(t, body, commitFails) =>
          raised := RunInSessionScope(t, body, commitFails);
      }
    }

    method RunWithSession(s: nat, t: Option<int>, body: Prog) returns (raised: bool)
      modifies this, world, outbox
      ensures outbox == old(outbox)
      ensures var r := Eval(WithSession(s, t, body), old(View()), old(world.View()));
              raised == r.raised && View() == r.vars && world.View() == r.world
      decreases body, 1
    {
      var sessionToken, tenantToken := session, tenant;
      session := Some(s);
      if t.Some? {
        tenant := t;
      }
      raised := Run(body);
      session := sessionToken;
      if t.Some? {
        tenant := tenantToken;
      }
    }

    method RunInSessionScope(t: Option<int>, body: Prog, commitFails: bool) returns (raised: bool)
      modifies this, world, outbox
      ensures outbox == old(outbox)
      ensures var r := InScope(t, body, commitFails, old(View()), old(world.View()));
              raised == r.raised && View() == r.vars && world.View() == r.world
      decreases body, 1
    {
      var sessionToken, tenantToken, outboxToken := session, tenant, outbox;
      var mine := OpenSession();
      session, tenant := Some(mine), if t.Some? then t else tenant;
      var buffered := new Outbox();
      outbox := buffered;
      assert View() == Entered(t, old(View()), old(world.View()));
      raised := Run(body);
      ghost var inner := Result(raised, View(), world.View());
      EndSession(mine, !raised && !commitFails);
      outbox, session := outboxToken, sessionToken;
      if t.Some? {
        tenant := tenantToken;
      }
      raised := raised || commitFails;
      if !raised {
        raised := FlushAll(buffered.items);
      }
    }

    method OpenSession() returns (s: nat)
      modifies world
      ensures s == old(world.sessions) && world.View() == Opened(old(world.View()))
    {
      s := world.sessions;
      world.sessions, world.pending := s + 1, world.pending[s := []];
    }

    method EndSession(ended: nat, commit: bool)
      modifies world
      ensures var w, rows := old(world.View()), Pending(old(world.View()), ended);
              world.View() == w.(pending := w.pending[ended := []], store := if commit then w.store + rows else w.store)
    {
      if commit && ended in world.pending {
        world.store := world.store + world.pending[ended];
      }
      world.pending := world.pending[ended := []];
    }
  }
}
