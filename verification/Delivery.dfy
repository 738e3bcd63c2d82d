/**
  The message bus and the transactional outbox as one labelled transition system:
  shared/messagebus.py for the queues, workers and fan-out, shared/contextvars.py
  for units of work. Every interleaving of the steps below is a run, so what is
  proved of all runs holds whatever order the event loop picks.

  A message carries two history fields the program does not have: the unit of work
  in which publish was called (origin) and the unit whose flush moved it last (via).
 */
module Delivery {
  import opened Options
  import opened DedupWindow

  datatype Msg = Msg(event: Event, origin: Option<nat>, via: Option<nat>)

  /**
    Flushing: committed, outbox not yet handed on. Returned: run_in_session_scope returned
    normally. FlushFailed: it raised after the commit.
   */
  datatype Status = Active | Flushing | Returned | RolledBack | FlushFailed

  /** `parent` is the unit in whose body this one runs: its outbox is bound again after this one. */
  datatype Unit = Unit(parent: Option<nat>, status: Status, writes: seq<int>, outbox: seq<Msg>, flushed: nat)

  datatype Worker =
    | Waiting
    | Handling(msg: Msg, scoped: bool, unit: Option<nat>)
    | Stopped(abandoned: seq<Msg>)

  datatype Handled = Handled(msg: Msg, ok: bool, scoped: bool, unit: Option<nat>)

  /** `joined` and `left` count the publications before subscribing and unsubscribing. */
  datatype Sub = Sub(
    kind: nat, dedup: Dedup, queue: seq<Msg>, unfinished: int, worker: Worker, cancelled: bool,
    joined: nat, left: Option<nat>, suppressed: set<nat>, handled: seq<Handled>)

  /** One committed write and the unit that committed it. */
  datatype Entry = Entry(unit: nat, write: int)

  datatype State = State(
    closed: bool, scoped: bool, units: seq<Unit>, subs: seq<Sub>, store: seq<Entry>, published: seq<Msg>)

  function Init(scoped: bool): State {
    State(false, scoped, [], [], [], [])
  }

  datatype Label =
    | Subscribe(kind: nat, idempotent: bool, window: int)
    | Unsubscribe(sub: nat)
    | Close
    | SetMiddleware(scoped: bool)
    | PublishNow(event: Event)
    | Begin(parent: Option<nat>)
    | Write(unit: nat, write: int)
    | PublishIn(unit: nat, event: Event)
    | Commit(unit: nat)
    | RollBack(unit: nat)
    | Flush(unit: nat)
    | FailFlush(unit: nat)
    | Interrupt(unit: nat)
    | Return(unit: nat)
    | Dequeue(sub: nat)
    | BeginDelivery(sub: nat)
    | FinishOk(sub: nat)
    | FinishFailed(sub: nat)
    | Stop(sub: nat)

  predicate Settled(u: Unit) {
    u.status == Returned || u.status == RolledBack || u.status == FlushFailed
  }

  predicate Committed(u: Unit) {
    u.status == Flushing || u.status == Returned || u.status == FlushFailed
  }

  /** One coroutine per unit: its body runs only while no unit nested in it is open. */
  predicate Running(s: State, u: nat) {
    && u < |s.units| && s.units[u].status == Active
    && forall c :: 0 <= c < |s.units| && s.units[c].parent == Some(u) ==> Settled(s.units[c])
  }

  predicate FlushPending(s: State, u: nat) {
    u < |s.units| && s.units[u].status == Flushing && s.units[u].flushed < |s.units[u].outbox|
  }

  /** Raised or cancelled in closing the session, before anything is handed on, or in handing on an event. */
  predicate Interruptible(s: State, u: nat) {
    u < |s.units| && s.units[u].status == Flushing
    && (s.units[u].flushed == 0 || s.units[u].flushed < |s.units[u].outbox|)
  }

  predicate Failed(u: Unit) {
    u.status == RolledBack || u.status == FlushFailed
  }

  /** The unit of the delivery in progress ended with this status, or there is no unit around it. */
  predicate DeliveryEnded(s: State, w: Worker, ok: bool) {
    && w.Handling?
    && (w.scoped ==>
          match w.unit
          case None => !ok
          case Some(u) => u < |s.units| && Settled(s.units[u]) && (s.units[u].status == Returned <==> ok))
  }

  predicate Enabled(s: State, l: Label) {
    match l
    case Subscribe(_, _, _) => !s.closed
    case Unsubscribe(j) => j < |s.subs|
    case Close => true
    case SetMiddleware(_) => true
    case PublishNow(_) => !s.closed
    case Begin(p) => p.Some? ==> Running(s, p.value)
    case Write(u, _) => Running(s, u)
    case PublishIn(u, _) => Running(s, u) && !s.closed
    case Commit(u) => Running(s, u)
    case RollBack(u) => Running(s, u)
    case Flush(u) => FlushPending(s, u) && !s.closed
    case FailFlush(u) => FlushPending(s, u) && s.closed
    case Interrupt(u) => Interruptible(s, u)
    case Return(u) => u < |s.units| && s.units[u].status == Flushing && s.units[u].flushed == |s.units[u].outbox|
    case Dequeue(j) => j < |s.subs| && s.subs[j].worker == Waiting && s.subs[j].queue != []
    case BeginDelivery(j) =>
      j < |s.subs| && s.subs[j].worker.Handling? && s.subs[j].worker.scoped && s.subs[j].worker.unit == None
    case FinishOk(j) => j < |s.subs| && DeliveryEnded(s, s.subs[j].worker, true)
    case FinishFailed(j) => j < |s.subs| && DeliveryEnded(s, s.subs[j].worker, false)
    case Stop(j) =>
      j < |s.subs| &&
      ((s.subs[j].worker == Waiting && s.subs[j].cancelled) || DeliveryEnded(s, s.subs[j].worker, false))
  }

  /** Fan-out to one subscription, as publication number i. */
  function Offered(b: Sub, m: Msg, i: nat): Sub {
    if b.left.Some? || b.kind != m.event.kind then b
    else if Suppresses(b.dedup, m.event) then b.(suppressed := b.suppressed + {i})
    else b.(queue := b.queue + [m], unfinished := b.unfinished + 1)
  }

  function FanOut(s: State, m: Msg): State {
    s.(published := s.published + [m],
       subs := seq(|s.subs|, j requires 0 <= j < |s.subs| => Offered(s.subs[j], m, |s.published|)))
  }

  function Unrouted(b: Sub, i: nat): Sub {
    if b.left.Some? then b.(cancelled := true) else b.(left := Some(i), cancelled := true)
  }

  function Entries(u: nat, writes: seq<int>): seq<Entry> {
    seq(|writes|, i requires 0 <= i < |writes| => Entry(u, writes[i]))
  }

  function SetUnit(s: State, u: nat, v: Unit): State
    requires u < |s.units|
  {
    s.(units := s.units[u := v])
  }

  function SetSub(s: State, j: nat, b: Sub): State
    requires j < |s.subs|
  {
    s.(subs := s.subs[j := b])
  }

  /** bus.publish for one buffered event: into the outer outbox when there is one, else to the queues. */
  function FlushOne(s: State, u: nat): State
    requires FlushPending(s, u)
  {
    var v := s.units[u];
    var m := v.outbox[v.flushed].(via := Some(u));
    var s' := SetUnit(s, u, v.(flushed := v.flushed + 1));
    match v.parent
    case None => FanOut(s', m)
    case Some(p) =>
      if p < |s.units| then SetUnit(s', p, s'.units[p].(outbox := s'.units[p].outbox + [m])) else s'
  }

  function Finished(b: Sub, ok: bool): Sub
    requires b.worker.Handling?
  {
    b.(worker := Waiting, unfinished := b.unfinished - 1,
       dedup := if ok then Recorded(b.dedup, b.worker.msg.event) else b.dedup,
       handled := b.handled + [Handled(b.worker.msg, ok, b.worker.scoped, b.worker.unit)])
  }

  /** Cancellation ends the worker; an event in hand is marked done but not handled. */
  function Halted(b: Sub): Sub
    requires !b.worker.Stopped?
  {
    if b.worker == Waiting then b.(worker := Stopped([]))
    else b.(worker := Stopped([b.worker.msg]), unfinished := b.unfinished - 1)
  }

  function Step(s: State, l: Label): State
    requires Enabled(s, l)
  {
    match l
    case Subscribe(kind, idempotent, window) =>
      s.(subs := s.subs + [Sub(kind, Dedup(idempotent, window, []), [], 0, Waiting, false,
                               |s.published|, None, {}, [])])
    case Unsubscribe(j) => SetSub(s, j, Unrouted(s.subs[j], |s.published|))
    case Close =>
      s.(closed := true,
         subs := seq(|s.subs|, j requires 0 <= j < |s.subs| => Unrouted(s.subs[j], |s.published|)))
    case SetMiddleware(scoped) => s.(scoped := scoped)
    case PublishNow(e) => FanOut(s, Msg(e, None, None))
    case Begin(p) => s.(units := s.units + [Unit(p, Active, [], [], 0)])
    case Write(u, w) => SetUnit(s, u, s.units[u].(writes := s.units[u].writes + [w]))
    case PublishIn(u, e) => SetUnit(s, u, s.units[u].(outbox := s.units[u].outbox + [Msg(e, Some(u), None)]))
    case Commit(u) =>
      SetUnit(s, u, s.units[u].(status := Flushing)).(store := s.store + Entries(u, s.units[u].writes))
    case RollBack(u) => SetUnit(s, u, s.units[u].(status := RolledBack))
    case Flush(u) => FlushOne(s, u)
    case FailFlush(u) => SetUnit(s, u, s.units[u].(status := FlushFailed))
    case Interrupt(u) => SetUnit(s, u, s.units[u].(status := FlushFailed))
    case Return(u) => SetUnit(s, u, s.units[u].(status := Returned))
    case Dequeue(j) =>
      SetSub(s, j, s.subs[j].(queue := s.subs[j].queue[1..],
                              worker := Handling(s.subs[j].queue[0], s.scoped, None)))
    case BeginDelivery(j) =>
      SetSub(s, j, s.subs[j].(worker := s.subs[j].worker.(unit := Some(|s.units|))))
      .(units := s.units + [Unit(None, Active, [], [], 0)])
    case FinishOk(j) => SetSub(s, j, Finished(s.subs[j], true))
    case FinishFailed(j) => SetSub(s, j, Finished(s.subs[j], false))
    case Stop(j) => SetSub(s, j, Halted(s.subs[j]))
  }

  /** The state after a run from s, or None when a step was not enabled. */
  function Exec(s: State, run: seq<Label>): Option<State> {
    if run == [] then Some(s)
    else
      match Exec(s, run[..|run| - 1])
      case None => None
      case Some(before) =>
        if Enabled(before, run[|run| - 1]) then Some(Step(before, run[|run| - 1])) else None
  }
}
