/**
  The browser's event-stream client (composables/useSSE.ts): callbacks around one EventSource
  that is reopened after 3, 6, 12, 24 and 48 seconds and then given up. The runtime around it
  is the set of event sources not yet closed and the table of scheduled timers.
 */
module SseReconnect {
  import opened Options

  const SSE_BACKOFF_SECONDS: seq<nat> := [3, 6, 12, 24, 48]

  datatype Shown = Open | Reconnecting | Closed

  // ---- the specification: what each event does ----

  /** live: an event source is open or connecting; pending: the delay of the scheduled reconnect. */
  datatype State = State(attempt: nat, live: bool, pending: Option<nat>, closed: bool, shown: Option<Shown>)

  datatype Event = Opens | Fails | TimerFires | Closes

  predicate Enabled(s: State, e: Event) {
    match e
    case Opens => s.live
    case Fails => s.live
    case TimerFires => s.pending.Some?
    case Closes => true
  }

  function Initial(shown: Option<Shown>): State {
    State(0, true, None, false, shown)
  }

  function Step(s: State, e: Event): State {
    match e
    case Opens => s.(attempt := 0, shown := Some(Open))
    case Fails =>
      if s.closed then s.(live := false)
      else if s.attempt >= |SSE_BACKOFF_SECONDS| then s.(live := false, shown := Some(Closed))
      else
        s.(live := false, attempt := s.attempt + 1, pending := Some(SSE_BACKOFF_SECONDS[s.attempt]),
           shown := Some(Reconnecting))
    case TimerFires => if s.closed then s.(pending := None) else s.(live := true, pending := None)
    case Closes => s.(live := false, pending := None, closed := true, shown := None)
  }

  // ---- the composable ----

  class UseSSE {
    var attempt: nat
    var source: Option<nat>
    var reconnectTimer: Option<nat>   // keeps its old value after the timer has fired
    var closed: bool
    var shown: Option<Shown>          // the connection store's entry for this stream
    var liveSources: set<nat>         // event sources created and not closed
    var timers: map<nat, nat>         // scheduled timers and their delays in seconds
    var created: nat

    /** At most one source and one timer exist, never both, each known to the closure, and none after close. */
    ghost predicate Valid()
      reads this
    {
      && liveSources == (if source == None then {} else {source.value})
      && (source.Some? ==> source.value < created && timers == map[])
      && (timers == map[] || (reconnectTimer.Some? && timers.Keys == {reconnectTimer.value}))
      && (reconnectTimer.Some? ==> reconnectTimer.value < created)
      && (closed ==> source == None && timers == map[])
    }

    ghost function Abstract(): State
      reads this
    {
      State(attempt, source.Some?,
            if reconnectTimer.Some? && reconnectTimer.value in timers then Some(timers[reconnectTimer.value]) else None,
            closed, shown)
    }

    constructor (shown: Option<Shown>)
      ensures Valid() && Abstract() == Initial(shown)
    {
      attempt, source, reconnectTimer, closed := 0, None, None, false;
      this.shown, liveSources, timers, created := shown, {}, map[], 0;
      new;
      Connect();
    }

    method Connect()
      requires Valid() && (!closed ==> source == None && timers == map[])
      modifies this
      ensures Valid() && (closed ==> unchanged(this))
      ensures !closed ==> Abstract() == old(Abstract()).(live := true)
      ensures closed == old(closed) && timers == old(timers) && reconnectTimer == old(reconnectTimer)
    {
      if closed {
        return;
      }
      source := Some(created);
      liveSources := liveSources + {created};
      created := created + 1;
    }

    method OnOpen()
      requires Valid() && Enabled(Abstract(), Opens)
      modifies this
      ensures Valid() && Abstract() == Step(old(Abstract()), Opens)
    {
      attempt := 0;
      shown := Some(Open);
    }

    method OnError()
      requires Valid() && Enabled(Abstract(), Fails)
      modifies this
      ensures Valid() && Abstract() == Step(old(Abstract()), Fails)
    {
      if source.Some? {
        liveSources := liveSources - {source.value};
      }
      source := None;
      if closed {
        return;
      }
      if attempt >= |SSE_BACKOFF_SECONDS| {
        shown := Some(Closed);
        return;
      }
      var delay := SSE_BACKOFF_SECONDS[attempt];
      attempt := attempt + 1;
      shown := Some(Reconnecting);
      reconnectTimer := Some(created);
      timers := timers[created := delay];
      created := created + 1;
    }

    /** The runtime drops the timer and calls connect; the closure's handle stays. */
    method OnTimer()
      requires Valid() && Enabled(Abstract(), TimerFires)
      modifies this
      ensures Valid() && Abstract() == Step(old(Abstract()), TimerFires)
    {
      timers := timers - {reconnectTimer.value};
      Connect();
    }

    /** Whatever was live or scheduled is gone afterwards. */
    method Close()
      requires Valid()
      modifies this
      ensures Valid() && Abstract() == Step(old(Abstract()), Closes)
      ensures liveSources == {} && timers == map[]
    {
      closed := true;
      if reconnectTimer.Some? {
        timers := timers - {reconnectTimer.value};
        reconnectTimer := None;
      }
      if source.Some? {
        liveSources := liveSources - {source.value};
      }
      source := None;
      shown := Some(Closed);
      shown := None;
    }
  }

  // ---- runs ----

  ghost predicate IsRun(es: seq<Event>, shown: Option<Shown>) {
    es == [] || (IsRun(es[..|es| - 1], shown) && Enabled(After(es[..|es| - 1], shown), es[|es| - 1]))
  }

  function After(es: seq<Event>, shown: Option<Shown>): State {
    if es == [] then Initial(shown) else Step(After(es[..|es| - 1], shown), es[|es| - 1])
  }

  /** Connections made since the last successful open; the one that opened is not counted again. */
  function Connections(es: seq<Event>): nat {
    if es == [] then 1
    else if es[|es| - 1] == Opens then 0
    else Connections(es[..|es| - 1]) + if es[|es| - 1] == TimerFires then 1 else 0
  }

  /** Seconds of delay waited out since the last successful open. */
  function Waited(es: seq<Event>, shown: Option<Shown>): nat {
    if es == [] || es[|es| - 1] == Opens then 0
    else
      var before := es[..|es| - 1];
      Waited(before, shown) + if es[|es| - 1] == TimerFires then After(before, shown).pending.GetOr(0) else 0
  }

  function Delays(n: nat): nat
    requires n <= |SSE_BACKOFF_SECONDS|
  {
    if n == 0 then 0 else Delays(n - 1) + SSE_BACKOFF_SECONDS[n - 1]
  }

  predicate EverOpened(es: seq<Event>) {
    Opens in es
  }

  /** Reconnects since the last open, the ones waited out. */
  function Retries(es: seq<Event>): int {
    Connections(es) - if EverOpened(es) then 0 else 1
  }

  predicate Idle(s: State) {
    !s.live && s.pending == None
  }

  ghost predicate Invariant(s: State, retries: int, waited: nat) {
    && !(s.live && s.pending.Some?)
    && (s.closed ==> Idle(s))
    && 0 <= retries <= s.attempt <= |SSE_BACKOFF_SECONDS|
    && waited == Delays(retries)
    && (s.live ==> s.attempt == retries)
    && (s.pending.Some? ==> s.attempt == retries + 1 && s.pending.value == SSE_BACKOFF_SECONDS[retries])
    && (Idle(s) && !s.closed ==> retries == |SSE_BACKOFF_SECONDS| && s.shown == Some(Closed))
  }

  lemma StepKeepsInvariant(s: State, e: Event, retries: int, waited: nat)
    requires Invariant(s, retries, waited) && Enabled(s, e)
    ensures e == Opens ==> Invariant(Step(s, e), 0, 0)
    ensures e == TimerFires ==> Invariant(Step(s, e), retries + 1, waited + s.pending.GetOr(0))
    ensures e == Fails || e == Closes ==> Invariant(Step(s, e), retries, waited)
  {
  }

  lemma Counted(before: seq<Event>, e: Event, shown: Option<Shown>)
    ensures After(before + [e], shown) == Step(After(before, shown), e)
    ensures e == Opens ==> Retries(before + [e]) == 0 && Waited(before + [e], shown) == 0
    ensures e == TimerFires ==> Retries(before + [e]) == Retries(before) + 1
    ensures e == TimerFires ==>
              Waited(before + [e], shown) == Waited(before, shown) + After(before, shown).pending.GetOr(0)
    ensures e == Fails || e == Closes ==>
              Retries(before + [e]) == Retries(before) && Waited(before + [e], shown) == Waited(before, shown)
  {
    assert (before + [e])[..|before|] == before;
    assert EverOpened(before + [e]) <==> EverOpened(before) || e == Opens;
  }

  lemma {:induction false} RunKeepsInvariant(es: seq<Event>, shown: Option<Shown>)
    requires IsRun(es, shown)
    ensures Invariant(After(es, shown), Retries(es), Waited(es, shown))
  {
    if es == [] {
      assert Retries(es) == 0;
    } else {
      var before, e := es[..|es| - 1], es[|es| - 1];
      assert es == before + [e];
      RunKeepsInvariant(before, shown);
      Counted(before, e, shown);
      StepKeepsInvariant(After(before, shown), e, Retries(before), Waited(before, shown));
    }
  }

  lemma DelaysAreBounded(n: nat)
    requires n <= |SSE_BACKOFF_SECONDS|
    ensures Delays(n) <= 93
  {
    assert Delays(0) == 0;
    assert Delays(1) == 3;
    assert Delays(2) == 9;
    assert Delays(3) == 21;
    assert Delays(4) == 45;
    assert Delays(5) == 93;
  }

  /** Without an open: at most six connections from the start, five from the last open, and 93 seconds of delay. */
  lemma EffortIsBounded(es: seq<Event>, shown: Option<Shown>)
    requires IsRun(es, shown)
    ensures Connections(es) <= if EverOpened(es) then 5 else 6
    ensures Waited(es, shown) <= 93
  {
    RunKeepsInvariant(es, shown);
    DelaysAreBounded(Retries(es));
  }

  /** A source is never live while a reconnect is scheduled. */
  lemma {:induction false} NeverBoth(es: seq<Event>, shown: Option<Shown>)
    requires IsRun(es, shown)
    ensures !(After(es, shown).live && After(es, shown).pending.Some?)
  {
    RunKeepsInvariant(es, shown);
  }

  /** Nothing is left to do exactly after close, or when the fifth reconnect since the last open has failed too. */
  lemma IdleExactly(es: seq<Event>, shown: Option<Shown>, e: Event)
    requires IsRun(es + [e], shown)
    ensures Idle(After(es + [e], shown)) <==>
              e == Closes || Closes in es || (e == Fails && Retries(es) == |SSE_BACKOFF_SECONDS|)
  {
    assert (es + [e])[..|es|] == es;
    RunKeepsInvariant(es, shown);
    ClosedExactly(es, shown);
  }

  lemma {:induction false} ClosedExactly(es: seq<Event>, shown: Option<Shown>)
    requires IsRun(es, shown)
    ensures After(es, shown).closed <==> Closes in es
  {
    if es == [] {
    } else {
      var before := es[..|es| - 1];
      assert es == before + [es[|es| - 1]];
      ClosedExactly(before, shown);
    }
  }

  /** Once idle, always idle: no connection is made and no callback runs, only close may be called again. */
  lemma {:induction false} IdleForGood(es: seq<Event>, later: seq<Event>, shown: Option<Shown>)
    requires IsRun(es + later, shown) && IsRun(es, shown) && Idle(After(es, shown))
    ensures Idle(After(es + later, shown)) && Connections(es + later) == Connections(es)
    ensures forall i :: 0 <= i < |later| ==> later[i] == Closes
  {
    if later == [] {
      assert es + later == es;
    } else {
      var before := later[..|later| - 1];
      assert (es + later)[..|es + later| - 1] == es + before;
      IdleForGood(es, before, shown);
    }
  }
}
