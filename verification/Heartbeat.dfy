/**
  The connection-state machine of the live adapters (shared/heartbeat.py) and its backoff
  schedule (shared/backoff.py). Seconds are exact; a jitter draw is a number in [0, 1].
 */
module Heartbeat {
  import opened Options

  // ---- backoff ----

  const SEQUENCE: seq<int> := [3, 6, 12, 24, 48]
  const JITTER_FRACTION: real := 0.2

  function Base(attempt: nat): int {
    if attempt < |SEQUENCE| then SEQUENCE[attempt] else SEQUENCE[|SEQUENCE| - 1]
  }

  /** None stands for ValueError; a draw is where in the jitter interval random.uniform lands. */
  function BackoffSeconds(attempt: int, draw: Option<real>): Option<real> {
    if attempt < 0 then None
    else
      var base := Base(attempt) as real;
      match draw
      case None => Some(base)
      case Some(u) =>
        var low, high := base * (1.0 - JITTER_FRACTION), base * (1.0 + JITTER_FRACTION);
        Some(low + u * (high - low))
  }

  predicate IsDraw(u: real) {
    0.0 <= u <= 1.0
  }

  function Pow2(n: nat): nat {
    if n == 0 then 1 else 2 * Pow2(n - 1)
  }

  /** How many of the first n delays are twice the one before, or the first. */
  function Doublings(n: nat): nat {
    if n < |SEQUENCE| then n else |SEQUENCE|
  }

  /** The unjittered time of n failed attempts: doubling for five of them, then 48 seconds each. */
  function Budget(n: nat): int {
    3 * (Pow2(Doublings(n)) - 1) + 48 * (n - Doublings(n))
  }

  lemma BudgetStep(n: nat)
    ensures Budget(n + 1) == Budget(n) + Base(n)
  {
    if n < 5 {
      DoublesFromThree(n);
      assert Pow2(n + 1) == 2 * Pow2(n);
    }
  }

  lemma DoublesFromThree(n: nat)
    requires n < 5
    ensures Base(n) == 3 * Pow2(n)
  {
    assert Pow2(0) == 1;
    assert Pow2(1) == 2;
    assert Pow2(2) == 4;
    assert Pow2(3) == 8;
    assert Pow2(4) == 16;
  }

  lemma Between(base: real, u: real)
    requires base >= 0.0 && IsDraw(u)
    ensures 0.8 * base <= base * 0.8 + u * (base * 1.2 - base * 0.8) <= 1.2 * base
  {
    assert u * (base * 0.4) >= 0.0 && (1.0 - u) * (base * 0.4) >= 0.0;
  }

  /** A jittered delay stays within a fifth of the schedule; only a negative attempt is refused. */
  lemma JitterStaysClose(attempt: int, u: real)
    requires IsDraw(u)
    ensures BackoffSeconds(attempt, Some(u)) == None <==> attempt < 0
    ensures attempt >= 0 ==>
              0.8 * Base(attempt) as real <= BackoffSeconds(attempt, Some(u)).value <= 1.2 * Base(attempt) as real
  {
    if attempt >= 0 {
      Between(Base(attempt) as real, u);
    }
  }

  // ---- the state machine over any sequence of calls ----

  datatype ConnectionState = CONNECTED | RECONNECTING | DISCONNECTED

  datatype Call = Connected | Reconnecting | Disconnected

  /** The values a call gives to the state. */
  function Step(s: ConnectionState, c: Call): seq<ConnectionState> {
    match c
    case Connected => [CONNECTED]
    case Reconnecting => [RECONNECTING]
    case Disconnected => if s == DISCONNECTED then [] else [DISCONNECTED]
  }

  function Last(h: seq<ConnectionState>): ConnectionState
    requires h != []
  {
    h[|h| - 1]
  }

  /** Every value of the state, from construction on. */
  function History(calls: seq<Call>): (h: seq<ConnectionState>)
    ensures h != []
  {
    if calls == [] then [DISCONNECTED]
    else
      var before := History(calls[..|calls| - 1]);
      before + Step(Last(before), calls[|calls| - 1])
  }

  function StateAfter(calls: seq<Call>): ConnectionState {
    Last(History(calls))
  }

  /** Hook calls, as mark_disconnected makes them. */
  function Hooks(calls: seq<Call>): nat {
    if calls == [] then 0
    else
      var before := calls[..|calls| - 1];
      Hooks(before) + if calls[|calls| - 1] == Disconnected && StateAfter(before) != DISCONNECTED then 1 else 0
  }

  /** The number of steps of a state history that enter DISCONNECTED from the states chosen by `from`. */
  function Drops(history: seq<ConnectionState>, from: set<ConnectionState>): nat {
    if |history| < 2 then 0
    else
      var before := history[..|history| - 1];
      Drops(before, from) + if Last(before) in from && Last(history) == DISCONNECTED then 1 else 0
  }

  lemma OneMoreCall(calls: seq<Call>, c: Call)
    ensures History(calls + [c]) == History(calls) + Step(StateAfter(calls), c)
    ensures StateAfter(calls + [c]) ==
            if c == Connected then CONNECTED else if c == Reconnecting then RECONNECTING else DISCONNECTED
    ensures Hooks(calls + [c]) == Hooks(calls) + if c == Disconnected && StateAfter(calls) != DISCONNECTED then 1 else 0
  {
    assert (calls + [c])[..|calls|] == calls;
  }

  class HeartbeatMixin {
    var state: ConnectionState
    var disconnects: nat              // calls of _on_disconnect
    var sleeps: seq<real>             // arguments of asyncio.sleep
    ghost var calls: seq<Call>        // every mark_ call, by whomever

    ghost predicate Valid()
      reads this
    {
      state == StateAfter(calls) && disconnects == Hooks(calls)
    }

    constructor ()
      ensures Valid() && state == DISCONNECTED && disconnects == 0 && sleeps == [] && calls == []
    {
      state, disconnects, sleeps := DISCONNECTED, 0, [];
      calls := [];
    }

    method MarkConnected()
      requires Valid()
      modifies `state, `calls
      ensures Valid() && state == CONNECTED && calls == old(calls) + [Connected]
    {
      OneMoreCall(calls, Connected);
      state := CONNECTED;
      calls := calls + [Connected];
    }

    method MarkReconnecting()
      requires Valid()
      modifies `state, `calls
      ensures Valid() && state == RECONNECTING && calls == old(calls) + [Reconnecting]
    {
      OneMoreCall(calls, Reconnecting);
      state := RECONNECTING;
      calls := calls + [Reconnecting];
    }

    method MarkDisconnected()
      requires Valid()
      modifies `state, `calls, `disconnects
      ensures Valid() && state == DISCONNECTED && calls == old(calls) + [Disconnected]
      ensures disconnects == old(disconnects) + if old(state) == DISCONNECTED then 0 else 1
    {
      OneMoreCall(calls, Disconnected);
      calls := calls + [Disconnected];
      if state == DISCONNECTED {
        return;
      }
      state := DISCONNECTED;
      disconnects := disconnects + 1;
    }

    method Perform(c: Call)
      requires Valid()
      modifies `state, `calls, `disconnects
      ensures Valid() && calls == old(calls) + [c]
    {
      match c {
        case Connected => MarkConnected();
        case Reconnecting => MarkReconnecting();
        case Disconnected => MarkDisconnected();
      }
    }

    /** What other coroutines do while the loop waits. */
    method Meanwhile(others: seq<Call>)
      requires Valid()
      modifies `state, `calls, `disconnects
      ensures Valid() && calls == old(calls) + others
    {
      NoneYet(calls, others);
      for n := 0 to |others|
        invariant Valid() && calls == Upto(old(calls), others, n)
      {
        UptoNext(old(calls), others, n);
        Perform(others[n]);
      }
    }

    /**
      draws has the jitter of each failed heartbeat, others the calls made by others while that
      heartbeat and the sleep after it are awaited. The last heartbeat succeeds unless the task
      is cancelled in it.
     */
    method ReconnectLoop(draws: seq<real>, others: seq<seq<Call>>, cancelled: bool)
      requires Valid() && (forall u :: u in draws ==> IsDraw(u)) && |others| == |draws| + 1
      modifies this
      ensures Valid() && calls == LoopCalls(old(calls), others, cancelled)
      ensures Disconnected !in Flat(others) ==> disconnects == old(disconnects)
      ensures SleptAfter(old(sleeps), sleeps, draws)
    {
      QuietLoop(calls, others, cancelled);
      MarkReconnecting();
      ghost var start := calls;
      FlatStart(start, others);
      FlatEnd(start, others);
      var attempt := 0;
      while true
        invariant Valid() && 0 <= attempt <= |draws| && calls == FlatUpto(start, others, attempt)
        invariant SleptAfter(old(sleeps), sleeps, draws[..attempt])
        decreases |draws| - attempt
      {
        FlatNext(start, others, attempt);
        Meanwhile(others[attempt]);
        if attempt < |draws| {
          var delay := BackoffSeconds(attempt, Some(draws[attempt]));
          SleepsNext(old(sleeps), sleeps, draws, attempt);
          sleeps := sleeps + [delay.value];
          attempt := attempt + 1;
          continue;
        }
        assert draws[..attempt] == draws;
        if !cancelled {
          MarkConnected();
        }
        return;
      }
    }
  }

  /** One sleep more per failed heartbeat, each the jittered delay of its attempt. */
  ghost predicate SleptAfter(before: seq<real>, sleeps: seq<real>, draws: seq<real>) {
    && |sleeps| == |before| + |draws| && sleeps[..|before|] == before
    && forall i :: 0 <= i < |draws| ==> Some(sleeps[|before| + i]) == BackoffSeconds(i, Some(draws[i]))
  }

  lemma SleepsNext(before: seq<real>, sleeps: seq<real>, draws: seq<real>, n: nat)
    requires n < |draws| && SleptAfter(before, sleeps, draws[..n])
    ensures SleptAfter(before, sleeps + [BackoffSeconds(n, Some(draws[n])).value], draws[..n + 1])
  {
  }

  /** The calls before a loop, and then its own with those of others in between. */
  function LoopCalls(calls: seq<Call>, others: seq<seq<Call>>, cancelled: bool): seq<Call> {
    var waited := calls + [Reconnecting] + Flat(others);
    if cancelled then waited else waited + [Connected]
  }

  ghost function Upto(calls: seq<Call>, others: seq<Call>, n: nat): seq<Call>
    requires n <= |others|
  {
    if n == |others| then calls + others else calls + others[..n]
  }

  lemma NoneYet(calls: seq<Call>, others: seq<Call>)
    ensures Upto(calls, others, 0) == calls
  {
  }

  lemma UptoNext(calls: seq<Call>, others: seq<Call>, n: nat)
    requires n < |others|
    ensures Upto(calls, others, n + 1) == Upto(calls, others, n) + [others[n]]
  {
    assert others[..n + 1] == others[..n] + [others[n]];
    if n + 1 == |others| {
      assert others[..n + 1] == others;
    }
  }

  ghost function FlatUpto(calls: seq<Call>, others: seq<seq<Call>>, n: nat): seq<Call>
    requires n <= |others|
  {
    calls + Flat(others[..n])
  }

  lemma FlatStart(calls: seq<Call>, others: seq<seq<Call>>)
    ensures FlatUpto(calls, others, 0) == calls
  {
    assert others[..0] == [];
  }

  lemma FlatNext(calls: seq<Call>, others: seq<seq<Call>>, n: nat)
    requires n < |others|
    ensures FlatUpto(calls, others, n + 1) == FlatUpto(calls, others, n) + others[n]
  {
    TakeNext(others, n);
    FlatAppend(others[..n], others[n]);
    Regroup(calls, Flat(others[..n]), others[n]);
  }

  lemma TakeNext(others: seq<seq<Call>>, n: nat)
    requires n < |others|
    ensures others[..n + 1] == others[..n] + [others[n]]
  {
  }

  lemma FlatEnd(calls: seq<Call>, others: seq<seq<Call>>)
    ensures FlatUpto(calls, others, |others|) == calls + Flat(others)
  {
    assert others[..|others|] == others;
  }

  lemma Regroup(a: seq<Call>, b: seq<Call>, c: seq<Call>)
    ensures a + (b + c) == a + b + c
  {
  }

  lemma QuietLoop(calls: seq<Call>, others: seq<seq<Call>>, cancelled: bool)
    ensures Disconnected !in Flat(others) ==> Hooks(LoopCalls(calls, others, cancelled)) == Hooks(calls)
  {
    OneMoreCall(calls, Reconnecting);
    QuietCalls(calls + [Reconnecting], Flat(others));
    OneMoreCall(calls + [Reconnecting] + Flat(others), Connected);
  }

  function Flat(css: seq<seq<Call>>): seq<Call> {
    if css == [] then [] else Flat(css[..|css| - 1]) + css[|css| - 1]
  }

  lemma FlatAppend(css: seq<seq<Call>>, cs: seq<Call>)
    ensures Flat(css + [cs]) == Flat(css) + cs
  {
    assert (css + [cs])[..|css|] == css;
  }

  lemma {:induction false} QuietCalls(calls: seq<Call>, more: seq<Call>)
    ensures Disconnected !in more ==> Hooks(calls + more) == Hooks(calls)
  {
    if more == [] {
      assert calls + more == calls;
    } else {
      var rest, c := more[..|more| - 1], more[|more| - 1];
      assert more == rest + [c];
      QuietCalls(calls, rest);
      OneMoreCall(calls + rest, c);
      assert calls + more == calls + rest + [c];
    }
  }

  function Sum(xs: seq<real>): real {
    if xs == [] then 0.0 else Sum(xs[..|xs| - 1]) + xs[|xs| - 1]
  }

  ghost predicate Jittered(sleeps: seq<real>, draws: seq<real>) {
    && |sleeps| == |draws|
    && forall i :: 0 <= i < |draws| ==> IsDraw(draws[i]) && Some(sleeps[i]) == BackoffSeconds(i, Some(draws[i]))
  }

  /** n failed heartbeats sleep between 0.8 and 1.2 times the schedule's total. */
  lemma {:induction false} SleepsStayInBudget(sleeps: seq<real>, draws: seq<real>)
    requires Jittered(sleeps, draws)
    ensures 0.8 * Budget(|draws|) as real <= Sum(sleeps) <= 1.2 * Budget(|draws|) as real
  {
    if draws == [] {
    } else {
      var n := |draws| - 1;
      SleepsStayInBudget(sleeps[..n], draws[..n]);
      JitterStaysClose(n, draws[n]);
      BudgetStep(n);
    }
  }

  // ---- how often the hook fires ----

  lemma DropsExtend(h: seq<ConnectionState>, s: ConnectionState, from: set<ConnectionState>)
    requires h != []
    ensures Drops(h + [s], from) == Drops(h, from) + if Last(h) in from && s == DISCONNECTED then 1 else 0
  {
    assert (h + [s])[..|h|] == h;
  }

  /** The drops one call adds are one at most: mark_disconnected in one of the chosen states. */
  lemma CallDrops(calls: seq<Call>, c: Call, from: set<ConnectionState>)
    requires DISCONNECTED !in from
    ensures Drops(History(calls + [c]), from) ==
            Drops(History(calls), from) + if c == Disconnected && StateAfter(calls) in from then 1 else 0
  {
    OneMoreCall(calls, c);
    var h := History(calls);
    if Step(Last(h), c) == [] {
      assert h + [] == h;
    } else {
      DropsExtend(h, Step(Last(h), c)[0], from);
    }
  }

  /** In any call sequence the hook fires exactly once per step from another state into DISCONNECTED. */
  lemma {:induction false} HookPerDrop(calls: seq<Call>)
    ensures Hooks(calls) == Drops(History(calls), {CONNECTED, RECONNECTING})
  {
    if calls == [] {
    } else {
      var before, c := calls[..|calls| - 1], calls[|calls| - 1];
      assert calls == before + [c];
      HookPerDrop(before);
      CallDrops(before, c, {CONNECTED, RECONNECTING});
      OneMoreCall(before, c);
    }
  }

  /** mark_disconnected is called at i while reconnecting. */
  predicate GivesUp(calls: seq<Call>, i: nat) {
    i < |calls| && calls[i] == Disconnected && StateAfter(calls[..i]) == RECONNECTING
  }

  /** The documented "once per CONNECTED to DISCONNECTED" is right exactly when no call gives up while reconnecting. */
  lemma {:induction false} DocumentedCountExactly(calls: seq<Call>)
    ensures Hooks(calls) == Drops(History(calls), {CONNECTED}) <==> forall i :: !GivesUp(calls, i)
    ensures Hooks(calls) >= Drops(History(calls), {CONNECTED})
  {
    if calls == [] {
    } else {
      var n := |calls| - 1;
      var before, c := calls[..n], calls[n];
      assert calls == before + [c];
      DocumentedCountExactly(before);
      CallDrops(before, c, {CONNECTED});
      OneMoreCall(before, c);
      forall i | 0 <= i < n ensures GivesUp(calls, i) <==> GivesUp(before, i) {
        assert calls[..i] == before[..i];
      }
      assert GivesUp(calls, n) <==> c == Disconnected && StateAfter(before) == RECONNECTING;
    }
  }

  /**
    Where the documentation is wrong: after any calls, giving up while reconnecting fires the hook
    without a drop from CONNECTED.
   */
  lemma GivingUpFiresHook(calls: seq<Call>)
    ensures Hooks(calls + [Reconnecting] + [Disconnected]) == Hooks(calls) + 1
    ensures Drops(History(calls + [Reconnecting] + [Disconnected]), {CONNECTED}) == Drops(History(calls), {CONNECTED})
  {
    OneMoreCall(calls, Reconnecting);
    OneMoreCall(calls + [Reconnecting], Disconnected);
    CallDrops(calls, Reconnecting, {CONNECTED});
    CallDrops(calls + [Reconnecting], Disconnected, {CONNECTED});
  }

  lemma OneHookNoDrop()
    ensures Hooks([Reconnecting] + [Disconnected]) == 1
    ensures Drops(History([Reconnecting] + [Disconnected]), {CONNECTED}) == 0
  {
    GivingUpFiresHook([]);
    assert [] + [Reconnecting] == [Reconnecting];
  }

  lemma LastApart(a: seq<Call>, after: seq<Call>)
    requires after != []
    ensures a + after == a + after[..|after| - 1] + [after[|after| - 1]]
  {
  }

  ghost predicate SameEffect(a: seq<Call>, b: seq<Call>) {
    StateAfter(a) == StateAfter(b) && Hooks(a) == Hooks(b)
  }

  lemma {:induction false} SameEffectExtends(a: seq<Call>, b: seq<Call>, after: seq<Call>)
    requires SameEffect(a, b)
    ensures SameEffect(a + after, b + after)
  {
    if after == [] {
      assert a + [] == a && b + [] == b;
    } else {
      var rest, c := after[..|after| - 1], after[|after| - 1];
      SameEffectExtends(a, b, rest);
      OneMoreCall(a + rest, c);
      OneMoreCall(b + rest, c);
      LastApart(a, after);
      LastApart(b, after);
    }
  }

  /** A disconnect reported twice counts once, whatever follows. */
  lemma DuplicateReportsAreHarmless(before: seq<Call>, after: seq<Call>)
    ensures SameEffect(before + [Disconnected] + [Disconnected] + after, before + [Disconnected] + after)
  {
    OneMoreCall(before, Disconnected);
    OneMoreCall(before + [Disconnected], Disconnected);
    SameEffectExtends(before + [Disconnected] + [Disconnected], before + [Disconnected], after);
  }
}
