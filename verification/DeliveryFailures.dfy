/**
  What a failed delivery leaves behind. A unit of work that raises after its commit makes
  its delivery fail although its writes are stored, and a unit nested in a handler commits
  for itself although the handler fails later. A redelivery repeats what is stored.
 */
module DeliveryFailures {
  import opened Options
  import opened DedupWindow
  import opened Delivery
  import opened DeliveryUnits
  import opened DeliveryQueues
  import opened DeliveryTheorems
  import opened DeliveryOnce

  /**
    In every run a failed delivery made in a unit of work has stored that unit's writes exactly
    when the unit raised after its commit, and none of them otherwise; in neither case have all
    its events gone out, unless it had none.
   */
  lemma FailedDeliveryStores(scoped: bool, run: seq<Label>, s: State, j: nat, i: nat)
    requires Reaches(scoped, run, s) && j < |s.subs| && i < |s.subs[j].handled|
    requires !s.subs[j].handled[i].ok && s.subs[j].handled[i].scoped && s.subs[j].handled[i].unit.Some?
    ensures var u := s.subs[j].handled[i].unit.value;
            && u < |s.units| && Failed(s.units[u])
            && WritesOf(s.store, u) == (if s.units[u].status == FlushFailed then s.units[u].writes else [])
            && (Via(s.published, u) == Tagged(s.units[u].outbox, u) ==> s.units[u].outbox == [])
  {
    RunKeepsInv(scoped, run);
    RunKeepsSubs(scoped, run);
    assert SubOk(s, s.subs[j]);
    var u := s.subs[j].handled[i].unit.value;
    assert UnitFailed(s.units, Some(u));
    assert UnitOk(s.units, u);
    FlushIsPrefix(scoped, run, s, u);
    assert |Tagged(s.units[u].outbox[..s.units[u].flushed], u)| == s.units[u].flushed;
    assert |Tagged(s.units[u].outbox, u)| == |s.units[u].outbox|;
  }

  // ---- when a committed unit can still fail ----

  /** No cancellation or session error strikes a committed unit. */
  predicate Uninterrupted(run: seq<Label>) {
    forall n :: 0 <= n < |run| ==> !run[n].Interrupt?
  }

  ghost predicate OnlyClosedFails(s: State) {
    s.closed || forall u :: 0 <= u < |s.units| ==> s.units[u].status != FlushFailed
  }

  lemma StepOnlyClosedFails(s: State, l: Label)
    requires Enabled(s, l) && !l.Interrupt? && OnlyClosedFails(s)
    ensures OnlyClosedFails(Step(s, l))
  {
    if !Step(s, l).closed {
      UnitsAfter(s, l);
      forall u | 0 <= u < |Step(s, l).units| ensures Step(s, l).units[u].status != FlushFailed {
        if u < |s.units| {
          UnitAfter(s, l, u);
        }
      }
    }
  }

  lemma {:induction false} UninterruptedOnlyClosedFails(scoped: bool, run: seq<Label>)
    requires Uninterrupted(run) && Exec(Init(scoped), run).Some?
    ensures OnlyClosedFails(Exec(Init(scoped), run).value)
  {
    if run == [] {
    } else {
      UninterruptedOnlyClosedFails(scoped, run[..|run| - 1]);
      StepOnlyClosedFails(Exec(Init(scoped), run[..|run| - 1]).value, run[|run| - 1]);
    }
  }

  /** While the bus is open and no committed unit was interrupted, a failed delivery's own unit has stored nothing. */
  lemma OpenFailureStoresNothing(scoped: bool, run: seq<Label>, s: State, j: nat, i: nat)
    requires Reaches(scoped, run, s) && Uninterrupted(run) && !s.closed
    requires j < |s.subs| && i < |s.subs[j].handled| && !s.subs[j].handled[i].ok && s.subs[j].handled[i].scoped
    ensures s.subs[j].handled[i].unit.Some? ==> WritesOf(s.store, s.subs[j].handled[i].unit.value) == []
  {
    if s.subs[j].handled[i].unit.Some? {
      FailedDeliveryStores(scoped, run, s, j, i);
      UninterruptedOnlyClosedFails(scoped, run);
    }
  }

  // ---- with everything nested in the delivery ----

  /** Nothing is stored by unit u or by any unit opened inside it, at whatever depth. */
  ghost predicate LeavesNothing(s: State, u: nat) {
    forall o :: 0 <= o < |s.units| && Encloses(s.units, o, u) ==> WritesOf(s.store, o) == []
  }

  /** Unit o has committed writes and is u or nested in it. */
  ghost predicate CommitsInside(s: State, u: nat, o: nat) {
    o < |s.units| && Encloses(s.units, o, u) && Committed(s.units[o]) && s.units[o].writes != []
  }

  lemma StoredWhenCommitted(s: State, o: nat)
    requires StoreOk(s) && o < |s.units|
    ensures WritesOf(s.store, o) == if Committed(s.units[o]) then s.units[o].writes else []
  {
  }

  lemma LeavesNothingExactly(s: State, u: nat)
    requires StoreOk(s)
    ensures LeavesNothing(s, u) <==> forall o: nat :: !CommitsInside(s, u, o)
  {
    if LeavesNothing(s, u) {
      forall o: nat ensures !CommitsInside(s, u, o) {
        if o < |s.units| && Encloses(s.units, o, u) {
          StoredWhenCommitted(s, o);
        }
      }
    } else {
      var o :| 0 <= o < |s.units| && Encloses(s.units, o, u) && WritesOf(s.store, o) != [];
      StoredWhenCommitted(s, o);
      assert CommitsInside(s, u, o);
    }
  }

  /**
    In every run a failed delivery has stored nothing at all exactly when neither its unit nor a
    unit nested in it has committed writes.
   */
  lemma FailureLeavesNothingExactly(scoped: bool, run: seq<Label>, s: State, j: nat, i: nat)
    requires Reaches(scoped, run, s) && j < |s.subs| && i < |s.subs[j].handled|
    requires !s.subs[j].handled[i].ok && s.subs[j].handled[i].scoped && s.subs[j].handled[i].unit.Some?
    ensures LeavesNothing(s, s.subs[j].handled[i].unit.value) <==>
            forall o: nat :: !CommitsInside(s, s.subs[j].handled[i].unit.value, o)
  {
    RunKeepsInv(scoped, run);
    LeavesNothingExactly(s, s.subs[j].handled[i].unit.value);
  }

  /** Unit o has returned with writes and is nested in u, at whatever depth. */
  ghost predicate ReturnsInside(s: State, u: nat, o: nat) {
    o != u && CommitsInside(s, u, o) && s.units[o].status == Returned
  }

  lemma OnlyNestedCommits(s: State, u: nat, o: nat)
    requires UnitsOk(s.units) && OnlyClosedFails(s) && !s.closed && u < |s.units| && Failed(s.units[u])
    ensures CommitsInside(s, u, o) <==> ReturnsInside(s, u, o)
  {
    if CommitsInside(s, u, o) {
      InsideSettled(s.units, o, u);
    }
  }

  /**
    While the bus is open and no committed unit was interrupted, only nested units can have left
    something: the failed delivery has stored nothing at all exactly when no unit opened inside
    its own has returned with writes.
   */
  lemma OpenFailureLeavesNothingExactly(scoped: bool, run: seq<Label>, s: State, j: nat, i: nat)
    requires Reaches(scoped, run, s) && Uninterrupted(run) && !s.closed
    requires j < |s.subs| && i < |s.subs[j].handled| && !s.subs[j].handled[i].ok && s.subs[j].handled[i].scoped
    requires s.subs[j].handled[i].unit.Some?
    ensures LeavesNothing(s, s.subs[j].handled[i].unit.value) <==>
            forall o: nat :: !ReturnsInside(s, s.subs[j].handled[i].unit.value, o)
  {
    var u := s.subs[j].handled[i].unit.value;
    FailedDeliveryStores(scoped, run, s, j, i);
    UninterruptedOnlyClosedFails(scoped, run);
    RunKeepsInv(scoped, run);
    LeavesNothingExactly(s, u);
    forall o: nat ensures CommitsInside(s, u, o) <==> ReturnsInside(s, u, o) {
      OnlyNestedCommits(s, u, o);
    }
  }

  /** Inside a settled unit everything is settled. */
  lemma {:induction false} InsideSettled(units: seq<Unit>, o: nat, u: nat)
    requires UnitsOk(units) && o < |units| && u < |units| && Settled(units[u]) && Encloses(units, o, u)
    ensures Settled(units[o])
    decreases o
  {
    assert UnitOk(units, o);
    if o != u {
      InsideSettled(units, units[o].parent.value, u);
    }
  }

  /** Neither an interruption nor another close. */
  predicate Calm(run: seq<Label>) {
    forall n :: 0 <= n < |run| ==> !run[n].Interrupt? && !run[n].Close?
  }

  ghost predicate FailsIn(s: State, later: seq<Label>, u: nat) {
    Calm(later) && Exec(s, later).Some? && u < |Exec(s, later).value.units|
    && Exec(s, later).value.units[u].status == FlushFailed
  }

  /** A committed unit that will return: the bus is open, or there is nothing left to hand on. */
  ghost predicate Safe(s: State, u: nat) {
    && UnitsOk(s.units) && u < |s.units| && Committed(s.units[u]) && s.units[u].status != FlushFailed
    && (!s.closed || s.units[u].flushed == |s.units[u].outbox|)
  }

  lemma StepKeepsSafe(s: State, l: Label, u: nat)
    requires Safe(s, u) && Enabled(s, l) && !l.Interrupt? && !l.Close?
    ensures Safe(Step(s, l), u)
  {
    StepKeepsUnits(s, l);
    UnitAfter(s, l, u);
    UnitGrows(s, l, u);
    assert UnitOk(s.units, u);
    if l.Flush? {
      assert UnitOk(s.units, l.unit);
    }
  }

  lemma {:induction false} CalmKeepsSafe(s: State, later: seq<Label>, u: nat)
    requires Safe(s, u) && Calm(later) && Exec(s, later).Some?
    ensures Safe(Exec(s, later).value, u)
  {
    if later == [] {
    } else {
      CalmKeepsSafe(s, later[..|later| - 1], u);
      StepKeepsSafe(Exec(s, later[..|later| - 1]).value, later[|later| - 1], u);
    }
  }

  lemma SafeNeverFails(s: State, later: seq<Label>, u: nat)
    requires Safe(s, u)
    ensures !FailsIn(s, later, u)
  {
    if Calm(later) && Exec(s, later).Some? {
      CalmKeepsSafe(s, later, u);
    }
  }

  lemma FailsAtOnce(s: State, u: nat)
    requires FlushPending(s, u) && s.closed
    ensures FailsIn(s, [FailFlush(u)], u)
  {
    ExecNext(s, [], FailFlush(u));
    assert [] + [FailFlush(u)] == [FailFlush(u)];
  }

  lemma FlushingIsSafe(s: State, u: nat)
    requires UnitsOk(s.units) && u < |s.units| && s.units[u].status == Flushing
    ensures Safe(s, u) || (FlushPending(s, u) && s.closed)
  {
    assert UnitOk(s.units, u);
  }

  /**
    A unit that has committed can still fail, without being interrupted and without the bus being
    closed from now on, exactly when the bus is already closed and it has an event to hand on.
   */
  lemma CommittedFailsExactly(scoped: bool, run: seq<Label>, s: State, u: nat)
    requires Reaches(scoped, run, s) && u < |s.units| && s.units[u].status == Flushing
    ensures (exists later :: FailsIn(s, later, u)) <==> s.closed && s.units[u].flushed < |s.units[u].outbox|
  {
    RunKeepsInv(scoped, run);
    FlushingIsSafe(s, u);
    if s.closed && s.units[u].flushed < |s.units[u].outbox| {
      FailsAtOnce(s, u);
    } else {
      forall later ensures !FailsIn(s, later, u) {
        SafeNeverFails(s, later, u);
      }
    }
  }

  // ---- a redelivery that stores its write twice ----

  const ORDER: Event := Event(0, Some("k"), 0)
  const NOTICE: Event := Event(1, None, 0)

  function Given(): Msg {
    Msg(ORDER, None, None)
  }

  /** One idempotent subscriber to orders, deliveries in units of work. */
  function Shop(units: seq<Unit>, queue: seq<Msg>, worker: Worker, handled: seq<Handled>, log: seq<Key>,
                store: seq<Entry>, published: seq<Msg>): State {
    State(false, true, units,
          [Sub(0, Dedup(true, 1000, log), queue, |queue| + if worker == Waiting then 0 else 1,
               worker, false, 0, None, {}, handled)],
          store, published)
  }

  ghost predicate Leads(run: seq<Label>, s: State) {
    Reaches(true, run, s)
  }

  lemma Onward(run: seq<Label>, s: State, l: Label, t: State)
    requires Leads(run, s) && Enabled(s, l) && Step(s, l) == t
    ensures Leads(run + [l], t)
  {
    ExecNext(Init(true), run, l);
  }

  lemma Opens() returns (run: seq<Label>)
    ensures Leads(run, Shop([], [], Waiting, [], [], [], []))
  {
    run := [Subscribe(0, true, 1000)];
    var t := Step(Init(true), Subscribe(0, true, 1000));
    assert t.subs == [t.subs[0]];
    Onward([], Init(true), Subscribe(0, true, 1000), Shop([], [], Waiting, [], [], [], []));
    assert [] + run == run;
  }

  lemma Orders(run: seq<Label>, units: seq<Unit>, handled: seq<Handled>, store: seq<Entry>, published: seq<Msg>)
    requires Leads(run, Shop(units, [], Waiting, handled, [], store, published))
    ensures Leads(run + [PublishNow(ORDER)],
                  Shop(units, [Given()], Waiting, handled, [], store, published + [Given()]))
  {
    var s := Shop(units, [], Waiting, handled, [], store, published);
    var t := Step(s, PublishNow(ORDER));
    assert t.subs == [t.subs[0]] && [] + [Given()] == [Given()];
    Onward(run, s, PublishNow(ORDER), Shop(units, [Given()], Waiting, handled, [], store, published + [Given()]));
  }

  lemma TakesOrder(run: seq<Label>, units: seq<Unit>, handled: seq<Handled>, store: seq<Entry>, published: seq<Msg>)
    requires Leads(run, Shop(units, [Given()], Waiting, handled, [], store, published))
    ensures Leads(run + [Dequeue(0)] + [BeginDelivery(0)],
                  Shop(units + [Unit(None, Active, [], [], 0)], [], Handling(Given(), true, Some(|units|)),
                       handled, [], store, published))
  {
    var s := Shop(units, [Given()], Waiting, handled, [], store, published);
    var v := Shop(units, [], Handling(Given(), true, None), handled, [], store, published);
    assert [Given()][1..] == [];
    assert Step(s, Dequeue(0)).subs == v.subs;
    Onward(run, s, Dequeue(0), v);
    var t := Step(v, BeginDelivery(0));
    assert t.subs == [t.subs[0]];
    Onward(run + [Dequeue(0)], v, BeginDelivery(0),
           Shop(units + [Unit(None, Active, [], [], 0)], [], Handling(Given(), true, Some(|units|)),
                handled, [], store, published));
  }

  /** A unit opened inside the last one writes x, commits and returns. */
  lemma Nests(run: seq<Label>, units: seq<Unit>, x: int, handled: seq<Handled>,
              store: seq<Entry>, published: seq<Msg>) returns (more: seq<Label>)
    requires forall c :: 0 <= c < |units| ==> units[c].parent.Some? ==> units[c].parent.value < |units|
    requires Leads(run, Shop(units + [Unit(None, Active, [], [], 0)], [], Handling(Given(), true, Some(|units|)),
                             handled, [], store, published))
    ensures Leads(more, Shop(units + [Unit(None, Active, [], [], 0)] + [Unit(Some(|units|), Returned, [x], [], 0)], [],
                             Handling(Given(), true, Some(|units|)), handled, [],
                             store + [Entry(|units| + 1, x)], published))
  {
    var n, w := |units|, Handling(Given(), true, Some(|units|));
    var outer := units + [Unit(None, Active, [], [], 0)];
    var s := Shop(outer, [], w, handled, [], store, published);
    var s1 := Shop(outer + [Unit(Some(n), Active, [], [], 0)], [], w, handled, [], store, published);
    assert Running(s, n) && Step(s, Begin(Some(n))) == s1;
    Onward(run, s, Begin(Some(n)), s1);
    var s2 := Shop(outer + [Unit(Some(n), Active, [x], [], 0)], [], w, handled, [], store, published);
    assert Running(s1, n + 1) && [] + [x] == [x] && Step(s1, Write(n + 1, x)).units == s2.units;
    Onward(run + [Begin(Some(n))], s1, Write(n + 1, x), s2);
    more := NestedReturns(run + [Begin(Some(n))] + [Write(n + 1, x)], outer, n, x, handled, store, published);
  }

  lemma NestedReturns(run: seq<Label>, outer: seq<Unit>, n: nat, x: int, handled: seq<Handled>,
                      store: seq<Entry>, published: seq<Msg>) returns (more: seq<Label>)
    requires |outer| == n + 1 && forall c :: 0 <= c <= n ==> outer[c].parent != Some(n + 1)
    requires Leads(run, Shop(outer + [Unit(Some(n), Active, [x], [], 0)], [], Handling(Given(), true, Some(n)),
                             handled, [], store, published))
    ensures Leads(more, Shop(outer + [Unit(Some(n), Returned, [x], [], 0)], [], Handling(Given(), true, Some(n)),
                             handled, [], store + [Entry(n + 1, x)], published))
  {
    var w, stored := Handling(Given(), true, Some(n)), store + [Entry(n + 1, x)];
    var s := Shop(outer + [Unit(Some(n), Active, [x], [], 0)], [], w, handled, [], store, published);
    var s1 := Shop(outer + [Unit(Some(n), Flushing, [x], [], 0)], [], w, handled, [], stored, published);
    assert Running(s, n + 1) && Step(s, Commit(n + 1)).units == s1.units && Entries(n + 1, [x]) == [Entry(n + 1, x)];
    Onward(run, s, Commit(n + 1), s1);
    var t := Shop(outer + [Unit(Some(n), Returned, [x], [], 0)], [], w, handled, [], stored, published);
    assert Step(s1, Return(n + 1)).units == t.units;
    Onward(run + [Commit(n + 1)], s1, Return(n + 1), t);
    more := run + [Commit(n + 1)] + [Return(n + 1)];
  }

  /** The last unit writes x, buffers these events and commits. */
  lemma Stores(run: seq<Label>, units: seq<Unit>, x: int, notify: bool, handled: seq<Handled>,
               store: seq<Entry>, published: seq<Msg>) returns (more: seq<Label>)
    requires forall c :: 0 <= c < |units| ==> units[c].parent == None
    requires Leads(run, Shop(units + [Unit(None, Active, [], [], 0)], [], Handling(Given(), true, Some(|units|)),
                             handled, [], store, published))
    ensures var outbox := if notify then [Msg(NOTICE, Some(|units|), None)] else [];
            Leads(more, Shop(units + [Unit(None, Flushing, [x], outbox, 0)], [], Handling(Given(), true, Some(|units|)),
                             handled, [], store + [Entry(|units|, x)], published))
  {
    var n, w := |units|, Handling(Given(), true, Some(|units|));
    var s := Shop(units + [Unit(None, Active, [], [], 0)], [], w, handled, [], store, published);
    var s1 := Shop(units + [Unit(None, Active, [x], [], 0)], [], w, handled, [], store, published);
    assert [] + [x] == [x] && Running(s, n) && Step(s, Write(n, x)).units == s1.units;
    Onward(run, s, Write(n, x), s1);
    more := run + [Write(n, x)];
    var s2 := s1;
    if notify {
      var v := Unit(None, Active, [x], [Msg(NOTICE, Some(n), None)], 0);
      s2 := Shop(units + [v], [], w, handled, [], store, published);
      assert [] + [Msg(NOTICE, Some(n), None)] == [Msg(NOTICE, Some(n), None)];
      assert Running(s1, n) && Step(s1, PublishIn(n, NOTICE)).units == s2.units;
      Onward(more, s1, PublishIn(n, NOTICE), s2);
      more := more + [PublishIn(n, NOTICE)];
    }
    CommitsLast(more, units, x, s2.units[n].outbox, handled, store, published);
    more := more + [Commit(n)];
  }

  lemma CommitsLast(run: seq<Label>, units: seq<Unit>, x: int, outbox: seq<Msg>, handled: seq<Handled>,
                    store: seq<Entry>, published: seq<Msg>)
    requires forall c :: 0 <= c < |units| ==> units[c].parent == None
    requires Leads(run, Shop(units + [Unit(None, Active, [x], outbox, 0)], [], Handling(Given(), true, Some(|units|)),
                             handled, [], store, published))
    ensures Leads(run + [Commit(|units|)],
                  Shop(units + [Unit(None, Flushing, [x], outbox, 0)], [], Handling(Given(), true, Some(|units|)),
                       handled, [], store + [Entry(|units|, x)], published))
  {
    var n, w := |units|, Handling(Given(), true, Some(|units|));
    var s := Shop(units + [Unit(None, Active, [x], outbox, 0)], [], w, handled, [], store, published);
    var t := Shop(units + [Unit(None, Flushing, [x], outbox, 0)], [], w, handled, [], store + [Entry(n, x)], published);
    assert Running(s, n) && Step(s, Commit(n)).units == t.units;
    assert Entries(n, [x]) == [Entry(n, x)];
    Onward(run, s, Commit(n), t);
  }

  lemma Ends(run: seq<Label>, units: seq<Unit>, v: Unit, ok: bool, handled: seq<Handled>,
             store: seq<Entry>, published: seq<Msg>) returns (more: seq<Label>)
    requires v.status == Flushing && v.flushed == 0 && (ok ==> v.outbox == [])
    requires Leads(run, Shop(units + [v], [], Handling(Given(), true, Some(|units|)), handled, [], store, published))
    ensures Leads(more, Shop(units + [v.(status := if ok then Returned else FlushFailed)], [], Waiting,
                             handled + [Handled(Given(), ok, true, Some(|units|))],
                             if ok then ["k"] else [], store, published))
  {
    var n, w := |units|, Handling(Given(), true, Some(|units|));
    var l, end := if ok then Return(n) else Interrupt(n), if ok then FinishOk(0) else FinishFailed(0);
    var s := Shop(units + [v], [], w, handled, [], store, published);
    var s1 := Shop(units + [v.(status := if ok then Returned else FlushFailed)], [], w, handled, [], store, published);
    assert Step(s, l).units == s1.units;
    Onward(run, s, l, s1);
    var t := Step(s1, end);
    assert t.subs == [t.subs[0]] && t.subs[0] == Finished(s1.subs[0], ok) && [] + ["k"] == ["k"];
    Onward(run + [l], s1, end, Shop(s1.units, [], Waiting, handled + [Handled(Given(), ok, true, Some(n))],
                                    if ok then ["k"] else [], store, published));
    more := run + [l] + [end];
  }

  function Attempt(n: nat, ok: bool): Handled {
    Handled(Given(), ok, true, Some(n))
  }

  function FailedUnit(x: int): Unit {
    Unit(None, FlushFailed, [x], [Msg(NOTICE, Some(0), None)], 0)
  }

  lemma FirstFails(x: int) returns (run: seq<Label>)
    ensures Leads(run, Shop([FailedUnit(x)], [], Waiting, [Attempt(0, false)], [], [Entry(0, x)], [Given()]))
  {
    assert [] + [Given()] == [Given()] && [] + [Entry(0, x)] == [Entry(0, x)];
    run := Opens();
    Orders(run, [], [], [], []);
    run := run + [PublishNow(ORDER)];
    TakesOrder(run, [], [], [], [Given()]);
    run := Stores(run + [Dequeue(0)] + [BeginDelivery(0)], [], x, true, [], [], [Given()]);
    var v := Unit(None, Flushing, [x], [Msg(NOTICE, Some(0), None)], 0);
    run := Ends(run, [], v, false, [], [Entry(0, x)], [Given()]);
    assert [] + [FailedUnit(x)] == [FailedUnit(x)] && [] + [Attempt(0, false)] == [Attempt(0, false)];
  }

  lemma SecondSucceeds(first: seq<Label>, x: int) returns (run: seq<Label>)
    requires Leads(first, Shop([FailedUnit(x)], [], Waiting, [Attempt(0, false)], [], [Entry(0, x)], [Given()]))
    ensures Leads(run, Shop([FailedUnit(x)] + [Unit(None, Returned, [x], [], 0)], [], Waiting,
                            [Attempt(0, false)] + [Attempt(1, true)], ["k"],
                            [Entry(0, x)] + [Entry(1, x)], [Given()] + [Given()]))
  {
    var units, handled, store := [FailedUnit(x)], [Attempt(0, false)], [Entry(0, x)];
    Orders(first, units, handled, store, [Given()]);
    run := first + [PublishNow(ORDER)];
    TakesOrder(run, units, handled, store, [Given()] + [Given()]);
    run := Stores(run + [Dequeue(0)] + [BeginDelivery(0)], units, x, false, handled, store, [Given()] + [Given()]);
    run := Ends(run, units, Unit(None, Flushing, [x], [], 0), true, handled,
                store + [Entry(1, x)], [Given()] + [Given()]);
  }

  /**
    A handler writes and announces, its unit commits, and closing the session fails: the delivery
    counts as failed and its key is not recorded. The order is published again under the same key
    and handled with success, which stores the write a second time; the announcement never went out.
   */
  lemma RedeliveryStoresTwice(x: int) returns (run: seq<Label>, s: State)
    ensures Reaches(true, run, s) && !s.closed && |s.subs| == 1
    ensures Oks(s.subs[0].handled) == [false, true] && OkKeys(s.subs[0].handled) == ["k"]
    ensures s.store == [Entry(0, x), Entry(1, x)] && s.published == [Given(), Given()]
    ensures |s.units| == 2 && s.units[0].status == FlushFailed && |s.units[0].outbox| == 1
  {
    var first := FirstFails(x);
    run := SecondSucceeds(first, x);
    s := Shop([FailedUnit(x)] + [Unit(None, Returned, [x], [], 0)], [], Waiting,
              [Attempt(0, false)] + [Attempt(1, true)], ["k"],
              [Entry(0, x)] + [Entry(1, x)], [Given()] + [Given()]);
    OkKeysAppend([Attempt(0, false)], Attempt(1, true));
    OkKeysAppend([], Attempt(0, false));
    assert [] + [Attempt(0, false)] == [Attempt(0, false)];
  }

  // ---- a nested unit that outlives the failed delivery ----

  /** The units of one attempt: the handler's own, ended so, and the one it opened. */
  function NestedUnits(n: nat, x: int, status: Status): seq<Unit> {
    [Unit(None, status, [], [], 0)] + [Unit(Some(n), Returned, [x], [], 0)]
  }

  lemma CommitsOuter(run: seq<Label>, units: seq<Unit>, x: int, handled: seq<Handled>,
                     store: seq<Entry>, published: seq<Msg>)
    requires forall c :: 0 <= c < |units| ==> units[c].parent.Some? ==> units[c].parent.value < |units|
    requires Leads(run, Shop(units + NestedUnits(|units|, x, Active), [], Handling(Given(), true, Some(|units|)),
                             handled, [], store, published))
    ensures Leads(run + [Commit(|units|)],
                  Shop(units + NestedUnits(|units|, x, Flushing), [], Handling(Given(), true, Some(|units|)),
                       handled, [], store, published))
  {
    var n, w := |units|, Handling(Given(), true, Some(|units|));
    var s := Shop(units + NestedUnits(n, x, Active), [], w, handled, [], store, published);
    var t := Shop(units + NestedUnits(n, x, Flushing), [], w, handled, [], store, published);
    assert Running(s, n) && Step(s, Commit(n)).units == t.units && Entries(n, []) == [] && store + [] == store;
    Onward(run, s, Commit(n), t);
  }

  /** The handler's unit n, with a returned unit inside it, ends with its delivery. */
  lemma EndsOuter(run: seq<Label>, units: seq<Unit>, x: int, ok: bool, handled: seq<Handled>,
                  store: seq<Entry>, published: seq<Msg>) returns (more: seq<Label>)
    requires forall c :: 0 <= c < |units| ==> units[c].parent.Some? ==> units[c].parent.value < |units|
    requires Leads(run, Shop(units + NestedUnits(|units|, x, Active), [], Handling(Given(), true, Some(|units|)),
                             handled, [], store, published))
    ensures Leads(more, Shop(units + NestedUnits(|units|, x, if ok then Returned else RolledBack), [], Waiting,
                             handled + [Attempt(|units|, ok)], if ok then ["k"] else [], store, published))
  {
    var n, w := |units|, Handling(Given(), true, Some(|units|));
    var s := Shop(units + NestedUnits(n, x, Active), [], w, handled, [], store, published);
    assert ok || Running(s, n);
    var v := s;
    more := run;
    if ok {
      v := Shop(units + NestedUnits(n, x, Flushing), [], w, handled, [], store, published);
      CommitsOuter(run, units, x, handled, store, published);
      more := run + [Commit(n)];
    }
    var status := if ok then Returned else RolledBack;
    var l, end := if ok then Return(n) else RollBack(n), if ok then FinishOk(0) else FinishFailed(0);
    var u := Shop(units + NestedUnits(n, x, status), [], w, handled, [], store, published);
    assert Step(v, l).units == u.units;
    Onward(more, v, l, u);
    var t := Step(u, end);
    assert t.subs == [t.subs[0]] && t.subs[0] == Finished(u.subs[0], ok) && [] + ["k"] == ["k"];
    Onward(more + [l], u, end, Shop(u.units, [], Waiting, handled + [Attempt(n, ok)],
                                    if ok then ["k"] else [], store, published));
    more := more + [l] + [end];
  }

  /** One order, and one attempt to handle it in which a nested unit stores x. */
  lemma Attempts(run: seq<Label>, units: seq<Unit>, x: int, ok: bool, handled: seq<Handled>,
                 store: seq<Entry>, published: seq<Msg>) returns (more: seq<Label>)
    requires forall c :: 0 <= c < |units| ==> units[c].parent.Some? ==> units[c].parent.value < |units|
    requires Leads(run, Shop(units, [], Waiting, handled, [], store, published))
    ensures Leads(more, Shop(units + NestedUnits(|units|, x, if ok then Returned else RolledBack), [], Waiting,
                             handled + [Attempt(|units|, ok)], if ok then ["k"] else [],
                             store + [Entry(|units| + 1, x)], published + [Given()]))
  {
    var n := |units|;
    Orders(run, units, handled, store, published);
    TakesOrder(run + [PublishNow(ORDER)], units, handled, store, published + [Given()]);
    more := Nests(run + [PublishNow(ORDER)] + [Dequeue(0)] + [BeginDelivery(0)], units, x, handled, store,
                  published + [Given()]);
    assert units + [Unit(None, Active, [], [], 0)] + [Unit(Some(n), Returned, [x], [], 0)] ==
           units + NestedUnits(n, x, Active);
    more := EndsOuter(more, units, x, ok, handled, store + [Entry(n + 1, x)], published + [Given()]);
  }

  /**
    The other input: a unit opened inside the handler commits, then the handler raises and its own
    unit rolls back. Nothing was interrupted and the bus is open, yet the write is stored, and the
    redelivery stores it again.
   */
  lemma NestedCommitStoresTwice(x: int) returns (run: seq<Label>, s: State)
    ensures Reaches(true, run, s) && !s.closed && |s.subs| == 1
    ensures Oks(s.subs[0].handled) == [false, true]
    ensures s.store == [Entry(1, x), Entry(3, x)] && s.published == [Given(), Given()]
    ensures forall u :: 0 <= u < |s.units| ==> s.units[u].status != FlushFailed
  {
    run := Opens();
    run := Attempts(run, [], x, false, [], [], []);
    var first, handled := [] + NestedUnits(0, x, RolledBack), [] + [Attempt(0, false)];
    run := Attempts(run, first, x, true, handled, [] + [Entry(1, x)], [] + [Given()]);
    s := Shop(first + NestedUnits(2, x, Returned), [], Waiting, handled + [Attempt(2, true)], ["k"],
              [] + [Entry(1, x)] + [Entry(3, x)], [] + [Given()] + [Given()]);
  }
}
