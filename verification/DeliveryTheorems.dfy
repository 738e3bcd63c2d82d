/**
  The guarantees of the bus and the outbox, for every run from the initial state:
  publish after commit, all-or-nothing units, in-order delivery, and workers that go on
  after failures.
 */
module DeliveryTheorems {
  import opened Options
  import opened DedupWindow
  import opened Delivery
  import opened DeliveryUnits
  import opened DeliveryQueues

  ghost predicate Reaches(scoped: bool, run: seq<Label>, s: State) {
    Exec(Init(scoped), run) == Some(s)
  }

  /** Unit a is o itself or one of the units o runs inside. */
  ghost predicate Encloses(units: seq<Unit>, o: nat, a: nat)
    decreases o
  {
    o == a || (o < |units| && units[o].parent.Some? && units[o].parent.value < o
               && Encloses(units, units[o].parent.value, a))
  }

  lemma {:induction false} EnclosingCommitted(units: seq<Unit>, o: nat, a: nat)
    requires CommittedUpTo(units, o, None) && Encloses(units, o, a)
    ensures a < |units| && Committed(units[a])
    decreases o
  {
    if o != a {
      EnclosingCommitted(units, units[o].parent.value, a);
    }
  }

  lemma {:induction false} AcceptedWasPublished(p: seq<Msg>, b: Sub, m: Msg)
    requires m in Accepted(p, b)
    ensures m in p
  {
    var n := |p| - 1;
    if m in Accepted(p[..n], b) {
      AcceptedWasPublished(p[..n], b, m);
    }
  }

  /**
    An event that reached any queue, is being handled or was handled was published in a
    unit that has committed, and so have all units around it; their writes are all stored.
   */
  lemma PublishAfterCommit(scoped: bool, run: seq<Label>, s: State, j: nat, m: Msg, a: nat)
    requires Reaches(scoped, run, s)
    requires j < |s.subs| && m in History(s.subs[j]) && m.origin.Some? && Encloses(s.units, m.origin.value, a)
    ensures a < |s.units| && Committed(s.units[a]) && WritesOf(s.store, a) == s.units[a].writes
  {
    RunKeepsInv(scoped, run);
    RunKeepsSubs(scoped, run);
    assert SubOk(s, s.subs[j]);
    AcceptedWasPublished(s.published, s.subs[j], m);
    var i :| 0 <= i < |s.published| && s.published[i] == m;
    assert OriginOk(s.units, m, None);
    EnclosingCommitted(s.units, m.origin.value, a);
  }

  /** A unit that rolled back or is still open has stored nothing and delivered nothing, not even from nested units. */
  lemma UncommittedLeavesNothing(scoped: bool, run: seq<Label>, s: State, u: nat)
    requires Reaches(scoped, run, s) && u < |s.units| && !Committed(s.units[u])
    ensures WritesOf(s.store, u) == []
    ensures forall j, m :: 0 <= j < |s.subs| && m in History(s.subs[j]) && m.origin.Some? ==>
              !Encloses(s.units, m.origin.value, u)
  {
    RunKeepsInv(scoped, run);
    forall j, m | 0 <= j < |s.subs| && m in History(s.subs[j]) && m.origin.Some?
      ensures !Encloses(s.units, m.origin.value, u)
    {
      if Encloses(s.units, m.origin.value, u) {
        PublishAfterCommit(scoped, run, s, j, m, u);
      }
    }
  }

  /**
    A unit hands on its outbox in order: a prefix of it, nothing when it rolled back. A
    settled unit that committed handed on the whole exactly when it returned normally or had
    nothing to hand on. An outermost unit hands it to the bus, a nested one to the outbox
    around it.
   */
  lemma FlushIsPrefix(scoped: bool, run: seq<Label>, s: State, u: nat)
    requires Reaches(scoped, run, s) && u < |s.units|
    ensures s.units[u].flushed <= |s.units[u].outbox|
    ensures Via(Sink(s, u), u) == Tagged(s.units[u].outbox[..s.units[u].flushed], u)
    ensures s.units[u].status == RolledBack ==> Via(Sink(s, u), u) == []
    ensures Settled(s.units[u]) && Committed(s.units[u]) ==>
              (s.units[u].status == Returned || s.units[u].outbox == [] <==>
               Via(Sink(s, u), u) == Tagged(s.units[u].outbox, u))
  {
    RunKeepsInv(scoped, run);
    assert UnitOk(s.units, u);
    var v := s.units[u];
    assert |Tagged(v.outbox[..v.flushed], u)| == v.flushed;
    assert |Tagged(v.outbox, u)| == |v.outbox|;
    if v.flushed == |v.outbox| {
      assert v.outbox[..v.flushed] == v.outbox;
    }
  }

  /** A success of sub b for this key, whose unit (when deliveries are scoped) committed and flushed everything. */
  ghost predicate DurablyHandled(s: State, b: Sub, key: Key) {
    exists i :: 0 <= i < |b.handled| && b.handled[i].ok && b.handled[i].msg.event.key == Some(key)
                && (b.handled[i].scoped ==> FullyDone(s, b.handled[i].unit))
  }

  ghost predicate FullyDone(s: State, unit: Option<nat>) {
    && unit.Some? && unit.value < |s.units|
    && var u := unit.value;
       && WritesOf(s.store, u) == s.units[u].writes
       && Via(s.published, u) == Tagged(s.units[u].outbox, u)
  }

  /** A recorded key, and hence a suppressed event, stands for work that is committed and fully fanned out. */
  lemma RecordedMeansDone(scoped: bool, run: seq<Label>, s: State, j: nat)
    requires Reaches(scoped, run, s) && j < |s.subs|
    ensures forall k :: k in s.subs[j].dedup.log ==> DurablyHandled(s, s.subs[j], k)
    ensures forall i :: i in s.subs[j].suppressed ==>
              i < |s.published| && s.published[i].event.key.Some?
              && DurablyHandled(s, s.subs[j], s.published[i].event.key.value)
  {
    RunKeepsInv(scoped, run);
    RunKeepsSubs(scoped, run);
    var b := s.subs[j];
    assert SubOk(s, b);
    forall k | k in b.dedup.log ensures DurablyHandled(s, b, k) {
      assert KeyHandled(b, k);
      var i :| 0 <= i < |b.handled| && b.handled[i].ok && b.handled[i].msg.event.key == Some(k);
      if b.handled[i].scoped {
        assert UnitReturned(s.units, b.handled[i].unit);
        var u := b.handled[i].unit.value;
        FlushIsPrefix(scoped, run, s, u);
        assert Sink(s, u) == s.published;
        assert Settled(s.units[u]) && Committed(s.units[u]);
      }
    }
  }

  /**
    First in, first out, nothing lost: what was handled (well or badly), then what is in
    hand, then what is queued is exactly the due publications in order, less the suppressed.
   */
  lemma InOrderAndConserved(scoped: bool, run: seq<Label>, s: State, j: nat)
    requires Reaches(scoped, run, s) && j < |s.subs|
    ensures var b := s.subs[j];
            && Msgs(b.handled) + InHand(b.worker) + b.queue == Accepted(s.published, b)
            && b.unfinished == |b.queue| + (if b.worker.Handling? then 1 else 0)
  {
    RunKeepsSubs(scoped, run);
    assert SubOk(s, s.subs[j]);
  }

  // ---- a failing handler neither stops nor reorders the queue ----

  function Oks(hs: seq<Handled>): seq<bool> {
    seq(|hs|, i requires 0 <= i < |hs| => hs[i].ok)
  }

  /** What a waiting worker does with the next event, when the handler succeeds (ok) or raises. */
  function Round(s: State, j: nat, ok: bool): seq<Label> {
    if s.scoped then
      [Dequeue(j), BeginDelivery(j)]
      + (if ok then [Commit(|s.units|), Return(|s.units|), FinishOk(j)] else [RollBack(|s.units|), FinishFailed(j)])
    else [Dequeue(j), if ok then FinishOk(j) else FinishFailed(j)]
  }

  /** No step of the run fans an event out or buffers one. */
  predicate Silent(run: seq<Label>) {
    forall n :: 0 <= n < |run| ==> !run[n].PublishNow? && !run[n].PublishIn? && !run[n].Flush?
  }

  lemma {:induction false} ExecJoin(s: State, a: seq<Label>, b: seq<Label>)
    requires Exec(s, a).Some?
    ensures Exec(s, a + b) == Exec(Exec(s, a).value, b)
  {
    if b == [] {
      assert a + b == a;
    } else {
      ExecJoin(s, a, b[..|b| - 1]);
      assert (a + b)[..|a + b| - 1] == a + b[..|b| - 1];
    }
  }

  lemma ExecNext(s: State, a: seq<Label>, l: Label)
    requires Exec(s, a).Some? && Enabled(Exec(s, a).value, l)
    ensures Exec(s, a + [l]) == Some(Step(Exec(s, a).value, l))
  {
    assert (a + [l])[..|a|] == a;
  }

  ghost predicate ParentsExist(units: seq<Unit>) {
    forall c :: 0 <= c < |units| && units[c].parent.Some? ==> units[c].parent.value < |units|
  }

  /** t differs from s by subscription j having handled the head of its queue. */
  ghost predicate HandledHead(s: State, t: State, j: nat, ok: bool) {
    && ParentsExist(t.units) && t.scoped == s.scoped
    && j < |s.subs| && j < |t.subs| && s.subs[j].queue != []
    && t.subs[j].worker == Waiting && t.subs[j].queue == s.subs[j].queue[1..]
    && Msgs(t.subs[j].handled) == Msgs(s.subs[j].handled) + [s.subs[j].queue[0]]
    && Oks(t.subs[j].handled) == Oks(s.subs[j].handled) + [ok]
    && t.subs[j].dedup.window == s.subs[j].dedup.window
  }

  /** The scoped delivery up to the point where the handler has returned or raised. */
  lemma BeginsDelivery(s: State, j: nat)
    requires ParentsExist(s.units) && j < |s.subs| && s.subs[j].worker == Waiting && s.subs[j].queue != [] && s.scoped
    ensures Exec(s, [Dequeue(j), BeginDelivery(j)]).Some?
    ensures var t := Exec(s, [Dequeue(j), BeginDelivery(j)]).value;
            && t.scoped && t.units == s.units + [Unit(None, Active, [], [], 0)] && |t.subs| == |s.subs|
            && t.subs[j] == s.subs[j].(queue := s.subs[j].queue[1..],
                                       worker := Handling(s.subs[j].queue[0], true, Some(|s.units|)))
  {
    ExecNext(s, [], Dequeue(j));
    assert [] + [Dequeue(j)] == [Dequeue(j)];
    ExecNext(s, [Dequeue(j)], BeginDelivery(j));
    assert [Dequeue(j)] + [BeginDelivery(j)] == [Dequeue(j), BeginDelivery(j)];
  }

  /** The last unit, empty, outermost and still running. */
  ghost predicate LastEmpty(s: State, u: nat) {
    && u + 1 == |s.units| && s.units[u] == Unit(None, Active, [], [], 0)
    && forall c :: 0 <= c < u ==> s.units[c].parent != Some(u)
  }

  /** t is s but for the status of unit u. */
  ghost predicate OnlyStatus(s: State, t: State, u: nat, status: Status) {
    && u < |s.units| && t.units == s.units[u := s.units[u].(status := status)]
    && t.subs == s.subs && t.scoped == s.scoped
  }

  lemma CommitsAlone(s: State, u: nat)
    requires LastEmpty(s, u)
    ensures Enabled(s, Commit(u)) && OnlyStatus(s, Step(s, Commit(u)), u, Flushing)
  {
  }

  lemma ReturnsAlone(s: State, u: nat)
    requires u < |s.units| && s.units[u] == Unit(None, Flushing, [], [], 0)
    ensures Enabled(s, Return(u)) && OnlyStatus(s, Step(s, Return(u)), u, Returned)
  {
  }

  lemma FinishesScoped(s: State, j: nat, u: nat, ok: bool)
    requires j < |s.subs| && s.subs[j].worker.Handling? && s.subs[j].worker.scoped && s.subs[j].worker.unit == Some(u)
    requires u < |s.units| && s.units[u].status == if ok then Returned else RolledBack
    ensures var l := if ok then FinishOk(j) else FinishFailed(j);
            && Enabled(s, l) && Step(s, l).units == s.units && Step(s, l).scoped == s.scoped
            && |Step(s, l).subs| == |s.subs| && Step(s, l).subs[j] == Finished(s.subs[j], ok)
  {
  }

  lemma EndsOk(s: State, j: nat, u: nat)
    requires ParentsExist(s.units) && j < |s.subs| && s.subs[j].worker.Handling?
    requires s.subs[j].worker.scoped && s.subs[j].worker.unit == Some(u) && LastEmpty(s, u)
    ensures Exec(s, [Commit(u), Return(u), FinishOk(j)]).Some?
    ensures var t := Exec(s, [Commit(u), Return(u), FinishOk(j)]).value;
            t.scoped == s.scoped && ParentsExist(t.units) && |t.subs| == |s.subs|
            && t.subs[j] == Finished(s.subs[j], true)
  {
    CommitsAlone(s, u);
    ExecNext(s, [], Commit(u));
    assert [] + [Commit(u)] == [Commit(u)];
    var s1 := Step(s, Commit(u));
    ReturnsAlone(s1, u);
    ExecNext(s, [Commit(u)], Return(u));
    assert [Commit(u)] + [Return(u)] == [Commit(u), Return(u)];
    var s2 := Step(s1, Return(u));
    FinishesScoped(s2, j, u, true);
    ExecNext(s, [Commit(u), Return(u)], FinishOk(j));
    assert [Commit(u), Return(u)] + [FinishOk(j)] == [Commit(u), Return(u), FinishOk(j)];
  }

  lemma RollsBackAlone(s: State, u: nat)
    requires LastEmpty(s, u)
    ensures Enabled(s, RollBack(u)) && OnlyStatus(s, Step(s, RollBack(u)), u, RolledBack)
  {
  }

  lemma EndsFailed(s: State, j: nat, u: nat)
    requires ParentsExist(s.units) && j < |s.subs| && s.subs[j].worker.Handling?
    requires s.subs[j].worker.scoped && s.subs[j].worker.unit == Some(u) && LastEmpty(s, u)
    ensures Exec(s, [RollBack(u), FinishFailed(j)]).Some?
    ensures var t := Exec(s, [RollBack(u), FinishFailed(j)]).value;
            t.scoped == s.scoped && ParentsExist(t.units) && |t.subs| == |s.subs|
            && t.subs[j] == Finished(s.subs[j], false)
  {
    RollsBackAlone(s, u);
    ExecNext(s, [], RollBack(u));
    assert [] + [RollBack(u)] == [RollBack(u)];
    var s1 := Step(s, RollBack(u));
    FinishesScoped(s1, j, u, false);
    ExecNext(s, [RollBack(u)], FinishFailed(j));
    assert [RollBack(u)] + [FinishFailed(j)] == [RollBack(u), FinishFailed(j)];
  }

  lemma FinishedHead(b: Sub, scoped: bool, unit: Option<nat>, ok: bool)
    requires b.queue != []
    ensures var c := Finished(b.(queue := b.queue[1..], worker := Handling(b.queue[0], scoped, unit)), ok);
            && c.worker == Waiting && c.queue == b.queue[1..]
            && Msgs(c.handled) == Msgs(b.handled) + [b.queue[0]]
            && Oks(c.handled) == Oks(b.handled) + [ok] && c.dedup.window == b.dedup.window
  {
  }

  lemma PlainRound(s: State, j: nat, ok: bool)
    requires ParentsExist(s.units) && j < |s.subs| && s.subs[j].worker == Waiting && s.subs[j].queue != [] && !s.scoped
    ensures Exec(s, Round(s, j, ok)).Some? && HandledHead(s, Exec(s, Round(s, j, ok)).value, j, ok)
  {
    var last := if ok then FinishOk(j) else FinishFailed(j);
    ExecNext(s, [], Dequeue(j));
    assert [] + [Dequeue(j)] == [Dequeue(j)];
    ExecNext(s, [Dequeue(j)], last);
    assert [Dequeue(j)] + [last] == [Dequeue(j), last];
    FinishedHead(s.subs[j], false, None, ok);
  }

  lemma ScopedRound(s: State, j: nat, ok: bool)
    requires ParentsExist(s.units) && j < |s.subs| && s.subs[j].worker == Waiting && s.subs[j].queue != [] && s.scoped
    ensures Exec(s, Round(s, j, ok)).Some? && HandledHead(s, Exec(s, Round(s, j, ok)).value, j, ok)
  {
    BeginsDelivery(s, j);
    FinishedHead(s.subs[j], true, Some(|s.units|), ok);
    var first := [Dequeue(j), BeginDelivery(j)];
    var mid := Exec(s, first).value;
    if ok {
      EndsOk(mid, j, |s.units|);
      ExecJoin(s, first, [Commit(|s.units|), Return(|s.units|), FinishOk(j)]);
    } else {
      EndsFailed(mid, j, |s.units|);
      ExecJoin(s, first, [RollBack(|s.units|), FinishFailed(j)]);
    }
  }

  /** From s, the run hands every queued event of j to its handler, in order, with these results. */
  ghost predicate Drains(s: State, run: seq<Label>, j: nat, oks: seq<bool>) {
    && j < |s.subs| && Exec(s, run).Some? && j < |Exec(s, run).value.subs|
    && var b, c := s.subs[j], Exec(s, run).value.subs[j];
       && c.worker == Waiting && c.queue == []
       && Msgs(c.handled) == Msgs(b.handled) + b.queue
       && Oks(c.handled) == Oks(b.handled) + oks
       && c.dedup.window == b.dedup.window
  }

  lemma DrainsNext(s: State, t: State, j: nat, oks: seq<bool>, c: Sub)
    requires oks != [] && HandledHead(s, t, j, oks[0])
    requires Msgs(c.handled) == Msgs(t.subs[j].handled) + t.subs[j].queue
    requires Oks(c.handled) == Oks(t.subs[j].handled) + oks[1..]
    ensures Msgs(c.handled) == Msgs(s.subs[j].handled) + s.subs[j].queue
    ensures Oks(c.handled) == Oks(s.subs[j].handled) + oks
  {
    var q := s.subs[j].queue;
    assert q == [q[0]] + q[1..] && oks == [oks[0]] + oks[1..];
  }

  lemma {:induction false} DrainsFrom(s: State, j: nat, oks: seq<bool>) returns (run: seq<Label>)
    requires ParentsExist(s.units) && j < |s.subs| && s.subs[j].worker == Waiting && |oks| == |s.subs[j].queue|
    ensures Drains(s, run, j, oks) && Silent(run)
    decreases |oks|
  {
    if oks == [] {
      run := [];
    } else {
      var round := Round(s, j, oks[0]);
      if s.scoped {
        ScopedRound(s, j, oks[0]);
      } else {
        PlainRound(s, j, oks[0]);
      }
      var t := Exec(s, round).value;
      var rest := DrainsFrom(t, j, oks[1..]);
      run := round + rest;
      ExecJoin(s, round, rest);
      DrainsNext(s, t, j, oks, Exec(t, rest).value.subs[j]);
    }
  }

  /**
    From any reachable state a waiting worker can drain its queue whatever mix of successes
    and failures its handler produces: every queued event is handled once, in queue order.
   */
  lemma DrainsDespiteFailures(scoped: bool, before: seq<Label>, s: State, j: nat, oks: seq<bool>)
    returns (run: seq<Label>)
    requires Reaches(scoped, before, s)
    requires j < |s.subs| && s.subs[j].worker == Waiting && |oks| == |s.subs[j].queue|
    ensures Drains(s, run, j, oks)
  {
    RunKeepsInv(scoped, before);
    forall u | 0 <= u < |s.units| && s.units[u].parent.Some? ensures s.units[u].parent.value < |s.units| {
      assert UnitOk(s.units, u);
    }
    run := DrainsFrom(s, j, oks);
  }
}
