/**
  When a duplicate breaks the promise of DeliveryOnce: offering an event whose key is still
  outstanding always leaves a run in which both copies succeed, so the guard is exact.
 */
module DeliveryDuplicates {
  import opened Options
  import opened DedupWindow
  import opened Delivery
  import opened DeliveryUnits
  import opened DeliveryQueues
  import opened DeliveryTheorems
  import opened DeliveryOnce

  // ---- running on ----

  lemma {:induction false} SilentIsGuarded(s: State, run: seq<Label>, j: nat, k: Key)
    requires Silent(run)
    ensures Guarded(s, run, j, k)
  {
    if run == [] {
    } else {
      SilentIsGuarded(s, run[..|run| - 1], j, k);
    }
  }

  lemma {:induction false} GuardedJoin(s: State, a: seq<Label>, b: seq<Label>, j: nat, k: Key)
    requires Exec(s, a).Some? && Guarded(s, a, j, k) && Guarded(Exec(s, a).value, b, j, k)
    ensures Guarded(s, a + b, j, k)
  {
    if b == [] {
      assert a + b == a;
    } else {
      var front := b[..|b| - 1];
      GuardedJoin(s, a, front, j, k);
      ExecJoin(s, a, front);
      assert (a + b)[..|a + b| - 1] == a + front;
    }
  }

  /** t is reached from s by a run that is guarded for k and j. */
  ghost predicate LeadsTo(s: State, run: seq<Label>, t: State, j: nat, k: Key) {
    Exec(s, run) == Some(t) && Guarded(s, run, j, k)
  }

  lemma LeadsOn(s: State, a: seq<Label>, t: State, b: seq<Label>, v: State, j: nat, k: Key)
    requires LeadsTo(s, a, t, j, k) && LeadsTo(t, b, v, j, k)
    ensures LeadsTo(s, a + b, v, j, k)
  {
    GuardedJoin(s, a, b, j, k);
    ExecJoin(s, a, b);
  }

  lemma OneLabel(s: State, l: Label, j: nat, k: Key)
    requires Enabled(s, l) && (l.PublishNow? || l.Flush? ==> Guard(s, l, j, k))
    ensures LeadsTo(s, [l], Step(s, l), j, k)
  {
    assert [l][..0] == [];
  }

  // ---- settling the open units of work ----

  /** Same subscriptions and same units below n. */
  ghost predicate SameBelow(s: State, t: State, n: nat) {
    && t.subs == s.subs && t.scoped == s.scoped && t.closed == s.closed
    && |t.units| == |s.units| && n <= |s.units| && t.units[..n] == s.units[..n]
  }

  ghost predicate SettledFrom(s: State, n: nat) {
    forall c :: n <= c < |s.units| ==> Settled(s.units[c])
  }

  /** How an open unit with no open unit inside it comes to its end. */
  function Ending(u: Unit, n: nat): Label {
    if u.status == Active then RollBack(n)
    else if u.flushed == 0 || u.flushed < |u.outbox| then Interrupt(n)
    else Return(n)
  }

  lemma EndsUnit(s: State, n: nat)
    requires UnitsOk(s.units) && n < |s.units| && !Settled(s.units[n]) && SettledFrom(s, n + 1)
    ensures Enabled(s, Ending(s.units[n], n))
    ensures var t := Step(s, Ending(s.units[n], n));
            SameBelow(s, t, n) && SettledFrom(t, n) && UnitsOk(t.units)
  {
    assert UnitOk(s.units, n);
    forall c | 0 <= c < |s.units| && s.units[c].parent == Some(n) ensures Settled(s.units[c]) {
      assert UnitOk(s.units, c);
    }
    StepKeepsUnits(s, Ending(s.units[n], n));
  }

  lemma SettlesOne(s: State, n: nat, j: nat, k: Key) returns (run: seq<Label>, t: State)
    requires UnitsOk(s.units) && n < |s.units| && SettledFrom(s, n + 1)
    ensures LeadsTo(s, run, t, j, k) && SameBelow(s, t, n) && SettledFrom(t, n) && UnitsOk(t.units)
  {
    if Settled(s.units[n]) {
      run, t := [], s;
    } else {
      EndsUnit(s, n);
      OneLabel(s, Ending(s.units[n], n), j, k);
      run, t := [Ending(s.units[n], n)], Step(s, Ending(s.units[n], n));
    }
  }

  lemma SameBelowTwice(s: State, v: State, t: State, n: nat)
    requires SameBelow(s, v, n + 1) && SameBelow(v, t, n)
    ensures SameBelow(s, t, n)
  {
    assert s.units[..n] == s.units[..n + 1][..n] && v.units[..n] == v.units[..n + 1][..n];
  }

  /** From the last unit down to n, every open unit is ended; nothing is fanned out. */
  lemma {:induction false} SettlesFrom(s: State, n: nat, j: nat, k: Key) returns (run: seq<Label>, t: State)
    requires UnitsOk(s.units) && n <= |s.units|
    ensures LeadsTo(s, run, t, j, k) && SameBelow(s, t, n) && SettledFrom(t, n) && UnitsOk(t.units)
    decreases |s.units| - n
  {
    if n == |s.units| {
      run, t := [], s;
    } else {
      var first, v := SettlesFrom(s, n + 1, j, k);
      var last;
      last, t := SettlesOne(v, n, j, k);
      LeadsOn(s, first, v, last, t, j, k);
      SameBelowTwice(s, v, t, n);
      run := first + last;
    }
  }

  // ---- finishing the delivery in hand ----

  /** Subscription j of t is the one of s after its delivery in hand ended; its queue may have grown. */
  ghost predicate HandDone(s: State, t: State, j: nat, results: seq<bool>) {
    && UnitsOk(t.units) && j < |s.subs| && j < |t.subs|
    && var b, c := s.subs[j], t.subs[j];
       && c.worker == Waiting && b.queue <= c.queue && c.dedup.window == b.dedup.window
       && Msgs(c.handled) == Msgs(b.handled) + InHand(b.worker)
       && Oks(c.handled) == Oks(b.handled) + results
  }

  lemma FinishesNow(s: State, j: nat, ok: bool, k: Key) returns (run: seq<Label>, t: State)
    requires UnitsOk(s.units) && j < |s.subs| && DeliveryEnded(s, s.subs[j].worker, ok)
    ensures LeadsTo(s, run, t, j, k) && HandDone(s, t, j, [ok])
  {
    var l := if ok then FinishOk(j) else FinishFailed(j);
    OneLabel(s, l, j, k);
    run, t := [l], Step(s, l);
    assert Step(s, l).subs[j] == Finished(s.subs[j], ok);
    assert Msgs(t.subs[j].handled) == Msgs(s.subs[j].handled) + [s.subs[j].worker.msg];
  }

  /** Whatever is in hand can be brought to an end without fanning anything out. */
  lemma FinishesSomehow(s: State, j: nat, k: Key) returns (run: seq<Label>, t: State, results: seq<bool>)
    requires UnitsOk(s.units) && j < |s.subs| && !s.subs[j].worker.Stopped? && DeliveriesOk(s.units, s.subs[j])
    ensures LeadsTo(s, run, t, j, k) && HandDone(s, t, j, results)
  {
    var w := s.subs[j].worker;
    if w == Waiting {
      run, t, results := [], s, [];
      assert Oks(s.subs[j].handled) + [] == Oks(s.subs[j].handled);
    } else if !w.scoped || w.unit == None {
      run, t := FinishesNow(s, j, false, k);
      results := [false];
    } else {
      var first, v := SettlesFrom(s, w.unit.value, j, k);
      var ok := v.units[w.unit.value].status == Returned;
      var last;
      last, t := FinishesNow(v, j, ok, k);
      run, results := first + last, [ok];
      LeadsOn(s, first, v, last, t, j, k);
    }
  }

  // ---- making the delivery in hand succeed ----

  /** An event with key k for subscription b. */
  predicate Hits(b: Sub, m: Msg, k: Key) {
    Routes(b, m) && m.event.key == Some(k)
  }

  /** The events unit u has yet to hand on. */
  function Remaining(u: Unit): seq<Msg>
    requires u.flushed <= |u.outbox|
  {
    u.outbox[u.flushed..]
  }

  /** b and c differ at most by events queued or suppressed since. */
  ghost predicate Grown(b: Sub, c: Sub) {
    && c.worker == b.worker && c.handled == b.handled && c.dedup == b.dedup && c.left == b.left && c.kind == b.kind
    && b.queue <= c.queue
  }

  lemma FlushesNext(s: State, u: nat, j: nat, k: Key)
    requires FlushPending(s, u) && !s.closed && s.units[u].parent == None && j < |s.subs|
    requires forall m :: m in Remaining(s.units[u]) ==> !Hits(s.subs[j], m, k)
    ensures LeadsTo(s, [Flush(u)], Step(s, Flush(u)), j, k)
    ensures var t, v := Step(s, Flush(u)), s.units[u];
            && t.units == s.units[u := v.(flushed := v.flushed + 1)] && t.closed == s.closed && t.scoped == s.scoped
            && |t.subs| == |s.subs| && Grown(s.subs[j], t.subs[j])
  {
    var m := s.units[u].outbox[s.units[u].flushed];
    assert m in Remaining(s.units[u]);
    assert !Hits(s.subs[j], Forwarded(s, u), k);
    OneLabel(s, Flush(u), j, k);
  }

  lemma {:induction false} FlushesAll(s: State, u: nat, j: nat, k: Key) returns (run: seq<Label>, t: State)
    requires UnitsOk(s.units) && u < |s.units| && s.units[u].status == Flushing && s.units[u].parent == None
    requires !s.closed && j < |s.subs| && s.units[u].flushed <= |s.units[u].outbox|
    requires forall m :: m in Remaining(s.units[u]) ==> !Hits(s.subs[j], m, k)
    ensures LeadsTo(s, run, t, j, k) && UnitsOk(t.units) && |t.units| == |s.units|
    ensures t.units[u].status == Flushing && t.units[u].flushed == |t.units[u].outbox|
    ensures j < |t.subs| && Grown(s.subs[j], t.subs[j])
    decreases |s.units[u].outbox| - s.units[u].flushed
  {
    if s.units[u].flushed == |s.units[u].outbox| {
      run, t := [], s;
    } else {
      FlushesNext(s, u, j, k);
      var next := Step(s, Flush(u));
      StepKeepsUnits(s, Flush(u));
      forall m | m in Remaining(next.units[u]) ensures !Hits(next.subs[j], m, k) {
        assert m in Remaining(s.units[u]);
      }
      var rest;
      rest, t := FlushesAll(next, u, j, k);
      run := [Flush(u)] + rest;
      LeadsOn(s, [Flush(u)], next, rest, t, j, k);
    }
  }

  /** A committed unit around the delivery in hand returns; the subscriber leaves first if the unit would offer it k. */
  lemma ReturnsFlushing(s: State, u: nat, j: nat, k: Key) returns (run: seq<Label>, t: State)
    requires UnitsOk(s.units) && u < |s.units| && s.units[u].status == Flushing && s.units[u].parent == None
    requires !s.closed && j < |s.subs| && s.subs[j].worker.Handling? && s.subs[j].worker.scoped
    requires s.subs[j].worker.unit == Some(u)
    ensures LeadsTo(s, run, t, j, k) && HandDone(s, t, j, [true])
  {
    assert UnitOk(s.units, u);
    var start, v := [], s;
    if m :| m in Remaining(s.units[u]) && Hits(s.subs[j], m, k) {
      OneLabel(s, Unsubscribe(j), j, k);
      start, v := [Unsubscribe(j)], Step(s, Unsubscribe(j));
    }
    var flushes, w := FlushesAll(v, u, j, k);
    LeadsOn(s, start, v, flushes, w, j, k);
    OneLabel(w, Return(u), j, k);
    var x := Step(w, Return(u));
    StepKeepsUnits(w, Return(u));
    LeadsOn(s, start + flushes, w, [Return(u)], x, j, k);
    var last;
    last, t := FinishesNow(x, j, true, k);
    LeadsOn(s, start + flushes + [Return(u)], x, last, t, j, k);
    run := start + flushes + [Return(u)] + last;
  }

  lemma CommitsSettled(s: State, u: nat, j: nat, k: Key)
    requires UnitsOk(s.units) && u < |s.units| && s.units[u].status == Active && SettledFrom(s, u + 1)
    ensures Enabled(s, Commit(u)) && LeadsTo(s, [Commit(u)], Step(s, Commit(u)), j, k)
    ensures var t := Step(s, Commit(u));
            && UnitsOk(t.units) && t.subs == s.subs && t.closed == s.closed && |t.units| == |s.units|
            && t.units[u] == s.units[u].(status := Flushing)
  {
    forall c | 0 <= c < |s.units| && s.units[c].parent == Some(u) ensures Settled(s.units[c]) {
      assert UnitOk(s.units, c);
    }
    OneLabel(s, Commit(u), j, k);
    StepKeepsUnits(s, Commit(u));
  }

  lemma ReturnsOpen(s: State, u: nat, j: nat, k: Key) returns (run: seq<Label>, t: State)
    requires UnitsOk(s.units) && u < |s.units| && s.units[u].status == Active && s.units[u].parent == None
    requires !s.closed && j < |s.subs| && s.subs[j].worker.Handling? && s.subs[j].worker.scoped
    requires s.subs[j].worker.unit == Some(u)
    ensures LeadsTo(s, run, t, j, k) && HandDone(s, t, j, [true])
  {
    var first, v := SettlesFrom(s, u + 1, j, k);
    assert v.units[u] == v.units[..u + 1][u] == s.units[u];
    CommitsSettled(v, u, j, k);
    var w := Step(v, Commit(u));
    LeadsOn(s, first, v, [Commit(u)], w, j, k);
    var last;
    last, t := ReturnsFlushing(w, u, j, k);
    LeadsOn(s, first + [Commit(u)], w, last, t, j, k);
    run := first + [Commit(u)] + last;
  }

  lemma BeginsNow(s: State, j: nat, k: Key)
    requires UnitsOk(s.units) && Enabled(s, BeginDelivery(j))
    ensures LeadsTo(s, [BeginDelivery(j)], Step(s, BeginDelivery(j)), j, k)
    ensures var t := Step(s, BeginDelivery(j));
            && UnitsOk(t.units) && |t.units| == |s.units| + 1 && t.units[|s.units|] == Unit(None, Active, [], [], 0)
            && t.closed == s.closed && |t.subs| == |s.subs|
            && t.subs[j] == s.subs[j].(worker := s.subs[j].worker.(unit := Some(|s.units|)))
  {
    OneLabel(s, BeginDelivery(j), j, k);
    StepKeepsUnits(s, BeginDelivery(j));
  }

  /** An event in hand whose unit has not failed can still be handled with success. */
  lemma FinishesOk(s: State, j: nat, k: Key) returns (run: seq<Label>, t: State)
    requires UnitsOk(s.units) && !s.closed && j < |s.subs| && DeliveriesOk(s.units, s.subs[j])
    requires Live(s.units, s.subs[j].worker, k)
    ensures LeadsTo(s, run, t, j, k) && HandDone(s, t, j, [true])
  {
    var w := s.subs[j].worker;
    if !w.scoped {
      run, t := FinishesNow(s, j, true, k);
    } else if w.unit == None {
      BeginsNow(s, j, k);
      var v := Step(s, BeginDelivery(j));
      var last;
      last, t := ReturnsOpen(v, |s.units|, j, k);
      run := [BeginDelivery(j)] + last;
      LeadsOn(s, [BeginDelivery(j)], v, last, t, j, k);
    } else if s.units[w.unit.value].status == Active {
      run, t := ReturnsOpen(s, w.unit.value, j, k);
    } else if s.units[w.unit.value].status == Flushing {
      run, t := ReturnsFlushing(s, w.unit.value, j, k);
    } else {
      run, t := FinishesNow(s, j, true, k);
    }
  }

  // ---- which results break the promise ----

  /** The keys of the messages whose result is a success. */
  function KeysOf(ms: seq<Msg>, oks: seq<bool>): seq<Key>
    requires |ms| == |oks|
  {
    if ms == [] then []
    else
      var m := ms[|ms| - 1];
      KeysOf(ms[..|ms| - 1], oks[..|oks| - 1])
      + if oks[|oks| - 1] && m.event.key.Some? then [m.event.key.value] else []
  }

  lemma {:induction false} OkKeysAre(hs: seq<Handled>)
    ensures OkKeys(hs) == KeysOf(Msgs(hs), Oks(hs))
  {
    if hs == [] {
    } else {
      var n := |hs| - 1;
      OkKeysAre(hs[..n]);
      assert Msgs(hs)[..n] == Msgs(hs[..n]) && Oks(hs)[..n] == Oks(hs[..n]);
    }
  }

  lemma {:induction false} KeysOfConcat(a: seq<Msg>, x: seq<bool>, b: seq<Msg>, y: seq<bool>)
    requires |a| == |x| && |b| == |y|
    ensures KeysOf(a + b, x + y) == KeysOf(a, x) + KeysOf(b, y)
  {
    if b == [] {
      assert a + b == a && x + y == x;
    } else {
      var n := |b| - 1;
      KeysOfConcat(a, x, b[..n], y[..n]);
      assert (a + b)[..|a + b| - 1] == a + b[..n] && (x + y)[..|x + y| - 1] == x + y[..n];
    }
  }

  lemma KeysOfOne(m: Msg, k: Key)
    requires m.event.key == Some(k)
    ensures KeysOf([m], [true]) == [k]
  {
    assert [m][..0] == [] && KeysOf([], []) == [];
  }

  function Failures(n: nat): seq<bool> {
    seq(n, _ => false)
  }

  lemma {:induction false} FailuresGiveNone(ms: seq<Msg>)
    ensures KeysOf(ms, Failures(|ms|)) == []
  {
    if ms == [] {
    } else {
      FailuresGiveNone(ms[..|ms| - 1]);
      assert Failures(|ms|)[..|ms| - 1] == Failures(|ms| - 1);
    }
  }

  /** One success among failures. */
  lemma OneSuccess(before: seq<Msg>, m: Msg, after: seq<Msg>, k: Key)
    requires m.event.key == Some(k)
    ensures KeysOf(before + [m] + after, Failures(|before|) + [true] + Failures(|after|)) == [k]
  {
    KeysOfConcat(before + [m], Failures(|before|) + [true], after, Failures(|after|));
    KeysOfConcat(before, Failures(|before|), [m], [true]);
    FailuresGiveNone(before);
    FailuresGiveNone(after);
    KeysOfOne(m, k);
  }

  lemma {:induction false} QueuedAt(ms: seq<Msg>, k: Key) returns (p: nat)
    requires Queued(ms, k) > 0
    ensures p < |ms| && ms[p].event.key == Some(k)
  {
    var n := |ms| - 1;
    if ms[n].event.key == Some(k) {
      p := n;
    } else {
      p := QueuedAt(ms[..n], k);
    }
  }

  lemma TwoInARow(keys: seq<Key>, k: Key, window: int)
    requires window >= 1
    ensures !SpacedFor(keys + [k] + [k], k, window)
  {
    var all := keys + [k] + [k];
    assert all[|keys|] == k && all[|keys| + 1] == k;
  }

  lemma DrainedKeys(s: State, run: seq<Label>, j: nat, oks: seq<bool>)
    requires Drains(s, run, j, oks) && |oks| == |s.subs[j].queue|
    ensures OkKeys(Exec(s, run).value.subs[j].handled) == OkKeys(s.subs[j].handled) + KeysOf(s.subs[j].queue, oks)
  {
    var b, c := s.subs[j], Exec(s, run).value.subs[j];
    OkKeysAre(b.handled);
    OkKeysAre(c.handled);
    KeysOfConcat(Msgs(b.handled), Oks(b.handled), b.queue, oks);
  }

  lemma HandKeys(s: State, t: State, j: nat, results: seq<bool>)
    requires HandDone(s, t, j, results)
    ensures |results| == |InHand(s.subs[j].worker)|
    ensures OkKeys(t.subs[j].handled) == OkKeys(s.subs[j].handled) + KeysOf(InHand(s.subs[j].worker), results)
  {
    var b, c := s.subs[j], t.subs[j];
    assert |Msgs(c.handled)| == |Oks(c.handled)|;
    OkKeysAre(b.handled);
    OkKeysAre(c.handled);
    KeysOfConcat(Msgs(b.handled), Oks(b.handled), InHand(b.worker), results);
  }

  lemma DrainsGuarded(s: State, j: nat, oks: seq<bool>, k: Key) returns (run: seq<Label>, t: State)
    requires UnitsOk(s.units) && j < |s.subs| && s.subs[j].worker == Waiting && |oks| == |s.subs[j].queue|
    ensures LeadsTo(s, run, t, j, k) && j < |t.subs| && t.subs[j].dedup.window == s.subs[j].dedup.window
    ensures OkKeys(t.subs[j].handled) == OkKeys(s.subs[j].handled) + KeysOf(s.subs[j].queue, oks)
  {
    forall u | 0 <= u < |s.units| && s.units[u].parent.Some? ensures s.units[u].parent.value < |s.units| {
      assert UnitOk(s.units, u);
    }
    run := DrainsFrom(s, j, oks);
    t := Exec(s, run).value;
    DrainedKeys(s, run, j, oks);
    SilentIsGuarded(s, run, j, k);
  }

  // ---- both copies succeed ----

  /** The results for a queue in which exactly the events at p and d succeed. */
  function Pair(n: nat, p: nat, d: nat): (oks: seq<bool>)
    requires p < d < n
    ensures |oks| == n
  {
    (Failures(p) + [true] + Failures(d - p - 1)) + ([true] + Failures(n - d - 1))
  }

  lemma FirstSucceeds(m: Msg, after: seq<Msg>, k: Key)
    requires m.event.key == Some(k)
    ensures KeysOf([m] + after, [true] + Failures(|after|)) == [k]
  {
    KeysOfConcat([m], [true], after, Failures(|after|));
    KeysOfOne(m, k);
    FailuresGiveNone(after);
  }

  lemma CutTwice(q: seq<Msg>, p: nat, d: nat)
    requires p < d < |q|
    ensures q == (q[..p] + [q[p]] + q[p + 1..d]) + ([q[d]] + q[d + 1..])
  {
  }

  lemma PairGivesTwo(q: seq<Msg>, p: nat, d: nat, k: Key)
    requires p < d < |q| && q[p].event.key == Some(k) && q[d].event.key == Some(k)
    ensures KeysOf(q, Pair(|q|, p, d)) == [k] + [k]
  {
    CutTwice(q, p, d);
    OneSuccess(q[..p], q[p], q[p + 1..d], k);
    FirstSucceeds(q[d], q[d + 1..], k);
    KeysOfConcat(q[..p] + [q[p]] + q[p + 1..d], Failures(p) + [true] + Failures(d - p - 1),
                 [q[d]] + q[d + 1..], [true] + Failures(|q| - d - 1));
  }

  /** The duplicate stands in the queue at d, behind a copy at p. */
  lemma BothQueuedSucceed(s: State, j: nat, k: Key, p: nat, d: nat) returns (run: seq<Label>, t: State)
    requires UnitsOk(s.units) && j < |s.subs| && s.subs[j].worker == Waiting && s.subs[j].dedup.window >= 1
    requires p < d < |s.subs[j].queue|
    requires s.subs[j].queue[p].event.key == Some(k) && s.subs[j].queue[d].event.key == Some(k)
    ensures LeadsTo(s, run, t, j, k) && j < |t.subs| && !Promise(t.subs[j], k)
  {
    var q, done := s.subs[j].queue, OkKeys(s.subs[j].handled);
    PairGivesTwo(q, p, d, k);
    run, t := DrainsGuarded(s, j, Pair(|q|, p, d), k);
    assert done + ([k] + [k]) == done + [k] + [k];
    TwoInARow(done, k, s.subs[j].dedup.window);
  }

  /** The copy that was in hand has succeeded last, and the duplicate stands at d. */
  lemma QueuedSucceedsAfter(s: State, j: nat, k: Key, d: nat, done: seq<Key>) returns (run: seq<Label>, t: State)
    requires UnitsOk(s.units) && j < |s.subs| && s.subs[j].worker == Waiting && s.subs[j].dedup.window >= 1
    requires d < |s.subs[j].queue| && s.subs[j].queue[d].event.key == Some(k)
    requires OkKeys(s.subs[j].handled) == done + [k]
    ensures LeadsTo(s, run, t, j, k) && j < |t.subs| && !Promise(t.subs[j], k)
  {
    var q := s.subs[j].queue;
    assert q == q[..d] + [q[d]] + q[d + 1..];
    OneSuccess(q[..d], q[d], q[d + 1..], k);
    run, t := DrainsGuarded(s, j, Failures(d) + [true] + Failures(|q| - d - 1), k);
    TwoInARow(done, k, s.subs[j].dedup.window);
  }

  /** With a copy outstanding before the last queued event, both can succeed one right after the other. */
  lemma BothSucceed(s: State, j: nat, k: Key, d: nat) returns (run: seq<Label>, t: State)
    requires UnitsOk(s.units) && !s.closed && j < |s.subs| && DeliveriesOk(s.units, s.subs[j])
    requires !s.subs[j].worker.Stopped? && s.subs[j].dedup.window >= 1
    requires d < |s.subs[j].queue| && s.subs[j].queue[d].event.key == Some(k)
    requires Queued(s.subs[j].queue[..d], k) > 0 || Live(s.units, s.subs[j].worker, k)
    ensures LeadsTo(s, run, t, j, k) && j < |t.subs| && !Promise(t.subs[j], k)
  {
    var b := s.subs[j];
    var first, v, last, results;
    if Queued(b.queue[..d], k) > 0 {
      var p := QueuedAt(b.queue[..d], k);
      first, v, results := FinishesSomehow(s, j, k);
      last, t := BothQueuedSucceed(v, j, k, p, d);
    } else {
      first, v := FinishesOk(s, j, k);
      HandKeys(s, v, j, [true]);
      KeysOfOne(b.worker.msg, k);
      last, t := QueuedSucceedsAfter(v, j, k, d, OkKeys(b.handled));
    }
    run := first + last;
    LeadsOn(s, first, v, last, t, j, k);
  }

  // ---- the exact condition ----

  /** Every later run that is guarded for k and j keeps the promise about k. */
  ghost predicate KeepsPromise(s: State, j: nat, k: Key) {
    forall later :: Guarded(s, later, j, k) && Exec(s, later).Some? && j < |Exec(s, later).value.subs| ==>
      Promise(Exec(s, later).value.subs[j], k)
  }

  lemma {:induction false} WindowIsFixed(s: State, run: seq<Label>, j: nat)
    requires j < |s.subs| && Exec(s, run).Some?
    ensures j < |Exec(s, run).value.subs| && Exec(s, run).value.subs[j].dedup.window == s.subs[j].dedup.window
  {
    if run == [] {
    } else {
      WindowIsFixed(s, run[..|run| - 1], j);
      SubAfter(Exec(s, run[..|run| - 1]).value, run[|run| - 1], j);
    }
  }

  /** The step l fans an event with key k out to subscription j. */
  ghost predicate Offers(s: State, l: Label, j: nat, k: Key) {
    Enabled(s, l) && j < |s.subs| && Carried(s, l).Some? && Hits(s.subs[j], Carried(s, l).value, k)
  }

  lemma OfferedBehind(s: State, l: Label, j: nat, k: Key)
    requires Offers(s, l, j, k) && k !in Window(s.subs[j].dedup.log, s.subs[j].dedup.window)
    ensures var b, after := s.subs[j], Step(s, l);
            && j < |after.subs| && !s.closed && !after.closed
            && after.subs[j] == b.(queue := b.queue + [Carried(s, l).value], unfinished := b.unfinished + 1)
            && (Live(s.units, b.worker, k) ==> Live(after.units, b.worker, k))
  {
    SubAfter(s, l, j);
    var w := s.subs[j].worker;
    if w.Handling? && w.unit.Some? && w.unit.value < |s.units| {
      UnitAfter(s, l, w.unit.value);
    } else {
      UnitsAfter(s, l);
    }
  }

  /** A duplicate offered to an outstanding key: from the state after it, some guarded run breaks the promise. */
  lemma DuplicateCanSucceed(s: State, l: Label, j: nat, k: Key) returns (run: seq<Label>, t: State)
    requires Inv(s) && Offers(s, l, j, k) && SubOk(s, s.subs[j]) && KeyOnce(s.units, s.subs[j], k)
    requires s.subs[j].dedup.window >= 1 && Outstanding(s.units, s.subs[j], k)
    ensures LeadsTo(Step(s, l), run, t, j, k) && j < |t.subs| && !Promise(t.subs[j], k)
  {
    var b, m, after := s.subs[j], Carried(s, l).value, Step(s, l);
    OfferedBehind(s, l, j, k);
    StepKeepsUnits(s, l);
    SubAfter(s, l, j);
    StepKeepsDeliveries(s, l, j);
    assert (b.queue + [m])[..|b.queue|] == b.queue;
    run, t := BothSucceed(after, j, k, |b.queue|);
  }

  /**
    After a run that is guarded for key k and subscription j, fanning out one more event with
    that key keeps the promise about k in every later guarded run exactly when the window is
    empty or no copy of k is outstanding: neither queued, nor in hand with a unit of work
    that has not failed, at a worker that has not ended.
   */
  lemma DuplicateBreaksExactly(scoped: bool, run: seq<Label>, s: State, l: Label, j: nat, k: Key)
    requires Reaches(scoped, run, s) && Guarded(Init(scoped), run, j, k) && Offers(s, l, j, k)
    ensures KeepsPromise(Step(s, l), j, k) <==>
            s.subs[j].dedup.window <= 0 || !Outstanding(s.units, s.subs[j], k)
  {
    var b, after := s.subs[j], Step(s, l);
    RunKeepsInv(scoped, run);
    RunKeepsSubs(scoped, run);
    assert SubOk(s, b);
    GuardedKeepsKeyOnce(Init(scoped), run, j, k);
    SubAfter(s, l, j);
    if b.dedup.window <= 0 {
      EmptyWindowKeeps(after, j, k);
    } else if !Outstanding(s.units, b, k) {
      StepKeepsKeyOnce(s, l, j, k);
      PromiseIsKept(after, j, k);
    } else {
      var later, t := DuplicateCanSucceed(s, l, j, k);
      assert Guarded(after, later, j, k);
    }
  }

  lemma EmptyWindowKeeps(s: State, j: nat, k: Key)
    requires j < |s.subs| && s.subs[j].dedup.window <= 0
    ensures KeepsPromise(s, j, k)
  {
    forall later | Guarded(s, later, j, k) && Exec(s, later).Some? && j < |Exec(s, later).value.subs|
      ensures Promise(Exec(s, later).value.subs[j], k)
    {
      WindowIsFixed(s, later, j);
    }
  }

  lemma PromiseIsKept(s: State, j: nat, k: Key)
    requires j < |s.subs| && s.subs[j].dedup.idempotent && KeyOnce(s.units, s.subs[j], k)
    ensures KeepsPromise(s, j, k)
  {
    forall later | Guarded(s, later, j, k) && Exec(s, later).Some? && j < |Exec(s, later).value.subs|
      ensures Promise(Exec(s, later).value.subs[j], k)
    {
      GuardedKeepsKeyOnce(s, later, j, k);
      IdempotentIsFixed(s, later, j);
    }
  }

  lemma {:induction false} IdempotentIsFixed(s: State, run: seq<Label>, j: nat)
    requires j < |s.subs| && Exec(s, run).Some?
    ensures j < |Exec(s, run).value.subs| && Exec(s, run).value.subs[j].dedup.idempotent == s.subs[j].dedup.idempotent
  {
    if run == [] {
    } else {
      IdempotentIsFixed(s, run[..|run| - 1], j);
      SubAfter(Exec(s, run[..|run| - 1]).value, run[|run| - 1], j);
    }
  }
}
