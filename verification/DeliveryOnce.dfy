/**
  What the bus promises about duplicates: an idempotent subscriber handles no key twice
  with success within its window. Key by key, every run keeps the promise in which the key
  is only fanned out while no earlier copy of it can still succeed.
 */
module DeliveryOnce {
  import opened Options
  import opened DedupWindow
  import opened Delivery
  import opened DeliveryUnits
  import opened DeliveryQueues
  import opened DeliveryTheorems

  /** The keys of the successfully handled events, in order. */
  function OkKeys(hs: seq<Handled>): seq<Key> {
    if hs == [] then []
    else
      var h := hs[|hs| - 1];
      OkKeys(hs[..|hs| - 1]) + if h.ok && h.msg.event.key.Some? then [h.msg.event.key.value] else []
  }

  /** Two appearances of k are more than `window` entries apart. */
  ghost predicate SpacedFor(keys: seq<Key>, k: Key, window: int) {
    forall i, j :: 0 <= i < j < |keys| && keys[i] == k && keys[j] == k ==> window < j - i
  }

  /** The promise about key k to subscription b. */
  ghost predicate Promise(b: Sub, k: Key) {
    SpacedFor(OkKeys(b.handled), k, b.dedup.window)
  }

  // ---- how long ago a key appeared ----

  /** The number of entries after the last k, or of all entries when there is none. */
  function Since(keys: seq<Key>, k: Key): nat {
    if keys == [] || keys[|keys| - 1] == k then 0 else 1 + Since(keys[..|keys| - 1], k)
  }

  lemma {:induction false} SinceIsLast(keys: seq<Key>, k: Key)
    requires k in keys
    ensures Since(keys, k) < |keys| && IsLast(keys, k, |keys| - 1 - Since(keys, k))
  {
    var n := |keys| - 1;
    if keys[n] == k {
      assert keys[n + 1..] == [];
    } else {
      assert keys == keys[..n] + [keys[n]];
      SinceIsLast(keys[..n], k);
      var i := n - Since(keys, k);
      assert keys[i + 1..] == keys[..n][i + 1..] + [keys[n]];
    }
  }

  lemma SinceAppend(keys: seq<Key>, x: Key, k: Key)
    ensures Since(keys + [x], k) == if x == k then 0 else 1 + Since(keys, k)
  {
    assert (keys + [x])[..|keys|] == keys;
  }

  lemma InWindowMeans(keys: seq<Key>, k: Key, window: int)
    ensures k in Window(keys, window) <==> k in keys && Since(keys, k) < window
  {
    var w := Window(keys, window);
    var start := |keys| - |w|;
    assert w == keys[start..];
    SuffixKeys(keys, start);
    if k in keys {
      SinceIsLast(keys, k);
      var last := |keys| - 1 - Since(keys, k);
      if start <= last {
        assert w[last - start] == k;
      } else {
        assert w == keys[last + 1..][start - last - 1..];
        SuffixKeys(keys[last + 1..], start - last - 1);
      }
    }
  }

  lemma SpacedForAppend(keys: seq<Key>, x: Key, k: Key, window: int)
    ensures SpacedFor(keys + [x], k, window) <==>
            SpacedFor(keys, k, window) && (x == k && k in keys ==> Since(keys, k) >= window)
  {
    var next := keys + [x];
    assert forall i :: 0 <= i < |keys| ==> next[i] == keys[i];
    if k in keys {
      SinceIsLast(keys, k);
      var last := |keys| - 1 - Since(keys, k);
      assert forall i :: last < i < |keys| ==> keys[i] == keys[last + 1..][i - last - 1];
      assert next[last] == k && (x == k ==> next[|keys|] == k);
    }
  }

  // ---- copies that can still succeed ----

  /** The event in hand has key k and its unit of work has not failed. */
  predicate Live(units: seq<Unit>, w: Worker, k: Key) {
    && w.Handling? && w.msg.event.key == Some(k)
    && !(w.scoped && w.unit.Some? && w.unit.value < |units| && Failed(units[w.unit.value]))
  }

  function Queued(ms: seq<Msg>, k: Key): nat {
    if ms == [] then 0 else Queued(ms[..|ms| - 1], k) + if ms[|ms| - 1].event.key == Some(k) then 1 else 0
  }

  function Copies(units: seq<Unit>, b: Sub, k: Key): nat {
    Queued(b.queue, k) + if Live(units, b.worker, k) then 1 else 0
  }

  /** The worker has not ended, and key k is queued or in hand with a unit that can still return. */
  predicate Outstanding(units: seq<Unit>, b: Sub, k: Key) {
    !b.worker.Stopped? && Copies(units, b, k) > 0
  }

  predicate Routes(b: Sub, m: Msg) {
    b.dedup.idempotent && b.left == None && b.kind == m.event.kind
  }

  /** The publisher's check: subscription j has no outstanding copy of the key it is about to be offered. */
  predicate Guard(s: State, l: Label, j: nat, k: Key) {
    Enabled(s, l) && j < |s.subs| && Carried(s, l).Some? && Carried(s, l).value.event.key == Some(k)
    && Routes(s.subs[j], Carried(s, l).value) ==>
      !Outstanding(s.units, s.subs[j], k)
  }

  predicate Guarded(s: State, run: seq<Label>, j: nat, k: Key) {
    run == [] ||
    (&& Guarded(s, run[..|run| - 1], j, k)
     && (Exec(s, run[..|run| - 1]).Some? ==> Guard(Exec(s, run[..|run| - 1]).value, run[|run| - 1], j, k)))
  }

  lemma {:induction false} QueuedAppend(a: seq<Msg>, m: Msg, k: Key)
    ensures Queued(a + [m], k) == Queued(a, k) + if m.event.key == Some(k) then 1 else 0
  {
    assert (a + [m])[..|a|] == a;
  }

  lemma {:induction false} QueuedHead(ms: seq<Msg>, k: Key)
    requires ms != []
    ensures Queued(ms, k) == (if ms[0].event.key == Some(k) then 1 else 0) + Queued(ms[1..], k)
  {
    if |ms| == 1 {
      assert ms[..0] == [] && ms[1..] == [];
    } else {
      var n := |ms| - 1;
      QueuedHead(ms[..n], k);
      assert ms[..n][1..] == ms[1..][..n - 1];
    }
  }

  // ---- guarded runs keep the promise ----

  /** A key that a guarded run keeps: spaced so far, logged no later than handled, and at most one copy to come. */
  ghost predicate KeyOnce(units: seq<Unit>, b: Sub, k: Key) {
    b.dedup.idempotent ==>
      && Promise(b, k)
      && (k in OkKeys(b.handled) ==> k in b.dedup.log && Since(b.dedup.log, k) <= Since(OkKeys(b.handled), k))
      && (Outstanding(units, b, k) ==>
            Copies(units, b, k) == 1 && k !in Window(b.dedup.log, b.dedup.window))
  }

  /** Units that fail only take copies away. */
  lemma FewerCopies(before: seq<Unit>, after: seq<Unit>, b: Sub, k: Key)
    requires Grows(before, after) && KeyOnce(before, b, k)
    ensures Copies(after, b, k) <= Copies(before, b, k) && KeyOnce(after, b, k)
  {
  }

  lemma OfferedOnce(units: seq<Unit>, b: Sub, m: Msg, i: nat, k: Key)
    requires KeyOnce(units, b, k)
    requires m.event.key == Some(k) && Routes(b, m) ==> !Outstanding(units, b, k)
    ensures KeyOnce(units, Offered(b, m, i), k)
  {
    var c := Offered(b, m, i);
    if c.queue != b.queue {
      QueuedAppend(b.queue, m, k);
      assert c.worker == b.worker && c.handled == b.handled && c.dedup == b.dedup;
    }
  }

  lemma DequeuedOnce(units: seq<Unit>, b: Sub, scoped: bool, k: Key)
    requires KeyOnce(units, b, k) && b.worker == Waiting && b.queue != []
    ensures KeyOnce(units, b.(queue := b.queue[1..], worker := Handling(b.queue[0], scoped, None)), k)
  {
    QueuedHead(b.queue, k);
  }

  lemma OkKeysAppend(hs: seq<Handled>, h: Handled)
    ensures OkKeys(hs + [h]) == OkKeys(hs) + if h.ok && h.msg.event.key.Some? then [h.msg.event.key.value] else []
  {
    assert (hs + [h])[..|hs|] == hs;
  }

  /** A success is logged next to it, so the log never shows k older than the successes do. */
  lemma SuccessIsLogged(b: Sub, x: Key, k: Key)
    requires k in OkKeys(b.handled) ==> k in b.dedup.log && Since(b.dedup.log, k) <= Since(OkKeys(b.handled), k)
    requires x == k ==> k !in Window(b.dedup.log, b.dedup.window)
    ensures var oks, log := OkKeys(b.handled) + [x], Appended(b.dedup.log, b.dedup.window, x);
            k in oks ==> k in log && Since(log, k) <= Since(oks, k)
  {
    SinceAppend(OkKeys(b.handled), x, k);
    SinceAppend(b.dedup.log, x, k);
  }

  lemma SuccessOnce(units: seq<Unit>, b: Sub, k: Key)
    requires KeyOnce(units, b, k) && b.worker.Handling? && b.dedup.idempotent
    requires b.worker.msg.event.key == Some(k) ==> Live(units, b.worker, k)
    ensures KeyOnce(units, Finished(b, true), k)
  {
    var c, e := Finished(b, true), b.worker.msg.event;
    OkKeysAppend(b.handled, c.handled[|b.handled|]);
    if e.key.Some? {
      var x := e.key.value;
      SuccessIsLogged(b, x, k);
      SpacedForAppend(OkKeys(b.handled), x, k, b.dedup.window);
      if x == k {
        InWindowMeans(b.dedup.log, k, b.dedup.window);
      } else if k in Window(c.dedup.log, b.dedup.window) && k !in Window(b.dedup.log, b.dedup.window) {
        InWindowMeans(b.dedup.log, k, b.dedup.window);
        InWindowMeans(c.dedup.log, k, b.dedup.window);
        SinceAppend(b.dedup.log, x, k);
      }
    } else {
      assert OkKeys(b.handled) + [] == OkKeys(b.handled);
    }
  }

  lemma FinishedOnce(units: seq<Unit>, b: Sub, ok: bool, k: Key)
    requires KeyOnce(units, b, k) && b.worker.Handling?
    requires ok && b.worker.msg.event.key == Some(k) ==> Live(units, b.worker, k)
    ensures KeyOnce(units, Finished(b, ok), k)
  {
    if b.dedup.idempotent {
      if ok {
        SuccessOnce(units, b, k);
      } else {
        OkKeysAppend(b.handled, Finished(b, ok).handled[|b.handled|]);
        assert OkKeys(b.handled) + [] == OkKeys(b.handled);
      }
    }
  }

  lemma FanOutKeepsKeyOnce(s: State, l: Label, j: nat, k: Key, units: seq<Unit>)
    requires Enabled(s, l) && Carried(s, l).Some? && Guard(s, l, j, k) && j < |s.subs|
    requires KeyOnce(units, s.subs[j], k) && Copies(units, s.subs[j], k) <= Copies(s.units, s.subs[j], k)
    ensures KeyOnce(units, SubStep(s, l, j, s.subs[j]), k)
  {
    OfferedOnce(units, s.subs[j], Carried(s, l).value, |s.published|, k);
  }

  lemma FinishKeepsKeyOnce(s: State, l: Label, j: nat, k: Key)
    requires (l == FinishOk(j) || l == FinishFailed(j)) && Enabled(s, l) && KeyOnce(s.units, s.subs[j], k)
    ensures KeyOnce(s.units, Finished(s.subs[j], l.FinishOk?), k)
  {
    FinishedOnce(s.units, s.subs[j], l.FinishOk?, k);
  }

  /** The other steps of a subscription neither queue, handle nor record anything, nor revive a copy. */
  lemma OtherStepKeepsKeyOnce(s: State, l: Label, j: nat, k: Key, units: seq<Unit>)
    requires Enabled(s, l) && Carried(s, l) == None && j < |s.subs| && KeyOnce(units, s.subs[j], k)
    requires l != Dequeue(j) && l != FinishOk(j) && l != FinishFailed(j)
    requires l == BeginDelivery(j) ==> units == Step(s, l).units
    ensures KeyOnce(units, SubStep(s, l, j, s.subs[j]), k)
  {
  }

  lemma StepKeepsKeyOnce(s: State, l: Label, j: nat, k: Key)
    requires Enabled(s, l) && Guard(s, l, j, k) && j < |s.subs| && KeyOnce(s.units, s.subs[j], k)
    ensures KeyOnce(Step(s, l).units, SubStep(s, l, j, s.subs[j]), k)
  {
    var b, units := s.subs[j], Step(s, l).units;
    StepGrows(s, l);
    FewerCopies(s.units, units, b, k);
    if Carried(s, l).Some? {
      FanOutKeepsKeyOnce(s, l, j, k, units);
    } else if l == Dequeue(j) {
      DequeuedOnce(units, b, s.scoped, k);
    } else if l == FinishOk(j) || l == FinishFailed(j) {
      FinishKeepsKeyOnce(s, l, j, k);
    } else {
      OtherStepKeepsKeyOnce(s, l, j, k, units);
    }
  }

  lemma {:induction false} GuardedKeepsKeyOnce(s: State, run: seq<Label>, j: nat, k: Key)
    requires Guarded(s, run, j, k) && Exec(s, run).Some?
    requires j < |s.subs| ==> KeyOnce(s.units, s.subs[j], k)
    ensures |s.subs| <= |Exec(s, run).value.subs|
    ensures var t := Exec(s, run).value; j < |t.subs| ==> KeyOnce(t.units, t.subs[j], k)
  {
    if run == [] {
    } else {
      GuardedKeepsKeyOnce(s, run[..|run| - 1], j, k);
      var t, l := Exec(s, run[..|run| - 1]).value, run[|run| - 1];
      if j < |t.subs| {
        SubAfter(t, l, j);
        StepKeepsKeyOnce(t, l, j, k);
      }
    }
  }

  /** In a run that is guarded for key k and subscription j, the promise about k holds. */
  lemma KeyOnceWithinWindow(scoped: bool, run: seq<Label>, s: State, j: nat, k: Key)
    requires Reaches(scoped, run, s) && Guarded(Init(scoped), run, j, k)
    requires j < |s.subs| && s.subs[j].dedup.idempotent
    ensures Promise(s.subs[j], k)
  {
    GuardedKeepsKeyOnce(Init(scoped), run, j, k);
  }

  // ---- all keys at once ----

  ghost predicate GuardedForAll(scoped: bool, run: seq<Label>, j: nat) {
    forall k :: Guarded(Init(scoped), run, j, k)
  }

  lemma GuardedPrefix(scoped: bool, run: seq<Label>, j: nat)
    requires run != [] && GuardedForAll(scoped, run, j)
    ensures GuardedForAll(scoped, run[..|run| - 1], j)
  {
    var s, before := Init(scoped), run[..|run| - 1];
    forall k ensures Guarded(s, before, j, k) {
      assert Guarded(Init(scoped), run, j, k);
    }
  }

  ghost predicate LogsSuccesses(b: Sub) {
    b.dedup.idempotent ==> OkKeys(b.handled) == b.dedup.log
  }

  lemma FinishedLogs(b: Sub, ok: bool)
    requires b.worker.Handling? && LogsSuccesses(b)
    requires var key := b.worker.msg.event.key;
             ok && b.dedup.idempotent && key.Some? ==> key.value !in Window(b.dedup.log, b.dedup.window)
    ensures LogsSuccesses(Finished(b, ok))
  {
    OkKeysAppend(b.handled, Finished(b, ok).handled[|b.handled|]);
    assert OkKeys(b.handled) + [] == OkKeys(b.handled);
  }

  /** A success is about to be recorded for a key that is not in the window. */
  lemma SuccessIsFresh(scoped: bool, run: seq<Label>, s: State, j: nat)
    requires Reaches(scoped, run, s) && GuardedForAll(scoped, run, j) && Enabled(s, FinishOk(j))
    ensures var b := s.subs[j];
            b.dedup.idempotent && b.worker.msg.event.key.Some? ==>
              b.worker.msg.event.key.value !in Window(b.dedup.log, b.dedup.window)
  {
    var b := s.subs[j];
    if b.dedup.idempotent && b.worker.msg.event.key.Some? {
      var k := b.worker.msg.event.key.value;
      assert Guarded(Init(scoped), run, j, k);
      GuardedKeepsKeyOnce(Init(scoped), run, j, k);
      assert Outstanding(s.units, b, k);
    }
  }

  lemma StepLogs(scoped: bool, run: seq<Label>, s: State, l: Label, j: nat)
    requires Reaches(scoped, run, s) && GuardedForAll(scoped, run, j) && Enabled(s, l)
    requires j < |s.subs| && LogsSuccesses(s.subs[j])
    ensures LogsSuccesses(SubStep(s, l, j, s.subs[j]))
  {
    if l == FinishOk(j) {
      SuccessIsFresh(scoped, run, s, j);
      FinishedLogs(s.subs[j], true);
    } else if l == FinishFailed(j) {
      FinishedLogs(s.subs[j], false);
    }
  }

  lemma {:induction false} SuccessesAreTheLog(scoped: bool, run: seq<Label>, s: State, j: nat)
    requires Reaches(scoped, run, s) && GuardedForAll(scoped, run, j)
    ensures j < |s.subs| ==> LogsSuccesses(s.subs[j])
  {
    if run == [] {
    } else {
      var before, l := run[..|run| - 1], run[|run| - 1];
      var t := Exec(Init(scoped), before).value;
      GuardedPrefix(scoped, run, j);
      SuccessesAreTheLog(scoped, before, t, j);
      if j < |t.subs| {
        SubAfter(t, l, j);
        StepLogs(scoped, before, t, l, j);
      }
    }
  }

  lemma SpacedKeyByKey(keys: seq<Key>, window: int)
    requires forall k :: SpacedFor(keys, k, window)
    ensures Spaced(keys, window)
  {
    forall i, j | 0 <= i < j < |keys| && keys[i] == keys[j] ensures window < j - i {
      assert SpacedFor(keys, keys[i], window);
    }
  }

  /**
    When every fan-out to an idempotent subscriber passes the guard, its successes are its
    log of recorded keys: two successes for one key are more than `window` successes apart.
   */
  lemma OnceWithinWindow(scoped: bool, run: seq<Label>, s: State, j: nat)
    requires Reaches(scoped, run, s) && GuardedForAll(scoped, run, j)
    requires j < |s.subs| && s.subs[j].dedup.idempotent
    ensures OkKeys(s.subs[j].handled) == s.subs[j].dedup.log
    ensures Spaced(OkKeys(s.subs[j].handled), s.subs[j].dedup.window)
  {
    SuccessesAreTheLog(scoped, run, s, j);
    forall k ensures SpacedFor(OkKeys(s.subs[j].handled), k, s.subs[j].dedup.window) {
      assert Guarded(Init(scoped), run, j, k);
      KeyOnceWithinWindow(scoped, run, s, j, k);
    }
    SpacedKeyByKey(OkKeys(s.subs[j].handled), s.subs[j].dedup.window);
  }

  // ---- without the guard ----

  /** One idempotent subscriber with the default window, and copies of one event. */
  function Demo(queue: seq<Msg>, worker: Worker, handled: seq<Handled>, log: seq<Key>, published: seq<Msg>): State {
    State(false, false, [], [Sub(0, Dedup(true, 1000, log), queue, |queue| + if worker == Waiting then 0 else 1,
                                 worker, false, 0, None, {}, handled)], [], published)
  }

  function Copy(): Msg {
    Msg(Event(0, Some("k"), 0), None, None)
  }

  lemma DemoPublish(queue: seq<Msg>, published: seq<Msg>)
    ensures var s := Demo(queue, Waiting, [], [], published);
            && Enabled(s, PublishNow(Copy().event))
            && Step(s, PublishNow(Copy().event)) == Demo(queue + [Copy()], Waiting, [], [], published + [Copy()])
  {
    var t := Step(Demo(queue, Waiting, [], [], published), PublishNow(Copy().event));
    assert t.subs == [t.subs[0]];
  }

  lemma DemoHandle(queue: seq<Msg>, handled: seq<Handled>, log: seq<Key>, published: seq<Msg>)
    requires queue != []
    ensures var s, h := Demo(queue, Waiting, handled, log, published), Handled(queue[0], true, false, None);
            && Enabled(s, Dequeue(0)) && Enabled(Step(s, Dequeue(0)), FinishOk(0))
            && Step(Step(s, Dequeue(0)), FinishOk(0)) ==
               Demo(queue[1..], Waiting, handled + [h], Recorded(Dedup(true, 1000, log), queue[0].event).log, published)
  {
    var s := Demo(queue, Waiting, handled, log, published);
    var s1 := Step(s, Dequeue(0));
    assert s1.subs == [s1.subs[0]];
    var s2 := Step(s1, FinishOk(0));
    assert s2.subs == [s2.subs[0]];
  }

  lemma DemoHandled(run: seq<Label>, queue: seq<Msg>, handled: seq<Handled>, log: seq<Key>, published: seq<Msg>)
    requires Reaches(false, run, Demo(queue, Waiting, handled, log, published)) && queue != []
    ensures var h := Handled(queue[0], true, false, None);
            Reaches(false, run + [Dequeue(0)] + [FinishOk(0)],
                    Demo(queue[1..], Waiting, handled + [h],
                         Recorded(Dedup(true, 1000, log), queue[0].event).log, published))
  {
    DemoHandle(queue, handled, log, published);
    ExecNext(Init(false), run, Dequeue(0));
    ExecNext(Init(false), run + [Dequeue(0)], FinishOk(0));
  }

  lemma DemoPublished(run: seq<Label>, queue: seq<Msg>, published: seq<Msg>)
    requires Reaches(false, run, Demo(queue, Waiting, [], [], published))
    ensures Reaches(false, run + [PublishNow(Copy().event)],
                    Demo(queue + [Copy()], Waiting, [], [], published + [Copy()]))
  {
    DemoPublish(queue, published);
    ExecNext(Init(false), run, PublishNow(Copy().event));
  }

  lemma DemoSubscribed()
    ensures Reaches(false, [Subscribe(0, true, 1000)], Demo([], Waiting, [], [], []))
  {
    ExecNext(Init(false), [], Subscribe(0, true, 1000));
    var t := Step(Init(false), Subscribe(0, true, 1000));
    assert t.subs == [t.subs[0]];
    assert [] + [Subscribe(0, true, 1000)] == [Subscribe(0, true, 1000)];
  }

  lemma TwoOkKeys(h: Handled, k: Key)
    requires h.ok && h.msg.event.key == Some(k)
    ensures OkKeys([h] + [h]) == [k, k]
  {
    assert ([h] + [h])[..1] == [h] && [h][..0] == [];
    assert OkKeys([h]) == [] + [k];
    assert OkKeys([h] + [h]) == OkKeys([h]) + [k];
  }

  /** Without the guard: two copies published before the first is finished are both handled. */
  lemma TwoCopiesBothHandled() returns (run: seq<Label>, s: State)
    ensures Reaches(false, run, s) && |s.subs| == 1
    ensures s.subs[0].dedup.idempotent && s.subs[0].dedup.window == 1000
    ensures OkKeys(s.subs[0].handled) == ["k", "k"] && s.subs[0].suppressed == {}
  {
    var m := Copy();
    var h := Handled(m, true, false, None);
    var e := PublishNow(m.event);
    DemoSubscribed();
    run := [Subscribe(0, true, 1000)];
    DemoPublished(run, [], []);
    DemoPublished(run + [e], [] + [m], [] + [m]);
    run := run + [e] + [e];
    var q, p := [] + [m] + [m], [] + [m] + [m];
    DemoHandled(run, q, [], [], p);
    run := run + [Dequeue(0)] + [FinishOk(0)];
    var log := Recorded(Dedup(true, 1000, []), q[0].event).log;
    DemoHandled(run, q[1..], [] + [h], log, p);
    run := run + [Dequeue(0)] + [FinishOk(0)];
    s := Demo(q[1..][1..], Waiting, [] + [h] + [h], Recorded(Dedup(true, 1000, log), q[1].event).log, p);
    assert [] + [h] == [h];
    TwoOkKeys(h, "k");
  }
}
