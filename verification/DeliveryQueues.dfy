/**
  What every run of the delivery system keeps about each subscription: nothing
  accepted is lost, doubled or reordered, and every recorded or suppressed key goes
  back to a delivery that returned normally.
 */
module DeliveryQueues {
  import opened Options
  import opened DedupWindow
  import opened Delivery
  import opened DeliveryUnits

  // ---- conservation ----

  function Msgs(hs: seq<Handled>): seq<Msg> {
    seq(|hs|, i requires 0 <= i < |hs| => hs[i].msg)
  }

  function InHand(w: Worker): seq<Msg> {
    match w
    case Waiting => []
    case Handling(m, _, _) => [m]
    case Stopped(abandoned) => abandoned
  }

  /** Everything that ever entered the queue, oldest first. */
  function History(b: Sub): seq<Msg> {
    Msgs(b.handled) + InHand(b.worker) + b.queue
  }

  /** Publication i, the message m, was due to this subscription and was not suppressed. */
  predicate Takes(b: Sub, i: nat, m: Msg) {
    && b.joined <= i && (b.left.Some? ==> i < b.left.value)
    && m.event.kind == b.kind && i !in b.suppressed
  }

  function Accepted(published: seq<Msg>, b: Sub): seq<Msg> {
    if published == [] then []
    else
      var n := |published| - 1;
      Accepted(published[..n], b) + if Takes(b, n, published[n]) then [published[n]] else []
  }

  ghost predicate Conserved(published: seq<Msg>, b: Sub) {
    && History(b) == Accepted(published, b)
    && b.unfinished == |b.queue| + (if b.worker.Handling? then 1 else 0)
    && (b.worker.Stopped? ==> |b.worker.abandoned| <= 1)
    && b.joined <= |published| && (b.left.Some? ==> b.left.value <= |published|)
  }

  // ---- idempotency keys ----

  ghost predicate KeyHandled(b: Sub, key: Key) {
    exists i :: 0 <= i < |b.handled| && b.handled[i].ok && b.handled[i].msg.event.key == Some(key)
  }

  ghost predicate KeysOk(published: seq<Msg>, b: Sub) {
    && Logged(b.dedup.log, b.dedup.window)
    && (forall k :: k in b.dedup.log ==> KeyHandled(b, k))
    && (forall i :: i in b.suppressed ==>
          && i < |published| && b.dedup.idempotent && published[i].event.kind == b.kind
          && published[i].event.key.Some? && published[i].event.key.value in b.dedup.log)
  }

  ghost predicate UnitReturned(units: seq<Unit>, u: Option<nat>) {
    u.Some? && u.value < |units| && units[u.value].status == Returned && units[u.value].parent == None
  }

  ghost predicate UnitFailed(units: seq<Unit>, u: Option<nat>) {
    u.Some? ==> u.value < |units| && Failed(units[u.value]) && units[u.value].parent == None
  }

  ghost predicate DeliveriesOk(units: seq<Unit>, b: Sub) {
    && (forall i :: 0 <= i < |b.handled| && b.handled[i].ok && b.handled[i].scoped ==>
          UnitReturned(units, b.handled[i].unit))
    && (forall i :: 0 <= i < |b.handled| && !b.handled[i].ok && b.handled[i].scoped ==>
          UnitFailed(units, b.handled[i].unit))
    && (b.worker.Handling? && b.worker.unit.Some? ==>
          b.worker.unit.value < |units| && units[b.worker.unit.value].parent == None)
  }

  ghost predicate SubOk(s: State, b: Sub) {
    Conserved(s.published, b) && KeysOk(s.published, b) && DeliveriesOk(s.units, b)
  }

  ghost predicate SubsOk(s: State) {
    forall j :: 0 <= j < |s.subs| ==> SubOk(s, s.subs[j])
  }

  // ---- preservation ----

  lemma {:induction false} AcceptedAgrees(p: seq<Msg>, b: Sub, c: Sub)
    requires forall i :: 0 <= i < |p| ==> Takes(b, i, p[i]) == Takes(c, i, p[i])
    ensures Accepted(p, b) == Accepted(p, c)
  {
    if p == [] {
    } else {
      AcceptedAgrees(p[..|p| - 1], b, c);
    }
  }

  lemma {:induction false} NothingAccepted(p: seq<Msg>, b: Sub)
    requires |p| <= b.joined
    ensures Accepted(p, b) == []
  {
    if p == [] {
    } else {
      NothingAccepted(p[..|p| - 1], b);
    }
  }

  lemma OfferedHistory(b: Sub, m: Msg, i: nat)
    requires b.joined <= i && (b.left.Some? ==> b.left.value <= i) && i !in b.suppressed
    ensures var c := Offered(b, m, i); History(c) == History(b) + if Takes(c, i, m) then [m] else []
  {
    assert History(b) + [] == History(b);
  }

  lemma AcceptedOneMore(p: seq<Msg>, b: Sub, m: Msg)
    ensures Accepted(p + [m], b) == Accepted(p, b) + if Takes(b, |p|, m) then [m] else []
  {
    assert (p + [m])[..|p|] == p;
  }

  lemma OfferedConserved(p: seq<Msg>, b: Sub, m: Msg)
    requires Conserved(p, b) && KeysOk(p, b)
    ensures Conserved(p + [m], Offered(b, m, |p|))
  {
    var c := Offered(b, m, |p|);
    assert |p| !in b.suppressed;
    AcceptedAgrees(p, b, c);
    AcceptedOneMore(p, c, m);
    OfferedHistory(b, m, |p|);
  }

  lemma OfferedKeys(p: seq<Msg>, b: Sub, m: Msg)
    requires KeysOk(p, b)
    ensures KeysOk(p + [m], Offered(b, m, |p|))
  {
    var c := Offered(b, m, |p|);
    forall k | k in c.dedup.log ensures KeyHandled(c, k) {
      assert KeyHandled(b, k);
    }
    forall i | i in c.suppressed
      ensures i < |p + [m]| && c.dedup.idempotent && (p + [m])[i].event.kind == c.kind
      ensures (p + [m])[i].event.key.Some? && (p + [m])[i].event.key.value in c.dedup.log
    {
      assert i in b.suppressed || (p + [m])[i] == m;
    }
  }

  lemma UnroutedOk(p: seq<Msg>, b: Sub)
    requires Conserved(p, b) && KeysOk(p, b)
    ensures Conserved(p, Unrouted(b, |p|)) && KeysOk(p, Unrouted(b, |p|))
  {
    AcceptedAgrees(p, b, Unrouted(b, |p|));
    assert forall k :: k in b.dedup.log ==> KeyHandled(b, k);
  }

  lemma SubscribedOk(s: State, b: Sub)
    requires b.queue == [] && b.unfinished == 0 && b.worker == Waiting && b.left == None && b.handled == []
    requires b.dedup.log == [] && b.suppressed == {} && b.joined == |s.published|
    ensures SubOk(s, b)
  {
    NothingAccepted(s.published, b);
  }

  lemma DequeuedOk(p: seq<Msg>, b: Sub, scoped: bool)
    requires Conserved(p, b) && KeysOk(p, b) && b.worker == Waiting && b.queue != []
    ensures var c := b.(queue := b.queue[1..], worker := Handling(b.queue[0], scoped, None));
            Conserved(p, c) && KeysOk(p, c)
  {
    var c := b.(queue := b.queue[1..], worker := Handling(b.queue[0], scoped, None));
    AcceptedAgrees(p, b, c);
    assert History(c) == History(b);
    assert forall k :: k in b.dedup.log ==> KeyHandled(b, k);
  }

  lemma FinishedOk(p: seq<Msg>, b: Sub, ok: bool)
    requires Conserved(p, b) && KeysOk(p, b) && b.worker.Handling?
    ensures Conserved(p, Finished(b, ok)) && KeysOk(p, Finished(b, ok))
  {
    var c := Finished(b, ok);
    AcceptedAgrees(p, b, c);
    assert Msgs(c.handled) == Msgs(b.handled) + [b.worker.msg];
    assert History(c) == History(b);
    if ok && b.dedup.idempotent && b.worker.msg.event.key.Some? {
      AppendedIsLogged(b.dedup.log, b.dedup.window, b.worker.msg.event.key.value);
    }
    forall k | k in c.dedup.log ensures KeyHandled(c, k) {
      if k in b.dedup.log {
        var i :| 0 <= i < |b.handled| && b.handled[i].ok && b.handled[i].msg.event.key == Some(k);
        assert c.handled[i] == b.handled[i];
      } else {
        assert c.handled[|b.handled|].ok;
      }
    }
  }

  lemma StoppedOk(p: seq<Msg>, b: Sub)
    requires Conserved(p, b) && KeysOk(p, b) && !b.worker.Stopped?
    ensures Conserved(p, Halted(b)) && KeysOk(p, Halted(b))
  {
    AcceptedAgrees(p, b, Halted(b));
    assert forall k :: k in b.dedup.log ==> KeyHandled(b, k);
  }

  lemma BegunOk(p: seq<Msg>, b: Sub, u: nat)
    requires Conserved(p, b) && KeysOk(p, b) && b.worker.Handling?
    ensures var c := b.(worker := b.worker.(unit := Some(u))); Conserved(p, c) && KeysOk(p, c)
  {
    AcceptedAgrees(p, b, b.(worker := b.worker.(unit := Some(u))));
    assert forall k :: k in b.dedup.log ==> KeyHandled(b, k);
  }

  /** What a step does to subscription j, which is b before it. */
  function SubStep(s: State, l: Label, j: nat, b: Sub): Sub
    requires Enabled(s, l) && j < |s.subs| && b == s.subs[j]
  {
    match l
    case PublishNow(e) => Offered(b, Msg(e, None, None), |s.published|)
    case Flush(u) =>
      if s.units[u].parent == None then Offered(b, Forwarded(s, u), |s.published|) else b
    case Close => Unrouted(b, |s.published|)
    case Unsubscribe(i) => if i == j then Unrouted(b, |s.published|) else b
    case Dequeue(i) =>
      if i == j then b.(queue := b.queue[1..], worker := Handling(b.queue[0], s.scoped, None)) else b
    case BeginDelivery(i) => if i == j then b.(worker := b.worker.(unit := Some(|s.units|))) else b
    case FinishOk(i) => if i == j then Finished(b, true) else b
    case FinishFailed(i) => if i == j then Finished(b, false) else b
    case Stop(i) => if i == j then Halted(b) else b
    case _ => b
  }

  lemma SubAfter(s: State, l: Label, j: nat)
    requires Enabled(s, l) && j < |s.subs|
    ensures j < |Step(s, l).subs| && Step(s, l).subs[j] == SubStep(s, l, j, s.subs[j])
  {
  }

  lemma StepKeepsQueue(s: State, l: Label, j: nat)
    requires Enabled(s, l) && j < |s.subs| && SubOk(s, s.subs[j])
    ensures var p := Step(s, l).published;
            Conserved(p, SubStep(s, l, j, s.subs[j])) && KeysOk(p, SubStep(s, l, j, s.subs[j]))
  {
    var p, b := s.published, s.subs[j];
    PublishedAfter(s, l);
    match Carried(s, l) {
      case Some(m) =>
        OfferedConserved(p, b, m);
        OfferedKeys(p, b, m);
      case None =>
        match l
        case Close => UnroutedOk(p, b);
        case Unsubscribe(i) => if i == j { UnroutedOk(p, b); }
        case Dequeue(i) => if i == j { DequeuedOk(p, b, s.scoped); }
        case BeginDelivery(i) => if i == j { BegunOk(p, b, |s.units|); }
        case FinishOk(i) => if i == j { FinishedOk(p, b, true); }
        case FinishFailed(i) => if i == j { FinishedOk(p, b, false); }
        case Stop(i) => if i == j { StoppedOk(p, b); }
        case _ =>
    }
  }

  lemma StepKeepsDeliveries(s: State, l: Label, j: nat)
    requires Enabled(s, l) && j < |s.subs| && DeliveriesOk(s.units, s.subs[j])
    ensures DeliveriesOk(Step(s, l).units, SubStep(s, l, j, s.subs[j]))
  {
    StepGrows(s, l);
    var b, units := s.subs[j], Step(s, l).units;
    var c := SubStep(s, l, j, b);
    forall i | 0 <= i < |c.handled| && c.handled[i].scoped
      ensures if c.handled[i].ok then UnitReturned(units, c.handled[i].unit) else UnitFailed(units, c.handled[i].unit)
    {
      if i < |b.handled| {
        assert c.handled[i] == b.handled[i];
        assert if b.handled[i].ok then UnitReturned(s.units, b.handled[i].unit)
               else UnitFailed(s.units, b.handled[i].unit);
      }
    }
  }

  lemma StepKeepsSubs(s: State, l: Label)
    requires SubsOk(s) && Enabled(s, l)
    ensures SubsOk(Step(s, l))
  {
    forall j | 0 <= j < |Step(s, l).subs| ensures SubOk(Step(s, l), Step(s, l).subs[j]) {
      if j < |s.subs| {
        SubAfter(s, l, j);
        StepKeepsQueue(s, l, j);
        StepKeepsDeliveries(s, l, j);
      } else {
        SubscribedOk(Step(s, l), Step(s, l).subs[j]);
      }
    }
  }

  lemma {:induction false} RunKeepsSubs(scoped: bool, run: seq<Label>)
    ensures Exec(Init(scoped), run).Some? ==> SubsOk(Exec(Init(scoped), run).value)
  {
    if run == [] {
    } else {
      RunKeepsSubs(scoped, run[..|run| - 1]);
      var before := Exec(Init(scoped), run[..|run| - 1]);
      if before.Some? && Enabled(before.value, run[|run| - 1]) {
        StepKeepsSubs(before.value, run[|run| - 1]);
      }
    }
  }
}
