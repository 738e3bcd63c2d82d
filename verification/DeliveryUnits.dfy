/**
  What every run of the delivery system keeps about units of work: commits are
  all-or-nothing, buffered events move only after a commit, in order.
 */
module DeliveryUnits {
  import opened Options
  import opened DedupWindow
  import opened Delivery

  function WritesOf(store: seq<Entry>, u: nat): seq<int> {
    if store == [] then []
    else
      var last := store[|store| - 1];
      WritesOf(store[..|store| - 1], u) + if last.unit == u then [last.write] else []
  }

  /** The messages that the flush of u has put in this sink. */
  function Via(sink: seq<Msg>, u: nat): seq<Msg> {
    if sink == [] then []
    else
      var last := sink[|sink| - 1];
      Via(sink[..|sink| - 1], u) + if last.via == Some(u) then [last] else []
  }

  /** Where the flush of u puts its events: the outer outbox, or the bus. */
  function Sink(s: State, u: nat): seq<Msg>
    requires u < |s.units|
  {
    match s.units[u].parent
    case None => s.published
    case Some(p) => if p < |s.units| then s.units[p].outbox else []
  }

  function Tagged(ms: seq<Msg>, u: nat): seq<Msg> {
    seq(|ms|, i requires 0 <= i < |ms| => ms[i].(via := Some(u)))
  }

  /** Every unit from o outwards, up to but not including top, has committed. */
  ghost predicate CommittedUpTo(units: seq<Unit>, o: nat, top: Option<nat>)
    decreases o
  {
    top == Some(o) ||
    (&& o < |units| && Committed(units[o])
     && match units[o].parent
        case None => top == None
        case Some(p) => p < o && CommittedUpTo(units, p, top))
  }

  ghost predicate UnitsOk(units: seq<Unit>) {
    forall u :: 0 <= u < |units| ==> UnitOk(units, u)
  }

  ghost predicate UnitOk(units: seq<Unit>, u: nat)
    requires u < |units|
  {
    var v := units[u];
    && v.flushed <= |v.outbox|
    && (v.status == Active || v.status == RolledBack ==> v.flushed == 0)
    && (v.status == Returned ==> v.flushed == |v.outbox|)
    && (v.status == FlushFailed ==> v.flushed < |v.outbox| || v.outbox == [])
    && (v.parent.Some? ==> v.parent.value < u && (!Settled(v) ==> units[v.parent.value].status == Active))
  }

  ghost predicate StoreOk(s: State) {
    && (forall i :: 0 <= i < |s.store| ==> s.store[i].unit < |s.units|)
    && forall u :: 0 <= u < |s.units| ==>
         WritesOf(s.store, u) == if Committed(s.units[u]) then s.units[u].writes else []
  }

  ghost predicate OriginsOk(s: State) {
    && (forall u, i :: 0 <= u < |s.units| && 0 <= i < |s.units[u].outbox| ==>
          OriginOk(s.units, s.units[u].outbox[i], Some(u)))
    && (forall i :: 0 <= i < |s.published| ==> OriginOk(s.units, s.published[i], None))
  }

  ghost predicate OriginOk(units: seq<Unit>, m: Msg, top: Option<nat>) {
    && (m.origin.Some? ==> CommittedUpTo(units, m.origin.value, top))
    && (m.via.Some? ==> m.via.value < |units| && units[m.via.value].parent == top)
  }

  ghost predicate FlushOk(s: State) {
    forall u :: 0 <= u < |s.units| ==>
      Via(Sink(s, u), u) == Tagged(s.units[u].outbox[..Min(s.units[u].flushed, |s.units[u].outbox|)], u)
  }

  function Min(a: nat, b: nat): nat {
    if a < b then a else b
  }

  ghost predicate Inv(s: State) {
    UnitsOk(s.units) && StoreOk(s) && OriginsOk(s) && FlushOk(s)
  }

  // ---- what a step can do to the units ----

  /** Units are only added; no parent changes, and commits, returns and failures are final. */
  ghost predicate Grows(before: seq<Unit>, after: seq<Unit>) {
    && |before| <= |after|
    && forall u :: 0 <= u < |before| ==>
         && before[u].parent == after[u].parent
         && (Committed(before[u]) ==> Committed(after[u]))
         && (before[u].status == Returned ==> after[u].status == Returned)
         && (Failed(before[u]) ==> after[u].status == before[u].status)
  }

  /** What a step does to unit u, which is v before it. */
  function UnitStep(s: State, l: Label, u: nat, v: Unit): Unit
    requires Enabled(s, l) && u < |s.units| && v == s.units[u]
  {
    match l
    case Write(w, x) => if w == u then v.(writes := v.writes + [x]) else v
    case PublishIn(w, e) => if w == u then v.(outbox := v.outbox + [Msg(e, Some(u), None)]) else v
    case Commit(w) => if w == u then v.(status := Flushing) else v
    case RollBack(w) => if w == u then v.(status := RolledBack) else v
    case FailFlush(w) => if w == u then v.(status := FlushFailed) else v
    case Interrupt(w) => if w == u then v.(status := FlushFailed) else v
    case Return(w) => if w == u then v.(status := Returned) else v
    case Flush(w) =>
      var f := if w == u then v.(flushed := v.flushed + 1) else v;
      if s.units[w].parent == Some(u) then f.(outbox := f.outbox + [Forwarded(s, w)]) else f
    case _ => v
  }

  /** The event that the next flush step of w hands on. */
  function Forwarded(s: State, w: nat): Msg
    requires FlushPending(s, w)
  {
    s.units[w].outbox[s.units[w].flushed].(via := Some(w))
  }

  predicate StartsUnit(l: Label) {
    l.Begin? || l.BeginDelivery?
  }

  lemma UnitAfter(s: State, l: Label, u: nat)
    requires Enabled(s, l) && u < |s.units|
    ensures u < |Step(s, l).units| && Step(s, l).units[u] == UnitStep(s, l, u, s.units[u])
  {
  }

  lemma UnitsAfter(s: State, l: Label)
    requires Enabled(s, l)
    ensures |Step(s, l).units| == |s.units| + if StartsUnit(l) then 1 else 0
    ensures StartsUnit(l) ==> Step(s, l).units[..|s.units|] == s.units
    ensures StartsUnit(l) ==>
              Step(s, l).units[|s.units|] == Unit(if l.Begin? then l.parent else None, Active, [], [], 0)
  {
  }

  /** The message a step puts in the outbox of u, if any. */
  function Posted(s: State, l: Label, u: nat): seq<Msg>
    requires Enabled(s, l)
  {
    match l
    case PublishIn(w, e) => if w == u then [Msg(e, Some(u), None)] else []
    case Flush(w) => if s.units[w].parent == Some(u) then [Forwarded(s, w)] else []
    case _ => []
  }

  /** The message a step gives to the bus, if any. */
  function Carried(s: State, l: Label): Option<Msg>
    requires Enabled(s, l)
  {
    match l
    case PublishNow(e) => Some(Msg(e, None, None))
    case Flush(u) => if s.units[u].parent == None then Some(Forwarded(s, u)) else None
    case _ => None
  }

  lemma PublishedAfter(s: State, l: Label)
    requires Enabled(s, l)
    ensures Step(s, l).published == match Carried(s, l) case None => s.published case Some(m) => s.published + [m]
  {
  }

  lemma UnitGrows(s: State, l: Label, u: nat)
    requires Enabled(s, l) && u < |s.units|
    ensures var v, w := s.units[u], UnitStep(s, l, u, s.units[u]);
            && v.parent == w.parent && (Committed(v) ==> Committed(w) && v.writes == w.writes)
            && (v.status == Returned ==> w.status == Returned)
            && (Failed(v) ==> w.status == v.status)
            && (Committed(w) && !Committed(v) ==> l == Commit(u))
            && w.outbox == v.outbox + Posted(s, l, u)
            && w.flushed == v.flushed + if l == Flush(u) then 1 else 0
  {
    assert s.units[u].outbox + [] == s.units[u].outbox;
  }

  lemma StepGrows(s: State, l: Label)
    requires Enabled(s, l)
    ensures Grows(s.units, Step(s, l).units)
  {
    UnitsAfter(s, l);
    forall u | 0 <= u < |s.units|
      ensures var v, w := s.units[u], Step(s, l).units[u];
              && v.parent == w.parent && (Committed(v) ==> Committed(w))
              && (v.status == Returned ==> w.status == Returned) && (Failed(v) ==> w.status == v.status)
    {
      UnitAfter(s, l, u);
      UnitGrows(s, l, u);
    }
  }

  /** A unit that is not settled has a running unit around it. */
  lemma ParentActive(s: State, l: Label, u: nat)
    requires UnitsOk(s.units) && Enabled(s, l) && u < |s.units|
    ensures var v := UnitStep(s, l, u, s.units[u]);
            v.parent.Some? ==>
              && v.parent.value < u
              && (!Settled(v) ==> UnitStep(s, l, v.parent.value, s.units[v.parent.value]).status == Active)
  {
    assert UnitOk(s.units, u);
  }

  lemma UnitStaysOk(s: State, l: Label, u: nat)
    requires UnitsOk(s.units) && Enabled(s, l) && u < |s.units|
    ensures UnitOk(Step(s, l).units, u)
  {
    assert UnitOk(s.units, u);
    UnitAfter(s, l, u);
    ParentActive(s, l, u);
    if s.units[u].parent.Some? {
      UnitAfter(s, l, s.units[u].parent.value);
    }
    if l.Flush? {
      assert UnitOk(s.units, l.unit);
    }
  }

  lemma StepKeepsUnits(s: State, l: Label)
    requires UnitsOk(s.units) && Enabled(s, l)
    ensures UnitsOk(Step(s, l).units)
  {
    UnitsAfter(s, l);
    forall u | 0 <= u < |Step(s, l).units| ensures UnitOk(Step(s, l).units, u) {
      if u < |s.units| {
        UnitStaysOk(s, l, u);
      }
    }
  }

  lemma {:induction false} GrowsKeepsCommitted(before: seq<Unit>, after: seq<Unit>, o: nat, top: Option<nat>)
    requires Grows(before, after) && CommittedUpTo(before, o, top)
    ensures CommittedUpTo(after, o, top)
    decreases o
  {
    if top != Some(o) && before[o].parent.Some? {
      GrowsKeepsCommitted(before, after, before[o].parent.value, top);
    }
  }

  /** Once u itself has committed, its outbox satisfies the condition of the next sink. */
  lemma {:induction false} ThroughCommitted(units: seq<Unit>, o: nat, u: nat)
    requires UnitsOk(units) && u < |units| && Committed(units[u]) && CommittedUpTo(units, o, Some(u))
    ensures CommittedUpTo(units, o, units[u].parent)
    decreases o
  {
    assert UnitOk(units, u);
    if o != u {
      ThroughCommitted(units, units[o].parent.value, u);
    } else if units[u].parent.Some? {
      assert CommittedUpTo(units, units[u].parent.value, units[u].parent);
    }
  }

  // ---- the committed store ----

  lemma {:induction false} WritesOfConcat(a: seq<Entry>, b: seq<Entry>, u: nat)
    ensures WritesOf(a + b, u) == WritesOf(a, u) + WritesOf(b, u)
  {
    if b == [] {
      assert a + b == a;
    } else {
      WritesOfConcat(a, b[..|b| - 1], u);
      assert (a + b)[..|a + b| - 1] == a + b[..|b| - 1];
    }
  }

  lemma {:induction false} WritesOfEntries(u: nat, writes: seq<int>, v: nat)
    ensures WritesOf(Entries(u, writes), v) == if u == v then writes else []
  {
    if writes == [] {
    } else {
      var n := |writes| - 1;
      WritesOfEntries(u, writes[..n], v);
      assert Entries(u, writes)[..n] == Entries(u, writes[..n]);
      assert writes == writes[..n] + [writes[n]];
    }
  }

  lemma {:induction false} WritesOfAbsent(store: seq<Entry>, u: nat)
    requires forall i :: 0 <= i < |store| ==> store[i].unit != u
    ensures WritesOf(store, u) == []
  {
    if store == [] {
    } else {
      WritesOfAbsent(store[..|store| - 1], u);
    }
  }

  lemma StoreAfter(s: State, l: Label)
    requires Enabled(s, l)
    ensures Step(s, l).store == s.store + if l.Commit? then Entries(l.unit, s.units[l.unit].writes) else []
  {
    assert s.store + [] == s.store;
  }

  lemma StoredWrites(s: State, l: Label, u: nat)
    requires StoreOk(s) && Enabled(s, l) && u < |s.units|
    ensures var v := UnitStep(s, l, u, s.units[u]);
            WritesOf(Step(s, l).store, u) == if Committed(v) then v.writes else []
  {
    StoreAfter(s, l);
    UnitGrows(s, l, u);
    if l.Commit? {
      WritesOfConcat(s.store, Entries(l.unit, s.units[l.unit].writes), u);
      WritesOfEntries(l.unit, s.units[l.unit].writes, u);
    }
  }

  lemma UnitStored(s: State, l: Label, u: nat)
    requires StoreOk(s) && Enabled(s, l) && u < |Step(s, l).units|
    ensures WritesOf(Step(s, l).store, u) == if Committed(Step(s, l).units[u]) then Step(s, l).units[u].writes else []
  {
    if u < |s.units| {
      StoredWrites(s, l, u);
      UnitAfter(s, l, u);
    } else {
      StoreAfter(s, l);
      UnitsAfter(s, l);
      WritesOfAbsent(s.store, u);
      assert s.store + [] == s.store;
    }
  }

  lemma StoredUnits(s: State, l: Label, i: nat)
    requires StoreOk(s) && Enabled(s, l) && i < |Step(s, l).store|
    ensures Step(s, l).store[i].unit < |Step(s, l).units|
  {
    StoreAfter(s, l);
    UnitsAfter(s, l);
  }

  lemma StepKeepsStore(s: State, l: Label)
    requires StoreOk(s) && Enabled(s, l)
    ensures StoreOk(Step(s, l))
  {
    var t := Step(s, l);
    forall i | 0 <= i < |t.store| ensures t.store[i].unit < |t.units| {
      StoredUnits(s, l, i);
    }
    forall u | 0 <= u < |t.units|
      ensures WritesOf(t.store, u) == if Committed(t.units[u]) then t.units[u].writes else []
    {
      UnitStored(s, l, u);
    }
  }

  // ---- where buffered events may be ----

  lemma GrowsKeepsOrigin(before: seq<Unit>, after: seq<Unit>, m: Msg, top: Option<nat>)
    requires Grows(before, after) && OriginOk(before, m, top)
    ensures OriginOk(after, m, top)
  {
    if m.origin.Some? {
      GrowsKeepsCommitted(before, after, m.origin.value, top);
    }
  }

  lemma FlushedOrigin(s: State, u: nat)
    requires UnitsOk(s.units) && OriginsOk(s) && FlushPending(s, u)
    ensures OriginOk(s.units, Forwarded(s, u), s.units[u].parent)
  {
    var m := s.units[u].outbox[s.units[u].flushed];
    assert OriginOk(s.units, m, Some(u));
    if m.origin.Some? {
      ThroughCommitted(s.units, m.origin.value, u);
    }
  }

  lemma PostedOrigin(s: State, l: Label, u: nat, m: Msg)
    requires UnitsOk(s.units) && OriginsOk(s) && Enabled(s, l) && m in Posted(s, l, u)
    ensures OriginOk(s.units, m, Some(u))
  {
    if l.Flush? {
      FlushedOrigin(s, l.unit);
    }
  }

  lemma OutboxOrigin(s: State, l: Label, u: nat, i: nat)
    requires UnitsOk(s.units) && OriginsOk(s) && Enabled(s, l) && u < |s.units|
    requires i < |UnitStep(s, l, u, s.units[u]).outbox|
    ensures OriginOk(s.units, UnitStep(s, l, u, s.units[u]).outbox[i], Some(u))
  {
    UnitGrows(s, l, u);
    var m := UnitStep(s, l, u, s.units[u]).outbox[i];
    if i < |s.units[u].outbox| {
      assert m == s.units[u].outbox[i];
    } else {
      PostedOrigin(s, l, u, m);
    }
  }

  lemma CarriedOrigin(s: State, l: Label)
    requires UnitsOk(s.units) && OriginsOk(s) && Enabled(s, l) && Carried(s, l).Some?
    ensures OriginOk(s.units, Carried(s, l).value, None)
  {
    if l.Flush? {
      FlushedOrigin(s, l.unit);
    }
  }

  lemma PublishedOrigin(s: State, l: Label, i: nat)
    requires UnitsOk(s.units) && OriginsOk(s) && Enabled(s, l) && i < |Step(s, l).published|
    ensures OriginOk(s.units, Step(s, l).published[i], None)
  {
    PublishedAfter(s, l);
    if i < |s.published| {
      assert Step(s, l).published[i] == s.published[i];
    } else {
      CarriedOrigin(s, l);
    }
  }

  lemma StepKeepsOrigins(s: State, l: Label)
    requires UnitsOk(s.units) && OriginsOk(s) && Enabled(s, l)
    ensures OriginsOk(Step(s, l))
  {
    var t := Step(s, l);
    StepGrows(s, l);
    UnitsAfter(s, l);
    forall u, i | 0 <= u < |t.units| && 0 <= i < |t.units[u].outbox|
      ensures OriginOk(t.units, t.units[u].outbox[i], Some(u))
    {
      if u < |s.units| {
        UnitAfter(s, l, u);
        OutboxOrigin(s, l, u, i);
        GrowsKeepsOrigin(s.units, t.units, t.units[u].outbox[i], Some(u));
      }
    }
    forall i | 0 <= i < |t.published| ensures OriginOk(t.units, t.published[i], None) {
      PublishedOrigin(s, l, i);
      GrowsKeepsOrigin(s.units, t.units, t.published[i], None);
    }
  }

  // ---- each unit's events arrive in its sink in order ----

  lemma ViaAppend(sink: seq<Msg>, m: Msg, u: nat)
    ensures Via(sink + [m], u) == Via(sink, u) + if m.via == Some(u) then [m] else []
  {
    assert (sink + [m])[..|sink|] == sink;
  }

  lemma {:induction false} ViaAbsent(sink: seq<Msg>, u: nat)
    requires forall i :: 0 <= i < |sink| ==> sink[i].via != Some(u)
    ensures Via(sink, u) == []
  {
    if sink == [] {
    } else {
      ViaAbsent(sink[..|sink| - 1], u);
    }
  }

  lemma StepKeepsFlush(s: State, l: Label)
    requires UnitsOk(s.units) && OriginsOk(s) && FlushOk(s) && Enabled(s, l)
    ensures FlushOk(Step(s, l))
  {
    var t := Step(s, l);
    StepKeepsUnits(s, l);
    UnitsAfter(s, l);
    forall u | 0 <= u < |t.units|
      ensures Via(Sink(t, u), u) == Tagged(t.units[u].outbox[..Min(t.units[u].flushed, |t.units[u].outbox|)], u)
    {
      if u < |s.units| {
        SinkStep(s, l, u);
      } else {
        PublishedAfter(s, l);
        forall i | 0 <= i < |Sink(t, u)| ensures Sink(t, u)[i].via != Some(u) {
          FreshSink(s, t, u, i);
        }
        ViaAbsent(Sink(t, u), u);
      }
    }
  }

  /** A unit that has just begun has flushed nothing anywhere. */
  lemma FreshSink(s: State, t: State, u: nat, i: nat)
    requires UnitsOk(s.units) && OriginsOk(s) && u == |s.units| && |t.units| == u + 1 && UnitsOk(t.units)
    requires t.units[..u] == s.units && t.published == s.published
    requires i < |Sink(t, u)|
    ensures Sink(t, u)[i].via != Some(u)
  {
    assert UnitOk(t.units, u);
    match t.units[u].parent
    case None => assert OriginOk(s.units, s.published[i], None);
    case Some(p) => assert t.units[p] == s.units[p]; assert OriginOk(s.units, s.units[p].outbox[i], Some(p));
  }

  /** What a step adds to the sink of u. */
  function Added(s: State, l: Label, u: nat): seq<Msg>
    requires Enabled(s, l) && u < |s.units|
  {
    match s.units[u].parent
    case None => if Carried(s, l).Some? then [Carried(s, l).value] else []
    case Some(p) => Posted(s, l, p)
  }

  lemma SinkGrowth(s: State, l: Label, u: nat)
    requires UnitsOk(s.units) && Enabled(s, l) && u < |s.units|
    ensures u < |Step(s, l).units| && Sink(Step(s, l), u) == Sink(s, u) + Added(s, l, u)
  {
    assert UnitOk(s.units, u);
    UnitAfter(s, l, u);
    UnitGrows(s, l, u);
    match s.units[u].parent
    case None =>
      PublishedAfter(s, l);
      assert s.published + [] == s.published;
    case Some(p) =>
      UnitAfter(s, l, p);
      UnitGrows(s, l, p);
  }

  /** A step adds at most one message to a sink, and one carried by u only when it flushes u. */
  lemma AddedByFlush(s: State, l: Label, u: nat)
    requires Enabled(s, l) && u < |s.units|
    ensures l == Flush(u) ==> Added(s, l, u) == [Forwarded(s, u)]
    ensures l != Flush(u) ==> |Added(s, l, u)| <= 1 && forall m :: m in Added(s, l, u) ==> m.via != Some(u)
  {
  }

  lemma FlushedPrefix(s: State, l: Label, u: nat)
    requires UnitsOk(s.units) && Enabled(s, l) && u < |s.units|
    ensures var was, now := s.units[u], UnitStep(s, l, u, s.units[u]);
            && was.flushed <= |was.outbox| && now.flushed <= |now.outbox|
            && now.outbox[..now.flushed] ==
               was.outbox[..was.flushed] + if l == Flush(u) then [was.outbox[was.flushed]] else []
  {
    assert UnitOk(s.units, u);
    UnitGrows(s, l, u);
  }

  lemma ViaOthers(sink: seq<Msg>, added: seq<Msg>, u: nat)
    requires |added| <= 1 && forall m :: m in added ==> m.via != Some(u)
    ensures Via(sink + added, u) == Via(sink, u)
  {
    if added == [] {
      assert sink + added == sink;
    } else {
      assert added[0] in added && added == [added[0]];
      ViaAppend(sink, added[0], u);
    }
  }

  lemma TaggedAppend(ms: seq<Msg>, m: Msg, u: nat)
    ensures Tagged(ms + [m], u) == Tagged(ms, u) + [m.(via := Some(u))]
  {
  }

  lemma SinkStep(s: State, l: Label, u: nat)
    requires UnitsOk(s.units) && FlushOk(s) && Enabled(s, l) && u < |s.units|
    ensures var t := Step(s, l);
            u < |t.units| &&
            Via(Sink(t, u), u) == Tagged(t.units[u].outbox[..Min(t.units[u].flushed, |t.units[u].outbox|)], u)
  {
    var sink, was := Sink(s, u), s.units[u];
    assert Via(sink, u) == Tagged(was.outbox[..Min(was.flushed, |was.outbox|)], u);
    SinkGrowth(s, l, u);
    AddedByFlush(s, l, u);
    FlushedPrefix(s, l, u);
    UnitAfter(s, l, u);
    if l == Flush(u) {
      ViaAppend(sink, Forwarded(s, u), u);
      TaggedAppend(was.outbox[..was.flushed], was.outbox[was.flushed], u);
    } else {
      ViaOthers(sink, Added(s, l, u), u);
    }
  }

  lemma StepKeepsInv(s: State, l: Label)
    ensures Inv(s) && Enabled(s, l) ==> Inv(Step(s, l))
  {
    if Inv(s) && Enabled(s, l) {
      StepKeepsUnits(s, l);
      StepKeepsStore(s, l);
      StepKeepsOrigins(s, l);
      StepKeepsFlush(s, l);
    }
  }

  lemma {:induction false} RunKeepsInv(scoped: bool, run: seq<Label>)
    ensures Exec(Init(scoped), run).Some? ==> Inv(Exec(Init(scoped), run).value)
  {
    if run == [] {
    } else {
      RunKeepsInv(scoped, run[..|run| - 1]);
      var before := Exec(Init(scoped), run[..|run| - 1]);
      if before.Some? && Enabled(before.value, run[|run| - 1]) {
        StepKeepsInv(before.value, run[|run| - 1]);
      }
    }
  }
}
