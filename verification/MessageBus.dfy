/**
  shared/messagebus.py: one subscription (its queue and its window of recent keys)
  and the bus that fans events out to subscriptions of the event's exact type.
  The asyncio queue is unbounded, so a put never waits and publishing is one step.
 */
module MessageBus {
  import opened Options
  import opened DedupWindow
  import opened Sequences

  /** How awaiting a handler (or the middleware around it) ended. */
  datatype Outcome = Returned | Raised | Cancelled

  /** The list bound to publish_outbox_var inside a unit of work. */
  class Outbox {
    var items: seq<Event>

    constructor ()
      ensures items == []
    {
      items := [];
    }
  }

  class Subscription {
    const eventType: nat
    const idempotent: bool
    const dedupWindow: int
    var queue: seq<Event>
    var unfinished: int       // the queue's count of items put but not yet marked done
    var cancelled: bool       // cancel() was called on the worker task
    var recentKeys: seq<Key>
    var recentKeysSet: set<Key>
    ghost var log: seq<Key>   // every key ever appended to recentKeys

    ghost predicate Valid()
      reads this
    {
      && recentKeys == Window(log, dedupWindow)
      && Lists(recentKeys, recentKeysSet)
      && Logged(log, dedupWindow)
      && unfinished == |queue|
    }

    ghost function Settings(): Dedup
      reads this
    {
      Dedup(idempotent, dedupWindow, log)
    }

    constructor (eventType: nat, idempotent: bool, dedupWindow: int)
      ensures Valid() && queue == [] && !cancelled
      ensures this.eventType == eventType && Settings() == Dedup(idempotent, dedupWindow, [])
    {
      this.eventType, this.idempotent, this.dedupWindow := eventType, idempotent, dedupWindow;
      queue, unfinished, cancelled := [], 0, false;
      recentKeys, recentKeysSet, log := [], {}, [];
    }

    /** Appends an unseen key, then evicts from the left down to the window. */
    method RecordKey(key: Key) returns (raised: bool)
      requires Valid()
      modifies `recentKeys, `recentKeysSet, `log
      ensures Valid()
      ensures log == Appended(old(log), dedupWindow, key)
      ensures raised <==> dedupWindow < 0
    {
      if key in recentKeysSet {
        return false;
      }
      AppendedIsLogged(log, dedupWindow, key);
      WindowPush(log, dedupWindow, key);
      log := log + [key];
      recentKeys := recentKeys + [key];
      recentKeysSet := recentKeysSet + {key};
      raised := EvictOldest();
    }

    /** A negative window ends in popping an empty deque, which raises. */
    method EvictOldest() returns (raised: bool)
      requires NoRepeats(recentKeys) && Lists(recentKeys, recentKeysSet)
      modifies `recentKeys, `recentKeysSet
      ensures recentKeys == Window(old(recentKeys), dedupWindow) && Lists(recentKeys, recentKeysSet)
      ensures raised <==> dedupWindow < 0
    {
      while |recentKeys| > dedupWindow
        invariant NoRepeats(recentKeys) && Lists(recentKeys, recentKeysSet)
        invariant Window(recentKeys, dedupWindow) == Window(old(recentKeys), dedupWindow)
        decreases |recentKeys|
      {
        if recentKeys == [] {
          return true;
        }
        assert recentKeys == [recentKeys[0]] + recentKeys[1..];
        NoRepeatsSplit(recentKeys);
        recentKeysSet := recentKeysSet - {recentKeys[0]};
        recentKeys := recentKeys[1..];
      }
      return false;
    }

    predicate HasSeen(key: Key)
      requires Valid()
      reads this
      ensures HasSeen(key) <==> key in Window(log, dedupWindow)
    {
      key in recentKeysSet
    }

    /** The publisher's side: skip a suppressed event, otherwise queue it. */
    method Offer(e: Event)
      requires Valid()
      modifies `queue, `unfinished
      ensures Valid()
      ensures queue == if Suppresses(Settings(), e) then old(queue) else old(queue) + [e]
    {
      if idempotent && e.key.Some? && HasSeen(e.key.value) {
        return;
      }
      queue := queue + [e];
      unfinished := unfinished + 1;
    }

    /**
      One pass of the worker loop. An empty queue leaves the worker waiting. The key is
      recorded only after a normal return; only a cancellation ends the loop.
     */
    method DeliverNext(outcome: Outcome) returns (event: Option<Event>, alive: bool)
      requires Valid()
      modifies `queue, `unfinished, `recentKeys, `recentKeysSet, `log
      ensures Valid()
      ensures old(queue) == [] ==> event == None && alive && queue == [] && log == old(log)
      ensures old(queue) != [] ==>
                && event == Some(old(queue)[0]) && queue == old(queue)[1..]
                && Settings() == (if outcome == Returned
                                  then Recorded(old(Settings()), event.value) else old(Settings()))
                && (alive <==> outcome != Cancelled)
    {
      if queue == [] {
        return None, true;
      }
      var e := queue[0];
      queue, unfinished := queue[1..], unfinished - 1;
      if outcome == Returned && idempotent && e.key.Some? {
        // A raise in here is caught with the handler's own exceptions.
        var raised := RecordKey(e.key.value);
      }
      return Some(e), outcome != Cancelled;
    }
  }

  class MessageBus {
    var subscriptions: map<nat, seq<Subscription>>
    var closed: bool
    ghost var routed: set<Subscription>  // every subscription in some bucket

    function Bucket(kind: nat): seq<Subscription>
      reads this
    {
      BucketOf(subscriptions, kind)
    }

    ghost predicate Valid()
      reads this, routed
    {
      && (closed ==> routed == {})
      && Shape(subscriptions, routed)
      && forall s :: s in routed ==> s.Valid()
    }

    constructor ()
      ensures Valid() && !closed && routed == {}
    {
      subscriptions, closed, routed := map[], false, {};
    }

    method Subscribe(kind: nat, idempotent: bool, dedupWindow: int) returns (sub: Option<Subscription>)
      requires Valid()
      modifies this
      ensures Valid() && closed == old(closed)
      ensures old(closed) ==> sub == None && subscriptions == old(subscriptions) && routed == old(routed)
      ensures !old(closed) ==>
                && sub.Some? && fresh(sub.value) && routed == old(routed) + {sub.value}
                && sub.value.eventType == kind && sub.value.queue == []
                && sub.value.Settings() == Dedup(idempotent, dedupWindow, [])
                && subscriptions == old(subscriptions)[kind := old(Bucket(kind)) + [sub.value]]
    {
      if closed {
        return None;
      }
      var s := new Subscription(kind, idempotent, dedupWindow);
      AddToShape(subscriptions, routed, s);
      subscriptions := subscriptions[kind := Bucket(kind) + [s]];
      routed := routed + {s};
      sub := Some(s);
    }

    method Unsubscribe(sub: Subscription)
      requires Valid()
      modifies this, sub`cancelled
      ensures Valid() && closed == old(closed) && sub.cancelled
      ensures routed == old(routed) - {sub}
      ensures Bucket(sub.eventType) == Without(old(Bucket(sub.eventType)), sub)
      ensures forall kind :: kind != sub.eventType ==> Bucket(kind) == old(Bucket(kind))
    {
      var bucket := Bucket(sub.eventType);
      RemoveFromShape(subscriptions, routed, sub);
      if sub in bucket {
        subscriptions := subscriptions[sub.eventType := Without(bucket, sub)];
      }
      routed := routed - {sub};
      sub.cancelled := true;
    }

    /** `outbox` is the list bound to publish_outbox_var in the caller's context, or null. */
    method Publish(e: Event, outbox: Outbox?) returns (accepted: bool)
      requires Valid()
      modifies outbox
      modifies (set s | s in Bucket(e.kind))`queue, (set s | s in Bucket(e.kind))`unfinished
      ensures Valid()
      ensures accepted <==> !closed
      ensures outbox != null ==>
                outbox.items == if accepted then old(outbox.items) + [e] else old(outbox.items)
      ensures forall s :: s in Bucket(e.kind) ==>
                s.queue == if closed || outbox != null || Suppresses(s.Settings(), e)
                           then old(s.queue) else old(s.queue) + [e]
    {
      if closed {
        return false;
      }
      accepted := true;
      if outbox != null {
        outbox.items := outbox.items + [e];
        return;
      }
      var bucket := Bucket(e.kind);
      for n := 0 to |bucket|
        invariant forall s :: s in routed ==> s.Valid()
        invariant forall i :: 0 <= i < n ==>
                    bucket[i].queue == if Suppresses(bucket[i].Settings(), e)
                                       then old(bucket[i].queue) else old(bucket[i].queue) + [e]
        invariant forall i :: n <= i < |bucket| ==> bucket[i].queue == old(bucket[i].queue)
      {
        assert bucket[n] in Bucket(e.kind);
        bucket[n].Offer(e);
      }
    }

    method Close()
      requires Valid()
      modifies this, routed`cancelled
      ensures Valid() && closed
      ensures old(closed) ==> subscriptions == old(subscriptions)
      ensures !old(closed) ==>
                subscriptions == map[] && routed == {} && forall s :: s in old(routed) ==> s.cancelled
    {
      if closed {
        return;
      }
      closed := true;
      var kinds := subscriptions.Keys;
      while kinds != {}
        invariant kinds <= subscriptions.Keys && closed
        invariant subscriptions == old(subscriptions) && routed == old(routed)
        invariant forall s :: s in routed && s.eventType !in kinds ==> s.cancelled
      {
        var kind :| kind in kinds;
        CancelAll(subscriptions[kind]);
        kinds := kinds - {kind};
      }
      subscriptions, routed := map[], {};
    }
  }

  method CancelAll(bucket: seq<Subscription>)
    modifies (set s | s in bucket)`cancelled
    ensures forall s :: s in bucket ==> s.cancelled
  {
    for n := 0 to |bucket|
      invariant forall i :: 0 <= i < n ==> bucket[i].cancelled
    {
      bucket[n].cancelled := true;
    }
  }

  function BucketOf(buckets: map<nat, seq<Subscription>>, kind: nat): seq<Subscription> {
    if kind in buckets then buckets[kind] else []
  }

  /** Each bucket lists, once each, exactly the routed subscriptions of its type. */
  ghost predicate Shape(buckets: map<nat, seq<Subscription>>, routed: set<Subscription>) {
    && (forall kind :: kind in buckets ==>
          NoRepeats(buckets[kind]) && forall s :: s in buckets[kind] ==> s in routed && s.eventType == kind)
    && (forall s :: s in routed ==> s.eventType in buckets && s in buckets[s.eventType])
  }

  lemma AddToShape(buckets: map<nat, seq<Subscription>>, routed: set<Subscription>, s: Subscription)
    requires Shape(buckets, routed) && s !in routed
    ensures Shape(buckets[s.eventType := BucketOf(buckets, s.eventType) + [s]], routed + {s})
  {
    var bucket := BucketOf(buckets, s.eventType);
    assert s !in bucket;
    assert NoRepeats(bucket + [s]);
  }

  lemma RemoveFromShape(buckets: map<nat, seq<Subscription>>, routed: set<Subscription>, s: Subscription)
    requires Shape(buckets, routed)
    ensures s in BucketOf(buckets, s.eventType) ==>
              Shape(buckets[s.eventType := Without(BucketOf(buckets, s.eventType), s)], routed - {s})
    ensures s !in BucketOf(buckets, s.eventType) ==>
              && Shape(buckets, routed - {s})
              && Without(BucketOf(buckets, s.eventType), s) == BucketOf(buckets, s.eventType)
  {
    var bucket := BucketOf(buckets, s.eventType);
    assert NoRepeats(bucket);
    WithoutMembers(bucket, s);
    WithoutRepeats(bucket, s);
  }

  /** list.remove: the first occurrence is dropped. */
  function Without<T(==)>(s: seq<T>, x: T): seq<T> {
    if s == [] then [] else if s[0] == x then s[1..] else [s[0]] + Without(s[1..], x)
  }

  lemma {:induction false} WithoutMembers<T>(s: seq<T>, x: T)
    ensures forall y :: y in Without(s, x) ==> y in s
    ensures forall y :: y in s && y != x ==> y in Without(s, x)
    ensures x !in s ==> Without(s, x) == s
  {
    if s != [] && s[0] != x {
      WithoutMembers(s[1..], x);
    }
  }

  lemma {:induction false} WithoutRepeats<T>(s: seq<T>, x: T)
    requires NoRepeats(s)
    ensures NoRepeats(Without(s, x)) && x !in Without(s, x)
  {
    if s == [] {
    } else {
      NoRepeatsSplit(s);
      if s[0] != x {
        WithoutRepeats(s[1..], x);
        WithoutMembers(s[1..], x);
      }
    }
  }
}
