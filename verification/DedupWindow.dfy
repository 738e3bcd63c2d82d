/**
  The bounded window of recently handled idempotency keys that an idempotent
  subscription keeps (shared/messagebus.py). The window is specified by a log of
  every key ever appended: it is the last `window` entries of that log.
 */
module DedupWindow {
  import opened Options
  import opened Sequences

  type Key = string

  /** A published event: its exact type, its optional idempotency key, the rest of its payload. */
  datatype Event = Event(kind: nat, key: Option<Key>, payload: int)

  /** The idempotency settings of a subscription together with the log of the keys it appended. */
  datatype Dedup = Dedup(idempotent: bool, window: int, log: seq<Key>)

  function Capacity(window: int): nat {
    if window < 0 then 0 else window
  }

  /** The last Capacity(window) entries of the log. */
  function Window(log: seq<Key>, window: int): seq<Key> {
    if |log| <= Capacity(window) then log else log[|log| - Capacity(window)..]
  }

  function Appended(log: seq<Key>, window: int, key: Key): seq<Key> {
    if key in Window(log, window) then log else log + [key]
  }

  /** The check made when an event is offered to a subscription. */
  predicate Suppresses(d: Dedup, e: Event) {
    d.idempotent && e.key.Some? && e.key.value in Window(d.log, d.window)
  }

  /** The bookkeeping made when a handler returned normally. */
  function Recorded(d: Dedup, e: Event): Dedup {
    if d.idempotent && e.key.Some? then d.(log := Appended(d.log, d.window, e.key.value)) else d
  }

  /** The set holds exactly the keys of the sequence. */
  ghost predicate Lists(s: seq<Key>, keys: set<Key>) {
    forall k :: k in keys <==> k in s
  }

  function Keys(s: seq<Key>): set<Key> {
    set k | k in s
  }

  /** A log that appending can build: no entry was in the window when it was appended. */
  ghost predicate Logged(log: seq<Key>, window: int) {
    log == [] || (Logged(log[..|log| - 1], window) && log[|log| - 1] !in Window(log[..|log| - 1], window))
  }

  /** Two appearances of one key in the log are more than `window` entries apart. */
  ghost predicate Spaced(log: seq<Key>, window: int) {
    forall i, j :: 0 <= i < j < |log| && log[i] == log[j] ==> window < j - i
  }

  lemma {:induction false} LoggedIffSpaced(log: seq<Key>, window: int)
    ensures Logged(log, window) <==> Spaced(log, window)
  {
    if log == [] {
    } else {
      var before := log[..|log| - 1];
      LoggedIffSpaced(before, window);
      SpacedStep(before, window, log[|log| - 1]);
      assert log == before + [log[|log| - 1]];
    }
  }

  lemma SpacedStep(log: seq<Key>, window: int, key: Key)
    ensures Spaced(log + [key], window) <==> Spaced(log, window) && key !in Window(log, window)
  {
    var next := log + [key];
    var start := |log| - |Window(log, window)|;
    assert forall i :: start <= i < |log| ==> log[i] == Window(log, window)[i - start];
    assert forall i :: 0 <= i < |log| ==> next[i] == log[i];
    if Spaced(next, window) {
      assert forall i :: 0 <= i < |log| && next[i] == next[|log|] ==> window < |log| - i;
    }
  }

  lemma AppendedIsLogged(log: seq<Key>, window: int, key: Key)
    ensures Logged(log, window) ==> Logged(Appended(log, window, key), window)
  {
    assert (log + [key])[..|log|] == log;
  }

  lemma EntryOfWindow(log: seq<Key>, window: int, i: nat)
    requires i < |Window(log, window)|
    ensures Window(log, window)[i] == log[|log| - |Window(log, window)| + i]
    ensures |Window(log, window)| <= window
  {
  }

  lemma WindowIsDistinct(log: seq<Key>, window: int)
    requires Logged(log, window)
    ensures NoRepeats(Window(log, window))
  {
    LoggedIffSpaced(log, window);
    var w, start := Window(log, window), |log| - |Window(log, window)|;
    forall i, j | 0 <= i < j < |w| ensures w[i] != w[j] {
      EntryOfWindow(log, window, i);
      EntryOfWindow(log, window, j);
      assert log[start + i] == log[start + j] ==> window < j - i;
    }
  }

  /** Appending a key to the deque and trimming it gives the window of the extended log. */
  lemma WindowPush(log: seq<Key>, window: int, key: Key)
    requires Logged(log, window) && key !in Window(log, window)
    ensures NoRepeats(Window(log, window) + [key])
    ensures Window(Window(log, window) + [key], window) == Window(log + [key], window)
  {
    WindowIsDistinct(log, window);
    NoRepeatsAppend(Window(log, window), key);
  }

  lemma {:induction false} DistinctSize(s: seq<Key>)
    requires NoRepeats(s)
    ensures |Keys(s)| == |s|
  {
    if s == [] {
      assert Keys(s) == {};
    } else {
      NoRepeatsSplit(s);
      DistinctSize(s[1..]);
      assert s == [s[0]] + s[1..];
      assert Keys(s) == {s[0]} + Keys(s[1..]);
      assert s[0] !in s[1..];
    }
  }

  lemma {:induction false} KeysSizeAtMost(s: seq<Key>)
    ensures |Keys(s)| <= |s|
  {
    if s == [] {
      assert Keys(s) == {};
    } else {
      KeysSizeAtMost(s[1..]);
      assert s == [s[0]] + s[1..];
      assert Keys(s) == {s[0]} + Keys(s[1..]);
    }
  }

  lemma SubsetSize(a: set<Key>, b: set<Key>)
    requires a <= b
    ensures |a| <= |b|
  {
    if a != {} {
      var x :| x in a;
      SubsetSize(a - {x}, b - {x});
    }
  }

  ghost predicate IsLast(log: seq<Key>, key: Key, i: nat) {
    i < |log| && log[i] == key && key !in log[i + 1..]
  }

  lemma {:induction false} HasLast(log: seq<Key>, key: Key) returns (i: nat)
    requires key in log
    ensures IsLast(log, key, i)
  {
    var n := |log| - 1;
    if log[n] == key {
      i := n;
    } else {
      assert log == log[..n] + [log[n]];
      i := HasLast(log[..n], key);
      assert log[i + 1..] == log[..n][i + 1..] + [log[n]];
    }
  }

  /** The last entry of the key is at i, with fewer than `window` different keys after it. */
  ghost predicate RecentAt(log: seq<Key>, window: int, key: Key, i: nat) {
    IsLast(log, key, i) && |Keys(log[i + 1..])| < window
  }

  /**
    What a suppression means: the key was appended before, and since its last
    entry fewer than `window` different keys were appended.
   */
  lemma SeenExactly(log: seq<Key>, window: int, key: Key)
    requires Logged(log, window)
    ensures key in Window(log, window) <==> exists i :: RecentAt(log, window, key, i)
  {
    if key in Window(log, window) {
      var i := HasLast(log, key);
      SeenFromLast(log, window, key, i);
      assert RecentAt(log, window, key, i);
    }
    if i :| RecentAt(log, window, key, i) {
      SeenFromLast(log, window, key, i);
    }
  }

  lemma SeenFromLast(log: seq<Key>, window: int, key: Key, i: nat)
    requires Logged(log, window) && IsLast(log, key, i)
    ensures key in Window(log, window) <==> |Keys(log[i + 1..])| < window
  {
    var recent := Window(log, window);
    if |log| - |recent| <= i {
      InsideWindow(log, window, key, i);
    } else {
      OutsideWindow(log, window, key, i);
    }
  }

  lemma InsideWindow(log: seq<Key>, window: int, key: Key, i: nat)
    requires IsLast(log, key, i) && |log| - |Window(log, window)| <= i
    ensures key in Window(log, window) && |Keys(log[i + 1..])| < window
  {
    assert Window(log, window)[i - (|log| - |Window(log, window)|)] == key;
    KeysSizeAtMost(log[i + 1..]);
  }

  lemma SuffixKeys(s: seq<Key>, k: nat)
    requires k <= |s|
    ensures Keys(s[k..]) <= Keys(s) && forall x :: x in s[k..] ==> x in s
  {
  }

  lemma OutsideWindow(log: seq<Key>, window: int, key: Key, i: nat)
    requires Logged(log, window) && IsLast(log, key, i) && i < |log| - |Window(log, window)|
    ensures key !in Window(log, window) && |Keys(log[i + 1..])| >= window
  {
    var tail, recent := log[i + 1..], Window(log, window);
    var offset := |log| - |recent| - i - 1;
    assert recent == tail[offset..];
    SuffixKeys(tail, offset);
    WindowIsDistinct(log, window);
    DistinctSize(recent);
    SubsetSize(Keys(recent), Keys(tail));
  }
}
