/**
  The recently viewed symbols (lib/research/recent.ts): newest first, without repeats, capped.
 */
module RecentSymbols {
  import opened Ascii

  /** The white space and line terminators that String.prototype.trim removes. */
  predicate IsBlank(c: char) {
    var u := c as int;
    9 <= u <= 13 || u in {0x20, 0xA0, 0x1680, 0x2028, 0x2029, 0x202F, 0x205F, 0x3000, 0xFEFF} || 0x2000 <= u <= 0x200A
  }

  function Trim(s: string): string {
    if s == "" then "" else if IsBlank(s[0]) then Trim(s[1..])
    else if IsBlank(s[|s| - 1]) then Trim(s[..|s| - 1])
    else s
  }

  predicate IsSymbolChar(c: char) {
    'A' <= c <= 'Z' || '0' <= c <= '9'
  }

  predicate IsValidSymbol(s: string) {
    1 <= |s| <= 16 && forall i :: 0 <= i < |s| ==> IsSymbolChar(s[i])
  }

  function Normalized(symbol: string): string {
    Upper(Trim(symbol))
  }

  function AllUpper(list: seq<string>): seq<string> {
    if list == [] then [] else [Upper(list[0])] + AllUpper(list[1..])
  }

  function Dropping<T(==)>(list: seq<T>, x: T): seq<T> {
    if list == [] then [] else (if list[0] == x then [] else [list[0]]) + Dropping(list[1..], x)
  }

  /** slice(0, Math.max(0, max)). */
  function Capped<T>(list: seq<T>, max: int): seq<T> {
    if max <= 0 then [] else if |list| <= max then list else list[..max]
  }

  function RecordRecent(list: seq<string>, symbol: string, max: int): seq<string> {
    if !IsValidSymbol(Normalized(symbol)) then list
    else Capped([Normalized(symbol)] + Dropping(AllUpper(list), Normalized(symbol)), max)
  }

  /** The list after recording a history of inputs, oldest first, into an empty one. */
  function RecentAfter(history: seq<string>, max: int): seq<string> {
    if history == [] then []
    else RecordRecent(RecentAfter(history[..|history| - 1], max), history[|history| - 1], max)
  }

  /** The symbols a history really names. */
  function Named(history: seq<string>): seq<string> {
    if history == [] then []
    else
      var before, s := Named(history[..|history| - 1]), Normalized(history[|history| - 1]);
      if IsValidSymbol(s) then before + [s] else before
  }

  // ---- most recent first, stated on its own ----

  function LastUse<T(==)>(uses: seq<T>, x: T): int {
    if uses == [] then -1 else if uses[|uses| - 1] == x then |uses| - 1 else LastUse(uses[..|uses| - 1], x)
  }

  ghost predicate Descending<T(!new)>(list: seq<T>, uses: seq<T>) {
    list == [] ||
    ((forall y :: y in list[1..] ==> LastUse(uses, list[0]) > LastUse(uses, y)) && Descending(list[1..], uses))
  }

  /** Each used element once, ordered by its last use, latest first. */
  ghost predicate MostRecentFirst<T(!new)>(list: seq<T>, uses: seq<T>) {
    (forall x :: x in list <==> x in uses) && Descending(list, uses)
  }

  lemma TailMembers<T>(list: seq<T>, x: T)
    requires list != []
    ensures x in list <==> x == list[0] || x in list[1..]
  {
    assert list == [list[0]] + list[1..];
  }

  lemma SomeMember<T>(list: seq<T>)
    ensures list != [] ==> exists x :: x in list
  {
    if list != [] {
      assert list[0] in list;
    }
  }

  /** There is only one such list. */
  lemma {:induction false} MostRecentFirstIsUnique<T(!new)>(a: seq<T>, b: seq<T>, uses: seq<T>)
    requires Descending(a, uses) && Descending(b, uses) && forall x :: x in a <==> x in b
    ensures a == b
  {
    SomeMember(a);
    SomeMember(b);
    if a != [] {
      assert a[0] in a;
      assert b[0] in b;
      TailMembers(a, b[0]);
      TailMembers(b, a[0]);
      forall x ensures x in a[1..] <==> x in b[1..] {
        TailMembers(a, x);
        TailMembers(b, x);
      }
      MostRecentFirstIsUnique(a[1..], b[1..], uses);
      assert a == [a[0]] + a[1..] && b == [b[0]] + b[1..];
    }
  }

  function MoveToFront<T(==)>(uses: seq<T>): seq<T> {
    if uses == [] then []
    else [uses[|uses| - 1]] + Dropping(MoveToFront(uses[..|uses| - 1]), uses[|uses| - 1])
  }

  lemma {:induction false} DroppingMembers<T>(list: seq<T>, x: T, y: T)
    ensures y in Dropping(list, x) <==> y in list && y != x
  {
    if list == [] {
    } else {
      DroppingMembers(list[1..], x, y);
      TailMembers(list, y);
    }
  }

  lemma LaterUse<T>(uses: seq<T>, x: T, y: T)
    ensures LastUse(uses + [x], y) == if y == x then |uses| else LastUse(uses, y)
  {
    assert (uses + [x])[..|uses|] == uses;
  }

  lemma {:induction false} UsedBefore<T>(uses: seq<T>, y: T)
    ensures LastUse(uses, y) < |uses|
  {
    if uses == [] {
    } else {
      UsedBefore(uses[..|uses| - 1], y);
    }
  }

  lemma {:induction false} DroppingDescends<T(!new)>(list: seq<T>, uses: seq<T>, x: T)
    requires Descending(list, uses)
    ensures Descending(Dropping(list, x), uses + [x])
  {
    if list == [] {
    } else {
      DroppingDescends(list[1..], uses, x);
      var rest := Dropping(list[1..], x);
      if list[0] != x {
        assert Dropping(list, x) == [list[0]] + rest && ([list[0]] + rest)[1..] == rest;
        forall y | y in rest ensures LastUse(uses + [x], list[0]) > LastUse(uses + [x], y) {
          DroppingMembers(list[1..], x, y);
          LaterUse(uses, x, list[0]);
          LaterUse(uses, x, y);
        }
      } else {
        assert Dropping(list, x) == rest;
      }
    }
  }

  lemma {:induction false} MoveToFrontOrders<T(!new)>(uses: seq<T>)
    ensures MostRecentFirst(MoveToFront(uses), uses)
  {
    if uses == [] {
    } else {
      var before, x := uses[..|uses| - 1], uses[|uses| - 1];
      MoveToFrontOrders(before);
      assert uses == before + [x];
      var rest := Dropping(MoveToFront(before), x);
      DroppingDescends(MoveToFront(before), before, x);
      assert ([x] + rest)[1..] == rest;
      forall y ensures y in rest <==> y in before && y != x {
        DroppingMembers(MoveToFront(before), x, y);
      }
      forall y | y in rest ensures LastUse(uses, x) > LastUse(uses, y) {
        LaterUse(before, x, x);
        LaterUse(before, x, y);
        UsedBefore(before, y);
      }
    }
  }

  // ---- capping at every step ----

  lemma {:induction false} DroppingAbsent<T>(list: seq<T>, x: T)
    requires x !in list
    ensures Dropping(list, x) == list
  {
    if list == [] {
    } else {
      TailMembers(list, x);
      DroppingAbsent(list[1..], x);
    }
  }

  /** On a list without repeats, cutting before removing an element loses at most the one place it frees. */
  lemma {:induction false} CutThenRemove<T(!new)>(list: seq<T>, uses: seq<T>, x: T, n: nat)
    requires Descending(list, uses)
    ensures Capped(Dropping(Capped(list, n + 1), x), n) == Capped(Dropping(list, x), n)
  {
    if list == [] || n == 0 {
      assert |list| <= n + 1 ==> Capped(list, n + 1) == list;
    } else {
      var tail := list[1..];
      assert Capped(list, n + 1) == [list[0]] + Capped(tail, n);
      assert ([list[0]] + Capped(tail, n))[1..] == Capped(tail, n);
      if list[0] == x {
        assert x !in tail;
        DroppingAbsent(tail, x);
        DroppingAbsent(Capped(tail, n), x);
      } else {
        CutThenRemove(tail, uses, x, n - 1);
        CappedCons(list[0], Dropping(Capped(tail, n), x), n);
        CappedCons(list[0], Dropping(tail, x), n);
      }
    }
  }

  lemma CappedCons<T>(x: T, list: seq<T>, n: int)
    requires n > 0
    ensures Capped([x] + list, n) == [x] + Capped(list, n - 1)
  {
  }

  lemma UpperKeepsValid(s: string)
    requires IsValidSymbol(s)
    ensures Upper(s) == s
  {
    assert forall i :: 0 <= i < |s| ==> IsSymbolChar(s[i]) && Upper(s)[i] == s[i];
  }

  lemma {:induction false} AllUpperKeepsValid(list: seq<string>)
    requires forall s :: s in list ==> IsValidSymbol(s)
    ensures AllUpper(list) == list
  {
    if list == [] {
    } else {
      assert IsValidSymbol(list[0]);
      UpperKeepsValid(list[0]);
      AllUpperKeepsValid(list[1..]);
    }
  }

  lemma {:induction false} NamedAreValid(history: seq<string>)
    ensures forall s :: s in Named(history) ==> IsValidSymbol(s)
  {
    if history == [] {
    } else {
      NamedAreValid(history[..|history| - 1]);
    }
  }

  /** Recording into a cut list is recording into the whole list and cutting then. */
  lemma CutCommutes(all: seq<string>, uses: seq<string>, s: string, max: int)
    requires Descending(all, uses)
    ensures Capped([s] + Dropping(Capped(all, max), s), max) == Capped([s] + Dropping(all, s), max)
  {
    if max > 0 {
      CutThenRemove(all, uses, s, max - 1);
      CappedCons(s, Dropping(Capped(all, max), s), max);
      CappedCons(s, Dropping(all, s), max);
    }
  }

  lemma RecordKeepsForm(uses: seq<string>, s: string, max: int)
    requires forall u :: u in uses ==> IsValidSymbol(u)
    ensures Capped([s] + Dropping(AllUpper(Capped(MoveToFront(uses), max)), s), max) ==
            Capped(MoveToFront(uses + [s]), max)
  {
    var all := MoveToFront(uses);
    MoveToFrontOrders(uses);
    assert forall x :: x in Capped(all, max) ==> x in all;
    AllUpperKeepsValid(Capped(all, max));
    assert (uses + [s])[..|uses|] == uses;
    CutCommutes(all, uses, s, max);
  }

  lemma {:induction false} RecentIsCappedMoveToFront(history: seq<string>, max: int)
    ensures RecentAfter(history, max) == Capped(MoveToFront(Named(history)), max)
  {
    if history == [] {
    } else {
      var before, s := history[..|history| - 1], Normalized(history[|history| - 1]);
      RecentIsCappedMoveToFront(before, max);
      if IsValidSymbol(s) {
        NamedAreValid(before);
        RecordKeepsForm(Named(before), s, max);
      }
    }
  }

  /** After any history the list is the first max of the valid symbols, latest use first. */
  lemma RecentIsLatestDistinct(history: seq<string>, max: int, all: seq<string>)
    requires MostRecentFirst(all, Named(history))
    ensures RecentAfter(history, max) == Capped(all, max)
  {
    RecentIsCappedMoveToFront(history, max);
    MoveToFrontOrders(Named(history));
    MostRecentFirstIsUnique(all, MoveToFront(Named(history)), Named(history));
  }
}
