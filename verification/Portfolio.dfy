/**
  The computed columns of an open position (api/routes/portfolio.py): business days held,
  the fill-weighted entry price and the mark-to-market profit. Dates are proleptic Gregorian
  ordinals, day 1 being a Monday; prices and quantities are exact.
 */
module Portfolio {
  import opened Options

  // ---- business days held ----

  /** date.weekday(): Monday is 0, Sunday is 6. */
  function Weekday(date: int): nat {
    (date + 6) % 7
  }

  predicate IsBusinessDay(date: int) {
    Weekday(date) < 5
  }

  /** The Monday-to-Friday dates from first to last, both included. */
  function BusinessDates(first: int, last: int): set<int> {
    set d | first <= d <= last && IsBusinessDay(d)
  }

  function DayCount(first: int, last: int): nat
    decreases last - first
  {
    if last < first then 0 else DayCount(first, last - 1) + if IsBusinessDay(last) then 1 else 0
  }

  lemma {:induction false} CountsBusinessDates(first: int, last: int)
    ensures DayCount(first, last) == |BusinessDates(first, last)|
    decreases last - first
  {
    if last >= first {
      CountsBusinessDates(first, last - 1);
      var before := BusinessDates(first, last - 1);
      assert BusinessDates(first, last) == if IsBusinessDay(last) then before + {last} else before;
    } else {
      assert BusinessDates(first, last) == {};
    }
  }

  function One(date: int): nat {
    if IsBusinessDay(date) then 1 else 0
  }

  lemma WeekdayShifts(date: int, offset: nat)
    ensures Weekday(date + offset) == (Weekday(date) + offset) % 7
  {
  }

  lemma SevenDays(d: int)
    ensures One(d) + One(d + 1) + One(d + 2) + One(d + 3) + One(d + 4) + One(d + 5) + One(d + 6) == 5
  {
    WeekdayShifts(d, 1);
    WeekdayShifts(d, 2);
    WeekdayShifts(d, 3);
    WeekdayShifts(d, 4);
    WeekdayShifts(d, 5);
    WeekdayShifts(d, 6);
  }

  lemma DayMore(first: int, last: int)
    requires first <= last
    ensures DayCount(first, last) == DayCount(first, last - 1) + One(last)
  {
  }

  /** A week more is always five business days more. */
  lemma WeekAddsFive(first: int, last: int)
    requires first - 1 <= last
    ensures DayCount(first, last + 7) == DayCount(first, last) + 5
  {
    DayMore(first, last + 1);
    DayMore(first, last + 2);
    DayMore(first, last + 3);
    DayMore(first, last + 4);
    DayMore(first, last + 5);
    DayMore(first, last + 6);
    DayMore(first, last + 7);
    SevenDays(last + 1);
  }

  lemma {:induction false} WeeksAddFives(first: int, last: int, weeks: nat)
    requires first - 1 <= last
    ensures DayCount(first, last + 7 * weeks) == DayCount(first, last) + 5 * weeks
  {
    if weeks == 0 {
    } else {
      WeeksAddFives(first, last, weeks - 1);
      WeekAddsFive(first, last + 7 * (weeks - 1));
    }
  }

  /** Whole weeks in closed form, then the leftover days, read off the front of the range. */
  method HeldBusinessDays(start: int, today: int) returns (weekdays: nat)
    ensures weekdays == |BusinessDates(start, today)|
  {
    CountsBusinessDates(start, today);
    if today < start {
      return 0;
    }
    var totalDays := today - start + 1;
    var fullWeeks, extra := totalDays / 7, totalDays % 7;
    weekdays := fullWeeks * 5;
    var startWd := Weekday(start);
    for offset := 0 to extra
      invariant weekdays == fullWeeks * 5 + DayCount(start, start + offset - 1)
    {
      WeekdayShifts(start, offset);
      DayMore(start, start + offset);
      if (startWd + offset) % 7 < 5 {
        weekdays := weekdays + 1;
      }
    }
    WeeksAddFives(start, start + extra - 1, fullWeeks);
    assert today == start + extra - 1 + 7 * fullWeeks;
  }

  /** Adjacent ranges add up, so the count only grows with the end date, by at most one a day. */
  lemma AdjacentRangesAdd(first: int, middle: int, last: int)
    requires first - 1 <= middle <= last
    ensures |BusinessDates(first, last)| == |BusinessDates(first, middle)| + |BusinessDates(middle + 1, last)|
    ensures |BusinessDates(first, middle)| <= |BusinessDates(first, last)|
    ensures |BusinessDates(first, last)| <= |BusinessDates(first, middle)| + last - middle
  {
    var a, b := BusinessDates(first, middle), BusinessDates(middle + 1, last);
    assert BusinessDates(first, last) == a + b && a !! b;
    CountsBusinessDates(middle + 1, last);
    AtMostDays(middle + 1, last);
  }

  lemma {:induction false} AtMostDays(first: int, last: int)
    requires first - 1 <= last
    ensures DayCount(first, last) <= last - first + 1
    decreases last - first
  {
    if first <= last {
      AtMostDays(first, last - 1);
    }
  }

  // ---- the fill-weighted entry price ----

  datatype Fill = Fill(quantity: real, price: real)

  function TotalQuantity(fills: seq<Fill>): real {
    if fills == [] then 0.0 else TotalQuantity(fills[..|fills| - 1]) + fills[|fills| - 1].quantity
  }

  function Cost(f: Fill): real {
    f.quantity * f.price
  }

  function WeightedSum(fills: seq<Fill>): real {
    if fills == [] then 0.0 else WeightedSum(fills[..|fills| - 1]) + Cost(fills[|fills| - 1])
  }

  function AvgEntry(fills: seq<Fill>): Option<real> {
    if TotalQuantity(fills) == 0.0 then None else Some(WeightedSum(fills) / TotalQuantity(fills))
  }

  method ComputeAvgEntryPrice(fills: seq<Fill>) returns (avg: Option<real>)
    ensures avg == AvgEntry(fills)
  {
    if fills == [] {
      return None;
    }
    var totalQty, weightedSum := 0.0, 0.0;
    for i := 0 to |fills|
      invariant totalQty == TotalQuantity(fills[..i]) && weightedSum == WeightedSum(fills[..i])
    {
      assert fills[..i + 1][..i] == fills[..i];
      var qty, price := fills[i].quantity, fills[i].price;
      totalQty := totalQty + qty;
      weightedSum := weightedSum + qty * price;
    }
    assert fills[..|fills|] == fills;
    if totalQty == 0.0 {
      return None;
    }
    return Some(weightedSum / totalQty);
  }

  ghost predicate Priced(fills: seq<Fill>, low: real, high: real) {
    forall i :: 0 <= i < |fills| ==> fills[i].quantity > 0.0 && low <= fills[i].price <= high
  }

  lemma Weighs(total: real, sum: real, q: real, p: real, low: real, high: real)
    requires q > 0.0 && low <= p <= high && low * total <= sum <= high * total
    ensures low * (total + q) <= sum + q * p <= high * (total + q)
  {
    assert q * (p - low) >= 0.0 && q * (high - p) >= 0.0;
  }

  lemma {:induction false} SumBetween(fills: seq<Fill>, low: real, high: real)
    requires Priced(fills, low, high)
    ensures TotalQuantity(fills) >= 0.0 && (fills != [] ==> TotalQuantity(fills) > 0.0)
    ensures low * TotalQuantity(fills) <= WeightedSum(fills) <= high * TotalQuantity(fills)
  {
    if fills == [] {
    } else {
      var rest, f := fills[..|fills| - 1], fills[|fills| - 1];
      SumBetween(rest, low, high);
      Weighs(TotalQuantity(rest), WeightedSum(rest), f.quantity, f.price, low, high);
    }
  }

  lemma QuotientBetween(w: real, q: real, low: real, high: real)
    requires q > 0.0 && low * q <= w <= high * q
    ensures low <= w / q <= high
  {
    var a := w / q;
    assert a * q == w;
    assert a < low ==> a * q < low * q;
    assert a > high ==> a * q > high * q;
  }

  /** With positive quantities there is an average as soon as there is a fill, and it lies among the fill prices. */
  lemma AverageIsAmongPrices(fills: seq<Fill>, low: real, high: real)
    requires Priced(fills, low, high)
    ensures AvgEntry(fills) == None <==> fills == []
    ensures fills != [] ==> low <= AvgEntry(fills).value <= high
  {
    SumBetween(fills, low, high);
    if fills != [] {
      QuotientBetween(WeightedSum(fills), TotalQuantity(fills), low, high);
    }
  }

  lemma {:induction false} SumsConcatenate(a: seq<Fill>, b: seq<Fill>)
    ensures TotalQuantity(a + b) == TotalQuantity(a) + TotalQuantity(b)
    ensures WeightedSum(a + b) == WeightedSum(a) + WeightedSum(b)
  {
    if b == [] {
      assert a + b == a;
    } else {
      assert (a + b)[..|a + b| - 1] == a + b[..|b| - 1];
      SumsConcatenate(a, b[..|b| - 1]);
    }
  }

  lemma Single(f: Fill)
    ensures TotalQuantity([f]) == f.quantity && WeightedSum([f]) == Cost(f)
  {
    assert [f][..0] == [];
  }

  lemma SumsInsert(left: seq<Fill>, f: Fill, right: seq<Fill>)
    ensures TotalQuantity(left + [f] + right) == TotalQuantity(left + right) + f.quantity
    ensures WeightedSum(left + [f] + right) == WeightedSum(left + right) + Cost(f)
  {
    SumsConcatenate(left + [f], right);
    SumsConcatenate(left, [f]);
    SumsConcatenate(left, right);
    Single(f);
  }

  lemma Removed(s: seq<Fill>, i: nat)
    requires i < |s|
    ensures multiset(s[..i] + s[i + 1..]) == multiset(s) - multiset{s[i]}
    ensures s == s[..i] + [s[i]] + s[i + 1..]
  {
    assert s == s[..i] + [s[i]] + s[i + 1..];
  }

  lemma RemovedLast(s: seq<Fill>)
    requires s != []
    ensures multiset(s[..|s| - 1]) == multiset(s) - multiset{s[|s| - 1]}
  {
    assert s == s[..|s| - 1] + [s[|s| - 1]];
  }

  lemma Occurs(f: Fill, a: seq<Fill>, b: seq<Fill>) returns (i: nat)
    requires f in a && multiset(a) == multiset(b)
    ensures i < |b| && b[i] == f
  {
    assert f in multiset(a);
    i :| i < |b| && b[i] == f;
  }

  lemma {:induction false} SumsIgnoreOrder(a: seq<Fill>, b: seq<Fill>)
    requires multiset(a) == multiset(b)
    ensures TotalQuantity(a) == TotalQuantity(b) && WeightedSum(a) == WeightedSum(b)
  {
    if a == [] {
      assert |multiset(b)| == 0;
    } else {
      var f := a[|a| - 1];
      var i := Occurs(f, a, b);
      Removed(b, i);
      RemovedLast(a);
      SumsIgnoreOrder(a[..|a| - 1], b[..i] + b[i + 1..]);
      SumsInsert(b[..i], f, b[i + 1..]);
    }
  }

  lemma SplitCosts(f: Fill, part: real)
    ensures Cost(Fill(part, f.price)) + Cost(Fill(f.quantity - part, f.price)) == Cost(f)
  {
  }

  lemma SumsSplit(before: seq<Fill>, after: seq<Fill>, f: Fill, part: real)
    ensures var split := before + [Fill(part, f.price)] + ([Fill(f.quantity - part, f.price)] + after);
            && TotalQuantity(split) == TotalQuantity(before + [f] + after)
            && WeightedSum(split) == WeightedSum(before + [f] + after)
  {
    var p, q := Fill(part, f.price), Fill(f.quantity - part, f.price);
    SumsInsert(before, p, [q] + after);
    assert before + ([q] + after) == before + [q] + after;
    SumsInsert(before, q, after);
    SumsInsert(before, f, after);
    SplitCosts(f, part);
  }

  /** Neither the order of the fills nor splitting one at its price changes the average. */
  lemma AverageIgnoresOrderAndSplits(before: seq<Fill>, after: seq<Fill>, f: Fill, part: real, fills: seq<Fill>)
    requires multiset(fills) == multiset(before + [Fill(part, f.price)] + ([Fill(f.quantity - part, f.price)] + after))
    ensures AvgEntry(fills) == AvgEntry(before + [f] + after)
  {
    SumsIgnoreOrder(fills, before + [Fill(part, f.price)] + ([Fill(f.quantity - part, f.price)] + after));
    SumsSplit(before, after, f, part);
  }

  // ---- unrealized profit ----

  function UnrealizedPnl(side: string, quantity: real, avgEntry: Option<real>, lastPrice: Option<real>): Option<real> {
    if avgEntry == None || lastPrice == None then None
    else
      var delta := if side == "buy" then lastPrice.value - avgEntry.value else avgEntry.value - lastPrice.value;
      Some(delta * quantity)
  }

  /** What each fill by itself has made at the last price, added up. */
  function FillPnl(side: string, fills: seq<Fill>, last: real): real {
    if fills == [] then 0.0
    else
      var f := fills[|fills| - 1];
      FillPnl(side, fills[..|fills| - 1], last) + f.quantity * if side == "buy" then last - f.price else f.price - last
  }

  lemma {:induction false} FillPnlInTotals(side: string, fills: seq<Fill>, last: real)
    ensures FillPnl(side, fills, last) ==
            if side == "buy" then last * TotalQuantity(fills) - WeightedSum(fills)
            else WeightedSum(fills) - last * TotalQuantity(fills)
  {
    if fills == [] {
    } else {
      var rest, f := fills[..|fills| - 1], fills[|fills| - 1];
      FillPnlInTotals(side, rest, last);
      assert last * (TotalQuantity(rest) + f.quantity) == last * TotalQuantity(rest) + last * f.quantity;
      assert f.quantity * (last - f.price) == last * f.quantity - f.quantity * f.price;
    }
  }

  lemma NoFactor(x: real, y: real)
    ensures x * y == 0.0 <==> x == 0.0 || y == 0.0
  {
  }

  /** The profit shown is the sum of the fills' profits exactly when the trade holds what was filled, or is flat. */
  lemma PnlIsSumOfFills(side: string, quantity: real, fills: seq<Fill>, last: real)
    requires TotalQuantity(fills) != 0.0
    ensures UnrealizedPnl(side, quantity, AvgEntry(fills), Some(last)) == Some(FillPnl(side, fills, last)) <==>
            quantity == TotalQuantity(fills) || last == AvgEntry(fills).value
  {
    var total, avg := TotalQuantity(fills), AvgEntry(fills).value;
    FillPnlInTotals(side, fills, last);
    assert avg * total == WeightedSum(fills);
    NoFactor(last - avg, quantity - total);
    assert (last - avg) * (quantity - total) == (last - avg) * quantity - (last * total - avg * total);
    assert (avg - last) * quantity == -((last - avg) * quantity);
  }

  /** A short gains exactly what the same long loses. */
  lemma ShortMirrorsLong(side: string, quantity: real, avgEntry: real, last: real)
    requires side != "buy"
    ensures UnrealizedPnl(side, quantity, Some(avgEntry), Some(last)).value ==
            -UnrealizedPnl("buy", quantity, Some(avgEntry), Some(last)).value
  {
    assert (avgEntry - last) * quantity == -((last - avgEntry) * quantity);
  }
}
