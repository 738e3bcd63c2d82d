/**
  Footnote numbering of research briefs (lib/research/render-brief-body.ts): every
  [fact:<id>] marker becomes a numbered link and every cited fact one reference item.
  HTML is kept as tokens; markdown and sanitising come after and are left out.
 */
module Citations {
  import opened Ascii
  import opened Options

  type Fact = nat

  /** A literal character or a marker with the identifier as it is written. */
  datatype Token = Literal(c: char) | Marker(raw: string)

  /** What the body holds: a character, or a link to #cite-n that is itself the anchor cite-back-n. */
  datatype Piece = Plain(c: char) | Link(n: nat, factId: string, broken: bool)

  /** An <li id="cite-n">. */
  datatype Item = Item(n: nat, factId: string, fact: Option<Fact>)

  // ---- markers ----

  const OPEN := "[fact:"
  const ID_LENGTH := 36
  const MARKER_LENGTH := 43

  predicate IsIdChar(c: char) {
    '0' <= c <= '9' || 'a' <= c <= 'f' || 'A' <= c <= 'F' || c == '-'
  }

  predicate IsId(s: string) {
    |s| == ID_LENGTH && forall i :: 0 <= i < |s| ==> IsIdChar(s[i])
  }

  predicate StartsWithMarker(s: string) {
    |s| >= MARKER_LENGTH && s[..6] == OPEN && IsId(s[6..42]) && s[42] == ']'
  }

  /** replace with a global pattern: leftmost matches, none overlapping another. */
  function Tokenize(s: string): seq<Token> {
    if s == "" then []
    else if StartsWithMarker(s) then [Marker(s[6..42])] + Tokenize(s[MARKER_LENGTH..])
    else [Literal(s[0])] + Tokenize(s[1..])
  }

  function Spelled(t: Token): string {
    match t
    case Literal(c) => [c]
    case Marker(raw) => OPEN + raw + "]"
  }

  function Detokenize(ts: seq<Token>): string {
    if ts == [] then "" else Spelled(ts[0]) + Detokenize(ts[1..])
  }

  function Raws(ts: seq<Token>): seq<string> {
    if ts == [] then []
    else Raws(ts[..|ts| - 1]) + if ts[|ts| - 1].Marker? then [ts[|ts| - 1].raw] else []
  }

  /** No text is lost or invented. */
  lemma {:induction false} TokenizeKeepsText(s: string)
    ensures Detokenize(Tokenize(s)) == s
  {
    if s == "" {
    } else if StartsWithMarker(s) {
      TokenizeKeepsText(s[MARKER_LENGTH..]);
      assert s == OPEN + s[6..42] + "]" + s[MARKER_LENGTH..];
      assert Tokenize(s)[1..] == Tokenize(s[MARKER_LENGTH..]);
    } else {
      TokenizeKeepsText(s[1..]);
      assert Tokenize(s)[1..] == Tokenize(s[1..]);
    }
  }

  /** The identifiers at every position where a marker starts, overlapping or not. */
  function Occurrences(s: string): seq<string> {
    if s == "" then [] else (if StartsWithMarker(s) then [s[6..42]] else []) + Occurrences(s[1..])
  }

  lemma OneBracket(s: string, k: nat)
    requires StartsWithMarker(s) && k < MARKER_LENGTH
    ensures s[k] == '[' <==> k == 0
  {
    if k < 6 {
      assert s[k] == s[..6][k];
    } else if k < 42 {
      assert s[k] == s[6..42][k - 6];
    }
  }

  lemma NoMarkerInside(s: string, k: nat)
    requires StartsWithMarker(s) && 0 < k < MARKER_LENGTH
    ensures !StartsWithMarker(s[k..])
  {
    OneBracket(s, k);
    if StartsWithMarker(s[k..]) {
      OneBracket(s[k..], 0);
    }
  }

  lemma {:induction false} NoneInside(s: string, k: nat)
    requires StartsWithMarker(s) && 0 < k <= MARKER_LENGTH
    ensures Occurrences(s[k..]) == Occurrences(s[MARKER_LENGTH..])
    decreases MARKER_LENGTH - k
  {
    if k < MARKER_LENGTH {
      NoMarkerInside(s, k);
      assert s[k..][1..] == s[k + 1..];
      NoneInside(s, k + 1);
    }
  }

  lemma {:induction false} RawsCons(t: Token, ts: seq<Token>)
    ensures Raws([t] + ts) == (if t.Marker? then [t.raw] else []) + Raws(ts)
  {
    if ts == [] {
      assert [t] + ts == [t] && [t][..0] == [];
    } else {
      assert ([t] + ts)[..|[t] + ts| - 1] == [t] + ts[..|ts| - 1];
      RawsCons(t, ts[..|ts| - 1]);
    }
  }

  /** Markers cannot overlap, so the left-to-right scan finds every one there is. */
  lemma {:induction false} EveryMarkerIsFound(s: string)
    ensures Raws(Tokenize(s)) == Occurrences(s)
  {
    if s == "" {
    } else if StartsWithMarker(s) {
      EveryMarkerIsFound(s[MARKER_LENGTH..]);
      NoneInside(s, 1);
      RawsCons(Marker(s[6..42]), Tokenize(s[MARKER_LENGTH..]));
    } else {
      EveryMarkerIsFound(s[1..]);
      RawsCons(Literal(s[0]), Tokenize(s[1..]));
    }
  }

  // ---- numbering ----

  function Lowers(raws: seq<string>): (r: seq<string>)
    ensures |r| == |raws|
  {
    seq(|raws|, i requires 0 <= i < |raws| => Lower(raws[i]))
  }

  /** Each cited identifier as first written, in order of first appearance. */
  function FirstCited(raws: seq<string>): seq<string> {
    if raws == [] then []
    else
      var before, raw := FirstCited(raws[..|raws| - 1]), raws[|raws| - 1];
      if Lower(raw) in Lowers(before) then before else before + [raw]
  }

  function IndexOf(xs: seq<string>, x: string): (k: nat)
    ensures x in xs ==> k < |xs| && xs[k] == x && x !in xs[..k]
    ensures x !in xs ==> k == |xs|
  {
    if xs == [] || xs[0] == x then 0 else 1 + IndexOf(xs[1..], x)
  }

  /** One more than the rank of an identifier among the cited ones. */
  function Number(raws: seq<string>, raw: string): nat {
    IndexOf(Lowers(FirstCited(raws)), Lower(raw)) + 1
  }

  function Lookup(facts: map<string, Fact>, raw: string): Option<Fact> {
    if Lower(raw) in facts then Some(facts[Lower(raw)])
    else if raw in facts then Some(facts[raw])
    else None
  }

  function RenderToken(t: Token, raws: seq<string>, facts: map<string, Fact>): Piece {
    match t
    case Literal(c) => Plain(c)
    case Marker(raw) => Link(Number(raws, raw), Lower(raw), Lookup(facts, raw) == None)
  }

  /** Every token by itself, under one fixed numbering. */
  function Rendered(ts: seq<Token>, raws: seq<string>, facts: map<string, Fact>): (ps: seq<Piece>)
    ensures |ps| == |ts|
  {
    seq(|ts|, i requires 0 <= i < |ts| => RenderToken(ts[i], raws, facts))
  }

  function Items(firsts: seq<string>, facts: map<string, Fact>): (items: seq<Item>)
    ensures |items| == |firsts|
  {
    seq(|firsts|, k requires 0 <= k < |firsts| => Item(k + 1, Lower(firsts[k]), Lookup(facts, firsts[k])))
  }

  function References(raws: seq<string>, facts: map<string, Fact>): (items: seq<Item>)
    ensures |items| == |FirstCited(raws)|
  {
    Items(FirstCited(raws), facts)
  }

  lemma FirstCitedGrows(raws: seq<string>, raw: string)
    ensures var before := FirstCited(raws);
            FirstCited(raws + [raw]) == if Lower(raw) in Lowers(before) then before else before + [raw]
  {
    assert (raws + [raw])[..|raws|] == raws;
  }

  lemma {:induction false} Cited(raws: seq<string>)
    ensures forall i :: 0 <= i < |raws| ==> Lower(raws[i]) in Lowers(FirstCited(raws))
  {
    if raws == [] {
    } else {
      var before, raw := raws[..|raws| - 1], raws[|raws| - 1];
      Cited(before);
      assert raws == before + [raw];
      FirstCitedGrows(before, raw);
      var old_, new_ := FirstCited(before), FirstCited(raws);
      LowersGrow(old_, raw);
      forall i | 0 <= i < |raws| ensures Lower(raws[i]) in Lowers(new_) {
        if i < |before| {
          assert Lower(before[i]) in Lowers(old_);
        }
      }
    }
  }

  lemma LowersGrow(xs: seq<string>, x: string)
    ensures Lowers(xs + [x]) == Lowers(xs) + [Lower(x)]
  {
  }

  lemma {:induction false} IndexOfGrows(xs: seq<string>, y: string, x: string)
    requires x in xs
    ensures IndexOf(xs + [y], x) == IndexOf(xs, x)
  {
    if xs[0] != x {
      assert (xs + [y])[1..] == xs[1..] + [y];
      IndexOfGrows(xs[1..], y, x);
    }
  }

  /** A number once given is kept when more of the text is read. */
  lemma NumberIsStable(raws: seq<string>, next: string, raw: string)
    requires Lower(raw) in Lowers(FirstCited(raws))
    ensures Number(raws + [next], raw) == Number(raws, raw)
    ensures Lower(raw) in Lowers(FirstCited(raws + [next]))
  {
    FirstCitedGrows(raws, next);
    LowersGrow(FirstCited(raws), next);
    IndexOfGrows(Lowers(FirstCited(raws)), Lower(next), Lower(raw));
  }

  lemma {:induction false} RenderedIsStable(ts: seq<Token>, next: Token, facts: map<string, Fact>)
    ensures Rendered(ts + [next], Raws(ts + [next]), facts) ==
            Rendered(ts, Raws(ts), facts) + [RenderToken(next, Raws(ts + [next]), facts)]
  {
    assert (ts + [next])[..|ts|] == ts;
    Cited(Raws(ts));
    forall i | 0 <= i < |ts|
      ensures RenderToken(ts[i], Raws(ts + [next]), facts) == RenderToken(ts[i], Raws(ts), facts)
    {
      if ts[i].Marker? {
        RawsContain(ts, i);
        if next.Marker? {
          NumberIsStable(Raws(ts), next.raw, ts[i].raw);
        } else {
          assert Raws(ts) + [] == Raws(ts);
        }
      }
    }
  }

  lemma {:induction false} RawsContain(ts: seq<Token>, i: nat)
    requires i < |ts| && ts[i].Marker?
    ensures ts[i].raw in Raws(ts)
  {
    if i < |ts| - 1 {
      RawsContain(ts[..|ts| - 1], i);
    }
  }

  // ---- pass one, step by step ----

  ghost predicate NumbersMatch(numbers: map<string, nat>, entries: seq<Item>) {
    && (forall k :: 0 <= k < |entries| ==> entries[k].factId in numbers && numbers[entries[k].factId] == k + 1)
    && (forall id :: id in numbers ==> 1 <= numbers[id] <= |entries| && entries[numbers[id] - 1].factId == id)
  }

  lemma ItemsAppend(firsts: seq<string>, raw: string, facts: map<string, Fact>)
    ensures Items(firsts + [raw], facts) == Items(firsts, facts) + [Item(|firsts| + 1, Lower(raw), Lookup(facts, raw))]
  {
    var all := firsts + [raw];
    assert forall k :: 0 <= k < |firsts| ==> Items(all, facts)[k] == Items(firsts, facts)[k];
  }

  lemma EntriesFollow(raws: seq<string>, raw: string, facts: map<string, Fact>)
    ensures Lower(raw) in Lowers(FirstCited(raws)) ==> References(raws + [raw], facts) == References(raws, facts)
    ensures Lower(raw) !in Lowers(FirstCited(raws)) ==>
              References(raws + [raw], facts) ==
              References(raws, facts) + [Item(|FirstCited(raws)| + 1, Lower(raw), Lookup(facts, raw))]
  {
    FirstCitedGrows(raws, raw);
    if Lower(raw) !in Lowers(FirstCited(raws)) {
      ItemsAppend(FirstCited(raws), raw, facts);
    }
  }

  lemma NumberFound(raws: seq<string>, raw: string, facts: map<string, Fact>, numbers: map<string, nat>)
    requires NumbersMatch(numbers, References(raws, facts))
    ensures Lower(raw) in numbers <==> Lower(raw) in Lowers(FirstCited(raws))
    ensures Lower(raw) in numbers ==> numbers[Lower(raw)] == Number(raws + [raw], raw)
    ensures Lower(raw) !in numbers ==> Number(raws + [raw], raw) == |References(raws, facts)| + 1
  {
    var firsts := FirstCited(raws);
    var ids, entries := Lowers(firsts), References(raws, facts);
    assert forall k :: 0 <= k < |entries| ==> entries[k].factId == ids[k];
    FirstCitedGrows(raws, raw);
    if Lower(raw) in ids {
      var k := IndexOf(ids, Lower(raw));
      assert entries[k].factId in numbers;
    } else {
      LowersGrow(firsts, raw);
      IndexOfLast(ids, Lower(raw));
    }
  }

  lemma {:induction false} IndexOfLast(xs: seq<string>, x: string)
    requires x !in xs
    ensures IndexOf(xs + [x], x) == |xs|
  {
    if xs == [] {
    } else {
      assert (xs + [x])[1..] == xs[1..] + [x];
      IndexOfLast(xs[1..], x);
    }
  }

  lemma LiteralStep(done: seq<Token>, c: char, facts: map<string, Fact>)
    ensures var next := done + [Literal(c)];
            && Rendered(next, Raws(next), facts) == Rendered(done, Raws(done), facts) + [Plain(c)]
            && References(Raws(next), facts) == References(Raws(done), facts)
  {
    var next := done + [Literal(c)];
    assert next[..|done|] == done && Raws(done) + [] == Raws(done);
    RenderedIsStable(done, Literal(c), facts);
  }

  lemma MarkerStep(done: seq<Token>, raw: string, facts: map<string, Fact>)
    ensures var next := done + [Marker(raw)];
            && Raws(next) == Raws(done) + [raw]
            && Rendered(next, Raws(next), facts) ==
               Rendered(done, Raws(done), facts)
               + [Link(Number(Raws(done) + [raw], raw), Lower(raw), Lookup(facts, raw) == None)]
  {
    var next := done + [Marker(raw)];
    assert next[..|done|] == done;
    RenderedIsStable(done, Marker(raw), facts);
  }

  lemma MatchGrows(numbers: map<string, nat>, entries: seq<Item>, id: string, fact: Option<Fact>)
    requires NumbersMatch(numbers, entries) && id !in numbers
    ensures NumbersMatch(numbers[id := |entries| + 1], entries + [Item(|entries| + 1, id, fact)])
  {
  }

  /** What the replace callback does with one marker, after the ones in cited. */
  method NumberMarker(rawFactId: string, facts: map<string, Fact>, entries: seq<Item>,
                      factIdToNumber: map<string, nat>, ghost cited: seq<string>)
    returns (n: nat, entries': seq<Item>, factIdToNumber': map<string, nat>)
    requires entries == References(cited, facts) && NumbersMatch(factIdToNumber, entries)
    ensures n == Number(cited + [rawFactId], rawFactId)
    ensures entries' == References(cited + [rawFactId], facts) && NumbersMatch(factIdToNumber', entries')
  {
    var factId := Lower(rawFactId);
    NumberFound(cited, rawFactId, facts, factIdToNumber);
    EntriesFollow(cited, rawFactId, facts);
    entries', factIdToNumber' := entries, factIdToNumber;
    if factId in factIdToNumber {
      n := factIdToNumber[factId];
    } else {
      n := |entries| + 1;
      MatchGrows(factIdToNumber, entries, factId, Lookup(facts, rawFactId));
      factIdToNumber' := factIdToNumber[factId := n];
      entries' := entries + [Item(n, factId, Lookup(facts, rawFactId))];
    }
  }

  /** The scan at a position yields one token and goes on behind it. */
  lemma TokenAt(text: string, pos: nat)
    requires pos < |text|
    ensures var rest := text[pos..];
            Tokenize(rest) ==
            if StartsWithMarker(rest) then [Marker(rest[6..42])] + Tokenize(text[pos + MARKER_LENGTH..])
            else [Literal(rest[0])] + Tokenize(text[pos + 1..])
  {
    var rest := text[pos..];
    if StartsWithMarker(rest) {
      assert rest[MARKER_LENGTH..] == text[pos + MARKER_LENGTH..];
    } else {
      assert rest[1..] == text[pos + 1..];
    }
  }

  lemma Regrouped(done: seq<Token>, t: Token, rest: seq<Token>)
    ensures done + ([t] + rest) == done + [t] + rest
  {
  }

  /** The replace callback over the text from left to right, with its entry list and number map. */
  method RenderBriefBody(text: string, facts: map<string, Fact>) returns (body: seq<Piece>, references: seq<Item>)
    ensures body == Rendered(Tokenize(text), Occurrences(text), facts)
    ensures references == References(Occurrences(text), facts)
  {
    EveryMarkerIsFound(text);
    if text == "" {
      return [], [];
    }
    var entries: seq<Item> := [];
    var factIdToNumber: map<string, nat> := map[];
    ghost var done: seq<Token> := [];
    body := [];
    var pos := 0;
    while pos < |text|
      invariant 0 <= pos <= |text| && Tokenize(text) == done + Tokenize(text[pos..])
      invariant body == Rendered(done, Raws(done), facts)
      invariant entries == References(Raws(done), facts) && NumbersMatch(factIdToNumber, entries)
    {
      var rest := text[pos..];
      TokenAt(text, pos);
      if StartsWithMarker(rest) {
        var rawFactId := rest[6..42];
        MarkerStep(done, rawFactId, facts);
        var n;
        n, entries, factIdToNumber := NumberMarker(rawFactId, facts, entries, factIdToNumber, Raws(done));
        body := body + [Link(n, Lower(rawFactId), Lookup(facts, rawFactId) == None)];
        Regrouped(done, Marker(rawFactId), Tokenize(text[pos + MARKER_LENGTH..]));
        done := done + [Marker(rawFactId)];
        pos := pos + MARKER_LENGTH;
      } else {
        LiteralStep(done, rest[0], facts);
        body := body + [Plain(rest[0])];
        Regrouped(done, Literal(rest[0]), Tokenize(text[pos + 1..]));
        done := done + [Literal(rest[0])];
        pos := pos + 1;
      }
    }
    references := entries;
    assert done + [] == done;
  }
}
