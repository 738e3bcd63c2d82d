/**
  What the numbering of Citations amounts to, for every text: ranks of first appearance,
  links and reference items in step, the text kept, and when the anchors are well formed.
 */
module CitationTheorems {
  import opened Ascii
  import opened Options
  import opened Citations
  import opened Sequences

  function Body(text: string, facts: map<string, Fact>): (ps: seq<Piece>) {
    Rendered(Tokenize(text), Occurrences(text), facts)
  }

  function Refs(text: string, facts: map<string, Fact>): seq<Item> {
    References(Occurrences(text), facts)
  }

  // ---- ranks of first appearance ----

  function Elements(xs: seq<string>): set<string> {
    set x | x in xs
  }

  lemma LowersPrefix(raws: seq<string>, k: nat)
    requires k <= |raws|
    ensures Lowers(raws)[..k] == Lowers(raws[..k])
  {
  }

  lemma {:induction false} FirstCitedIsDistinct(raws: seq<string>)
    ensures NoRepeats(Lowers(FirstCited(raws)))
    ensures Elements(Lowers(FirstCited(raws))) == Elements(Lowers(raws))
    ensures |FirstCited(raws)| == |Elements(Lowers(raws))|
  {
    if raws == [] {
      assert Elements(Lowers(raws)) == {};
    } else {
      var before, raw := raws[..|raws| - 1], raws[|raws| - 1];
      FirstCitedIsDistinct(before);
      LowersGrow(FirstCited(before), raw);
      LowersGrow(before, raw);
      assert raws == before + [raw];
      assert Elements(Lowers(raws)) == Elements(Lowers(before)) + {Lower(raw)};
      if Lower(raw) !in Lowers(FirstCited(before)) {
        assert Elements(Lowers(before) + [Lower(raw)]) == Elements(Lowers(before)) + {Lower(raw)};
        var firsts := Lowers(FirstCited(before));
        assert Elements(firsts + [Lower(raw)]) == Elements(firsts) + {Lower(raw)};
        assert Lower(raw) !in Elements(Lowers(before));
      }
    }
  }

  lemma {:induction false} NumberOfPrefix(raws: seq<string>, raw: string, k: nat)
    requires k <= |raws| && Lower(raw) in Lowers(raws[..k])
    ensures Number(raws, raw) == Number(raws[..k], raw)
    decreases |raws|
  {
    if k < |raws| {
      var before := raws[..|raws| - 1];
      assert before[..k] == raws[..k] && raws == before + [raws[|raws| - 1]];
      NumberOfPrefix(before, raw, k);
      FirstCitedIsDistinct(before);
      LowersPrefix(before, k);
      assert Lower(raw) in Elements(Lowers(before));
      NumberIsStable(before, raws[|raws| - 1], raw);
    } else {
      assert raws[..k] == raws;
    }
  }

  /** A marker's number is one more than the count of different identifiers before its first appearance. */
  lemma NumberIsRank(raws: seq<string>, i: nat)
    requires i < |raws|
    ensures var ids := Lowers(raws); Number(raws, raws[i]) == |Elements(ids[..IndexOf(ids, ids[i])])| + 1
  {
    var ids := Lowers(raws);
    var first := IndexOf(ids, ids[i]);
    var before := raws[..first];
    LowersPrefix(raws, first);
    LowersPrefix(raws, first + 1);
    assert ids[..first + 1][first] == ids[i];
    NumberOfPrefix(raws, raws[i], first + 1);
    assert raws[..first + 1] == before + [raws[first]];
    FirstCitedIsDistinct(before);
    assert ids[i] !in Elements(ids[..first]);
    FirstCitedGrows(before, raws[first]);
    LowersGrow(FirstCited(before), raws[first]);
    IndexOfLast(Lowers(FirstCited(before)), ids[i]);
  }

  // ---- links and items ----

  /** The link at k points to the one item of its fact. */
  ghost predicate PointsToItem(body: seq<Piece>, refs: seq<Item>, k: nat)
    requires k < |body|
  {
    body[k].Link? ==> 1 <= body[k].n <= |refs| && refs[body[k].n - 1].factId == body[k].factId
  }

  ghost predicate IsLinked(body: seq<Piece>, n: nat) {
    exists k :: 0 <= k < |body| && body[k].Link? && body[k].n == n
  }

  ghost predicate NumberedAndLinked(body: seq<Piece>, refs: seq<Item>, j: nat)
    requires j < |refs|
  {
    refs[j].n == j + 1 && IsLinked(body, j + 1)
  }

  lemma LinkAt(text: string, facts: map<string, Fact>, k: nat)
    requires k < |Tokenize(text)| && Tokenize(text)[k].Marker?
    ensures Lower(Tokenize(text)[k].raw) in Lowers(FirstCited(Occurrences(text)))
    ensures PointsToItem(Body(text, facts), Refs(text, facts), k)
  {
    EveryMarkerIsFound(text);
    RawsContain(Tokenize(text), k);
    Cited(Occurrences(text));
  }

  lemma {:induction false} RawsComeFrom(ts: seq<Token>, raw: string) returns (k: nat)
    requires raw in Raws(ts)
    ensures k < |ts| && ts[k] == Marker(raw)
  {
    if ts[|ts| - 1] == Marker(raw) {
      k := |ts| - 1;
    } else {
      k := RawsComeFrom(ts[..|ts| - 1], raw);
    }
  }

  lemma {:induction false} FirstCitedComesFrom(raws: seq<string>, k: nat)
    requires k < |FirstCited(raws)|
    ensures FirstCited(raws)[k] in raws
  {
    var before := raws[..|raws| - 1];
    if k < |FirstCited(before)| {
      FirstCitedComesFrom(before, k);
    }
  }

  lemma {:induction false} IndexOfDistinct(xs: seq<string>, k: nat)
    requires k < |xs| && NoRepeats(xs)
    ensures IndexOf(xs, xs[k]) == k
  {
  }

  lemma ItemIsLinked(text: string, facts: map<string, Fact>, j: nat)
    requires j < |Refs(text, facts)|
    ensures IsLinked(Body(text, facts), j + 1)
  {
    var raws := Occurrences(text);
    var raw := FirstCited(raws)[j];
    EveryMarkerIsFound(text);
    FirstCitedComesFrom(raws, j);
    var k := RawsComeFrom(Tokenize(text), raw);
    FirstCitedIsDistinct(raws);
    IndexOfDistinct(Lowers(FirstCited(raws)), j);
    assert Body(text, facts)[k].n == j + 1;
  }

  /** The items are numbered 1 to n, one per cited fact; every link has its item and every item a link. */
  lemma LinksMatchItems(text: string, facts: map<string, Fact>)
    ensures forall k :: 0 <= k < |Body(text, facts)| ==> PointsToItem(Body(text, facts), Refs(text, facts), k)
    ensures forall j :: 0 <= j < |Refs(text, facts)| ==> NumberedAndLinked(Body(text, facts), Refs(text, facts), j)
    ensures |Refs(text, facts)| == |Elements(Lowers(Occurrences(text)))|
  {
    forall k | 0 <= k < |Body(text, facts)| ensures PointsToItem(Body(text, facts), Refs(text, facts), k) {
      if Tokenize(text)[k].Marker? {
        LinkAt(text, facts, k);
      }
    }
    forall j | 0 <= j < |Refs(text, facts)| ensures NumberedAndLinked(Body(text, facts), Refs(text, facts), j) {
      ItemIsLinked(text, facts, j);
    }
    FirstCitedIsDistinct(Occurrences(text));
  }

  // ---- back anchors ----

  /** No two elements of the body have the same id="cite-back-n". */
  ghost predicate AnchorsUnique(body: seq<Piece>) {
    forall j, k :: 0 <= j < k < |body| && body[j].Link? && body[k].Link? ==> body[j].n != body[k].n
  }

  ghost predicate CitedOnce(ts: seq<Token>) {
    forall j, k :: 0 <= j < k < |ts| && ts[j].Marker? && ts[k].Marker? ==> Lower(ts[j].raw) != Lower(ts[k].raw)
  }

  /** A reference's "back" link has one target exactly in the texts that cite no fact twice. */
  lemma AnchorsUniqueExactly(text: string, facts: map<string, Fact>)
    ensures AnchorsUnique(Body(text, facts)) <==> CitedOnce(Tokenize(text))
  {
    var ts, body := Tokenize(text), Body(text, facts);
    forall j, k | 0 <= j < k < |ts| && ts[j].Marker? && ts[k].Marker?
      ensures body[j].n == body[k].n <==> Lower(ts[j].raw) == Lower(ts[k].raw)
    {
      LinkAt(text, facts, j);
      LinkAt(text, facts, k);
    }
    forall k | 0 <= k < |ts| ensures body[k].Link? <==> ts[k].Marker? {
    }
  }

  // ---- the text between markers ----

  function Unrendered(body: seq<Piece>): string {
    if body == [] then ""
    else (match body[0] case Plain(c) => [c] case Link(_, id, _) => OPEN + id + "]") + Unrendered(body[1..])
  }

  lemma LowerConcat(a: string, b: string)
    ensures Lower(a + b) == Lower(a) + Lower(b)
  {
  }

  lemma LowerTwice(s: string)
    ensures Lower(Lower(s)) == Lower(s)
  {
  }

  lemma LowerMarker(raw: string)
    ensures Lower(OPEN + Lower(raw) + "]") == Lower(OPEN + raw + "]")
  {
    LowerTwice(raw);
    LowerConcat(OPEN + Lower(raw), "]");
    LowerConcat(OPEN, Lower(raw));
    LowerConcat(OPEN + raw, "]");
    LowerConcat(OPEN, raw);
  }

  lemma {:induction false} UnrenderedIsDetokenized(ts: seq<Token>, raws: seq<string>, facts: map<string, Fact>)
    ensures Lower(Unrendered(Rendered(ts, raws, facts))) == Lower(Detokenize(ts))
  {
    if ts == [] {
    } else {
      UnrenderedIsDetokenized(ts[1..], raws, facts);
      var body := Rendered(ts, raws, facts);
      assert body[1..] == Rendered(ts[1..], raws, facts);
      var head := match body[0] case Plain(c) => [c] case Link(_, id, _) => OPEN + id + "]";
      LowerConcat(head, Unrendered(body[1..]));
      LowerConcat(Spelled(ts[0]), Detokenize(ts[1..]));
      if ts[0].Marker? {
        LowerMarker(ts[0].raw);
      }
    }
  }

  /** Writing the links back as markers gives the text again, up to the case of its letters. */
  lemma TextIsKept(text: string, facts: map<string, Fact>)
    ensures Lower(Unrendered(Body(text, facts))) == Lower(text)
  {
    UnrenderedIsDetokenized(Tokenize(text), Occurrences(text), facts);
    TokenizeKeepsText(text);
  }

  // ---- broken links ----

  /** A link is marked broken exactly when its reference item is. */
  ghost predicate BrokenAgree(text: string, facts: map<string, Fact>) {
    forall k :: 0 <= k < |Body(text, facts)| && Body(text, facts)[k].Link? ==>
      1 <= Body(text, facts)[k].n <= |Refs(text, facts)| &&
      (Body(text, facts)[k].broken <==> Refs(text, facts)[Body(text, facts)[k].n - 1].fact == None)
  }

  lemma {:induction false} OccurrencesAreIds(text: string)
    ensures forall raw :: raw in Occurrences(text) ==> IsId(raw)
  {
    if text == "" {
    } else {
      OccurrencesAreIds(text[1..]);
    }
  }

  ghost predicate LowerKeyed(facts: map<string, Fact>) {
    forall raw :: raw in facts && IsId(raw) ==> Lower(raw) in facts
  }

  lemma LookupIgnoresCase(facts: map<string, Fact>, a: string, b: string)
    requires LowerKeyed(facts) && IsId(a) && IsId(b) && Lower(a) == Lower(b)
    ensures Lookup(facts, a) == Lookup(facts, b)
  {
  }

  lemma ItemFound(text: string, facts: map<string, Fact>, k: nat)
    requires LowerKeyed(facts) && k < |Tokenize(text)| && Tokenize(text)[k].Marker?
    ensures var n := Number(Occurrences(text), Tokenize(text)[k].raw);
            1 <= n <= |Refs(text, facts)| && Refs(text, facts)[n - 1].fact == Lookup(facts, Tokenize(text)[k].raw)
  {
    var ts, raws := Tokenize(text), Occurrences(text);
    LinkAt(text, facts, k);
    OccurrencesAreIds(text);
    EveryMarkerIsFound(text);
    RawsContain(ts, k);
    var n := Number(raws, ts[k].raw);
    FirstCitedComesFrom(raws, n - 1);
    LookupIgnoresCase(facts, FirstCited(raws)[n - 1], ts[k].raw);
  }

  lemma LowerKeyedAgrees(text: string, facts: map<string, Fact>)
    requires LowerKeyed(facts)
    ensures BrokenAgree(text, facts)
  {
    var ts, body := Tokenize(text), Body(text, facts);
    forall k | 0 <= k < |body| && body[k].Link?
      ensures 1 <= body[k].n <= |Refs(text, facts)|
      ensures body[k].broken <==> Refs(text, facts)[body[k].n - 1].fact == None
    {
      assert ts[k].Marker?;
      ItemFound(text, facts, k);
    }
  }

  lemma OneMarker(raw: string, rest: string)
    requires IsId(raw)
    ensures Tokenize(OPEN + raw + "]" + rest) == [Marker(raw)] + Tokenize(rest)
    ensures Raws(Tokenize(OPEN + raw + "]" + rest)) == [raw] + Raws(Tokenize(rest))
  {
    var s := OPEN + raw + "]" + rest;
    assert s[..6] == OPEN && s[6..42] == raw && s[42] == ']' && s[MARKER_LENGTH..] == rest;
    RawsCons(Marker(raw), Tokenize(rest));
  }

  lemma LowerIsId(raw: string)
    requires IsId(raw)
    ensures IsId(Lower(raw))
  {
  }

  /** A fact filed only under capitals is found by a capital marker after a lower-case one was listed as unresolved. */
  lemma CapitalKeyDisagrees(raw: string, facts: map<string, Fact>)
    requires IsId(raw) && raw in facts && Lower(raw) !in facts
    ensures !BrokenAgree(OPEN + Lower(raw) + "]" + (OPEN + raw + "]" + ""), facts)
  {
    var low := Lower(raw);
    var text := OPEN + low + "]" + (OPEN + raw + "]" + "");
    LowerTwice(raw);
    LowerIsId(raw);
    OneMarker(raw, "");
    OneMarker(low, OPEN + raw + "]" + "");
    EveryMarkerIsFound(text);
    var raws := Occurrences(text);
    assert Tokenize("") == [] && Raws([]) == [];
    assert Tokenize(text) == [Marker(low), Marker(raw)];
    assert raws == [low, raw];
    assert raws[..1] == [low] && raws[..1][..0] == [];
    assert FirstCited([low]) == [low] && Lowers([low]) == [low];
    assert FirstCited(raws) == [low];
    assert Body(text, facts)[1] == Link(1, low, false);
    assert Refs(text, facts)[0].fact == None;
  }

  /** Links and items agree on what is unresolved, in all texts, exactly when capital keys have a lower-case form. */
  lemma BrokenAgreesExactly(facts: map<string, Fact>)
    ensures (forall text :: BrokenAgree(text, facts)) <==> LowerKeyed(facts)
  {
    if LowerKeyed(facts) {
      forall text ensures BrokenAgree(text, facts) {
        LowerKeyedAgrees(text, facts);
      }
    } else {
      var raw :| raw in facts && IsId(raw) && Lower(raw) !in facts;
      CapitalKeyDisagrees(raw, facts);
    }
  }
}
