/**
  Money (shared/types.py) and the currency table of shared/decimal_utils.py: amounts tagged with
  a currency, whose arithmetic never mixes currencies and stays at minor-unit precision.
 */
module MoneyAmounts {
  import opened Ascii
  import opened Results
  import opened BankersRounding

  const PRECISIONS: map<string, nat> :=
    map["USD" := 2, "EUR" := 2, "GBP" := 2, "CHF" := 2, "CAD" := 2, "AUD" := 2, "JPY" := 0, "KRW" := 0,
        "BTC" := 8, "ETH" := 8]

  datatype Money = Money(amount: real, currency: string)

  function CurrencyPrecision(currency: string): Result<nat> {
    if Upper(currency) in PRECISIONS then Ok(PRECISIONS[Upper(currency)]) else Err(ValidationError)
  }

  function MakeMoney(amount: real, currency: string): Result<Money> {
    match CurrencyPrecision(Upper(currency))
    case Ok(_) => Ok(Money(amount, Upper(currency)))
    case Err(e) => Err(e)
  }

  function Add(a: Money, b: Money): Result<Money> {
    if a.currency != b.currency then Err(CurrencyMismatchError) else MakeMoney(a.amount + b.amount, a.currency)
  }

  function Subtract(a: Money, b: Money): Result<Money> {
    if a.currency != b.currency then Err(CurrencyMismatchError) else MakeMoney(a.amount - b.amount, a.currency)
  }

  function Negate(a: Money): Result<Money> {
    MakeMoney(-a.amount, a.currency)
  }

  function QuantizeMoney(a: Money): Result<Money> {
    match CurrencyPrecision(a.currency)
    case Err(e) => Err(e)
    case Ok(places) =>
      match Quantize(a.amount, places)
      case Ok(amount) => MakeMoney(amount, a.currency)
      case Err(e) => Err(e)
  }

  // ---- what construction guarantees ----

  /** What the constructor gives: a known code, in capitals. */
  predicate Constructed(m: Money) {
    m.currency == Upper(m.currency) && m.currency in PRECISIONS
  }

  lemma UpperTwice(s: string)
    ensures Upper(Upper(s)) == Upper(s)
  {
    assert forall c :: UpperChar(UpperChar(c)) == UpperChar(c);
  }

  /** The constructor accepts exactly the known codes in any case, and yields nothing but constructed amounts. */
  lemma ConstructionIsExact(amount: real, currency: string, m: Money)
    ensures MakeMoney(amount, currency) == Ok(m) <==>
            m.amount == amount && m.currency == Upper(currency) && Constructed(m)
    ensures MakeMoney(amount, currency).Ok? <==> CurrencyPrecision(currency).Ok?
  {
    UpperTwice(currency);
  }

  ghost predicate AtMinorUnit(m: Money) {
    m.currency in PRECISIONS && AtPrecision(m.amount, PRECISIONS[m.currency])
  }

  lemma UnitsAdd(a: real, b: real, places: nat)
    requires AtPrecision(a, places) && AtPrecision(b, places)
    ensures AtPrecision(a + b, places)
  {
    var j :| IsUnits(a, j, places);
    var k :| IsUnits(b, k, places);
    assert (j + k) as real * Quantum(places) == j as real * Quantum(places) + k as real * Quantum(places);
    assert IsUnits(a + b, j + k, places);
  }

  lemma UnitsNegate(a: real, places: nat)
    requires AtPrecision(a, places)
    ensures AtPrecision(-a, places)
  {
    var k :| IsUnits(a, k, places);
    assert (-k) as real * Quantum(places) == -(k as real * Quantum(places));
    assert IsUnits(-a, -k, places);
  }

  /**
    Quantizing a constructed amount fails only beyond the digits of the decimal context; otherwise
    it reaches the minor unit within half of it, and stops there.
   */
  lemma QuantizeReachesMinorUnit(m: Money)
    requires Constructed(m)
    ensures var q, places := QuantizeMoney(m), PRECISIONS[m.currency];
            && (q.Err? <==> !Fits(m.amount, places)) && (q.Err? ==> q.error == InvalidOperation)
            && (q.Ok? ==>
                  && Constructed(q.value) && AtMinorUnit(q.value) && q.value.currency == m.currency
                  && Abs(q.value.amount - m.amount) <= Quantum(places) / 2.0
                  && QuantizeMoney(q.value) == q)
    ensures QuantizeMoney(m) == Ok(m) <==> AtMinorUnit(m) && Fits(m.amount, PRECISIONS[m.currency])
  {
    var places := PRECISIONS[m.currency];
    FixedPoints(m.amount, places);
    HalfUnit(m.amount, places);
    RoundThenFiner(m.amount, places, places);
    WholeDigits(Rounded(m.amount, places), Digits(m.amount, places), places);
  }

  // ---- arithmetic expressions over amounts ----

  datatype Expr =
    | Amount(money: Money)
    | Plus(left: Expr, right: Expr)
    | Minus(left: Expr, right: Expr)
    | Opposite(arg: Expr)

  function Evaluate(e: Expr): Result<Money> {
    match e
    case Amount(m) => Ok(m)
    case Plus(l, r) =>
      var a := Evaluate(l);
      var b := Evaluate(r);
      if a.Err? then a else if b.Err? then b else Add(a.value, b.value)
    case Minus(l, r) =>
      var a := Evaluate(l);
      var b := Evaluate(r);
      if a.Err? then a else if b.Err? then b else Subtract(a.value, b.value)
    case Opposite(x) =>
      var a := Evaluate(x);
      if a.Err? then a else Negate(a.value)
  }

  ghost predicate Leaves(e: Expr, ok: Money -> bool) {
    match e
    case Amount(m) => ok(m)
    case Plus(l, r) => Leaves(l, ok) && Leaves(r, ok)
    case Minus(l, r) => Leaves(l, ok) && Leaves(r, ok)
    case Opposite(x) => Leaves(x, ok)
  }

  predicate AllIn(e: Expr, currency: string) {
    match e
    case Amount(m) => m.currency == currency
    case Plus(l, r) => AllIn(l, currency) && AllIn(r, currency)
    case Minus(l, r) => AllIn(l, currency) && AllIn(r, currency)
    case Opposite(x) => AllIn(x, currency)
  }

  /** The exact value of an expression when the tags are ignored. */
  function Exact(e: Expr): real {
    match e
    case Amount(m) => m.amount
    case Plus(l, r) => Exact(l) + Exact(r)
    case Minus(l, r) => Exact(l) - Exact(r)
    case Opposite(x) => -Exact(x)
  }

  lemma {:induction false} ValueIsExact(e: Expr)
    requires Leaves(e, Constructed)
    ensures Evaluate(e).Ok? ==>
              var m := Evaluate(e).value; Constructed(m) && AllIn(e, m.currency) && m.amount == Exact(e)
    ensures Evaluate(e).Err? ==> Evaluate(e).error == CurrencyMismatchError
  {
    match e
    case Amount(_) =>
    case Plus(l, r) => ValueIsExact(l); ValueIsExact(r);
    case Minus(l, r) => ValueIsExact(l); ValueIsExact(r);
    case Opposite(x) => ValueIsExact(x);
  }

  lemma {:induction false} OneCurrencyEvaluates(e: Expr, currency: string)
    requires Leaves(e, Constructed) && AllIn(e, currency)
    ensures Evaluate(e) == Ok(Money(Exact(e), currency)) && Constructed(Money(Exact(e), currency))
  {
    match e
    case Amount(_) =>
    case Plus(l, r) => OneCurrencyEvaluates(l, currency); OneCurrencyEvaluates(r, currency);
    case Minus(l, r) => OneCurrencyEvaluates(l, currency); OneCurrencyEvaluates(r, currency);
    case Opposite(x) => OneCurrencyEvaluates(x, currency);
  }

  /** An expression evaluates, to its exact value, iff all its amounts share one currency; else the mix is reported. */
  lemma NeverMixesCurrencies(e: Expr, m: Money)
    requires Leaves(e, Constructed)
    ensures Evaluate(e) == Ok(m) <==> AllIn(e, m.currency) && m.amount == Exact(e)
    ensures Evaluate(e).Err? ==> Evaluate(e).error == CurrencyMismatchError
  {
    ValueIsExact(e);
    if AllIn(e, m.currency) {
      OneCurrencyEvaluates(e, m.currency);
    }
  }

  lemma {:induction false} StaysAtMinorUnit(e: Expr)
    requires Leaves(e, Constructed) && Leaves(e, AtMinorUnit) && Evaluate(e).Ok?
    ensures AtMinorUnit(Evaluate(e).value) && Constructed(Evaluate(e).value)
  {
    match e {
      case Amount(_) =>
      case Plus(l, r) =>
        StaysAtMinorUnit(l);
        StaysAtMinorUnit(r);
        var a, b := Evaluate(l).value, Evaluate(r).value;
        UnitsAdd(a.amount, b.amount, PRECISIONS[a.currency]);
      case Minus(l, r) =>
        StaysAtMinorUnit(l);
        StaysAtMinorUnit(r);
        var a, b := Evaluate(l).value, Evaluate(r).value;
        UnitsNegate(b.amount, PRECISIONS[a.currency]);
        UnitsAdd(a.amount, -b.amount, PRECISIONS[a.currency]);
      case Opposite(x) =>
        StaysAtMinorUnit(x);
        UnitsNegate(Evaluate(x).value.amount, PRECISIONS[Evaluate(x).value.currency]);
    }
  }

  /** Sums, differences and opposites of minor-unit amounts stay there: quantizing, where it fits, is the identity. */
  lemma ClosedAtMinorUnit(e: Expr)
    requires Leaves(e, Constructed) && Leaves(e, AtMinorUnit) && Evaluate(e).Ok?
    ensures AtMinorUnit(Evaluate(e).value) && Constructed(Evaluate(e).value)
    ensures QuantizeMoney(Evaluate(e).value) == Evaluate(e) <==>
            Fits(Evaluate(e).value.amount, PRECISIONS[Evaluate(e).value.currency])
  {
    StaysAtMinorUnit(e);
    QuantizeReachesMinorUnit(Evaluate(e).value);
  }
}
