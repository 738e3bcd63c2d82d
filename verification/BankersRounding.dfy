/**
  Banker's rounding (shared/decimal_utils.py). A Decimal is an exact number, modelled as a real;
  quantize returns the nearest multiple of the minor unit, ties to even.
 */
module BankersRounding {
  import opened Results

  function Abs(x: real): real {
    if x < 0.0 then -x else x
  }

  /** Decimal(1).scaleb(-places). */
  function Quantum(places: nat): (u: real)
    ensures u > 0.0
  {
    if places == 0 then 1.0 else Quantum(places - 1) / 10.0
  }

  /** ROUND_HALF_EVEN works on sign and magnitude: a tie keeps an even digit, and the sign is put back. */
  function RoundHalfEven(x: real): int {
    var whole := Abs(x).Floor;
    var rest := Abs(x) - whole as real;
    var m := if rest > 0.5 || (rest == 0.5 && whole % 2 == 1) then whole + 1 else whole;
    if x < 0.0 then -m else m
  }

  /** The digits kept: the point moves right once per place, then the whole part is rounded. */
  function Digits(amount: real, places: nat): int
    decreases places
  {
    if places == 0 then RoundHalfEven(amount) else Digits(10.0 * amount, places - 1)
  }

  function Rounded(amount: real, places: nat): real {
    Multiple(Digits(amount, places), Quantum(places))
  }

  function Multiple(k: int, unit: real): real {
    k as real * unit
  }

  /** The decimal context's precision, in digits. */
  const PRECISION := 28

  function Pow10(n: nat): (p: int)
    ensures p > 0
  {
    if n == 0 then 1 else 10 * Pow10(n - 1)
  }

  /** At most as many digits as the context keeps. */
  predicate InContext(q: int) {
    -Pow10(PRECISION) < q < Pow10(PRECISION)
  }

  /** Decimal.quantize raises unless the digits of its result fit. */
  predicate Fits(amount: real, places: nat) {
    InContext(Digits(amount, places))
  }

  function Quantize(amount: real, places: int): Result<real> {
    if places < 0 then Err(ValidationError)
    else if !Fits(amount, places) then Err(InvalidOperation)
    else Ok(Rounded(amount, places))
  }

  // ---- nearest of all multiples, ties to even ----

  /** The k-th multiple of the unit is no nearer to the amount than the q-th is; if as near, q is even. */
  ghost predicate Beats(amount: real, unit: real, q: int, k: int) {
    var near, far := Abs(Multiple(q, unit) - amount), Abs(Multiple(k, unit) - amount);
    near <= far && (near == far && k != q ==> q % 2 == 0)
  }

  ghost predicate TiesToEven(amount: real, unit: real, q: int) {
    forall k :: Beats(amount, unit, q, k)
  }

  ghost predicate NearestEven(x: real, q: int) {
    && Abs(q as real - x) <= 0.5
    && (Abs(q as real - x) == 0.5 ==> q % 2 == 0)
  }

  lemma RoundsToNearestEven(x: real, q: int)
    ensures RoundHalfEven(x) == q <==> NearestEven(x, q)
  {
  }

  lemma Farther(x: real, q: int, k: int)
    requires NearestEven(x, q)
    ensures Beats(x, 1.0, q, k)
  {
    if k < q {
      assert k as real <= q as real - 1.0;
    } else if k > q {
      assert k as real >= q as real + 1.0;
    }
  }

  lemma NearestOfAll(x: real, q: int)
    requires Beats(x, 1.0, q, q + 1) && Beats(x, 1.0, q, q - 1)
    ensures NearestEven(x, q)
  {
  }

  lemma TiesOfWhole(x: real, q: int)
    ensures TiesToEven(x, 1.0, q) <==> q == RoundHalfEven(x)
  {
    RoundsToNearestEven(x, q);
    if q == RoundHalfEven(x) {
      forall k ensures Beats(x, 1.0, q, k) {
        Farther(x, q, k);
      }
    }
    if TiesToEven(x, 1.0, q) {
      assert Beats(x, 1.0, q, q + 1) && Beats(x, 1.0, q, q - 1);
      NearestOfAll(x, q);
    }
  }

  lemma Tenth(k: int, unit: real)
    ensures 10.0 * Multiple(k, unit / 10.0) == Multiple(k, unit)
  {
  }

  lemma BeatsTenfold(amount: real, unit: real, q: int, k: int)
    ensures Beats(amount, unit / 10.0, q, k) <==> Beats(10.0 * amount, unit, q, k)
  {
    Tenth(q, unit);
    Tenth(k, unit);
  }

  lemma TiesTenfold(amount: real, tenfold: real, unit: real, tenth: real, q: int)
    requires tenfold == 10.0 * amount && tenth == unit / 10.0
    ensures TiesToEven(amount, tenth, q) <==> TiesToEven(tenfold, unit, q)
  {
    if TiesToEven(amount, tenth, q) {
      forall k ensures Beats(tenfold, unit, q, k) {
        BeatsTenfold(amount, unit, q, k);
      }
    }
    if TiesToEven(tenfold, unit, q) {
      forall k ensures Beats(amount, tenth, q, k) {
        BeatsTenfold(amount, unit, q, k);
      }
    }
  }

  lemma {:induction false} DigitsAreTiesToEven(amount: real, places: nat, q: int)
    ensures TiesToEven(amount, Quantum(places), q) <==> q == Digits(amount, places)
    decreases places
  {
    if places == 0 {
      TiesOfWhole(amount, q);
    } else {
      DigitsAreTiesToEven(10.0 * amount, places - 1, q);
      TiesTenfold(amount, 10.0 * amount, Quantum(places - 1), Quantum(places), q);
    }
  }

  ghost predicate IsUnits(a: real, k: int, places: nat) {
    a == Multiple(k, Quantum(places))
  }

  /**
    quantize rounds to nearest, ties to even (section 4.3.1 of IEEE 754-2019). It refuses places < 0,
    and otherwise exactly the amounts whose nearest multiple has more digits than the context keeps.
   */
  lemma QuantizeIsTiesToEven(amount: real, places: int, r: real)
    ensures Quantize(amount, places) == Ok(r) <==>
            places >= 0 && exists q :: IsUnits(r, q, places) && InContext(q) && TiesToEven(amount, Quantum(places), q)
    ensures Quantize(amount, places) == Err(ValidationError) <==> places < 0
    ensures Quantize(amount, places) == Err(InvalidOperation) <==>
            places >= 0 && exists q :: TiesToEven(amount, Quantum(places), q) && !InContext(q)
  {
    if places >= 0 {
      var q := Digits(amount, places);
      DigitsAreTiesToEven(amount, places, q);
      if r == Rounded(amount, places) {
        assert IsUnits(r, q, places);
      }
      forall k | TiesToEven(amount, Quantum(places), k) ensures k == q {
        DigitsAreTiesToEven(amount, places, k);
      }
    }
  }

  // ---- the laws of quantize ----

  lemma RoundHalfEvenIsMonotone(x: real, y: real)
    requires x <= y
    ensures RoundHalfEven(x) <= RoundHalfEven(y)
  {
    RoundsToNearestEven(x, RoundHalfEven(x));
    RoundsToNearestEven(y, RoundHalfEven(y));
  }

  lemma {:induction false} DigitsAreMonotone(a: real, b: real, places: nat)
    requires a <= b
    ensures Digits(a, places) <= Digits(b, places)
    decreases places
  {
    if places == 0 {
      RoundHalfEvenIsMonotone(a, b);
    } else {
      DigitsAreMonotone(10.0 * a, 10.0 * b, places - 1);
    }
  }

  lemma MoreUnits(j: int, k: int, u: real)
    requires u > 0.0
    ensures j <= k <==> Multiple(j, u) <= Multiple(k, u)
  {
    if j <= k {
      assert (k - j) as real * u >= 0.0;
    } else {
      assert (j - k) as real * u > 0.0;
    }
  }

  /** Rounding keeps order. */
  lemma RoundingIsMonotone(a: real, b: real, places: nat)
    requires a <= b
    ensures Rounded(a, places) <= Rounded(b, places)
  {
    DigitsAreMonotone(a, b, places);
    MoreUnits(Digits(a, places), Digits(b, places), Quantum(places));
  }

  lemma {:induction false} DigitsAreOdd(a: real, places: nat)
    ensures Digits(-a, places) == -Digits(a, places)
    decreases places
  {
    if places == 0 {
    } else {
      DigitsAreOdd(10.0 * a, places - 1);
      assert 10.0 * -a == -(10.0 * a);
    }
  }

  lemma Opposite(k: int, u: real)
    ensures Multiple(-k, u) == -Multiple(k, u)
  {
  }

  /** Rounding a negated amount negates the rounded amount. */
  lemma RoundingIsOdd(a: real, places: nat)
    ensures Rounded(-a, places) == -Rounded(a, places)
  {
    DigitsAreOdd(a, places);
    Opposite(Digits(a, places), Quantum(places));
  }

  /** The amount is a whole number of minor units. */
  ghost predicate AtPrecision(a: real, places: nat) {
    exists k :: IsUnits(a, k, places)
  }

  lemma {:induction false} WholeDigits(a: real, k: int, places: nat)
    requires IsUnits(a, k, places)
    ensures Digits(a, places) == k
    decreases places
  {
    if places == 0 {
      RoundsToNearestEven(a, k);
    } else {
      Tenth(k, Quantum(places - 1));
      WholeDigits(10.0 * a, k, places - 1);
    }
  }

  /** Exactly the amounts that are whole numbers of minor units are left as they are. */
  lemma FixedPoints(a: real, places: nat)
    ensures Rounded(a, places) == a <==> AtPrecision(a, places)
    ensures AtPrecision(Rounded(a, places), places)
  {
    assert IsUnits(Rounded(a, places), Digits(a, places), places);
    if AtPrecision(a, places) {
      var k :| IsUnits(a, k, places);
      WholeDigits(a, k, places);
    }
  }

  lemma TenTenths(k: int, unit: real)
    ensures Multiple(10 * k, unit / 10.0) == Multiple(k, unit)
  {
  }

  lemma {:induction false} FinerUnits(a: real, places: nat, finer: nat)
    requires AtPrecision(a, places) && places <= finer
    ensures AtPrecision(a, finer)
  {
    if places < finer {
      FinerUnits(a, places, finer - 1);
      var k :| IsUnits(a, k, finer - 1);
      TenTenths(k, Quantum(finer - 1));
      assert IsUnits(a, 10 * k, finer);
    }
  }

  /** Once rounded, an amount is kept by every later rounding to as many or more places. */
  lemma RoundThenFiner(a: real, places: nat, finer: nat)
    requires places <= finer
    ensures Rounded(Rounded(a, places), finer) == Rounded(a, places)
  {
    var r := Rounded(a, places);
    FixedPoints(a, places);
    FinerUnits(r, places, finer);
    FixedPoints(r, finer);
  }

  /** The rounding error is at most half a minor unit. */
  lemma {:induction false} HalfUnit(a: real, places: nat)
    ensures Abs(Rounded(a, places) - a) <= Quantum(places) / 2.0
    decreases places
  {
    if places == 0 {
      RoundsToNearestEven(a, RoundHalfEven(a));
    } else {
      HalfUnit(10.0 * a, places - 1);
      Tenth(Digits(a, places), Quantum(places - 1));
    }
  }

  function Total(amounts: seq<real>): real {
    if amounts == [] then 0.0 else amounts[0] + Total(amounts[1..])
  }

  function AllRounded(amounts: seq<real>, places: nat): (rs: seq<real>) {
    if amounts == [] then [] else [Rounded(amounts[0], places)] + AllRounded(amounts[1..], places)
  }

  lemma ErrorsAdd(x: real, y: real, n: nat, half: real)
    requires Abs(x) <= half && Abs(y) <= Multiple(n, half)
    ensures Abs(x + y) <= Multiple(n + 1, half)
  {
    assert Multiple(n + 1, half) == half + Multiple(n, half);
  }

  lemma Separated(amounts: seq<real>, places: nat)
    requires amounts != []
    ensures Total(AllRounded(amounts, places)) == Rounded(amounts[0], places) + Total(AllRounded(amounts[1..], places))
  {
    assert AllRounded(amounts, places)[1..] == AllRounded(amounts[1..], places);
  }

  /** Rounding each of n amounts first moves their sum by at most n half units. */
  lemma {:induction false} SumOfRounded(amounts: seq<real>, places: nat)
    ensures Abs(Total(AllRounded(amounts, places)) - Total(amounts)) <= Multiple(|amounts|, Quantum(places) / 2.0)
  {
    if amounts == [] {
    } else {
      var rest := amounts[1..];
      SumOfRounded(rest, places);
      HalfUnit(amounts[0], places);
      Separated(amounts, places);
      ErrorsAdd(Rounded(amounts[0], places) - amounts[0], Total(AllRounded(rest, places)) - Total(rest),
                |rest|, Quantum(places) / 2.0);
    }
  }
}
