/** pkg/money/amount.go: exact decimal amounts, as reals, and the rounding of the
    decimal library (half away from zero). */
module Money {
  type Amount = real

  const LIMIT: Amount := 9999999999.99

  function Cents(n: int): Amount {
    n as real / 100.0
  }

  /** The nearest integer, halves away from zero. */
  function RoundInt(x: real): int {
    if x >= 0.0 then (x + 0.5).Floor else -((-x + 0.5).Floor)
  }

  function Round2(a: Amount): Amount {
    RoundInt(a * 100.0) as real / 100.0
  }

  function Round6(a: Amount): Amount {
    RoundInt(a * 1000000.0) as real / 1000000.0
  }

  /** ValidateInput: positive, at most 9 999 999 999,99 and without fraction of a cent. */
  predicate ValidInput(a: Amount) {
    0.0 < a <= LIMIT && a == Round2(a)
  }

  /** `Shift(2).IntPart()`, on an amount that is not negative. */
  function ToCents(a: Amount): int
    requires a >= 0.0
  {
    (a * 100.0).Floor
  }

  /** Accepted amounts are the whole numbers of cents from 1 to 999 999 999 999. */
  lemma ValidInputIsCents(a: Amount)
    ensures ValidInput(a) <==> exists n :: 1 <= n <= 999999999999 && a == Cents(n)
    ensures ValidInput(a) ==> 1 <= ToCents(a) <= 999999999999 && a == Cents(ToCents(a))
  {
    if ValidInput(a) {
      var n := RoundInt(a * 100.0);
      assert a == Cents(n);
      assert n as real == a * 100.0;
    }
    if n :| 1 <= n <= 999999999999 && a == Cents(n) {
      assert a * 100.0 == n as real;
      assert RoundInt(a * 100.0) == n;
    }
  }

  lemma RoundIntBound(x: real)
    ensures -0.5 <= RoundInt(x) as real - x <= 0.5
  {}

  lemma RoundIntMonotone(x: real, y: real)
    requires x <= y
    ensures RoundInt(x) <= RoundInt(y)
  {}

  /** Halves go away from zero, on both sides. */
  lemma HalvesGoAway(x: real, n: nat)
    ensures RoundInt(n as real + 0.5) == n + 1 && RoundInt(-(n as real) - 0.5) == -(n as int) - 1
    ensures RoundInt(-x) == -RoundInt(x)
  {}

  // ---- Whole cents ----

  predicate WholeCents(a: Amount) {
    (a * 100.0).Floor as real == a * 100.0
  }

  /** An integer is its own floor. */
  lemma IntegerIsWhole(a: Amount, n: int)
    requires a * 100.0 == n as real
    ensures WholeCents(a)
  {}

  lemma CentsOfSum(a: Amount, b: Amount)
    requires WholeCents(a) && WholeCents(b)
    ensures WholeCents(a + b)
  {
    IntegerIsWhole(a + b, (a * 100.0).Floor + (b * 100.0).Floor);
  }

  lemma CentsOfNegation(a: Amount)
    requires WholeCents(a)
    ensures WholeCents(-a)
  {
    IntegerIsWhole(-a, -(a * 100.0).Floor);
  }

  lemma CentsOfDifference(a: Amount, b: Amount)
    requires WholeCents(a) && WholeCents(b)
    ensures WholeCents(a - b)
  {
    IntegerIsWhole(a - b, (a * 100.0).Floor - (b * 100.0).Floor);
  }

  lemma ValidIsWholeCents(a: Amount)
    requires ValidInput(a) || ValidInput(-a)
    ensures WholeCents(a)
  {
    if ValidInput(a) {
      ValidInputIsCents(a);
      assert a * 100.0 == ToCents(a) as real;
    } else {
      ValidInputIsCents(-a);
      assert a * 100.0 == (-ToCents(-a)) as real;
    }
  }
}
