/** A codec that meets what the ledger asks of its environment: amounts in whole cents
    printed as the decimal library does, without superfluous digits. */
module LedgerCodec {
  import opened Money
  import opened Ledger

  function Digit(d: int): (c: char)
    requires 0 <= d < 10
    ensures '0' <= c <= '9'
  {
    ('0' as int + d) as char
  }

  function Digits(n: nat): string {
    if n < 10 then [Digit(n)] else Digits(n / 10) + [Digit(n % 10)]
  }

  /** The number that digits stand for. */
  function Value(s: string): int {
    if s == "" then 0 else Value(s[..|s| - 1]) * 10 + (s[|s| - 1] as int - '0' as int)
  }

  lemma {:induction false} ValueOfDigits(n: nat)
    ensures Value(Digits(n)) == n
    ensures forall c :: c in Digits(n) ==> '0' <= c <= '9'
  {
    if n >= 10 {
      ValueOfDigits(n / 10);
      assert Digits(n)[..|Digits(n)| - 1] == Digits(n / 10);
    } else {
      assert Digits(n)[..0] == "";
    }
  }

  /** The cents behind the point: none, one digit or two. */
  function Fraction(cents: int): string
    requires 0 <= cents < 100
  {
    if cents == 0 then ""
    else if cents % 10 == 0 then ['.', Digit(cents / 10)]
    else ['.', Digit(cents / 10), Digit(cents % 10)]
  }

  lemma FractionTellsApart(a: int, b: int)
    requires 0 <= a < 100 && 0 <= b < 100 && Fraction(a) == Fraction(b)
    ensures a == b
  {
    if a != 0 && b != 0 {
      assert Fraction(a)[1] == Fraction(b)[1];
      if a % 10 != 0 && b % 10 != 0 {
        assert Fraction(a)[2] == Fraction(b)[2];
      }
    }
  }

  function Unsigned(cents: nat): string {
    Digits(cents / 100) + Fraction(cents % 100)
  }

  /** `String()` of an amount in whole cents. */
  function Show(a: Amount): string {
    var cents := (a * 100.0).Floor;
    if cents < 0 then "-" + Unsigned(-cents) else Unsigned(cents)
  }

  /** Where the digits end. */
  function BeforePoint(s: string): string {
    if s == "" || s[0] == '.' then "" else [s[0]] + BeforePoint(s[1..])
  }

  lemma {:induction false} BeforePointOf(digits: string, fraction: string)
    requires '.' !in digits && (fraction == "" || fraction[0] == '.')
    ensures BeforePoint(digits + fraction) == digits
    decreases |digits|
  {
    if digits == "" {
      assert digits + fraction == fraction;
    } else {
      assert (digits + fraction)[1..] == digits[1..] + fraction;
      BeforePointOf(digits[1..], fraction);
      assert digits == [digits[0]] + digits[1..];
    }
  }

  lemma UnsignedTellsApart(a: nat, b: nat)
    requires Unsigned(a) == Unsigned(b)
    ensures a == b
  {
    ValueOfDigits(a / 100);
    ValueOfDigits(b / 100);
    BeforePointOf(Digits(a / 100), Fraction(a % 100));
    BeforePointOf(Digits(b / 100), Fraction(b % 100));
    var n := |Digits(a / 100)|;
    assert Unsigned(a)[n..] == Fraction(a % 100) && Unsigned(b)[n..] == Fraction(b % 100);
    FractionTellsApart(a % 100, b % 100);
  }

  lemma UnsignedText(a: nat)
    ensures SlashFree(Unsigned(a)) && Unsigned(a) != "" && Unsigned(a)[0] != '-'
  {
    ValueOfDigits(a / 100);
    assert Digits(a / 100) != "" && Digits(a / 100)[0] in Digits(a / 100);
  }

  lemma ShowTellsApart(a: Amount, b: Amount)
    requires WholeCents(a) && WholeCents(b) && Show(a) == Show(b)
    ensures a == b
  {
    var m, n := (a * 100.0).Floor, (b * 100.0).Floor;
    UnsignedText(if m < 0 then -m else m);
    UnsignedText(if n < 0 then -n else n);
    assert m < 0 <==> Show(a)[0] == '-';
    assert n < 0 <==> Show(b)[0] == '-';
    if m < 0 {
      assert Show(a)[1..] == Unsigned(-m) && Show(b)[1..] == Unsigned(-n);
      UnsignedTellsApart(-m, -n);
    } else {
      UnsignedTellsApart(m, n);
    }
    assert a * 100.0 == b * 100.0;
  }

  lemma ShowIsSlashFree(a: Amount)
    ensures SlashFree(Show(a))
  {
    var m := (a * 100.0).Floor;
    UnsignedText(if m < 0 then -m else m);
  }

  /** A codec over slash-free identifiers and dates, with an injective hash. */
  function Decimal(): Codec {
    Codec(s => '/' !in s, s => '/' !in s, s => s, a => Show(a), s => s)
  }

  lemma DecimalIsFaithful()
    ensures Faithful(Decimal())
  {
    forall a: Amount
      ensures SlashFree(Show(a))
    {
      ShowIsSlashFree(a);
    }
    forall a: Amount, b: Amount | WholeCents(a) && WholeCents(b) && Show(a) == Show(b)
      ensures a == b
    {
      ShowTellsApart(a, b);
    }
  }
}
