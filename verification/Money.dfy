/**
 Exact amounts in integer minor units (internal/money/money.go). Amounts are 64-bit,
 so addition wraps; the empty currency is neutral and two different named currencies
 do not combine.
 */
module Money {
  import opened Prelude

  const TWO63: int := 0x8000_0000_0000_0000
  const TWO64: int := 0x1_0000_0000_0000_0000

  type int64 = x: int | -TWO63 <= x < TWO63

  type Currency = string

  const GHS: Currency := "GHS"

  datatype Money = Money(minorUnits: int64, currency: Currency) {
    predicate IsZero() { minorUnits == 0 }

    predicate IsNegative() { minorUnits < 0 }
  }

  datatype Error = CurrencyMismatch

  /** Two's-complement truncation of a mathematical integer to int64. */
  function Wrap64(x: int): (r: int64)
    ensures -TWO63 <= x < TWO63 ==> r == x
    ensures (x - r) % TWO64 == 0
  {
    (x + TWO63) % TWO64 - TWO63
  }

  function Combine(a: Currency, b: Currency): Result<Currency, Error> {
    if a == b then Ok(a)
    else if a == "" then Ok(b)
    else if b == "" then Ok(a)
    else Err(CurrencyMismatch)
  }

  /** The sum exists unless two different currencies are named, and is exact as long as it fits. */
  function Add(a: Money, b: Money): (r: Result<Money, Error>)
    ensures r.Ok? <==> a.currency == "" || b.currency == "" || a.currency == b.currency
    ensures r.Ok? ==> (r.value.currency == "" || r.value.currency == a.currency || r.value.currency == b.currency)
    ensures r.Ok? && r.value.currency == "" ==> a.currency == "" && b.currency == ""
    ensures r.Ok? && -TWO63 <= a.minorUnits + b.minorUnits < TWO63 ==> r.value.minorUnits == a.minorUnits + b.minorUnits
    ensures r.Ok? ==> (a.minorUnits + b.minorUnits - r.value.minorUnits) % TWO64 == 0
  {
    match Combine(a.currency, b.currency)
    case Err(e) => Err(e)
    case Ok(c) => Ok(Money(Wrap64(a.minorUnits + b.minorUnits), c))
  }

  /** `Add` lifted to sums that may already have failed. */
  function AddResult(a: Result<Money, Error>, b: Result<Money, Error>): Result<Money, Error> {
    if a.Err? then a else if b.Err? then b else Add(a.value, b.value)
  }

  lemma WrapAbsorbs(x: int, y: int)
    ensures Wrap64(Wrap64(x) + y) == Wrap64(x + y)
  {
    var k := (x + TWO63) / TWO64;
    assert Wrap64(x) == x - k * TWO64;
    assert (x + y + TWO63 - k * TWO64) % TWO64 == (x + y + TWO63) % TWO64;
  }

  lemma AddAssociates(a: Money, b: Money, c: Money)
    ensures AddResult(Add(a, b), Ok(c)) == AddResult(Ok(a), Add(b, c))
  {
    hide Wrap64;
    WrapAbsorbs(a.minorUnits + b.minorUnits, c.minorUnits);
    WrapAbsorbs(b.minorUnits + c.minorUnits, a.minorUnits);
  }

  /**
   Money with wrapping addition is a partial commutative monoid: the neutral element is
   the zero value, the order of two operands does not matter, and regrouping changes
   neither the sum nor whether the sum exists.
   */
  lemma AddIsPartialCommutativeMonoid(a: Money, b: Money, c: Money)
    ensures Add(Money(0, ""), a) == Ok(a)
    ensures Add(a, b) == Add(b, a)
    ensures AddResult(Add(a, b), Ok(c)) == AddResult(Ok(a), Add(b, c))
  {
    hide Wrap64, AddResult;
    AddAssociates(a, b, c);
  }
}
