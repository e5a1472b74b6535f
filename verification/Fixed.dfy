/**
 * Fixed-point multiply-and-divide with a 128-bit intermediate product.
 */
module Fixed {
  import opened Protocol

  datatype FixedError = Invalid | Overflow | DivByZero
  datatype Result<+T> = Ok(value: T) | Err(error: FixedError)

  /** High and low 64 bits of a product. */
  function Mul64(a: U64, b: U64): (U64, U64) {
    Mul64Fits(a, b);
    (a * b / U64_MODULUS, a * b % U64_MODULUS)
  }

  lemma Mul64Fits(a: U64, b: U64)
    ensures 0 <= a * b / U64_MODULUS < U64_MODULUS
  {
    MulMono(a, b, U64_MODULUS);
    assert a * U64_MODULUS < U64_MODULUS * U64_MODULUS;
    Under(a * b, U64_MODULUS, U64_MODULUS);
  }

  lemma MulMono(a: nat, b: nat, c: nat)
    requires b <= c
    ensures 0 <= a * b <= a * c
  {
  }

  lemma Under(x: int, q: int, d: int)
    requires 0 <= x < q * d && 0 < d
    ensures 0 <= x / d < q
  {
  }

  lemma MonoIf(a: int, b: int, d: nat)
    ensures a >= b ==> a * d >= b * d
  {
  }

  lemma Over(x: int, q: int, d: int)
    requires x >= q * d && 0 < d
    ensures x / d >= q
  {
    assert x < (x / d + 1) * d;
    MonoIf(q, x / d + 1, d);
  }

  /** 128-by-64-bit division: quotient and remainder; defined when the quotient fits. */
  function Div64(hi: U64, lo: U64, div: U64): (U64, U64)
    requires hi < div
  {
    Div64Fits(hi, lo, div);
    ((hi * U64_MODULUS + lo) / div, (hi * U64_MODULUS + lo) % div)
  }

  lemma Div64Fits(hi: U64, lo: U64, div: U64)
    requires hi < div
    ensures 0 <= (hi * U64_MODULUS + lo) / div < U64_MODULUS
  {
  }

  function MulDiv(a: U64, b: U64, div: U64): Result<U64> {
    if div == 0 then Err(DivByZero)
    else
      var (hi, lo) := Mul64(a, b);
      if hi == 0 then Ok(lo / div)
      else if hi >= div then Err(Overflow)
      else Ok(Div64(hi, lo, div).0)
  }

  /** The 64-bit increment wraps. */
  function MulDivCeil(a: U64, b: U64, div: U64): Result<U64> {
    if div == 0 then Err(DivByZero)
    else
      var (hi, lo) := Mul64(a, b);
      if hi >= div then Err(Overflow)
      else
        var (q, r) := Div64(hi, lo, div);
        Ok(if r > 0 then (q + 1) % U64_MODULUS else q)
  }

  function CeilDiv(x: nat, d: nat): nat
    requires 0 < d
  {
    if x % d == 0 then x / d else x / d + 1
  }

  /** The high word tells exactly whether the quotient fits. */
  lemma HighWordDecides(a: U64, b: U64, div: U64)
    requires 0 < div
    ensures a * b / U64_MODULUS >= div <==> a * b / div >= U64_MODULUS
  {
  }

  /** MulDiv is exact floor division, with an overflow error exactly when the quotient does not fit. */
  lemma MulDivIsFloor(a: U64, b: U64, div: U64)
    ensures MulDiv(a, b, div)
         == if div == 0 then Err(DivByZero)
            else if a * b / div < U64_MODULUS then Ok(a * b / div)
            else Err(Overflow)
  {
    if div > 0 {
      var hi, lo := a * b / U64_MODULUS, a * b % U64_MODULUS;
      HighWordDecides(a, b, div);
      assert hi * U64_MODULUS + lo == a * b;
    }
  }

  /** MulDivCeil rounds up exactly, except when the floor is already the largest 64-bit value. */
  lemma MulDivCeilIsCeil(a: U64, b: U64, div: U64)
    requires 0 < div
    ensures a * b / div >= U64_MODULUS <==> MulDivCeil(a, b, div) == Err(Overflow)
    ensures a * b / div < U64_MODULUS ==>
              (MulDivCeil(a, b, div) == Ok(CeilDiv(a * b, div)) <==> CeilDiv(a * b, div) < U64_MODULUS)
  {
    var hi, lo := a * b / U64_MODULUS, a * b % U64_MODULUS;
    HighWordDecides(a, b, div);
    assert hi * U64_MODULUS + lo == a * b;
  }

  /** At the top of the range the rounded result wraps to zero instead of reporting an overflow. */
  lemma CeilWrapsToZero()
    ensures MulDivCeil(100_000_001, 18446743889242112723, SCALE) == Ok(0)
    ensures 100_000_001 * 18446743889242112723 % SCALE > 0
  {
  }

  /** With a rate of at most one the fee never exceeds the amount, so rounding up cannot overflow. */
  lemma RateAtMostOne(amount: U64, rate: U64)
    requires rate <= SCALE
    ensures MulDiv(amount, rate, SCALE) == Ok(amount * rate / SCALE) && amount * rate / SCALE <= amount
    ensures MulDivCeil(amount, rate, SCALE) == Ok(CeilDiv(amount * rate, SCALE))
    ensures CeilDiv(amount * rate, SCALE) <= amount
  {
    assert amount * rate <= amount * SCALE;
    FloorAtMost(amount * rate, amount, SCALE);
    MulDivIsFloor(amount, rate, SCALE);
    MulDivCeilIsCeil(amount, rate, SCALE);
  }

  lemma FloorAtMost(x: nat, q: nat, d: nat)
    requires x <= q * d && 0 < d
    ensures x / d <= q && CeilDiv(x, d) <= q
  {
    assert x / d * d + x % d == x;
    MonoIf(x / d, q + 1, d);
    MonoIf(x / d, q, d);
  }
}
