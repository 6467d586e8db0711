/** Fixed-width integer ranges of the source and Rust's integer division. */
module Ints {

  type u8 = x: int | 0 <= x < 0x100
  type u16 = x: int | 0 <= x < 0x1_0000
  type u32 = x: int | 0 <= x < 0x1_0000_0000
  type u64 = x: int | 0 <= x < 0x1_0000_0000_0000_0000
  type i32 = x: int | -0x8000_0000 <= x < 0x8000_0000
  type isize = x: int | -0x8000_0000_0000_0000 <= x < 0x8000_0000_0000_0000

  const U32_MAX: u32 := 0xFFFF_FFFF

  predicate InI32(x: int) {
    -0x8000_0000 <= x < 0x8000_0000
  }

  /** Rust's `/` on signed integers: the quotient is truncated toward zero
      (Dafny's own `/` is Euclidean). */
  function TruncDiv(a: int, b: int): (q: int)
    requires b != 0
    ensures a >= 0 && b > 0 ==> q == a / b
    ensures (a < 0) != (b < 0) ==> q <= 0
    ensures b > 0 ==> TruncQuotient(q, a, b)
  {
    var n := if a < 0 then -a else a;
    var d := if b < 0 then -b else b;
    if (a < 0) == (b < 0) then n / d else -(n / d)
  }

  /** `q` is `n / d` rounded toward zero: the multiple `q * d` lies within one `d` of
      `n`, on the side of zero. */
  predicate TruncQuotient(q: int, n: int, d: int) {
    if n >= 0 then q * d <= n < q * d + d else q * d - d < n <= q * d
  }

  /** For a positive divisor the rounded quotient is unique, so `TruncQuotient` pins
      the result of a division down. */
  lemma TruncQuotientUnique(q1: int, q2: int, n: int, d: int)
    requires d > 0 && TruncQuotient(q1, n, d) && TruncQuotient(q2, n, d)
    ensures q1 == q2
  {
    if n >= 0 {
      assert (q2 + 1) * d == q2 * d + d && (q1 + 1) * d == q1 * d + d;
      MulCancelLess(q1, q2 + 1, d);
      MulCancelLess(q2, q1 + 1, d);
    } else {
      assert (q2 - 1) * d == q2 * d - d && (q1 - 1) * d == q1 * d - d;
      MulCancelLess(q1 - 1, q2, d);
      MulCancelLess(q2 - 1, q1, d);
    }
  }

  /** Division by a positive number, truncated, keeps the order of the dividends. */
  lemma TruncDivMonotoneIn(a: int, b: int, d: int)
    requires a <= b && d > 0
    ensures TruncDiv(a, d) <= TruncDiv(b, d)
  {
    var qa, qb := TruncDiv(a, d), TruncDiv(b, d);
    if a >= 0 {
      assert (qb + 1) * d == qb * d + d;
      MulCancelLess(qa, qb + 1, d);
    } else if b < 0 {
      assert (qa - 1) * d == qa * d - d;
      MulCancelLess(qa - 1, qb, d);
    }
  }

  /** A positive factor can be cancelled from both sides of `<`. */
  lemma MulCancelLess(x: int, y: int, d: int)
    requires d > 0 && x * d < y * d
    ensures x < y
  {
    if x >= y {
      assert x * d - y * d == (x - y) * d;
      MulNonNegativeFactors(x - y, d);
    }
  }

  lemma MulNonNegativeFactors(a: int, b: int)
    requires a >= 0 && b >= 0
    ensures a * b >= 0
  {
  }

  lemma TruncDivExamples()
    ensures TruncDiv(-7, 2) == -3
    ensures TruncDiv(7, -2) == -3
    ensures TruncDiv(-7, -2) == 3
  {
  }
}
