/** C integer semantics that the platform layer relies on, and the few facts
    about multiplication, division and remainder that the buffer proofs need.
    Dafny's integers are unbounded; every wrap-around or truncation the C code
    performs is written out here. */
module CInt {

  const TWO_31: int := 0x8000_0000
  const TWO_32: int := 0x1_0000_0000

  /** A value that may be missing: a call that failed, a null pointer. */
  datatype Option<T> = None | Some(value: T)

  /** One byte of memory (`uint8_t`, `char` storage). */
  type Byte = b: int | 0 <= b < 256

  predicate InInt32(x: int) { -TWO_31 <= x < TWO_31 }
  predicate InUint32(x: int) { 0 <= x < TWO_32 }

  /** The value an unsigned 32-bit operation (`UINT32`, `DWORD`, `uint`) stores. */
  function WrapU32(x: int): (r: int)
    ensures InUint32(r)
    ensures (x - r) % TWO_32 == 0
    ensures InUint32(x) ==> r == x
  {
    x % TWO_32
  }

  /** Conversion of an unsigned 32-bit value to a 32-bit `int` (two's complement). */
  function U32ToInt32(x: int): (r: int)
    requires InUint32(x)
    ensures InInt32(r)
    ensures (x - r) % TWO_32 == 0
    ensures x < TWO_31 <==> r == x
  {
    if x < TWO_31 then x else x - TWO_32
  }

  function Abs(x: int): nat { if x < 0 then -x else x }

  /** C's `/` on integers, which truncates toward zero (Dafny's `/` is Euclidean). */
  function CDiv(a: int, b: int): (q: int)
    requires b != 0
    ensures Abs(q) == Abs(a) / Abs(b)
    ensures q != 0 ==> ((q > 0) <==> ((a > 0) == (b > 0)))
    ensures 0 <= a && 0 < b ==> q == a / b
  {
    var n, m := Abs(a), Abs(b);
    var d := n / m;
    assert 0 <= d by { DivNonneg(n, m); }
    assert d > 0 ==> n > 0;
    if (a >= 0) == (b > 0) then d else -d
  }

  lemma DivNonneg(n: int, m: int)
    requires 0 <= n && 0 < m
    ensures 0 <= n / m
  {
  }

  function Pow(base: nat, n: nat): (p: nat)
    ensures base > 0 ==> p > 0
  {
    if n == 0 then 1 else base * Pow(base, n - 1)
  }

  lemma {:induction false} MulLe(a: int, b: int, c: int)
    requires a <= b && 0 <= c
    ensures a * c <= b * c
    decreases b - a
  {
    if a < b {
      MulLe(a, b - 1, c);
    }
  }

  /** Quotient and remainder are the only pair that rebuilds `x`. */
  lemma DivModUnique(x: int, d: int, q: int, r: int)
    requires 0 < d && 0 <= r < d && x == q * d + r
    ensures x / d == q && x % d == r
  {
    var q', r' := x / d, x % d;
    assert x == q' * d + r';
    if q' < q {
      MulLe(q' + 1, q, d);
    } else if q < q' {
      MulLe(q + 1, q', d);
    }
  }

  lemma DivDiv(n: int, a: int, b: int)
    requires 0 < a && 0 < b
    ensures n / a / b == n / (a * b)
    ensures n % (a * b) == n % a + a * (n / a % b)
  {
    var q1, r1 := n / a, n % a;
    var q2, r2 := q1 / b, q1 % b;
    assert n == q2 * (a * b) + (a * r2 + r1) by {
      assert n == q1 * a + r1;
      assert q1 == q2 * b + r2;
    }
    MulLe(r2, b - 1, a);
    DivModUnique(n, a * b, q2, a * r2 + r1);
  }

  /** Adding a multiple of the divisor does not change the remainder. */
  lemma ModAddMultiple(x: int, k: int, d: int)
    requires 0 < d
    ensures (x + k * d) % d == x % d
  {
    DivModUnique(x + k * d, d, x / d + k, x % d);
  }

  /** Counting up by one wraps the remainder back to 0 at the divisor. */
  lemma ModSucc(x: int, d: int)
    requires 0 < d
    ensures (x + 1) % d == if x % d + 1 == d then 0 else x % d + 1
  {
    var q, r := x / d, x % d;
    assert x == q * d + r;
    if r + 1 == d {
      DivModUnique(x + 1, d, q + 1, 0);
    } else {
      DivModUnique(x + 1, d, q, r + 1);
    }
  }

  /** A product below another with the same positive factor has the smaller cofactor. */
  lemma MulCancelLt(a: int, b: int, c: int)
    requires 0 < c && a * c < b * c
    ensures a < b
  {
  }
}
