/** Java's 32-bit `int` arithmetic, spelled out over Dafny's unbounded integers.

    Every `+`, `-` and `*` on `int` in Java wraps around modulo 2^32 into the
    two's complement range, and `/` truncates toward zero (Dafny's `/` is
    Euclidean). The geometry code of the device works on such values, so its
    model computes through these functions rather than through Dafny's own
    operators. */
module JavaInt {

  const MIN: int := -0x8000_0000
  const MAX: int := 0x7fff_ffff
  const MODULUS: int := 0x1_0000_0000

  /** A value of Java's `int` type. */
  type Int32 = x: int | MIN <= x <= MAX

  /** Two's complement wrap-around: the one `int` congruent to `x` modulo 2^32. */
  function Wrap(x: int): (r: Int32)
    ensures (x - r) % MODULUS == 0
    ensures MIN <= x <= MAX ==> r == x
  {
    var m := x % MODULUS;
    if m <= MAX then m else m - MODULUS
  }

  /** Java's `a + b` on `int`. */
  function Add(a: Int32, b: Int32): (r: Int32) { Wrap(a + b) }

  /** Java's `a - b` on `int`. */
  function Sub(a: Int32, b: Int32): (r: Int32) { Wrap(a - b) }

  /** Java's `a * b` on `int`. */
  function Mul(a: Int32, b: Int32): (r: Int32) { Wrap(a * b) }

  /** Integer division rounding toward zero, as Java (and C) define it. */
  function Quot(a: int, b: int): (q: int)
    requires b != 0
    ensures a >= 0 ==> 0 <= a - q * b < Abs(b)
    ensures a < 0 ==> -Abs(b) < a - q * b <= 0
  {
    if a >= 0 then a / b else -((-a) / b)
  }

  function Abs(x: int): (r: int)
    ensures r >= 0 && (r == x || r == -x)
  {
    if x < 0 then -x else x
  }

  /** Java's `a / b` on `int`: division by zero throws, so it is excluded
      here and the caller models the exception. The truncated quotient always
      fits in an `int` except for `MIN / -1`, which wraps to `MIN`. */
  function Div(a: Int32, b: Int32): (r: Int32)
    requires b != 0
    ensures a == MIN && b == -1 ==> r == MIN
    ensures !(a == MIN && b == -1) ==> r == Quot(a, b)
  {
    QuotShrinks(a, b);
    Wrap(Quot(a, b))
  }

  /** Truncating division never grows the magnitude, and dividing by -1
      negates. */
  lemma QuotShrinks(a: int, b: int)
    requires b != 0
    ensures Abs(Quot(a, b)) <= Abs(a)
    ensures b == -1 ==> Quot(a, b) == -a
  {
    var q := Quot(a, b);
    if q != 0 {
      ProductMagnitude(q, b);
      // a and q * b lie on the same side of 0: a multiple of b on the other
      // side would be at least |b| away from a
      if a >= 0 {
        assert q * b >= 0;
      } else {
        assert q * b <= 0;
      }
    }
  }

  /** A product of non-zero factors is at least as large as either one. */
  lemma ProductMagnitude(q: int, b: int)
    requires q != 0 && b != 0
    ensures Abs(q * b) == Abs(q) * Abs(b)
    ensures Abs(q * b) >= Abs(q) && Abs(q * b) >= Abs(b)
  {
    var m, n := Abs(q), Abs(b);
    assert q * b == m * n || q * b == -(m * n) by { SignedProduct(q, b); }
    assert m * n >= m by { AtLeastLeft(m, n); }
    assert m * n >= n by { AtLeastLeft(n, m); }
  }

  lemma SignedProduct(q: int, b: int)
    ensures q * b == Abs(q) * Abs(b) || q * b == -(Abs(q) * Abs(b))
  {
    if q < 0 && b < 0 {
      assert q * b == (-q) * (-b);
    } else if q < 0 {
      assert q * b == -((-q) * b);
    } else if b < 0 {
      assert q * b == -(q * (-b));
    }
  }

  lemma AtLeastLeft(m: int, n: int)
    requires m >= 0 && n >= 1
    ensures m * n >= m
  {
    assert m * n == m * (n - 1) + m;
    assert m * (n - 1) >= 0;
  }

  /** Java's `w & ~7` on `int`: the two's complement bit pattern with its three
      low bits cleared is `w` minus its non-negative remainder modulo 8, which
      Dafny's Euclidean `%` gives for negative `w` as well. */
  function ClearLow3Bits(w: Int32): (r: Int32)
    ensures r % 8 == 0
    ensures w - 8 < r <= w
  {
    w - w % 8
  }

  /** Java's `(r & 1) != 0` on `int`: the low bit of the two's complement
      pattern is set exactly when the Euclidean remainder modulo 2 is 1, that
      is, when Java's own truncating `r % 2` is not 0 (it is -1 for a
      negative odd `r`). */
  predicate LowBitSet(r: Int32)
    ensures LowBitSet(r) <==> r - Quot(r, 2) * 2 != 0
  {
    r % 2 == 1
  }

  /** Quot is the truncating division: it rounds toward zero, so it differs
      from Dafny's Euclidean division on a negative dividend. */
  lemma QuotTruncates()
    ensures Quot(-7, 2) == -3 && -7 / 2 == -4
    ensures Quot(7, -2) == -3 && Quot(-7, -2) == 3
  {
  }

  /** Java's one overflowing division wraps back to `MIN`. */
  lemma DivOverflow()
    ensures Div(MIN, -1) == MIN
  {
  }
}
