/**
 * The fixed-width unsigned integers of the correlator's firmware and the
 * buffer-size constants it is built around.
 */
module Machine {

  /** Values of `uint8_t`, `uint16_t` and `uint32_t`. */
  type U8 = x: int | 0 <= x < 0x100
  type U16 = x: int | 0 <= x < 0x1_0000
  type U32 = x: int | 0 <= x < 0x1_0000_0000

  const Two32: int := 0x1_0000_0000

  /** ARRAYSIZE: the number of samples in one acquisition. */
  const ArraySize: nat := 4096

  /** ADC_BUF_SIZE: the number of samples one DMA half (primary or alternate) transfers. */
  const SegmentSize: nat := 1024

  /**
   * The value a `uint32_t` holds after an assignment of the mathematical
   * integer `x` (C's conversion to an unsigned type reduces modulo 2^32).
   */
  function Wrap32(x: int): (r: U32)
    ensures 0 <= x < Two32 ==> r == x
  {
    x % Two32
  }

  /** Reducing an addend first does not change the wrapped sum. */
  lemma WrapAdd(x: int, y: int)
    ensures Wrap32(x + Wrap32(y)) == Wrap32(x + y)
  {
    var q := y / Two32;
    assert y == q * Two32 + Wrap32(y);
    assert x + y == (x + Wrap32(y)) + q * Two32;
  }

  /** Division by a positive divisor has exactly one quotient and remainder. */
  lemma DivModUnique(x: int, d: int, q: int, r: int)
    requires d >= 1 && 0 <= r < d && x == q * d + r
    ensures x / d == q && x % d == r
  {
    var q', r' := x / d, x % d;
    assert x == q' * d + r';
    if q' > q {
      assert (q' - q) * d == r - r';
      MulAtLeast(q' - q, d);
      assert false;
    } else if q' < q {
      assert (q - q') * d == r' - r;
      MulAtLeast(q - q', d);
      assert false;
    }
  }

  /** A positive multiple of d is at least d. */
  lemma MulAtLeast(k: int, d: int)
    requires k >= 1 && d >= 1
    ensures k * d >= d
  {
    assert k * d == (k - 1) * d + d;
  }

  /** A truncated quotient of t by n lies in [lo, hi] when t does in [n*lo, n*hi]. */
  lemma QuotientBounds(t: int, n: int, lo: int, hi: int)
    requires n >= 1 && n * lo <= t <= n * hi
    ensures lo <= t / n <= hi
  {
    var q, r := t / n, t % n;
    assert t == q * n + r && 0 <= r < n;
    if q < lo {
      assert (lo - q) * n == lo * n - q * n;
      MulAtLeast(lo - q, n);
      assert false;
    }
    if q > hi {
      assert (q - hi) * n == q * n - hi * n;
      MulAtLeast(q - hi, n);
      assert false;
    }
  }

  /** Dividing a count by a positive divisor never makes it larger. */
  lemma QuotientAtMost(t: nat, n: nat)
    requires n >= 1
    ensures 0 <= t / n <= t
  {
    MulAtLeast(n, 1);
    assert n * t == t + (n - 1) * t;
    QuotientBounds(t, n, 0, t);
  }

  /** Multiplying by a non-negative factor keeps the order. */
  lemma MulMonotone(a: nat, b: nat, c: nat)
    requires a <= b
    ensures a * c <= b * c
  {
    assert b * c == a * c + (b - a) * c;
  }
}
