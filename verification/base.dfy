/** Fixed-width unsigned integer types and the small failure-carrying
    datatypes shared by the rest of the model. */
module Base {

  const U8_LIMIT: nat := 0x100
  const U16_LIMIT: nat := 0x1_0000
  const U32_LIMIT: nat := 0x1_0000_0000
  const U64_LIMIT: nat := 0x1_0000_0000_0000_0000

  type u8 = x: nat | x < U8_LIMIT
  type u16 = x: nat | x < U16_LIMIT
  type u32 = x: nat | x < U32_LIMIT
  type u64 = x: nat | x < U64_LIMIT

  /** Go's `uint64` arithmetic wraps modulo 2^64. */
  function Wrap64(x: int): (r: u64)
    ensures 0 <= x < U64_LIMIT ==> r == x
    ensures (r - x) % U64_LIMIT == 0
  {
    x % U64_LIMIT
  }

  /** 2^k. */
  function Pow2(k: nat): (r: nat)
    ensures r >= 1
  {
    if k == 0 then 1 else 2 * Pow2(k - 1)
  }

  lemma {:induction false} Pow2Add(a: nat, b: nat)
    ensures Pow2(a + b) == Pow2(a) * Pow2(b)
    decreases a
  {
    if a > 0 {
      Pow2Add(a - 1, b);
    }
  }

  /** 2^8, 2^16 and 2^32 are the limits of the unsigned word types. */
  lemma Pow2Limits()
    ensures Pow2(8) == U8_LIMIT && Pow2(16) == U16_LIMIT && Pow2(32) == U32_LIMIT
  {
    Pow2Add(8, 8);
    Pow2Add(16, 16);
  }

  /** 2^i <= 2^j whenever i <= j. */
  lemma Pow2Monotone(i: nat, j: nat)
    requires i <= j
    ensures Pow2(i) <= Pow2(j)
  {
    Pow2Add(i, j - i);
    MulAtLeast(Pow2(j - i), Pow2(i));
  }

  /** k*x >= x for a positive factor k. */
  lemma MulAtLeast(k: nat, x: nat)
    ensures k >= 1 ==> k * x >= x
  {
    if k >= 1 { assert k * x == x + (k - 1) * x; }
  }

  /** Multiplication by a natural number is monotone. */
  lemma MulMonotone(k: nat, x: nat, y: nat)
    requires x <= y
    ensures k * x <= k * y
  {
    assert k * y == k * x + k * (y - x);
  }

  /** A positive factor can be cancelled from both sides of <=. */
  lemma MulCancelLe(k: nat, x: nat, y: nat)
    requires k > 0 && k * x <= k * y
    ensures x <= y
  {
    if x > y {
      assert k * x == k * y + k * (x - y);
      MulAtLeast(k, x - y);
    }
  }

  /** x < m*d bounds the quotient x / d by m. */
  lemma DivBelow(x: nat, d: nat, m: nat)
    requires d > 0 && x < m * d
    ensures x / d < m
  {
    if x / d >= m {
      MulMonotone(d, m, x / d);
    }
  }

  /** Division by a positive number is monotone. */
  lemma DivMonotone(x: nat, y: nat, d: nat)
    requires d > 0 && x <= y
    ensures x / d <= y / d
  {
    if x / d > y / d {
      MulMonotone(d, y / d + 1, x / d);
    }
  }

  /** Only k = 0 puts k*m strictly between -m and m. */
  lemma SmallMultipleIsZero(k: int, m: int)
    requires m > 0 && -m < k * m < m
    ensures k == 0
  {
    if k >= 1 {
      MulAtLeast(k, m);
    } else if k <= -1 {
      assert (-k) * m == -(k * m);
      MulAtLeast(-k, m);
    }
  }

  /** Euclidean division is determined by its defining equation. */
  lemma DivModUnique(x: int, q: int, r: int, m: int)
    requires m > 0 && x == q * m + r && 0 <= r < m
    ensures x / m == q && x % m == r
  {
    var q', r' := x / m, x % m;
    assert (q - q') * m == r' - r;
    SmallMultipleIsZero(q - q', m);
  }

  lemma SmallMod(x: nat, m: nat)
    requires m > 0
    ensures x < m ==> x % m == x
  {
    if x < m { DivModUnique(x, 0, x, m); }
  }

  lemma ModAddMultiple(a: int, k: int, m: int)
    requires m > 0
    ensures (a + k * m) % m == a % m
  {
    DivModUnique(a + k * m, a / m + k, a % m, m);
  }

  /** Wrapping an intermediate sum does not change the wrapped total. */
  lemma WrapAdd(x: int, y: int)
    ensures Wrap64(Wrap64(x) + y) == Wrap64(x + y)
  {
    ModAddMultiple(x % U64_LIMIT + y, x / U64_LIMIT, U64_LIMIT);
  }

  datatype Option<+T> = None | Some(value: T)

  datatype Result<+T, +E> = Success(value: T) | Failure(error: E)
}
