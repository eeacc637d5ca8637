/** Unsigned 64-bit machine arithmetic, written out on unbounded integers. */
module Words {

  const TWO_TO_64: nat := 0x1_0000_0000_0000_0000

  /** A value a 64-bit unsigned variable can hold. */
  type uint64 = x: int | 0 <= x < TWO_TO_64

  /** The value a 64-bit unsigned operation leaves when its exact result is x. */
  function Wrap(x: int): uint64 {
    x % TWO_TO_64
  }

  function Pow2(k: nat): (p: nat)
    ensures p >= 1
  {
    if k == 0 then 1 else 2 * Pow2(k - 1)
  }

  /** Bitwise "and" of two natural numbers, bit by bit from the lowest. */
  function BitAnd(a: nat, b: nat): (c: nat)
    ensures c <= b
    decreases b
  {
    if b == 0 then 0 else (a % 2) * (b % 2) + 2 * BitAnd(a / 2, b / 2)
  }

  /** Masking with 2^k - 1 keeps the remainder modulo 2^k. */
  lemma MaskIsRemainder(a: nat, k: nat)
    ensures BitAnd(a, Pow2(k) - 1) == a % Pow2(k)
  {
    MaskOf(a, k, Pow2(k));
  }

  lemma {:induction false} MaskOf(a: nat, k: nat, m: nat)
    requires m == Pow2(k)
    ensures BitAnd(a, m - 1) == a % m
  {
    if k == 0 {
      assert m == 1;
    } else {
      var half := Pow2(k - 1);
      MaskOf(a / 2, k - 1, half);
      DoubleMask(a, half, m);
    }
  }

  /** What a mask does to the upper bits it does to all of them, twice as wide. */
  lemma DoubleMask(a: nat, half: nat, whole: nat)
    requires half > 0 && whole == 2 * half
    requires BitAnd(a / 2, half - 1) == a / 2 % half
    ensures BitAnd(a, whole - 1) == a % whole
  {
    OddMask(a, half);
    ModTimesTwo(a, half);
  }

  lemma OddMask(a: nat, half: nat)
    requires half > 0
    ensures BitAnd(a, 2 * half - 1) == a % 2 + 2 * BitAnd(a / 2, half - 1)
  {
    OddHalves(half);
  }

  lemma OddHalves(half: nat)
    requires half > 0
    ensures (2 * half - 1) / 2 == half - 1 && (2 * half - 1) % 2 == 1
  {
  }

  lemma ModTimesTwo(a: nat, m: nat)
    requires m > 0
    ensures a % (2 * m) == a % 2 + 2 * (a / 2 % m)
  {
    var q, r := a / 2 / m, a / 2 % m;
    assert a / 2 == m * q + r;
    MulOfMul(2, m, q);
    ModUnique(a, 2 * m, q, a % 2 + 2 * r);
  }

  /** Division with remainder has one answer. */
  lemma ModUnique(a: int, m: nat, q: int, r: int)
    requires m > 0 && 0 <= r < m && a == m * q + r
    ensures a % m == r && a / m == q
  {
    var q1, r1 := a / m, a % m;
    assert a == m * q1 + r1;
    if q1 < q {
      assert m * (q1 + 1) == m * q1 + m;
      MulOrder(m, q1 + 1, q);
    } else if q < q1 {
      assert m * (q + 1) == m * q + m;
      MulOrder(m, q + 1, q1);
    }
  }

  /** Two numbers less than m apart have different remainders. */
  lemma ResiduesDiffer(a: nat, b: nat, m: nat)
    requires a < b < a + m
    ensures a % m != b % m
  {
    var q, x := a / m, a % m + (b - a);
    if x < m {
      ModUnique(b, m, q, x);
    } else {
      assert b == m * (q + 1) + (x - m);
      ModUnique(b, m, q + 1, x - m);
    }
  }

  /** A power of two below 2^64 fits a 64-bit variable. */
  lemma PowerFits(bits: nat)
    requires bits < 64
    ensures Pow2(bits) < TWO_TO_64
  {
    Pow2Of64();
    Pow2Adds(bits, 64 - bits);
    assert Pow2(64 - bits) >= 2;
    MulOrder(Pow2(bits), 2, Pow2(64 - bits));
  }

  lemma MulSum(a: int, b: int, c: int)
    ensures (a + b) * c == a * c + b * c
  {
  }

  lemma MulOfMul(a: int, b: int, c: int)
    ensures a * b * c == a * (b * c)
  {
  }

  lemma MulOrder(m: nat, x: int, y: int)
    requires x <= y
    ensures m * x <= m * y
  {
    assert m * y - m * x == m * (y - x);
  }

  lemma {:induction false} Pow2Adds(j: nat, k: nat)
    ensures Pow2(j + k) == Pow2(j) * Pow2(k)
  {
    if j == 0 {
    } else {
      Pow2Adds(j - 1, k);
      assert Pow2(j + k) == 2 * Pow2(j - 1 + k);
    }
  }

  lemma Pow2Of64()
    ensures Pow2(64) == TWO_TO_64
  {
    assert Pow2(4) == 16;
    Pow2Adds(4, 4);
    Pow2Adds(8, 8);
    Pow2Adds(16, 16);
    Pow2Adds(32, 32);
  }

  /** Reducing modulo 2^64 first does not change a remainder modulo a smaller power of two. */
  lemma WrapKeepsRemainder(c: nat, k: nat)
    requires k <= 64
    ensures Wrap(c) % Pow2(k) == c % Pow2(k)
  {
    Pow2Of64();
    Pow2Adds(k, 64 - k);
    RemainderThroughMultiple(c, Pow2(k), Pow2(64 - k));
  }

  lemma RemainderThroughMultiple(c: nat, m: nat, n: nat)
    requires m > 0 && n > 0 && m * n > 0
    ensures c % (m * n) % m == c % m
  {
    var q, w := c / (m * n), c % (m * n);
    var wq, wr := w / m, w % m;
    assert w == m * wq + wr;
    assert (m * n) * q == m * (n * q);
    assert m * (n * q) + m * wq == m * (n * q + wq);
    ModUnique(c, m, n * q + wq, wr);
  }

  /** Unsigned subtraction of two wrapped counters gives their true distance. */
  lemma WrappedDistance(a: nat, b: nat)
    requires b <= a < b + TWO_TO_64
    ensures Wrap(Wrap(a) - Wrap(b)) == a - b
  {
  }

  /** Counters less than 2^64 apart are equal exactly when they are equal once wrapped. */
  lemma WrappedEqual(a: nat, b: nat)
    requires b <= a < b + TWO_TO_64
    ensures Wrap(a) == Wrap(b) <==> a == b
  {
    WrappedDistance(a, b);
  }

  /** Adding to a wrapped counter is the wrapped sum. */
  lemma WrappedSum(a: nat, i: nat)
    ensures Wrap(Wrap(a) + i) == Wrap(a + i)
  {
  }
}
