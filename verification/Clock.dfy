/** Ticks to nanoseconds since a start tick, in 64-bit arithmetic. */
module Clock {
  import opened Words

  const TWO_TO_32: nat := 0x1_0000_0000

  type uint32 = x: int | 0 <= x < TWO_TO_32

  /** One tick is num / denom nanoseconds. */
  datatype TickConversion = TickConversion(start: uint64, num: uint32, denom: uint32) {

    ghost predicate Valid() { denom > 0 }

    /** The nanoseconds from the start to the tick, as the machine computes them. */
    function NsElapsed(ticks: uint64): uint64
      requires Valid()
    {
      if ticks <= start then 0
      else
        var elapsed := ticks - start;
        Wrap(Wrap(elapsed / denom * num) + Wrap(elapsed % denom * num) / denom)
    }

    /** The nanoseconds, exactly, rounded down. */
    function ExactNs(ticks: uint64): nat
      requires Valid()
    {
      if ticks <= start then 0 else Scaled(ticks - start, num, denom)
    }
  }

  /** That many ticks in nanoseconds, rounded down. */
  function Scaled(elapsed: nat, num: nat, denom: nat): (ns: nat)
    requires denom > 0
  {
    ScaledIsNat(elapsed, num, denom);
    elapsed * num / denom
  }

  lemma ScaledIsNat(elapsed: nat, num: nat, denom: nat)
    requires denom > 0
    ensures elapsed * num >= 0 && elapsed * num / denom >= 0
  {
    MulOrder(num, 0, elapsed);
    QuotientIsNat(elapsed * num, denom);
  }

  lemma QuotientIsNat(x: nat, d: nat)
    requires d > 0
    ensures x / d >= 0
  {
    if x / d < 0 {
      MulOrder(d, x / d, -1);
    }
  }

  /** Splitting the product does not change its quotient. */
  lemma SplitQuotient(elapsed: nat, num: nat, denom: nat)
    requires denom > 0
    ensures elapsed / denom * num + elapsed % denom * num / denom == Scaled(elapsed, num, denom)
    ensures elapsed / denom * num >= 0
  {
    QuotientIsNat(elapsed, denom);
    var q, r := elapsed / denom, elapsed % denom;
    MulOrder(num, 0, q);
    MulOrder(num, 0, r);
    ScaledIsNat(elapsed, num, denom);
    assert elapsed == denom * q + r;
    SplitProduct(q, r, num, denom);
    SplitUnique(elapsed * num, denom, q * num, r * num);
  }

  lemma SplitProduct(q: nat, r: nat, num: nat, denom: nat)
    ensures (denom * q + r) * num == denom * (q * num) + r * num
  {
    MulSum(denom * q, r, num);
    MulOfMul(denom, q, num);
  }

  lemma SplitUnique(product: nat, denom: nat, whole: nat, rest: nat)
    requires denom > 0 && product == denom * whole + rest
    ensures product / denom == whole + rest / denom
  {
    var a, b := rest / denom, rest % denom;
    assert rest == denom * a + b;
    MulSum(whole, a, denom);
    ModUnique(product, denom, whole + a, b);
  }

  /** The remainder's product never overflows: both factors are below 2^32. */
  lemma RemainderProductFits(elapsed: nat, num: uint32, denom: uint32)
    requires denom > 0
    ensures 0 <= elapsed % denom * num < TWO_TO_64
  {
    var r := elapsed % denom;
    MulOrder(num, 0, r);
    assert r * num <= r * TWO_TO_32;
    assert r * TWO_TO_32 < TWO_TO_32 * TWO_TO_32;
  }

  /** What the machine computes is the exact result, wrapped. */
  lemma MachineWrapsExact(c: TickConversion, ticks: uint64)
    requires c.Valid()
    ensures c.NsElapsed(ticks) == Wrap(c.ExactNs(ticks))
  {
    if ticks > c.start {
      SplitIsExact(ticks - c.start, c.num, c.denom);
    }
  }

  /** The machine's result is exact if and only if the exact result fits 64 bits. */
  lemma ExactWhenItFits(c: TickConversion, ticks: uint64)
    requires c.Valid()
    ensures c.NsElapsed(ticks) == c.ExactNs(ticks) <==> c.ExactNs(ticks) < TWO_TO_64
  {
    MachineWrapsExact(c, ticks);
  }

  /** Neither product overflows on the way to an exact result that fits. */
  lemma NoProductOverflows(c: TickConversion, ticks: uint64)
    requires c.Valid() && c.start < ticks && c.ExactNs(ticks) < TWO_TO_64
    ensures (ticks - c.start) / c.denom * c.num < TWO_TO_64
    ensures (ticks - c.start) % c.denom * c.num < TWO_TO_64
  {
    SplitIsExact(ticks - c.start, c.num, c.denom);
  }

  lemma SplitIsExact(elapsed: nat, num: uint32, denom: uint32)
    requires denom > 0
    ensures Wrap(Wrap(elapsed / denom * num) + Wrap(elapsed % denom * num) / denom) == Wrap(Scaled(elapsed, num, denom))
    ensures elapsed / denom * num <= Scaled(elapsed, num, denom)
    ensures elapsed % denom * num < TWO_TO_64
  {
    SplitQuotient(elapsed, num, denom);
    RemainderProductFits(elapsed, num, denom);
    SplitWraps(elapsed / denom * num, elapsed % denom * num, denom);
  }

  /** Wrapping each part first changes nothing but the wrap of the whole. */
  lemma SplitWraps(whole: nat, product: nat, denom: nat)
    requires product < TWO_TO_64 && denom > 0
    ensures Wrap(Wrap(whole) + Wrap(product) / denom) == Wrap(whole + product / denom)
    ensures whole <= whole + product / denom
  {
    WrappedSum(whole, product / denom);
  }

  /** The exact result is the whole part of the elapsed ticks times num / denom. */
  lemma ExactIsFloor(c: TickConversion, ticks: uint64)
    requires c.Valid() && c.start < ticks
    ensures c.ExactNs(ticks) * c.denom <= (ticks - c.start) * c.num < (c.ExactNs(ticks) + 1) * c.denom
  {
    var product, ns := (ticks - c.start) * c.num, c.ExactNs(ticks);
    assert product == c.denom * ns + product % c.denom;
    MulSum(ns, 1, c.denom);
  }

  /** Later ticks are never earlier in time. */
  lemma ExactIsMonotone(c: TickConversion, t: uint64, u: uint64)
    requires c.Valid() && t <= u
    ensures c.ExactNs(t) <= c.ExactNs(u)
  {
    if c.start < t {
      MulOrder(c.num, t - c.start, u - c.start);
      ScaledIsNat(t - c.start, c.num, c.denom);
      QuotientOrder((t - c.start) * c.num, (u - c.start) * c.num, c.denom);
    }
  }

  lemma QuotientOrder(a: nat, b: nat, d: nat)
    requires a <= b && d > 0
    ensures a / d <= b / d
  {
    var p, q := a / d, b / d;
    assert d * (q + 1) == d * q + d > b;
    if q < p {
      MulOrder(d, q + 1, p);
    }
  }
}
