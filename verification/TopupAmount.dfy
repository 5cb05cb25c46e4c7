/** Top-ups requested in tokens: the order stores whole units, the callback credits units times QuotaPerUnit. */
module TopupAmount {

  /** Ten to the power of decimal.DivisionPrecision. */
  const SCALE: nat := 10_000_000_000_000_000

  /** decimal.Div: the quotient in units of one over SCALE, rounded half up. */
  function DivRound(a: nat, q: nat): nat
    requires q > 0
  {
    (2 * (a * SCALE) + q) / (2 * q)
  }

  /** The amount RequestEpay stores: Div, then IntPart. */
  function StoredAmount(a: nat, q: nat): nat
    requires q > 0
  {
    DivRound(a, q) / SCALE
  }

  /** The quota EpayNotify adds. */
  function Credited(a: nat, q: nat): nat
    requires q > 0
  {
    StoredAmount(a, q) * q
  }

  /** At most the request, and less than one unit short of it. */
  predicate CreditedRight(a: nat, q: nat)
    requires q > 0
  {
    Credited(a, q) <= a < Credited(a, q) + q
  }

  /** getMinTopup in token mode. */
  function MinTokens(minTopUp: nat, q: nat): nat {
    minTopUp * q
  }

  lemma QuotientIs(y: nat, d: nat, k: nat, s: nat)
    requires s < d && y == k * d + s
    ensures y / d == k
  {
    assert y == (y / d) * d + y % d;
    SameQuotient(y / d, y % d, k, s, d);
  }

  lemma DivShift(x: nat, m: nat, d: nat)
    requires d > 0
    ensures (x + m * d) / d == m + x / d
  {
    var k, s := x / d, x % d;
    assert x == k * d + s;
    assert (m + k) * d == m * d + k * d;
    QuotientIs(x + m * d, d, m + k, s);
  }

  lemma SameQuotient(u: nat, r: nat, v: nat, s: nat, d: nat)
    requires r < d && s < d && u * d + r == v * d + s
    ensures u == v
  {
    if u < v { Gap(u, v, d); }
    if v < u { Gap(v, u, d); }
  }

  lemma Gap(u: nat, v: nat, d: nat)
    requires u < v
    ensures u * d + d <= v * d
  {
    assert v * d == (u + 1) * d + (v - u - 1) * d;
    Nonnegative(v - u - 1, d);
  }

  lemma Nonnegative(a: nat, b: nat)
    ensures a * b >= 0
  {
  }

  /** The stored amount is the whole quotient and what the rounding of the remainder carries over. */
  lemma StoredSplits(k: nat, r: nat, q: nat)
    requires r < q
    ensures StoredAmount(k * q + r, q) == k + ((2 * (r * SCALE) + q) / (2 * q)) / SCALE
  {
    var x := 2 * (r * SCALE) + q;
    assert 2 * ((k * q + r) * SCALE) + q == x + (k * SCALE) * (2 * q);
    DivShift(x, k * SCALE, 2 * q);
    DivShift(x / (2 * q), k, SCALE);
  }

  /** The rounding carries at most one unit, and exactly when the remainder is that close to the divisor. */
  lemma Carry(r: nat, q: nat)
    requires r < q
    ensures ((2 * (r * SCALE) + q) / (2 * q)) / SCALE == if 2 * ((q - r) * SCALE) <= q then 1 else 0
  {
    var x := 2 * (r * SCALE) + q;
    var t := x / (2 * q);
    assert x == t * (2 * q) + x % (2 * q);
    assert (q - r) * SCALE == q * SCALE - r * SCALE;
    if 2 * ((q - r) * SCALE) <= q {
      if t < SCALE { Gap(t, SCALE, 2 * q); }
    } else {
      if t >= SCALE { if t > SCALE { Gap(SCALE, t, 2 * q); } }
    }
    if t >= 2 * SCALE { Gap(SCALE, t, 2 * q); Nonnegative(r, SCALE); }
  }

  /** The whole quotient is stored exactly when the remainder is not within rounding distance of the divisor. */
  lemma StoredExactlyWhen(a: nat, q: nat)
    requires q > 0
    ensures StoredAmount(a, q) == a / q <==> 2 * ((q - a % q) * SCALE) > q
    ensures StoredAmount(a, q) == a / q || StoredAmount(a, q) == a / q + 1
  {
    assert a == (a / q) * q + a % q;
    StoredSplits(a / q, a % q, q);
    Carry(a % q, q);
  }

  /** What the callback credits: at most the request and less than one unit short of it, exactly when the rounding
      does not carry; never less than the minimum. */
  lemma CreditedExactlyWhen(a: nat, q: nat, minTopUp: nat)
    requires q > 0 && a >= MinTokens(minTopUp, q)
    ensures CreditedRight(a, q) <==> 2 * ((q - a % q) * SCALE) > q
    ensures Credited(a, q) >= MinTokens(minTopUp, q)
  {
    StoredExactlyWhen(a, q);
    Divided(a, q);
    CreditedFrom(a, q, a / q, a % q, minTopUp, StoredAmount(a, q));
  }

  lemma Divided(a: nat, q: nat)
    requires q > 0
    ensures a == (a / q) * q + a % q && a % q < q
  {
  }

  lemma CreditedFrom(a: nat, q: nat, k: nat, r: nat, minTopUp: nat, stored: nat)
    requires a == k * q + r && r < q && (stored == k || stored == k + 1) && a >= minTopUp * q
    ensures (stored * q <= a < stored * q + q <==> stored == k) && stored * q >= minTopUp * q
  {
    CreditedWhole(a, q, k, r, stored);
    AtLeastMinimum(k, r, q, minTopUp, stored);
  }

  lemma CreditedWhole(a: nat, q: nat, k: nat, r: nat, stored: nat)
    requires a == k * q + r && r < q && (stored == k || stored == k + 1)
    ensures stored * q <= a < stored * q + q <==> stored == k
  {
    assert (k + 1) * q == k * q + q;
  }

  lemma AtLeastMinimum(k: nat, r: nat, q: nat, minTopUp: nat, stored: nat)
    requires r < q && k * q + r >= minTopUp * q && stored >= k
    ensures stored * q >= minTopUp * q
  {
    if minTopUp > k { Gap(k, minTopUp, q); }
    if minTopUp < stored { Gap(minTopUp, stored, q); }
  }

  /** Whatever the minimum, every request that reaches it is credited right exactly when QuotaPerUnit is below twice
      the decimal scale. */
  lemma AlwaysCreditedRight(q: nat, minTopUp: nat)
    requires q > 0
    ensures (forall a: nat | a >= MinTokens(minTopUp, q) :: CreditedRight(a, q)) <==> q < 20_000_000_000_000_000
  {
    if q < 2 * SCALE {
      forall a: nat | a >= MinTokens(minTopUp, q) ensures CreditedRight(a, q) {
        Nonnegative(q - a % q - 1, SCALE);
        CreditedExactlyWhen(a, q, minTopUp);
      }
    } else {
      RoundedUp(q, minTopUp);
    }
  }

  /** One token less than a whole number of such units is credited as that number. */
  lemma RoundedUp(q: nat, minTopUp: nat)
    requires q >= 2 * SCALE
    ensures var a := minTopUp * q + q - 1;
      a >= MinTokens(minTopUp, q) && Credited(a, q) == a + 1 && !CreditedRight(a, q)
  {
    var a := minTopUp * q + q - 1;
    DivShift(q - 1, minTopUp, q);
    QuotientIs(q - 1, q, 0, q - 1);
    assert a == (a / q) * q + a % q;
    StoredExactlyWhen(a, q);
    assert (minTopUp + 1) * q == minTopUp * q + q;
  }

  /** At the default minimum of one unit. */
  lemma RoundedUpExample()
    ensures var q := 2 * SCALE; 2 * q - 1 >= MinTokens(1, q) && Credited(2 * q - 1, q) == 2 * q
  {
    RoundedUp(2 * SCALE, 1);
  }
}
