/** Conversion of integers to IEEE 754 binary64: round to nearest, ties to even (section 4.3.1 of IEEE 754-2008). */
module Binary64 {
  import opened Bits

  /** One more than the largest significand. */
  const SIGNIFICAND: nat := 0x20_0000_0000_0000

  /** Binary digits of `n` beyond the 53 a significand holds. */
  function Excess(n: nat): nat {
    if n < SIGNIFICAND then 0 else 1 + Excess(n / 2)
  }

  /** The leading 53 binary digits. */
  function Leading(n: nat): nat {
    if n < SIGNIFICAND then n else Leading(n / 2)
  }

  function Nearest(n: nat): nat {
    var unit, q := Pow2(Excess(n)), Leading(n);
    var r := n - Product(q, Excess(n));
    Product(if 2 * r > unit || (2 * r == unit && q % 2 == 1) then q + 1 else q, Excess(n))
  }

  function Abs(n: int): nat {
    if n < 0 then -n else n
  }

  function FromInt(n: int): int {
    if n < 0 then 0 - Nearest(-n) else Nearest(n)
  }

  // ---- the reference: which integers have a binary64 form, and which of them is nearest ----

  ghost predicate Representable(v: nat) {
    exists m: nat, k: nat :: m < SIGNIFICAND && v == Product(m, k)
  }

  function Product(m: nat, k: nat): nat {
    m * Pow2(k)
  }

  function Distance(a: nat, b: nat): nat {
    if a < b then b - a else a - b
  }

  lemma {:induction false} Pow2Splits(k: nat, j: nat)
    requires j <= k
    ensures Pow2(k) == Pow2(k - j) * Pow2(j)
  {
    if j == 0 {
    } else {
      Pow2Splits(k - 1, j - 1);
    }
  }

  lemma {:induction false} Pow2IsMonotone(k: nat, j: nat)
    requires k <= j
    ensures Pow2(k) <= Pow2(j)
  {
    if k == j {
    } else {
      Pow2IsMonotone(k, j - 1);
    }
  }

  /** What the leading digits leave over is less than a unit, and they fill the significand unless the number is short. */
  lemma {:induction false} LeadingDigits(n: nat)
    ensures Product(Leading(n), Excess(n)) <= n < Product(Leading(n), Excess(n)) + Pow2(Excess(n))
    ensures Leading(n) < SIGNIFICAND
    ensures Excess(n) > 0 ==> Leading(n) >= SIGNIFICAND / 2
  {
    if n < SIGNIFICAND {
    } else {
      LeadingDigits(n / 2);
      var q, e := Leading(n), Excess(n);
      assert Product(q, e) == 2 * Product(q, e - 1);
    }
  }

  lemma Ordered(d: nat, a: nat, b: nat)
    requires a <= b
    ensures d * a <= d * b
  {
  }

  lemma NextMultiple(q: nat, e: nat)
    ensures Product(q + 1, e) == Product(q, e) + Pow2(e)
  {
  }

  lemma MultiplesAreOrdered(a: nat, b: nat, e: nat)
    requires a <= b
    ensures Product(a, e) <= Product(b, e)
  {
    Ordered(Pow2(e), a, b);
  }

  lemma MultipleOfUnit(m: nat, k: nat, e: nat)
    requires e <= k
    ensures Product(m, k) == Product(m * Pow2(k - e), e)
  {
    Pow2Splits(k, e);
    Associated(m, Pow2(k - e), Pow2(e));
  }

  lemma Associated(a: nat, b: nat, c: nat)
    ensures a * (b * c) == (a * b) * c
  {
  }

  lemma FinerIsSmaller(m: nat, k: nat, e: nat)
    requires m < SIGNIFICAND && k < e
    ensures Product(m, k) <= Product(SIGNIFICAND / 2, e)
  {
    MultiplesAreOrdered(m, SIGNIFICAND, k);
    Pow2IsMonotone(k + 1, e);
    Ordered(SIGNIFICAND / 2, Pow2(k + 1), Pow2(e));
  }

  /** No representable number lies strictly between two neighbouring multiples of the unit. */
  lemma NothingBetween(w: nat, m: nat, k: nat, e: nat, q: nat)
    requires m < SIGNIFICAND && w == Product(m, k)
    requires e > 0 ==> q >= SIGNIFICAND / 2
    ensures w <= Product(q, e) || w >= Product(q + 1, e)
  {
    hide Product, Pow2;
    if k >= e {
      MultipleOfUnit(m, k, e);
      var t := m * Pow2(k - e);
      if t <= q { MultiplesAreOrdered(t, q, e); } else { MultiplesAreOrdered(q + 1, t, e); }
    } else {
      FinerIsSmaller(m, k, e);
      MultiplesAreOrdered(SIGNIFICAND / 2, q, e);
    }
  }

  lemma MultiplesAreRepresentable(q: nat, e: nat)
    requires q < SIGNIFICAND
    ensures Representable(Product(q, e)) && Representable(Product(q + 1, e))
  {
    if q + 1 == SIGNIFICAND {
      assert Product(q + 1, e) == Product(SIGNIFICAND / 2, e + 1);
    }
  }

  /** The result is one of the two multiples of the unit around `n`: the nearer one, or the even one. */
  lemma NearestIsANeighbour(n: nat)
    ensures var e, q, v := Excess(n), Leading(n), Nearest(n);
            && Product(q, e) <= n < Product(q, e) + Pow2(e)
            && (v == Product(q, e) || v == Product(q, e) + Pow2(e))
            && Distance(n, v) <= Distance(n, Product(q, e)) && Distance(n, v) <= Distance(n, Product(q, e) + Pow2(e))
            && (2 * Distance(n, v) == Pow2(e) ==> exists j: nat :: v == Product(2 * j, e))
  {
    var e, q := Excess(n), Leading(n);
    LeadingDigits(n);
    NextMultiple(q, e);
    if Nearest(n) == Product(q, e) {
      assert q % 2 == 0 ==> Nearest(n) == Product(2 * (q / 2), e);
    } else {
      assert q % 2 == 1 ==> Nearest(n) == Product(2 * ((q + 1) / 2), e);
    }
    hide Product, Pow2, Excess, Leading;
  }

  /** The conversion is correctly rounded; of two equally near values it takes the even one. */
  lemma NearestIsNearest(n: nat, w: nat)
    requires Representable(w)
    ensures Representable(Nearest(n))
    ensures Distance(n, Nearest(n)) <= Distance(n, w)
    ensures Distance(n, Nearest(n)) == Distance(n, w) && w != Nearest(n) ==>
      exists j: nat :: Nearest(n) == Product(2 * j, Excess(n))
  {
    var e := Excess(n);
    var q := Leading(n);
    NearestIsANeighbour(n);
    LeadingDigits(n);
    MultiplesAreRepresentable(q, e);
    NextMultiple(q, e);
    var m: nat, k: nat :| m < SIGNIFICAND && w == Product(m, k);
    NothingBetween(w, m, k, e, q);
    hide Product, Pow2, Excess, Leading, Nearest;
  }

  // ---- the integers that convert exactly ----

  lemma SmallIsExact(n: nat)
    requires n <= SIGNIFICAND
    ensures Nearest(n) == n
  {
    if n == SIGNIFICAND {
      assert Excess(n) == 1;
      assert Pow2(1) == 2;
    }
  }

  lemma FirstInexact()
    ensures Nearest(SIGNIFICAND + 1) == SIGNIFICAND
  {
    assert Excess(SIGNIFICAND + 1) == 1 && Leading(SIGNIFICAND + 1) == SIGNIFICAND / 2;
    assert Pow2(1) == 2;
  }

  /** 2^53 is the largest magnitude up to which no two integers convert alike. */
  lemma InjectiveUpTo(bound: nat)
    ensures (forall a, b :: Abs(a) <= bound && Abs(b) <= bound && FromInt(a) == FromInt(b) ==> a == b)
        <==> bound <= SIGNIFICAND
  {
    if bound <= SIGNIFICAND {
      forall a, b | Abs(a) <= bound && Abs(b) <= bound && FromInt(a) == FromInt(b)
        ensures a == b
      {
        IntIsExact(a);
        IntIsExact(b);
      }
    } else {
      SmallIsExact(SIGNIFICAND);
      FirstInexact();
      assert FromInt(SIGNIFICAND) == FromInt(SIGNIFICAND + 1);
    }
  }

  lemma IntIsExact(n: int)
    requires Abs(n) <= SIGNIFICAND
    ensures FromInt(n) == n
  {
    SmallIsExact(Abs(n));
  }
}
