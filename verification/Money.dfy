/** Decimal amounts, the two-decimal gate of the schemas and quantisation to cents. */
module Money {
  /** The number units / 10^places. */
  datatype Decimal = Decimal(units: int, places: nat)

  function Pow10(n: nat): (p: nat)
    ensures p >= 1
  {
    if n == 0 then 1 else 10 * Pow10(n - 1)
  }

  ghost predicate SameValue(a: Decimal, b: Decimal) {
    a.units * Pow10(b.places) == b.units * Pow10(a.places)
  }

  /** decimal_places=2, which ignores trailing zeros. */
  predicate AtMostTwoPlaces(d: Decimal) {
    d.places <= 2 || d.units % Pow10(d.places - 2) == 0
  }

  function RoundHalfEven(n: int, m: nat): int
    requires m > 0
  {
    var q, r := n / m, n % m;
    if 2 * r < m || (2 * r == m && q % 2 == 0) then q else q + 1
  }

  /** quantize(Decimal("0.01")), in cents. */
  function Cents(d: Decimal): int {
    if d.places <= 2 then d.units * Pow10(2 - d.places) else RoundHalfEven(d.units, Pow10(d.places - 2))
  }

  /** One XRP is a million drops. */
  function DropsToXrp(drops: Decimal): Decimal {
    Decimal(drops.units, drops.places + 6)
  }

  lemma {:induction false} Pow10Add(a: nat, b: nat)
    ensures Pow10(a + b) == Pow10(a) * Pow10(b)
  {
    if a > 0 {
      Pow10Add(a - 1, b);
      assert 10 * (Pow10(a - 1) * Pow10(b)) == 10 * Pow10(a - 1) * Pow10(b);
    }
  }

  /** Quantisation takes the nearest number of cents, and of two that are equally near the even one. */
  lemma CentsAreNearest(d: Decimal)
    requires d.places > 2
    ensures
      var (c, cent) := (Cents(d), Pow10(d.places - 2));
      && -cent <= 2 * (d.units - c * cent) <= cent
      && (2 * (d.units - c * cent) in {-cent, cent} ==> c % 2 == 0)
  {
    var cent := Pow10(d.places - 2);
    var q := d.units / cent;
    assert d.units == q * cent + d.units % cent;
    assert (q + 1) * cent == q * cent + cent;
  }

  /** Behind the gate quantisation loses nothing. */
  lemma GateIsExact(d: Decimal)
    requires AtMostTwoPlaces(d)
    ensures SameValue(Decimal(Cents(d), 2), d)
  {
    if d.places <= 2 {
      Pow10Add(2 - d.places, d.places);
      calc {
        Cents(d) * Pow10(d.places);
        d.units * Pow10(2 - d.places) * Pow10(d.places);
        d.units * (Pow10(2 - d.places) * Pow10(d.places));
        d.units * Pow10(2);
      }
    } else {
      var m := Pow10(d.places - 2);
      Pow10Add(2, d.places - 2);
      assert d.units == (d.units / m) * m;
      calc {
        Cents(d) * Pow10(d.places);
        (d.units / m) * (Pow10(2) * m);
        (d.units / m) * m * Pow10(2);
        d.units * Pow10(2);
      }
    }
  }

  /** Two gated amounts have the same cents exactly when they are the same number. */
  lemma GatedCentsDecide(a: Decimal, b: Decimal)
    requires AtMostTwoPlaces(a) && AtMostTwoPlaces(b)
    ensures Cents(a) == Cents(b) <==> SameValue(a, b)
  {
    GateIsExact(a);
    GateIsExact(b);
    assert Pow10(2) == 100 by { assert Pow10(1) == 10; }
    CrossMultiply(a.units, b.units, Pow10(a.places), Pow10(b.places), Cents(a), Cents(b));
  }

  lemma CrossMultiply(ua: int, ub: int, pa: nat, pb: nat, c: int, e: int)
    requires pa > 0 && pb > 0 && c * pa == ua * 100 && e * pb == ub * 100
    ensures c == e <==> ua * pb == ub * pa
  {
    var p := pa * pb;
    calc {
      (c - e) * p;
      (c * pa) * pb - (e * pb) * pa;
      (ua * 100) * pb - (ub * 100) * pa;
      100 * (ua * pb - ub * pa);
    }
    assert p > 0 by { ZeroProduct(pa, pb); }
    ZeroProduct(c - e, p);
  }

  lemma ZeroProduct(x: int, p: int)
    requires p > 0
    ensures x * p == 0 <==> x == 0
    ensures x > 0 ==> x * p > 0
  {
    if x > 0 { assert x * p > 0; } else if x < 0 { assert x * p < 0; }
  }

  /** An amount passes the gate with these cents exactly when it is that many hundredths. */
  lemma GatedIffWhole(d: Decimal, c: int)
    ensures AtMostTwoPlaces(d) && Cents(d) == c <==> SameValue(d, Decimal(c, 2))
    ensures SameValue(d, Decimal(c, 2)) ==> (d.units > 0 <==> c > 0)
  {
    assert Pow10(2) == 100 by { assert Pow10(1) == 10; }
    if AtMostTwoPlaces(d) { GatedCentsDecide(d, Decimal(c, 2)); }
    if SameValue(d, Decimal(c, 2)) {
      ZeroProduct(c, Pow10(d.places));
      ZeroProduct(-c, Pow10(d.places));
      if d.places > 2 {
        var m := Pow10(d.places - 2);
        Pow10Add(2, d.places - 2);
        assert 100 * d.units == 100 * (c * m);
        Multiple(c, m);
      }
    }
  }

  lemma Multiple(c: int, m: nat)
    requires m > 0
    ensures (c * m) % m == 0
  {
    var k, r := c - c * m / m, (c * m) % m;
    assert k * m == r;
    ZeroProduct(k - 1, m);
    ZeroProduct(-k, m);
  }

  /** A millionth for each drop: `c` cents are 10000 * c drops. */
  lemma DropsInCents(drops: Decimal, c: int)
    ensures SameValue(DropsToXrp(drops), Decimal(c, 2)) <==> SameValue(drops, Decimal(10000 * c, 0))
  {
    Pow10Add(drops.places, 6);
    assert Pow10(2) == 100 && Pow10(6) == 1000000 by {
      assert Pow10(1) == 10;
      assert Pow10(3) == 1000;
      assert Pow10(4) == 10000;
      assert Pow10(5) == 100000;
    }
    calc {
      c * Pow10(drops.places + 6);
      c * (Pow10(drops.places) * 1000000);
      100 * (10000 * c * Pow10(drops.places));
    }
  }

  /** A whole number of drops passes the gate as c cents exactly when it is 10000 * c drops. */
  lemma DropsMatchCents(drops: int, c: int)
    ensures AtMostTwoPlaces(DropsToXrp(Decimal(drops, 0))) && Cents(DropsToXrp(Decimal(drops, 0))) == c
       <==> drops == 10000 * c
  {
    assert Pow10(4) == 10000 by {
      assert Pow10(1) == 10;
      assert Pow10(2) == 100;
      assert Pow10(3) == 1000;
    }
  }

  /** Without the gate rounding would accept an amount that is not the intent's. */
  lemma UngatedDropsRound()
    ensures Cents(DropsToXrp(Decimal(14999, 0))) == 1 && !AtMostTwoPlaces(DropsToXrp(Decimal(14999, 0)))
  {
    DropsMatchCents(14999, 1);
    assert Pow10(4) == 10000 by {
      assert Pow10(1) == 10;
      assert Pow10(2) == 100;
      assert Pow10(3) == 1000;
    }
  }
}
