/** The conversion of integers to float64 behind every numeric comparison: to the nearest
    float64, ties to even. */
module FloatRounding {
  import opened GoValues

  function Pow2(e: nat): (p: nat)
    ensures p > 0
  {
    if e == 0 then 1 else 2 * Pow2(e - 1)
  }

  function Distance(a: int, b: int): nat {
    if a < b then b - a else a - b
  }

  lemma MulMono(a: nat, b: nat, c: nat)
    requires a <= b
    ensures a * c <= b * c
  {
  }

  lemma {:induction false} Pow2Sum(i: nat, j: nat)
    ensures Pow2(i + j) == Pow2(i) * Pow2(j)
    decreases j
  {
    if j > 0 {
      Pow2Sum(i, j - 1);
      assert Pow2(i) * (2 * Pow2(j - 1)) == 2 * (Pow2(i) * Pow2(j - 1));
    }
  }

  lemma {:induction false} Pow2Mono(i: nat, j: nat)
    requires i <= j
    ensures Pow2(i) <= Pow2(j)
    decreases j
  {
    if i < j { Pow2Mono(i, j - 1); }
  }

  /** Multiples of `ulp` lie at most at the one below `m` or at least at the one above. */
  lemma Around(m: nat, ulp: nat, c: nat)
    requires ulp > 0
    ensures m == m / ulp * ulp + m % ulp && (m / ulp + 1) * ulp == m / ulp * ulp + ulp
    ensures c * ulp <= m / ulp * ulp || m / ulp * ulp + ulp <= c * ulp
  {
    var a := m / ulp;
    if c <= a { MulMono(c, a, ulp); } else { MulMono(a + 1, c, ulp); }
  }

  /** Of the multiples of `ulp` the nearest, the even one if two are as near. */
  lemma HalfEvenIsNearest(m: nat, ulp: nat, c: nat)
    requires ulp > 0
    ensures var q := RoundHalfEven(m, ulp);
      && Distance(m, q * ulp) <= Distance(m, c * ulp)
      && (2 * Distance(m, q * ulp) == ulp ==> q % 2 == 0)
  {
    Around(m, ulp, c);
    var below, x, r := m / ulp * ulp, c * ulp, m % ulp;
    var q := RoundHalfEven(m, ulp);
    if q == m / ulp {
      assert q * ulp == below && Distance(m, below) == r;
    } else {
      assert q * ulp == below + ulp && Distance(m, below + ulp) == ulp - r;
    }
  }

  /** The unit in the last place that the conversion finds. */
  lemma {:induction false} RoundsAt(m: nat, e: nat) returns (k: nat)
    requires e == 0 || m >= TWO_53 * Pow2(e - 1)
    ensures m < TWO_53 * Pow2(k) && (k == 0 || m >= TWO_53 * Pow2(k - 1))
    ensures RoundMagnitude(m, Pow2(e)) == RoundHalfEven(m, Pow2(k)) * Pow2(k)
    decreases m - TWO_53 * Pow2(e)
  {
    if m < TWO_53 * Pow2(e) {
      k := e;
    } else {
      k := RoundsAt(m, e + 1);
    }
  }

  lemma NearestOfAll(m: nat, k: nat, c: nat, j: nat)
    requires c <= TWO_53 && (k == 0 || m >= TWO_53 * Pow2(k - 1))
    ensures Distance(m, RoundHalfEven(m, Pow2(k)) * Pow2(k)) <= Distance(m, c * Pow2(j))
  {
    if j >= k {
      Pow2Sum(j - k, k);
      assert c * (Pow2(j - k) * Pow2(k)) == (c * Pow2(j - k)) * Pow2(k);
      HalfEvenIsNearest(m, Pow2(k), c * Pow2(j - k));
    } else {
      var half := TWO_53 / 2;
      assert half * Pow2(k) == TWO_53 * Pow2(k - 1);
      Pow2Mono(j, k - 1);
      MulMono(c, TWO_53, Pow2(j));
      MulMono(Pow2(j), Pow2(k - 1), TWO_53);
      HalfEvenIsNearest(m, Pow2(k), half);
    }
  }

  /** Every integer converts to a float64 (an integer of at most 53 bits times a power of
      two) such that none is nearer; of two as near, to the one that is even in its last
      place. */
  lemma ConvertsToNearest(m: nat, c: nat, j: nat) returns (k: nat, q: nat)
    requires c <= TWO_53
    ensures RoundToFloat64(m) == q * Pow2(k) && q <= TWO_53
    ensures Distance(m, RoundToFloat64(m)) <= Distance(m, c * Pow2(j))
    ensures 2 * Distance(m, RoundToFloat64(m)) == Pow2(k) ==> q % 2 == 0
    ensures RoundToFloat64(0 - m) == 0 - RoundToFloat64(m)
  {
    k := RoundsAt(m, 0);
    q := RoundHalfEven(m, Pow2(k));
    NearestOfAll(m, k, c, j);
    HalfEvenIsNearest(m, Pow2(k), 0);
    assert q <= TWO_53 by {
      if q > TWO_53 {
        HalfEvenIsNearest(m, Pow2(k), TWO_53);
        MulMono(TWO_53 + 1, q, Pow2(k));
      }
    }
  }
}
