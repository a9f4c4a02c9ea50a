/**
 * The priority key given to every batch when the orders are seeded
 * (workstations.js): the decimal number written "i.p", where i is the
 * order's position in the input and p the row's own priority. The key is
 * modelled exactly, as the real number i + p / 10^(number of digits of p).
 */
module Priority {

  function Pow10(n: nat): (r: nat)
    ensures r >= 1
  {
    if n == 0 then 1 else 10 * Pow10(n - 1)
  }

  /** Number of decimal digits of p, the length of its decimal string. */
  function Digits(p: nat): (d: nat)
    ensures d >= 1
    ensures p < Pow10(d)
    ensures d > 1 ==> Pow10(d - 1) <= p
  {
    if p < 10 then 1 else 1 + Digits(p / 10)
  }

  /** The digits of p read after the decimal point: 5 is 0.5, 10 is 0.10. */
  function Fraction(p: nat): (f: real)
    ensures 0.0 <= f < 1.0
  {
    FractionBelowOne(p, Pow10(Digits(p)));
    p as real / Pow10(Digits(p)) as real
  }

  lemma FractionBelowOne(p: nat, d: nat)
    requires p < d
    ensures 0.0 <= p as real / d as real < 1.0
  {
  }

  /** The value of the decimal string "i.p". */
  function Key(i: nat, p: nat): (k: real)
    ensures i as real <= k < (i + 1) as real
  {
    i as real + Fraction(p)
  }

  /** Every row of an earlier order gets a smaller key than every row of a later one. */
  lemma KeyOrdersByIndex(i: nat, p: nat, j: nat, q: nat)
    requires i < j
    ensures Key(i, p) < Key(j, q)
  {
  }

  /**
   * Within one order, priorities written with the same number of digits
   * compare as the priorities themselves.
   */
  lemma KeySameWidth(i: nat, p: nat, q: nat)
    requires Digits(p) == Digits(q)
    ensures Key(i, p) < Key(i, q) <==> p < q
    ensures Key(i, p) == Key(i, q) <==> p == q
  {
    var d := Pow10(Digits(p)) as real;
    assert Fraction(p) == p as real / d;
    assert Fraction(q) == q as real / d;
    if p < q {
      DivMonotone(p, q, d);
    } else if q < p {
      DivMonotone(q, p, d);
    }
  }

  lemma DivMonotone(p: nat, q: nat, d: real)
    requires p < q && d > 0.0
    ensures p as real / d < q as real / d
  {
  }

  /** A trailing zero does not change the key: priority 10p encodes as i.p. */
  lemma {:induction false} KeyIgnoresTrailingZero(i: nat, p: nat)
    requires p >= 1
    ensures Key(i, 10 * p) == Key(i, p)
  {
    assert Digits(10 * p) == 1 + Digits(p) by {
      assert (10 * p) / 10 == p;
    }
    var d := Pow10(Digits(p)) as real;
    assert Pow10(Digits(10 * p)) as real == 10.0 * d;
    assert (10 * p) as real == 10.0 * p as real;
    ScaleFraction(p as real, d);
  }

  lemma ScaleFraction(x: real, d: real)
    requires d > 0.0
    ensures (10.0 * x) / (10.0 * d) == x / d
  {
  }

  /**
   * Rows of one order are meant to be served in ascending priority, but
   * that fails across digit counts: priority 10 ties with priority 1 and is
   * served before every one-digit priority from 2 to 9.
   */
  lemma KeyTenBeforeTwo(i: nat)
    ensures Key(i, 10) == Key(i, 1)
    ensures Key(i, 10) < Key(i, 2)
    ensures forall q | 2 <= q <= 9 :: Key(i, 10) < Key(i, q)
  {
    KeyIgnoresTrailingZero(i, 1);
    forall q | 2 <= q <= 9 ensures Key(i, 1) < Key(i, q) {
      KeySameWidth(i, 1, q);
    }
  }

  /**
   * A key that keeps the promise for every priority: the fraction p / (p + 1)
   * grows strictly with p and stays below 1.
   */
  function OrderedKey(i: nat, p: nat): (k: real)
    ensures i as real <= k < (i + 1) as real
  {
    FractionBelowOne(p, p + 1);
    i as real + p as real / (p + 1) as real
  }

  /** The fraction p / (p + 1) is strictly increasing in p. */
  lemma RatioMonotone(p: nat, q: nat)
    requires p < q
    ensures p as real / (p + 1) as real < q as real / (q + 1) as real
  {
    var a := p as real / (p + 1) as real;
    var b := q as real / (q + 1) as real;
    assert a == 1.0 - 1.0 / (p + 1) as real;
    assert b == 1.0 - 1.0 / (q + 1) as real;
    assert 1.0 / (q + 1) as real < 1.0 / (p + 1) as real by {
      assert (p + 1) as real < (q + 1) as real;
      ReciprocalDecreasing((p + 1) as real, (q + 1) as real);
    }
  }

  lemma ReciprocalDecreasing(x: real, y: real)
    requires 0.0 < x < y
    ensures 1.0 / y < 1.0 / x
  {
    assert 1.0 / y * y == 1.0;
    assert 1.0 / x * x == 1.0;
  }

  /**
   * Queue order by OrderedKey is exactly the intended serving order: rows
   * of an earlier order first, then rows of one order in ascending priority.
   */
  lemma {:induction false} OrderedKeyLexicographic(i: nat, p: nat, j: nat, q: nat)
    ensures OrderedKey(i, p) < OrderedKey(j, q) <==> i < j || (i == j && p < q)
    ensures OrderedKey(i, p) == OrderedKey(j, q) <==> i == j && p == q
  {
    if i == j {
      if p < q {
        RatioMonotone(p, q);
      } else if q < p {
        RatioMonotone(q, p);
      }
    }
  }
}
