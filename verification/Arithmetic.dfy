/** The few facts about products and quotients that the bounds rest on. */
module Arithmetic {

  lemma {:induction false} ProductAtLeast(k: int, d: int)
    requires k >= 1 && d >= 0
    ensures k * d >= d
    decreases k
  {
    if k > 1 {
      ProductAtLeast(k - 1, d);
      assert k * d == (k - 1) * d + d;
    }
  }

  lemma ProductMonotone(a: int, b: int, d: int)
    requires a <= b && d >= 0
    ensures a * d <= b * d
  {
    if a < b {
      ProductAtLeast(b - a, d);
    }
    assert b * d == a * d + (b - a) * d;
  }

  lemma SmallMultipleIsZero(k: int, d: int)
    requires -d < k * d < d
    ensures k == 0
  {
    if k >= 1 {
      ProductAtLeast(k, d);
    } else if k <= -1 {
      assert (-k) * d == -(k * d);
      ProductAtLeast(-k, d);
    }
  }

  lemma QuotientBracket(a: int, d: int)
    requires d >= 1
    ensures (a / d) * d <= a < (a / d) * d + d
  {
  }

  lemma QuotientIs(a: int, d: int, q: int)
    requires d >= 1 && q * d <= a < q * d + d
    ensures a / d == q
  {
    var p := a / d;
    QuotientBracket(a, d);
    assert (p - q) * d == p * d - q * d;
    SmallMultipleIsZero(p - q, d);
  }

  lemma RemainderIs(a: int, d: int, q: int)
    requires d >= 1 && q * d <= a < q * d + d
    ensures a / d == q
    ensures a % d == a - q * d
  {
    QuotientIs(a, d, q);
  }

  /** Adding k divisors adds k to the quotient. */
  lemma QuotientShift(a: int, k: int, d: int)
    requires d >= 1
    ensures (a + k * d) / d == a / d + k
  {
    QuotientBracket(a, d);
    assert (a / d + k) * d == (a / d) * d + k * d;
    QuotientIs(a + k * d, d, a / d + k);
  }

  /** A quotient below k + 1 bounds the numerator, and the other way round. */
  lemma QuotientAtLeast(a: int, d: int, k: int)
    requires d >= 1
    ensures a / d >= k <==> a >= k * d
  {
    QuotientBracket(a, d);
    if a / d >= k {
      ProductMonotone(k, a / d, d);
    } else {
      ProductMonotone(a / d + 1, k, d);
      assert (a / d + 1) * d == (a / d) * d + d;
    }
  }

  lemma QuotientMonotone(a: int, b: int, d: int)
    requires d >= 1 && a <= b
    ensures a / d <= b / d
  {
    QuotientBracket(a, d);
    QuotientAtLeast(b, d, a / d);
  }

  lemma Distribute(a: int, b: int, d: int)
    ensures (a + b) * d == a * d + b * d
  {
  }

  lemma SmallRemainder(served: nat, max: int)
    requires max > 0 && served <= max
    ensures served < max ==> served / max == 0 && served % max == served
    ensures served == max ==> served / max == 1 && served % max == 0
  {
    RemainderIs(served, max, if served < max then 0 else 1);
  }

  lemma SameRemainderWhen(a: nat, k: nat, n: nat)
    requires n > 0
    ensures (a + k) % n == a % n <==> k % n == 0
  {
    var q, r := a / n, k % n;
    QuotientBracket(a, n);
    QuotientBracket(k, n);
    Distribute(q, k / n, n);
    if a % n + r < n {
      RemainderIs(a + k, n, q + k / n);
    } else {
      Distribute(q + k / n, 1, n);
      RemainderIs(a + k, n, q + k / n + 1);
    }
  }

  /** Counting on from anywhere reaches every remainder within one turn. */
  lemma TurnOf(a: nat, n: nat, p: nat) returns (i: nat)
    requires p < n
    ensures i < n && (a + i) % n == p
  {
    var start, q := a % n, a / n;
    QuotientBracket(a, n);
    if p >= start {
      i := p - start;
      RemainderIs(a + i, n, q);
    } else {
      i := p + n - start;
      Distribute(q, 1, n);
      RemainderIs(a + i, n, q + 1);
    }
  }
}
