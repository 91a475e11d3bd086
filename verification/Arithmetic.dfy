/** Multiplication and division by their recursions, and what ties them to the operators. */
module Arithmetic {
  lemma {:induction false} ProductBelow(x: nat, y: nat, w: nat, r: nat)
    requires x < y && r < w
    ensures x * w + r < y * w
    decreases y
  {
    assert y * w == (y - 1) * w + w;
    if x < y - 1 {
      ProductBelow(x, y - 1, w, r);
    }
  }

  lemma {:induction false} DivModUnique(a: nat, w: nat, q: nat, r: nat)
    requires r < w && a == q * w + r
    ensures a / w == q && a % w == r
  {
    var q', r' := a / w, a % w;
    var p, p' := q * w, q' * w;
    assert a == p' + r' && 0 <= r' < w;
    if q < q' {
      ProductBelow(q, q', w, r);
    } else if q' < q {
      ProductBelow(q', q, w, r');
    }
  }

  /** k times n, by repeated addition. */
  function Times(k: nat, n: nat): nat {
    if k == 0 then 0 else Times(k - 1, n) + n
  }

  lemma {:induction false} TimesIsProduct(k: nat, n: nat)
    ensures Times(k, n) == k * n
  {
    if k > 0 {
      TimesIsProduct(k - 1, n);
      assert k * n == (k - 1) * n + n;
    }
  }

  lemma {:induction false} TimesMonotone(k: nat, k': nat, n: nat, n': nat)
    requires k <= k' && n <= n'
    ensures Times(k, n) <= Times(k', n')
    decreases k'
  {
    if k == k' && k > 0 {
      TimesMonotone(k - 1, k' - 1, n, n');
    } else if k < k' {
      TimesMonotone(k, k' - 1, n, n');
    }
  }

  lemma {:induction false} TimesAtLeast(k: nat, n: nat)
    requires n > 0
    ensures Times(k, n) >= k
  {
    if k > 0 {
      TimesAtLeast(k - 1, n);
    }
  }

  lemma {:induction false} TimesSucc(k: nat, n: nat)
    ensures Times(k, n + 1) == Times(k, n) + k
  {
    if k > 0 {
      TimesSucc(k - 1, n);
    }
  }

  lemma {:induction false} TimesCommutes(k: nat, n: nat)
    ensures Times(k, n) == Times(n, k)
  {
    if k == 0 {
      TimesIsProduct(n, 0);
    } else {
      TimesCommutes(k - 1, n);
      TimesSucc(n, k - 1);
    }
  }

  /** How often d fits into a: the floor of a / d. */
  function Quotient(a: nat, d: nat): nat
    requires d > 0
  {
    if a < d then 0 else Quotient(a - d, d) + 1
  }

  lemma {:induction false} QuotientBound(a: nat, d: nat, q: nat)
    requires d > 0
    ensures q <= Quotient(a, d) <==> Times(q, d) <= a
  {
    if q > 0 && a >= d {
      QuotientBound(a - d, d, q - 1);
    }
  }

  lemma {:induction false} QuotientIsDivision(a: nat, d: nat)
    requires d > 0
    ensures Quotient(a, d) == a / d
    ensures a % d == 0 <==> Times(Quotient(a, d), d) == a
  {
    var q := Quotient(a, d);
    QuotientBound(a, d, q);
    QuotientBound(a, d, q + 1);
    TimesIsProduct(q, d);
    DivModUnique(a, d, q, a - Times(q, d));
  }
}
