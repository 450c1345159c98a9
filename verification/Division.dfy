/** Division by a divisor that is not a constant. */
module Division {

  lemma Distribute(a: int, b: int, f: int)
    ensures (a - b) * f == a * f - b * f
  {
  }

  lemma AtLeastOne(k: int, f: nat)
    requires k >= 1
    ensures k * f >= f
  {
  }

  /** Two quotients of one number with remainders below the divisor are equal. */
  lemma QuotientsAgree(f: nat, q: int, r: nat, d: int, m: nat)
    requires r < f && m < f && q * f + r == d * f + m
    ensures q == d && r == m
  {
    Distribute(q, d, f);
    Distribute(d, q, f);
    if q > d {
      AtLeastOne(q - d, f);
    } else if d > q {
      AtLeastOne(d - q, f);
    }
  }

  lemma DivMod(n: nat, f: nat)
    requires f > 0
    ensures n == n / f * f + n % f && 0 <= n % f < f && 0 <= n / f * f
  {
  }

  lemma DivModUnique(n: nat, f: nat, q: int, r: nat)
    requires f > 0 && r < f && n == q * f + r
    ensures n / f == q && n % f == r
  {
    DivMod(n, f);
    QuotientsAgree(f, q, r, n / f, n % f);
  }

  /** The whole multiples of `f` in `n`. */
  lemma WholeMultiple(n: nat, f: nat)
    requires f > 0
    ensures 0 <= n - n % f <= n && (n - n % f) % f == 0 && (n - n % f) / f == n / f
  {
    DivMod(n, f);
    DivModUnique(n - n % f, f, n / f, 0);
  }

  lemma SumOfMultiples(a: nat, b: nat, f: nat)
    requires f > 0 && a % f == 0
    ensures (a + b) % f == b % f && (a + b) / f == a / f + b / f
  {
    DivMod(a, f);
    DivMod(b, f);
    Distribute(a / f, -(b / f), f);
    DivModUnique(a + b, f, a / f + b / f, b % f);
  }
}
