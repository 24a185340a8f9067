// Scalar facts about products of reals, stated once so that proofs about books and curves can
// cite them instead of leaving non-linear goals to the solver.
module RealArithmetic {
  function Min(a: real, b: real): real {
    if a <= b then a else b
  }

  function Max(a: real, b: real): real {
    if a < b then b else a
  }

  lemma MulMono(a: real, b: real, c: real)
    requires a <= b && 0.0 <= c
    ensures a * c <= b * c
    ensures c * a <= c * b
  {
    assert 0.0 <= (b - a) * c;
  }

  lemma MulPositive(a: real, b: real)
    requires 0.0 < a && 0.0 < b
    ensures 0.0 < a * b
  {}

  lemma MulCancel(a: real, b: real, c: real)
    requires a * c <= b * c && 0.0 < c
    ensures a <= b
  {
    if b < a {
      MulPositive(a - b, c);
    }
  }

  // Stated for a named sum, so that every product has variables for factors.
  lemma SplitProduct(a: real, sum: real, b: real, c: real)
    requires sum == b + c
    ensures a * sum == a * b + a * c
    ensures sum * a == b * a + c * a
  {}

  // x / c and c are inverse.
  lemma DivMul(x: real, c: real)
    requires c != 0.0
    ensures x / c * c == x
  {}

  // Multiplication under a name.  A proof about books or curves hides the name and cites the facts
  // below, and so stays linear.
  function Times(a: real, b: real): real {
    a * b
  }

  lemma TimesMono(a: real, b: real, c: real)
    requires a <= b && 0.0 <= c
    ensures Times(a, c) <= Times(b, c)
    ensures Times(c, a) <= Times(c, b)
  {
    MulMono(a, b, c);
  }

  lemma TimesSplit(sum: real, b: real, c: real, k: real)
    requires sum == b + c
    ensures Times(sum, k) == Times(b, k) + Times(c, k)
    ensures Times(k, sum) == Times(k, b) + Times(k, c)
  {}

  lemma TimesZero(k: real)
    ensures Times(0.0, k) == 0.0 == Times(k, 0.0)
  {}

  lemma TimesPositive(a: real, b: real)
    requires 0.0 < a && 0.0 < b
    ensures 0.0 < Times(a, b)
  {}

  lemma TimesNegative(a: real, b: real)
    ensures Times(a, -b) == -Times(a, b)
  {}

  lemma TimesCommutes(a: real, b: real)
    ensures Times(a, b) == Times(b, a)
  {}

  lemma TimesCancel(a: real, b: real, c: real)
    requires Times(a, c) <= Times(b, c) && 0.0 < c
    ensures a <= b
  {
    MulCancel(a, b, c);
  }

  lemma PercentTimes(x: real, base: real)
    requires base != 0.0
    ensures Times(x / base * 100.0, base) == 100.0 * x
  {
    DivMul(x, base);
    assert x / base * 100.0 * base == 100.0 * (x / base * base);
  }
}
