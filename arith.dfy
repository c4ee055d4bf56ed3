/** Facts about products and floor division of naturals that the reward and
    penalty formulas need. */
module Arith {

  lemma MulMono(a: nat, b: nat, c: nat)
    requires a <= b
    ensures a * c <= b * c
  {
  }

  lemma DivUnique(x: nat, d: nat, q: nat, r: nat)
    requires 0 <= r < d && x == q * d + r
    ensures x / d == q
  {
    var q0, r0 := x / d, x % d;
    assert x == q0 * d + r0;
    if q0 < q {
      MulMono(q0 + 1, q, d);
      assert false;
    } else if q0 > q {
      MulMono(q + 1, q0, d);
      assert false;
    }
  }

  /** Floor division is monotone in the dividend. */
  lemma DivMono(a: nat, b: nat, d: nat)
    requires a <= b && 0 < d
    ensures a / d <= b / d
  {
    if a / d > b / d {
      MulMono(b / d + 1, a / d, d);
      assert false;
    }
  }

  /** Two floor divisions in a row are one floor division by the product. */
  lemma DivDiv(x: nat, a: nat, b: nat)
    requires 0 < a && 0 < b
    ensures x / a / b == x / (a * b)
  {
    var q1, r1 := x / a, x % a;
    var q2, r2 := q1 / b, q1 % b;
    Regroup(x, a, b, q1, r1, q2, r2);
    RemainderBound(a, b, r1, r2);
    DivUnique(x, a * b, q2, r2 * a + r1);
  }

  /** Substituting the second quotient into the first division. */
  lemma Regroup(x: nat, a: nat, b: nat, q1: nat, r1: nat, q2: nat, r2: nat)
    requires x == q1 * a + r1 && q1 == q2 * b + r2
    ensures x == q2 * (a * b) + (r2 * a + r1)
  {
    assert q1 * a == q2 * b * a + r2 * a;
    assert q2 * b * a == q2 * (a * b);
  }

  /** The combined remainder stays below `a * b`. */
  lemma RemainderBound(a: nat, b: nat, r1: nat, r2: nat)
    requires r1 < a && r2 < b
    ensures r2 * a + r1 < a * b
  {
    MulMono(r2, b - 1, a);
    assert (b - 1) * a == a * b - a;
  }

  /** `x * d / d == x`. */
  lemma MulDivCancel(x: nat, d: nat)
    requires 0 < d
    ensures x * d / d == x
  {
    DivUnique(x * d, d, x, 0);
  }
}
