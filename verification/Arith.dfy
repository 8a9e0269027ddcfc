/** Elementary facts of non-linear arithmetic, stated once so that other proofs stay linear. */
module Arith {

  lemma MulMono(c: real, a: real, b: real)
    requires c >= 0.0 && a <= b
    ensures c * a <= c * b
  {
  }

  lemma MulCancel(c: real, a: real, b: real)
    requires c > 0.0 && c * a <= c * b
    ensures a <= b
  {
  }

  lemma QuotientIs(a: real, b: real)
    requires b > 0.0
    ensures (a / b) * b == a
  {
  }

  /** Comparing a quotient without division. */
  lemma QuotientTests(a: real, b: real, t: real)
    requires b > 0.0
    ensures a / b > t <==> a > t * b
    ensures a / b < t <==> a < t * b
  {
    QuotientIs(a, b);
    MulOrder(b, t, a / b);
    MulOrder(b, a / b, t);
  }

  lemma MulOrder(c: real, a: real, b: real)
    requires c > 0.0
    ensures c * a <= c * b <==> a <= b
  {
    if a <= b { MulMono(c, a, b); }
    if c * a <= c * b { MulCancel(c, a, b); }
  }

  lemma IntMulMono(c: nat, a: int, b: int)
    requires a <= b
    ensures a * c <= b * c
  {
  }

  predicate Near(a: real, b: real, error: real) { -error <= a - b <= error }

  lemma NearScaled(c: real, a: real, b: real, error: real)
    requires c >= 0.0 && Near(a, b, error)
    ensures Near(c * a, c * b, c * error)
  {
  }
}
