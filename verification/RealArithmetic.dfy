/** The few facts about products and quotients of reals the proofs lean on. */
module RealArithmetic {

  /** A product by name, for proofs that must not multiply out. */
  function Times(a: real, b: real): real {
    a * b
  }

  lemma ProductNonNegative(a: real, b: real)
    requires a >= 0.0 && b >= 0.0
    ensures a * b >= 0.0
  {
  }

  lemma ProductPositive(a: real, b: real)
    requires a > 0.0 && b > 0.0
    ensures a * b > 0.0
  {
  }

  lemma QuotientPositive(a: real, b: real)
    requires b > 0.0
    ensures a > 0.0 ==> a / b > 0.0
    ensures a / b * b == a
  {
  }

  lemma QuotientBetween(sum: real, n: real, lo: real, hi: real)
    requires n > 0.0 && lo * n <= sum <= hi * n
    ensures lo <= sum / n <= hi
  {
  }

  lemma ZeroFactor(a: real, b: real)
    requires a * b == 0.0 && b != 0.0
    ensures a == 0.0
  {
  }
}
