/** Small facts of real arithmetic that the solver does not find unaided. */
module RealFacts {

  lemma ProductPositive(a: real, b: real)
    requires 0.0 < a && 0.0 < b
    ensures 0.0 < a * b
  {
  }

  lemma ProductZero(a: real, b: real)
    requires a * b == 0.0
    ensures a == 0.0 || b == 0.0
  {
  }

  lemma ZeroTimes(a: real, b: real)
    requires a == 0.0
    ensures a * b == 0.0
  {
  }

  /** A sum of two squares is non-negative and vanishes only when both terms do. */
  lemma SumOfSquares(a: real, b: real)
    ensures 0.0 <= a * a + b * b
    ensures a * a + b * b == 0.0 <==> a == 0.0 && b == 0.0
  {
    assert 0.0 <= a * a && 0.0 <= b * b;
    if a * a + b * b == 0.0 {
      ProductZero(a, a);
      ProductZero(b, b);
    }
  }

  /** A root of `sq` is zero exactly when `sq` is. */
  lemma RootZero(root: real, sq: real)
    requires root * root == sq
    ensures root == 0.0 <==> sq == 0.0
  {
    if sq == 0.0 {
      ProductZero(root, root);
    }
    if root == 0.0 {
      ZeroTimes(root, root);
    }
  }

  /** A root of `sq` is zero exactly when `same` holds, if `sq` is zero exactly then. */
  lemma ZeroIffSame(d: real, sq: real, same: bool)
    requires 0.0 <= d && d * d == sq
    requires sq == 0.0 <==> same
    ensures d == 0.0 <==> same
  {
    RootZero(d, sq);
  }

  /** A non-negative square root is unique. */
  lemma SquareRootUnique(a: real, b: real)
    requires 0.0 <= a && 0.0 <= b
    requires a * a == b * b
    ensures a == b
  {
    assert (a - b) * (a + b) == a * a - b * b;
    ProductZero(a - b, a + b);
  }
}
