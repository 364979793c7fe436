/** Facts about multiplication of reals that the solver does not find alone. */
module RealArith {

  lemma MulMonotone(a: real, b: real, r: real)
    requires a <= b && r >= 0.0
    ensures a * r <= b * r
  {
    assert b * r - a * r == (b - a) * r;
  }
}
