/** Facts about products of reals that the endurance numbers and the outline fit share. */
module Reals {
  function Abs(x: real): real {
    if x < 0.0 then -x else x
  }

  lemma SignOfProduct(a: real, z: real)
    requires z > 0.0
    ensures (a * z > 0.0 <==> a > 0.0) && (a * z < 0.0 <==> a < 0.0)
  {
  }

  lemma ProductPositive(a: real, b: real, q: real)
    requires a > 0.0 && b > 0.0 && q == a * b
    ensures q > 0.0
  {
  }

  lemma SquarePositive(a: real, q: real)
    requires q == a * a
    ensures q >= 0.0 && (q > 0.0 <==> a != 0.0)
  {
    if a > 0.0 {
      ProductPositive(a, a, q);
    } else if a < 0.0 {
      ProductPositive(-a, -a, q);
    }
  }

  lemma SameFactor(a: real, b: real, x: real)
    requires a == b
    ensures a * x == b * x
  {
  }

  lemma ZeroFactor(x: real, y: real)
    requires y == 0.0
    ensures x * y == 0.0
  {
  }

  lemma OneMore(k: real, x: real)
    ensures (k + 1.0) * x == k * x + x
  {
  }
}
