// Multiplication of reals under a name, with the laws proofs need one by one.
module Products {

  function Mul(x: real, y: real): real {
    x * y
  }

  lemma Commutes(x: real, y: real)
    ensures Mul(x, y) == Mul(y, x)
  {
  }

  lemma Associates(x: real, y: real, z: real)
    ensures Mul(x, Mul(y, z)) == Mul(Mul(x, y), z)
  {
  }

  lemma Distributes(k: real, x: real, y: real)
    ensures Mul(k, x + y) == Mul(k, x) + Mul(k, y)
    ensures Mul(k, x - y) == Mul(k, x) - Mul(k, y)
  {
  }

  lemma Positive(x: real, y: real)
    requires x >= 0.0 && y >= 0.0
    ensures Mul(x, y) >= 0.0
    ensures x > 0.0 && y > 0.0 ==> Mul(x, y) > 0.0
  {
    if x > 0.0 && y > 0.0 { PositiveProduct(x, y, x * y); }
  }

  lemma SquareNonNegative(x: real)
    ensures Mul(x, x) >= 0.0
  {
    if x >= 0.0 {
      Positive(x, x);
    } else {
      Positive(-x, -x);
      assert Mul(-x, -x) == Mul(x, x);
    }
  }

  lemma PositiveProduct(x: real, y: real, p: real)
    requires x > 0.0 && y > 0.0 && p == x * y
    ensures p > 0.0
  {
  }

  lemma Units(x: real)
    ensures Mul(1.0, x) == x && Mul(x, 1.0) == x && Mul(0.0, x) == 0.0 && Mul(x, 0.0) == 0.0
    ensures Mul(2.0, x) == x + x && Mul(4.0, x) == x + x + x + x
  {
  }

  lemma Scale(k: real, x: real, y: real)
    requires k >= 0.0 && x <= y
    ensures Mul(k, x) <= Mul(k, y)
    ensures k > 0.0 && x < y ==> Mul(k, x) < Mul(k, y)
  {
    hide Mul;
    Distributes(k, y, x);
    Positive(k, y - x);
  }

  lemma Cancel(k: real, x: real, y: real)
    requires k > 0.0 && Mul(k, x) == Mul(k, y)
    ensures x == y
  {
    hide Mul;
    if x < y { Scale(k, x, y); }
    if y < x { Scale(k, y, x); }
  }

  lemma Quotient(x: real, y: real)
    requires y != 0.0
    ensures Mul(y, x / y) == x
  {
  }

  lemma SquareOfSum(x: real, y: real)
    ensures Mul(x + y, x + y) == Mul(x, x) + 2.0 * Mul(x, y) + Mul(y, y)
  {
  }
}
