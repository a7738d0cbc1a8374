// Shin's model, one outcome at a time: the equation behind the closed formula,
// and how its solution moves.
module Shin {
  import opened Products

  // Any function that gives non-negative square roots.
  ghost predicate IsSqrt(sqrt: real -> real) {
    forall x :: x >= 0.0 ==> sqrt(x) >= 0.0 && Mul(sqrt(x), sqrt(x)) == x
  }

  function Target(r: real, total: real): real
    requires total > 0.0
  {
    Mul(r, r) / total
  }

  // The insider-trading probability of an outcome quoted at r in a book worth
  // `total`, when a fraction z of the money is informed.
  function Probability(sqrt: real -> real, z: real, r: real, total: real): real
    requires total > 0.0 && z < 1.0
  {
    (sqrt(Mul(z, z) + Mul(4.0 * (1.0 - z), Target(r, total))) - z) / (2.0 * (1.0 - z))
  }

  // p * p + z * (p - p * p): what the model equates with r * r / total.
  function Weight(z: real, p: real): real {
    Mul(1.0 - z, Mul(p, p)) + Mul(z, p)
  }

  // ----- the equation -----------------------------------------------------------------

  lemma WeightStrict(z: real, p: real, p': real)
    requires 0.0 <= z < 1.0 && 0.0 <= p < p'
    ensures Weight(z, p) < Weight(z, p')
  {
    hide Mul;
    Scale(p, p, p');
    Scale(p', p, p');
    Commutes(p, p');
    Scale(1.0 - z, Mul(p, p), Mul(p', p'));
    Scale(z, p, p');
  }

  // 4a times the equation is a perfect square less z * z.
  lemma QuadraticRoot(a: real, z: real, p: real, w: real, q: real)
    requires a > 0.0 && Mul(2.0 * a, p) == w - z && Mul(w, w) == Mul(z, z) + Mul(4.0 * a, q)
    ensures Mul(a, Mul(p, p)) + Mul(z, p) == q
  {
    var u := w - z;
    assert Mul(u, u) == Mul(4.0 * a, Mul(a, Mul(p, p))) by { SquareOfDouble(a, p); }
    assert 2.0 * Mul(u, z) == Mul(4.0 * a, Mul(z, p)) by { CrossTerm(a, z, p); }
    hide Mul;
    SquareOfSum(u, z);
    Distributes(4.0 * a, Mul(a, Mul(p, p)), Mul(z, p));
    Cancel(4.0 * a, Mul(a, Mul(p, p)) + Mul(z, p), q);
  }

  lemma SquareOfDouble(a: real, p: real)
    ensures Mul(Mul(2.0 * a, p), Mul(2.0 * a, p)) == Mul(4.0 * a, Mul(a, Mul(p, p)))
  {
  }

  lemma CrossTerm(a: real, z: real, p: real)
    ensures 2.0 * Mul(Mul(2.0 * a, p), z) == Mul(4.0 * a, Mul(z, p))
  {
  }

  lemma TargetPositive(r: real, total: real)
    requires r > 0.0 && total > 0.0
    ensures Target(r, total) > 0.0
    ensures Mul(total, Target(r, total)) == Mul(r, r)
  {
    hide Mul;
    Positive(r, r);
    Quotient(Mul(r, r), total);
  }

  // The closed formula solves the equation, and is not negative.
  lemma ProbabilitySolves(sqrt: real -> real, z: real, r: real, total: real)
    requires IsSqrt(sqrt) && 0.0 <= z < 1.0 && r > 0.0 && total > 0.0
    ensures Probability(sqrt, z, r, total) >= 0.0
    ensures Weight(z, Probability(sqrt, z, r, total)) == Target(r, total)
  {
    hide Mul, Target;
    var a, q := 1.0 - z, Target(r, total);
    TargetPositive(r, total);
    Positive(z, z);
    Positive(4.0 * a, q);
    var x := Mul(z, z) + Mul(4.0 * a, q);
    var w := sqrt(x);
    RootAtLeast(w, z);
    var p := Probability(sqrt, z, r, total);
    Quotient(w - z, 2.0 * a);
    PositiveQuotient(w - z, 2.0 * a);
    QuadraticRoot(a, z, p, w, q);
  }

  lemma RootAtLeast(w: real, z: real)
    requires w >= 0.0 && z >= 0.0 && Mul(w, w) >= Mul(z, z)
    ensures w >= z
  {
    hide Mul;
    if w < z {
      Scale(w, w, z);
      Scale(z, w, z);
      Commutes(w, z);
    }
  }

  lemma PositiveQuotient(x: real, y: real)
    requires x >= 0.0 && y > 0.0
    ensures x / y >= 0.0
  {
  }

  // It is the only one.
  lemma OnlySolution(sqrt: real -> real, z: real, r: real, total: real, p: real)
    requires IsSqrt(sqrt) && 0.0 <= z < 1.0 && r > 0.0 && total > 0.0
    requires p >= 0.0 && Weight(z, p) == Target(r, total)
    ensures p == Probability(sqrt, z, r, total)
  {
    hide Weight, Probability, Target;
    ProbabilitySolves(sqrt, z, r, total);
    var p' := Probability(sqrt, z, r, total);
    if p < p' { WeightStrict(z, p, p'); }
    if p' < p { WeightStrict(z, p', p); }
  }

  // ----- how the solution moves ------------------------------------------------------------

  // Any price above evens in a book worth more than one.
  lemma StrictlyBetween(sqrt: real -> real, z: real, r: real, total: real)
    requires IsSqrt(sqrt) && 0.0 <= z < 1.0 && 0.0 < r < 1.0 < total
    ensures 0.0 < Probability(sqrt, z, r, total) < 1.0
  {
    hide Probability, Mul;
    ProbabilitySolves(sqrt, z, r, total);
    TargetPositive(r, total);
    TargetBelowOne(r, total);
    var p := Probability(sqrt, z, r, total);
    if p == 0.0 { Units(0.0); Units(1.0 - z); Units(z); }
    if p >= 1.0 {
      Units(1.0);
      Units(1.0 - z);
      Units(z);
      if p > 1.0 { WeightStrict(z, 1.0, p); }
    }
  }

  lemma TargetBelowOne(r: real, total: real)
    requires 0.0 < r < 1.0 < total
    ensures Target(r, total) < 1.0
  {
    hide Mul;
    TargetPositive(r, total);
    Scale(r, r, 1.0);
    Units(r);
    Units(total);
    if Target(r, total) >= 1.0 { Scale(total, 1.0, Target(r, total)); }
  }

  lemma FallsWithZ(sqrt: real -> real, z: real, z': real, r: real, total: real)
    requires IsSqrt(sqrt) && 0.0 <= z < z' < 1.0 && 0.0 < r < 1.0 < total
    ensures Probability(sqrt, z', r, total) < Probability(sqrt, z, r, total)
  {
    hide Probability, Target, Mul;
    ProbabilitySolves(sqrt, z, r, total);
    ProbabilitySolves(sqrt, z', r, total);
    StrictlyBetween(sqrt, z, r, total);
    var p, p' := Probability(sqrt, z, r, total), Probability(sqrt, z', r, total);
    HeavierWithZ(z, z', p);
    if p' > p { WeightStrict(z', p, p'); }
  }

  lemma HeavierWithZ(z: real, z': real, p: real)
    requires 0.0 <= z < z' && 0.0 < p < 1.0
    ensures Weight(z, p) < Weight(z', p)
  {
    hide Mul;
    var s := Mul(p, p);
    Scale(p, p, 1.0);
    Units(p);
    Units(s);
    Commutes(1.0 - z, s);
    Commutes(1.0 - z', s);
    Distributes(s, 1.0, z);
    Distributes(s, 1.0, z');
    Commutes(z, s);
    Commutes(z', s);
    Distributes(z' - z, p, s);
    Positive(z' - z, p - s);
    Commutes(z' - z, p);
    Commutes(z' - z, s);
    Distributes(p, z', z);
    Distributes(s, z', z);
    Commutes(p, z);
    Commutes(p, z');
  }

  lemma RisesWithR(sqrt: real -> real, z: real, r: real, r': real, total: real)
    requires IsSqrt(sqrt) && 0.0 <= z < 1.0 && 0.0 < r < r' && total > 0.0
    ensures Probability(sqrt, z, r, total) < Probability(sqrt, z, r', total)
  {
    hide Probability, Mul;
    ProbabilitySolves(sqrt, z, r, total);
    ProbabilitySolves(sqrt, z, r', total);
    TargetRises(r, r', total);
    var p, p' := Probability(sqrt, z, r, total), Probability(sqrt, z, r', total);
    hide Target;
    if p' < p { WeightStrict(z, p', p); }
  }

  lemma TargetRises(r: real, r': real, total: real)
    requires 0.0 < r < r' && total > 0.0
    ensures Target(r, total) < Target(r', total)
  {
    hide Mul;
    TargetPositive(r, total);
    TargetPositive(r', total);
    Scale(r, r, r');
    Scale(r', r, r');
    Commutes(r, r');
    hide Target;
    if Target(r', total) <= Target(r, total) { Scale(total, Target(r', total), Target(r, total)); }
  }
}
