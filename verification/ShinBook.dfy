// Shin's model on a whole book: the probabilities add up to less and less as z
// grows, and the search interval always brackets the point where they make one.
module ShinBook {
  import opened Products
  import opened Shin

  function Sum(s: seq<real>): real {
    if s == [] then 0.0 else Sum(s[..|s| - 1]) + s[|s| - 1]
  }

  function Probabilities(sqrt: real -> real, z: real, raw: seq<real>, total: real): (probs: seq<real>)
    requires total > 0.0 && z < 1.0
    ensures |probs| == |raw| && forall i :: 0 <= i < |raw| ==> probs[i] == Probability(sqrt, z, raw[i], total)
  {
    seq(|raw|, i requires 0 <= i < |raw| => Probability(sqrt, z, raw[i], total))
  }

  // At least two prices above evens, worth more than one and at most 1.6.
  ghost predicate Book(raw: seq<real>, total: real) {
    && |raw| >= 2 && total == Sum(raw) && 1.0 < total <= 1.6
    && forall i :: 0 <= i < |raw| ==> 0.0 < raw[i] < 1.0
  }

  // The end of the search interval.
  const HI: real := 0.999999

  // ----- sums -------------------------------------------------------------------------

  lemma {:induction false} SumBelow(s: seq<real>, t: seq<real>)
    requires |s| == |t| && forall i :: 0 <= i < |s| ==> s[i] < t[i]
    ensures Sum(s) <= Sum(t)
    ensures s != [] ==> Sum(s) < Sum(t)
  {
    if s != [] { SumBelow(s[..|s| - 1], t[..|t| - 1]); }
  }

  lemma {:induction false} SumScaled(k: real, s: seq<real>)
    ensures Sum(seq(|s|, i requires 0 <= i < |s| => Mul(k, s[i]))) == Mul(k, Sum(s))
  {
    hide Mul;
    var t := seq(|s|, i requires 0 <= i < |s| => Mul(k, s[i]));
    if s == [] {
      Units(k);
    } else {
      var n := |s| - 1;
      SumScaled(k, s[..n]);
      assert t[..n] == seq(n, i requires 0 <= i < n => Mul(k, s[..n][i]));
      Distributes(k, Sum(s[..n]), s[n]);
    }
  }

  function Without(s: seq<real>, j: nat): seq<real>
    requires j < |s|
  {
    s[..j] + s[j + 1..]
  }

  lemma {:induction false} SumAppend(s: seq<real>, t: seq<real>)
    ensures Sum(s + t) == Sum(s) + Sum(t)
  {
    if t == [] {
      assert s + t == s;
    } else {
      assert (s + t)[..|s + t| - 1] == s + t[..|t| - 1];
      SumAppend(s, t[..|t| - 1]);
    }
  }

  lemma SumWithout(s: seq<real>, j: nat)
    requires j < |s|
    ensures Sum(s) == s[j] + Sum(Without(s, j))
  {
    hide Sum;
    Cut(s, j);
    SumLast(s[..j], s[j]);
    SumAppend(s[..j] + [s[j]], s[j + 1..]);
    SumAppend(s[..j], s[j + 1..]);
  }

  lemma Cut(s: seq<real>, j: nat)
    requires j < |s|
    ensures (s[..j] + [s[j]]) + s[j + 1..] == s
  {
  }

  lemma SumLast(s: seq<real>, x: real)
    ensures Sum(s + [x]) == Sum(s) + x
  {
    assert (s + [x])[..|s|] == s;
  }

  lemma {:induction false} PartBelowSum(s: seq<real>, i: nat)
    requires i < |s| && forall k :: 0 <= k < |s| ==> s[k] > 0.0
    ensures s[i] <= Sum(s) && Sum(s) > 0.0
    ensures |s| >= 2 ==> s[i] < Sum(s)
    decreases |s|
  {
    var n := |s| - 1;
    if n > 0 {
      PartBelowSum(s[..n], if i < n then i else 0);
    } else {
      assert s[..n] == [];
    }
  }

  // ----- the sum over the book ------------------------------------------------------------

  // Strictly falling in z: at most one z makes it one.
  lemma SumFalls(sqrt: real -> real, z: real, z': real, raw: seq<real>, total: real)
    requires IsSqrt(sqrt) && Book(raw, total) && 0.0 <= z < z' < 1.0
    ensures Sum(Probabilities(sqrt, z', raw, total)) < Sum(Probabilities(sqrt, z, raw, total))
  {
    hide Probability, Sum;
    var p, p' := Probabilities(sqrt, z, raw, total), Probabilities(sqrt, z', raw, total);
    forall i | 0 <= i < |raw| ensures p'[i] < p[i] { FallsWithZ(sqrt, z, z', raw[i], total); }
    SumBelow(p', p);
  }

  lemma AllPositive(sqrt: real -> real, z: real, raw: seq<real>, total: real)
    requires IsSqrt(sqrt) && Book(raw, total) && 0.0 <= z < 1.0
    ensures forall i :: 0 <= i < |raw| ==> 0.0 < Probabilities(sqrt, z, raw, total)[i] < 1.0
  {
    hide Probability;
    forall i | 0 <= i < |raw| ensures 0.0 < Probabilities(sqrt, z, raw, total)[i] < 1.0 {
      StrictlyBetween(sqrt, z, raw[i], total);
    }
  }

  // With no informed money the square roots make more than one: each is above
  // its share r / total of the book.
  lemma SumAtZero(sqrt: real -> real, raw: seq<real>, total: real)
    requires IsSqrt(sqrt) && Book(raw, total)
    ensures Sum(Probabilities(sqrt, 0.0, raw, total)) > 1.0
  {
    hide Probability, Mul, Sum;
    var p := Probabilities(sqrt, 0.0, raw, total);
    var k := 1.0 / total;
    var shares := seq(|raw|, i requires 0 <= i < |raw| => Mul(k, raw[i]));
    forall i | 0 <= i < |raw| ensures shares[i] < p[i] { ShareBelowRoot(sqrt, raw[i], total); }
    SumBelow(shares, p);
    SumScaled(k, raw);
    Quotient(1.0, total);
    Commutes(k, total);
  }

  lemma ShareBelowRoot(sqrt: real -> real, r: real, total: real)
    requires IsSqrt(sqrt) && 0.0 < r < 1.0 < total
    ensures Mul(1.0 / total, r) < Probability(sqrt, 0.0, r, total)
  {
    hide Probability, Mul, Target;
    var k, p := 1.0 / total, Probability(sqrt, 0.0, r, total);
    var s := Mul(k, r);
    ProbabilitySolves(sqrt, 0.0, r, total);
    TargetPositive(r, total);
    Units(Mul(p, p));
    Units(p);
    Quotient(1.0, total);
    assert Mul(total, s) == r by { Associates(total, k, r); Units(r); }
    assert 0.0 < s < r by {
      ReciprocalPositive(total);
      Positive(k, r);
      Scale(s, 1.0, total);
      Units(s);
      Commutes(s, total);
    }
    assert Mul(total, Mul(s, s)) == Mul(r, s) by { Associates(total, s, s); }
    assert Mul(r, s) < Mul(r, r) by { Scale(r, s, r); }
    if p <= s {
      Scale(p, p, s);
      Scale(s, p, s);
      Commutes(p, s);
      Scale(total, Mul(p, p), Mul(s, s));
    }
  }

  lemma ReciprocalPositive(x: real)
    requires x > 0.0
    ensures 1.0 / x > 0.0
  {
  }

  // At the end of the interval they make less than one - for every book: either
  // no price reaches the end itself, or one does and leaves little to the rest.
  lemma SumAtEnd(sqrt: real -> real, raw: seq<real>, total: real)
    requires IsSqrt(sqrt) && Book(raw, total)
    ensures Sum(Probabilities(sqrt, HI, raw, total)) < 1.0
  {
    if j :| 0 <= j < |raw| && raw[j] > HI {
      SumAtEndFavourite(sqrt, raw, total, j);
    } else {
      SumAtEndOpen(sqrt, raw, total);
    }
  }

  // z * p stays below the target.
  lemma BelowTargetOverZ(sqrt: real -> real, z: real, r: real, total: real, bound: real)
    requires IsSqrt(sqrt) && 0.0 < z < 1.0 && 0.0 < r < 1.0 < total && r <= bound
    ensures Mul(z, Probability(sqrt, z, r, total)) < Mul(bound, Mul(1.0 / total, r))
  {
    hide Probability, Mul, Target;
    var k, p := 1.0 / total, Probability(sqrt, z, r, total);
    ProbabilitySolves(sqrt, z, r, total);
    StrictlyBetween(sqrt, z, r, total);
    Positive(p, p);
    Positive(1.0 - z, Mul(p, p));
    TargetPositive(r, total);
    Quotient(1.0, total);
    ReciprocalPositive(total);
    assert Target(r, total) == Mul(r, Mul(k, r)) by {
      Associates(total, k, r);
      Units(r);
      Associates(total, r, Mul(k, r));
      Commutes(total, r);
      Associates(r, total, Mul(k, r));
      Cancel(total, Target(r, total), Mul(r, Mul(k, r)));
    }
    Positive(k, r);
    Commutes(r, Mul(k, r));
    Commutes(bound, Mul(k, r));
    Scale(Mul(k, r), r, bound);
  }

  lemma SumAtEndOpen(sqrt: real -> real, raw: seq<real>, total: real)
    requires IsSqrt(sqrt) && Book(raw, total) && forall i :: 0 <= i < |raw| ==> raw[i] <= HI
    ensures Sum(Probabilities(sqrt, HI, raw, total)) < 1.0
  {
    hide Probability, Mul, Sum;
    var p, k := Probabilities(sqrt, HI, raw, total), 1.0 / total;
    var shares := seq(|raw|, i requires 0 <= i < |raw| => Mul(k, raw[i]));
    forall i | 0 <= i < |raw| ensures p[i] < shares[i] {
      BelowTargetOverZ(sqrt, HI, raw[i], total, HI);
      if p[i] >= shares[i] { Scale(HI, shares[i], p[i]); }
    }
    SumBelow(p, shares);
    SumScaled(k, raw);
    Quotient(1.0, total);
    Commutes(k, total);
  }

  lemma SumAtEndFavourite(sqrt: real -> real, raw: seq<real>, total: real, j: nat)
    requires IsSqrt(sqrt) && Book(raw, total) && j < |raw| && raw[j] > HI
    ensures Sum(Probabilities(sqrt, HI, raw, total)) < 1.0
  {
    hide Probability, Mul;
    var p, k, others := Probabilities(sqrt, HI, raw, total), 1.0 / total, Without(raw, j);
    SumWithout(raw, j);
    SumWithout(p, j);
    var rest := total - raw[j];
    assert Sum(others) == rest;
    forall i | 0 <= i < |others| ensures 0.0 < others[i] < 1.0 && others[i] <= rest { PartBelowSum(others, i); }
    PartBelowSum(others, 0);
    // z times the rest of the probabilities is below rest * rest / total
    var scaled := seq(|others|, i requires 0 <= i < |others| => Mul(HI, Without(p, j)[i]));
    var c := Mul(rest, k);
    var bounds := seq(|others|, i requires 0 <= i < |others| => Mul(c, others[i]));
    forall i | 0 <= i < |others| ensures scaled[i] < bounds[i] {
      BelowTargetOverZ(sqrt, HI, others[i], total, rest);
      Associates(rest, k, others[i]);
    }
    SumBelow(scaled, bounds);
    SumScaled(HI, Without(p, j));
    SumScaled(c, others);
    FavouriteBelow(sqrt, raw[j], rest, total);
    hide Sum;
    var q, t := Sum(Without(p, j)), Mul(c, rest);
    Distributes(HI, p[j], q);
    if p[j] + q >= 1.0 { Scale(HI, 1.0, p[j] + q); Units(HI); }
  }

  // z * p + rest * rest / total is below z for the favourite's p.
  lemma FavouriteBelow(sqrt: real -> real, r: real, rest: real, total: real)
    requires IsSqrt(sqrt) && HI < r < 1.0 && rest > 0.0 && total == r + rest && 1.0 < total <= 1.6
    ensures Mul(HI, Probability(sqrt, HI, r, total)) + Mul(Mul(rest, 1.0 / total), rest) < HI
  {
    hide Probability, Mul;
    var p, u := Probability(sqrt, HI, r, total), Mul(Mul(rest, 1.0 / total), rest);
    var t := u / HI;
    TimesEnd(p);
    RestShare(rest, total);
    SmallRest(rest);
    assert 0.0 < t < 1.0;
    if p >= 1.0 - t {
      ProbabilitySolves(sqrt, HI, r, total);
      FavouriteTarget(r, rest, total, t);
      if p > 1.0 - t { WeightStrict(HI, 1.0 - t, p); }
    }
  }

  lemma TimesEnd(x: real)
    ensures Mul(HI, x) == HI * x
  {
  }

  // u = rest * rest / total.
  lemma RestShare(rest: real, total: real)
    requires rest > 0.0 && total > 1.0
    ensures var u := Mul(Mul(rest, 1.0 / total), rest);
            0.0 < u < Mul(rest, rest) && Mul(total, u) == Mul(rest, rest)
  {
    hide Mul;
    var k, u := 1.0 / total, Mul(Mul(rest, 1.0 / total), rest);
    Quotient(1.0, total);
    ReciprocalPositive(total);
    Positive(rest, k);
    Positive(Mul(rest, k), rest);
    Associates(total, Mul(rest, k), rest);
    Commutes(rest, k);
    Associates(total, k, rest);
    Units(rest);
    Scale(u, 1.0, total);
    Units(u);
    Commutes(u, total);
  }

  lemma SmallRest(rest: real)
    requires 0.0 < rest < 0.600001
    ensures Mul(rest, rest) < 0.600001 * rest
  {
    hide Mul;
    Scale(rest, rest, 0.600001);
    ByConstant(rest);
  }

  lemma ByConstant(x: real)
    ensures Mul(x, 0.600001) == 0.600001 * x
  {
  }

  // At 1 - t, with total * z * t = rest * rest, the weight is past the target.
  lemma FavouriteTarget(r: real, rest: real, total: real, t: real)
    requires HI < r < 1.0 && 0.0 < rest < 0.600001 && total == r + rest && total > 1.0 && 0.0 < t < 1.0
    requires Mul(total, HI * t) == Mul(rest, rest)
    ensures Weight(HI, 1.0 - t) > Target(r, total)
  {
    hide Mul, Target;
    var x := 1.0 - t;
    TargetPositive(r, total);
    SmallRest(rest);
    Scale(r, r, 1.0);
    Units(r);
    SquareBelowEnd(x, t);
    var low := 1.0 - (2.0 - HI) * t;
    LowTimes(total, t, low);
    if Target(r, total) >= low { Scale(total, low, Target(r, total)); }
  }

  lemma SquareBelowEnd(x: real, t: real)
    requires x == 1.0 - t && 0.0 < t < 1.0
    ensures Weight(HI, x) >= 1.0 - (2.0 - HI) * t
  {
    assert Mul(x, x) == 1.0 - 2.0 * t + Mul(t, t);
    Positive(t, t);
    EndWeight(x);
  }

  lemma EndWeight(x: real)
    ensures Weight(HI, x) == (1.0 - HI) * Mul(x, x) + HI * x
  {
  }

  lemma LowTimes(total: real, t: real, low: real)
    requires low == 1.0 - (2.0 - HI) * t
    ensures Mul(total, low) == total - (2.0 - HI) / HI * Mul(total, HI * t)
  {
  }
}
