// Races decided by consecutive independent trials.
//
// A tennis game, a tiebreak, a set and a match are one object seen at four
// scales: two sides collect points one trial at a time until one of them has
// enough. This module holds the theory the four scales share.
module Race {
  import opened Products

  // First to `target` with a margin of `lead`. A race still open after
  // `horizon` trials is cut: the side ahead takes it, and a level score is
  // worth `tie` to side A.
  datatype Rules = Rules(target: nat, lead: nat, horizon: nat, tie: real)
  {
    // The shape every tennis race has. `horizon >= 2 * target - 2` says that a
    // score at the horizon which nobody has won differs by less than two.
    ghost predicate WellFormed() {
      target >= 1 && 1 <= lead <= 2 && horizon >= 1 && horizon >= 2 * target - 2 && 0.0 < tie < 1.0
    }

    predicate WonBy(a: nat, b: nat) {
      a >= target && a >= b + lead
    }

    predicate Open(a: nat, b: nat) {
      !WonBy(a, b) && !WonBy(b, a) && a + b < horizon
    }
  }

  function Blend(p: real, q: real, x: real, y: real): real {
    p * x + q * y
  }

  function Mix(p: real, x: real, y: real): real {
    Blend(p, 1.0 - p, x, y)
  }

  // The chance that A wins from the score a-b, when A wins the trial played
  // after n earlier ones with probability prob(n).
  function Chance(r: Rules, prob: nat -> real, a: nat, b: nat): real
    decreases if a + b < r.horizon then r.horizon - (a + b) else 0
  {
    if r.WonBy(a, b) then 1.0
    else if r.WonBy(b, a) then 0.0
    else if a + b >= r.horizon then
      if a > b then 1.0 else if a < b then 0.0 else r.tie
    else
      Mix(prob(a + b), Chance(r, prob, a + 1, b), Chance(r, prob, a, b + 1))
  }

  ghost predicate IsProbability(prob: nat -> real) {
    forall n: nat :: 0.0 < prob(n) < 1.0
  }

  // ----- arithmetic of one trial -------------------------------------------

  lemma Product(k: real, d: real)
    requires k > 0.0 && d >= 0.0
    ensures k * d >= 0.0
    ensures d > 0.0 ==> k * d > 0.0
  {
  }

  lemma Nonnegative(k: real, d: real)
    requires k >= 0.0 && d >= 0.0
    ensures k * d >= 0.0
  {
  }

  lemma NamedProduct(k: real, d: real, m: real)
    requires k > 0.0 && d > 0.0 && m == k * d
    ensures m > 0.0
  {
  }

  lemma Factor(k: real, d: real)
    requires k > 0.0 && k * d > 0.0
    ensures d > 0.0
  {
  }

  lemma MixBetween(p: real, x: real, y: real)
    requires 0.0 < p < 1.0 && y <= x
    ensures y <= Mix(p, x, y) <= x
    ensures y < x ==> y < Mix(p, x, y) < x
  {
    var q, d := 1.0 - p, x - y;
    Product(p, d);
    Product(q, d);
    assert Mix(p, x, y) == y + p * d;
    assert Mix(p, x, y) == x - q * d;
  }

  lemma BlendIsSum(p: real, q: real, x: real, y: real)
    ensures Blend(p, q, x, y) == Mul(p, x) + Mul(q, y)
  {
  }

  lemma BlendInUnit(p: real, q: real, x: real, y: real)
    requires p >= 0.0 && q >= 0.0 && p + q == 1.0 && 0.0 <= x <= 1.0 && 0.0 <= y <= 1.0
    ensures 0.0 <= Blend(p, q, x, y) <= 1.0
  {
    BlendIsSum(p, q, x, y);
    hide Mul, Blend;
    Positive(p, x);
    Positive(q, y);
    Scale(p, x, 1.0);
    Scale(q, y, 1.0);
    Units(p);
    Units(q);
  }

  lemma MixInUnit(p: real, x: real, y: real)
    requires 0.0 <= p <= 1.0 && 0.0 <= x <= 1.0 && 0.0 <= y <= 1.0
    ensures 0.0 <= Mix(p, x, y) <= 1.0
  {
    hide Blend;
    BlendInUnit(p, 1.0 - p, x, y);
  }

  lemma MixMonotone(p: real, q: real, x: real, y: real, x': real, y': real)
    requires 0.0 < p <= q < 1.0 && x <= x' && y <= y' && y' <= x'
    ensures Mix(p, x, y) <= Mix(q, x', y')
    ensures p < q && y' < x' ==> Mix(p, x, y) < Mix(q, x', y')
    ensures x < x' && y < y' ==> Mix(p, x, y) < Mix(q, x', y')
  {
    var p1, dx, dy, dp, d := 1.0 - p, x' - x, y' - y, q - p, x' - y';
    Product(p, dx);
    Product(p1, dy);
    assert dp > 0.0 ==> dp * d >= 0.0 && (d > 0.0 ==> dp * d > 0.0) by {
      if dp > 0.0 { Product(dp, d); }
    }
    assert dp == 0.0 ==> dp * d == 0.0;
    assert Mix(p, x', y') - Mix(p, x, y) == p * dx + p1 * dy;
    assert Mix(q, x', y') - Mix(p, x', y') == dp * d;
  }

  // ----- the four facts about a race -----------------------------------------

  lemma {:induction false} ChanceRange(r: Rules, prob: nat -> real, a: nat, b: nat)
    requires r.WellFormed() && IsProbability(prob)
    ensures 0.0 <= Chance(r, prob, a, b) <= 1.0
    ensures r.Open(a, b) ==> 0.0 < Chance(r, prob, a, b) < 1.0
    decreases if a + b < r.horizon then r.horizon - (a + b) else 0
  {
    if r.Open(a, b) {
      ChanceOrdered(r, prob, a, b);
      ChanceRange(r, prob, a + 1, b);
      ChanceRange(r, prob, a, b + 1);
      MixBetween(prob(a + b), Chance(r, prob, a + 1, b), Chance(r, prob, a, b + 1));
    }
  }

  // Winning the trial is strictly better than losing it.
  lemma {:induction false} ChanceOrdered(r: Rules, prob: nat -> real, a: nat, b: nat)
    requires r.WellFormed() && IsProbability(prob) && r.Open(a, b)
    ensures Chance(r, prob, a + 1, b) > Chance(r, prob, a, b + 1)
    decreases r.horizon - (a + b), 0
  {
    if r.Open(a + 1, b) && r.Open(a, b + 1) {
      ChanceOrdered(r, prob, a + 1, b);
      ChanceOrdered(r, prob, a, b + 1);
      var p := prob(a + b + 1);
      var x, y, z := Chance(r, prob, a + 2, b), Chance(r, prob, a + 1, b + 1), Chance(r, prob, a, b + 2);
      MixBetween(p, x, y);
      MixBetween(p, y, z);
    } else if r.Open(a + 1, b) {
      ChanceRange(r, prob, a + 1, b);
    } else if r.Open(a, b + 1) {
      ChanceRange(r, prob, a, b + 1);
    }
  }

  // A better chance on every trial, and on a cut, is a better chance overall;
  // strictly better when the very next trial is.
  lemma {:induction false} ChanceMonotone(
    r: Rules, tie': real, prob: nat -> real, prob': nat -> real, a: nat, b: nat)
    requires r.WellFormed() && IsProbability(prob) && IsProbability(prob')
    requires r.tie <= tie' < 1.0
    requires forall n: nat :: prob(n) <= prob'(n)
    ensures Chance(r, prob, a, b) <= Chance(r.(tie := tie'), prob', a, b)
    ensures r.Open(a, b) && prob(a + b) < prob'(a + b) ==>
              Chance(r, prob, a, b) < Chance(r.(tie := tie'), prob', a, b)
    decreases if a + b < r.horizon then r.horizon - (a + b) else 0
  {
    var r' := r.(tie := tie');
    if r.Open(a, b) {
      ChanceMonotone(r, tie', prob, prob', a + 1, b);
      ChanceMonotone(r, tie', prob, prob', a, b + 1);
      ChanceOrdered(r', prob', a, b);
      MixMonotone(prob(a + b), prob'(a + b),
                  Chance(r, prob, a + 1, b), Chance(r, prob, a, b + 1),
                  Chance(r', prob', a + 1, b), Chance(r', prob', a, b + 1));
    }
  }

  // Exactly one side wins: B's chance is A's chance in the mirrored race.
  lemma {:induction false} ChanceMirror(
    r: Rules, prob: nat -> real, mirrored: nat -> real, a: nat, b: nat)
    requires r.lead >= 1
    requires forall n: nat :: mirrored(n) == 1.0 - prob(n)
    ensures Chance(r, prob, a, b) + Chance(r.(tie := 1.0 - r.tie), mirrored, b, a) == 1.0
    decreases if a + b < r.horizon then r.horizon - (a + b) else 0
  {
    hide Mix, Blend;
    if r.Open(a, b) {
      ChanceMirror(r, prob, mirrored, a + 1, b);
      ChanceMirror(r, prob, mirrored, a, b + 1);
      var m := r.(tie := 1.0 - r.tie);
      var p, x, y := prob(a + b), Chance(r, prob, a + 1, b), Chance(r, prob, a, b + 1);
      assert m.Open(b, a) && mirrored(b + a) == 1.0 - p;
      MixMirror(p, x, y);
    }
  }

  lemma MixMirror(p: real, x: real, y: real)
    ensures Mix(1.0 - p, 1.0 - y, 1.0 - x) == 1.0 - Mix(p, x, y)
  {
  }

  // ----- the order inside a pair of trials -------------------------------------

  ghost predicate SwappedAt(prob: nat -> real, prob': nat -> real, n: nat) {
    prob'(n) == prob(n + 1) && prob'(n + 1) == prob(n)
  }

  // Two trials looked at together. A race won on the first trial of a pair
  // stays won whatever the second would have brought, so both may be played.
  lemma PairStep(r: Rules, prob: nat -> real, a: nat, b: nat)
    requires r.lead == 2 && r.horizon % 2 == 0 && (a + b) % 2 == 0 && r.Open(a, b)
    ensures Chance(r, prob, a, b) ==
            Mix(prob(a + b),
                Mix(prob(a + b + 1), Chance(r, prob, a + 2, b), Chance(r, prob, a + 1, b + 1)),
                Mix(prob(a + b + 1), Chance(r, prob, a + 1, b + 1), Chance(r, prob, a, b + 2)))
  {
    var p := prob(a + b + 1);
    assert a + b + 1 < r.horizon;
    if r.WonBy(a + 1, b) {
      assert r.WonBy(a + 2, b) && r.WonBy(a + 1, b + 1);
      assert Mix(p, 1.0, 1.0) == 1.0;
    }
    if r.WonBy(b + 1, a) {
      assert r.WonBy(b + 2, a) && r.WonBy(b + 1, a + 1);
      assert Mix(p, 0.0, 0.0) == 0.0;
    }
  }

  // Swapping the two trials of every pair changes nothing, at any score
  // reached after a whole number of pairs.
  lemma {:induction false} PairSwap(r: Rules, prob: nat -> real, prob': nat -> real, a: nat, b: nat)
    requires r.lead == 2 && r.horizon % 2 == 0 && (a + b) % 2 == 0
    requires forall n: nat :: n % 2 == 0 ==> SwappedAt(prob, prob', n)
    ensures Chance(r, prob, a, b) == Chance(r, prob', a, b)
    decreases if a + b < r.horizon then r.horizon - (a + b) else 0
  {
    if r.Open(a, b) {
      PairStep(r, prob, a, b);
      PairStep(r, prob', a, b);
      PairSwap(r, prob, prob', a + 2, b);
      PairSwap(r, prob, prob', a + 1, b + 1);
      PairSwap(r, prob, prob', a, b + 2);
      assert SwappedAt(prob, prob', a + b);
      MixSwap(prob(a + b), prob(a + b + 1),
              Chance(r, prob, a + 2, b), Chance(r, prob, a + 1, b + 1), Chance(r, prob, a, b + 2));
    }
  }

  lemma MixSwap(p: real, q: real, x: real, y: real, z: real)
    ensures Mix(p, Mix(q, x, y), Mix(q, y, z)) == Mix(q, Mix(p, x, y), Mix(p, y, z))
  {
  }
}
