// A service game (ITF Rules of Tennis, rule 5a): first to four points by two.
module TennisGame {
  import opened Results
  import opened Products
  import opened Race
  import opened Rounding

  datatype ValueError = ProbabilityOutOfRange(p: real)

  function Square(x: real): real {
    x * x
  }

  function Deuce(p: real): real
    requires 0.0 < p < 1.0
  {
    SquarePositive(p);
    SquarePositive(1.0 - p);
    Square(p) / (Square(p) + Square(1.0 - p))
  }

  lemma SquarePositive(x: real)
    requires x > 0.0
    ensures Square(x) > 0.0
  {
    NamedProduct(x, x, Square(x));
  }

  // The four ways to win before deuce, then deuce.
  function ServeGame(p: real): real
    requires 0.0 < p < 1.0
  {
    var q := 1.0 - p;
    p * p * p * p + 4.0 * p * p * p * p * q + 10.0 * p * p * p * p * q * q
    + 20.0 * p * p * p * q * q * q * Deuce(p)
  }

  function GameWinProbability(p: real): Result<real, ValueError> {
    if 0.0 < p < 1.0 then Ok(ServeGame(p)) else Raised(ProbabilityOutOfRange(p))
  }

  function Always(p: real): nat -> real {
    (n: nat) => p
  }

  // The game as a race: at 3-3 it is worth the deuce sub-game.
  function GameRules(p: real): Rules
    requires 0.0 < p < 1.0
  {
    Rules(4, 2, 6, Deuce(p))
  }

  lemma Ratio(x: real, s: real)
    requires 0.0 < x < s
    ensures 0.0 < x / s < 1.0 && (x / s) * s == x
  {
    var d := x / s;
    assert s * d == x;
    Factor(s, d);
    assert s * (1.0 - d) == s - x;
    Factor(s, 1.0 - d);
  }

  lemma RatioLess(x: real, s: real, x': real, s': real)
    requires s > 0.0 && s' > 0.0 && x * s' < x' * s
    ensures x / s < x' / s'
  {
    var d, d' := x / s, x' / s';
    assert s * d == x && s' * d' == x';
    Product(s, s');
    assert (s * s') * (d' - d) == (s' * d') * s - (s * d) * s';
    Factor(s * s', d' - d);
  }

  // Deuce is won by taking two points in a row, or by splitting two and being
  // back at deuce.
  lemma DeuceInterior(p: real)
    requires 0.0 < p < 1.0
    ensures 0.0 < Deuce(p) < 1.0
    ensures Deuce(p) == Mix(p, Mix(p, 1.0, Deuce(p)), Mix(p, Deuce(p), 0.0))
  {
    SquarePositive(p);
    SquarePositive(1.0 - p);
    Ratio(Square(p), Square(p) + Square(1.0 - p));
    DeuceSplit(p, 1.0 - p, Deuce(p));
  }

  lemma DeuceSplit(p: real, q: real, d: real)
    requires p + q == 1.0 && d * (Square(p) + Square(q)) == Square(p)
    ensures d == Blend(p, q, Blend(p, q, 1.0, d), Blend(p, q, d, 0.0))
  {
    assert (p + q) * (p + q) == p * p + q * q + 2.0 * (p * q);
    assert d * (p * p + q * q + 2.0 * (p * q)) == d;
  }

  lemma DeuceMonotone(p: real, p': real)
    requires 0.0 < p < p' < 1.0
    ensures Deuce(p) < Deuce(p')
  {
    SquarePositive(p); SquarePositive(1.0 - p); SquarePositive(p'); SquarePositive(1.0 - p');
    CrossSquares(p, 1.0 - p, p', 1.0 - p');
    RatioLess(Square(p), Square(p) + Square(1.0 - p), Square(p'), Square(p') + Square(1.0 - p'));
  }

  lemma CrossSquares(p: real, q: real, p': real, q': real)
    requires 0.0 < p < p' && 0.0 < q' < q
    ensures Square(p) * (Square(p') + Square(q')) < Square(p') * (Square(p) + Square(q))
  {
    var u, v := p * q', p' * q;
    Product(p' - p, q);
    Product(p, q - q');
    Product(p, q');
    assert v - u == (p' - p) * q + p * (q - q');
    SquareLess(u, v);
    assert v * v == Square(p') * Square(q) && u * u == Square(p) * Square(q');
  }

  lemma SquareLess(u: real, v: real)
    requires 0.0 < u < v
    ensures u * u < v * v
  {
    NamedProduct(v - u, v + u, v * v - u * u);
  }

  // ----- the closed form is the race -----------------------------------------

  // Each score up to deuce, by the orders in which its remaining points can
  // fall; d is the value of deuce.
  function PathSum(p: real, q: real, d: real, a: nat, b: nat): real {
    if a >= 4 then 1.0
    else if b >= 4 then 0.0
    else if (a, b) == (3, 2) then p + q * d
    else if (a, b) == (2, 3) then p * d
    else if (a, b) == (3, 1) then p + p * q + q * q * d
    else if (a, b) == (2, 2) then p * p + 2.0 * p * q * d
    else if (a, b) == (1, 3) then p * p * d
    else if (a, b) == (3, 0) then p + p * q + p * q * q + q * q * q * d
    else if (a, b) == (2, 1) then p * p + 2.0 * p * p * q + 3.0 * p * q * q * d
    else if (a, b) == (1, 2) then p * p * p + 3.0 * p * p * q * d
    else if (a, b) == (0, 3) then p * p * p * d
    else if (a, b) == (2, 0) then p * p + 2.0 * p * p * q + 3.0 * p * p * q * q + 4.0 * p * q * q * q * d
    else if (a, b) == (1, 1) then p * p * p + 3.0 * p * p * p * q + 6.0 * p * p * q * q * d
    else if (a, b) == (0, 2) then p * p * p * p + 4.0 * p * p * p * q * d
    else if (a, b) == (1, 0) then p * p * p + 3.0 * p * p * p * q + 6.0 * p * p * p * q * q + 10.0 * p * p * q * q * q * d
    else if (a, b) == (0, 1) then p * p * p * p + 4.0 * p * p * p * p * q + 10.0 * p * p * p * q * q * d
    else if (a, b) == (0, 0) then
      p * p * p * p + 4.0 * p * p * p * p * q + 10.0 * p * p * p * p * q * q + 20.0 * p * p * p * q * q * q * d
    else d
  }

  lemma PathStep(p: real, q: real, d: real, a: nat, b: nat)
    requires a <= 3 && b <= 3 && a + b < 6
    ensures PathSum(p, q, d, a, b)
            == Blend(p, q, PathSum(p, q, d, a + 1, b), PathSum(p, q, d, a, b + 1))
  {
    hide Blend;
    EarlyIdentities(p, q, d);
    LateIdentities(p, q, d);
  }

  lemma EarlyIdentities(p: real, q: real, d: real)
    ensures Blend(p, q, 1.0, d)
            == p + q * d
    ensures Blend(p, q, d, 0.0)
            == p * d
    ensures Blend(p, q, 1.0, p + q * d)
            == p + p * q + q * q * d
    ensures Blend(p, q, p + q * d, p * d)
            == p * p + 2.0 * p * q * d
    ensures Blend(p, q, p * d, 0.0)
            == p * p * d
    ensures Blend(p, q, 1.0, p + p * q + q * q * d)
            == p + p * q + p * q * q + q * q * q * d
    ensures Blend(p, q, p + p * q + q * q * d, p * p + 2.0 * p * q * d)
            == p * p + 2.0 * p * p * q + 3.0 * p * q * q * d
    ensures Blend(p, q, p * p + 2.0 * p * q * d, p * p * d)
            == p * p * p + 3.0 * p * p * q * d
    ensures Blend(p, q, p * p * d, 0.0)
            == p * p * p * d
  {
  }

  lemma LateIdentities(p: real, q: real, d: real)
    ensures Blend(p, q, p + p * q + p * q * q + q * q * q * d, p * p + 2.0 * p * p * q + 3.0 * p * q * q * d)
            == p * p + 2.0 * p * p * q + 3.0 * p * p * q * q + 4.0 * p * q * q * q * d
    ensures Blend(p, q, p * p + 2.0 * p * p * q + 3.0 * p * q * q * d, p * p * p + 3.0 * p * p * q * d)
            == p * p * p + 3.0 * p * p * p * q + 6.0 * p * p * q * q * d
    ensures Blend(p, q, p * p * p + 3.0 * p * p * q * d, p * p * p * d)
            == p * p * p * p + 4.0 * p * p * p * q * d
    ensures Blend(p, q, p * p + 2.0 * p * p * q + 3.0 * p * p * q * q + 4.0 * p * q * q * q * d,
                  p * p * p + 3.0 * p * p * p * q + 6.0 * p * p * q * q * d)
            == p * p * p + 3.0 * p * p * p * q + 6.0 * p * p * p * q * q + 10.0 * p * p * q * q * q * d
    ensures Blend(p, q, p * p * p + 3.0 * p * p * p * q + 6.0 * p * p * q * q * d, p * p * p * p + 4.0 * p * p * p * q * d)
            == p * p * p * p + 4.0 * p * p * p * p * q + 10.0 * p * p * p * q * q * d
    ensures Blend(p, q, p * p * p + 3.0 * p * p * p * q + 6.0 * p * p * p * q * q + 10.0 * p * p * q * q * q * d,
                  p * p * p * p + 4.0 * p * p * p * p * q + 10.0 * p * p * p * q * q * d)
            == p * p * p * p + 4.0 * p * p * p * p * q + 10.0 * p * p * p * p * q * q + 20.0 * p * p * p * q * q * q * d
  {
  }

  // Every valuation with the right values at the end of the game and at deuce
  // is the path sum.
  lemma {:induction false} PathCounts(p: real, q: real, d: real, v: (nat, nat) -> real, a: nat, b: nat)
    requires a <= 4 && b <= 4 && a + b <= 6
    requires forall k: nat :: k <= 2 ==> v(4, k) == 1.0 && v(k, 4) == 0.0
    requires v(3, 3) == d
    requires forall a: nat, b: nat :: a <= 3 && b <= 3 && a + b < 6 ==>
               v(a, b) == Blend(p, q, v(a + 1, b), v(a, b + 1))
    ensures v(a, b) == PathSum(p, q, d, a, b)
    decreases 6 - a - b
  {
    hide Blend;
    if a <= 3 && b <= 3 && a + b < 6 {
      PathCounts(p, q, d, v, a + 1, b);
      PathCounts(p, q, d, v, a, b + 1);
      PathStep(p, q, d, a, b);
    }
  }

  // ----- what "the probability of winning a game" means ------------------------

  // A valuation of every score that follows the rule: four points and two
  // clear wins, and otherwise one more point is played.
  ghost predicate ScoresGame(v: (nat, nat) -> real, p: real) {
    forall a: nat, b: nat ::
      && 0.0 <= v(a, b) <= 1.0
      && (a >= 4 && a >= b + 2 ==> v(a, b) == 1.0)
      && (b >= 4 && b >= a + 2 ==> v(a, b) == 0.0)
      && (!(a >= 4 && a >= b + 2) && !(b >= 4 && b >= a + 2) ==>
            v(a, b) == Mix(p, v(a + 1, b), v(a, b + 1)))
  }

  // One trip through deuce halves, at least, the distance to the deuce value.
  lemma DeuceContracts(v: (nat, nat) -> real, p: real, k: nat)
    requires 0.0 < p < 1.0 && ScoresGame(v, p) && k >= 3
    ensures Absolute(v(k, k) - Deuce(p)) <= 0.5 * Absolute(v(k + 1, k + 1) - Deuce(p))
  {
    hide Blend, Deuce;
    var d := Deuce(p);
    DeuceInterior(p);
    var x := v(k + 1, k + 1);
    assert v(k + 2, k) == 1.0 && v(k, k + 2) == 0.0;
    assert v(k, k) == Mix(p, Mix(p, 1.0, x), Mix(p, x, 0.0)) by {
      assert v(k + 1, k) == Mix(p, 1.0, x);
      assert v(k, k + 1) == Mix(p, x, 0.0);
    }
    SplitDistance(p, 1.0 - p, x, d);
    Contract(p, 1.0 - p, v(k, k) - d, x - d);
  }

  lemma SplitDistance(p: real, q: real, x: real, y: real)
    ensures Blend(p, q, Blend(p, q, 1.0, x), Blend(p, q, x, 0.0))
            - Blend(p, q, Blend(p, q, 1.0, y), Blend(p, q, y, 0.0)) == 2.0 * p * q * (x - y)
  {
  }

  lemma Contract(p: real, q: real, e: real, x: real)
    requires 0.0 < p < 1.0 && q == 1.0 - p && e == 2.0 * p * q * x
    ensures Absolute(e) <= 0.5 * Absolute(x)
  {
    var c := 2.0 * p * (1.0 - p);
    assert 0.5 - c == 2.0 * ((p - 0.5) * (p - 0.5));
    SquareNonNegative(p - 0.5);
    NamedProduct(p, 1.0 - p, p * (1.0 - p));
    assert 0.0 <= c <= 0.5;
    ScaleAbsolute(c, x);
  }

  lemma ScaleAbsolute(c: real, x: real)
    requires 0.0 <= c <= 0.5
    ensures Absolute(c * x) <= 0.5 * Absolute(x)
  {
  }

  lemma {:induction false} DeuceDistance(v: (nat, nat) -> real, p: real, k: nat, n: nat)
    requires 0.0 < p < 1.0 && ScoresGame(v, p) && k >= 3
    ensures Absolute(v(k, k) - Deuce(p)) <= Halved(1.0, n)
    decreases n
  {
    DeuceInterior(p);
    if n > 0 {
      DeuceContracts(v, p, k);
      DeuceDistance(v, p, k + 1, n - 1);
    }
  }

  lemma {:induction false} HalfVanishes(n: nat)
    ensures Halved(1.0, n) * (n + 1) as real <= 1.0
  {
    if n > 0 {
      HalfVanishes(n - 1);
      assert Halved(1.0, n) * (n + 1) as real == Halved(1.0, n - 1) * n as real - Halved(1.0, n - 1) * (n - 1) as real * 0.5;
      HalfPositive(n - 1);
    }
  }

  lemma {:induction false} HalfPositive(n: nat)
    ensures Halved(1.0, n) > 0.0
  {
    if n > 0 {
      HalfPositive(n - 1);
    }
  }

  lemma SomeHalfBelow(x: real) returns (n: nat)
    requires x > 0.0
    ensures Halved(1.0, n) < x
  {
    n := (1.0 / x).Floor;
    HalfVanishes(n);
    var m := (n + 1) as real;
    assert m > 1.0 / x;
    NamedProduct(x, m - 1.0 / x, x * m - 1.0);
    assert (x - Halved(1.0, n)) * m > 0.0;
    Factor(m, x - Halved(1.0, n));
  }

  lemma BelowEveryHalf(x: real)
    requires x >= 0.0 && forall n: nat :: x <= Halved(1.0, n)
    ensures x == 0.0
  {
    if x > 0.0 {
      var n := SomeHalfBelow(x);
      assert false;
    }
  }

  lemma AbsZero(x: real)
    ensures Absolute(x) >= 0.0
    ensures Absolute(x) == 0.0 ==> x == 0.0
  {
  }

  // The closed form is the only bounded valuation the scoring rule allows.
  lemma GameIsTheOnlyScoring(v: (nat, nat) -> real, p: real)
    requires 0.0 < p < 1.0 && ScoresGame(v, p)
    ensures v(0, 0) == ServeGame(p)
  {
    hide Deuce, Blend, Absolute;
    AbsZero(v(3, 3) - Deuce(p));
    forall n: nat ensures Absolute(v(3, 3) - Deuce(p)) <= Halved(1.0, n) {
      DeuceDistance(v, p, 3, n);
    }
    BelowEveryHalf(Absolute(v(3, 3) - Deuce(p)));
    PathCounts(p, 1.0 - p, Deuce(p), v, 0, 0);
  }

  // ----- the closed form as a race ---------------------------------------------

  lemma GameIsRace(p: real)
    requires 0.0 < p < 1.0
    ensures ServeGame(p) == Chance(GameRules(p), Always(p), 0, 0)
  {
    hide Blend, Deuce;
    var r, f := GameRules(p), Always(p);
    PathCounts(p, 1.0 - p, Deuce(p), (a: nat, b: nat) => Chance(r, f, a, b), 0, 0);
  }

  lemma GameInterior(p: real)
    requires 0.0 < p < 1.0
    ensures 0.0 < ServeGame(p) < 1.0
  {
    hide ServeGame, Deuce;
    DeuceInterior(p);
    GameIsRace(p);
    ChanceRange(GameRules(p), Always(p), 0, 0);
  }

  // A better server wins more service games.
  lemma GameMonotone(p: real, p': real)
    requires 0.0 < p < p' < 1.0
    ensures ServeGame(p) < ServeGame(p')
  {
    hide ServeGame, Deuce;
    DeuceInterior(p);
    DeuceInterior(p');
    DeuceMonotone(p, p');
    GameIsRace(p);
    GameIsRace(p');
    ChanceMonotone(GameRules(p), Deuce(p'), Always(p), Always(p'), 0, 0);
  }

  // ----- the rule has such a valuation -------------------------------------------

  // From deuce on only the difference matters.
  function GameValue(p: real): (nat, nat) -> real
    requires 0.0 < p < 1.0
  {
    (a: nat, b: nat) =>
      if a >= 4 && a >= b + 2 then 1.0
      else if b >= 4 && b >= a + 2 then 0.0
      else if a + b >= 6 then
        if a == b then Deuce(p) else if a > b then Mix(p, 1.0, Deuce(p)) else Mix(p, Deuce(p), 0.0)
      else PathSum(p, 1.0 - p, Deuce(p), a, b)
  }

  lemma GameValueScores(p: real)
    requires 0.0 < p < 1.0
    ensures ScoresGame(GameValue(p), p)
  {
    hide Deuce, Blend, PathSum;
    DeuceInterior(p);
    var v, d := GameValue(p), Deuce(p);
    MixBetween(p, 1.0, d);
    MixBetween(p, d, 0.0);
    forall a: nat, b: nat | !(a >= 4 && a >= b + 2) && !(b >= 4 && b >= a + 2)
      ensures v(a, b) == Mix(p, v(a + 1, b), v(a, b + 1))
    {
      if a + b < 6 {
        PathStep(p, 1.0 - p, d, a, b);
        PathEnds(p, 1.0 - p, d, a + 1, b);
        PathEnds(p, 1.0 - p, d, a, b + 1);
      }
    }
    forall a: nat, b: nat ensures 0.0 <= v(a, b) <= 1.0 {
      if a <= 3 && b <= 3 && a + b < 6 {
        GameValueRange(p, a, b);
      }
    }
  }

  lemma PathEnds(p: real, q: real, d: real, a: nat, b: nat)
    requires a <= 4 && b <= 4 && a + b <= 6
    ensures a == 4 ==> PathSum(p, q, d, a, b) == 1.0
    ensures b == 4 ==> PathSum(p, q, d, a, b) == 0.0
    ensures a == 3 && b == 3 ==> PathSum(p, q, d, a, b) == d
  {
  }

  lemma {:induction false} GameValueRange(p: real, a: nat, b: nat)
    requires 0.0 < p < 1.0 && a <= 4 && b <= 4 && a + b <= 6
    ensures 0.0 <= PathSum(p, 1.0 - p, Deuce(p), a, b) <= 1.0
    decreases 6 - a - b
  {
    hide Deuce, PathSum;
    DeuceInterior(p);
    if a <= 3 && b <= 3 && a + b < 6 {
      GameValueRange(p, a + 1, b);
      GameValueRange(p, a, b + 1);
      PathStep(p, 1.0 - p, Deuce(p), a, b);
      MixInUnit(p, PathSum(p, 1.0 - p, Deuce(p), a + 1, b), PathSum(p, 1.0 - p, Deuce(p), a, b + 1));
    } else {
      PathEnds(p, 1.0 - p, Deuce(p), a, b);
    }
  }
}
