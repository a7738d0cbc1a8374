// The tiebreak (ITF Rules of Tennis, rule 5b): first to seven by two, the
// service changing after the first point and then after every second one.
module TennisTiebreak {
  import opened Race
  import opened Results

  const MAX_TIEBREAK_POINTS: nat := 100

  predicate FirstServerServes(n: nat) {
    ((n + 1) / 2) % 2 == 0
  }

  // A's chance on the point played after n earlier ones.
  function PointChance(pA: real, pB: real, aServesFirst: bool, n: nat): real {
    if FirstServerServes(n) == aServesFirst then pA else 1.0 - pB
  }

  // The first server serves one point; then the sides take turns serving two.
  lemma ServesInPairs(pA: real, pB: real, aServesFirst: bool, pair: nat)
    ensures PointChance(pA, pB, aServesFirst, 0) == if aServesFirst then pA else 1.0 - pB
    ensures var aServes := if pair % 2 == 0 then !aServesFirst else aServesFirst;
            PointChance(pA, pB, aServesFirst, 2 * pair + 1) == PointChance(pA, pB, aServesFirst, 2 * pair + 2)
            == if aServes then pA else 1.0 - pB
  {
  }

  // The pure recursion: A's chance from a-b with n points played.
  function Solve(pA: real, pB: real, aServesFirst: bool, a: nat, b: nat, n: nat): real
    decreases if n < MAX_TIEBREAK_POINTS then MAX_TIEBREAK_POINTS - n else 0
  {
    if a >= 7 && a - b >= 2 then 1.0
    else if b >= 7 && b - a >= 2 then 0.0
    else if n >= MAX_TIEBREAK_POINTS then 0.5
    else
      Mix(PointChance(pA, pB, aServesFirst, n),
          Solve(pA, pB, aServesFirst, a + 1, b, n + 1),
          Solve(pA, pB, aServesFirst, a, b + 1, n + 1))
  }

  function Tiebreak(pA: real, pB: real, aServesFirst: bool): real {
    Solve(pA, pB, aServesFirst, 0, 0, 0)
  }

  // One call's memo table.
  class TiebreakSolver {
    const pA: real
    const pB: real
    const aServesFirst: bool
    var memo: map<(nat, nat, nat), real>

    ghost predicate Valid()
      reads this
    {
      forall k :: k in memo ==> memo[k] == Solve(pA, pB, aServesFirst, k.0, k.1, k.2)
    }

    constructor (pA: real, pB: real, aServesFirst: bool)
      ensures Valid() && memo == map[]
      ensures this.pA == pA && this.pB == pB && this.aServesFirst == aServesFirst
    {
      this.pA, this.pB, this.aServesFirst := pA, pB, aServesFirst;
      memo := map[];
    }

    method Run(a: nat, b: nat, n: nat) returns (value: real)
      requires Valid()
      modifies this
      ensures Valid()
      ensures value == Solve(pA, pB, aServesFirst, a, b, n)
      ensures forall k :: k in old(memo) ==> k in memo
      decreases if n < MAX_TIEBREAK_POINTS then MAX_TIEBREAK_POINTS - n else 0
    {
      hide Mix;
      if a >= 7 && a - b >= 2 { return 1.0; }
      if b >= 7 && b - a >= 2 { return 0.0; }
      if n >= MAX_TIEBREAK_POINTS { return 0.5; }
      if (a, b, n) in memo { return memo[(a, b, n)]; }
      var p := PointChance(pA, pB, aServesFirst, n);
      var won := Run(a + 1, b, n + 1);
      var lost := Run(a, b + 1, n + 1);
      value := Mix(p, won, lost);
      memo := memo[(a, b, n) := value];
    }
  }

  method TiebreakWinProbability(pA: real, pB: real, aServesFirst: bool) returns (value: real)
    ensures value == Tiebreak(pA, pB, aServesFirst)
  {
    var solver := new TiebreakSolver(pA, pB, aServesFirst);
    value := solver.Run(0, 0, 0);
  }

  // ----- the recursion is a race ----------------------------------------------

  const TIEBREAK_RULES: Rules := Rules(7, 2, MAX_TIEBREAK_POINTS, 0.5)

  function Points(pA: real, pB: real, aServesFirst: bool): nat -> real {
    (n: nat) => PointChance(pA, pB, aServesFirst, n)
  }

  lemma {:induction false} SolveIsRace(pA: real, pB: real, aServesFirst: bool, a: nat, b: nat)
    requires a + b <= MAX_TIEBREAK_POINTS
    ensures Solve(pA, pB, aServesFirst, a, b, a + b)
            == Chance(TIEBREAK_RULES, Points(pA, pB, aServesFirst), a, b)
    decreases MAX_TIEBREAK_POINTS - (a + b)
  {
    hide Solve, Chance, Mix;
    if TIEBREAK_RULES.Open(a, b) {
      SolveIsRace(pA, pB, aServesFirst, a + 1, b);
      SolveIsRace(pA, pB, aServesFirst, a, b + 1);
      SolveStep(pA, pB, aServesFirst, a, b);
    } else {
      SolveEnd(pA, pB, aServesFirst, a, b);
    }
  }

  lemma SolveEnd(pA: real, pB: real, aServesFirst: bool, a: nat, b: nat)
    requires a + b <= MAX_TIEBREAK_POINTS && !TIEBREAK_RULES.Open(a, b)
    ensures Solve(pA, pB, aServesFirst, a, b, a + b)
            == Chance(TIEBREAK_RULES, Points(pA, pB, aServesFirst), a, b)
  {
    hide Mix, PointChance;
    if !TIEBREAK_RULES.WonBy(a, b) && !TIEBREAK_RULES.WonBy(b, a) {
      assert a == b;
    }
  }

  lemma SolveStep(pA: real, pB: real, aServesFirst: bool, a: nat, b: nat)
    requires TIEBREAK_RULES.Open(a, b)
    ensures Solve(pA, pB, aServesFirst, a, b, a + b)
            == Mix(PointChance(pA, pB, aServesFirst, a + b),
                   Solve(pA, pB, aServesFirst, a + 1, b, a + b + 1),
                   Solve(pA, pB, aServesFirst, a, b + 1, a + b + 1))
    ensures Chance(TIEBREAK_RULES, Points(pA, pB, aServesFirst), a, b)
            == Mix(PointChance(pA, pB, aServesFirst, a + b),
                   Chance(TIEBREAK_RULES, Points(pA, pB, aServesFirst), a + 1, b),
                   Chance(TIEBREAK_RULES, Points(pA, pB, aServesFirst), a, b + 1))
  {
    hide Mix, PointChance;
  }

  predicate ServePoint(p: real) {
    0.0 < p < 1.0
  }

  lemma TiebreakInterior(pA: real, pB: real, aServesFirst: bool)
    requires ServePoint(pA) && ServePoint(pB)
    ensures 0.0 < Tiebreak(pA, pB, aServesFirst) < 1.0
  {
    hide Solve, Chance, Mix;
    SolveIsRace(pA, pB, aServesFirst, 0, 0);
    ChanceRange(TIEBREAK_RULES, Points(pA, pB, aServesFirst), 0, 0);
  }

  // At any stage still in play, the next point is worth winning.
  lemma TiebreakOrdered(pA: real, pB: real, aServesFirst: bool, a: nat, b: nat)
    requires ServePoint(pA) && ServePoint(pB) && TIEBREAK_RULES.Open(a, b)
    ensures Solve(pA, pB, aServesFirst, a + 1, b, a + b + 1)
            > Solve(pA, pB, aServesFirst, a, b + 1, a + b + 1)
  {
    hide Solve, Chance, Mix;
    SolveIsRace(pA, pB, aServesFirst, a + 1, b);
    SolveIsRace(pA, pB, aServesFirst, a, b + 1);
    ChanceOrdered(TIEBREAK_RULES, Points(pA, pB, aServesFirst), a, b);
  }

  // Who serves first is worth nothing, at every even score.
  lemma TiebreakServeOrder(pA: real, pB: real, a: nat, b: nat)
    requires a + b <= MAX_TIEBREAK_POINTS && (a + b) % 2 == 0
    ensures Solve(pA, pB, true, a, b, a + b) == Solve(pA, pB, false, a, b, a + b)
  {
    hide Solve, Chance, Mix;
    SolveIsRace(pA, pB, true, a, b);
    SolveIsRace(pA, pB, false, a, b);
    PairSwap(TIEBREAK_RULES, Points(pA, pB, true), Points(pA, pB, false), a, b);
  }

  // The same tiebreak told from B's side of the net.
  lemma TiebreakMirror(pA: real, pB: real, aServesFirst: bool)
    ensures Tiebreak(pA, pB, aServesFirst) + Tiebreak(pB, pA, !aServesFirst) == 1.0
  {
    hide Solve, Chance, Mix;
    SolveIsRace(pA, pB, aServesFirst, 0, 0);
    SolveIsRace(pB, pA, !aServesFirst, 0, 0);
    ChanceMirror(TIEBREAK_RULES, Points(pA, pB, aServesFirst), Points(pB, pA, !aServesFirst), 0, 0);
  }

  // Strictly better with a better serve, strictly worse against one.
  lemma TiebreakMonotone(pA: real, pB: real, pA': real, pB': real, aServesFirst: bool)
    requires ServePoint(pA) && ServePoint(pB) && ServePoint(pA') && ServePoint(pB')
    requires pA <= pA' && pB' <= pB
    ensures Tiebreak(pA, pB, aServesFirst) <= Tiebreak(pA', pB', aServesFirst)
    ensures pA < pA' || pB' < pB ==> Tiebreak(pA, pB, aServesFirst) < Tiebreak(pA', pB', aServesFirst)
  {
    hide Solve, Chance, Mix;
    forall first: bool
      ensures Tiebreak(pA, pB, first) <= Tiebreak(pA', pB', first)
      ensures (if first then pA < pA' else pB' < pB) ==> Tiebreak(pA, pB, first) < Tiebreak(pA', pB', first)
    {
      SolveIsRace(pA, pB, first, 0, 0);
      SolveIsRace(pA', pB', first, 0, 0);
      ChanceMonotone(TIEBREAK_RULES, 0.5, Points(pA, pB, first), Points(pA', pB', first), 0, 0);
    }
    TiebreakServeOrder(pA, pB, 0, 0);
    TiebreakServeOrder(pA', pB', 0, 0);
    assert Tiebreak(pA, pB, true) == Tiebreak(pA, pB, false);
    assert Tiebreak(pA', pB', true) == Tiebreak(pA', pB', false);
  }
}
