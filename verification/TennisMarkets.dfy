// The markets read off one match distribution.
module TennisMarkets {
  import opened Race
  import opened Masses
  import opened Results
  import opened Rounding
  import opened TennisGame
  import opened TennisTiebreak
  import opened TennisSet
  import opened TennisMatch

  // ----- the match winner ------------------------------------------------------

  function AWins(m: MatchPlay): Outcome -> real {
    (o: Outcome) => if o.0 == m.setsToWin then 1.0 else 0.0
  }

  // The match as a race of independent sets.
  function MatchRules(setsToWin: nat): Rules
    requires setsToWin >= 1
  {
    Rules(setsToWin, 1, 2 * setsToWin - 1, 0.5)
  }

  function MatchChance(pA: real, pB: real, setsToWin: nat): real
    requires ServePoint(pA) && ServePoint(pB) && setsToWin >= 1
  {
    Chance(MatchRules(setsToWin), Always(SetChance(pA, pB)), 0, 0)
  }

  lemma {:induction false} MatchIsRace(m: MatchPlay, sa: nat, sb: nat, games: nat)
    requires m.Proper() && sa <= m.setsToWin && sb <= m.setsToWin && !(sa == m.setsToWin && sb == m.setsToWin)
    ensures MatchValue(AWins(m), m, sa, sb, games)
            == Chance(MatchRules(m.setsToWin), Always(SetChance(m.pA, m.pB)), sa, sb)
    decreases 2 * m.setsToWin - sa - sb
  {
    hide SetValue, SetChance, PlayOf, Mix;
    if m.Running(sa, sb) {
      var after := AfterSet(AWins(m), m, sa, sb, games);
      var x := Chance(MatchRules(m.setsToWin), Always(SetChance(m.pA, m.pB)), sa + 1, sb);
      var y := Chance(MatchRules(m.setsToWin), Always(SetChance(m.pA, m.pB)), sa, sb + 1);
      forall s | LegalFinal(s) ensures after(s) == if s.0 > s.1 then x else y {
        if s.0 > s.1 {
          MatchIsRace(m, sa + 1, sb, games + s.0 + s.1);
        } else {
          MatchIsRace(m, sa, sb + 1, games + s.0 + s.1);
        }
      }
      var play := PlayOf(m.pA, m.pB, m.AServes(games));
      SetValueByWinner(after, x, y, play, 0, 0);
      SetChanceServeOrder(m.pA, m.pB, m.AServes(games));
    }
  }

  // The distribution's match-win probability, whoever serves first.
  lemma MatchWinProbability(d: map<Outcome, real>, m: MatchPlay)
    requires m.Proper() && DescribesMatch(d, m)
    ensures Total(d, AWins(m)) == MatchChance(m.pA, m.pB, m.setsToWin)
  {
    hide Total, MatchValue, Chance;
    MatchIsRace(m, 0, 0, 0);
  }

  lemma SetChanceProbability(pA: real, pB: real)
    requires ServePoint(pA) && ServePoint(pB)
    ensures IsProbability(Always(SetChance(pA, pB)))
  {
    hide SetWin, PlayOf;
    PlayOfProper(pA, pB, true);
    SetInterior(PlayOf(pA, pB, true));
  }

  lemma MatchChanceInterior(pA: real, pB: real, setsToWin: nat)
    requires ServePoint(pA) && ServePoint(pB) && setsToWin >= 1
    ensures 0.0 < MatchChance(pA, pB, setsToWin) < 1.0
  {
    hide SetChance, Chance;
    SetChanceProbability(pA, pB);
    ChanceRange(MatchRules(setsToWin), Always(SetChance(pA, pB)), 0, 0);
  }

  // Strictly better with a better serve, strictly worse against one.
  lemma MatchChanceMonotone(pA: real, pB: real, pA': real, pB': real, setsToWin: nat)
    requires ServePoint(pA) && ServePoint(pB) && ServePoint(pA') && ServePoint(pB') && setsToWin >= 1
    requires pA <= pA' && pB' <= pB
    ensures MatchChance(pA, pB, setsToWin) <= MatchChance(pA', pB', setsToWin)
    ensures pA < pA' || pB' < pB ==> MatchChance(pA, pB, setsToWin) < MatchChance(pA', pB', setsToWin)
  {
    hide SetChance, Chance;
    SetChanceProbability(pA, pB);
    SetChanceProbability(pA', pB');
    SetChanceMonotone(pA, pB, pA', pB');
    ChanceMonotone(MatchRules(setsToWin), 0.5, Always(SetChance(pA, pB)), Always(SetChance(pA', pB')), 0, 0);
  }

  // Two equal players are level, and swapping the players swaps the answer.
  lemma MatchChanceMirror(pA: real, pB: real, setsToWin: nat)
    requires ServePoint(pA) && ServePoint(pB) && setsToWin >= 1
    ensures MatchChance(pA, pB, setsToWin) + MatchChance(pB, pA, setsToWin) == 1.0
  {
    hide SetChance, Chance;
    SetChanceMirror(pA, pB);
    ChanceMirror(MatchRules(setsToWin), Always(SetChance(pA, pB)), Always(SetChance(pB, pA)), 0, 0);
  }

  // ----- the other markets -------------------------------------------------------

  function One(): Outcome -> real {
    (o: Outcome) => 1.0
  }

  lemma {:induction false} MatchMass(m: MatchPlay, sa: nat, sb: nat, games: nat)
    requires m.Proper() && sa <= m.setsToWin && sb <= m.setsToWin
    ensures MatchValue(One(), m, sa, sb, games) == 1.0
    decreases 2 * m.setsToWin - sa - sb
  {
    hide SetValue, PlayOf;
    if m.Running(sa, sb) {
      var after := AfterSet(One(), m, sa, sb, games);
      forall s | LegalFinal(s) ensures after(s) == 1.0 {
        if s.0 > s.1 {
          MatchMass(m, sa + 1, sb, games + s.0 + s.1);
        } else {
          MatchMass(m, sa, sb + 1, games + s.0 + s.1);
        }
      }
      SetValueByWinner(after, 1.0, 1.0, PlayOf(m.pA, m.pB, m.AServes(games)), 0, 0);
    }
  }

  function WinsASet(home: bool): Outcome -> real {
    (o: Outcome) => if (if home then o.0 else o.1) >= 1 then 1.0 else 0.0
  }

  // The player loses to nothing: no set won, all sets lost.
  function Shutout(m: MatchPlay, home: bool): Outcome -> real {
    (o: Outcome) =>
      if (if home then o.0 == 0 && o.1 == m.setsToWin else o.1 == 0 && o.0 == m.setsToWin) then 1.0 else 0.0
  }

  // The set and match markets agree: the mass is one,
  // both winners share it, and "wins a set" is exactly "is not shut out", so it
  // never falls below "wins the match".
  lemma MarketsAgree(d: map<Outcome, real>, m: MatchPlay)
    requires m.Proper() && DescribesMatch(d, m)
    ensures Total(d, One()) == 1.0
    ensures Total(d, AWins(m)) <= Total(d, WinsASet(true)) <= 1.0
    ensures 1.0 - Total(d, AWins(m)) <= Total(d, WinsASet(false)) <= 1.0
    ensures Total(d, WinsASet(true)) == 1.0 - Total(d, Shutout(m, true))
    ensures Total(d, WinsASet(false)) == 1.0 - Total(d, Shutout(m, false))
  {
    hide Total, MatchValue;
    MatchMass(m, 0, 0, 0);
    TotalMonotone(d, AWins(m), WinsASet(true));
    TotalMonotone(d, WinsASet(true), One());
    TotalMonotone(d, WinsASet(false), One());
    var bWins := (o: Outcome) => if o.1 == m.setsToWin then 1.0 else 0.0;
    TotalSum(d, AWins(m), bWins, One());
    TotalMonotone(d, bWins, WinsASet(false));
    TotalSum(d, WinsASet(true), Shutout(m, true), One());
    TotalSum(d, WinsASet(false), Shutout(m, false), One());
  }

  // Accumulate a payoff over the items of a distribution.
  method SumOver(d: map<Outcome, real>, payoff: Outcome -> real) returns (sum: real)
    ensures sum == Total(d, payoff)
  {
    sum := 0.0;
    var rest := d;
    while rest != map[]
      invariant sum + Total(rest, payoff) == Total(d, payoff)
      decreases |rest.Keys|
    {
      hide Total;
      var o :| o in rest;
      TotalRemove(rest, o, payoff);
      sum := sum + rest[o] * payoff(o);
      assert (rest - {o}).Keys == rest.Keys - {o};
      rest := rest - {o};
    }
  }

  // ----- total games -----------------------------------------------------------

  function Over(line: real): Outcome -> real {
    (o: Outcome) => if o.2 as real > line then 1.0 else 0.0
  }

  datatype LineError = IntegerLine(line: real)

  method TotalGamesProbabilities(d: map<Outcome, real>, line: real)
    returns (r: Result<(real, real), LineError>)
    ensures r.Raised? <==> WholeLine(line)
    ensures r.Ok? ==> r.value.0 == Total(d, Over(line)) && r.value.0 + r.value.1 == Total(d, One())
    ensures r.Ok? && (forall o :: o in d ==> o.2 as real > line) ==> r.value == (Total(d, One()), 0.0)
    ensures r.Ok? && (forall o :: o in d ==> o.2 as real < line) ==> r.value == (0.0, Total(d, One()))
  {
    hide WholeLine;
    if WholeLine(line) { return Raised(IntegerLine(line)); }
    var over, under := 0.0, 0.0;
    var rest := d;
    while rest != map[]
      invariant over + Total(rest, Over(line)) == Total(d, Over(line))
      invariant over + under + Total(rest, One()) == Total(d, One())
      decreases |rest.Keys|
    {
      hide Total;
      var o :| o in rest;
      TotalRemove(rest, o, Over(line));
      TotalRemove(rest, o, One());
      if o.2 as real > line {
        over := over + rest[o];
      } else {
        under := under + rest[o];
      }
      assert (rest - {o}).Keys == rest.Keys - {o};
      rest := rest - {o};
    }
    OverAtTheEnds(d, line);
    r := Ok((over, under));
  }

  // The mass of the outcomes with more games than one line and no more than another.
  function Between(line: real, higher: real): Outcome -> real {
    (o: Outcome) => if line < o.2 as real <= higher then 1.0 else 0.0
  }

  // What is lost by raising the line is what lies between; so over never rises.
  lemma OverFallsByBetween(d: map<Outcome, real>, line: real, higher: real)
    requires line <= higher
    ensures Total(d, Over(line)) - Total(d, Over(higher)) == Total(d, Between(line, higher))
    ensures NonNegative(d) ==> Total(d, Over(higher)) <= Total(d, Over(line))
  {
    TotalSum(d, Over(higher), Between(line, higher), Over(line));
    if NonNegative(d) { TotalMonotone(d, Over(higher), Over(line)); }
  }

  // A line every outcome passes takes the whole mass, one that none passes none.
  lemma OverAtTheEnds(d: map<Outcome, real>, line: real)
    ensures (forall o :: o in d ==> o.2 as real > line) ==> Total(d, Over(line)) == Total(d, One())
    ensures (forall o :: o in d ==> o.2 as real < line) ==> Total(d, Over(line)) == 0.0
  {
    var none := (o: Outcome) => 0.0;
    TotalSum(d, none, none, none);
    if forall o :: o in d ==> o.2 as real > line { TotalSum(d, Over(line), none, One()); }
    if forall o :: o in d ==> o.2 as real < line { TotalSum(d, Over(line), Over(line), Over(line)); }
  }

  // A set has at least six games and at most thirteen.
  lemma {:induction false} MatchLength(m: MatchPlay, line: real, sa: nat, sb: nat, games: nat)
    requires m.Proper() && sa <= m.setsToWin && sb <= m.setsToWin
    ensures line < (games + 6 * (m.setsToWin - Larger(sa, sb))) as real ==>
              MatchValue(Over(line), m, sa, sb, games) == 1.0
    ensures m.Running(sa, sb) && line >= (games + 13 * (2 * m.setsToWin - 1 - sa - sb)) as real ==>
              MatchValue(Over(line), m, sa, sb, games) == 0.0
    ensures !m.Running(sa, sb) && line >= games as real ==> MatchValue(Over(line), m, sa, sb, games) == 0.0
    decreases 2 * m.setsToWin - sa - sb
  {
    hide SetValue, PlayOf;
    if m.Running(sa, sb) {
      var after := AfterSet(Over(line), m, sa, sb, games);
      var play := PlayOf(m.pA, m.pB, m.AServes(games));
      forall s | LegalFinal(s)
        ensures line < (games + 6 * (m.setsToWin - Larger(sa, sb))) as real ==> after(s) == 1.0
        ensures line >= (games + 13 * (2 * m.setsToWin - 1 - sa - sb)) as real ==> after(s) == 0.0
      {
        if s.0 > s.1 {
          MatchLength(m, line, sa + 1, sb, games + s.0 + s.1);
        } else {
          MatchLength(m, line, sa, sb + 1, games + s.0 + s.1);
        }
      }
      if line < (games + 6 * (m.setsToWin - Larger(sa, sb))) as real { SetValueByWinner(after, 1.0, 1.0, play, 0, 0); }
      if line >= (games + 13 * (2 * m.setsToWin - 1 - sa - sb)) as real { SetValueByWinner(after, 0.0, 0.0, play, 0, 0); }
    }
  }

  function Larger(a: nat, b: nat): nat {
    if a < b then b else a
  }

  // A line below the shortest match is always passed, one from the longest on never.
  lemma LinesOutsideTheMatch(d: map<Outcome, real>, m: MatchPlay, line: real)
    requires m.Proper() && DescribesMatch(d, m)
    ensures line < (6 * m.setsToWin) as real ==> Total(d, Over(line)) == 1.0
    ensures line >= (13 * (2 * m.setsToWin - 1)) as real ==> Total(d, Over(line)) == 0.0
  {
    hide Total, MatchValue;
    MatchLength(m, line, 0, 0, 0);
  }
}
