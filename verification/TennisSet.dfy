// A set (ITF Rules of Tennis, rule 6b): six games by two, a tiebreak at 6-6,
// the service alternating every game.
module TennisSet {
  import opened Race
  import opened Masses
  import opened Results
  import opened TennisGame
  import opened TennisTiebreak

  type Score = (nat, nat)

  predicate IsSetOver(ga: nat, gb: nat) {
    || (ga == 6 && gb <= 4)
    || (gb == 6 && ga <= 4)
    || (ga == 7 && gb == 5)
    || (gb == 7 && ga == 5)
  }

  // What decides the games of one set: each side's chance of holding serve,
  // A's chance in a tiebreak, and who serves the first game.
  datatype SetPlay = SetPlay(holdA: real, holdB: real, tiebreak: real, aServesFirst: bool)
  {
    ghost predicate Proper() {
      0.0 < holdA < 1.0 && 0.0 < holdB < 1.0 && 0.0 < tiebreak < 1.0
    }
  }

  // A's chance of the game played after n games of the set.
  function GameChance(play: SetPlay, n: nat): real {
    if (n % 2 == 0) == play.aServesFirst then play.holdA else 1.0 - play.holdB
  }

  // A score the set can still be at with a game to play.
  predicate InPlay(ga: nat, gb: nat) {
    (ga <= 5 && gb <= 5) || (ga == 6 && gb == 5) || (ga == 5 && gb == 6)
  }

  predicate LegalFinal(s: Score) {
    IsSetOver(s.0, s.1) || s == (7, 6) || s == (6, 7)
  }

  // Fourteen scores: six games to at most four, seven to five or six.
  lemma FourteenScores(s: Score)
    ensures LegalFinal(s)
            <==> s in {(6, 0), (6, 1), (6, 2), (6, 3), (6, 4), (7, 5), (7, 6),
                       (0, 6), (1, 6), (2, 6), (3, 6), (4, 6), (5, 7), (6, 7)}
  {
  }

  // The mean of a payoff on final scores, by backward recursion from ga-gb.
  function SetValue(payoff: Score -> real, play: SetPlay, ga: nat, gb: nat): real
    requires InPlay(ga, gb) || IsSetOver(ga, gb) || (ga == 6 && gb == 6)
    decreases 13 - ga - gb
  {
    if IsSetOver(ga, gb) then payoff((ga, gb))
    else if ga == 6 && gb == 6 then Mix(play.tiebreak, payoff((7, 6)), payoff((6, 7)))
    else Mix(GameChance(play, ga + gb),
             SetValue(payoff, play, ga + 1, gb),
             SetValue(payoff, play, ga, gb + 1))
  }

  ghost function Ahead(payoff: Score -> real, play: SetPlay): Score -> real {
    (s: Score) => if InPlay(s.0, s.1) then SetValue(payoff, play, s.0, s.1) else 0.0
  }

  // Every outcome of a set, with its probability.
  ghost predicate DescribesSet(d: map<Score, real>, play: SetPlay) {
    && NonNegative(d)
    && (forall s :: s in d ==> LegalFinal(s))
    && (forall payoff: Score -> real :: Total(d, payoff) == SetValue(payoff, play, 0, 0))
  }

  // The payoff already settled plus the payoff still to be played for.
  ghost function Expected(final: map<Score, real>, live: map<Score, real>,
                          payoff: Score -> real, play: SetPlay): real {
    Total(final, payoff) + Total(live, Ahead(payoff, play))
  }

  // Mass w has been placed at s, and nothing else has changed, for any payoff.
  ghost predicate Placed(final: map<Score, real>, live: map<Score, real>,
                         final': map<Score, real>, live': map<Score, real>,
                         play: SetPlay, ga: nat, gb: nat, w: real)
    requires InPlay(ga, gb) || IsSetOver(ga, gb) || (ga == 6 && gb == 6)
  {
    forall payoff: Score -> real ::
      Expected(final', live', payoff, play)
      == Expected(final, live, payoff, play) + w * SetValue(payoff, play, ga, gb)
  }

  lemma PlaceFinal(final: map<Score, real>, live: map<Score, real>, final': map<Score, real>,
                   play: SetPlay, ga: nat, gb: nat, w: real)
    requires IsSetOver(ga, gb) && final' == Add(final, (ga, gb), w)
    ensures Placed(final, live, final', live, play, ga, gb, w)
  {
    hide Expected, SetValue, Add;
    forall payoff: Score -> real
      ensures Expected(final', live, payoff, play)
              == Expected(final, live, payoff, play) + w * SetValue(payoff, play, ga, gb)
    {
      FinalPayoff(final, live, final', play, ga, gb, w, payoff);
    }
  }

  lemma FinalPayoff(final: map<Score, real>, live: map<Score, real>, final': map<Score, real>,
                    play: SetPlay, ga: nat, gb: nat, w: real, payoff: Score -> real)
    requires IsSetOver(ga, gb) && final' == Add(final, (ga, gb), w)
    ensures Expected(final', live, payoff, play)
            == Expected(final, live, payoff, play) + w * SetValue(payoff, play, ga, gb)
  {
    hide Total, SetValue, Add;
    TotalAdd(final, (ga, gb), w, payoff);
    OverValue(payoff, play, ga, gb);
  }

  lemma OverValue(payoff: Score -> real, play: SetPlay, ga: nat, gb: nat)
    requires IsSetOver(ga, gb)
    ensures SetValue(payoff, play, ga, gb) == payoff((ga, gb))
  {
  }

  lemma PlaceTiebreak(final: map<Score, real>, live: map<Score, real>,
                      between: map<Score, real>, final': map<Score, real>, play: SetPlay, w: real, won: real, lost: real)
    requires won == w * play.tiebreak && lost == w * (1.0 - play.tiebreak)
    requires between == Add(final, (7, 6), won) && final' == Add(between, (6, 7), lost)
    ensures Placed(final, live, final', live, play, 6, 6, w)
  {
    hide Expected, SetValue, Add;
    forall payoff: Score -> real
      ensures Expected(final', live, payoff, play)
              == Expected(final, live, payoff, play) + w * SetValue(payoff, play, 6, 6)
    {
      TiebreakPayoff(final, live, between, final', play, w, won, lost, payoff);
    }
  }

  lemma TiebreakPayoff(final: map<Score, real>, live: map<Score, real>,
                       between: map<Score, real>, final': map<Score, real>, play: SetPlay,
                       w: real, won: real, lost: real, payoff: Score -> real)
    requires won == w * play.tiebreak && lost == w * (1.0 - play.tiebreak)
    requires between == Add(final, (7, 6), won) && final' == Add(between, (6, 7), lost)
    ensures Expected(final', live, payoff, play)
            == Expected(final, live, payoff, play) + w * SetValue(payoff, play, 6, 6)
  {
    hide Total, Add, Mix;
    TotalAdd(final, (7, 6), won, payoff);
    TotalAdd(between, (6, 7), lost, payoff);
    Share(w, play.tiebreak, won, lost, payoff((7, 6)), payoff((6, 7)));
  }

  lemma PlaceLive(final: map<Score, real>, live: map<Score, real>, play: SetPlay, ga: nat, gb: nat, w: real)
    requires InPlay(ga, gb)
    ensures Placed(final, live, final, Add(live, (ga, gb), w), play, ga, gb, w)
  {
    hide Total, SetValue;
    forall payoff: Score -> real
      ensures Expected(final, Add(live, (ga, gb), w), payoff, play)
              == Expected(final, live, payoff, play) + w * SetValue(payoff, play, ga, gb)
    {
      TotalAdd(live, (ga, gb), w, Ahead(payoff, play));
    }
  }

  // The two outcomes of a game share out the mass of the score before it.
  lemma PlaceBoth(final: map<Score, real>, live: map<Score, real>,
                  final1: map<Score, real>, live1: map<Score, real>,
                  final2: map<Score, real>, live2: map<Score, real>,
                  play: SetPlay, ga: nat, gb: nat, w: real, won: real, lost: real)
    requires InPlay(ga, gb)
    requires won == w * GameChance(play, ga + gb) && lost == w * (1.0 - GameChance(play, ga + gb))
    requires Placed(final, live, final1, live1, play, ga + 1, gb, won)
    requires Placed(final1, live1, final2, live2, play, ga, gb + 1, lost)
    ensures Placed(final, live, final2, live2, play, ga, gb, w)
  {
    hide Expected, SetValue;
    forall payoff: Score -> real
      ensures Expected(final2, live2, payoff, play)
              == Expected(final, live, payoff, play) + w * SetValue(payoff, play, ga, gb)
    {
      BothPayoffs(play, ga, gb, w, won, lost, payoff,
                  Expected(final, live, payoff, play), Expected(final1, live1, payoff, play),
                  Expected(final2, live2, payoff, play));
    }
  }

  lemma BothPayoffs(play: SetPlay, ga: nat, gb: nat, w: real, won: real, lost: real, payoff: Score -> real,
                    e0: real, e1: real, e2: real)
    requires InPlay(ga, gb)
    requires won == w * GameChance(play, ga + gb) && lost == w * (1.0 - GameChance(play, ga + gb))
    requires e1 == e0 + won * SetValue(payoff, play, ga + 1, gb)
    requires e2 == e1 + lost * SetValue(payoff, play, ga, gb + 1)
    ensures e2 == e0 + w * SetValue(payoff, play, ga, gb)
  {
    hide Mix, GameChance;
    Share(w, GameChance(play, ga + gb), won, lost, SetValue(payoff, play, ga + 1, gb), SetValue(payoff, play, ga, gb + 1));
  }

  lemma Share(w: real, p: real, won: real, lost: real, x: real, y: real)
    requires won == w * p && lost == w * (1.0 - p)
    ensures won * x + lost * y == w * Mix(p, x, y)
  {
    Spread(w, p, x, y);
  }

  lemma Spread(w: real, p: real, x: real, y: real)
    ensures (w * p) * x + (w * (1.0 - p)) * y == w * Mix(p, x, y)
  {
  }

  ghost predicate ProperMasses(final: map<Score, real>, live: map<Score, real>, round: nat) {
    && NonNegative(final) && NonNegative(live)
    && (forall s :: s in final ==> LegalFinal(s))
    && (forall s :: s in live ==> InPlay(s.0, s.1) && s.0 + s.1 == round)
  }

  // One side takes the next game: the mass lands on the final scores, on both
  // tiebreak outcomes, or on the scores still in play.
  method TakeGame(play: SetPlay, final: map<Score, real>, nxt: map<Score, real>,
                  ga: nat, gb: nat, aWon: bool, weight: real)
    returns (final': map<Score, real>, nxt': map<Score, real>)
    requires play.Proper() && InPlay(ga, gb) && weight >= 0.0
    requires ProperMasses(final, nxt, ga + gb + 1)
    ensures ProperMasses(final', nxt', ga + gb + 1)
    ensures Placed(final, nxt, final', nxt', play, if aWon then ga + 1 else ga, if aWon then gb else gb + 1, weight)
  {
    hide Placed;
    final', nxt' := final, nxt;
    var nga, ngb := if aWon then ga + 1 else ga, if aWon then gb else gb + 1;
    if weight <= 0.0 {
      PlaceNothing(final, nxt, play, nga, ngb, weight);
    } else if IsSetOver(nga, ngb) {
      final' := Add(final, (nga, ngb), weight);
      PlaceFinal(final, nxt, final', play, nga, ngb, weight);
    } else if nga == 6 && ngb == 6 {
      var won, lost := weight * play.tiebreak, weight * (1.0 - play.tiebreak);
      Product(weight, play.tiebreak);
      Product(weight, 1.0 - play.tiebreak);
      var between := Add(final, (7, 6), won);
      final' := Add(between, (6, 7), lost);
      PlaceTiebreak(final, nxt, between, final', play, weight, won, lost);
    } else {
      nxt' := Add(nxt, (nga, ngb), weight);
      PlaceLive(final, nxt, play, nga, ngb, weight);
    }
  }

  lemma PlaceNothing(final: map<Score, real>, live: map<Score, real>, play: SetPlay, ga: nat, gb: nat, w: real)
    requires InPlay(ga, gb) || IsSetOver(ga, gb) || (ga == 6 && gb == 6)
    requires w == 0.0
    ensures Placed(final, live, final, live, play, ga, gb, w)
  {
  }

  // Both outcomes of the next game from one score in play.
  method PlayGame(play: SetPlay, final: map<Score, real>, nxt: map<Score, real>, ga: nat, gb: nat, mass: real)
    returns (final': map<Score, real>, nxt': map<Score, real>)
    requires play.Proper() && InPlay(ga, gb) && mass >= 0.0
    requires ProperMasses(final, nxt, ga + gb + 1)
    ensures ProperMasses(final', nxt', ga + gb + 1)
    ensures Placed(final, nxt, final', nxt', play, ga, gb, mass)
  {
    hide Placed, ProperMasses;
    var p := GameChance(play, ga + gb);
    var won, lost := mass * p, mass * (1.0 - p);
    Nonnegative(mass, p);
    Nonnegative(mass, 1.0 - p);
    var final1, nxt1 := TakeGame(play, final, nxt, ga, gb, true, won);
    final', nxt' := TakeGame(play, final1, nxt1, ga, gb, false, lost);
    PlaceBoth(final, nxt, final1, nxt1, final', nxt', play, ga, gb, mass, won, lost);
  }

  // Nothing is gained or lost while the scores in `rest` wait for their game.
  ghost predicate Conserved(final: map<Score, real>, nxt: map<Score, real>, rest: map<Score, real>, play: SetPlay) {
    forall payoff: Score -> real ::
      Expected(final, nxt, payoff, play) + Total(rest, Ahead(payoff, play)) == SetValue(payoff, play, 0, 0)
  }

  // The worklist over the scores in play, one round of games at a time.
  method PlaySet(play: SetPlay) returns (final: map<Score, real>)
    requires play.Proper()
    ensures DescribesSet(final, play)
  {
    hide Conserved, Placed;
    var live: map<Score, real> := map[(0, 0) := 1.0];
    final := map[];
    ghost var round := 0;
    StartMass(play);
    while live != map[]
      invariant round <= 12
      invariant ProperMasses(final, live, round)
      invariant Conserved(final, map[], live, play)
      decreases 12 - round
    {
      var nxt: map<Score, real> := map[];
      var rest := live;
      while rest != map[]
        invariant ProperMasses(final, nxt, round + 1)
        invariant ProperMasses(map[], rest, round)
        invariant Conserved(final, nxt, rest, play)
        decreases |rest.Keys|
      {
        var k :| k in rest;
        ghost var final0, nxt0 := final, nxt;
        final, nxt := PlayGame(play, final, nxt, k.0, k.1, rest[k]);
        PlayedOne(final0, nxt0, final, nxt, rest, play, k);
        assert (rest - {k}).Keys == rest.Keys - {k};
        rest := rest - {k};
      }
      NextRound(final, nxt, play);
      live := nxt;
      round := round + 1;
    }
    SetDone(final, play);
  }

  lemma StartMass(play: SetPlay)
    ensures Conserved(map[], map[], map[(0, 0) := 1.0], play)
  {
    hide SetValue;
    forall payoff: Score -> real
      ensures Total(map[(0, 0) := 1.0], Ahead(payoff, play)) == SetValue(payoff, play, 0, 0)
    {
      TotalRemove(map[(0, 0) := 1.0], (0, 0), Ahead(payoff, play));
      assert map[(0, 0) := 1.0] - {(0, 0)} == map[];
    }
  }

  lemma PlayedOne(final: map<Score, real>, nxt: map<Score, real>, final': map<Score, real>, nxt': map<Score, real>,
                  rest: map<Score, real>, play: SetPlay, k: Score)
    requires Conserved(final, nxt, rest, play)
    requires k in rest && InPlay(k.0, k.1) && Placed(final, nxt, final', nxt', play, k.0, k.1, rest[k])
    ensures Conserved(final', nxt', rest - {k}, play)
  {
    hide SetValue, Expected, Total;
    forall payoff: Score -> real
      ensures Expected(final', nxt', payoff, play) + Total(rest - {k}, Ahead(payoff, play))
              == SetValue(payoff, play, 0, 0)
    {
      TotalRemove(rest, k, Ahead(payoff, play));
      assert Ahead(payoff, play)(k) == SetValue(payoff, play, k.0, k.1);
    }
  }

  lemma NextRound(final: map<Score, real>, nxt: map<Score, real>, play: SetPlay)
    requires Conserved(final, nxt, map[], play)
    ensures Conserved(final, map[], nxt, play)
  {
    hide SetValue;
    forall payoff: Score -> real
      ensures Expected(final, map[], payoff, play) + Total(nxt, Ahead(payoff, play)) == SetValue(payoff, play, 0, 0)
    {
      assert Expected(final, nxt, payoff, play) == SetValue(payoff, play, 0, 0);
    }
  }

  lemma SetDone(final: map<Score, real>, play: SetPlay)
    requires Conserved(final, map[], map[], play)
    ensures forall payoff: Score -> real :: Total(final, payoff) == SetValue(payoff, play, 0, 0)
  {
    hide SetValue;
    forall payoff: Score -> real ensures Total(final, payoff) == SetValue(payoff, play, 0, 0) {
      assert Expected(final, map[], payoff, play) == SetValue(payoff, play, 0, 0);
    }
  }

  // The play of one set between two servers, who may not be given a
  // point probability outside (0, 1).
  function PlayOf(pA: real, pB: real, aServesFirst: bool): SetPlay
    requires ServePoint(pA) && ServePoint(pB)
  {
    SetPlay(ServeGame(pA), ServeGame(pB), Tiebreak(pA, pB, aServesFirst), aServesFirst)
  }

  lemma PlayOfProper(pA: real, pB: real, aServesFirst: bool)
    requires ServePoint(pA) && ServePoint(pB)
    ensures PlayOf(pA, pB, aServesFirst).Proper()
  {
    hide ServeGame, Tiebreak;
    GameInterior(pA);
    GameInterior(pB);
    TiebreakInterior(pA, pB, aServesFirst);
  }

  method SetDistribution(pA: real, pB: real, aServesFirst: bool)
    returns (r: Result<map<Score, real>, ValueError>)
    ensures !ServePoint(pA) ==> r == Raised(ProbabilityOutOfRange(pA))
    ensures ServePoint(pA) && !ServePoint(pB) ==> r == Raised(ProbabilityOutOfRange(pB))
    ensures ServePoint(pA) && ServePoint(pB) ==> r.Ok? && DescribesSet(r.value, PlayOf(pA, pB, aServesFirst))
    ensures r.Ok? <==> 0.0 < pA < 1.0 && 0.0 < pB < 1.0
  {
    hide ServeGame, Tiebreak, DescribesSet;
    var holdA, holdB := GameWinProbability(pA), GameWinProbability(pB);
    if holdA.Raised? { return Raised(holdA.error); }
    if holdB.Raised? { return Raised(holdB.error); }
    // After twelve games the side to serve is the side that opened the set.
    var tiebreak := TiebreakWinProbability(pA, pB, (12 % 2 == 0) == aServesFirst);
    PlayOfProper(pA, pB, aServesFirst);
    var final := PlaySet(SetPlay(holdA.value, holdB.value, tiebreak, aServesFirst));
    return Ok(final);
  }

  // ----- who wins the set ------------------------------------------------------

  function WonByA(s: Score): real {
    if s.0 > s.1 then 1.0 else 0.0
  }

  function SetWin(play: SetPlay): real {
    SetValue(WonByA, play, 0, 0)
  }

  function SetRules(play: SetPlay): Rules {
    Rules(6, 2, 12, play.tiebreak)
  }

  function Games(play: SetPlay): nat -> real {
    (n: nat) => GameChance(play, n)
  }

  lemma {:induction false} SetIsRace(play: SetPlay, ga: nat, gb: nat)
    requires InPlay(ga, gb) || IsSetOver(ga, gb) || (ga == 6 && gb == 6)
    ensures SetValue(WonByA, play, ga, gb) == Chance(SetRules(play), Games(play), ga, gb)
    decreases 13 - ga - gb
  {
    hide Blend;
    if InPlay(ga, gb) {
      SetIsRace(play, ga + 1, gb);
      SetIsRace(play, ga, gb + 1);
    } else {
      TieValue(play.tiebreak);
    }
  }

  lemma TieValue(t: real)
    ensures Mix(t, 1.0, 0.0) == t
  {
  }

  // A payoff that only asks who won needs only the chance of winning; with
  // x == y == 1 this is the conservation of mass.
  lemma {:induction false} SetValueByWinner(payoff: Score -> real, x: real, y: real, play: SetPlay, ga: nat, gb: nat)
    requires forall s :: LegalFinal(s) ==> payoff(s) == if s.0 > s.1 then x else y
    requires InPlay(ga, gb) || IsSetOver(ga, gb) || (ga == 6 && gb == 6)
    ensures SetValue(payoff, play, ga, gb) == Mix(SetValue(WonByA, play, ga, gb), x, y)
    decreases 13 - ga - gb
  {
    hide Mix, SetValue;
    if InPlay(ga, gb) {
      SetValueByWinner(payoff, x, y, play, ga + 1, gb);
      SetValueByWinner(payoff, x, y, play, ga, gb + 1);
      SetStep(payoff, play, ga, gb);
      SetStep(WonByA, play, ga, gb);
      MixOfMixes(GameChance(play, ga + gb), SetValue(WonByA, play, ga + 1, gb), SetValue(WonByA, play, ga, gb + 1), x, y);
    } else {
      SetEnd(payoff, x, y, play, ga, gb);
    }
  }

  lemma SetStep(payoff: Score -> real, play: SetPlay, ga: nat, gb: nat)
    requires InPlay(ga, gb)
    ensures SetValue(payoff, play, ga, gb)
            == Mix(GameChance(play, ga + gb), SetValue(payoff, play, ga + 1, gb), SetValue(payoff, play, ga, gb + 1))
  {
    hide Mix, GameChance;
  }

  lemma SetEnd(payoff: Score -> real, x: real, y: real, play: SetPlay, ga: nat, gb: nat)
    requires forall s :: LegalFinal(s) ==> payoff(s) == if s.0 > s.1 then x else y
    requires IsSetOver(ga, gb) || (ga == 6 && gb == 6)
    ensures SetValue(payoff, play, ga, gb) == Mix(SetValue(WonByA, play, ga, gb), x, y)
  {
    hide Mix;
    EndMixes(play.tiebreak, x, y);
    if IsSetOver(ga, gb) {
      assert LegalFinal((ga, gb));
    } else {
      assert LegalFinal((7, 6)) && LegalFinal((6, 7));
    }
  }

  lemma EndMixes(t: real, x: real, y: real)
    ensures Mix(1.0, x, y) == x && Mix(0.0, x, y) == y && Mix(t, 1.0, 0.0) == t
  {
  }

  lemma MixOfMixes(p: real, u: real, v: real, x: real, y: real)
    ensures Mix(p, Mix(u, x, y), Mix(v, x, y)) == Mix(Mix(p, u, v), x, y)
  {
  }

  lemma SetInterior(play: SetPlay)
    requires play.Proper()
    ensures 0.0 < SetWin(play) < 1.0
  {
    hide SetValue, Chance;
    SetIsRace(play, 0, 0);
    ChanceRange(SetRules(play), Games(play), 0, 0);
  }

  // Serving first in the set is worth nothing.
  lemma SetServeOrder(play: SetPlay)
    ensures SetWin(play) == SetWin(play.(aServesFirst := !play.aServesFirst))
  {
    hide SetValue, Chance;
    var other := play.(aServesFirst := !play.aServesFirst);
    SetIsRace(play, 0, 0);
    SetIsRace(other, 0, 0);
    PairSwap(SetRules(play), Games(play), Games(other), 0, 0);
  }

  lemma SetMonotone(play: SetPlay, play': SetPlay)
    requires play.Proper() && play'.Proper() && play.aServesFirst == play'.aServesFirst
    requires play.holdA <= play'.holdA && play'.holdB <= play.holdB && play.tiebreak <= play'.tiebreak
    ensures SetWin(play) <= SetWin(play')
    ensures (if play.aServesFirst then play.holdA < play'.holdA else play'.holdB < play.holdB) ==>
              SetWin(play) < SetWin(play')
  {
    hide SetValue, Chance;
    SetIsRace(play, 0, 0);
    SetIsRace(play', 0, 0);
    ChanceMonotone(SetRules(play), play'.tiebreak, Games(play), Games(play'), 0, 0);
  }

  // The same set told from B's side of the net.
  lemma SetMirror(play: SetPlay)
    ensures SetWin(play) + SetWin(SetPlay(play.holdB, play.holdA, 1.0 - play.tiebreak, !play.aServesFirst)) == 1.0
  {
    hide SetValue, Chance;
    var other := SetPlay(play.holdB, play.holdA, 1.0 - play.tiebreak, !play.aServesFirst);
    SetIsRace(play, 0, 0);
    SetIsRace(other, 0, 0);
    ChanceMirror(SetRules(play), Games(play), Games(other), 0, 0);
  }

  // A's chance of a set between two servers.
  function SetChance(pA: real, pB: real): real
    requires ServePoint(pA) && ServePoint(pB)
  {
    SetWin(PlayOf(pA, pB, true))
  }

  // It is the same whoever opens the set, tiebreak included.
  lemma SetChanceServeOrder(pA: real, pB: real, aServesFirst: bool)
    requires ServePoint(pA) && ServePoint(pB)
    ensures SetWin(PlayOf(pA, pB, aServesFirst)) == SetChance(pA, pB)
  {
    hide SetWin, ServeGame, Solve;
    TiebreakServeOrder(pA, pB, 0, 0);
    SetServeOrder(PlayOf(pA, pB, true));
  }

  lemma SetChanceMonotone(pA: real, pB: real, pA': real, pB': real)
    requires ServePoint(pA) && ServePoint(pB) && ServePoint(pA') && ServePoint(pB')
    requires pA <= pA' && pB' <= pB
    ensures SetChance(pA, pB) <= SetChance(pA', pB')
    ensures pA < pA' || pB' < pB ==> SetChance(pA, pB) < SetChance(pA', pB')
  {
    hide SetWin, ServeGame, Tiebreak;
    if pA < pA' { GameMonotone(pA, pA'); }
    if pB' < pB { GameMonotone(pB', pB); }
    TiebreakMonotone(pA, pB, pA', pB', true);
    TiebreakMonotone(pA, pB, pA', pB', false);
    PlayOfProper(pA, pB, true); PlayOfProper(pA, pB, false);
    PlayOfProper(pA', pB', true); PlayOfProper(pA', pB', false);
    SetMonotone(PlayOf(pA, pB, true), PlayOf(pA', pB', true));
    SetMonotone(PlayOf(pA, pB, false), PlayOf(pA', pB', false));
    SetChanceServeOrder(pA, pB, false);
    SetChanceServeOrder(pA', pB', false);
  }

  lemma SetChanceMirror(pA: real, pB: real)
    requires ServePoint(pA) && ServePoint(pB)
    ensures SetChance(pA, pB) + SetChance(pB, pA) == 1.0
  {
    hide SetWin, ServeGame, Tiebreak;
    TiebreakMirror(pA, pB, true);
    SetMirror(PlayOf(pA, pB, true));
    SetChanceServeOrder(pB, pA, false);
  }
}
