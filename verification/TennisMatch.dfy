// A match: first to two or three sets, the service alternating every game from
// the first to the last.
module TennisMatch {
  import opened Race
  import opened Masses
  import opened Results
  import opened TennisGame
  import opened TennisTiebreak
  import opened TennisSet

  // (sets of A, sets of B, games played)
  type Outcome = (nat, nat, nat)

  // A match not yet decided: sets of A, sets of B, whether A opens the next
  // set, games played.
  type Pending = (nat, nat, bool, nat)

  datatype MatchError = BadPoint(error: ValueError) | BadFormat(setsToWin: int)

  datatype MatchPlay = MatchPlay(pA: real, pB: real, setsToWin: nat, aServesFirst: bool)
  {
    ghost predicate Proper() {
      ServePoint(pA) && ServePoint(pB) && (setsToWin == 2 || setsToWin == 3)
    }

    // Who serves is fixed by the games played since the start of the match.
    predicate AServes(games: nat) {
      (games % 2 == 0) == aServesFirst
    }

    predicate Running(sa: nat, sb: nat) {
      sa < setsToWin && sb < setsToWin
    }

    predicate Legal(o: Outcome) {
      (o.0 == setsToWin && o.1 < setsToWin) || (o.1 == setsToWin && o.0 < setsToWin)
    }
  }

  // What a payoff on match outcomes is worth when a set ends at a given score.
  function AfterSet(payoff: Outcome -> real, m: MatchPlay, sa: nat, sb: nat, games: nat): Score -> real
    requires m.Proper() && m.Running(sa, sb)
    decreases 2 * m.setsToWin - sa - sb, 0
  {
    (s: Score) =>
      MatchValue(payoff, m, if s.0 > s.1 then sa + 1 else sa, if s.0 > s.1 then sb else sb + 1, games + s.0 + s.1)
  }

  // The mean of a payoff on match outcomes, by backward recursion over the sets.
  function MatchValue(payoff: Outcome -> real, m: MatchPlay, sa: nat, sb: nat, games: nat): real
    requires m.Proper() && sa <= m.setsToWin && sb <= m.setsToWin
    decreases 2 * m.setsToWin - sa - sb, 1
  {
    if !m.Running(sa, sb) then payoff((sa, sb, games))
    else SetValue(AfterSet(payoff, m, sa, sb, games), PlayOf(m.pA, m.pB, m.AServes(games)), 0, 0)
  }

  // Every outcome of a match, with its probability.
  ghost predicate DescribesMatch(d: map<Outcome, real>, m: MatchPlay)
    requires m.Proper()
  {
    && NonNegative(d)
    && (forall o :: o in d ==> m.Legal(o))
    && (forall payoff: Outcome -> real :: Total(d, payoff) == MatchValue(payoff, m, 0, 0, 0))
  }

  // ----- conservation ------------------------------------------------------------

  ghost function Awaited(payoff: Outcome -> real, m: MatchPlay): Pending -> real
    requires m.Proper()
  {
    (k: Pending) => if m.Running(k.0, k.1) then MatchValue(payoff, m, k.0, k.1, k.3) else 0.0
  }

  // The payoff already settled plus the payoff still to be played for.
  ghost function Expected(final: map<Outcome, real>, live: map<Pending, real>,
                          payoff: Outcome -> real, m: MatchPlay): real
    requires m.Proper()
  {
    Total(final, payoff) + Total(live, Awaited(payoff, m))
  }

  ghost predicate ProperMasses(final: map<Outcome, real>, live: map<Pending, real>, m: MatchPlay, round: nat) {
    && NonNegative(final) && NonNegative(live)
    && (forall o :: o in final ==> m.Legal(o))
    && (forall k :: k in live ==> m.Running(k.0, k.1) && k.0 + k.1 == round && k.2 == m.AServes(k.3))
  }

  // Mass w has been placed at a score in sets, and nothing else has changed.
  ghost predicate Placed(final: map<Outcome, real>, live: map<Pending, real>,
                         final': map<Outcome, real>, live': map<Pending, real>,
                         m: MatchPlay, sa: nat, sb: nat, games: nat, w: real)
    requires m.Proper() && sa <= m.setsToWin && sb <= m.setsToWin
  {
    forall payoff: Outcome -> real ::
      Expected(final', live', payoff, m)
      == Expected(final, live, payoff, m) + w * MatchValue(payoff, m, sa, sb, games)
  }

  lemma PlaceFinal(final: map<Outcome, real>, live: map<Pending, real>, final': map<Outcome, real>,
                   m: MatchPlay, sa: nat, sb: nat, games: nat, w: real)
    requires m.Proper() && sa <= m.setsToWin && sb <= m.setsToWin && !m.Running(sa, sb)
    requires final' == Add(final, (sa, sb, games), w)
    ensures Placed(final, live, final', live, m, sa, sb, games, w)
  {
    hide Expected, MatchValue, Add;
    forall payoff: Outcome -> real
      ensures Expected(final', live, payoff, m)
              == Expected(final, live, payoff, m) + w * MatchValue(payoff, m, sa, sb, games)
    {
      FinalPayoff(final, live, final', m, sa, sb, games, w, payoff);
    }
  }

  lemma FinalPayoff(final: map<Outcome, real>, live: map<Pending, real>, final': map<Outcome, real>,
                    m: MatchPlay, sa: nat, sb: nat, games: nat, w: real, payoff: Outcome -> real)
    requires m.Proper() && sa <= m.setsToWin && sb <= m.setsToWin && !m.Running(sa, sb)
    requires final' == Add(final, (sa, sb, games), w)
    ensures Expected(final', live, payoff, m)
            == Expected(final, live, payoff, m) + w * MatchValue(payoff, m, sa, sb, games)
  {
    hide Total, Add;
    TotalAdd(final, (sa, sb, games), w, payoff);
  }

  lemma PlaceLive(final: map<Outcome, real>, live: map<Pending, real>, live': map<Pending, real>,
                  m: MatchPlay, sa: nat, sb: nat, first: bool, games: nat, w: real)
    requires m.Proper() && m.Running(sa, sb)
    requires live' == Add(live, (sa, sb, first, games), w)
    ensures Placed(final, live, final, live', m, sa, sb, games, w)
  {
    hide Expected, MatchValue, Add;
    forall payoff: Outcome -> real
      ensures Expected(final, live', payoff, m)
              == Expected(final, live, payoff, m) + w * MatchValue(payoff, m, sa, sb, games)
    {
      LivePayoff(final, live, live', m, sa, sb, first, games, w, payoff);
    }
  }

  lemma LivePayoff(final: map<Outcome, real>, live: map<Pending, real>, live': map<Pending, real>,
                   m: MatchPlay, sa: nat, sb: nat, first: bool, games: nat, w: real, payoff: Outcome -> real)
    requires m.Proper() && m.Running(sa, sb)
    requires live' == Add(live, (sa, sb, first, games), w)
    ensures Expected(final, live', payoff, m)
            == Expected(final, live, payoff, m) + w * MatchValue(payoff, m, sa, sb, games)
  {
    hide Total, Add, MatchValue;
    TotalAdd(live, (sa, sb, first, games), w, Awaited(payoff, m));
  }

  // ----- one set -----------------------------------------------------------------

  // One set score: the mass lands on a decided match or on the next set.
  method TakeSet(m: MatchPlay, final: map<Outcome, real>, nxt: map<Pending, real>,
                 k: Pending, s: Score, weight: real)
    returns (final': map<Outcome, real>, nxt': map<Pending, real>)
    requires m.Proper() && m.Running(k.0, k.1) && k.2 == m.AServes(k.3) && weight >= 0.0
    requires ProperMasses(final, nxt, m, k.0 + k.1 + 1)
    ensures ProperMasses(final', nxt', m, k.0 + k.1 + 1)
    ensures Placed(final, nxt, final', nxt', m,
                   if s.0 > s.1 then k.0 + 1 else k.0, if s.0 > s.1 then k.1 else k.1 + 1, k.3 + s.0 + s.1, weight)
  {
    hide Placed;
    final', nxt' := final, nxt;
    var nsa, nsb := if s.0 > s.1 then k.0 + 1 else k.0, if s.0 > s.1 then k.1 else k.1 + 1;
    var ngames := k.3 + s.0 + s.1;
    var nextServesFirst := if (s.0 + s.1) % 2 == 0 then k.2 else !k.2;
    if weight <= 0.0 {
      PlaceNothing(final, nxt, m, nsa, nsb, ngames, weight);
    } else if nsa == m.setsToWin || nsb == m.setsToWin {
      final' := Add(final, (nsa, nsb, ngames), weight);
      PlaceFinal(final, nxt, final', m, nsa, nsb, ngames, weight);
    } else {
      nxt' := Add(nxt, (nsa, nsb, nextServesFirst, ngames), weight);
      ServiceCarriesOver(m, k.3, s.0 + s.1);
      PlaceLive(final, nxt, nxt', m, nsa, nsb, nextServesFirst, ngames, weight);
    }
  }

  lemma PlaceNothing(final: map<Outcome, real>, live: map<Pending, real>, m: MatchPlay,
                     sa: nat, sb: nat, games: nat, w: real)
    requires m.Proper() && sa <= m.setsToWin && sb <= m.setsToWin && w == 0.0
    ensures Placed(final, live, final, live, m, sa, sb, games, w)
  {
  }

  // The opener of the next set, flipped by the parity of one set, is the side
  // the games of the whole match give the serve to.
  lemma ServiceCarriesOver(m: MatchPlay, games: nat, played: nat)
    ensures m.AServes(games + played) == if played % 2 == 0 then m.AServes(games) else !m.AServes(games)
  {
  }

  // The set scores still to visit hold what is still owed.
  ghost predicate Shared(final0: map<Outcome, real>, nxt0: map<Pending, real>,
                         final: map<Outcome, real>, nxt: map<Pending, real>,
                         m: MatchPlay, k: Pending, mass: real, rest: map<Score, real>)
    requires m.Proper() && m.Running(k.0, k.1)
  {
    forall payoff: Outcome -> real ::
      Expected(final, nxt, payoff, m) + mass * Total(rest, AfterSet(payoff, m, k.0, k.1, k.3))
      == Expected(final0, nxt0, payoff, m) + mass * MatchValue(payoff, m, k.0, k.1, k.3)
  }

  lemma ShareStart(final: map<Outcome, real>, nxt: map<Pending, real>, m: MatchPlay, k: Pending, mass: real,
                   d: map<Score, real>)
    requires m.Proper() && m.Running(k.0, k.1) && DescribesSet(d, PlayOf(m.pA, m.pB, m.AServes(k.3)))
    ensures Shared(final, nxt, final, nxt, m, k, mass, d)
  {
    hide SetValue, PlayOf, Expected, Total, AfterSet;
    forall payoff: Outcome -> real
      ensures Total(d, AfterSet(payoff, m, k.0, k.1, k.3)) == MatchValue(payoff, m, k.0, k.1, k.3)
    {
    }
  }

  lemma ShareStep(final0: map<Outcome, real>, nxt0: map<Pending, real>,
                  final: map<Outcome, real>, nxt: map<Pending, real>,
                  final': map<Outcome, real>, nxt': map<Pending, real>,
                  m: MatchPlay, k: Pending, mass: real, rest: map<Score, real>, s: Score, weight: real)
    requires m.Proper() && m.Running(k.0, k.1) && s in rest && weight == mass * rest[s]
    requires Shared(final0, nxt0, final, nxt, m, k, mass, rest)
    requires Placed(final, nxt, final', nxt', m,
                    if s.0 > s.1 then k.0 + 1 else k.0, if s.0 > s.1 then k.1 else k.1 + 1, k.3 + s.0 + s.1, weight)
    ensures Shared(final0, nxt0, final', nxt', m, k, mass, rest - {s})
  {
    hide MatchValue, Expected, Total;
    forall payoff: Outcome -> real
      ensures Expected(final', nxt', payoff, m) + mass * Total(rest - {s}, AfterSet(payoff, m, k.0, k.1, k.3))
              == Expected(final0, nxt0, payoff, m) + mass * MatchValue(payoff, m, k.0, k.1, k.3)
    {
      var after := AfterSet(payoff, m, k.0, k.1, k.3);
      TotalRemove(rest, s, after);
      Distribute(mass, rest[s], weight, after(s), Total(rest - {s}, after), Total(rest, after));
      assert Expected(final, nxt, payoff, m) + mass * Total(rest, after)
             == Expected(final0, nxt0, payoff, m) + mass * MatchValue(payoff, m, k.0, k.1, k.3);
    }
  }

  lemma Distribute(mass: real, p: real, weight: real, x: real, t: real, total: real)
    requires weight == mass * p && total == p * x + t
    ensures mass * total == weight * x + mass * t
  {
  }

  lemma ShareEnd(final0: map<Outcome, real>, nxt0: map<Pending, real>,
                 final: map<Outcome, real>, nxt: map<Pending, real>, m: MatchPlay, k: Pending, mass: real)
    requires m.Proper() && m.Running(k.0, k.1)
    requires Shared(final0, nxt0, final, nxt, m, k, mass, map[])
    ensures Placed(final0, nxt0, final, nxt, m, k.0, k.1, k.3, mass)
  {
    hide MatchValue, Expected, AfterSet;
    forall payoff: Outcome -> real
      ensures Expected(final, nxt, payoff, m)
              == Expected(final0, nxt0, payoff, m) + mass * MatchValue(payoff, m, k.0, k.1, k.3)
    {
      assert Total(map[], AfterSet(payoff, m, k.0, k.1, k.3)) == 0.0;
    }
  }

  // Every score of the next set from one pending match.
  method PlayNextSet(m: MatchPlay, final: map<Outcome, real>, nxt: map<Pending, real>, k: Pending, mass: real)
    returns (final': map<Outcome, real>, nxt': map<Pending, real>)
    requires m.Proper() && m.Running(k.0, k.1) && k.2 == m.AServes(k.3) && mass >= 0.0
    requires ProperMasses(final, nxt, m, k.0 + k.1 + 1)
    ensures ProperMasses(final', nxt', m, k.0 + k.1 + 1)
    ensures Placed(final, nxt, final', nxt', m, k.0, k.1, k.3, mass)
  {
    hide Placed, Shared, ProperMasses, PlayOf;
    var r := SetDistribution(m.pA, m.pB, k.2);
    var d := r.value;
    final', nxt' := final, nxt;
    ShareStart(final, nxt, m, k, mass, d);
    var rest := d;
    while rest != map[]
      invariant NonNegative(rest)
      invariant ProperMasses(final', nxt', m, k.0 + k.1 + 1)
      invariant Shared(final, nxt, final', nxt', m, k, mass, rest)
      decreases |rest.Keys|
    {
      var s :| s in rest;
      var weight := mass * rest[s];
      Nonnegative(mass, rest[s]);
      var final1, nxt1 := TakeSet(m, final', nxt', k, s, weight);
      ShareStep(final, nxt, final', nxt', final1, nxt1, m, k, mass, rest, s, weight);
      final', nxt' := final1, nxt1;
      assert (rest - {s}).Keys == rest.Keys - {s};
      rest := rest - {s};
    }
    ShareEnd(final, nxt, final', nxt', m, k, mass);
  }

  // ----- the match -----------------------------------------------------------------

  // Nothing is gained or lost while the matches in `rest` wait for their set.
  ghost predicate Conserved(final: map<Outcome, real>, nxt: map<Pending, real>, rest: map<Pending, real>, m: MatchPlay)
    requires m.Proper()
  {
    forall payoff: Outcome -> real ::
      Expected(final, nxt, payoff, m) + Total(rest, Awaited(payoff, m)) == MatchValue(payoff, m, 0, 0, 0)
  }

  // The worklist over the scores in sets, one round of sets at a time.
  method PlaySets(m: MatchPlay) returns (final: map<Outcome, real>)
    requires m.Proper() && m.setsToWin >= 1
    ensures DescribesMatch(final, m)
  {
    hide Conserved, Placed, PlayOf;
    var live: map<Pending, real> := map[(0, 0, m.aServesFirst, 0) := 1.0];
    final := map[];
    ghost var round := 0;
    StartMass(m);
    while live != map[]
      invariant round <= 2 * m.setsToWin - 1
      invariant ProperMasses(final, live, m, round)
      invariant Conserved(final, map[], live, m)
      decreases 2 * m.setsToWin - round
    {
      var nxt: map<Pending, real> := map[];
      var rest := live;
      while rest != map[]
        invariant ProperMasses(final, nxt, m, round + 1)
        invariant ProperMasses(map[], rest, m, round)
        invariant Conserved(final, nxt, rest, m)
        decreases |rest.Keys|
      {
        var k :| k in rest;
        var final1, nxt1 := PlayNextSet(m, final, nxt, k, rest[k]);
        PlayedOne(final, nxt, final1, nxt1, rest, m, k);
        final, nxt := final1, nxt1;
        assert (rest - {k}).Keys == rest.Keys - {k};
        rest := rest - {k};
      }
      NextRound(final, nxt, m);
      live := nxt;
      round := round + 1;
    }
    MatchDone(final, m);
  }

  method MatchDistribution(pA: real, pB: real, setsToWin: int, aServesFirst: bool)
    returns (r: Result<map<Outcome, real>, MatchError>)
    ensures setsToWin != 2 && setsToWin != 3 ==> r == Raised(BadFormat(setsToWin))
    ensures (setsToWin == 2 || setsToWin == 3) && !ServePoint(pA) ==>
              r == Raised(BadPoint(ProbabilityOutOfRange(pA)))
    ensures (setsToWin == 2 || setsToWin == 3) && ServePoint(pA) && !ServePoint(pB) ==>
              r == Raised(BadPoint(ProbabilityOutOfRange(pB)))
    ensures (setsToWin == 2 || setsToWin == 3) && ServePoint(pA) && ServePoint(pB) ==>
              r.Ok? && DescribesMatch(r.value, MatchPlay(pA, pB, setsToWin, aServesFirst))
    ensures r.Ok? <==> (setsToWin == 2 || setsToWin == 3) && 0.0 < pA < 1.0 && 0.0 < pB < 1.0
  {
    if setsToWin != 2 && setsToWin != 3 { return Raised(BadFormat(setsToWin)); }
    var m := MatchPlay(pA, pB, setsToWin, aServesFirst);
    // The first set is asked for before anything else can happen.
    var first := SetDistribution(pA, pB, aServesFirst);
    if first.Raised? { return Raised(BadPoint(first.error)); }
    hide DescribesMatch;
    var final := PlaySets(m);
    r := Ok(final);
  }

  lemma StartMass(m: MatchPlay)
    requires m.Proper()
    ensures Conserved(map[], map[], map[(0, 0, m.aServesFirst, 0) := 1.0], m)
  {
    hide MatchValue;
    var k: Pending := (0, 0, m.aServesFirst, 0);
    forall payoff: Outcome -> real
      ensures Total(map[k := 1.0], Awaited(payoff, m)) == MatchValue(payoff, m, 0, 0, 0)
    {
      TotalRemove(map[k := 1.0], k, Awaited(payoff, m));
      assert map[k := 1.0] - {k} == map[];
    }
  }

  lemma PlayedOne(final: map<Outcome, real>, nxt: map<Pending, real>,
                  final': map<Outcome, real>, nxt': map<Pending, real>,
                  rest: map<Pending, real>, m: MatchPlay, k: Pending)
    requires m.Proper() && k in rest && m.Running(k.0, k.1)
    requires Conserved(final, nxt, rest, m)
    requires Placed(final, nxt, final', nxt', m, k.0, k.1, k.3, rest[k])
    ensures Conserved(final', nxt', rest - {k}, m)
  {
    hide MatchValue, Expected, Total;
    forall payoff: Outcome -> real
      ensures Expected(final', nxt', payoff, m) + Total(rest - {k}, Awaited(payoff, m))
              == MatchValue(payoff, m, 0, 0, 0)
    {
      TotalRemove(rest, k, Awaited(payoff, m));
      assert Awaited(payoff, m)(k) == MatchValue(payoff, m, k.0, k.1, k.3);
    }
  }

  lemma NextRound(final: map<Outcome, real>, nxt: map<Pending, real>, m: MatchPlay)
    requires m.Proper() && Conserved(final, nxt, map[], m)
    ensures Conserved(final, map[], nxt, m)
  {
    hide MatchValue;
    forall payoff: Outcome -> real
      ensures Expected(final, map[], payoff, m) + Total(nxt, Awaited(payoff, m)) == MatchValue(payoff, m, 0, 0, 0)
    {
      assert Expected(final, nxt, payoff, m) == MatchValue(payoff, m, 0, 0, 0);
    }
  }

  lemma MatchDone(final: map<Outcome, real>, m: MatchPlay)
    requires m.Proper() && Conserved(final, map[], map[], m)
    ensures forall payoff: Outcome -> real :: Total(final, payoff) == MatchValue(payoff, m, 0, 0, 0)
  {
    hide MatchValue;
    forall payoff: Outcome -> real ensures Total(final, payoff) == MatchValue(payoff, m, 0, 0, 0) {
      assert Expected(final, map[], payoff, m) == MatchValue(payoff, m, 0, 0, 0);
    }
  }
}
