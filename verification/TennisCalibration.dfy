// Running the chain backwards: the serve probabilities that reproduce a target
// match probability.
module TennisCalibration {
  import opened Race
  import opened Masses
  import opened Results
  import opened Rounding
  import opened TennisGame
  import opened TennisTiebreak
  import opened TennisSet
  import opened TennisMatch
  import opened TennisMarkets

  const BISECTION_ITERS: nat := 80
  const MICRO: real := 0.000001

  datatype CalibrationError = BadTarget(target: real) | BadMatch(error: MatchError)

  // Six decimals, half to even.
  function Round6(x: real): real {
    Round(x * 1000000.0) as real / 1000000.0
  }

  lemma RoundNear(x: real)
    ensures x - 0.5 <= Round(x) as real <= x + 0.5
  {
  }

  lemma RoundMonotone(x: real, y: real)
    requires x <= y
    ensures Round(x) <= Round(y)
  {
    assert x.Floor <= y.Floor;
  }

  lemma Round6Near(x: real)
    ensures Absolute(Round6(x) - x) <= MICRO / 2.0
  {
    RoundNear(x * 1000000.0);
  }

  function Min(x: real, y: real): real {
    if x < y then x else y
  }

  function MaxDelta(baseline: real): real {
    Min(Min(baseline - 0.30, 0.95 - baseline), 0.30)
  }

  // As far as both serves stay within 0.30 and 0.95, and no further than 0.30.
  lemma WidestRange(baseline: real, delta: real)
    requires delta >= 0.0
    ensures delta <= MaxDelta(baseline)
            <==> 0.30 <= baseline - delta && baseline + delta <= 0.95 && delta <= 0.30
  {
  }

  predicate Playable(pA: real, pB: real, setsToWin: int) {
    (setsToWin == 2 || setsToWin == 3) && ServePoint(pA) && ServePoint(pB)
  }

  // The search objective: the chain at the rounded serve probabilities.
  method MatchProb(baseline: real, delta: real, setsToWin: int, aServesFirst: bool)
    returns (r: Result<real, MatchError>)
    ensures var pA, pB := Round6(baseline + delta), Round6(baseline - delta);
            && (r.Ok? <==> Playable(pA, pB, setsToWin))
            && (r.Ok? ==> r.value == MatchChance(pA, pB, setsToWin))
  {
    hide Round6, MatchChance, DescribesMatch;
    var pA, pB := Round6(baseline + delta), Round6(baseline - delta);
    var dist := MatchDistribution(pA, pB, setsToWin, aServesFirst);
    if dist.Raised? { return Raised(dist.error); }
    var m := MatchPlay(pA, pB, setsToWin, aServesFirst);
    var p := SumOver(dist.value, AWins(m));
    MatchWinProbability(dist.value, m);
    r := Ok(p);
  }

  // The objective as a function; it is a match probability wherever the match
  // can be played.
  function Objective(baseline: real, setsToWin: int, delta: real): real {
    var pA, pB := Round6(baseline + delta), Round6(baseline - delta);
    if Playable(pA, pB, setsToWin) then MatchChance(pA, pB, setsToWin) else 0.0
  }

  ghost predicate Documented(setsToWin: int, baseline: real) {
    (setsToWin == 2 || setsToWin == 3) && 0.30 <= baseline <= 0.95
  }

  lemma InRange(baseline: real, delta: real, setsToWin: nat)
    requires Documented(setsToWin, baseline) && -MaxDelta(baseline) <= delta <= MaxDelta(baseline)
    ensures Playable(Round6(baseline + delta), Round6(baseline - delta), setsToWin)
  {
    Round6Near(baseline + delta);
    Round6Near(baseline - delta);
  }

  // The target lies between the objective's values at lo and hi.
  ghost predicate Brackets(target: real, setsToWin: int, baseline: real, lo: real, hi: real) {
    && Documented(setsToWin, baseline)
    && -MaxDelta(baseline) <= lo <= hi <= MaxDelta(baseline)
    && Objective(baseline, setsToWin, lo) <= target <= Objective(baseline, setsToWin, hi)
  }

  // What a search result is worth: it saturates at one end of the range, or it
  // is the middle of a bracket narrower than a micro around the target.
  ghost predicate Calibrated(pA: real, pB: real, target: real, setsToWin: nat, baseline: real, lo: real, hi: real)
    requires Documented(setsToWin, baseline)
  {
    var max, delta := MaxDelta(baseline), (lo + hi) / 2.0;
    && pA == Round6(baseline + delta)
    && pB == Round6(baseline - delta)
    && (|| (lo == hi == max && Objective(baseline, setsToWin, max) < target)
        || (lo == hi == -max && target < Objective(baseline, setsToWin, -max))
        || (hi - lo < MICRO && Brackets(target, setsToWin, baseline, lo, hi)))
  }

  function Pow2(n: nat): real {
    if n == 0 then 1.0 else 2.0 * Pow2(n - 1)
  }

  lemma {:induction false} Pow2Add(m: nat, n: nat)
    ensures Pow2(m + n) == Pow2(m) * Pow2(n)
  {
    if m > 0 {
      Pow2Add(m - 1, n);
      assert Pow2(m + n) == 2.0 * Pow2(m - 1 + n);
    }
  }

  lemma Pow2Eighty()
    ensures Pow2(80) >= 1000000.0
  {
    assert Pow2(5) == 32.0;
    Pow2Add(5, 5);
    assert Pow2(10) == 1024.0;
    Pow2Add(10, 10);
    Pow2Add(20, 20);
    Pow2Add(40, 40);
    assert Pow2(20) == 1048576.0;
  }

  lemma Narrow(width: real, n: real)
    requires 0.0 <= width && width * n <= 0.6 && n >= 1000000.0
    ensures width < MICRO
  {
    Nonnegative(width, n - 1000000.0);
    assert width * n == width * (n - 1000000.0) + width * 1000000.0;
  }

  lemma Halve(width: real, n: nat, total: real)
    requires width * Pow2(n) == total
    ensures (width / 2.0) * Pow2(n + 1) == total
  {
  }

  // The match at the end of the range can be played at all.
  predicate EndPlayable(setsToWin: int, baseline: real) {
    Playable(Round6(baseline + MaxDelta(baseline)), Round6(baseline - MaxDelta(baseline)), setsToWin)
  }

  // Outside the documented baselines the range is upside down, and there is
  // nothing to search: one of its ends, or the baseline itself.
  function Unsearched(target: real, setsToWin: int, baseline: real): (real, real) {
    var max := MaxDelta(baseline);
    var delta := if Objective(baseline, setsToWin, max) < target then max
                 else if target < Objective(baseline, setsToWin, -max) then -max
                 else 0.0;
    (Round6(baseline + delta), Round6(baseline - delta))
  }

  method CalibrateServeProbabilities(target: real, setsToWin: int, baseline: real, aServesFirst: bool)
    returns (r: Result<(real, real), CalibrationError>)
    ensures !(0.0 < target < 1.0) ==> r == Raised(BadTarget(target))
    ensures 0.0 < target < 1.0 && Documented(setsToWin, baseline) ==>
              r.Ok? && exists lo, hi :: Calibrated(r.value.0, r.value.1, target, setsToWin, baseline, lo, hi)
    ensures 0.0 < target < 1.0 ==> (r.Ok? <==> EndPlayable(setsToWin, baseline))
    ensures r.Ok? && !Documented(setsToWin, baseline) ==> r.value == Unsearched(target, setsToWin, baseline)
  {
    hide Round6, MatchChance, Brackets;
    if !(0.0 < target < 1.0) { return Raised(BadTarget(target)); }
    var max := MaxDelta(baseline);
    var lo, hi := -max, max;
    if Documented(setsToWin, baseline) { InRange(baseline, max, setsToWin); }
    var atHi := MatchProb(baseline, hi, setsToWin, aServesFirst);
    if atHi.Raised? { return Raised(BadMatch(atHi.error)); }
    if atHi.value < target {
      Saturated(target, setsToWin, baseline, hi);
      return Ok((Round6(baseline + hi), Round6(baseline - hi)));
    }
    // The two ends play the same match with the players swapped.
    assert baseline + lo == baseline - hi && baseline - lo == baseline + hi;
    var atLo := MatchProb(baseline, lo, setsToWin, aServesFirst);
    if atLo.value > target {
      Saturated(target, setsToWin, baseline, lo);
      return Ok((Round6(baseline + lo), Round6(baseline - lo)));
    }
    StartBracket(target, setsToWin, baseline, lo, hi);
    lo, hi := Bisect(target, setsToWin, baseline, aServesFirst, lo, hi);
    var delta := (lo + hi) / 2.0;
    r := Ok((Round6(baseline + delta), Round6(baseline - delta)));
    assert Documented(setsToWin, baseline) ==>
             Calibrated(r.value.0, r.value.1, target, setsToWin, baseline, lo, hi);
  }

  lemma Saturated(target: real, setsToWin: int, baseline: real, end: real)
    requires Playable(Round6(baseline + end), Round6(baseline - end), setsToWin)
    requires || (end == MaxDelta(baseline) && Objective(baseline, setsToWin, end) < target)
             || (end == -MaxDelta(baseline) && target < Objective(baseline, setsToWin, end))
    ensures Documented(setsToWin, baseline) ==>
              Calibrated(Round6(baseline + end), Round6(baseline - end), target, setsToWin, baseline, end, end)
  {
    hide Round6, MatchChance, Brackets;
    assert (end + end) / 2.0 == end;
  }

  lemma StartBracket(target: real, setsToWin: int, baseline: real, lo: real, hi: real)
    requires lo == -MaxDelta(baseline) && hi == MaxDelta(baseline)
    requires Playable(Round6(baseline + lo), Round6(baseline - lo), setsToWin)
    requires Playable(Round6(baseline + hi), Round6(baseline - hi), setsToWin)
    requires Objective(baseline, setsToWin, lo) <= target <= Objective(baseline, setsToWin, hi)
    ensures if Documented(setsToWin, baseline) then Brackets(target, setsToWin, baseline, lo, hi) else hi - lo < 0.0
    ensures hi - lo <= 0.6
  {
    hide Round6, MatchChance;
  }

  lemma NarrowBracket(target: real, setsToWin: int, baseline: real, lo: real, hi: real, mid: real)
    requires Brackets(target, setsToWin, baseline, lo, hi) && mid == (lo + hi) / 2.0
    ensures Playable(Round6(baseline + mid), Round6(baseline - mid), setsToWin)
    ensures Objective(baseline, setsToWin, mid) < target ==> Brackets(target, setsToWin, baseline, mid, hi)
    ensures target <= Objective(baseline, setsToWin, mid) ==> Brackets(target, setsToWin, baseline, lo, mid)
  {
    hide Round6, MatchChance;
    InRange(baseline, mid, setsToWin);
  }

  // A range with nothing to search is left at once.
  method Bisect(target: real, setsToWin: int, baseline: real, aServesFirst: bool, lo0: real, hi0: real)
    returns (lo: real, hi: real)
    requires Brackets(target, setsToWin, baseline, lo0, hi0) || hi0 - lo0 < 0.0
    requires hi0 - lo0 <= 0.6
    ensures hi - lo < MICRO
    ensures Brackets(target, setsToWin, baseline, lo0, hi0) ==> Brackets(target, setsToWin, baseline, lo, hi)
    ensures hi0 - lo0 < 0.0 ==> lo == lo0 && hi == hi0
  {
    hide Round6, MatchChance, Brackets;
    lo, hi := lo0, hi0;
    var i := 0;
    ghost var width := hi - lo;
    while i < BISECTION_ITERS
      invariant 0 <= i <= BISECTION_ITERS
      invariant width == hi - lo && width * Pow2(i) == hi0 - lo0
      invariant if hi0 - lo0 < 0.0 then lo == lo0 && hi == hi0 && i == 0
                else width >= 0.0 && Brackets(target, setsToWin, baseline, lo, hi)
    {
      var mid := (lo + hi) / 2.0;
      if hi - lo < MICRO { break; }
      NarrowBracket(target, setsToWin, baseline, lo, hi, mid);
      var atMid := MatchProb(baseline, mid, setsToWin, aServesFirst);
      if atMid.value < target {
        lo := mid;
      } else {
        hi := mid;
      }
      Halve(width, i, hi0 - lo0);
      width := width / 2.0;
      i := i + 1;
    }
    if i == BISECTION_ITERS {
      Pow2Eighty();
      Narrow(width, Pow2(80));
    }
  }

  // ----- what the search finds ---------------------------------------------------

  // The documented chain, before any rounding: strictly increasing in delta.
  function Exact(baseline: real, setsToWin: nat, delta: real): real
    requires Playable(baseline + delta, baseline - delta, setsToWin)
  {
    MatchChance(baseline + delta, baseline - delta, setsToWin)
  }

  lemma ExactIncreasing(baseline: real, setsToWin: nat, delta: real, delta': real)
    requires Playable(baseline + delta, baseline - delta, setsToWin)
    requires Playable(baseline + delta', baseline - delta', setsToWin)
    ensures delta < delta' ==> Exact(baseline, setsToWin, delta) < Exact(baseline, setsToWin, delta')
    ensures delta <= delta' <==> Exact(baseline, setsToWin, delta) <= Exact(baseline, setsToWin, delta')
  {
    hide MatchChance;
    if delta < delta' {
      MatchChanceMonotone(baseline + delta, baseline - delta, baseline + delta', baseline - delta', setsToWin);
    } else if delta' < delta {
      MatchChanceMonotone(baseline + delta', baseline - delta', baseline + delta, baseline - delta, setsToWin);
    }
  }

  // The objective the search bisects never decreases.
  lemma ObjectiveMonotone(baseline: real, setsToWin: nat, delta: real, delta': real)
    requires Documented(setsToWin, baseline)
    requires -MaxDelta(baseline) <= delta <= delta' <= MaxDelta(baseline)
    ensures Objective(baseline, setsToWin, delta) <= Objective(baseline, setsToWin, delta')
  {
    hide MatchChance;
    InRange(baseline, delta, setsToWin);
    InRange(baseline, delta', setsToWin);
    RoundMonotone((baseline + delta) * 1000000.0, (baseline + delta') * 1000000.0);
    RoundMonotone((baseline - delta') * 1000000.0, (baseline - delta) * 1000000.0);
    MatchChanceMonotone(Round6(baseline + delta), Round6(baseline - delta),
                        Round6(baseline + delta'), Round6(baseline - delta'), setsToWin);
  }

  // Rounding moves the objective no further than half a micro of delta would.
  lemma ObjectiveBracketsExact(baseline: real, setsToWin: nat, delta: real, root: real)
    requires Documented(setsToWin, baseline)
    requires -MaxDelta(baseline) <= delta <= MaxDelta(baseline)
    requires Playable(baseline + root, baseline - root, setsToWin)
    ensures Objective(baseline, setsToWin, delta) <= Exact(baseline, setsToWin, root) ==> delta - MICRO / 2.0 <= root
    ensures Exact(baseline, setsToWin, root) <= Objective(baseline, setsToWin, delta) ==> root <= delta + MICRO / 2.0
  {
    hide MatchChance;
    InRange(baseline, delta, setsToWin);
    Round6Near(baseline + delta);
    Round6Near(baseline - delta);
    var below, above := delta - MICRO / 2.0, delta + MICRO / 2.0;
    MatchChanceMonotone(baseline + below, baseline - below, Round6(baseline + delta), Round6(baseline - delta), setsToWin);
    MatchChanceMonotone(Round6(baseline + delta), Round6(baseline - delta), baseline + above, baseline - above, setsToWin);
    ExactIncreasing(baseline, setsToWin, below, root);
    ExactIncreasing(baseline, setsToWin, root, above);
  }

  // Whenever the documented chain reaches the target inside the search range,
  // it does so at one delta only, and the returned serve probabilities are
  // within three halves of a micro of the ones at that delta.
  lemma CalibrationFindsTheRoot(pA: real, pB: real, target: real, setsToWin: nat, baseline: real,
                                lo: real, hi: real, root: real)
    requires Documented(setsToWin, baseline)
    requires Calibrated(pA, pB, target, setsToWin, baseline, lo, hi)
    requires -MaxDelta(baseline) <= root <= MaxDelta(baseline)
    requires Playable(baseline + root, baseline - root, setsToWin) && Exact(baseline, setsToWin, root) == target
    ensures Absolute(pA - (baseline + root)) <= 0.0000015 && Absolute(pB - (baseline - root)) <= 0.0000015
    ensures forall other ::
              Playable(baseline + other, baseline - other, setsToWin) && Exact(baseline, setsToWin, other) == target
              ==> other == root
  {
    hide MatchChance, Round6, Exact, Objective;
    var delta := (lo + hi) / 2.0;
    InRange(baseline, lo, setsToWin);
    InRange(baseline, hi, setsToWin);
    ObjectiveBracketsExact(baseline, setsToWin, lo, root);
    ObjectiveBracketsExact(baseline, setsToWin, hi, root);
    assert Absolute(delta - root) <= MICRO;
    Round6Near(baseline + delta);
    Round6Near(baseline - delta);
    forall other | Playable(baseline + other, baseline - other, setsToWin)
                   && Exact(baseline, setsToWin, other) == target
      ensures other == root
    {
      ExactIncreasing(baseline, setsToWin, other, root);
      ExactIncreasing(baseline, setsToWin, root, other);
    }
  }
}
