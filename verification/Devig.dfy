// Removing a bookmaker's margin.
module Devig {
  import opened Results
  import opened Products
  import opened Shin
  import opened ShinBook
  import opened Rounding

  datatype DevigError = TooFewOutcomes | OddsTooLow | ImplausibleOverround | NonPositive | NoBracket | NotADistribution

  datatype DevigMethod = Multiplicative | Additive | Power | ShinModel

  const MIN_OVERROUND: real := 0.95
  const MAX_OVERROUND: real := 1.60
  const TOLERANCE: real := 0.000000000001
  const MAX_ITERATIONS: nat := 200

  // The reciprocals of the prices.
  function Raw(odds: seq<real>): (raw: seq<real>)
    requires forall i :: 0 <= i < |odds| ==> odds[i] > 1.0
    ensures |raw| == |odds|
    ensures forall i :: 0 <= i < |odds| ==> 0.0 < raw[i] < 1.0 && Mul(odds[i], raw[i]) == 1.0
  {
    forall i | 0 <= i < |odds| ensures 0.0 < 1.0 / odds[i] < 1.0 && Mul(odds[i], 1.0 / odds[i]) == 1.0 {
      Reciprocal(odds[i]);
    }
    seq(|odds|, i requires 0 <= i < |odds| => 1.0 / odds[i])
  }

  lemma Reciprocal(o: real)
    requires o > 1.0
    ensures 0.0 < 1.0 / o < 1.0 && Mul(o, 1.0 / o) == 1.0
  {
    hide Mul;
    Quotient(1.0, o);
    ReciprocalPositive(o);
    Units(o);
    if 1.0 / o >= 1.0 { Scale(o, 1.0, 1.0 / o); }
  }

  // Why a book is refused, if it is.
  function Refusal(odds: seq<real>): Option<DevigError> {
    if |odds| < 2 then Some(TooFewOutcomes)
    else if exists i :: 0 <= i < |odds| && odds[i] <= 1.0 then Some(OddsTooLow)
    else if !(MIN_OVERROUND <= Sum(Raw(odds)) <= MAX_OVERROUND) then Some(ImplausibleOverround)
    else None
  }

  // Accepted exactly with two prices or more, each above one, whose reciprocals
  // add up to between 0.95 and 1.60.
  lemma RefusedExactly(odds: seq<real>)
    ensures Refusal(odds).None?
            <==> && |odds| >= 2 && (forall i :: 0 <= i < |odds| ==> odds[i] > 1.0)
                 && 0.95 <= Sum(Raw(odds)) <= 1.60
    ensures Refusal(odds) == Some(TooFewOutcomes) <==> |odds| < 2
    ensures Refusal(odds).Some? ==> Refusal(odds).value in {TooFewOutcomes, OddsTooLow, ImplausibleOverround}
    ensures Refusal(odds) == Some(OddsTooLow) <==> |odds| >= 2 && exists i :: 0 <= i < |odds| && odds[i] <= 1.0
  {
  }

  // A probability distribution.
  ghost predicate Distribution(probs: seq<real>) {
    Sum(probs) == 1.0 && forall i :: 0 <= i < |probs| ==> 0.0 < probs[i] < 1.0
  }

  // A shorter price never gets a smaller probability, and equal prices get one.
  ghost predicate SameOrder(odds: seq<real>, probs: seq<real>) {
    |odds| == |probs| && forall i, j :: 0 <= i < |odds| && 0 <= j < |odds| ==> (odds[i] < odds[j] <==> probs[i] > probs[j])
  }

  // ----- rescaling to one ---------------------------------------------------------------

  function Rescaled(weights: seq<real>): (probs: seq<real>)
    requires Sum(weights) > 0.0
    ensures |probs| == |weights|
  {
    seq(|weights|, i requires 0 <= i < |weights| => weights[i] / Sum(weights))
  }

  lemma RescaledDistributes(weights: seq<real>)
    requires |weights| >= 2 && forall i :: 0 <= i < |weights| ==> weights[i] > 0.0
    ensures Sum(weights) > 0.0 && Distribution(Rescaled(weights))
    ensures forall i, j :: 0 <= i < |weights| && 0 <= j < |weights| ==>
              (weights[i] > weights[j] <==> Rescaled(weights)[i] > Rescaled(weights)[j])
  {
    hide Mul;
    PartBelowSum(weights, 0);
    var scale := Sum(weights);
    var k := 1.0 / scale;
    ReciprocalPositive(scale);
    var probs := Rescaled(weights);
    forall i | 0 <= i < |weights| ensures probs[i] == Mul(k, weights[i]) && 0.0 < probs[i] < 1.0 {
      Divided(weights[i], scale);
      PartBelowSum(weights, i);
      Positive(k, weights[i]);
      Scale(k, weights[i], scale);
      Quotient(1.0, scale);
      Commutes(k, scale);
    }
    assert probs == seq(|weights|, i requires 0 <= i < |weights| => Mul(k, weights[i]));
    SumScaled(k, weights);
    Quotient(1.0, scale);
    Commutes(k, scale);
    forall i, j | 0 <= i < |weights| && 0 <= j < |weights|
      ensures weights[i] > weights[j] <==> probs[i] > probs[j]
    {
      if weights[i] > weights[j] { Scale(k, weights[j], weights[i]); } else { Scale(k, weights[i], weights[j]); }
    }
  }

  lemma Divided(x: real, y: real)
    requires y > 0.0
    ensures x / y == Mul(1.0 / y, x)
  {
  }

  // ----- checking a book ---------------------------------------------------------------

  method CheckBook(odds: seq<real>) returns (r: Result<seq<real>, DevigError>)
    ensures r == match Refusal(odds) case Some(error) => Raised(error) case None => Ok(Raw(odds))
  {
    if |odds| < 2 { return Raised(TooFewOutcomes); }
    var i := 0;
    while i < |odds|
      invariant 0 <= i <= |odds| && forall k :: 0 <= k < i ==> odds[k] > 1.0
    {
      if odds[i] <= 1.0 { return Raised(OddsTooLow); }
      i := i + 1;
    }
    var raw := Raw(odds);
    if !(MIN_OVERROUND <= Sum(raw) <= MAX_OVERROUND) { return Raised(ImplausibleOverround); }
    r := Ok(raw);
  }

  lemma RawOrder(odds: seq<real>, i: nat, j: nat)
    requires (forall k :: 0 <= k < |odds| ==> odds[k] > 1.0) && i < |odds| && j < |odds|
    ensures odds[i] < odds[j] <==> Raw(odds)[i] > Raw(odds)[j]
  {
    hide Mul;
    var raw := Raw(odds);
    assert Mul(odds[i], raw[i]) == 1.0 && Mul(odds[j], raw[j]) == 1.0;
    Commutes(odds[i], raw[i]);
    Commutes(odds[j], raw[j]);
    if odds[i] < odds[j] {
      Scale(raw[i], odds[i], odds[j]);
      if raw[i] <= raw[j] { Scale(odds[j], raw[i], raw[j]); Commutes(odds[j], raw[i]); }
    } else {
      Scale(raw[i], odds[j], odds[i]);
      if raw[i] > raw[j] { Scale(odds[j], raw[j], raw[i]); Commutes(odds[j], raw[i]); }
    }
  }

  // Weights ordered as the raw probabilities give probabilities ordered against
  // the odds.
  lemma OrderedAgainstOdds(odds: seq<real>, weights: seq<real>)
    requires Refusal(odds).None? && |weights| == |odds| && forall i :: 0 <= i < |weights| ==> weights[i] > 0.0
    requires forall i, j :: 0 <= i < |odds| && 0 <= j < |odds| ==>
               (Raw(odds)[i] > Raw(odds)[j] <==> weights[i] > weights[j])
    ensures Sum(weights) > 0.0 && Distribution(Rescaled(weights)) && SameOrder(odds, Rescaled(weights))
  {
    RescaledDistributes(weights);
    var probs := Rescaled(weights);
    hide Rescaled, Sum;
    forall i, j | 0 <= i < |odds| && 0 <= j < |odds| ensures odds[i] < odds[j] <==> probs[i] > probs[j] {
      RawOrder(odds, i, j);
    }
  }

  // ----- what each method keeps of the prices ---------------------------------------------

  predicate Accepted(odds: seq<real>) {
    |odds| >= 2 && forall i :: 0 <= i < |odds| ==> odds[i] > 1.0
  }

  // In the same ratios.
  ghost predicate Proportional(probs: seq<real>, weights: seq<real>) {
    && |probs| == |weights|
    && forall i, j :: 0 <= i < |probs| && 0 <= j < |probs| ==> Mul(probs[i], weights[j]) == Mul(probs[j], weights[i])
  }

  // Every price is cut by the same factor.
  ghost predicate CutAlike(odds: seq<real>, probs: seq<real>) {
    && |probs| == |odds|
    && forall i, j :: 0 <= i < |odds| && 0 <= j < |odds| ==> Mul(probs[i], odds[i]) == Mul(probs[j], odds[j])
  }

  // Every reciprocal is lowered by the same amount.
  ghost predicate LoweredAlike(odds: seq<real>, probs: seq<real>)
    requires forall i :: 0 <= i < |odds| ==> odds[i] > 1.0
  {
    && |probs| == |odds|
    && forall i, j :: 0 <= i < |odds| && 0 <= j < |odds| ==> probs[i] - probs[j] == 1.0 / odds[i] - 1.0 / odds[j]
  }

  // In the ratios of one power of the reciprocals: the first for a book already
  // at one, for any other one the search may return.
  ghost predicate RaisedAlike(odds: seq<real>, probs: seq<real>, pow: (real, real) -> real, k: real)
    requires Accepted(odds)
  {
    var raw, total := Raw(odds), Sum(Raw(odds));
    && (if Absolute(total - 1.0) < TOLERANCE then k == 1.0
        else PowerFound(pow, raw, Halved(PowerHi(total) - PowerLo(total), MAX_ITERATIONS), k))
    && |probs| == |odds|
    && forall i, j :: 0 <= i < |odds| && 0 <= j < |odds| ==>
         Mul(probs[i], pow(1.0 / odds[j], k)) == Mul(probs[j], pow(1.0 / odds[i], k))
  }

  // The equation of the model, outcome by outcome, at one fraction z of informed
  // money.
  ghost predicate Equated(odds: seq<real>, total: real, z: real, p: seq<real>)
    requires total > 0.0 && forall i :: 0 <= i < |odds| ==> odds[i] > 1.0
  {
    && |p| == |odds|
    && forall i :: 0 <= i < |odds| ==>
         p[i] >= 0.0 && Mul(p[i], p[i]) + Mul(z, p[i] - Mul(p[i], p[i])) == Mul(1.0 / odds[i], 1.0 / odds[i]) / total
  }

  // In the ratios of solutions of that equation, at a z the search may return.
  ghost predicate ShinAlike(odds: seq<real>, probs: seq<real>, sqrt: real -> real, z: real, p: seq<real>)
    requires forall i :: 0 <= i < |odds| ==> odds[i] > 1.0
  {
    var total := Sum(Raw(odds));
    total > 0.0 && Found(sqrt, Raw(odds), total, z) && Equated(odds, total, z, p) && Proportional(probs, p)
  }

  lemma RescaledProportional(weights: seq<real>)
    requires Sum(weights) > 0.0
    ensures Proportional(Rescaled(weights), weights)
  {
    hide Mul;
    var k := 1.0 / Sum(weights);
    var probs := Rescaled(weights);
    forall i, j | 0 <= i < |probs| && 0 <= j < |probs| ensures Mul(probs[i], weights[j]) == Mul(probs[j], weights[i]) {
      Divided(weights[i], Sum(weights));
      Divided(weights[j], Sum(weights));
      Commutes(weights[i], weights[j]);
      Associates(k, weights[i], weights[j]);
      Associates(k, weights[j], weights[i]);
    }
  }

  // Ratios of reciprocals are a common cut of the prices.
  lemma CutByReciprocals(odds: seq<real>, probs: seq<real>)
    requires (forall i :: 0 <= i < |odds| ==> odds[i] > 1.0) && Proportional(probs, Raw(odds))
    ensures CutAlike(odds, probs)
  {
    hide Mul;
    var raw := Raw(odds);
    forall i, j | 0 <= i < |odds| && 0 <= j < |odds| ensures Mul(probs[i], odds[i]) == Mul(probs[j], odds[j]) {
      assert Mul(probs[i], raw[j]) == Mul(probs[j], raw[i]);
      CutTwice(probs[i], odds[i], raw[i], probs[j], odds[j], raw[j]);
    }
  }

  lemma CutTwice(p: real, o: real, r: real, p': real, o': real, r': real)
    requires Mul(o, r) == 1.0 && Mul(o', r') == 1.0 && Mul(p, r') == Mul(p', r)
    ensures Mul(p, o) == Mul(p', o')
  {
    hide Mul;
    Commutes(o, r);
    Commutes(o', r');
    Associates(p, r', o');
    Associates(p', r, o);
    Units(p);
    Units(p');
    assert Mul(p, Mul(r', o')) == Mul(p, 1.0) == p && Mul(p', Mul(r, o)) == Mul(p', 1.0) == p';
    Commutes(o, o');
    Associates(Mul(p, r'), o', o);
    Associates(Mul(p', r), o, o');
  }

  // ----- Shin ----------------------------------------------------------------------------

  // The point where the probabilities add up to one.
  ghost predicate Root(sqrt: real -> real, raw: seq<real>, total: real, z: real)
    requires total > 0.0
  {
    0.0 <= z < 1.0 && Sum(Probabilities(sqrt, z, raw, total)) == 1.0
  }

  lemma OneRoot(sqrt: real -> real, raw: seq<real>, total: real, z: real, z': real)
    requires IsSqrt(sqrt) && Book(raw, total) && Root(sqrt, raw, total, z) && Root(sqrt, raw, total, z')
    ensures z == z'
  {
    if z < z' { SumFalls(sqrt, z, z', raw, total); }
    if z' < z { SumFalls(sqrt, z', z, raw, total); }
  }

  ghost predicate Brackets(sqrt: real -> real, raw: seq<real>, total: real, lo: real, hi: real)
    requires total > 0.0
  {
    && 0.0 <= lo < hi <= HI
    && Sum(Probabilities(sqrt, lo, raw, total)) > 1.0
    && Sum(Probabilities(sqrt, hi, raw, total)) < 1.0
  }

  lemma BracketHoldsRoot(sqrt: real -> real, raw: seq<real>, total: real, lo: real, hi: real, z: real)
    requires IsSqrt(sqrt) && Book(raw, total) && Brackets(sqrt, raw, total, lo, hi) && Root(sqrt, raw, total, z)
    ensures lo < z < hi
  {
    if z < lo { SumFalls(sqrt, z, lo, raw, total); }
    if hi < z { SumFalls(sqrt, hi, z, raw, total); }
  }

  ghost predicate CloseInValue(sqrt: real -> real, raw: seq<real>, total: real, z: real)
    requires total > 0.0 && z < 1.0
  {
    Absolute(Sum(Probabilities(sqrt, z, raw, total)) - 1.0) < TOLERANCE
  }

  // The middle of a bracket as narrow as the last halving.
  ghost predicate MidBracket(sqrt: real -> real, raw: seq<real>, total: real, z: real)
    requires total > 0.0
  {
    exists lo, hi :: Brackets(sqrt, raw, total, lo, hi) && hi - lo == Halved(HI, MAX_ITERATIONS) && z == (lo + hi) / 2.0
  }

  // What the search may return.
  ghost predicate Found(sqrt: real -> real, raw: seq<real>, total: real, z: real)
    requires total > 0.0
  {
    0.0 <= z < 1.0 && (CloseInValue(sqrt, raw, total, z) || MidBracket(sqrt, raw, total, z))
  }

  // Such a middle is closer to the root than the last width.
  lemma MidBracketNearRoot(sqrt: real -> real, raw: seq<real>, total: real, z: real, root: real)
    requires IsSqrt(sqrt) && Book(raw, total) && MidBracket(sqrt, raw, total, z) && Root(sqrt, raw, total, root)
    ensures Absolute(z - root) < Halved(HI, MAX_ITERATIONS)
  {
    assert total > 0.0;
    hide Sum, Probabilities, Book, Halved, Brackets, MidBracket, Root, IsSqrt, Absolute;
    var lo, hi := TheBracket(sqrt, raw, total, z);
    BracketHoldsRoot(sqrt, raw, total, lo, hi, root);
    Middle(lo, hi, root);
  }

  lemma TheBracket(sqrt: real -> real, raw: seq<real>, total: real, z: real) returns (lo: real, hi: real)
    requires total > 0.0 && MidBracket(sqrt, raw, total, z)
    ensures Brackets(sqrt, raw, total, lo, hi) && hi - lo == Halved(HI, MAX_ITERATIONS) && z == (lo + hi) / 2.0
  {
    hide Brackets, Halved;
    lo, hi :| Brackets(sqrt, raw, total, lo, hi) && hi - lo == Halved(HI, MAX_ITERATIONS) && z == (lo + hi) / 2.0;
  }

  lemma Middle(lo: real, hi: real, x: real)
    requires lo < x < hi
    ensures Absolute((lo + hi) / 2.0 - x) < hi - lo
  {
  }

  lemma Opening(sqrt: real -> real, raw: seq<real>, total: real)
    requires IsSqrt(sqrt) && Book(raw, total)
    ensures total > 0.0 && Brackets(sqrt, raw, total, 0.0, HI)
  {
    SumAtZero(sqrt, raw, total);
    SumAtEnd(sqrt, raw, total);
  }

  lemma Halving(sqrt: real -> real, raw: seq<real>, total: real, lo: real, hi: real)
    requires IsSqrt(sqrt) && Book(raw, total) && Brackets(sqrt, raw, total, lo, hi)
    ensures var mid := (lo + hi) / 2.0;
            && 0.0 <= mid < 1.0
            && (Sum(Probabilities(sqrt, mid, raw, total)) > 1.0 ==> Brackets(sqrt, raw, total, mid, hi))
            && (Sum(Probabilities(sqrt, mid, raw, total)) < 1.0 ==> Brackets(sqrt, raw, total, lo, mid))
            && (Absolute(Sum(Probabilities(sqrt, mid, raw, total)) - 1.0) < TOLERANCE ==> Found(sqrt, raw, total, mid))
  {
    hide Sum, Probabilities, Book;
  }

  lemma Exhausted(sqrt: real -> real, raw: seq<real>, total: real, lo: real, hi: real)
    requires total > 0.0 && Brackets(sqrt, raw, total, lo, hi)
    requires hi - lo == Halved(HI, MAX_ITERATIONS)
    ensures Found(sqrt, raw, total, (lo + hi) / 2.0)
  {
    hide Sum, Probabilities, Book, Halved;
    var z := (lo + hi) / 2.0;
    assert Brackets(sqrt, raw, total, lo, hi) && hi - lo == Halved(HI, MAX_ITERATIONS) && z == (lo + hi) / 2.0;
  }

  // Bisection; at every iteration the interval brackets the root.
  method SearchZ(raw: seq<real>, total: real, sqrt: real -> real) returns (z: real)
    requires IsSqrt(sqrt) && Book(raw, total)
    ensures Found(sqrt, raw, total, z)
  {
    var lo, hi := 0.0, HI;
    hide Sum, Probabilities, Brackets, Found, IsSqrt, Book;
    Opening(sqrt, raw, total);
    var i := 0;
    while i < MAX_ITERATIONS
      invariant 0 <= i <= MAX_ITERATIONS
      invariant Brackets(sqrt, raw, total, lo, hi) && hi - lo == Halved(HI, i)
    {
      Halving(sqrt, raw, total, lo, hi);
      var mid := (lo + hi) / 2.0;
      var value := Sum(Probabilities(sqrt, mid, raw, total)) - 1.0;
      if Absolute(value) < TOLERANCE { return (lo + hi) / 2.0; }
      if value > 0.0 { lo := mid; } else { hi := mid; }
      i := i + 1;
    }
    Exhausted(sqrt, raw, total, lo, hi);
    z := (lo + hi) / 2.0;
  }

  lemma IsBook(odds: seq<real>)
    requires Refusal(odds).None? && Sum(Raw(odds)) > 1.0
    ensures Book(Raw(odds), Sum(Raw(odds)))
  {
  }

  // A distribution in the order of the prices, for every book that is not refused.
  method DevigShin(odds: seq<real>, sqrt: real -> real) returns (r: Result<seq<real>, DevigError>, ghost z: real)
    requires IsSqrt(sqrt)
    ensures Refusal(odds).Some? ==> r == Raised(Refusal(odds).value)
    ensures Refusal(odds).None? ==> r.Ok? && Distribution(r.value) && SameOrder(odds, r.value)
    ensures Refusal(odds).None? ==>
              var raw, total := Raw(odds), Sum(Raw(odds));
              if total <= 1.0 + TOLERANCE then CutAlike(odds, r.value)
              else exists p :: ShinAlike(odds, r.value, sqrt, z, p)
  {
    hide Sum, Probabilities, Found, Refusal, Distribution, SameOrder, CutAlike, ShinAlike, Rescaled, Book, IsSqrt, Raw;
    z := 0.0;
    var checked := CheckBook(odds);
    if checked.Raised? { return Raised(checked.error), z; }
    var raw := checked.value;
    var total := Sum(raw);
    if total <= 1.0 + TOLERANCE {
      EvenShares(odds);
      return Ok(Rescaled(raw)), z;
    }
    IsBook(odds);
    var found := SearchZ(raw, total, sqrt);
    z := found;
    FoundInRange(sqrt, raw, total, found);
    ShinShares(odds, sqrt, found);
    r := Ok(Rescaled(Probabilities(sqrt, found, raw, total)));
  }

  lemma FoundInRange(sqrt: real -> real, raw: seq<real>, total: real, z: real)
    requires total > 0.0 && Found(sqrt, raw, total, z)
    ensures 0.0 <= z < 1.0
  {
  }

  lemma EvenShares(odds: seq<real>)
    requires Refusal(odds).None?
    ensures Accepted(odds) && Sum(Raw(odds)) > 0.0
    ensures Distribution(Rescaled(Raw(odds))) && SameOrder(odds, Rescaled(Raw(odds)))
    ensures CutAlike(odds, Rescaled(Raw(odds)))
  {
    OrderedAgainstOdds(odds, Raw(odds));
    RescaledProportional(Raw(odds));
    CutByReciprocals(odds, Rescaled(Raw(odds)));
  }

  lemma ShinShares(odds: seq<real>, sqrt: real -> real, z: real)
    requires IsSqrt(sqrt) && Refusal(odds).None? && Book(Raw(odds), Sum(Raw(odds)))
    requires Found(sqrt, Raw(odds), Sum(Raw(odds)), z)
    ensures var p := Probabilities(sqrt, z, Raw(odds), Sum(Raw(odds)));
            && Sum(p) > 0.0 && Distribution(Rescaled(p)) && SameOrder(odds, Rescaled(p))
            && ShinAlike(odds, Rescaled(p), sqrt, z, p)
  {
    hide Distribution, SameOrder, Sum, Rescaled, CloseInValue, MidBracket, Probability;
    var raw, total := Raw(odds), Sum(Raw(odds));
    var p := Probabilities(sqrt, z, raw, total);
    AllPositive(sqrt, z, raw, total);
    ProbabilitiesOrdered(sqrt, z, raw, total);
    OrderedAgainstOdds(odds, p);
    RescaledProportional(p);
    AllEquated(odds, sqrt, z);
  }

  lemma AllEquated(odds: seq<real>, sqrt: real -> real, z: real)
    requires IsSqrt(sqrt) && (forall i :: 0 <= i < |odds| ==> odds[i] > 1.0)
    requires 0.0 <= z < 1.0 && Sum(Raw(odds)) > 0.0
    ensures Equated(odds, Sum(Raw(odds)), z, Probabilities(sqrt, z, Raw(odds), Sum(Raw(odds))))
  {
    hide Sum, Probability;
    var raw, total := Raw(odds), Sum(Raw(odds));
    var p := Probabilities(sqrt, z, raw, total);
    forall i | 0 <= i < |odds|
      ensures p[i] >= 0.0
      ensures Mul(p[i], p[i]) + Mul(z, p[i] - Mul(p[i], p[i])) == Mul(1.0 / odds[i], 1.0 / odds[i]) / total
    {
      ProbabilitySolves(sqrt, z, raw[i], total);
      WeightWrittenOut(z, p[i]);
    }
  }

  lemma WeightWrittenOut(z: real, p: real)
    ensures Weight(z, p) == Mul(p, p) + Mul(z, p - Mul(p, p))
  {
  }

  lemma ProbabilitiesOrdered(sqrt: real -> real, z: real, raw: seq<real>, total: real)
    requires IsSqrt(sqrt) && Book(raw, total) && 0.0 <= z < 1.0
    ensures var p := Probabilities(sqrt, z, raw, total);
            forall i, j :: 0 <= i < |raw| && 0 <= j < |raw| ==> (raw[i] > raw[j] <==> p[i] > p[j])
  {
    hide Probability;
    var p := Probabilities(sqrt, z, raw, total);
    forall i, j | 0 <= i < |raw| && 0 <= j < |raw| ensures raw[i] > raw[j] <==> p[i] > p[j] {
      if raw[i] > raw[j] { RisesWithR(sqrt, z, raw[j], raw[i], total); }
      if raw[j] > raw[i] { RisesWithR(sqrt, z, raw[i], raw[j], total); }
    }
  }

  // Zero for a book without margin, and what the search finds for any other.
  method ShinZ(odds: seq<real>, sqrt: real -> real) returns (r: Result<real, DevigError>)
    requires IsSqrt(sqrt)
    ensures Refusal(odds).Some? ==> r == Raised(Refusal(odds).value)
    ensures Refusal(odds).None? ==>
              && r.Ok?
              && if Sum(Raw(odds)) <= 1.0 + TOLERANCE then r.value == 0.0
                 else Found(sqrt, Raw(odds), Sum(Raw(odds)), r.value)
  {
    var checked := CheckBook(odds);
    if checked.Raised? { return Raised(checked.error); }
    if Sum(checked.value) <= 1.0 + TOLERANCE { return Ok(0.0); }
    IsBook(odds);
    var z := SearchZ(checked.value, Sum(checked.value), sqrt);
    r := Ok(z);
  }

  // ----- the simpler methods -----------------------------------------------------------

  method DevigMultiplicative(odds: seq<real>) returns (r: Result<seq<real>, DevigError>)
    ensures Refusal(odds).Some? ==> r == Raised(Refusal(odds).value)
    ensures Refusal(odds).None? ==>
              r.Ok? && Distribution(r.value) && SameOrder(odds, r.value) && CutAlike(odds, r.value)
  {
    var checked := CheckBook(odds);
    if checked.Raised? { return Raised(checked.error); }
    EvenShares(odds);
    r := Ok(Rescaled(checked.value));
  }

  function Shifted(raw: seq<real>, shift: real): (out: seq<real>)
    ensures |out| == |raw| && forall i :: 0 <= i < |raw| ==> out[i] == raw[i] - shift
  {
    seq(|raw|, i requires 0 <= i < |raw| => raw[i] - shift)
  }

  lemma {:induction false} SumShifted(raw: seq<real>, shift: real)
    ensures Sum(Shifted(raw, shift)) == Sum(raw) - |raw| as real * shift
  {
    if raw != [] {
      var n := |raw| - 1;
      SumShifted(raw[..n], shift);
      assert Shifted(raw, shift)[..n] == Shifted(raw[..n], shift);
      assert (n as real + 1.0) * shift == n as real * shift + shift;
    }
  }

  // Rejected exactly when an even split of the margin would leave a price with
  // nothing.
  method DevigAdditive(odds: seq<real>) returns (r: Result<seq<real>, DevigError>)
    ensures Refusal(odds).Some? ==> r == Raised(Refusal(odds).value)
    ensures Refusal(odds).None? ==>
              var excess := (Sum(Raw(odds)) - 1.0) / |odds| as real;
              if exists i :: 0 <= i < |odds| && Raw(odds)[i] <= excess then r == Raised(NonPositive)
              else r.Ok? && Distribution(r.value) && SameOrder(odds, r.value) && LoweredAlike(odds, r.value)
  {
    var checked := CheckBook(odds);
    if checked.Raised? { return Raised(checked.error); }
    var raw := checked.value;
    var excess := (Sum(raw) - 1.0) / |raw| as real;
    var out := Shifted(raw, excess);
    ShiftedSum(raw, excess);
    hide Sum;
    if i :| 0 <= i < |out| && out[i] <= 0.0 {
      assert Raw(odds)[i] <= excess;
      return Raised(NonPositive);
    }
    forall i | 0 <= i < |out| ensures 0.0 < out[i] < 1.0 { PartBelowSum(out, i); }
    forall i, j | 0 <= i < |odds| && 0 <= j < |odds| ensures odds[i] < odds[j] <==> out[i] > out[j] {
      RawOrder(odds, i, j);
    }
    r := Ok(out);
  }

  lemma ShiftedSum(raw: seq<real>, excess: real)
    requires raw != [] && excess == (Sum(raw) - 1.0) / |raw| as real
    ensures Sum(Shifted(raw, excess)) == 1.0
  {
    hide Sum;
    SumShifted(raw, excess);
    assert |raw| as real * excess == Sum(raw) - 1.0;
  }

  // ----- powers --------------------------------------------------------------------------

  // What the method needs to know about real powers of numbers below one.
  ghost predicate IsPower(pow: (real, real) -> real) {
    && (forall r, k :: 0.0 < r < 1.0 ==> pow(r, k) > 0.0)
    && (forall r :: 0.0 < r < 1.0 ==> pow(r, 1.0) == r)
    && (forall r, k, k' :: 0.0 < r < 1.0 && k < k' ==> pow(r, k') < pow(r, k))
    && (forall r, r', k :: 0.0 < r < r' < 1.0 && k > 0.0 ==> pow(r, k) < pow(r', k))
  }

  function Powers(pow: (real, real) -> real, k: real, raw: seq<real>): (out: seq<real>)
    ensures |out| == |raw| && forall i :: 0 <= i < |raw| ==> out[i] == pow(raw[i], k)
  {
    seq(|raw|, i requires 0 <= i < |raw| => pow(raw[i], k))
  }

  ghost predicate Prices(raw: seq<real>) {
    |raw| >= 2 && forall i :: 0 <= i < |raw| ==> 0.0 < raw[i] < 1.0
  }

  lemma PowersFall(pow: (real, real) -> real, k: real, k': real, raw: seq<real>)
    requires IsPower(pow) && Prices(raw) && k < k'
    ensures Sum(Powers(pow, k', raw)) < Sum(Powers(pow, k, raw))
  {
    SumBelow(Powers(pow, k', raw), Powers(pow, k, raw));
  }

  lemma FirstPower(pow: (real, real) -> real, raw: seq<real>)
    requires IsPower(pow) && Prices(raw)
    ensures Powers(pow, 1.0, raw) == raw
  {
  }

  // The exponents searched, on the side of one the book calls for.
  function PowerLo(total: real): real {
    if total > 1.0 then 1.0 else 0.000001
  }

  function PowerHi(total: real): real {
    if total > 1.0 then 64.0 else 1.0
  }

  ghost predicate PowerBrackets(pow: (real, real) -> real, raw: seq<real>, lo: real, hi: real) {
    0.0 < lo < hi && Sum(Powers(pow, lo, raw)) >= 1.0 >= Sum(Powers(pow, hi, raw))
  }

  // One end of the interval always does: what decides is the other.
  lemma PowerEnds(pow: (real, real) -> real, raw: seq<real>, total: real)
    requires IsPower(pow) && Prices(raw) && total == Sum(raw)
    ensures PowerBrackets(pow, raw, PowerLo(total), PowerHi(total))
            <==> if total > 1.0 then Sum(Powers(pow, 64.0, raw)) <= 1.0 else Sum(Powers(pow, 0.000001, raw)) >= 1.0
  {
    FirstPower(pow, raw);
  }

  // The product of the two residues is positive exactly when the exponent that
  // solves the book lies outside the interval.
  lemma PowerGuard(pow: (real, real) -> real, raw: seq<real>, total: real, a: real, b: real)
    requires IsPower(pow) && Prices(raw) && total == Sum(raw) && total != 1.0
    requires a == Sum(Powers(pow, PowerLo(total), raw)) - 1.0 && b == Sum(Powers(pow, PowerHi(total), raw)) - 1.0
    ensures Mul(a, b) > 0.0 <==> !PowerBrackets(pow, raw, PowerLo(total), PowerHi(total))
  {
    FirstPower(pow, raw);
    PowersFall(pow, PowerLo(total), PowerHi(total), raw);
    hide Mul, Sum, Powers;
    Units(a);
    Units(b);
    if a > 0.0 && b > 0.0 { Positive(a, b); }
    if a > 0.0 && b < 0.0 { Scale(a, b, 0.0); }
    if a < 0.0 && b < 0.0 {
      Positive(-a, -b);
      Distributes(-a, 0.0, b);
      Units(-a);
      Commutes(-a, b);
      Distributes(b, 0.0, a);
      Commutes(a, b);
    }
  }

  ghost predicate PowerFound(pow: (real, real) -> real, raw: seq<real>, width: real, k: real) {
    && k > 0.0
    && (|| Absolute(Sum(Powers(pow, k, raw)) - 1.0) < TOLERANCE
        || exists lo, hi :: PowerBrackets(pow, raw, lo, hi) && hi - lo == width && k == (lo + hi) / 2.0)
  }

  lemma PowerFoundNearRoot(pow: (real, real) -> real, raw: seq<real>, width: real, k: real, root: real)
    requires IsPower(pow) && Prices(raw) && PowerFound(pow, raw, width, k) && Sum(Powers(pow, root, raw)) == 1.0
    ensures Absolute(Sum(Powers(pow, k, raw)) - 1.0) < TOLERANCE || Absolute(k - root) <= width
  {
    hide Sum, Powers;
    if !(Absolute(Sum(Powers(pow, k, raw)) - 1.0) < TOLERANCE) {
      var lo, hi :| PowerBrackets(pow, raw, lo, hi) && hi - lo == width && k == (lo + hi) / 2.0;
      if root < lo { PowersFall(pow, root, lo, raw); }
      if hi < root { PowersFall(pow, hi, root, raw); }
    }
  }

  lemma PowerHalving(pow: (real, real) -> real, raw: seq<real>, lo: real, hi: real, width: real)
    requires IsPower(pow) && Prices(raw) && PowerBrackets(pow, raw, lo, hi)
    ensures var mid := (lo + hi) / 2.0;
            && (Sum(Powers(pow, mid, raw)) > 1.0 ==> PowerBrackets(pow, raw, mid, hi))
            && (Sum(Powers(pow, mid, raw)) <= 1.0 ==> PowerBrackets(pow, raw, lo, mid))
            && (Absolute(Sum(Powers(pow, mid, raw)) - 1.0) < TOLERANCE ==> PowerFound(pow, raw, width, mid))
  {
    hide Sum, Powers;
  }

  lemma PowerExhausted(pow: (real, real) -> real, raw: seq<real>, lo: real, hi: real)
    requires PowerBrackets(pow, raw, lo, hi)
    ensures PowerFound(pow, raw, hi - lo, (lo + hi) / 2.0)
  {
    hide Sum, Powers;
    var width, k := hi - lo, (lo + hi) / 2.0;
    assert PowerBrackets(pow, raw, lo, hi) && hi - lo == width && k == (lo + hi) / 2.0;
  }

  method SearchExponent(raw: seq<real>, from: real, upTo: real, pow: (real, real) -> real) returns (k: real)
    requires IsPower(pow) && Prices(raw) && PowerBrackets(pow, raw, from, upTo)
    ensures PowerFound(pow, raw, Halved(upTo - from, MAX_ITERATIONS), k)
  {
    hide Sum, Powers, PowerBrackets, PowerFound, IsPower, Prices;
    var lo, hi := from, upTo;
    var i := 0;
    while i < MAX_ITERATIONS
      invariant 0 <= i <= MAX_ITERATIONS
      invariant PowerBrackets(pow, raw, lo, hi) && hi - lo == Halved(upTo - from, i)
    {
      PowerHalving(pow, raw, lo, hi, Halved(upTo - from, MAX_ITERATIONS));
      var mid := (lo + hi) / 2.0;
      var value := Sum(Powers(pow, mid, raw)) - 1.0;
      if Absolute(value) < TOLERANCE { return (lo + hi) / 2.0; }
      if value > 0.0 { lo := mid; } else { hi := mid; }
      i := i + 1;
    }
    PowerExhausted(pow, raw, lo, hi);
    k := (lo + hi) / 2.0;
  }

  lemma ArePrices(odds: seq<real>)
    requires Refusal(odds).None?
    ensures Prices(Raw(odds))
  {
  }

  lemma PowersOrdered(odds: seq<real>, pow: (real, real) -> real, k: real)
    requires IsPower(pow) && Refusal(odds).None? && k > 0.0
    ensures Sum(Powers(pow, k, Raw(odds))) > 0.0
    ensures Distribution(Rescaled(Powers(pow, k, Raw(odds)))) && SameOrder(odds, Rescaled(Powers(pow, k, Raw(odds))))
  {
    var raw, out := Raw(odds), Powers(pow, k, Raw(odds));
    forall i, j | 0 <= i < |odds| && 0 <= j < |odds| ensures raw[i] > raw[j] <==> out[i] > out[j] {
      if raw[j] > raw[i] { assert pow(raw[i], k) < pow(raw[j], k); }
    }
    OrderedAgainstOdds(odds, out);
  }

  // A book already at one is returned as it is; any other is solved, unless its
  // exponent lies outside the interval searched.
  method DevigPower(odds: seq<real>, pow: (real, real) -> real) returns (r: Result<seq<real>, DevigError>, ghost k: real)
    requires IsPower(pow)
    ensures Refusal(odds).Some? ==> r == Raised(Refusal(odds).value)
    ensures Refusal(odds).None? ==>
              var raw, total := Raw(odds), Sum(Raw(odds));
              if Absolute(total - 1.0) < TOLERANCE then r == Ok(raw) && RaisedAlike(odds, r.value, pow, k)
              else if !PowerBrackets(pow, raw, PowerLo(total), PowerHi(total)) then r == Raised(NoBracket)
              else && r.Ok? && Distribution(r.value) && SameOrder(odds, r.value) && RaisedAlike(odds, r.value, pow, k)
  {
    hide Sum, Powers, PowerBrackets, PowerFound, IsPower, Rescaled, Refusal, Distribution, SameOrder, Prices, Raw;
    hide RaisedAlike, Proportional;
    k := 1.0;
    var checked := CheckBook(odds);
    if checked.Raised? { return Raised(checked.error), k; }
    ArePrices(odds);
    var raw := checked.value;
    var total := Sum(raw);
    if Absolute(total - 1.0) < TOLERANCE {
      RawRaised(odds, pow);
      return Ok(raw), k;
    }
    var lo, hi := PowerLo(total), PowerHi(total);
    var a, b := Sum(Powers(pow, lo, raw)) - 1.0, Sum(Powers(pow, hi, raw)) - 1.0;
    PowerGuard(pow, raw, total, a, b);
    if Mul(a, b) > 0.0 { return Raised(NoBracket), k; }
    var found := SearchExponent(raw, lo, hi, pow);
    k := found;
    assert found > 0.0 by { FoundPositive(pow, raw, Halved(hi - lo, MAX_ITERATIONS), found); }
    PowersOrdered(odds, pow, found);
    RescaledProportional(Powers(pow, found, raw));
    RescaledRaised(odds, pow, found, Rescaled(Powers(pow, found, raw)));
    r := Ok(Rescaled(Powers(pow, found, raw)));
  }

  lemma RescaledRaised(odds: seq<real>, pow: (real, real) -> real, k: real, probs: seq<real>)
    requires Accepted(odds)
    requires Absolute(Sum(Raw(odds)) - 1.0) >= TOLERANCE
    requires var total := Sum(Raw(odds));
             PowerFound(pow, Raw(odds), Halved(PowerHi(total) - PowerLo(total), MAX_ITERATIONS), k)
    requires Proportional(probs, Powers(pow, k, Raw(odds)))
    ensures RaisedAlike(odds, probs, pow, k)
  {
    hide Mul, Sum, PowerFound, Halved, Absolute;
    var powers := Powers(pow, k, Raw(odds));
    forall i | 0 <= i < |odds| ensures powers[i] == pow(1.0 / odds[i], k) {}
    forall i, j | 0 <= i < |odds| && 0 <= j < |odds|
      ensures Mul(probs[i], pow(1.0 / odds[j], k)) == Mul(probs[j], pow(1.0 / odds[i], k))
    {
      assert Mul(probs[i], powers[j]) == Mul(probs[j], powers[i]);
    }
  }

  lemma RawRaised(odds: seq<real>, pow: (real, real) -> real)
    requires IsPower(pow) && Refusal(odds).None? && Absolute(Sum(Raw(odds)) - 1.0) < TOLERANCE
    ensures RaisedAlike(odds, Raw(odds), pow, 1.0)
  {
    hide Mul, Sum;
    var raw := Raw(odds);
    FirstPower(pow, raw);
    forall i, j | 0 <= i < |odds| && 0 <= j < |odds|
      ensures Mul(raw[i], pow(1.0 / odds[j], 1.0)) == Mul(raw[j], pow(1.0 / odds[i], 1.0))
    {
      assert 0.0 < raw[i] < 1.0 && 0.0 < raw[j] < 1.0;
      Commutes(raw[i], raw[j]);
    }
  }

  lemma FoundPositive(pow: (real, real) -> real, raw: seq<real>, width: real, k: real)
    requires PowerFound(pow, raw, width, k)
    ensures k > 0.0
  {
  }

  // ----- the dispatcher ------------------------------------------------------------------

  // What every accepted answer is.
  ghost predicate Usable(odds: seq<real>, probs: seq<real>) {
    && |probs| == |odds|
    && (forall i :: 0 <= i < |probs| ==> 0.0 < probs[i] < 1.0)
    && Absolute(Sum(probs) - 1.0) <= 0.000000001
    && SameOrder(odds, probs)
  }

  // What each method answers to a book that is not refused: when it fails, and
  // what it keeps of the prices when it does not.
  ghost predicate Answers(odds: seq<real>, how: DevigMethod, sqrt: real -> real, pow: (real, real) -> real,
                          r: Result<seq<real>, DevigError>)
    requires Accepted(odds)
  {
    var raw, total := Raw(odds), Sum(Raw(odds));
    match how
    case Multiplicative => r.Ok? && CutAlike(odds, r.value)
    case Additive =>
      if exists i :: 0 <= i < |odds| && raw[i] <= (total - 1.0) / |odds| as real then r == Raised(NonPositive)
      else r.Ok? && LoweredAlike(odds, r.value)
    case Power =>
      if Absolute(total - 1.0) >= TOLERANCE && !PowerBrackets(pow, raw, PowerLo(total), PowerHi(total))
      then r == Raised(NoBracket)
      else r.Ok? && exists k :: RaisedAlike(odds, r.value, pow, k)
    case ShinModel =>
      r.Ok? && if total <= 1.0 + TOLERANCE then CutAlike(odds, r.value)
               else exists z, p :: ShinAlike(odds, r.value, sqrt, z, p)
  }

  lemma DistributionUsable(odds: seq<real>, probs: seq<real>)
    requires Distribution(probs) && SameOrder(odds, probs)
    ensures Usable(odds, probs)
  {
  }

  // A last check follows whichever method was used; it never refuses anything.
  method DevigBook(odds: seq<real>, how: DevigMethod, sqrt: real -> real, pow: (real, real) -> real)
    returns (r: Result<seq<real>, DevigError>)
    requires IsSqrt(sqrt) && IsPower(pow)
    ensures r != Raised(NotADistribution)
    ensures Refusal(odds).Some? ==> r == Raised(Refusal(odds).value)
    ensures r.Ok? ==> Usable(odds, r.value)
    ensures Refusal(odds).None? ==> Accepted(odds) && Answers(odds, how, sqrt, pow, r)
  {
    r := ByMethod(odds, how, sqrt, pow);
    if r.Raised? { return; }
    hide Sum, Refusal, SameOrder, Answers;
    if i :| 0 <= i < |r.value| && !(0.0 < r.value[i] < 1.0) { return Raised(NotADistribution); }
    if Absolute(Sum(r.value) - 1.0) > 0.000000001 { return Raised(NotADistribution); }
  }

  method ByMethod(odds: seq<real>, how: DevigMethod, sqrt: real -> real, pow: (real, real) -> real)
    returns (r: Result<seq<real>, DevigError>)
    requires IsSqrt(sqrt) && IsPower(pow)
    ensures r != Raised(NotADistribution)
    ensures Refusal(odds).Some? ==> r == Raised(Refusal(odds).value)
    ensures r.Ok? ==> Usable(odds, r.value)
    ensures Refusal(odds).None? ==> Accepted(odds) && Answers(odds, how, sqrt, pow, r)
  {
    NotItsReason(odds);
    hide Sum, Refusal, SameOrder, Distribution, Usable, Rescaled, Raw;
    hide Found, Probabilities, PowerFound, PowerBrackets, Powers;
    match how {
      case Multiplicative => r := DevigMultiplicative(odds);
      case Additive => r := DevigAdditive(odds);
      case Power =>
        ghost var k;
        r, k := DevigPower(odds, pow);
        if r.Ok? && Absolute(Sum(Raw(odds)) - 1.0) < TOLERANCE { RawUsable(odds); return; }
      case ShinModel =>
        ghost var z;
        r, z := DevigShin(odds, sqrt);
    }
    if r.Ok? { DistributionUsable(odds, r.value); }
  }

  lemma NotItsReason(odds: seq<real>)
    ensures Refusal(odds) != Some(NotADistribution)
    ensures Refusal(odds).None? ==> (|odds| >= 2 && forall i :: 0 <= i < |odds| ==> odds[i] > 1.0)
  {
  }

  lemma RawUsable(odds: seq<real>)
    requires Refusal(odds).None? && Absolute(Sum(Raw(odds)) - 1.0) < TOLERANCE
    ensures Usable(odds, Raw(odds))
  {
    hide Sum;
    forall i, j | 0 <= i < |odds| && 0 <= j < |odds| ensures odds[i] < odds[j] <==> Raw(odds)[i] > Raw(odds)[j] {
      RawOrder(odds, i, j);
    }
  }
}
