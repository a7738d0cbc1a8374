// The Challenge aggregate: every transition goes through a method that moves its
// fields, and each is the move it is named after.
module ChallengeObject {
  import opened Results
  import opened Montante

  datatype ChallengeError = WrongState | NoRungLeft | OutsideRules | OddsTooLow | NotASettlement

  class Challenge {
    const config: Config
    var state: State
    var bank: int
    var steps: seq<Step>

    ghost function View(): Progress
      reads this
    {
      Progress(config, state, bank, steps)
    }

    constructor (config: Config)
      requires Sensible(config)
      ensures View() == Created(config)
    {
      this.config := config;
      state, bank, steps := Draft, ToCents(config.initialBank), [];
    }

    constructor Stored(config: Config, state: State, bank: int, steps: seq<Step>)
      ensures View() == Progress(config, state, bank, steps)
    {
      this.config := config;
      this.state, this.bank, this.steps := state, bank, steps;
    }

    method NextStakeCents() returns (stake: int)
      ensures stake == StakeFor(config, bank)
    {
      stake := Share(bank, config.fraction);
    }

    method ActivateRun() returns (r: Result<(), ChallengeError>)
      modifies this
      ensures View() == Do(old(View()), Activate)
      ensures r.Ok? <==> Legal(old(View()), Activate)
    {
      if state != Draft { return Raised(WrongState); }
      state := WaitingForCandidate;
      r := Ok(());
    }

    // One rung more, at the stake the bank calls for - or a refusal with its reason.
    method ProposeCandidate(c: Candidate) returns (r: Result<Step, ChallengeError>)
      modifies this
      ensures View() == Do(old(View()), Propose(c))
      ensures r.Ok? <==> Legal(old(View()), Propose(c))
      ensures r.Ok? <==>
                && old(state) == WaitingForCandidate && |old(steps)| < config.maxSteps
                && config.minOdds <= c.odds <= config.maxOdds
                && (c.sport in config.sports || config.sports == [])
                && (c.market in config.markets || config.markets == [])
      ensures r.Ok? ==> r.value == Last(steps) && r.value == Proposed(old(View()), c)
      ensures r.Ok? ==>
                && r.value.index == |old(steps)| + 1 && r.value.bankBefore == bank == old(bank)
                && r.value.detectedOdds == c.odds && r.value.acceptedOdds.None?
                && r.value.candidate == Some(c.id) && r.value.probability == Some(c.probability)
                && r.value.outcome == Pending && r.value.bankAfter.None?
      ensures r == Raised(WrongState) <==> old(state) != WaitingForCandidate
      ensures r == Raised(NoRungLeft) <==> old(state) == WaitingForCandidate && |old(steps)| >= config.maxSteps
      ensures r == Raised(NoRungLeft) ==> state == Stopped
      ensures r.Raised? ==> r.error == WrongState || r.error == NoRungLeft || r.error == OutsideRules
    {
      if state != WaitingForCandidate { return Raised(WrongState); }
      if |steps| >= config.maxSteps {
        StopRun();
        return Raised(NoRungLeft);
      }
      if !Admits(config, c) { return Raised(OutsideRules); }
      var stake := NextStakeCents();
      var step := Step(|steps| + 1, bank, stake, c.odds, None, Some(c.id), Some(c.probability), Pending, None);
      steps := steps + [step];
      state := AwaitingConfirmation;
      r := Ok(step);
    }

    // The last rung gets the price obtained beside the one it was proposed at.
    method ConfirmBet(acceptedOdds: real) returns (r: Result<Step, ChallengeError>)
      requires Sound(View())
      modifies this
      ensures View() == Do(old(View()), Confirm(acceptedOdds))
      ensures r.Ok? <==> Legal(old(View()), Confirm(acceptedOdds))
      ensures r.Ok? <==> old(state) == AwaitingConfirmation && acceptedOdds > 1.0
      ensures r.Raised? ==> r.error == if old(state) != AwaitingConfirmation then WrongState else OddsTooLow
      ensures r.Ok? ==>
                && r.value == Last(steps) && old(steps) != []
                && r.value == Last(old(steps)).(acceptedOdds := Some(acceptedOdds))
    {
      if state != AwaitingConfirmation { return Raised(WrongState); }
      if acceptedOdds <= 1.0 { return Raised(OddsTooLow); }
      var step := steps[|steps| - 1].(acceptedOdds := Some(acceptedOdds));
      steps := steps[|steps| - 1 := step];
      state := AwaitingResult;
      r := Ok(step);
    }

    // Closes the last rung with the bank its outcome gives, or refuses and changes
    // nothing.
    method SettleBet(outcome: Outcome) returns (r: Result<Step, ChallengeError>)
      requires Sound(View())
      modifies this
      ensures View() == Do(old(View()), Settle(outcome))
      ensures r.Ok? <==> Legal(old(View()), Settle(outcome))
      ensures r.Ok? <==> old(state) == AwaitingResult && outcome != Pending
      ensures r.Raised? ==> r.error == if old(state) != AwaitingResult then WrongState else NotASettlement
      ensures r.Ok? ==> r.value == Last(steps) && r.value.bankAfter == Some(bank)
      // paid at the price accepted
      ensures r.Ok? ==>
                && old(steps) != [] && Last(old(steps)).acceptedOdds.Some?
                && Pays(Last(old(steps)).bankBefore, Last(old(steps)).stake, Last(old(steps)).acceptedOdds.value,
                        outcome, bank)
      // and where that leads
      ensures r.Ok? ==> Led(bank, outcome)
    {
      if state != AwaitingResult { return Raised(WrongState); }
      if outcome == Pending { return Raised(NotASettlement); }
      RungAwaited();
      hide BankAfter, StakeFor, ToCents, Ladder, Sensible, Pays;
      SettlementPays(Last(steps).bankBefore, Last(steps).stake, OddsOf(Last(steps)), outcome);
      var step := steps[|steps| - 1];
      var after := BankAfterBet(step, outcome);
      var settled := step.(outcome := outcome, bankAfter := Some(after));
      steps := steps[|steps| - 1 := settled];
      bank := after;
      ApplyStopRules(outcome);
      r := Ok(settled);
    }

    // The target first, then the loss limit and the policy on losses, then the
    // number of rungs.
    ghost predicate Led(bank: int, outcome: Outcome)
      reads this
    {
      var reached := bank >= ToCents(config.targetBank);
      var lost := bank <= ToCents(config.maxLoss)
                  || (config.stopOnFirstLoss && (outcome == Lost || outcome == HalfLost));
      && (state == TargetReached <==> reached)
      && (state == RunLost <==> !reached && lost)
      && (state == Stopped <==> !reached && !lost && |steps| >= config.maxSteps)
      && (state == WaitingForCandidate <==> !reached && !lost && |steps| < config.maxSteps)
    }

    lemma RungAwaited()
      requires Sound(View()) && state == AwaitingResult
      ensures steps != [] && Last(steps).acceptedOdds.Some?
      ensures Last(steps).acceptedOdds.value > 1.0 && Last(steps).stake >= 0
    {
      hide StakeFor;
      assert StepOk(config, Last(steps));
      StakeWithinBank(config, Last(steps).bankBefore);
    }

    method BankAfterBet(step: Step, outcome: Outcome) returns (after: int)
      requires outcome != Pending
      ensures after == BankAfter(step.bankBefore, step.stake, OddsOf(step), outcome)
    {
      hide Share;
      var odds := if step.acceptedOdds.Some? then step.acceptedOdds.value else step.detectedOdds;
      var stake, before := step.stake, step.bankBefore;
      match outcome {
        case Won => after := before - stake + Share(stake, odds);
        case HalfWon =>
          var half := stake / 2;
          after := before - stake + half + Share(half, odds);
        case Lost => after := before - stake;
        case HalfLost => after := before - stake + (stake - stake / 2);
        case _ => after := before;
      }
    }

    method ApplyStopRules(outcome: Outcome)
      modifies this`state
      ensures state == Verdict(config, bank, |steps|, outcome)
    {
      if bank >= ToCents(config.targetBank) {
        state := TargetReached;
      } else if bank <= ToCents(config.maxLoss) {
        state := RunLost;
      } else if (outcome == Lost || outcome == HalfLost) && config.stopOnFirstLoss {
        state := RunLost;
      } else if |steps| >= config.maxSteps {
        state := Stopped;
      } else {
        state := WaitingForCandidate;
      }
    }

    method StopRun()
      modifies this`state
      ensures View() == Do(old(View()), Stop)
    {
      state := Stopped;
    }

    method CancelRun()
      modifies this`state
      ensures View() == Do(old(View()), Cancel)
    {
      state := RunCancelled;
    }
  }

  // ----- choosing a candidate -------------------------------------------------------

  // Higher conservative value first; a candidate without one comes last.
  predicate Beats(a: Candidate, b: Candidate) {
    a.conservativeEv.Some? && (b.conservativeEv.Some? ==> a.conservativeEv.value > b.conservativeEv.value)
  }

  // A value - possibly none at all - against the one chosen, which is at least as
  // high, and strictly so for an earlier candidate.
  ghost predicate NoBetter(value: Option<real>, chosen: Option<real>, earlier: bool) {
    && (value.Some? ==> chosen.Some? && value.value <= chosen.value)
    && (earlier ==> chosen.Some? && (value.Some? ==> value.value < chosen.value))
  }

  // At most one candidate, the first of the best among those the rules admit;
  // none at all rather than one the rules refuse.
  method ProposeStep(challenge: Challenge, candidates: seq<Candidate>) returns (r: Option<Result<Step, ChallengeError>>)
    modifies challenge
    ensures r.None? <==>
              old(challenge.state) != WaitingForCandidate
              || forall c :: c in candidates ==> !Admits(challenge.config, c)
    ensures r.None? ==> challenge.View() == old(challenge.View())
    ensures r.Some? ==>
              exists k ::
                && 0 <= k < |candidates| && Admits(challenge.config, candidates[k])
                && (forall j :: 0 <= j < |candidates| && Admits(challenge.config, candidates[j]) ==>
                      NoBetter(candidates[j].conservativeEv, candidates[k].conservativeEv, j < k))
                && challenge.View() == Do(old(challenge.View()), Propose(candidates[k]))
  {
    if challenge.state != WaitingForCandidate { return None; }
    var best := -1;
    var i := 0;
    while i < |candidates|
      invariant 0 <= i <= |candidates| && -1 <= best < i
      invariant best == -1 ==> forall j :: 0 <= j < i ==> !Admits(challenge.config, candidates[j])
      invariant best >= 0 ==>
                  && Admits(challenge.config, candidates[best])
                  && forall j :: 0 <= j < i && Admits(challenge.config, candidates[j]) ==>
                       !Beats(candidates[j], candidates[best])
                       && (j < best ==> Beats(candidates[best], candidates[j]))
    {
      if Admits(challenge.config, candidates[i]) && (best == -1 || Beats(candidates[i], candidates[best])) {
        best := i;
      }
      i := i + 1;
    }
    if best == -1 { return None; }
    assert candidates[best] in candidates;
    var proposed := challenge.ProposeCandidate(candidates[best]);
    r := Some(proposed);
  }
}
