// The Challenge: a ladder of single bets in integer cents, each rung staking a
// fixed fraction of the current bank.
module Montante {
  import opened Results
  import opened Products

  // ----- money ---------------------------------------------------------------------

  // Half away from zero.
  function HalfUp(x: real): int {
    if x >= 0.0 then (x + 0.5).Floor else -((-x + 0.5).Floor)
  }

  function ToCents(amount: real): int {
    HalfUp(amount * 100.0)
  }

  function FromCents(cents: int): real {
    cents as real / 100.0
  }

  lemma HalfUpMonotone(x: real, y: real)
    requires x <= y
    ensures HalfUp(x) <= HalfUp(y)
  {
  }

  lemma HalfUpIsNearest(x: real)
    requires x >= 0.0
    ensures HalfUp(x) as real - 0.5 <= x < HalfUp(x) as real + 0.5
  {
  }

  // ----- configuration ---------------------------------------------------------------

  datatype Config = Config(initialBank: real, targetBank: real, minOdds: real, maxOdds: real, maxLoss: real,
                           fraction: real, acknowledged: bool, stopOnFirstLoss: bool, maxSteps: int,
                           sports: seq<string>, markets: seq<string>)

  const HIGH_RISK_FRACTION: real := 0.5

  // What the constructor accepts.
  predicate Sensible(c: Config) {
    && c.initialBank > 0.0
    && c.targetBank > c.initialBank
    && 0.0 < c.fraction <= 1.0
    && 1.0 < c.minOdds < c.maxOdds
    && 0.0 <= c.maxLoss < c.initialBank
    && (c.fraction > HIGH_RISK_FRACTION ==> c.acknowledged)
  }

  // ----- steps ---------------------------------------------------------------------

  datatype Outcome = Won | Lost | Void | HalfWon | HalfLost | Cancelled | Postponed | Pending

  predicate Losing(o: Outcome) {
    o == Lost || o == HalfLost
  }

  predicate Neutral(o: Outcome) {
    o == Void || o == Cancelled || o == Postponed
  }

  datatype Candidate = Candidate(id: string, odds: real, sport: string, market: string, probability: real,
                                 conservativeEv: Option<real>)

  datatype Step = Step(index: nat, bankBefore: int, stake: int, detectedOdds: real, acceptedOdds: Option<real>,
                       candidate: Option<string>, probability: Option<real>, outcome: Outcome, bankAfter: Option<int>)

  predicate Settled(s: Step) {
    s.outcome != Pending
  }

  function OddsOf(s: Step): real {
    if s.acceptedOdds.Some? then s.acceptedOdds.value else s.detectedOdds
  }

  // An amount scaled in the currency and brought back to cents.
  function Share(cents: int, factor: real): int {
    ToCents(FromCents(cents) * factor)
  }

  // The stake is a function of the bank alone: it cannot chase a loss.
  function StakeFor(config: Config, bank: int): int {
    Share(bank, config.fraction)
  }

  function Returned(stake: int, odds: real): int {
    Share(stake, odds)
  }

  function BankAfter(bank: int, stake: int, odds: real, o: Outcome): int
    requires o != Pending
  {
    match o
    case Won => bank - stake + Returned(stake, odds)
    case HalfWon => bank - stake + stake / 2 + Returned(stake / 2, odds)
    case Lost => bank - stake
    case HalfLost => bank - stake + (stake - stake / 2)
    case _ => bank
  }

  // ----- the state machine --------------------------------------------------------------

  datatype State = Draft | WaitingForCandidate | AwaitingConfirmation | AwaitingResult | TargetReached
                 | Stopped | RunLost | RunCancelled

  predicate Terminal(s: State) {
    s == TargetReached || s == Stopped || s == RunLost || s == RunCancelled
  }

  datatype Progress = Progress(config: Config, state: State, bank: int, steps: seq<Step>)

  datatype Move =
    | Activate
    | Propose(candidate: Candidate)
    | Confirm(odds: real)
    | Settle(outcome: Outcome)
    | Stop
    | Cancel

  predicate Admits(config: Config, c: Candidate) {
    && config.minOdds <= c.odds <= config.maxOdds
    && (config.sports == [] || c.sport in config.sports)
    && (config.markets == [] || c.market in config.markets)
  }

  predicate Legal(p: Progress, m: Move) {
    match m
    case Activate => p.state == Draft
    case Propose(c) => p.state == WaitingForCandidate && |p.steps| < p.config.maxSteps && Admits(p.config, c)
    case Confirm(odds) => p.state == AwaitingConfirmation && p.steps != [] && odds > 1.0
    case Settle(o) => p.state == AwaitingResult && p.steps != [] && o != Pending
    case Stop => true
    case Cancel => true
  }

  function Last(steps: seq<Step>): Step
    requires steps != []
  {
    steps[|steps| - 1]
  }

  // Where a settlement leads: target, then loss limit, then first loss, then the
  // number of rungs.
  function Verdict(config: Config, bank: int, rungs: int, o: Outcome): State {
    if bank >= ToCents(config.targetBank) then TargetReached
    else if bank <= ToCents(config.maxLoss) then RunLost
    else if Losing(o) && config.stopOnFirstLoss then RunLost
    else if rungs >= config.maxSteps then Stopped
    else WaitingForCandidate
  }

  function Proposed(p: Progress, c: Candidate): Step {
    Step(|p.steps| + 1, p.bank, StakeFor(p.config, p.bank), c.odds, None, Some(c.id), Some(c.probability), Pending, None)
  }

  function SettledStep(s: Step, o: Outcome): Step
    requires o != Pending
  {
    s.(outcome := o, bankAfter := Some(BankAfter(s.bankBefore, s.stake, OddsOf(s), o)))
  }

  // What a move does; an illegal one raises and changes nothing - except that a
  // proposal past the last rung stops the run before it raises.
  function Do(p: Progress, m: Move): Progress {
    if !Legal(p, m) then
      if m.Propose? && p.state == WaitingForCandidate && |p.steps| >= p.config.maxSteps then p.(state := Stopped) else p
    else
      match m
      case Activate => p.(state := WaitingForCandidate)
      case Propose(c) => p.(state := AwaitingConfirmation, steps := p.steps + [Proposed(p, c)])
      case Confirm(odds) =>
        p.(state := AwaitingResult, steps := p.steps[|p.steps| - 1 := Last(p.steps).(acceptedOdds := Some(odds))])
      case Settle(o) =>
        var s := SettledStep(Last(p.steps), o);
        Progress(p.config, Verdict(p.config, s.bankAfter.value, |p.steps|, o), s.bankAfter.value,
                 p.steps[|p.steps| - 1 := s])
      case Stop => p.(state := Stopped)
      case Cancel => p.(state := RunCancelled)
  }

  function Created(config: Config): Progress {
    Progress(config, Draft, ToCents(config.initialBank), [])
  }

  function Play(p: Progress, moves: seq<Move>): Progress
    decreases |moves|
  {
    if moves == [] then p else Do(Play(p, moves[..|moves| - 1]), moves[|moves| - 1])
  }

  // ----- what one settlement can do to the bank -------------------------------------------

  // A number of cents scaled by a fraction or a price, before rounding.
  function Times(cents: int, factor: real): real {
    Mul(cents as real, factor)
  }

  lemma ShareIs(cents: int, factor: real)
    ensures Share(cents, factor) == HalfUp(Times(cents, factor))
  {
    assert cents as real / 100.0 * factor * 100.0 == cents as real * factor;
  }

  lemma TimesMonotone(less: int, more: int, factor: real)
    requires less <= more && factor >= 0.0
    ensures Times(less, factor) <= Times(more, factor)
  {
    hide Mul;
    Commutes(less as real, factor);
    Commutes(more as real, factor);
    Scale(factor, less as real, more as real);
  }

  lemma TimesRange(cents: nat, factor: real)
    requires factor >= 0.0
    ensures Times(cents, factor) >= 0.0
    ensures factor >= 1.0 ==> Times(cents, factor) >= cents as real
    ensures factor <= 1.0 ==> Times(cents, factor) <= cents as real
  {
    hide Mul;
    Positive(cents as real, factor);
    Units(cents as real);
    if factor >= 1.0 { Scale(cents as real, 1.0, factor); } else { Scale(cents as real, factor, 1.0); }
  }

  // The nearest cent to the fraction of the bank, the upper one half way; never
  // more than the bank.
  lemma StakeWithinBank(config: Config, bank: nat)
    requires Sensible(config)
    ensures 0 <= StakeFor(config, bank) <= bank
    ensures Times(bank, config.fraction) - 0.5 < StakeFor(config, bank) as real <= Times(bank, config.fraction) + 0.5
  {
    hide Times, Share;
    ShareIs(bank, config.fraction);
    TimesRange(bank, config.fraction);
    HalfUpIsNearest(Times(bank, config.fraction));
    HalfUpMonotone(Times(bank, config.fraction), bank as real);
  }

  lemma StakeMonotone(config: Config, less: nat, more: nat)
    requires Sensible(config) && less <= more
    ensures StakeFor(config, less) <= StakeFor(config, more)
  {
    hide Times, Share;
    ShareIs(less, config.fraction);
    ShareIs(more, config.fraction);
    TimesMonotone(less, more, config.fraction);
    HalfUpMonotone(Times(less, config.fraction), Times(more, config.fraction));
  }

  lemma ReturnedAtLeast(stake: nat, odds: real)
    requires odds > 1.0
    ensures Returned(stake, odds) >= stake
  {
    hide Times, Share;
    ShareIs(stake, odds);
    TimesRange(stake, odds);
    HalfUpMonotone(stake as real, Times(stake, odds));
  }

  // What an outcome pays, to the nearest cent: a win the stake at the price, a half
  // win half the stake back and the other half at the price, a half loss half of it
  // back.
  ghost predicate Pays(bank: int, stake: int, odds: real, o: Outcome, after: int) {
    match o
    case Won => IsNearest((bank - stake) as real + Mul(stake as real, odds), after)
    case HalfWon => IsNearest((bank - stake + stake / 2) as real + Mul((stake / 2) as real, odds), after)
    case Lost => after == bank - stake
    case HalfLost => after == bank - stake / 2
    case Void => after == bank
    case Cancelled => after == bank
    case Postponed => after == bank
    case Pending => false
  }

  ghost predicate IsNearest(exact: real, cents: int) {
    exact - 0.5 < cents as real <= exact + 0.5
  }

  lemma SettlementPays(bank: int, stake: nat, odds: real, o: Outcome)
    requires odds > 1.0 && o != Pending
    ensures Pays(bank, stake, odds, o, BankAfter(bank, stake, odds, o))
  {
    hide Share, HalfUp, Mul;
    ShareIs(stake, odds);
    ShareIs(stake / 2, odds);
    TimesRange(stake, odds);
    TimesRange(stake / 2, odds);
    HalfUpIsNearest(Times(stake, odds));
    HalfUpIsNearest(Times(stake / 2, odds));
  }

  // A bank never goes negative; only a win, whole or half, can raise it, and only
  // a loss, whole or half, can cost more than one cent.
  lemma SettlementRange(bank: nat, stake: nat, odds: real, o: Outcome)
    requires stake <= bank && odds > 1.0 && o != Pending
    ensures BankAfter(bank, stake, odds, o) >= bank - stake >= 0
    ensures o == Won ==> BankAfter(bank, stake, odds, o) >= bank
    ensures o == HalfWon ==> BankAfter(bank, stake, odds, o) >= bank - stake % 2
    ensures Losing(o) ==> BankAfter(bank, stake, odds, o) <= bank
    ensures Neutral(o) ==> BankAfter(bank, stake, odds, o) == bank
  {
    ReturnedAtLeast(stake, odds);
    ReturnedAtLeast(stake / 2, odds);
  }

  // A half win lowers the bank exactly when the stake is odd and half of it earns
  // less than half a cent; then it costs exactly one cent.
  lemma HalfWinCostsACent(bank: nat, stake: nat, odds: real)
    requires stake <= bank && odds > 1.0
    ensures BankAfter(bank, stake, odds, HalfWon) < bank
            <==> stake % 2 == 1 && Times(stake / 2, odds) < (stake / 2) as real + 0.5
    ensures BankAfter(bank, stake, odds, HalfWon) < bank ==> BankAfter(bank, stake, odds, HalfWon) == bank - 1
  {
    hide Times, Share;
    var half := stake / 2;
    ShareIs(half, odds);
    ReturnedAtLeast(half, odds);
    TimesRange(half, odds);
  }

  // A stake of one cent is such a stake at any price.
  lemma HalfWinOnOneCent(bank: nat, odds: real)
    requires bank >= 1 && odds > 1.0
    ensures BankAfter(bank, 1, odds, HalfWon) == bank - 1
  {
    hide Share;
    ShareIs(0, odds);
    hide Mul;
    Units(odds);
  }

  // No settlement that loses is followed by a higher stake.
  lemma LossNeverRaisesStake(config: Config, bank: nat, odds: real, o: Outcome)
    requires Sensible(config) && odds > 1.0 && Losing(o)
    ensures StakeFor(config, BankAfter(bank, StakeFor(config, bank), odds, o)) <= StakeFor(config, bank)
  {
    StakeWithinBank(config, bank);
    SettlementRange(bank, StakeFor(config, bank), odds, o);
    StakeMonotone(config, BankAfter(bank, StakeFor(config, bank), odds, o), bank);
  }

  // ----- what every move keeps -------------------------------------------------------------

  ghost predicate StepOk(config: Config, s: Step) {
    && s.bankBefore >= 0
    && s.stake == StakeFor(config, s.bankBefore)
    && s.detectedOdds > 1.0
    && (s.acceptedOdds.Some? ==> s.acceptedOdds.value > 1.0)
    && (Settled(s) ==>
          && s.acceptedOdds.Some?
          && s.bankAfter == Some(BankAfter(s.bankBefore, s.stake, OddsOf(s), s.outcome))
          && s.bankAfter.value >= 0)
    && (!Settled(s) ==> s.bankAfter.None?)
  }

  // The bank the steps add up to.
  function BankOf(config: Config, steps: seq<Step>): int {
    if steps == [] then ToCents(config.initialBank)
    else if Last(steps).bankAfter.Some? then Last(steps).bankAfter.value
    else Last(steps).bankBefore
  }

  // One rung hands its bank to the next; with the default policy a lost rung is
  // the last.
  ghost predicate Chained(config: Config, steps: seq<Step>) {
    && (steps != [] ==> steps[0].bankBefore == ToCents(config.initialBank))
    && forall i :: 0 <= i < |steps| - 1 ==>
         && Settled(steps[i])
         && steps[i].bankAfter == Some(steps[i + 1].bankBefore)
         && (config.stopOnFirstLoss ==> !Losing(steps[i].outcome))
  }

  ghost predicate Ladder(config: Config, steps: seq<Step>) {
    && Chained(config, steps)
    && forall i :: 0 <= i < |steps| ==> steps[i].index == i + 1 && StepOk(config, steps[i])
  }

  ghost predicate StateOk(p: Progress) {
    match p.state
    case Draft => p.steps == []
    case WaitingForCandidate =>
      p.steps == [] ||
      (&& Settled(Last(p.steps))
       && ToCents(p.config.maxLoss) < p.bank < ToCents(p.config.targetBank)
       && |p.steps| < p.config.maxSteps
       && (p.config.stopOnFirstLoss ==> !Losing(Last(p.steps).outcome)))
    case AwaitingConfirmation => p.steps != [] && !Settled(Last(p.steps))
    case AwaitingResult => p.steps != [] && !Settled(Last(p.steps)) && Last(p.steps).acceptedOdds.Some?
    case TargetReached => p.steps != [] && Settled(Last(p.steps)) && p.bank >= ToCents(p.config.targetBank)
    case RunLost =>
      && p.steps != [] && Settled(Last(p.steps))
      && (p.bank <= ToCents(p.config.maxLoss) || (p.config.stopOnFirstLoss && Losing(Last(p.steps).outcome)))
    case _ => true
  }

  ghost predicate Sound(p: Progress) {
    && Sensible(p.config)
    && Ladder(p.config, p.steps)
    && |p.steps| <= (if p.config.maxSteps < 0 then 0 else p.config.maxSteps)
    && p.bank == BankOf(p.config, p.steps) && p.bank >= 0
    && StateOk(p)
  }

  lemma CreatedSound(config: Config)
    requires Sensible(config)
    ensures Sound(Created(config))
  {
    HalfUpMonotone(0.0, config.initialBank * 100.0);
  }

  lemma SoundStep(p: Progress, m: Move)
    requires Sound(p)
    ensures Sound(Do(p, m))
  {
    if Legal(p, m) {
      match m
      case Propose(c) => ProposeSound(p, c);
      case Confirm(odds) =>
      case Settle(o) => SettleSound(p, o);
      case _ =>
    }
  }

  lemma ProposeSound(p: Progress, c: Candidate)
    requires Sound(p) && Legal(p, Propose(c))
    ensures Sound(Do(p, Propose(c)))
  {
    hide StakeFor;
  }

  lemma SettleSound(p: Progress, o: Outcome)
    requires Sound(p) && Legal(p, Settle(o))
    ensures Sound(Do(p, Settle(o)))
  {
    hide StakeFor, BankAfter, ToCents;
    var s := Last(p.steps);
    StakeWithinBank(p.config, s.bankBefore);
    SettlementRange(s.bankBefore, s.stake, OddsOf(s), o);
  }

  // In every run the ladder holds: stakes within the bank, banks handed on from
  // rung to rung, never more rungs than allowed.
  lemma {:induction false} RunsAreSound(config: Config, moves: seq<Move>)
    requires Sensible(config)
    ensures Sound(Play(Created(config), moves)) && Play(Created(config), moves).config == config
    decreases |moves|
  {
    hide Sound;
    if moves == [] {
      CreatedSound(config);
    } else {
      RunsAreSound(config, moves[..|moves| - 1]);
      SoundStep(Play(Created(config), moves[..|moves| - 1]), moves[|moves| - 1]);
    }
  }

  lemma StakesWithinBanks(config: Config, moves: seq<Move>, i: nat)
    requires Sensible(config) && i < |Play(Created(config), moves).steps|
    ensures var s := Play(Created(config), moves).steps[i];
            0 <= s.stake <= s.bankBefore && s.stake == StakeFor(config, s.bankBefore)
  {
    RunsAreSound(config, moves);
    hide StakeFor, Play;
    StakeWithinBank(config, Play(Created(config), moves).steps[i].bankBefore);
  }
}
