// Whole runs of a Challenge.
module MontanteRuns {
  import opened Results
  import opened Montante

  // After a lost rung - possible only when the policy goes on - the next one
  // stakes no more.
  lemma NoChasing(config: Config, moves: seq<Move>, i: nat)
    requires Sensible(config) && i + 1 < |Play(Created(config), moves).steps|
    requires Losing(Play(Created(config), moves).steps[i].outcome)
    ensures !config.stopOnFirstLoss
    ensures Play(Created(config), moves).steps[i + 1].stake <= Play(Created(config), moves).steps[i].stake
  {
    RunsAreSound(config, moves);
    hide Play, StakeFor, BankAfter, Sensible;
    var steps := Play(Created(config), moves).steps;
    assert StepOk(config, steps[i]) && StepOk(config, steps[i + 1]);
    LossNeverRaisesStake(config, steps[i].bankBefore, OddsOf(steps[i]), steps[i].outcome);
  }

  // The label a run ends under: that of the last `stop` or `cancel`, if any.
  function Label(state: State, moves: seq<Move>): State {
    if moves == [] then state
    else
      match moves[|moves| - 1]
      case Stop => Stopped
      case Cancel => RunCancelled
      case _ => Label(state, moves[..|moves| - 1])
  }

  // Over is over for the money: whatever is tried, only the label can still move,
  // to the one the last `stop` or `cancel` sets.
  lemma {:induction false} OverIsOver(p: Progress, moves: seq<Move>)
    requires Terminal(p.state)
    ensures Play(p, moves) == p.(state := Label(p.state, moves)) && Terminal(Label(p.state, moves))
    decreases |moves|
  {
    if moves != [] { OverIsOver(p, moves[..|moves| - 1]); }
  }

  // So a finished run keeps its label exactly when the last `stop` or `cancel`,
  // if there is one, sets the label it has.
  lemma KeepsItsLabel(p: Progress, moves: seq<Move>)
    requires Terminal(p.state)
    ensures Play(p, moves) == p
            <==> (LastRelabelling(moves).Some? ==>
                    p.state == if LastRelabelling(moves).value.Stop? then Stopped else RunCancelled)
  {
    OverIsOver(p, moves);
    LabelIsLast(p.state, moves);
  }

  function LastRelabelling(moves: seq<Move>): Option<Move> {
    if moves == [] then None
    else if moves[|moves| - 1].Stop? || moves[|moves| - 1].Cancel? then Some(moves[|moves| - 1])
    else LastRelabelling(moves[..|moves| - 1])
  }

  lemma {:induction false} LabelIsLast(state: State, moves: seq<Move>)
    ensures LastRelabelling(moves).Some? ==> LastRelabelling(moves).value.Stop? || LastRelabelling(moves).value.Cancel?
    ensures Label(state, moves) ==
            match LastRelabelling(moves)
            case None => state
            case Some(m) => if m.Stop? then Stopped else RunCancelled
    decreases |moves|
  {
    if moves != [] { LabelIsLast(state, moves[..|moves| - 1]); }
  }

  // Such a run: ten units, half of them on a price of two, the target of fifteen
  // reached at the first rung - and then cancelled.
  const EVENS: Candidate := Candidate("c", 2.0, "football", "1x2", 0.5, None)
  const TEN_TO_FIFTEEN: Config := Config(10.0, 15.0, 1.5, 3.0, 0.0, 0.5, false, true, 20, [], [])

  function WinningRun(): seq<Move> {
    [Activate, Propose(EVENS), Confirm(2.0), Settle(Won)]
  }

  lemma {:induction false} PlayNext(p: Progress, moves: seq<Move>, k: nat)
    requires k < |moves|
    ensures Play(p, moves[..k + 1]) == Do(Play(p, moves[..k]), moves[k])
  {
    assert moves[..k + 1][..k] == moves[..k];
  }

  lemma RoundAmounts()
    ensures ToCents(10.0) == 1000 && ToCents(15.0) == 1500 && ToCents(0.0) == 0
    ensures Share(1000, 0.5) == 500 && Share(500, 2.0) == 1000
  {
  }

  lemma WonAtOnce()
    ensures Sensible(TEN_TO_FIFTEEN)
    ensures var p := Play(Created(TEN_TO_FIFTEEN), WinningRun());
            p.state == TargetReached && p.bank == 1500 && |p.steps| == 1
  {
    RoundAmounts();
    hide ToCents, Share;
    var start, moves := Created(TEN_TO_FIFTEEN), WinningRun();
    assert Play(start, moves[..0]) == start && moves[..4] == moves;
    PlayNext(start, moves, 0);
    PlayNext(start, moves, 1);
    PlayNext(start, moves, 2);
    PlayNext(start, moves, 3);
  }

  lemma ReachedThenCancelled()
    ensures Play(Created(TEN_TO_FIFTEEN), WinningRun()).state == TargetReached
    ensures Play(Created(TEN_TO_FIFTEEN), WinningRun() + [Cancel]).state == RunCancelled
    ensures Play(Created(TEN_TO_FIFTEEN), WinningRun() + [Cancel]).bank == 1500
  {
    WonAtOnce();
    hide WinningRun;
    var moves := WinningRun() + [Cancel];
    assert moves[..|moves| - 1] == WinningRun();
  }

  // A void rung leaves the bank alone, but it stays on the ladder: the next one
  // gets the next number, and a void on the last rung ends the run.
  lemma VoidUsesARung(p: Progress, o: Outcome, c: Candidate)
    requires Sound(p) && Legal(p, Settle(o)) && Neutral(o)
    ensures Do(p, Settle(o)).bank == p.bank && |Do(p, Settle(o)).steps| == |p.steps|
    ensures Legal(Do(p, Settle(o)), Propose(c)) ==>
              Last(Do(Do(p, Settle(o)), Propose(c)).steps).index == |p.steps| + 1
    ensures |p.steps| == p.config.maxSteps && ToCents(p.config.maxLoss) < p.bank < ToCents(p.config.targetBank) ==>
              Do(p, Settle(o)).state == Stopped
  {
  }

  // ----- each rung is settled once ----------------------------------------------------

  // How often a run settles its i-th rung.
  ghost function Settlements(p: Progress, moves: seq<Move>, i: nat): nat
    decreases |moves|
  {
    if moves == [] then 0
    else
      var before := Play(p, moves[..|moves| - 1]);
      Settlements(p, moves[..|moves| - 1], i)
      + if moves[|moves| - 1].Settle? && Legal(before, moves[|moves| - 1]) && |before.steps| == i then 1 else 0
  }

  ghost predicate RungSettled(p: Progress, i: nat) {
    1 <= i <= |p.steps| && Settled(p.steps[i - 1])
  }

  lemma {:induction false} SettledOnce(config: Config, moves: seq<Move>, i: nat)
    requires Sensible(config)
    ensures Settlements(Created(config), moves, i) == if RungSettled(Play(Created(config), moves), i) then 1 else 0
    decreases |moves|
  {
    if moves != [] {
      var before := Play(Created(config), moves[..|moves| - 1]);
      SettledOnce(config, moves[..|moves| - 1], i);
      RunsAreSound(config, moves[..|moves| - 1]);
      OneMove(before, moves[|moves| - 1], i);
    }
  }

  lemma OneMove(p: Progress, m: Move, i: nat)
    requires Sound(p)
    ensures m.Settle? && Legal(p, m) && |p.steps| == i ==> !RungSettled(p, i) && RungSettled(Do(p, m), i)
    ensures !(m.Settle? && Legal(p, m) && |p.steps| == i) ==> (RungSettled(Do(p, m), i) <==> RungSettled(p, i))
  {
    hide StakeFor, BankAfter, ToCents;
  }

  // ----- the migration's view of the bank ------------------------------------------------

  // One stored step as raw text: unreadable, not an object, or an object with or
  // without a whole number of cents.
  datatype RawStep = Unreadable | Readable(after: Option<int>)

  datatype RawDocument = NoBank | InitialBank(amount: real)

  datatype MigrationError = UnusableChallengeDocument

  function LastAfter(steps: seq<RawStep>): Option<int> {
    if steps == [] then None
    else if steps[|steps| - 1].Readable? && steps[|steps| - 1].after.Some? then steps[|steps| - 1].after
    else LastAfter(steps[..|steps| - 1])
  }

  // Reconstruct the current bank from what was stored before banks were.
  method BankCentsFrom(document: RawDocument, steps: seq<RawStep>) returns (r: Result<int, MigrationError>)
    ensures LastAfter(steps).Some? ==> r == Ok(LastAfter(steps).value)
    ensures LastAfter(steps).None? ==>
              r == if document.NoBank? then Raised(UnusableChallengeDocument) else Ok(ToCents(document.amount))
  {
    var i := |steps|;
    assert steps[..i] == steps;
    while i > 0
      invariant 0 <= i <= |steps|
      invariant LastAfter(steps) == LastAfter(steps[..i])
    {
      i := i - 1;
      assert steps[..i + 1][..i] == steps[..i];
      match steps[i] {
        case Unreadable =>
        case Readable(after) => if after.Some? { return Ok(after.value); }
      }
    }
    if document.NoBank? { return Raised(UnusableChallengeDocument); }
    r := Ok(ToCents(document.amount));
  }

  function Raw(steps: seq<Step>): seq<RawStep> {
    seq(|steps|, i requires 0 <= i < |steps| => Readable(steps[i].bankAfter))
  }

  // For every Challenge the product can have stored, that is its bank.
  lemma BankReconstructed(config: Config, moves: seq<Move>)
    requires Sensible(config)
    ensures var p := Play(Created(config), moves);
            p.bank == match LastAfter(Raw(p.steps)) case Some(cents) => cents case None => ToCents(config.initialBank)
  {
    RunsAreSound(config, moves);
    var p := Play(Created(config), moves);
    hide Play, StakeFor, BankAfter, ToCents;
    var raw := Raw(p.steps);
    if p.steps != [] && Last(p.steps).bankAfter.None? {
      assert StepOk(config, Last(p.steps));
      if |p.steps| > 1 {
        assert raw[..|raw| - 1][|raw| - 2] == Readable(p.steps[|raw| - 2].bankAfter);
        assert Settled(p.steps[|raw| - 2]);
      } else {
        assert LastAfter(raw[..0]) == None;
      }
    }
  }
}
