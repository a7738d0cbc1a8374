// Durable Challenges, and any number of clients that load, move and save them.
module ChallengeStore {
  import opened Results
  import opened Montante
  import opened MontanteRuns

  datatype Row = Row(config: Config, version: nat, state: State, bank: int, steps: map<nat, Step>)

  // Reading a stored number back: a zero counts as absent.
  function NonZero(x: Option<real>): Option<real> {
    if x == Some(0.0) then None else x
  }

  function FromDoc(s: Step): Step {
    s.(acceptedOdds := NonZero(s.acceptedOdds), probability := NonZero(s.probability))
  }

  // ----- SELECT ... ORDER BY step_index ------------------------------------------------

  ghost predicate Least(keys: set<nat>, k: nat) {
    k in keys && forall j :: j in keys ==> k <= j
  }

  lemma {:induction false} HasLeast(keys: set<nat>)
    requires keys != {}
    ensures exists k :: Least(keys, k)
  {
    var k :| k in keys;
    if keys != {k} {
      HasLeast(keys - {k});
      var l :| Least(keys - {k}, l);
      forall j | j in keys ensures (if l < k then l else k) <= j {
        assert j == k || j in keys - {k};
      }
      assert Least(keys, if l < k then l else k);
    } else {
      assert Least(keys, k);
    }
  }

  ghost function Ordered(m: map<nat, Step>): seq<Step>
    decreases |m.Keys|
  {
    if m == map[] then []
    else
      HasLeast(m.Keys);
      var k :| Least(m.Keys, k);
      assert (m - {k}).Keys == m.Keys - {k};
      [FromDoc(m[k])] + Ordered(m - {k})
  }

  ghost function Loaded(row: Row): Progress {
    Progress(row.config, row.state, row.bank, Ordered(row.steps))
  }

  // ----- save -------------------------------------------------------------------------

  function Overwrite(m: map<nat, Step>, steps: seq<Step>): map<nat, Step> {
    if steps == [] then m
    else Overwrite(m, steps[..|steps| - 1])[Last(steps).index := Last(steps)]
  }

  function Written(row: Row, p: Progress): Row {
    Row(row.config, row.version + 1, p.state, p.bank, Overwrite(row.steps, p.steps))
  }

  method ReadSteps(m: map<nat, Step>) returns (steps: seq<Step>)
    ensures steps == Ordered(m)
  {
    steps := [];
    var rest := m;
    while rest != map[]
      invariant steps + Ordered(rest) == Ordered(m)
      decreases |rest.Keys|
    {
      var k := LeastKey(rest.Keys);
      assert (rest - {k}).Keys == rest.Keys - {k};
      assert Ordered(rest) == [FromDoc(rest[k])] + Ordered(rest - {k});
      assert steps + Ordered(rest) == (steps + [FromDoc(rest[k])]) + Ordered(rest - {k});
      steps := steps + [FromDoc(rest[k])];
      rest := rest - {k};
    }
  }

  method LeastKey(keys: set<nat>) returns (k: nat)
    requires keys != {}
    ensures Least(keys, k)
  {
    k :| k in keys;
    var rest := keys - {k};
    while rest != {}
      invariant rest <= keys && k in keys
      invariant forall j :: j in keys ==> j in rest || k <= j
    {
      var j :| j in rest;
      if j < k { k := j; }
      rest := rest - {j};
    }
  }

  // ----- the round trip ------------------------------------------------------------------

  // Rungs numbered from 1 without a gap.
  ghost predicate Numbered(steps: seq<Step>) {
    forall i :: 0 <= i < |steps| ==> steps[i].index == i + 1
  }

  ghost predicate Dense(m: map<nat, Step>, n: nat) {
    forall k :: k in m <==> 1 <= k <= n
  }

  lemma {:induction false} OverwriteNumbered(m: map<nat, Step>, steps: seq<Step>)
    requires Numbered(steps) && forall k :: k in m ==> 1 <= k
    ensures forall k: nat :: 1 <= k <= |steps| ==> k in Overwrite(m, steps) && Overwrite(m, steps)[k] == steps[k - 1]
    ensures forall k: nat :: k > |steps| && k in m ==> k in Overwrite(m, steps)
    ensures forall k :: k in Overwrite(m, steps) ==> (1 <= k && (k in m || k <= |steps|))
  {
    if steps != [] {
      var front := steps[..|steps| - 1];
      OverwriteNumbered(m, front);
      assert forall i :: 0 <= i < |front| ==> front[i] == steps[i];
    }
  }

  lemma {:induction false} OrderedDense(m: map<nat, Step>, first: nat, last: nat)
    requires first <= last + 1 && (forall k :: k in m <==> first <= k <= last)
    ensures |Ordered(m)| == last + 1 - first
    ensures forall i :: 0 <= i < |Ordered(m)| ==> Ordered(m)[i] == FromDoc(m[first + i])
    decreases last + 1 - first
  {
    if first > last {
      assert m == map[];
    } else {
      assert first in m;
      assert Least(m.Keys, first);
      OrderedDense(m - {first}, first + 1, last);
      assert Ordered(m) == [FromDoc(m[first])] + Ordered(m - {first});
    }
  }

  // Saved over a row that holds no further rung, a challenge loads rung by rung.
  lemma RungsRoundTrip(row: Row, p: Progress, n: nat)
    requires Numbered(p.steps) && Dense(row.steps, n) && n <= |p.steps|
    ensures Dense(Written(row, p).steps, |p.steps|)
    ensures |Loaded(Written(row, p)).steps| == |p.steps|
    ensures forall i :: 0 <= i < |p.steps| ==> Loaded(Written(row, p)).steps[i] == FromDoc(p.steps[i])
  {
    var m := Overwrite(row.steps, p.steps);
    OverwriteNumbered(row.steps, p.steps);
    hide Overwrite;
    OrderedDense(m, 1, |p.steps|);
  }

  ghost predicate Kept(s: Step) {
    s.probability != Some(0.0) && s.acceptedOdds != Some(0.0)
  }

  // It loads as it was, unless a probability or a price of zero - read back as
  // absent - is among its rungs.
  lemma RoundTrip(row: Row, p: Progress, n: nat)
    requires Numbered(p.steps) && Dense(row.steps, n) && n <= |p.steps| && row.config == p.config
    ensures Loaded(Written(row, p)) == p <==> forall i :: 0 <= i < |p.steps| ==> Kept(p.steps[i])
  {
    RungsRoundTrip(row, p, n);
    var loaded := Loaded(Written(row, p));
    hide Overwrite, Ordered;
    if forall i :: 0 <= i < |p.steps| ==> Kept(p.steps[i]) {
      assert loaded.steps == p.steps;
    }
    if loaded == p {
      forall i | 0 <= i < |p.steps| ensures Kept(p.steps[i]) { assert FromDoc(p.steps[i]) == p.steps[i]; }
    }
  }

  // A Challenge as a run leaves it holds no price of zero: it loads as it was
  // exactly when no rung quotes a probability of zero.
  lemma RunRoundTrip(row: Row, config: Config, moves: seq<Move>, n: nat)
    requires Sensible(config) && row.config == config
    requires Dense(row.steps, n) && n <= |Play(Created(config), moves).steps|
    ensures var p := Play(Created(config), moves);
            Loaded(Written(row, p)) == p <==> forall i :: 0 <= i < |p.steps| ==> p.steps[i].probability != Some(0.0)
  {
    RunsAreSound(config, moves);
    hide Play, StakeFor, BankAfter, ToCents;
    var p := Play(Created(config), moves);
    forall i | 0 <= i < |p.steps| ensures p.steps[i].index == i + 1 && p.steps[i].acceptedOdds != Some(0.0) {
      assert StepOk(config, p.steps[i]);
    }
    RoundTrip(row, p, n);
    hide Loaded, Written;
    assert forall i :: 0 <= i < |p.steps| ==> (Kept(p.steps[i]) <==> p.steps[i].probability != Some(0.0));
  }

  // ----- many clients ----------------------------------------------------------------------

  // A client's copy: the version it was read at, what it has become since, and -
  // for the record only - the moves that made it.
  datatype Copy = Copy(version: nat, progress: Progress, moves: seq<Move>)

  // One stored challenge, the moves it stands for, and the clients working on it.
  datatype World = World(row: Row, moves: seq<Move>, copies: map<nat, Copy>)

  datatype Act = Load(who: nat) | Turn(who: nat, move: Move) | Save(who: nat)

  predicate Saves(w: World, a: Act) {
    a.Save? && a.who in w.copies && w.copies[a.who].version == w.row.version
  }

  ghost function Next(w: World, a: Act): World {
    match a
    case Load(who) => w.(copies := w.copies[who := Copy(w.row.version, Loaded(w.row), w.moves)])
    case Turn(who, move) =>
      if who !in w.copies then w
      else
        var copy := w.copies[who];
        w.(copies := w.copies[who := Copy(copy.version, Do(copy.progress, move), copy.moves + [move])])
    case Save(who) =>
      if !Saves(w, a) then w
      else World(Written(w.row, w.copies[who].progress), w.copies[who].moves, w.copies)
  }

  function Start(config: Config): World {
    World(Row(config, 1, Draft, ToCents(config.initialBank), map[]), [], map[])
  }

  ghost function After(config: Config, acts: seq<Act>): World
    decreases |acts|
  {
    if acts == [] then Start(config) else Next(After(config, acts[..|acts| - 1]), acts[|acts| - 1])
  }

  // The same challenge up to the probabilities quoted on its rungs.
  ghost predicate Alike(p: Progress, q: Progress) {
    && p.config == q.config && p.state == q.state && p.bank == q.bank && |p.steps| == |q.steps|
    && forall i :: 0 <= i < |p.steps| ==> p.steps[i].(probability := None) == q.steps[i].(probability := None)
  }

  lemma DoAlike(p: Progress, q: Progress, m: Move)
    requires Alike(p, q)
    ensures Alike(Do(p, m), Do(q, m))
  {
    hide StakeFor, BankAfter, ToCents, Admits, Verdict;
    if m.Settle? && Legal(p, m) {
      var i := |p.steps| - 1;
      assert p.steps[i].(probability := None) == q.steps[i].(probability := None);
      assert OddsOf(p.steps[i]) == OddsOf(q.steps[i]);
    }
  }

  ghost predicate CopyOk(config: Config, w: World, copy: Copy) {
    && Alike(copy.progress, Play(Created(config), copy.moves))
    && copy.version <= w.row.version
    && (copy.version == w.row.version ==> w.moves <= copy.moves)
  }

  ghost predicate WorldOk(config: Config, w: World) {
    && w.row.config == config
    && Alike(Loaded(w.row), Play(Created(config), w.moves))
    && Dense(w.row.steps, |Play(Created(config), w.moves).steps|)
    && forall who :: who in w.copies ==> CopyOk(config, w, w.copies[who])
  }

  lemma {:induction false} StepsOnlyGrow(p: Progress, moves: seq<Move>, more: seq<Move>)
    requires moves <= more
    ensures |Play(p, moves).steps| <= |Play(p, more).steps|
    decreases |more|
  {
    if moves == more {
    } else {
      assert moves <= more[..|more| - 1];
      StepsOnlyGrow(p, moves, more[..|more| - 1]);
      hide StakeFor, BankAfter, ToCents;
    }
  }

  lemma SaveOk(config: Config, w: World, a: Act)
    requires Sensible(config) && WorldOk(config, w) && Saves(w, a)
    ensures w.moves <= Next(w, a).moves
    ensures WorldOk(config, Next(w, a))
  {
    var copy, w' := w.copies[a.who], Next(w, a);
    assert CopyOk(config, w, copy);
    var p := Play(Created(config), copy.moves);
    RunsAreSound(config, copy.moves);
    StepsOnlyGrow(Created(config), w.moves, copy.moves);
    hide Play, StakeFor, BankAfter, ToCents;
    RungsReadBack(p, copy.progress);
    RungsRoundTrip(w.row, copy.progress, |Play(Created(config), w.moves).steps|);
    assert Alike(Loaded(w'.row), p);
  }

  lemma RungsReadBack(p: Progress, q: Progress)
    requires Sound(p) && Alike(q, p)
    ensures Numbered(q.steps)
    ensures forall i :: 0 <= i < |q.steps| ==> FromDoc(q.steps[i]).(probability := None) == p.steps[i].(probability := None)
  {
    forall i | 0 <= i < |q.steps|
      ensures q.steps[i].index == i + 1
      ensures FromDoc(q.steps[i]).(probability := None) == p.steps[i].(probability := None)
    {
      assert q.steps[i].(probability := None) == p.steps[i].(probability := None);
      assert StepOk(p.config, p.steps[i]);
      assert q.steps[i].acceptedOdds == p.steps[i].acceptedOdds && q.steps[i].index == p.steps[i].index;
    }
  }

  lemma ActOk(config: Config, w: World, a: Act)
    requires Sensible(config) && WorldOk(config, w)
    ensures WorldOk(config, Next(w, a)) && w.moves <= Next(w, a).moves
  {
    if Saves(w, a) {
      SaveOk(config, w, a);
    } else if a.Turn? && a.who in w.copies {
      var copy := w.copies[a.who];
      DoAlike(copy.progress, Play(Created(config), copy.moves), a.move);
      assert (copy.moves + [a.move])[..|copy.moves|] == copy.moves;
      assert CopyOk(config, Next(w, a), Next(w, a).copies[a.who]);
    }
  }

  // Whatever the clients do, the stored challenge is the outcome of one sequential
  // list of moves, and no save ever takes a move back.
  lemma {:induction false} StoredIsSequential(config: Config, acts: seq<Act>)
    requires Sensible(config)
    ensures WorldOk(config, After(config, acts))
    ensures Alike(Loaded(After(config, acts).row), Play(Created(config), After(config, acts).moves))
    ensures acts != [] ==> After(config, acts[..|acts| - 1]).moves <= After(config, acts).moves
    decreases |acts|
  {
    if acts == [] {
      OrderedDense(map[], 1, 0);
    } else {
      StoredIsSequential(config, acts[..|acts| - 1]);
      ActOk(config, After(config, acts[..|acts| - 1]), acts[|acts| - 1]);
    }
  }

  // One client: load, activate, propose a candidate to which the model gives no
  // chance, save. The rung quotes a probability; what is stored loads without one.
  const HOPELESS: Candidate := EVENS.(probability := 0.0)

  function HopelessRun(): seq<Act> {
    [Load(0), Turn(0, Activate), Turn(0, Propose(HOPELESS)), Save(0)]
  }

  lemma ActNext(config: Config, acts: seq<Act>, k: nat)
    requires k < |acts|
    ensures After(config, acts[..k + 1]) == Next(After(config, acts[..k]), acts[k])
  {
    assert acts[..k + 1][..k] == acts[..k];
  }

  lemma {:induction false} ZeroIsLost()
    ensures var w := After(TEN_TO_FIFTEEN, HopelessRun());
            && w.row.version == 2 && 0 in w.copies
            && w.copies[0].progress == Play(Created(TEN_TO_FIFTEEN), [Activate, Propose(HOPELESS)])
            && |w.copies[0].progress.steps| == 1 && |Loaded(w.row).steps| == 1
            && w.copies[0].progress.steps[0].probability == Some(0.0)
            && Loaded(w.row).steps[0].probability == None
  {
    var config, acts := TEN_TO_FIFTEEN, HopelessRun();
    var created := Created(config);
    OrderedDense(map[], 1, 0);
    assert acts[..4] == acts && After(config, acts[..0]) == Start(config);
    ActNext(config, acts, 0);
    ActNext(config, acts, 1);
    ActNext(config, acts, 2);
    ActNext(config, acts, 3);
    hide After, StakeFor, ToCents, Play, Overwrite, Ordered;
    ProposedAtOnce(config);
    RungsRoundTrip(Start(config).row, Do(Do(created, Activate), Propose(HOPELESS)), 0);
  }

  lemma ProposedAtOnce(config: Config)
    ensures Play(Created(config), [Activate, Propose(HOPELESS)])
            == Do(Do(Created(config), Activate), Propose(HOPELESS))
  {
    hide Do;
    var moves := [Activate, Propose(HOPELESS)];
    assert Play(Created(config), moves[..0]) == Created(config) && moves[..2] == moves;
    PlayNext(Created(config), moves, 0);
    PlayNext(Created(config), moves, 1);
  }

  // How often a rung was settled in what is stored: never twice.
  lemma NoRungSettledTwice(config: Config, acts: seq<Act>, i: nat)
    requires Sensible(config)
    ensures Settlements(Created(config), After(config, acts).moves, i)
            == if RungSettled(Loaded(After(config, acts).row), i) then 1 else 0
  {
    StoredIsSequential(config, acts);
    SettledOnce(config, After(config, acts).moves, i);
    var p, q := Loaded(After(config, acts).row), Play(Created(config), After(config, acts).moves);
    if 1 <= i <= |p.steps| {
      assert p.steps[i - 1].(probability := None) == q.steps[i - 1].(probability := None);
      assert p.steps[i - 1].outcome == q.steps[i - 1].outcome;
    }
  }

  // How many saves of version v were accepted.
  ghost function Accepted(config: Config, acts: seq<Act>, v: nat): nat
    decreases |acts|
  {
    if acts == [] then 0
    else
      var w, a := After(config, acts[..|acts| - 1]), acts[|acts| - 1];
      Accepted(config, acts[..|acts| - 1], v) + if Saves(w, a) && w.row.version == v then 1 else 0
  }

  // Exactly one save went through for every version the row has left behind.
  lemma {:induction false} OneSavePerVersion(config: Config, acts: seq<Act>, v: nat)
    ensures After(config, acts).row.version >= 1
    ensures Accepted(config, acts, v) == if 1 <= v < After(config, acts).row.version then 1 else 0
    decreases |acts|
  {
    if acts != [] { OneSavePerVersion(config, acts[..|acts| - 1], v); }
  }
}
