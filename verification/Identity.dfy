// Stable event identity: a provider's id for an event is looked up before
// anything is compared, and what cannot be decided is queued, not guessed.
module Identity {
  import opened Results

  type Id = nat

  datatype SourceKey = SourceKey(provider: string, eventId: string)

  datatype Status = Scheduled | Live | Finished | Postponed | Cancelled

  // Attributes are held normalised; the empty string is silence.
  datatype Event = Event(sport: string, competition: string, stage: string, season: string, pairKey: string,
                         start: int, status: Status, sourceIds: map<string, string>)

  datatype Review = Review(candidates: set<Id>, resolved: bool, decision: Option<Id>)

  datatype Change = Change(id: Id, start: int, status: Status, previous: Option<int>)

  // Identifiers are drawn from a counter, so a new one is never one in use.
  datatype Registry = Registry(events: map<Id, Event>, sources: map<SourceKey, Id>,
                               reviews: map<SourceKey, Review>, history: seq<Change>, nextId: Id)

  const EMPTY: Registry := Registry(map[], map[], map[], [], 0)

  // One provider event. `pairKeys` are the spellings its participants may
  // canonically have, `pairKey` the plain one; `named` says neither is blank.
  datatype Request = Request(key: SourceKey, named: bool, sport: string, competition: string, stage: string,
                             season: string, pairKey: string, pairKeys: set<string>, start: int, status: Status)

  datatype Verdict = Resolved | Created | Ambiguous | Rejected

  datatype Resolution = Resolution(verdict: Verdict, id: Option<Id>, candidates: set<Id>, rescheduled: bool)

  const TOLERANCE: int := 6 * 3600

  // ----- matching -----------------------------------------------------------------

  predicate Conflict(stored: string, incoming: string) {
    stored != "" && incoming != "" && stored != incoming
  }

  predicate Plausible(e: Event, q: Request) {
    && e.sport == q.sport
    && e.pairKey in q.pairKeys
    && q.start - TOLERANCE <= e.start <= q.start + TOLERANCE
    && !Conflict(e.competition, q.competition)
    && !Conflict(e.stage, q.stage)
    && !Conflict(e.season, q.season)
  }

  // The provider already gave us this event under an id of its own.
  predicate Carries(sources: map<SourceKey, Id>, provider: string, id: Id) {
    exists key :: key in sources && key.provider == provider && sources[key] == id
  }

  function Matches(r: Registry, q: Request): set<Id> {
    set id | id in r.events && Plausible(r.events[id], q) && !Carries(r.sources, q.key.provider, id)
  }

  // ----- transactions ----------------------------------------------------------------

  function Linked(r: Registry, key: SourceKey, id: Id): Registry {
    r.(sources := r.sources[key := id],
       events := if id !in r.events then r.events
                 else r.events[id := r.events[id].(sourceIds := r.events[id].sourceIds[key.provider := key.eventId])])
  }

  function Refreshed(r: Registry, id: Id, start: int, status: Status): Registry {
    if id !in r.events || (r.events[id].start == start && r.events[id].status == status) then r
    else
      var e := r.events[id];
      r.(events := r.events[id := e.(start := start, status := status)],
         history := r.history + [Change(id, start, status, Some(e.start))])
  }

  function NewEvent(q: Request): Event {
    Event(q.sport, q.competition, q.stage, q.season, q.pairKey, q.start, q.status,
          map[q.key.provider := q.key.eventId])
  }

  function WithNew(r: Registry, q: Request): Registry {
    Registry(r.events[r.nextId := NewEvent(q)], r.sources[q.key := r.nextId], r.reviews,
             r.history + [Change(r.nextId, q.start, q.status, None)], r.nextId + 1)
  }

  function Queued(r: Registry, key: SourceKey, candidates: set<Id>): Registry {
    var review := if key in r.reviews then r.reviews[key].(candidates := candidates)
                  else Review(candidates, false, None);
    r.(reviews := r.reviews[key := review])
  }

  predicate Usable(q: Request) {
    q.key.eventId != "" && q.named
  }

  // One resolution: the registry after it, and the answer.
  function Resolve(r: Registry, q: Request): (Registry, Resolution) {
    if !Usable(q) then (r, Resolution(Rejected, None, {}, false))
    else if q.key in r.sources then
      var id := r.sources[q.key];
      (Refreshed(r, id, q.start, q.status),
       Resolution(Resolved, Some(id), {}, id in r.events && r.events[id].start != q.start))
    else
      var matches := Matches(r, q);
      if |matches| > 1 then (Queued(r, q.key, matches), Resolution(Ambiguous, None, matches, false))
      else if |matches| == 1 then
        var id := TheOne(matches);
        (Linked(r, q.key, id), Resolution(Resolved, Some(id), {}, false))
      else (WithNew(r, q), Resolution(Created, Some(r.nextId), {}, false))
  }

  function TheOne(ids: set<Id>): (id: Id)
    requires |ids| == 1
    ensures ids == {id}
  {
    OnlyOne(ids);
    var id :| id in ids;
    id
  }

  lemma OnlyOne(ids: set<Id>)
    requires |ids| == 1
    ensures exists id :: id in ids
    ensures forall a, b :: a in ids && b in ids ==> a == b
    ensures forall a :: a in ids ==> ids == {a}
  {
    forall a | a in ids ensures ids == {a} {
      assert |ids - {a}| == 0;
      assert ids - {a} == {};
    }
  }

  datatype ReviewError = ReviewNotFound | ReviewAlreadyResolved | ReviewResolutionRejected

  // An operator's decision on a queued case, or the reason it is refused.
  function Refusal(r: Registry, key: SourceKey, id: Id): Option<ReviewError> {
    if key !in r.reviews then Some(ReviewNotFound)
    else if r.reviews[key].resolved then Some(ReviewAlreadyResolved)
    else if id !in r.reviews[key].candidates || id !in r.events || key in r.sources then Some(ReviewResolutionRejected)
    else None
  }

  function Decide(r: Registry, key: SourceKey, id: Id): Registry {
    if Refusal(r, key, id).Some? then r
    else
      var linked := Linked(r, key, id);
      linked.(reviews := linked.reviews[key := Review(r.reviews[key].candidates, true, Some(id))])
  }

  // ----- runs --------------------------------------------------------------------------

  // `Upsert` is the batch writer's row-by-row overwrite of an event.
  datatype Op = Ask(q: Request) | Rule(key: SourceKey, id: Id) | Upsert(id: Id, event: Event)

  function Next(r: Registry, op: Op): Registry {
    match op
    case Ask(q) => Resolve(r, q).0
    case Rule(key, id) => Decide(r, key, id)
    case Upsert(id, event) => if id < r.nextId then r.(events := r.events[id := event]) else r
  }

  function Run(r: Registry, ops: seq<Op>): Registry
    decreases |ops|
  {
    if ops == [] then r else Next(Run(r, ops[..|ops| - 1]), ops[|ops| - 1])
  }

  ghost predicate Extends(r: Registry, r': Registry) {
    && (forall key :: key in r.sources ==> key in r'.sources && r'.sources[key] == r.sources[key])
    && r.events.Keys <= r'.events.Keys
    && r.history <= r'.history
    && r.nextId <= r'.nextId
  }

  lemma {:induction false} TheMapOnlyGrows(r: Registry, ops: seq<Op>)
    ensures Extends(r, Run(r, ops))
    decreases |ops|
  {
    if ops != [] {
      TheMapOnlyGrows(r, ops[..|ops| - 1]);
      hide Matches;
    }
  }

  // Once a provider's id is attributed, every later usable request under it gets
  // the same answer, whatever was stored, decided or moved in between.
  lemma OnceAttributedAlwaysAttributed(r: Registry, ops: seq<Op>, q: Request)
    requires q.key in r.sources && Usable(q)
    ensures Resolve(Run(r, ops), q).1.verdict == Resolved
    ensures Resolve(Run(r, ops), q).1.id == Some(r.sources[q.key])
  {
    TheMapOnlyGrows(r, ops);
  }

  // ----- one event carries one id per provider --------------------------------------------

  ghost predicate Injective(sources: map<SourceKey, Id>) {
    forall a, b :: a in sources && b in sources && a.provider == b.provider && sources[a] == sources[b] ==> a == b
  }

  ghost predicate Issued(r: Registry) {
    && (forall id: Id :: id in r.events <==> id < r.nextId)
    && (forall key :: key in r.sources ==> r.sources[key] in r.events)
  }

  lemma IssuedStep(r: Registry, op: Op)
    requires Issued(r)
    ensures Issued(Next(r, op))
  {
  }

  lemma ResolveKeepsInjective(r: Registry, q: Request)
    requires Issued(r) && Injective(r.sources)
    ensures Injective(Resolve(r, q).0.sources)
  {
    if Usable(q) && q.key !in r.sources && |Matches(r, q)| == 1 {
      var id := TheOne(Matches(r, q));
      assert id in Matches(r, q);
      assert !Carries(r.sources, q.key.provider, id);
    }
  }

  // A decision keeps it exactly when the chosen event carries no other id of the
  // review's provider - which nothing in the decision checks.
  lemma DecisionKeepsInjective(r: Registry, key: SourceKey, id: Id)
    requires Injective(r.sources) && Refusal(r, key, id).None?
    ensures Injective(Decide(r, key, id).sources) <==> !Carries(r.sources, key.provider, id)
  {
    var sources := Decide(r, key, id).sources;
    if Carries(r.sources, key.provider, id) {
      var other :| other in r.sources && other.provider == key.provider && r.sources[other] == id;
      assert sources[other] == sources[key] && other != key;
    }
  }

  lemma {:induction false} RequestsAloneStayInjective(ops: seq<Op>)
    requires forall op :: op in ops ==> op.Ask? || op.Upsert?
    ensures Issued(Run(EMPTY, ops)) && Injective(Run(EMPTY, ops).sources)
    decreases |ops|
  {
    if ops != [] {
      var before, op := ops[..|ops| - 1], ops[|ops| - 1];
      assert op in ops && forall o :: o in before ==> o in ops;
      RequestsAloneStayInjective(before);
      IssuedStep(Run(EMPTY, before), op);
      if op.Ask? { ResolveKeepsInjective(Run(EMPTY, before), op.q); }
    }
  }

  // Decisions can put two ids of one provider on one event: queue x between two
  // events, move one of them away, let y take the other, and rule x onto it.
  function Sighting(provider: string, eventId: string, start: int): Request {
    Request(SourceKey(provider, eventId), true, "football", "", "", "", "k", {"k"}, start, Scheduled)
  }

  function CollisionRun(): seq<Op> {
    [Ask(Sighting("a", "1", 0)), Ask(Sighting("a", "2", 0)), Ask(Sighting("b", "x", 0)),
     Ask(Sighting("a", "2", TOLERANCE + 1)), Ask(Sighting("b", "y", 0)), Rule(SourceKey("b", "x"), 0)]
  }

  lemma RunPrefix(r: Registry, ops: seq<Op>, k: nat)
    requires k < |ops|
    ensures Run(r, ops[..k + 1]) == Next(Run(r, ops[..k]), ops[k])
  {
    assert ops[..k + 1][..k] == ops[..k];
  }

  // The registry before each of those steps.
  function Before(step: nat): Registry
    requires step <= 5
  {
    if step == 0 then EMPTY
    else if step == 1 then WithNew(Before(0), Sighting("a", "1", 0))
    else if step == 2 then WithNew(Before(1), Sighting("a", "2", 0))
    else if step == 3 then Queued(Before(2), SourceKey("b", "x"), {0, 1})
    else if step == 4 then Refreshed(Before(3), 1, TOLERANCE + 1, Scheduled)
    else Linked(Before(4), SourceKey("b", "y"), 0)
  }

  lemma TwoEvents()
    ensures Next(Before(0), Ask(Sighting("a", "1", 0))) == Before(1)
    ensures Next(Before(1), Ask(Sighting("a", "2", 0))) == Before(2)
    ensures Before(2).events == map[0 := NewEvent(Sighting("a", "1", 0)), 1 := NewEvent(Sighting("a", "2", 0))]
    ensures Before(2).sources == map[SourceKey("a", "1") := 0, SourceKey("a", "2") := 1]
    ensures Before(2).reviews == map[]
  {
    assert Matches(Before(0), Sighting("a", "1", 0)) == {};
    assert SourceKey("a", "1") in Before(1).sources;
    assert Matches(Before(1), Sighting("a", "2", 0)) == {};
  }

  lemma XIsQueued()
    ensures Next(Before(2), Ask(Sighting("b", "x", 0))) == Before(3)
  {
    TwoEvents();
    assert Matches(Before(2), Sighting("b", "x", 0)) == {0, 1};
  }

  lemma OtherMoves()
    ensures Next(Before(3), Ask(Sighting("a", "2", TOLERANCE + 1))) == Before(4)
    ensures Before(4).events == map[0 := NewEvent(Sighting("a", "1", 0)), 1 := NewEvent(Sighting("a", "2", TOLERANCE + 1))]
    ensures Before(4).sources == map[SourceKey("a", "1") := 0, SourceKey("a", "2") := 1]
    ensures Before(4).reviews == map[SourceKey("b", "x") := Review({0, 1}, false, None)]
  {
    TwoEvents();
  }

  lemma YTakesTheFirst()
    ensures Next(Before(4), Ask(Sighting("b", "y", 0))) == Before(5)
    ensures Refusal(Before(5), SourceKey("b", "x"), 0).None?
    ensures Maps(Before(5).sources, SourceKey("b", "y"), 0)
  {
    OtherMoves();
    assert Matches(Before(4), Sighting("b", "y", 0)) == {0};
  }

  lemma CollisionRunEnds()
    ensures Run(EMPTY, CollisionRun()) == Next(Before(5), Rule(SourceKey("b", "x"), 0))
  {
    var ops := CollisionRun();
    assert Before(0) == EMPTY && Run(EMPTY, ops[..0]) == EMPTY && ops[..6] == ops;
    TwoEvents();
    XIsQueued();
    OtherMoves();
    YTakesTheFirst();
    hide Before, Next, Run;
    RunPrefix(EMPTY, ops, 0);
    RunPrefix(EMPTY, ops, 1);
    RunPrefix(EMPTY, ops, 2);
    RunPrefix(EMPTY, ops, 3);
    RunPrefix(EMPTY, ops, 4);
    RunPrefix(EMPTY, ops, 5);
  }

  lemma DecisionsCanCollide()
    ensures !Injective(Run(EMPTY, CollisionRun()).sources)
  {
    CollisionRunEnds();
    YTakesTheFirst();
    hide Before, Run, CollisionRun, Refusal;
    var after := Decide(Before(5), SourceKey("b", "x"), 0);
    assert after.sources[SourceKey("b", "x")] == after.sources[SourceKey("b", "y")];
  }

  // ----- both representations ------------------------------------------------------------

  ghost predicate Listed(sources: map<SourceKey, Id>, id: Id, e: Event) {
    forall p :: p in e.sourceIds ==> Maps(sources, SourceKey(p, e.sourceIds[p]), id)
  }

  ghost predicate OwnListed(r: Registry) {
    forall id :: id in r.events ==> Listed(r.sources, id, r.events[id])
  }

  // Every id listed on an event is mapped to it, every mapped event lists one
  // for that provider.
  ghost predicate Mirrored(r: Registry) {
    && OwnListed(r)
    && (forall key :: key in r.sources ==>
          r.sources[key] in r.events && key.provider in r.events[r.sources[key]].sourceIds)
  }

  predicate Maps(sources: map<SourceKey, Id>, key: SourceKey, id: Id) {
    key in sources && sources[key] == id
  }

  lemma MirroredStep(r: Registry, op: Op)
    requires Issued(r) && Mirrored(r) && !op.Upsert?
    ensures Mirrored(Next(r, op))
  {
    hide Matches;
    match op
    case Ask(q) =>
      if Usable(q) && q.key !in r.sources && |Matches(r, q)| == 1 {
        InRegistry(r, q);
        LinkedMirrored(r, q.key, TheOne(Matches(r, q)));
      } else if Usable(q) && q.key !in r.sources && |Matches(r, q)| == 0 {
        CreatedMirrored(r, q);
      }
    case Rule(key, id) =>
      if Refusal(r, key, id).None? { LinkedMirrored(r, key, id); }
  }

  lemma InRegistry(r: Registry, q: Request)
    requires |Matches(r, q)| == 1
    ensures TheOne(Matches(r, q)) in r.events
  {
    assert TheOne(Matches(r, q)) in Matches(r, q);
  }

  lemma LinkedMirrored(r: Registry, key: SourceKey, id: Id)
    requires Mirrored(r) && id in r.events && key !in r.sources
    ensures Mirrored(Linked(r, key, id))
  {
    LinkedListed(r, key, id);
    hide OwnListed;
  }

  lemma CreatedMirrored(r: Registry, q: Request)
    requires Issued(r) && Mirrored(r) && q.key !in r.sources
    ensures Mirrored(WithNew(r, q))
  {
    CreatedListed(r, q);
    hide OwnListed;
  }

  lemma LinkedListed(r: Registry, key: SourceKey, id: Id)
    requires OwnListed(r) && id in r.events && key !in r.sources
    ensures OwnListed(Linked(r, key, id))
  {
    var r' := Linked(r, key, id);
    forall i, p | i in r'.events && p in r'.events[i].sourceIds
      ensures Maps(r'.sources, SourceKey(p, r'.events[i].sourceIds[p]), i)
    {
      if !(i == id && p == key.provider) {
        assert Listed(r.sources, i, r.events[i]);
        assert Maps(r.sources, SourceKey(p, r.events[i].sourceIds[p]), i);
      }
    }
  }

  lemma CreatedListed(r: Registry, q: Request)
    requires Issued(r) && OwnListed(r) && q.key !in r.sources
    ensures OwnListed(WithNew(r, q))
  {
    var r' := WithNew(r, q);
    forall i, p | i in r'.events && p in r'.events[i].sourceIds
      ensures Maps(r'.sources, SourceKey(p, r'.events[i].sourceIds[p]), i)
    {
      if i != r.nextId {
        assert Listed(r.sources, i, r.events[i]);
        assert Maps(r.sources, SourceKey(p, r.events[i].sourceIds[p]), i);
      }
    }
  }

  lemma OwnListedStep(r: Registry, op: Op)
    requires Issued(r) && OwnListed(r)
    requires op.Upsert? ==> Listed(r.sources, op.id, op.event)
    ensures OwnListed(Next(r, op))
  {
    hide Matches, Listed;
    match op
    case Ask(q) =>
      if Usable(q) && q.key !in r.sources && |Matches(r, q)| == 1 {
        InRegistry(r, q);
        LinkedListed(r, q.key, TheOne(Matches(r, q)));
      } else if Usable(q) && q.key !in r.sources && |Matches(r, q)| == 0 {
        CreatedListed(r, q);
      } else if Usable(q) && q.key in r.sources {
        RefreshedListed(r, r.sources[q.key], q.start, q.status);
      }
    case Rule(key, id) =>
      if Refusal(r, key, id).None? { LinkedListed(r, key, id); }
    case Upsert(_, _) =>
  }

  lemma RefreshedListed(r: Registry, id: Id, start: int, status: Status)
    requires OwnListed(r)
    ensures OwnListed(Refreshed(r, id, start, status))
  {
    if id in r.events { assert Listed(r.sources, id, r.events[id]); }
  }

  // The batch writer overwrites an event only with ids that are mapped to it:
  // it has just been resolved under them.
  ghost predicate Orderly(ops: seq<Op>) {
    ops == [] ||
    (var before, op := ops[..|ops| - 1], ops[|ops| - 1];
     Orderly(before) && (op.Upsert? ==> Listed(Run(EMPTY, before).sources, op.id, op.event)))
  }

  lemma {:induction false} OrderlyRunsListTheirOwn(ops: seq<Op>)
    requires Orderly(ops)
    ensures Issued(Run(EMPTY, ops)) && OwnListed(Run(EMPTY, ops))
    decreases |ops|
  {
    if ops != [] {
      var before, op := ops[..|ops| - 1], ops[|ops| - 1];
      OrderlyRunsListTheirOwn(before);
      IssuedStep(Run(EMPTY, before), op);
      OwnListedStep(Run(EMPTY, before), op);
    }
  }

  lemma {:induction false} ServiceRunsAreMirrored(ops: seq<Op>)
    requires forall op :: op in ops ==> !op.Upsert?
    ensures Issued(Run(EMPTY, ops)) && Mirrored(Run(EMPTY, ops))
    decreases |ops|
  {
    if ops != [] {
      var before, op := ops[..|ops| - 1], ops[|ops| - 1];
      assert op in ops && forall o :: o in before ==> o in ops;
      ServiceRunsAreMirrored(before);
      IssuedStep(Run(EMPTY, before), op);
      MirroredStep(Run(EMPTY, before), op);
    }
  }

  // ----- nothing is written on a guess ------------------------------------------------------

  // An answer carries an id exactly when something was attributed; an ambiguity
  // leaves no trace but its place in the queue, a rejection none at all.
  lemma NoGuess(r: Registry, q: Request)
    ensures Resolve(r, q).1.id.Some? <==> Resolve(r, q).1.verdict == Resolved || Resolve(r, q).1.verdict == Created
    ensures Resolve(r, q).1.id.Some? ==> Maps(Resolve(r, q).0.sources, q.key, Resolve(r, q).1.id.value)
    ensures Resolve(r, q).1.id.None? ==>
              && Resolve(r, q).0.sources == r.sources && Resolve(r, q).0.events == r.events
              && Resolve(r, q).0.history == r.history
    ensures Resolve(r, q).1.verdict == Rejected ==> Resolve(r, q).0 == r
    ensures Resolve(r, q).1.verdict == Ambiguous ==>
              && q.key in Resolve(r, q).0.reviews
              && Resolve(r, q).0.reviews[q.key].candidates == Matches(r, q) && |Matches(r, q)| > 1
    ensures Resolve(r, q).1.verdict == Created ==> Matches(r, q) == {} && Resolve(r, q).1.id.value == r.nextId
  {
  }

  // A mapped event takes the kick-off and status sent, keeps everything else, and
  // the history gains where it stood and where it stands - if it moved at all.
  lemma MoveIsRecorded(r: Registry, q: Request)
    requires Usable(q) && q.key in r.sources && r.sources[q.key] in r.events
    ensures var (r', answer) := Resolve(r, q);
            var id := r.sources[q.key];
            var e := r.events[id];
            && (answer.rescheduled <==> e.start != q.start)
            && r'.events == r.events[id := e.(start := q.start, status := q.status)]
            && r'.sources == r.sources && r'.reviews == r.reviews
            && r'.history == (if e.start == q.start && e.status == q.status then r.history
                              else r.history + [Change(id, q.start, q.status, Some(e.start))])
  {
    var e := r.events[r.sources[q.key]];
    if e.start == q.start && e.status == q.status { assert e.(start := q.start, status := q.status) == e; }
  }

  // An ambiguity opens a case, or brings an old one up to date without reopening it.
  lemma AmbiguityIsQueued(r: Registry, q: Request)
    requires Resolve(r, q).1.verdict == Ambiguous
    ensures var r' := Resolve(r, q).0;
            var review := if q.key in r.reviews then r.reviews[q.key] else Review({}, false, None);
            r'.reviews == r.reviews[q.key := Review(Matches(r, q), review.resolved, review.decision)]
  {
  }

  // A matched event stays as it was, but that it lists the provider's id.
  lemma LinkedAsItStood(r: Registry, q: Request)
    requires q.key !in r.sources && Resolve(r, q).1.verdict == Resolved
    ensures var (r', id) := (Resolve(r, q).0, Resolve(r, q).1.id.value);
            && id in r.events
            && r'.events == r.events[id := r.events[id].(sourceIds :=
                                             r.events[id].sourceIds[q.key.provider := q.key.eventId])]
            && r'.sources == r.sources[q.key := id] && r'.reviews == r.reviews && r'.history == r.history
            && r'.nextId == r.nextId
  {
    InRegistry(r, q);
  }

  // A new event is what was sent, under an id never used, with one history entry.
  lemma CreatedAsSent(r: Registry, q: Request)
    requires Issued(r) && Resolve(r, q).1.verdict == Created
    ensures var r' := Resolve(r, q).0;
            && r.nextId !in r.events && r'.nextId == r.nextId + 1
            && r'.events == r.events[r.nextId := Event(q.sport, q.competition, q.stage, q.season, q.pairKey, q.start,
                                                       q.status, map[q.key.provider := q.key.eventId])]
            && r'.sources == r.sources[q.key := r.nextId] && r'.reviews == r.reviews
            && r'.history == r.history + [Change(r.nextId, q.start, q.status, None)]
  {
  }

  // A decision is taken exactly when it is open to be: on an undecided case, for
  // one of its candidates, while the id is still unmapped - and only once.
  lemma DecidedOnce(r: Registry, key: SourceKey, id: Id, again: Id)
    ensures var r' := Decide(r, key, id);
            var open := && key in r.reviews && !r.reviews[key].resolved && id in r.reviews[key].candidates
                        && id in r.events && key !in r.sources;
            && (Refusal(r, key, id) == None <==> open)
            && (Refusal(r, key, id) == Some(ReviewNotFound) <==> key !in r.reviews)
            && (Refusal(r, key, id) == Some(ReviewAlreadyResolved) <==> key in r.reviews && r.reviews[key].resolved)
            && (!open ==> r' == r)
            && (open ==>
                  && r'.sources == r.sources[key := id] && r'.history == r.history
                  && r'.reviews == r.reviews[key := Review(r.reviews[key].candidates, true, Some(id))]
                  && Refusal(r', key, again) == Some(ReviewAlreadyResolved))
  {
  }

  // An id not seen before goes to an event only on the agreement of every signal -
  // sport, participants, kick-off within six hours, and no attribute named by both
  // and named differently - and only when no other event has it.
  lemma OnlyOnEverySignal(r: Registry, q: Request, id: Id)
    requires Usable(q) && q.key !in r.sources && id in r.events
    ensures var e, answer := r.events[id], Resolve(r, q).1;
            var agreed :=
              && e.sport == q.sport && e.pairKey in q.pairKeys && -21600 <= e.start - q.start <= 21600
              && (e.competition == q.competition || e.competition == "" || q.competition == "")
              && (e.stage == q.stage || e.stage == "" || q.stage == "")
              && (e.season == q.season || e.season == "" || q.season == "")
              && (forall key :: key in r.sources && key.provider == q.key.provider ==> r.sources[key] != id);
            && (answer == Resolution(Resolved, Some(id), {}, false) ==> agreed)
            && (answer.verdict == Ambiguous && id in answer.candidates ==> agreed)
            && (agreed ==> || (answer.verdict == Resolved && answer.id == Some(id))
                           || (answer.verdict == Ambiguous && id in answer.candidates))
  {
    var matches := Matches(r, q);
    assert Plausible(r.events[id], q) && !Carries(r.sources, q.key.provider, id) <==> id in matches;
    if |matches| == 1 { assert TheOne(matches) in matches && matches == {TheOne(matches)}; }
  }

  // ----- a moved kick-off stays visible -------------------------------------------------------

  function LastChange(history: seq<Change>, id: Id): Option<Change> {
    if history == [] then None
    else if history[|history| - 1].id == id then Some(history[|history| - 1])
    else LastChange(history[..|history| - 1], id)
  }

  // The last entry of an event's history is where the event stands.
  ghost predicate Told(r: Registry) {
    forall id :: id in r.events ==>
      && LastChange(r.history, id).Some?
      && LastChange(r.history, id).value.start == r.events[id].start
      && LastChange(r.history, id).value.status == r.events[id].status
  }

  lemma LastOfMore(history: seq<Change>, change: Change, id: Id)
    ensures LastChange(history + [change], id) == if change.id == id then Some(change) else LastChange(history, id)
  {
    assert (history + [change])[..|history|] == history;
  }

  // One more entry, for the one event that moved; or none, and none moved.
  ghost predicate OneChange(r: Registry, r': Registry, change: Change) {
    && r'.history == r.history + [change]
    && r'.events.Keys == r.events.Keys + {change.id}
    && r'.events[change.id].start == change.start && r'.events[change.id].status == change.status
    && forall id :: id in r.events && id != change.id ==> r'.events[id] == r.events[id]
  }

  ghost predicate NoChange(r: Registry, r': Registry) {
    && r'.history == r.history
    && r'.events.Keys == r.events.Keys
    && forall id :: id in r.events ==>
         r'.events[id].start == r.events[id].start && r'.events[id].status == r.events[id].status
  }

  lemma ToldAfterChange(r: Registry, r': Registry, change: Change)
    requires Told(r) && OneChange(r, r', change)
    ensures Told(r')
  {
    hide LastChange;
    forall id | id in r'.events
      ensures LastChange(r'.history, id).Some?
      ensures LastChange(r'.history, id).value.start == r'.events[id].start
      ensures LastChange(r'.history, id).value.status == r'.events[id].status
    {
      LastOfMore(r.history, change, id);
    }
  }

  lemma RefreshedTold(r: Registry, id: Id, start: int, status: Status)
    requires Told(r)
    ensures Told(Refreshed(r, id, start, status))
  {
    var r' := Refreshed(r, id, start, status);
    if r' != r { ToldAfterChange(r, r', Change(id, start, status, Some(r.events[id].start))); }
  }

  lemma LinkedUnmoved(r: Registry, key: SourceKey, id: Id)
    ensures NoChange(r, Linked(r, key, id))
  {
  }

  // Whether an overwrite leaves the event's kick-off and status as they are.
  predicate Agrees(r: Registry, op: Op) {
    op.Upsert? && op.id in r.events ==>
      op.event.start == r.events[op.id].start && op.event.status == r.events[op.id].status
  }

  // The batch writer's overwrite records nothing: the history goes on telling
  // where the events stand exactly when it moves none.
  lemma OverwriteTold(r: Registry, id: Id, e: Event)
    requires Issued(r) && Told(r)
    ensures Told(Next(r, Upsert(id, e))) <==> Agrees(r, Upsert(id, e))
  {
    hide LastChange;
    var r' := Next(r, Upsert(id, e));
    if id in r.events {
      assert r'.events[id] == e && r'.history == r.history;
    }
  }

  lemma ServiceStepTold(r: Registry, op: Op)
    requires Issued(r) && Told(r) && !op.Upsert?
    ensures Told(Next(r, op))
  {
    hide Matches, LastChange, Refreshed, Linked;
    match op
    case Ask(q) =>
      if Usable(q) {
        if q.key in r.sources {
          RefreshedTold(r, r.sources[q.key], q.start, q.status);
        } else if |Matches(r, q)| == 0 {
          ToldAfterChange(r, WithNew(r, q), Change(r.nextId, q.start, q.status, None));
        } else if |Matches(r, q)| == 1 {
          LinkedUnmoved(r, q.key, TheOne(Matches(r, q)));
        }
      }
    case Rule(key, id) => LinkedUnmoved(r, key, id);
  }

  // Every step keeps the history true exactly when it is no overwrite that moves
  // its event.
  lemma ToldStep(r: Registry, op: Op)
    requires Issued(r) && Told(r)
    ensures Told(Next(r, op)) <==> Agrees(r, op)
  {
    if op.Upsert? { OverwriteTold(r, op.id, op.event); } else { ServiceStepTold(r, op); }
  }

  lemma {:induction false} AlwaysIssued(ops: seq<Op>)
    ensures Issued(Run(EMPTY, ops))
    decreases |ops|
  {
    if ops != [] {
      AlwaysIssued(ops[..|ops| - 1]);
      IssuedStep(Run(EMPTY, ops[..|ops| - 1]), ops[|ops| - 1]);
    }
  }

  // No overwrite of the run moves the event it finds.
  ghost predicate Agreeing(ops: seq<Op>) {
    forall k :: 0 <= k < |ops| ==> Agrees(Run(EMPTY, ops[..k]), ops[k])
  }

  ghost predicate ToldThroughout(ops: seq<Op>) {
    forall k :: 0 <= k <= |ops| ==> Told(Run(EMPTY, ops[..k]))
  }

  // Over resolutions, decisions and overwrites in any order, the last entry of
  // every event's history is where it stands, at every moment of the run, exactly
  // when no overwrite moved an event.
  lemma HistoryTellsWhereEventsStand(ops: seq<Op>)
    ensures ToldThroughout(ops) <==> Agreeing(ops)
  {
    if Agreeing(ops) {
      forall k | 0 <= k <= |ops| ensures Told(Run(EMPTY, ops[..k])) { ToldSoFar(ops, k); }
    }
    if ToldThroughout(ops) {
      forall k | 0 <= k < |ops| ensures Agrees(Run(EMPTY, ops[..k]), ops[k]) {
        assert Told(Run(EMPTY, ops[..k])) && Told(Run(EMPTY, ops[..k + 1]));
        RunPrefix(EMPTY, ops, k);
        AlwaysIssued(ops[..k]);
        hide Run, Told, Agrees;
        ToldStep(Run(EMPTY, ops[..k]), ops[k]);
      }
    }
  }

  lemma {:induction false} ToldSoFar(ops: seq<Op>, k: nat)
    requires Agreeing(ops) && k <= |ops|
    ensures Told(Run(EMPTY, ops[..k]))
  {
    if k > 0 {
      ToldSoFar(ops, k - 1);
      RunPrefix(EMPTY, ops, k - 1);
      AlwaysIssued(ops[..k - 1]);
      hide Run, Told, Agrees;
      ToldStep(Run(EMPTY, ops[..k - 1]), ops[k - 1]);
    }
  }

  // What the batch writer does after a resolution: it overwrites the event with
  // what was asked about. That is in the history unless the request was linked to
  // an event another provider had put elsewhere, or at another status.
  lemma ResolvedThenOverwritten(r: Registry, q: Request, e: Event)
    requires Issued(r) && Told(r) && Resolve(r, q).1.id.Some?
    requires e.start == q.start && e.status == q.status
    ensures var id := Resolve(r, q).1.id.value;
            Told(Next(Resolve(r, q).0, Upsert(id, e)))
            <==> (q.key !in r.sources && id in r.events ==>
                    r.events[id].start == q.start && r.events[id].status == q.status)
  {
    var r', id := Resolve(r, q).0, Resolve(r, q).1.id.value;
    assert Next(r, Ask(q)) == r';
    IssuedStep(r, Ask(q));
    ServiceStepTold(r, Ask(q));
    StandsAfter(r, q);
    hide Resolve, Next, Told, Issued;
    OverwriteTold(r', id, e);
  }

  // Where the event answered stands after the answer.
  lemma StandsAfter(r: Registry, q: Request)
    requires Issued(r) && Resolve(r, q).1.id.Some?
    ensures var r', id := Resolve(r, q).0, Resolve(r, q).1.id.value;
            && id in r'.events
            && (q.key !in r.sources && id in r.events ==>
                  r'.events[id].start == r.events[id].start && r'.events[id].status == r.events[id].status)
            && (q.key in r.sources || id !in r.events ==>
                  r'.events[id].start == q.start && r'.events[id].status == q.status)
  {
    hide Matches;
    if q.key !in r.sources && |Matches(r, q)| == 1 { InRegistry(r, q); }
  }

  // Such a run: a second provider sees the event an hour later, is linked to it,
  // and its batch is written. The event has moved; its history says it has not.
  function SilentMove(): seq<Op> {
    [Ask(Sighting("a", "1", 0)), Ask(Sighting("b", "x", 3600)), Upsert(0, NewEvent(Sighting("b", "x", 3600)))]
  }

  lemma LinkedAnHourLater()
    ensures Run(EMPTY, SilentMove()[..2]) == Linked(Before(1), SourceKey("b", "x"), 0)
  {
    var ops := SilentMove();
    assert Matches(EMPTY, Sighting("a", "1", 0)) == {};
    assert Next(EMPTY, ops[0]) == Before(1);
    assert Matches(Before(1), Sighting("b", "x", 3600)) == {0};
    assert Next(Before(1), ops[1]) == Linked(Before(1), SourceKey("b", "x"), 0);
    assert Run(EMPTY, ops[..0]) == EMPTY;
    hide Next, Run, Before, Linked, SilentMove;
    RunPrefix(EMPTY, ops, 0);
    RunPrefix(EMPTY, ops, 1);
  }

  lemma MovedSilently()
    ensures Orderly(SilentMove()) && !Told(Run(EMPTY, SilentMove()))
  {
    LinkedAnHourLater();
    var ops := SilentMove();
    var linked, e := Linked(Before(1), SourceKey("b", "x"), 0), NewEvent(Sighting("b", "x", 3600));
    assert ops[..2][..1] == ops[..1] && ops[..1][..0] == [] && ops[..3] == ops;
    assert Orderly(ops[..2]);
    assert Maps(linked.sources, SourceKey("b", "x"), 0);
    assert linked.events[0].start == 0 && e.start == 3600 && linked.nextId == 1;
    assert LastChange(linked.history, 0) == Some(Change(0, 0, Scheduled, None));
    var after := Next(linked, Upsert(0, e));
    assert after == Run(EMPTY, ops) by { RunPrefix(EMPTY, ops, 2); }
    assert after.events[0] == e && after.history == linked.history;
  }
}
