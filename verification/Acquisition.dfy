// From a provider's batch to stored prices: every event is resolved first, every
// price follows its event or is dropped and reported.
module Acquisition {
  import opened Results
  import opened Identity
  import opened IdentityService

  // What a provider sent about one event; `name` is the provider-side id under
  // which its prices refer to it.
  datatype ProviderEvent = ProviderEvent(name: string, sourceIds: map<string, string>, named: bool, sport: string,
                                         competition: string, stage: string, season: string, pairKey: string,
                                         pairKeys: set<string>, start: int, status: Status)

  datatype Quote = Quote(provider: string, bookmaker: string, event: string, selection: string, odds: string,
                         observedAt: int, details: string)

  datatype Batch = Batch(provider: string, events: seq<ProviderEvent>, quotes: seq<Quote>)

  // The fields the deduplication key is a digest of.
  datatype Fingerprint = Fingerprint(provider: string, bookmaker: string, event: Id, selection: string,
                                     odds: string, observedAt: int)

  datatype Price = Price(fingerprint: Fingerprint, details: string)

  // ----- resolution ---------------------------------------------------------------------

  function SourceIdOf(e: ProviderEvent, provider: string): string {
    if provider in e.sourceIds && e.sourceIds[provider] != "" then e.sourceIds[provider] else e.name
  }

  function RequestFor(e: ProviderEvent, provider: string): Request {
    Request(SourceKey(provider, SourceIdOf(e, provider)), e.named, e.sport, e.competition, e.stage, e.season,
            e.pairKey, e.pairKeys, e.start, e.status)
  }

  function Registered(r: Registry, events: seq<ProviderEvent>, provider: string): Registry {
    if events == [] then r
    else Resolve(Registered(r, events[..|events| - 1], provider), RequestFor(events[|events| - 1], provider)).0
  }

  // The answer to the i-th event.
  function Answer(r: Registry, events: seq<ProviderEvent>, provider: string, i: nat): Resolution
    requires i < |events|
  {
    Resolve(Registered(r, events[..i], provider), RequestFor(events[i], provider)).1
  }

  // Where the events' names lead; of two events of one name the later one counts.
  function Remap(r: Registry, events: seq<ProviderEvent>, provider: string): map<string, Id> {
    if events == [] then map[]
    else
      var last, before := events[|events| - 1], Remap(r, events[..|events| - 1], provider);
      var answer := Resolve(Registered(r, events[..|events| - 1], provider), RequestFor(last, provider)).1;
      if answer.id.Some? then before[last.name := answer.id.value] else before
  }

  function PriceOf(q: Quote, id: Id): Price {
    Price(Fingerprint(q.provider, q.bookmaker, id, q.selection, q.odds, q.observedAt), q.details)
  }

  function Kept(quotes: seq<Quote>, remap: map<string, Id>): seq<Price> {
    if quotes == [] then []
    else
      var last, before := quotes[|quotes| - 1], Kept(quotes[..|quotes| - 1], remap);
      if last.event in remap then before + [PriceOf(last, remap[last.event])] else before
  }

  function Dropped(quotes: seq<Quote>, remap: map<string, Id>): nat {
    if quotes == [] then 0
    else Dropped(quotes[..|quotes| - 1], remap) + if quotes[|quotes| - 1].event in remap then 0 else 1
  }

  datatype Attributed = Attributed(event: ProviderEvent, id: Id)

  // The events whose answer carries an id, with it, and those whose does not.
  function AttributedOf(r: Registry, events: seq<ProviderEvent>, provider: string): seq<Attributed> {
    if events == [] then []
    else
      var last, before := events[|events| - 1], AttributedOf(r, events[..|events| - 1], provider);
      var answer := Resolve(Registered(r, events[..|events| - 1], provider), RequestFor(last, provider)).1;
      if answer.id.Some? then before + [Attributed(last, answer.id.value)] else before
  }

  function UnattributedOf(r: Registry, events: seq<ProviderEvent>, provider: string): seq<ProviderEvent> {
    if events == [] then []
    else
      var last, before := events[|events| - 1], UnattributedOf(r, events[..|events| - 1], provider);
      var answer := Resolve(Registered(r, events[..|events| - 1], provider), RequestFor(last, provider)).1;
      if answer.id.Some? then before else before + [last]
  }

  // Every event of the batch ends up attributed or reported, each in its order,
  // and so does every price; a kept one belongs to an attributed event.
  method ResolveIdentity(service: EventIdentityService, batch: Batch)
    returns (events: seq<Attributed>, prices: seq<Price>, unattributable: seq<ProviderEvent>, reports: nat)
    modifies service
    ensures service.State() == Registered(old(service.State()), batch.events, batch.provider)
    ensures prices == Kept(batch.quotes, Remap(old(service.State()), batch.events, batch.provider))
    ensures events == AttributedOf(old(service.State()), batch.events, batch.provider)
    ensures unattributable == UnattributedOf(old(service.State()), batch.events, batch.provider)
    ensures |events| + |unattributable| == |batch.events|
    ensures |prices| + reports == |batch.quotes| + |unattributable|
    ensures forall a :: a in events ==> AttributedIn(service.State(), batch, a)
    ensures forall p :: p in prices ==> ServesName(events, p.fingerprint.event)
  {
    ghost var start := service.State();
    NothingResolved(start, batch);
    hide Resolving, Kept, Dropped, Remap, Registered, AttributedOf, UnattributedOf, AttributedIn, ServesName;
    var remap: map<string, Id> := map[];
    events, unattributable := [], [];
    var i := 0;
    while i < |batch.events|
      invariant 0 <= i <= |batch.events|
      invariant Resolving(start, service.State(), batch, i, remap, events, unattributable)
    {
      var event := batch.events[i];
      ghost var before := service.State();
      var answer := service.ResolveEvent(RequestFor(event, batch.provider));
      OneMoreEvent(start, before, batch, i, remap, events, unattributable);
      if answer.id.Some? {
        remap := remap[event.name := answer.id.value];
        events := events + [Attributed(event, answer.id.value)];
      } else {
        unattributable := unattributable + [event];
      }
      i := i + 1;
    }
    AllResolved(start, service.State(), batch, remap, events, unattributable);
    prices, reports := KeepPrices(batch.quotes, remap);
    KeptAreServed(batch.quotes, remap, events);
    reports := reports + |unattributable|;
  }

  // The batch as far as its first i events.
  ghost predicate Resolving(r: Registry, r': Registry, batch: Batch, i: nat, remap: map<string, Id>,
                            events: seq<Attributed>, unattributable: seq<ProviderEvent>)
  {
    && i <= |batch.events|
    && r' == Registered(r, batch.events[..i], batch.provider)
    && remap == Remap(r, batch.events[..i], batch.provider)
    && events == AttributedOf(r, batch.events[..i], batch.provider)
    && unattributable == UnattributedOf(r, batch.events[..i], batch.provider)
    && |events| + |unattributable| == i
    && (forall a :: a in events ==> AttributedIn(r', batch, a))
    && (forall name :: name in remap ==> ServesName(events, remap[name]))
  }

  lemma NothingResolved(r: Registry, batch: Batch)
    ensures Resolving(r, r, batch, 0, map[], [], [])
  {
  }

  lemma OneMoreEvent(r: Registry, r': Registry, batch: Batch, i: nat, remap: map<string, Id>,
                     events: seq<Attributed>, unattributable: seq<ProviderEvent>)
    requires i < |batch.events| && Resolving(r, r', batch, i, remap, events, unattributable)
    ensures var e := batch.events[i];
            var (after, answer) := Resolve(r', RequestFor(e, batch.provider));
            if answer.id.Some? then
              Resolving(r, after, batch, i + 1, remap[e.name := answer.id.value],
                        events + [Attributed(e, answer.id.value)], unattributable)
            else Resolving(r, after, batch, i + 1, remap, events, unattributable + [e])
  {
    var e := batch.events[i];
    var q := RequestFor(e, batch.provider);
    var (after, answer) := Resolve(r', q);
    assert batch.events[..i + 1][..i] == batch.events[..i];
    StillAttributed(r', q, batch, events);
    NoGuess(r', q);
    hide Resolve;
    if answer.id.Some? {
      StillServed(events, Attributed(e, answer.id.value));
      hide ServesName;
    }
  }

  lemma AllResolved(r: Registry, r': Registry, batch: Batch, remap: map<string, Id>, events: seq<Attributed>,
                    unattributable: seq<ProviderEvent>)
    requires Resolving(r, r', batch, |batch.events|, remap, events, unattributable)
    ensures r' == Registered(r, batch.events, batch.provider) && remap == Remap(r, batch.events, batch.provider)
    ensures events == AttributedOf(r, batch.events, batch.provider)
    ensures unattributable == UnattributedOf(r, batch.events, batch.provider)
    ensures |events| + |unattributable| == |batch.events|
    ensures forall a :: a in events ==> AttributedIn(r', batch, a)
    ensures forall name :: name in remap ==> ServesName(events, remap[name])
  {
    assert batch.events[..|batch.events|] == batch.events;
  }

  method KeepPrices(quotes: seq<Quote>, remap: map<string, Id>) returns (prices: seq<Price>, dropped: nat)
    ensures prices == Kept(quotes, remap) && dropped == Dropped(quotes, remap)
    ensures |prices| + dropped == |quotes|
  {
    prices, dropped := [], 0;
    var i := 0;
    while i < |quotes|
      invariant 0 <= i <= |quotes|
      invariant prices == Kept(quotes[..i], remap) && dropped == Dropped(quotes[..i], remap)
      invariant |prices| + dropped == i
    {
      var quote := quotes[i];
      assert quotes[..i + 1][..i] == quotes[..i];
      if quote.event in remap {
        prices := prices + [PriceOf(quote, remap[quote.event])];
      } else {
        dropped := dropped + 1;
      }
      i := i + 1;
    }
    assert quotes[..|quotes|] == quotes;
  }

  ghost predicate AttributedIn(r: Registry, batch: Batch, a: Attributed) {
    a.event in batch.events && Maps(r.sources, SourceKey(batch.provider, SourceIdOf(a.event, batch.provider)), a.id)
  }

  ghost predicate ServesName(events: seq<Attributed>, id: Id) {
    exists a :: a in events && a.id == id
  }

  // The row the batch writer overwrites an attributed event with.
  function StoredEvent(e: ProviderEvent): Event {
    Event(e.sport, e.competition, e.stage, e.season, e.pairKey, e.start, e.status, e.sourceIds)
  }

  // A provider that lists its own id only is listed under ids mapped to the event.
  lemma BatchWritesAreListed(r: Registry, batch: Batch, a: Attributed)
    requires AttributedIn(r, batch, a)
    requires forall p :: p in a.event.sourceIds ==> p == batch.provider && a.event.sourceIds[p] != ""
    ensures Listed(r.sources, a.id, StoredEvent(a.event))
  {
  }

  lemma OneResolution(r: Registry, q: Request)
    ensures Extends(r, Resolve(r, q).0)
  {
    var ops := [Ask(q)];
    assert ops[..|ops| - 1] == [];
    assert Run(r, []) == r;
    TheMapOnlyGrows(r, ops);
  }

  lemma StillAttributed(r: Registry, q: Request, batch: Batch, events: seq<Attributed>)
    requires forall a :: a in events ==> AttributedIn(r, batch, a)
    ensures forall a :: a in events ==> AttributedIn(Resolve(r, q).0, batch, a)
  {
    OneResolution(r, q);
    hide Resolve;
  }

  lemma StillServed(events: seq<Attributed>, a: Attributed)
    ensures forall id :: ServesName(events, id) ==> ServesName(events + [a], id)
    ensures ServesName(events + [a], a.id)
    ensures forall b :: b in events + [a] <==> b in events || b == a
  {
    assert (events + [a])[|events|] == a;
    forall id | ServesName(events, id) ensures ServesName(events + [a], id) {
      var b :| b in events && b.id == id;
      assert b in events + [a];
    }
  }

  lemma {:induction false} KeptAreServed(quotes: seq<Quote>, remap: map<string, Id>, events: seq<Attributed>)
    requires forall name :: name in remap ==> ServesName(events, remap[name])
    ensures forall p :: p in Kept(quotes, remap) ==> ServesName(events, p.fingerprint.event)
  {
    if quotes != [] { KeptAreServed(quotes[..|quotes| - 1], remap, events); }
  }

  // ----- what is resolved is what was sent --------------------------------------------------

  // An event not seen before joins a known one only if what the provider sent
  // agrees with it.
  lemma JoinsOnlyItsLike(r: Registry, e: ProviderEvent, provider: string)
    requires Issued(r) && SourceKey(provider, SourceIdOf(e, provider)) !in r.sources
    requires Resolve(r, RequestFor(e, provider)).1.verdict == Resolved
    ensures var id := Resolve(r, RequestFor(e, provider)).1.id.value;
            && id in r.events
            && var known := r.events[id];
               && known.sport == e.sport && known.pairKey in e.pairKeys && -21600 <= known.start - e.start <= 21600
               && (known.competition == e.competition || known.competition == "" || e.competition == "")
               && (known.stage == e.stage || known.stage == "" || e.stage == "")
               && (known.season == e.season || known.season == "" || e.season == "")
  {
    var q := RequestFor(e, provider);
    InRegistry(r, q);
    OnlyOnEverySignal(r, q, Resolve(r, q).1.id.value);
  }

  // A new one is stored as the batch writer would overwrite it, but for its ids; one
  // without an id or without its two names is refused.
  lemma StoredAsSent(r: Registry, e: ProviderEvent, provider: string)
    requires Issued(r)
    ensures var (r', answer) := Resolve(r, RequestFor(e, provider));
            && (answer.verdict == Rejected <==> SourceIdOf(e, provider) == "" || !e.named)
            && (answer.verdict == Created ==>
                  && r.nextId in r'.events
                  && r'.events[r.nextId] == StoredEvent(e).(sourceIds := map[provider := SourceIdOf(e, provider)]))
  {
    var q := RequestFor(e, provider);
    if Resolve(r, q).1.verdict == Created { CreatedAsSent(r, q); }
  }

  // Two prices are one fact exactly when everything but the details agrees.
  lemma OneFact(q: Quote, q': Quote, id: Id, id': Id)
    ensures PriceOf(q, id).fingerprint == PriceOf(q', id').fingerprint
            <==> && q.provider == q'.provider && q.bookmaker == q'.bookmaker && q.selection == q'.selection
                 && q.odds == q'.odds && q.observedAt == q'.observedAt && id == id'
    ensures PriceOf(q, id).details == q.details
  {
  }
}
