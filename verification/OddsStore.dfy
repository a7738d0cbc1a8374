// The append-only store of prices, and what a replayed batch does to it.
module OddsStore {
  import opened Results
  import opened Identity
  import opened Acquisition

  // Of two prices with one fingerprint, the later one.
  function Incoming(prices: seq<Price>): map<Fingerprint, Price> {
    if prices == [] then map[]
    else
      var last := prices[|prices| - 1];
      Incoming(prices[..|prices| - 1])[last.fingerprint := last]
  }

  // A recorded price is a fact: it is never replaced.
  function Stored(rows: map<Fingerprint, Price>, prices: seq<Price>): map<Fingerprint, Price> {
    Incoming(prices) + rows
  }

  class OddsRepository {
    var rows: map<Fingerprint, Price>

    constructor ()
      ensures rows == map[]
    {
      rows := map[];
    }

    // Adds the fingerprints not yet stored, leaves the others as they are, and
    // returns how many it added.
    method Store(prices: seq<Price>) returns (written: nat)
      modifies this
      ensures rows == Stored(old(rows), prices)
      ensures written == |rows.Keys - old(rows).Keys|
    {
      if prices == [] {
        assert Incoming(prices) + rows == rows;
        assert rows.Keys - rows.Keys == {};
        return 0;
      }
      var incoming := ByFingerprint(prices);
      rows, written := InsertNew(rows, incoming);
    }
  }

  method InsertNew<K(!new,==), V>(before: map<K, V>, incoming: map<K, V>) returns (rows: map<K, V>, written: nat)
    ensures rows == incoming + before && written == |rows.Keys - before.Keys|
  {
    rows, written := before, 0;
    var left := incoming.Keys;
    assert rows.Keys - before.Keys == {};
    assert Inserting(before, incoming, rows, left);
    hide Inserting;
    while left != {}
      invariant left <= incoming.Keys
      invariant Inserting(before, incoming, rows, left)
      invariant written == |rows.Keys - before.Keys|
      decreases |left|
    {
      var f :| f in left;
      InsertNext(before, incoming, rows, left, f);
      if f !in before {
        OneMoreKey(before, rows, f, incoming[f]);
        rows := rows[f := incoming[f]];
        written := written + 1;
      }
      left := left - {f};
    }
    InsertDone(before, incoming, rows);
  }

  // All but some of the incoming rows inserted.
  ghost predicate Inserting<K(!new), V>(before: map<K, V>, incoming: map<K, V>, rows: map<K, V>, left: set<K>) {
    && (forall f :: f in rows <==> f in before || (f in incoming && f !in left))
    && (forall f :: f in rows ==> rows[f] == if f in before then before[f] else incoming[f])
  }

  lemma InsertNext<K(!new), V>(before: map<K, V>, incoming: map<K, V>, rows: map<K, V>, left: set<K>, f: K)
    requires Inserting(before, incoming, rows, left) && f in left && f in incoming
    ensures f in before ==> Inserting(before, incoming, rows, left - {f})
    ensures f !in before ==> f !in rows && Inserting(before, incoming, rows[f := incoming[f]], left - {f})
  {
    var left' := left - {f};
    if f !in before {
      var rows' := rows[f := incoming[f]];
      forall g ensures g in rows' <==> g in before || (g in incoming && g !in left') {}
      forall g | g in rows' ensures rows'[g] == if g in before then before[g] else incoming[g] {}
    } else {
      forall g ensures g in rows <==> g in before || (g in incoming && g !in left') {}
    }
  }

  lemma InsertDone<K(!new), V>(before: map<K, V>, incoming: map<K, V>, rows: map<K, V>)
    requires Inserting(before, incoming, rows, {})
    ensures rows == incoming + before
  {
    var merged := incoming + before;
    assert rows.Keys == merged.Keys;
    forall f | f in merged ensures rows[f] == merged[f] {}
  }

  lemma OneMoreKey<K, V>(before: map<K, V>, rows: map<K, V>, f: K, v: V)
    requires f !in before && f !in rows
    ensures |rows[f := v].Keys - before.Keys| == |rows.Keys - before.Keys| + 1
  {
    assert rows[f := v].Keys - before.Keys == (rows.Keys - before.Keys) + {f};
  }

  method ByFingerprint(prices: seq<Price>) returns (incoming: map<Fingerprint, Price>)
    ensures incoming == Incoming(prices)
  {
    incoming := map[];
    var i := 0;
    while i < |prices|
      invariant 0 <= i <= |prices|
      invariant incoming == Incoming(prices[..i])
    {
      assert prices[..i + 1][..i] == prices[..i];
      incoming := incoming[prices[i].fingerprint := prices[i]];
      i := i + 1;
    }
    assert prices[..|prices|] == prices;
  }

  lemma {:induction false} IncomingKeys(prices: seq<Price>, f: Fingerprint)
    ensures f in Incoming(prices) <==> exists p :: p in prices && p.fingerprint == f
  {
    if prices != [] {
      var before, last := prices[..|prices| - 1], prices[|prices| - 1];
      IncomingKeys(before, f);
      assert last in prices && forall p :: p in before ==> p in prices;
      assert forall p :: p in prices ==> p in before || p == last;
    }
  }

  // Of the prices of one fingerprint the last one counts.
  lemma {:induction false} IncomingIsLast(prices: seq<Price>, f: Fingerprint)
    requires f in Incoming(prices)
    ensures exists i ::
              && 0 <= i < |prices| && prices[i].fingerprint == f && Incoming(prices)[f] == prices[i]
              && forall j :: i < j < |prices| ==> prices[j].fingerprint != f
  {
    var n := |prices| - 1;
    if prices[n].fingerprint != f {
      IncomingIsLast(prices[..n], f);
      var i :| 0 <= i < n && prices[..n][i].fingerprint == f && Incoming(prices[..n])[f] == prices[..n][i]
               && forall j :: i < j < n ==> prices[..n][j].fingerprint != f;
      assert forall j :: i < j < n ==> prices[j] == prices[..n][j];
    }
  }

  // ----- replay ---------------------------------------------------------------------------

  lemma {:induction false} RegisteredExtends(r: Registry, events: seq<ProviderEvent>, provider: string)
    ensures Extends(r, Registered(r, events, provider))
  {
    if events != [] {
      RegisteredExtends(r, events[..|events| - 1], provider);
      OneResolution(Registered(r, events[..|events| - 1], provider), RequestFor(events[|events| - 1], provider));
      hide Resolve;
    }
  }

  // Registering a prefix of a batch is on the way to registering it all.
  lemma {:induction false} PrefixExtends(r: Registry, events: seq<ProviderEvent>, provider: string, i: nat)
    requires i <= |events|
    ensures Extends(Registered(r, events[..i], provider), Registered(r, events, provider))
  {
    if i == |events| {
      assert events[..i] == events;
    } else {
      var before := events[..|events| - 1];
      assert before[..i] == events[..i];
      PrefixExtends(r, before, provider, i);
      OneResolution(Registered(r, before, provider), RequestFor(events[|events| - 1], provider));
      hide Resolve;
    }
  }

  // An event once attributed gets the same answer in every later run of its
  // batch - whatever was resolved, decided or overwritten in between.
  lemma AttributionIsStable(r: Registry, batch: Batch, ops: seq<Op>, i: nat)
    requires i < |batch.events| && Answer(r, batch.events, batch.provider, i).id.Some?
    ensures var later := Run(Registered(r, batch.events, batch.provider), ops);
            Answer(later, batch.events, batch.provider, i).id == Answer(r, batch.events, batch.provider, i).id
  {
    var events, provider := batch.events, batch.provider;
    var before, q := Registered(r, events[..i], provider), RequestFor(events[i], provider);
    var id := Answer(r, events, provider, i).id.value;
    assert Usable(q);
    NoGuess(before, q);
    assert events[..i + 1][..i] == events[..i];
    assert Maps(Registered(r, events[..i + 1], provider).sources, q.key, id);
    PrefixExtends(r, events, provider, i + 1);
    var after := Registered(r, events, provider);
    TheMapOnlyGrows(after, ops);
    RegisteredExtends(Run(after, ops), events[..i], provider);
  }

  // The last event of a name to be attributed, the one its prices follow.
  ghost predicate Leads(r: Registry, events: seq<ProviderEvent>, provider: string, name: string, i: nat) {
    && i < |events| && events[i].name == name && Answer(r, events, provider, i).id.Some?
    && forall j :: i < j < |events| && events[j].name == name ==> Answer(r, events, provider, j).id.None?
  }

  lemma RemapStep(r: Registry, events: seq<ProviderEvent>, provider: string)
    requires events != []
    ensures var n := |events| - 1;
            var before, answer := Remap(r, events[..n], provider), Answer(r, events, provider, n);
            Remap(r, events, provider) == if answer.id.Some? then before[events[n].name := answer.id.value] else before
  {
  }

  lemma AnswerInPrefix(r: Registry, events: seq<ProviderEvent>, provider: string, n: nat, i: nat)
    requires i < n <= |events|
    ensures Answer(r, events[..n], provider, i) == Answer(r, events, provider, i)
  {
    assert events[..n][..i] == events[..i];
  }

  lemma LeadsOn(r: Registry, events: seq<ProviderEvent>, provider: string, name: string, i: nat)
    requires events != [] && Leads(r, events[..|events| - 1], provider, name, i)
    requires events[|events| - 1].name == name ==> Answer(r, events, provider, |events| - 1).id.None?
    ensures Leads(r, events, provider, name, i)
  {
    var n := |events| - 1;
    hide Answer;
    AnswerInPrefix(r, events, provider, n, i);
    forall j | i < j < |events| && events[j].name == name ensures Answer(r, events, provider, j).id.None? {
      if j < n {
        AnswerInPrefix(r, events, provider, n, j);
        assert events[..n][j] == events[j];
      }
    }
  }

  // Where a name leads is where the last of its events to be attributed leads.
  lemma {:induction false} RemapFollows(r: Registry, events: seq<ProviderEvent>, provider: string, name: string)
    ensures name in Remap(r, events, provider) ==>
              exists i :: Leads(r, events, provider, name, i)
                          && Remap(r, events, provider)[name] == Answer(r, events, provider, i).id.value
    decreases |events|
  {
    if events != [] {
      var n := |events| - 1;
      RemapStep(r, events, provider);
      RemapFollows(r, events[..n], provider, name);
      hide Answer, Remap;
      if events[n].name == name && Answer(r, events, provider, n).id.Some? {
        assert Leads(r, events, provider, name, n);
      } else if name in Remap(r, events[..n], provider) {
        var i :| Leads(r, events[..n], provider, name, i)
                 && Remap(r, events[..n], provider)[name] == Answer(r, events[..n], provider, i).id.value;
        AnswerInPrefix(r, events, provider, n, i);
        LeadsOn(r, events, provider, name, i);
      }
    }
  }

  lemma {:induction false} AnsweredIsRemapped(r: Registry, events: seq<ProviderEvent>, provider: string, i: nat)
    requires i < |events| && Answer(r, events, provider, i).id.Some?
    ensures events[i].name in Remap(r, events, provider)
    decreases |events|
  {
    var n := |events| - 1;
    RemapStep(r, events, provider);
    if i < n {
      AnswerInPrefix(r, events, provider, n, i);
      AnsweredIsRemapped(r, events[..n], provider, i);
    }
  }

  // Unattributed the first time, attributed the second.
  ghost predicate NewlyAttributed(r: Registry, later: Registry, events: seq<ProviderEvent>, provider: string,
                                  name: string) {
    exists i ::
      && 0 <= i < |events| && events[i].name == name
      && Answer(r, events, provider, i).id.None? && Answer(later, events, provider, i).id.Some?
  }

  // A name leads where it led, unless one of its events was newly attributed.
  lemma NameLeadsWhereItLed(r: Registry, batch: Batch, ops: seq<Op>, name: string)
    requires name in Remap(Run(Registered(r, batch.events, batch.provider), ops), batch.events, batch.provider)
    ensures var later := Run(Registered(r, batch.events, batch.provider), ops);
            || NewlyAttributed(r, later, batch.events, batch.provider, name)
            || (&& name in Remap(r, batch.events, batch.provider)
                && Remap(r, batch.events, batch.provider)[name] == Remap(later, batch.events, batch.provider)[name])
  {
    var events, provider := batch.events, batch.provider;
    var later := Run(Registered(r, events, provider), ops);
    hide Answer, Remap, Run;
    RemapFollows(later, events, provider, name);
    RemapFollows(r, events, provider, name);
    var k :| Leads(later, events, provider, name, k)
             && Remap(later, events, provider)[name] == Answer(later, events, provider, k).id.value;
    if Answer(r, events, provider, k).id.Some? {
      AnsweredIsRemapped(r, events, provider, k);
      var i :| Leads(r, events, provider, name, i)
               && Remap(r, events, provider)[name] == Answer(r, events, provider, i).id.value;
      AttributionIsStable(r, batch, ops, i);
      AttributionIsStable(r, batch, ops, k);
      assert i == k;
    }
  }

  lemma {:induction false} KeptFrom(quotes: seq<Quote>, remap: map<string, Id>, p: Price)
    ensures p in Kept(quotes, remap) <==> exists q :: q in quotes && q.event in remap && p == PriceOf(q, remap[q.event])
  {
    if quotes != [] {
      var before, last := quotes[..|quotes| - 1], quotes[|quotes| - 1];
      KeptFrom(before, remap, p);
      assert last in quotes && forall q :: q in before ==> q in quotes;
      assert forall q :: q in quotes ==> q in before || q == last;
    }
  }

  // The same batch again, any time later: a price it adds goes by the name of an
  // event that was not attributed the first time.
  lemma ReplayAddsOnlyNewlyAttributed(r: Registry, batch: Batch, ops: seq<Op>, rows: map<Fingerprint, Price>,
                                      f: Fingerprint)
    requires var later := Run(Registered(r, batch.events, batch.provider), ops);
             var first := Stored(rows, Kept(batch.quotes, Remap(r, batch.events, batch.provider)));
             f in Stored(first, Kept(batch.quotes, Remap(later, batch.events, batch.provider))) && f !in first
    ensures var later := Run(Registered(r, batch.events, batch.provider), ops);
            var again := Remap(later, batch.events, batch.provider);
            exists q :: q in batch.quotes && q.event in again && f == PriceOf(q, again[q.event]).fingerprint
                        && NewlyAttributed(r, later, batch.events, batch.provider, q.event)
  {
    var once := Remap(r, batch.events, batch.provider);
    var later := Run(Registered(r, batch.events, batch.provider), ops);
    var again := Remap(later, batch.events, batch.provider);
    IncomingKeys(Kept(batch.quotes, again), f);
    IncomingKeys(Kept(batch.quotes, once), f);
    var p :| p in Kept(batch.quotes, again) && p.fingerprint == f;
    KeptFrom(batch.quotes, again, p);
    var q :| q in batch.quotes && q.event in again && p == PriceOf(q, again[q.event]);
    NameLeadsWhereItLed(r, batch, ops, q.event);
    KeptFrom(batch.quotes, once, p);
  }

  // With every event attributed the first time, it adds none at all.
  lemma ReplayWritesNothing(r: Registry, batch: Batch, ops: seq<Op>, rows: map<Fingerprint, Price>)
    requires forall i :: 0 <= i < |batch.events| ==> Answer(r, batch.events, batch.provider, i).id.Some?
    ensures var later := Run(Registered(r, batch.events, batch.provider), ops);
            var first := Stored(rows, Kept(batch.quotes, Remap(r, batch.events, batch.provider)));
            Stored(first, Kept(batch.quotes, Remap(later, batch.events, batch.provider))) == first
  {
    var later := Run(Registered(r, batch.events, batch.provider), ops);
    var first := Stored(rows, Kept(batch.quotes, Remap(r, batch.events, batch.provider)));
    var second := Stored(first, Kept(batch.quotes, Remap(later, batch.events, batch.provider)));
    hide Answer, Remap, Run;
    forall f | f in second ensures f in first {
      if f !in first { ReplayAddsOnlyNewlyAttributed(r, batch, ops, rows, f); }
    }
  }
}
