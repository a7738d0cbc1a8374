// The corrective migration: upgrading turns every usable entry of the
// `source_ids` column into a mapping row, downgrading folds the rows back.
module SourceMapMigration {
  import opened Results
  import opened Identity

  type Column = map<Id, map<string, string>>

  datatype SourceRow = SourceRow(key: SourceKey, id: Id)

  datatype MigrationError = Refused

  // ----- upgrade -----------------------------------------------------------------------

  predicate Usable(key: SourceKey) {
    key.provider != "" && key.eventId != ""
  }

  // The column says that this event goes by this key.
  predicate Claims(column: Column, key: SourceKey, id: Id) {
    Usable(key) && id in column && key.provider in column[id] && column[id][key.provider] == key.eventId
  }

  // Two events claim one key, or one claims a key mapped to another.
  ghost predicate Contested(column: Column, sources: map<SourceKey, Id>) {
    exists key, id :: Claims(column, key, id) && Contests(column, sources, key, id)
  }

  ghost predicate Contests(column: Column, sources: map<SourceKey, Id>, key: SourceKey, id: Id) {
    || (key in sources && sources[key] != id)
    || exists other :: Claims(column, key, other) && other != id
  }

  // The map after the upgrade: what was mapped, and what the column claims.
  ghost predicate Backfills(column: Column, sources: map<SourceKey, Id>, after: map<SourceKey, Id>) {
    forall key, id :: Maps(after, key, id) <==> Maps(sources, key, id) || Claims(column, key, id)
  }

  // The entries of some events.
  ghost predicate Through(column: Column, sources: map<SourceKey, Id>, after: map<SourceKey, Id>, ids: set<Id>) {
    forall key, id :: Maps(after, key, id) <==> Maps(sources, key, id) || (Claims(column, key, id) && id in ids)
  }

  // Those, and some entries of one more.
  ghost predicate Partly(column: Column, sources: map<SourceKey, Id>, after: map<SourceKey, Id>,
                         ids: set<Id>, id: Id, providers: set<string>) {
    forall key, i :: Maps(after, key, i)
      <==> Maps(sources, key, i) || (Claims(column, key, i) && (i in ids || (i == id && key.provider in providers)))
  }

  method BackfillEventSourceMap(column: Column, sources: map<SourceKey, Id>)
    returns (r: Result<map<SourceKey, Id>, MigrationError>)
    ensures r.Raised? <==> Contested(column, sources)
    ensures r.Ok? ==> Backfills(column, sources, r.value)
    // whatever is listed under a name, and nothing that is not
    ensures r.Ok? ==> forall id, p :: id in column && p in column[id] && p != "" && column[id][p] != "" ==>
              Maps(r.value, SourceKey(p, column[id][p]), id)
    ensures r.Ok? ==> forall key :: key in r.value && key !in sources ==>
              && key.provider != "" && key.eventId != "" && r.value[key] in column
              && key.provider in column[r.value[key]] && column[r.value[key]][key.provider] == key.eventId
  {
    var existing: map<SourceKey, Id> := sources;
    var ids, done := column.Keys, {};
    while ids != {}
      invariant ids + done == column.Keys && ids !! done
      invariant Through(column, sources, existing, done)
      decreases |ids|
    {
      var id :| id in ids;
      var owned := BackfillEvent(column, sources, existing, done, id);
      if owned.Raised? { return Raised(Refused); }
      existing := owned.value;
      ids, done := ids - {id}, done + {id};
    }
    NotContested(column, sources, existing);
    ListedAreMapped(column, sources, existing);
    r := Ok(existing);
  }

  lemma ListedAreMapped(column: Column, sources: map<SourceKey, Id>, after: map<SourceKey, Id>)
    requires Backfills(column, sources, after)
    ensures forall id, p :: id in column && p in column[id] && p != "" && column[id][p] != "" ==>
              Maps(after, SourceKey(p, column[id][p]), id)
    ensures forall key :: key in after && key !in sources ==>
              && key.provider != "" && key.eventId != "" && after[key] in column
              && key.provider in column[after[key]] && column[after[key]][key.provider] == key.eventId
  {
    forall id, p | id in column && p in column[id] && p != "" && column[id][p] != ""
      ensures Maps(after, SourceKey(p, column[id][p]), id)
    {
      assert Claims(column, SourceKey(p, column[id][p]), id);
    }
    forall key | key in after && key !in sources ensures Claims(column, key, after[key]) {
      assert Maps(after, key, after[key]);
    }
  }

  method BackfillEvent(column: Column, ghost sources: map<SourceKey, Id>, before: map<SourceKey, Id>,
                       ghost done: set<Id>, id: Id)
    returns (r: Result<map<SourceKey, Id>, MigrationError>)
    requires id in column && id !in done && Through(column, sources, before, done)
    ensures r.Raised? ==> Contested(column, sources)
    ensures r.Ok? ==> Through(column, sources, r.value, done + {id})
  {
    var existing: map<SourceKey, Id> := before;
    var providers, seen := column[id].Keys, {};
    while providers != {}
      invariant providers + seen == column[id].Keys && providers !! seen
      invariant Partly(column, sources, existing, done, id, seen)
      decreases |providers|
    {
      var p :| p in providers;
      var key := SourceKey(p, column[id][p]);
      if Usable(key) {
        if key in existing && existing[key] != id {
          Clash(column, sources, existing, done, id, seen, key);
          return Raised(Refused);
        }
        existing := existing[key := id];
      }
      providers, seen := providers - {p}, seen + {p};
    }
    r := Ok(existing);
  }

  lemma Clash(column: Column, sources: map<SourceKey, Id>, existing: map<SourceKey, Id>, done: set<Id>, id: Id,
              seen: set<string>, key: SourceKey)
    requires Partly(column, sources, existing, done, id, seen)
    requires Claims(column, key, id) && key in existing && existing[key] != id
    ensures Contested(column, sources)
  {
    assert Maps(existing, key, existing[key]);
    assert Contests(column, sources, key, id);
  }

  lemma NotContested(column: Column, sources: map<SourceKey, Id>, after: map<SourceKey, Id>)
    requires Backfills(column, sources, after)
    ensures !Contested(column, sources)
  {
    forall key, id | Claims(column, key, id) ensures !Contests(column, sources, key, id) {
      assert Maps(after, key, id);
      if key in sources { assert Maps(sources, key, sources[key]) && Maps(after, key, sources[key]); }
      forall other | Claims(column, key, other) ensures other == id { assert Maps(after, key, other); }
    }
  }

  // A second upgrade finds nothing to add and nothing to refuse.
  lemma BackfillingTwice(column: Column, sources: map<SourceKey, Id>, after: map<SourceKey, Id>, again: map<SourceKey, Id>)
    requires Backfills(column, sources, after)
    ensures !Contested(column, after)
    ensures Backfills(column, after, again) <==> again == after
  {
    assert Backfills(column, after, after);
    NotContested(column, after, after);
    if Backfills(column, after, again) { SameMap(after, again); }
  }

  lemma SameMap(a: map<SourceKey, Id>, b: map<SourceKey, Id>)
    requires forall key, id :: Maps(a, key, id) <==> Maps(b, key, id)
    ensures a == b
  {
    forall key ensures key in a <==> key in b {
      if key in a { assert Maps(a, key, a[key]); }
      if key in b { assert Maps(b, key, b[key]); }
    }
    forall key | key in a ensures a[key] == b[key] { assert Maps(a, key, a[key]); }
  }

  // ----- downgrade ----------------------------------------------------------------------

  // The ids one event is known by, provider by provider; of two rows for one
  // provider the later one is kept.
  function Discovered(rows: seq<SourceRow>, id: Id): map<string, string> {
    if rows == [] then map[]
    else
      var last, before := rows[|rows| - 1], Discovered(rows[..|rows| - 1], id);
      if last.id == id then before[last.key.provider := last.key.eventId] else before
  }

  predicate Contradicts(existing: map<string, string>, discovered: map<string, string>) {
    exists p :: p in discovered && p in existing && existing[p] != discovered[p]
  }

  ghost predicate Contradicted(rows: seq<SourceRow>, column: Column) {
    exists id :: id in column && Contradicts(column[id], Discovered(rows, id))
  }

  function Folded(rows: seq<SourceRow>, column: Column): Column {
    map id | id in column :: column[id] + Discovered(rows, id)
  }

  // Folded as far as these events go, and refused by none of them.
  ghost predicate Folding(rows: seq<SourceRow>, column: Column, folded: Column, left: set<Id>) {
    && folded.Keys == column.Keys
    && forall id :: id in column ==>
         if id in left then folded[id] == column[id]
         else folded[id] == column[id] + Discovered(rows, id) && !Contradicts(column[id], Discovered(rows, id))
  }

  lemma FoldStarts(rows: seq<SourceRow>, column: Column, ids: set<Id>)
    requires forall id :: id !in ids ==> Discovered(rows, id) == map[]
    ensures Folding(rows, column, column, ids)
  {
    forall id | id in column && id !in ids ensures column[id] + Discovered(rows, id) == column[id] {}
  }

  lemma FoldNext(rows: seq<SourceRow>, column: Column, folded: Column, left: set<Id>, id: Id)
    requires Folding(rows, column, folded, left) && id in left
    requires !Contradicts(if id in column then column[id] else map[], Discovered(rows, id))
    ensures Folding(rows, column,
                    if id in column then folded[id := column[id] + Discovered(rows, id)] else folded, left - {id})
  {
    hide Discovered, Contradicts;
  }

  lemma FoldDone(rows: seq<SourceRow>, column: Column, folded: Column)
    requires Folding(rows, column, folded, {})
    ensures folded == Folded(rows, column) && !Contradicted(rows, column)
  {
    hide Discovered, Contradicts;
  }

  // Rows of events that no longer exist update nothing.
  method FoldMappingsBack(rows: seq<SourceRow>, column: Column) returns (r: Result<Column, MigrationError>)
    ensures r.Raised? <==> Contradicted(rows, column)
    ensures r.Ok? ==> r.value == Folded(rows, column)
  {
    hide Folding, Discovered, Folded;
    var mappings := GroupRows(rows);
    var folded: Column := column;
    var ids: set<Id> := mappings.Keys;
    FoldStarts(rows, column, ids);
    while ids != {}
      invariant ids <= mappings.Keys
      invariant Folding(rows, column, folded, ids)
      decreases |ids|
    {
      var id :| id in ids;
      var existing := if id in column then column[id] else map[];
      var merged := MergeEvent(existing, mappings[id]);
      if merged.Raised? { return Raised(Refused); }
      FoldNext(rows, column, folded, ids, id);
      if id in column { folded := folded[id := merged.value]; }
      ids := ids - {id};
    }
    FoldDone(rows, column, folded);
    r := Ok(folded);
  }

  method GroupRows(rows: seq<SourceRow>) returns (mappings: map<Id, map<string, string>>)
    ensures forall id :: id in mappings ==> mappings[id] == Discovered(rows, id)
    ensures forall id :: id !in mappings ==> Discovered(rows, id) == map[]
  {
    mappings := map[];
    var i := 0;
    while i < |rows|
      invariant 0 <= i <= |rows|
      invariant forall id :: id in mappings ==> mappings[id] == Discovered(rows[..i], id)
      invariant forall id :: id !in mappings ==> Discovered(rows[..i], id) == map[]
    {
      var row := rows[i];
      assert rows[..i + 1][..i] == rows[..i];
      var known := if row.id in mappings then mappings[row.id] else map[];
      mappings := mappings[row.id := known[row.key.provider := row.key.eventId]];
      i := i + 1;
    }
    assert rows[..|rows|] == rows;
  }

  ghost predicate Merging(existing: map<string, string>, discovered: map<string, string>,
                          merged: map<string, string>, left: set<string>) {
    && (forall p :: p in merged <==> p in existing || (p in discovered && p !in left))
    && (forall p :: p in merged ==> merged[p] == if p in discovered && p !in left then discovered[p] else existing[p])
    && (forall p :: p in discovered && p !in left && p in existing ==> existing[p] == discovered[p])
  }

  lemma MergeNext(existing: map<string, string>, discovered: map<string, string>,
                  merged: map<string, string>, left: set<string>, p: string)
    requires Merging(existing, discovered, merged, left) && p in left && p in discovered
    requires p in merged ==> merged[p] == discovered[p]
    ensures Merging(existing, discovered, merged[p := discovered[p]], left - {p})
  {
    var merged', left' := merged[p := discovered[p]], left - {p};
    forall q ensures q in merged' <==> q in existing || (q in discovered && q !in left') {}
    forall q | q in merged' ensures merged'[q] == if q in discovered && q !in left' then discovered[q] else existing[q] {}
  }

  lemma MergeDone(existing: map<string, string>, discovered: map<string, string>, merged: map<string, string>)
    requires Merging(existing, discovered, merged, {})
    ensures merged == existing + discovered && !Contradicts(existing, discovered)
  {
  }

  lemma MergeClash(existing: map<string, string>, discovered: map<string, string>,
                   merged: map<string, string>, left: set<string>, p: string)
    requires Merging(existing, discovered, merged, left) && p in left && p in discovered
    requires p in merged && merged[p] != discovered[p]
    ensures Contradicts(existing, discovered)
  {
  }

  method MergeEvent(existing: map<string, string>, discovered: map<string, string>)
    returns (r: Result<map<string, string>, MigrationError>)
    ensures r.Raised? <==> Contradicts(existing, discovered)
    ensures r.Ok? ==> r.value == existing + discovered
  {
    var merged, providers := existing, discovered.Keys;
    assert Merging(existing, discovered, merged, providers);
    hide Merging, Contradicts;
    while providers != {}
      invariant providers <= discovered.Keys
      invariant Merging(existing, discovered, merged, providers)
      decreases |providers|
    {
      var p :| p in providers;
      if p in merged && merged[p] != discovered[p] {
        MergeClash(existing, discovered, merged, providers, p);
        return Raised(Refused);
      }
      MergeNext(existing, discovered, merged, providers, p);
      merged := merged[p := discovered[p]];
      providers := providers - {p};
    }
    MergeDone(existing, discovered, merged);
    r := Ok(merged);
  }

  // ----- down and up again --------------------------------------------------------------

  // The table's rows, in some order.
  ghost predicate Lists(rows: seq<SourceRow>, sources: map<SourceKey, Id>) {
    forall key, id :: SourceRow(key, id) in rows <==> Maps(sources, key, id)
  }

  lemma {:induction false} DiscoveredIsListed(rows: seq<SourceRow>, id: Id, p: string)
    ensures p in Discovered(rows, id) ==> SourceRow(SourceKey(p, Discovered(rows, id)[p]), id) in rows
    ensures p in Discovered(rows, id) <==> exists row :: row in rows && row.id == id && row.key.provider == p
  {
    if rows != [] {
      var before, last := rows[..|rows| - 1], rows[|rows| - 1];
      DiscoveredIsListed(before, id, p);
      assert last in rows && forall row :: row in before ==> row in rows;
      assert forall row :: row in rows ==> row in before || row == last;
    }
  }

  // What the folded column claims: what it claimed, and what was discovered.
  lemma FoldedClaims(rows: seq<SourceRow>, column: Column, key: SourceKey, id: Id)
    requires !Contradicted(rows, column)
    ensures Claims(Folded(rows, column), key, id)
            <==> || Claims(column, key, id)
                 || (Usable(key) && id in column && key.provider in Discovered(rows, id)
                     && Discovered(rows, id)[key.provider] == key.eventId)
  {
    if id in column { assert !Contradicts(column[id], Discovered(rows, id)); }
  }

  // A mapping comes back unless the same provider mapped another id to its event.
  lemma ComesBack(rows: seq<SourceRow>, sources: map<SourceKey, Id>, column: Column, key: SourceKey)
    requires Lists(rows, sources) && !Contradicted(rows, column)
    requires key in sources && sources[key] in column && Usable(key)
    requires forall other ::
               other in sources && other.provider == key.provider && sources[other] == sources[key] ==> other == key
    ensures Claims(Folded(rows, column), key, sources[key])
  {
    var id := sources[key];
    assert Maps(sources, key, id);
    assert SourceRow(key, id) in rows;
    DiscoveredIsListed(rows, id, key.provider);
    var found := SourceKey(key.provider, Discovered(rows, id)[key.provider]);
    assert Maps(sources, found, id);
    FoldedClaims(rows, column, key, id);
  }

  ghost predicate AllUsable(sources: map<SourceKey, Id>) {
    forall key :: key in sources ==> Usable(key)
  }

  // Folding, dropping the table and backfilling gives back at least the map it
  // started from exactly when that map was injective per provider.
  lemma RoundTripKeepsTheMap(rows: seq<SourceRow>, sources: map<SourceKey, Id>, column: Column, after: map<SourceKey, Id>)
    requires Lists(rows, sources) && AllUsable(sources) && forall key :: key in sources ==> sources[key] in column
    requires !Contradicted(rows, column) && Backfills(Folded(rows, column), map[], after)
    ensures (forall key :: key in sources ==> Maps(after, key, sources[key])) <==> Injective(sources)
  {
    if Injective(sources) {
      forall key | key in sources ensures Maps(after, key, sources[key]) { ComesBack(rows, sources, column, key); }
    }
    if forall key :: key in sources ==> Maps(after, key, sources[key]) {
      forall a, b | a in sources && b in sources && a.provider == b.provider && sources[a] == sources[b] ensures a == b {
        assert Claims(Folded(rows, column), a, sources[a]) && Claims(Folded(rows, column), b, sources[b]);
      }
    }
  }

  // And exactly that map when, besides, the column claimed nothing unmapped.
  lemma RoundTripIsExact(rows: seq<SourceRow>, sources: map<SourceKey, Id>, column: Column, after: map<SourceKey, Id>)
    requires Lists(rows, sources) && AllUsable(sources) && forall key :: key in sources ==> sources[key] in column
    requires !Contradicted(rows, column) && Backfills(Folded(rows, column), map[], after)
    ensures after == sources
            <==> Injective(sources) && forall key, id :: Claims(column, key, id) ==> Maps(sources, key, id)
  {
    RoundTripKeepsTheMap(rows, sources, column, after);
    if after == sources {
      forall key | key in sources ensures Maps(after, key, sources[key]) {}
      forall key, id | Claims(column, key, id) ensures Maps(sources, key, id) { FoldedClaims(rows, column, key, id); }
    }
    if Injective(sources) && forall key, id :: Claims(column, key, id) ==> Maps(sources, key, id) {
      forall key, id ensures Maps(after, key, id) <==> Maps(sources, key, id) {
        FoldedClaims(rows, column, key, id);
        if id in column && key.provider in Discovered(rows, id) && Discovered(rows, id)[key.provider] == key.eventId {
          DiscoveredIsListed(rows, id, key.provider);
        }
        if Maps(sources, key, id) { assert Maps(after, key, sources[key]); }
      }
      SameMap(after, sources);
    }
  }

  // ----- the identity service's own databases ----------------------------------------------

  function ColumnOf(r: Registry): Column {
    map id | id in r.events :: r.events[id].sourceIds
  }

  // Every pair ever mapped or queued names a provider and an id.
  ghost predicate NamesItsKeys(r: Registry) {
    AllUsable(r.sources) && forall key :: key in r.reviews ==> Usable(key)
  }

  lemma {:induction false} UsableKeys(ops: seq<Op>)
    requires forall op :: op in ops && op.Ask? ==> op.q.key.provider != ""
    ensures NamesItsKeys(Run(EMPTY, ops))
    decreases |ops|
  {
    if ops != [] {
      var before, op := ops[..|ops| - 1], ops[|ops| - 1];
      assert op in ops && forall o :: o in before ==> o in ops;
      UsableKeys(before);
      hide Matches;
    }
  }

  // Down and up again: neither direction refuses, and the map is as it was.
  ghost predicate Lossless(rows: seq<SourceRow>, column: Column, sources: map<SourceKey, Id>) {
    && !Contradicted(rows, column)
    && !Contested(Folded(rows, column), map[])
    && forall after :: Backfills(Folded(rows, column), map[], after) <==> after == sources
  }

  // At any moment of any run - resolutions, decisions, and the batch writer's
  // overwrites - the downgrade is lossless if and only if no event carries two
  // ids of one provider.
  lemma DowngradeIsLossless(ops: seq<Op>, rows: seq<SourceRow>)
    requires Orderly(ops) && forall op :: op in ops && op.Ask? ==> op.q.key.provider != ""
    requires Lists(rows, Run(EMPTY, ops).sources)
    ensures Lossless(rows, ColumnOf(Run(EMPTY, ops)), Run(EMPTY, ops).sources) <==> Injective(Run(EMPTY, ops).sources)
  {
    UsableKeys(ops);
    OrderlyRunsListTheirOwn(ops);
    var r := Run(EMPTY, ops);
    hide Run;
    if Injective(r.sources) { OwnListedIsLossless(r, rows); }
    if Lossless(rows, ColumnOf(r), r.sources) {
      hide OwnListed;
      assert Backfills(Folded(rows, ColumnOf(r)), map[], r.sources);
      RoundTripKeepsTheMap(rows, r.sources, ColumnOf(r), r.sources);
    }
  }

  // So it always is as long as no decision was taken.
  lemma DowngradeWithoutDecisions(ops: seq<Op>, rows: seq<SourceRow>)
    requires Orderly(ops) && forall op :: op in ops && op.Ask? ==> op.q.key.provider != ""
    requires Lists(rows, Run(EMPTY, ops).sources) && forall op :: op in ops ==> !op.Rule?
    ensures Lossless(rows, ColumnOf(Run(EMPTY, ops)), Run(EMPTY, ops).sources)
  {
    DowngradeIsLossless(ops, rows);
    RequestsAloneStayInjective(ops);
  }

  lemma OwnListedIsLossless(r: Registry, rows: seq<SourceRow>)
    requires Issued(r) && OwnListed(r) && Injective(r.sources) && AllUsable(r.sources) && Lists(rows, r.sources)
    ensures Lossless(rows, ColumnOf(r), r.sources)
  {
    var column := ColumnOf(r);
    ColumnIsMapped(r);
    NotContradicted(r, rows);
    FoldedIsTheMap(rows, r.sources, column);
    NotContested(Folded(rows, column), map[], r.sources);
    forall after | Backfills(Folded(rows, column), map[], after) ensures after == r.sources {
      RoundTripIsExact(rows, r.sources, column, after);
    }
  }

  lemma ColumnIsMapped(r: Registry)
    requires OwnListed(r)
    ensures forall key, id :: Claims(ColumnOf(r), key, id) ==> Maps(r.sources, key, id)
  {
    forall key, id | Claims(ColumnOf(r), key, id) ensures Maps(r.sources, key, id) {
      assert Listed(r.sources, id, r.events[id]);
      assert Maps(r.sources, SourceKey(key.provider, r.events[id].sourceIds[key.provider]), id);
    }
  }

  lemma NotContradicted(r: Registry, rows: seq<SourceRow>)
    requires OwnListed(r) && Injective(r.sources) && Lists(rows, r.sources)
    ensures !Contradicted(rows, ColumnOf(r))
  {
    var column := ColumnOf(r);
    forall id | id in column ensures !Contradicts(column[id], Discovered(rows, id)) {
      assert Listed(r.sources, id, r.events[id]);
      forall p | p in Discovered(rows, id) && p in column[id] ensures column[id][p] == Discovered(rows, id)[p] {
        DiscoveredIsListed(rows, id, p);
        assert Maps(r.sources, SourceKey(p, r.events[id].sourceIds[p]), id);
        assert Maps(r.sources, SourceKey(p, Discovered(rows, id)[p]), id);
      }
    }
  }

  // The six steps that put two ids of one provider on one event, folded in the
  // order the rows were inserted: nothing is refused, and one id is gone.
  function CollisionRows(): seq<SourceRow> {
    [SourceRow(SourceKey("a", "1"), 0), SourceRow(SourceKey("a", "2"), 1),
     SourceRow(SourceKey("b", "y"), 0), SourceRow(SourceKey("b", "x"), 0)]
  }

  function CollisionColumn(): Column {
    map[0 := map["a" := "1", "b" := "x"], 1 := map["a" := "2"]]
  }

  function CollisionMap(): map<SourceKey, Id> {
    map[SourceKey("a", "1") := 0, SourceKey("a", "2") := 1, SourceKey("b", "y") := 0, SourceKey("b", "x") := 0]
  }

  lemma BothLinked(r: Registry)
    requires r.events == map[0 := NewEvent(Sighting("a", "1", 0)), 1 := NewEvent(Sighting("a", "2", TOLERANCE + 1))]
    requires r.sources == map[SourceKey("a", "1") := 0, SourceKey("a", "2") := 1]
    ensures Linked(Linked(r, SourceKey("b", "y"), 0), SourceKey("b", "x"), 0).sources == CollisionMap()
    ensures ColumnOf(Linked(Linked(r, SourceKey("b", "y"), 0), SourceKey("b", "x"), 0)) == CollisionColumn()
  {
    var once := Linked(r, SourceKey("b", "y"), 0);
    var twice := Linked(once, SourceKey("b", "x"), 0);
    assert once.events[0].sourceIds == map["a" := "1", "b" := "y"];
    assert twice.events[0].sourceIds == map["a" := "1", "b" := "x"] == CollisionColumn()[0];
    assert twice.events[1].sourceIds == map["a" := "2"] == CollisionColumn()[1];
    assert ColumnOf(twice).Keys == CollisionColumn().Keys;
  }

  lemma CollisionState()
    ensures Run(EMPTY, CollisionRun()).sources == CollisionMap()
    ensures ColumnOf(Run(EMPTY, CollisionRun())) == CollisionColumn()
  {
    hide Run, CollisionRun, CollisionMap, CollisionColumn, Refusal, Linked, Decide, ColumnOf, NewEvent, Maps;
    CollisionRunEnds();
    YTakesTheFirst();
    LastLinks();
    DecidedIsLinked(Before(5), SourceKey("b", "x"), 0);
  }

  lemma LastLinks()
    ensures Linked(Before(5), SourceKey("b", "x"), 0).sources == CollisionMap()
    ensures ColumnOf(Linked(Before(5), SourceKey("b", "x"), 0)) == CollisionColumn()
  {
    hide CollisionMap, CollisionColumn, Linked, ColumnOf, NewEvent;
    OtherMoves();
    BothLinked(Before(4));
    assert Before(5) == Linked(Before(4), SourceKey("b", "y"), 0);
  }

  lemma DecidedIsLinked(r: Registry, key: SourceKey, id: Id)
    requires Refusal(r, key, id).None?
    ensures Decide(r, key, id).sources == Linked(r, key, id).sources
    ensures ColumnOf(Decide(r, key, id)) == ColumnOf(Linked(r, key, id))
  {
  }

  lemma CollisionListed()
    ensures Lists(CollisionRows(), CollisionMap())
  {
    var rows := CollisionRows();
    assert rows[0] in rows && rows[1] in rows && rows[2] in rows && rows[3] in rows;
  }

  lemma CollisionDiscovered()
    ensures Discovered(CollisionRows(), 0) == map["a" := "1", "b" := "x"]
    ensures Discovered(CollisionRows(), 1) == map["a" := "2"]
  {
    var rows := CollisionRows();
    assert rows[..3][..2] == rows[..2] && rows[..2][..1] == rows[..1] && rows[..1][..0] == [];
    assert Discovered(rows[..1], 0) == map["a" := "1"] && Discovered(rows[..1], 1) == map[];
    assert Discovered(rows[..2], 0) == map["a" := "1"] && Discovered(rows[..2], 1) == map["a" := "2"];
    assert Discovered(rows[..3], 0) == map["a" := "1", "b" := "y"] && Discovered(rows[..3], 1) == map["a" := "2"];
  }

  // The rows tell the column nothing it does not list already.
  lemma CollisionFolds()
    ensures !Contradicted(CollisionRows(), CollisionColumn())
    ensures Folded(CollisionRows(), CollisionColumn()) == CollisionColumn()
  {
    CollisionDiscovered();
    hide CollisionRows, Discovered;
    var column, folded := CollisionColumn(), Folded(CollisionRows(), CollisionColumn());
    assert folded[0] == column[0] && folded[1] == column[1];
  }

  lemma CollisionClaims(key: SourceKey, id: Id)
    ensures Claims(CollisionColumn(), key, id)
            <==> (key, id) in {(SourceKey("a", "1"), 0), (SourceKey("b", "x"), 0), (SourceKey("a", "2"), 1)}
  {
  }

  lemma CollisionUncontested()
    ensures !Contested(CollisionColumn(), map[])
  {
    hide Claims;
    forall key, id | Claims(CollisionColumn(), key, id) ensures !Contests(CollisionColumn(), map[], key, id) {
      forall other | Claims(CollisionColumn(), key, other) ensures other == id {
        CollisionClaims(key, id);
        CollisionClaims(key, other);
      }
    }
  }

  // Neither direction refuses, and whatever is backfilled lacks one of the ids.
  lemma CollisionIsLost()
    ensures Lists(CollisionRows(), Run(EMPTY, CollisionRun()).sources)
    ensures SourceKey("b", "y") in Run(EMPTY, CollisionRun()).sources
    ensures !Contradicted(CollisionRows(), ColumnOf(Run(EMPTY, CollisionRun())))
    ensures !Contested(Folded(CollisionRows(), ColumnOf(Run(EMPTY, CollisionRun()))), map[])
    ensures forall after :: Backfills(Folded(CollisionRows(), ColumnOf(Run(EMPTY, CollisionRun()))), map[], after) ==>
              SourceKey("b", "y") !in after
  {
    CollisionState();
    CollisionListed();
    CollisionFolds();
    CollisionUncontested();
    var key := SourceKey("b", "y");
    assert key in CollisionMap();
    hide Run, CollisionRun, CollisionRows, CollisionColumn, CollisionMap, ColumnOf, Claims, Folded, Contradicted;
    forall after | Backfills(CollisionColumn(), map[], after) ensures key !in after {
      SomeValue(after, key);
      forall id | Maps(after, key, id) ensures false { CollisionClaims(key, id); }
    }
  }

  lemma SomeValue(sources: map<SourceKey, Id>, key: SourceKey)
    ensures key in sources <==> exists id :: Maps(sources, key, id)
  {
    if key in sources { assert Maps(sources, key, sources[key]); }
  }

  lemma FoldedIsTheMap(rows: seq<SourceRow>, sources: map<SourceKey, Id>, column: Column)
    requires Lists(rows, sources) && AllUsable(sources) && forall key :: key in sources ==> sources[key] in column
    requires !Contradicted(rows, column) && Injective(sources)
    requires forall key, id :: Claims(column, key, id) ==> Maps(sources, key, id)
    ensures Backfills(Folded(rows, column), map[], sources)
  {
    forall key, id ensures Maps(sources, key, id) <==> Claims(Folded(rows, column), key, id) {
      FoldedClaims(rows, column, key, id);
      if Maps(sources, key, id) { ComesBack(rows, sources, column, key); }
      if id in column && key.provider in Discovered(rows, id) && Discovered(rows, id)[key.provider] == key.eventId {
        DiscoveredIsListed(rows, id, key.provider);
      }
    }
  }
}
