// The daily credit budget: one detail row per attempt, one counter per provider
// and UTC day, and the three transactions that move them.
module Budget {
  import opened Results

  datatype Bucket = Bucket(provider: string, day: int)

  datatype Entry = Entry(bucket: Bucket, reserved: int, observed: Option<int>, released: bool)

  datatype Counter = Counter(reserved: int, observed: int)

  // A reservation's id is its position: rows are never deleted.
  datatype Book = Book(rows: seq<Entry>, days: map<Bucket, Counter>)

  const EMPTY: Book := Book([], map[])

  function Max(a: int, b: int): int {
    if a < b then b else a
  }

  // A row's share of its counter: none once released, the reservation until a
  // report comes in, the report from then on.
  function Effective(e: Entry): int {
    if e.released then 0 else match e.observed case None => e.reserved case Some(cost) => cost
  }

  function Observed(e: Entry): int {
    if e.released then 0 else match e.observed case None => 0 case Some(cost) => cost
  }

  // By how much a report exceeded its reservation.
  function Overrun(e: Entry): int {
    Max(0, Effective(e) - e.reserved)
  }

  // ----- transactions -----------------------------------------------------------

  // A ceiling of 0 means there is none.
  datatype Call =
    | Reserve(bucket: Bucket, cost: int, scanSpent: int, scanBudget: Option<int>)
    | Reconcile(id: nat, reported: Option<int>)
    | Release(id: nat)

  function Estimated(cost: int): int {
    Max(1, cost)
  }

  function CounterOf(days: map<Bucket, Counter>, bucket: Bucket): Counter {
    if bucket in days then days[bucket] else Counter(0, 0)
  }

  predicate WithinScan(cost: int, scanSpent: int, scanBudget: Option<int>) {
    scanBudget.None? || scanSpent + Estimated(cost) <= scanBudget.value
  }

  predicate Granted(b: Book, bucket: Bucket, cost: int, ceiling: int) {
    ceiling == 0 || CounterOf(b.days, bucket).reserved + Estimated(cost) <= ceiling
  }

  function Adjust(days: map<Bucket, Counter>, bucket: Bucket, delta: int, observedDelta: int): map<Bucket, Counter> {
    if bucket !in days then days
    else days[bucket := Counter(Max(0, days[bucket].reserved + delta), Max(0, days[bucket].observed + observedDelta))]
  }

  // Whether a settlement finds its row, and finds it open to it.
  predicate Settles(b: Book, c: Call) {
    match c
    case Reserve(_, _, _, _) => false
    case Reconcile(id, reported) => reported.Some? && id < |b.rows| && b.rows[id].observed.None? && !b.rows[id].released
    case Release(id) => id < |b.rows| && !b.rows[id].released
  }

  function SettledEntry(e: Entry, c: Call): Entry
    requires !c.Reserve?
  {
    match c
    case Reconcile(_, reported) =>
      if reported.Some? && e.observed.None? && !e.released then e.(observed := Some(Max(0, reported.value))) else e
    case Release(_) => if e.released then e else e.(observed := Some(0), released := true)
  }

  function Apply(b: Book, c: Call, ceiling: int): Book {
    match c
    case Reserve(bucket, cost, scanSpent, scanBudget) =>
      if !WithinScan(cost, scanSpent, scanBudget) || !Granted(b, bucket, cost, ceiling) then b
      else
        var counter := CounterOf(b.days, bucket);
        Book(b.rows + [Entry(bucket, Estimated(cost), None, false)],
             b.days[bucket := Counter(counter.reserved + Estimated(cost), counter.observed)])
    case Reconcile(id, reported) =>
      if !Settles(b, c) then b
      else
        var e, observed := b.rows[id], Max(0, reported.value);
        Book(b.rows[id := SettledEntry(e, c)], Adjust(b.days, e.bucket, observed - e.reserved, observed))
    case Release(id) =>
      if !Settles(b, c) then b
      else
        var e := b.rows[id];
        var already := if e.observed.Some? then e.observed.value else e.reserved;
        var observed := if e.observed.Some? then e.observed.value else 0;
        Book(b.rows[id := SettledEntry(e, c)], Adjust(b.days, e.bucket, -already, -observed))
  }

  // ----- the counters the detail calls for ---------------------------------------

  function Sum(rows: seq<Entry>, bucket: Bucket, f: Entry -> int): int {
    if rows == [] then 0
    else
      var last := rows[|rows| - 1];
      Sum(rows[..|rows| - 1], bucket, f) + if last.bucket == bucket then f(last) else 0
  }

  function Buckets(rows: seq<Entry>): set<Bucket> {
    set e | e in rows :: e.bucket
  }

  function Seeded(rows: seq<Entry>): map<Bucket, Counter> {
    map bucket | bucket in Buckets(rows) :: Counter(Sum(rows, bucket, Effective), Sum(rows, bucket, Observed))
  }

  ghost predicate EntryOk(e: Entry) {
    && e.reserved >= 1
    && (e.observed.Some? ==> e.observed.value >= 0)
    && (e.released ==> e.observed == Some(0))
  }

  // Every counter is the sum of its detail rows, and nothing else is counted.
  ghost predicate Sound(b: Book) {
    b.days == Seeded(b.rows) && forall i :: 0 <= i < |b.rows| ==> EntryOk(b.rows[i])
  }

  lemma {:induction false} SumAppend(rows: seq<Entry>, e: Entry, bucket: Bucket, f: Entry -> int)
    ensures Sum(rows + [e], bucket, f) == Sum(rows, bucket, f) + if e.bucket == bucket then f(e) else 0
  {
    assert (rows + [e])[..|rows|] == rows;
  }

  lemma {:induction false} SumUpdate(rows: seq<Entry>, i: nat, e: Entry, bucket: Bucket, f: Entry -> int)
    requires i < |rows| && e.bucket == rows[i].bucket
    ensures Sum(rows[i := e], bucket, f)
            == Sum(rows, bucket, f) + if e.bucket == bucket then f(e) - f(rows[i]) else 0
  {
    var n := |rows| - 1;
    if i == n {
      assert rows[i := e][..n] == rows[..n];
    } else {
      assert rows[i := e][..n] == rows[..n][i := e];
      SumUpdate(rows[..n], i, e, bucket, f);
    }
  }

  lemma {:induction false} SumNonNegative(rows: seq<Entry>, bucket: Bucket, f: Entry -> int)
    requires forall i :: 0 <= i < |rows| ==> f(rows[i]) >= 0
    ensures Sum(rows, bucket, f) >= 0
  {
    if rows != [] { SumNonNegative(rows[..|rows| - 1], bucket, f); }
  }

  lemma {:induction false} SumAbsent(rows: seq<Entry>, bucket: Bucket, f: Entry -> int)
    requires bucket !in Buckets(rows)
    ensures Sum(rows, bucket, f) == 0
  {
    if rows != [] {
      var last := rows[|rows| - 1];
      assert last in rows;
      assert forall e :: e in rows[..|rows| - 1] ==> e in rows;
      SumAbsent(rows[..|rows| - 1], bucket, f);
    }
  }

  lemma BucketsAppend(rows: seq<Entry>, e: Entry)
    ensures Buckets(rows + [e]) == Buckets(rows) + {e.bucket}
  {
    assert forall x :: x in rows + [e] <==> x in rows || x == e;
  }

  lemma BucketsUpdate(rows: seq<Entry>, i: nat, e: Entry)
    requires i < |rows| && e.bucket == rows[i].bucket
    ensures Buckets(rows[i := e]) == Buckets(rows)
  {
    var rows' := rows[i := e];
    forall bucket ensures bucket in Buckets(rows') <==> bucket in Buckets(rows) {
      if bucket in Buckets(rows) {
        var k :| 0 <= k < |rows| && rows[k].bucket == bucket;
        assert rows'[k] in rows' && rows'[k].bucket == bucket;
      }
      if bucket in Buckets(rows') {
        var k :| 0 <= k < |rows'| && rows'[k].bucket == bucket;
        assert rows[k] in rows && rows[k].bucket == bucket;
      }
    }
  }

  // One more row, or one row settled, moves exactly one counter.
  lemma SeededAppend(rows: seq<Entry>, e: Entry)
    ensures var counter := CounterOf(Seeded(rows), e.bucket);
            Seeded(rows + [e]) ==
            Seeded(rows)[e.bucket := Counter(counter.reserved + Effective(e), counter.observed + Observed(e))]
  {
    BucketsAppend(rows, e);
    forall bucket ensures Sum(rows + [e], bucket, Effective)
                          == Sum(rows, bucket, Effective) + (if e.bucket == bucket then Effective(e) else 0)
                  ensures Sum(rows + [e], bucket, Observed)
                          == Sum(rows, bucket, Observed) + (if e.bucket == bucket then Observed(e) else 0)
    {
      SumAppend(rows, e, bucket, Effective);
      SumAppend(rows, e, bucket, Observed);
    }
    if e.bucket !in Buckets(rows) {
      SumAbsent(rows, e.bucket, Effective);
      SumAbsent(rows, e.bucket, Observed);
    }
  }

  lemma SeededUpdate(rows: seq<Entry>, i: nat, e: Entry)
    requires i < |rows| && e.bucket == rows[i].bucket
    ensures e.bucket in Seeded(rows)
    ensures var counter := Seeded(rows)[e.bucket];
            Seeded(rows[i := e]) ==
            Seeded(rows)[e.bucket := Counter(counter.reserved + Effective(e) - Effective(rows[i]),
                                             counter.observed + Observed(e) - Observed(rows[i]))]
  {
    BucketsUpdate(rows, i, e);
    assert rows[i] in rows;
    forall bucket ensures Sum(rows[i := e], bucket, Effective) == Sum(rows, bucket, Effective)
                            + (if e.bucket == bucket then Effective(e) - Effective(rows[i]) else 0)
                  ensures Sum(rows[i := e], bucket, Observed) == Sum(rows, bucket, Observed)
                            + (if e.bucket == bucket then Observed(e) - Observed(rows[i]) else 0)
    {
      SumUpdate(rows, i, e, bucket, Effective);
      SumUpdate(rows, i, e, bucket, Observed);
    }
  }

  // ----- what every transaction keeps ----------------------------------------------

  // A settlement moves its counter by exactly what its row's cost moves: the
  // clamp at zero never changes a result.
  lemma ClampNeverBites(b: Book, c: Call, ceiling: int)
    requires Sound(b) && Settles(b, c)
    ensures var e, e' := b.rows[c.id], SettledEntry(b.rows[c.id], c);
            && e.bucket in b.days && EntryOk(e')
            && var counter := b.days[e.bucket];
               && counter.reserved + Effective(e') - Effective(e) >= 0
               && counter.observed + Observed(e') - Observed(e) >= 0
               && Apply(b, c, ceiling) ==
                  Book(b.rows[c.id := e'],
                       b.days[e.bucket := Counter(counter.reserved + Effective(e') - Effective(e),
                                                  counter.observed + Observed(e') - Observed(e))])
  {
    hide Seeded, Sum, Buckets;
    var e, e' := b.rows[c.id], SettledEntry(b.rows[c.id], c);
    SeededUpdate(b.rows, c.id, e');
    SeededNonNegative(b.rows[c.id := e'], c.id);
  }

  lemma SeededNonNegative(rows: seq<Entry>, i: nat)
    requires i < |rows| && forall k :: 0 <= k < |rows| ==> EntryOk(rows[k])
    ensures rows[i].bucket in Seeded(rows)
    ensures Seeded(rows)[rows[i].bucket].reserved >= 0 && Seeded(rows)[rows[i].bucket].observed >= 0
  {
    assert rows[i] in rows;
    SumNonNegative(rows, rows[i].bucket, Effective);
    SumNonNegative(rows, rows[i].bucket, Observed);
  }

  lemma SoundStep(b: Book, c: Call, ceiling: int)
    requires Sound(b)
    ensures Sound(Apply(b, c, ceiling))
  {
    hide Seeded, Sum, Buckets;
    if c.Reserve? {
      SeededAppend(b.rows, Entry(c.bucket, Estimated(c.cost), None, false));
    } else if Settles(b, c) {
      ClampNeverBites(b, c, ceiling);
      hide Apply;
      SeededUpdate(b.rows, c.id, SettledEntry(b.rows[c.id], c));
    }
  }

  // With a ceiling, a counter exceeds it by no more than the reports that
  // exceeded their own reservations.
  ghost predicate Capped(b: Book, ceiling: int) {
    ceiling != 0 ==>
      forall bucket :: bucket in b.days ==>
        b.days[bucket].reserved <= Max(0, ceiling) + Sum(b.rows, bucket, Overrun)
  }

  lemma CappedStep(b: Book, c: Call, ceiling: int)
    requires Sound(b) && Capped(b, ceiling)
    ensures Capped(Apply(b, c, ceiling), ceiling)
  {
    hide Sum;
    var b' := Apply(b, c, ceiling);
    if ceiling == 0 || b' == b { return; }
    forall bucket | bucket in b'.days
      ensures b'.days[bucket].reserved <= Max(0, ceiling) + Sum(b'.rows, bucket, Overrun)
    {
      if c.Reserve? { ReserveCapped(b, c, ceiling, bucket); } else { SettleCapped(b, c, ceiling, bucket); }
    }
  }

  lemma ReserveCapped(b: Book, c: Call, ceiling: int, bucket: Bucket)
    requires Sound(b) && Capped(b, ceiling) && ceiling != 0
    requires c.Reserve? && Apply(b, c, ceiling) != b && bucket in Apply(b, c, ceiling).days
    ensures Apply(b, c, ceiling).days[bucket].reserved
            <= Max(0, ceiling) + Sum(Apply(b, c, ceiling).rows, bucket, Overrun)
  {
    hide Sum, Sound;
    SumAppend(b.rows, Entry(c.bucket, Estimated(c.cost), None, false), bucket, Overrun);
    SumNonNegative(b.rows, bucket, Overrun);
  }

  lemma SettleCapped(b: Book, c: Call, ceiling: int, bucket: Bucket)
    requires Sound(b) && Capped(b, ceiling) && ceiling != 0
    requires Settles(b, c) && bucket in Apply(b, c, ceiling).days
    ensures Apply(b, c, ceiling).days[bucket].reserved
            <= Max(0, ceiling) + Sum(Apply(b, c, ceiling).rows, bucket, Overrun)
  {
    hide Sum, Seeded;
    ClampNeverBites(b, c, ceiling);
    hide Apply;
    assert EntryOk(b.rows[c.id]);
    SumUpdate(b.rows, c.id, SettledEntry(b.rows[c.id], c), bucket, Overrun);
  }

  // ----- whole runs: any interleaving of any number of workers ----------------------

  function After(b: Book, calls: seq<Call>, ceiling: int): Book
    decreases |calls|
  {
    if calls == [] then b else After(Apply(b, calls[0], ceiling), calls[1..], ceiling)
  }

  lemma {:induction false} RunsStaySound(b: Book, calls: seq<Call>, ceiling: int)
    requires Sound(b)
    ensures Sound(After(b, calls, ceiling))
    ensures Capped(b, ceiling) ==> Capped(After(b, calls, ceiling), ceiling)
    decreases |calls|
  {
    if calls != [] {
      SoundStep(b, calls[0], ceiling);
      if Capped(b, ceiling) { CappedStep(b, calls[0], ceiling); }
      RunsStaySound(Apply(b, calls[0], ceiling), calls[1..], ceiling);
    }
  }

  // From an empty book: the counters agree with the detail, and stay capped.
  lemma EveryRunAgrees(calls: seq<Call>, ceiling: int, bucket: Bucket)
    ensures var b := After(EMPTY, calls, ceiling);
            && CounterOf(b.days, bucket) == Counter(Sum(b.rows, bucket, Effective), Sum(b.rows, bucket, Observed))
            && (ceiling != 0 ==>
                  CounterOf(b.days, bucket).reserved <= Max(0, ceiling) + Sum(b.rows, bucket, Overrun))
  {
    assert Seeded([]) == map[];
    RunsStaySound(EMPTY, calls, ceiling);
    var b := After(EMPTY, calls, ceiling);
    if bucket !in b.days {
      SumAbsent(b.rows, bucket, Effective);
      SumAbsent(b.rows, bucket, Observed);
      SumNonNegative(b.rows, bucket, Overrun);
    }
  }

  // So as long as no report exceeds its reservation, no day passes its ceiling.
  lemma WithinTheCeiling(calls: seq<Call>, ceiling: int, bucket: Bucket)
    requires ceiling > 0
    requires forall e :: e in After(EMPTY, calls, ceiling).rows && e.bucket == bucket && e.observed.Some? ==>
               e.observed.value <= e.reserved
    ensures CounterOf(After(EMPTY, calls, ceiling).days, bucket).reserved <= ceiling
  {
    EveryRunAgrees(calls, ceiling, bucket);
    RunsStaySound(EMPTY, calls, ceiling);
    NothingOverrun(After(EMPTY, calls, ceiling).rows, bucket);
  }

  lemma {:induction false} NothingOverrun(rows: seq<Entry>, bucket: Bucket)
    requires forall e :: e in rows ==> EntryOk(e)
    requires forall e :: e in rows && e.bucket == bucket && e.observed.Some? ==> e.observed.value <= e.reserved
    ensures Sum(rows, bucket, Overrun) == 0
  {
    if rows != [] {
      var last := rows[|rows| - 1];
      assert last in rows;
      NothingOverrun(rows[..|rows| - 1], bucket);
    }
  }

  // A row changes only by a settlement that names it.
  lemma {:induction false} RowsAreTheirOwners(b: Book, calls: seq<Call>, ceiling: int, id: nat)
    requires id < |b.rows|
    requires forall c :: c in calls && !c.Reserve? ==> c.id != id
    ensures id < |After(b, calls, ceiling).rows| && After(b, calls, ceiling).rows[id] == b.rows[id]
    decreases |calls|
  {
    if calls != [] {
      RowsAreTheirOwners(Apply(b, calls[0], ceiling), calls[1..], ceiling, id);
    }
  }

  lemma {:induction false} RowsOnlyGrow(b: Book, calls: seq<Call>, ceiling: int)
    ensures |After(b, calls, ceiling).rows| >= |b.rows|
    decreases |calls|
  {
    if calls != [] { RowsOnlyGrow(Apply(b, calls[0], ceiling), calls[1..], ceiling); }
  }

  // ----- settling twice, and in any order ---------------------------------------------

  lemma SettlingTwice(b: Book, c: Call, again: Call, ceiling: int)
    requires Settles(b, c) && !again.Reserve? && again.id == c.id
    requires c.Release? || again.Reconcile?
    ensures Apply(Apply(b, c, ceiling), again, ceiling) == Apply(b, c, ceiling)
  {
  }

  // Two settlements may come in either order, unless they are two different
  // reports for the same attempt.
  lemma SettlementOrder(b: Book, c: Call, d: Call, ceiling: int)
    requires Sound(b) && !c.Reserve? && !d.Reserve?
    requires c.id != d.id || c.Release? || d.Release?
    ensures Apply(Apply(b, c, ceiling), d, ceiling) == Apply(Apply(b, d, ceiling), c, ceiling)
  {
    var cd, dc := Apply(Apply(b, c, ceiling), d, ceiling), Apply(Apply(b, d, ceiling), c, ceiling);
    SoundStep(b, c, ceiling);
    SoundStep(b, d, ceiling);
    SoundStep(Apply(b, c, ceiling), d, ceiling);
    SoundStep(Apply(b, d, ceiling), c, ceiling);
    assert cd.rows == dc.rows by {
      SettleRows(b, c, ceiling);
      SettleRows(b, d, ceiling);
      SettleRows(Apply(b, c, ceiling), d, ceiling);
      SettleRows(Apply(b, d, ceiling), c, ceiling);
    }
  }

  lemma SettleRows(b: Book, c: Call, ceiling: int)
    requires !c.Reserve?
    ensures Apply(b, c, ceiling).rows ==
            if c.id < |b.rows| then b.rows[c.id := SettledEntry(b.rows[c.id], c)] else b.rows
  {
  }

  // A reservation is granted up to the very ceiling, the day's as its rows add up,
  // and refused beyond it; at least one credit is asked for.
  lemma GrantedUpToTheCeiling(b: Book, bucket: Bucket, cost: int, scanSpent: int, scanBudget: Option<int>, ceiling: int)
    requires Sound(b)
    ensures var asked := if cost < 1 then 1 else cost;
            var granted := && (scanBudget.Some? ==> scanSpent + asked <= scanBudget.value)
                           && (ceiling == 0 || Sum(b.rows, bucket, Effective) + asked <= ceiling);
            Apply(b, Reserve(bucket, cost, scanSpent, scanBudget), ceiling).rows
            == if granted then b.rows + [Entry(bucket, asked, None, false)] else b.rows
  {
    hide Effective;
    if bucket !in b.days { SumAbsent(b.rows, bucket, Effective); }
  }

  // ----- the migration ------------------------------------------------------------------

  // A counter for every bucket that has a row, and each the sum over its rows.
  method BackfillDayBuckets(rows: seq<Entry>) returns (days: map<Bucket, Counter>)
    ensures days == Seeded(rows)
  {
    days := map[];
    var i := 0;
    assert rows[..0] == [];
    while i < |rows|
      invariant 0 <= i <= |rows|
      invariant days == Seeded(rows[..i])
    {
      var e := rows[i];
      SeededAppend(rows[..i], e);
      assert rows[..i] + [e] == rows[..i + 1];
      var counter := CounterOf(days, e.bucket);
      days := days[e.bucket := Counter(counter.reserved + Effective(e), counter.observed + Observed(e))];
      i := i + 1;
    }
    assert rows[..|rows|] == rows;
  }

  // Dropping the counters and seeding them again, at any moment of any run,
  // gives back exactly the counters that were dropped.
  lemma ReseedingRestores(calls: seq<Call>, ceiling: int)
    ensures Seeded(After(EMPTY, calls, ceiling).rows) == After(EMPTY, calls, ceiling).days
  {
    assert Seeded([]) == map[];
    RunsStaySound(EMPTY, calls, ceiling);
  }
}
