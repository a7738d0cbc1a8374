// The ledger object: its methods are the transactions on the book, proved equal
// to the calls they stand for.
module BudgetLedger {
  import opened Results
  import opened Budget

  datatype BudgetError = BudgetExceeded

  datatype BudgetInvariant = BudgetInvariant(counter: int, detail: int, ok: bool)

  class ProviderBudgetLedger {
    var rows: seq<Entry>
    var days: map<Bucket, Counter>
    const ceiling: int

    ghost function State(): Book
      reads this
    {
      Book(rows, days)
    }

    constructor (ceiling: int)
      ensures State() == EMPTY && this.ceiling == ceiling
    {
      rows, days := [], map[];
      this.ceiling := ceiling;
    }

    // Granted: one row more and its charge. Refused: the book as it was.
    method ReserveAttempt(bucket: Bucket, cost: int, scanSpent: int, scanBudget: Option<int>)
      returns (r: Result<nat, BudgetError>)
      modifies this
      ensures State() == Apply(old(State()), Reserve(bucket, cost, scanSpent, scanBudget), ceiling)
      ensures r.Ok? <==> WithinScan(cost, scanSpent, scanBudget) && Granted(old(State()), bucket, cost, ceiling)
      ensures r.Ok? ==>
                && r.value == |old(rows)|
                && rows == old(rows) + [Entry(bucket, Estimated(cost), None, false)]
    {
      var estimated := Max(1, cost);
      if scanBudget.Some? && scanSpent + estimated > scanBudget.value { return Raised(BudgetExceeded); }
      var saved := days;
      EnsureDayRow(bucket);
      var charged := Charge(bucket, estimated);
      if !charged {
        days := saved;
        return Raised(BudgetExceeded);
      }
      rows := rows + [Entry(bucket, estimated, None, false)];
      r := Ok(|rows| - 1);
    }

    method EnsureDayRow(bucket: Bucket)
      modifies this`days
      ensures days == old(days)[bucket := CounterOf(old(days), bucket)]
    {
      if bucket !in days { days := days[bucket := Counter(0, 0)]; }
    }

    // One conditional increment; refused when it would pass the ceiling.
    method Charge(bucket: Bucket, cost: int) returns (charged: bool)
      requires bucket in days
      modifies this`days
      ensures charged <==> ceiling == 0 || old(days)[bucket].reserved + cost <= ceiling
      ensures days == if charged
                      then old(days)[bucket := Counter(old(days)[bucket].reserved + cost, old(days)[bucket].observed)]
                      else old(days)
    {
      var counter := days[bucket];
      if ceiling != 0 && counter.reserved + cost > ceiling { return false; }
      days := days[bucket := Counter(counter.reserved + cost, counter.observed)];
      charged := true;
    }

    method AdjustCounter(bucket: Bucket, delta: int, observedDelta: int)
      modifies this`days
      ensures days == Adjust(old(days), bucket, delta, observedDelta)
    {
      if bucket in days {
        var counter := days[bucket];
        var reserved := if counter.reserved + delta > 0 then counter.reserved + delta else 0;
        var observed := if counter.observed + observedDelta > 0 then counter.observed + observedDelta else 0;
        days := days[bucket := Counter(reserved, observed)];
      }
    }

    // An open row takes the reported cost, never below zero; any other call is a no-op.
    method ReconcileAttempt(id: nat, cost: Option<int>)
      modifies this
      ensures State() == Apply(old(State()), Reconcile(id, cost), ceiling)
    {
      if cost.None? || id >= |rows| { return; }
      var observed := Max(0, cost.value);
      var snapshot := rows[id];
      if snapshot.observed.Some? || snapshot.released { return; }
      rows := rows[id := snapshot.(observed := Some(observed))];
      AdjustCounter(snapshot.bucket, observed - snapshot.reserved, observed);
    }

    // The row counts for nothing from here on, and its counter is less what it was.
    method ReleaseAttempt(id: nat)
      modifies this
      ensures State() == Apply(old(State()), Release(id), ceiling)
    {
      if id >= |rows| || rows[id].released { return; }
      var snapshot := rows[id];
      rows := rows[id := snapshot.(observed := Some(0), released := true)];
      var already := if snapshot.observed.Some? then snapshot.observed.value else snapshot.reserved;
      var observed := if snapshot.observed.Some? then snapshot.observed.value else 0;
      AdjustCounter(snapshot.bucket, -already, -observed);
    }

    // What the operator's audit prints: on every book a run can reach, "ok".
    method VerifyInvariant(bucket: Bucket) returns (audit: BudgetInvariant)
      ensures audit.counter == CounterOf(days, bucket).reserved
      ensures audit.detail == Sum(rows, bucket, Effective)
      ensures audit.ok <==> audit.counter == audit.detail
      ensures Sound(State()) ==> audit.ok
    {
      var detail, i := 0, 0;
      while i < |rows|
        invariant 0 <= i <= |rows|
        invariant detail == Sum(rows[..i], bucket, Effective)
      {
        SumAppend(rows[..i], rows[i], bucket, Effective);
        assert rows[..i] + [rows[i]] == rows[..i + 1];
        if rows[i].bucket == bucket && !rows[i].released {
          detail := detail + if rows[i].observed.Some? then rows[i].observed.value else rows[i].reserved;
        }
        i := i + 1;
      }
      assert rows[..|rows|] == rows;
      if bucket !in days && Sound(State()) { SumAbsent(rows, bucket, Effective); }
      var counter := CounterOf(days, bucket).reserved;
      audit := BudgetInvariant(counter, detail, counter == detail);
    }

    // Transactions of other workers.
    method RunOthers(calls: seq<Call>)
      modifies this
      ensures State() == After(old(State()), calls, ceiling)
    {
      var i := 0;
      while i < |calls|
        invariant 0 <= i <= |calls|
        invariant After(State(), calls[i..], ceiling) == After(old(State()), calls, ceiling)
      {
        match calls[i] {
          case Reserve(bucket, cost, scanSpent, scanBudget) =>
            var _ := ReserveAttempt(bucket, cost, scanSpent, scanBudget);
          case Reconcile(id, reported) => ReconcileAttempt(id, reported);
          case Release(id) => ReleaseAttempt(id);
        }
        i := i + 1;
      }
    }
  }
}
