// What the runner does with a job whose provider budget is gone: wait for the
// next daily reset, or admit that the job will be worthless by then.
module BudgetDeferral {
  import opened Results
  import opened JobTable
  import opened JobRuns

  const DAY: int := 86400
  const CATCHUP_GRACE: int := 7200
  const RESET_JITTER: int := 600

  // The first multiple of a day after an instant.
  function NextMidnight(now: int): int {
    (now / DAY + 1) * DAY
  }

  // The reset instant, spread by the first two bytes of the job's digest.
  function NextBudgetReset(now: int, digest: nat): int {
    NextMidnight(now) + digest % RESET_JITTER
  }

  // Running later than this is pointless: an event's kick-off when it is known,
  // the end of the catch-up window otherwise.
  function JobDeadline(id: Occurrence, kickoff: Option<int>): int {
    if id.jobType.EventMilestone? && id.scope != "" && kickoff.Some? then kickoff.value
    else id.at + CATCHUP_GRACE
  }

  // Deferred only when the reset comes before the deadline.
  function BudgetEvent(id: Occurrence, token: Option<nat>, now: int, digest: nat, kickoff: Option<int>): Event {
    var reset := NextBudgetReset(now, digest);
    if JobDeadline(id, kickoff) <= reset then Skip(id, token, now) else Defer(id, token, reset, now)
  }

  // The reset falls within ten minutes of the next midnight.
  lemma ResetFollowsMidnight(now: int, digest: nat)
    ensures exists midnight ::
              && midnight % 86400 == 0 && now < midnight <= now + 86400
              && midnight <= NextBudgetReset(now, digest) < midnight + 600
  {
    var midnight := NextMidnight(now);
    assert midnight % 86400 == 0 && now < midnight <= now + 86400;
  }

  // What becomes of a held job: back in the queue from the reset on when that
  // comes before a milestone's known kick-off, or two hours past the instant of
  // any other job; skipped for good when it does not.
  lemma BudgetDecides(t: Table, id: Occurrence, token: Option<nat>, now: int, digest: nat, kickoff: Option<int>,
                      later: int)
    requires Holds(t, id, token)
    ensures var reset, event := NextBudgetReset(now, digest), BudgetEvent(id, token, now, digest, kickoff);
            var inTime := if id.jobType == EventMilestone && id.scope != "" && kickoff.Some? then reset < kickoff.value
                          else reset < id.at + 7200;
            && (event.Defer? || event.Skip?)
            && (inTime ==> && Apply(t, event).rows[id].state == Deferred
                           && (id in Due(Apply(t, event), later) <==> id.at <= later && reset <= later))
            && (!inTime ==> Apply(t, event).rows[id].state == SkippedBudget && id !in Due(Apply(t, event), later))
  {
    hide NextBudgetReset;
  }

  // ----- runs under a clock that never goes back ---------------------------------

  function Clock(run: seq<Event>): Option<int> {
    if run == [] then None
    else if run[|run| - 1].Enqueue? then Clock(run[..|run| - 1])
    else Some(run[|run| - 1].now)
  }

  // The clock is monotone and this job is only ever deferred by the rule above,
  // with no kick-off to wait for.
  ghost predicate Disciplined(run: seq<Event>, id: Occurrence) {
    run == [] ||
    (var before, e := run[..|run| - 1], run[|run| - 1];
     && Disciplined(before, id)
     && (!e.Enqueue? && Clock(before).Some? ==> Clock(before).value <= e.now)
     && (e.Defer? && e.id == id ==>
           exists digest: nat :: e == BudgetEvent(id, e.token, e.now, digest, None)))
  }

  ghost predicate Reached(run: seq<Event>, instant: int) {
    Clock(run).Some? && Clock(run).value >= instant
  }

  lemma MidnightIsAhead(now: int)
    ensures now < NextMidnight(now) <= now + DAY
  {
  }

  lemma MidnightMonotone(now: int, later: int)
    requires now <= later
    ensures NextMidnight(now) <= NextMidnight(later)
  {
  }

  // A job past one reset is past its deadline at the next.
  lemma NoSecondDeferral(id: Occurrence, now: int, digest: nat, token: Option<nat>)
    requires now >= NextMidnight(id.at)
    ensures BudgetEvent(id, token, now, digest, None).Skip?
  {
    MidnightIsAhead(id.at);
    MidnightMonotone(NextMidnight(id.at), now);
    assert NextMidnight(NextMidnight(id.at)) == NextMidnight(id.at) + DAY;
  }

  // The clock never goes back, and a claim finds its occurrence due.
  lemma {:induction false} RunningIsDue(run: seq<Event>, id: Occurrence)
    requires Feasible(run) && Disciplined(run, id)
    requires id in After(run).rows && After(run).rows[id].state == Running
    ensures Reached(run, id.at)
    decreases |run|
  {
    var before := run[..|run| - 1];
    var t, e := After(before), run[|run| - 1];
    RunsAreSound(before);
    RowStep(t, e, id);
    if !(e.Claim? && id in e.ids) {
      RunningIsDue(before, id);
    }
  }

  lemma {:induction false} SkippedOnce(run: seq<Event>, id: Occurrence)
    requires Feasible(run)
    ensures Skips(run, id) <= 1
    ensures Skips(run, id) == 1 ==>
              && id in After(run).rows && After(run).rows[id].state == SkippedBudget
              && After(run).rows[id].attempts < MAX_ATTEMPTS
  {
    if run != [] {
      var before := run[..|run| - 1];
      var t, e := After(before), run[|run| - 1];
      SkippedOnce(before, id);
      RunsAreSound(before);
      KeysGrow(t, e);
      if id in After(run).rows { RowStep(t, e, id); }
    }
  }

  lemma KeysGrow(t: Table, e: Event)
    requires Possible(t, e)
    ensures t.rows.Keys <= Apply(t, e).rows.Keys
  {
    if e.Claim? { ClaimEffect(t, e.ids, e.worker, e.now, e.lease); }
  }

  // Where a deferred job can be: still waiting for a reset past its first
  // midnight, or woken up after it.
  ghost predicate Woken(run: seq<Event>, id: Occurrence)
    requires Feasible(run)
  {
    && id in After(run).rows
    && var job := After(run).rows[id];
       if job.state == Deferred then job.nextAttempt.Some? && job.nextAttempt.value >= NextMidnight(id.at)
       else Reached(run, NextMidnight(id.at))
  }

  lemma {:induction false} DeferredOnce(run: seq<Event>, id: Occurrence)
    requires Feasible(run) && Disciplined(run, id)
    ensures Deferrals(run, id) <= 1
    ensures Deferrals(run, id) == 1 ==> Woken(run, id)
  {
    if run != [] {
      var before := run[..|run| - 1];
      var t, e := After(before), run[|run| - 1];
      DeferredOnce(before, id);
      if e.Defer? && e.id == id && Accepted(t, e) {
        RunningIsDue(before, id);
        FirstDeferral(before, e, id);
      } else if Deferrals(before, id) == 1 {
        StaysWoken(before, e, id);
        assert run == before + [e];
      }
    }
  }

  lemma FirstDeferral(before: seq<Event>, e: Event, id: Occurrence)
    requires Feasible(before + [e]) && Disciplined(before + [e], id) && Feasible(before) && Reached(before, id.at)
    requires e.Defer? && e.id == id && Accepted(After(before), e)
    requires Deferrals(before, id) == 1 ==> Woken(before, id)
    ensures Deferrals(before, id) != 1 && Woken(before + [e], id)
  {
    var run := before + [e];
    assert run[..|run| - 1] == before;
    var digest: nat :| e == BudgetEvent(id, e.token, e.now, digest, None);
    MidnightMonotone(id.at, e.now);
    if Reached(before, NextMidnight(id.at)) {
      NoSecondDeferral(id, e.now, digest, e.token);
      assert false;
    }
  }

  lemma StaysWoken(before: seq<Event>, e: Event, id: Occurrence)
    requires Feasible(before + [e]) && Disciplined(before + [e], id) && Feasible(before)
    requires Woken(before, id) && !(e.Defer? && e.id == id && Accepted(After(before), e))
    ensures Woken(before + [e], id)
  {
    var run := before + [e];
    assert run[..|run| - 1] == before;
    var t := After(before);
    RunsAreSound(before);
    KeysGrow(t, e);
    RowStep(t, e, id);
  }

  // A daily scan is deferred at most once, and so claimed at most four times.
  lemma DeferredOnceClaimedFourTimes(run: seq<Event>, id: Occurrence)
    requires Feasible(run) && Disciplined(run, id)
    ensures Deferrals(run, id) <= 1
    ensures Claims(run, id) <= 4
  {
    DeferredOnce(run, id);
    SkippedOnce(run, id);
    BooksBalance(run, id);
  }
}
