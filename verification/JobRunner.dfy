// One pass of a worker over the jobs it claims, while other workers go on
// committing: before every renewal, before every verdict, and inside the one
// verdict that takes two transactions.
module JobRunner {
  import opened Results
  import opened JobTable
  import opened JobRuns
  import opened BudgetDeferral
  import opened JobLedger

  datatype ExecutionOutcome = Success | RetryableFailure | FinalFailure | BudgetExhausted

  // One renewal of the lease, and what others commit before it.
  datatype Pulse = Pulse(others: seq<Event>, at: int)

  // What executing one job brings: the renewals made meanwhile, the outcome (an
  // exception counts as a retryable failure), and what others commit before the
  // verdict and - should it take two transactions - between them.
  datatype Work = Work(raised: bool, outcome: ExecutionOutcome, pulses: seq<Pulse>, before: seq<Event>,
                       between: seq<Event>, endedAt: int, digest: nat, kickoff: Option<int>)

  predicate Successful(does: Work) {
    !does.raised && does.outcome == Success
  }

  // No other worker commits anything.
  predicate QuietPulses(pulses: seq<Pulse>) {
    forall i :: 0 <= i < |pulses| ==> pulses[i].others == []
  }

  predicate Quiet(does: Work) {
    QuietPulses(does.pulses) && does.before == [] && does.between == []
  }

  // The transaction that records the outcome of one job.
  function Verdict(job: ClaimedJob, does: Work, attempts: nat, retryBackoff: int): Event {
    var token := Some(job.token);
    var retry := Failure(job.id, token, attempts, true, None, retryBackoff, does.endedAt);
    if does.raised then retry
    else match does.outcome
      case Success => Succeed(job.id, token, does.endedAt)
      case RetryableFailure => retry
      case FinalFailure => Failure(job.id, token, attempts, false, None, retryBackoff, does.endedAt)
      case BudgetExhausted => BudgetEvent(job.id, token, does.endedAt, does.digest, does.kickoff)
  }

  // What it means for the row of a job still held: an exception or a retryable
  // failure puts it back after the backoff until its third attempt has failed, a
  // final failure and a success end it, and a spent budget is for the runner's
  // rule to decide.
  lemma VerdictDecides(t: Table, job: ClaimedJob, does: Work, base: int, later: int)
    requires Holds(t, job.id, Some(job.token))
    ensures var attempts := t.rows[job.id].attempts;
            var verdict := Verdict(job, does, attempts, base);
            && !verdict.Claim?
            && (Apply(t, verdict).rows[job.id].state == Succeeded <==> !does.raised && does.outcome == Success)
            && (!does.raised && does.outcome == FinalFailure ==> Apply(t, verdict).rows[job.id].state == FailedFinal)
            && (!does.raised && does.outcome == BudgetExhausted ==>
                  verdict == BudgetEvent(job.id, Some(job.token), does.endedAt, does.digest, does.kickoff))
            && (does.raised || does.outcome == RetryableFailure ==>
                  && (Apply(t, verdict).rows[job.id].state == FailedFinal <==> attempts >= 3)
                  && (job.id in Due(Apply(t, verdict), later) <==>
                        attempts < 3 && job.id.at <= later && does.endedAt + Backoff(base, attempts) <= later))
  {
    hide Due, Backoff, BudgetEvent;
    var attempts := t.rows[job.id].attempts;
    FailedWaits(t, job.id, Some(job.token), true, None, base, does.endedAt, later);
    BudgetDecides(t, job.id, Some(job.token), does.endedAt, does.digest, does.kickoff, later);
  }

  // ----- what one job's pass is, as a stretch of a run --------------------------------

  predicate Own(e: Event, job: ClaimedJob) {
    !e.Enqueue? && !e.Claim? && e.id == job.id && e.token == Some(job.token)
  }

  ghost function At(t: Table, run: seq<Event>, at: nat): Table {
    if at <= |run| && FeasibleFrom(t, run[..at]) then Continue(t, run[..at]) else t
  }

  ghost predicate HeldAt(t: Table, run: seq<Event>, at: nat, job: ClaimedJob) {
    at <= |run| && FeasibleFrom(t, run[..at]) && Holds(At(t, run, at), job.id, Some(job.token))
  }

  // Whoever still holds the job at the closing records the verdict its work
  // deserves, from the attempts the row has at that moment.
  ghost predicate Closes(t: Table, run: seq<Event>, at: nat, job: ClaimedJob, does: Work, retryBackoff: int) {
    && at <= |run| && FeasibleFrom(t, run[..at])
    && (HeldAt(t, run, at, job) ==>
          && at < |run| && job.id in At(t, run, at).rows
          && run[at] == Verdict(job, does, At(t, run, at).rows[job.id].attempts, retryBackoff))
  }

  // Apart from others', only renewals and that one verdict.
  ghost predicate Mannerly(run: seq<Event>, at: nat, job: ClaimedJob, mine: set<nat>) {
    forall k :: 0 <= k < |run| ==> Foreign(run[k], mine) || (Own(run[k], job) && (run[k].Renew? || k == at))
  }

  // ----- the lease guard ----------------------------------------------------------------

  // The row may have a new lease; everything else is as it was.
  ghost predicate OnlyLease(rows: map<Occurrence, Job>, rows': map<Occurrence, Job>, id: Occurrence) {
    && rows'.Keys == rows.Keys
    && (forall other :: other in rows && other != id ==> rows'[other] == rows[other])
    && (id in rows ==> rows'[id] == rows[id].(leaseExpires := rows'[id].leaseExpires))
  }

  // Nothing but the lease has moved, and a job held is held still.
  ghost predicate Unmoved(t: Table, t': Table, job: ClaimedJob, lost: bool) {
    && OnlyLease(t.rows, t'.rows, job.id)
    && (Holds(t, job.id, Some(job.token)) ==> !lost && Holds(t', job.id, Some(job.token)))
    && (!Holds(t, job.id, Some(job.token)) ==> t'.rows == t.rows)
  }

  lemma UnmovedThrough(t: Table, between: Table, t': Table, job: ClaimedJob, lost: bool)
    requires Unmoved(t, between, job, false) && Unmoved(between, t', job, lost)
    ensures Unmoved(t, t', job, lost)
  {
  }

  lemma UnmovedYet(t: Table, job: ClaimedJob)
    ensures Unmoved(t, t, job, false)
    ensures !Holds(t, job.id, Some(job.token)) ==> Unmoved(t, t, job, true)
  {
  }

  lemma {:induction false} NextTokenGrows(t: Table, more: seq<Event>)
    requires Sound(t) && FeasibleFrom(t, more)
    ensures Sound(Continue(t, more)) && Continue(t, more).nextToken >= t.nextToken
    ensures t.rows.Keys <= Continue(t, more).rows.Keys
    decreases |more|
  {
    if more != [] {
      SoundStep(t, more[0]);
      KeysGrow(t, more[0]);
      NextTokenGrows(Apply(t, more[0]), more[1..]);
    }
  }

  method RenewOnce(ledger: Ledger, job: ClaimedJob, at: int) returns (ack: Ack, ghost renewal: Event)
    requires Sound(ledger.State())
    modifies ledger
    ensures Sound(ledger.State()) && ledger.nextToken == old(ledger.nextToken)
    ensures ledger.rows.Keys == old(ledger.rows).Keys
    ensures Own(renewal, job) && renewal.Renew?
    ensures FeasibleFrom(old(ledger.State()), [renewal])
    ensures ledger.State() == Continue(old(ledger.State()), [renewal])
    ensures ack.StaleLease? ==> !Holds(ledger.State(), job.id, Some(job.token))
    ensures Unmoved(old(ledger.State()), ledger.State(), job, ack.StaleLease?)
  {
    renewal := Renew(job.id, Some(job.token), at, ledger.lease);
    OneStep(ledger.State(), renewal);
    SoundStep(ledger.State(), renewal);
    ack := ledger.RenewLease(job, at);
  }

  // Every renewal in turn; a refused one means the job is lost, and for good.
  method Guard(ledger: Ledger, job: ClaimedJob, pulses: seq<Pulse>, mine: set<nat>)
    returns (lost: bool, ghost run: seq<Event>)
    requires Sound(ledger.State()) && job.token < ledger.nextToken && job.id in ledger.rows
    modifies ledger
    ensures Sound(ledger.State()) && old(ledger.nextToken) <= ledger.nextToken && job.id in ledger.rows
    ensures FeasibleFrom(old(ledger.State()), run) && ledger.State() == Continue(old(ledger.State()), run)
    ensures forall e :: e in run ==> Foreign(e, mine) || (Own(e, job) && e.Renew?)
    ensures lost ==> !Holds(ledger.State(), job.id, Some(job.token))
    ensures QuietPulses(pulses) ==> Unmoved(old(ledger.State()), ledger.State(), job, lost)
  {
    ghost var start := ledger.State();
    UnmovedYet(start, job);
    lost, run := false, [];
    var i := 0;
    while i < |pulses|
      invariant 0 <= i <= |pulses|
      invariant Sound(ledger.State()) && start.nextToken <= ledger.nextToken && job.id in ledger.rows
      invariant FeasibleFrom(start, run) && ledger.State() == Continue(start, run)
      invariant forall e :: e in run ==> Foreign(e, mine) || (Own(e, job) && e.Renew?)
      invariant lost ==> !Holds(ledger.State(), job.id, Some(job.token))
      invariant QuietPulses(pulses) ==> Unmoved(start, ledger.State(), job, lost)
    {
      hide Sound, OnlyLease, Holds, Unmoved, Foreign, Own;
      ghost var before := ledger.State();
      ghost var others := ledger.RunOthers(pulses[i].others, mine);
      NextTokenGrows(before, others);
      Joined(start, run, others);
      run := run + others;
      if lost {
        LostForGood(before, others, job.id, job.token);
      } else {
        ghost var between := ledger.State();
        ghost var renewal;
        var ack;
        ack, renewal := RenewOnce(ledger, job, pulses[i].at);
        Joined(start, run, [renewal]);
        run := run + [renewal];
        lost := ack.StaleLease?;
        if QuietPulses(pulses) { UnmovedThrough(start, between, ledger.State(), job, lost); }
      }
      i := i + 1;
    }
  }

  // ----- one job ------------------------------------------------------------------------

  // A row at the end of its job's pass.
  function Settled(job: ClaimedJob, does: Work, row: Job, retryBackoff: int): Job {
    Completed(row, Verdict(job, does, row.attempts, retryBackoff))
  }

  method Finish(ledger: Ledger, job: ClaimedJob, does: Work, mine: set<nat>) returns (ghost run: seq<Event>)
    requires !Successful(does)
    requires Sound(ledger.State()) && job.token < ledger.nextToken && job.id in ledger.rows
    modifies ledger
    ensures FeasibleFrom(old(ledger.State()), run) && forall e :: e in run ==> Foreign(e, mine)
    ensures does.between == [] ==> run == []
    ensures var closing := Continue(old(ledger.State()), run);
            && job.id in closing.rows
            && ledger.State() == Apply(closing, Verdict(job, does, closing.rows[job.id].attempts, ledger.retryBackoff))
  {
    run := [];
    if !does.raised && does.outcome == BudgetExhausted {
      var reset := NextBudgetReset(does.endedAt, does.digest);
      if JobDeadline(job.id, does.kickoff) <= reset {
        var _ := ledger.MarkSkipped(job.id, Some(job.token), does.endedAt);
      } else {
        var _ := ledger.MarkDeferred(job.id, Some(job.token), reset, does.endedAt);
      }
    } else {
      var retryable := does.raised || does.outcome != FinalFailure;
      var ack;
      ack, run := ledger.MarkFailed(job.id, Some(job.token), retryable, None, does.endedAt, mine, does.between);
    }
  }

  // How a pass ends with nobody else about: the row as its outcome deserves, and
  // no other row moved.
  ghost predicate QuietlyDone(t: Table, t': Table, done: bool, job: ClaimedJob, does: Work, retryBackoff: int) {
    && (done <==> Successful(does) && Holds(t, job.id, Some(job.token)))
    && t'.rows == if Holds(t, job.id, Some(job.token))
                  then t.rows[job.id := Settled(job, does, t.rows[job.id], retryBackoff)] else t.rows
  }

  lemma {:induction false} QuietThrough(t: Table, between: Table, t': Table, lost: bool, done: bool, job: ClaimedJob,
                                        does: Work, retryBackoff: int)
    requires Unmoved(t, between, job, lost) && QuietlyDone(between, t', done, job, does, retryBackoff)
    ensures QuietlyDone(t, t', done, job, does, retryBackoff)
  {
    if Holds(t, job.id, Some(job.token)) {
      var row, row' := t.rows[job.id], between.rows[job.id];
      var v := Verdict(job, does, row.attempts, retryBackoff);
      assert row' == row.(leaseExpires := row'.leaseExpires) && Completed(row', v) == Completed(row, v);
    }
  }

  // A verdict spoken at once.
  lemma {:induction false} Spoken(t: Table, job: ClaimedJob, does: Work, mine: set<nat>, retryBackoff: int)
    requires Sound(t) && job.id in t.rows
    ensures var v := Verdict(job, does, t.rows[job.id].attempts, retryBackoff);
            && Possible(t, v) && FeasibleFrom(t, [v]) && Continue(t, [v]) == Apply(t, v) && Sound(Apply(t, v))
            && Closes(t, [v], 0, job, does, retryBackoff) && Mannerly([v], 0, job, mine)
            && (HeldAt(t, [v], 0, job) <==> Holds(t, job.id, Some(job.token)))
            && (Holds(t, job.id, Some(job.token)) ==>
                  Apply(t, v).rows == t.rows[job.id := Settled(job, does, t.rows[job.id], retryBackoff)])
            && (!Holds(t, job.id, Some(job.token)) ==> Apply(t, v) == t)
  {
    var v := Verdict(job, does, t.rows[job.id].attempts, retryBackoff);
    OneStep(t, v);
    SoundStep(t, v);
    assert [v][..0] == [];
    assert FeasibleFrom(t, []) && Continue(t, []) == t;
  }

  // What follows a stretch closes as it would alone.
  lemma {:induction false} Follows(t: Table, first: seq<Event>, run: seq<Event>, at: nat, job: ClaimedJob, does: Work,
                                   retryBackoff: int)
    requires FeasibleFrom(t, first) && Closes(Continue(t, first), run, at, job, does, retryBackoff)
    ensures Closes(t, first + run, |first| + at, job, does, retryBackoff)
    ensures HeldAt(t, first + run, |first| + at, job) <==> HeldAt(Continue(t, first), run, at, job)
  {
    hide FeasibleFrom, Continue, Verdict;
    assert (first + run)[..|first| + at] == first + run[..at];
    Joined(t, first, run[..at]);
  }

  lemma {:induction false} MannerlyAfter(first: seq<Event>, run: seq<Event>, at: nat, job: ClaimedJob, mine: set<nat>)
    requires Mannerly(run, at, job, mine)
    requires forall e :: e in first ==> Foreign(e, mine) || (Own(e, job) && e.Renew?)
    ensures Mannerly(first + run, |first| + at, job, mine)
  {
    hide Foreign, Own;
    forall k | 0 <= k < |first + run|
      ensures || Foreign((first + run)[k], mine)
              || (Own((first + run)[k], job) && ((first + run)[k].Renew? || k == |first| + at))
    {
      if k < |first| { assert first[k] in first; } else { assert (first + run)[k] == run[k - |first|]; }
    }
  }

  lemma {:induction false} NoVerdict(t: Table, job: ClaimedJob, does: Work, mine: set<nat>, retryBackoff: int)
    requires !Holds(t, job.id, Some(job.token))
    ensures FeasibleFrom(t, []) && Continue(t, []) == t
    ensures Closes(t, [], 0, job, does, retryBackoff) && Mannerly([], 0, job, mine) && !HeldAt(t, [], 0, job)
    ensures QuietlyDone(t, t, false, job, does, retryBackoff)
  {
    var none: seq<Event> := [];
    assert none[..0] == none;
  }

  // The verdict, unless the job is known to be lost and nothing was raised.
  method Conclude(ledger: Ledger, job: ClaimedJob, does: Work, mine: set<nat>, lost: bool)
    returns (done: bool, ghost run: seq<Event>, ghost at: nat)
    requires Sound(ledger.State()) && job.token < ledger.nextToken && job.id in ledger.rows
    requires lost ==> !Holds(ledger.State(), job.id, Some(job.token))
    modifies ledger
    ensures Sound(ledger.State())
    ensures FeasibleFrom(old(ledger.State()), run) && ledger.State() == Continue(old(ledger.State()), run)
    ensures Closes(old(ledger.State()), run, at, job, does, ledger.retryBackoff) && Mannerly(run, at, job, mine)
    ensures done <==> Successful(does) && HeldAt(old(ledger.State()), run, at, job)
    ensures does.between == [] ==>
              QuietlyDone(old(ledger.State()), ledger.State(), done, job, does, ledger.retryBackoff)
  {
    hide Sound, Foreign, Own, Verdict, Holds, FeasibleFrom, Continue, Closes, Mannerly, HeldAt, Settled, Apply;
    ghost var start := ledger.State();
    if lost && !does.raised {
      NoVerdict(start, job, does, mine, ledger.retryBackoff);
      return false, [], 0;
    }
    if Successful(does) {
      Spoken(start, job, does, mine, ledger.retryBackoff);
      SuccessIsVerdict(job, does, start.rows[job.id].attempts, ledger.retryBackoff);
      var ack := ledger.MarkSucceeded(job.id, Some(job.token), does.endedAt);
      return ack.Done?, [Succeed(job.id, Some(job.token), does.endedAt)], 0;
    }
    ghost var others := Finish(ledger, job, does, mine);
    ghost var closing := Continue(start, others);
    NextTokenGrows(start, others);
    ghost var v := Verdict(job, does, closing.rows[job.id].attempts, ledger.retryBackoff);
    Spoken(closing, job, does, mine, ledger.retryBackoff);
    Joined(start, others, [v]);
    Follows(start, others, [v], 0, job, does, ledger.retryBackoff);
    MannerlyAfter(others, [v], 0, job, mine);
    NothingYet(start);
    done, run, at := false, others + [v], |others|;
  }

  lemma NothingYet(t: Table)
    ensures FeasibleFrom(t, []) && Continue(t, []) == t
  {
  }

  lemma SuccessIsVerdict(job: ClaimedJob, does: Work, attempts: nat, retryBackoff: int)
    requires Successful(does)
    ensures Verdict(job, does, attempts, retryBackoff) == Succeed(job.id, Some(job.token), does.endedAt)
  {
  }

  // The pass over one job is a stretch of a run, and reports success exactly when
  // the work succeeded and the job was still held at the closing.
  ghost predicate JobPass(t: Table, t': Table, done: bool, run: seq<Event>, at: nat, job: ClaimedJob, does: Work,
                          retryBackoff: int, mine: set<nat>)
  {
    && Sound(t') && FeasibleFrom(t, run) && t' == Continue(t, run)
    && Closes(t, run, at, job, does, retryBackoff) && Mannerly(run, at, job, mine)
    && (done <==> Successful(does) && HeldAt(t, run, at, job))
    && (Quiet(does) ==> QuietlyDone(t, t', done, job, does, retryBackoff))
  }

  // Guard the lease, do the work, record what came of it - unless the job has
  // been lost, in which case this worker may not speak for it.
  method RunJob(ledger: Ledger, job: ClaimedJob, does: Work, mine: set<nat>)
    returns (done: bool, ghost run: seq<Event>, ghost at: nat)
    requires Sound(ledger.State()) && job.token < ledger.nextToken && job.id in ledger.rows
    modifies ledger
    ensures JobPass(old(ledger.State()), ledger.State(), done, run, at, job, does, ledger.retryBackoff, mine)
  {
    hide Sound, Foreign, Own, Unmoved, QuietPulses, Verdict, Holds, QuietlyDone;
    hide FeasibleFrom, Continue, Closes, Mannerly, HeldAt;
    ghost var start := ledger.State();
    var lost;
    ghost var first;
    lost, first := Guard(ledger, job, does.pulses, mine);
    ghost var guarded := ledger.State();
    ghost var others := ledger.RunOthers(does.before, mine);
    NothingYet(guarded);
    NextTokenGrows(guarded, others);
    if lost { LostForGood(guarded, others, job.id, job.token); }
    Joined(start, first, others);
    first := first + others;
    ghost var before := ledger.State();
    done, run, at := Conclude(ledger, job, does, mine, lost);
    Follows(start, first, run, at, job, does, ledger.retryBackoff);
    MannerlyAfter(first, run, at, job, mine);
    Joined(start, first, run);
    if Quiet(does) { QuietThrough(start, before, ledger.State(), lost, done, job, does, ledger.retryBackoff); }
    run, at := first + run, |first| + at;
  }

  // ----- a whole pass ---------------------------------------------------------------------

  ghost predicate ClosesAll(t: Table, run: seq<Event>, ats: seq<nat>, jobs: seq<ClaimedJob>, work: Occurrence -> Work,
                            retryBackoff: int)
  {
    |ats| == |jobs| && forall i :: 0 <= i < |jobs| ==> Closes(t, run, ats[i], jobs[i], work(jobs[i].id), retryBackoff)
  }

  // Every event of the pass is another worker's, or a renewal or the one verdict
  // of one of the jobs.
  ghost predicate OursOrTheirs(run: seq<Event>, ats: seq<nat>, jobs: seq<ClaimedJob>, mine: set<nat>) {
    |ats| == |jobs| && forall k :: 0 <= k < |run| ==> Foreign(run[k], mine) || OneOfOurs(run, k, ats, jobs)
  }

  ghost predicate OneOfOurs(run: seq<Event>, k: nat, ats: seq<nat>, jobs: seq<ClaimedJob>)
    requires k < |run| && |ats| == |jobs|
  {
    exists i :: 0 <= i < |jobs| && Own(run[k], jobs[i]) && (run[k].Renew? || k == ats[i])
  }

  // The jobs whose work succeeded and that were still held at their closing.
  ghost function Reported(t: Table, run: seq<Event>, ats: seq<nat>, jobs: seq<ClaimedJob>, work: Occurrence -> Work):
    seq<ClaimedJob>
    requires |ats| == |jobs|
  {
    if jobs == [] then []
    else
      var n := |jobs| - 1;
      var before := Reported(t, run, ats[..n], jobs[..n], work);
      if Successful(work(jobs[n].id)) && HeldAt(t, run, ats[n], jobs[n]) then before + [jobs[n]] else before
  }

  lemma {:induction false} StillCloses(t: Table, run: seq<Event>, more: seq<Event>, at: nat, job: ClaimedJob,
                                       does: Work, retryBackoff: int)
    requires Closes(t, run, at, job, does, retryBackoff)
    ensures Closes(t, run + more, at, job, does, retryBackoff)
    ensures HeldAt(t, run + more, at, job) <==> HeldAt(t, run, at, job)
  {
    hide FeasibleFrom, Continue, Verdict;
    assert (run + more)[..at] == run[..at];
  }

  lemma {:induction false} AllStillClose(t: Table, run: seq<Event>, more: seq<Event>, ats: seq<nat>,
                                         jobs: seq<ClaimedJob>, work: Occurrence -> Work, retryBackoff: int)
    requires ClosesAll(t, run, ats, jobs, work, retryBackoff)
    ensures ClosesAll(t, run + more, ats, jobs, work, retryBackoff)
  {
    hide Closes;
    forall i | 0 <= i < |jobs| ensures Closes(t, run + more, ats[i], jobs[i], work(jobs[i].id), retryBackoff) {
      StillCloses(t, run, more, ats[i], jobs[i], work(jobs[i].id), retryBackoff);
    }
  }

  lemma {:induction false} StillReported(t: Table, run: seq<Event>, more: seq<Event>, ats: seq<nat>,
                                         jobs: seq<ClaimedJob>, work: Occurrence -> Work, retryBackoff: int)
    requires ClosesAll(t, run, ats, jobs, work, retryBackoff)
    ensures Reported(t, run + more, ats, jobs, work) == Reported(t, run, ats, jobs, work)
    decreases |jobs|
  {
    hide Closes, HeldAt;
    if jobs != [] {
      var n := |jobs| - 1;
      StillReported(t, run, more, ats[..n], jobs[..n], work, retryBackoff);
      StillCloses(t, run, more, ats[n], jobs[n], work(jobs[n].id), retryBackoff);
    }
  }

  // One more job: its stretch follows, and everything said before still holds.
  lemma {:induction false} OneMoreJob(t: Table, run: seq<Event>, ats: seq<nat>, jobs: seq<ClaimedJob>,
                                      work: Occurrence -> Work, retryBackoff: int, mine: set<nat>,
                                      stretch: seq<Event>, at: nat, job: ClaimedJob)
    requires FeasibleFrom(t, run) && FeasibleFrom(Continue(t, run), stretch)
    requires ClosesAll(t, run, ats, jobs, work, retryBackoff) && OursOrTheirs(run, ats, jobs, mine)
    requires Closes(Continue(t, run), stretch, at, job, work(job.id), retryBackoff) && Mannerly(stretch, at, job, mine)
    ensures FeasibleFrom(t, run + stretch) && Continue(t, run + stretch) == Continue(Continue(t, run), stretch)
    ensures ClosesAll(t, run + stretch, ats + [|run| + at], jobs + [job], work, retryBackoff)
    ensures OursOrTheirs(run + stretch, ats + [|run| + at], jobs + [job], mine)
    ensures Reported(t, run + stretch, ats + [|run| + at], jobs + [job], work) ==
            Reported(t, run, ats, jobs, work)
            + if Successful(work(job.id)) && HeldAt(Continue(t, run), stretch, at, job) then [job] else []
  {
    var all, ats', jobs' := run + stretch, ats + [|run| + at], jobs + [job];
    Joined(t, run, stretch);
    Follows(t, run, stretch, at, job, work(job.id), retryBackoff);
    AllStillClose(t, run, stretch, ats, jobs, work, retryBackoff);
    StillReported(t, run, stretch, ats, jobs, work, retryBackoff);
    OursStill(run, ats, jobs, mine, stretch, at, job);
    hide FeasibleFrom, Continue, Closes, HeldAt, OursOrTheirs, Mannerly;
    assert jobs'[..|jobs|] == jobs && ats'[..|jobs|] == ats;
    forall i | 0 <= i < |jobs'| ensures Closes(t, all, ats'[i], jobs'[i], work(jobs'[i].id), retryBackoff) {
      if i < |jobs| { assert jobs'[i] == jobs[i] && ats'[i] == ats[i]; }
    }
  }

  lemma {:induction false} OursStill(run: seq<Event>, ats: seq<nat>, jobs: seq<ClaimedJob>, mine: set<nat>,
                                     stretch: seq<Event>, at: nat, job: ClaimedJob)
    requires OursOrTheirs(run, ats, jobs, mine) && Mannerly(stretch, at, job, mine)
    ensures OursOrTheirs(run + stretch, ats + [|run| + at], jobs + [job], mine)
  {
    hide Foreign, Own;
    var all, ats', jobs' := run + stretch, ats + [|run| + at], jobs + [job];
    forall k | 0 <= k < |all| && !Foreign(all[k], mine) ensures OneOfOurs(all, k, ats', jobs') {
      if k < |run| {
        assert all[k] == run[k];
        var i :| 0 <= i < |jobs| && Own(run[k], jobs[i]) && (run[k].Renew? || k == ats[i]);
        assert jobs'[i] == jobs[i] && ats'[i] == ats[i];
      } else {
        assert all[k] == stretch[k - |run|];
        assert jobs'[|jobs|] == job && ats'[|jobs|] == |run| + at;
      }
    }
  }

  // ----- a pass with nobody else about ------------------------------------------------------

  predicate AllQuiet(jobs: seq<ClaimedJob>, work: Occurrence -> Work) {
    forall i :: 0 <= i < |jobs| ==> Quiet(work(jobs[i].id))
  }

  lemma QuietOne(jobs: seq<ClaimedJob>, work: Occurrence -> Work, i: nat)
    requires AllQuiet(jobs, work) && i < |jobs|
    ensures Quiet(work(jobs[i].id))
  {
  }

  function Executed(claimed: seq<ClaimedJob>, work: Occurrence -> Work): seq<ClaimedJob> {
    if claimed == [] then []
    else
      var last := claimed[|claimed| - 1];
      var rest := Executed(claimed[..|claimed| - 1], work);
      if Successful(work(last.id)) then rest + [last] else rest
  }

  function SettleAll(rows: map<Occurrence, Job>, jobs: seq<ClaimedJob>, work: Occurrence -> Work, retryBackoff: int):
    map<Occurrence, Job>
    requires forall job :: job in jobs ==> job.id in rows
    ensures SettleAll(rows, jobs, work, retryBackoff).Keys == rows.Keys
  {
    if jobs == [] then rows
    else
      var last := jobs[|jobs| - 1];
      var settled := SettleAll(rows, jobs[..|jobs| - 1], work, retryBackoff);
      settled[last.id := Settled(last, work(last.id), settled[last.id], retryBackoff)]
  }

  // After i distinct jobs, those i rows are settled and no other has moved.
  lemma {:induction false} SettledRows(rows: map<Occurrence, Job>, jobs: seq<ClaimedJob>, i: nat,
                                       work: Occurrence -> Work, retryBackoff: int)
    requires i <= |jobs| && Distinct(IdsOf(jobs)) && forall job :: job in jobs ==> job.id in rows
    ensures var settled := SettleAll(rows, jobs[..i], work, retryBackoff);
            && (forall k :: 0 <= k < i ==>
                  settled[jobs[k].id] == Settled(jobs[k], work(jobs[k].id), rows[jobs[k].id], retryBackoff))
            && (forall k :: i <= k < |jobs| ==> settled[jobs[k].id] == rows[jobs[k].id])
            && (forall id :: id in rows && id !in IdsOf(jobs) ==> settled[id] == rows[id])
    decreases i
  {
    hide Settled, IdsOf;
    if i > 0 {
      SettledRows(rows, jobs, i - 1, work, retryBackoff);
      assert jobs[..i][..i - 1] == jobs[..i - 1] && jobs[..i][i - 1] == jobs[i - 1];
      var last := jobs[i - 1];
      assert last.id in IdsOf(jobs) by { assert IdsOf(jobs)[i - 1] == last.id; }
      forall k | 0 <= k < |jobs| && k != i - 1 ensures jobs[k].id != last.id {
        assert IdsOf(jobs)[k] == jobs[k].id && IdsOf(jobs)[i - 1] == last.id;
      }
    }
  }

  lemma {:induction false} ClaimedRows(t: Table, jobs: seq<ClaimedJob>, worker: string, now: int, lease: int)
    requires Possible(t, Claim(IdsOf(jobs), worker, now, lease))
    requires forall i :: 0 <= i < |jobs| ==> jobs[i].token == t.nextToken + i
    ensures Distinct(IdsOf(jobs))
    ensures var t' := Apply(t, Claim(IdsOf(jobs), worker, now, lease));
            && t'.rows.Keys == t.rows.Keys
            && (forall i :: 0 <= i < |jobs| ==>
                  && jobs[i].id in t.rows
                  && t'.rows[jobs[i].id] == Claimed(t.rows[jobs[i].id], worker, jobs[i].token, now, lease)
                  && Holds(t', jobs[i].id, Some(jobs[i].token)))
            && (forall id :: id in t.rows && id !in IdsOf(jobs) ==> t'.rows[id] == t.rows[id])
  {
    hide ClaimFrom, Claimed, Due, Distinct, IdsOf, Claimable, Ready;
    var ids := IdsOf(jobs);
    InRows(t, ids, now);
    ClaimEffect(t, ids, worker, now, lease);
    forall i | 0 <= i < |jobs|
      ensures jobs[i].id in t.rows
      ensures ClaimFrom(t, ids, worker, now, lease).rows[jobs[i].id]
              == Claimed(t.rows[jobs[i].id], worker, jobs[i].token, now, lease)
      ensures Holds(ClaimFrom(t, ids, worker, now, lease), jobs[i].id, Some(jobs[i].token))
    {
      assert ids[i] == jobs[i].id && ids[i] in ids;
      ClaimedHolds(t.rows[jobs[i].id], worker, jobs[i].token, now, lease);
    }
  }

  lemma InRows(t: Table, ids: seq<Occurrence>, now: int)
    requires forall id :: id in ids ==> id in Due(t, now)
    ensures forall id :: id in ids ==> id in t.rows
  {
  }

  lemma ClaimedHolds(job: Job, worker: string, token: nat, now: int, lease: int)
    ensures Claimed(job, worker, token, now, lease).state == Running
    ensures Claimed(job, worker, token, now, lease).token == Some(token)
  {
  }

  // What the pass has done to the table so far.
  ghost predicate QuietSoFar(t: Table, rows: map<Occurrence, Job>, executed: seq<ClaimedJob>, jobs: seq<ClaimedJob>,
                             i: nat, work: Occurrence -> Work, retryBackoff: int)
    requires i <= |jobs| && forall job :: job in jobs ==> job.id in t.rows
  {
    rows == SettleAll(t.rows, jobs[..i], work, retryBackoff) && executed == Executed(jobs[..i], work)
  }

  lemma {:induction false} QuietNext(t: Table, between: Table, t': Table, executed: seq<ClaimedJob>, done: bool,
                                     jobs: seq<ClaimedJob>, i: nat, work: Occurrence -> Work, retryBackoff: int)
    requires i < |jobs| && Distinct(IdsOf(jobs)) && forall job :: job in jobs ==> job.id in t.rows
    requires Holds(t, jobs[i].id, Some(jobs[i].token))
    requires QuietSoFar(t, between.rows, executed, jobs, i, work, retryBackoff)
    requires QuietlyDone(between, t', done, jobs[i], work(jobs[i].id), retryBackoff)
    ensures QuietSoFar(t, t'.rows, if done then executed + [jobs[i]] else executed, jobs, i + 1, work, retryBackoff)
  {
    SettledRows(t.rows, jobs, i, work, retryBackoff);
    hide Settled, IdsOf;
    assert jobs[..i + 1][..i] == jobs[..i];
    assert between.rows[jobs[i].id] == t.rows[jobs[i].id];
  }

  lemma HeldIsKnown(t: Table, jobs: seq<ClaimedJob>)
    requires Sound(t) && forall i :: 0 <= i < |jobs| ==> Holds(t, jobs[i].id, Some(jobs[i].token))
    ensures forall i :: 0 <= i < |jobs| ==> jobs[i].id in t.rows && jobs[i].token < t.nextToken
    ensures forall job :: job in jobs ==> job.id in t.rows
  {
  }

  // The pass as far as its first i jobs.
  ghost predicate PassSoFar(t: Table, t': Table, executed: seq<ClaimedJob>, run: seq<Event>, ats: seq<nat>,
                            jobs: seq<ClaimedJob>, i: nat, work: Occurrence -> Work, retryBackoff: int,
                            mine: set<nat>)
  {
    && i <= |jobs| && (forall job :: job in jobs ==> job.id in t.rows)
    && Sound(t') && t.nextToken <= t'.nextToken && t.rows.Keys <= t'.rows.Keys
    && FeasibleFrom(t, run) && t' == Continue(t, run)
    && ClosesAll(t, run, ats, jobs[..i], work, retryBackoff)
    && OursOrTheirs(run, ats, jobs[..i], mine)
    && executed == Reported(t, run, ats, jobs[..i], work)
    && (AllQuiet(jobs, work) ==> QuietSoFar(t, t'.rows, executed, jobs, i, work, retryBackoff))
  }

  lemma {:induction false} PassStart(t: Table, jobs: seq<ClaimedJob>, work: Occurrence -> Work, retryBackoff: int,
                                     mine: set<nat>)
    requires Sound(t) && forall job :: job in jobs ==> job.id in t.rows
    ensures PassSoFar(t, t, [], [], [], jobs, 0, work, retryBackoff, mine)
  {
    hide Sound;
    assert jobs[..0] == [];
  }

  lemma {:induction false} PassNext(t: Table, between: Table, t': Table, executed: seq<ClaimedJob>, run: seq<Event>,
                                    ats: seq<nat>, jobs: seq<ClaimedJob>, i: nat, work: Occurrence -> Work,
                                    retryBackoff: int, mine: set<nat>, done: bool, stretch: seq<Event>, at: nat)
    requires i < |jobs| && Distinct(IdsOf(jobs)) && Holds(t, jobs[i].id, Some(jobs[i].token))
    requires PassSoFar(t, between, executed, run, ats, jobs, i, work, retryBackoff, mine)
    requires JobPass(between, t', done, stretch, at, jobs[i], work(jobs[i].id), retryBackoff, mine)
    ensures PassSoFar(t, t', if done then executed + [jobs[i]] else executed, run + stretch, ats + [|run| + at],
                      jobs, i + 1, work, retryBackoff, mine)
  {
    hide Sound, FeasibleFrom, Continue, Closes, ClosesAll, OursOrTheirs, Mannerly, HeldAt, Holds;
    hide QuietSoFar, QuietlyDone, Quiet, AllQuiet, Reported, IdsOf, Distinct;
    NextTokenGrows(between, stretch);
    OneMoreJob(t, run, ats, jobs[..i], work, retryBackoff, mine, stretch, at, jobs[i]);
    assert jobs[..i] + [jobs[i]] == jobs[..i + 1];
    if AllQuiet(jobs, work) {
      QuietOne(jobs, work, i);
      QuietNext(t, between, t', executed, done, jobs, i, work, retryBackoff);
    }
  }

  lemma {:induction false} PassKnows(t: Table, t': Table, executed: seq<ClaimedJob>, run: seq<Event>, ats: seq<nat>,
                                     jobs: seq<ClaimedJob>, i: nat, work: Occurrence -> Work, retryBackoff: int,
                                     mine: set<nat>)
    requires i < |jobs|
    requires PassSoFar(t, t', executed, run, ats, jobs, i, work, retryBackoff, mine) && jobs[i].token < t.nextToken
    ensures Sound(t') && jobs[i].token < t'.nextToken && jobs[i].id in t'.rows
  {
    hide Sound;
    assert jobs[i] in jobs;
  }

  // Every claimed job in turn.
  method RunJobs(ledger: Ledger, jobs: seq<ClaimedJob>, work: Occurrence -> Work, mine: set<nat>)
    returns (executed: seq<ClaimedJob>, ghost run: seq<Event>, ghost ats: seq<nat>)
    requires Sound(ledger.State()) && Distinct(IdsOf(jobs))
    requires forall i :: 0 <= i < |jobs| ==> Holds(ledger.State(), jobs[i].id, Some(jobs[i].token))
    requires forall job :: job in jobs ==> job.id in ledger.rows
    modifies ledger
    ensures PassSoFar(old(ledger.State()), ledger.State(), executed, run, ats, jobs, |jobs|, work,
                      ledger.retryBackoff, mine)
  {
    hide PassSoFar, JobPass, Sound, Holds, IdsOf, Distinct;
    ghost var start := ledger.State();
    HeldIsKnown(start, jobs);
    PassStart(start, jobs, work, ledger.retryBackoff, mine);
    executed, run, ats := [], [], [];
    var i := 0;
    while i < |jobs|
      invariant 0 <= i <= |jobs|
      invariant PassSoFar(start, ledger.State(), executed, run, ats, jobs, i, work, ledger.retryBackoff, mine)
    {
      ghost var before := ledger.State();
      PassKnows(start, before, executed, run, ats, jobs, i, work, ledger.retryBackoff, mine);
      ghost var stretch, at;
      var done;
      done, stretch, at := RunJob(ledger, jobs[i], work(jobs[i].id), mine);
      PassNext(start, before, ledger.State(), executed, run, ats, jobs, i, work, ledger.retryBackoff, mine,
               done, stretch, at);
      run, ats := run + stretch, ats + [|run| + at];
      if done { executed := executed + [jobs[i]]; }
      i := i + 1;
    }
  }

  // A success once reported is on the record for good, whatever follows.
  lemma {:induction false} ReportedIsRecorded(t: Table, run: seq<Event>, at: nat, job: ClaimedJob, does: Work,
                                              retryBackoff: int)
    requires Sound(t) && FeasibleFrom(t, run) && Closes(t, run, at, job, does, retryBackoff)
    requires Successful(does) && HeldAt(t, run, at, job)
    ensures job.id in Continue(t, run).rows && Continue(t, run).rows[job.id].state == Succeeded
  {
    var closing, rest := At(t, run, at), run[at..];
    assert run[..at] + rest == run;
    SplitAt(t, run[..at], rest);
    NextTokenGrows(t, run[..at]);
    assert rest[0] == run[at];
    hide Sound;
    var after := Apply(closing, rest[0]);
    assert Sound(after) by { SoundStep(closing, rest[0]); }
    assert job.id in after.rows && after.rows[job.id].state == Succeeded;
    RowsStay(after, rest[1..], job.id);
  }

  lemma {:induction false} SplitAt(t: Table, first: seq<Event>, second: seq<Event>)
    requires FeasibleFrom(t, first + second) && FeasibleFrom(t, first)
    ensures FeasibleFrom(Continue(t, first), second)
    ensures Continue(t, first + second) == Continue(Continue(t, first), second)
    decreases |first|
  {
    if first == [] {
      assert first + second == second;
    } else {
      assert (first + second)[0] == first[0] && (first + second)[1..] == first[1..] + second;
      SplitAt(Apply(t, first[0]), first[1..], second);
    }
  }

  // One pass over the ten oldest due jobs, whatever others commit meanwhile: it
  // is a run of the table, in which this worker renews and closes the jobs it
  // claimed and nothing else, and it reports exactly the jobs whose work
  // succeeded and that it still held at their closing. With nobody else about,
  // each job ends as its outcome deserves and no other row moves.
  method Tick(ledger: Ledger, now: int, worker: string, work: Occurrence -> Work)
    returns (executed: seq<ClaimedJob>, ghost claimed: seq<ClaimedJob>, ghost run: seq<Event>, ghost ats: seq<nat>)
    requires Sound(ledger.State())
    modifies ledger
    ensures Sound(ledger.State())
    ensures Oldest(IdsOf(claimed), Due(old(ledger.State()), now), 10)
    ensures Possible(old(ledger.State()), Claim(IdsOf(claimed), worker, now, ledger.lease))
    ensures var start := Apply(old(ledger.State()), Claim(IdsOf(claimed), worker, now, ledger.lease));
            && FeasibleFrom(start, run) && ledger.State() == Continue(start, run)
            && ClosesAll(start, run, ats, claimed, work, ledger.retryBackoff)
            && OursOrTheirs(run, ats, claimed, Tokens(claimed))
            && executed == Reported(start, run, ats, claimed, work)
    ensures AllQuiet(claimed, work) ==>
              && executed == Executed(claimed, work)
              && ledger.rows.Keys == old(ledger.rows).Keys
              && (forall id :: id in old(ledger.rows) && id !in IdsOf(claimed) ==>
                    ledger.rows[id] == old(ledger.rows)[id])
              && (forall i :: 0 <= i < |claimed| ==>
                    && claimed[i].id in old(ledger.rows)
                    && ledger.rows[claimed[i].id]
                       == Settled(claimed[i], work(claimed[i].id),
                                  Claimed(old(ledger.rows)[claimed[i].id], worker, claimed[i].token, now, ledger.lease),
                                  ledger.retryBackoff))
  {
    hide Sound, Settled, Claimed, Possible, Oldest, Executed, ClaimFrom, FeasibleFrom, Continue;
    hide ClosesAll, OursOrTheirs, Reported, Closes, IdsOf, Distinct, Holds, AllQuiet, Due;
    var jobs := ledger.ClaimDue(now, worker, 10);
    claimed := jobs;
    ghost var start := ledger.State();
    ghost var claim := Claim(IdsOf(jobs), worker, now, ledger.lease);
    SoundStep(old(ledger.State()), claim);
    ClaimedRows(old(ledger.State()), jobs, worker, now, ledger.lease);
    HeldIsKnown(start, jobs);
    executed, run, ats := RunJobs(ledger, jobs, work, Tokens(jobs));
    assert jobs[..|jobs|] == jobs;
    if AllQuiet(jobs, work) { QuietRows(start, ledger.rows, executed, jobs, work, ledger.retryBackoff); }
  }

  function Tokens(jobs: seq<ClaimedJob>): set<nat> {
    set job | job in jobs :: job.token
  }

  lemma {:induction false} QuietRows(t: Table, rows: map<Occurrence, Job>, executed: seq<ClaimedJob>,
                                     jobs: seq<ClaimedJob>, work: Occurrence -> Work, retryBackoff: int)
    requires Distinct(IdsOf(jobs)) && forall job :: job in jobs ==> job.id in t.rows
    requires QuietSoFar(t, rows, executed, jobs, |jobs|, work, retryBackoff)
    ensures executed == Executed(jobs, work) && rows.Keys == t.rows.Keys
    ensures forall i :: 0 <= i < |jobs| ==>
              && jobs[i].id in t.rows
              && rows[jobs[i].id] == Settled(jobs[i], work(jobs[i].id), t.rows[jobs[i].id], retryBackoff)
    ensures forall id :: id in t.rows && id !in IdsOf(jobs) ==> rows[id] == t.rows[id]
  {
    hide Settled, IdsOf;
    assert jobs[..|jobs|] == jobs;
    SettledRows(t.rows, jobs, |jobs|, work, retryBackoff);
  }
}
