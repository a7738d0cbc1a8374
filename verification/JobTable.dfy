// The scheduler's job table: one row per occurrence, and every transaction that
// may change it, as a function from table to table.
module JobTable {
  import opened Results

  datatype JobType = DailyScan | EventMilestone

  // An occurrence is its own key: type, minute and scope are unique together.
  datatype Occurrence = Occurrence(jobType: JobType, at: int, scope: string)

  datatype JobState = Pending | Running | Succeeded | FailedRetryable | FailedFinal | Deferred | SkippedBudget

  datatype Job = Job(
    state: JobState,
    attempts: nat,
    token: Option<nat>,
    owner: Option<string>,
    leaseExpires: Option<int>,
    nextAttempt: Option<int>,
    startedAt: Option<int>,
    finishedAt: Option<int>)

  // Tokens are drawn from a counter, so no token is ever drawn twice.
  datatype Table = Table(rows: map<Occurrence, Job>, nextToken: nat)

  const EMPTY: Table := Table(map[], 0)
  const NEW_JOB: Job := Job(Pending, 0, None, None, None, None, None, None)
  const MAX_ATTEMPTS: nat := 3

  predicate Terminal(state: JobState) {
    state == Succeeded || state == FailedFinal || state == SkippedBudget
  }

  // ----- selection -------------------------------------------------------------

  predicate Ready(job: Job, now: int) {
    job.nextAttempt.None? || job.nextAttempt.value <= now
  }

  predicate Claimable(job: Job, now: int) {
    match job.state
    case Pending => Ready(job, now)
    case Deferred => Ready(job, now)
    case FailedRetryable => job.attempts < MAX_ATTEMPTS && Ready(job, now)
    case Running => job.attempts < MAX_ATTEMPTS && job.leaseExpires.Some? && job.leaseExpires.value <= now
    case _ => false
  }

  function Due(t: Table, now: int): set<Occurrence> {
    set id | id in t.rows && id.at <= now && Claimable(t.rows[id], now)
  }

  // ----- transactions ------------------------------------------------------------

  datatype Event =
    | Enqueue(id: Occurrence)
    | Claim(ids: seq<Occurrence>, worker: string, now: int, lease: int)
    | Renew(id: Occurrence, token: Option<nat>, now: int, lease: int)
    | Succeed(id: Occurrence, token: Option<nat>, now: int)
    | Fail(id: Occurrence, token: Option<nat>, seen: nat, retryable: bool, backoff: int, now: int)
    | Defer(id: Occurrence, token: Option<nat>, until: int, now: int)
    | Skip(id: Occurrence, token: Option<nat>, now: int)

  // The guard of every completion: the row is running under this very token.
  predicate Holds(t: Table, id: Occurrence, token: Option<nat>) {
    id in t.rows && t.rows[id].state == Running && t.rows[id].token == token
  }

  function Decremented(attempts: nat): nat {
    if attempts > 0 then attempts - 1 else 0
  }

  function Claimed(job: Job, worker: string, token: nat, now: int, lease: int): Job {
    job.(state := Running, attempts := job.attempts + 1, token := Some(token), owner := Some(worker),
         leaseExpires := Some(now + lease), nextAttempt := None, startedAt := Some(now))
  }

  // A row handed back: no owner, no lease, no token.
  function Closed(job: Job, state: JobState, attempts: nat, nextAttempt: Option<int>, now: int): Job {
    job.(state := state, attempts := attempts, token := None, owner := None,
         leaseExpires := None, nextAttempt := nextAttempt, finishedAt := Some(now))
  }

  function Completed(job: Job, e: Event): Job
    requires e.Renew? || e.Succeed? || e.Fail? || e.Defer? || e.Skip?
  {
    match e
    case Renew(_, _, now, lease) => job.(leaseExpires := Some(now + lease))
    case Succeed(_, _, now) => Closed(job, Succeeded, job.attempts, None, now)
    case Fail(_, _, seen, retryable, backoff, now) =>
      if !retryable || seen >= MAX_ATTEMPTS then Closed(job, FailedFinal, job.attempts, None, now)
      else Closed(job, FailedRetryable, job.attempts, Some(now + backoff), now)
    case Defer(_, _, until, now) => Closed(job, Deferred, Decremented(job.attempts), Some(until), now)
    case Skip(_, _, now) => Closed(job, SkippedBudget, Decremented(job.attempts), None, now)
  }

  function Power2(n: nat): nat {
    if n == 0 then 1 else 2 * Power2(n - 1)
  }

  // Base delay, doubled per attempt after the first.
  function Backoff(base: int, attempts: nat): int {
    base * Power2(if attempts > 1 then attempts - 1 else 0)
  }

  // The failure of a job whose attempts were read as `attempts`: they decide both
  // whether it is final and how long the next attempt has to wait.
  function Failure(id: Occurrence, token: Option<nat>, attempts: nat, retryable: bool, retryAfter: Option<int>,
                   base: int, now: int): Event
  {
    Fail(id, token, attempts, retryable, if retryAfter.Some? then retryAfter.value else Backoff(base, attempts), now)
  }

  // A transaction of somebody who holds none of these tokens.
  predicate Foreign(e: Event, mine: set<nat>) {
    e.Enqueue? || e.Claim? || e.token.None? || e.token.value !in mine
  }

  // The i-th row claimed in one transaction carries the i-th fresh token.
  function ClaimFrom(t: Table, ids: seq<Occurrence>, worker: string, now: int, lease: int): Table
    requires forall id :: id in ids ==> id in t.rows
    decreases |ids|
  {
    if ids == [] then t
    else
      var job := Claimed(t.rows[ids[0]], worker, t.nextToken, now, lease);
      ClaimFrom(Table(t.rows[ids[0] := job], t.nextToken + 1), ids[1..], worker, now, lease)
  }

  predicate Distinct(ids: seq<Occurrence>) {
    forall i, j :: 0 <= i < j < |ids| ==> ids[i] != ids[j]
  }

  // What may happen next. A completion may always be tried; a claim takes due
  // rows only, each at most once.
  predicate Possible(t: Table, e: Event) {
    e.Claim? ==> Distinct(e.ids) && forall id :: id in e.ids ==> id in Due(t, e.now)
  }

  predicate Accepted(t: Table, e: Event) {
    match e
    case Enqueue(id) => id !in t.rows
    case Claim(_, _, _, _) => true
    case _ => Holds(t, e.id, e.token)
  }

  function Apply(t: Table, e: Event): Table
    requires Possible(t, e)
  {
    if !Accepted(t, e) then t
    else match e
      case Enqueue(id) => t.(rows := t.rows[id := NEW_JOB])
      case Claim(ids, worker, now, lease) => ClaimFrom(t, ids, worker, now, lease)
      case _ => t.(rows := t.rows[e.id := Completed(t.rows[e.id], e)])
  }

  // The rows one claim changes, and how.
  lemma {:induction false} ClaimEffect(t: Table, ids: seq<Occurrence>, worker: string, now: int, lease: int)
    requires Distinct(ids) && forall id :: id in ids ==> id in t.rows
    ensures ClaimFrom(t, ids, worker, now, lease).rows.Keys == t.rows.Keys
    ensures ClaimFrom(t, ids, worker, now, lease).nextToken == t.nextToken + |ids|
    ensures forall i :: 0 <= i < |ids| ==>
              ClaimFrom(t, ids, worker, now, lease).rows[ids[i]]
              == Claimed(t.rows[ids[i]], worker, t.nextToken + i, now, lease)
    ensures forall id :: id in t.rows && id !in ids ==>
              ClaimFrom(t, ids, worker, now, lease).rows[id] == t.rows[id]
    decreases |ids|
  {
    if ids != [] {
      var job := Claimed(t.rows[ids[0]], worker, t.nextToken, now, lease);
      var t1 := Table(t.rows[ids[0] := job], t.nextToken + 1);
      ClaimEffect(t1, ids[1..], worker, now, lease);
      assert forall i :: 0 <= i < |ids| - 1 ==> ids[1..][i] == ids[i + 1];
      assert ids[0] !in ids[1..];
      forall i | 0 <= i < |ids|
        ensures ClaimFrom(t, ids, worker, now, lease).rows[ids[i]]
                == Claimed(t.rows[ids[i]], worker, t.nextToken + i, now, lease)
      {
        if i > 0 { assert ids[1..][i - 1] == ids[i]; }
      }
    }
  }

  // ----- when a row can be claimed again --------------------------------------------

  // A new row: from its minute on.
  lemma NewIsDue(t: Table, id: Occurrence, later: int)
    requires id !in t.rows
    ensures id in Due(Apply(t, Enqueue(id)), later) <==> id.at <= later
  {
  }

  // A claimed or renewed row: once the lease has run out, and only while attempts
  // are left.
  lemma ClaimedWaits(t: Table, ids: seq<Occurrence>, worker: string, now: int, lease: int, id: Occurrence, later: int)
    requires Possible(t, Claim(ids, worker, now, lease)) && id in ids
    ensures id in t.rows && id in Apply(t, Claim(ids, worker, now, lease)).rows
    ensures var row := Apply(t, Claim(ids, worker, now, lease)).rows[id];
            row.owner == Some(worker) && row.startedAt == Some(now) && row.finishedAt == t.rows[id].finishedAt
    ensures id in Due(Apply(t, Claim(ids, worker, now, lease)), later)
            <==> id.at <= later && now + lease <= later && t.rows[id].attempts + 1 < 3
  {
    hide ClaimFrom;
    ClaimEffect(t, ids, worker, now, lease);
    var i :| 0 <= i < |ids| && ids[i] == id;
    assert Apply(t, Claim(ids, worker, now, lease)).rows[ids[i]]
           == Claimed(t.rows[ids[i]], worker, t.nextToken + i, now, lease);
  }

  lemma RenewedWaits(t: Table, id: Occurrence, token: Option<nat>, now: int, lease: int, later: int)
    requires Holds(t, id, token)
    ensures id in Due(Apply(t, Renew(id, token, now, lease)), later)
            <==> id.at <= later && now + lease <= later && t.rows[id].attempts < 3
  {
  }

  // A failed row: never when the failure is final - not to be retried, or the
  // third attempt - and else once the delay has passed.
  lemma FailedWaits(t: Table, id: Occurrence, token: Option<nat>, retryable: bool, retryAfter: Option<int>,
                    base: int, now: int, later: int)
    requires Holds(t, id, token)
    ensures var attempts := t.rows[id].attempts;
            var t' := Apply(t, Failure(id, token, attempts, retryable, retryAfter, base, now));
            var delay := if retryAfter.Some? then retryAfter.value else Backoff(base, attempts);
            && (Terminal(t'.rows[id].state) <==> !retryable || attempts >= 3)
            && t'.rows[id].attempts == attempts
            && (id in Due(t', later) <==> retryable && attempts < 3 && id.at <= later && now + delay <= later)
  {
    hide Backoff;
  }

  // The base delay after the first attempt, twice the one before after any other.
  lemma BackoffDoubles(base: int, attempts: nat)
    requires attempts >= 1
    ensures Backoff(base, 1) == base && Backoff(base, attempts + 1) == 2 * Backoff(base, attempts)
  {
    assert Power2(0) == 1;
  }

  // A deferred row: from the instant it was deferred to, with its attempt back.
  lemma DeferredWaits(t: Table, id: Occurrence, token: Option<nat>, until: int, now: int, later: int)
    requires Holds(t, id, token)
    ensures var t' := Apply(t, Defer(id, token, until, now));
            && t'.rows[id].state == Deferred
            && (t.rows[id].attempts >= 1 ==> t'.rows[id].attempts == t.rows[id].attempts - 1)
            && (id in Due(t', later) <==> id.at <= later && until <= later)
  {
  }

  // Whatever closes a row leaves it to nobody, and stamps it.
  lemma ClosedIsFree(t: Table, e: Event)
    requires Accepted(t, e) && (e.Succeed? || e.Fail? || e.Defer? || e.Skip?)
    ensures var row := Apply(t, e).rows[e.id];
            && row.state != Running && row.token.None? && row.owner.None? && row.leaseExpires.None?
            && row.finishedAt == Some(e.now) && row.startedAt == t.rows[e.id].startedAt
  {
  }

  // A row at its end: never again.
  lemma OverIsNotDue(t: Table, id: Occurrence, now: int)
    requires id in t.rows && Terminal(t.rows[id].state)
    ensures id !in Due(t, now)
  {
  }
}
