// The durable ledger: the job table behind the transactions workers call.
module JobLedger {
  import opened Results
  import opened JobTable
  import opened JobRuns

  datatype ClaimedJob = ClaimedJob(id: Occurrence, attempts: nat, token: nat, leaseExpires: int)

  // What a completion reports: done, or the caller no longer owns the job.
  datatype Ack = Done | StaleLease

  function Minute(t: int): int {
    (t / 60) * 60
  }

  // The `limit` oldest members of a set, oldest first.
  ghost predicate Oldest(picked: seq<Occurrence>, due: set<Occurrence>, limit: nat) {
    && Distinct(picked)
    && (forall id :: id in picked ==> id in due)
    && |picked| == (if |due| < limit then |due| else limit)
    && (forall i, j :: 0 <= i < j < |picked| ==> picked[i].at <= picked[j].at)
    && (forall p, id :: p in picked && id in due && id !in picked ==> p.at <= id.at)
  }

  method Earliest(due: set<Occurrence>) returns (first: Occurrence)
    requires due != {}
    ensures first in due && forall id :: id in due ==> first.at <= id.at
  {
    first :| first in due;
    var rest := due - {first};
    while rest != {}
      invariant rest <= due && first in due
      invariant forall id :: id in due - rest ==> first.at <= id.at
    {
      var id :| id in rest;
      if id.at < first.at { first := id; }
      rest := rest - {id};
    }
  }

  ghost predicate Picking(picked: seq<Occurrence>, due: set<Occurrence>, rest: set<Occurrence>) {
    && rest == due - Ids(picked) && |rest| + |picked| == |due|
    && Distinct(picked)
    && (forall id :: id in picked ==> id in due)
    && (forall i, j :: 0 <= i < j < |picked| ==> picked[i].at <= picked[j].at)
    && (forall p, id :: p in picked && id in rest ==> p.at <= id.at)
  }

  lemma PickNext(picked: seq<Occurrence>, due: set<Occurrence>, rest: set<Occurrence>, id: Occurrence)
    requires Picking(picked, due, rest) && id in rest && forall other :: other in rest ==> id.at <= other.at
    ensures Picking(picked + [id], due, rest - {id})
  {
    var next := picked + [id];
    Appended(picked, id);
    assert Distinct(next) by {
      forall i, j | 0 <= i < j < |next| ensures next[i] != next[j] { PickedBefore(picked, due, rest, id, i, j); }
    }
    forall i, j | 0 <= i < j < |next| ensures next[i].at <= next[j].at { PickedBefore(picked, due, rest, id, i, j); }
  }

  lemma Appended(picked: seq<Occurrence>, id: Occurrence)
    ensures Ids(picked + [id]) == Ids(picked) + {id}
    ensures forall other :: other in picked + [id] <==> other in picked || other == id
  {
    forall other ensures other in picked + [id] <==> other in picked || other == id {
      if other == id { assert (picked + [id])[|picked|] == id; }
    }
  }

  lemma PickedBefore(picked: seq<Occurrence>, due: set<Occurrence>, rest: set<Occurrence>, id: Occurrence, i: nat, j: nat)
    requires Picking(picked, due, rest) && id in rest && i < j <= |picked|
    ensures (picked + [id])[i] != (picked + [id])[j] && (picked + [id])[i].at <= (picked + [id])[j].at
  {
    if j == |picked| {
      assert picked[i] in picked;
    }
  }

  // WHERE, then ORDER BY, then LIMIT.
  method SelectOldest(due: set<Occurrence>, limit: nat) returns (picked: seq<Occurrence>)
    ensures Oldest(picked, due, limit)
  {
    picked := [];
    var rest := due;
    assert Ids(picked) == {};
    while |picked| < limit && rest != {}
      invariant Picking(picked, due, rest) && |picked| <= limit
      decreases |rest|
    {
      hide Picking;
      var id := Earliest(rest);
      PickNext(picked, due, rest, id);
      picked := picked + [id];
      rest := rest - {id};
    }
  }

  function IdsOf(jobs: seq<ClaimedJob>): (ids: seq<Occurrence>)
    ensures |ids| == |jobs| && forall i :: 0 <= i < |jobs| ==> ids[i] == jobs[i].id
  {
    if jobs == [] then [] else [jobs[0].id] + IdsOf(jobs[1..])
  }

  lemma NextPicked(picked: seq<Occurrence>, i: nat)
    requires Distinct(picked) && i < |picked|
    ensures picked[i..] != [] && picked[i..][0] == picked[i] && picked[i..][1..] == picked[i + 1..]
    ensures picked[i] in picked[i..] && picked[i] !in picked[i + 1..]
    ensures forall id :: id in picked[i + 1..] ==> id in picked[i..]
  {
    assert picked[i..][0] == picked[i];
  }

  lemma ClaimNext(t: Table, ids: seq<Occurrence>, worker: string, now: int, lease: int)
    requires ids != [] && forall id :: id in ids ==> id in t.rows
    ensures ids[0] in t.rows && forall id :: id in ids[1..] ==> id in t.rows
    ensures ClaimFrom(t, ids, worker, now, lease) ==
            ClaimFrom(Table(t.rows[ids[0] := Claimed(t.rows[ids[0]], worker, t.nextToken, now, lease)], t.nextToken + 1),
                      ids[1..], worker, now, lease)
  {
  }

  lemma ClaimNone(t: Table, worker: string, now: int, lease: int)
    ensures ClaimFrom(t, [], worker, now, lease) == t
  {
  }

  lemma OneStep(t: Table, e: Event)
    requires Possible(t, e)
    ensures FeasibleFrom(t, [e]) && Continue(t, [e]) == Apply(t, e)
  {
    assert [e][1..] == [];
    assert FeasibleFrom(Apply(t, e), []) && Continue(Apply(t, e), []) == Apply(t, e);
  }

  class Ledger {
    var rows: map<Occurrence, Job>
    var nextToken: nat
    const lease: int
    const retryBackoff: int

    ghost function State(): Table
      reads this
    {
      Table(rows, nextToken)
    }

    constructor (lease: int, retryBackoff: int)
      ensures State() == EMPTY && this.lease == lease && this.retryBackoff == retryBackoff
    {
      rows, nextToken := map[], 0;
      this.lease, this.retryBackoff := lease, retryBackoff;
    }

    // Insert one occurrence; a second insertion of the same one does nothing.
    method EnqueueJob(jobType: JobType, scheduledFor: int, scope: string) returns (created: Option<Occurrence>)
      modifies this
      ensures var id := Occurrence(jobType, Minute(scheduledFor), scope);
              && State() == Apply(old(State()), Enqueue(id))
              && created == (if id in old(rows) then None else Some(id))
      // at the minute its instant falls in
      ensures exists id: Occurrence ::
                && id.jobType == jobType && id.scope == scope && id.at % 60 == 0 && id.at <= scheduledFor < id.at + 60
                && id in rows && created == (if id in old(rows) then None else Some(id))
    {
      var id := Occurrence(jobType, Minute(scheduledFor), scope);
      if id in rows { return None; }
      rows := rows[id := NEW_JOB];
      created := Some(id);
    }

    // Take ownership of the oldest due occurrences, in one transaction.
    method ClaimDue(now: int, worker: string, limit: nat) returns (claimed: seq<ClaimedJob>)
      modifies this
      ensures Oldest(IdsOf(claimed), Due(old(State()), now), limit)
      ensures Possible(old(State()), Claim(IdsOf(claimed), worker, now, lease))
      ensures State() == Apply(old(State()), Claim(IdsOf(claimed), worker, now, lease))
      ensures forall i :: 0 <= i < |claimed| ==>
                && claimed[i].id in old(rows)
                && claimed[i].token == old(nextToken) + i
                && claimed[i].attempts == old(rows)[claimed[i].id].attempts + 1
                && claimed[i].leaseExpires == now + lease
    {
      var due := set id | id in rows && id.at <= now && Claimable(rows[id], now);
      var picked := SelectOldest(due, limit);
      claimed := ClaimRows(picked, now, worker);
      assert IdsOf(claimed) == picked;
    }

    // Re-stamp the selected rows one by one, each by compare-and-swap on the
    // state and token it was selected with.
    method ClaimRows(picked: seq<Occurrence>, now: int, worker: string) returns (claimed: seq<ClaimedJob>)
      requires Distinct(picked) && forall id :: id in picked ==> id in rows
      modifies this
      ensures State() == ClaimFrom(old(State()), picked, worker, now, lease)
      ensures |claimed| == |picked|
      ensures forall i :: 0 <= i < |picked| ==>
                claimed[i] == ClaimedJob(picked[i], old(rows)[picked[i]].attempts + 1, old(nextToken) + i, now + lease)
    {
      hide Claimed, ClaimFrom, Distinct;
      var selected := rows;
      claimed := [];
      var i := 0;
      assert picked[0..] == picked;
      while i < |picked|
        invariant 0 <= i <= |picked| && |claimed| == i
        invariant rows.Keys == selected.Keys && nextToken == old(nextToken) + i
        invariant forall id :: id in picked[i..] ==> id in rows && rows[id] == selected[id]
        invariant ClaimFrom(State(), picked[i..], worker, now, lease)
                  == ClaimFrom(old(State()), picked, worker, now, lease)
        invariant forall k :: 0 <= k < i ==>
                    claimed[k] == ClaimedJob(picked[k], selected[picked[k]].attempts + 1, old(nextToken) + k, now + lease)
      {
        var id := picked[i];
        var row := selected[id];
        NextPicked(picked, i);
        ClaimNext(State(), picked[i..], worker, now, lease);
        if rows[id].state == row.state && rows[id].token == row.token {
          rows := rows[id := Claimed(rows[id], worker, nextToken, now, lease)];
          claimed := claimed + [ClaimedJob(id, row.attempts + 1, nextToken, now + lease)];
          nextToken := nextToken + 1;
        }
        i := i + 1;
      }
      ClaimNone(State(), worker, now, lease);
    }

    // Moves the row exactly when the token given is the one that holds it; otherwise
    // nothing changes.
    method Complete(e: Event) returns (ack: Ack)
      requires !e.Enqueue? && !e.Claim?
      modifies this
      ensures ack.Done? <==> old(Holds(State(), e.id, e.token))
      ensures State() == Apply(old(State()), e)
    {
      if e.id in rows && rows[e.id].state == Running && rows[e.id].token == e.token {
        rows := rows[e.id := Completed(rows[e.id], e)];
        return Done;
      }
      ack := StaleLease;
    }

    method RenewLease(job: ClaimedJob, now: int) returns (ack: Ack)
      modifies this
      ensures ack.Done? <==> old(Holds(State(), job.id, Some(job.token)))
      ensures State() == Apply(old(State()), Renew(job.id, Some(job.token), now, lease))
    {
      ack := Complete(Renew(job.id, Some(job.token), now, lease));
    }

    method MarkSucceeded(id: Occurrence, token: Option<nat>, now: int) returns (ack: Ack)
      modifies this
      ensures ack.Done? <==> old(Holds(State(), id, token))
      ensures State() == Apply(old(State()), Succeed(id, token, now))
    {
      ack := Complete(Succeed(id, token, now));
    }

    // What others commit in the meantime: of these transactions, those that are
    // possible when their turn comes and are not made under one of these tokens.
    method RunOthers(events: seq<Event>, mine: set<nat>) returns (ghost run: seq<Event>)
      modifies this
      ensures FeasibleFrom(old(State()), run) && State() == Continue(old(State()), run)
      ensures forall e :: e in run ==> Foreign(e, mine)
      ensures events == [] ==> run == []
    {
      run := [];
      var i := 0;
      while i < |events|
        invariant 0 <= i <= |events|
        invariant FeasibleFrom(old(State()), run) && State() == Continue(old(State()), run)
        invariant forall e :: e in run ==> Foreign(e, mine)
        invariant i == 0 ==> run == []
      {
        var t := Table(rows, nextToken);
        if Foreign(events[i], mine) && Possible(t, events[i]) {
          OneStep(t, events[i]);
          Joined(old(State()), run, [events[i]]);
          var t' := Apply(t, events[i]);
          rows, nextToken := t'.rows, t'.nextToken;
          run := run + [events[i]];
        }
        i := i + 1;
      }
    }

    // Two transactions, with those of others between them: the attempts are read
    // in the first, the row closed in the second - as if by one at the closing.
    method MarkFailed(id: Occurrence, token: Option<nat>, retryable: bool, retryAfter: Option<int>, now: int,
                      mine: set<nat>, between: seq<Event>)
      returns (ack: Ack, ghost run: seq<Event>)
      requires Sound(State()) && (token.Some? ==> token.value < nextToken)
      modifies this
      ensures FeasibleFrom(old(State()), run) && forall e :: e in run ==> Foreign(e, mine)
      ensures between == [] ==> run == []
      ensures id !in old(rows) ==> ack.StaleLease? && run == [] && State() == old(State())
      ensures id in old(rows) ==>
                var closing := Continue(old(State()), run);
                && id in closing.rows && (ack.Done? <==> Holds(closing, id, token))
                && State() == Apply(closing, Failure(id, token, closing.rows[id].attempts, retryable, retryAfter,
                                                     retryBackoff, now))
      // final, or due again once the delay has passed
      ensures ack.Done? ==>
                && id in rows && rows[id].attempts == Continue(old(State()), run).rows[id].attempts
                && (Terminal(rows[id].state) <==> !retryable || rows[id].attempts >= 3)
      ensures ack.Done? && retryable && rows[id].attempts < 3 ==>
                forall later :: id in Due(State(), later) <==>
                  && id.at <= later
                  && now + (if retryAfter.Some? then retryAfter.value else Backoff(retryBackoff, rows[id].attempts)) <= later
    {
      run := [];
      var read := ReadAttempts(id);
      if read.None? { return StaleLease, run; }
      var failure := Failure(id, token, read.value, retryable, retryAfter, retryBackoff, now);
      run := RunOthers(between, mine);
      TwoStepFailureIsAtomic(old(State()), run, id, token, retryable, retryAfter, retryBackoff, now);
      ghost var closing := State();
      ack := Complete(failure);
      if ack.Done? {
        hide Due, Apply, Failure, Terminal, Backoff, FeasibleFrom, Continue;
        forall later
          ensures && rows[id].attempts == closing.rows[id].attempts
                  && (Terminal(rows[id].state) <==> !retryable || rows[id].attempts >= 3)
                  && (retryable && rows[id].attempts < 3 ==>
                        (id in Due(State(), later) <==>
                           && id.at <= later
                           && now + (if retryAfter.Some? then retryAfter.value
                                     else Backoff(retryBackoff, rows[id].attempts)) <= later))
        {
          FailedWaits(closing, id, token, retryable, retryAfter, retryBackoff, now, later);
        }
      }
    }

    method ReadAttempts(id: Occurrence) returns (attempts: Option<nat>)
      ensures attempts == if id in rows then Some(rows[id].attempts) else None
    {
      attempts := if id in rows then Some(rows[id].attempts) else None;
    }

    method MarkDeferred(id: Occurrence, token: Option<nat>, until: int, now: int) returns (ack: Ack)
      modifies this
      ensures ack.Done? <==> old(Holds(State(), id, token))
      ensures State() == Apply(old(State()), Defer(id, token, until, now))
    {
      ack := Complete(Defer(id, token, until, now));
    }

    method MarkSkipped(id: Occurrence, token: Option<nat>, now: int) returns (ack: Ack)
      modifies this
      ensures ack.Done? <==> old(Holds(State(), id, token))
      ensures State() == Apply(old(State()), Skip(id, token, now))
    {
      ack := Complete(Skip(id, token, now));
    }

    // Asked before any effect outside the database.
    method AssertOwns(job: ClaimedJob) returns (ack: Ack)
      ensures ack.Done? <==> Holds(State(), job.id, Some(job.token))
    {
      ack := if job.id in rows && rows[job.id].state == Running && rows[job.id].token == Some(job.token)
             then Done else StaleLease;
    }
  }
}
