// Whole runs of the scheduler: any interleaving of any number of workers, one
// transaction at a time, from an empty table.
module JobRuns {
  import opened Results
  import opened JobTable

  ghost predicate Feasible(run: seq<Event>)
    decreases |run|, 0
  {
    run == [] || (Feasible(run[..|run| - 1]) && Possible(After(run[..|run| - 1]), run[|run| - 1]))
  }

  ghost function After(run: seq<Event>): Table
    requires Feasible(run)
    decreases |run|, 1
  {
    if run == [] then EMPTY else Apply(After(run[..|run| - 1]), run[|run| - 1])
  }

  // The rest of a run, from a table already reached.
  ghost predicate FeasibleFrom(t: Table, more: seq<Event>)
    decreases |more|
  {
    more == [] || (Possible(t, more[0]) && FeasibleFrom(Apply(t, more[0]), more[1..]))
  }

  ghost function Continue(t: Table, more: seq<Event>): Table
    requires FeasibleFrom(t, more)
    decreases |more|
  {
    if more == [] then t else Continue(Apply(t, more[0]), more[1..])
  }

  // One stretch of a run after another.
  lemma {:induction false} Joined(t: Table, first: seq<Event>, second: seq<Event>)
    requires FeasibleFrom(t, first) && FeasibleFrom(Continue(t, first), second)
    ensures FeasibleFrom(t, first + second)
    ensures Continue(t, first + second) == Continue(Continue(t, first), second)
    decreases |first|
  {
    if first == [] {
      assert first + second == second;
    } else {
      assert (first + second)[0] == first[0] && (first + second)[1..] == first[1..] + second;
      Joined(Apply(t, first[0]), first[1..], second);
    }
  }

  // ----- what every transaction keeps ------------------------------------------

  ghost predicate JobOk(id: Occurrence, job: Job, nextToken: nat) {
    && job.attempts <= MAX_ATTEMPTS
    && (job.state == Running <==> job.token.Some?)
    && (job.state == Running <==> job.leaseExpires.Some?)
    && (job.state == Running <==> job.owner.Some?)
    && (job.token.Some? ==> job.token.value < nextToken)
    && (job.state == Running ==> job.attempts >= 1 && job.nextAttempt.None?)
    && (job.state == Pending ==> job.attempts == 0)
    && (job.state == Deferred ==> job.attempts < MAX_ATTEMPTS && job.nextAttempt.Some?)
  }

  ghost predicate Sound(t: Table) {
    && (forall id :: id in t.rows ==> JobOk(id, t.rows[id], t.nextToken))
    && (forall a, b :: a in t.rows && b in t.rows && a != b && t.rows[a].token.Some? ==>
          t.rows[a].token != t.rows[b].token)
  }

  lemma SoundStep(t: Table, e: Event)
    requires Sound(t) && Possible(t, e)
    ensures Sound(Apply(t, e)) && Apply(t, e).nextToken >= t.nextToken
  {
    if Accepted(t, e) && e.Claim? {
      ClaimKeepsRows(t, e);
      ClaimKeepsTokensApart(t, e);
    }
  }

  lemma ClaimKeepsRows(t: Table, e: Event)
    requires Sound(t) && Possible(t, e) && e.Claim?
    ensures Apply(t, e).nextToken >= t.nextToken
    ensures forall id :: id in Apply(t, e).rows ==> JobOk(id, Apply(t, e).rows[id], Apply(t, e).nextToken)
  {
    hide ClaimFrom;
    ClaimEffect(t, e.ids, e.worker, e.now, e.lease);
    var t' := Apply(t, e);
    forall id | id in t'.rows ensures JobOk(id, t'.rows[id], t'.nextToken) {
      TokenOf(t, e, id);
      if id in e.ids { assert id in Due(t, e.now); }
    }
  }

  lemma ClaimKeepsTokensApart(t: Table, e: Event)
    requires Sound(t) && Possible(t, e) && e.Claim?
    ensures var rows := Apply(t, e).rows;
            forall a, b :: a in rows && b in rows && a != b && rows[a].token.Some? ==> rows[a].token != rows[b].token
  {
    hide ClaimFrom;
    ClaimEffect(t, e.ids, e.worker, e.now, e.lease);
    var rows := Apply(t, e).rows;
    forall a, b | a in rows && b in rows && a != b && rows[a].token.Some? ensures rows[a].token != rows[b].token {
      TokenOf(t, e, a);
      TokenOf(t, e, b);
    }
  }

  // After a claim a row has its old token, or a fresh one of its own.
  lemma TokenOf(t: Table, e: Event, id: Occurrence)
    requires Sound(t) && Possible(t, e) && e.Claim? && id in t.rows
    ensures id in Apply(t, e).rows
    ensures id !in e.ids ==> Apply(t, e).rows[id] == t.rows[id]
    ensures id in e.ids ==>
              exists i ::
                && 0 <= i < |e.ids| && e.ids[i] == id
                && Apply(t, e).rows[id] == Claimed(t.rows[id], e.worker, t.nextToken + i, e.now, e.lease)
  {
    ClaimEffect(t, e.ids, e.worker, e.now, e.lease);
    if id in e.ids {
      var i :| 0 <= i < |e.ids| && e.ids[i] == id;
      assert Apply(t, e).rows[e.ids[i]] == Claimed(t.rows[e.ids[i]], e.worker, t.nextToken + i, e.now, e.lease);
    }
  }

  lemma {:induction false} RunsAreSound(run: seq<Event>)
    requires Feasible(run)
    ensures Sound(After(run))
  {
    if run != [] {
      RunsAreSound(run[..|run| - 1]);
      SoundStep(After(run[..|run| - 1]), run[|run| - 1]);
    }
  }

  // ----- fencing -----------------------------------------------------------------

  // One step leaves a row exactly as it was, closes or renews it under its own
  // token, claims it afresh, or creates it.
  lemma RowStep(t: Table, e: Event, id: Occurrence)
    requires Sound(t) && Possible(t, e) && id in Apply(t, e).rows
    ensures id !in t.rows ==> Apply(t, e).rows[id] == NEW_JOB
    ensures id in t.rows && (if e.Claim? then id !in e.ids else e.id != id || !Accepted(t, e)) ==>
              Apply(t, e).rows[id] == t.rows[id]
    ensures id in t.rows && e.Claim? && id in e.ids ==>
              && id in Due(t, e.now)
              && Apply(t, e).rows[id].state == Running && Apply(t, e).rows[id].attempts == t.rows[id].attempts + 1
              && Apply(t, e).rows[id].token.Some? && Apply(t, e).rows[id].token.value >= t.nextToken
    ensures id in t.rows && !e.Claim? && e.id == id && Accepted(t, e) ==>
              !e.Enqueue? && Holds(t, id, e.token) && Apply(t, e).rows[id] == Completed(t.rows[id], e)
  {
    if e.Claim? {
      ClaimEffect(t, e.ids, e.worker, e.now, e.lease);
      if id in t.rows { TokenOf(t, e, id); }
    }
  }

  // A token seen on a row now was on it, with the same number of attempts, at
  // every earlier moment since it was drawn.
  lemma {:induction false} TokenStays(t: Table, more: seq<Event>, id: Occurrence, token: nat)
    requires Sound(t) && FeasibleFrom(t, more) && token < t.nextToken
    requires id in Continue(t, more).rows && Continue(t, more).rows[id].token == Some(token)
    ensures Holds(t, id, Some(token))
    ensures Continue(t, more).rows[id].attempts == t.rows[id].attempts
    decreases |more|
  {
    if more != [] {
      var t1 := Apply(t, more[0]);
      SoundStep(t, more[0]);
      TokenStays(t1, more[1..], id, token);
      RowStep(t, more[0], id);
    }
  }

  // A token issued and no longer held is never held again.
  lemma LostForGood(t: Table, more: seq<Event>, id: Occurrence, token: nat)
    requires Sound(t) && FeasibleFrom(t, more) && token < t.nextToken && !Holds(t, id, Some(token))
    ensures !Holds(Continue(t, more), id, Some(token))
  {
    if Holds(Continue(t, more), id, Some(token)) { TokenStays(t, more, id, token); }
  }

  // A worker reads the attempts, and later - whatever the others did in between -
  // closes the row with what they called for: final or not, and after what delay.
  // It is as if it had read them at the closing.
  lemma TwoStepFailureIsAtomic(t: Table, more: seq<Event>, id: Occurrence, token: Option<nat>, retryable: bool,
                               retryAfter: Option<int>, base: int, now: int)
    requires Sound(t) && FeasibleFrom(t, more) && id in t.rows
    requires token.Some? ==> token.value < t.nextToken
    ensures Sound(Continue(t, more)) && id in Continue(t, more).rows
    ensures var t' := Continue(t, more);
            Apply(t', Failure(id, token, t.rows[id].attempts, retryable, retryAfter, base, now))
            == Apply(t', Failure(id, token, t'.rows[id].attempts, retryable, retryAfter, base, now))
  {
    RowsStay(t, more, id);
    if Holds(Continue(t, more), id, token) {
      assert token.Some?;
      TokenStays(t, more, id, token.value);
    }
  }

  lemma {:induction false} RowsStay(t: Table, more: seq<Event>, id: Occurrence)
    requires Sound(t) && FeasibleFrom(t, more) && id in t.rows
    ensures Sound(Continue(t, more)) && id in Continue(t, more).rows
    ensures Terminal(t.rows[id].state) ==> Continue(t, more).rows[id] == t.rows[id]
    decreases |more|
  {
    if more != [] {
      SoundStep(t, more[0]);
      if more[0].Claim? { TokenOf(t, more[0], id); }
      RowStep(t, more[0], id);
      RowsStay(Apply(t, more[0]), more[1..], id);
    }
  }

  // The token the last claim of an occurrence handed out.
  ghost function LastToken(run: seq<Event>, id: Occurrence): Option<nat>
    requires Feasible(run)
  {
    if run == [] then None
    else
      var e := run[|run| - 1];
      if e.Claim? && id in e.ids && id in After(run).rows then After(run).rows[id].token
      else LastToken(run[..|run| - 1], id)
  }

  // Only the holder of the most recently issued token can change a job.
  lemma {:induction false} OnlyTheLastTokenHolds(run: seq<Event>, id: Occurrence, token: Option<nat>)
    requires Feasible(run) && Holds(After(run), id, token)
    ensures token.Some? && token == LastToken(run, id)
    decreases |run|
  {
    RunsAreSound(run);
    var before := run[..|run| - 1];
    var t, e := After(before), run[|run| - 1];
    RunsAreSound(before);
    RowStep(t, e, id);
    if !(e.Claim? && id in e.ids) {
      OnlyTheLastTokenHolds(before, id, token);
    }
  }

  // ----- bookkeeping -------------------------------------------------------------

  ghost function Attempts(t: Table, id: Occurrence): nat {
    if id in t.rows then t.rows[id].attempts else 0
  }

  ghost function Claims(run: seq<Event>, id: Occurrence): nat {
    if run == [] then 0
    else Claims(run[..|run| - 1], id) + if run[|run| - 1].Claim? && id in run[|run| - 1].ids then 1 else 0
  }

  ghost function Deferrals(run: seq<Event>, id: Occurrence): nat
    requires Feasible(run)
  {
    if run == [] then 0
    else
      var e := run[|run| - 1];
      Deferrals(run[..|run| - 1], id)
      + if e.Defer? && e.id == id && Accepted(After(run[..|run| - 1]), e) then 1 else 0
  }

  ghost function Skips(run: seq<Event>, id: Occurrence): nat
    requires Feasible(run)
  {
    if run == [] then 0
    else
      var e := run[|run| - 1];
      Skips(run[..|run| - 1], id)
      + if e.Skip? && e.id == id && Accepted(After(run[..|run| - 1]), e) then 1 else 0
  }

  // Every claim is either an attempt still counted or one given back.
  lemma {:induction false} BooksBalance(run: seq<Event>, id: Occurrence)
    requires Feasible(run)
    ensures Claims(run, id) == Attempts(After(run), id) + Deferrals(run, id) + Skips(run, id)
    ensures Attempts(After(run), id) <= MAX_ATTEMPTS
    ensures id !in After(run).rows ==> Claims(run, id) == 0
  {
    RunsAreSound(run);
    if run != [] {
      var before := run[..|run| - 1];
      var t, e := After(before), run[|run| - 1];
      RunsAreSound(before);
      BooksBalance(before, id);
      if id in After(run).rows { RowStep(t, e, id); }
      if e.Claim? {
        ClaimEffect(t, e.ids, e.worker, e.now, e.lease);
      }
    }
  }

  ghost predicate Ended(t: Table, id: Occurrence) {
    id in t.rows && Terminal(t.rows[id].state)
  }

  // How often a job was brought to an end.
  ghost function Endings(run: seq<Event>, id: Occurrence): nat
    requires Feasible(run)
  {
    if run == [] then 0
    else
      Endings(run[..|run| - 1], id)
      + if Ended(After(run), id) && !Ended(After(run[..|run| - 1]), id) then 1 else 0
  }

  lemma {:induction false} EndsOnce(run: seq<Event>, id: Occurrence)
    requires Feasible(run)
    ensures Endings(run, id) == if Ended(After(run), id) then 1 else 0
  {
    RunsAreSound(run);
    if run != [] {
      var before := run[..|run| - 1];
      var t, e := After(before), run[|run| - 1];
      RunsAreSound(before);
      EndsOnce(before, id);
      if id in After(run).rows { RowStep(t, e, id); }
      if e.Claim? {
        ClaimEffect(t, e.ids, e.worker, e.now, e.lease);
      }
    }
  }

  // ----- what an expired lease is worth --------------------------------------------

  // An expired lease can be reclaimed if and only if attempts are left.
  lemma ExpiredLease(t: Table, id: Occurrence, now: int)
    requires Sound(t) && id in t.rows && t.rows[id].state == Running
    requires id.at <= now && t.rows[id].leaseExpires.value <= now
    ensures id in Due(t, now) <==> t.rows[id].attempts < MAX_ATTEMPTS
  {
  }

  // A third attempt whose worker stays silent is never touched again.
  lemma {:induction false} ThirdAttemptStranded(t: Table, more: seq<Event>, id: Occurrence)
    requires Sound(t) && FeasibleFrom(t, more)
    requires id in t.rows && t.rows[id].state == Running && t.rows[id].attempts == MAX_ATTEMPTS
    requires forall e :: e in more && !e.Claim? && !e.Enqueue? && e.id == id ==> e.token != t.rows[id].token
    ensures id in Continue(t, more).rows && Continue(t, more).rows[id] == t.rows[id]
    decreases |more|
  {
    if more != [] {
      var e := more[0];
      SoundStep(t, e);
      if e.Claim? { TokenOf(t, e, id); }
      RowStep(t, e, id);
      ThirdAttemptStranded(Apply(t, e), more[1..], id);
    }
  }

  // Such a job exists: three claims, each after the lease before it ran out.
  ghost function CrashRun(id: Occurrence, worker: string, lease: int): seq<Event> {
    [Enqueue(id),
     Claim([id], worker, id.at, lease),
     Claim([id], worker, id.at + lease, lease),
     Claim([id], worker, id.at + 2 * lease, lease)]
  }

  lemma CrashRunStrands(id: Occurrence, worker: string, lease: int, now: int)
    requires lease > 0
    ensures FeasibleFrom(EMPTY, CrashRun(id, worker, lease))
    ensures var t := Continue(EMPTY, CrashRun(id, worker, lease));
            id in t.rows && t.rows[id].state == Running && t.rows[id].attempts == MAX_ATTEMPTS && id !in Due(t, now)
  {
    var run := CrashRun(id, worker, lease);
    var t1 := Table(map[id := NEW_JOB], 0);
    var t2 := OneClaim(t1, id, worker, id.at, lease);
    var t3 := OneClaim(t2, id, worker, id.at + lease, lease);
    var t4 := OneClaim(t3, id, worker, id.at + 2 * lease, lease);
    assert run[1..][1..][1..][1..] == [];
    assert run[1..][1..][1..] == [run[3]] && run[1..][1..] == run[2..];
    assert FeasibleFrom(t4, []) && Continue(t4, []) == t4;
    assert FeasibleFrom(t3, [run[3]]) && Continue(t3, [run[3]]) == t4;
    assert FeasibleFrom(t2, run[2..]) && Continue(t2, run[2..]) == t4;
    assert FeasibleFrom(t1, run[1..]) && Continue(t1, run[1..]) == t4;
  }

  lemma OneClaim(t: Table, id: Occurrence, worker: string, now: int, lease: int) returns (t': Table)
    requires id in t.rows && id in Due(t, now)
    ensures Possible(t, Claim([id], worker, now, lease)) && t' == Apply(t, Claim([id], worker, now, lease))
    ensures id in t'.rows && t'.rows[id] == Claimed(t.rows[id], worker, t.nextToken, now, lease)
  {
    t' := Apply(t, Claim([id], worker, now, lease));
    ClaimEffect(t, [id], worker, now, lease);
    assert [id][0] == id;
  }

  // ----- no starvation ---------------------------------------------------------------

  function Ids(ids: seq<Occurrence>): set<Occurrence> {
    set id | id in ids
  }

  lemma {:induction false} DistinctSize(ids: seq<Occurrence>)
    requires Distinct(ids)
    ensures |Ids(ids)| == |ids|
  {
    if ids != [] {
      DistinctSize(ids[1..]);
      assert forall i :: 0 <= i < |ids| - 1 ==> ids[1..][i] == ids[i + 1];
      assert ids[0] !in Ids(ids[1..]);
      assert Ids(ids) == Ids(ids[1..]) + {ids[0]};
    }
  }

  // A claim takes its rows out of the due set of its own instant, and no others.
  lemma ClaimShrinksDue(t: Table, e: Event)
    requires Possible(t, e) && e.Claim? && e.lease > 0
    ensures Due(Apply(t, e), e.now) == Due(t, e.now) - Ids(e.ids)
    ensures |Due(Apply(t, e), e.now)| == |Due(t, e.now)| - |e.ids|
  {
    ClaimEffect(t, e.ids, e.worker, e.now, e.lease);
    var t' := Apply(t, e);
    forall id ensures id in Due(t', e.now) <==> id in Due(t, e.now) - Ids(e.ids) {
      if id in e.ids {
        var i :| 0 <= i < |e.ids| && e.ids[i] == id;
        assert t'.rows[e.ids[i]].leaseExpires == Some(e.now + e.lease);
      }
    }
    DistinctSize(e.ids);
    assert Ids(e.ids) <= Due(t, e.now);
  }

  // A sweep: claims of at most `limit` rows at one instant, each as full as the
  // due rows allow.
  ghost predicate Sweep(t: Table, claims: seq<Event>, now: int, limit: nat)
    decreases |claims|
  {
    claims == [] ||
    (var e := claims[0];
     && e.Claim? && e.now == now && e.lease > 0 && Possible(t, e)
     && |e.ids| == (if |Due(t, now)| < limit then |Due(t, now)| else limit)
     && Sweep(Apply(t, e), claims[1..], now, limit))
  }

  lemma {:induction false} EnoughLeft(limit: nat, claims: nat, due: nat)
    requires claims > 0 && limit * claims >= due
    ensures limit * (claims - 1) >= if due < limit then 0 else due - limit
  {
    assert limit * claims == limit + limit * (claims - 1);
  }

  lemma SweepHead(t: Table, claims: seq<Event>, now: int, limit: nat)
    requires Sweep(t, claims, now, limit) && claims != []
    ensures var due, t' := |Due(t, now)|, Apply(t, claims[0]);
            && |Due(t', now)| == (if due < limit then 0 else due - limit)
            && Sweep(t', claims[1..], now, limit)
  {
    hide Due, Apply;
    ClaimShrinksDue(t, claims[0]);
  }

  // However many rows are finished, a sweep long enough reaches every due one.
  lemma {:induction false} SweepReachesAll(t: Table, claims: seq<Event>, now: int, limit: nat)
    requires Sweep(t, claims, now, limit)
    ensures FeasibleFrom(t, claims)
    ensures limit * |claims| >= |Due(t, now)| ==> Due(Continue(t, claims), now) == {}
    decreases |claims|
  {
    hide Apply, Due, Possible;
    if claims != [] {
      SweepHead(t, claims, now, limit);
      SweepReachesAll(Apply(t, claims[0]), claims[1..], now, limit);
      if limit * |claims| >= |Due(t, now)| {
        EnoughLeft(limit, |claims|, |Due(t, now)|);
      }
    }
  }
}
