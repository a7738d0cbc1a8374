// The identity service over its four tables: each method is one transaction.
module IdentityService {
  import opened Results
  import opened Identity

  class EventIdentityService {
    var events: map<Id, Event>
    var sources: map<SourceKey, Id>
    var reviews: map<SourceKey, Review>
    var history: seq<Change>
    var nextId: Id

    ghost function State(): Registry
      reads this
    {
      Registry(events, sources, reviews, history, nextId)
    }

    constructor ()
      ensures State() == EMPTY
    {
      events, sources, reviews, history, nextId := map[], map[], map[], [], 0;
    }

    // The four tables and the answer are those of one resolution.
    method ResolveEvent(q: Request) returns (answer: Resolution)
      modifies this
      ensures State() == Resolve(old(State()), q).0 && answer == Resolve(old(State()), q).1
    {
      if q.key.eventId == "" || !q.named { return Resolution(Rejected, None, {}, false); }
      if q.key in sources {
        answer := RefreshMapped(sources[q.key], q.start, q.status);
        return;
      }
      var candidates := MatchCandidates(q);
      if |candidates| > 1 {
        answer := RecordAmbiguity(q.key, candidates);
      } else if |candidates| == 1 {
        var id := TheOne(candidates);
        Link(q.key, id);
        answer := Resolution(Resolved, Some(id), {}, false);
      } else {
        answer := CreateEvent(q);
      }
    }

    // Only kick-off and status can move, and a move leaves one history entry.
    method RefreshMapped(id: Id, start: int, status: Status) returns (answer: Resolution)
      modifies this`events, this`history
      ensures State() == Refreshed(old(State()), id, start, status)
      ensures answer == Resolution(Resolved, Some(id), {}, id in old(events) && old(events)[id].start != start)
    {
      var rescheduled := false;
      if id in events {
        var row := events[id];
        if row.start != start || row.status != status {
          rescheduled := row.start != start;
          history := history + [Change(id, start, status, Some(row.start))];
          events := events[id := row.(start := start, status := status)];
        }
      }
      answer := Resolution(Resolved, Some(id), {}, rescheduled);
    }

    // Cross-provider matching: what fits, less what this provider already named.
    method MatchCandidates(q: Request) returns (candidates: set<Id>)
      ensures candidates == Matches(State(), q)
    {
      var mapped := set key | key in sources && key.provider == q.key.provider :: sources[key];
      candidates := set id | id in events && Plausible(events[id], q) && id !in mapped;
      forall id ensures id in candidates <==> id in Matches(State(), q) {
        if Carries(sources, q.key.provider, id) {
          var key :| key in sources && key.provider == q.key.provider && sources[key] == id;
        }
      }
    }

    // One queue entry, new or updated; events, map and history stay.
    method RecordAmbiguity(key: SourceKey, candidates: set<Id>) returns (answer: Resolution)
      modifies this`reviews
      ensures State() == Queued(old(State()), key, candidates)
      ensures answer == Resolution(Ambiguous, None, candidates, false)
    {
      if key in reviews {
        reviews := reviews[key := reviews[key].(candidates := candidates)];
      } else {
        reviews := reviews[key := Review(candidates, false, None)];
      }
      answer := Resolution(Ambiguous, None, candidates, false);
    }

    // The map and the event's own column gain the same pair.
    method Link(key: SourceKey, id: Id)
      modifies this`sources, this`events
      ensures State() == Linked(old(State()), key, id)
    {
      sources := sources[key := id];
      if id in events {
        var row := events[id];
        if !(key.provider in row.sourceIds && row.sourceIds[key.provider] == key.eventId) {
          events := events[id := row.(sourceIds := row.sourceIds[key.provider := key.eventId])];
        } else {
          assert row.sourceIds == row.sourceIds[key.provider := key.eventId];
          assert events == events[id := row];
        }
      }
    }

    method CreateEvent(q: Request) returns (answer: Resolution)
      modifies this
      ensures State() == WithNew(old(State()), q)
      ensures answer == Resolution(Created, Some(old(nextId)), {}, false)
    {
      var id := nextId;
      nextId := nextId + 1;
      events := events[id := NewEvent(q)];
      sources := sources[q.key := id];
      history := history + [Change(id, q.start, q.status, None)];
      answer := Resolution(Created, Some(id), {}, false);
    }

    // Either every check passes and map and queue move together, or nothing does.
    method ResolveReview(key: SourceKey, id: Id) returns (r: Result<Resolution, ReviewError>)
      modifies this
      ensures State() == Decide(old(State()), key, id)
      ensures r == match Refusal(old(State()), key, id)
                   case Some(error) => Raised(error)
                   case None => Ok(Resolution(Resolved, Some(id), {}, false))
    {
      if key !in reviews { return Raised(ReviewNotFound); }
      var review := reviews[key];
      if review.resolved { return Raised(ReviewAlreadyResolved); }
      if id !in review.candidates { return Raised(ReviewResolutionRejected); }
      if id !in events { return Raised(ReviewResolutionRejected); }
      if key in sources { return Raised(ReviewResolutionRejected); }
      Link(key, id);
      reviews := reviews[key := Review(review.candidates, true, Some(id))];
      r := Ok(Resolution(Resolved, Some(id), {}, false));
    }
  }
}
