// From raw snapshots to per-bookmaker books: every snapshot is a repeat, put in
// quarantine, superseded by a newer one, or in exactly one book.
module Books {
  import opened Results

  datatype Market = MatchResult | DrawNoBet | DoubleChance | TotalGoals | TotalGames | MatchWinner

  datatype Selection = Selection(market: Market, period: string, line: Option<real>, code: string)

  datatype Snapshot = Snapshot(provider: string, bookmaker: string, event: string, selection: Selection, odds: real,
                               observedAt: int, receivedAt: int)

  // Price to six decimals: the same book, selection, price and instant are one fact.
  datatype Fingerprint = Fingerprint(provider: string, bookmaker: string, event: string, selection: Selection,
                                     millionths: int, observedAt: int)

  function FingerprintOf(s: Snapshot): Fingerprint {
    Fingerprint(s.provider, s.bookmaker, s.event, s.selection, (s.odds * 1000000.0 + 0.5).Floor, s.observedAt)
  }

  // Two snapshots are one fact only if they agree on everything but when they were
  // received - on the price to six decimals - and then they are.
  lemma OneFact(a: Snapshot, b: Snapshot)
    ensures FingerprintOf(a) == FingerprintOf(b) ==>
              && a.provider == b.provider && a.bookmaker == b.bookmaker && a.event == b.event
              && a.selection == b.selection && a.observedAt == b.observedAt
              && -0.000001 < a.odds - b.odds < 0.000001
    ensures a.(receivedAt := b.receivedAt) == b ==> FingerprintOf(a) == FingerprintOf(b)
  {
  }

  datatype Key = Key(bookmaker: string, event: string, selection: Selection)

  function KeyOf(s: Snapshot): Key {
    Key(s.bookmaker, s.event, s.selection)
  }

  datatype BookKey = BookKey(event: string, bookmaker: string, market: Market, period: string, line: Option<real>)

  function BookOf(s: Snapshot): BookKey {
    BookKey(s.event, s.bookmaker, s.selection.market, s.selection.period, s.selection.line)
  }

  datatype Reason = OddsTooLow | ObservedInFuture | ReceivedBeforeObserved | LineMissing | WholeLine

  function Validate(s: Snapshot, now: int): Option<Reason> {
    if s.odds <= 1.0 then Some(OddsTooLow)
    else if s.observedAt > now then Some(ObservedInFuture)
    else if s.receivedAt < s.observedAt then Some(ReceivedBeforeObserved)
    else if s.selection.market == TotalGoals || s.selection.market == TotalGames then
      if s.selection.line.None? then Some(LineMissing)
      else if s.selection.line.value == s.selection.line.value.Floor as real then Some(WholeLine)
      else None
    else None
  }

  predicate IsNumber(x: real, n: int) {
    x == n as real
  }

  // Usable exactly when priced above evens, seen before now and received after it
  // was seen, with a line between two whole numbers where totals are quoted; and
  // every reason is one that applies.
  lemma UsableExactly(s: Snapshot, now: int)
    ensures Validate(s, now).None?
            <==> && s.odds > 1.0 && s.observedAt <= now && s.observedAt <= s.receivedAt
                 && (s.selection.market == TotalGoals || s.selection.market == TotalGames ==>
                       s.selection.line.Some? && forall n: int :: !IsNumber(s.selection.line.value, n))
    ensures Validate(s, now) == Some(OddsTooLow) ==> s.odds <= 1.0
    ensures Validate(s, now) == Some(ObservedInFuture) ==> now < s.observedAt
    ensures Validate(s, now) == Some(ReceivedBeforeObserved) ==> s.receivedAt < s.observedAt
    ensures Validate(s, now) == Some(LineMissing) ==> s.selection.line.None?
    ensures Validate(s, now) == Some(WholeLine) ==>
              s.selection.line.Some? && exists n: int :: IsNumber(s.selection.line.value, n)
  {
    if s.selection.line.Some? {
      var line := s.selection.line.value;
      assert IsNumber(line, line.Floor) <==> exists n: int :: IsNumber(line, n);
    }
  }

  // ----- repeats -----------------------------------------------------------------------

  // The i-th snapshot repeats an earlier one.
  ghost predicate Repeat(snapshots: seq<Snapshot>, i: nat)
    requires i < |snapshots|
  {
    exists j :: 0 <= j < i && FingerprintOf(snapshots[j]) == FingerprintOf(snapshots[i])
  }

  // The snapshots left once repeats are dropped, in order.
  ghost function Firsts(snapshots: seq<Snapshot>): seq<Snapshot> {
    if snapshots == [] then []
    else
      var n := |snapshots| - 1;
      if Repeat(snapshots, n) then Firsts(snapshots[..n]) else Firsts(snapshots[..n]) + [snapshots[n]]
  }

  method Deduplicate(snapshots: seq<Snapshot>) returns (kept: seq<Snapshot>, dropped: nat)
    ensures kept == Firsts(snapshots) && |kept| + dropped == |snapshots|
  {
    kept, dropped := [], 0;
    var seen: set<Fingerprint> := {};
    var i := 0;
    while i < |snapshots|
      invariant 0 <= i <= |snapshots|
      invariant kept == Firsts(snapshots[..i]) && |kept| + dropped == i
      invariant forall f :: f in seen <==> exists j :: 0 <= j < i && FingerprintOf(snapshots[j]) == f
    {
      var snapshot := snapshots[i];
      assert snapshots[..i + 1][..i] == snapshots[..i];
      assert Repeat(snapshots[..i + 1], i) <==> FingerprintOf(snapshot) in seen by {
        if FingerprintOf(snapshot) in seen {
          var j :| 0 <= j < i && FingerprintOf(snapshots[j]) == FingerprintOf(snapshot);
          assert snapshots[..i + 1][j] == snapshots[j];
        }
      }
      if FingerprintOf(snapshot) in seen {
        dropped := dropped + 1;
      } else {
        seen := seen + {FingerprintOf(snapshot)};
        kept := kept + [snapshot];
      }
      i := i + 1;
    }
    assert snapshots[..|snapshots|] == snapshots;
  }

  // Each fact once: every fingerprint seen is kept, and none twice.
  lemma {:induction false} FirstsAreFacts(snapshots: seq<Snapshot>)
    ensures forall s :: s in Firsts(snapshots) ==> s in snapshots
    ensures forall s :: s in snapshots ==> Keeps(Firsts(snapshots), FingerprintOf(s))
    ensures forall i, j :: 0 <= i < j < |Firsts(snapshots)| ==>
              FingerprintOf(Firsts(snapshots)[i]) != FingerprintOf(Firsts(snapshots)[j])
  {
    if snapshots != [] {
      var n := |snapshots| - 1;
      var before, last := snapshots[..n], snapshots[n];
      FirstsAreFacts(before);
      var firsts, all := Firsts(before), Firsts(snapshots);
      assert forall s :: s in snapshots <==> s in before || s == last;
      if Repeat(snapshots, n) {
        var j :| 0 <= j < n && FingerprintOf(snapshots[j]) == FingerprintOf(last);
        assert before[j] in before;
      } else {
        forall i | 0 <= i < |firsts| ensures FingerprintOf(firsts[i]) != FingerprintOf(last) {
          assert firsts[i] in before;
        }
        assert all[|firsts|] == last;
        forall f | Keeps(firsts, f) ensures Keeps(all, f) {
          var s :| s in firsts && FingerprintOf(s) == f;
          assert s in all;
        }
        assert Keeps(all, FingerprintOf(last));
      }
    }
  }

  ghost predicate Keeps(snapshots: seq<Snapshot>, f: Fingerprint) {
    exists s :: s in snapshots && FingerprintOf(s) == f
  }

  // ----- quarantine ----------------------------------------------------------------------

  function Usable(snapshots: seq<Snapshot>, now: int): seq<Snapshot> {
    if snapshots == [] then []
    else
      var last, before := snapshots[|snapshots| - 1], Usable(snapshots[..|snapshots| - 1], now);
      if Validate(last, now).None? then before + [last] else before
  }

  datatype Quarantined = Quarantined(snapshot: Snapshot, reason: Reason)

  // The rejected snapshots with their reasons, in order.
  function Rejected(snapshots: seq<Snapshot>, now: int): seq<Quarantined> {
    if snapshots == [] then []
    else
      var last, before := snapshots[|snapshots| - 1], Rejected(snapshots[..|snapshots| - 1], now);
      match Validate(last, now)
      case None => before
      case Some(reason) => before + [Quarantined(last, reason)]
  }

  method Sift(snapshots: seq<Snapshot>, now: int) returns (usable: seq<Snapshot>, quarantined: seq<Quarantined>)
    ensures usable == Usable(snapshots, now) && quarantined == Rejected(snapshots, now)
    ensures |usable| + |quarantined| == |snapshots|
  {
    usable, quarantined := [], [];
    var i := 0;
    while i < |snapshots|
      invariant 0 <= i <= |snapshots|
      invariant usable == Usable(snapshots[..i], now) && quarantined == Rejected(snapshots[..i], now)
      invariant |usable| + |quarantined| == i
    {
      assert snapshots[..i + 1][..i] == snapshots[..i];
      var reason := Validate(snapshots[i], now);
      if reason.None? {
        usable := usable + [snapshots[i]];
      } else {
        quarantined := quarantined + [Quarantined(snapshots[i], reason.value)];
      }
      i := i + 1;
    }
    assert snapshots[..|snapshots|] == snapshots;
  }

  lemma {:induction false} Sifted(snapshots: seq<Snapshot>, now: int, s: Snapshot)
    ensures s in Usable(snapshots, now) <==> s in snapshots && Validate(s, now).None?
    ensures forall reason :: Quarantined(s, reason) in Rejected(snapshots, now)
              <==> s in snapshots && Validate(s, now) == Some(reason)
  {
    hide Validate;
    if snapshots != [] {
      var before, last := snapshots[..|snapshots| - 1], snapshots[|snapshots| - 1];
      Sifted(before, now, s);
      assert s in snapshots <==> s in before || s == last;
    }
  }

  // ----- newest ----------------------------------------------------------------------------

  // The i-th snapshot is the newest of its selection, the first of several equally new.
  ghost predicate NewestAt(snapshots: seq<Snapshot>, i: nat)
    requires i < |snapshots|
  {
    forall j :: 0 <= j < |snapshots| && KeyOf(snapshots[j]) == KeyOf(snapshots[i]) ==>
      snapshots[j].observedAt <= snapshots[i].observedAt
      && (j < i ==> snapshots[j].observedAt < snapshots[i].observedAt)
  }

  ghost predicate Newest(snapshots: seq<Snapshot>, s: Snapshot) {
    exists i :: 0 <= i < |snapshots| && snapshots[i] == s && NewestAt(snapshots, i)
  }

  // The best of the first snapshots, selection by selection, and where they are.
  ghost predicate BestOf(snapshots: seq<Snapshot>, best: map<Key, Snapshot>, at: map<Key, nat>) {
    && at.Keys == best.Keys
    && (forall k :: k in best ==> at[k] < |snapshots| && snapshots[at[k]] == best[k] && KeyOf(best[k]) == k)
    && (forall j :: 0 <= j < |snapshots| ==> KeyOf(snapshots[j]) in best)
    && (forall k :: k in best ==> NewestAt(snapshots, at[k]))
  }

  lemma BestNext(snapshots: seq<Snapshot>, s: Snapshot, best: map<Key, Snapshot>, at: map<Key, nat>)
    requires BestOf(snapshots, best, at)
    ensures var k := KeyOf(s);
            if k !in best || s.observedAt > best[k].observedAt
            then BestOf(snapshots + [s], best[k := s], at[k := |snapshots|])
            else BestOf(snapshots + [s], best, at)
  {
    var k, n, all := KeyOf(s), |snapshots|, snapshots + [s];
    var wins := k !in best || s.observedAt > best[k].observedAt;
    forall i: nat | i < n && (KeyOf(snapshots[i]) != k || !wins) && NewestAt(snapshots, i) && at[KeyOf(snapshots[i])] == i
      ensures NewestAt(all, i)
    {
      BestStays(snapshots, s, i);
    }
    if wins { BestWins(snapshots, s, best, at); }
  }

  lemma BestStays(snapshots: seq<Snapshot>, s: Snapshot, i: nat)
    requires i < |snapshots| && NewestAt(snapshots, i)
    requires KeyOf(s) == KeyOf(snapshots[i]) ==> s.observedAt <= snapshots[i].observedAt
    ensures NewestAt(snapshots + [s], i)
  {
  }

  lemma BestWins(snapshots: seq<Snapshot>, s: Snapshot, best: map<Key, Snapshot>, at: map<Key, nat>)
    requires BestOf(snapshots, best, at) && (KeyOf(s) !in best || s.observedAt > best[KeyOf(s)].observedAt)
    ensures NewestAt(snapshots + [s], |snapshots|)
  {
    forall j | 0 <= j < |snapshots| && KeyOf(snapshots[j]) == KeyOf(s)
      ensures snapshots[j].observedAt < s.observedAt
    {
      assert NewestAt(snapshots, at[KeyOf(s)]);
    }
  }

  // Whatever is usable, its selection has one newest snapshot, and only one.
  lemma {:induction false} OnePriceEach(snapshots: seq<Snapshot>, s: Snapshot)
    requires s in snapshots
    ensures exists i :: 0 <= i < |snapshots| && NewestAt(snapshots, i) && KeyOf(snapshots[i]) == KeyOf(s)
    ensures forall i, j :: 0 <= i < |snapshots| && 0 <= j < |snapshots| && NewestAt(snapshots, i) ==>
              (NewestAt(snapshots, j) && KeyOf(snapshots[i]) == KeyOf(snapshots[j]) ==> i == j)
  {
    var n := |snapshots| - 1;
    var before, last := snapshots[..n], snapshots[n];
    assert before + [last] == snapshots;
    if j :| 0 <= j < n && KeyOf(snapshots[j]) == KeyOf(s) {
      assert before[j] in before;
      OnePriceEach(before, before[j]);
      var i :| 0 <= i < n && NewestAt(before, i) && KeyOf(before[i]) == KeyOf(s);
      if KeyOf(last) != KeyOf(s) || last.observedAt <= before[i].observedAt {
        BestStays(before, last, i);
        assert NewestAt(snapshots, i);
      } else {
        assert NewestAt(snapshots, n);
      }
    } else {
      assert NewestAt(snapshots, n);
    }
  }

  lemma BestIsNewest(snapshots: seq<Snapshot>, best: map<Key, Snapshot>, at: map<Key, nat>, s: Snapshot)
    requires BestOf(snapshots, best, at)
    ensures KeyOf(s) in best && best[KeyOf(s)] == s <==> Newest(snapshots, s)
  {
    if Newest(snapshots, s) {
      var j :| 0 <= j < |snapshots| && snapshots[j] == s && NewestAt(snapshots, j);
      var i := at[KeyOf(s)];
      assert NewestAt(snapshots, i) && KeyOf(snapshots[i]) == KeyOf(s);
    }
  }

  method LatestPerSelection(snapshots: seq<Snapshot>) returns (best: map<Key, Snapshot>)
    ensures forall s :: s in snapshots ==> KeyOf(s) in best
    ensures forall k :: k in best ==> KeyOf(best[k]) == k
    ensures forall s :: KeyOf(s) in best && best[KeyOf(s)] == s <==> Newest(snapshots, s)
  {
    best := map[];
    ghost var at: map<Key, nat> := map[];
    var i := 0;
    assert BestOf(snapshots[..0], best, at);
    while i < |snapshots|
      invariant 0 <= i <= |snapshots|
      invariant BestOf(snapshots[..i], best, at)
    {
      hide BestOf;
      var snapshot := snapshots[i];
      var key := KeyOf(snapshot);
      BestNext(snapshots[..i], snapshot, best, at);
      assert snapshots[..i] + [snapshot] == snapshots[..i + 1];
      if key !in best || snapshot.observedAt > best[key].observedAt {
        best := best[key := snapshot];
        at := at[key := i];
      }
      i := i + 1;
    }
    assert snapshots[..|snapshots|] == snapshots;
    hide Newest, NewestAt;
    forall s ensures KeyOf(s) in best && best[KeyOf(s)] == s <==> Newest(snapshots, s) {
      BestIsNewest(snapshots, best, at, s);
    }
  }

  // ----- books -------------------------------------------------------------------------------

  // What becomes of one snapshot of the input.
  datatype Fate = Dropped | InQuarantine(reason: Reason) | Superseded | Booked

  ghost function FateOf(snapshots: seq<Snapshot>, i: nat, now: int): Fate
    requires i < |snapshots|
  {
    if Repeat(snapshots, i) then Dropped
    else
      match Validate(snapshots[i], now)
      case Some(reason) => InQuarantine(reason)
      case None => if Newest(Usable(Firsts(snapshots), now), snapshots[i]) then Booked else Superseded
  }

  // Where a snapshot of that fate is found, and where it is not.
  ghost predicate Accounted(snapshots: seq<Snapshot>, i: nat, now: int, books: map<BookKey, set<Snapshot>>,
                            quarantined: seq<Quarantined>)
    requires i < |snapshots|
  {
    var s := snapshots[i];
    match FateOf(snapshots, i, now)
    case Dropped => Keeps(Firsts(snapshots), FingerprintOf(s))
    case InQuarantine(reason) => Quarantined(s, reason) in quarantined && !InSomeBook(books, s)
    case Superseded => !InSomeBook(books, s) && Overtaken(books, s)
    case Booked => forall b :: b in books && s in books[b] <==> b == BookOf(s)
  }

  ghost predicate InSomeBook(books: map<BookKey, set<Snapshot>>, s: Snapshot) {
    exists b :: b in books && s in books[b]
  }

  // Its book holds another price of its selection, at least as new.
  ghost predicate Overtaken(books: map<BookKey, set<Snapshot>>, s: Snapshot) {
    BookOf(s) in books && exists t :: t in books[BookOf(s)] && KeyOf(t) == KeyOf(s) && t.observedAt >= s.observedAt
  }

  lemma {:induction false} FirstIsKept(snapshots: seq<Snapshot>, i: nat)
    requires i < |snapshots| && !Repeat(snapshots, i)
    ensures snapshots[i] in Firsts(snapshots)
  {
    var n := |snapshots| - 1;
    var before := snapshots[..n];
    if i < n {
      assert before[i] == snapshots[i];
      assert Repeat(before, i) ==> Repeat(snapshots, i);
      FirstIsKept(before, i);
    } else {
      assert Firsts(snapshots)[|Firsts(before)|] == snapshots[n];
    }
  }

  lemma OneFate(snapshots: seq<Snapshot>, i: nat, now: int, books: map<BookKey, set<Snapshot>>)
    requires i < |snapshots|
    requires forall b, s :: b in books && s in books[b] <==> b == BookOf(s) && Newest(Usable(Firsts(snapshots), now), s)
    ensures Accounted(snapshots, i, now, books, Rejected(Firsts(snapshots), now))
  {
    var firsts, s := Firsts(snapshots), snapshots[i];
    hide Usable, Rejected, Firsts, NewestAt, Newest, Validate, Repeat, Overtaken, InSomeBook;
    if Repeat(snapshots, i) {
      assert s in snapshots;
      FirstsAreFacts(snapshots);
    } else {
      FirstIsKept(snapshots, i);
      Sifted(firsts, now, s);
      FateInBooks(Usable(firsts, now), s, books);
    }
  }

  lemma FateInBooks(usable: seq<Snapshot>, s: Snapshot, books: map<BookKey, set<Snapshot>>)
    requires forall b, t :: b in books && t in books[b] <==> b == BookOf(t) && Newest(usable, t)
    ensures InSomeBook(books, s) <==> Newest(usable, s)
    ensures s !in usable ==> !InSomeBook(books, s)
    ensures s in usable && !Newest(usable, s) ==> Overtaken(books, s)
  {
    hide NewestAt, Overtaken;
    if Newest(usable, s) { assert BookOf(s) in books && s in books[BookOf(s)]; }
    if s !in usable { NotNewest(usable, s); }
    if s in usable { Overtakes(usable, s, books); }
  }

  lemma NotNewest(usable: seq<Snapshot>, s: Snapshot)
    requires s !in usable
    ensures !Newest(usable, s)
  {
  }

  lemma Overtakes(usable: seq<Snapshot>, s: Snapshot, books: map<BookKey, set<Snapshot>>)
    requires s in usable
    requires forall b, t :: b in books && t in books[b] <==> b == BookOf(t) && Newest(usable, t)
    ensures Overtaken(books, s)
  {
    hide Newest;
    var t := NewestOfItsKind(usable, s);
    assert BookOf(t) == BookOf(s);
    assert BookOf(s) in books && t in books[BookOf(s)];
  }

  lemma NewestOfItsKind(usable: seq<Snapshot>, s: Snapshot) returns (t: Snapshot)
    requires s in usable
    ensures Newest(usable, t) && KeyOf(t) == KeyOf(s) && t.observedAt >= s.observedAt
  {
    OnePriceEach(usable, s);
    var i :| 0 <= i < |usable| && NewestAt(usable, i) && KeyOf(usable[i]) == KeyOf(s);
    t := usable[i];
    var j :| 0 <= j < |usable| && usable[j] == s;
  }

  // Grouped by event, bookmaker, market, period and line: a book holds exactly
  // the newest usable snapshots of its selections, and every snapshot of the
  // input is accounted for.
  method AssembleBooks(snapshots: seq<Snapshot>, now: int)
    returns (books: map<BookKey, set<Snapshot>>, dropped: nat, quarantined: seq<Quarantined>)
    ensures quarantined == Rejected(Firsts(snapshots), now)
    ensures |snapshots| == dropped + |Firsts(snapshots)|
    ensures |Firsts(snapshots)| == |quarantined| + |Usable(Firsts(snapshots), now)|
    ensures forall b, s :: b in books && s in books[b] <==> b == BookOf(s) && Newest(Usable(Firsts(snapshots), now), s)
    ensures forall b :: b in books ==> books[b] != {}
    ensures forall b, s :: b in books && s in books[b] ==>
              && b.event == s.event && b.bookmaker == s.bookmaker && b.market == s.selection.market
              && b.period == s.selection.period && b.line == s.selection.line
    ensures forall i :: 0 <= i < |snapshots| ==> Accounted(snapshots, i, now, books, quarantined)
  {
    hide Newest, Usable, Firsts, Validate, Rejected, Accounted;
    var kept, usable;
    kept, dropped := Deduplicate(snapshots);
    usable, quarantined := Sift(kept, now);
    var best := LatestPerSelection(usable);
    books := Group(best);
    forall b, s | b in books && s in books[b]
      ensures && b.event == s.event && b.bookmaker == s.bookmaker && b.market == s.selection.market
              && b.period == s.selection.period && b.line == s.selection.line
    {
      assert b == BookOf(s);
    }
    forall i | 0 <= i < |snapshots| ensures Accounted(snapshots, i, now, books, quarantined) {
      OneFate(snapshots, i, now, books);
    }
  }

  method Group(best: map<Key, Snapshot>) returns (books: map<BookKey, set<Snapshot>>)
    requires forall k :: k in best ==> KeyOf(best[k]) == k
    ensures forall b, s :: b in books && s in books[b] <==> b == BookOf(s) && KeyOf(s) in best && best[KeyOf(s)] == s
    ensures forall b :: b in books ==> books[b] != {}
  {
    books := map[];
    var left := best.Keys;
    while left != {}
      invariant left <= best.Keys
      invariant forall b, s :: b in books && s in books[b]
                  <==> b == BookOf(s) && KeyOf(s) in best && KeyOf(s) !in left && best[KeyOf(s)] == s
      invariant forall b :: b in books ==> books[b] != {}
      decreases |left|
    {
      var k :| k in left;
      var snapshot := best[k];
      var b := BookOf(snapshot);
      books := books[b := (if b in books then books[b] else {}) + {snapshot}];
      left := left - {k};
    }
  }
}
