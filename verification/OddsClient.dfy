// The provider client: bounded retries, every billable attempt reserved before
// it is made and settled by what its failure can prove.
module OddsClient {
  import opened Results
  import opened Budget
  import opened BudgetLedger

  // What becomes of one request. `NeverSent` and `InDoubt` are transport errors;
  // `Escaped` is anything else the HTTP library raises, an invalid URL included.
  datatype Wire =
    | Answered(status: int, lastCost: Option<int>, json: bool)
    | NeverSent
    | InDoubt
    | Escaped

  datatype ApiError = BudgetRefused | AuthRefused | QuotaExceeded | Failed(reached: Option<bool>) | Unhandled

  predicate RetryableStatus(status: int) {
    status == 429 || status == 500 || status == 502 || status == 503 || status == 504
  }

  predicate Retryable(w: Wire) {
    match w
    case Answered(status, _, _) => RetryableStatus(status)
    case NeverSent => true
    case InDoubt => true
    case Escaped => false
  }

  // How a call ends when its last request went like this.
  function Verdict(w: Wire): Result<Option<int>, ApiError> {
    match w
    case Answered(status, lastCost, json) =>
      if status == 401 || status == 403 then Raised(AuthRefused)
      else if status == 429 then Raised(QuotaExceeded)
      else if status >= 400 || !json then Raised(Failed(None))
      else Ok(lastCost)
    case NeverSent => Raised(Failed(Some(false)))
    case InDoubt => Raised(Failed(Some(true)))
    case Escaped => Raised(Unhandled)
  }

  // An answer below 400 in JSON ends the call well and is never asked for again; a
  // refused key ends it at once, and so does any other error but an exhausted
  // quota and the four kinds of server trouble that may pass.
  lemma StatusDecides(status: int, lastCost: Option<int>, json: bool)
    ensures var w := Answered(status, lastCost, json);
            && (status < 400 && json <==> Verdict(w) == Ok(lastCost)) && (Verdict(w).Ok? <==> Verdict(w) == Ok(lastCost))
            && (Verdict(w) == Raised(AuthRefused) <==> status in {401, 403})
            && (Verdict(w) == Raised(QuotaExceeded) <==> status == 429)
            && (Retryable(w) <==> status in {429, 500, 502, 503, 504})
  {
  }

  // A transport error is worth another try, and says what it can about the request.
  lemma TransportDecides(w: Wire)
    requires !w.Answered?
    ensures Retryable(w) <==> !w.Escaped?
    ensures Verdict(w) == Raised(Failed(Some(true))) <==> w.InDoubt?
    ensures Verdict(w) == Raised(Failed(Some(false))) <==> w.NeverSent?
  {
  }

  lemma NeverABudgetMatter(w: Wire)
    ensures Verdict(w) != Raised(BudgetRefused)
  {
  }

  // What the client adds to its own counter.
  function SpentOn(w: Wire, cost: int, billable: bool): int {
    match w
    case Answered(_, lastCost, _) =>
      if !billable then 0 else (match lastCost case Some(c) => c case None => cost)
    case InDoubt => cost
    case _ => 0
  }

  // What the reservation of a billable attempt ends up counting for.
  function ChargedFor(w: Wire, cost: int): int {
    match w
    case Answered(_, lastCost, _) => (match lastCost case Some(c) => Max(0, c) case None => Estimated(cost))
    case NeverSent => 0
    case _ => Estimated(cost)
  }

  // The detail row a billable attempt leaves behind.
  function LeftBy(w: Wire, bucket: Bucket, cost: int): Entry {
    match w
    case Answered(_, lastCost, _) =>
      Entry(bucket, Estimated(cost), if lastCost.Some? then Some(Max(0, lastCost.value)) else None, false)
    case NeverSent => Entry(bucket, Estimated(cost), Some(0), true)
    case _ => Entry(bucket, Estimated(cost), None, false)
  }

  lemma LeftByCharges(w: Wire, bucket: Bucket, cost: int)
    ensures Effective(LeftBy(w, bucket, cost)) == ChargedFor(w, cost)
  {
  }

  // The k-th request of a call leaves the k-th of these.
  function Leaves(provider: string, wire: nat -> Wire, day: nat -> int, cost: int): nat -> Entry {
    (k: nat) => LeftBy(wire(k), Bucket(provider, day(k)), cost)
  }

  // The two agree on this attempt.
  predicate Fits(w: Wire, cost: int) {
    match w
    case Answered(_, Some(c), _) => c >= 0
    case Answered(_, None, _) => cost >= 1
    case NeverSent => true
    case InDoubt => cost >= 1
    case Escaped => false
  }

  function Spending(wire: nat -> Wire, cost: int, billable: bool, sent: nat): int {
    if sent == 0 then 0 else Spending(wire, cost, billable, sent - 1) + SpentOn(wire(sent), cost, billable)
  }

  function Charging(wire: nat -> Wire, cost: int, sent: nat): int {
    if sent == 0 then 0 else Charging(wire, cost, sent - 1) + ChargedFor(wire(sent), cost)
  }

  // The cost the last answer reported, if anything was answered at all.
  function QuotaAfter(wire: nat -> Wire, sent: nat, before: Option<int>): Option<int> {
    if sent == 0 then before
    else if wire(sent).Answered? then wire(sent).lastCost
    else QuotaAfter(wire, sent - 1, before)
  }

  lemma NextQuota(wire: nat -> Wire, sent: nat, before: Option<int>)
    ensures QuotaAfter(wire, 0, before) == before
    ensures QuotaAfter(wire, sent + 1, before)
            == if wire(sent + 1).Answered? then wire(sent + 1).lastCost else QuotaAfter(wire, sent, before)
  {
  }

  lemma OneMoreRequest(wire: nat -> Wire, cost: int, billable: bool, sent: nat)
    ensures Spending(wire, cost, billable, 0) == 0 && Charging(wire, cost, 0) == 0
    ensures Spending(wire, cost, billable, sent + 1)
            == Spending(wire, cost, billable, sent) + SpentOn(wire(sent + 1), cost, billable)
    ensures Charging(wire, cost, sent + 1) == Charging(wire, cost, sent) + ChargedFor(wire(sent + 1), cost)
  {
  }

  // The ledger never counts less than the client, and as much exactly when
  // every attempt fits.
  lemma {:induction false} LedgerIsTheCautiousOne(wire: nat -> Wire, cost: int, sent: nat)
    ensures Spending(wire, cost, true, sent) <= Charging(wire, cost, sent)
    ensures Spending(wire, cost, true, sent) == Charging(wire, cost, sent)
            <==> AllFit(wire, cost, sent)
  {
    if sent > 0 {
      LedgerIsTheCautiousOne(wire, cost, sent - 1);
    }
  }

  // A request whose URL is invalid escapes unsettled: charged, but not counted.
  lemma InvalidUrlIsStillCharged(wire: nat -> Wire, cost: int)
    requires wire(1) == Escaped
    ensures Verdict(wire(1)) == Raised(Unhandled) && !Retryable(wire(1))
    ensures Spending(wire, cost, true, 1) == 0 && Charging(wire, cost, 1) >= 1
  {
    assert Spending(wire, cost, true, 0) == 0 && Charging(wire, cost, 0) == 0;
  }

  // How many of the first requests were left in doubt.
  function Doubts(wire: nat -> Wire, sent: nat): nat {
    if sent == 0 then 0 else Doubts(wire, sent - 1) + if wire(sent).InDoubt? then 1 else 0
  }

  lemma {:induction false} FreeCallsCountDoubts(wire: nat -> Wire, cost: int, sent: nat)
    ensures Spending(wire, cost, false, sent) == cost * Doubts(wire, sent)
    ensures Doubts(wire, sent) == 0 <==> forall k: nat :: 1 <= k <= sent ==> !wire(k).InDoubt?
  {
    if sent > 0 { FreeCallsCountDoubts(wire, cost, sent - 1); }
  }

  // A free call takes no reservation, yet its cost is counted once for each
  // request left in doubt: it is free exactly when it is called with no cost, or
  // nothing was left in doubt.
  lemma FreeCallsCost(wire: nat -> Wire, cost: int, sent: nat)
    ensures Spending(wire, cost, false, sent) == 0
            <==> cost == 0 || forall k: nat :: 1 <= k <= sent ==> !wire(k).InDoubt?
  {
    FreeCallsCountDoubts(wire, cost, sent);
    NoProduct(cost, Doubts(wire, sent));
  }

  lemma NoProduct(a: int, b: nat)
    ensures a * b == 0 <==> a == 0 || b == 0
  {
  }

  // ----- reservations of one client among many --------------------------------------

  function Held(rows: seq<Entry>, mine: seq<nat>): int
    requires forall i :: 0 <= i < |mine| ==> mine[i] < |rows|
  {
    if mine == [] then 0
    else Held(rows, mine[..|mine| - 1]) + Effective(rows[mine[|mine| - 1]])
  }

  // Other workers settle what they reserved themselves.
  function Foreign(calls: seq<Call>, mine: seq<nat>): (others: seq<Call>)
    ensures forall c :: c in others && !c.Reserve? ==> c.id !in mine
  {
    if calls == [] then []
    else if calls[0].Reserve? || calls[0].id !in mine then [calls[0]] + Foreign(calls[1..], mine)
    else Foreign(calls[1..], mine)
  }

  ghost predicate Same(rows: seq<Entry>, rows': seq<Entry>, mine: seq<nat>) {
    forall i :: 0 <= i < |mine| ==> mine[i] < |rows| && mine[i] < |rows'| && rows'[mine[i]] == rows[mine[i]]
  }

  lemma SameThrough(rows: seq<Entry>, between: seq<Entry>, rows': seq<Entry>, mine: seq<nat>)
    requires Same(rows, between, mine)
    requires Same(between, rows', mine) || between <= rows'
    ensures Same(rows, rows', mine)
  {
  }

  lemma {:induction false} HeldSame(rows: seq<Entry>, rows': seq<Entry>, mine: seq<nat>)
    requires Same(rows, rows', mine)
    ensures Held(rows', mine) == Held(rows, mine)
  {
    if mine != [] { HeldSame(rows, rows', mine[..|mine| - 1]); }
  }

  lemma HeldAppend(rows: seq<Entry>, mine: seq<nat>, id: nat)
    requires id < |rows| && forall i :: 0 <= i < |mine| ==> mine[i] < |rows|
    ensures forall i :: 0 <= i <= |mine| ==> (mine + [id])[i] < |rows|
    ensures Held(rows, mine + [id]) == Held(rows, mine) + Effective(rows[id])
  {
    assert (mine + [id])[..|mine|] == mine;
  }

  lemma OthersLeaveMine(b: Book, calls: seq<Call>, ceiling: int, mine: seq<nat>)
    requires forall i :: 0 <= i < |mine| ==> mine[i] < |b.rows|
    ensures Same(b.rows, After(b, Foreign(calls, mine), ceiling).rows, mine)
  {
    forall i | 0 <= i < |mine|
      ensures mine[i] < |After(b, Foreign(calls, mine), ceiling).rows|
      ensures After(b, Foreign(calls, mine), ceiling).rows[mine[i]] == b.rows[mine[i]]
    {
      RowsAreTheirOwners(b, Foreign(calls, mine), ceiling, mine[i]);
    }
  }

  // These reservations are, one by one, those of the requests made.
  ghost predicate OneEach(rows: seq<Entry>, ids: seq<nat>, floor: nat, left: nat -> Entry) {
    forall i :: 0 <= i < |ids| ==> floor <= ids[i] < |rows| && rows[ids[i]] == left(i + 1)
  }

  // Still so after another request, and whatever the others did meanwhile.
  lemma OneEachStill(rows: seq<Entry>, rows': seq<Entry>, mine: seq<nat>, base: nat, floor: nat,
                     left: nat -> Entry)
    requires base <= |mine| && OneEach(rows, mine[base..], floor, left) && Same(rows, rows', mine)
    ensures OneEach(rows', mine[base..], floor, left)
  {
    forall i | 0 <= i < |mine| - base ensures mine[base..][i] == mine[base + i] {}
  }

  lemma NoneYet(left: nat -> Entry)
    ensures forall rows, floor :: OneEach(rows, [], floor, left)
  {
  }

  lemma OneMore(rows: seq<Entry>, mine: seq<nat>, id: nat, base: nat, floor: nat, left: nat -> Entry)
    requires base <= |mine| && OneEach(rows, mine[base..], floor, left)
    requires floor <= id < |rows| && rows[id] == left(|mine| - base + 1)
    ensures OneEach(rows, (mine + [id])[base..], floor, left)
  {
    assert (mine + [id])[base..] == mine[base..] + [id];
  }

  ghost predicate AllFit(wire: nat -> Wire, cost: int, sent: nat) {
    forall k: nat :: 1 <= k <= sent ==> Fits(wire(k), cost)
  }

  class TheOddsApiClient {
    var spent: int
    var quota: Option<int>
    const maxRetries: int
    const budget: int
    const provider: string
    const ledger: ProviderBudgetLedger?
    // Every reservation this client ever made; kept for the sake of the contracts.
    var mine: seq<nat>

    // The ledger's rows, as far as there is a ledger.
    ghost function Rows(): seq<Entry>
      reads this, ledger
    {
      if ledger == null then [] else ledger.rows
    }

    ghost predicate Valid()
      reads this, ledger
    {
      && (forall i :: 0 <= i < |mine| ==> mine[i] < |Rows()|)
      && (forall i, j :: 0 <= i < j < |mine| ==> mine[i] != mine[j])
    }

    // What all its attempts together count for in the ledger.
    ghost function Charged(): int
      reads this, ledger
      requires Valid()
    {
      Held(Rows(), mine)
    }

    constructor (maxRetries: int, budget: int, provider: string, ledger: ProviderBudgetLedger?)
      ensures Valid() && spent == 0 && mine == []
      ensures this.maxRetries == maxRetries && this.budget == budget && this.ledger == ledger
    {
      spent, quota, mine := 0, None, [];
      this.maxRetries, this.budget, this.provider, this.ledger := maxRetries, budget, provider, ledger;
    }

    function Authorised(cost: int): int {
      if ledger == null then cost else Estimated(cost)
    }

    // One of the two ceilings, the scan's or the day's, stands in the way.
    ghost predicate Refuses(cost: int, day: int)
      reads this, ledger
    {
      || spent + Authorised(cost) > budget
      || (ledger != null && !Granted(ledger.State(), Bucket(provider, day), cost, ledger.ceiling))
    }

    // Which is to say: the scan or the day would pass its ceiling.
    ghost predicate Over(cost: int, day: int)
      reads this, ledger
    {
      || spent + (if ledger != null && cost < 1 then 1 else cost) > budget
      || (&& ledger != null && ledger.ceiling != 0
          && CounterOf(ledger.days, Bucket(provider, day)).reserved + (if cost < 1 then 1 else cost) > ledger.ceiling)
    }

    lemma RefusesOver(cost: int, day: int)
      ensures Refuses(cost, day) <==> Over(cost, day)
    {
    }

    // A reservation exists exactly when neither ceiling refuses.
    method ReserveOne(cost: int, day: int) returns (r: Result<Option<nat>, BudgetError>)
      requires Valid()
      modifies this`mine, ledger
      ensures Valid()
      ensures r.Ok? <==> !old(Refuses(cost, day))
      ensures r.Raised? ==> Refuses(cost, day)
      ensures r.Raised? || ledger == null ==> mine == old(mine) && Rows() == old(Rows())
      ensures r.Ok? && ledger == null ==> r.value.None?
      ensures r.Ok? && ledger != null ==>
                && r.value == Some(|old(Rows())|)
                && Rows() == old(Rows()) + [Entry(Bucket(provider, day), Estimated(cost), None, false)]
                && mine == old(mine) + [|old(Rows())|]
    {
      if ledger == null {
        if spent + cost > budget { return Raised(BudgetExceeded); }
        return Ok(None);
      }
      var reserved := ledger.ReserveAttempt(Bucket(provider, day), cost, spent, Some(budget));
      if reserved.Raised? { return Raised(BudgetExceeded); }
      mine := mine + [reserved.value];
      r := Ok(Some(reserved.value));
    }

    // What a failed transport leaves charged: everything, unless the request
    // demonstrably never left.
    method SettleFailure(reservation: Option<nat>, maybeBilled: bool, cost: int)
      modifies this`spent, ledger
      ensures spent == old(spent) + if maybeBilled then cost else 0
      ensures ledger != null ==>
                ledger.State() == if maybeBilled || reservation.None? then old(ledger.State())
                                  else Apply(old(ledger.State()), Release(reservation.value), ledger.ceiling)
    {
      if maybeBilled {
        spent := spent + cost;
        return;
      }
      if ledger != null && reservation.Some? { ledger.ReleaseAttempt(reservation.value); }
    }

    // The accounting of one request, once its fate is known.
    method Settle(reservation: Option<nat>, w: Wire, cost: int, billable: bool)
      requires Valid()
      requires reservation.Some? <==> billable && ledger != null
      requires reservation.Some? ==>
                 && |mine| > 0 && mine[|mine| - 1] == reservation.value
                 && Rows()[reservation.value] == Entry(Rows()[reservation.value].bucket, Estimated(cost), None, false)
      modifies this`spent, this`quota, ledger
      ensures Valid()
      ensures spent == old(spent) + SpentOn(w, cost, billable)
      ensures quota == if w.Answered? then w.lastCost else old(quota)
      ensures |Rows()| == |old(Rows())|
      ensures reservation.None? ==> Rows() == old(Rows())
      ensures reservation.Some? ==>
                && |mine| > 0
                && Same(old(Rows()), Rows(), mine[..|mine| - 1])
                && reservation.value < |Rows()|
                && Rows()[reservation.value] == LeftBy(w, old(Rows()[reservation.value].bucket), cost)
    {
      match w {
        case NeverSent => SettleFailure(reservation, false, cost);
        case InDoubt => SettleFailure(reservation, true, cost);
        case Escaped =>
        case Answered(_, lastCost, _) =>
          quota := lastCost;
          if billable {
            spent := spent + if lastCost.Some? then lastCost.value else cost;
            if ledger != null { ledger.ReconcileAttempt(reservation.value, lastCost); }
          }
      }
    }

    // GET with retries. `wire(k)` is the fate of the k-th request, `day(k)` the
    // date it is made on, `others` what other workers commit in between.
    method Get(cost: int, billable: bool, wire: nat -> Wire, day: nat -> int, others: nat -> seq<Call>)
      returns (r: Result<Option<int>, ApiError>, ghost sent: nat)
      requires Valid()
      modifies this, ledger
      ensures Valid()
      // never more than the first attempt and the retries
      ensures sent <= Max(0, maxRetries) + 1
      ensures forall k: nat :: 1 <= k < sent ==> Retryable(wire(k))
      // how it ends
      ensures r == Raised(BudgetRefused) ==>
                && billable && Refuses(cost, day(sent + 1))
                && Over(cost, day(sent + 1))
                && (sent == 0 || (Retryable(wire(sent)) && sent <= maxRetries))
      ensures r != Raised(BudgetRefused) ==>
                sent >= 1 && r == Verdict(wire(sent)) && (!Retryable(wire(sent)) || sent > maxRetries)
      // one reservation of its own for each billable attempt, and no other
      ensures old(mine) <= mine
      ensures if billable && ledger != null
              then |mine| == |old(mine)| + sent
                   && OneEach(Rows(), mine[|old(mine)|..], |old(Rows())|, Leaves(provider, wire, day, cost))
              else mine == old(mine)
      // the two counters
      ensures spent == old(spent) + Spending(wire, cost, billable, sent)
      ensures quota == QuotaAfter(wire, sent, old(quota))
      ensures Charged() == old(Charged()) + if billable && ledger != null then Charging(wire, cost, sent) else 0
      ensures ledger != null && billable && old(spent == Charged()) ==>
                (spent == Charged() <==> AllFit(wire, cost, sent))
      // a scan passes its budget only by what the last report exceeded its reservation
      ensures billable && sent >= 1 ==> spent <= budget + SpentOn(wire(sent), cost, billable) - Authorised(cost)
    {
      hide AllFit, Held, OneEach, Same, Effective, SpentOn, ChargedFor, Spending, Charging, Foreign, LeftBy;
      hide QuotaAfter, Verdict, Retryable, Refuses, Over;
      OneMoreRequest(wire, cost, billable, 0);
      NextQuota(wire, 0, quota);
      NoneYet(Leaves(provider, wire, day, cost));
      sent := 0;
      var attempt := 0;
      ghost var base, floor := |mine|, |Rows()|;
      assert mine[base..] == [];
      while true
        invariant Valid() && attempt == sent <= Max(0, maxRetries)
        invariant attempt > 0 ==> attempt <= maxRetries
        invariant forall k: nat :: 1 <= k <= sent ==> Retryable(wire(k))
        invariant old(mine) <= mine
        invariant |Rows()| >= floor
        invariant if billable && ledger != null
                  then |mine| == |old(mine)| + sent
                       && OneEach(Rows(), mine[|old(mine)|..], |old(Rows())|, Leaves(provider, wire, day, cost))
                  else mine == old(mine)
        invariant spent == old(spent) + Spending(wire, cost, billable, sent)
        invariant quota == QuotaAfter(wire, sent, old(quota))
        invariant Charged() == old(Charged()) + if billable && ledger != null then Charging(wire, cost, sent) else 0
        invariant billable && sent >= 1 ==> spent <= budget + SpentOn(wire(sent), cost, billable) - Authorised(cost)
        decreases Max(0, maxRetries) - attempt
      {
        attempt := attempt + 1;
        ghost var rows, held := Rows(), mine;
        var went := Attempt(cost, billable, wire(attempt), day(attempt), others(2 * attempt), others(2 * attempt + 1));
        if billable && ledger != null { OneEachStill(rows, Rows(), held, base, floor, Leaves(provider, wire, day, cost)); }
        if !went {
          LedgerIsTheCautiousOne(wire, cost, sent);
          RefusesOver(cost, day(attempt));
          return Raised(BudgetRefused), sent;
        }
        if billable && ledger != null {
          OneMore(Rows(), held, mine[|mine| - 1], base, floor, Leaves(provider, wire, day, cost));
        }
        OneMoreRequest(wire, cost, billable, sent);
        NextQuota(wire, sent, old(quota));
        sent := sent + 1;
        if !Retryable(wire(attempt)) || attempt > maxRetries {
          LedgerIsTheCautiousOne(wire, cost, sent);
          NeverABudgetMatter(wire(attempt));
          return Verdict(wire(attempt)), sent;
        }
      }
    }

    // One turn of the loop: reserve, send, settle.
    method Attempt(cost: int, billable: bool, w: Wire, day: int, before: seq<Call>, meanwhile: seq<Call>)
      returns (went: bool)
      requires Valid()
      modifies this, ledger
      ensures Valid()
      ensures !went ==> billable && Refuses(cost, day)
      ensures |Rows()| >= |old(Rows())| && Same(old(Rows()), Rows(), old(mine))
      ensures spent == old(spent) + if went then SpentOn(w, cost, billable) else 0
      ensures quota == if went && w.Answered? then w.lastCost else old(quota)
      ensures went && billable ==> old(spent) + Authorised(cost) <= budget
      ensures if went && billable && ledger != null
              then && |mine| > 0
                   && mine == old(mine) + [mine[|mine| - 1]] && |old(Rows())| <= mine[|mine| - 1] < |Rows()|
                   && Rows()[mine[|mine| - 1]] == LeftBy(w, Bucket(provider, day), cost)
                   && Charged() == old(Charged()) + ChargedFor(w, cost)
              else mine == old(mine) && Charged() == old(Charged())
    {
      hide Held, Effective, SpentOn, ChargedFor, Foreign, LeftBy, Same;
      ghost var rows, held := Rows(), mine;
      Meanwhile(before);
      ghost var between := Rows();
      var reservation: Option<nat> := None;
      if billable {
        var r := ReserveOne(cost, day);
        SameThrough(rows, between, Rows(), held);
        HeldSame(rows, Rows(), held);
        if r.Raised? { return false; }
        reservation := r.value;
      }
      between := Rows();
      SendAndSettle(reservation, w, cost, billable, meanwhile);
      if reservation.Some? { assert mine[..|mine| - 1] == held; }
      SameThrough(rows, between, Rows(), held);
      HeldSame(rows, Rows(), held);
      if reservation.Some? {
        HeldAppend(Rows(), held, reservation.value);
        LeftByCharges(w, Bucket(provider, day), cost);
      }
      went := true;
    }

    // The request is under way while others commit; then it is accounted for.
    method SendAndSettle(reservation: Option<nat>, w: Wire, cost: int, billable: bool, meanwhile: seq<Call>)
      requires Valid()
      requires reservation.Some? <==> billable && ledger != null
      requires reservation.Some? ==>
                 && |mine| > 0 && mine[|mine| - 1] == reservation.value
                 && Rows()[reservation.value] == Entry(Rows()[reservation.value].bucket, Estimated(cost), None, false)
      modifies this`spent, this`quota, ledger
      ensures Valid() && |Rows()| >= |old(Rows())|
      ensures spent == old(spent) + SpentOn(w, cost, billable)
      ensures quota == if w.Answered? then w.lastCost else old(quota)
      ensures Same(old(Rows()), Rows(), if reservation.Some? then mine[..|mine| - 1] else mine)
      ensures reservation.Some? ==>
                && reservation.value < |Rows()|
                && Rows()[reservation.value] == LeftBy(w, old(Rows()[reservation.value].bucket), cost)
    {
      hide Held, Effective, SpentOn, Foreign, LeftBy;
      Meanwhile(meanwhile);
      Settle(reservation, w, cost, billable);
    }

    method Meanwhile(calls: seq<Call>)
      requires Valid()
      modifies ledger
      ensures Valid() && Charged() == old(Charged())
      ensures |Rows()| >= |old(Rows())| && Same(old(Rows()), Rows(), mine)
    {
      if ledger != null {
        OthersLeaveMine(ledger.State(), calls, ledger.ceiling, mine);
        RowsOnlyGrow(ledger.State(), Foreign(calls, mine), ledger.ceiling);
        ledger.RunOthers(Foreign(calls, mine));
        HeldSame(old(ledger.rows), ledger.rows, mine);
      }
    }
  }
}
