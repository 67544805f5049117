/** What each operation answers, on the rows it reads, and all it writes. */
module Answers {
  import opened Rows
  import opened Sums
  import opened Money
  import opened Guards
  import opened Cashback
  import opened Visits
  import opened Redemptions
  import opened Accounts
  import opened CashSteps
  import opened GiftLaws
  import opened LedgerLaws
  import opened Fifo
  import opened Machine
  import opened Steps
  import opened Agreement

  // ---- a visit ----

  /** A visit is booked exactly for an active client of a running visit program. */
  lemma VisitBookedIff(w: World, p: Owner)
    ensures EarnVisit(w, p).Ok? <==> ActiveClient(w, p.user) && RunsVisits(w, p.org)
    ensures EnsureClient(w, p.user).Err? ==> EarnVisit(w, p) == Err(EnsureClient(w, p.user).error)
    ensures EnsureClient(w, p.user).Ok? && EnsureOperational(w, p.org, Some(VISIT)).Err? ==>
              EarnVisit(w, p) == Err(EnsureOperational(w, p.org, Some(VISIT)).error)
  {
    ClientErrors(w, p.user);
    OrganizationErrors(w, p.org, VISIT);
  }

  /** Its entry records the program of that moment, the progress before and after and its gifts; each gift is
      AVAILABLE, the client's and tied to the visit, with an entry of its own. Nothing else is written. */
  lemma VisitWrites(w: World, p: Owner)
    requires EarnVisit(w, p).Ok?
    ensures p.org in w.orgs && w.orgs[p.org].visit.Some?
    ensures var u, a, program := EarnVisit(w, p).value, StateOf(w, p), w.orgs[p.org].visit.value;
            var reached := a.progress + 1 >= program.target;
            var n, b := if reached then program.reward else 0, StateOf(u, p);
            && b == a.(progress := a.progress + 1 - (if reached then program.target else 0),
                       totalVisits := a.totalVisits + 1,
                       giftsEarned := a.giftsEarned + n, availableGifts := a.availableGifts + n)
            && u == w.(states := w.states[p := b], gifts := u.gifts, ledger := u.ledger)
            && |u.gifts| == |w.gifts| + n && u.gifts[..|w.gifts|] == w.gifts
            && (forall k :: |w.gifts| <= k < |u.gifts| ==> u.gifts[k] == Gift(p, AVAILABLE, |w.ledger|, None, None))
            && |u.ledger| == |w.ledger| + 1 + n && u.ledger[..|w.ledger|] == w.ledger
            && (var tx := u.ledger[|w.ledger|];
                && tx.kind.VisitEarn?
                && tx == Transaction(p, VisitEarn(program.target, program.reward, a.progress, b.progress,
                                                  tx.kind.gifts), COMPLETED, w.now)
                && |tx.kind.gifts| == n && forall k :: 0 <= k < n ==> tx.kind.gifts[k] == |w.gifts| + k)
            && (forall t :: |w.ledger| < t < |u.ledger| ==>
                  u.ledger[t]
                  == Transaction(p, GiftCreated(|w.gifts| + t - |w.ledger| - 1, |w.ledger|), COMPLETED, w.now))
  {
    hide EnsureClient;
  }

  // ---- asking for a gift ----

  /** A gift can be asked for exactly by its active client, while the program runs and the gift is AVAILABLE: a row is
      added for it, with the time to live from now, and the gift is held. */
  lemma GiftAsked(w: World, p: Owner, g: nat, ttl: nat)
    ensures var r := CreateGiftRequest(w, p, g, ttl);
            && (r.Ok? <==>
                  && ActiveClient(w, p.user) && RunsVisits(w, p.org)
                  && g < |w.gifts| && w.gifts[g].owner == p && w.gifts[g].status == AVAILABLE)
            && (r.Ok? ==>
                  r.value == w.(
                    requests := w.requests + [Request(p, GiftRequest(g), PENDING, w.now + ttl, [])],
                    gifts := w.gifts[g := w.gifts[g].(status := PENDING_REDEMPTION)]))
            && (ActiveClient(w, p.user) && RunsVisits(w, p.org) ==>
                  && (r == Err(GiftNotFound) <==> !(g < |w.gifts| && w.gifts[g].owner == p))
                  && (r == Err(GiftNotAvailable) <==>
                        g < |w.gifts| && w.gifts[g].owner == p && w.gifts[g].status != AVAILABLE))
  {
    ClientErrors(w, p.user);
    OrganizationErrors(w, p.org, VISIT);
  }

  // ---- the quote ----

  /** A quote is given for every positive total from the program's minimum on and every spend that is not
      negative. */
  lemma QuoteGivenIff(w: World, p: Owner, total: int, spend: int)
    ensures var r := QuoteFor(w, p, total, spend);
            && (r.Ok? <==>
                  && ActiveClient(w, p.user) && RunsCashback(w, p.org)
                  && 0 < total && 0 <= spend && w.orgs[p.org].cashback.value.minPurchase <= total)
            && (ActiveClient(w, p.user) && RunsCashback(w, p.org) && r.Err? ==> r == Err(InvalidAmount))
            && (EnsureClient(w, p.user).Err? ==> r == Err(EnsureClient(w, p.user).error))
            && (EnsureClient(w, p.user).Ok? && EnsureOperational(w, p.org, Some(CASHBACK)).Err? ==>
                  r == Err(EnsureOperational(w, p.org, Some(CASHBACK)).error))
  {
    hide Available, ApplyBps;
    ClientErrors(w, p.user);
    OrganizationErrors(w, p.org, CASHBACK);
  }

  /** Its figures: the lots' worth, the largest amount within the percentage, what is left to pay and what that would
      earn, the program of that moment, and whether a confirmation will be needed. */
  lemma QuoteFigures(w: World, p: Owner, total: int, spend: int)
    requires QuoteFor(w, p, total, spend).Ok?
    ensures p.org in w.orgs && w.orgs[p.org].cashback.Some?
    ensures var q, program := QuoteFor(w, p, total, spend).value, w.orgs[p.org].cashback.value;
            && q.total == total && q.requested == spend && q.available == Available(w.lots, p, w.now)
            && q.limit * BPS_DENOMINATOR <= total * program.maxSpend < (q.limit + 1) * BPS_DENOMINATOR
            && q.cashPaid == Max(0, total - spend) && FairEarn(q.earn, q.cashPaid, program.rate)
            && q.program == Snapshot(program.rate, program.maxSpend, program.expiry)
            && (q.needsConfirmation <==> spend > 0)
            && (q.spendAllowed <==> spend <= q.maxAllowed)
  {
    hide Available;
    var program := w.orgs[p.org].cashback.value;
    LimitIsFloor(total, program.maxSpend);
    LimitIsFloor(Max(0, total - spend), program.rate);
  }

  lemma LimitIsFloor(amount: nat, rate: nat)
    ensures FairEarn(ApplyBps(amount, rate), amount, rate)
  {
    var x := ApplyBps(amount, rate);
    ApplyBpsIsFloor(amount, rate, x);
    ApplyBpsIsFloor(amount, rate, x + 1);
  }

  /** The maximum it allows is the largest spend that any quote for the same purchase would pass. */
  lemma MaximumIsLargest(w: World, p: Owner, total: int, spend: int, other: int)
    requires QuoteFor(w, p, total, spend).Ok? && other >= 0
    ensures QuoteFor(w, p, total, other).Ok?
    ensures ValidateSpend(QuoteFor(w, p, total, other).value).Ok? <==>
              other <= QuoteFor(w, p, total, spend).value.maxAllowed
  {
    hide Available;
    var maxSpend := w.orgs[p.org].cashback.value.maxSpend;
    ApplyBpsAtMost(total, maxSpend);
  }

  // ---- asking to pay with cashback ----

  /** A request is made exactly for a positive spend within the lots' worth and the percentage. It keeps the amounts
      that were asked for, a fair earning for the cash that remains, and the program of that moment. */
  lemma CashbackAsked(w: World, p: Owner, total: int, spend: int, ttl: nat)
    ensures var r := CreateCashbackRequest(w, p, total, spend, ttl);
            && (r.Ok? <==>
                  && ActiveClient(w, p.user) && RunsCashback(w, p.org)
                  && w.orgs[p.org].cashback.value.minPurchase <= total
                  && 0 < spend <= Available(w.lots, p, w.now) && 0 < total
                  && spend * BPS_DENOMINATOR <= total * w.orgs[p.org].cashback.value.maxSpend)
            && (r.Ok? ==>
                  var u, program := r.value, w.orgs[p.org].cashback.value;
                  && |u.requests| == |w.requests| + 1 && u.requests[..|w.requests|] == w.requests
                  && u == w.(requests := u.requests)
                  && var req := u.requests[|w.requests|];
                     && req.owner == p && req.status == PENDING && req.expiresAt == w.now + ttl && req.result == []
                     && req.kind.CashbackRequest?
                     && req.kind.purchase == Purchase(total, total - spend, spend,
                                                      Snapshot(program.rate, program.maxSpend, program.expiry))
                     && FairEarn(req.kind.earn, total - spend, program.rate))
  {
    hide Available;
    QuoteGivenIff(w, p, total, spend);
    if QuoteFor(w, p, total, spend).Ok? {
      var program := w.orgs[p.org].cashback.value;
      ApplyBpsAtMost(total, program.maxSpend);
      ApplyBpsIsFloor(total, program.maxSpend, spend);
      if spend <= total {
        LimitIsFloor(total - spend, program.rate);
      }
    }
  }

  /** Which error stops a request for which there is a quote. */
  lemma CashbackRefused(w: World, p: Owner, total: int, spend: int, ttl: nat)
    ensures var r := CreateCashbackRequest(w, p, total, spend, ttl);
            && (QuoteFor(w, p, total, spend).Err? ==> r == Err(QuoteFor(w, p, total, spend).error))
            && (QuoteFor(w, p, total, spend).Ok? ==>
                  var within := spend * BPS_DENOMINATOR <= total * w.orgs[p.org].cashback.value.maxSpend;
                  && (r == Err(CashbackLimitExceeded) <==>
                        spend > total || (spend <= Available(w.lots, p, w.now) && !within))
                  && (r == Err(InsufficientCashback) <==> Available(w.lots, p, w.now) < spend <= total)
                  && (r == Err(InvalidAmount) <==> spend == 0))
  {
    hide Available;
    QuoteGivenIff(w, p, total, spend);
    AvailableIsNoDebt(w, p);
    if QuoteFor(w, p, total, spend).Ok? {
      ApplyBpsAtMost(total, w.orgs[p.org].cashback.value.maxSpend);
      ApplyBpsIsFloor(total, w.orgs[p.org].cashback.value.maxSpend, spend);
    }
  }

  lemma AvailableIsNoDebt(w: World, p: Owner)
    ensures Available(w.lots, p, w.now) >= 0
  {
    SumNonNegative(w.lots, LiveValue(p, w.now));
  }

  // ---- answering a request ----

  /** Only its own client is answered: for anybody else the request does not exist, whatever its status. */
  lemma StrangersFindNothing(w: World, user: nat, r: nat, order: seq<nat>)
    requires forall k :: 0 <= k < |order| ==> order[k] < |w.lots|
    requires r >= |w.requests| || w.requests[r].owner.user != user
    ensures Confirm(w, user, r, order) == Err(RedemptionNotFound)
    ensures Reject(w, user, r) == Err(RedemptionNotFound)
  {
  }

  /** Nor does an admin of another organization find it. */
  lemma AdminsFindTheirOwn(w: World, org: nat, r: nat)
    ensures CancelByAdmin(w, org, r) == Err(RedemptionNotFound) <==>
              r >= |w.requests| || w.requests[r].owner.org != org
    ensures r < |w.requests| && w.requests[r].owner.org == org ==>
              && (CancelByAdmin(w, org, r).Ok? <==> w.requests[r].status == PENDING)
              && (CancelByAdmin(w, org, r) == Err(RedemptionNotPending) <==> w.requests[r].status != PENDING)
  {
  }

  /** What its client hears about a settled request: the stored result again, or that it is no longer pending. The
      tables stay as they are. */
  lemma SettledAnswers(w: World, r: nat, order: seq<nat>)
    requires forall k :: 0 <= k < |order| ==> order[k] < |w.lots|
    requires r < |w.requests| && w.requests[r].status != PENDING
    ensures var req := w.requests[r];
            var stored := Answer(w, Response(req.status, req.result, false));
            && Confirm(w, req.owner.user, r, order)
               == (if req.status == CONFIRMED then Ok(stored) else Err(RedemptionNotPending))
            && Reject(w, req.owner.user, r)
               == (if req.status == REJECTED then Ok(stored) else Err(RedemptionNotPending))
  {
  }

  /** And about a pending one: a reject settles it; a confirm settles it or raises the first of too late, program not
      running and too little cashback. */
  lemma PendingAnswers(w: World, r: nat, order: seq<nat>)
    requires Reachable(w) && r < |w.requests| && w.requests[r].status == PENDING
    requires FifoOrder(w.lots, w.requests[r].owner, w.now, order)
    ensures var req := w.requests[r];
            var confirmed, rejected := Confirm(w, req.owner.user, r, order), Reject(w, req.owner.user, r);
            && (confirmed == Err(RedemptionExpired) <==> w.now >= req.expiresAt)
            && (confirmed == Err(OrganizationBlocked) <==>
                  w.now < req.expiresAt && req.owner.org in w.orgs && !w.orgs[req.owner.org].active)
            && (confirmed == Err(InsufficientCashback) <==>
                  && w.now < req.expiresAt && req.kind.CashbackRequest? && RunsCashback(w, req.owner.org)
                  && Available(w.lots, req.owner, w.now) < req.kind.purchase.spend)
            && (confirmed.Err? ==>
                  confirmed.error in {RedemptionExpired, OrganizationBlocked, ProgramInactive, InsufficientCashback})
            && (confirmed.Ok? ==>
                  && r < |confirmed.value.world.requests|
                  && confirmed.value.response
                     == Response(CONFIRMED, confirmed.value.world.requests[r].result, true)
                  && confirmed.value.world.requests
                     == w.requests[r := req.(status := CONFIRMED, result := confirmed.value.world.requests[r].result)])
            && rejected.Ok? && rejected.value.response == Response(REJECTED, [], true)
            && rejected.value.world.requests == w.requests[r := req.(status := REJECTED)]
  {
    hide Available, TakeInOrder;
    ReachableInv(w);
    assert RequestRow(w, r);
    var req := w.requests[r];
    if req.kind.GiftRequest? {
      PendingHolds(w, r);
    } else {
      ShortfallIsExact(w.lots, req.owner, w.now, order, req.kind.purchase.spend);
    }
  }

  // ---- what a confirm writes ----

  /** Each lot lost what its entry says and is SPENT if that was all. */
  ghost predicate Charged(lots: seq<Lot>, after: seq<Lot>, consumed: seq<Consumed>) {
    && |lots| <= |after|
    && forall i :: 0 <= i < |lots| ==>
         var l, taken := lots[i], TakenFrom(consumed, i);
         after[i] == l.(remaining := l.remaining - taken,
                        status := if 0 < taken == l.remaining then SPENT else l.status)
  }

  lemma SpendWrites(w: World, p: Owner, amount: nat, purchase: Purchase, r: nat, order: seq<nat>)
    requires LiveLots(w.lots, p, w.now, order) && PostSpend(w, p, amount, purchase, r, order).Ok?
    ensures var u, a := PostSpend(w, p, amount, purchase, r, order).value, StateOf(w, p);
            && |u.ledger| == |w.ledger| + 1 && u.ledger[|w.ledger|].kind.CashbackSpend?
            && var consumed := u.ledger[|w.ledger|].kind.consumed;
               && Sum(consumed, EntryAmount()) == amount
               && |u.lots| == |w.lots| && Charged(w.lots, u.lots, consumed)
               && u.ledger == w.ledger
                    + [Transaction(p, CashbackSpend(amount, consumed, purchase, r), COMPLETED, w.now)]
               && u == w.(lots := u.lots, ledger := u.ledger,
                          states := w.states[p := a.(available := a.available - amount, spent := a.spent + amount)])
  {
    hide TakeInOrder, Sum;
    TakesArePaid(w.lots, p, w.now, order, amount);
    TakesInOrder(w.lots, p, w.now, order, amount);
    var consumed := TakeInOrder(w.lots, order, amount).consumed;
    forall i | 0 <= i < |w.lots| && TakenFrom(consumed, i) != 0
      ensures Live(w.lots[i], p, w.now) && 0 < TakenFrom(consumed, i) <= w.lots[i].remaining
    {
      TakenBounds(w.lots, p, w.now, order, amount, i);
    }
  }

  /** A confirmed purchase writes its spend, then its earning if it earns: the entries carry the amounts and the
      program of the request, each lot loses what its entry says, the new lot lives for the program's days, and the
      request lists the entries. */
  lemma PurchaseConfirmed(w: World, r: nat, order: seq<nat>)
    requires Reachable(w) && r < |w.requests| && w.requests[r].status == PENDING && w.requests[r].kind.CashbackRequest?
    requires FifoOrder(w.lots, w.requests[r].owner, w.now, order)
    requires Confirm(w, w.requests[r].owner.user, r, order).Ok?
    ensures var req, u := w.requests[r], Confirm(w, w.requests[r].owner.user, r, order).value.world;
            var p, purchase, earn, a := req.owner, req.kind.purchase, req.kind.earn, StateOf(w, req.owner);
            var t := |w.ledger|;
            && |u.ledger| > t && u.ledger[t].kind.CashbackSpend?
            && var consumed := u.ledger[t].kind.consumed;
               && Sum(consumed, EntryAmount()) == purchase.spend
               && u.ledger == w.ledger
                    + [Transaction(p, CashbackSpend(purchase.spend, consumed, purchase, r), COMPLETED, w.now)]
                    + (if earn > 0
                       then [Transaction(p, CashbackEarn(earn, Some(|w.lots|), purchase, Some(r)), COMPLETED, w.now)]
                       else [])
               && Charged(w.lots, u.lots, consumed)
               && u.lots[|w.lots|..] == (if earn > 0
                    then [Lot(p, earn, earn, ACTIVE, w.now, w.now + purchase.program.expiry * DAY, t + 1)] else [])
               && StateOf(u, p) == a.(available := a.available - purchase.spend + earn,
                                      spent := a.spent + purchase.spend, earned := a.earned + earn)
               && u == w.(ledger := u.ledger, lots := u.lots, states := w.states[p := StateOf(u, p)],
                          requests := w.requests[r := req.(status := CONFIRMED,
                                                           result := if earn > 0 then [t, t + 1] else [t])])
  {
    hide Sum, TakeInOrder, PostSpend, Available, EnsureOperational;
    ReachableInv(w);
    assert RequestRow(w, r);
    var req := w.requests[r];
    var p, purchase, earn := req.owner, req.kind.purchase, req.kind.earn;
    FairAmounts(purchase, earn);
    SpendWrites(w, p, purchase.spend, purchase, r, order);
    var paid := PostSpend(w, p, purchase.spend, purchase, r, order).value;
    var u := Confirm(w, p.user, r, order).value.world;
    var t := |w.ledger|;
    assert Range(t, |u.ledger| - t) == if earn > 0 then [t, t + 1] else [t];
    assert u.states == w.states[p := StateOf(u, p)];
  }

  lemma FairAmounts(purchase: Purchase, earn: int)
    requires FairPurchase(purchase, earn)
    ensures purchase.spend > 0 && earn >= 0
  {
    ApplyBpsAtMost(purchase.cashPaid, purchase.program.rate);
  }

  /** A confirmed gift request writes one redemption, which the gift and the request both name. */
  lemma GiftConfirmed(w: World, r: nat, order: seq<nat>)
    requires Reachable(w) && r < |w.requests| && w.requests[r].status == PENDING && w.requests[r].kind.GiftRequest?
    requires FifoOrder(w.lots, w.requests[r].owner, w.now, order)
    requires Confirm(w, w.requests[r].owner.user, r, order).Ok?
    ensures var req, u := w.requests[r], Confirm(w, w.requests[r].owner.user, r, order).value.world;
            var p, g, a, t := req.owner, req.kind.gift, StateOf(w, req.owner), |w.ledger|;
            && g < |w.gifts|
            && u == w.(ledger := w.ledger + [Transaction(p, GiftRedeem(g, r), COMPLETED, w.now)],
                       gifts := w.gifts[g := Gift(p, USED, w.gifts[g].visit, Some(t), Some(w.now))],
                       states := w.states[p := a.(availableGifts := a.availableGifts - 1,
                                                  giftsUsed := a.giftsUsed + 1)],
                       requests := w.requests[r := req.(status := CONFIRMED, result := [t])])
  {
    hide Sum, EnsureOperational;
    RedemptionIsExact(w, w.requests[r].owner.user, r, order);
    assert Range(|w.ledger|, 1) == [|w.ledger|];
  }
}
