/** What reversals and sweeps answer and write, and the time stamps of the ledger. */
module Bookings {
  import opened Rows
  import opened Guards
  import opened Cashback
  import opened Visits
  import opened Redemptions
  import opened Reversals
  import opened CashLaws
  import opened GiftLaws
  import opened GiftSteps
  import opened Machine
  import opened Steps
  import opened Agreement
  import opened Answers
  import VisitRuns

  // ---- who may reverse what ----

  /** A reversal wants a reason first, then an entry in the caller's scope, then one that stands and is of a kind that
      can be reversed. Only then do the handlers decide, with the same error. */
  lemma ReversalAnswers(w: World, t: nat, scope: Option<nat>, force: bool, reasonGiven: bool)
    ensures var r := Reverse(w, t, scope, force, reasonGiven);
            && (r == Err(ValidationError) <==> !reasonGiven)
            && (r == Err(TransactionNotFound) <==>
                  reasonGiven && (t >= |w.ledger| || (scope.Some? && scope.value != w.ledger[t].owner.org)))
            && (r.Err? ==> r.error in {ValidationError, TransactionNotFound, OperationNotReversible})
            && (r.Ok? ==>
                  && t < |w.ledger| && w.ledger[t].status == COMPLETED
                  && var k := w.ledger[t].kind;
                     k.VisitEarn? || k.CashbackEarn? || k.CashbackSpend? || k.GiftRedeem?)
  {
    hide GiveBack, CancelGifts, CancelledOf;
  }

  /** Every reversal marks its entry and adds one REVERSAL of now that names it. Requests, users and organizations
      stay, and no other aggregate changes. */
  lemma ReversalBooks(w: World, t: nat, scope: Option<nat>, force: bool, reasonGiven: bool)
    requires Reverse(w, t, scope, force, reasonGiven).Ok?
    ensures t < |w.ledger|
    ensures var u, tx := Reverse(w, t, scope, force, reasonGiven).value, w.ledger[t];
            && |u.ledger| == |w.ledger| + 1 && u.ledger[|w.ledger|].kind.Reversal?
            && u.ledger == w.ledger[t := tx.(status := REVERSED)]
                 + [Transaction(tx.owner, Reversal(t, u.ledger[|w.ledger|].kind.effect), COMPLETED, w.now)]
            && u == w.(ledger := u.ledger, lots := u.lots, gifts := u.gifts,
                       states := w.states[tx.owner := StateOf(u, tx.owner)])
  {
    hide GiveBack, CancelGifts, CancelledOf;
  }

  /** A reversed visit records exactly its gifts as cancelled and the progress it leaves; those gifts are CANCELLED and
      no other gift and no lot changes. */
  lemma VisitReversalBooks(w: World, t: nat, scope: Option<nat>, force: bool)
    requires Reachable(w) && Reverse(w, t, scope, force, true).Ok? && w.ledger[t].kind.VisitEarn?
    ensures var u, tx := Reverse(w, t, scope, force, true).value, w.ledger[t];
            && |u.ledger| > |w.ledger|
            && u.ledger[|w.ledger|].kind
               == Reversal(t, VisitUndone(tx.kind.gifts, StateOf(u, tx.owner).progress))
            && u.lots == w.lots && |u.gifts| == |w.gifts|
            && forall g :: 0 <= g < |w.gifts| ==>
                 u.gifts[g] == if g in tx.kind.gifts then w.gifts[g].(status := CANCELLED) else w.gifts[g]
  {
    ReachableInv(w);
    StandingVisit(w, t);
    CancelsListed(w.gifts, w.ledger[t].kind.gifts, w.ledger[t].owner);
    CancelPerGift(w.gifts, w.ledger[t].kind.gifts);
  }

  /** A reversed earning records what its lot still held as withdrawn and the rest as unrecoverable; the lot is
      WITHDRAWN and empty, and no other lot and no gift changes. */
  lemma EarnReversalBooks(w: World, t: nat, scope: Option<nat>, force: bool)
    requires Reachable(w) && Reverse(w, t, scope, force, true).Ok? && w.ledger[t].kind.CashbackEarn?
    ensures w.ledger[t].kind.lot.Some? && w.ledger[t].kind.lot.value < |w.lots|
    ensures var u, i := Reverse(w, t, scope, force, true).value, w.ledger[t].kind.lot.value;
            var l := w.lots[i];
            && |u.ledger| > |w.ledger|
            && u.ledger[|w.ledger|].kind
               == Reversal(t, EarnUndone(i, l.remaining, w.ledger[t].kind.earned - l.remaining))
            && u.lots == w.lots[i := l.(remaining := 0, status := WITHDRAWN)] && u.gifts == w.gifts
  {
    ReachableInv(w);
    assert CashEntry(w, t) && LotRow(w, w.ledger[t].kind.lot.value);
  }

  // ---- the sweeps ----

  /** A due lot is burned with one entry of now for what it held; a lot that is not due is left alone. */
  lemma SweepWrites(w: World, i: nat, cutoff: int)
    requires Reachable(w) && i < |w.lots|
    ensures var l, a := w.lots[i], StateOf(w, w.lots[i].owner);
            BurnLot(w, i, cutoff)
            == if l.status == ACTIVE && l.expiresAt <= cutoff
               then
                 w.(lots := w.lots[i := l.(remaining := 0, status := BURNED)],
                    ledger := w.ledger + [Transaction(l.owner, CashbackExpire(l.remaining, i), COMPLETED, w.now)],
                    states := w.states[l.owner := a.(available := a.available - l.remaining,
                                                     expired := a.expired + l.remaining)])
               else w
  {
    if w.lots[i].status == ACTIVE && w.lots[i].expiresAt <= cutoff {
      SweepIsExact(w, i, cutoff);
    }
  }

  /** An overdue request expires and its gift is released; one that is not overdue is left alone. */
  lemma ExpiryWrites(w: World, r: nat, cutoff: int)
    requires Reachable(w) && r < |w.requests|
    ensures var req := w.requests[r];
            var u := ExpireRequest(w, r, cutoff);
            if req.status == PENDING && req.expiresAt <= cutoff then
              && u == w.(requests := w.requests[r := req.(status := EXPIRED)], gifts := u.gifts)
              && (match req.kind
                  case GiftRequest(g) =>
                    g < |w.gifts| && u.gifts == w.gifts[g := w.gifts[g].(status := AVAILABLE)]
                  case CashbackRequest(_, _) => u.gifts == w.gifts)
            else u == w
  {
    ReachableInv(w);
    if w.requests[r].status == PENDING && w.requests[r].kind.GiftRequest? {
      PendingHolds(w, r);
    }
  }

  // ---- time stamps ----

  lemma ConfirmStamps(w: World, op: Op, t: nat)
    requires Reachable(w) && op.ConfirmRequest? && Possible(w, op) && |w.ledger| <= t < |After(w, op).ledger|
    ensures After(w, op).ledger[t].createdAt == w.now && After(w, op).ledger[t].status == COMPLETED
  {
    hide Confirm;
    if Apply(w, op).Ok? {
      ConfirmedIsPending(w, op);
      if w.requests[op.request].kind.GiftRequest? {
        GiftConfirmed(w, op.request, op.order);
      } else {
        PurchaseConfirmed(w, op.request, op.order);
      }
    }
  }

  lemma ConfirmedIsPending(w: World, op: Op)
    requires op.ConfirmRequest? && Possible(w, op) && Confirm(w, op.user, op.request, op.order).Ok?
    requires |After(w, op).ledger| > |w.ledger|
    ensures op.request < |w.requests| && w.requests[op.request].status == PENDING
    ensures op.user == w.requests[op.request].owner.user
  {
    hide Perform, EnsureOperational;
  }

  lemma PurchaseStamps(w: World, op: Op, t: nat)
    requires op.Buy? && |w.ledger| <= t < |After(w, op).ledger|
    ensures After(w, op).ledger[t].createdAt == w.now && After(w, op).ledger[t].status == COMPLETED
  {
    hide QuoteFor;
  }

  lemma VisitStamps(w: World, p: Owner, t: nat)
    requires EarnVisit(w, p).Ok? && |w.ledger| <= t < |EarnVisit(w, p).value.ledger|
    ensures var tx := EarnVisit(w, p).value.ledger[t]; tx.createdAt == w.now && tx.status == COMPLETED
  {
    hide EarnVisit;
    VisitWrites(w, p);
  }

  lemma OthersWriteNothing(w: World, op: Op)
    requires Possible(w, op) && !op.Visit? && !op.Buy? && !op.ConfirmRequest? && !op.SweepLot? && !op.ReverseEntry?
    ensures After(w, op).ledger == w.ledger
  {
    hide EnsureClient, EnsureOperational, Available;
  }

  /** Every entry a step writes is COMPLETED and carries the time of the step. */
  lemma EntriesAreStamped(w: World, op: Op, t: nat)
    requires Reachable(w) && Possible(w, op) && |w.ledger| <= t < |After(w, op).ledger|
    ensures After(w, op).ledger[t].createdAt == w.now && After(w, op).ledger[t].status == COMPLETED
  {
    hide EarnVisit, EarnOnly, Confirm, Reverse, BurnLot;
    match op {
      case Visit(p) => if EarnVisit(w, p).Ok? { VisitStamps(w, p, t); }
      case Buy(_, _) => PurchaseStamps(w, op, t);
      case ConfirmRequest(_, _, _) => ConfirmStamps(w, op, t);
      case SweepLot(i, cutoff) => SweepWrites(w, i, cutoff);
      case ReverseEntry(entry, scope, force, reasonGiven) =>
        if Apply(w, op).Ok? { ReversalBooks(w, entry, scope, force, reasonGiven); }
      case _ => OthersWriteNothing(w, op);
    }
  }

  /** Hence whatever a run adds to the ledger was created between its start and its end. */
  lemma {:induction false} RunStamps(w: World, ops: seq<Op>, t: nat)
    requires Reachable(w) && CanRun(w, ops) && |w.ledger| <= t < |Run(w, ops).ledger|
    ensures w.now <= Run(w, ops).ledger[t].createdAt <= Run(w, ops).now
  {
    hide Inv, After;
    var init := ops[..|ops| - 1];
    ReachableInv(w);
    RunKeeps(w, init);
    VisitRuns.ReachableRun(w, init);
    StepKeeps(Run(w, init), ops[|ops| - 1]);
    if t < |Run(w, init).ledger| {
      RunStamps(w, init, t);
    } else {
      EntriesAreStamped(Run(w, init), ops[|ops| - 1], t);
    }
  }
}
