/** Every step keeps the four invariants, and every reachable state has them. */
module Steps {
  import opened Rows
  import opened Sums
  import opened Cashback
  import opened Visits
  import opened Redemptions
  import opened Reversals
  import opened Director
  import opened CashLaws
  import opened CashSteps
  import opened GiftLaws
  import opened GiftSteps
  import opened LedgerLaws
  import opened Fifo
  import opened Machine

  ghost predicate Inv(w: World) {
    CashInv(w) && GiftInv(w) && LedgerInv(w) && RequestInv(w)
  }

  /** The ledger a step leaves, and the ground it stands on. */
  ghost predicate Onward(w: World, u: World) {
    Grown(w.ledger, u.ledger) && SameGround(w, u)
  }

  lemma VisitStep(w: World, p: Owner)
    requires Inv(w) && EarnVisit(w, p).Ok?
    ensures Inv(EarnVisit(w, p).value) && Onward(w, EarnVisit(w, p).value)
  {
    hide Sum;
    var u := EarnVisit(w, p).value;
    CashFrame(w, u);
    VisitKeeps(w, p, w.orgs[p.org].visit.value);
    AppendKeeps(w, u);
    RequestFrame(w, u);
  }

  lemma PurchaseStep(w: World, p: Owner, total: int)
    requires Inv(w) && EarnOnly(w, p, total).Ok?
    ensures Inv(EarnOnly(w, p, total).value) && Onward(w, EarnOnly(w, p, total).value)
  {
    hide Sum;
    var u := EarnOnly(w, p, total).value;
    var q := QuoteFor(w, p, total, 0).value;
    if q.earn > 0 {
      EarnKeeps(w, p, q.earn, Purchase(total, q.cashPaid, 0, q.program), None);
    } else {
      CashFrame(w, u);
    }
    GiftFrame(w, u);
    AppendKeeps(w, u);
    RequestFrame(w, u);
  }

  lemma AskGiftStep(w: World, p: Owner, g: nat, ttl: nat)
    requires Inv(w) && CreateGiftRequest(w, p, g, ttl).Ok?
    ensures Inv(CreateGiftRequest(w, p, g, ttl).value) && Onward(w, CreateGiftRequest(w, p, g, ttl).value)
  {
    var u := CreateGiftRequest(w, p, g, ttl).value;
    CashFrame(w, u);
    HoldKeeps(w, p, g, ttl);
    AppendKeeps(w, u);
    assert GiftRow(w, g);
    OrgOfEntry(w, w.gifts[g].visit);
    AskKeeps(w, u, u.requests[|w.requests|]);
  }

  /** A live lot's owner has a transaction: its earning. */
  lemma AvailableHasTransactions(w: World, p: Owner)
    requires CashInv(w) && Available(w.lots, p, w.now) > 0
    ensures HasTransactions(w.ledger, p.org)
  {
    var i := SumWitness(w.lots, LiveValue(p, w.now));
    assert LotRow(w, i);
    OrgOfEntry(w, w.lots[i].source);
  }

  lemma FairQuote(w: World, p: Owner, total: int, spend: int)
    requires QuoteFor(w, p, total, spend).Ok? && ValidateSpend(QuoteFor(w, p, total, spend).value).Ok? && spend > 0
    ensures var q := QuoteFor(w, p, total, spend).value;
            FairPurchase(Purchase(total, q.cashPaid, spend, q.program), q.earn)
  {
  }

  lemma AskCashbackStep(w: World, p: Owner, total: int, spend: int, ttl: nat)
    requires Inv(w) && CreateCashbackRequest(w, p, total, spend, ttl).Ok?
    ensures Inv(CreateCashbackRequest(w, p, total, spend, ttl).value)
    ensures Onward(w, CreateCashbackRequest(w, p, total, spend, ttl).value)
  {
    var u := CreateCashbackRequest(w, p, total, spend, ttl).value;
    CashFrame(w, u);
    GiftFrame(w, u);
    AppendKeeps(w, u);
    FairQuote(w, p, total, spend);
    AvailableHasTransactions(w, p);
    AskKeeps(w, u, u.requests[|w.requests|]);
  }

  lemma CloseStep(w: World, r: nat, status: RequestStatus)
    requires Inv(w) && r < |w.requests| && w.requests[r].status == PENDING && status !in {PENDING, CONFIRMED}
    ensures Inv(Close(w, r, status)) && Onward(w, Close(w, r, status))
  {
    var u := Close(w, r, status);
    CashFrame(w, u);
    CloseKeeps(w, r, status);
    AppendKeeps(w, u);
    CloseKeepsRequests(w, r, status);
  }

  lemma ConfirmGiftStep(w: World, r: nat)
    requires Inv(w) && r < |w.requests| && w.requests[r].status == PENDING && w.requests[r].kind.GiftRequest?
    ensures w.requests[r].kind.gift < |w.gifts|
    ensures var u := Settle(PostRedeem(w, w.requests[r].owner, w.requests[r].kind.gift, r), r, |w.ledger|);
            Inv(u) && Onward(w, u)
  {
    hide Sum;
    PendingHolds(w, r);
    assert RequestRow(w, r);
    var v := PostRedeem(w, w.requests[r].owner, w.requests[r].kind.gift, r);
    var u := Settle(v, r, |w.ledger|);
    CashFrame(w, u);
    RedeemKeeps(w, r);
    AppendKeeps(w, u);
    SettleKeeps(w, v, r);
  }

  /** `v` is `w` after the ledger part of a confirmed purchase: the spend, and the earning if there is one. */
  ghost predicate PaidOut(w: World, v: World, r: nat, consumed: seq<Consumed>)
    requires r < |w.requests| && w.requests[r].kind.CashbackRequest?
  {
    var req := w.requests[r];
    var purchase, earn := req.kind.purchase, req.kind.earn;
    && v.ledger == w.ledger
         + [Transaction(req.owner, CashbackSpend(purchase.spend, consumed, purchase, r), COMPLETED, w.now)]
         + (if earn > 0
            then [Transaction(req.owner, CashbackEarn(earn, Some(|w.lots|), purchase, Some(r)), COMPLETED, w.now)]
            else [])
    && v.requests == w.requests && v.gifts == w.gifts && v.orgs == w.orgs && v.now == w.now
    && v.states.Keys == w.states.Keys + {req.owner}
    && GiftSame(w, v)
  }

  lemma ConfirmedEntries(w: World, r: nat, order: seq<nat>)
    requires Inv(w) && r < |w.requests| && w.requests[r].kind.CashbackRequest?
    requires LiveLots(w.lots, w.requests[r].owner, w.now, order)
    requires Perform(w, r, order).Ok?
    ensures CashInv(Perform(w, r, order).value)
    ensures PaidOut(w, Perform(w, r, order).value, r,
                    TakeInOrder(w.lots, order, w.requests[r].kind.purchase.spend).consumed)
  {
    hide Sum;
    var req := w.requests[r];
    var p, purchase, earn := req.owner, req.kind.purchase, req.kind.earn;
    assert RequestRow(w, r);
    var w1 := PostSpend(w, p, purchase.spend, purchase, r, order).value;
    SpendKeeps(w, p, purchase.spend, purchase, r, order);
    var v := Perform(w, r, order).value;
    if earn > 0 {
      EarnKeeps(w1, p, earn, purchase, Some(r));
    } else {
      CashFrame(w1, v);
    }
  }

  lemma PaidOutLedger(w: World, v: World, r: nat, consumed: seq<Consumed>)
    requires Inv(w) && r < |w.requests| && w.requests[r].kind.CashbackRequest? && PaidOut(w, v, r, consumed)
    ensures LedgerInv(v) && Onward(w, v)
    ensures forall t :: |w.ledger| <= t < |v.ledger| ==> RequestOf(v.ledger[t].kind) == Some(r)
    ensures Outcome(Settle(v, r, |w.ledger|), r)
  {
    hide Sum;
    assert RequestRow(w, r);
    AppendKeeps(w, v);
  }

  lemma PaidOutSettles(w: World, v: World, r: nat, consumed: seq<Consumed>)
    requires Inv(w) && CashInv(v) && r < |w.requests| && w.requests[r].status == PENDING
    requires w.requests[r].kind.CashbackRequest? && PaidOut(w, v, r, consumed)
    ensures Inv(Settle(v, r, |w.ledger|)) && Onward(w, Settle(v, r, |w.ledger|))
  {
    hide Sum;
    var u := Settle(v, r, |w.ledger|);
    PaidOutLedger(w, v, r, consumed);
    CashFrame(v, u);
    GiftFrame(w, u);
    AppendKeeps(v, u);
    SettleKeeps(w, v, r);
  }

  lemma ConfirmCashbackStep(w: World, r: nat, order: seq<nat>)
    requires Inv(w) && r < |w.requests| && w.requests[r].status == PENDING && w.requests[r].kind.CashbackRequest?
    requires LiveLots(w.lots, w.requests[r].owner, w.now, order)
    requires Perform(w, r, order).Ok?
    ensures var u := Settle(Perform(w, r, order).value, r, |w.ledger|); Inv(u) && Onward(w, u)
  {
    ConfirmedEntries(w, r, order);
    PaidOutSettles(w, Perform(w, r, order).value, r,
                   TakeInOrder(w.lots, order, w.requests[r].kind.purchase.spend).consumed);
  }

  lemma BurnStep(w: World, i: nat, cutoff: int)
    requires Inv(w) && i < |w.lots| && cutoff <= w.now
    ensures Inv(BurnLot(w, i, cutoff)) && Onward(w, BurnLot(w, i, cutoff))
  {
    hide Sum;
    var u := BurnLot(w, i, cutoff);
    BurnKeeps(w, i, cutoff);
    GiftFrame(w, u);
    assert LotRow(w, i) && LedgerRow(w, w.lots[i].source);
    AppendKeeps(w, u);
    RequestFrame(w, u);
  }

  /** What the ledger and the requests make of any reversal. */
  lemma BookStep(w: World, u: World, t: nat, effect: Effect)
    requires Inv(w) && t < |w.ledger|
    requires w.ledger[t].status == COMPLETED && Reversible(w.ledger[t].kind) && Undoes(effect, w.ledger[t].kind)
    requires u == Book(w.(lots := u.lots, gifts := u.gifts), t, effect, StateOf(u, w.ledger[t].owner))
    ensures LedgerInv(u) && RequestInv(u) && Onward(w, u)
  {
    hide Sum;
    BookKeeps(w, u, t, effect, StateOf(u, w.ledger[t].owner));
    RequestFrame(w, u);
  }

  lemma UndoVisitStep(w: World, t: nat)
    requires Inv(w) && t < |w.ledger| && w.ledger[t].kind.VisitEarn? && w.ledger[t].status == COMPLETED
    requires UndoVisit(w, t).Ok?
    ensures Inv(UndoVisit(w, t).value) && Onward(w, UndoVisit(w, t).value)
  {
    var u := UndoVisit(w, t).value;
    UndoVisitKeeps(w, t);
    CashFrame(w, u);
    BookStep(w, u, t, u.ledger[|w.ledger|].kind.effect);
  }

  lemma UndoRedeemStep(w: World, t: nat)
    requires Inv(w) && t < |w.ledger| && w.ledger[t].kind.GiftRedeem? && w.ledger[t].status == COMPLETED
    requires UndoRedeem(w, t).Ok?
    ensures Inv(UndoRedeem(w, t).value) && Onward(w, UndoRedeem(w, t).value)
  {
    var u := UndoRedeem(w, t).value;
    UndoRedeemKeeps(w, t);
    CashFrame(w, u);
    BookStep(w, u, t, u.ledger[|w.ledger|].kind.effect);
  }

  lemma UndoEarnStep(w: World, t: nat, force: bool)
    requires Inv(w) && t < |w.ledger| && w.ledger[t].kind.CashbackEarn? && w.ledger[t].status == COMPLETED
    requires UndoEarn(w, t, force).Ok?
    ensures Inv(UndoEarn(w, t, force).value) && Onward(w, UndoEarn(w, t, force).value)
  {
    hide Sum;
    var u := UndoEarn(w, t, force).value;
    assert CashEntry(w, t) && LotRow(w, w.ledger[t].kind.lot.value);
    UndoEarnKeeps(w, t, force);
    GiftFrame(w, u);
    BookStep(w, u, t, u.ledger[|w.ledger|].kind.effect);
  }

  lemma UndoSpendStep(w: World, t: nat)
    requires Inv(w) && t < |w.ledger| && w.ledger[t].kind.CashbackSpend? && w.ledger[t].status == COMPLETED
    requires UndoSpend(w, t).Ok?
    ensures Inv(UndoSpend(w, t).value) && Onward(w, UndoSpend(w, t).value)
  {
    hide Sum;
    var u := UndoSpend(w, t).value;
    assert CashEntry(w, t);
    GiveBackPerLot(w.lots, w.ledger[t].kind.consumed, w.now);
    UndoSpendKeeps(w, t);
    GiftFrame(w, u);
    BookStep(w, u, t, u.ledger[|w.ledger|].kind.effect);
  }

  lemma ReverseStep(w: World, t: nat, scope: Option<nat>, force: bool, reasonGiven: bool)
    requires Inv(w) && Reverse(w, t, scope, force, reasonGiven).Ok?
    ensures Inv(Reverse(w, t, scope, force, reasonGiven).value)
    ensures Onward(w, Reverse(w, t, scope, force, reasonGiven).value)
  {
    match w.ledger[t].kind {
      case VisitEarn(_, _, _, _, _) => UndoVisitStep(w, t);
      case GiftRedeem(_, _) => UndoRedeemStep(w, t);
      case CashbackEarn(_, _, _, _) => UndoEarnStep(w, t, force);
      case CashbackSpend(_, _, _, _) => UndoSpendStep(w, t);
    }
  }

  /** Changes of the environment: the tables stay, and no organization with transactions changes its type. */
  lemma GroundStep(w: World, u: World)
    requires Inv(w) && SameGround(w, u)
    requires u.states == w.states && u.lots == w.lots && u.gifts == w.gifts
    requires u.requests == w.requests && u.ledger == w.ledger
    ensures Inv(u) && Onward(w, u)
  {
    CashFrame(w, u);
    GiftFrame(w, u);
    AppendKeeps(w, u);
    RequestFrame(w, u);
  }

  /** Every step keeps the invariants. */
  lemma StepKeeps(w: World, op: Op)
    requires Inv(w) && Possible(w, op)
    ensures Inv(After(w, op)) && Onward(w, After(w, op))
  {
    hide Inv, Onward, EarnVisit, EarnOnly, CreateGiftRequest, CreateCashbackRequest, BurnLot, Reverse;
    GroundStep(w, w);
    if Apply(w, op).Ok? {
      match op {
        case Visit(p) => VisitStep(w, p);
        case Buy(p, total) => PurchaseStep(w, p, total);
        case AskGift(p, g, ttl) => AskGiftStep(w, p, g, ttl);
        case AskCashback(p, total, spend, ttl) => AskCashbackStep(w, p, total, spend, ttl);
        case ConfirmRequest(user, r, order) =>
          if w.requests[r].status == PENDING {
            if w.requests[r].kind.GiftRequest? { ConfirmGiftStep(w, r); } else { ConfirmCashbackStep(w, r, order); }
          }
        case RejectRequest(user, r) =>
          if w.requests[r].status == PENDING { CloseStep(w, r, REJECTED); }
        case CancelRequest(org, r) => CloseStep(w, r, CANCELLED_BY_ADMIN);
        case SweepRequest(r, cutoff) =>
          if w.requests[r].status == PENDING { CloseStep(w, r, EXPIRED); }
        case SweepLot(i, cutoff) => BurnStep(w, i, cutoff);
        case ReverseEntry(t, scope, force, reasonGiven) => ReverseStep(w, t, scope, force, reasonGiven);
        case _ => GroundStep(w, After(w, op));
      }
    }
  }

  lemma {:induction false} RunKeeps(w: World, ops: seq<Op>)
    requires Inv(w) && CanRun(w, ops)
    ensures Inv(Run(w, ops)) && Onward(w, Run(w, ops))
  {
    if ops != [] {
      var init := ops[..|ops| - 1];
      RunKeeps(w, init);
      StepKeeps(Run(w, init), ops[|ops| - 1]);
      GrownFurther(w, Run(w, init), Run(w, ops));
    }
  }

  lemma GrownFurther(w: World, v: World, u: World)
    requires Onward(w, v) && Onward(v, u)
    ensures Onward(w, u)
  {
    forall org | HasTransactions(w.ledger, org) && org in w.orgs
      ensures org in u.orgs && u.orgs[org].loyalty == w.orgs[org].loyalty
    {
      GrownHasTransactions(w.ledger, v.ledger, org);
    }
  }

  lemma InitialInv(w: World)
    requires Initial(w)
    ensures Inv(w)
  {
    forall p ensures CashBalance(w, p) && VisitBalance(w, p) { assert StateOf(w, p) == NEW_STATE; }
  }

  /** Every reachable state satisfies the four invariants. */
  lemma ReachableInv(w: World)
    requires Reachable(w)
    ensures Inv(w)
  {
    var start, ops :| Initial(start) && CanRun(start, ops) && Run(start, ops) == w;
    InitialInv(start);
    RunKeeps(start, ops);
  }
}
