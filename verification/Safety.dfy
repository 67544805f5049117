/** What no run can do: to a settled request, to the ledger, to another client, to a program. */
module Safety {
  import opened Rows
  import opened Sums
  import Money
  import opened Guards
  import opened Visits
  import opened Cashback
  import opened Redemptions
  import opened Reversals
  import opened Director
  import opened Accounts
  import opened CashLaws
  import opened GiftLaws
  import opened GiftSteps
  import opened CashSteps
  import opened Fifo
  import opened LedgerLaws
  import opened Machine
  import opened Steps
  import opened Agreement

  // ---- redemption requests ----

  /** How step `op` takes request `r` from `req` to `now`. */
  ghost predicate Moves(w: World, op: Op, r: nat, req: Request, now: Request) {
    && now.owner == req.owner && now.kind == req.kind && now.expiresAt == req.expiresAt
    && (req.status != PENDING ==> now == req)
    && (req.status == PENDING && now != req ==>
         match op
         case ConfirmRequest(user, s, _) =>
           s == r && user == req.owner.user && now.status == CONFIRMED && w.now < req.expiresAt
         case RejectRequest(user, s) => s == r && user == req.owner.user && now.status == REJECTED
         case CancelRequest(org, s) => s == r && org == req.owner.org && now.status == CANCELLED_BY_ADMIN
         case SweepRequest(s, cutoff) => s == r && req.expiresAt <= cutoff && now.status == EXPIRED
         case _ => false)
  }

  lemma ConfirmMoves(w: World, user: nat, s: nat, order: seq<nat>, r: nat)
    requires var op := ConfirmRequest(user, s, order); Possible(w, op) && Apply(w, op).Ok?
    requires r < |w.requests|
    ensures var op := ConfirmRequest(user, s, order);
            r < |After(w, op).requests| && Moves(w, op, r, w.requests[r], After(w, op).requests[r])
  {
    hide Perform, EnsureOperational;
    if w.requests[s].status == PENDING {
      assert Perform(w, s, order).value.requests == w.requests;
    }
  }

  lemma ReversalKeepsRequests(w: World, op: Op)
    requires op.ReverseEntry? && Apply(w, op).Ok?
    ensures After(w, op).requests == w.requests
  {
  }

  lemma CloseChanges(w: World, s: nat, status: RequestStatus)
    requires s < |w.requests|
    ensures Close(w, s, status).requests == w.requests[s := w.requests[s].(status := status)]
  {
  }

  lemma ClosingMoves(w: World, op: Op, r: nat)
    requires Possible(w, op) && Apply(w, op).Ok? && r < |w.requests|
    requires op.RejectRequest? || op.CancelRequest? || op.SweepRequest?
    requires op.request < |w.requests|
    ensures r < |After(w, op).requests| && Moves(w, op, r, w.requests[r], After(w, op).requests[r])
  {
    hide Close;
    CloseChanges(w, op.request, REJECTED);
    CloseChanges(w, op.request, CANCELLED_BY_ADMIN);
    CloseChanges(w, op.request, EXPIRED);
  }

  lemma ClosedRequestExists(w: World, op: Op)
    requires Possible(w, op) && Apply(w, op).Ok?
    requires op.RejectRequest? || op.CancelRequest? || op.SweepRequest?
    ensures op.request < |w.requests|
  {
  }

  /** All other steps keep the requests that there are. */
  lemma OthersKeepRequests(w: World, op: Op)
    requires Possible(w, op) && Apply(w, op).Ok?
    requires !op.ConfirmRequest? && !op.RejectRequest? && !op.CancelRequest? && !op.SweepRequest? && !op.ReverseEntry?
    ensures |w.requests| <= |After(w, op).requests| && After(w, op).requests[..|w.requests|] == w.requests
  {
    hide Sum, EnsureClient, EnsureOperational, Saved, StateOf;
  }

  /** A request leaves PENDING only by a confirm or a reject of its user, a cancel of its organization or the
      sweep, never twice, and keeps what it asks for. */
  lemma RequestStep(w: World, op: Op, r: nat)
    requires Possible(w, op) && r < |w.requests|
    ensures r < |After(w, op).requests|
    ensures Moves(w, op, r, w.requests[r], After(w, op).requests[r])
  {
    hide Apply;
    if Apply(w, op).Ok? {
      match op {
        case ConfirmRequest(user, s, order) => ConfirmMoves(w, user, s, order, r);
        case RejectRequest(_, _) =>
          ClosedRequestExists(w, op);
          ClosingMoves(w, op, r);
        case CancelRequest(_, _) =>
          ClosedRequestExists(w, op);
          ClosingMoves(w, op, r);
        case SweepRequest(_, _) =>
          ClosedRequestExists(w, op);
          ClosingMoves(w, op, r);
        case ReverseEntry(t, scope, force, reasonGiven) => ReversalKeepsRequests(w, op);
        case _ =>
          OthersKeepRequests(w, op);
          assert After(w, op).requests[r] == After(w, op).requests[..|w.requests|][r];
      }
    }
  }

  /** A settled request never changes again. */
  lemma {:induction false} SettledForever(w: World, ops: seq<Op>, r: nat)
    requires CanRun(w, ops) && r < |w.requests| && w.requests[r].status != PENDING
    ensures r < |Run(w, ops).requests| && Run(w, ops).requests[r] == w.requests[r]
  {
    if ops != [] {
      SettledForever(w, ops[..|ops| - 1], r);
      RequestStep(Run(w, ops[..|ops| - 1]), ops[|ops| - 1], r);
    }
  }

  /** Confirming again, any number of steps later, changes nothing and gives the same answer. */
  lemma ConfirmOnce(w: World, user: nat, r: nat, order: seq<nat>, ops: seq<Op>, later: seq<nat>)
    requires Possible(w, ConfirmRequest(user, r, order)) && Confirm(w, user, r, order).Ok?
    requires var u := Confirm(w, user, r, order).value.world;
             CanRun(u, ops) && forall k :: 0 <= k < |later| ==> later[k] < |Run(u, ops).lots|
    ensures var first := Confirm(w, user, r, order).value;
            var v := Run(first.world, ops);
            var again := Confirm(v, user, r, later);
            && again.Ok? && again.value.world == v
            && again.value.response == first.response.(changed := false)
            && first.response.status == CONFIRMED
  {
    var u := Confirm(w, user, r, order).value.world;
    if w.requests[r].status == PENDING {
      assert Perform(w, r, order).value.requests == w.requests;
    }
    SettledForever(u, ops, r);
  }

  /** The steps that close request `r`, other than a confirm. */
  predicate Closes(op: Op, r: nat) {
    (op.RejectRequest? || op.CancelRequest? || op.SweepRequest?) && op.request == r
  }

  /** A request that is overdue and PENDING stays so through any run, however often it is confirmed, until the
      user rejects it, an admin cancels it or the sweep reaches it: the EXPIRED status that a late confirm sets is
      undone by the exception. All that time its gift is held, so nobody can ask for it. */
  lemma {:induction false} OverdueStaysPending(w: World, ops: seq<Op>, r: nat)
    requires Reachable(w) && CanRun(w, ops) && r < |w.requests|
    requires w.requests[r].status == PENDING && w.requests[r].expiresAt <= w.now
    requires forall k :: 0 <= k < |ops| ==> !Closes(ops[k], r)
    ensures var u := Run(w, ops);
            && w.now <= u.now && r < |u.requests| && u.requests[r] == w.requests[r]
            && (w.requests[r].kind.GiftRequest? ==>
                  var p, g := w.requests[r].owner, w.requests[r].kind.gift;
                  && g < |u.gifts| && u.gifts[g].status == PENDING_REDEMPTION
                  && forall ttl :: CreateGiftRequest(u, p, g, ttl).Err?)
  {
    hide Inv, Apply, CreateGiftRequest;
    ReachableInv(w);
    RunKeeps(w, ops);
    if ops != [] {
      var init := ops[..|ops| - 1];
      OverdueStaysPending(w, init, r);
      RequestStep(Run(w, init), ops[|ops| - 1], r);
    }
    if w.requests[r].kind.GiftRequest? {
      HeldGiftIsRefused(Run(w, ops), r);
    }
  }

  lemma HeldGiftIsRefused(u: World, r: nat)
    requires Inv(u) && r < |u.requests| && u.requests[r].status == PENDING && u.requests[r].kind.GiftRequest?
    ensures var p, g := u.requests[r].owner, u.requests[r].kind.gift;
            && g < |u.gifts| && u.gifts[g].owner == p && u.gifts[g].status == PENDING_REDEMPTION
            && forall q, ttl :: CreateGiftRequest(u, q, g, ttl).Err?
  {
    PendingHolds(u, r);
  }

  /** A request keeps its client and what it asks for. */
  lemma {:induction false} RequestKeepsTerms(w: World, ops: seq<Op>, r: nat)
    requires CanRun(w, ops) && r < |w.requests|
    ensures r < |Run(w, ops).requests|
    ensures Run(w, ops).requests[r].owner == w.requests[r].owner && Run(w, ops).requests[r].kind == w.requests[r].kind
  {
    if ops != [] {
      RequestKeepsTerms(w, ops[..|ops| - 1], r);
      RequestStep(Run(w, ops[..|ops| - 1]), ops[|ops| - 1], r);
    }
  }

  /** From the moment a gift is asked for, through any run after which the request is still PENDING, nobody can ask
      for it again, and a reject gives it back to the client as it was: AVAILABLE and never used. */
  lemma AskingHolds(w: World, p: Owner, g: nat, ttl: nat, ops: seq<Op>)
    requires Reachable(w) && Apply(w, AskGift(p, g, ttl)).Ok? && CanRun(After(w, AskGift(p, g, ttl)), ops)
    ensures |w.requests| < |Run(After(w, AskGift(p, g, ttl)), ops).requests|
    ensures var v, r := Run(After(w, AskGift(p, g, ttl)), ops), |w.requests|;
            v.requests[r].status == PENDING ==>
              && g < |v.gifts| && (forall q, again :: CreateGiftRequest(v, q, g, again).Err?)
              && Reject(v, p.user, r).Ok?
              && var u := Reject(v, p.user, r).value.world;
                 && u.gifts == v.gifts[g := Gift(p, AVAILABLE, v.gifts[g].visit, None, None)]
                 && u.requests == v.requests[r := v.requests[r].(status := REJECTED)]
  {
    hide Inv;
    ReachableInv(w);
    StepKeeps(w, AskGift(p, g, ttl));
    var asked, r := After(w, AskGift(p, g, ttl)), |w.requests|;
    assert asked.requests[r].kind == GiftRequest(g) && asked.requests[r].owner == p;
    RunKeeps(asked, ops);
    RequestKeepsTerms(asked, ops, r);
    var v := Run(asked, ops);
    if v.requests[r].status == PENDING {
      HeldGiftIsRefused(v, r);
      HeldGiftIsUnused(v, g);
    }
  }

  lemma HeldGiftIsUnused(w: World, g: nat)
    requires Inv(w) && g < |w.gifts| && w.gifts[g].status == PENDING_REDEMPTION
    ensures w.gifts[g].redeemTx == None && w.gifts[g].usedAt == None
  {
    assert GiftRow(w, g);
  }

  /** A pending request in time is confirmed exactly when its organization operates and, for a purchase, the
      lots alive at that moment cover the spend. A gift that is asked for is always still there. */
  lemma ConfirmSucceedsIff(w: World, r: nat, order: seq<nat>)
    requires Reachable(w) && r < |w.requests| && w.requests[r].status == PENDING
    requires FifoOrder(w.lots, w.requests[r].owner, w.now, order)
    ensures var req := w.requests[r];
            Confirm(w, req.owner.user, r, order).Ok? <==>
              && w.now < req.expiresAt
              && (if req.kind.GiftRequest? then RunsVisits(w, req.owner.org) else RunsCashback(w, req.owner.org))
              && (req.kind.CashbackRequest? ==> req.kind.purchase.spend <= Available(w.lots, req.owner, w.now))
  {
    ReachableInv(w);
    assert RequestRow(w, r);
    var req := w.requests[r];
    if req.kind.GiftRequest? {
      PendingHolds(w, r);
    } else {
      ShortfallIsExact(w.lots, req.owner, w.now, order, req.kind.purchase.spend);
    }
  }

  /** Closing a pending gift request, by its user, by an admin or by the sweep, makes the gift AVAILABLE again
      and touches no other gift and no ledger entry. */
  lemma ClosingReleases(w: World, r: nat, status: RequestStatus)
    requires Reachable(w) && r < |w.requests| && w.requests[r].status == PENDING
    ensures var u := Close(w, r, status);
            && u.requests == w.requests[r := w.requests[r].(status := status)]
            && u.ledger == w.ledger && u.lots == w.lots && u.states == w.states
            && (match w.requests[r].kind
                case GiftRequest(g) =>
                  g < |w.gifts| && u.gifts == w.gifts[g := w.gifts[g].(status := AVAILABLE)]
                case CashbackRequest(_, _) => u.gifts == w.gifts)
    ensures Reject(w, w.requests[r].owner.user, r).Ok? && CancelByAdmin(w, w.requests[r].owner.org, r).Ok?
    ensures Reject(w, w.requests[r].owner.user, r).value.world == Close(w, r, REJECTED)
    ensures CancelByAdmin(w, w.requests[r].owner.org, r).value == Close(w, r, CANCELLED_BY_ADMIN)
    ensures w.requests[r].expiresAt <= w.now ==> After(w, SweepRequest(r, w.now)) == Close(w, r, EXPIRED)
  {
    ReachableInv(w);
    if w.requests[r].kind.GiftRequest? {
      PendingHolds(w, r);
    }
  }

  /** Only a CONFIRMED request owns entries, its result lists exactly them, and they are one redemption of its
      gift, or its one spend and its one earning, for the amounts fixed when it was made. */
  lemma RequestOwns(w: World, r: nat)
    requires Reachable(w) && r < |w.requests|
    ensures forall t :: 0 <= t < |w.ledger| ==>
              (RequestOf(w.ledger[t].kind) == Some(r) <==> t in w.requests[r].result)
    ensures w.requests[r].status != CONFIRMED ==> w.requests[r].result == []
    ensures w.requests[r].status == CONFIRMED ==> Outcome(w, r)
    ensures w.requests[r].kind.CashbackRequest? ==>
              FairPurchase(w.requests[r].kind.purchase, w.requests[r].kind.earn)
  {
    ReachableInv(w);
    assert RequestRow(w, r);
  }

  /** A confirmed purchase: cashback and cash make up the total, and neither the spend nor the earning passes
      the limits of the program at the time of the request, whatever the program is now. */
  lemma ConfirmedPurchase(w: World, r: nat)
    requires Reachable(w) && r < |w.requests|
    requires w.requests[r].kind.CashbackRequest? && w.requests[r].status == CONFIRMED
    ensures var req := w.requests[r];
            var purchase := req.kind.purchase;
            && req.result != [] && req.result[0] < |w.ledger|
            && (var spend := w.ledger[req.result[0]].kind;
                && spend.CashbackSpend? && spend.spent + purchase.cashPaid == purchase.total
                && Sum(spend.consumed, EntryAmount()) == spend.spent
                && spend.spent * Money.BPS_DENOMINATOR <= purchase.total * purchase.program.maxSpend)
            && (|req.result| == 2 ==>
                  && req.result[1] < |w.ledger|
                  && var earn := w.ledger[req.result[1]].kind;
                     && earn.CashbackEarn? && earn.earned == Money.ApplyBps(purchase.cashPaid, purchase.program.rate)
                     && earn.earned + purchase.spend <= purchase.total)
            && (|req.result| < 2 ==> Money.ApplyBps(purchase.cashPaid, purchase.program.rate) == 0)
  {
    RequestOwns(w, r);
    ReachableInv(w);
    assert CashEntry(w, w.requests[r].result[0]);
    var purchase := w.requests[r].kind.purchase;
    Money.ApplyBpsIsFloor(purchase.total, purchase.program.maxSpend, purchase.spend);
    Money.ApplyBpsAtMost(purchase.cashPaid, purchase.program.rate);
  }

  // ---- the ledger ----

  /** The ledger only grows, and of an entry only the status ever changes, once, to REVERSED. */
  lemma LedgerOnlyGrows(w: World, ops: seq<Op>)
    requires Reachable(w) && CanRun(w, ops)
    ensures Grown(w.ledger, Run(w, ops).ledger)
  {
    ReachableInv(w);
    RunKeeps(w, ops);
  }

  /** An entry is REVERSED exactly when one REVERSAL relates to it, and none is reversed twice. */
  lemma ReversedOnce(w: World, t: nat)
    requires Reachable(w) && t < |w.ledger|
    ensures w.ledger[t].status == REVERSED <==> ExactlyOne(w.ledger, Reversing(t))
    ensures w.ledger[t].status == REVERSED ==>
              forall scope, force :: Reverse(w, t, scope, force, true).Err?
    ensures w.ledger[t].kind.Reversal? ==>
              && w.ledger[t].kind.original < t
              && w.ledger[w.ledger[t].kind.original].owner == w.ledger[t].owner
              && w.ledger[w.ledger[t].kind.original].status == REVERSED
              && Undoes(w.ledger[t].kind.effect, w.ledger[w.ledger[t].kind.original].kind)
  {
    ReachableInv(w);
    assert LedgerRow(w, t);
    CountsOne(w.ledger, Reversing(t));
    if w.ledger[t].kind.Reversal? {
      var k := w.ledger[t].kind.original;
      assert LedgerRow(w, k);
      SumAtLeast(w.ledger, Reversing(k), t);
    }
  }

  /** Only earnings, confirms, reversals and sweeps of lots touch lots. */
  lemma OthersKeepLots(w: World, op: Op)
    requires Possible(w, op)
    requires !op.Buy? && !op.ConfirmRequest? && !op.ReverseEntry? && !op.SweepLot?
    ensures After(w, op).lots == w.lots
  {
    hide EnsureClient, EnsureOperational, Available;
  }

  // ---- programs ----

  /** An organization's ledger is all of one program, its current one, and so is every request. */
  lemma ProgramsNeverMix(w: World, org: nat)
    requires Reachable(w)
    ensures forall s, t ::
              (0 <= s < |w.ledger| && 0 <= t < |w.ledger|
               && w.ledger[s].owner.org == org && w.ledger[t].owner.org == org) ==>
                Family(w.ledger[s].kind) == Family(w.ledger[t].kind)
    ensures forall r :: 0 <= r < |w.requests| && w.requests[r].owner.org == org ==>
              org in w.orgs
              && w.orgs[org].loyalty == (if w.requests[r].kind.GiftRequest? then VISIT else CASHBACK)
  {
    ReachableInv(w);
    forall s, t | 0 <= s < |w.ledger| && 0 <= t < |w.ledger|
      && w.ledger[s].owner.org == org && w.ledger[t].owner.org == org
      ensures Family(w.ledger[s].kind) == Family(w.ledger[t].kind)
    {
      assert LedgerRow(w, s) && LedgerRow(w, t);
    }
    forall r | 0 <= r < |w.requests| && w.requests[r].owner.org == org
      ensures org in w.orgs
      ensures w.orgs[org].loyalty == (if w.requests[r].kind.GiftRequest? then VISIT else CASHBACK)
    {
      assert RequestRow(w, r);
    }
  }

  /** The director can change an organization's type exactly while it has no transactions, whatever program fields
      of the new type come with it, and then no table has a row of it. */
  lemma TypeChangesOnlyWhenEmpty(w: World, org: nat, newType: LoyaltyType,
                                 visit: Option<VisitChange>, cashback: Option<CashbackChange>)
    requires Reachable(w) && org in w.orgs && newType != w.orgs[org].loyalty
    ensures var r := Patch(w, org, Some(newType), visit, cashback);
            && (r.Ok? <==> !HasTransactions(w.ledger, org)
                           && (newType == VISIT ==> cashback.None?) && (newType == CASHBACK ==> visit.None?))
            && (r.Ok? ==>
                  && r.value.orgs[org].loyalty == newType
                  && (forall i :: 0 <= i < |w.lots| ==> w.lots[i].owner.org != org)
                  && (forall g :: 0 <= g < |w.gifts| ==> w.gifts[g].owner.org != org)
                  && (forall r :: 0 <= r < |w.requests| ==> w.requests[r].owner.org != org))
  {
    ReachableInv(w);
    forall i | 0 <= i < |w.lots| ensures HasTransactions(w.ledger, w.lots[i].owner.org) {
      assert LotRow(w, i);
      OrgOfEntry(w, w.lots[i].source);
    }
    forall g | 0 <= g < |w.gifts| ensures HasTransactions(w.ledger, w.gifts[g].owner.org) {
      assert GiftRow(w, g);
      OrgOfEntry(w, w.gifts[g].visit);
    }
    forall r | 0 <= r < |w.requests| ensures HasTransactions(w.ledger, w.requests[r].owner.org) {
      assert RequestRow(w, r);
    }
  }

  /** Hence confirm loses nothing by not naming the type it expects. */
  lemma ConfirmNeedsNoType(w: World, r: nat)
    requires Reachable(w) && r < |w.requests|
    ensures var req := w.requests[r];
            EnsureOperational(w, req.owner.org, None)
            == EnsureOperational(w, req.owner.org, Some(if req.kind.GiftRequest? then VISIT else CASHBACK))
  {
    ReachableInv(w);
    assert RequestRow(w, r);
  }

  // ---- tenants ----

  /** The client and organization whose rows a step works on; None for the environment. */
  function Subject(w: World, op: Op): Option<Owner> {
    match op
    case Visit(p) => Some(p)
    case Buy(p, _) => Some(p)
    case AskGift(p, _, _) => Some(p)
    case AskCashback(p, _, _, _) => Some(p)
    case ConfirmRequest(_, r, _) => if r < |w.requests| then Some(w.requests[r].owner) else None
    case RejectRequest(_, r) => if r < |w.requests| then Some(w.requests[r].owner) else None
    case CancelRequest(_, r) => if r < |w.requests| then Some(w.requests[r].owner) else None
    case SweepRequest(r, _) => if r < |w.requests| then Some(w.requests[r].owner) else None
    case SweepLot(i, _) => if i < |w.lots| then Some(w.lots[i].owner) else None
    case ReverseEntry(t, _, _, _) => if t < |w.ledger| then Some(w.ledger[t].owner) else None
    case _ => None
  }

  /** No row of `q` changes, appears or disappears. */
  ghost predicate Untouched(w: World, u: World, q: Owner) {
    && StateOf(u, q) == StateOf(w, q) && (q in u.states <==> q in w.states)
    && |w.lots| <= |u.lots| && |w.gifts| <= |u.gifts|
    && |w.requests| <= |u.requests| && |w.ledger| <= |u.ledger|
    && (forall i :: 0 <= i < |w.lots| ==>
          if w.lots[i].owner == q then u.lots[i] == w.lots[i] else u.lots[i].owner != q)
    && (forall i :: 0 <= i < |w.gifts| ==>
          if w.gifts[i].owner == q then u.gifts[i] == w.gifts[i] else u.gifts[i].owner != q)
    && (forall i :: 0 <= i < |w.requests| ==>
          if w.requests[i].owner == q then u.requests[i] == w.requests[i] else u.requests[i].owner != q)
    && (forall i :: 0 <= i < |w.ledger| ==>
          if w.ledger[i].owner == q then u.ledger[i] == w.ledger[i] else u.ledger[i].owner != q)
    && (forall i :: |w.lots| <= i < |u.lots| ==> u.lots[i].owner != q)
    && (forall i :: |w.gifts| <= i < |u.gifts| ==> u.gifts[i].owner != q)
    && (forall i :: |w.requests| <= i < |u.requests| ==> u.requests[i].owner != q)
    && (forall i :: |w.ledger| <= i < |u.ledger| ==> u.ledger[i].owner != q)
  }

  lemma UndoSpendUntouched(w: World, t: nat, q: Owner)
    requires CashInv(w) && t < |w.ledger| && w.ledger[t].kind.CashbackSpend? && w.ledger[t].owner != q
    requires UndoSpend(w, t).Ok?
    ensures Untouched(w, UndoSpend(w, t).value, q)
  {
    var consumed := w.ledger[t].kind.consumed;
    assert CashEntry(w, t);
    GiveBackPerLot(w.lots, consumed, w.now);
    forall i | 0 <= i < |w.lots| && w.lots[i].owner == q ensures TakenFrom(consumed, i) == 0 {
      SumConst(consumed, EntryOn(i), 0);
    }
  }

  lemma UndoVisitUntouched(w: World, t: nat, q: Owner)
    requires GiftInv(w) && t < |w.ledger| && w.ledger[t].kind.VisitEarn? && w.ledger[t].owner != q
    requires w.ledger[t].status == COMPLETED && UndoVisit(w, t).Ok?
    ensures Untouched(w, UndoVisit(w, t).value, q)
  {
    StandingVisit(w, t);
    CancelPerGift(w.gifts, w.ledger[t].kind.gifts);
  }

  lemma UndoEarnUntouched(w: World, t: nat, force: bool, q: Owner)
    requires CashInv(w) && t < |w.ledger| && w.ledger[t].kind.CashbackEarn? && w.ledger[t].owner != q
    requires UndoEarn(w, t, force).Ok?
    ensures Untouched(w, UndoEarn(w, t, force).value, q)
  {
    assert CashEntry(w, t) && LotRow(w, w.ledger[t].kind.lot.value);
  }

  lemma UndoRedeemUntouched(w: World, t: nat, q: Owner)
    requires GiftInv(w) && t < |w.ledger| && w.ledger[t].kind.GiftRedeem? && w.ledger[t].owner != q
    requires UndoRedeem(w, t).Ok?
    ensures Untouched(w, UndoRedeem(w, t).value, q)
  {
    assert GiftEntry(w, t);
  }

  lemma ReversalUntouched(w: World, t: nat, scope: Option<nat>, force: bool, reasonGiven: bool, q: Owner)
    requires Inv(w) && Reverse(w, t, scope, force, reasonGiven).Ok? && w.ledger[t].owner != q
    ensures Untouched(w, Reverse(w, t, scope, force, reasonGiven).value, q)
  {
    hide Untouched, UndoVisit, UndoRedeem, UndoEarn, UndoSpend;
    match w.ledger[t].kind {
      case VisitEarn(_, _, _, _, _) => UndoVisitUntouched(w, t, q);
      case GiftRedeem(_, _) => UndoRedeemUntouched(w, t, q);
      case CashbackEarn(_, _, _, _) => UndoEarnUntouched(w, t, force, q);
      case CashbackSpend(_, _, _, _) => UndoSpendUntouched(w, t, q);
    }
  }

  lemma CloseUntouched(w: World, r: nat, status: RequestStatus, q: Owner)
    requires Inv(w) && r < |w.requests| && w.requests[r].owner != q
    ensures Untouched(w, Close(w, r, status), q)
  {
    assert GiftAsked(w, r);
  }

  lemma UntouchedFurther(w: World, v: World, u: World, q: Owner)
    requires Untouched(w, v, q) && Untouched(v, u, q)
    ensures Untouched(w, u, q)
  {
  }

  lemma SpendUntouched(w: World, p: Owner, amount: nat, purchase: Purchase, r: nat, order: seq<nat>, q: Owner)
    requires LiveLots(w.lots, p, w.now, order) && p != q
    requires PostSpend(w, p, amount, purchase, r, order).Ok?
    ensures Untouched(w, PostSpend(w, p, amount, purchase, r, order).value, q)
  {
    hide Sum, TakeInOrder;
    var taken := TakeInOrder(w.lots, order, amount);
    TakesArePaid(w.lots, p, w.now, order, amount);
    forall i | 0 <= i < |w.lots|
      ensures if w.lots[i].owner == q then taken.lots[i] == w.lots[i] else taken.lots[i].owner != q
    {
      if TakenFrom(taken.consumed, i) != 0 {
        TakenBounds(w.lots, p, w.now, order, amount, i);
      }
    }
  }

  lemma EarnUntouched(w: World, p: Owner, amount: int, purchase: Purchase, request: Option<nat>, q: Owner)
    requires p != q
    ensures Untouched(w, PostEarn(w, p, amount, purchase, request), q) && Untouched(w, Touch(w, p), q)
  {
  }

  lemma PaidUntouched(w: World, r: nat, order: seq<nat>, q: Owner)
    requires r < |w.requests| && w.requests[r].owner != q && w.requests[r].kind.CashbackRequest?
    requires FairPurchase(w.requests[r].kind.purchase, w.requests[r].kind.earn)
    requires FifoOrder(w.lots, w.requests[r].owner, w.now, order) && Perform(w, r, order).Ok?
    ensures Untouched(w, Perform(w, r, order).value, q)
  {
    hide Untouched, PostSpend, PostEarn, Money.ApplyBps;
    var p, purchase, earn := w.requests[r].owner, w.requests[r].kind.purchase, w.requests[r].kind.earn;
    var w1 := PostSpend(w, p, purchase.spend, purchase, r, order).value;
    SpendUntouched(w, p, purchase.spend, purchase, r, order, q);
    EarnUntouched(w1, p, earn, purchase, Some(r), q);
    UntouchedFurther(w, w1, Perform(w, r, order).value, q);
  }

  lemma SettleUntouched(w: World, v: World, r: nat, q: Owner)
    requires Untouched(w, v, q) && r < |v.requests| && v.requests == w.requests && w.requests[r].owner != q
    requires |w.ledger| <= |v.ledger|
    ensures Untouched(w, Settle(v, r, |w.ledger|), q)
  {
  }

  lemma ConfirmUntouched(w: World, r: nat, order: seq<nat>, q: Owner)
    requires Inv(w) && r < |w.requests| && w.requests[r].owner != q && w.requests[r].status == PENDING
    requires FifoOrder(w.lots, w.requests[r].owner, w.now, order) && Perform(w, r, order).Ok?
    ensures Untouched(w, Settle(Perform(w, r, order).value, r, |w.ledger|), q)
  {
    hide Sum, Settle;
    assert RequestRow(w, r);
    if w.requests[r].kind.GiftRequest? {
      PendingHolds(w, r);
    } else {
      PaidUntouched(w, r, order, q);
    }
    SettleUntouched(w, Perform(w, r, order).value, r, q);
  }

  lemma VisitUntouched(w: World, p: Owner, q: Owner)
    requires EarnVisit(w, p).Ok? && p != q
    ensures Untouched(w, EarnVisit(w, p).value, q)
  {
  }

  lemma PurchaseUntouched(w: World, p: Owner, total: int, q: Owner)
    requires EarnOnly(w, p, total).Ok? && p != q
    ensures Untouched(w, EarnOnly(w, p, total).value, q)
  {
    hide Untouched, PostEarn;
    var quote := QuoteFor(w, p, total, 0).value;
    EarnUntouched(w, p, quote.earn, Purchase(total, quote.cashPaid, 0, quote.program), None, q);
  }

  lemma AskingUntouched(w: World, p: Owner, gift: nat, total: int, spend: int, ttl: nat, q: Owner)
    requires p != q
    ensures var r := CreateGiftRequest(w, p, gift, ttl); r.Ok? ==> Untouched(w, r.value, q)
    ensures var r := CreateCashbackRequest(w, p, total, spend, ttl); r.Ok? ==> Untouched(w, r.value, q)
  {
    hide Available;
  }

  lemma BurnUntouched(w: World, i: nat, cutoff: int, q: Owner)
    requires i < |w.lots| && w.lots[i].owner != q
    ensures Untouched(w, BurnLot(w, i, cutoff), q)
  {
  }

  /** Equal tables. */
  lemma SameRowsUntouched(w: World, u: World, q: Owner)
    requires u.states == w.states && u.lots == w.lots && u.gifts == w.gifts
    requires u.requests == w.requests && u.ledger == w.ledger
    ensures Untouched(w, u, q)
  {
  }

  lemma AnsweredUntouched(w: World, op: Op, q: Owner)
    requires Inv(w) && Possible(w, op) && Apply(w, op).Ok? && Subject(w, op) != Some(q)
    requires op.ConfirmRequest? || op.RejectRequest? || op.CancelRequest? || op.SweepRequest?
    ensures Untouched(w, After(w, op), q)
  {
    hide Sum, Inv, Untouched, Perform, Close, Settle;
    SameRowsUntouched(w, w, q);
    match op {
      case ConfirmRequest(_, r, order) =>
        if w.requests[r].status == PENDING { ConfirmUntouched(w, r, order, q); }
      case RejectRequest(_, r) => CloseUntouched(w, r, REJECTED, q);
      case CancelRequest(_, r) => CloseUntouched(w, r, CANCELLED_BY_ADMIN, q);
      case SweepRequest(r, _) => CloseUntouched(w, r, EXPIRED, q);
    }
  }

  /** A step on one client of one organization leaves every row of every other pair alone, although reversals
      and releases find lots and gifts by primary key only. */
  lemma TenantsDoNotInterfere(w: World, op: Op, q: Owner)
    requires Reachable(w) && Possible(w, op) && Subject(w, op) != Some(q)
    ensures Untouched(w, After(w, op), q)
  {
    hide Sum, Inv, Untouched, Confirm, Reject, CancelByAdmin, ExpireRequest, Reverse, Saved;
    hide EarnVisit, EarnOnly, CreateGiftRequest, CreateCashbackRequest, BurnLot;
    ReachableInv(w);
    if Apply(w, op).Err? {
      SameRowsUntouched(w, w, q);
    } else {
      match op {
        case ReverseEntry(t, scope, force, reasonGiven) =>
          ReversedEntryExists(w, t, scope, force, reasonGiven);
          ReversalUntouched(w, t, scope, force, reasonGiven, q);
        case PatchOrganization(_, _, _, _) => SameRowsUntouched(w, After(w, op), q);
        case SwitchOrganization(_, _) => SameRowsUntouched(w, After(w, op), q);
        case ChangeUser(_, _) => SameRowsUntouched(w, After(w, op), q);
        case Tick(_) => SameRowsUntouched(w, After(w, op), q);
        case ConfirmRequest(_, _, _) => AnsweredUntouched(w, op, q);
        case RejectRequest(_, _) => AnsweredUntouched(w, op, q);
        case CancelRequest(_, _) => AnsweredUntouched(w, op, q);
        case SweepRequest(_, _) => AnsweredUntouched(w, op, q);
        case Visit(p) => VisitUntouched(w, p, q);
        case Buy(p, total) => PurchaseUntouched(w, p, total, q);
        case AskGift(p, gift, ttl) => AskingUntouched(w, p, gift, 0, 0, ttl, q);
        case AskCashback(p, total, spend, ttl) => AskingUntouched(w, p, 0, total, spend, ttl, q);
        case SweepLot(i, cutoff) => BurnUntouched(w, i, cutoff, q);
      }
    }
  }

  lemma ReversedEntryExists(w: World, t: nat, scope: Option<nat>, force: bool, reasonGiven: bool)
    requires Reverse(w, t, scope, force, reasonGiven).Ok?
    ensures t < |w.ledger|
  {
  }

  /** What an admin does under the scope of an organization changes no row of any other organization, whatever
      entry or request it names. */
  lemma ScopedToOrganization(w: World, op: Op, org: nat, q: Owner)
    requires Reachable(w) && Possible(w, op) && q.org != org
    requires (op.ReverseEntry? && op.scope == Some(org)) || (op.CancelRequest? && op.org == org)
    ensures Untouched(w, After(w, op), q)
  {
    hide Untouched;
    if Subject(w, op) == Some(q) {
      assert Apply(w, op).Err?;
      SameRowsUntouched(w, w, q);
    } else {
      TenantsDoNotInterfere(w, op, q);
    }
  }
}
