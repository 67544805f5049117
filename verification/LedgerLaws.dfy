/** The ledger invariant (entries, their reversals and their program) and the request invariant
    (what a request owns in the ledger). */
module LedgerLaws {
  import opened Rows
  import opened Sums
  import opened Money
  import opened Redemptions
  import opened Reversals
  import opened Director
  import opened Accounts

  // ---- entries ----

  /** The program an entry belongs to. */
  function Family(k: TransactionKind): LoyaltyType {
    match k
    case VisitEarn(_, _, _, _, _) => VISIT
    case GiftCreated(_, _) => VISIT
    case GiftRedeem(_, _) => VISIT
    case CashbackEarn(_, _, _, _) => CASHBACK
    case CashbackSpend(_, _, _, _) => CASHBACK
    case CashbackExpire(_, _) => CASHBACK
    case Reversal(_, effect) => if effect.EarnUndone? || effect.SpendUndone? then CASHBACK else VISIT
  }

  /** The kinds reverse_transaction accepts. */
  predicate Reversible(k: TransactionKind) {
    k.VisitEarn? || k.CashbackEarn? || k.CashbackSpend? || k.GiftRedeem?
  }

  predicate Undoes(effect: Effect, k: TransactionKind) {
    match effect
    case VisitUndone(_, _) => k.VisitEarn?
    case EarnUndone(_, withdrawn, unrecoverable) => k.CashbackEarn? && withdrawn + unrecoverable == k.earned
    case SpendUndone(restored, lost) => k.CashbackSpend? && restored + lost == k.spent
    case RedeemUndone(g) => k.GiftRedeem? && g == k.gift
  }

  /** An entry belongs to a known client of an organization of its program, is REVERSED exactly when
      one REVERSAL relates to it, and if it is a REVERSAL it undoes an earlier entry of its owner. */
  ghost predicate LedgerRow(w: World, t: nat)
    requires t < |w.ledger|
  {
    var tx := w.ledger[t];
    && tx.owner in w.states && tx.createdAt <= w.now
    && tx.owner.org in w.orgs && w.orgs[tx.owner.org].loyalty == Family(tx.kind)
    && tx.status in {COMPLETED, REVERSED}
    && (tx.status == REVERSED ==> Reversible(tx.kind))
    && Sum(w.ledger, Reversing(t)) == (if tx.status == REVERSED then 1 else 0)
    && (tx.kind.Reversal? ==>
          && tx.kind.original < t
          && w.ledger[tx.kind.original].owner == tx.owner
          && Undoes(tx.kind.effect, w.ledger[tx.kind.original].kind))
  }

  ghost predicate LedgerInv(w: World) {
    forall t :: 0 <= t < |w.ledger| ==> LedgerRow(w, t)
  }

  /** The ledger only grows, and of an old entry only the status changes, from COMPLETED to REVERSED. */
  ghost predicate Grown(ledger: seq<Transaction>, later: seq<Transaction>) {
    && |ledger| <= |later|
    && forall t :: 0 <= t < |ledger| ==>
         later[t] == ledger[t]
         || (ledger[t].status == COMPLETED && later[t] == ledger[t].(status := REVERSED))
  }

  /** Organizations with transactions keep their program type, and aggregate rows stay. */
  ghost predicate SameGround(w: World, u: World) {
    && w.now <= u.now && w.states.Keys <= u.states.Keys
    && (forall org :: HasTransactions(w.ledger, org) && org in w.orgs ==>
          org in u.orgs && u.orgs[org].loyalty == w.orgs[org].loyalty)
  }

  lemma NoReversalOf(w: World, k: nat)
    requires LedgerInv(w) && k >= |w.ledger|
    ensures Sum(w.ledger, Reversing(k)) == 0
  {
    forall t | 0 <= t < |w.ledger| ensures Reversing(k)(w.ledger[t]) == 0 { assert LedgerRow(w, t); }
    SumConst(w.ledger, Reversing(k), 0);
  }

  lemma OrgOfEntry(w: World, t: nat)
    requires t < |w.ledger|
    ensures HasTransactions(w.ledger, w.ledger[t].owner.org)
  {
  }

  /** Appending entries that reverse nothing. */
  lemma AppendKeeps(w: World, u: World)
    requires LedgerInv(w) && SameGround(w, u)
    requires |w.ledger| <= |u.ledger| && u.ledger[..|w.ledger|] == w.ledger
    requires forall t {:trigger u.ledger[t]} :: |w.ledger| <= t < |u.ledger| ==>
      var tx := u.ledger[t];
      && !tx.kind.Reversal? && tx.status == COMPLETED && tx.createdAt <= u.now && tx.owner in u.states
      && tx.owner.org in u.orgs && u.orgs[tx.owner.org].loyalty == Family(tx.kind)
    ensures LedgerInv(u)
  {
    hide Sum;
    assert forall t :: 0 <= t < |w.ledger| ==> u.ledger[t] == u.ledger[..|w.ledger|][t];
    forall t | 0 <= t < |u.ledger| ensures LedgerRow(u, t) {
      SumFrame(w.ledger, u.ledger, Reversing(t));
      if t < |w.ledger| {
        assert LedgerRow(w, t);
        OrgOfEntry(w, t);
      } else {
        NoReversalOf(w, t);
      }
    }
  }

  /** Booking a reversal. */
  lemma BookKeeps(w: World, u: World, t: nat, effect: Effect, state: State)
    requires LedgerInv(w) && t < |w.ledger|
    requires u.ledger == Book(w, t, effect, state).ledger && u.states == Book(w, t, effect, state).states
    requires u.orgs == w.orgs && u.now == w.now
    requires w.ledger[t].status == COMPLETED && Reversible(w.ledger[t].kind) && Undoes(effect, w.ledger[t].kind)
    ensures LedgerInv(u)
  {
    hide Sum;
    var marked := w.ledger[t].(status := REVERSED);
    var entry := u.ledger[|w.ledger|];
    assert LedgerRow(w, t);
    forall s | 0 <= s < |u.ledger| ensures LedgerRow(u, s) {
      SumBooked(w.ledger, t, marked, entry, Reversing(s));
      if s < |w.ledger| {
        assert LedgerRow(w, s);
      } else {
        NoReversalOf(w, s);
      }
    }
  }

  // ---- requests ----

  /** The request an entry was written for. */
  function RequestOf(k: TransactionKind): Option<nat> {
    match k
    case GiftRedeem(_, r) => Some(r)
    case CashbackSpend(_, _, _, r) => Some(r)
    case CashbackEarn(_, _, _, r) => r
    case _ => None
  }

  /** The amounts fixed when the request was made, under the program of that moment. */
  predicate FairPurchase(purchase: Purchase, earn: int) {
    && 0 < purchase.spend && 0 <= purchase.cashPaid && purchase.spend + purchase.cashPaid == purchase.total
    && purchase.spend <= ApplyBps(purchase.total, purchase.program.maxSpend)
    && earn == ApplyBps(purchase.cashPaid, purchase.program.rate)
  }

  /** What a CONFIRMED request owns: one redemption of its gift, or its spend and, if it earns, its earning. */
  ghost predicate Outcome(w: World, r: nat)
    requires r < |w.requests|
  {
    var req := w.requests[r];
    && (forall k :: 0 <= k < |req.result| ==>
          req.result[k] < |w.ledger| && w.ledger[req.result[k]].owner == req.owner)
    && match req.kind
       case GiftRequest(g) =>
         |req.result| == 1 && w.ledger[req.result[0]].kind == GiftRedeem(g, r)
       case CashbackRequest(purchase, earn) =>
         && |req.result| == (if earn > 0 then 2 else 1)
         && (var k := w.ledger[req.result[0]].kind;
             k.CashbackSpend? && k.spent == purchase.spend && k.spendPurchase == purchase && k.spendRequest == r)
         && (earn > 0 ==>
               var k := w.ledger[req.result[1]].kind;
               k.CashbackEarn? && k.earned == earn && k.purchase == purchase && k.earnRequest == Some(r))
  }

  /** Only a CONFIRMED request owns entries, and its result lists exactly those it owns. Its organization
      runs the program it was made for. */
  ghost predicate RequestRow(w: World, r: nat)
    requires r < |w.requests|
  {
    var req := w.requests[r];
    && req.owner.org in w.orgs && HasTransactions(w.ledger, req.owner.org)
    && w.orgs[req.owner.org].loyalty == (if req.kind.GiftRequest? then VISIT else CASHBACK)
    && (req.kind.CashbackRequest? ==> FairPurchase(req.kind.purchase, req.kind.earn))
    && (forall t :: 0 <= t < |w.ledger| ==> (RequestOf(w.ledger[t].kind) == Some(r) <==> t in req.result))
    && (if req.status == CONFIRMED then Outcome(w, r) else req.result == [])
  }

  ghost predicate EntryRequest(w: World, t: nat)
    requires t < |w.ledger|
  {
    var r := RequestOf(w.ledger[t].kind);
    r.Some? ==> r.value < |w.requests|
  }

  ghost predicate RequestInv(w: World) {
    && (forall r :: 0 <= r < |w.requests| ==> RequestRow(w, r))
    && (forall t :: 0 <= t < |w.ledger| ==> EntryRequest(w, t))
  }

  lemma GrownHasTransactions(ledger: seq<Transaction>, later: seq<Transaction>, org: nat)
    requires Grown(ledger, later) && HasTransactions(ledger, org)
    ensures HasTransactions(later, org)
  {
    var t :| 0 <= t < |ledger| && ledger[t].owner.org == org;
    assert later[t].owner.org == org;
  }

  /** A request that is not touched, when nothing new is written for it. */
  lemma RequestStands(w: World, u: World, r: nat)
    requires RequestInv(w) && SameGround(w, u) && Grown(w.ledger, u.ledger)
    requires r < |w.requests| && r < |u.requests| && u.requests[r] == w.requests[r]
    requires forall t :: |w.ledger| <= t < |u.ledger| ==> RequestOf(u.ledger[t].kind) != Some(r)
    ensures RequestRow(u, r)
  {
    assert RequestRow(w, r);
    var req := w.requests[r];
    GrownHasTransactions(w.ledger, u.ledger, req.owner.org);
    if req.status == CONFIRMED {
      assert Outcome(w, r);
      assert Outcome(u, r);
    }
  }

  lemma RequestFrame(w: World, u: World)
    requires RequestInv(w) && SameGround(w, u) && Grown(w.ledger, u.ledger)
    requires u.requests == w.requests
    requires forall t :: |w.ledger| <= t < |u.ledger| ==> RequestOf(u.ledger[t].kind) == None
    ensures RequestInv(u)
  {
    forall r | 0 <= r < |u.requests| ensures RequestRow(u, r) { RequestStands(w, u, r); }
    forall t | 0 <= t < |u.ledger| ensures EntryRequest(u, t) {
      if t < |w.ledger| { assert EntryRequest(w, t); }
    }
  }

  /** A new request owns nothing yet. */
  lemma AskKeeps(w: World, u: World, req: Request)
    requires RequestInv(w) && u.ledger == w.ledger && u.orgs == w.orgs && u.states == w.states && u.now == w.now
    requires u.requests == w.requests + [req] && req.status == PENDING && req.result == []
    requires req.owner.org in w.orgs && HasTransactions(w.ledger, req.owner.org)
    requires w.orgs[req.owner.org].loyalty == (if req.kind.GiftRequest? then VISIT else CASHBACK)
    requires req.kind.CashbackRequest? ==> FairPurchase(req.kind.purchase, req.kind.earn)
    ensures RequestInv(u)
  {
    var n := |w.requests|;
    forall t | 0 <= t < |u.ledger| ensures EntryRequest(u, t) { assert EntryRequest(w, t); }
    forall r | 0 <= r < |u.requests| ensures RequestRow(u, r) {
      if r < n {
        RequestStands(w, u, r);
      } else {
        forall t | 0 <= t < |u.ledger| ensures RequestOf(u.ledger[t].kind) != Some(r) {
          assert EntryRequest(w, t);
        }
      }
    }
  }

  lemma CloseKeepsRequests(w: World, r: nat, status: RequestStatus)
    requires RequestInv(w) && r < |w.requests| && w.requests[r].status == PENDING
    requires status != CONFIRMED
    ensures RequestInv(Close(w, r, status))
  {
    var u := Close(w, r, status);
    forall t | 0 <= t < |u.ledger| ensures EntryRequest(u, t) { assert EntryRequest(w, t); }
    forall s | 0 <= s < |u.requests| ensures RequestRow(u, s) {
      assert RequestRow(w, s);
      if s != r { RequestStands(w, u, s); }
    }
  }

  /** A confirm writes the request's entries and lists them. */
  lemma SettleKeeps(w: World, v: World, r: nat)
    requires RequestInv(w) && SameGround(w, v) && Grown(w.ledger, v.ledger)
    requires r < |w.requests| && w.requests[r].status == PENDING && v.requests == w.requests && v.orgs == w.orgs
    requires forall t :: |w.ledger| <= t < |v.ledger| ==> RequestOf(v.ledger[t].kind) == Some(r)
    requires Outcome(Settle(v, r, |w.ledger|), r)
    ensures RequestInv(Settle(v, r, |w.ledger|))
  {
    var u := Settle(v, r, |w.ledger|);
    assert RequestRow(w, r);
    forall t | 0 <= t < |u.ledger| ensures EntryRequest(u, t) {
      if t < |w.ledger| { assert EntryRequest(w, t); }
    }
    forall s | 0 <= s < |u.requests| ensures RequestRow(u, s) {
      if s != r {
        RequestStands(w, u, s);
      } else {
        GrownHasTransactions(w.ledger, u.ledger, w.requests[r].owner.org);
        var result := u.requests[r].result;
        forall t | 0 <= t < |u.ledger| ensures RequestOf(u.ledger[t].kind) == Some(r) <==> t in result {
          if t >= |w.ledger| {
            assert result[t - |w.ledger|] == t;
          }
        }
      }
    }
  }
}
