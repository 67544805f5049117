/** The visit and gift invariant: every gift against its visit, its requests and its redemptions,
    every aggregate against the gifts and the ledger. */
module GiftLaws {
  import opened Rows
  import opened Sums
  import opened Accounts

  /** A gift is held by exactly one PENDING request or none, used by exactly one COMPLETED redemption
      or none, and cancelled together with its visit. */
  ghost predicate GiftRow(w: World, g: nat)
    requires g < |w.gifts|
  {
    var gift := w.gifts[g];
    && gift.visit < |w.ledger|
    && (var tx := w.ledger[gift.visit];
        && tx.owner == gift.owner && tx.kind.VisitEarn? && g in tx.kind.gifts
        && (gift.status == CANCELLED <==> tx.status == REVERSED))
    && Sum(w.requests, Naming(g)) == (if gift.status == PENDING_REDEMPTION then 1 else 0)
    && Sum(w.ledger, Redeeming(g)) == (if gift.status == USED then 1 else 0)
    && (gift.status == USED <==> gift.redeemTx.Some?)
    && (gift.status == USED <==> gift.usedAt.Some?)
    && (gift.usedAt.Some? ==> gift.usedAt.value <= w.now)
    && (gift.redeemTx.Some? ==>
          && gift.redeemTx.value < |w.ledger|
          && Redeeming(g)(w.ledger[gift.redeemTx.value]) == 1)
  }

  ghost predicate GiftEntry(w: World, t: nat)
    requires t < |w.ledger|
  {
    var tx := w.ledger[t];
    match tx.kind
    case VisitEarn(target, _, _, _, gifts) =>
      && target >= 1
      && (forall k :: 0 <= k < |gifts| ==> gifts[k] < |w.gifts| && w.gifts[gifts[k]].visit == t)
      && (forall j, k :: 0 <= j < k < |gifts| ==> gifts[j] != gifts[k])
    case GiftRedeem(g, _) => g < |w.gifts| && w.gifts[g].owner == tx.owner
    case GiftCreated(g, _) => g < |w.gifts| && w.gifts[g].owner == tx.owner
    case _ => true
  }

  ghost predicate GiftAsked(w: World, r: nat)
    requires r < |w.requests|
  {
    var req := w.requests[r];
    req.kind.GiftRequest? ==> req.kind.gift < |w.gifts| && w.gifts[req.kind.gift].owner == req.owner
  }

  /** The counters of `p` against the gifts and the ledger. Progress and the targets of standing
      threshold visits together lie between the standing visits and all visits ever. */
  ghost predicate VisitBalance(w: World, p: Owner) {
    var a := StateOf(w, p);
    && a.totalVisits == Sum(w.ledger, VisitsBy(p))
    && a.availableGifts == Sum(w.gifts, HeldBy(p))
    && a.giftsEarned == Sum(w.gifts, KeptBy(p))
    && a.giftsUsed == Sum(w.gifts, UsedBy(p))
    && a.progress >= 0
    && a.totalVisits <= a.progress + Sum(w.ledger, OpenTargets(p)) <= Sum(w.ledger, VisitsEver(p))
  }

  ghost predicate GiftInv(w: World) {
    && (forall g :: 0 <= g < |w.gifts| ==> GiftRow(w, g))
    && (forall t :: 0 <= t < |w.ledger| ==> GiftEntry(w, t))
    && (forall r :: 0 <= r < |w.requests| ==> GiftAsked(w, r))
    && (forall p :: VisitBalance(w, p))
  }

  // ---- consequences ----

  /** What is held and what is used make up what was earned. */
  lemma HeldPlusUsed(w: World, p: Owner)
    requires GiftInv(w)
    ensures StateOf(w, p).availableGifts + StateOf(w, p).giftsUsed == StateOf(w, p).giftsEarned
  {
    assert VisitBalance(w, p);
    SumSplit(w.gifts, KeptBy(p), HeldBy(p), UsedBy(p));
  }

  lemma CountersCover(w: World, p: Owner)
    requires GiftInv(w)
    ensures var a := StateOf(w, p);
            a.totalVisits >= 0 && a.availableGifts >= 0 && a.giftsEarned >= 0 && a.giftsUsed >= 0
    ensures forall t :: 0 <= t < |w.ledger| ==> VisitsBy(p)(w.ledger[t]) <= StateOf(w, p).totalVisits
    ensures forall g :: 0 <= g < |w.gifts| ==> HeldBy(p)(w.gifts[g]) <= StateOf(w, p).availableGifts
    ensures forall g :: 0 <= g < |w.gifts| ==> UsedBy(p)(w.gifts[g]) <= StateOf(w, p).giftsUsed
  {
    assert VisitBalance(w, p);
    SumNonNegative(w.ledger, VisitsBy(p));
    SumNonNegative(w.gifts, HeldBy(p));
    SumNonNegative(w.gifts, KeptBy(p));
    SumNonNegative(w.gifts, UsedBy(p));
    forall t | 0 <= t < |w.ledger| ensures VisitsBy(p)(w.ledger[t]) <= StateOf(w, p).totalVisits {
      SumAtLeast(w.ledger, VisitsBy(p), t);
    }
    forall g | 0 <= g < |w.gifts|
      ensures HeldBy(p)(w.gifts[g]) <= StateOf(w, p).availableGifts
      ensures UsedBy(p)(w.gifts[g]) <= StateOf(w, p).giftsUsed
    {
      SumAtLeast(w.gifts, HeldBy(p), g);
      SumAtLeast(w.gifts, UsedBy(p), g);
    }
  }

  /** A gift that a PENDING request names is PENDING_REDEMPTION. */
  lemma PendingHolds(w: World, r: nat)
    requires GiftInv(w) && r < |w.requests|
    requires w.requests[r].status == PENDING && w.requests[r].kind.GiftRequest?
    ensures var g := w.requests[r].kind.gift;
            g < |w.gifts| && w.gifts[g].owner == w.requests[r].owner && w.gifts[g].status == PENDING_REDEMPTION
  {
    var g := w.requests[r].kind.gift;
    assert GiftAsked(w, r) && GiftRow(w, g);
    SumAtLeast(w.requests, Naming(g), r);
  }

  /** No request or redemption names a gift that does not exist yet. */
  lemma UnusedGift(w: World, g: nat)
    requires GiftInv(w) && g >= |w.gifts|
    ensures Sum(w.requests, Naming(g)) == 0 && Sum(w.ledger, Redeeming(g)) == 0
  {
    forall r | 0 <= r < |w.requests| ensures Naming(g)(w.requests[r]) == 0 { assert GiftAsked(w, r); }
    forall t | 0 <= t < |w.ledger| ensures Redeeming(g)(w.ledger[t]) == 0 { assert GiftEntry(w, t); }
    SumConst(w.requests, Naming(g), 0);
    SumConst(w.ledger, Redeeming(g), 0);
  }

  // ---- operations that leave the gift side alone ----

  predicate GiftNeutral(k: TransactionKind) {
    k.CashbackEarn? || k.CashbackSpend? || k.CashbackExpire? || k.Reversal?
  }

  ghost predicate GiftSame(w: World, u: World) {
    && u.gifts == w.gifts && w.now <= u.now
    && |w.ledger| <= |u.ledger| && |w.requests| <= |u.requests|
    && (forall t :: 0 <= t < |w.ledger| ==>
          u.ledger[t] == w.ledger[t] || (GiftNeutral(w.ledger[t].kind) && GiftNeutral(u.ledger[t].kind)))
    && (forall t :: |w.ledger| <= t < |u.ledger| ==> GiftNeutral(u.ledger[t].kind))
    && (forall r :: 0 <= r < |w.requests| ==>
          u.requests[r] == w.requests[r]
          || (w.requests[r].kind.CashbackRequest? && u.requests[r].kind.CashbackRequest?))
    && (forall r :: |w.requests| <= r < |u.requests| ==> u.requests[r].kind.CashbackRequest?)
    && (forall p :: var a, b := StateOf(w, p), StateOf(u, p);
          && a.progress == b.progress && a.totalVisits == b.totalVisits && a.availableGifts == b.availableGifts
          && a.giftsEarned == b.giftsEarned && a.giftsUsed == b.giftsUsed)
  }

  lemma GiftFrame(w: World, u: World)
    requires GiftInv(w) && GiftSame(w, u)
    ensures GiftInv(u)
  {
    hide Sum;
    forall g | 0 <= g < |u.gifts| ensures GiftRow(u, g) {
      assert GiftRow(w, g);
      SumFrame(w.requests, u.requests, Naming(g));
      SumFrame(w.ledger, u.ledger, Redeeming(g));
    }
    forall t | 0 <= t < |u.ledger| ensures GiftEntry(u, t) {
      if t < |w.ledger| { assert GiftEntry(w, t); }
    }
    forall r | 0 <= r < |u.requests| ensures GiftAsked(u, r) {
      if r < |w.requests| { assert GiftAsked(w, r); }
    }
    forall p ensures VisitBalance(u, p) {
      assert VisitBalance(w, p);
      SumFrame(w.ledger, u.ledger, VisitsBy(p));
      SumFrame(w.ledger, u.ledger, OpenTargets(p));
      SumFrame(w.ledger, u.ledger, VisitsEver(p));
    }
  }
}
