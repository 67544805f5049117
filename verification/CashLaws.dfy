/** The cashback invariant: every lot against its source and its spends, every aggregate against
    the lots and the ledger. */
module CashLaws {
  import opened Rows
  import opened Sums
  import opened Accounts

  ghost predicate Distinct(consumed: seq<Consumed>) {
    forall j, k :: 0 <= j < k < |consumed| ==> consumed[j].lot != consumed[k].lot
  }

  /** A lot is ACTIVE exactly while it has something left, belongs to one earning, and has lost to
      COMPLETED spends at most what is missing from it, and all of it while it can be returned to. */
  ghost predicate LotRow(w: World, i: nat)
    requires i < |w.lots|
  {
    var l := w.lots[i];
    && 0 < l.original && 0 <= l.remaining <= l.original
    && (l.remaining > 0 <==> l.status == ACTIVE)
    && l.source < |w.ledger|
    && (var tx := w.ledger[l.source];
        && tx.owner == l.owner && tx.kind.CashbackEarn?
        && tx.kind.lot == Some(i) && tx.kind.earned == l.original
        && (l.status == WITHDRAWN <==> tx.status == REVERSED))
    && (l.status == BURNED ==> l.expiresAt <= w.now)
    && LiveUse(w.ledger, i) <= l.original - l.remaining
    && (l.status in {ACTIVE, SPENT} && w.now < l.expiresAt ==>
          LiveUse(w.ledger, i) == l.original - l.remaining)
  }

  ghost predicate CashEntry(w: World, t: nat)
    requires t < |w.ledger|
  {
    var tx := w.ledger[t];
    match tx.kind
    case CashbackEarn(amount, lot, _, _) =>
      amount > 0 && lot.Some? && lot.value < |w.lots| && w.lots[lot.value].source == t
    case CashbackSpend(amount, consumed, _, _) =>
      && amount > 0 && Sum(consumed, EntryAmount()) == amount && Distinct(consumed)
      && (forall k :: 0 <= k < |consumed| ==>
            && consumed[k].amount > 0 && consumed[k].lot < |w.lots|
            && w.lots[consumed[k].lot].owner == tx.owner)
    case CashbackExpire(amount, lot) =>
      amount > 0 && lot < |w.lots| && w.lots[lot].owner == tx.owner && tx.status == COMPLETED
    case _ => true
  }

  /** The aggregate of `p` against its ACTIVE lots, the replayed ledger and the ledger's sums. */
  ghost predicate CashBalance(w: World, p: Owner) {
    var a := StateOf(w, p);
    && a.available == Sum(w.lots, ActiveValue(p))
    && a.available == Sum(w.ledger, Signed(p))
    && a.earned == Sum(w.ledger, EarnedBy(p))
    && a.spent == Sum(w.ledger, SpentBy(p))
    && a.expired == Sum(w.ledger, BurnedBy(p))
    && a.earned - a.spent - a.expired
       == a.available - Sum(w.ledger, UnrecoverableOf(p)) + Sum(w.ledger, LostOf(p))
  }

  ghost predicate CashInv(w: World) {
    && (forall i :: 0 <= i < |w.lots| ==> LotRow(w, i))
    && (forall t :: 0 <= t < |w.ledger| ==> CashEntry(w, t))
    && (forall p :: CashBalance(w, p))
  }

  // ---- consequences ----

  lemma TakenFromNonNegative(consumed: seq<Consumed>, i: nat)
    requires forall k :: 0 <= k < |consumed| ==> consumed[k].amount > 0
    ensures TakenFrom(consumed, i) >= 0
  {
    SumNonNegative(consumed, EntryOn(i));
  }

  lemma UseNonNegative(w: World, i: nat)
    requires CashInv(w)
    ensures forall t :: 0 <= t < |w.ledger| ==> UseOn(i)(w.ledger[t]) >= 0
  {
    forall t | 0 <= t < |w.ledger| ensures UseOn(i)(w.ledger[t]) >= 0 {
      assert CashEntry(w, t);
      if w.ledger[t].kind.CashbackSpend? {
        TakenFromNonNegative(w.ledger[t].kind.consumed, i);
      }
    }
  }

  /** A completed spend's take is part of the lot's live use. */
  lemma UseCoversEntry(w: World, t: nat, i: nat)
    requires CashInv(w) && t < |w.ledger|
    ensures UseOn(i)(w.ledger[t]) <= LiveUse(w.ledger, i)
  {
    UseNonNegative(w, i);
    SumAtLeast(w.ledger, UseOn(i), t);
  }

  /** No spend names a lot that does not exist yet. */
  lemma UnusedLot(w: World)
    requires CashInv(w)
    ensures LiveUse(w.ledger, |w.lots|) == 0
  {
    var n := |w.lots|;
    forall t | 0 <= t < |w.ledger| ensures UseOn(n)(w.ledger[t]) == 0 {
      assert CashEntry(w, t);
      if w.ledger[t].kind.CashbackSpend? {
        SumConst(w.ledger[t].kind.consumed, EntryOn(n), 0);
      }
    }
    SumConst(w.ledger, UseOn(n), 0);
  }

  /** The balances are never negative and cover each lot, each earning and each spend they contain. */
  lemma BalanceCovers(w: World, p: Owner)
    requires CashInv(w)
    ensures var a := StateOf(w, p);
            a.available >= 0 && a.earned >= 0 && a.spent >= 0 && a.expired >= 0
    ensures forall i :: 0 <= i < |w.lots| ==> ActiveValue(p)(w.lots[i]) <= StateOf(w, p).available
    ensures forall t :: 0 <= t < |w.ledger| ==> EarnedBy(p)(w.ledger[t]) <= StateOf(w, p).earned
    ensures forall t :: 0 <= t < |w.ledger| ==> SpentBy(p)(w.ledger[t]) <= StateOf(w, p).spent
  {
    assert CashBalance(w, p);
    forall i | 0 <= i < |w.lots| ensures ActiveValue(p)(w.lots[i]) >= 0 { assert LotRow(w, i); }
    forall t | 0 <= t < |w.ledger|
      ensures EarnedBy(p)(w.ledger[t]) >= 0 && SpentBy(p)(w.ledger[t]) >= 0 && BurnedBy(p)(w.ledger[t]) >= 0
    {
      assert CashEntry(w, t);
    }
    SumNonNegative(w.lots, ActiveValue(p));
    SumNonNegative(w.ledger, EarnedBy(p));
    SumNonNegative(w.ledger, SpentBy(p));
    SumNonNegative(w.ledger, BurnedBy(p));
    forall i | 0 <= i < |w.lots| ensures ActiveValue(p)(w.lots[i]) <= StateOf(w, p).available {
      SumAtLeast(w.lots, ActiveValue(p), i);
    }
    forall t | 0 <= t < |w.ledger|
      ensures EarnedBy(p)(w.ledger[t]) <= StateOf(w, p).earned && SpentBy(p)(w.ledger[t]) <= StateOf(w, p).spent
    {
      SumAtLeast(w.ledger, EarnedBy(p), t);
      SumAtLeast(w.ledger, SpentBy(p), t);
    }
  }

  // ---- operations that leave the cashback side alone ----

  predicate Neutral(k: TransactionKind) {
    !k.CashbackEarn? && !k.CashbackSpend? && !k.CashbackExpire?
    && (k.Reversal? ==> k.effect.VisitUndone? || k.effect.RedeemUndone?)
  }

  ghost predicate CashSame(w: World, u: World) {
    && u.lots == w.lots && w.now <= u.now && |w.ledger| <= |u.ledger|
    && (forall t :: 0 <= t < |w.ledger| ==>
          u.ledger[t] == w.ledger[t] || (Neutral(w.ledger[t].kind) && Neutral(u.ledger[t].kind)))
    && (forall t :: |w.ledger| <= t < |u.ledger| ==> Neutral(u.ledger[t].kind))
    && (forall p :: var a, b := StateOf(w, p), StateOf(u, p);
          a.available == b.available && a.earned == b.earned && a.spent == b.spent && a.expired == b.expired)
  }

  lemma CashFrame(w: World, u: World)
    requires CashInv(w) && CashSame(w, u)
    ensures CashInv(u)
  {
    hide Sum;
    forall i | 0 <= i < |u.lots| ensures LotRow(u, i) {
      assert LotRow(w, i);
      SumFrame(w.ledger, u.ledger, UseOn(i));
    }
    forall t | 0 <= t < |u.ledger| ensures CashEntry(u, t) {
      if t < |w.ledger| { assert CashEntry(w, t); }
    }
    forall p ensures CashBalance(u, p) {
      assert CashBalance(w, p);
      SumFrame(w.ledger, u.ledger, Signed(p));
      SumFrame(w.ledger, u.ledger, EarnedBy(p));
      SumFrame(w.ledger, u.ledger, SpentBy(p));
      SumFrame(w.ledger, u.ledger, BurnedBy(p));
      SumFrame(w.ledger, u.ledger, UnrecoverableOf(p));
      SumFrame(w.ledger, u.ledger, LostOf(p));
    }
  }
}
