/** What a reversal does to the tables (app/apps/loyalty/services/reversal.py). */
module Reversals {
  import opened Rows
  import opened Sums

  /** The compensating entry is written and the original marked REVERSED. */
  function Book(w: World, t: nat, effect: Effect, state: State): World
    requires t < |w.ledger|
  {
    var tx := w.ledger[t];
    w.(ledger := w.ledger[t := tx.(status := REVERSED)]
                 + [Transaction(tx.owner, Reversal(t, effect), COMPLETED, w.now)],
       states := w.states[tx.owner := state])
  }

  // ---- visits ----

  /** `x` after `n` rounds of `max(0, x - 1)`. */
  function Lower(x: int, n: nat): int {
    if n == 0 then x else Max(0, x - n)
  }

  predicate Blocks(gifts: seq<Gift>, g: nat) {
    g < |gifts| && gifts[g].status in {USED, PENDING_REDEMPTION}
  }

  /** The gift rows after every AVAILABLE one in `ids` is cancelled. */
  function CancelGifts(gifts: seq<Gift>, ids: seq<nat>): (r: seq<Gift>)
    ensures |r| == |gifts|
  {
    if ids == [] then gifts
    else
      var g, done := ids[|ids| - 1], CancelGifts(gifts, ids[..|ids| - 1]);
      if g < |gifts| && done[g].status == AVAILABLE then done[g := done[g].(status := CANCELLED)] else done
  }

  /** The ids that CancelGifts cancels, in order. */
  function CancelledOf(gifts: seq<Gift>, ids: seq<nat>): seq<nat> {
    if ids == [] then []
    else
      var g, init := ids[|ids| - 1], ids[..|ids| - 1];
      CancelledOf(gifts, init)
      + if g < |gifts| && CancelGifts(gifts, init)[g].status == AVAILABLE then [g] else []
  }

  /** _reverse_visit. */
  function UndoVisit(w: World, t: nat): Result<World>
    requires t < |w.ledger| && w.ledger[t].kind.VisitEarn?
  {
    var k, a := w.ledger[t].kind, StateOf(w, w.ledger[t].owner);
    if exists i :: 0 <= i < |k.gifts| && Blocks(w.gifts, k.gifts[i]) then Err(OperationNotReversible)
    else
      var cancelled := CancelledOf(w.gifts, k.gifts);
      var progress := Max(0, if cancelled != [] && k.target != 0 then a.progress + k.target - 1
                             else a.progress - 1);
      Ok(Book(w.(gifts := CancelGifts(w.gifts, k.gifts)), t, VisitUndone(cancelled, progress),
              a.(progress := progress, totalVisits := Max(0, a.totalVisits - 1),
                 availableGifts := Lower(a.availableGifts, |cancelled|),
                 giftsEarned := Lower(a.giftsEarned, |cancelled|))))
  }

  // ---- cashback ----

  /** _reverse_cashback_earn. */
  function UndoEarn(w: World, t: nat, force: bool): Result<World>
    requires t < |w.ledger| && w.ledger[t].kind.CashbackEarn?
  {
    var k, a := w.ledger[t].kind, StateOf(w, w.ledger[t].owner);
    if k.lot.None? || k.lot.value >= |w.lots| then Err(OperationNotReversible)
    else
      var i, l := k.lot.value, w.lots[k.lot.value];
      var spentPart := l.original - l.remaining;
      if spentPart > 0 && !force then Err(OperationNotReversible)
      else
        Ok(Book(w.(lots := w.lots[i := l.(remaining := 0, status := WITHDRAWN)]), t,
                EarnUndone(i, l.remaining, spentPart),
                a.(available := Max(0, a.available - l.remaining), earned := Max(0, a.earned - k.earned))))
  }

  /** A lot that a reversed spend can still be returned to. */
  predicate Restorable(l: Lot, now: int) {
    l.expiresAt > now && l.status != BURNED && l.status != WITHDRAWN
  }

  datatype Returned = Returned(lots: seq<Lot>, restored: int, lost: int)

  /** The lot rows after the entries of `consumed` are given back, and what was and was not. */
  function GiveBack(lots: seq<Lot>, consumed: seq<Consumed>, now: int): (r: Returned)
    ensures |r.lots| == |lots|
  {
    if consumed == [] then Returned(lots, 0, 0)
    else
      var done, e := GiveBack(lots, consumed[..|consumed| - 1], now), consumed[|consumed| - 1];
      if e.lot >= |lots| || e.amount <= 0 then done
      else
        var l := done.lots[e.lot];
        if !Restorable(l, now) then done.(lost := done.lost + e.amount)
        else
          done.(lots := done.lots[e.lot := l.(remaining := l.remaining + e.amount, status := ACTIVE)],
                restored := done.restored + e.amount)
  }

  /** _reverse_cashback_spend. */
  function UndoSpend(w: World, t: nat): Result<World>
    requires t < |w.ledger| && w.ledger[t].kind.CashbackSpend?
  {
    var k, a := w.ledger[t].kind, StateOf(w, w.ledger[t].owner);
    if k.consumed == [] then Err(OperationNotReversible)
    else
      var back := GiveBack(w.lots, k.consumed, w.now);
      Ok(Book(w.(lots := back.lots), t, SpendUndone(back.restored, back.lost),
              a.(available := a.available + back.restored, spent := Max(0, a.spent - k.spent))))
  }

  // ---- gifts ----

  /** _reverse_gift_redeem. */
  function UndoRedeem(w: World, t: nat): Result<World>
    requires t < |w.ledger| && w.ledger[t].kind.GiftRedeem?
  {
    var g, a := w.ledger[t].kind.gift, StateOf(w, w.ledger[t].owner);
    if g >= |w.gifts| || w.gifts[g].status != USED then Err(OperationNotReversible)
    else
      Ok(Book(w.(gifts := w.gifts[g := w.gifts[g].(status := AVAILABLE, redeemTx := None, usedAt := None)]),
              t, RedeemUndone(g),
              a.(availableGifts := a.availableGifts + 1, giftsUsed := Max(0, a.giftsUsed - 1))))
  }

  /** reverse_transaction; `scope` is the caller's organization, None for a director. */
  function Reverse(w: World, t: nat, scope: Option<nat>, force: bool, reasonGiven: bool): Result<World> {
    if !reasonGiven then Err(ValidationError)
    else if t >= |w.ledger| then Err(TransactionNotFound)
    else if scope.Some? && w.ledger[t].owner.org != scope.value then Err(TransactionNotFound)
    else if w.ledger[t].status != COMPLETED then Err(OperationNotReversible)
    else
      match w.ledger[t].kind
      case VisitEarn(_, _, _, _, _) => UndoVisit(w, t)
      case CashbackEarn(_, _, _, _) => UndoEarn(w, t, force)
      case CashbackSpend(_, _, _, _) => UndoSpend(w, t)
      case GiftRedeem(_, _) => UndoRedeem(w, t)
      case _ => Err(OperationNotReversible)
  }
}
