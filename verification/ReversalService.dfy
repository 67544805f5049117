/** The reversal service (app/apps/loyalty/services/reversal.py). The handlers work inside reverse_transaction's
    atomic block: what they wrote before raising is undone there. */
module ReversalService {
  import opened Rows
  import opened Sums
  import opened Store
  import opened Reversals
  import opened GiftSteps

  /** Cancelling other gifts neither blocks nor unblocks one. */
  lemma BlocksStays(gifts: seq<Gift>, ids: seq<nat>, g: nat)
    ensures Blocks(CancelGifts(gifts, ids), g) <==> Blocks(gifts, g)
  {
    CancelPerGift(gifts, ids);
  }

  /** The gift loop: it raises at the first gift that is used or asked for. */
  method CancelAvailable(db: Database, ids: seq<nat>, state: StateRow) returns (r: Result<seq<nat>>)
    modifies db`gifts, state`availableGifts, state`giftsEarned
    ensures if exists k :: 0 <= k < |ids| && Blocks(old(db.gifts), ids[k]) then r == Err(OperationNotReversible)
            else
              && r == Ok(CancelledOf(old(db.gifts), ids)) && db.gifts == CancelGifts(old(db.gifts), ids)
              && state.availableGifts == Lower(old(state.availableGifts), |r.value|)
              && state.giftsEarned == Lower(old(state.giftsEarned), |r.value|)
  {
    ghost var gifts := db.gifts;
    var cancelled := [];
    for k := 0 to |ids|
      invariant db.gifts == CancelGifts(gifts, ids[..k])
      invariant cancelled == CancelledOf(gifts, ids[..k])
      invariant forall j :: 0 <= j < k ==> !Blocks(gifts, ids[j])
      invariant state.availableGifts == Lower(old(state.availableGifts), |cancelled|)
      invariant state.giftsEarned == Lower(old(state.giftsEarned), |cancelled|)
    {
      assert ids[..k + 1][..k] == ids[..k];
      BlocksStays(gifts, ids[..k], ids[k]);
      var g := ids[k];
      if g < |db.gifts| {
        if db.gifts[g].status in {USED, PENDING_REDEMPTION} { return Err(OperationNotReversible); }
        if db.gifts[g].status == AVAILABLE {
          db.gifts := db.gifts[g := db.gifts[g].(status := CANCELLED)];
          cancelled := cancelled + [g];
          state.availableGifts := Max(0, state.availableGifts - 1);
          state.giftsEarned := Max(0, state.giftsEarned - 1);
        }
      }
    }
    assert ids[..|ids|] == ids;
    r := Ok(cancelled);
  }

  /** A handler hands back what the compensating entry records. */
  method ReverseVisit(db: Database, t: nat, state: StateRow) returns (r: Result<Effect>)
    requires t < |db.ledger| && db.ledger[t].kind.VisitEarn? && db.ledger[t].owner == state.owner
    requires state.Value() == StateOf(db.Tables(), state.owner)
    modifies db`gifts, state
    ensures match UndoVisit(old(db.Tables()), t)
            case Ok(w) => r.Ok? && w == Book(db.Tables(), t, r.value, state.Value())
            case Err(e) => r == Err(e)
  {
    var cancelled := CancelAvailable(db, db.ledger[t].kind.gifts, state);
    if cancelled.Err? { return Err(cancelled.error); }
    var target := db.ledger[t].kind.target;
    if cancelled.value != [] && target != 0 {
      state.progress := Max(0, state.progress + target - 1);
    } else {
      state.progress := Max(0, state.progress - 1);
    }
    state.totalVisits := Max(0, state.totalVisits - 1);
    r := Ok(VisitUndone(cancelled.value, state.progress));
  }

  method ReverseCashbackEarn(db: Database, t: nat, state: StateRow, force: bool) returns (r: Result<Effect>)
    requires t < |db.ledger| && db.ledger[t].kind.CashbackEarn? && db.ledger[t].owner == state.owner
    requires state.Value() == StateOf(db.Tables(), state.owner)
    modifies db`lots, state
    ensures match UndoEarn(old(db.Tables()), t, force)
            case Ok(w) => r.Ok? && w == Book(db.Tables(), t, r.value, state.Value())
            case Err(e) => r == Err(e)
  {
    var lotId := db.ledger[t].kind.lot;
    if lotId.None? || lotId.value >= |db.lots| { return Err(OperationNotReversible); }
    var i := lotId.value;
    var amount := db.ledger[t].kind.earned;
    var spentPart := db.lots[i].original - db.lots[i].remaining;
    if spentPart > 0 && !force { return Err(OperationNotReversible); }
    var withdrawn := db.lots[i].remaining;
    db.lots := db.lots[i := db.lots[i].(remaining := 0, status := WITHDRAWN)];
    state.available := Max(0, state.available - withdrawn);
    state.earned := Max(0, state.earned - amount);
    r := Ok(EarnUndone(i, withdrawn, spentPart));
  }

  /** One entry of the spend goes back to its lot or is lost. */
  method ReturnEntry(db: Database, e: Consumed) returns (restored: int, lost: int)
    requires e.lot < |db.lots| && e.amount > 0
    modifies db`lots
    ensures if Restorable(old(db.lots)[e.lot], db.now)
            then
              && restored == e.amount && lost == 0
              && db.lots == old(db.lots)[e.lot := old(db.lots)[e.lot].(
                              remaining := old(db.lots)[e.lot].remaining + e.amount, status := ACTIVE)]
            else restored == 0 && lost == e.amount && db.lots == old(db.lots)
  {
    var lot := db.lots[e.lot];
    if lot.expiresAt <= db.now || lot.status == BURNED { return 0, e.amount; }
    if lot.status == WITHDRAWN { return 0, e.amount; }
    db.lots := db.lots[e.lot := lot.(remaining := lot.remaining + e.amount, status := ACTIVE)];
    return e.amount, 0;
  }

  /** One round of the restoring loop. */
  lemma GiveBackRound(lots: seq<Lot>, consumed: seq<Consumed>, k: nat, now: int)
    requires k < |consumed|
    ensures var done, e := GiveBack(lots, consumed[..k], now), consumed[k];
            GiveBack(lots, consumed[..k + 1], now)
            == if e.lot >= |lots| || e.amount <= 0 then done
               else if !Restorable(done.lots[e.lot], now) then done.(lost := done.lost + e.amount)
               else done.(lots := done.lots[e.lot := done.lots[e.lot].(
                                    remaining := done.lots[e.lot].remaining + e.amount, status := ACTIVE)],
                          restored := done.restored + e.amount)
  {
    assert consumed[..k + 1][..k] == consumed[..k];
  }

  /** The restoring loop. */
  method ReturnEntries(db: Database, consumed: seq<Consumed>) returns (restored: int, lost: int)
    modifies db`lots
    ensures Returned(db.lots, restored, lost) == GiveBack(old(db.lots), consumed, db.now)
  {
    ghost var lots := db.lots;
    restored, lost := 0, 0;
    for k := 0 to |consumed|
      invariant |db.lots| == |lots|
      invariant GiveBack(lots, consumed[..k], db.now) == Returned(db.lots, restored, lost)
    {
      GiveBackRound(lots, consumed, k, db.now);
      var e := consumed[k];
      if e.lot < |db.lots| && e.amount > 0 {
        var back, gone := ReturnEntry(db, e);
        restored, lost := restored + back, lost + gone;
      }
    }
    assert consumed[..|consumed|] == consumed;
  }

  method ReverseCashbackSpend(db: Database, t: nat, state: StateRow) returns (r: Result<Effect>)
    requires t < |db.ledger| && db.ledger[t].kind.CashbackSpend? && db.ledger[t].owner == state.owner
    requires state.Value() == StateOf(db.Tables(), state.owner)
    modifies db`lots, state
    ensures match UndoSpend(old(db.Tables()), t)
            case Ok(w) => r.Ok? && w == Book(db.Tables(), t, r.value, state.Value())
            case Err(e) => r == Err(e)
  {
    hide GiveBack;
    var consumed := db.ledger[t].kind.consumed;
    if consumed == [] { return Err(OperationNotReversible); }
    var restored, lost := ReturnEntries(db, consumed);
    state.available := state.available + restored;
    state.spent := Max(0, state.spent - db.ledger[t].kind.spent);
    r := Ok(SpendUndone(restored, lost));
  }

  method ReverseGiftRedeem(db: Database, t: nat, state: StateRow) returns (r: Result<Effect>)
    requires t < |db.ledger| && db.ledger[t].kind.GiftRedeem? && db.ledger[t].owner == state.owner
    requires state.Value() == StateOf(db.Tables(), state.owner)
    modifies db`gifts, state
    ensures match UndoRedeem(old(db.Tables()), t)
            case Ok(w) => r.Ok? && w == Book(db.Tables(), t, r.value, state.Value())
            case Err(e) => r == Err(e)
  {
    var g := db.ledger[t].kind.gift;
    if g >= |db.gifts| { return Err(OperationNotReversible); }
    if db.gifts[g].status != USED { return Err(OperationNotReversible); }
    db.gifts := db.gifts[g := db.gifts[g].(status := AVAILABLE, usedAt := None, redeemTx := None)];
    state.availableGifts := state.availableGifts + 1;
    state.giftsUsed := Max(0, state.giftsUsed - 1);
    r := Ok(RedeemUndone(g));
  }

  /** The handler of the entry's type. */
  method Compensate(db: Database, t: nat, state: StateRow, force: bool) returns (r: Result<Effect>)
    requires t < |db.ledger| && db.ledger[t].status == COMPLETED && db.ledger[t].owner == state.owner
    requires state.Value() == StateOf(db.Tables(), state.owner)
    modifies db`gifts, db`lots, state
    ensures match Reverse(old(db.Tables()), t, None, force, true)
            case Ok(w) => r.Ok? && w == Book(db.Tables(), t, r.value, state.Value())
            case Err(e) => r == Err(e)
  {
    hide UndoVisit, UndoEarn, UndoSpend, UndoRedeem, Book;
    match db.ledger[t].kind {
      case VisitEarn(_, _, _, _, _) => r := ReverseVisit(db, t, state);
      case CashbackEarn(_, _, _, _) => r := ReverseCashbackEarn(db, t, state, force);
      case CashbackSpend(_, _, _, _) => r := ReverseCashbackSpend(db, t, state);
      case GiftRedeem(_, _) => r := ReverseGiftRedeem(db, t, state);
      case _ => r := Err(OperationNotReversible);
    }
  }

  function Locked(w: World, p: Owner): World { w.(states := w.states[p := StateOf(w, p)]) }

  lemma LockedBook(w: World, t: nat, effect: Effect, state: State)
    requires t < |w.ledger|
    ensures Book(Locked(w, w.ledger[t].owner), t, effect, state) == Book(w, t, effect, state)
  {
    var p := w.ledger[t].owner;
    assert Locked(w, p).states[p := state] == w.states[p := state];
  }

  lemma LockedUndoVisit(w: World, t: nat)
    requires t < |w.ledger| && w.ledger[t].kind.VisitEarn?
    ensures UndoVisit(Locked(w, w.ledger[t].owner), t) == UndoVisit(w, t)
  {
    hide CancelGifts, CancelledOf;
    if UndoVisit(w, t).Ok? {
      var u := UndoVisit(w, t).value;
      LockedBook(w.(gifts := u.gifts), t, u.ledger[|w.ledger|].kind.effect, StateOf(u, w.ledger[t].owner));
    }
  }

  lemma LockedUndoOther(w: World, t: nat, force: bool)
    requires t < |w.ledger|
    ensures w.ledger[t].kind.CashbackEarn? ==> UndoEarn(Locked(w, w.ledger[t].owner), t, force) == UndoEarn(w, t, force)
    ensures w.ledger[t].kind.CashbackSpend? ==> UndoSpend(Locked(w, w.ledger[t].owner), t) == UndoSpend(w, t)
    ensures w.ledger[t].kind.GiftRedeem? ==> UndoRedeem(Locked(w, w.ledger[t].owner), t) == UndoRedeem(w, t)
  {
    hide GiveBack;
    var p := w.ledger[t].owner;
    if w.ledger[t].kind.CashbackEarn? && UndoEarn(w, t, force).Ok? {
      var s := StateOf(UndoEarn(w, t, force).value, p);
      assert Locked(w, p).states[p := s] == w.states[p := s];
    } else if w.ledger[t].kind.CashbackSpend? && UndoSpend(w, t).Ok? {
      var s := StateOf(UndoSpend(w, t).value, p);
      assert Locked(w, p).states[p := s] == w.states[p := s];
    } else if w.ledger[t].kind.GiftRedeem? && UndoRedeem(w, t).Ok? {
      var s := StateOf(UndoRedeem(w, t).value, p);
      assert Locked(w, p).states[p := s] == w.states[p := s];
    }
  }

  /** Locking the aggregate first makes no difference to the reversal. */
  lemma LockedReverse(w: World, t: nat, scope: Option<nat>, force: bool, reasonGiven: bool)
    requires t < |w.ledger|
    ensures Reverse(Locked(w, w.ledger[t].owner), t, scope, force, reasonGiven)
         == Reverse(w, t, scope, force, reasonGiven)
  {
    hide UndoVisit, UndoEarn, UndoSpend, UndoRedeem;
    if w.ledger[t].kind.VisitEarn? {
      LockedUndoVisit(w, t);
    } else {
      LockedUndoOther(w, t, force);
    }
  }

  /** Past the guards the caller's scope plays no part. */
  lemma InScope(w: World, t: nat, scope: Option<nat>, force: bool)
    requires t < |w.ledger| && (scope.Some? ==> w.ledger[t].owner.org == scope.value)
    ensures Reverse(w, t, scope, force, true) == Reverse(w, t, None, force, true)
  {
  }

  /** reverse_transaction: a handler that raises, even half way through its loop, leaves no trace. */
  method ReverseTransaction(db: Database, t: nat, scope: Option<nat>, force: bool, reasonGiven: bool)
    returns (r: Result<nat>)
    modifies db
    ensures Atomic(Reverse(old(db.Tables()), t, scope, force, reasonGiven), r, old(db.Tables()), db.Tables())
    ensures r.Ok? ==> r.value == old(|db.ledger|)
  {
    var savepoint := db.Tables();
    if !reasonGiven { return Err(ValidationError); }
    if t >= |db.ledger| { return Err(TransactionNotFound); }
    var original := db.ledger[t];
    if scope.Some? && original.owner.org != scope.value { return Err(TransactionNotFound); }
    if original.status == REVERSED { return Err(OperationNotReversible); }
    if original.status != COMPLETED { return Err(OperationNotReversible); }

    var state := LockState(db, original.owner);
    LockedReverse(savepoint, t, None, force, true);
    InScope(savepoint, t, scope, force);
    var effect := Compensate(db, t, state, force);
    if effect.Err? {
      db.Rollback(savepoint);
      return Err(effect.error);
    }
    r := Ok(|db.ledger|);
    db.ledger := db.ledger + [Transaction(original.owner, Reversal(t, effect.value), COMPLETED, db.now)];
    db.ledger := db.ledger[t := original.(status := REVERSED)];
    state.Save(db);
  }
}
