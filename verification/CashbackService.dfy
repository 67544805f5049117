/** The cashback service (app/apps/loyalty/services/cashback.py). */
module CashbackService {
  import opened Rows
  import opened Sums
  import opened Guards
  import opened Store
  import opened Cashback
  import opened Fifo

  /** One round of the spend loop. */
  lemma SpendRound(lots: seq<Lot>, order: seq<nat>, i: nat, remaining: int, consumed: seq<Consumed>, all: Taken)
    requires i < |order| && remaining > 0 && forall k :: 0 <= k < |order| ==> order[k] < |lots|
    requires var rest := TakeInOrder(lots, order[i..], remaining);
             all == Taken(rest.lots, consumed + rest.consumed, rest.shortfall)
    ensures var take := Min(lots[order[i]].remaining, remaining);
            var rest := TakeInOrder(lots[order[i] := TakeFrom(lots[order[i]], take)], order[i + 1..], remaining - take);
            all == Taken(rest.lots, consumed + [Consumed(order[i], take)] + rest.consumed, rest.shortfall)
  {
    assert order[i..][1..] == order[i + 1..];
  }

  lemma SpendDone(lots: seq<Lot>, order: seq<nat>, remaining: int, consumed: seq<Consumed>)
    requires order == [] || remaining <= 0
    requires forall k :: 0 <= k < |order| ==> order[k] < |lots|
    ensures var rest := TakeInOrder(lots, order, remaining);
            rest.lots == lots && consumed + rest.consumed == consumed && rest.shortfall == remaining
  {
  }

  /** The spend loop. */
  method TakeLots(db: Database, amount: nat, order: seq<nat>) returns (consumed: seq<Consumed>, shortfall: int)
    requires forall k :: 0 <= k < |order| ==> order[k] < |db.lots|
    modifies db`lots
    ensures Taken(db.lots, consumed, shortfall) == TakeInOrder(old(db.lots), order, amount)
  {
    hide TakeInOrder;
    ghost var all := TakeInOrder(db.lots, order, amount);
    var remaining: int := amount;
    consumed := [];
    var i := 0;
    while i < |order| && remaining > 0
      invariant 0 <= i <= |order| && |db.lots| == |old(db.lots)|
      invariant var rest := TakeInOrder(db.lots, order[i..], remaining);
                all == Taken(rest.lots, consumed + rest.consumed, rest.shortfall)
    {
      var lot := order[i];
      var take := Min(db.lots[lot].remaining, remaining);
      var left := db.lots[lot].remaining - take;
      SpendRound(db.lots, order, i, remaining, consumed, all);
      db.lots := db.lots[lot := db.lots[lot].(remaining := left,
                                              status := if left == 0 then SPENT else db.lots[lot].status)];
      consumed := consumed + [Consumed(lot, take)];
      remaining := remaining - take;
      i := i + 1;
    }
    SpendDone(db.lots, order[i..], remaining, consumed);
    shortfall := remaining;
  }

  /** `order` is what the lots query returned. The spend succeeds exactly when available_amount covers the
      amount; when it raises, the caller's atomic block undoes the lots it has already written. */
  method SpendLotsFifo(db: Database, p: Owner, amount: nat, order: seq<nat>) returns (r: Result<seq<Consumed>>)
    requires FifoOrder(db.lots, p, db.now, order)
    modifies db`lots
    ensures r.Ok? <==> amount <= Available(old(db.lots), p, db.now)
    ensures var taken := TakeInOrder(old(db.lots), order, amount);
            if taken.shortfall > 0 then r == Err(InsufficientCashback)
            else r == Ok(taken.consumed) && db.lots == taken.lots
  {
    ShortfallIsExact(db.lots, p, db.now, order, amount);
    var consumed, shortfall := TakeLots(db, amount, order);
    if shortfall > 0 { return Err(InsufficientCashback); }
    r := Ok(consumed);
  }

  /** An earning: the entry, its lot, the entry's lot_id, and the aggregate in memory. */
  method PostEarning(db: Database, state: StateRow, amount: int, purchase: Purchase, request: Option<nat>)
    modifies db`ledger, db`lots, state
    ensures state.SavedTo(db.Tables())
         == PostEarn(old(state.SavedTo(db.Tables())), state.owner, amount, purchase, request)
  {
    var entry, lot := |db.ledger|, |db.lots|;
    db.ledger := db.ledger + [Transaction(state.owner, CashbackEarn(amount, None, purchase, request),
                                          COMPLETED, db.now)];
    db.lots := db.lots + [Lot(state.owner, amount, amount, ACTIVE, db.now,
                              db.now + purchase.program.expiry * DAY, entry)];
    db.ledger := db.ledger[entry := db.ledger[entry].(
                             kind := CashbackEarn(amount, Some(lot), purchase, request))];
    state.available := state.available + amount;
    state.earned := state.earned + amount;
  }

  /** A spend: the lots, the entry, and the aggregate in memory. */
  method PostSpending(db: Database, state: StateRow, amount: nat, purchase: Purchase, request: nat, order: seq<nat>)
    returns (r: Result<()>)
    requires FifoOrder(db.lots, state.owner, db.now, order)
    modifies db`ledger, db`lots, state
    ensures var outcome := PostSpend(old(state.SavedTo(db.Tables())), state.owner, amount, purchase, request, order);
            if outcome.Ok? then r.Ok? && state.SavedTo(db.Tables()) == outcome.value else r == Err(outcome.error)
  {
    var consumed := SpendLotsFifo(db, state.owner, amount, order);
    if consumed.Err? { return Err(consumed.error); }
    db.ledger := db.ledger + [Transaction(
      state.owner, CashbackSpend(amount, consumed.value, purchase, request), COMPLETED, db.now)];
    state.available := state.available - amount;
    state.spent := state.spent + amount;
    r := Ok(());
  }

  method EarnOnly(db: Database, p: Owner, total: int) returns (r: Result<int>)
    modifies db
    ensures Atomic(Cashback.EarnOnly(old(db.Tables()), p, total), r, old(db.Tables()), db.Tables())
    ensures r.Ok? ==> r.value == old(QuoteFor(db.Tables(), p, total, 0)).value.earn
  {
    hide Available;
    var savepoint := db.Tables();
    var client := EnsureClient(db.Tables(), p.user);
    if client.Err? { return Err(client.error); }
    var org := EnsureOperational(db.Tables(), p.org, Some(CASHBACK));
    if org.Err? { return Err(org.error); }
    var state := LockState(db, p);
    var q := QuoteFor(db.Tables(), p, total, 0);
    if q.Err? {
      db.Rollback(savepoint);
      return Err(q.error);
    }
    var purchase := Purchase(total, q.value.cashPaid, 0, q.value.program);
    if q.value.earn > 0 {
      PostEarning(db, state, q.value.earn, purchase, None);
    }
    state.Save(db);
    r := Ok(q.value.earn);
  }

  /** Locking the aggregate first makes no difference to what is posted. */
  lemma LockedApply(w: World, p: Owner, purchase: Purchase, earn: int, request: nat, order: seq<nat>)
    requires forall k :: 0 <= k < |order| ==> order[k] < |w.lots|
    ensures Cashback.ApplyConfirmed(Touch(w, p), p, purchase, earn, request, order)
         == Cashback.ApplyConfirmed(w, p, purchase, earn, request, order)
  {
    hide PostSpend, PostEarn;
    LockedSpend(w, p, purchase.spend, purchase, request, order);
    LockedEarn(w, p, earn, purchase, Some(request));
    assert Touch(Touch(w, p), p) == Touch(w, p);
  }

  lemma LockedSpend(w: World, p: Owner, amount: int, purchase: Purchase, request: nat, order: seq<nat>)
    requires forall k :: 0 <= k < |order| ==> order[k] < |w.lots|
    ensures PostSpend(Touch(w, p), p, amount, purchase, request, order)
         == PostSpend(w, p, amount, purchase, request, order)
  {
    var a := StateOf(w, p);
    var s := a.(available := a.available - amount, spent := a.spent + amount);
    assert Touch(w, p).states[p := s] == w.states[p := s];
  }

  lemma LockedEarn(w: World, p: Owner, amount: int, purchase: Purchase, request: Option<nat>)
    ensures PostEarn(Touch(w, p), p, amount, purchase, request) == PostEarn(w, p, amount, purchase, request)
  {
  }

  /** The ledger part of a confirmed purchase, inside the confirm's atomic block: on an error the caller
      rolls back. */
  method ApplyConfirmed(db: Database, state: StateRow, purchase: Purchase, earn: int, request: nat, order: seq<nat>)
    returns (r: Result<()>)
    requires FifoOrder(db.lots, state.owner, db.now, order)
    requires state.Value() == StateOf(db.Tables(), state.owner)
    modifies db, state
    ensures var outcome := Cashback.ApplyConfirmed(old(db.Tables()), state.owner, purchase, earn, request, order);
            if outcome.Ok? then r.Ok? && db.Tables() == outcome.value else r == Err(outcome.error)
  {
    hide PostSpend, PostEarn;
    LockedApply(db.Tables(), state.owner, purchase, earn, request, order);
    if purchase.spend > 0 {
      r := PostSpending(db, state, purchase.spend, purchase, request, order);
      if r.Err? { return; }
    }
    if earn > 0 {
      PostEarning(db, state, earn, purchase, Some(request));
    }
    state.Save(db);
    r := Ok(());
  }

  /** What is due from a lot. */
  function DueAmount(lots: seq<Lot>, now: int): nat -> int {
    (i: nat) => if i < |lots| && Due(lots[i], now) then Max(0, lots[i].remaining) else 0
  }

  lemma {:induction false} OthersStay(w: World, ids: seq<nat>, now: int, i: nat)
    requires forall k :: 0 <= k < |ids| ==> ids[k] < |w.lots|
    requires i < |w.lots| && i !in ids
    ensures BurnLots(w, ids, now).lots[i] == w.lots[i]
  {
    if ids != [] {
      OthersStay(w, ids[..|ids| - 1], now, i);
    }
  }

  /** The atomic block of one row in expire_lots. */
  method ExpireLot(db: Database, i: nat, cutoff: int) returns (amount: int)
    requires i < |db.lots|
    modifies db
    ensures db.Tables() == BurnLot(old(db.Tables()), i, cutoff)
    ensures amount == if Due(old(db.lots)[i], cutoff) then Max(0, old(db.lots)[i].remaining) else 0
    ensures db.ledger == old(db.ledger)
              + if amount > 0
                then [Transaction(old(db.lots)[i].owner, CashbackExpire(amount, i), COMPLETED, db.now)]
                else []
  {
    var lot := db.lots[i];
    if lot.status != ACTIVE || lot.expiresAt > cutoff { return 0; }
    db.lots := db.lots[i := lot.(status := BURNED, remaining := 0)];
    if lot.remaining <= 0 { return 0; }
    var state := LockState(db, lot.owner);
    db.ledger := db.ledger + [Transaction(lot.owner, CashbackExpire(lot.remaining, i), COMPLETED, db.now)];
    state.available := Max(0, state.available - lot.remaining);
    state.expired := state.expired + lot.remaining;
    state.Save(db);
    amount := lot.remaining;
  }

  /** One line of the report on a sweep. */
  datatype Burn = Burn(lot: nat, amount: int, entry: nat)

  /** The report names exactly the entries the sweep wrote, in order. */
  ghost predicate Reports(details: seq<Burn>, before: seq<Transaction>, after: seq<Transaction>) {
    && |after| == |before| + |details|
    && forall k :: 0 <= k < |details| ==>
         && details[k].entry == |before| + k
         && after[details[k].entry].kind == CashbackExpire(details[k].amount, details[k].lot)
  }

  /** expire_lots over the ids its query returned. */
  method ExpireLots(db: Database, ids: seq<nat>, cutoff: int)
    returns (processed: nat, expired: int, details: seq<Burn>)
    requires forall k :: 0 <= k < |ids| ==> ids[k] < |db.lots|
    requires forall j, k :: 0 <= j < k < |ids| ==> ids[j] != ids[k]
    modifies db
    ensures db.Tables() == BurnLots(old(db.Tables()), ids, cutoff)
    ensures processed == |ids| && expired == Sum(ids, DueAmount(old(db.lots), cutoff))
    ensures Reports(details, old(db.ledger), db.ledger)
  {
    hide BurnLot;
    ghost var before := db.Tables();
    expired, details := 0, [];
    for k := 0 to |ids|
      invariant db.Tables() == BurnLots(before, ids[..k], cutoff)
      invariant expired == Sum(ids[..k], DueAmount(before.lots, cutoff))
      invariant Reports(details, before.ledger, db.ledger)
    {
      assert ids[..k + 1][..k] == ids[..k];
      assert ids[k] !in ids[..k];
      OthersStay(before, ids[..k], cutoff, ids[k]);
      var entry := |db.ledger|;
      var amount := ExpireLot(db, ids[k], cutoff);
      if amount > 0 { details := details + [Burn(ids[k], amount, entry)]; }
      expired := expired + amount;
    }
    assert ids[..|ids|] == ids;
    processed := |ids|;
  }
}
