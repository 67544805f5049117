/** Every cashback operation keeps the cashback invariant. */
module CashSteps {
  import opened Rows
  import opened Sums
  import opened Cashback
  import opened Reversals
  import opened Accounts
  import opened CashLaws
  import opened Fifo

  lemma EarnKeeps(w: World, p: Owner, amount: int, purchase: Purchase, request: Option<nat>)
    requires CashInv(w) && amount > 0
    ensures CashInv(PostEarn(w, p, amount, purchase, request))
  {
    hide Sum;
    var u := PostEarn(w, p, amount, purchase, request);
    var tx := u.ledger[|w.ledger|];
    forall i | 0 <= i < |u.lots| ensures LotRow(u, i) {
      SumSnoc(w.ledger, tx, UseOn(i));
      if i < |w.lots| {
        assert LotRow(w, i);
      } else {
        UnusedLot(w);
      }
    }
    forall t | 0 <= t < |u.ledger| ensures CashEntry(u, t) {
      if t < |w.ledger| {
        assert CashEntry(w, t);
      }
    }
    forall q ensures CashBalance(u, q) {
      assert CashBalance(w, q);
      CashSnoc(w.ledger, tx, q);
      SumSnoc(w.lots, u.lots[|w.lots|], ActiveValue(q));
    }
  }

  lemma SpendKeepsRow(w: World, p: Owner, amount: nat, purchase: Purchase, request: nat, order: seq<nat>, i: nat)
    requires CashInv(w) && LiveLots(w.lots, p, w.now, order) && i < |w.lots|
    requires amount > 0 && PostSpend(w, p, amount, purchase, request, order).Ok?
    ensures LotRow(PostSpend(w, p, amount, purchase, request, order).value, i)
  {
    hide Sum;
    var u := PostSpend(w, p, amount, purchase, request, order).value;
    TakesArePaid(w.lots, p, w.now, order, amount);
    assert LotRow(w, i);
    SumSnoc(w.ledger, u.ledger[|w.ledger|], UseOn(i));
    if TakenFrom(TakeInOrder(w.lots, order, amount).consumed, i) != 0 {
      TakenBounds(w.lots, p, w.now, order, amount, i);
    }
  }

  /** The entries of a spend name distinct lots of its owner and only positive amounts. */
  lemma TakenEntries(lots: seq<Lot>, p: Owner, now: int, order: seq<nat>, amount: nat)
    requires LiveLots(lots, p, now, order)
    ensures var taken := TakeInOrder(lots, order, amount);
            Distinct(taken.consumed)
            && forall k :: 0 <= k < |taken.consumed| ==>
                 && taken.consumed[k].amount > 0 && taken.consumed[k].lot < |lots|
                 && lots[taken.consumed[k].lot].owner == p
  {
    TakesInOrder(lots, p, now, order, amount);
    var taken := TakeInOrder(lots, order, amount);
    forall k | 0 <= k < |taken.consumed|
      ensures taken.consumed[k].amount > 0 && taken.consumed[k].lot < |lots|
      ensures lots[taken.consumed[k].lot].owner == p
    {
      assert taken.consumed[k].lot == order[k];
    }
  }

  lemma SpendKeepsEntry(w: World, p: Owner, amount: nat, purchase: Purchase, request: nat, order: seq<nat>, t: nat)
    requires CashInv(w) && LiveLots(w.lots, p, w.now, order) && t <= |w.ledger|
    requires amount > 0 && PostSpend(w, p, amount, purchase, request, order).Ok?
    ensures CashEntry(PostSpend(w, p, amount, purchase, request, order).value, t)
  {
    hide Sum;
    var u := PostSpend(w, p, amount, purchase, request, order).value;
    TakesArePaid(w.lots, p, w.now, order, amount);
    assert forall i :: 0 <= i < |w.lots| ==> u.lots[i].owner == w.lots[i].owner && u.lots[i].source == w.lots[i].source;
    if t < |w.ledger| {
      assert CashEntry(w, t);
    } else {
      TakesInOrder(w.lots, p, w.now, order, amount);
      TakenEntries(w.lots, p, w.now, order, amount);
    }
  }

  lemma SpendKeeps(w: World, p: Owner, amount: nat, purchase: Purchase, request: nat, order: seq<nat>)
    requires CashInv(w) && LiveLots(w.lots, p, w.now, order)
    requires amount > 0 && PostSpend(w, p, amount, purchase, request, order).Ok?
    ensures CashInv(PostSpend(w, p, amount, purchase, request, order).value)
  {
    hide Sum;
    var u := PostSpend(w, p, amount, purchase, request, order).value;
    forall i | 0 <= i < |u.lots| ensures LotRow(u, i) {
      SpendKeepsRow(w, p, amount, purchase, request, order, i);
    }
    forall t | 0 <= t < |u.ledger| ensures CashEntry(u, t) {
      SpendKeepsEntry(w, p, amount, purchase, request, order, t);
    }
    forall q ensures CashBalance(u, q) {
      assert CashBalance(w, q);
      CashSnoc(w.ledger, u.ledger[|w.ledger|], q);
      TakesLowerActive(w.lots, p, w.now, order, amount, q);
      TakesInOrder(w.lots, p, w.now, order, amount);
    }
  }

  /** A lot that a spend touches was live, and loses at most what it had. */
  lemma {:induction false} TakenBounds(
    lots: seq<Lot>, p: Owner, now: int, order: seq<nat>, amount: nat, i: nat)
    requires LiveLots(lots, p, now, order) && i < |lots|
    requires TakenFrom(TakeInOrder(lots, order, amount).consumed, i) != 0
    ensures Live(lots[i], p, now)
    ensures 0 < TakenFrom(TakeInOrder(lots, order, amount).consumed, i) <= lots[i].remaining
    decreases |order|
  {
    var j := order[0];
    var take := Min(lots[j].remaining, amount);
    var next := lots[j := TakeFrom(lots[j], take)];
    TakenFromFront(Consumed(j, take), TakeInOrder(next, order[1..], amount - take).consumed, i);
    RestAfterTake(lots, p, now, order, take);
    if i == j {
      UntouchedByRest(next, p, now, order[1..], amount - take, i);
    } else {
      TakenBounds(next, p, now, order[1..], amount - take, i);
    }
  }

  lemma BurnKeeps(w: World, i: nat, now: int)
    requires CashInv(w) && i < |w.lots| && now <= w.now
    ensures CashInv(BurnLot(w, i, now))
  {
    hide Sum;
    var u := BurnLot(w, i, now);
    assert LotRow(w, i);
    if Due(w.lots[i], now) {
      var p := w.lots[i].owner;
      var tx := u.ledger[|w.ledger|];
      forall j | 0 <= j < |u.lots| ensures LotRow(u, j) {
        assert LotRow(w, j);
        SumSnoc(w.ledger, tx, UseOn(j));
      }
      forall t | 0 <= t < |u.ledger| ensures CashEntry(u, t) {
        if t < |w.ledger| { assert CashEntry(w, t); }
      }
      forall q ensures CashBalance(u, q) {
        assert CashBalance(w, q);
        BalanceCovers(w, q);
        CashSnoc(w.ledger, tx, q);
        SumUpdate(w.lots, i, u.lots[i], ActiveValue(q));
        assert ActiveValue(q)(w.lots[i]) <= StateOf(w, q).available;
      }
    }
  }

  /** The balances after a reversal is booked, given what it did to the lots. */
  lemma BookBalance(w: World, u: World, t: nat, effect: Effect, state: State, q: Owner)
    requires CashInv(w) && t < |w.ledger|
    requires u == Book(w.(lots := u.lots), t, effect, state)
    requires w.ledger[t].status == COMPLETED
    requires
      var p, k, a := w.ledger[t].owner, w.ledger[t].kind, StateOf(w, w.ledger[t].owner);
      match effect
      case EarnUndone(_, withdrawn, unrecoverable) =>
        && k.CashbackEarn? && withdrawn + unrecoverable == k.earned
        && Sum(u.lots, ActiveValue(q)) == Sum(w.lots, ActiveValue(q)) - (if q == p then withdrawn else 0)
        && state.available == a.available - withdrawn && state.earned == a.earned - k.earned
        && state.spent == a.spent && state.expired == a.expired
      case SpendUndone(restored, lost) =>
        && k.CashbackSpend? && restored + lost == k.spent
        && Sum(u.lots, ActiveValue(q)) == Sum(w.lots, ActiveValue(q)) + (if q == p then restored else 0)
        && state.available == a.available + restored && state.spent == a.spent - k.spent
        && state.earned == a.earned && state.expired == a.expired
      case _ => false
    ensures CashBalance(u, q)
  {
    hide Sum;
    assert CashBalance(w, q);
    var marked := w.ledger[t].(status := REVERSED);
    CashUpdate(w.ledger, t, marked, q);
    CashSnoc(w.ledger[t := marked], u.ledger[|w.ledger|], q);
  }

  lemma UndoEarnKeeps(w: World, t: nat, force: bool)
    requires CashInv(w) && t < |w.ledger| && w.ledger[t].kind.CashbackEarn?
    requires w.ledger[t].status == COMPLETED && UndoEarn(w, t, force).Ok?
    ensures CashInv(UndoEarn(w, t, force).value)
  {
    hide Sum;
    var u := UndoEarn(w, t, force).value;
    var tx := w.ledger[t];
    var i := tx.kind.lot.value;
    assert CashEntry(w, t) && LotRow(w, i);
    forall j | 0 <= j < |u.lots| ensures LotRow(u, j) {
      assert LotRow(w, j);
      SumBooked(w.ledger, t, tx.(status := REVERSED), u.ledger[|w.ledger|], UseOn(j));
    }
    forall s | 0 <= s < |u.ledger| ensures CashEntry(u, s) {
      if s < |w.ledger| { assert CashEntry(w, s); }
    }
    BalanceCovers(w, tx.owner);
    assert ActiveValue(tx.owner)(w.lots[i]) <= StateOf(w, tx.owner).available;
    assert EarnedBy(tx.owner)(w.ledger[t]) <= StateOf(w, tx.owner).earned;
    forall q ensures CashBalance(u, q) {
      SumUpdate(w.lots, i, u.lots[i], ActiveValue(q));
      BookBalance(w, u, t, u.ledger[|w.ledger|].kind.effect, u.states[tx.owner], q);
    }
  }

  // ---- giving a spend back ----

  /** What a lot is due from the entries of a reversed spend. */
  function Regained(l: Lot, due: int, now: int): Lot {
    if due > 0 && Restorable(l, now) then l.(remaining := l.remaining + due, status := ACTIVE) else l
  }

  ghost predicate Entries(lots: seq<Lot>, consumed: seq<Consumed>) {
    forall k :: 0 <= k < |consumed| ==> consumed[k].amount > 0 && consumed[k].lot < |lots|
  }

  /** Each lot regains its entry if it still can, and the entries split into restored and lost. */
  lemma {:induction false} GiveBackPerLot(lots: seq<Lot>, consumed: seq<Consumed>, now: int)
    requires Entries(lots, consumed)
    ensures var back := GiveBack(lots, consumed, now);
            && back.restored + back.lost == Sum(consumed, EntryAmount())
            && back.restored >= 0 && back.lost >= 0
            && (forall i :: 0 <= i < |lots| ==>
                  back.lots[i] == Regained(lots[i], TakenFrom(consumed, i), now))
  {
    if consumed != [] {
      var init := consumed[..|consumed| - 1];
      GiveBackPerLot(lots, init, now);
      forall i | 0 <= i < |lots|
        ensures GiveBack(lots, consumed, now).lots[i] == Regained(lots[i], TakenFrom(consumed, i), now)
      {
        TakenFromNonNegative(init, i);
      }
    }
  }

  /** The lots of a balanced table: those that are not ACTIVE are empty. */
  ghost predicate OnlyActiveHold(lots: seq<Lot>) {
    forall i :: 0 <= i < |lots| && lots[i].status != ACTIVE ==> lots[i].remaining == 0
  }

  lemma GiveBackStaysBalanced(lots: seq<Lot>, consumed: seq<Consumed>, now: int)
    requires Entries(lots, consumed) && OnlyActiveHold(lots)
    ensures OnlyActiveHold(GiveBack(lots, consumed, now).lots)
    ensures forall i :: 0 <= i < |lots| ==> GiveBack(lots, consumed, now).lots[i].owner == lots[i].owner
  {
    GiveBackPerLot(lots, consumed, now);
  }

  lemma OneLotRegains(lots: seq<Lot>, i: nat, amount: int, q: Owner)
    requires i < |lots| && OnlyActiveHold(lots)
    ensures Sum(lots[i := lots[i].(remaining := lots[i].remaining + amount, status := ACTIVE)], ActiveValue(q))
            == Sum(lots, ActiveValue(q)) + if q == lots[i].owner then amount else 0
  {
    SumUpdate(lots, i, lots[i].(remaining := lots[i].remaining + amount, status := ACTIVE), ActiveValue(q));
  }

  lemma {:induction false} GiveBackRaisesActive(
    lots: seq<Lot>, consumed: seq<Consumed>, now: int, p: Owner, q: Owner)
    requires Entries(lots, consumed) && OnlyActiveHold(lots)
    requires forall k :: 0 <= k < |consumed| ==> lots[consumed[k].lot].owner == p
    ensures var back := GiveBack(lots, consumed, now);
            Sum(back.lots, ActiveValue(q)) == Sum(lots, ActiveValue(q)) + if q == p then back.restored else 0
  {
    hide Sum;
    if consumed != [] {
      var init, e := consumed[..|consumed| - 1], consumed[|consumed| - 1];
      GiveBackRaisesActive(lots, init, now, p, q);
      GiveBackStaysBalanced(lots, init, now);
      OneLotRegains(GiveBack(lots, init, now).lots, e.lot, e.amount, q);
    }
  }

  lemma UndoSpendKeepsRow(w: World, t: nat, i: nat)
    requires CashInv(w) && t < |w.ledger| && w.ledger[t].kind.CashbackSpend? && i < |w.lots|
    requires w.ledger[t].status == COMPLETED && UndoSpend(w, t).Ok?
    ensures LotRow(UndoSpend(w, t).value, i)
  {
    hide Sum;
    var u := UndoSpend(w, t).value;
    var tx, consumed := w.ledger[t], w.ledger[t].kind.consumed;
    assert CashEntry(w, t) && LotRow(w, i);
    GiveBackPerLot(w.lots, consumed, w.now);
    TakenFromNonNegative(consumed, i);
    UseCoversEntry(w, t, i);
    SumBooked(w.ledger, t, tx.(status := REVERSED), u.ledger[|w.ledger|], UseOn(i));
  }

  lemma UndoSpendKeeps(w: World, t: nat)
    requires CashInv(w) && t < |w.ledger| && w.ledger[t].kind.CashbackSpend?
    requires w.ledger[t].status == COMPLETED && UndoSpend(w, t).Ok?
    ensures CashInv(UndoSpend(w, t).value)
  {
    hide Sum;
    var u := UndoSpend(w, t).value;
    var tx, consumed := w.ledger[t], w.ledger[t].kind.consumed;
    assert CashEntry(w, t);
    GiveBackPerLot(w.lots, consumed, w.now);
    forall i | 0 <= i < |u.lots| ensures LotRow(u, i) {
      UndoSpendKeepsRow(w, t, i);
    }
    forall s | 0 <= s < |u.ledger| ensures CashEntry(u, s) {
      if s < |w.ledger| { assert CashEntry(w, s); }
    }
    assert OnlyActiveHold(w.lots) by {
      forall i | 0 <= i < |w.lots| && w.lots[i].status != ACTIVE ensures w.lots[i].remaining == 0 {
        assert LotRow(w, i);
      }
    }
    BalanceCovers(w, tx.owner);
    assert SpentBy(tx.owner)(w.ledger[t]) <= StateOf(w, tx.owner).spent;
    forall q ensures CashBalance(u, q) {
      GiveBackRaisesActive(w.lots, consumed, w.now, tx.owner, q);
      BookBalance(w, u, t, u.ledger[|w.ledger|].kind.effect, u.states[tx.owner], q);
    }
  }
}
