/** Where every tiyin of a lot went: what is missing from it is in standing spends, was burned, or came back
    from a reversed spend after the lot had expired. */
module LotHistory {
  import opened Rows
  import opened Sums
  import opened Cashback
  import opened Redemptions
  import opened Reversals
  import opened Accounts
  import opened CashLaws
  import opened CashSteps
  import opened LedgerLaws
  import opened Fifo
  import opened Machine
  import opened Steps

  /** What an expiry entry burned of lot `i`. */
  function BurnOn(i: nat): Transaction -> int {
    (t: Transaction) => if t.kind.CashbackExpire? && t.kind.burnedLot == i then t.kind.burned else 0
  }

  /** What the REVERSAL of a spend could not return to lot `i` because it came when the lot had expired. */
  function LateOn(ledger: seq<Transaction>, i: nat, expiresAt: int): Transaction -> int {
    (t: Transaction) =>
      if t.kind.Reversal? && t.kind.original < |ledger| && ledger[t.kind.original].kind.CashbackSpend?
         && t.createdAt >= expiresAt
      then TakenFrom(ledger[t.kind.original].kind.consumed, i)
      else 0
  }

  function Burned(ledger: seq<Transaction>, i: nat): int { Sum(ledger, BurnOn(i)) }

  function LateBack(ledger: seq<Transaction>, i: nat, expiresAt: int): int {
    Sum(ledger, LateOn(ledger, i, expiresAt))
  }

  function Missing(ledger: seq<Transaction>, i: nat, expiresAt: int): int {
    LiveUse(ledger, i) + Burned(ledger, i) + LateBack(ledger, i, expiresAt)
  }

  /** Everything missing from a lot that was not withdrawn is accounted for. */
  ghost predicate Accounted(w: World, i: nat)
    requires i < |w.lots|
  {
    var l := w.lots[i];
    l.status != WITHDRAWN ==> l.original - l.remaining == Missing(w.ledger, i, l.expiresAt)
  }

  ghost predicate HistoryInv(w: World) {
    forall i :: 0 <= i < |w.lots| ==> Accounted(w, i)
  }

  // ---- how the three sums react to the ledger ----

  predicate BackRefs(ledger: seq<Transaction>) {
    forall t :: 0 <= t < |ledger| && ledger[t].kind.Reversal? ==> ledger[t].kind.original < |ledger|
  }

  lemma LedgerBackRefs(w: World)
    requires LedgerInv(w)
    ensures BackRefs(w.ledger)
  {
    forall t | 0 <= t < |w.ledger| && w.ledger[t].kind.Reversal? ensures w.ledger[t].kind.original < |w.ledger| {
      assert LedgerRow(w, t);
    }
  }

  lemma MissingSnoc(ledger: seq<Transaction>, x: Transaction, i: nat, e: int)
    requires BackRefs(ledger) && (x.kind.Reversal? ==> x.kind.original < |ledger|)
    ensures BackRefs(ledger + [x])
    ensures Missing(ledger + [x], i, e)
         == Missing(ledger, i, e) + UseOn(i)(x) + BurnOn(i)(x) + LateOn(ledger, i, e)(x)
  {
    hide Sum;
    var u := ledger + [x];
    SumSnoc(ledger, x, UseOn(i));
    SumSnoc(ledger, x, BurnOn(i));
    SumSnoc(ledger, x, LateOn(u, i, e));
    assert forall t :: 0 <= t < |ledger| ==> u[t] == ledger[t];
    SumAgrees(ledger, ledger, LateOn(ledger, i, e), LateOn(u, i, e));
  }

  /** Marking an entry REVERSED ends a spend's use and nothing else. */
  lemma MissingMark(ledger: seq<Transaction>, t: nat, i: nat, e: int)
    requires BackRefs(ledger) && t < |ledger| && ledger[t].status == COMPLETED
    ensures BackRefs(ledger[t := ledger[t].(status := REVERSED)])
    ensures Missing(ledger[t := ledger[t].(status := REVERSED)], i, e)
         == Missing(ledger, i, e) - UseOn(i)(ledger[t])
  {
    hide Sum;
    var x := ledger[t].(status := REVERSED);
    var u := ledger[t := x];
    SumUpdate(ledger, t, x, UseOn(i));
    SumUpdate(ledger, t, x, BurnOn(i));
    assert forall k :: 0 <= k < |ledger| ==> u[k].kind == ledger[k].kind && u[k].createdAt == ledger[k].createdAt;
    SumAgrees(ledger, u, LateOn(ledger, i, e), LateOn(u, i, e));
  }

  /** Booking a reversal ends a spend's use and, past the lot's expiry, adds it to what came back late. */
  lemma MissingBook(w: World, u: World, t: nat, effect: Effect, i: nat, e: int)
    requires BackRefs(w.ledger) && t < |w.ledger| && w.ledger[t].status == COMPLETED
    requires u.ledger == Book(w, t, effect, StateOf(u, w.ledger[t].owner)).ledger
    ensures Missing(u.ledger, i, e) == Missing(w.ledger, i, e) - UseOn(i)(w.ledger[t])
              + if w.now >= e then UseOn(i)(w.ledger[t]) else 0
  {
    hide Sum;
    MissingMark(w.ledger, t, i, e);
    MissingSnoc(w.ledger[t := w.ledger[t].(status := REVERSED)], u.ledger[|w.ledger|], i, e);
  }

  /** No entry names a lot that does not exist yet. */
  lemma NothingMissingYet(w: World, e: int)
    requires CashInv(w)
    ensures Missing(w.ledger, |w.lots|, e) == 0
  {
    var n := |w.lots|;
    UnusedLot(w);
    forall t | 0 <= t < |w.ledger| ensures BurnOn(n)(w.ledger[t]) == 0 { assert CashEntry(w, t); }
    SumConst(w.ledger, BurnOn(n), 0);
    forall t | 0 <= t < |w.ledger| ensures LateOn(w.ledger, n, e)(w.ledger[t]) == 0 {
      var k := w.ledger[t].kind;
      if k.Reversal? && k.original < |w.ledger| && w.ledger[k.original].kind.CashbackSpend? {
        assert CashEntry(w, k.original);
        SumConst(w.ledger[k.original].kind.consumed, EntryOn(n), 0);
      }
    }
    SumConst(w.ledger, LateOn(w.ledger, n, e), 0);
  }

  lemma HistoryNonNegative(w: World, i: nat, e: int)
    requires CashInv(w)
    ensures forall t :: 0 <= t < |w.ledger| ==> BurnOn(i)(w.ledger[t]) >= 0 && LateOn(w.ledger, i, e)(w.ledger[t]) >= 0
  {
    forall t | 0 <= t < |w.ledger| ensures BurnOn(i)(w.ledger[t]) >= 0 && LateOn(w.ledger, i, e)(w.ledger[t]) >= 0 {
      assert CashEntry(w, t);
      var k := w.ledger[t].kind;
      if k.Reversal? && k.original < |w.ledger| && w.ledger[k.original].kind.CashbackSpend? {
        assert CashEntry(w, k.original);
        TakenFromNonNegative(w.ledger[k.original].kind.consumed, i);
      }
    }
  }

  // ---- every operation accounts for what it moves ----

  lemma EarnAccounts(w: World, p: Owner, amount: int, purchase: Purchase, request: Option<nat>)
    requires CashInv(w) && HistoryInv(w) && BackRefs(w.ledger)
    ensures HistoryInv(PostEarn(w, p, amount, purchase, request))
  {
    hide Missing;
    var u := PostEarn(w, p, amount, purchase, request);
    forall i | 0 <= i < |u.lots| ensures Accounted(u, i) {
      MissingSnoc(w.ledger, u.ledger[|w.ledger|], i, u.lots[i].expiresAt);
      if i < |w.lots| {
        assert Accounted(w, i);
      } else {
        NothingMissingYet(w, u.lots[i].expiresAt);
      }
    }
  }

  lemma SpendAccounts(w: World, p: Owner, amount: nat, purchase: Purchase, request: nat, order: seq<nat>)
    requires HistoryInv(w) && BackRefs(w.ledger) && LiveLots(w.lots, p, w.now, order)
    requires PostSpend(w, p, amount, purchase, request, order).Ok?
    ensures HistoryInv(PostSpend(w, p, amount, purchase, request, order).value)
    ensures BackRefs(PostSpend(w, p, amount, purchase, request, order).value.ledger)
  {
    hide Missing, TakeInOrder;
    var u := PostSpend(w, p, amount, purchase, request, order).value;
    var consumed := TakeInOrder(w.lots, order, amount).consumed;
    TakesArePaid(w.lots, p, w.now, order, amount);
    forall i | 0 <= i < |u.lots| ensures Accounted(u, i) {
      MissingSnoc(w.ledger, u.ledger[|w.ledger|], i, u.lots[i].expiresAt);
      assert Accounted(w, i);
      if TakenFrom(consumed, i) != 0 {
        TakenBounds(w.lots, p, w.now, order, amount, i);
      }
    }
    MissingSnoc(w.ledger, u.ledger[|w.ledger|], 0, 0);
  }

  lemma BurnAccounts(w: World, i: nat, cutoff: int)
    requires CashInv(w) && HistoryInv(w) && BackRefs(w.ledger) && i < |w.lots|
    ensures HistoryInv(BurnLot(w, i, cutoff))
  {
    hide Missing;
    var u := BurnLot(w, i, cutoff);
    assert LotRow(w, i);
    if Due(w.lots[i], cutoff) {
      forall j | 0 <= j < |u.lots| ensures Accounted(u, j) {
        MissingSnoc(w.ledger, u.ledger[|w.ledger|], j, u.lots[j].expiresAt);
        assert Accounted(w, j);
      }
    }
  }

  lemma UndoSpendAccounts(w: World, t: nat)
    requires CashInv(w) && HistoryInv(w) && BackRefs(w.ledger)
    requires t < |w.ledger| && w.ledger[t].kind.CashbackSpend? && w.ledger[t].status == COMPLETED
    requires UndoSpend(w, t).Ok?
    ensures HistoryInv(UndoSpend(w, t).value)
  {
    hide Missing;
    var u := UndoSpend(w, t).value;
    var consumed := w.ledger[t].kind.consumed;
    assert CashEntry(w, t);
    GiveBackPerLot(w.lots, consumed, w.now);
    forall i | 0 <= i < |u.lots| ensures Accounted(u, i) {
      assert Accounted(w, i) && LotRow(w, i);
      TakenFromNonNegative(consumed, i);
      MissingBook(w, u, t, u.ledger[|w.ledger|].kind.effect, i, u.lots[i].expiresAt);
    }
  }

  lemma UndoOtherAccounts(w: World, u: World, t: nat, effect: Effect)
    requires HistoryInv(w) && BackRefs(w.ledger)
    requires t < |w.ledger| && !w.ledger[t].kind.CashbackSpend? && w.ledger[t].status == COMPLETED
    requires u.ledger == Book(w, t, effect, StateOf(u, w.ledger[t].owner)).ledger
    requires |u.lots| == |w.lots|
    requires forall i :: 0 <= i < |w.lots| ==> u.lots[i] == w.lots[i] || u.lots[i].status == WITHDRAWN
    ensures HistoryInv(u)
  {
    hide Missing;
    forall i | 0 <= i < |u.lots| ensures Accounted(u, i) {
      assert Accounted(w, i);
      MissingBook(w, u, t, effect, i, u.lots[i].expiresAt);
    }
  }

  lemma ReversalAccounts(w: World, t: nat, scope: Option<nat>, force: bool, reasonGiven: bool)
    requires CashInv(w) && HistoryInv(w) && BackRefs(w.ledger)
    requires Reverse(w, t, scope, force, reasonGiven).Ok?
    ensures HistoryInv(Reverse(w, t, scope, force, reasonGiven).value)
  {
    hide HistoryInv, CancelGifts, CancelledOf, GiveBack;
    var u := Reverse(w, t, scope, force, reasonGiven).value;
    if w.ledger[t].kind.CashbackSpend? {
      UndoSpendAccounts(w, t);
    } else {
      UndoOtherAccounts(w, u, t, u.ledger[|w.ledger|].kind.effect);
    }
  }

  /** Entries that move no cashback. */
  predicate Still(k: TransactionKind) { k.VisitEarn? || k.GiftCreated? || k.GiftRedeem? }

  lemma {:induction false} StillAccounts(w: World, u: World, n: nat)
    requires HistoryInv(w) && BackRefs(w.ledger) && u.lots == w.lots
    requires |w.ledger| <= n <= |u.ledger| && u.ledger[..|w.ledger|] == w.ledger
    requires forall t :: |w.ledger| <= t < |u.ledger| ==> Still(u.ledger[t].kind)
    ensures BackRefs(u.ledger[..n])
    ensures forall i, e :: Missing(u.ledger[..n], i, e) == Missing(w.ledger, i, e)
  {
    hide Missing;
    if n > |w.ledger| {
      StillAccounts(w, u, n - 1);
      assert u.ledger[..n] == u.ledger[..n - 1] + [u.ledger[n - 1]];
      forall i: nat, e ensures Missing(u.ledger[..n], i, e) == Missing(w.ledger, i, e) {
        MissingSnoc(u.ledger[..n - 1], u.ledger[n - 1], i, e);
      }
    }
  }

  lemma StillFrame(w: World, u: World)
    requires HistoryInv(w) && BackRefs(w.ledger) && u.lots == w.lots
    requires |w.ledger| <= |u.ledger| && u.ledger[..|w.ledger|] == w.ledger
    requires forall t :: |w.ledger| <= t < |u.ledger| ==> Still(u.ledger[t].kind)
    ensures HistoryInv(u)
  {
    hide Missing;
    StillAccounts(w, u, |u.ledger|);
    assert u.ledger[..|u.ledger|] == u.ledger;
    forall i | 0 <= i < |u.lots| ensures Accounted(u, i) { assert Accounted(w, i); }
  }

  lemma PaymentAccounts(w: World, r: nat, order: seq<nat>)
    requires Inv(w) && HistoryInv(w) && r < |w.requests| && w.requests[r].kind.CashbackRequest?
    requires LiveLots(w.lots, w.requests[r].owner, w.now, order) && Perform(w, r, order).Ok?
    ensures HistoryInv(Perform(w, r, order).value)
  {
    hide Missing, TakeInOrder, HistoryInv;
    var p, purchase, earn := w.requests[r].owner, w.requests[r].kind.purchase, w.requests[r].kind.earn;
    assert RequestRow(w, r);
    LedgerBackRefs(w);
    var w1 := PostSpend(w, p, purchase.spend, purchase, r, order).value;
    SpendAccounts(w, p, purchase.spend, purchase, r, order);
    SpendKeeps(w, p, purchase.spend, purchase, r, order);
    if earn > 0 {
      EarnAccounts(w1, p, earn, purchase, Some(r));
    } else {
      SameHistory(w1, Perform(w, r, order).value);
    }
  }

  lemma SameHistory(w: World, u: World)
    requires HistoryInv(w) && u.lots == w.lots && u.ledger == w.ledger
    ensures HistoryInv(u)
  {
    hide Missing;
    forall i | 0 <= i < |u.lots| ensures Accounted(u, i) { assert Accounted(w, i); }
  }

  lemma ConfirmAccounts(w: World, r: nat, order: seq<nat>)
    requires Inv(w) && HistoryInv(w) && r < |w.requests|
    requires LiveLots(w.lots, w.requests[r].owner, w.now, order) && Perform(w, r, order).Ok?
    ensures HistoryInv(Settle(Perform(w, r, order).value, r, |w.ledger|))
  {
    hide HistoryInv, TakeInOrder;
    LedgerBackRefs(w);
    var v := Perform(w, r, order).value;
    if w.requests[r].kind.CashbackRequest? {
      PaymentAccounts(w, r, order);
    } else {
      StillFrame(w, v);
    }
    SameHistory(v, Settle(v, r, |w.ledger|));
  }

  lemma PurchaseAccounts(w: World, p: Owner, total: int)
    requires CashInv(w) && HistoryInv(w) && BackRefs(w.ledger) && EarnOnly(w, p, total).Ok?
    ensures HistoryInv(EarnOnly(w, p, total).value)
  {
    hide HistoryInv;
    var q := QuoteFor(w, p, total, 0).value;
    if q.earn > 0 {
      EarnAccounts(w, p, q.earn, Purchase(total, q.cashPaid, 0, q.program), None);
    } else {
      SameHistory(w, EarnOnly(w, p, total).value);
    }
  }

  lemma StepAccounts(w: World, op: Op)
    requires Inv(w) && HistoryInv(w) && Possible(w, op)
    ensures HistoryInv(After(w, op))
  {
    hide HistoryInv, Reverse, EarnOnly, BurnLot, Perform, Sum;
    LedgerBackRefs(w);
    if Apply(w, op).Ok? {
      match op {
        case Visit(_) => StillFrame(w, After(w, op));
        case Buy(p, total) => PurchaseAccounts(w, p, total);
        case ConfirmRequest(_, r, order) =>
          if w.requests[r].status == PENDING { ConfirmAccounts(w, r, order); }
        case SweepLot(i, cutoff) => BurnAccounts(w, i, cutoff);
        case ReverseEntry(t, scope, force, reasonGiven) => ReversalAccounts(w, t, scope, force, reasonGiven);
        case _ => SameHistory(w, After(w, op));
      }
    }
  }

  lemma {:induction false} RunAccounts(w: World, ops: seq<Op>)
    requires Inv(w) && HistoryInv(w) && CanRun(w, ops)
    ensures HistoryInv(Run(w, ops))
  {
    hide Inv, HistoryInv;
    if ops != [] {
      var init := ops[..|ops| - 1];
      RunAccounts(w, init);
      RunKeeps(w, init);
      StepAccounts(Run(w, init), ops[|ops| - 1]);
    }
  }

  lemma ReachableHistory(w: World)
    requires Reachable(w)
    ensures HistoryInv(w)
  {
    var start, ops :| Initial(start) && CanRun(start, ops) && Run(start, ops) == w;
    InitialInv(start);
    RunAccounts(start, ops);
  }
}
