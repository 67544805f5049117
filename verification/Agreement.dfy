/** What holds of balances, lots, gifts and reversals in every reachable state. */
module Agreement {
  import opened Rows
  import opened Sums
  import Money
  import opened Cashback
  import opened Guards
  import Redemptions
  import opened Reversals
  import opened Accounts
  import opened CashLaws
  import opened CashSteps
  import opened GiftLaws
  import opened GiftSteps
  import opened LotHistory
  import opened Machine
  import opened Steps

  /** The fast balance, the ACTIVE lots and the replayed ledger agree, each total is its ledger sum, and
      the totals differ from the balance by exactly what reversals could not recover or return. */
  lemma BalancesAgree(w: World, p: Owner)
    requires Reachable(w)
    ensures var a := StateOf(w, p);
            && 0 <= a.available == Sum(w.lots, ActiveValue(p)) == Sum(w.ledger, Signed(p))
            && 0 <= a.earned == Sum(w.ledger, EarnedBy(p))
            && 0 <= a.spent == Sum(w.ledger, SpentBy(p))
            && 0 <= a.expired == Sum(w.ledger, BurnedBy(p))
            && a.earned - a.spent - a.expired
               == a.available - Sum(w.ledger, UnrecoverableOf(p)) + Sum(w.ledger, LostOf(p))
  {
    ReachableInv(w);
    assert CashBalance(w, p);
    BalanceCovers(w, p);
  }

  /** A purchase without a spend is booked exactly for an active client of an active cashback program that it is
      large enough for. It earns the exact percentage, rounded down, in one new lot that lives for the program's
      days, and nothing if that is zero. */
  lemma PurchaseEarns(w: World, p: Owner, total: int)
    ensures EarnOnly(w, p, total).Ok? <==>
              && ActiveClient(w, p.user) && RunsCashback(w, p.org)
              && 0 < total && w.orgs[p.org].cashback.value.minPurchase <= total
    ensures EarnOnly(w, p, total).Ok? ==>
              var u, program := EarnOnly(w, p, total).value, w.orgs[p.org].cashback.value;
              var earn := StateOf(u, p).available - StateOf(w, p).available;
              && FairEarn(earn, total, program.rate)
              && StateOf(u, p) == StateOf(w, p).(available := StateOf(w, p).available + earn,
                                                 earned := StateOf(w, p).earned + earn)
              && (if earn == 0 then u.lots == w.lots && u.ledger == w.ledger
                  else
                    && u.lots == w.lots
                         + [Lot(p, earn, earn, ACTIVE, w.now, w.now + program.expiry * DAY, |w.ledger|)]
                    && u.ledger == w.ledger + [Transaction(p, CashbackEarn(earn, Some(|w.lots|), Purchase(
                         total, total, 0, Snapshot(program.rate, program.maxSpend, program.expiry)), None),
                         COMPLETED, w.now)])
              && u.states == w.states[p := StateOf(u, p)] && u.gifts == w.gifts && u.requests == w.requests
              && u.users == w.users && u.orgs == w.orgs && u.now == w.now
  {
    if EarnOnly(w, p, total).Ok? {
      var rate := w.orgs[p.org].cashback.value.rate;
      var earn := Money.ApplyBps(total, rate);
      Money.ApplyBpsIsFloor(total, rate, earn);
      Money.ApplyBpsIsFloor(total, rate, earn + 1);
      Money.ApplyBpsIsFloor(total, rate, 0);
    }
  }

  // ---- no clamp ever binds ----

  /** The callers whose scope an entry is in: the director and the admins of its organization. */
  predicate MayReverse(w: World, t: nat, scope: Option<nat>)
    requires t < |w.ledger|
  {
    scope == None || scope == Some(w.ledger[t].owner.org)
  }

  /** A sweep lowers the balance and raises the expired total by exactly what it burns. */
  lemma SweepIsExact(w: World, i: nat, cutoff: int)
    requires Reachable(w) && i < |w.lots| && Due(w.lots[i], cutoff)
    ensures var l := w.lots[i];
            var a, b := StateOf(w, l.owner), StateOf(BurnLot(w, i, cutoff), l.owner);
            l.remaining > 0 && b == a.(available := a.available - l.remaining, expired := a.expired + l.remaining)
  {
    ReachableInv(w);
    var p := w.lots[i].owner;
    BalanceCovers(w, p);
    assert LotRow(w, i) && ActiveValue(p)(w.lots[i]) <= StateOf(w, p).available;
  }

  /** Reversing an earning lowers the balance by what its lot still held and the earned total by all of it. */
  lemma EarnReversalIsExact(w: World, t: nat, scope: Option<nat>, force: bool)
    requires Reachable(w) && Reverse(w, t, scope, force, true).Ok? && w.ledger[t].kind.CashbackEarn?
    ensures w.ledger[t].kind.lot.Some? && w.ledger[t].kind.lot.value < |w.lots|
    ensures var tx, l := w.ledger[t], w.lots[w.ledger[t].kind.lot.value];
            var a, b := StateOf(w, tx.owner), StateOf(Reverse(w, t, scope, force, true).value, tx.owner);
            b == a.(available := a.available - l.remaining, earned := a.earned - tx.kind.earned)
  {
    ReachableInv(w);
    var tx := w.ledger[t];
    assert CashEntry(w, t);
    BalanceCovers(w, tx.owner);
    var i := tx.kind.lot.value;
    assert LotRow(w, i) && ActiveValue(tx.owner)(w.lots[i]) <= StateOf(w, tx.owner).available;
    assert EarnedBy(tx.owner)(tx) <= StateOf(w, tx.owner).earned;
  }

  /** Reversing a spend raises the balance by what went back to lots and lowers the spent total by all of it. */
  lemma SpendReversalIsExact(w: World, t: nat, scope: Option<nat>, force: bool)
    requires Reachable(w) && Reverse(w, t, scope, force, true).Ok? && w.ledger[t].kind.CashbackSpend?
    ensures var tx, back := w.ledger[t], GiveBack(w.lots, w.ledger[t].kind.consumed, w.now);
            var a, b := StateOf(w, tx.owner), StateOf(Reverse(w, t, scope, force, true).value, tx.owner);
            b == a.(available := a.available + back.restored, spent := a.spent - tx.kind.spent)
  {
    hide GiveBack;
    ReachableInv(w);
    var tx := w.ledger[t];
    BalanceCovers(w, tx.owner);
    assert SpentBy(tx.owner)(tx) <= StateOf(w, tx.owner).spent;
  }

  /** A confirm of a pending gift request uses exactly the requested gift and moves one gift from available to
      used. */
  lemma RedemptionIsExact(w: World, user: nat, r: nat, order: seq<nat>)
    requires var op := ConfirmRequest(user, r, order); Reachable(w) && Possible(w, op) && Apply(w, op).Ok?
    requires w.requests[r].status == PENDING && w.requests[r].kind.GiftRequest?
    ensures var p, g, a := w.requests[r].owner, w.requests[r].kind.gift, StateOf(w, w.requests[r].owner);
            var u := After(w, ConfirmRequest(user, r, order));
            && g < |w.gifts| && w.gifts[g].owner == p && w.gifts[g].status == PENDING_REDEMPTION
            && u.gifts == w.gifts[g := Gift(p, USED, w.gifts[g].visit, Some(|w.ledger|), Some(w.now))]
            && StateOf(u, p) == a.(availableGifts := a.availableGifts - 1, giftsUsed := a.giftsUsed + 1)
  {
    ReachableInv(w);
    PendingHolds(w, r);
    var p, g := w.requests[r].owner, w.requests[r].kind.gift;
    CountersCover(w, p);
    assert HeldBy(p)(w.gifts[g]) <= StateOf(w, p).availableGifts;
  }

  /** Reversing a redemption always succeeds, makes exactly its gift AVAILABLE again and moves one gift back. */
  lemma RedeemReversal(w: World, t: nat, scope: Option<nat>, force: bool)
    requires Reachable(w) && t < |w.ledger| && MayReverse(w, t, scope)
    requires w.ledger[t].kind.GiftRedeem? && w.ledger[t].status == COMPLETED
    ensures Reverse(w, t, scope, force, true).Ok?
    ensures var p, g, u := w.ledger[t].owner, w.ledger[t].kind.gift, Reverse(w, t, scope, force, true).value;
            var a := StateOf(w, p);
            && g < |w.gifts| && w.gifts[g].owner == p
            && u.gifts == w.gifts[g := Gift(p, AVAILABLE, w.gifts[g].visit, None, None)]
            && StateOf(u, p) == a.(availableGifts := a.availableGifts + 1, giftsUsed := a.giftsUsed - 1)
            && u.lots == w.lots && u.requests == w.requests
  {
    ReachableInv(w);
    var p, g := w.ledger[t].owner, w.ledger[t].kind.gift;
    assert GiftEntry(w, t) && GiftRow(w, g);
    SumAtLeast(w.ledger, Redeeming(g), t);
    CountersCover(w, p);
    assert UsedBy(p)(w.gifts[g]) <= StateOf(w, p).giftsUsed;
  }

  /** The quote's own flag decides what validate_spend accepts, and an accepted request with a spend becomes a
      PENDING request for exactly the quoted amounts. */
  lemma QuoteDecides(w: World, p: Owner, total: int, spend: int, ttl: nat)
    requires QuoteFor(w, p, total, spend).Ok?
    ensures var q := QuoteFor(w, p, total, spend).value;
            && (ValidateSpend(q).Ok? <==> q.spendAllowed)
            && (q.spendAllowed <==>
                  spend <= Available(w.lots, p, w.now)
                  && spend * Money.BPS_DENOMINATOR <= total * w.orgs[p.org].cashback.value.maxSpend)
            && (Redemptions.CreateCashbackRequest(w, p, total, spend, ttl).Ok? <==> q.spendAllowed && spend > 0)
            && (q.spendAllowed ==>
                  && q.cashPaid == total - spend && FairEarn(q.earn, q.cashPaid, w.orgs[p.org].cashback.value.rate))
  {
    var program := w.orgs[p.org].cashback.value;
    Money.ApplyBpsIsFloor(total, program.maxSpend, spend);
    Money.ApplyBpsAtMost(total, program.maxSpend);
    if spend <= total {
      var earn := Money.ApplyBps(total - spend, program.rate);
      Money.ApplyBpsIsFloor(total - spend, program.rate, earn);
      Money.ApplyBpsIsFloor(total - spend, program.rate, earn + 1);
    }
  }

  /** `earn` is the largest whole number of tiyin within the percentage. */
  predicate FairEarn(earn: int, cash: int, rate: int) {
    earn * Money.BPS_DENOMINATOR <= cash * rate < (earn + 1) * Money.BPS_DENOMINATOR
  }

  /** A lot keeps its bounds through any order of spends and reversals, and unless it was withdrawn every tiyin
      missing from it is in a standing spend, was burned, or came back from a spend reversed after the lot had
      expired. The last two are only possible once it has expired. */
  lemma LotAccounting(w: World, i: nat)
    requires Reachable(w) && i < |w.lots|
    ensures var l := w.lots[i];
            var used, burned, late :=
              LiveUse(w.ledger, i), Burned(w.ledger, i), LateBack(w.ledger, i, l.expiresAt);
            && 0 <= l.remaining <= l.original
            && (l.remaining > 0 <==> l.status == ACTIVE)
            && 0 <= used <= l.original - l.remaining && 0 <= burned && 0 <= late
            && (l.status != WITHDRAWN ==> l.original - l.remaining == used + burned + late)
            && (l.status != WITHDRAWN && w.now < l.expiresAt ==> burned == late == 0)
  {
    ReachableInv(w);
    ReachableHistory(w);
    assert LotRow(w, i) && Accounted(w, i);
    UseNonNegative(w, i);
    SumNonNegative(w.ledger, UseOn(i));
    HistoryNonNegative(w, i, w.lots[i].expiresAt);
    SumNonNegative(w.ledger, BurnOn(i));
    SumNonNegative(w.ledger, LateOn(w.ledger, i, w.lots[i].expiresAt));
  }

  // ---- reversing an earning ----

  /** A COMPLETED spend that still uses lot `i`. */
  ghost predicate LiveSpendOn(w: World, i: nat) {
    exists t :: 0 <= t < |w.ledger| && UseOn(i)(w.ledger[t]) > 0
  }

  /** The sweep burned what was left of lot `i`. */
  ghost predicate Swept(w: World, i: nat) {
    exists t :: 0 <= t < |w.ledger| && w.ledger[t].kind.CashbackExpire? && w.ledger[t].kind.burnedLot == i
  }

  /** A spend from lot `i` was reversed when the lot had already expired. */
  ghost predicate ReturnedLate(w: World, i: nat)
    requires i < |w.lots|
  {
    exists t :: 0 <= t < |w.ledger| && LateOn(w.ledger, i, w.lots[i].expiresAt)(w.ledger[t]) > 0
  }

  lemma LiveSpendMeansUse(w: World, i: nat)
    requires CashInv(w)
    ensures LiveSpendOn(w, i) <==> LiveUse(w.ledger, i) > 0
  {
    if LiveSpendOn(w, i) {
      var t :| 0 <= t < |w.ledger| && UseOn(i)(w.ledger[t]) > 0;
      UseCoversEntry(w, t, i);
    } else if LiveUse(w.ledger, i) > 0 {
      var t := SumWitness(w.ledger, UseOn(i));
      assert false;
    }
  }

  lemma SweptMeansBurned(w: World, i: nat)
    requires CashInv(w)
    ensures Swept(w, i) <==> Burned(w.ledger, i) > 0
  {
    HistoryNonNegative(w, i, 0);
    if Swept(w, i) {
      var t :| 0 <= t < |w.ledger| && w.ledger[t].kind.CashbackExpire? && w.ledger[t].kind.burnedLot == i;
      assert CashEntry(w, t);
      SumAtLeast(w.ledger, BurnOn(i), t);
    } else if Burned(w.ledger, i) > 0 {
      var t := SumWitness(w.ledger, BurnOn(i));
      assert false;
    }
  }

  lemma ReturnedLateMeansLate(w: World, i: nat)
    requires CashInv(w) && i < |w.lots|
    ensures ReturnedLate(w, i) <==> LateBack(w.ledger, i, w.lots[i].expiresAt) > 0
  {
    var late := LateOn(w.ledger, i, w.lots[i].expiresAt);
    HistoryNonNegative(w, i, w.lots[i].expiresAt);
    if ReturnedLate(w, i) {
      var t :| 0 <= t < |w.ledger| && late(w.ledger[t]) > 0;
      SumAtLeast(w.ledger, late, t);
    } else if LateBack(w.ledger, i, w.lots[i].expiresAt) > 0 {
      var t := SumWitness(w.ledger, late);
      assert false;
    }
  }

  /** Without force an earning is refused as partly spent exactly when a standing spend uses its lot, an expiry
      entry names the lot, or a spend from it was reversed at or after its expiry. So the refusal is right while
      the lot has not expired, and wrong in exactly the last two cases with no standing spend beside them. With
      force the reversal always succeeds. */
  lemma EarnReversalRefused(w: World, t: nat, scope: Option<nat>)
    requires Reachable(w) && t < |w.ledger| && MayReverse(w, t, scope)
    requires w.ledger[t].kind.CashbackEarn? && w.ledger[t].status == COMPLETED
    ensures w.ledger[t].kind.lot.Some? && w.ledger[t].kind.lot.value < |w.lots|
    ensures Reverse(w, t, scope, true, true).Ok?
    ensures var i := w.ledger[t].kind.lot.value;
            var refused := Reverse(w, t, scope, false, true).Err?;
            && (refused <==> LiveSpendOn(w, i) || Swept(w, i) || ReturnedLate(w, i))
            && (w.now < w.lots[i].expiresAt ==> !Swept(w, i) && !ReturnedLate(w, i))
  {
    ReachableInv(w);
    assert CashEntry(w, t);
    var i := w.ledger[t].kind.lot.value;
    assert LotRow(w, i);
    LotAccounting(w, i);
    LiveSpendMeansUse(w, i);
    SweptMeansBurned(w, i);
    ReturnedLateMeansLate(w, i);
  }

  // ---- reversing a spend ----

  /** The lot has neither expired nor been withdrawn. */
  predicate Takes(l: Lot, now: int) {
    now < l.expiresAt && l.status != WITHDRAWN
  }

  lemma EmptySum<T>(s: seq<T>, f: T -> int)
    requires s == []
    ensures Sum(s, f) == 0
  {
  }

  lemma {:induction false} LostIsWhatCannotReturn(lots: seq<Lot>, consumed: seq<Consumed>, now: int)
    requires Entries(lots, consumed)
    ensures GiveBack(lots, consumed, now).lost == 0 <==>
              forall k :: 0 <= k < |consumed| ==> Restorable(lots[consumed[k].lot], now)
  {
    if consumed != [] {
      LostIsWhatCannotReturn(lots, consumed[..|consumed| - 1], now);
      GiveBackPerLot(lots, consumed[..|consumed| - 1], now);
    }
  }

  /** The lot with what a spend took back in it, if it can still take it. */
  function GivenBack(l: Lot, taken: int, now: int): Lot {
    if taken > 0 && Takes(l, now) then l.(remaining := l.remaining + taken, status := ACTIVE) else l
  }

  /** Reversing a confirmed spend accounts for all of it, returns to each lot that can take it exactly what
      the spend took, whatever came in between and with its expiry date as it was, and touches no other lot. Nothing
      is lost exactly when none of its lots has expired or been withdrawn. */
  lemma SpendReversal(w: World, t: nat, scope: Option<nat>, force: bool)
    requires Reachable(w) && t < |w.ledger| && MayReverse(w, t, scope)
    requires w.ledger[t].kind.CashbackSpend? && w.ledger[t].status == COMPLETED
    ensures Reverse(w, t, scope, force, true).Ok?
    ensures
      var consumed, u := w.ledger[t].kind.consumed, Reverse(w, t, scope, force, true).value;
      var effect := u.ledger[|w.ledger|].kind.effect;
      && effect.SpendUndone? && effect.restored + effect.lost == w.ledger[t].kind.spent
      && |u.lots| == |w.lots| && u.gifts == w.gifts
      && (forall i :: 0 <= i < |w.lots| ==>
            && u.lots[i] == GivenBack(w.lots[i], TakenFrom(consumed, i), w.now)
            && LiveUse(u.ledger, i) == LiveUse(w.ledger, i) - TakenFrom(consumed, i))
      && (forall k :: 0 <= k < |consumed| ==> consumed[k].lot < |w.lots|)
      && (effect.lost == 0 <==> forall k :: 0 <= k < |consumed| ==> Takes(w.lots[consumed[k].lot], w.now))
  {
    hide Sum;
    ReachableInv(w);
    var consumed := w.ledger[t].kind.consumed;
    assert CashEntry(w, t);
    assert consumed != [] by { if consumed == [] { EmptySum(consumed, EntryAmount()); } }
    var u := Reverse(w, t, scope, force, true).value;
    GiveBackPerLot(w.lots, consumed, w.now);
    forall i | 0 <= i < |w.lots|
      ensures Restorable(w.lots[i], w.now) == Takes(w.lots[i], w.now)
      ensures u.lots[i] == GivenBack(w.lots[i], TakenFrom(consumed, i), w.now)
      ensures LiveUse(u.ledger, i) == LiveUse(w.ledger, i) - TakenFrom(consumed, i)
    {
      assert LotRow(w, i);
      TakenFromNonNegative(consumed, i);
      SumBooked(w.ledger, t, w.ledger[t].(status := REVERSED), u.ledger[|w.ledger|], UseOn(i));
    }
    LostIsWhatCannotReturn(w.lots, consumed, w.now);
  }

  // ---- gifts ----

  /** Exactly one row of a table counts for `f`. */
  ghost predicate ExactlyOne<T>(s: seq<T>, f: T -> int) {
    exists i :: 0 <= i < |s| && f(s[i]) == 1 && forall j :: 0 <= j < |s| && j != i ==> f(s[j]) == 0
  }

  lemma OneRowSums<T>(s: seq<T>, f: T -> int, i: nat)
    requires i < |s| && f(s[i]) == 1 && forall j :: 0 <= j < |s| && j != i ==> f(s[j]) == 0
    ensures Sum(s, f) == 1
  {
    SumConst(s[..i], f, 0);
    SumSnoc(s[..i], s[i], f);
    SumFrame(s[..i] + [s[i]], s, f);
  }

  lemma CountsOne<T>(s: seq<T>, f: T -> int)
    requires forall i :: 0 <= i < |s| ==> f(s[i]) == 0 || f(s[i]) == 1
    ensures Sum(s, f) == 1 <==> ExactlyOne(s, f)
  {
    if ExactlyOne(s, f) {
      var i :| 0 <= i < |s| && f(s[i]) == 1 && forall j :: 0 <= j < |s| && j != i ==> f(s[j]) == 0;
      OneRowSums(s, f, i);
    } else if Sum(s, f) == 1 {
      var i := SumWitness(s, f);
      var j :| 0 <= j < |s| && j != i && f(s[j]) != 0;
      SumAtLeastTwo(s, f, if i < j then i else j, if i < j then j else i);
    }
  }

  /** A gift's status tells exactly which request, redemption or reversal it is tied to. */
  lemma GiftCoupling(w: World, g: nat)
    requires Reachable(w) && g < |w.gifts|
    ensures w.gifts[g].status == PENDING_REDEMPTION <==> ExactlyOne(w.requests, Naming(g))
    ensures w.gifts[g].status == USED <==> ExactlyOne(w.ledger, Redeeming(g))
    ensures w.gifts[g].visit < |w.ledger|
    ensures w.gifts[g].status == CANCELLED <==> w.ledger[w.gifts[g].visit].status == REVERSED
    ensures w.gifts[g].status == USED ==>
              w.gifts[g].redeemTx.Some? && w.gifts[g].redeemTx.value < |w.ledger|
              && Redeeming(g)(w.ledger[w.gifts[g].redeemTx.value]) == 1
  {
    ReachableInv(w);
    assert GiftRow(w, g);
    CountsOne(w.requests, Naming(g));
    CountsOne(w.ledger, Redeeming(g));
  }

  /** The counters are the status counts, progress is bounded by the visits, and no gift is unaccounted for. */
  lemma CountersAgree(w: World, p: Owner)
    requires Reachable(w)
    ensures var a := StateOf(w, p);
            && 0 <= a.totalVisits == Sum(w.ledger, VisitsBy(p))
            && 0 <= a.availableGifts == Sum(w.gifts, HeldBy(p))
            && 0 <= a.giftsUsed == Sum(w.gifts, UsedBy(p))
            && a.giftsEarned == Sum(w.gifts, KeptBy(p)) == a.availableGifts + a.giftsUsed
            && 0 <= a.progress
            && a.totalVisits <= a.progress + Sum(w.ledger, OpenTargets(p)) <= Sum(w.ledger, VisitsEver(p))
  {
    ReachableInv(w);
    assert VisitBalance(w, p);
    CountersCover(w, p);
    HeldPlusUsed(w, p);
  }

  /** A visit can be reversed exactly while none of its gifts is used or asked for; gifts, totals and, for a
      threshold visit, progress are then restored exactly. Progress is clamped exactly when the visit gave no
      gift and nothing of the progress is left. */
  lemma VisitReversal(w: World, t: nat, scope: Option<nat>, force: bool)
    requires Reachable(w) && t < |w.ledger| && MayReverse(w, t, scope)
    requires w.ledger[t].kind.VisitEarn? && w.ledger[t].status == COMPLETED
    ensures var r, k, p := Reverse(w, t, scope, force, true), w.ledger[t].kind, w.ledger[t].owner;
            && (forall i :: 0 <= i < |k.gifts| ==> k.gifts[i] < |w.gifts|)
            && (r.Ok? <==> forall i :: 0 <= i < |k.gifts| ==> w.gifts[k.gifts[i]].status == AVAILABLE)
            && (r.Ok? ==>
                  var a, b := StateOf(w, p), StateOf(r.value, p);
                  && b.totalVisits == a.totalVisits - 1
                  && b.availableGifts == a.availableGifts - |k.gifts|
                  && b.giftsEarned == a.giftsEarned - |k.gifts|
                  && b.giftsUsed == a.giftsUsed
                  && b.progress == a.progress + (if k.gifts != [] then k.target - 1
                                                 else if a.progress == 0 then 0 else -1))
  {
    ReachableInv(w);
    assert GiftEntry(w, t);
    var ids := w.ledger[t].kind.gifts;
    forall i | 0 <= i < |ids| ensures w.gifts[ids[i]].status != CANCELLED { assert GiftRow(w, ids[i]); }
    if Reverse(w, t, scope, force, true).Ok? {
      StandingVisit(w, t);
      UndoVisitState(w, t);
    } else {
      var i :| 0 <= i < |ids| && Blocks(w.gifts, ids[i]);
      assert w.gifts[ids[i]].status != AVAILABLE;
    }
  }
}
