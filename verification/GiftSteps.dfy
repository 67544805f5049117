/** Every visit and gift operation keeps the visit and gift invariant. */
module GiftSteps {
  import opened Rows
  import opened Sums
  import opened Visits
  import opened Redemptions
  import opened Reversals
  import opened Accounts
  import opened GiftLaws

  // ---- a visit ----

  lemma VisitKeepsRow(w: World, p: Owner, program: VisitProgram, g: nat)
    requires GiftInv(w) && g < |PostVisit(w, p, program).gifts|
    ensures GiftRow(PostVisit(w, p, program), g)
  {
    hide Sum;
    var u := PostVisit(w, p, program);
    var t := |w.ledger|;
    SumFrame(w.ledger, u.ledger, Redeeming(g));
    if g < |w.gifts| {
      assert GiftRow(w, g);
    } else {
      UnusedGift(w, g);
      assert u.gifts[g] == Gift(p, AVAILABLE, t, None, None);
      assert u.ledger[t].kind.gifts[g - |w.gifts|] == g;
    }
  }

  lemma VisitKeepsEntry(w: World, p: Owner, program: VisitProgram, t: nat)
    requires GiftInv(w) && t < |PostVisit(w, p, program).ledger|
    ensures GiftEntry(PostVisit(w, p, program), t)
  {
    var u := PostVisit(w, p, program);
    if t < |w.ledger| {
      assert GiftEntry(w, t);
    } else if t > |w.ledger| {
      var i := t - |w.ledger| - 1;
      assert u.gifts[|w.gifts| + i].owner == p;
    }
  }

  /** The visit sums of a ledger that one entry is appended to. */
  lemma VisitSnoc(ledger: seq<Transaction>, x: Transaction, q: Owner)
    ensures Sum(ledger + [x], VisitsBy(q)) == Sum(ledger, VisitsBy(q)) + VisitsBy(q)(x)
    ensures Sum(ledger + [x], OpenTargets(q)) == Sum(ledger, OpenTargets(q)) + OpenTargets(q)(x)
    ensures Sum(ledger + [x], VisitsEver(q)) == Sum(ledger, VisitsEver(q)) + VisitsEver(q)(x)
  {
    SumSnoc(ledger, x, VisitsBy(q));
    SumSnoc(ledger, x, OpenTargets(q));
    SumSnoc(ledger, x, VisitsEver(q));
  }

  lemma VisitUpdate(ledger: seq<Transaction>, t: nat, x: Transaction, q: Owner)
    requires t < |ledger|
    ensures Sum(ledger[t := x], VisitsBy(q)) == Sum(ledger, VisitsBy(q)) - VisitsBy(q)(ledger[t]) + VisitsBy(q)(x)
    ensures Sum(ledger[t := x], OpenTargets(q))
         == Sum(ledger, OpenTargets(q)) - OpenTargets(q)(ledger[t]) + OpenTargets(q)(x)
    ensures Sum(ledger[t := x], VisitsEver(q))
         == Sum(ledger, VisitsEver(q)) - VisitsEver(q)(ledger[t]) + VisitsEver(q)(x)
  {
    SumUpdate(ledger, t, x, VisitsBy(q));
    SumUpdate(ledger, t, x, OpenTargets(q));
    SumUpdate(ledger, t, x, VisitsEver(q));
  }

  lemma NewEntriesCount(ledger: seq<Transaction>, p: Owner, first: nat, visit: nat, now: int, n: nat, q: Owner)
    ensures var u := ledger + NewGiftEntries(p, first, visit, now, n);
            && Sum(u, VisitsBy(q)) == Sum(ledger, VisitsBy(q))
            && Sum(u, OpenTargets(q)) == Sum(ledger, OpenTargets(q))
            && Sum(u, VisitsEver(q)) == Sum(ledger, VisitsEver(q))
  {
    var u := ledger + NewGiftEntries(p, first, visit, now, n);
    forall i | |ledger| <= i < |u|
      ensures VisitsBy(q)(u[i]) == OpenTargets(q)(u[i]) == VisitsEver(q)(u[i]) == 0
    {
      assert u[i] == NewGiftEntries(p, first, visit, now, n)[i - |ledger|];
    }
    SumFrame(ledger, u, VisitsBy(q));
    SumFrame(ledger, u, OpenTargets(q));
    SumFrame(ledger, u, VisitsEver(q));
  }

  lemma NewGiftsCount(gifts: seq<Gift>, p: Owner, visit: nat, n: nat, q: Owner)
    ensures var u, m := gifts + NewGifts(p, visit, n), if q == p then n else 0;
            && Sum(u, HeldBy(q)) == Sum(gifts, HeldBy(q)) + m
            && Sum(u, KeptBy(q)) == Sum(gifts, KeptBy(q)) + m
            && Sum(u, UsedBy(q)) == Sum(gifts, UsedBy(q))
  {
    hide Sum;
    var created := NewGifts(p, visit, n);
    SumConcat(gifts, created, HeldBy(q));
    SumConcat(gifts, created, KeptBy(q));
    SumConcat(gifts, created, UsedBy(q));
    SumConst(created, HeldBy(q), if q == p then 1 else 0);
    SumConst(created, KeptBy(q), if q == p then 1 else 0);
    SumConst(created, UsedBy(q), 0);
  }

  lemma VisitBalances(w: World, p: Owner, program: VisitProgram, q: Owner)
    requires GiftInv(w)
    ensures VisitBalance(PostVisit(w, p, program), q)
  {
    hide Sum;
    var u := PostVisit(w, p, program);
    assert VisitBalance(w, q);
    var n := |u.gifts| - |w.gifts|;
    var visit := u.ledger[|w.ledger|];
    NewGiftsCount(w.gifts, p, |w.ledger|, n, q);
    VisitSnoc(w.ledger, visit, q);
    NewEntriesCount(w.ledger + [visit], p, |w.gifts|, |w.ledger|, w.now, n, q);
  }

  lemma VisitKeeps(w: World, p: Owner, program: VisitProgram)
    requires GiftInv(w)
    ensures GiftInv(PostVisit(w, p, program))
  {
    var u := PostVisit(w, p, program);
    forall g | 0 <= g < |u.gifts| ensures GiftRow(u, g) { VisitKeepsRow(w, p, program, g); }
    forall t | 0 <= t < |u.ledger| ensures GiftEntry(u, t) { VisitKeepsEntry(w, p, program, t); }
    forall r | 0 <= r < |u.requests| ensures GiftAsked(u, r) { assert GiftAsked(w, r); }
    forall q ensures VisitBalance(u, q) { VisitBalances(w, p, program, q); }
  }

  // ---- one gift changes ----

  /** The gift rows and entries after gift `g` alone changes, without changing hands. */
  ghost predicate OneGift(w: World, u: World, g: nat) {
    && g < |w.gifts| && |u.gifts| == |w.gifts|
    && u.gifts == w.gifts[g := u.gifts[g]]
    && u.gifts[g].owner == w.gifts[g].owner && u.gifts[g].visit == w.gifts[g].visit
    && (u.gifts[g].status == CANCELLED <==> w.gifts[g].status == CANCELLED)
    && w.now <= u.now
  }

  lemma GiftCounts(w: World, u: World, g: nat, q: Owner)
    requires OneGift(w, u, g)
    ensures Sum(u.gifts, HeldBy(q)) == Sum(w.gifts, HeldBy(q)) - HeldBy(q)(w.gifts[g]) + HeldBy(q)(u.gifts[g])
    ensures Sum(u.gifts, KeptBy(q)) == Sum(w.gifts, KeptBy(q))
    ensures Sum(u.gifts, UsedBy(q)) == Sum(w.gifts, UsedBy(q)) - UsedBy(q)(w.gifts[g]) + UsedBy(q)(u.gifts[g])
  {
    hide Sum;
    SumUpdate(w.gifts, g, u.gifts[g], HeldBy(q));
    SumUpdate(w.gifts, g, u.gifts[g], KeptBy(q));
    SumUpdate(w.gifts, g, u.gifts[g], UsedBy(q));
  }

  lemma HoldKeeps(w: World, p: Owner, g: nat, ttl: nat)
    requires GiftInv(w) && CreateGiftRequest(w, p, g, ttl).Ok?
    ensures GiftInv(CreateGiftRequest(w, p, g, ttl).value)
  {
    hide Sum;
    var u := CreateGiftRequest(w, p, g, ttl).value;
    forall h | 0 <= h < |u.gifts| ensures GiftRow(u, h) {
      assert GiftRow(w, h);
      SumSnoc(w.requests, u.requests[|w.requests|], Naming(h));
    }
    forall t | 0 <= t < |u.ledger| ensures GiftEntry(u, t) { assert GiftEntry(w, t); }
    forall r | 0 <= r < |u.requests| ensures GiftAsked(u, r) {
      if r < |w.requests| { assert GiftAsked(w, r); }
    }
    forall q ensures VisitBalance(u, q) {
      assert VisitBalance(w, q);
      GiftCounts(w, u, g, q);
    }
  }

  /** A request closes without a redemption: its gift, if any, is available again. */
  lemma CloseKeeps(w: World, r: nat, status: RequestStatus)
    requires GiftInv(w) && r < |w.requests| && w.requests[r].status == PENDING && status != PENDING
    ensures GiftInv(Close(w, r, status))
  {
    hide Sum;
    var u := Close(w, r, status);
    if w.requests[r].kind.CashbackRequest? {
      GiftFrame(w, u);
    } else {
      PendingHolds(w, r);
      var g := w.requests[r].kind.gift;
      forall h | 0 <= h < |u.gifts| ensures GiftRow(u, h) {
        assert GiftRow(w, h);
        SumUpdate(w.requests, r, u.requests[r], Naming(h));
      }
      forall t | 0 <= t < |u.ledger| ensures GiftEntry(u, t) { assert GiftEntry(w, t); }
      forall s | 0 <= s < |u.requests| ensures GiftAsked(u, s) { assert GiftAsked(w, s); }
      forall q ensures VisitBalance(u, q) {
        assert VisitBalance(w, q);
        GiftCounts(w, u, g, q);
      }
    }
  }

  lemma RedeemBalances(w: World, r: nat, q: Owner)
    requires GiftInv(w) && r < |w.requests|
    requires w.requests[r].status == PENDING && w.requests[r].kind.GiftRequest?
    ensures w.requests[r].kind.gift < |w.gifts|
    ensures VisitBalance(PostRedeem(w, w.requests[r].owner, w.requests[r].kind.gift, r), q)
  {
    PendingHolds(w, r);
    var p, g := w.requests[r].owner, w.requests[r].kind.gift;
    var u := PostRedeem(w, p, g, r);
    assert VisitBalance(w, q);
    CountersCover(w, p);
    assert HeldBy(p)(w.gifts[g]) <= StateOf(w, p).availableGifts;
    GiftCounts(w, u, g, q);
    VisitSnoc(w.ledger, u.ledger[|w.ledger|], q);
  }

  /** A confirmed gift request: the gift is used by the new entry and no longer requested. */
  lemma RedeemKeeps(w: World, r: nat)
    requires GiftInv(w) && r < |w.requests|
    requires w.requests[r].status == PENDING && w.requests[r].kind.GiftRequest?
    ensures w.requests[r].kind.gift < |w.gifts|
    ensures GiftInv(Settle(PostRedeem(w, w.requests[r].owner, w.requests[r].kind.gift, r), r, |w.ledger|))
  {
    hide Sum;
    PendingHolds(w, r);
    var p, g := w.requests[r].owner, w.requests[r].kind.gift;
    var v := PostRedeem(w, p, g, r);
    var u := Settle(v, r, |w.ledger|);
    forall h | 0 <= h < |u.gifts| ensures GiftRow(u, h) {
      assert GiftRow(w, h);
      SumUpdate(w.requests, r, u.requests[r], Naming(h));
      SumSnoc(w.ledger, u.ledger[|w.ledger|], Redeeming(h));
    }
    forall t | 0 <= t < |u.ledger| ensures GiftEntry(u, t) {
      if t < |w.ledger| { assert GiftEntry(w, t); }
    }
    forall s | 0 <= s < |u.requests| ensures GiftAsked(u, s) { assert GiftAsked(w, s); }
    forall q ensures VisitBalance(u, q) {
      RedeemBalances(w, r, q);
      assert VisitBalance(v, q);
    }
  }

  lemma UndoRedeemBalances(w: World, t: nat, q: Owner)
    requires GiftInv(w) && t < |w.ledger| && w.ledger[t].kind.GiftRedeem?
    requires w.ledger[t].status == COMPLETED && UndoRedeem(w, t).Ok?
    ensures VisitBalance(UndoRedeem(w, t).value, q)
  {
    hide Sum;
    var u := UndoRedeem(w, t).value;
    var tx, g := w.ledger[t], w.ledger[t].kind.gift;
    assert GiftEntry(w, t) && VisitBalance(w, q);
    CountersCover(w, tx.owner);
    assert UsedBy(tx.owner)(w.gifts[g]) <= StateOf(w, tx.owner).giftsUsed;
    GiftCounts(w, u, g, q);
    var marked := tx.(status := REVERSED);
    VisitUpdate(w.ledger, t, marked, q);
    VisitSnoc(w.ledger[t := marked], u.ledger[|w.ledger|], q);
  }

  lemma UndoRedeemKeeps(w: World, t: nat)
    requires GiftInv(w) && t < |w.ledger| && w.ledger[t].kind.GiftRedeem?
    requires w.ledger[t].status == COMPLETED && UndoRedeem(w, t).Ok?
    ensures GiftInv(UndoRedeem(w, t).value)
  {
    hide Sum;
    var u := UndoRedeem(w, t).value;
    var tx, g := w.ledger[t], w.ledger[t].kind.gift;
    assert GiftEntry(w, t);
    forall h | 0 <= h < |u.gifts| ensures GiftRow(u, h) {
      assert GiftRow(w, h);
      SumBooked(w.ledger, t, tx.(status := REVERSED), u.ledger[|w.ledger|], Redeeming(h));
      if w.gifts[h].redeemTx == Some(t) {
        assert h == g;
      }
    }
    forall s | 0 <= s < |u.ledger| ensures GiftEntry(u, s) {
      if s < |w.ledger| { assert GiftEntry(w, s); }
    }
    forall s | 0 <= s < |u.requests| ensures GiftAsked(u, s) { assert GiftAsked(w, s); }
    forall q ensures VisitBalance(u, q) { UndoRedeemBalances(w, t, q); }
  }

  // ---- reversing a visit ----

  lemma {:induction false} CancelPerGift(gifts: seq<Gift>, ids: seq<nat>)
    ensures forall g :: 0 <= g < |gifts| ==>
      CancelGifts(gifts, ids)[g]
      == if g in ids && gifts[g].status == AVAILABLE then gifts[g].(status := CANCELLED) else gifts[g]
  {
    if ids != [] {
      var init := ids[..|ids| - 1];
      CancelPerGift(gifts, init);
      assert ids == init + [ids[|ids| - 1]];
    }
  }

  /** Distinct AVAILABLE gifts of one owner. */
  ghost predicate AllAvailable(gifts: seq<Gift>, ids: seq<nat>, p: Owner) {
    && (forall k :: 0 <= k < |ids| ==>
          ids[k] < |gifts| && gifts[ids[k]].owner == p && gifts[ids[k]].status == AVAILABLE)
    && (forall j, k :: 0 <= j < k < |ids| ==> ids[j] != ids[k])
  }

  /** Cancelling all but the last leaves the last one AVAILABLE. */
  lemma LastStillAvailable(gifts: seq<Gift>, ids: seq<nat>, p: Owner)
    requires AllAvailable(gifts, ids, p) && ids != []
    ensures AllAvailable(gifts, ids[..|ids| - 1], p)
    ensures CancelGifts(gifts, ids[..|ids| - 1])[ids[|ids| - 1]] == gifts[ids[|ids| - 1]]
  {
    var init, g := ids[..|ids| - 1], ids[|ids| - 1];
    CancelPerGift(gifts, init);
    forall k | 0 <= k < |init| ensures init[k] != g { assert init[k] == ids[k]; }
  }

  lemma {:induction false} CancelsListed(gifts: seq<Gift>, ids: seq<nat>, p: Owner)
    requires AllAvailable(gifts, ids, p)
    ensures CancelledOf(gifts, ids) == ids
  {
    if ids != [] {
      LastStillAvailable(gifts, ids, p);
      CancelsListed(gifts, ids[..|ids| - 1], p);
    }
  }

  /** A count that cancelling lowers falls by the number of gifts cancelled. */
  lemma {:induction false} CancelsEach(gifts: seq<Gift>, ids: seq<nat>, p: Owner, f: Gift -> int, counted: bool)
    requires AllAvailable(gifts, ids, p)
    requires forall k :: 0 <= k < |ids| ==>
      f(gifts[ids[k]]) - f(gifts[ids[k]].(status := CANCELLED)) == if counted then 1 else 0
    ensures Sum(CancelGifts(gifts, ids), f) == Sum(gifts, f) - if counted then |ids| else 0
  {
    hide Sum;
    if ids != [] {
      var init, g := ids[..|ids| - 1], ids[|ids| - 1];
      LastStillAvailable(gifts, ids, p);
      CancelsEach(gifts, init, p, f, counted);
      SumUpdate(CancelGifts(gifts, init), g, gifts[g].(status := CANCELLED), f);
    }
  }

  lemma CancelsAll(gifts: seq<Gift>, ids: seq<nat>, p: Owner, q: Owner)
    requires AllAvailable(gifts, ids, p)
    ensures var n := if q == p then |ids| else 0;
            && Sum(CancelGifts(gifts, ids), HeldBy(q)) == Sum(gifts, HeldBy(q)) - n
            && Sum(CancelGifts(gifts, ids), KeptBy(q)) == Sum(gifts, KeptBy(q)) - n
            && Sum(CancelGifts(gifts, ids), UsedBy(q)) == Sum(gifts, UsedBy(q))
  {
    CancelsEach(gifts, ids, p, HeldBy(q), q == p);
    CancelsEach(gifts, ids, p, KeptBy(q), q == p);
    CancelsEach(gifts, ids, p, UsedBy(q), false);
  }

  /** A standing visit that can be reversed has all its gifts AVAILABLE. */
  lemma StandingVisit(w: World, t: nat)
    requires GiftInv(w) && t < |w.ledger| && w.ledger[t].kind.VisitEarn? && w.ledger[t].status == COMPLETED
    requires UndoVisit(w, t).Ok?
    ensures AllAvailable(w.gifts, w.ledger[t].kind.gifts, w.ledger[t].owner)
  {
    var ids := w.ledger[t].kind.gifts;
    assert GiftEntry(w, t);
    forall k | 0 <= k < |ids|
      ensures ids[k] < |w.gifts| && w.gifts[ids[k]].owner == w.ledger[t].owner
      ensures w.gifts[ids[k]].status == AVAILABLE
    {
      assert GiftRow(w, ids[k]);
      assert !Blocks(w.gifts, ids[k]);
    }
  }

  /** What reversing a visit does to the aggregate. Only progress can be clamped: when the visit gave
      no gift and nothing is left of the progress it made. */
  lemma UndoVisitState(w: World, t: nat)
    requires GiftInv(w) && t < |w.ledger| && w.ledger[t].kind.VisitEarn? && w.ledger[t].status == COMPLETED
    requires UndoVisit(w, t).Ok?
    ensures var k, a := w.ledger[t].kind, StateOf(w, w.ledger[t].owner);
            StateOf(UndoVisit(w, t).value, w.ledger[t].owner)
            == a.(progress := if k.gifts != [] then a.progress + k.target - 1
                              else if a.progress == 0 then 0 else a.progress - 1,
                  totalVisits := a.totalVisits - 1,
                  availableGifts := a.availableGifts - |k.gifts|,
                  giftsEarned := a.giftsEarned - |k.gifts|)
  {
    hide Sum;
    var tx, ids := w.ledger[t], w.ledger[t].kind.gifts;
    var p := tx.owner;
    assert GiftEntry(w, t) && VisitBalance(w, p);
    StandingVisit(w, t);
    CancelsListed(w.gifts, ids, p);
    CancelsAll(w.gifts, ids, p, p);
    CountersCover(w, p);
    SumNonNegative(CancelGifts(w.gifts, ids), HeldBy(p));
    SumNonNegative(CancelGifts(w.gifts, ids), KeptBy(p));
    assert VisitsBy(p)(w.ledger[t]) <= StateOf(w, p).totalVisits;
  }

  lemma UndoVisitBalances(w: World, t: nat, q: Owner)
    requires GiftInv(w) && t < |w.ledger| && w.ledger[t].kind.VisitEarn? && w.ledger[t].status == COMPLETED
    requires UndoVisit(w, t).Ok?
    ensures VisitBalance(UndoVisit(w, t).value, q)
  {
    hide Sum;
    var u := UndoVisit(w, t).value;
    var tx, ids := w.ledger[t], w.ledger[t].kind.gifts;
    assert GiftEntry(w, t) && VisitBalance(w, q);
    StandingVisit(w, t);
    UndoVisitState(w, t);
    CancelsAll(w.gifts, ids, tx.owner, q);
    var marked := tx.(status := REVERSED);
    VisitUpdate(w.ledger, t, marked, q);
    VisitSnoc(w.ledger[t := marked], u.ledger[|w.ledger|], q);
  }

  lemma UndoVisitKeepsRow(w: World, t: nat, g: nat)
    requires GiftInv(w) && t < |w.ledger| && w.ledger[t].kind.VisitEarn? && w.ledger[t].status == COMPLETED
    requires UndoVisit(w, t).Ok? && g < |w.gifts|
    ensures GiftRow(UndoVisit(w, t).value, g)
  {
    var u := UndoVisit(w, t).value;
    var tx, ids := w.ledger[t], w.ledger[t].kind.gifts;
    assert GiftEntry(w, t) && GiftRow(w, g);
    StandingVisit(w, t);
    CancelPerGift(w.gifts, ids);
    SumBooked(w.ledger, t, tx.(status := REVERSED), u.ledger[|w.ledger|], Redeeming(g));
    if g in ids {
      assert w.gifts[g].visit == t;
    }
  }

  lemma UndoVisitKeeps(w: World, t: nat)
    requires GiftInv(w) && t < |w.ledger| && w.ledger[t].kind.VisitEarn? && w.ledger[t].status == COMPLETED
    requires UndoVisit(w, t).Ok?
    ensures GiftInv(UndoVisit(w, t).value)
  {
    var u := UndoVisit(w, t).value;
    CancelPerGift(w.gifts, w.ledger[t].kind.gifts);
    forall g | 0 <= g < |u.gifts| ensures GiftRow(u, g) { UndoVisitKeepsRow(w, t, g); }
    forall s | 0 <= s < |u.ledger| ensures GiftEntry(u, s) {
      if s < |w.ledger| { assert GiftEntry(w, s); }
    }
    forall r | 0 <= r < |u.requests| ensures GiftAsked(u, r) { assert GiftAsked(w, r); }
    forall q ensures VisitBalance(u, q) { UndoVisitBalances(w, t, q); }
  }
}
