/** Repeated expiry sweeps at one moment reach a fixpoint (app/apps/loyalty/services/cashback.py). */
module Sweep {
  import opened Rows
  import opened Sums
  import opened Cashback
  import opened Accounts
  import opened CashLaws
  import opened CashSteps
  import opened Machine
  import opened Steps

  function DueOne(now: int): Lot -> int {
    (l: Lot) => if Due(l, now) then 1 else 0
  }

  /** How many lots are due. */
  function DueCount(lots: seq<Lot>, now: int): int { Sum(lots, DueOne(now)) }

  /** What a due lot of `p` still holds. */
  function UnsweptValue(p: Owner, now: int): Lot -> int {
    (l: Lot) => if l.owner == p && Due(l, now) then l.remaining else 0
  }

  /** Due lots, none twice. */
  ghost predicate DistinctDue(lots: seq<Lot>, ids: seq<nat>, now: int) {
    && (forall k :: 0 <= k < |ids| ==> ids[k] < |lots| && Due(lots[ids[k]], now))
    && (forall j, k :: 0 <= j < k < |ids| ==> ids[j] != ids[k])
  }

  /** `ids` is an answer to the sweep's query with the given batch size. */
  ghost predicate DueBatch(lots: seq<Lot>, ids: seq<nat>, now: int, batchSize: nat) {
    DistinctDue(lots, ids, now) && |ids| == Min(batchSize, DueCount(lots, now))
  }

  /** Before the sweep is done the fast balance exceeds available_amount by exactly the unswept value. */
  lemma BalanceExceedsByUnswept(w: World, p: Owner)
    requires Reachable(w)
    ensures StateOf(w, p).available == Available(w.lots, p, w.now) + Sum(w.lots, UnsweptValue(p, w.now))
  {
    ReachableInv(w);
    assert CashBalance(w, p);
    forall i | 0 <= i < |w.lots|
      ensures ActiveValue(p)(w.lots[i]) == LiveValue(p, w.now)(w.lots[i]) + UnsweptValue(p, w.now)(w.lots[i])
    {
      assert LotRow(w, i);
    }
    SumSplit(w.lots, ActiveValue(p), LiveValue(p, w.now), UnsweptValue(p, w.now));
  }

  lemma BurnsOne(w: World, i: nat, now: int)
    requires CashInv(w) && i < |w.lots| && now <= w.now && Due(w.lots[i], now)
    ensures var u := BurnLot(w, i, now);
            && CashInv(u) && u.now == w.now
            && u.lots == w.lots[i := w.lots[i].(status := BURNED, remaining := 0)]
            && DueCount(u.lots, now) == DueCount(w.lots, now) - 1
            && |u.ledger| == |w.ledger| + 1
  {
    assert LotRow(w, i);
    BurnKeeps(w, i, now);
    SumUpdate(w.lots, i, w.lots[i].(status := BURNED, remaining := 0), DueOne(now));
  }

  /** A sweep burns the lots of its batch and no other, and writes one entry for each. */
  lemma {:induction false} BatchBurns(w: World, ids: seq<nat>, now: int)
    requires CashInv(w) && now <= w.now && DistinctDue(w.lots, ids, now)
    ensures var u := BurnLots(w, ids, now);
            && CashInv(u) && u.now == w.now
            && (forall i :: 0 <= i < |w.lots| ==>
                  u.lots[i] == if i in ids then w.lots[i].(status := BURNED, remaining := 0) else w.lots[i])
            && DueCount(u.lots, now) == DueCount(w.lots, now) - |ids|
            && |u.ledger| == |w.ledger| + |ids|
  {
    hide CashInv, BurnLot, DueCount;
    if ids != [] {
      var init, i := ids[..|ids| - 1], ids[|ids| - 1];
      assert forall k :: 0 <= k < |init| ==> init[k] == ids[k];
      assert i !in init;
      BatchBurns(w, init, now);
      BurnsOne(BurnLots(w, init, now), i, now);
      assert ids == init + [i];
    }
  }

  lemma DueNonNegative(lots: seq<Lot>, now: int)
    ensures DueCount(lots, now) >= 0
  {
    SumNonNegative(lots, DueOne(now));
  }

  /** Runs of expire_lots at one moment, each with the batch its query returned. */
  ghost predicate SweepRuns(worlds: seq<World>, batches: seq<seq<nat>>, now: int, batchSize: nat) {
    && |worlds| == |batches| + 1
    && forall k :: 0 <= k < |batches| ==>
         DueBatch(worlds[k].lots, batches[k], now, batchSize) && worlds[k + 1] == BurnLots(worlds[k], batches[k], now)
  }

  lemma {:induction false} DueAfterRuns(worlds: seq<World>, batches: seq<seq<nat>>, now: int, batchSize: nat, k: nat)
    requires SweepRuns(worlds, batches, now, batchSize) && k <= |batches|
    requires CashInv(worlds[0]) && now <= worlds[0].now
    ensures CashInv(worlds[k]) && worlds[k].now == worlds[0].now
    ensures DueCount(worlds[k].lots, now) == Max(0, DueCount(worlds[0].lots, now) - k * batchSize)
  {
    DueNonNegative(worlds[0].lots, now);
    if k > 0 {
      DueAfterRuns(worlds, batches, now, batchSize, k - 1);
      BatchBurns(worlds[k - 1], batches[k - 1], now);
      assert k * batchSize == (k - 1) * batchSize + batchSize;
    }
  }

  /** With d due lots, after k runs with k * batch_size >= d nothing is due: the fast balance is
      available_amount for every client, and further runs at that moment change nothing. No smaller number of
      full batches is enough. */
  lemma SweepConverges(w: World, worlds: seq<World>, batches: seq<seq<nat>>, batchSize: nat, k: nat)
    requires Reachable(w) && SweepRuns(worlds, batches, w.now, batchSize) && worlds[0] == w
    requires k <= |batches|
    ensures DueCount(worlds[k].lots, w.now) == 0 <==> k * batchSize >= DueCount(w.lots, w.now)
    ensures k * batchSize >= DueCount(w.lots, w.now) ==>
              && (forall p :: StateOf(worlds[k], p).available == Available(worlds[k].lots, p, w.now))
              && (forall j :: k <= j <= |batches| ==> worlds[j] == worlds[k])
  {
    ReachableInv(w);
    DueAfterRuns(worlds, batches, w.now, batchSize, k);
    if k * batchSize >= DueCount(w.lots, w.now) {
      forall p ensures StateOf(worlds[k], p).available == Available(worlds[k].lots, p, w.now) {
        NothingUnswept(worlds[k], p);
      }
      forall j | k <= j <= |batches| ensures worlds[j] == worlds[k] {
        StaysSwept(worlds, batches, w.now, batchSize, k, j);
      }
    }
  }

  lemma NothingUnswept(w: World, p: Owner)
    requires CashInv(w) && DueCount(w.lots, w.now) == 0
    ensures StateOf(w, p).available == Available(w.lots, p, w.now)
  {
    assert CashBalance(w, p);
    forall i | 0 <= i < |w.lots| ensures ActiveValue(p)(w.lots[i]) == LiveValue(p, w.now)(w.lots[i]) {
      assert LotRow(w, i);
      SumAtLeast(w.lots, DueOne(w.now), i);
    }
    SumSplit(w.lots, ActiveValue(p), LiveValue(p, w.now), (l: Lot) => 0);
    SumConst(w.lots, (l: Lot) => 0, 0);
  }

  lemma {:induction false} StaysSwept(
    worlds: seq<World>, batches: seq<seq<nat>>, now: int, batchSize: nat, k: nat, j: nat)
    requires SweepRuns(worlds, batches, now, batchSize) && k <= j <= |batches|
    requires DueCount(worlds[k].lots, now) == 0
    ensures worlds[j] == worlds[k]
  {
    if k < j {
      StaysSwept(worlds, batches, now, batchSize, k, j - 1);
      assert batches[j - 1] == [];
    }
  }
}
