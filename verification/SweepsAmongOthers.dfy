/** The expiry jobs as they really run: one atomic block for each row, with any other steps in between. */
module SweepsAmongOthers {
  import opened Rows
  import opened Sums
  import opened Guards
  import opened Cashback
  import opened Redemptions
  import opened Reversals
  import opened CashLaws
  import opened CashSteps
  import opened LedgerLaws
  import opened Fifo
  import opened Machine
  import opened Steps
  import opened Safety
  import opened Sweep
  import opened RequestSweep

  // ---- while the clock stands ----

  lemma ClockStood(w: World, ops: seq<Op>)
    requires Inv(w) && CanRun(w, ops) && ops != [] && Run(w, ops).now == w.now
    ensures Inv(Run(w, ops[..|ops| - 1])) && Run(w, ops[..|ops| - 1]).now == w.now
  {
    hide Inv;
    RunKeeps(w, ops[..|ops| - 1]);
    StepKeeps(Run(w, ops[..|ops| - 1]), ops[|ops| - 1]);
  }

  /** One more batch. */
  lemma Drains(d: int, before: int, after: int, k: nat, batchSize: nat)
    requires k > 0 && before <= Max(0, d - (k - 1) * batchSize) && after <= Max(0, before - batchSize)
    ensures after <= Max(0, d - k * batchSize)
  {
    assert k * batchSize == (k - 1) * batchSize + batchSize;
  }

  // ---- no lot becomes due ----

  ghost predicate NoNewDue(lots: seq<Lot>, after: seq<Lot>, now: int) {
    && |lots| <= |after|
    && (forall i :: 0 <= i < |lots| && Due(after[i], now) ==> Due(lots[i], now))
    && (forall i :: |lots| <= i < |after| ==> !Due(after[i], now))
  }

  lemma EarningIsNotDue(w: World, p: Owner, amount: int, purchase: Purchase, request: Option<nat>)
    ensures NoNewDue(w.lots, PostEarn(w, p, amount, purchase, request).lots, w.now)
  {
  }

  lemma PurchaseMakesNoneDue(w: World, p: Owner, total: int)
    requires EarnOnly(w, p, total).Ok?
    ensures NoNewDue(w.lots, EarnOnly(w, p, total).value.lots, w.now)
  {
    hide PostEarn, NoNewDue;
    var q := QuoteFor(w, p, total, 0).value;
    EarningIsNotDue(w, p, q.earn, Purchase(total, q.cashPaid, 0, q.program), None);
    SameLots(w.lots, w.now);
  }

  lemma SameLots(lots: seq<Lot>, now: int)
    ensures NoNewDue(lots, lots, now)
  {
  }

  lemma SpendMakesNoneDue(w: World, p: Owner, amount: nat, purchase: Purchase, r: nat, order: seq<nat>)
    requires LiveLots(w.lots, p, w.now, order) && PostSpend(w, p, amount, purchase, r, order).Ok?
    ensures NoNewDue(w.lots, PostSpend(w, p, amount, purchase, r, order).value.lots, w.now)
  {
    hide TakeInOrder;
    TakesArePaid(w.lots, p, w.now, order, amount);
  }

  lemma PaymentMakesNoneDue(w: World, r: nat, order: seq<nat>)
    requires Inv(w) && r < |w.requests| && LiveLots(w.lots, w.requests[r].owner, w.now, order)
    requires Perform(w, r, order).Ok?
    ensures NoNewDue(w.lots, Perform(w, r, order).value.lots, w.now)
  {
    assert RequestRow(w, r);
    if w.requests[r].kind.CashbackRequest? {
      var p, purchase, earn := w.requests[r].owner, w.requests[r].kind.purchase, w.requests[r].kind.earn;
      var paid := PostSpend(w, p, purchase.spend, purchase, r, order).value;
      SpendMakesNoneDue(w, p, purchase.spend, purchase, r, order);
      EarningIsNotDue(paid, p, earn, purchase, Some(r));
    }
  }

  lemma ReversalMakesNoneDue(w: World, t: nat, scope: Option<nat>, force: bool, reasonGiven: bool)
    requires Inv(w) && Reverse(w, t, scope, force, reasonGiven).Ok?
    ensures NoNewDue(w.lots, Reverse(w, t, scope, force, reasonGiven).value.lots, w.now)
  {
    hide GiveBack, CancelGifts, CancelledOf;
    if w.ledger[t].kind.CashbackSpend? {
      assert CashEntry(w, t);
      GiveBackPerLot(w.lots, w.ledger[t].kind.consumed, w.now);
    }
  }

  lemma BurnMakesNoneDue(w: World, i: nat, cutoff: int)
    requires i < |w.lots|
    ensures NoNewDue(w.lots, BurnLot(w, i, cutoff).lots, w.now)
    ensures !Due(BurnLot(w, i, cutoff).lots[i], cutoff)
  {
  }

  lemma StepMakesNoneDue(w: World, op: Op)
    requires Inv(w) && Possible(w, op) && After(w, op).now == w.now
    ensures NoNewDue(w.lots, After(w, op).lots, w.now)
  {
    hide Inv, NoNewDue, EarnOnly, Perform, BurnLot, Reverse, EnsureOperational;
    SameLots(w.lots, w.now);
    if Apply(w, op).Ok? {
      match op {
        case Buy(p, total) => PurchaseMakesNoneDue(w, p, total);
        case ConfirmRequest(_, r, order) =>
          if w.requests[r].status == PENDING { PaymentMakesNoneDue(w, r, order); }
        case ReverseEntry(t, scope, force, reasonGiven) => ReversalMakesNoneDue(w, t, scope, force, reasonGiven);
        case SweepLot(i, cutoff) => BurnMakesNoneDue(w, i, cutoff);
        case _ => OthersKeepLots(w, op);
      }
    }
  }

  lemma {:induction false} RunMakesNoneDue(w: World, ops: seq<Op>)
    requires Inv(w) && CanRun(w, ops) && Run(w, ops).now == w.now
    ensures NoNewDue(w.lots, Run(w, ops).lots, w.now)
  {
    hide Inv, After;
    if ops != [] {
      ClockStood(w, ops);
      RunMakesNoneDue(w, ops[..|ops| - 1]);
      StepMakesNoneDue(Run(w, ops[..|ops| - 1]), ops[|ops| - 1]);
    }
  }

  /** A lot that the run sweeps is not due at its end. */
  lemma {:induction false} SweptIsNotDue(w: World, ops: seq<Op>, i: nat)
    requires Inv(w) && CanRun(w, ops) && Run(w, ops).now == w.now
    requires i < |w.lots| && SweepLot(i, w.now) in ops
    ensures i < |Run(w, ops).lots| && !Due(Run(w, ops).lots[i], w.now)
  {
    hide Inv, BurnLot;
    var init, last := ops[..|ops| - 1], ops[|ops| - 1];
    ClockStood(w, ops);
    RunMakesNoneDue(w, init);
    StepMakesNoneDue(Run(w, init), last);
    if last == SweepLot(i, w.now) {
      BurnMakesNoneDue(Run(w, init), i, w.now);
    } else {
      assert ops == init + [last];
      SweptIsNotDue(w, init, i);
    }
  }

  /** One run of expire_lots: its query answers with `ids`, and in `ops`, among any other steps, each of those rows has
      its block. */
  ghost predicate SweepPass(w: World, ops: seq<Op>, ids: seq<nat>, batchSize: nat) {
    && CanRun(w, ops) && Run(w, ops).now == w.now
    && DueBatch(w.lots, ids, w.now, batchSize)
    && forall k :: 0 <= k < |ids| ==> SweepLot(ids[k], w.now) in ops
  }

  lemma PassLowersDue(w: World, ops: seq<Op>, ids: seq<nat>, batchSize: nat)
    requires Inv(w) && SweepPass(w, ops, ids, batchSize)
    ensures Inv(Run(w, ops)) && Run(w, ops).now == w.now
    ensures DueCount(Run(w, ops).lots, w.now) <= Max(0, DueCount(w.lots, w.now) - batchSize)
  {
    hide Inv;
    RunKeeps(w, ops);
    RunMakesNoneDue(w, ops);
    forall k | 0 <= k < |ids| ensures !Due(Run(w, ops).lots[ids[k]], w.now) {
      SweptIsNotDue(w, ops, ids[k]);
    }
    CountFalls(w.lots, Run(w, ops).lots, ids, DueOne(w.now));
  }

  ghost predicate SweepPasses(worlds: seq<World>, passes: seq<seq<Op>>, batches: seq<seq<nat>>, batchSize: nat) {
    && |worlds| == |passes| + 1 == |batches| + 1
    && forall k :: 0 <= k < |passes| ==>
         SweepPass(worlds[k], passes[k], batches[k], batchSize) && worlds[k + 1] == Run(worlds[k], passes[k])
  }

  lemma {:induction false} DueAfterPasses(
    worlds: seq<World>, passes: seq<seq<Op>>, batches: seq<seq<nat>>, batchSize: nat, k: nat)
    requires SweepPasses(worlds, passes, batches, batchSize) && k <= |passes| && Inv(worlds[0])
    ensures Inv(worlds[k]) && worlds[k].now == worlds[0].now
    ensures DueCount(worlds[k].lots, worlds[0].now)
         <= Max(0, DueCount(worlds[0].lots, worlds[0].now) - k * batchSize)
  {
    hide Inv, DueCount, SweepPass, Run;
    if k > 0 {
      DueAfterPasses(worlds, passes, batches, batchSize, k - 1);
      assert SweepPass(worlds[k - 1], passes[k - 1], batches[k - 1], batchSize);
      PassLowersDue(worlds[k - 1], passes[k - 1], batches[k - 1], batchSize);
      Drains(DueCount(worlds[0].lots, worlds[0].now), DueCount(worlds[k - 1].lots, worlds[0].now),
             DueCount(worlds[k].lots, worlds[0].now), k, batchSize);
    }
  }

  /** With d due lots, k runs of expire_lots with k * batch_size >= d leave nothing due, whatever else happens between
      their rows while the clock stands: then every client's fast balance is available_amount, and no further sweep of
      a row changes anything. */
  lemma SweepConvergesAmongOthers(
    worlds: seq<World>, passes: seq<seq<Op>>, batches: seq<seq<nat>>, batchSize: nat, k: nat)
    requires SweepPasses(worlds, passes, batches, batchSize) && k <= |passes| && Reachable(worlds[0])
    requires k * batchSize >= DueCount(worlds[0].lots, worlds[0].now)
    ensures var w := worlds[k];
            && w.now == worlds[0].now && DueCount(w.lots, w.now) == 0
            && (forall p :: StateOf(w, p).available == Available(w.lots, p, w.now))
            && (forall i, cutoff :: 0 <= i < |w.lots| && cutoff <= w.now ==> BurnLot(w, i, cutoff) == w)
  {
    ReachableInv(worlds[0]);
    DueAfterPasses(worlds, passes, batches, batchSize, k);
    var w := worlds[k];
    DueNonNegative(w.lots, w.now);
    forall p ensures StateOf(w, p).available == Available(w.lots, p, w.now) {
      NothingUnswept(w, p);
    }
    forall i, cutoff | 0 <= i < |w.lots| && cutoff <= w.now ensures BurnLot(w, i, cutoff) == w {
      SumAtLeast(w.lots, DueOne(w.now), i);
    }
  }

  // ---- no request becomes overdue ----

  /** Requests are made to live for some time. */
  predicate LivesOn(op: Op) {
    op.AskGift? || op.AskCashback? ==> op.ttl > 0
  }

  ghost predicate NoNewOverdue(requests: seq<Request>, after: seq<Request>, now: int) {
    && |requests| <= |after|
    && (forall r :: 0 <= r < |requests| && Overdue(after[r], now) ==> Overdue(requests[r], now))
    && (forall r :: |requests| <= r < |after| ==> !Overdue(after[r], now))
  }

  lemma NewRequestsLive(w: World, op: Op, r: nat)
    requires Possible(w, op) && LivesOn(op) && |w.requests| <= r < |After(w, op).requests|
    ensures !Overdue(After(w, op).requests[r], w.now)
  {
    if op.ReverseEntry? {
      if Apply(w, op).Ok? { ReversalKeepsRequests(w, op); }
    } else if op.ConfirmRequest? {
      ConfirmAsksNothing(w, op);
    } else if op.RejectRequest? || op.CancelRequest? || op.SweepRequest? {
      ClosingAsksNothing(w, op);
    } else if !op.AskGift? && !op.AskCashback? {
      EarningAsksNothing(w, op);
    } else {
      AskedLives(w, op, r);
    }
  }

  lemma AskedLives(w: World, op: Op, r: nat)
    requires (op.AskGift? || op.AskCashback?) && op.ttl > 0 && |w.requests| <= r < |After(w, op).requests|
    ensures !Overdue(After(w, op).requests[r], w.now)
  {
    hide EnsureClient, EnsureOperational, Available;
  }

  lemma ConfirmAsksNothing(w: World, op: Op)
    requires op.ConfirmRequest? && Possible(w, op)
    ensures |After(w, op).requests| == |w.requests|
  {
    hide EnsureOperational, Perform;
  }

  lemma ClosingAsksNothing(w: World, op: Op)
    requires Possible(w, op) && (op.RejectRequest? || op.CancelRequest? || op.SweepRequest?)
    ensures |After(w, op).requests| == |w.requests|
  {
    hide Close;
    if op.request < |w.requests| {
      CloseChanges(w, op.request, REJECTED);
      CloseChanges(w, op.request, CANCELLED_BY_ADMIN);
      CloseChanges(w, op.request, EXPIRED);
    }
  }

  lemma EarningAsksNothing(w: World, op: Op)
    requires Possible(w, op) && !op.AskGift? && !op.AskCashback? && !op.ConfirmRequest? && !op.ReverseEntry?
    requires !op.RejectRequest? && !op.CancelRequest? && !op.SweepRequest?
    ensures After(w, op).requests == w.requests
  {
    hide EnsureClient, EnsureOperational, Available;
  }

  lemma StepMakesNoneOverdue(w: World, op: Op)
    requires Possible(w, op) && LivesOn(op)
    ensures NoNewOverdue(w.requests, After(w, op).requests, w.now)
  {
    hide After, Apply;
    var u := After(w, op);
    forall r | 0 <= r < |w.requests|
      ensures r < |u.requests| && (Overdue(u.requests[r], w.now) ==> Overdue(w.requests[r], w.now))
    {
      RequestStep(w, op, r);
    }
    if |w.requests| > 0 {
      RequestStep(w, op, |w.requests| - 1);
    }
    forall r | |w.requests| <= r < |u.requests| ensures !Overdue(u.requests[r], w.now) {
      NewRequestsLive(w, op, r);
    }
  }

  ghost predicate AllLiveOn(ops: seq<Op>) {
    forall k :: 0 <= k < |ops| ==> LivesOn(ops[k])
  }

  lemma {:induction false} RunMakesNoneOverdue(w: World, ops: seq<Op>)
    requires Inv(w) && CanRun(w, ops) && Run(w, ops).now == w.now && AllLiveOn(ops)
    ensures NoNewOverdue(w.requests, Run(w, ops).requests, w.now)
  {
    hide Inv, After;
    if ops != [] {
      ClockStood(w, ops);
      RunMakesNoneOverdue(w, ops[..|ops| - 1]);
      StepMakesNoneOverdue(Run(w, ops[..|ops| - 1]), ops[|ops| - 1]);
    }
  }

  lemma ExpiredIsSettled(w: World, r: nat, cutoff: int)
    requires r < |w.requests|
    ensures var u := ExpireRequest(w, r, cutoff); r < |u.requests| && !Overdue(u.requests[r], cutoff)
  {
  }

  /** A request that the run sweeps is not overdue at its end. */
  lemma {:induction false} ExpiredIsNotOverdue(w: World, ops: seq<Op>, r: nat)
    requires Inv(w) && CanRun(w, ops) && Run(w, ops).now == w.now && AllLiveOn(ops)
    requires r < |w.requests| && SweepRequest(r, w.now) in ops
    ensures r < |Run(w, ops).requests| && !Overdue(Run(w, ops).requests[r], w.now)
  {
    hide Inv, ExpireRequest;
    var init, last := ops[..|ops| - 1], ops[|ops| - 1];
    ClockStood(w, ops);
    RunMakesNoneOverdue(w, init);
    StepMakesNoneOverdue(Run(w, init), last);
    if last == SweepRequest(r, w.now) {
      ExpiredIsSettled(Run(w, init), r, w.now);
    } else {
      assert ops == init + [last];
      ExpiredIsNotOverdue(w, init, r);
    }
  }

  /** One run of expire_pending among any other steps. */
  ghost predicate ExpiryPass(w: World, ops: seq<Op>, ids: seq<nat>, batchSize: nat) {
    && CanRun(w, ops) && Run(w, ops).now == w.now && AllLiveOn(ops)
    && OverdueBatch(w.requests, ids, w.now, batchSize)
    && forall k :: 0 <= k < |ids| ==> SweepRequest(ids[k], w.now) in ops
  }

  lemma PassLowersOverdue(w: World, ops: seq<Op>, ids: seq<nat>, batchSize: nat)
    requires Inv(w) && ExpiryPass(w, ops, ids, batchSize)
    ensures Inv(Run(w, ops)) && Run(w, ops).now == w.now
    ensures OverdueCount(Run(w, ops).requests, w.now) <= Max(0, OverdueCount(w.requests, w.now) - batchSize)
  {
    hide Inv;
    RunKeeps(w, ops);
    RunMakesNoneOverdue(w, ops);
    forall k | 0 <= k < |ids| ensures !Overdue(Run(w, ops).requests[ids[k]], w.now) {
      ExpiredIsNotOverdue(w, ops, ids[k]);
    }
    CountFalls(w.requests, Run(w, ops).requests, ids, RequestSweep.OverdueOne(w.now));
  }

  ghost predicate ExpiryPasses(worlds: seq<World>, passes: seq<seq<Op>>, batches: seq<seq<nat>>, batchSize: nat) {
    && |worlds| == |passes| + 1 == |batches| + 1
    && forall k :: 0 <= k < |passes| ==>
         ExpiryPass(worlds[k], passes[k], batches[k], batchSize) && worlds[k + 1] == Run(worlds[k], passes[k])
  }

  lemma {:induction false} OverdueAfterPasses(
    worlds: seq<World>, passes: seq<seq<Op>>, batches: seq<seq<nat>>, batchSize: nat, k: nat)
    requires ExpiryPasses(worlds, passes, batches, batchSize) && k <= |passes| && Inv(worlds[0])
    ensures Inv(worlds[k]) && worlds[k].now == worlds[0].now
    ensures OverdueCount(worlds[k].requests, worlds[0].now)
         <= Max(0, OverdueCount(worlds[0].requests, worlds[0].now) - k * batchSize)
  {
    hide Inv, OverdueCount, ExpiryPass, Run;
    if k > 0 {
      OverdueAfterPasses(worlds, passes, batches, batchSize, k - 1);
      assert ExpiryPass(worlds[k - 1], passes[k - 1], batches[k - 1], batchSize);
      PassLowersOverdue(worlds[k - 1], passes[k - 1], batches[k - 1], batchSize);
      Drains(OverdueCount(worlds[0].requests, worlds[0].now), OverdueCount(worlds[k - 1].requests, worlds[0].now),
             OverdueCount(worlds[k].requests, worlds[0].now), k, batchSize);
    }
  }

  /** With d overdue requests, k runs of expire_pending with k * batch_size >= d leave none, whatever else happens
      between their rows while the clock stands: every PENDING request is in time, and no further sweep of a row
      changes anything. */
  lemma ExpiryConvergesAmongOthers(
    worlds: seq<World>, passes: seq<seq<Op>>, batches: seq<seq<nat>>, batchSize: nat, k: nat)
    requires ExpiryPasses(worlds, passes, batches, batchSize) && k <= |passes| && Reachable(worlds[0])
    requires k * batchSize >= OverdueCount(worlds[0].requests, worlds[0].now)
    ensures var w := worlds[k];
            && w.now == worlds[0].now && OverdueCount(w.requests, w.now) == 0
            && (forall r :: 0 <= r < |w.requests| && w.requests[r].status == PENDING ==>
                  w.now < w.requests[r].expiresAt)
            && (forall r, cutoff :: 0 <= r < |w.requests| && cutoff <= w.now ==> ExpireRequest(w, r, cutoff) == w)
  {
    ReachableInv(worlds[0]);
    OverdueAfterPasses(worlds, passes, batches, batchSize, k);
    OverdueNonNegative(worlds[k].requests, worlds[k].now);
    NothingOverdue(worlds[k].requests, worlds[k].now);
  }
}
