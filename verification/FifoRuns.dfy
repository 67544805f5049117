/** Every run of the whole system without reversals of a client's cashback is a FIFO run of that client, so what
    FIFO is better at, the services are. */
module FifoRuns {
  import opened Rows
  import opened Guards
  import opened Cashback
  import opened Redemptions
  import opened Reversals
  import opened LedgerLaws
  import opened Fifo
  import opened Machine
  import opened Safety
  import opened FifoDominance
  import VisitRuns

  /** The events of a run and the lots table around them. */
  datatype Trace = Trace(events: seq<Event>, clock: seq<int>, lots: seq<seq<Lot>>)

  function Then(tr: Trace, e: Event, now: int, lots: seq<Lot>): Trace {
    Trace(tr.events + [e], tr.clock + [now], tr.lots + [lots])
  }

  /** A confirm by `p` of a pending purchase in time, in an organization that operates: only the lots decide. */
  predicate ReachesPayment(w: World, op: Op, p: Owner) {
    && op.ConfirmRequest? && op.request < |w.requests| && op.user == p.user
    && var req := w.requests[op.request];
       && req.owner == p && req.status == PENDING && w.now < req.expiresAt && req.kind.CashbackRequest?
       && EnsureOperational(w, p.org, None).Ok?
  }

  function Payment(r: Request): nat
    requires r.kind.CashbackRequest?
  {
    if r.kind.purchase.spend > 0 then r.kind.purchase.spend else 0
  }

  /** What step `op` means for the lots of `p`. A payment that is refused is none. */
  ghost function StepTrace(tr: Trace, w: World, op: Op, p: Owner): Trace
    requires Possible(w, op)
  {
    var u := After(w, op);
    if op.Tick? then Then(tr, Waited(u.now), u.now, u.lots)
    else if op.SweepLot? then Then(tr, Swept, w.now, u.lots)
    else if op.Buy? && op.p == p && |u.lots| > |w.lots| then Then(tr, Earned(u.lots[|w.lots|]), w.now, u.lots)
    else if ReachesPayment(w, op, p) && Apply(w, op).Ok? then
      var amount := Payment(w.requests[op.request]);
      var paid := Then(tr, Paid(amount), w.now, TakeInOrder(w.lots, op.order, amount).lots);
      if |u.lots| > |w.lots| then Then(paid, Earned(u.lots[|w.lots|]), w.now, u.lots) else paid
    else Then(tr, Elsewhere, w.now, u.lots)
  }

  ghost function TraceOf(w: World, ops: seq<Op>, p: Owner): Trace
    requires CanRun(w, ops)
  {
    if ops == [] then Trace([], [w.now], [w.lots])
    else StepTrace(TraceOf(w, ops[..|ops| - 1], p), Run(w, ops[..|ops| - 1]), ops[|ops| - 1], p)
  }

  /** The step gives back or withdraws cashback of `p`. */
  ghost predicate ReversesCashback(w: World, op: Op, p: Owner)
    requires Possible(w, op)
  {
    && op.ReverseEntry? && Apply(w, op).Ok? && w.ledger[op.entry].owner == p
    && (w.ledger[op.entry].kind.CashbackEarn? || w.ledger[op.entry].kind.CashbackSpend?)
  }

  ghost predicate NoReversals(w: World, ops: seq<Op>, p: Owner)
    requires CanRun(w, ops)
  {
    ops == []
    || (NoReversals(w, ops[..|ops| - 1], p) && !ReversesCashback(Run(w, ops[..|ops| - 1]), ops[|ops| - 1], p))
  }

  /** A FIFO run that has made all its payments and reached `lots` at `now`. */
  ghost predicate At(tr: Trace, p: Owner, now: int, lots: seq<Lot>) {
    && FifoRun(p, tr.events, tr.clock, tr.lots) && PolicyRun(p, tr.events, tr.clock, tr.lots)
    && tr.clock[|tr.events|] == now && tr.lots[|tr.events|] == lots
  }

  lemma Extends(tr: Trace, p: Owner, now: int, lots: seq<Lot>, e: Event, next: int, after: seq<Lot>)
    requires At(tr, p, now, lots)
    requires FifoStep(e, p, now, next, lots, after) && PolicyStep(e, p, now, next, lots, after)
    ensures At(Then(tr, e, next, after), p, next, after)
    ensures Then(tr, e, next, after).lots[0] == tr.lots[0]
  {
    hide FifoStep, PolicyStep;
    var n, u := |tr.events|, Then(tr, e, next, after);
    forall k | 0 <= k <= n
      ensures FifoStep(u.events[k], p, u.clock[k], u.clock[k + 1], u.lots[k], u.lots[k + 1])
      ensures PolicyStep(u.events[k], p, u.clock[k], u.clock[k + 1], u.lots[k], u.lots[k + 1])
    {
      if k < n {
        assert FifoStep(tr.events[k], p, tr.clock[k], tr.clock[k + 1], tr.lots[k], tr.lots[k + 1]);
        assert PolicyStep(tr.events[k], p, tr.clock[k], tr.clock[k + 1], tr.lots[k], tr.lots[k + 1]);
      }
    }
  }

  // ---- each step ----

  lemma PurchaseEvent(w: World, p: Owner, total: int)
    requires EarnOnly(w, p, total).Ok?
    ensures var u := EarnOnly(w, p, total).value;
            u.now == w.now && (u.lots == w.lots || (|u.lots| == |w.lots| + 1 && u.lots[..|w.lots|] == w.lots))
  {
    hide QuoteFor;
  }

  lemma PaymentEvents(w: World, r: nat, order: seq<nat>)
    requires r < |w.requests| && w.requests[r].kind.CashbackRequest?
    requires FifoOrder(w.lots, w.requests[r].owner, w.now, order)
    ensures var taken := TakeInOrder(w.lots, order, Payment(w.requests[r]));
            && (Perform(w, r, order).Ok? <==> taken.shortfall == 0)
            && (Perform(w, r, order).Ok? ==>
                  var u := Perform(w, r, order).value;
                  && u.now == w.now
                  && (u.lots == taken.lots || (|u.lots| == |w.lots| + 1 && u.lots[..|w.lots|] == taken.lots)))
  {
    TakesInOrder(w.lots, w.requests[r].owner, w.now, order, Payment(w.requests[r]));
  }

  lemma ConfirmPays(w: World, op: Op, p: Owner)
    requires ReachesPayment(w, op, p) && Possible(w, op)
    ensures Apply(w, op).Ok? <==> Perform(w, op.request, op.order).Ok?
    ensures Apply(w, op).Ok? ==>
              && After(w, op).lots == Perform(w, op.request, op.order).value.lots
              && After(w, op).now == Perform(w, op.request, op.order).value.now
  {
    hide Perform, EnsureOperational;
  }

  /** A reversal of a visit or a redemption, or one that is refused, leaves the lots alone. */
  lemma GiftReversalKeepsLots(w: World, op: Op)
    requires op.ReverseEntry?
    requires Apply(w, op).Ok? ==>
      op.entry < |w.ledger| && (w.ledger[op.entry].kind.VisitEarn? || w.ledger[op.entry].kind.GiftRedeem?)
    ensures After(w, op).lots == w.lots && After(w, op).now == w.now
  {
  }

  lemma ConfirmWithoutPayment(w: World, op: Op)
    requires op.ConfirmRequest? && Possible(w, op) && op.request < |w.requests|
    requires !ReachesPayment(w, op, w.requests[op.request].owner)
    ensures After(w, op).lots == w.lots && After(w, op).now == w.now
  {
    hide EnsureOperational, ApplyConfirmed;
  }

  lemma ReversalTakesNoTime(w: World, t: nat, scope: Option<nat>, force: bool, reasonGiven: bool)
    requires Reverse(w, t, scope, force, reasonGiven).Ok?
    ensures Reverse(w, t, scope, force, reasonGiven).value.now == w.now
  {
    hide GiveBack, CancelGifts, CancelledOf;
  }

  lemma ConfirmTakesNoTime(w: World, user: nat, r: nat, order: seq<nat>)
    requires Possible(w, ConfirmRequest(user, r, order)) && Confirm(w, user, r, order).Ok?
    ensures Confirm(w, user, r, order).value.world.now == w.now
  {
    hide EnsureOperational, TakeInOrder;
  }

  lemma TimeStands(w: World, op: Op)
    requires Possible(w, op) && !op.Tick?
    ensures After(w, op).now == w.now
  {
    hide EnsureClient, EnsureOperational, Available, Reverse, Confirm;
    if Apply(w, op).Ok? {
      match op {
        case ReverseEntry(t, scope, force, reasonGiven) => ReversalTakesNoTime(w, t, scope, force, reasonGiven);
        case ConfirmRequest(user, r, order) => ConfirmTakesNoTime(w, user, r, order);
        case _ =>
      }
    }
  }

  /** Everything but time, sweeps and the purchases and payments of `p` leaves the lots of `p` alone. */
  lemma ElsewhereStep(w: World, op: Op, p: Owner)
    requires Reachable(w) && Possible(w, op) && !ReversesCashback(w, op, p)
    requires !op.Tick? && !op.SweepLot? && (ReachesPayment(w, op, p) ==> Apply(w, op).Err?)
    requires op.Buy? && op.p == p ==> |After(w, op).lots| <= |w.lots|
    ensures OthersMove(w.lots, After(w, op).lots, p) && After(w, op).now == w.now
  {
    hide After, Apply, ReachesPayment;
    TimeStands(w, op);
    if ReachesPayment(w, op, p) {
      RefusedStep(w, op);
    } else if Subject(w, op) != Some(p) {
      TenantsDoNotInterfere(w, op, p);
    } else {
      SubjectKeepsLots(w, op, p);
    }
  }

  lemma RefusedStep(w: World, op: Op)
    requires Possible(w, op) && Apply(w, op).Err?
    ensures After(w, op) == w
  {
  }

  lemma SubjectKeepsLots(w: World, op: Op, p: Owner)
    requires Possible(w, op) && Subject(w, op) == Some(p) && !ReversesCashback(w, op, p)
    requires !op.Tick? && !op.SweepLot? && !ReachesPayment(w, op, p)
    requires op.Buy? ==> |After(w, op).lots| <= |w.lots|
    ensures After(w, op).lots == w.lots
  {
    hide Reverse, EarnOnly, Confirm, ReachesPayment;
    match op {
      case Buy(_, total) => if EarnOnly(w, p, total).Ok? { PurchaseEvent(w, p, total); }
      case ConfirmRequest(_, _, _) => ConfirmWithoutPayment(w, op);
      case ReverseEntry(_, _, _, _) => ReversalOfGifts(w, op, p);
      case _ => OthersKeepLots(w, op);
    }
  }

  lemma ReversalOfGifts(w: World, op: Op, p: Owner)
    requires op.ReverseEntry? && Subject(w, op) == Some(p) && !ReversesCashback(w, op, p)
    ensures After(w, op).lots == w.lots
  {
    hide UndoVisit, UndoRedeem, UndoEarn, UndoSpend;
    if Apply(w, op).Ok? {
      assert Reversible(w.ledger[op.entry].kind);
      GiftReversalKeepsLots(w, op);
    }
  }

  lemma StepIsFifo(tr: Trace, w: World, op: Op, p: Owner)
    requires Reachable(w) && Possible(w, op) && !ReversesCashback(w, op, p) && At(tr, p, w.now, w.lots)
    ensures var next := StepTrace(tr, w, op, p);
            At(next, p, After(w, op).now, After(w, op).lots) && next.lots[0] == tr.lots[0]
  {
    hide At, FifoRun, Apply, OthersMove;
    var u := After(w, op);
    if op.Tick? {
      TickStep(w, op);
      Extends(tr, p, w.now, w.lots, Waited(u.now), u.now, u.lots);
    } else if op.SweepLot? {
      SweepStep(w, op);
      Extends(tr, p, w.now, w.lots, Swept, w.now, u.lots);
    } else if op.Buy? && op.p == p && |u.lots| > |w.lots| {
      BuyStep(w, op);
      Extends(tr, p, w.now, w.lots, Earned(u.lots[|w.lots|]), w.now, u.lots);
    } else if ReachesPayment(w, op, p) && Apply(w, op).Ok? {
      PaymentStep(tr, w, op, p);
    } else {
      ElsewhereStep(w, op, p);
      Extends(tr, p, w.now, w.lots, Elsewhere, w.now, u.lots);
    }
  }

  lemma TickStep(w: World, op: Op)
    requires op.Tick?
    ensures After(w, op).lots == w.lots && w.now <= After(w, op).now
  {
  }

  lemma SweepStep(w: World, op: Op)
    requires op.SweepLot? && Possible(w, op) && Reachable(w)
    ensures SomeBurned(w.lots, After(w, op).lots, w.now) && After(w, op).now == w.now
  {
  }

  lemma BuyStep(w: World, op: Op)
    requires op.Buy? && |After(w, op).lots| > |w.lots|
    ensures var u := After(w, op); u.lots == w.lots + [u.lots[|w.lots|]] && u.now == w.now
  {
    hide EarnOnly;
    PurchaseEvent(w, op.p, op.total);
    var u := After(w, op);
    assert u.lots == u.lots[..|w.lots|] + [u.lots[|w.lots|]];
  }

  lemma PaymentStep(tr: Trace, w: World, op: Op, p: Owner)
    requires ReachesPayment(w, op, p) && Possible(w, op) && Apply(w, op).Ok? && At(tr, p, w.now, w.lots)
    ensures var next := StepTrace(tr, w, op, p);
            At(next, p, After(w, op).now, After(w, op).lots) && next.lots[0] == tr.lots[0]
  {
    hide At, FifoRun, PolicyRun, Perform, TakeInOrder, Pays;
    var u, amount := After(w, op), Payment(w.requests[op.request]);
    var taken := TakeInOrder(w.lots, op.order, amount);
    assert FifoOrder(w.lots, p, w.now, op.order);
    ConfirmPays(w, op, p);
    PaymentEvents(w, op.request, op.order);
    FifoSpend(w.lots, p, w.now, op.order, amount);
    FifoPays(w.lots, p, w.now, op.order, amount);
    Extends(tr, p, w.now, w.lots, Paid(amount), w.now, taken.lots);
    if |u.lots| > |w.lots| {
      assert u.lots == taken.lots + [u.lots[|w.lots|]];
      Extends(Then(tr, Paid(amount), w.now, taken.lots), p, w.now, taken.lots, Earned(u.lots[|w.lots|]), w.now, u.lots);
    }
  }

  // ---- whole runs ----

  /** Every run in which no cashback of `p` is reversed is a FIFO run of `p` that makes each of its payments. */
  lemma {:induction false} RunsAreFifo(w: World, ops: seq<Op>, p: Owner)
    requires Reachable(w) && CanRun(w, ops) && NoReversals(w, ops, p)
    ensures At(TraceOf(w, ops, p), p, Run(w, ops).now, Run(w, ops).lots)
    ensures TraceOf(w, ops, p).lots[0] == w.lots
  {
    hide StepTrace, After;
    if ops != [] {
      var init := ops[..|ops| - 1];
      RunsAreFifo(w, init, p);
      VisitRuns.ReachableRun(w, init);
      StepIsFifo(TraceOf(w, init, p), Run(w, init), ops[|ops| - 1], p);
    }
  }

  /** So after any run the client holds at least as much for every later moment as under any other choice of lots
      for the same payments, and no more of it ran out. */
  lemma ServicesHoldMost(w: World, ops: seq<Op>, p: Owner, other: seq<seq<Lot>>)
    requires Reachable(w) && CanRun(w, ops) && NoReversals(w, ops, p)
    requires var tr := TraceOf(w, ops, p); PolicyRun(p, tr.events, tr.clock, other)
    requires other[0] == w.lots
    ensures Dominates(Run(w, ops).lots, other[|other| - 1], p, Run(w, ops).now)
    ensures var tr, n := TraceOf(w, ops, p), |TraceOf(w, ops, p).events|;
            && |tr.clock| == |tr.lots| == n + 1
            && Wasted(p, tr.events, tr.clock, tr.lots, n) <= Wasted(p, tr.events, tr.clock, other, n)
  {
    hide TraceOf;
    RunsAreFifo(w, ops, p);
    var tr := TraceOf(w, ops, p);
    FifoDominates(p, tr.events, tr.clock, tr.lots, other, |tr.events|);
    FifoWastesLeast(p, tr.events, tr.clock, tr.lots, other, |tr.events|);
  }

  /** And when a confirm of a purchase in time is refused for its lots, then under any choice of lots for the payments
      made so far the client would hold too little for this one. */
  lemma RefusedOnlyIfImpossible(w: World, ops: seq<Op>, op: Op, p: Owner, other: seq<seq<Lot>>)
    requires Reachable(w) && CanRun(w, ops) && NoReversals(w, ops, p)
    requires Possible(Run(w, ops), op) && ReachesPayment(Run(w, ops), op, p) && Apply(Run(w, ops), op).Err?
    requires var tr := TraceOf(w, ops, p); PolicyRun(p, tr.events, tr.clock, other)
    requires other[0] == w.lots
    ensures var u := Run(w, ops);
            var amount := Payment(u.requests[op.request]);
            && Available(other[|other| - 1], p, u.now) < amount
            && !CanPay(other[|other| - 1], p, u.now, amount)
  {
    hide TraceOf, FifoOrder, Perform;
    var u := Run(w, ops);
    var last, amount := other[|other| - 1], Payment(u.requests[op.request]);
    ServicesHoldMost(w, ops, p, other);
    assert Available(u.lots, p, u.now) >= Available(last, p, u.now);
    ConfirmPays(u, op, p);
    PaymentEvents(u, op.request, op.order);
    assert FifoOrder(u.lots, p, u.now, op.order);
    FifoSpend(u.lots, p, u.now, op.order, amount);
    if CanPay(last, p, u.now, amount) {
      var paid :| Pays(last, paid, p, u.now, amount);
      AvailableFalls(paid, p, u.now, u.now);
    }
  }

  /** Some choice of lots for the payments of the run leaves enough to pay `amount`. */
  ghost predicate SomeoneCouldPay(w: World, ops: seq<Op>, p: Owner, amount: nat)
    requires CanRun(w, ops)
  {
    var tr, now := TraceOf(w, ops, p), Run(w, ops).now;
    exists other ::
      PolicyRun(p, tr.events, tr.clock, other) && other[0] == w.lots && CanPay(other[|other| - 1], p, now, amount)
  }

  /** So a purchase in time is paid exactly when some choice of lots, made from the start of the run, could pay it. */
  lemma PaidIffSomeoneCould(w: World, ops: seq<Op>, op: Op, p: Owner)
    requires Reachable(w) && CanRun(w, ops) && NoReversals(w, ops, p)
    requires Possible(Run(w, ops), op) && ReachesPayment(Run(w, ops), op, p)
    ensures Apply(Run(w, ops), op).Ok? <==> SomeoneCouldPay(w, ops, p, Payment(Run(w, ops).requests[op.request]))
  {
    hide TraceOf, FifoRun, PolicyStep, Pays, Perform, TakeInOrder;
    var u, tr := Run(w, ops), TraceOf(w, ops, p);
    var amount := Payment(u.requests[op.request]);
    if Apply(u, op).Ok? {
      RunsAreFifo(w, ops, p);
      TraceShape(tr, p, u.now, u.lots);
      ConfirmPays(u, op, p);
      PaymentEvents(u, op.request, op.order);
      assert FifoOrder(u.lots, p, u.now, op.order);
      FifoSpend(u.lots, p, u.now, op.order, amount);
      FifoPays(u.lots, p, u.now, op.order, amount);
    } else if SomeoneCouldPay(w, ops, p, amount) {
      var other :| PolicyRun(p, tr.events, tr.clock, other) && other[0] == w.lots
                   && CanPay(other[|other| - 1], p, u.now, amount);
      RefusedOnlyIfImpossible(w, ops, op, p, other);
      assert false;
    }
  }

  lemma TraceShape(tr: Trace, p: Owner, now: int, lots: seq<Lot>)
    requires At(tr, p, now, lots)
    ensures PolicyRun(p, tr.events, tr.clock, tr.lots) && tr.lots != [] && tr.lots[|tr.lots| - 1] == lots
  {
  }
}
