/** Spending the lots closest to expiry first is never worse than any other choice of lots. */
module FifoDominance {
  import opened Rows
  import opened Sums
  import opened Cashback
  import opened Fifo
  import Accounts
  import CashSteps

  /** Later, fewer lots are alive. */
  lemma AvailableFalls(lots: seq<Lot>, p: Owner, t: int, later: int)
    requires t <= later
    ensures 0 <= Available(lots, p, later) <= Available(lots, p, t)
  {
    SumNonNegative(lots, LiveValue(p, later));
    SumMonotone(lots, lots, LiveValue(p, later), LiveValue(p, t));
  }

  /** Before the first expiry in the order, everything alive now is alive. */
  lemma NothingExpiresBefore(lots: seq<Lot>, p: Owner, now: int, order: seq<nat>, t: int)
    requires FifoOrder(lots, p, now, order) && order != []
    requires now <= t < lots[order[0]].expiresAt
    ensures Available(lots, p, t) == Available(lots, p, now)
  {
    forall i | 0 <= i < |lots| ensures LiveValue(p, t)(lots[i]) == LiveValue(p, now)(lots[i]) {
      if Live(lots[i], p, now) {
        var k :| 0 <= k < |order| && order[k] == i;
        assert k == 0 || Before(lots[order[0]], lots[order[k]]);
      }
    }
    SumSplit(lots, LiveValue(p, t), LiveValue(p, now), (l: Lot) => 0);
    SumConst(lots, (l: Lot) => 0, 0);
  }

  lemma FifoRest(lots: seq<Lot>, p: Owner, now: int, order: seq<nat>)
    requires FifoOrder(lots, p, now, order) && order != []
    ensures var i := order[0];
            FifoOrder(lots[i := TakeFrom(lots[i], lots[i].remaining)], p, now, order[1..])
  {
    var i := order[0];
    var next := lots[i := TakeFrom(lots[i], lots[i].remaining)];
    forall j | 0 <= j < |next| && Live(next[j], p, now) ensures j in order[1..] {
      assert j != i && Live(lots[j], p, now) && j in order;
    }
  }

  /** Taking from a live lot lowers what is alive at `t` if the lot is alive then. */
  lemma TakeLowers(lots: seq<Lot>, p: Owner, now: int, i: nat, take: int, t: int)
    requires i < |lots| && Live(lots[i], p, now) && 0 <= take <= lots[i].remaining
    ensures Available(lots[i := TakeFrom(lots[i], take)], p, t)
            == Available(lots, p, t) - if t < lots[i].expiresAt then take else 0
  {
    SumUpdate(lots, i, TakeFrom(lots[i], take), LiveValue(p, t));
  }

  /** What is left for later is all that later could hold, or all that is left. */
  lemma {:induction false} FifoLeaves(lots: seq<Lot>, p: Owner, now: int, order: seq<nat>, amount: nat, t: int)
    requires FifoOrder(lots, p, now, order) && amount <= Available(lots, p, now) && now <= t
    ensures Available(TakeInOrder(lots, order, amount).lots, p, t)
            == Min(Available(lots, p, t), Available(lots, p, now) - amount)
    decreases |order|
  {
    hide Available;
    AvailableFalls(lots, p, now, t);
    if amount > 0 {
      ShortfallIsExact(lots, p, now, order, amount);
      var i := order[0];
      var take := Min(lots[i].remaining, amount);
      var next := lots[i := TakeFrom(lots[i], take)];
      TakeLowers(lots, p, now, i, take, now);
      TakeLowers(lots, p, now, i, take, t);
      AvailableFalls(next, p, now, t);
      if t < lots[i].expiresAt {
        NothingExpiresBefore(lots, p, now, order, t);
      }
      if take < amount {
        FifoRest(lots, p, now, order);
        FifoLeaves(next, p, now, order[1..], amount - take, t);
      }
    }
  }

  // ---- any other policy ----

  /** Some choice of live lots of `p` pays `amount`. */
  ghost predicate Pays(lots: seq<Lot>, paid: seq<Lot>, p: Owner, now: int, amount: int) {
    && |paid| == |lots|
    && (forall i :: 0 <= i < |lots| ==>
          paid[i] == lots[i]
          || (Live(lots[i], p, now) && 0 <= paid[i].remaining <= lots[i].remaining
              && paid[i] == TakeFrom(lots[i], lots[i].remaining - paid[i].remaining)))
    && Available(paid, p, now) == Available(lots, p, now) - amount
  }

  ghost predicate CanPay(lots: seq<Lot>, p: Owner, now: int, amount: int) {
    exists paid :: Pays(lots, paid, p, now, amount)
  }

  lemma PaymentsOnlyLower(lots: seq<Lot>, paid: seq<Lot>, p: Owner, now: int, amount: int, t: int)
    requires Pays(lots, paid, p, now, amount)
    ensures Available(paid, p, t) <= Available(lots, p, t)
  {
    SumMonotone(paid, lots, LiveValue(p, t), LiveValue(p, t));
  }

  /** FIFO is one such policy. */
  lemma FifoPays(lots: seq<Lot>, p: Owner, now: int, order: seq<nat>, amount: nat)
    requires FifoOrder(lots, p, now, order) && amount <= Available(lots, p, now)
    ensures Pays(lots, TakeInOrder(lots, order, amount).lots, p, now, amount)
  {
    FifoLeaves(lots, p, now, order, amount, now);
    var taken := TakeInOrder(lots, order, amount);
    TakesArePaid(lots, p, now, order, amount);
    forall i | 0 <= i < |lots|
      ensures taken.lots[i] == lots[i]
              || (Live(lots[i], p, now) && 0 <= taken.lots[i].remaining <= lots[i].remaining
                  && taken.lots[i] == TakeFrom(lots[i], lots[i].remaining - taken.lots[i].remaining))
    {
      if Accounts.TakenFrom(taken.consumed, i) != 0 {
        CashSteps.TakenBounds(lots, p, now, order, amount, i);
      }
    }
  }

  // ---- runs ----

  /** `Elsewhere` is anything that leaves the lots of the client alone. */
  datatype Event = Earned(lot: Lot) | Paid(amount: nat) | Waited(until: int) | Swept | Elsewhere

  /** Some due lots are burned. */
  ghost predicate SomeBurned(lots: seq<Lot>, swept: seq<Lot>, now: int) {
    && |swept| == |lots|
    && forall i :: 0 <= i < |lots| ==>
         swept[i] == lots[i] || (Due(lots[i], now) && swept[i] == lots[i].(status := BURNED, remaining := 0))
  }

  /** Only lots of other owners than `p` change or appear. */
  ghost predicate OthersMove(lots: seq<Lot>, after: seq<Lot>, p: Owner) {
    && |lots| <= |after|
    && (forall i :: 0 <= i < |lots| ==> if lots[i].owner == p then after[i] == lots[i] else after[i].owner != p)
    && (forall i :: |lots| <= i < |after| ==> after[i].owner != p)
  }

  /** The parts of an event that do not depend on a policy. */
  ghost predicate CommonStep(e: Event, p: Owner, now: int, next: int, lots: seq<Lot>, after: seq<Lot>)
    requires !e.Paid?
  {
    match e
    case Earned(l) => after == lots + [l] && next == now
    case Waited(until) => after == lots && next == until && now <= until
    case Swept => SomeBurned(lots, after, now) && next == now
    case Elsewhere => OthersMove(lots, after, p) && next == now
  }

  /** A policy pays every amount somehow. */
  ghost predicate PolicyStep(e: Event, p: Owner, now: int, next: int, lots: seq<Lot>, after: seq<Lot>) {
    if e.Paid? then next == now && Pays(lots, after, p, now, e.amount)
    else CommonStep(e, p, now, next, lots, after)
  }

  /** FIFO pays when it can and otherwise leaves the lots alone. */
  ghost predicate FifoStep(e: Event, p: Owner, now: int, next: int, lots: seq<Lot>, after: seq<Lot>) {
    if e.Paid? then
      next == now
      && exists order :: FifoOrder(lots, p, now, order)
           && var taken := TakeInOrder(lots, order, e.amount);
              after == if taken.shortfall == 0 then taken.lots else lots
    else CommonStep(e, p, now, next, lots, after)
  }

  ghost predicate PolicyRun(p: Owner, events: seq<Event>, clock: seq<int>, lots: seq<seq<Lot>>) {
    && |clock| == |lots| == |events| + 1
    && forall k :: 0 <= k < |events| ==> PolicyStep(events[k], p, clock[k], clock[k + 1], lots[k], lots[k + 1])
  }

  ghost predicate FifoRun(p: Owner, events: seq<Event>, clock: seq<int>, lots: seq<seq<Lot>>) {
    && |clock| == |lots| == |events| + 1
    && forall k :: 0 <= k < |events| ==> FifoStep(events[k], p, clock[k], clock[k + 1], lots[k], lots[k + 1])
  }

  /** `a` holds at least as much as `b` that expires after any moment from `now` on. */
  ghost predicate Dominates(a: seq<Lot>, b: seq<Lot>, p: Owner, now: int) {
    forall t :: now <= t ==> Available(a, p, t) >= Available(b, p, t)
  }

  lemma SweepKeepsAvailable(lots: seq<Lot>, swept: seq<Lot>, p: Owner, now: int, t: int)
    requires SomeBurned(lots, swept, now) && now <= t
    ensures Available(swept, p, t) == Available(lots, p, t)
  {
    SumFrame(lots, swept, LiveValue(p, t));
  }

  lemma ElsewhereKeepsAvailable(lots: seq<Lot>, after: seq<Lot>, p: Owner, t: int)
    requires OthersMove(lots, after, p)
    ensures Available(after, p, t) == Available(lots, p, t)
  {
    SumFrame(lots, after, LiveValue(p, t));
  }

  lemma CommonKeepsDominance(
    e: Event, p: Owner, now: int, next: int, a: seq<Lot>, a1: seq<Lot>, b: seq<Lot>, b1: seq<Lot>)
    requires !e.Paid? && CommonStep(e, p, now, next, a, a1) && CommonStep(e, p, now, next, b, b1)
    requires Dominates(a, b, p, now)
    ensures Dominates(a1, b1, p, next)
  {
    forall t | next <= t ensures Available(a1, p, t) >= Available(b1, p, t) {
      assert Available(a, p, t) >= Available(b, p, t);
      match e {
        case Earned(l) =>
          SumSnoc(a, l, LiveValue(p, t));
          SumSnoc(b, l, LiveValue(p, t));
        case Waited(_) =>
        case Swept =>
          SweepKeepsAvailable(a, a1, p, now, t);
          SweepKeepsAvailable(b, b1, p, now, t);
        case Elsewhere =>
          ElsewhereKeepsAvailable(a, a1, p, t);
          ElsewhereKeepsAvailable(b, b1, p, t);
      }
    }
  }

  lemma PaymentKeepsDominance(
    p: Owner, now: int, amount: nat, a: seq<Lot>, order: seq<nat>, b: seq<Lot>, b1: seq<Lot>)
    requires FifoOrder(a, p, now, order) && Pays(b, b1, p, now, amount) && Dominates(a, b, p, now)
    ensures amount <= Available(a, p, now) && TakeInOrder(a, order, amount).shortfall == 0
    ensures Dominates(TakeInOrder(a, order, amount).lots, b1, p, now)
  {
    assert Available(a, p, now) >= Available(b, p, now);
    AvailableFalls(b1, p, now, now);
    ShortfallIsExact(a, p, now, order, amount);
    forall t | now <= t ensures Available(TakeInOrder(a, order, amount).lots, p, t) >= Available(b1, p, t) {
      assert Available(a, p, t) >= Available(b, p, t);
      FifoLeaves(a, p, now, order, amount, t);
      PaymentsOnlyLower(b, b1, p, now, amount, t);
      AvailableFalls(b1, p, now, t);
    }
  }

  /** Over any run of earnings, payments, waits and sweeps, FIFO holds at least what any other policy holds
      for every later moment, so it honours every payment that any policy can honour. */
  lemma {:induction false} FifoDominates(
    p: Owner, events: seq<Event>, clock: seq<int>, fifo: seq<seq<Lot>>, other: seq<seq<Lot>>, k: nat)
    requires FifoRun(p, events, clock, fifo) && PolicyRun(p, events, clock, other) && k <= |events|
    requires fifo[0] == other[0]
    ensures Dominates(fifo[k], other[k], p, clock[k])
    ensures k < |events| && events[k].Paid? ==>
              events[k].amount <= Available(fifo[k], p, clock[k])
              && Pays(fifo[k], fifo[k + 1], p, clock[k], events[k].amount)
  {
    if k > 0 {
      FifoDominates(p, events, clock, fifo, other, k - 1);
      var e := events[k - 1];
      assert PolicyStep(e, p, clock[k - 1], clock[k], other[k - 1], other[k]);
      assert FifoStep(e, p, clock[k - 1], clock[k], fifo[k - 1], fifo[k]);
      if e.Paid? {
        var order :| FifoOrder(fifo[k - 1], p, clock[k - 1], order)
          && var taken := TakeInOrder(fifo[k - 1], order, e.amount);
             fifo[k] == if taken.shortfall == 0 then taken.lots else fifo[k - 1];
        PaymentKeepsDominance(p, clock[k - 1], e.amount, fifo[k - 1], order, other[k - 1], other[k]);
      } else {
        CommonKeepsDominance(e, p, clock[k - 1], clock[k], fifo[k - 1], fifo[k], other[k - 1], other[k]);
      }
    }
    if k < |events| && events[k].Paid? {
      FifoHonours(p, events, clock, fifo, other, k);
    }
  }

  lemma FifoHonours(
    p: Owner, events: seq<Event>, clock: seq<int>, fifo: seq<seq<Lot>>, other: seq<seq<Lot>>, k: nat)
    requires FifoRun(p, events, clock, fifo) && PolicyRun(p, events, clock, other)
    requires k < |events| && events[k].Paid? && Dominates(fifo[k], other[k], p, clock[k])
    ensures events[k].amount <= Available(fifo[k], p, clock[k])
    ensures Pays(fifo[k], fifo[k + 1], p, clock[k], events[k].amount)
  {
    var amount, now := events[k].amount, clock[k];
    assert PolicyStep(events[k], p, now, clock[k + 1], other[k], other[k + 1]);
    assert FifoStep(events[k], p, now, clock[k + 1], fifo[k], fifo[k + 1]);
    var order :| FifoOrder(fifo[k], p, now, order)
      && var taken := TakeInOrder(fifo[k], order, amount);
         fifo[k + 1] == if taken.shortfall == 0 then taken.lots else fifo[k];
    PaymentKeepsDominance(p, now, amount, fifo[k], order, other[k], other[k + 1]);
    FifoPays(fifo[k], p, now, order, amount);
  }

  // ---- what is left to expire ----

  /** The value that ran out of time during the first `k` events. */
  ghost function Wasted(p: Owner, events: seq<Event>, clock: seq<int>, lots: seq<seq<Lot>>, k: nat): int
    requires k <= |events| && |clock| == |lots| == |events| + 1
  {
    if k == 0 then 0
    else
      Wasted(p, events, clock, lots, k - 1)
      + if events[k - 1].Waited? then Available(lots[k - 1], p, clock[k - 1]) - Available(lots[k - 1], p, clock[k])
        else 0
  }

  /** What the first `k` events bring in, net of payments. */
  ghost function NetReceived(p: Owner, events: seq<Event>, clock: seq<int>, k: nat): int
    requires k <= |events| && |clock| == |events| + 1
  {
    if k == 0 then 0
    else
      NetReceived(p, events, clock, k - 1)
      + match events[k - 1]
        case Earned(l) => LiveValue(p, clock[k - 1])(l)
        case Paid(amount) => 0 - amount
        case _ => 0
  }

  /** Under any policy, what is received is held, paid or wasted. */
  lemma {:induction false} NothingElseHappens(
    p: Owner, events: seq<Event>, clock: seq<int>, lots: seq<seq<Lot>>, k: nat)
    requires PolicyRun(p, events, clock, lots) && k <= |events|
    ensures Available(lots[k], p, clock[k]) + Wasted(p, events, clock, lots, k)
            == Available(lots[0], p, clock[0]) + NetReceived(p, events, clock, k)
  {
    if k > 0 {
      NothingElseHappens(p, events, clock, lots, k - 1);
      assert PolicyStep(events[k - 1], p, clock[k - 1], clock[k], lots[k - 1], lots[k]);
      match events[k - 1] {
        case Earned(l) => SumSnoc(lots[k - 1], l, LiveValue(p, clock[k - 1]));
        case Swept => SweepKeepsAvailable(lots[k - 1], lots[k], p, clock[k - 1], clock[k]);
        case Elsewhere => ElsewhereKeepsAvailable(lots[k - 1], lots[k], p, clock[k]);
        case _ =>
      }
    }
  }

  /** FIFO never wastes more than any other policy that makes the same payments. */
  lemma FifoWastesLeast(
    p: Owner, events: seq<Event>, clock: seq<int>, fifo: seq<seq<Lot>>, other: seq<seq<Lot>>, k: nat)
    requires FifoRun(p, events, clock, fifo) && PolicyRun(p, events, clock, other) && k <= |events|
    requires fifo[0] == other[0]
    ensures Wasted(p, events, clock, fifo, k) <= Wasted(p, events, clock, other, k)
  {
    forall j | 0 <= j < |events|
      ensures PolicyStep(events[j], p, clock[j], clock[j + 1], fifo[j], fifo[j + 1])
    {
      FifoDominates(p, events, clock, fifo, other, j);
      assert FifoStep(events[j], p, clock[j], clock[j + 1], fifo[j], fifo[j + 1]);
    }
    NothingElseHappens(p, events, clock, fifo, k);
    NothingElseHappens(p, events, clock, other, k);
    FifoDominates(p, events, clock, fifo, other, k);
    assert Available(fifo[k], p, clock[k]) >= Available(other[k], p, clock[k]);
  }
}
