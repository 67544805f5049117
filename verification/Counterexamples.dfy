/** Inputs on which the services do not do what their messages or documentation say. */
module Counterexamples {
  import opened Rows
  import opened Sums
  import opened Money
  import opened Cashback
  import Redemptions
  import opened Reversals
  import opened Machine
  import opened Agreement

  const CLIENT := Owner(1, 1)

  function Start(org: Organization): World {
    World(0, map[1 := User(true, true)], map[1 := org], map[], [], [], [], [])
  }

  lemma RunOne(w: World, ops: seq<Op>, op: Op)
    requires CanRun(w, ops) && Possible(Run(w, ops), op)
    ensures CanRun(w, ops + [op]) && Run(w, ops + [op]) == After(Run(w, ops), op)
  {
    assert (ops + [op])[..|ops + [op]| - 1] == ops;
  }

  const CASHBACK_ORG := Organization(true, CASHBACK, None, Some(CashbackProgram(500, 3_000, 1, 0, true)))

  const PURCHASE := Purchase(1_000, 1_000, 0, Snapshot(500, 3_000, 1))

  /** A purchase of 1000 tiyin earns 50. */
  function EarnedWorld(): World {
    Start(CASHBACK_ORG).(
      states := map[CLIENT := NEW_STATE.(available := 50, earned := 50)],
      lots := [Lot(CLIENT, 50, 50, ACTIVE, 0, DAY, 0)],
      ledger := [Transaction(CLIENT, CashbackEarn(50, Some(0), PURCHASE, None), COMPLETED, 0)])
  }

  /** A day later the sweep burns them. */
  function BurnedWorld(): World {
    EarnedWorld().(
      now := DAY,
      states := map[CLIENT := NEW_STATE.(earned := 50, expired := 50)],
      lots := [Lot(CLIENT, 50, 0, BURNED, 0, DAY, 0)],
      ledger := EarnedWorld().ledger + [Transaction(CLIENT, CashbackExpire(50, 0), COMPLETED, DAY)])
  }

  lemma FirstEarning()
    ensures After(Start(CASHBACK_ORG), Buy(CLIENT, 1_000)) == EarnedWorld()
  {
    assert ApplyBps(1_000, 500) == 50;
  }

  lemma BurnAfterADay()
    ensures After(EarnedWorld(), Tick(DAY)) == EarnedWorld().(now := DAY)
    ensures After(EarnedWorld().(now := DAY), SweepLot(0, DAY)) == BurnedWorld()
  {
  }

  lemma BurnedWorldIsReachable()
    ensures Reachable(BurnedWorld())
  {
    hide Apply, EarnedWorld, BurnedWorld, Start;
    var w0 := Start(CASHBACK_ORG);
    assert Initial(w0) by { StartIsInitial(CASHBACK_ORG); }
    var ops0: seq<Op> := [];
    assert CanRun(w0, ops0) && Run(w0, ops0) == w0;
    FirstEarning();
    BurnAfterADay();
    EarnedShape();
    var ops1 := ops0 + [Buy(CLIENT, 1_000)];
    RunOne(w0, ops0, Buy(CLIENT, 1_000));
    var ops2 := ops1 + [Tick(DAY)];
    RunOne(w0, ops1, Tick(DAY));
    var ops3 := ops2 + [SweepLot(0, DAY)];
    RunOne(w0, ops2, SweepLot(0, DAY));
    assert Run(w0, ops3) == BurnedWorld();
  }

  lemma StartIsInitial(org: Organization)
    ensures Initial(Start(org))
  {
  }

  lemma EarnedShape()
    ensures |EarnedWorld().lots| == 1
  {
  }

  /** A burned earning of which nothing was ever spent cannot be reversed without force, as if it had been. */
  lemma BurnedEarningRefusedAsSpent()
    ensures exists w: World, t: nat ::
              && Reachable(w) && t < |w.ledger| && w.ledger[t].kind.CashbackEarn? && w.ledger[t].status == COMPLETED
              && w.ledger[t].kind.lot.Some? && !LiveSpendOn(w, w.ledger[t].kind.lot.value)
              && Reverse(w, t, None, false, true).Err?
  {
    BurnedWorldIsReachable();
    var w := BurnedWorld();
    assert Reverse(w, 0, None, false, true).Err?;
    assert !LiveSpendOn(w, 0);
  }

  const SMALL := Purchase(10, 7, 3, Snapshot(500, 3_000, 1))

  /** Out of the 50 the client asks to pay 3 of a purchase of 10. */
  function AskedWorld(): World {
    EarnedWorld().(requests := [Request(CLIENT, CashbackRequest(SMALL, 0), PENDING, 60, [])])
  }

  function PaidWorld(): World {
    AskedWorld().(
      requests := [Request(CLIENT, CashbackRequest(SMALL, 0), CONFIRMED, 60, [1])],
      states := map[CLIENT := NEW_STATE.(available := 47, earned := 50, spent := 3)],
      lots := [Lot(CLIENT, 50, 47, ACTIVE, 0, DAY, 0)],
      ledger := EarnedWorld().ledger
        + [Transaction(CLIENT, CashbackSpend(3, [Consumed(0, 3)], SMALL, 0), COMPLETED, 0)])
  }

  /** A day later, before any sweep, the spend is reversed: the 3 are lost. */
  function ReturnedWorld(): World {
    PaidWorld().(
      now := DAY,
      states := map[CLIENT := NEW_STATE.(available := 47, earned := 50)],
      ledger := EarnedWorld().ledger
        + [Transaction(CLIENT, CashbackSpend(3, [Consumed(0, 3)], SMALL, 0), REVERSED, 0)]
        + [Transaction(CLIENT, Reversal(1, SpendUndone(0, 3)), COMPLETED, DAY)])
  }

  lemma SmallPurchaseAsked()
    ensures After(EarnedWorld(), AskCashback(CLIENT, 10, 3, 60)) == AskedWorld()
  {
    var w := EarnedWorld();
    assert ApplyBps(10, 3_000) == 3 && ApplyBps(7, 500) == 0;
    assert Available(w.lots, CLIENT, 0) == 50 by {
      assert w.lots[..0] == [];
      assert Sum(w.lots, LiveValue(CLIENT, 0)) == Sum(w.lots[..0], LiveValue(CLIENT, 0)) + 50;
    }
  }

  lemma SmallPaymentTaken()
    ensures Possible(AskedWorld(), ConfirmRequest(1, 0, [0]))
    ensures TakeInOrder(AskedWorld().lots, [0], 3) == Taken(PaidWorld().lots, [Consumed(0, 3)], 0)
  {
    var lots, order := AskedWorld().lots, [0];
    var next := lots[0 := TakeFrom(lots[0], 3)];
    assert order[1..] == [] && order[0] == 0;
    assert TakeInOrder(next, [], 0) == Taken(next, [], 0);
  }

  lemma SmallPurchasePaid()
    ensures Possible(AskedWorld(), ConfirmRequest(1, 0, [0]))
    ensures After(AskedWorld(), ConfirmRequest(1, 0, [0])) == PaidWorld()
  {
    hide TakeInOrder, FifoOrder;
    SmallPaymentTaken();
    var posted := Redemptions.Perform(AskedWorld(), 0, [0]);
    assert posted.Ok? && posted.value.states == PaidWorld().states;
    assert Range(1, 1) == [1];
    assert Redemptions.Settle(posted.value, 0, 1) == PaidWorld();
  }

  lemma ReturnedTooLate()
    ensures After(PaidWorld(), Tick(DAY)) == PaidWorld().(now := DAY)
    ensures After(PaidWorld().(now := DAY), ReverseEntry(1, None, false, true)) == ReturnedWorld()
  {
    var w := PaidWorld().(now := DAY);
    var consumed := [Consumed(0, 3)];
    assert GiveBack(w.lots, consumed, DAY) == Returned(w.lots, 0, 3) by {
      assert consumed[..0] == [];
    }
  }

  lemma ReturnedWorldIsReachable()
    ensures Reachable(ReturnedWorld())
  {
    hide Apply, EarnedWorld, AskedWorld, PaidWorld, ReturnedWorld, Start;
    var w0 := Start(CASHBACK_ORG);
    StartIsInitial(CASHBACK_ORG);
    var ops0: seq<Op> := [];
    assert CanRun(w0, ops0) && Run(w0, ops0) == w0;
    FirstEarning();
    SmallPurchaseAsked();
    SmallPurchasePaid();
    ReturnedTooLate();
    var ops1 := ops0 + [Buy(CLIENT, 1_000)];
    RunOne(w0, ops0, Buy(CLIENT, 1_000));
    var ops2 := ops1 + [AskCashback(CLIENT, 10, 3, 60)];
    RunOne(w0, ops1, AskCashback(CLIENT, 10, 3, 60));
    var ops3 := ops2 + [ConfirmRequest(1, 0, [0])];
    RunOne(w0, ops2, ConfirmRequest(1, 0, [0]));
    var ops4 := ops3 + [Tick(DAY)];
    RunOne(w0, ops3, Tick(DAY));
    var ops5 := ops4 + [ReverseEntry(1, None, false, true)];
    RunOne(w0, ops4, ReverseEntry(1, None, false, true));
    assert Run(w0, ops5) == ReturnedWorld();
  }

  /** Nor can an earning whose only spend was reversed too late, although nothing was burned either. */
  lemma LateReturnRefusedAsSpent()
    ensures exists w: World, t: nat ::
              && Reachable(w) && t < |w.ledger| && w.ledger[t].kind.CashbackEarn? && w.ledger[t].status == COMPLETED
              && w.ledger[t].kind.lot.Some?
              && !LiveSpendOn(w, w.ledger[t].kind.lot.value) && !Swept(w, w.ledger[t].kind.lot.value)
              && Reverse(w, t, None, false, true).Err?
  {
    ReturnedWorldIsReachable();
    var w := ReturnedWorld();
    assert Reverse(w, 0, None, false, true).Err?;
    assert !LiveSpendOn(w, 0) && !Swept(w, 0);
  }

  const VISIT_ORG := Organization(true, VISIT, Some(VisitProgram(2, 1, true)), None)

  /** Two visits reach a target of two; reversing the first then finds no progress to take back. */
  lemma ReversalLosesProgress()
    ensures exists w: World, t: nat ::
              && Reachable(w) && t < |w.ledger| && w.ledger[t].kind.VisitEarn? && w.ledger[t].status == COMPLETED
              && Reverse(w, t, None, false, true).Ok?
              && StateOf(w, CLIENT).progress == StateOf(Reverse(w, t, None, false, true).value, CLIENT).progress == 0
              && w.ledger[t].owner == CLIENT
  {
    var w0 := Start(VISIT_ORG);
    var ops0: seq<Op> := [];
    assert CanRun(w0, ops0) && Run(w0, ops0) == w0;
    RunOne(w0, ops0, Visit(CLIENT));
    var ops1 := ops0 + [Visit(CLIENT)];
    RunOne(w0, ops1, Visit(CLIENT));
    var ops2 := ops1 + [Visit(CLIENT)];
    var w := Run(w0, ops2);
    assert Reachable(w);
    assert w.ledger[0].kind.gifts == [];
    assert Reverse(w, 0, None, false, true).Ok?;
  }
}
