/** Integer percentages in basis points (app/apps/common/money.py). */
module Money {

  const BPS_DENOMINATOR := 10_000

  function ApplyBps(amount: int, rate: int): int {
    if amount <= 0 || rate <= 0 then 0 else amount * rate / BPS_DENOMINATOR
  }

  /** The result is the largest number of tiyin that the exact percentage covers. */
  lemma ApplyBpsIsFloor(amount: nat, rate: nat, x: int)
    ensures x <= ApplyBps(amount, rate) <==> x * BPS_DENOMINATOR <= amount * rate
  {
    var n := amount * rate;
    if amount == 0 || rate == 0 {
      assert n == 0;
    }
    assert n == n / BPS_DENOMINATOR * BPS_DENOMINATOR + n % BPS_DENOMINATOR;
  }

  /** No percentage is taken of nothing or less. */
  lemma ApplyBpsOfNothing(amount: int, rate: int)
    requires amount <= 0 || rate <= 0
    ensures ApplyBps(amount, rate) == 0
  {
  }

  lemma ApplyBpsAtMost(amount: nat, rate: nat)
    requires rate <= BPS_DENOMINATOR
    ensures 0 <= ApplyBps(amount, rate) <= amount
  {
    ApplyBpsIsFloor(amount, rate, 0);
    var r := ApplyBps(amount, rate);
    ApplyBpsIsFloor(amount, rate, r);
    assert amount * rate <= amount * BPS_DENOMINATOR;
  }

  function Total(purchases: seq<nat>): nat {
    if purchases == [] then 0 else Total(purchases[..|purchases| - 1]) + purchases[|purchases| - 1]
  }

  /** What n purchases without a spend earn, one at a time. */
  function EarnedInTurn(purchases: seq<nat>, rate: nat): int {
    if purchases == [] then 0
    else EarnedInTurn(purchases[..|purchases| - 1], rate) + ApplyBps(purchases[|purchases| - 1], rate)
  }

  lemma ApplyBpsSuperadditive(a: nat, b: nat, rate: nat)
    ensures ApplyBps(a, rate) + ApplyBps(b, rate) <= ApplyBps(a + b, rate)
    ensures ApplyBps(a + b, rate) <= ApplyBps(a, rate) + ApplyBps(b, rate) + 1
  {
    var x, y, z := ApplyBps(a, rate), ApplyBps(b, rate), ApplyBps(a + b, rate);
    assert (a + b) * rate == a * rate + b * rate;
    ApplyBpsIsFloor(a, rate, x);
    ApplyBpsIsFloor(b, rate, y);
    ApplyBpsIsFloor(a, rate, x + 1);
    ApplyBpsIsFloor(b, rate, y + 1);
    ApplyBpsIsFloor(a + b, rate, x + y);
    ApplyBpsIsFloor(a + b, rate, z);
  }

  /** Splitting a purchase into n never earns more and loses less than n tiyin. */
  lemma {:induction false} SplitPurchaseLoss(purchases: seq<nat>, rate: nat)
    requires purchases != []
    ensures EarnedInTurn(purchases, rate) <= ApplyBps(Total(purchases), rate)
    ensures ApplyBps(Total(purchases), rate) < EarnedInTurn(purchases, rate) + |purchases|
  {
    var n := |purchases| - 1;
    if n > 0 {
      SplitPurchaseLoss(purchases[..n], rate);
      ApplyBpsSuperadditive(Total(purchases[..n]), purchases[n], rate);
    } else {
      assert purchases[..n] == [];
      assert EarnedInTurn(purchases, rate) == EarnedInTurn([], rate) + ApplyBps(purchases[0], rate);
      assert Total(purchases) == Total([]) + purchases[0];
    }
  }
}
