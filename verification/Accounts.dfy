/** The folds over the tables that the aggregates must agree with. */
module Accounts {
  import opened Rows
  import opened Sums

  // ---- lots ----

  /** A lot's contribution to the sum over ACTIVE lots of `p`. */
  function ActiveValue(p: Owner): Lot -> int {
    (l: Lot) => if l.owner == p && l.status == ACTIVE then l.remaining else 0
  }

  // ---- the cashback side of the ledger ----

  /** An entry's effect on the balance of `p` when the whole ledger is replayed, reversed entries included. */
  function Signed(p: Owner): Transaction -> int {
    (t: Transaction) =>
      if t.owner != p then 0
      else
        match t.kind
        case CashbackEarn(amount, _, _, _) => amount
        case CashbackSpend(amount, _, _, _) => -amount
        case CashbackExpire(amount, _) => -amount
        case Reversal(_, EarnUndone(_, withdrawn, _)) => -withdrawn
        case Reversal(_, SpendUndone(restored, _)) => restored
        case _ => 0
  }

  function EarnedBy(p: Owner): Transaction -> int {
    (t: Transaction) => if t.owner == p && t.kind.CashbackEarn? && t.status == COMPLETED then t.kind.earned else 0
  }

  function SpentBy(p: Owner): Transaction -> int {
    (t: Transaction) => if t.owner == p && t.kind.CashbackSpend? && t.status == COMPLETED then t.kind.spent else 0
  }

  function BurnedBy(p: Owner): Transaction -> int {
    (t: Transaction) => if t.owner == p && t.kind.CashbackExpire? && t.status == COMPLETED then t.kind.burned else 0
  }

  /** The part of a reversed earning that was no longer in its lot. */
  function UnrecoverableOf(p: Owner): Transaction -> int {
    (t: Transaction) =>
      if t.owner == p && t.kind.Reversal? && t.kind.effect.EarnUndone? then t.kind.effect.unrecoverable else 0
  }

  /** The part of a reversed spend that no lot could take back. */
  function LostOf(p: Owner): Transaction -> int {
    (t: Transaction) =>
      if t.owner == p && t.kind.Reversal? && t.kind.effect.SpendUndone? then t.kind.effect.lost else 0
  }

  // ---- what spends took from one lot ----

  function EntryAmount(): Consumed -> int { (e: Consumed) => e.amount }

  function EntryOn(i: nat): Consumed -> int { (e: Consumed) => if e.lot == i then e.amount else 0 }

  /** What `consumed` takes from lot `i`. */
  function TakenFrom(consumed: seq<Consumed>, i: nat): int { Sum(consumed, EntryOn(i)) }

  /** What a COMPLETED spend takes from lot `i`. */
  function UseOn(i: nat): Transaction -> int {
    (t: Transaction) =>
      if t.kind.CashbackSpend? && t.status == COMPLETED then TakenFrom(t.kind.consumed, i) else 0
  }

  function LiveUse(ledger: seq<Transaction>, i: nat): int { Sum(ledger, UseOn(i)) }

  // ---- visits and gifts ----

  function VisitsBy(p: Owner): Transaction -> int {
    (t: Transaction) => if t.owner == p && t.kind.VisitEarn? && t.status == COMPLETED then 1 else 0
  }

  function VisitsEver(p: Owner): Transaction -> int {
    (t: Transaction) => if t.owner == p && t.kind.VisitEarn? then 1 else 0
  }

  /** The targets of threshold visits that are not reversed. */
  function OpenTargets(p: Owner): Transaction -> int {
    (t: Transaction) =>
      if t.owner == p && t.kind.VisitEarn? && t.status == COMPLETED && t.kind.gifts != [] then t.kind.target else 0
  }

  function HeldBy(p: Owner): Gift -> int {
    (g: Gift) => if g.owner == p && g.status in {AVAILABLE, PENDING_REDEMPTION} then 1 else 0
  }

  function KeptBy(p: Owner): Gift -> int {
    (g: Gift) => if g.owner == p && g.status != CANCELLED then 1 else 0
  }

  function UsedBy(p: Owner): Gift -> int {
    (g: Gift) => if g.owner == p && g.status == USED then 1 else 0
  }

  /** PENDING requests for gift `g`. */
  function Naming(g: nat): Request -> int {
    (r: Request) => if r.status == PENDING && r.kind == GiftRequest(g) then 1 else 0
  }

  /** COMPLETED redemptions of gift `g`. */
  function Redeeming(g: nat): Transaction -> int {
    (t: Transaction) => if t.kind.GiftRedeem? && t.kind.gift == g && t.status == COMPLETED then 1 else 0
  }

  /** Reversals of entry `k`. */
  function Reversing(k: nat): Transaction -> int {
    (t: Transaction) => if t.kind.Reversal? && t.kind.original == k then 1 else 0
  }

  // ---- how folds react to the ledger's two kinds of change ----

  /** A reversal marks one entry and appends another. */
  lemma SumBooked(ledger: seq<Transaction>, t: nat, marked: Transaction, entry: Transaction,
                  f: Transaction -> int)
    requires t < |ledger|
    ensures Sum(ledger[t := marked] + [entry], f) == Sum(ledger, f) - f(ledger[t]) + f(marked) + f(entry)
  {
    hide Sum;
    SumUpdate(ledger, t, marked, f);
    SumSnoc(ledger[t := marked], entry, f);
  }

  lemma CashSnoc(ledger: seq<Transaction>, x: Transaction, p: Owner)
    ensures Sum(ledger + [x], Signed(p)) == Sum(ledger, Signed(p)) + Signed(p)(x)
    ensures Sum(ledger + [x], EarnedBy(p)) == Sum(ledger, EarnedBy(p)) + EarnedBy(p)(x)
    ensures Sum(ledger + [x], SpentBy(p)) == Sum(ledger, SpentBy(p)) + SpentBy(p)(x)
    ensures Sum(ledger + [x], BurnedBy(p)) == Sum(ledger, BurnedBy(p)) + BurnedBy(p)(x)
    ensures Sum(ledger + [x], UnrecoverableOf(p)) == Sum(ledger, UnrecoverableOf(p)) + UnrecoverableOf(p)(x)
    ensures Sum(ledger + [x], LostOf(p)) == Sum(ledger, LostOf(p)) + LostOf(p)(x)
  {
    SumSnoc(ledger, x, Signed(p));
    SumSnoc(ledger, x, EarnedBy(p));
    SumSnoc(ledger, x, SpentBy(p));
    SumSnoc(ledger, x, BurnedBy(p));
    SumSnoc(ledger, x, UnrecoverableOf(p));
    SumSnoc(ledger, x, LostOf(p));
  }

  lemma CashUpdate(ledger: seq<Transaction>, t: nat, x: Transaction, p: Owner)
    requires t < |ledger|
    ensures Sum(ledger[t := x], Signed(p)) == Sum(ledger, Signed(p)) - Signed(p)(ledger[t]) + Signed(p)(x)
    ensures Sum(ledger[t := x], EarnedBy(p)) == Sum(ledger, EarnedBy(p)) - EarnedBy(p)(ledger[t]) + EarnedBy(p)(x)
    ensures Sum(ledger[t := x], SpentBy(p)) == Sum(ledger, SpentBy(p)) - SpentBy(p)(ledger[t]) + SpentBy(p)(x)
    ensures Sum(ledger[t := x], BurnedBy(p)) == Sum(ledger, BurnedBy(p)) - BurnedBy(p)(ledger[t]) + BurnedBy(p)(x)
    ensures Sum(ledger[t := x], UnrecoverableOf(p))
         == Sum(ledger, UnrecoverableOf(p)) - UnrecoverableOf(p)(ledger[t]) + UnrecoverableOf(p)(x)
    ensures Sum(ledger[t := x], LostOf(p)) == Sum(ledger, LostOf(p)) - LostOf(p)(ledger[t]) + LostOf(p)(x)
  {
    SumUpdate(ledger, t, x, Signed(p));
    SumUpdate(ledger, t, x, EarnedBy(p));
    SumUpdate(ledger, t, x, SpentBy(p));
    SumUpdate(ledger, t, x, BurnedBy(p));
    SumUpdate(ledger, t, x, UnrecoverableOf(p));
    SumUpdate(ledger, t, x, LostOf(p));
  }
}
