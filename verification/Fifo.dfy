/** What the FIFO spend takes, and when it succeeds. */
module Fifo {
  import opened Rows
  import opened Sums
  import opened Cashback
  import opened Accounts

  /** Distinct live lots of `p`: what a spend's query returns, whatever its order. */
  ghost predicate LiveLots(lots: seq<Lot>, p: Owner, now: int, order: seq<nat>) {
    && (forall k :: 0 <= k < |order| ==> order[k] < |lots| && Live(lots[order[k]], p, now))
    && (forall j, k :: 0 <= j < k < |order| ==> order[j] != order[k])
  }

  lemma RestAfterTake(lots: seq<Lot>, p: Owner, now: int, order: seq<nat>, take: int)
    requires LiveLots(lots, p, now, order) && order != []
    ensures LiveLots(lots[order[0] := TakeFrom(lots[order[0]], take)], p, now, order[1..])
  {
  }

  /** The entries follow the order, empty every lot but the last one they touch, and stop short only
      when every lot is empty. */
  ghost predicate PrefixEmptied(lots: seq<Lot>, order: seq<nat>, taken: Taken) {
    var n := |taken.consumed|;
    && n <= |order|
    && (forall k :: 0 <= k < n ==> taken.consumed[k].lot == order[k])
    && (forall k :: 0 <= k < n ==> order[k] < |lots| && 0 < taken.consumed[k].amount <= lots[order[k]].remaining)
    && (forall k :: 0 <= k < n - 1 ==> taken.consumed[k].amount == lots[order[k]].remaining)
    && (taken.shortfall > 0 ==>
          n == |order| && (n > 0 ==> taken.consumed[n - 1].amount == lots[order[n - 1]].remaining))
  }

  lemma {:induction false} TakesInOrder(lots: seq<Lot>, p: Owner, now: int, order: seq<nat>, amount: nat)
    requires LiveLots(lots, p, now, order)
    ensures PrefixEmptied(lots, order, TakeInOrder(lots, order, amount))
    ensures TakeInOrder(lots, order, amount).shortfall >= 0
    decreases |order|
  {
    if order != [] && amount > 0 {
      var i := order[0];
      var take := Min(lots[i].remaining, amount);
      var next := lots[i := TakeFrom(lots[i], take)];
      RestAfterTake(lots, p, now, order, take);
      TakesInOrder(next, p, now, order[1..], amount - take);
      var rest := TakeInOrder(next, order[1..], amount - take);
      var all := TakeInOrder(lots, order, amount);
      forall k | 0 <= k < |all.consumed|
        ensures all.consumed[k].lot == order[k]
        ensures order[k] < |lots| && 0 < all.consumed[k].amount <= lots[order[k]].remaining
        ensures k < |all.consumed| - 1 || all.shortfall > 0 ==> all.consumed[k].amount == lots[order[k]].remaining
      {
        if k > 0 {
          assert all.consumed[k] == rest.consumed[k - 1] && order[k] == order[1..][k - 1];
        }
      }
    }
  }

  /** The entries sum to what was paid, and each lot loses exactly what its entry says. */
  ghost predicate PaidByEntries(lots: seq<Lot>, amount: int, taken: Taken) {
    && |taken.lots| == |lots|
    && Sum(taken.consumed, EntryAmount()) == amount - taken.shortfall
    && (forall i :: 0 <= i < |lots| ==>
          var d := TakenFrom(taken.consumed, i);
          taken.lots[i] == if d == 0 then lots[i] else TakeFrom(lots[i], d))
  }

  lemma TakenFromFront(e: Consumed, rest: seq<Consumed>, i: nat)
    ensures TakenFrom([e] + rest, i) == EntryOn(i)(e) + TakenFrom(rest, i)
    ensures Sum([e] + rest, EntryAmount()) == e.amount + Sum(rest, EntryAmount())
  {
    SumConcat([e], rest, EntryOn(i));
    SumConcat([e], rest, EntryAmount());
    assert [e][..0] == [];
  }

  lemma UntouchedByRest(lots: seq<Lot>, p: Owner, now: int, order: seq<nat>, amount: nat, i: nat)
    requires LiveLots(lots, p, now, order) && i !in order
    ensures TakenFrom(TakeInOrder(lots, order, amount).consumed, i) == 0
  {
    TakesInOrder(lots, p, now, order, amount);
    SumConst(TakeInOrder(lots, order, amount).consumed, EntryOn(i), 0);
  }

  lemma {:induction false} TakesSum(lots: seq<Lot>, p: Owner, now: int, order: seq<nat>, amount: nat)
    requires LiveLots(lots, p, now, order)
    ensures var taken := TakeInOrder(lots, order, amount);
            Sum(taken.consumed, EntryAmount()) == amount - taken.shortfall
    decreases |order|
  {
    if order != [] && amount > 0 {
      var i := order[0];
      var take := Min(lots[i].remaining, amount);
      var next := lots[i := TakeFrom(lots[i], take)];
      RestAfterTake(lots, p, now, order, take);
      TakesSum(next, p, now, order[1..], amount - take);
      TakenFromFront(Consumed(i, take), TakeInOrder(next, order[1..], amount - take).consumed, i);
    }
  }

  lemma {:induction false} TakesPerLot(
    lots: seq<Lot>, p: Owner, now: int, order: seq<nat>, amount: nat, i: nat)
    requires LiveLots(lots, p, now, order) && i < |lots|
    ensures var taken := TakeInOrder(lots, order, amount);
            var d := TakenFrom(taken.consumed, i);
            taken.lots[i] == if d == 0 then lots[i] else TakeFrom(lots[i], d)
    decreases |order|
  {
    if order != [] && amount > 0 {
      var j := order[0];
      var take := Min(lots[j].remaining, amount);
      var next := lots[j := TakeFrom(lots[j], take)];
      RestAfterTake(lots, p, now, order, take);
      TakesPerLot(next, p, now, order[1..], amount - take, i);
      if i == j {
        UntouchedByRest(next, p, now, order[1..], amount - take, i);
      }
      TakenFromFront(Consumed(j, take), TakeInOrder(next, order[1..], amount - take).consumed, i);
    }
  }

  lemma TakesArePaid(lots: seq<Lot>, p: Owner, now: int, order: seq<nat>, amount: nat)
    requires LiveLots(lots, p, now, order)
    ensures PaidByEntries(lots, amount, TakeInOrder(lots, order, amount))
  {
    TakesSum(lots, p, now, order, amount);
    forall i | 0 <= i < |lots|
      ensures var taken := TakeInOrder(lots, order, amount);
              var d := TakenFrom(taken.consumed, i);
              taken.lots[i] == if d == 0 then lots[i] else TakeFrom(lots[i], d)
    {
      TakesPerLot(lots, p, now, order, amount, i);
    }
  }

  /** A spend of `amount` lowers the owner's ACTIVE total by what it took and nobody else's. */
  lemma {:induction false} TakesLowerActive(
    lots: seq<Lot>, p: Owner, now: int, order: seq<nat>, amount: nat, q: Owner)
    requires LiveLots(lots, p, now, order)
    ensures var taken := TakeInOrder(lots, order, amount);
            Sum(taken.lots, ActiveValue(q))
            == Sum(lots, ActiveValue(q)) - if q == p then amount - taken.shortfall else 0
    decreases |order|
  {
    if order != [] && amount > 0 {
      var i := order[0];
      var take := Min(lots[i].remaining, amount);
      RestAfterTake(lots, p, now, order, take);
      SumUpdate(lots, i, TakeFrom(lots[i], take), ActiveValue(q));
      TakesLowerActive(lots[i := TakeFrom(lots[i], take)], p, now, order[1..], amount - take, q);
    }
  }

  /** With every live lot in the query, a spend falls short by exactly what available_amount lacks. */
  lemma {:induction false} ShortfallIsExact(
    lots: seq<Lot>, p: Owner, now: int, order: seq<nat>, amount: nat)
    requires LiveLots(lots, p, now, order)
    requires forall i :: 0 <= i < |lots| && Live(lots[i], p, now) ==> i in order
    ensures TakeInOrder(lots, order, amount).shortfall == Max(0, amount - Available(lots, p, now))
    decreases |order|
  {
    if order == [] {
      SumConst(lots, LiveValue(p, now), 0);
    } else if amount == 0 {
      SumNonNegative(lots, LiveValue(p, now));
    } else {
      var i := order[0];
      var take := Min(lots[i].remaining, amount);
      var next := lots[i := TakeFrom(lots[i], take)];
      SumUpdate(lots, i, next[i], LiveValue(p, now));
      if take == amount {
        SumNonNegative(next, LiveValue(p, now));
        assert TakeInOrder(next, order[1..], 0).shortfall == 0;
      } else {
        RestAfterTake(lots, p, now, order, take);
        forall j | 0 <= j < |next| && Live(next[j], p, now) ensures j in order[1..] {
          assert j != i && Live(lots[j], p, now);
        }
        ShortfallIsExact(next, p, now, order[1..], amount - take);
      }
    }
  }

  /** The FIFO spend: it succeeds exactly when available_amount covers the amount; then the takes sum
      to the amount and empty a prefix of the expiry order, touching at most one further lot. */
  lemma FifoSpend(lots: seq<Lot>, p: Owner, now: int, order: seq<nat>, amount: nat)
    requires FifoOrder(lots, p, now, order)
    ensures var taken := TakeInOrder(lots, order, amount);
            && (taken.shortfall == 0 <==> amount <= Available(lots, p, now))
            && PrefixEmptied(lots, order, taken)
            && PaidByEntries(lots, amount, taken)
  {
    ShortfallIsExact(lots, p, now, order, amount);
    TakesInOrder(lots, p, now, order, amount);
    TakesArePaid(lots, p, now, order, amount);
  }

  // ---- the query always has an answer ----

  ghost predicate Sorted(lots: seq<Lot>, order: seq<nat>) {
    && (forall k :: 0 <= k < |order| ==> order[k] < |lots|)
    && (forall j, k :: 0 <= j < k < |order| ==> Before(lots[order[j]], lots[order[k]]))
  }

  /** Where `i` goes in a sorted order. */
  function Place(lots: seq<Lot>, order: seq<nat>, i: nat): (k: nat)
    requires i < |lots| && forall k :: 0 <= k < |order| ==> order[k] < |lots|
    ensures k <= |order|
  {
    if order == [] || Before(lots[order[|order| - 1]], lots[i]) then |order|
    else Place(lots, order[..|order| - 1], i)
  }

  lemma {:induction false} PlaceSplits(lots: seq<Lot>, order: seq<nat>, i: nat)
    requires i < |lots| && Sorted(lots, order)
    ensures var k := Place(lots, order, i);
            && (forall j :: 0 <= j < k ==> Before(lots[order[j]], lots[i]))
            && (forall j :: k <= j < |order| ==> Before(lots[i], lots[order[j]]))
  {
    if order != [] && !Before(lots[order[|order| - 1]], lots[i]) {
      PlaceSplits(lots, order[..|order| - 1], i);
    }
  }

  function Insert(lots: seq<Lot>, order: seq<nat>, i: nat): (r: seq<nat>)
    requires i < |lots| && forall k :: 0 <= k < |order| ==> order[k] < |lots|
    ensures |r| == |order| + 1
    ensures var k := Place(lots, order, i);
            forall j {:trigger r[j]} :: 0 <= j <= |order| ==>
              r[j] == if j < k then order[j] else if j == k then i else order[j - 1]
  {
    var k := Place(lots, order, i);
    order[..k] + [i] + order[k..]
  }

  lemma InsertKeepsSorted(lots: seq<Lot>, order: seq<nat>, i: nat)
    requires i < |lots| && Sorted(lots, order)
    ensures Sorted(lots, Insert(lots, order, i))
  {
    var k, u := Place(lots, order, i), Insert(lots, order, i);
    PlaceSplits(lots, order, i);
    forall j, l | 0 <= j < l < |u| ensures Before(lots[u[j]], lots[u[l]]) {
      if j != k && l != k {
        assert u[j] == order[if j < k then j else j - 1];
        assert u[l] == order[if l < k then l else l - 1];
      }
    }
  }

  lemma InsertKeepsMembers(lots: seq<Lot>, order: seq<nat>, i: nat, x: nat)
    requires i < |lots| && forall k :: 0 <= k < |order| ==> order[k] < |lots|
    ensures x in Insert(lots, order, i) <==> x == i || x in order
  {
    var k, u := Place(lots, order, i), Insert(lots, order, i);
    if x == i {
      assert u[k] == x;
    } else if x in order {
      var j :| 0 <= j < |order| && order[j] == x;
      assert u[if j < k then j else j + 1] == x;
    }
  }

  lemma InsertKeepsLive(lots: seq<Lot>, p: Owner, now: int, order: seq<nat>, i: nat)
    requires LiveLots(lots, p, now, order) && i !in order && i < |lots| && Live(lots[i], p, now)
    ensures LiveLots(lots, p, now, Insert(lots, order, i))
  {
    var k, u := Place(lots, order, i), Insert(lots, order, i);
    forall j | 0 <= j < |u| ensures u[j] < |lots| && Live(lots[u[j]], p, now) {
      if j != k { assert u[j] == order[if j < k then j else j - 1]; }
    }
    forall j, l | 0 <= j < l < |u| ensures u[j] != u[l] {
      if j != k { assert u[j] == order[if j < k then j else j - 1]; }
      if l != k { assert u[l] == order[if l < k then l else l - 1]; }
    }
  }

  /** The live lots among the first `n`, in expiry order. */
  function LiveOrder(lots: seq<Lot>, p: Owner, now: int, n: nat): (r: seq<nat>)
    requires n <= |lots|
    ensures forall k :: 0 <= k < |r| ==> r[k] < n
  {
    if n == 0 then []
    else
      var r := LiveOrder(lots, p, now, n - 1);
      if Live(lots[n - 1], p, now) then Insert(lots, r, n - 1) else r
  }

  lemma {:induction false} LiveOrderSorted(lots: seq<Lot>, p: Owner, now: int, n: nat)
    requires n <= |lots|
    ensures Sorted(lots, LiveOrder(lots, p, now, n))
    ensures LiveLots(lots, p, now, LiveOrder(lots, p, now, n))
  {
    if n > 0 {
      LiveOrderSorted(lots, p, now, n - 1);
      if Live(lots[n - 1], p, now) {
        InsertKeepsSorted(lots, LiveOrder(lots, p, now, n - 1), n - 1);
        InsertKeepsLive(lots, p, now, LiveOrder(lots, p, now, n - 1), n - 1);
      }
    }
  }

  lemma {:induction false} LiveOrderComplete(lots: seq<Lot>, p: Owner, now: int, n: nat, i: nat)
    requires i < n <= |lots| && Live(lots[i], p, now)
    ensures i in LiveOrder(lots, p, now, n)
  {
    var r := LiveOrder(lots, p, now, n - 1);
    if i < n - 1 {
      LiveOrderComplete(lots, p, now, n - 1, i);
    }
    if Live(lots[n - 1], p, now) {
      InsertKeepsMembers(lots, r, n - 1, i);
    }
  }

  /** The spend's query has an answer in every state. */
  lemma FifoOrderExists(lots: seq<Lot>, p: Owner, now: int)
    ensures FifoOrder(lots, p, now, LiveOrder(lots, p, now, |lots|))
  {
    LiveOrderSorted(lots, p, now, |lots|);
    forall i | 0 <= i < |lots| && Live(lots[i], p, now) ensures i in LiveOrder(lots, p, now, |lots|) {
      LiveOrderComplete(lots, p, now, |lots|, i);
    }
  }
}
