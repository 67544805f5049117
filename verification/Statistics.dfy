/** The organization statistics (app/apps/loyalty/services/statistics.py) against the aggregates. */
module Statistics {
  import opened Rows
  import opened Sums
  import opened Cashback
  import opened Accounts
  import opened CashLaws
  import opened GiftLaws
  import opened LedgerLaws
  import opened Machine
  import opened Steps

  /** The reporting period, both ends included. */
  datatype Period = Period(from: int, to: int) {
    predicate Covers(t: int) { from <= t <= to }
  }

  const DEFAULT_DAYS := 30

  /** _period: a missing end is now, a missing start is 30 days before now, whatever the end. */
  function PeriodOf(now: int, from: Option<int>, to: Option<int>): Period {
    Period(if from.Some? then from.value else now - DEFAULT_DAYS * DAY, if to.Some? then to.value else now)
  }

  datatype Report =
    | VisitReport(reversals: int, visits: int, giftsUsed: int, giftsAvailableNow: int)
    | CashbackReport(reversals: int, earned: int, spent: int, expired: int, activeBalance: int)

  function In(org: nat, period: Period): Transaction -> bool {
    (t: Transaction) => t.owner.org == org && period.Covers(t.createdAt)
  }

  function CompletedIn(org: nat, period: Period, value: Transaction -> int): Transaction -> int {
    (t: Transaction) => if In(org, period)(t) && t.status == COMPLETED then value(t) else 0
  }

  function ReversalIn(org: nat, period: Period): Transaction -> int {
    (t: Transaction) => if In(org, period)(t) && t.kind.Reversal? then 1 else 0
  }

  function ReversedIn(org: nat): Transaction -> int {
    (t: Transaction) => if t.owner.org == org && t.status == REVERSED then 1 else 0
  }

  function VisitOne(): Transaction -> int { (t: Transaction) => if t.kind.VisitEarn? then 1 else 0 }
  function EarnAmount(): Transaction -> int { (t: Transaction) => if t.kind.CashbackEarn? then t.kind.earned else 0 }
  function SpendAmount(): Transaction -> int { (t: Transaction) => if t.kind.CashbackSpend? then t.kind.spent else 0 }
  function BurnAmount(): Transaction -> int { (t: Transaction) => if t.kind.CashbackExpire? then t.kind.burned else 0 }

  /** organization_statistics at the moment `w.now`. */
  function OrganizationStatistics(w: World, org: nat, loyalty: LoyaltyType, period: Period): Report {
    var reversals := Sum(w.ledger, ReversalIn(org, period));
    if loyalty == VISIT then
      VisitReport(
        reversals,
        Sum(w.ledger, CompletedIn(org, period, VisitOne())),
        Sum(w.gifts, UsedIn(org, period)),
        Sum(w.gifts, AvailableIn(org)))
    else
      CashbackReport(
        reversals,
        Sum(w.ledger, CompletedIn(org, period, EarnAmount())),
        Sum(w.ledger, CompletedIn(org, period, SpendAmount())),
        Sum(w.ledger, CompletedIn(org, period, BurnAmount())),
        Sum(w.lots, LiveIn(org, w.now)))
  }

  function UsedIn(org: nat, period: Period): Gift -> int {
    (g: Gift) =>
      if g.owner.org == org && g.status == USED && g.usedAt.Some? && period.Covers(g.usedAt.value) then 1 else 0
  }

  function AvailableIn(org: nat): Gift -> int {
    (g: Gift) => if g.owner.org == org && g.status == AVAILABLE then 1 else 0
  }

  function LiveIn(org: nat, now: int): Lot -> int {
    (l: Lot) => if l.owner.org == org && Live(l, l.owner, now) then l.remaining else 0
  }

  // ---- one row at a time, grouped by a key ----

  function OwnedBy<T, K(==)>(keyOf: T -> K, value: T -> int, key: K): T -> int {
    (t: T) => if keyOf(t) == key then value(t) else 0
  }

  function OwnedByAny<T, K(==)>(keyOf: T -> K, value: T -> int, keys: seq<K>): T -> int {
    (t: T) => if keyOf(t) in keys then value(t) else 0
  }

  /** The total for each key in turn. */
  function PerKey<T, K(==)>(s: seq<T>, keyOf: T -> K, value: T -> int): K -> int {
    (key: K) => Sum(s, OwnedBy(keyOf, value, key))
  }

  ghost predicate NoRepeats<K>(keys: seq<K>) {
    forall j, k :: 0 <= j < k < |keys| ==> keys[j] != keys[k]
  }

  /** Adding up key by key counts each row of a listed key once. */
  lemma {:induction false} GroupedSum<T, K>(s: seq<T>, keyOf: T -> K, value: T -> int, keys: seq<K>)
    requires NoRepeats(keys)
    ensures Sum(keys, PerKey(s, keyOf, value)) == Sum(s, OwnedByAny(keyOf, value, keys))
  {
    if keys == [] {
      SumConst(s, OwnedByAny(keyOf, value, keys), 0);
    } else {
      var init, key := keys[..|keys| - 1], keys[|keys| - 1];
      assert keys == init + [key];
      GroupedSum(s, keyOf, value, init);
      SumSplit(s, OwnedByAny(keyOf, value, keys), OwnedByAny(keyOf, value, init), OwnedBy(keyOf, value, key));
    }
  }

  function TransactionOwner(): Transaction -> Owner { (t: Transaction) => t.owner }
  function LotOwner(): Lot -> Owner { (l: Lot) => l.owner }
  function GiftOwner(): Gift -> Owner { (g: Gift) => g.owner }
  function Completed(value: Transaction -> int): Transaction -> int {
    (t: Transaction) => if t.status == COMPLETED then value(t) else 0
  }
  function UsedOne(): Gift -> int { (g: Gift) => if g.status == USED then 1 else 0 }
  function LiveAmount(now: int): Lot -> int { (l: Lot) => if Live(l, l.owner, now) then l.remaining else 0 }

  /** `owners` lists the clients of `org`, each once. */
  ghost predicate Clients(w: World, org: nat, owners: seq<Owner>) {
    NoRepeats(owners) && forall p: Owner :: p in owners <==> p in w.states && p.org == org
  }

  /** The period contains everything that has happened. */
  ghost predicate WholeHistory(w: World, period: Period) {
    && w.now <= period.to
    && (forall t :: 0 <= t < |w.ledger| ==> period.from <= w.ledger[t].createdAt)
    && (forall g :: 0 <= g < |w.gifts| && w.gifts[g].usedAt.Some? ==> period.from <= w.gifts[g].usedAt.value)
  }

  // What the aggregates say, client by client.
  function TotalVisits(w: World): Owner -> int { (p: Owner) => StateOf(w, p).totalVisits }
  function TotalUsed(w: World): Owner -> int { (p: Owner) => StateOf(w, p).giftsUsed }
  function TotalEarned(w: World): Owner -> int { (p: Owner) => StateOf(w, p).earned }
  function TotalSpent(w: World): Owner -> int { (p: Owner) => StateOf(w, p).spent }
  function TotalExpired(w: World): Owner -> int { (p: Owner) => StateOf(w, p).expired }
  function AvailableNow(w: World): Owner -> int { (p: Owner) => Available(w.lots, p, w.now) }

  lemma LedgerTotal(w: World, org: nat, owners: seq<Owner>, period: Period, value: Transaction -> int,
                    fold: Owner -> Transaction -> int, total: Owner -> int)
    requires LedgerInv(w) && Clients(w, org, owners) && WholeHistory(w, period)
    requires forall p: Owner :: p in owners ==> total(p) == Sum(w.ledger, fold(p))
    requires forall p: Owner, t :: 0 <= t < |w.ledger| ==>
      fold(p)(w.ledger[t]) == OwnedBy(TransactionOwner(), Completed(value), p)(w.ledger[t])
    ensures Sum(w.ledger, CompletedIn(org, period, value)) == Sum(owners, total)
  {
    GroupedSum(w.ledger, TransactionOwner(), Completed(value), owners);
    forall k | 0 <= k < |owners|
      ensures total(owners[k]) == PerKey(w.ledger, TransactionOwner(), Completed(value))(owners[k])
    {
      SumAgrees(w.ledger, w.ledger, fold(owners[k]), OwnedBy(TransactionOwner(), Completed(value), owners[k]));
    }
    SumAgrees(owners, owners, total, PerKey(w.ledger, TransactionOwner(), Completed(value)));
    forall t | 0 <= t < |w.ledger|
      ensures CompletedIn(org, period, value)(w.ledger[t])
              == OwnedByAny(TransactionOwner(), Completed(value), owners)(w.ledger[t])
    {
      assert LedgerRow(w, t);
    }
    SumAgrees(w.ledger, w.ledger,
              CompletedIn(org, period, value), OwnedByAny(TransactionOwner(), Completed(value), owners));
  }

  lemma ActiveTotal(w: World, org: nat, owners: seq<Owner>)
    requires Inv(w) && Clients(w, org, owners)
    ensures Sum(w.lots, LiveIn(org, w.now)) == Sum(owners, AvailableNow(w))
  {
    GroupedSum(w.lots, LotOwner(), LiveAmount(w.now), owners);
    forall k | 0 <= k < |owners|
      ensures AvailableNow(w)(owners[k]) == PerKey(w.lots, LotOwner(), LiveAmount(w.now))(owners[k])
    {
      SumAgrees(w.lots, w.lots, LiveValue(owners[k], w.now), OwnedBy(LotOwner(), LiveAmount(w.now), owners[k]));
    }
    SumAgrees(owners, owners, AvailableNow(w), PerKey(w.lots, LotOwner(), LiveAmount(w.now)));
    forall i | 0 <= i < |w.lots|
      ensures LiveIn(org, w.now)(w.lots[i]) == OwnedByAny(LotOwner(), LiveAmount(w.now), owners)(w.lots[i])
    {
      assert LotRow(w, i) && LedgerRow(w, w.lots[i].source);
    }
    SumAgrees(w.lots, w.lots, LiveIn(org, w.now), OwnedByAny(LotOwner(), LiveAmount(w.now), owners));
  }

  lemma UsedTotal(w: World, org: nat, owners: seq<Owner>, period: Period)
    requires Inv(w) && Clients(w, org, owners) && WholeHistory(w, period)
    ensures Sum(w.gifts, UsedIn(org, period)) == Sum(owners, TotalUsed(w))
  {
    GroupedSum(w.gifts, GiftOwner(), UsedOne(), owners);
    forall k | 0 <= k < |owners|
      ensures TotalUsed(w)(owners[k]) == PerKey(w.gifts, GiftOwner(), UsedOne())(owners[k])
    {
      assert VisitBalance(w, owners[k]);
      SumAgrees(w.gifts, w.gifts, UsedBy(owners[k]), OwnedBy(GiftOwner(), UsedOne(), owners[k]));
    }
    SumAgrees(owners, owners, TotalUsed(w), PerKey(w.gifts, GiftOwner(), UsedOne()));
    forall g | 0 <= g < |w.gifts|
      ensures UsedIn(org, period)(w.gifts[g]) == OwnedByAny(GiftOwner(), UsedOne(), owners)(w.gifts[g])
    {
      assert GiftRow(w, g) && LedgerRow(w, w.gifts[g].visit);
    }
    SumAgrees(w.gifts, w.gifts, UsedIn(org, period), OwnedByAny(GiftOwner(), UsedOne(), owners));
  }

  function OriginalOf(): Transaction -> int {
    (t: Transaction) => if t.kind.Reversal? then t.kind.original else -1
  }

  /** A sum over row numbers is the sum over the rows. */
  lemma {:induction false} IndexSum<T>(s: seq<T>, f: T -> int, g: int -> int, keys: seq<int>)
    requires |keys| == |s| && forall k :: 0 <= k < |s| ==> g(keys[k]) == f(s[k])
    ensures Sum(keys, g) == Sum(s, f)
  {
    if s != [] {
      IndexSum(s[..|s| - 1], f, g, keys[..|keys| - 1]);
    }
  }

  /** Over the whole history the reported reversals are as many as the REVERSED entries. */
  lemma ReversalsCountReversed(w: World, org: nat, loyalty: LoyaltyType, period: Period)
    requires Reachable(w) && WholeHistory(w, period)
    ensures OrganizationStatistics(w, org, loyalty, period).reversals == Sum(w.ledger, ReversedIn(org))
  {
    ReachableInv(w);
    var value := ReversalIn(org, period);
    var keys: seq<int> := seq(|w.ledger|, k => k);
    GroupedSum(w.ledger, OriginalOf(), value, keys);
    forall t | 0 <= t < |w.ledger|
      ensures OwnedByAny(OriginalOf(), value, keys)(w.ledger[t]) == value(w.ledger[t])
    {
      assert LedgerRow(w, t);
      if w.ledger[t].kind.Reversal? {
        assert keys[w.ledger[t].kind.original] == w.ledger[t].kind.original;
      }
    }
    SumAgrees(w.ledger, w.ledger, OwnedByAny(OriginalOf(), value, keys), value);
    forall k | 0 <= k < |w.ledger|
      ensures PerKey(w.ledger, OriginalOf(), value)(keys[k]) == ReversedIn(org)(w.ledger[k])
    {
      ReversalsOf(w, org, period, k);
    }
    IndexSum(w.ledger, ReversedIn(org), PerKey(w.ledger, OriginalOf(), value), keys);
  }

  lemma ReversalsOf(w: World, org: nat, period: Period, k: nat)
    requires LedgerInv(w) && WholeHistory(w, period) && k < |w.ledger|
    ensures Sum(w.ledger, OwnedBy(OriginalOf(), ReversalIn(org, period), k as int)) == ReversedIn(org)(w.ledger[k])
  {
    var own := OwnedBy(OriginalOf(), ReversalIn(org, period), k as int);
    assert LedgerRow(w, k);
    forall t | 0 <= t < |w.ledger|
      ensures own(w.ledger[t]) == if w.ledger[k].owner.org == org then Reversing(k)(w.ledger[t]) else 0
    {
      assert LedgerRow(w, t);
      var tx := w.ledger[t];
      assert own(tx) == if OriginalOf()(tx) == k then ReversalIn(org, period)(tx) else 0;
      assert In(org, period)(tx) == (tx.owner.org == org);
      assert ReversalIn(org, period)(tx) == if tx.owner.org == org && tx.kind.Reversal? then 1 else 0;
    }
    if w.ledger[k].owner.org == org {
      SumAgrees(w.ledger, w.ledger, own, Reversing(k));
    } else {
      SumConst(w.ledger, own, 0);
    }
  }

  lemma VisitsTotal(w: World, org: nat, owners: seq<Owner>, period: Period)
    requires Inv(w) && Clients(w, org, owners) && WholeHistory(w, period)
    ensures Sum(w.ledger, CompletedIn(org, period, VisitOne())) == Sum(owners, TotalVisits(w))
  {
    var fold := (p: Owner) => VisitsBy(p);
    forall p: Owner | p in owners ensures TotalVisits(w)(p) == Sum(w.ledger, fold(p)) { assert VisitBalance(w, p); }
    LedgerTotal(w, org, owners, period, VisitOne(), fold, TotalVisits(w));
  }

  lemma EarnedTotal(w: World, org: nat, owners: seq<Owner>, period: Period)
    requires Inv(w) && Clients(w, org, owners) && WholeHistory(w, period)
    ensures Sum(w.ledger, CompletedIn(org, period, EarnAmount())) == Sum(owners, TotalEarned(w))
  {
    var fold := (p: Owner) => EarnedBy(p);
    forall p: Owner | p in owners ensures TotalEarned(w)(p) == Sum(w.ledger, fold(p)) { assert CashBalance(w, p); }
    LedgerTotal(w, org, owners, period, EarnAmount(), fold, TotalEarned(w));
  }

  lemma SpentTotal(w: World, org: nat, owners: seq<Owner>, period: Period)
    requires Inv(w) && Clients(w, org, owners) && WholeHistory(w, period)
    ensures Sum(w.ledger, CompletedIn(org, period, SpendAmount())) == Sum(owners, TotalSpent(w))
  {
    var fold := (p: Owner) => SpentBy(p);
    forall p: Owner | p in owners ensures TotalSpent(w)(p) == Sum(w.ledger, fold(p)) { assert CashBalance(w, p); }
    LedgerTotal(w, org, owners, period, SpendAmount(), fold, TotalSpent(w));
  }

  lemma ExpiredTotal(w: World, org: nat, owners: seq<Owner>, period: Period)
    requires Inv(w) && Clients(w, org, owners) && WholeHistory(w, period)
    ensures Sum(w.ledger, CompletedIn(org, period, BurnAmount())) == Sum(owners, TotalExpired(w))
  {
    var fold := (p: Owner) => BurnedBy(p);
    forall p: Owner | p in owners ensures TotalExpired(w)(p) == Sum(w.ledger, fold(p)) { assert CashBalance(w, p); }
    LedgerTotal(w, org, owners, period, BurnAmount(), fold, TotalExpired(w));
  }

  /** Over the whole history, an organization's figures are the sums of its clients' aggregates. */
  lemma StatisticsRefineAggregates(w: World, org: nat, owners: seq<Owner>, period: Period)
    requires Reachable(w) && Clients(w, org, owners) && WholeHistory(w, period)
    ensures var report := OrganizationStatistics(w, org, VISIT, period);
            && report.visits == Sum(owners, TotalVisits(w))
            && report.giftsUsed == Sum(owners, TotalUsed(w))
    ensures var report := OrganizationStatistics(w, org, CASHBACK, period);
            && report.earned == Sum(owners, TotalEarned(w))
            && report.spent == Sum(owners, TotalSpent(w))
            && report.expired == Sum(owners, TotalExpired(w))
            && report.activeBalance == Sum(owners, AvailableNow(w))
  {
    hide Sum, Inv;
    ReachableInv(w);
    VisitsTotal(w, org, owners, period);
    EarnedTotal(w, org, owners, period);
    SpentTotal(w, org, owners, period);
    ExpiredTotal(w, org, owners, period);
    UsedTotal(w, org, owners, period);
    ActiveTotal(w, org, owners);
  }
}
