/** What the statistics of any period count (app/apps/loyalty/services/statistics.py). */
module Periods {
  import opened Rows
  import opened Sums
  import opened LedgerLaws
  import opened Machine
  import opened Steps
  import opened Statistics

  /** The rows that satisfy `keep`, in order. */
  function Where<T>(s: seq<T>, keep: T -> bool): seq<T> {
    if s == [] then []
    else
      var init, last := s[..|s| - 1], s[|s| - 1];
      if keep(last) then Where(init, keep) + [last] else Where(init, keep)
  }

  lemma {:induction false} SumWhere<T>(s: seq<T>, f: T -> int, keep: T -> bool, value: T -> int)
    requires forall i :: 0 <= i < |s| ==> f(s[i]) == if keep(s[i]) then value(s[i]) else 0
    ensures Sum(s, f) == Sum(Where(s, keep), value)
  {
    if s != [] {
      SumWhere(s[..|s| - 1], f, keep, value);
      if keep(s[|s| - 1]) {
        SumSnoc(Where(s[..|s| - 1], keep), s[|s| - 1], value);
      }
    }
  }

  /** A count is the number of the rows that count. */
  lemma {:induction false} CountIs<T>(s: seq<T>, f: T -> int, rows: set<nat>)
    requires forall i :: i in rows ==> i < |s|
    requires forall i: nat :: i < |s| ==> f(s[i]) == if i in rows then 1 else 0
    ensures Sum(s, f) == |rows|
  {
    if s == [] {
      assert rows == {};
    } else {
      var n := |s| - 1;
      CountIs(s[..n], f, rows - {n});
      if n in rows {
        assert |rows| == |rows - {n}| + 1;
      } else {
        assert rows - {n} == rows;
      }
    }
  }

  /** In a visit program: the COMPLETED visits and the REVERSALs created in the period, both ends included, the gifts
      used in it, and the gifts AVAILABLE now. */
  lemma VisitFigures(w: World, org: nat, period: Period)
    ensures var report := OrganizationStatistics(w, org, VISIT, period);
            && report.VisitReport?
            && report.visits
               == |set t: nat | t < |w.ledger| && w.ledger[t].owner.org == org && w.ledger[t].kind.VisitEarn?
                     && w.ledger[t].status == COMPLETED && period.from <= w.ledger[t].createdAt <= period.to|
            && report.reversals
               == |set t: nat | t < |w.ledger| && w.ledger[t].owner.org == org && w.ledger[t].kind.Reversal?
                     && period.from <= w.ledger[t].createdAt <= period.to|
            && report.giftsUsed
               == |set g: nat | g < |w.gifts| && w.gifts[g].owner.org == org && w.gifts[g].status == USED
                     && w.gifts[g].usedAt.Some? && period.from <= w.gifts[g].usedAt.value <= period.to|
            && report.giftsAvailableNow
               == |set g: nat | g < |w.gifts| && w.gifts[g].owner.org == org && w.gifts[g].status == AVAILABLE|
  {
    hide Sum;
    CountIs(w.ledger, CompletedIn(org, period, VisitOne()),
            set t: nat | t < |w.ledger| && w.ledger[t].owner.org == org && w.ledger[t].kind.VisitEarn?
                   && w.ledger[t].status == COMPLETED && period.from <= w.ledger[t].createdAt <= period.to);
    CountIs(w.ledger, ReversalIn(org, period),
            set t: nat | t < |w.ledger| && w.ledger[t].owner.org == org && w.ledger[t].kind.Reversal?
                   && period.from <= w.ledger[t].createdAt <= period.to);
    CountIs(w.gifts, UsedIn(org, period),
            set g: nat | g < |w.gifts| && w.gifts[g].owner.org == org && w.gifts[g].status == USED
                   && w.gifts[g].usedAt.Some? && period.from <= w.gifts[g].usedAt.value <= period.to);
    CountIs(w.gifts, AvailableIn(org),
            set g: nat | g < |w.gifts| && w.gifts[g].owner.org == org && w.gifts[g].status == AVAILABLE);
  }

  /** In any other program: the amounts of the COMPLETED earnings, spends and expiries created in the period, the
      number of REVERSALs, and what the lots alive now are worth. */
  lemma CashbackFigures(w: World, org: nat, loyalty: LoyaltyType, period: Period)
    requires loyalty != VISIT
    ensures var report := OrganizationStatistics(w, org, loyalty, period);
            var counted := (t: Transaction) =>
              t.owner.org == org && t.status == COMPLETED && period.from <= t.createdAt <= period.to;
            && report.CashbackReport?
            && report.earned == Sum(Where(w.ledger, (t: Transaction) => counted(t) && t.kind.CashbackEarn?),
                                    (t: Transaction) => if t.kind.CashbackEarn? then t.kind.earned else 0)
            && report.spent == Sum(Where(w.ledger, (t: Transaction) => counted(t) && t.kind.CashbackSpend?),
                                   (t: Transaction) => if t.kind.CashbackSpend? then t.kind.spent else 0)
            && report.expired == Sum(Where(w.ledger, (t: Transaction) => counted(t) && t.kind.CashbackExpire?),
                                     (t: Transaction) => if t.kind.CashbackExpire? then t.kind.burned else 0)
            && report.reversals
               == |set t: nat | t < |w.ledger| && w.ledger[t].owner.org == org && w.ledger[t].kind.Reversal?
                     && period.from <= w.ledger[t].createdAt <= period.to|
            && report.activeBalance
               == Sum(Where(w.lots, (l: Lot) => l.owner.org == org && l.status == ACTIVE && l.remaining > 0
                                                && l.expiresAt > w.now),
                      (l: Lot) => l.remaining)
  {
    hide Sum, Where;
    var counted := (t: Transaction) =>
      t.owner.org == org && t.status == COMPLETED && period.from <= t.createdAt <= period.to;
    SumWhere(w.ledger, CompletedIn(org, period, EarnAmount()),
             (t: Transaction) => counted(t) && t.kind.CashbackEarn?,
             (t: Transaction) => if t.kind.CashbackEarn? then t.kind.earned else 0);
    SumWhere(w.ledger, CompletedIn(org, period, SpendAmount()),
             (t: Transaction) => counted(t) && t.kind.CashbackSpend?,
             (t: Transaction) => if t.kind.CashbackSpend? then t.kind.spent else 0);
    SumWhere(w.ledger, CompletedIn(org, period, BurnAmount()),
             (t: Transaction) => counted(t) && t.kind.CashbackExpire?,
             (t: Transaction) => if t.kind.CashbackExpire? then t.kind.burned else 0);
    CountIs(w.ledger, ReversalIn(org, period),
            set t: nat | t < |w.ledger| && w.ledger[t].owner.org == org && w.ledger[t].kind.Reversal?
                   && period.from <= w.ledger[t].createdAt <= period.to);
    SumWhere(w.lots, LiveIn(org, w.now),
             (l: Lot) => l.owner.org == org && l.status == ACTIVE && l.remaining > 0 && l.expiresAt > w.now,
             (l: Lot) => l.remaining);
  }

  // ---- laws of periods ----

  lemma LedgerFigureSplits(ledger: seq<Transaction>, org: nat, from: int, middle: int, to: int,
                           value: Transaction -> int)
    requires from <= middle + 1 && middle <= to
    ensures Sum(ledger, CompletedIn(org, Period(from, to), value))
         == Sum(ledger, CompletedIn(org, Period(from, middle), value))
            + Sum(ledger, CompletedIn(org, Period(middle + 1, to), value))
    ensures Sum(ledger, ReversalIn(org, Period(from, to)))
         == Sum(ledger, ReversalIn(org, Period(from, middle))) + Sum(ledger, ReversalIn(org, Period(middle + 1, to)))
  {
    SumSplit(ledger, CompletedIn(org, Period(from, to), value), CompletedIn(org, Period(from, middle), value),
             CompletedIn(org, Period(middle + 1, to), value));
    SumSplit(ledger, ReversalIn(org, Period(from, to)), ReversalIn(org, Period(from, middle)),
             ReversalIn(org, Period(middle + 1, to)));
  }

  /** The figures of adjoining periods add up to the figures of both together. */
  lemma PeriodsAddUp(w: World, org: nat, from: int, middle: int, to: int)
    requires from <= middle + 1 && middle <= to
    ensures var all, first, second :=
              OrganizationStatistics(w, org, VISIT, Period(from, to)),
              OrganizationStatistics(w, org, VISIT, Period(from, middle)),
              OrganizationStatistics(w, org, VISIT, Period(middle + 1, to));
            && all.visits == first.visits + second.visits && all.reversals == first.reversals + second.reversals
            && all.giftsUsed == first.giftsUsed + second.giftsUsed
    ensures var all, first, second :=
              OrganizationStatistics(w, org, CASHBACK, Period(from, to)),
              OrganizationStatistics(w, org, CASHBACK, Period(from, middle)),
              OrganizationStatistics(w, org, CASHBACK, Period(middle + 1, to));
            && all.earned == first.earned + second.earned && all.spent == first.spent + second.spent
            && all.expired == first.expired + second.expired && all.reversals == first.reversals + second.reversals
  {
    hide Sum;
    LedgerFigureSplits(w.ledger, org, from, middle, to, VisitOne());
    LedgerFigureSplits(w.ledger, org, from, middle, to, EarnAmount());
    LedgerFigureSplits(w.ledger, org, from, middle, to, SpendAmount());
    LedgerFigureSplits(w.ledger, org, from, middle, to, BurnAmount());
    SumSplit(w.gifts, UsedIn(org, Period(from, to)), UsedIn(org, Period(from, middle)),
             UsedIn(org, Period(middle + 1, to)));
  }

  /** Nothing happened in the organization during the period. */
  ghost predicate Quiet(w: World, org: nat, period: Period) {
    && (forall t :: 0 <= t < |w.ledger| && w.ledger[t].owner.org == org ==>
          !(period.from <= w.ledger[t].createdAt <= period.to))
    && (forall g :: 0 <= g < |w.gifts| && w.gifts[g].owner.org == org && w.gifts[g].usedAt.Some? ==>
          !(period.from <= w.gifts[g].usedAt.value <= period.to))
  }

  /** Then all its figures are zero. */
  lemma QuietPeriod(w: World, org: nat, period: Period)
    requires Quiet(w, org, period)
    ensures var report := OrganizationStatistics(w, org, VISIT, period);
            report.visits == report.reversals == report.giftsUsed == 0
    ensures var report := OrganizationStatistics(w, org, CASHBACK, period);
            report.earned == report.spent == report.expired == report.reversals == 0
  {
    hide Sum;
    SumConst(w.ledger, CompletedIn(org, period, VisitOne()), 0);
    SumConst(w.ledger, CompletedIn(org, period, EarnAmount()), 0);
    SumConst(w.ledger, CompletedIn(org, period, SpendAmount()), 0);
    SumConst(w.ledger, CompletedIn(org, period, BurnAmount()), 0);
    SumConst(w.ledger, ReversalIn(org, period), 0);
    SumConst(w.gifts, UsedIn(org, period), 0);
  }

  /** Without dates the report is on the last 30 days up to now, and no entry lies beyond. With an end date alone the
      start is still 30 days before now, so an end before that leaves an empty period: the report is all zeros whatever
      happened. */
  lemma DefaultPeriods(w: World, org: nat, t: nat, end: int)
    requires Reachable(w) && t < |w.ledger|
    ensures PeriodOf(w.now, None, None).Covers(w.ledger[t].createdAt) <==>
              w.ledger[t].createdAt >= w.now - 30 * 86_400
    ensures forall from, to :: PeriodOf(w.now, Some(from), Some(to)) == Period(from, to)
    ensures end < w.now - 30 * 86_400 ==> Quiet(w, org, PeriodOf(w.now, None, Some(end)))
  {
    ReachableInv(w);
    assert LedgerRow(w, t);
  }
}
