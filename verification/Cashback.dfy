/** What the cashback operations do to the tables (app/apps/loyalty/services/cashback.py). */
module Cashback {
  import opened Rows
  import opened Sums
  import opened Money
  import opened Guards

  /** A row of active_lots_qs. */
  predicate Live(l: Lot, p: Owner, now: int) {
    l.owner == p && l.status == ACTIVE && l.remaining > 0 && l.expiresAt > now
  }

  /** What a lot of `p` is worth to a spend at time `t`. */
  function LiveValue(p: Owner, t: int): Lot -> int {
    (l: Lot) => if Live(l, p, t) then l.remaining else 0
  }

  /** available_amount. */
  function Available(lots: seq<Lot>, p: Owner, t: int): int {
    Sum(lots, LiveValue(p, t))
  }

  datatype Quote = Quote(
    total: int, requested: int, available: int, limit: int, maxAllowed: int,
    cashPaid: int, earn: int, program: Snapshot, spendAllowed: bool, needsConfirmation: bool)

  function SnapshotOf(program: CashbackProgram): Snapshot {
    Snapshot(program.rate, program.maxSpend, program.expiry)
  }

  /** quote. */
  function QuoteFor(w: World, p: Owner, total: int, requested: int): (r: Result<Quote>)
  {
    var _ :- EnsureClient(w, p.user);
    var org :- EnsureOperational(w, p.org, Some(CASHBACK));
    var program := org.cashback.value;
    if total <= 0 || requested < 0 || total < program.minPurchase then Err(InvalidAmount)
    else
      var available := Available(w.lots, p, w.now);
      var limit := ApplyBps(total, program.maxSpend);
      var cash := total - requested;
      Ok(Quote(total, requested, available, limit, Min(available, limit), Max(cash, 0),
               if cash > 0 then ApplyBps(cash, program.rate) else 0,
               SnapshotOf(program), requested <= Min(available, limit), requested > 0))
  }

  /** validate_spend. */
  function ValidateSpend(q: Quote): Result<Quote> {
    if q.requested > q.total then Err(CashbackLimitExceeded)
    else if q.requested > q.available then Err(InsufficientCashback)
    else if q.requested > q.limit then Err(CashbackLimitExceeded)
    else Ok(q)
  }

  // ---- the FIFO spend ----

  predicate Before(a: Lot, b: Lot) {
    a.expiresAt < b.expiresAt || (a.expiresAt == b.expiresAt && a.earnedAt <= b.earnedAt)
  }

  /** `order` is an answer to the spend's query: the live lots of `p` by (expires_at, earned_at).
      The database is free to order ties. */
  ghost predicate FifoOrder(lots: seq<Lot>, p: Owner, now: int, order: seq<nat>) {
    && (forall k :: 0 <= k < |order| ==> order[k] < |lots| && Live(lots[order[k]], p, now))
    && (forall i :: 0 <= i < |lots| && Live(lots[i], p, now) ==> i in order)
    && (forall j, k :: 0 <= j < k < |order| ==> order[j] != order[k])
    && (forall j, k :: 0 <= j < k < |order| ==> Before(lots[order[j]], lots[order[k]]))
  }

  datatype Taken = Taken(lots: seq<Lot>, consumed: seq<Consumed>, shortfall: int)

  function TakeFrom(l: Lot, amount: int): Lot {
    var left := l.remaining - amount;
    l.(remaining := left, status := if left == 0 then SPENT else l.status)
  }

  /** The rows, entries and shortfall after spending `amount` from the lots in `order`. */
  function TakeInOrder(lots: seq<Lot>, order: seq<nat>, amount: int): (r: Taken)
    requires forall k :: 0 <= k < |order| ==> order[k] < |lots|
    ensures |r.lots| == |lots|
    decreases |order|
  {
    if order == [] || amount <= 0 then Taken(lots, [], amount)
    else
      var i := order[0];
      var take := Min(lots[i].remaining, amount);
      var rest := TakeInOrder(lots[i := TakeFrom(lots[i], take)], order[1..], amount - take);
      Taken(rest.lots, [Consumed(i, take)] + rest.consumed, rest.shortfall)
  }

  // ---- ledger entries ----

  function PostEarn(w: World, p: Owner, amount: int, purchase: Purchase, request: Option<nat>): World {
    var a := StateOf(w, p);
    w.(lots := w.lots + [Lot(p, amount, amount, ACTIVE, w.now,
                             w.now + purchase.program.expiry * DAY, |w.ledger|)],
       ledger := w.ledger + [Transaction(p, CashbackEarn(amount, Some(|w.lots|), purchase, request),
                                         COMPLETED, w.now)],
       states := w.states[p := a.(available := a.available + amount, earned := a.earned + amount)])
  }

  function PostSpend(w: World, p: Owner, amount: int, purchase: Purchase, request: nat, order: seq<nat>)
    : Result<World>
    requires forall k :: 0 <= k < |order| ==> order[k] < |w.lots|
  {
    var a := StateOf(w, p);
    var taken := TakeInOrder(w.lots, order, amount);
    if taken.shortfall > 0 then Err(InsufficientCashback)
    else
      Ok(w.(lots := taken.lots,
            ledger := w.ledger + [Transaction(p, CashbackSpend(amount, taken.consumed, purchase, request),
                                              COMPLETED, w.now)],
            states := w.states[p := a.(available := a.available - amount, spent := a.spent + amount)]))
  }

  /** lock_state leaves a row behind even when nothing changes. */
  function Touch(w: World, p: Owner): World {
    w.(states := w.states[p := StateOf(w, p)])
  }

  /** earn_only. */
  function EarnOnly(w: World, p: Owner, total: int): Result<World> {
    var q :- QuoteFor(w, p, total, 0);
    var purchase := Purchase(total, q.cashPaid, 0, q.program);
    Ok(if q.earn > 0 then PostEarn(w, p, q.earn, purchase, None) else Touch(w, p))
  }

  /** apply_confirmed_redemption for a cashback request. */
  function ApplyConfirmed(w: World, p: Owner, purchase: Purchase, earn: int, request: nat, order: seq<nat>)
    : Result<World>
    requires forall k :: 0 <= k < |order| ==> order[k] < |w.lots|
  {
    var w1 :- if purchase.spend > 0 then PostSpend(w, p, purchase.spend, purchase, request, order) else Ok(w);
    Ok(if earn > 0 then PostEarn(w1, p, earn, purchase, Some(request)) else Touch(w1, p))
  }

  // ---- the expiry sweep ----

  predicate Due(l: Lot, now: int) {
    l.status == ACTIVE && l.expiresAt <= now
  }

  /** One iteration of expire_lots: rows that are no longer due are skipped. */
  function BurnLot(w: World, i: nat, now: int): World
    requires i < |w.lots|
  {
    var l := w.lots[i];
    if !Due(l, now) then w
    else
      var burned := w.(lots := w.lots[i := l.(status := BURNED, remaining := 0)]);
      if l.remaining <= 0 then burned
      else
        var a := StateOf(w, l.owner);
        burned.(ledger := w.ledger + [Transaction(l.owner, CashbackExpire(l.remaining, i), COMPLETED, w.now)],
                states := w.states[l.owner := a.(available := Max(0, a.available - l.remaining),
                                                 expired := a.expired + l.remaining)])
  }

  function BurnLots(w: World, ids: seq<nat>, now: int): (r: World)
    requires forall k :: 0 <= k < |ids| ==> ids[k] < |w.lots|
    ensures |r.lots| == |w.lots|
  {
    if ids == [] then w
    else BurnLot(BurnLots(w, ids[..|ids| - 1], now), ids[|ids| - 1], now)
  }
}
