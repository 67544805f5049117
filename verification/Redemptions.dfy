/** What the redemption requests do to the tables (app/apps/loyalty/services/redemptions.py). */
module Redemptions {
  import opened Rows
  import opened Sums
  import opened Guards
  import opened Cashback

  /** create_gift_request. */
  function CreateGiftRequest(w: World, p: Owner, gift: nat, ttl: nat): Result<World> {
    var _ :- EnsureClient(w, p.user);
    var _ :- EnsureOperational(w, p.org, Some(VISIT));
    if gift >= |w.gifts| || w.gifts[gift].owner != p then Err(GiftNotFound)
    else if w.gifts[gift].status != AVAILABLE then Err(GiftNotAvailable)
    else
      Ok(w.(requests := w.requests + [Request(p, GiftRequest(gift), PENDING, w.now + ttl, [])],
            gifts := w.gifts[gift := w.gifts[gift].(status := PENDING_REDEMPTION)]))
  }

  /** create_cashback_request. */
  function CreateCashbackRequest(w: World, p: Owner, total: int, spend: int, ttl: nat): Result<World> {
    var q :- QuoteFor(w, p, total, spend);
    var _ :- ValidateSpend(q);
    if q.requested <= 0 then Err(InvalidAmount)
    else
      Ok(w.(requests := w.requests + [Request(p, CashbackRequest(
                                                Purchase(total, q.cashPaid, spend, q.program), q.earn),
                                              PENDING, w.now + ttl, [])]))
  }

  function PostRedeem(w: World, p: Owner, gift: nat, request: nat): World
    requires gift < |w.gifts|
  {
    var a := StateOf(w, p);
    w.(ledger := w.ledger + [Transaction(p, GiftRedeem(gift, request), COMPLETED, w.now)],
       gifts := w.gifts[gift := w.gifts[gift].(status := USED, redeemTx := Some(|w.ledger|),
                                               usedAt := Some(w.now))],
       states := w.states[p := a.(availableGifts := Max(0, a.availableGifts - 1),
                                  giftsUsed := a.giftsUsed + 1)])
  }

  /** The request is CONFIRMED and lists the entries written since `firstEntry`. */
  function Settle(w: World, request: nat, firstEntry: nat): World
    requires request < |w.requests| && firstEntry <= |w.ledger|
  {
    w.(requests := w.requests[request := w.requests[request].(
                     status := CONFIRMED, result := Range(firstEntry, |w.ledger| - firstEntry))])
  }

  /** The response to a confirm: the request's status and entries, and whether it was this call's doing. */
  datatype Response = Response(status: RequestStatus, transactions: seq<nat>, changed: bool)

  datatype Answer = Answer(world: World, response: Response)

  function Respond(w: World, request: nat, changed: bool): Answer
    requires request < |w.requests|
  {
    Answer(w, Response(w.requests[request].status, w.requests[request].result, changed))
  }

  /** confirm. An expired request raises, so the EXPIRED status set just before it is rolled back. */
  function Confirm(w: World, user: nat, request: nat, order: seq<nat>): Result<Answer>
    requires forall k :: 0 <= k < |order| ==> order[k] < |w.lots|
  {
    if request >= |w.requests| || w.requests[request].owner.user != user then Err(RedemptionNotFound)
    else
      var req := w.requests[request];
      if req.status == CONFIRMED then Ok(Respond(w, request, false))
      else if req.status != PENDING then Err(RedemptionNotPending)
      else if w.now >= req.expiresAt then Err(RedemptionExpired)
      else
        var _ :- EnsureOperational(w, req.owner.org, None);
        var posted :- Perform(w, request, order);
        Ok(Respond(Settle(posted, request, |w.ledger|), request, true))
  }

  /** The ledger part of a confirm. */
  function Perform(w: World, request: nat, order: seq<nat>): (r: Result<World>)
    requires request < |w.requests|
    requires forall k :: 0 <= k < |order| ==> order[k] < |w.lots|
    ensures r.Ok? ==> r.value.requests == w.requests && |r.value.ledger| >= |w.ledger|
  {
    var req := w.requests[request];
    match req.kind
    case GiftRequest(gift) =>
      if gift >= |w.gifts| then Err(GiftNotFound)
      else if w.gifts[gift].status != PENDING_REDEMPTION then Err(GiftNotAvailable)
      else Ok(PostRedeem(w, req.owner, gift, request))
    case CashbackRequest(purchase, earn) =>
      ApplyConfirmed(w, req.owner, purchase, earn, request, order)
  }

  /** The request leaves PENDING and its gift, if it holds one, is available again (_release_gift). */
  function Close(w: World, request: nat, status: RequestStatus): World
    requires request < |w.requests|
  {
    var req := w.requests[request];
    var closed := w.(requests := w.requests[request := req.(status := status)]);
    match req.kind
    case CashbackRequest(_, _) => closed
    case GiftRequest(gift) =>
      if gift < |w.gifts| && w.gifts[gift].status == PENDING_REDEMPTION then
        closed.(gifts := w.gifts[gift := w.gifts[gift].(status := AVAILABLE)])
      else closed
  }

  /** reject. */
  function Reject(w: World, user: nat, request: nat): Result<Answer> {
    if request >= |w.requests| || w.requests[request].owner.user != user then Err(RedemptionNotFound)
    else if w.requests[request].status == REJECTED then Ok(Respond(w, request, false))
    else if w.requests[request].status != PENDING then Err(RedemptionNotPending)
    else Ok(Respond(Close(w, request, REJECTED), request, true))
  }

  /** cancel_by_admin. */
  function CancelByAdmin(w: World, org: nat, request: nat): Result<World> {
    if request >= |w.requests| || w.requests[request].owner.org != org then Err(RedemptionNotFound)
    else if w.requests[request].status != PENDING then Err(RedemptionNotPending)
    else Ok(Close(w, request, CANCELLED_BY_ADMIN))
  }

  /** A row of the query of expire_pending. */
  predicate Overdue(r: Request, cutoff: int) { r.status == PENDING && r.expiresAt <= cutoff }

  /** One iteration of expire_pending. */
  function ExpireRequest(w: World, request: nat, now: int): World
    requires request < |w.requests|
  {
    if !Overdue(w.requests[request], now) then w else Close(w, request, EXPIRED)
  }

  function ExpireRequests(w: World, ids: seq<nat>, now: int): (r: World)
    requires forall k :: 0 <= k < |ids| ==> ids[k] < |w.requests|
    ensures |r.requests| == |w.requests|
  {
    if ids == [] then w
    else ExpireRequest(ExpireRequests(w, ids[..|ids| - 1], now), ids[|ids| - 1], now)
  }
}
