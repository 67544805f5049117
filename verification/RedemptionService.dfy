/** The redemption service (app/apps/loyalty/services/redemptions.py). */
module RedemptionService {
  import opened Rows
  import opened Sums
  import opened Guards
  import opened Store
  import opened Cashback
  import opened Redemptions
  import opened RequestSweep
  import CashbackService

  method CreateGiftRequest(db: Database, p: Owner, gift: nat, ttl: nat) returns (r: Result<nat>)
    modifies db
    ensures Atomic(Redemptions.CreateGiftRequest(old(db.Tables()), p, gift, ttl), r, old(db.Tables()), db.Tables())
    ensures r.Ok? ==> r.value == old(|db.requests|)
  {
    var client := EnsureClient(db.Tables(), p.user);
    if client.Err? { return Err(client.error); }
    var org := EnsureOperational(db.Tables(), p.org, Some(VISIT));
    if org.Err? { return Err(org.error); }
    if gift >= |db.gifts| || db.gifts[gift].owner != p { return Err(GiftNotFound); }
    if db.gifts[gift].status != AVAILABLE { return Err(GiftNotAvailable); }
    r := Ok(|db.requests|);
    db.requests := db.requests + [Request(p, GiftRequest(gift), PENDING, db.now + ttl, [])];
    db.gifts := db.gifts[gift := db.gifts[gift].(status := PENDING_REDEMPTION)];
  }

  method CreateCashbackRequest(db: Database, p: Owner, total: int, spend: int, ttl: nat) returns (r: Result<nat>)
    modifies db
    ensures Atomic(Redemptions.CreateCashbackRequest(old(db.Tables()), p, total, spend, ttl), r,
                   old(db.Tables()), db.Tables())
    ensures r.Ok? ==> r.value == old(|db.requests|)
  {
    var q := QuoteFor(db.Tables(), p, total, spend);
    if q.Err? { return Err(q.error); }
    var valid := ValidateSpend(q.value);
    if valid.Err? { return Err(valid.error); }
    if q.value.requested <= 0 { return Err(InvalidAmount); }
    r := Ok(|db.requests|);
    var purchase := Purchase(total, q.value.cashPaid, spend, q.value.program);
    db.requests := db.requests + [Request(p, CashbackRequest(purchase, q.value.earn), PENDING, db.now + ttl, [])];
  }

  method ReleaseGift(db: Database, request: nat)
    requires request < |db.requests|
    modifies db`gifts
    ensures db.gifts == Close(old(db.Tables()), request, REJECTED).gifts
  {
    match db.requests[request].kind {
      case CashbackRequest(_, _) =>
      case GiftRequest(gift) =>
        if gift < |db.gifts| && db.gifts[gift].status == PENDING_REDEMPTION {
          db.gifts := db.gifts[gift := db.gifts[gift].(status := AVAILABLE)];
        }
    }
  }

  method Expire(db: Database, request: nat)
    requires request < |db.requests|
    modifies db
    ensures db.Tables() == Close(old(db.Tables()), request, EXPIRED)
  {
    db.requests := db.requests[request := db.requests[request].(status := EXPIRED)];
    ReleaseGift(db, request);
  }

  /** The gift half of a confirm. */
  method RedeemGift(db: Database, state: StateRow, gift: nat, request: nat) returns (r: Result<()>)
    requires state.Value() == StateOf(db.Tables(), state.owner)
    modifies db, state
    ensures if gift >= old(|db.gifts|) then r == Err(GiftNotFound)
            else if old(db.gifts)[gift].status != PENDING_REDEMPTION then r == Err(GiftNotAvailable)
            else r.Ok? && db.Tables() == PostRedeem(old(db.Tables()), state.owner, gift, request)
  {
    if gift >= |db.gifts| { return Err(GiftNotFound); }
    if db.gifts[gift].status != PENDING_REDEMPTION { return Err(GiftNotAvailable); }
    var entry := |db.ledger|;
    db.ledger := db.ledger + [Transaction(state.owner, GiftRedeem(gift, request), COMPLETED, db.now)];
    db.gifts := db.gifts[gift := db.gifts[gift].(status := USED, usedAt := Some(db.now), redeemTx := Some(entry))];
    state.availableGifts := Max(0, state.availableGifts - 1);
    state.giftsUsed := state.giftsUsed + 1;
    state.Save(db);
    r := Ok(());
  }

  /** Compare-and-set of PENDING to CONFIRMED. `order` is what the spend's query would return. An expired
      request is marked EXPIRED and then the exception undoes it. */
  method Confirm(db: Database, user: nat, request: nat, order: seq<nat>) returns (r: Result<Response>)
    requires request < |db.requests| ==> FifoOrder(db.lots, db.requests[request].owner, db.now, order)
    requires request >= |db.requests| ==> order == []
    modifies db
    ensures match Redemptions.Confirm(old(db.Tables()), user, request, order)
            case Ok(answer) => r == Ok(answer.response) && db.Tables() == answer.world
            case Err(e) => r == Err(e) && db.Tables() == old(db.Tables())
  {
    var savepoint := db.Tables();
    if request >= |db.requests| || db.requests[request].owner.user != user { return Err(RedemptionNotFound); }
    var req := db.requests[request];
    if req.status == CONFIRMED { return Ok(Response(req.status, req.result, false)); }
    if req.status != PENDING { return Err(RedemptionNotPending); }
    if db.now >= req.expiresAt {
      Expire(db, request);
      db.Rollback(savepoint);
      return Err(RedemptionExpired);
    }
    var org := EnsureOperational(db.Tables(), req.owner.org, None);
    if org.Err? { return Err(org.error); }
    var state := LockState(db, req.owner);
    var firstEntry := |db.ledger|;
    var done: Result<()>;
    ghost var locked := db.Tables();
    match req.kind {
      case GiftRequest(gift) =>
        done := RedeemGift(db, state, gift, request);
        if gift < |savepoint.gifts| { LockedRedeem(savepoint, req.owner, gift, request); }
      case CashbackRequest(purchase, earn) =>
        done := CashbackService.ApplyConfirmed(db, state, purchase, earn, request, order);
        CashbackService.LockedApply(savepoint, req.owner, purchase, earn, request, order);
    }
    if done.Err? {
      db.Rollback(savepoint);
      return Err(done.error);
    }
    var entries := Range(firstEntry, |db.ledger| - firstEntry);
    db.requests := db.requests[request := db.requests[request].(status := CONFIRMED, result := entries)];
    r := Ok(Response(CONFIRMED, entries, true));
  }

  /** Locking the aggregate first makes no difference to what is posted. */
  lemma LockedRedeem(w: World, p: Owner, gift: nat, request: nat)
    requires gift < |w.gifts|
    ensures PostRedeem(Touch(w, p), p, gift, request) == PostRedeem(w, p, gift, request)
  {
  }

  method Reject(db: Database, user: nat, request: nat) returns (r: Result<Response>)
    modifies db
    ensures match Redemptions.Reject(old(db.Tables()), user, request)
            case Ok(answer) => r == Ok(answer.response) && db.Tables() == answer.world
            case Err(e) => r == Err(e) && db.Tables() == old(db.Tables())
  {
    if request >= |db.requests| || db.requests[request].owner.user != user { return Err(RedemptionNotFound); }
    var req := db.requests[request];
    if req.status == REJECTED { return Ok(Response(req.status, req.result, false)); }
    if req.status != PENDING { return Err(RedemptionNotPending); }
    db.requests := db.requests[request := req.(status := REJECTED)];
    ReleaseGift(db, request);
    r := Ok(Response(REJECTED, req.result, true));
  }

  method CancelByAdmin(db: Database, org: nat, request: nat) returns (r: Result<()>)
    modifies db
    ensures Atomic(Redemptions.CancelByAdmin(old(db.Tables()), org, request), r, old(db.Tables()), db.Tables())
  {
    if request >= |db.requests| || db.requests[request].owner.org != org { return Err(RedemptionNotFound); }
    if db.requests[request].status != PENDING { return Err(RedemptionNotPending); }
    db.requests := db.requests[request := db.requests[request].(status := CANCELLED_BY_ADMIN)];
    ReleaseGift(db, request);
    r := Ok(());
  }

  /** The atomic block of one row in expire_pending. */
  method ExpireIfOverdue(db: Database, request: nat, cutoff: int) returns (done: bool)
    requires request < |db.requests|
    modifies db
    ensures db.Tables() == ExpireRequest(old(db.Tables()), request, cutoff)
    ensures done == Overdue(old(db.requests)[request], cutoff)
  {
    if db.requests[request].status != PENDING { return false; }
    if db.requests[request].expiresAt > cutoff { return false; }
    Expire(db, request);
    done := true;
  }

  function ExpiredNow(requests: seq<Request>, cutoff: int): nat -> int {
    (r: nat) => if r < |requests| && Overdue(requests[r], cutoff) then 1 else 0
  }

  /** expire_pending over the ids its query returned; the count is of the requests that were overdue. */
  method ExpirePending(db: Database, ids: seq<nat>, cutoff: int) returns (expired: nat)
    requires forall k :: 0 <= k < |ids| ==> ids[k] < |db.requests|
    requires forall j, k :: 0 <= j < k < |ids| ==> ids[j] != ids[k]
    modifies db
    ensures db.Tables() == ExpireRequests(old(db.Tables()), ids, cutoff)
    ensures expired == Sum(ids, ExpiredNow(old(db.requests), cutoff))
  {
    hide ExpireRequest;
    ghost var before := db.Tables();
    expired := 0;
    for k := 0 to |ids|
      invariant db.Tables() == ExpireRequests(before, ids[..k], cutoff)
      invariant expired == Sum(ids[..k], ExpiredNow(before.requests, cutoff))
    {
      assert ids[..k + 1][..k] == ids[..k];
      assert ids[k] !in ids[..k];
      ExpiresOverdue(before, ids[..k], cutoff, ids[k]);
      var done := ExpireIfOverdue(db, ids[k], cutoff);
      if done { expired := expired + 1; }
    }
    assert ids[..|ids|] == ids;
  }
}
