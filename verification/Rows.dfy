/** The rows of the loyalty tables (app/apps/loyalty/models.py, app/apps/organizations/models.py).
    A table is a sequence whose index is the row's primary key: nothing is ever deleted. */
module Rows {

  datatype Option<+T> = None | Some(value: T)

  datatype Error =
    | UserNotFound
    | UserBlocked
    | OrganizationNotFound
    | OrganizationBlocked
    | LoyaltyTypeMismatch
    | LoyaltyTypeLocked
    | ProgramInactive
    | InvalidAmount
    | InsufficientCashback
    | CashbackLimitExceeded
    | GiftNotFound
    | GiftNotAvailable
    | RedemptionNotFound
    | RedemptionNotPending
    | RedemptionExpired
    | TransactionNotFound
    | OperationNotReversible
    | ValidationError

  /** A service call either returns a value or raises a DomainError. */
  datatype Result<+T> = Ok(value: T) | Err(error: Error) {
    predicate IsFailure() { Err? }
    function PropagateFailure<U>(): Result<U> requires Err? { Err(error) }
    function Extract(): T requires Ok? { value }
  }

  // Validator ranges of the program models.
  type Target = n: nat | 1 <= n <= 100 witness 5
  type Reward = n: nat | 1 <= n <= 10 witness 1
  type Bps = n: nat | 1 <= n <= 10_000 witness 500
  type Days = n: nat | 1 <= n <= 3_650 witness 90

  const DAY := 86_400

  /** OrganizationUpdateSerializer takes any text as loyalty_type, hence `Other`. */
  datatype LoyaltyType = VISIT | CASHBACK | Other(name: string)

  datatype VisitProgram = VisitProgram(target: Target, reward: Reward, active: bool)
  datatype CashbackProgram =
    CashbackProgram(rate: Bps, maxSpend: Bps, expiry: Days, minPurchase: int, active: bool)
  datatype Organization = Organization(
    active: bool, loyalty: LoyaltyType, visit: Option<VisitProgram>, cashback: Option<CashbackProgram>)
  datatype User = User(client: bool, active: bool)

  /** The key of one aggregate row: a client in an organization. */
  datatype Owner = Owner(user: nat, org: nat)

  /** UserOrganizationState. */
  datatype State = State(
    progress: int, totalVisits: int, availableGifts: int, giftsEarned: int, giftsUsed: int,
    available: int, earned: int, spent: int, expired: int)

  const NEW_STATE := State(0, 0, 0, 0, 0, 0, 0, 0, 0)

  datatype LotStatus = ACTIVE | SPENT | BURNED | WITHDRAWN
  datatype Lot = Lot(
    owner: Owner, original: int, remaining: int, status: LotStatus,
    earnedAt: int, expiresAt: int, source: nat)

  datatype GiftStatus = AVAILABLE | PENDING_REDEMPTION | USED | CANCELLED
  datatype Gift = Gift(
    owner: Owner, status: GiftStatus, visit: nat, redeemTx: Option<nat>, usedAt: Option<int>)

  /** The program parameters stored with a purchase. */
  datatype Snapshot = Snapshot(rate: Bps, maxSpend: Bps, expiry: Days)
  datatype Purchase = Purchase(total: int, cashPaid: int, spend: int, program: Snapshot)

  /** One entry of a spend's `consumed_lots`. */
  datatype Consumed = Consumed(lot: nat, amount: int)

  /** What a REVERSAL's metadata records. */
  datatype Effect =
    | VisitUndone(cancelled: seq<nat>, progressAfter: int)
    | EarnUndone(lot: nat, withdrawn: int, unrecoverable: int)
    | SpendUndone(restored: int, lost: int)
    | RedeemUndone(gift: nat)

  datatype TransactionKind =
    | VisitEarn(target: nat, reward: nat, progressBefore: int, progressAfter: int, gifts: seq<nat>)
    | GiftCreated(gift: nat, visit: nat)
    | GiftRedeem(gift: nat, request: nat)
    | CashbackEarn(earned: int, lot: Option<nat>, purchase: Purchase, earnRequest: Option<nat>)
    | CashbackSpend(spent: int, consumed: seq<Consumed>, spendPurchase: Purchase, spendRequest: nat)
    | CashbackExpire(burned: int, burnedLot: nat)
    | Reversal(original: nat, effect: Effect)

  datatype TransactionStatus = COMPLETED | REVERSED | PENDING_TRANSACTION | FAILED
  datatype Transaction =
    Transaction(owner: Owner, kind: TransactionKind, status: TransactionStatus, createdAt: int)

  datatype RequestKind =
    | GiftRequest(gift: nat)
    | CashbackRequest(purchase: Purchase, earn: int)
  datatype RequestStatus = PENDING | CONFIRMED | REJECTED | EXPIRED | CANCELLED_BY_ADMIN
  datatype Request = Request(
    owner: Owner, kind: RequestKind, status: RequestStatus, expiresAt: int, result: seq<nat>)

  datatype World = World(
    now: int,
    users: map<nat, User>,
    orgs: map<nat, Organization>,
    states: map<Owner, State>,
    lots: seq<Lot>,
    gifts: seq<Gift>,
    requests: seq<Request>,
    ledger: seq<Transaction>)

  /** The aggregate as get_or_create returns it. */
  function StateOf(w: World, p: Owner): State {
    if p in w.states then w.states[p] else NEW_STATE
  }
}
