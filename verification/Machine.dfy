/** The whole system as a state machine: one step for each atomic block, clock tick and change of the
    environment. A step that raises leaves the tables as they were. */
module Machine {
  import opened Rows
  import opened Cashback
  import opened Visits
  import opened Redemptions
  import opened Reversals
  import opened Director

  datatype Op =
    | Visit(p: Owner)
    | Buy(p: Owner, total: int)
    | AskGift(p: Owner, gift: nat, ttl: nat)
    | AskCashback(p: Owner, total: int, spend: int, ttl: nat)
    | ConfirmRequest(user: nat, request: nat, order: seq<nat>)
    | RejectRequest(user: nat, request: nat)
    | CancelRequest(org: nat, request: nat)
    | SweepRequest(request: nat, cutoff: int)
    | SweepLot(lot: nat, cutoff: int)
    | ReverseEntry(entry: nat, scope: Option<nat>, force: bool, reasonGiven: bool)
    | PatchOrganization(org: nat, newType: Option<LoyaltyType>,
                        visit: Option<VisitChange>, cashback: Option<CashbackChange>)
    | SwitchOrganization(org: nat, active: bool)
    | ChangeUser(user: nat, row: User)
    | Tick(seconds: nat)

  /** What a step takes for granted: the query behind a confirm returned the owner's live lots in expiry
      order, and a sweep works on existing rows with a cutoff read from the clock earlier. */
  ghost predicate Possible(w: World, op: Op) {
    match op
    case ConfirmRequest(_, r, order) =>
      if r < |w.requests| then FifoOrder(w.lots, w.requests[r].owner, w.now, order) else order == []
    case SweepRequest(r, cutoff) => r < |w.requests| && cutoff <= w.now
    case SweepLot(i, cutoff) => i < |w.lots| && cutoff <= w.now
    case _ => true
  }

  ghost function Apply(w: World, op: Op): Result<World>
    requires Possible(w, op)
  {
    match op
    case Visit(p) => EarnVisit(w, p)
    case Buy(p, total) => EarnOnly(w, p, total)
    case AskGift(p, gift, ttl) => CreateGiftRequest(w, p, gift, ttl)
    case AskCashback(p, total, spend, ttl) => CreateCashbackRequest(w, p, total, spend, ttl)
    case ConfirmRequest(user, r, order) =>
      (match Confirm(w, user, r, order)
       case Ok(answer) => Ok(answer.world)
       case Err(e) => Err(e))
    case RejectRequest(user, r) =>
      (match Reject(w, user, r)
       case Ok(answer) => Ok(answer.world)
       case Err(e) => Err(e))
    case CancelRequest(org, r) => CancelByAdmin(w, org, r)
    case SweepRequest(r, cutoff) => Ok(ExpireRequest(w, r, cutoff))
    case SweepLot(i, cutoff) => Ok(BurnLot(w, i, cutoff))
    case ReverseEntry(t, scope, force, reasonGiven) => Reverse(w, t, scope, force, reasonGiven)
    case PatchOrganization(org, newType, visit, cashback) => Patch(w, org, newType, visit, cashback)
    case SwitchOrganization(org, active) => SetOperational(w, org, active)
    case ChangeUser(user, row) => Ok(w.(users := w.users[user := row]))
    case Tick(seconds) => Ok(w.(now := w.now + seconds))
  }

  ghost function After(w: World, op: Op): World
    requires Possible(w, op)
  {
    match Apply(w, op)
    case Ok(u) => u
    case Err(_) => w
  }

  /** Empty tables; users, organizations and the clock are arbitrary. */
  predicate Initial(w: World) {
    w.states == map[] && w.lots == [] && w.gifts == [] && w.requests == [] && w.ledger == []
  }

  ghost predicate CanRun(w: World, ops: seq<Op>)
    decreases |ops|, 0
  {
    ops == []
    || (CanRun(w, ops[..|ops| - 1]) && Possible(Run(w, ops[..|ops| - 1]), ops[|ops| - 1]))
  }

  /** The tables after the steps `ops`. */
  ghost function Run(w: World, ops: seq<Op>): World
    requires CanRun(w, ops)
    decreases |ops|, 1
  {
    if ops == [] then w else After(Run(w, ops[..|ops| - 1]), ops[|ops| - 1])
  }

  /** A state of some run from empty tables. */
  ghost predicate Reachable(w: World) {
    exists start: World, ops: seq<Op> :: Initial(start) && CanRun(start, ops) && Run(start, ops) == w
  }
}
