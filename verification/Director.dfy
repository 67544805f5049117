/** The director's changes to an organization (app/apps/director/views.py). */
module Director {
  import opened Rows

  predicate HasTransactions(ledger: seq<Transaction>, org: nat) {
    exists t :: 0 <= t < |ledger| && ledger[t].owner.org == org
  }

  const DEFAULT_VISIT := VisitProgram(5, 1, true)
  const DEFAULT_CASHBACK := CashbackProgram(500, 3_000, 90, 0, true)

  /** The program fields a PATCH gives; the others stay as they are. */
  datatype VisitChange = VisitChange(target: Option<Target>, reward: Option<Reward>, active: Option<bool>)
  datatype CashbackChange = CashbackChange(
    rate: Option<Bps>, maxSpend: Option<Bps>, expiry: Option<Days>, minPurchase: Option<int>, active: Option<bool>)

  function Given<T>(change: Option<T>, stored: T): T { if change.Some? then change.value else stored }

  function ChangedVisit(program: VisitProgram, change: Option<VisitChange>): VisitProgram {
    if change.None? then program
    else
      var c := change.value;
      VisitProgram(Given(c.target, program.target), Given(c.reward, program.reward), Given(c.active, program.active))
  }

  function ChangedCashback(program: CashbackProgram, change: Option<CashbackChange>): CashbackProgram {
    if change.None? then program
    else
      var c := change.value;
      CashbackProgram(Given(c.rate, program.rate), Given(c.maxSpend, program.maxSpend),
                      Given(c.expiry, program.expiry), Given(c.minPurchase, program.minPurchase),
                      Given(c.active, program.active))
  }

  /** The organization row with its type, and that type's program, created if it is missing, changed. */
  function Saved(o: Organization, loyalty: LoyaltyType, visit: Option<VisitChange>, cashback: Option<CashbackChange>)
    : Organization
  {
    if loyalty == VISIT then
      o.(loyalty := loyalty, visit := Some(ChangedVisit(Given(o.visit, DEFAULT_VISIT), visit)))
    else
      o.(loyalty := loyalty, cashback := Some(ChangedCashback(Given(o.cashback, DEFAULT_CASHBACK), cashback)))
  }

  /** OrganizationDetailView.patch; None is a program that is not given, or given without any field. */
  function Patch(w: World, org: nat, newType: Option<LoyaltyType>,
                 visit: Option<VisitChange>, cashback: Option<CashbackChange>): Result<World>
  {
    if org !in w.orgs then Err(OrganizationNotFound)
    else
      var o := w.orgs[org];
      var loyalty := Given(newType, o.loyalty);
      if (loyalty == VISIT && cashback.Some?) || (loyalty == CASHBACK && visit.Some?) then Err(ValidationError)
      else if loyalty != o.loyalty && HasTransactions(w.ledger, org) then Err(LoyaltyTypeLocked)
      else Ok(w.(orgs := w.orgs[org := Saved(o, loyalty, visit, cashback)]))
  }

  /** Blocking and unblocking. */
  function SetOperational(w: World, org: nat, active: bool): Result<World> {
    if org !in w.orgs then Err(OrganizationNotFound)
    else Ok(w.(orgs := w.orgs[org := w.orgs[org].(active := active)]))
  }
}
