/** The director's view of an organization (app/apps/director/views.py). */
module DirectorView {
  import opened Rows
  import opened Store
  import Director

  method SetVisitFields(program: VisitProgram, change: Director.VisitChange) returns (r: VisitProgram)
    ensures r == Director.ChangedVisit(program, Some(change))
  {
    r := program;
    if change.target.Some? { r := r.(target := change.target.value); }
    if change.reward.Some? { r := r.(reward := change.reward.value); }
    if change.active.Some? { r := r.(active := change.active.value); }
  }

  method SetCashbackFields(program: CashbackProgram, change: Director.CashbackChange) returns (r: CashbackProgram)
    ensures r == Director.ChangedCashback(program, Some(change))
  {
    r := program;
    if change.rate.Some? { r := r.(rate := change.rate.value); }
    if change.maxSpend.Some? { r := r.(maxSpend := change.maxSpend.value); }
    if change.expiry.Some? { r := r.(expiry := change.expiry.value); }
    if change.minPurchase.Some? { r := r.(minPurchase := change.minPurchase.value); }
    if change.active.Some? { r := r.(active := change.active.value); }
  }

  /** get_or_create of the program of the organization's type, and the fields that are given. */
  method SaveProgram(db: Database, org: nat, visit: Option<Director.VisitChange>,
                     cashback: Option<Director.CashbackChange>)
    requires org in db.orgs
    modifies db`orgs
    ensures db.orgs == old(db.orgs)[org := Director.Saved(old(db.orgs)[org], old(db.orgs)[org].loyalty,
                                                          visit, cashback)]
  {
    var row := db.orgs[org];
    if row.loyalty == VISIT {
      var program := if row.visit.Some? then row.visit.value else Director.DEFAULT_VISIT;
      if visit.Some? { program := SetVisitFields(program, visit.value); }
      db.orgs := db.orgs[org := row.(visit := Some(program))];
    } else {
      var program := if row.cashback.Some? then row.cashback.value else Director.DEFAULT_CASHBACK;
      if cashback.Some? { program := SetCashbackFields(program, cashback.value); }
      db.orgs := db.orgs[org := row.(cashback := Some(program))];
    }
  }

  method Patch(db: Database, org: nat, newType: Option<LoyaltyType>, visit: Option<Director.VisitChange>,
               cashback: Option<Director.CashbackChange>) returns (r: Result<()>)
    modifies db
    ensures Atomic(Director.Patch(old(db.Tables()), org, newType, visit, cashback), r,
                   old(db.Tables()), db.Tables())
  {
    hide Director.HasTransactions, Director.ChangedVisit, Director.ChangedCashback;
    if org !in db.orgs { return Err(OrganizationNotFound); }
    var row := db.orgs[org];
    var loyalty := if newType.Some? then newType.value else row.loyalty;
    if loyalty == VISIT && cashback.Some? { return Err(ValidationError); }
    if loyalty == CASHBACK && visit.Some? { return Err(ValidationError); }
    if newType.Some? && newType.value != row.loyalty {
      if Director.HasTransactions(db.ledger, org) { return Err(LoyaltyTypeLocked); }
    }
    db.orgs := db.orgs[org := row.(loyalty := loyalty)];
    SaveProgram(db, org, visit, cashback);
    r := Ok(());
  }
}
