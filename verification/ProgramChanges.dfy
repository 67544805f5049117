/** What the director's changes store, field by field. */
module ProgramChanges {
  import opened Rows
  import opened Director

  /** The type the organization will have. */
  function TypeAfter(o: Organization, newType: Option<LoyaltyType>): LoyaltyType {
    match newType
    case Some(loyalty) => loyalty
    case None => o.loyalty
  }

  /** A PATCH is refused for an unknown organization, then for fields of the other program, then for a new type when
      there are transactions. */
  lemma PatchAnswers(w: World, org: nat, newType: Option<LoyaltyType>,
                     visit: Option<VisitChange>, cashback: Option<CashbackChange>)
    ensures var r := Patch(w, org, newType, visit, cashback);
            && (r == Err(OrganizationNotFound) <==> org !in w.orgs)
            && (org in w.orgs ==>
                  var o, loyalty := w.orgs[org], TypeAfter(w.orgs[org], newType);
                  var mixed := (loyalty == VISIT && cashback.Some?) || (loyalty == CASHBACK && visit.Some?);
                  var used := exists t :: 0 <= t < |w.ledger| && w.ledger[t].owner.org == org;
                  && (r == Err(ValidationError) <==> mixed)
                  && (r == Err(LoyaltyTypeLocked) <==> !mixed && loyalty != o.loyalty && used)
                  && (r.Ok? <==> !mixed && (loyalty == o.loyalty || !used)))
  {
  }

  /** `now` is the given value if there is one and what was there if not. */
  predicate Takes<T(==)>(given: Option<T>, was: T, now: T) {
    (given.Some? ==> now == given.value) && (given.None? ==> now == was)
  }

  /** What is given is stored in its own field and everything else stays: the other program, the organization's active
      flag, all other organizations and tables. A missing program starts from the model's defaults. */
  lemma PatchStores(w: World, org: nat, newType: Option<LoyaltyType>,
                    visit: Option<VisitChange>, cashback: Option<CashbackChange>)
    requires Patch(w, org, newType, visit, cashback).Ok?
    ensures org in w.orgs
    ensures var u, o := Patch(w, org, newType, visit, cashback).value, w.orgs[org];
            && org in u.orgs && u == w.(orgs := w.orgs[org := u.orgs[org]])
            && var s := u.orgs[org];
               && s.active == o.active && Takes(newType, o.loyalty, s.loyalty)
               && (s.loyalty == VISIT ==>
                     && s.cashback == o.cashback && s.visit.Some?
                     && var was, now := (if o.visit.Some? then o.visit.value
                                         else VisitProgram(5, 1, true)), s.visit.value;
                        && (visit.None? ==> now == was)
                        && (visit.Some? ==>
                              && Takes(visit.value.target, was.target, now.target)
                              && Takes(visit.value.reward, was.reward, now.reward)
                              && Takes(visit.value.active, was.active, now.active)))
               && (s.loyalty != VISIT ==>
                     && s.visit == o.visit && s.cashback.Some?
                     && var was, now := (if o.cashback.Some? then o.cashback.value
                                         else CashbackProgram(500, 3_000, 90, 0, true)), s.cashback.value;
                        && (cashback.None? ==> now == was)
                        && (cashback.Some? ==>
                              && Takes(cashback.value.rate, was.rate, now.rate)
                              && Takes(cashback.value.maxSpend, was.maxSpend, now.maxSpend)
                              && Takes(cashback.value.expiry, was.expiry, now.expiry)
                              && Takes(cashback.value.minPurchase, was.minPurchase, now.minPurchase)
                              && Takes(cashback.value.active, was.active, now.active)))
  {
    hide HasTransactions;
  }

  /** The same PATCH again is accepted and changes nothing more. */
  lemma PatchTwice(w: World, org: nat, newType: Option<LoyaltyType>,
                   visit: Option<VisitChange>, cashback: Option<CashbackChange>)
    requires Patch(w, org, newType, visit, cashback).Ok?
    ensures var u := Patch(w, org, newType, visit, cashback).value;
            Patch(u, org, newType, visit, cashback) == Ok(u)
  {
    hide HasTransactions;
    var u := Patch(w, org, newType, visit, cashback).value;
    assert Patch(u, org, newType, visit, cashback).Ok?;
    var v := Patch(u, org, newType, visit, cashback).value;
    assert v.orgs[org] == u.orgs[org];
    assert v.orgs == u.orgs;
  }

  /** Blocking and unblocking change the active flag of a known organization and nothing else. */
  lemma SwitchStores(w: World, org: nat, active: bool)
    ensures var r := SetOperational(w, org, active);
            && (r.Ok? <==> org in w.orgs) && (r.Err? ==> r == Err(OrganizationNotFound))
            && (r.Ok? ==>
                  var o := w.orgs[org];
                  r.value == w.(orgs := w.orgs[org := Organization(active, o.loyalty, o.visit, o.cashback)]))
  {
  }
}
