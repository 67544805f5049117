/** Guards in front of every operation (app/apps/loyalty/services/state.py). */
module Guards {
  import opened Rows

  /** ensure_client. */
  function EnsureClient(w: World, user: nat): Result<User> {
    if user !in w.users || !w.users[user].client then Err(UserNotFound)
    else if !w.users[user].active then Err(UserBlocked)
    else Ok(w.users[user])
  }

  /** ensure_organization_operational: any type other than VISIT runs the cashback program. */
  function EnsureOperational(w: World, org: nat, expected: Option<LoyaltyType>): (r: Result<Organization>)
    ensures r.Ok? && r.value.loyalty == VISIT ==> r.value.visit.Some?
    ensures r.Ok? && r.value.loyalty != VISIT ==> r.value.cashback.Some?
    ensures r.Ok? ==> org in w.orgs && r.value == w.orgs[org]
    ensures r.Ok? && expected.Some? ==> r.value.loyalty == expected.value
  {
    if org !in w.orgs then Err(OrganizationNotFound)
    else
      var o := w.orgs[org];
      if !o.active then Err(OrganizationBlocked)
      else if expected.Some? && o.loyalty != expected.value then Err(LoyaltyTypeMismatch)
      else if o.loyalty == VISIT then
        if o.visit.None? || !o.visit.value.active then Err(ProgramInactive) else Ok(o)
      else
        if o.cashback.None? || !o.cashback.value.active then Err(ProgramInactive) else Ok(o)
  }

  // ---- the same conditions on the rows ----

  /** A known account with the client role that is not blocked. */
  predicate ActiveClient(w: World, user: nat) {
    user in w.users && w.users[user].client && w.users[user].active
  }

  /** The organization is not blocked and runs a visit program that is switched on. */
  predicate RunsVisits(w: World, org: nat) {
    && org in w.orgs && w.orgs[org].active && w.orgs[org].loyalty == VISIT
    && w.orgs[org].visit.Some? && w.orgs[org].visit.value.active
  }

  predicate RunsCashback(w: World, org: nat) {
    && org in w.orgs && w.orgs[org].active && w.orgs[org].loyalty == CASHBACK
    && w.orgs[org].cashback.Some? && w.orgs[org].cashback.value.active
  }

  /** Which error stops whom. */
  lemma ClientErrors(w: World, user: nat)
    ensures EnsureClient(w, user).Ok? <==> ActiveClient(w, user)
    ensures EnsureClient(w, user) == Err(UserNotFound) <==> user !in w.users || !w.users[user].client
    ensures EnsureClient(w, user) == Err(UserBlocked) <==>
              user in w.users && w.users[user].client && !w.users[user].active
  {
  }

  lemma OrganizationErrors(w: World, org: nat, loyalty: LoyaltyType)
    requires loyalty == VISIT || loyalty == CASHBACK
    ensures var r := EnsureOperational(w, org, Some(loyalty));
            && (r.Ok? <==> if loyalty == VISIT then RunsVisits(w, org) else RunsCashback(w, org))
            && (r == Err(OrganizationNotFound) <==> org !in w.orgs)
            && (r == Err(OrganizationBlocked) <==> org in w.orgs && !w.orgs[org].active)
            && (r == Err(LoyaltyTypeMismatch) <==>
                  org in w.orgs && w.orgs[org].active && w.orgs[org].loyalty != loyalty)
            && (r.Err? ==> r.error in {OrganizationNotFound, OrganizationBlocked, LoyaltyTypeMismatch, ProgramInactive})
  {
  }
}
