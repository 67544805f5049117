/** The mutable tables the services work on, and the row objects they load and save. */
module Store {
  import opened Rows

  class Database {
    var now: int
    var users: map<nat, User>
    var orgs: map<nat, Organization>
    var states: map<Owner, State>
    var lots: seq<Lot>
    var gifts: seq<Gift>
    var requests: seq<Request>
    var ledger: seq<Transaction>

    function Tables(): World
      reads this
    {
      World(now, users, orgs, states, lots, gifts, requests, ledger)
    }

    /** Leaving an atomic block with an exception. */
    method Rollback(savepoint: World)
      modifies this
      ensures Tables() == savepoint
    {
      now, users, orgs, states := savepoint.now, savepoint.users, savepoint.orgs, savepoint.states;
      lots, gifts, requests, ledger := savepoint.lots, savepoint.gifts, savepoint.requests, savepoint.ledger;
    }
  }

  /** A loaded UserOrganizationState: its fields change in memory until it is saved. */
  class StateRow {
    const owner: Owner
    var progress: int
    var totalVisits: int
    var availableGifts: int
    var giftsEarned: int
    var giftsUsed: int
    var available: int
    var earned: int
    var spent: int
    var expired: int

    function Value(): State
      reads this
    {
      State(progress, totalVisits, availableGifts, giftsEarned, giftsUsed, available, earned, spent, expired)
    }

    /** The tables as they will be once this row is saved. */
    ghost function SavedTo(w: World): World
      reads this
    {
      w.(states := w.states[owner := Value()])
    }

    constructor (owner: Owner, state: State)
      ensures Value() == state && this.owner == owner
    {
      this.owner := owner;
      progress, totalVisits := state.progress, state.totalVisits;
      availableGifts, giftsEarned, giftsUsed := state.availableGifts, state.giftsEarned, state.giftsUsed;
      available, earned, spent, expired := state.available, state.earned, state.spent, state.expired;
    }

    method Save(db: Database)
      modifies db`states
      ensures db.states == old(db.states)[owner := Value()]
    {
      db.states := db.states[owner := Value()];
    }
  }

  /** lock_state: the row is created if it is missing. */
  method LockState(db: Database, p: Owner) returns (state: StateRow)
    modifies db`states
    ensures fresh(state) && state.owner == p && state.Value() == StateOf(old(db.Tables()), p)
    ensures db.states == old(db.states)[p := StateOf(old(db.Tables()), p)]
  {
    if p !in db.states {
      db.states := db.states[p := NEW_STATE];
    }
    state := new StateRow(p, db.states[p]);
  }

  /** An atomic block: it commits what `outcome` says or raises its error and leaves no trace. */
  ghost predicate Atomic<T>(outcome: Result<World>, r: Result<T>, before: World, after: World) {
    match outcome
    case Ok(w) => r.Ok? && after == w
    case Err(e) => r == Err(e) && after == before
  }
}
