/** The visit service (app/apps/loyalty/services/visits.py). */
module VisitService {
  import opened Rows
  import opened Sums
  import opened Guards
  import opened Store
  import Visits

  /** The reward loop. */
  method CreateGifts(db: Database, p: Owner, visit: nat, count: nat) returns (created: seq<nat>)
    modifies db`gifts, db`ledger
    ensures db.gifts == old(db.gifts) + Visits.NewGifts(p, visit, count)
    ensures db.ledger == old(db.ledger) + Visits.NewGiftEntries(p, old(|db.gifts|), visit, db.now, count)
    ensures created == Range(old(|db.gifts|), count)
  {
    created := [];
    for i := 0 to count
      invariant db.gifts == old(db.gifts) + Visits.NewGifts(p, visit, i)
      invariant db.ledger == old(db.ledger) + Visits.NewGiftEntries(p, old(|db.gifts|), visit, db.now, i)
      invariant created == Range(old(|db.gifts|), i)
    {
      db.ledger := db.ledger + [Transaction(p, GiftCreated(|db.gifts|, visit), COMPLETED, db.now)];
      created := created + [|db.gifts|];
      db.gifts := db.gifts + [Gift(p, AVAILABLE, visit, None, None)];
    }
  }

  /** earn_visit: the entry is written first and completed with its gifts and progress at the end. */
  method EarnVisit(db: Database, p: Owner) returns (r: Result<nat>)
    modifies db
    ensures Atomic(Visits.EarnVisit(old(db.Tables()), p), r, old(db.Tables()), db.Tables())
    ensures r.Ok? ==> r.value == old(|db.ledger|)
  {
    var client := EnsureClient(db.Tables(), p.user);
    if client.Err? { return Err(client.error); }
    var org := EnsureOperational(db.Tables(), p.org, Some(VISIT));
    if org.Err? { return Err(org.error); }
    var program := org.value.visit.value;
    var entry := |db.ledger|;
    PostVisit(db, p, program);
    r := Ok(entry);
  }

  /** The threshold: progress falls by the target and the rewards are created. */
  method RewardIfReached(db: Database, p: Owner, visit: nat, program: VisitProgram, state: StateRow)
    returns (created: seq<nat>)
    modifies db`gifts, db`ledger, state
    ensures var reached := old(state.progress) >= program.target;
            var n: nat := if reached then program.reward else 0;
            && created == Range(old(|db.gifts|), n)
            && db.gifts == old(db.gifts) + Visits.NewGifts(p, visit, n)
            && db.ledger == old(db.ledger) + Visits.NewGiftEntries(p, old(|db.gifts|), visit, db.now, n)
            && state.Value() == old(state.Value()).(
                 progress := if reached then old(state.progress) - program.target else old(state.progress),
                 giftsEarned := old(state.giftsEarned) + n, availableGifts := old(state.availableGifts) + n)
  {
    created := [];
    if state.progress >= program.target {
      state.progress := state.progress - program.target;
      created := CreateGifts(db, p, visit, program.reward);
      state.giftsEarned := state.giftsEarned + |created|;
      state.availableGifts := state.availableGifts + |created|;
    }
  }

  lemma Completed(ledger: seq<Transaction>, first: Transaction, final: Transaction, entries: seq<Transaction>)
    ensures (ledger + [first] + entries)[|ledger| := final] == ledger + [final] + entries
  {
  }

  method PostVisit(db: Database, p: Owner, program: VisitProgram)
    modifies db
    ensures db.Tables() == Visits.PostVisit(old(db.Tables()), p, program)
  {
    var state := LockState(db, p);
    CountVisit(db, program, state);
    state.Save(db);
  }

  /** The visit's entry, its rewards and the aggregate in memory. */
  method CountVisit(db: Database, program: VisitProgram, state: StateRow)
    requires state.Value() == StateOf(db.Tables(), state.owner)
    modifies db`gifts, db`ledger, state
    ensures state.SavedTo(db.Tables()) == Visits.PostVisit(old(db.Tables()), state.owner, program)
  {
    hide Visits.NewGifts, Visits.NewGiftEntries, Range;
    var p, visit, progressBefore := state.owner, |db.ledger|, state.progress;
    var entry := Transaction(p, VisitEarn(program.target, program.reward, progressBefore, 0, []), COMPLETED, db.now);
    db.ledger := db.ledger + [entry];
    state.progress := state.progress + 1;
    state.totalVisits := state.totalVisits + 1;
    ghost var posted := db.ledger;
    var created := RewardIfReached(db, p, visit, program, state);
    var completed := entry.(
      kind := VisitEarn(program.target, program.reward, progressBefore, state.progress, created));
    Completed(old(db.ledger), entry, completed, db.ledger[|posted|..]);
    db.ledger := db.ledger[visit := completed];
  }
}
