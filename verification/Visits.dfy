/** What a visit does to the tables (app/apps/loyalty/services/visits.py). */
module Visits {
  import opened Rows
  import opened Sums
  import opened Guards

  function NewGifts(p: Owner, visit: nat, count: nat): (r: seq<Gift>)
    ensures |r| == count
    ensures forall i {:trigger r[i]} :: 0 <= i < count ==> r[i] == Gift(p, AVAILABLE, visit, None, None)
  {
    seq(count, i => Gift(p, AVAILABLE, visit, None, None))
  }

  function NewGiftEntries(p: Owner, firstGift: nat, visit: nat, now: int, count: nat): (r: seq<Transaction>)
    ensures |r| == count
    ensures forall i {:trigger r[i]} :: 0 <= i < count ==>
      r[i] == Transaction(p, GiftCreated(firstGift + i, visit), COMPLETED, now)
  {
    seq(count, i requires 0 <= i => Transaction(p, GiftCreated(firstGift + i, visit), COMPLETED, now))
  }

  /** The entry, its gifts and the aggregate after one visit under `program`. */
  function PostVisit(w: World, p: Owner, program: VisitProgram): World {
    var a := StateOf(w, p);
    var reached := a.progress + 1 >= program.target;
    var n: nat := if reached then program.reward else 0;
    var progress := if reached then a.progress + 1 - program.target else a.progress + 1;
    w.(ledger := w.ledger
         + [Transaction(p, VisitEarn(program.target, program.reward, a.progress, progress,
                                     Range(|w.gifts|, n)), COMPLETED, w.now)]
         + NewGiftEntries(p, |w.gifts|, |w.ledger|, w.now, n),
       gifts := w.gifts + NewGifts(p, |w.ledger|, n),
       states := w.states[p := a.(progress := progress, totalVisits := a.totalVisits + 1,
                                  giftsEarned := a.giftsEarned + n, availableGifts := a.availableGifts + n)])
  }

  /** earn_visit. */
  function EarnVisit(w: World, p: Owner): Result<World> {
    var _ :- EnsureClient(w, p.user);
    var org :- EnsureOperational(w, p.org, Some(VISIT));
    Ok(PostVisit(w, p, org.visit.value))
  }
}
