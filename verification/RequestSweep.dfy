/** Repeated runs of expire_pending at one moment reach a fixpoint (app/apps/loyalty/services/redemptions.py). */
module RequestSweep {
  import opened Rows
  import opened Sums
  import opened Redemptions

  function OverdueOne(now: int): Request -> int {
    (r: Request) => if Overdue(r, now) then 1 else 0
  }

  /** How many requests are overdue. */
  function OverdueCount(requests: seq<Request>, now: int): int { Sum(requests, OverdueOne(now)) }

  lemma OverdueNonNegative(requests: seq<Request>, now: int)
    ensures OverdueCount(requests, now) >= 0
  {
    SumNonNegative(requests, OverdueOne(now));
  }

  /** `ids` is an answer to the query of expire_pending with the given batch size. */
  ghost predicate OverdueBatch(requests: seq<Request>, ids: seq<nat>, now: int, batchSize: nat) {
    && (forall k :: 0 <= k < |ids| ==> ids[k] < |requests| && Overdue(requests[ids[k]], now))
    && (forall j, k :: 0 <= j < k < |ids| ==> ids[j] != ids[k])
    && |ids| == Min(batchSize, OverdueCount(requests, now))
  }

  /** Exactly the overdue requests among `ids` expire. */
  lemma {:induction false} ExpiresOverdue(w: World, ids: seq<nat>, cutoff: int, r: nat)
    requires forall k :: 0 <= k < |ids| ==> ids[k] < |w.requests|
    requires r < |w.requests|
    ensures ExpireRequests(w, ids, cutoff).requests[r]
         == if r in ids && Overdue(w.requests[r], cutoff) then w.requests[r].(status := EXPIRED) else w.requests[r]
  {
    if ids != [] {
      ExpiresOverdue(w, ids[..|ids| - 1], cutoff, r);
      assert ids == ids[..|ids| - 1] + [ids[|ids| - 1]];
    }
  }

  /** A batch lowers the number of overdue requests by its size. */
  lemma BatchExpires(w: World, ids: seq<nat>, now: int, batchSize: nat)
    requires OverdueBatch(w.requests, ids, now, batchSize)
    ensures OverdueCount(ExpireRequests(w, ids, now).requests, now) == OverdueCount(w.requests, now) - |ids|
  {
    hide ExpireRequests;
    var u := ExpireRequests(w, ids, now);
    forall r | 0 <= r < |w.requests|
      ensures OverdueOne(now)(u.requests[r]) == if r in ids then 0 else OverdueOne(now)(w.requests[r])
    {
      ExpiresOverdue(w, ids, now, r);
    }
    CountFallsExactly(w.requests, u.requests, ids, OverdueOne(now));
  }

  /** Runs of expire_pending at one moment, each with the batch its query returned. */
  ghost predicate ExpiryRuns(worlds: seq<World>, batches: seq<seq<nat>>, now: int, batchSize: nat) {
    && |worlds| == |batches| + 1
    && forall k :: 0 <= k < |batches| ==>
         && OverdueBatch(worlds[k].requests, batches[k], now, batchSize)
         && worlds[k + 1] == ExpireRequests(worlds[k], batches[k], now)
  }

  lemma {:induction false} OverdueAfterRuns(
    worlds: seq<World>, batches: seq<seq<nat>>, now: int, batchSize: nat, k: nat)
    requires ExpiryRuns(worlds, batches, now, batchSize) && k <= |batches|
    ensures OverdueCount(worlds[k].requests, now) == Max(0, OverdueCount(worlds[0].requests, now) - k * batchSize)
  {
    OverdueNonNegative(worlds[0].requests, now);
    if k > 0 {
      OverdueAfterRuns(worlds, batches, now, batchSize, k - 1);
      BatchExpires(worlds[k - 1], batches[k - 1], now, batchSize);
      assert k * batchSize == (k - 1) * batchSize + batchSize;
    }
  }

  lemma NothingOverdue(requests: seq<Request>, now: int)
    requires OverdueCount(requests, now) == 0
    ensures forall r :: 0 <= r < |requests| && requests[r].status == PENDING ==> now < requests[r].expiresAt
  {
    forall r | 0 <= r < |requests| ensures !Overdue(requests[r], now) {
      SumAtLeast(requests, OverdueOne(now), r);
    }
  }

  lemma {:induction false} StaysExpired(
    worlds: seq<World>, batches: seq<seq<nat>>, now: int, batchSize: nat, k: nat, j: nat)
    requires ExpiryRuns(worlds, batches, now, batchSize) && k <= j <= |batches|
    requires OverdueCount(worlds[k].requests, now) == 0
    ensures worlds[j] == worlds[k]
  {
    if k < j {
      StaysExpired(worlds, batches, now, batchSize, k, j - 1);
      assert batches[j - 1] == [];
    }
  }

  /** With d overdue requests, k runs in turn leave none exactly if k * batch_size >= d: then every PENDING request is
      in time and further runs at that moment change nothing. */
  lemma ExpiryConverges(worlds: seq<World>, batches: seq<seq<nat>>, now: int, batchSize: nat, k: nat)
    requires ExpiryRuns(worlds, batches, now, batchSize) && k <= |batches|
    ensures OverdueCount(worlds[k].requests, now) == 0 <==>
              k * batchSize >= OverdueCount(worlds[0].requests, now)
    ensures k * batchSize >= OverdueCount(worlds[0].requests, now) ==>
              && (forall r :: 0 <= r < |worlds[k].requests| && worlds[k].requests[r].status == PENDING ==>
                    now < worlds[k].requests[r].expiresAt)
              && (forall j :: k <= j <= |batches| ==> worlds[j] == worlds[k])
  {
    OverdueAfterRuns(worlds, batches, now, batchSize, k);
    if OverdueCount(worlds[k].requests, now) == 0 {
      NothingOverdue(worlds[k].requests, now);
      forall j | k <= j <= |batches| ensures worlds[j] == worlds[k] {
        StaysExpired(worlds, batches, now, batchSize, k, j);
      }
    }
  }
}
