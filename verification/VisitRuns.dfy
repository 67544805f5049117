/** Visits and their reversals over whole runs. */
module VisitRuns {
  import opened Rows
  import Cashback
  import opened Guards
  import opened Sums
  import opened Visits
  import opened Redemptions
  import opened Reversals
  import opened Accounts
  import opened GiftLaws
  import opened GiftSteps
  import opened LedgerLaws
  import opened Machine
  import opened Steps
  import opened Agreement
  import opened Safety

  lemma ReachableStep(w: World, op: Op)
    requires Reachable(w) && Possible(w, op)
    ensures Reachable(After(w, op))
  {
    var start, ops :| Initial(start) && CanRun(start, ops) && Run(start, ops) == w;
    var longer := ops + [op];
    assert longer[..|longer| - 1] == ops;
    assert Run(start, longer) == After(w, op);
  }

  lemma {:induction false} ReachableRun(w: World, ops: seq<Op>)
    requires Reachable(w) && CanRun(w, ops)
    ensures Reachable(Run(w, ops))
  {
    if ops != [] {
      ReachableRun(w, ops[..|ops| - 1]);
      ReachableStep(Run(w, ops[..|ops| - 1]), ops[|ops| - 1]);
    }
  }

  // ---- what visits move ----

  /** What visits and their reversals move in an aggregate. */
  datatype Tally = Tally(progress: int, totalVisits: int, giftsEarned: int)

  function TallyOf(w: World, p: Owner): Tally {
    var a := StateOf(w, p);
    Tally(a.progress, a.totalVisits, a.giftsEarned)
  }

  predicate NoVisit(k: TransactionKind) { !k.VisitEarn? }

  ghost predicate VisitsQuiet(w: World, u: World, p: Owner) {
    && |w.ledger| <= |u.ledger|
    && (forall t :: 0 <= t < |w.ledger| ==>
          u.ledger[t] == w.ledger[t] || (NoVisit(w.ledger[t].kind) && NoVisit(u.ledger[t].kind)))
    && (forall t :: |w.ledger| <= t < |u.ledger| ==> NoVisit(u.ledger[t].kind))
    && TallyOf(u, p) == TallyOf(w, p)
  }

  lemma UndoEarnQuiet(w: World, t: nat, force: bool, p: Owner)
    requires t < |w.ledger| && w.ledger[t].kind.CashbackEarn? && UndoEarn(w, t, force).Ok?
    ensures VisitsQuiet(w, UndoEarn(w, t, force).value, p)
  {
  }

  lemma UndoSpendQuiet(w: World, t: nat, p: Owner)
    requires t < |w.ledger| && w.ledger[t].kind.CashbackSpend? && UndoSpend(w, t).Ok?
    ensures VisitsQuiet(w, UndoSpend(w, t).value, p)
  {
  }

  lemma UndoRedeemQuiet(w: World, t: nat, p: Owner)
    requires t < |w.ledger| && w.ledger[t].kind.GiftRedeem? && UndoRedeem(w, t).Ok?
    ensures VisitsQuiet(w, UndoRedeem(w, t).value, p)
  {
  }

  lemma OtherReversalsQuiet(w: World, t: nat, scope: Option<nat>, force: bool, reasonGiven: bool, p: Owner)
    requires Reverse(w, t, scope, force, reasonGiven).Ok? && NoVisit(w.ledger[t].kind)
    ensures VisitsQuiet(w, Reverse(w, t, scope, force, reasonGiven).value, p)
  {
    hide VisitsQuiet;
    match w.ledger[t].kind {
      case CashbackEarn(_, _, _, _) => UndoEarnQuiet(w, t, force, p);
      case CashbackSpend(_, _, _, _) => UndoSpendQuiet(w, t, p);
      case GiftRedeem(_, _) => UndoRedeemQuiet(w, t, p);
    }
  }

  lemma PaymentQuiet(w: World, q: Owner, purchase: Purchase, earn: int, r: nat, order: seq<nat>, p: Owner)
    requires forall k :: 0 <= k < |order| ==> order[k] < |w.lots|
    requires Cashback.ApplyConfirmed(w, q, purchase, earn, r, order).Ok?
    ensures VisitsQuiet(w, Cashback.ApplyConfirmed(w, q, purchase, earn, r, order).value, p)
  {
    hide Cashback.TakeInOrder;
  }

  lemma ConfirmQuiet(w: World, user: nat, r: nat, order: seq<nat>, p: Owner)
    requires Possible(w, ConfirmRequest(user, r, order)) && Confirm(w, user, r, order).Ok?
    ensures VisitsQuiet(w, Confirm(w, user, r, order).value.world, p)
  {
    hide Sum, Cashback.ApplyConfirmed, EnsureOperational;
    var req := w.requests[r];
    if req.status == PENDING && req.kind.CashbackRequest? {
      PaymentQuiet(w, req.owner, req.kind.purchase, req.kind.earn, r, order, p);
    }
  }

  lemma PostingQuiet(w: World, op: Op, p: Owner)
    requires Possible(w, op) && Apply(w, op).Ok?
    requires op.Buy? || op.AskGift? || op.AskCashback? || op.SweepLot?
    ensures VisitsQuiet(w, After(w, op), p)
  {
    hide Sum;
  }

  lemma OtherStepsQuiet(w: World, op: Op, p: Owner)
    requires Possible(w, op) && Apply(w, op).Ok? && !op.Visit? && !op.ReverseEntry? && !op.ConfirmRequest?
    ensures VisitsQuiet(w, After(w, op), p)
  {
    hide Sum;
    if op.Buy? || op.AskGift? || op.AskCashback? || op.SweepLot? {
      PostingQuiet(w, op, p);
    } else {
      assert After(w, op).ledger == w.ledger && After(w, op).states == w.states;
    }
  }

  // ---- visits undone in reverse order ----

  function AfterVisit(a: Tally, target: nat, gifts: nat): Tally {
    Tally(a.progress + 1 - (if gifts > 0 then target else 0), a.totalVisits + 1, a.giftsEarned + gifts)
  }

  /** A visit that is still to be undone, and what it found. */
  datatype Frame = Frame(entry: nat, before: Tally)

  predicate VisitOf(u: World, p: Owner, t: nat) {
    t < |u.ledger| && u.ledger[t].owner == p && u.ledger[t].kind.VisitEarn?
  }

  /** A COMPLETED visit of `p`. */
  predicate Standing(u: World, p: Owner, t: nat) {
    VisitOf(u, p, t) && u.ledger[t].status == COMPLETED
  }

  /** The standing visits in `frames` lead from `start` to `now`, oldest first. */
  ghost predicate Chain(u: World, p: Owner, start: Tally, frames: seq<Frame>, now: Tally) {
    if frames == [] then now == start
    else
      var f, init := frames[|frames| - 1], frames[..|frames| - 1];
      && Standing(u, p, f.entry) && f.before.progress >= 0
      && now == AfterVisit(f.before, u.ledger[f.entry].kind.target, |u.ledger[f.entry].kind.gifts|)
      && (forall k :: 0 <= k < |init| ==> init[k].entry < f.entry)
      && Chain(u, p, start, init, f.before)
  }

  lemma {:induction false} ChainStays(u: World, v: World, p: Owner, start: Tally, frames: seq<Frame>, now: Tally)
    requires Chain(u, p, start, frames, now)
    requires forall k :: 0 <= k < |frames| && Standing(u, p, frames[k].entry) ==>
      frames[k].entry < |v.ledger| && v.ledger[frames[k].entry] == u.ledger[frames[k].entry]
    ensures Chain(v, p, start, frames, now)
  {
    if frames != [] {
      ChainStays(u, v, p, start, frames[..|frames| - 1], frames[|frames| - 1].before);
    }
  }

  /** The step reverses a visit of `p`. */
  ghost predicate UndoesVisit(u: World, p: Owner, op: Op)
    requires Possible(u, op)
  {
    op.ReverseEntry? && Apply(u, op).Ok? && VisitOf(u, p, op.entry)
  }

  /** Anything may happen in between, except that a visit of `p` is reversed when it is not the newest of those
      still to be undone. */
  ghost predicate Allowed(u: World, p: Owner, frames: seq<Frame>, op: Op)
    requires Possible(u, op)
  {
    UndoesVisit(u, p, op) ==> frames != [] && op.entry == frames[|frames| - 1].entry
  }

  ghost function NextFrames(u: World, p: Owner, frames: seq<Frame>, op: Op): seq<Frame>
    requires Possible(u, op) && Allowed(u, p, frames, op)
  {
    if op == Visit(p) && Apply(u, op).Ok? then frames + [Frame(|u.ledger|, TallyOf(u, p))]
    else if UndoesVisit(u, p, op) then frames[..|frames| - 1]
    else frames
  }

  /** Whatever else happens, to `p` or to others, leaves the visits of `p` and what they moved alone. */
  lemma OtherStepsStandStill(u: World, p: Owner, op: Op, t: nat)
    requires Reachable(u) && Possible(u, op) && op != Visit(p) && !UndoesVisit(u, p, op)
    ensures TallyOf(After(u, op), p) == TallyOf(u, p)
    ensures VisitOf(u, p, t) ==> t < |After(u, op).ledger| && After(u, op).ledger[t] == u.ledger[t]
  {
    hide Sum, Reverse, EnsureClient, EnsureOperational;
    if Apply(u, op).Ok? {
      if Subject(u, op) != Some(p) {
        TenantsDoNotInterfere(u, op, p);
      } else if op.ReverseEntry? {
        OtherReversalsQuiet(u, op.entry, op.scope, op.force, op.reasonGiven, p);
      } else if op.ConfirmRequest? {
        ConfirmQuiet(u, op.user, op.request, op.order, p);
      } else {
        OtherStepsQuiet(u, op, p);
      }
    }
  }

  lemma VisitPushes(u: World, p: Owner)
    requires EarnVisit(u, p).Ok?
    ensures var v, t := EarnVisit(u, p).value, |u.ledger|;
            && Standing(v, p, t) && v.ledger[..t] == u.ledger
            && TallyOf(v, p) == AfterVisit(TallyOf(u, p), v.ledger[t].kind.target, |v.ledger[t].kind.gifts|)
  {
  }

  lemma UndoPops(u: World, p: Owner, t: nat, before: Tally, scope: Option<nat>, force: bool)
    requires Reachable(u) && Standing(u, p, t) && before.progress >= 0
    requires Reverse(u, t, scope, force, true).Ok?
    requires TallyOf(u, p) == AfterVisit(before, u.ledger[t].kind.target, |u.ledger[t].kind.gifts|)
    ensures var v := Reverse(u, t, scope, force, true).value;
            && TallyOf(v, p) == before
            && |v.ledger| == |u.ledger| + 1 && forall k :: 0 <= k < t ==> v.ledger[k] == u.ledger[k]
  {
    VisitReversal(u, t, scope, force);
  }

  ghost predicate Nested(w: World, p: Owner, ops: seq<Op>)
    requires CanRun(w, ops)
    decreases |ops|, 0
  {
    ops == []
    || (Nested(w, p, ops[..|ops| - 1])
        && Allowed(Run(w, ops[..|ops| - 1]), p, FramesOf(w, p, ops[..|ops| - 1]), ops[|ops| - 1]))
  }

  /** The visits of `p` that `ops` leaves to be undone. */
  ghost function FramesOf(w: World, p: Owner, ops: seq<Op>): seq<Frame>
    requires CanRun(w, ops) && Nested(w, p, ops)
    decreases |ops|, 1
  {
    if ops == [] then []
    else NextFrames(Run(w, ops[..|ops| - 1]), p, FramesOf(w, p, ops[..|ops| - 1]), ops[|ops| - 1])
  }

  lemma {:induction false} ChainOfRun(w: World, p: Owner, ops: seq<Op>)
    requires Reachable(w) && CanRun(w, ops) && Nested(w, p, ops)
    ensures Chain(Run(w, ops), p, TallyOf(w, p), FramesOf(w, p, ops), TallyOf(Run(w, ops), p))
    ensures forall k :: 0 <= k < |FramesOf(w, p, ops)| ==> FramesOf(w, p, ops)[k].entry < |Run(w, ops).ledger|
  {
    if ops != [] {
      var init, op := ops[..|ops| - 1], ops[|ops| - 1];
      ChainOfRun(w, p, init);
      ReachableRun(w, init);
      ChainStep(Run(w, init), p, TallyOf(w, p), FramesOf(w, p, init), op);
    }
  }

  lemma ChainStep(u: World, p: Owner, start: Tally, frames: seq<Frame>, op: Op)
    requires Reachable(u) && Possible(u, op) && Allowed(u, p, frames, op)
    requires Chain(u, p, start, frames, TallyOf(u, p))
    requires forall k :: 0 <= k < |frames| ==> frames[k].entry < |u.ledger|
    ensures var v, next := After(u, op), NextFrames(u, p, frames, op);
            && Chain(v, p, start, next, TallyOf(v, p))
            && forall k :: 0 <= k < |next| ==> next[k].entry < |v.ledger|
  {
    hide Reverse, EarnVisit, Chain;
    ReachableInv(u);
    StepKeeps(u, op);
    if op == Visit(p) {
      if Apply(u, op).Ok? {
        ChainVisit(u, p, start, frames);
      }
    } else if UndoesVisit(u, p, op) {
      ReversalReason(u, op.entry, op.scope, op.force, op.reasonGiven);
      ChainUndo(u, p, start, frames, op.scope, op.force);
    } else {
      OtherStepsStandStill(u, p, op, 0);
      forall k | 0 <= k < |frames| && Standing(u, p, frames[k].entry)
        ensures After(u, op).ledger[frames[k].entry] == u.ledger[frames[k].entry]
      {
        OtherStepsStandStill(u, p, op, frames[k].entry);
      }
      ChainStays(u, After(u, op), p, start, frames, TallyOf(u, p));
    }
  }

  lemma ReversalReason(u: World, t: nat, scope: Option<nat>, force: bool, reasonGiven: bool)
    requires Reverse(u, t, scope, force, reasonGiven).Ok?
    ensures reasonGiven
  {
  }

  lemma ChainVisit(u: World, p: Owner, start: Tally, frames: seq<Frame>)
    requires Inv(u) && EarnVisit(u, p).Ok? && Chain(u, p, start, frames, TallyOf(u, p))
    requires forall k :: 0 <= k < |frames| ==> frames[k].entry < |u.ledger|
    ensures var v, next := EarnVisit(u, p).value, frames + [Frame(|u.ledger|, TallyOf(u, p))];
            Chain(v, p, start, next, TallyOf(v, p)) && |v.ledger| > |u.ledger|
  {
    hide EarnVisit;
    var v, next := EarnVisit(u, p).value, frames + [Frame(|u.ledger|, TallyOf(u, p))];
    VisitPushes(u, p);
    assert forall t :: 0 <= t < |u.ledger| ==> v.ledger[..|u.ledger|][t] == v.ledger[t];
    ChainStays(u, v, p, start, frames, TallyOf(u, p));
    assert VisitBalance(u, p);
    assert next[..|next| - 1] == frames;
  }

  lemma ChainUndo(u: World, p: Owner, start: Tally, frames: seq<Frame>, scope: Option<nat>, force: bool)
    requires Reachable(u) && frames != [] && Chain(u, p, start, frames, TallyOf(u, p))
    requires Reverse(u, frames[|frames| - 1].entry, scope, force, true).Ok?
    ensures var v := Reverse(u, frames[|frames| - 1].entry, scope, force, true).value;
            && Chain(v, p, start, frames[..|frames| - 1], TallyOf(v, p))
            && TallyOf(v, p) == frames[|frames| - 1].before
            && |v.ledger| > |u.ledger|
  {
    hide Reverse;
    var f, init := frames[|frames| - 1], frames[..|frames| - 1];
    UndoPops(u, p, f.entry, f.before, scope, force);
    ChainStays(u, Reverse(u, f.entry, scope, force, true).value, p, start, init, f.before);
  }

  ghost predicate AllGiftsAvailable(u: World, t: nat)
    requires t < |u.ledger| && u.ledger[t].kind.VisitEarn?
  {
    var ids := u.ledger[t].kind.gifts;
    forall k :: 0 <= k < |ids| ==> ids[k] < |u.gifts| && u.gifts[ids[k]].status == AVAILABLE
  }

  /** Visits undone newest first, through any run of the whole system in which no other visit of the client is
      reversed: gifts of the client may be asked for, redeemed, released and given back in between, programs may
      change, and admins or the director may do the reversals. The newest visit can be reversed exactly while
      its gifts are AVAILABLE, and then leaves what it found. Once every visit made since `w` is undone,
      progress, visits and earned gifts are exactly what they were, and so is the sum of held and used gifts. */
  lemma VisitsUndoInReverse(w: World, p: Owner, ops: seq<Op>, scope: Option<nat>, force: bool)
    requires Reachable(w) && CanRun(w, ops) && Nested(w, p, ops)
    requires scope == None || scope == Some(p.org)
    ensures var u, frames, a, b := Run(w, ops), FramesOf(w, p, ops), StateOf(w, p), StateOf(Run(w, ops), p);
            if frames == [] then
              && TallyOf(u, p) == TallyOf(w, p)
              && b.availableGifts + b.giftsUsed == a.availableGifts + a.giftsUsed
            else
              var f := frames[|frames| - 1];
              var reversed := Reverse(u, f.entry, scope, force, true);
              && Standing(u, p, f.entry)
              && (reversed.Ok? <==> AllGiftsAvailable(u, f.entry))
              && (reversed.Ok? ==> TallyOf(reversed.value, p) == f.before)
  {
    hide Reverse;
    ChainOfRun(w, p, ops);
    ReachableRun(w, ops);
    var u, frames := Run(w, ops), FramesOf(w, p, ops);
    if frames == [] {
      CountersAgree(w, p);
      CountersAgree(u, p);
    } else {
      var t := frames[|frames| - 1].entry;
      VisitReversal(u, t, scope, force);
      if Reverse(u, t, scope, force, true).Ok? {
        ChainUndo(u, p, TallyOf(w, p), frames, scope, force);
      }
    }
  }

  /** A client of a visit program holds no cashback. */
  lemma VisitorsHoldNoCashback(w: World, p: Owner)
    requires Reachable(w)
    requires forall t :: 0 <= t < |w.ledger| && w.ledger[t].owner == p ==> Family(w.ledger[t].kind) == VISIT
    ensures var a := StateOf(w, p); a.available == a.earned == a.spent == a.expired == 0
  {
    BalancesAgree(w, p);
    SumConst(w.ledger, Signed(p), 0);
    SumConst(w.ledger, EarnedBy(p), 0);
    SumConst(w.ledger, SpentBy(p), 0);
    SumConst(w.ledger, BurnedBy(p), 0);
  }

  /** Hence, once everything is undone and as many gifts are used as before, the client's whole aggregate is what
      it was. */
  lemma AggregateIsRestored(w: World, p: Owner, ops: seq<Op>, t: nat)
    requires Reachable(w) && CanRun(w, ops) && Nested(w, p, ops) && FramesOf(w, p, ops) == []
    requires VisitOf(Run(w, ops), p, t) && StateOf(Run(w, ops), p).giftsUsed == StateOf(w, p).giftsUsed
    ensures StateOf(Run(w, ops), p) == StateOf(w, p)
  {
    var u := Run(w, ops);
    VisitsUndoInReverse(w, p, ops, None, false);
    ReachableRun(w, ops);
    ProgramsNeverMix(u, p.org);
    LedgerOnlyGrows(w, ops);
    forall k | 0 <= k < |u.ledger| && u.ledger[k].owner == p ensures Family(u.ledger[k].kind) == VISIT {
      assert Family(u.ledger[t].kind) == VISIT;
    }
    VisitorsHoldNoCashback(u, p);
    VisitorsHoldNoCashback(w, p);
  }

  // ---- visits under one program ----

  /** The rewards that n visits bring from progress `s`: one for each target reached, at most one a visit. */
  function Rewards(s: nat, n: nat, target: Target): nat {
    var reached := (s + n) / target;
    if n <= reached then n else reached
  }

  lemma QuotientSplits(n: nat, d: nat)
    requires d >= 1
    ensures n == n / d * d + n % d
  {
  }

  lemma TargetReached(n: nat, d: nat, q: nat, m: nat)
    requires n == q * d + m && m + 1 == d
    ensures (n + 1) / d == q + 1 && (n + 1) % d == 0
  {
    OneMore(q, q + 1, d);
    QuotientIs(n + 1, d, q + 1, 0);
  }

  lemma OneMore(q: int, r: int, x: int)
    requires r == q + 1
    ensures r * x == q * x + x
  {
  }

  lemma Difference(p: int, q: int, x: int)
    ensures (p - q) * x == p * x - q * x
  {
  }

  lemma AtLeastOnce(k: int, d: nat)
    requires k >= 1
    ensures k * d >= d
  {
    OneMore(k - 1, k, d);
  }

  lemma QuotientIs(n: nat, d: nat, q: nat, m: nat)
    requires m < d && n == q * d + m
    ensures n / d == q && n % d == m
  {
    var p := n / d;
    QuotientSplits(n, d);
    QuotientsAgree(d, p, n % d, q, m);
  }

  lemma QuotientsAgree(d: nat, p: int, k: nat, q: int, m: nat)
    requires k < d && m < d && p * d + k == q * d + m
    ensures p == q
  {
    Difference(p, q, d);
    Difference(q, p, d);
    if p > q {
      AtLeastOnce(p - q, d);
    } else if p < q {
      AtLeastOnce(q - p, d);
    }
  }

  lemma NextQuotient(n: nat, d: nat)
    requires d >= 1
    ensures (n + 1) / d == n / d + if n % d + 1 == d then 1 else 0
  {
    var q, m := n / d, n % d;
    QuotientSplits(n, d);
    if m + 1 == d {
      TargetReached(n, d, q, m);
    } else {
      QuotientIs(n + 1, d, q, m + 1);
    }
  }

  /** The next visit brings a reward exactly if it reaches the target. */
  lemma NextReward(s: nat, n: nat, target: Target)
    ensures var progress := s + n - Rewards(s, n, target) * target;
            && progress >= 0
            && Rewards(s, n + 1, target) == Rewards(s, n, target) + if progress + 1 >= target then 1 else 0
  {
    var q := (s + n) / target;
    QuotientSplits(s + n, target);
    NextQuotient(s + n, target);
    if n < q {
      Difference(q, n, target);
      AtLeastOnce(q - n, target);
    }
  }

  /** From progress below the target: a reward for every target of the total, and the remainder as progress. */
  lemma RewardsFromBelow(s: nat, n: nat, target: Target)
    requires s < target
    ensures Rewards(s, n, target) == (s + n) / target
    ensures s + n - Rewards(s, n, target) * target == (s + n) % target
  {
    var q := (s + n) / target;
    QuotientSplits(s + n, target);
    if q > n {
      Difference(q, n, target);
      AtLeastOnce(q - n, target);
      AtLeastOnce(target, n);
    }
  }

  /** No visit of `p` is reversed, and each of them finds `program`. */
  ghost predicate OneProgram(w: World, ops: seq<Op>, p: Owner, program: VisitProgram)
    requires CanRun(w, ops)
  {
    if ops == [] then true
    else
      var u, op := Run(w, ops[..|ops| - 1]), ops[|ops| - 1];
      && OneProgram(w, ops[..|ops| - 1], p, program) && !UndoesVisit(u, p, op)
      && (op == Visit(p) && Apply(u, op).Ok? ==> p.org in u.orgs && u.orgs[p.org].visit == Some(program))
  }

  /** The visits of `p` that succeed. */
  ghost function VisitsIn(w: World, ops: seq<Op>, p: Owner): nat
    requires CanRun(w, ops)
  {
    if ops == [] then 0
    else
      var u, op := Run(w, ops[..|ops| - 1]), ops[|ops| - 1];
      VisitsIn(w, ops[..|ops| - 1], p) + if op == Visit(p) && Apply(u, op).Ok? then 1 else 0
  }

  lemma TallyOfVisit(u: World, p: Owner, program: VisitProgram)
    requires EarnVisit(u, p).Ok? && p.org in u.orgs && u.orgs[p.org].visit == Some(program)
    ensures var a, reached := TallyOf(u, p), StateOf(u, p).progress + 1 >= program.target;
            TallyOf(EarnVisit(u, p).value, p)
            == Tally(a.progress + 1 - (if reached then program.target else 0), a.totalVisits + 1,
                     a.giftsEarned + if reached then program.reward else 0)
  {
  }

  /** The tally after n visits under one program. */
  function Rewarded(a: Tally, n: nat, program: VisitProgram): Tally
    requires a.progress >= 0
  {
    var g := Rewards(a.progress, n, program.target);
    Tally(a.progress + n - g * program.target, a.totalVisits + n, a.giftsEarned + g * program.reward)
  }

  lemma RewardedNext(a: Tally, n: nat, program: VisitProgram)
    requires a.progress >= 0
    ensures var b := Rewarded(a, n, program);
            var reached := b.progress + 1 >= program.target;
            Rewarded(a, n + 1, program)
            == Tally(b.progress + 1 - (if reached then program.target else 0), b.totalVisits + 1,
                     b.giftsEarned + if reached then program.reward else 0)
  {
    var g := Rewards(a.progress, n, program.target);
    NextReward(a.progress, n, program.target);
    OneMore(g, g + 1, program.target);
    OneMore(g, g + 1, program.reward);
  }

  /** n visits under one program, from any progress and among any other steps, bring as many rewards as targets are
      reached, but no more than one a visit: a client who starts with progress of several targets is rewarded at
      every visit until it is used up. The rest stays as progress. */
  lemma {:induction false} RewardEveryTarget(w: World, p: Owner, ops: seq<Op>, program: VisitProgram)
    requires Reachable(w) && CanRun(w, ops) && OneProgram(w, ops, p, program)
    ensures StateOf(w, p).progress >= 0
    ensures TallyOf(Run(w, ops), p) == Rewarded(TallyOf(w, p), VisitsIn(w, ops, p), program)
  {
    hide Inv, Rewards, Apply;
    CountersAgree(w, p);
    if ops == [] {
      NoVisitsYet(TallyOf(w, p), program);
    } else {
      var init, op := ops[..|ops| - 1], ops[|ops| - 1];
      var u := Run(w, init);
      RewardEveryTarget(w, p, init, program);
      ReachableRun(w, init);
      if op == Visit(p) {
        VisitIsApplied(u, p);
        if EarnVisit(u, p).Ok? {
          TallyOfVisit(u, p, program);
          RewardedNext(TallyOf(w, p), VisitsIn(w, init, p), program);
        }
      } else {
        OtherStepsStandStill(u, p, op, 0);
      }
    }
  }

  lemma VisitIsApplied(u: World, p: Owner)
    ensures Apply(u, Visit(p)) == EarnVisit(u, p)
  {
  }

  lemma NoVisitsYet(a: Tally, program: VisitProgram)
    requires a.progress >= 0
    ensures Rewarded(a, 0, program) == a
  {
    QuotientSplits(a.progress, program.target);
  }

  function VisitEach(p: Owner, n: nat): (ops: seq<Op>)
    ensures |ops| == n
  {
    seq(n, k => Visit(p))
  }

  /** A visit changes neither the client nor the program, and uses no gift. */
  lemma VisitStands(w: World, u: World, p: Owner)
    requires u.users == w.users && u.orgs == w.orgs && EarnVisit(w, p).Ok?
    ensures EarnVisit(u, p).Ok? && p.org in w.orgs && w.orgs[p.org].visit.Some?
    ensures var v := EarnVisit(u, p).value;
            v.users == u.users && v.orgs == u.orgs && StateOf(v, p).giftsUsed == StateOf(u, p).giftsUsed
  {
  }

  lemma {:induction false} VisitsSucceed(w: World, p: Owner, n: nat)
    requires EarnVisit(w, p).Ok?
    ensures p.org in w.orgs && w.orgs[p.org].visit.Some? && CanRun(w, VisitEach(p, n))
    ensures var ops, u := VisitEach(p, n), Run(w, VisitEach(p, n));
            && VisitsIn(w, ops, p) == n && OneProgram(w, ops, p, w.orgs[p.org].visit.value)
            && u.users == w.users && u.orgs == w.orgs && StateOf(u, p).giftsUsed == StateOf(w, p).giftsUsed
  {
    hide EarnVisit;
    VisitStands(w, w, p);
    if n > 0 {
      VisitsSucceed(w, p, n - 1);
      assert VisitEach(p, n)[..n - 1] == VisitEach(p, n - 1);
      VisitStands(w, Run(w, VisitEach(p, n - 1)), p);
    }
  }

  /** n visits in turn: the counters the client sees. */
  lemma VisitsInTurn(w: World, p: Owner, n: nat)
    requires Reachable(w) && EarnVisit(w, p).Ok?
    ensures p.org in w.orgs && w.orgs[p.org].visit.Some? && StateOf(w, p).progress >= 0
    ensures CanRun(w, VisitEach(p, n))
    ensures var a, b, program := StateOf(w, p), StateOf(Run(w, VisitEach(p, n)), p), w.orgs[p.org].visit.value;
            var g := Rewards(a.progress, n, program.target);
            && b.progress == a.progress + n - g * program.target
            && b.totalVisits == a.totalVisits + n
            && b.giftsEarned == a.giftsEarned + g * program.reward
            && b.availableGifts == a.availableGifts + g * program.reward
  {
    hide EarnVisit, Rewards;
    VisitsSucceed(w, p, n);
    RewardEveryTarget(w, p, VisitEach(p, n), w.orgs[p.org].visit.value);
    ReachableRun(w, VisitEach(p, n));
    CountersAgree(w, p);
    CountersAgree(Run(w, VisitEach(p, n)), p);
  }

  // ---- what out-of-order reversals lose ----

  /** Progress and the targets of standing threshold visits, beyond the standing visits. */
  ghost function Surplus(w: World, p: Owner): int {
    StateOf(w, p).progress + Sum(w.ledger, OpenTargets(p)) - StateOf(w, p).totalVisits
  }

  /** The step reverses a visit of `p` that gave no gift when no progress is left. */
  ghost predicate Clamps(w: World, op: Op, p: Owner)
    requires Possible(w, op)
  {
    && op.ReverseEntry? && Apply(w, op).Ok?
    && w.ledger[op.entry].owner == p && w.ledger[op.entry].kind.VisitEarn?
    && w.ledger[op.entry].kind.gifts == [] && StateOf(w, p).progress == 0
  }

  ghost function ClampsIn(w: World, ops: seq<Op>, p: Owner): nat
    requires CanRun(w, ops)
  {
    if ops == [] then 0
    else
      ClampsIn(w, ops[..|ops| - 1], p)
      + if Clamps(Run(w, ops[..|ops| - 1]), ops[|ops| - 1], p) then 1 else 0
  }

  lemma QuietSurplus(w: World, u: World, p: Owner)
    requires VisitsQuiet(w, u, p)
    ensures Surplus(u, p) == Surplus(w, p)
  {
    SumFrame(w.ledger, u.ledger, OpenTargets(p));
  }

  lemma VisitSurplus(w: World, q: Owner, p: Owner)
    requires EarnVisit(w, q).Ok?
    ensures Surplus(EarnVisit(w, q).value, p) == Surplus(w, p)
  {
    var u := EarnVisit(w, q).value;
    var visit := u.ledger[|w.ledger|];
    VisitSnoc(w.ledger, visit, p);
    NewEntriesCount(w.ledger + [visit], q, |w.gifts|, |w.ledger|, w.now, |u.gifts| - |w.gifts|, p);
  }

  lemma UndoSurplus(w: World, t: nat, p: Owner)
    requires Inv(w) && t < |w.ledger| && w.ledger[t].kind.VisitEarn? && w.ledger[t].status == COMPLETED
    requires UndoVisit(w, t).Ok?
    ensures Surplus(UndoVisit(w, t).value, p) == Surplus(w, p)
              + if w.ledger[t].owner == p && w.ledger[t].kind.gifts == [] && StateOf(w, p).progress == 0 then 1 else 0
  {
    UndoVisitState(w, t);
    var u := UndoVisit(w, t).value;
    var marked := w.ledger[t].(status := REVERSED);
    VisitUpdate(w.ledger, t, marked, p);
    VisitSnoc(w.ledger[t := marked], u.ledger[|w.ledger|], p);
  }

  lemma SurplusStep(w: World, op: Op, p: Owner)
    requires Inv(w) && Possible(w, op)
    ensures Surplus(After(w, op), p) == Surplus(w, p) + if Clamps(w, op, p) then 1 else 0
  {
    hide Inv;
    if Apply(w, op).Ok? {
      if op.Visit? {
        VisitSurplus(w, op.p, p);
      } else if op.ReverseEntry? && w.ledger[op.entry].kind.VisitEarn? {
        UndoSurplus(w, op.entry, p);
      } else if op.ReverseEntry? {
        OtherReversalsQuiet(w, op.entry, op.scope, op.force, op.reasonGiven, p);
        QuietSurplus(w, After(w, op), p);
      } else {
        if op.ConfirmRequest? {
          ConfirmQuiet(w, op.user, op.request, op.order, p);
        } else {
          OtherStepsQuiet(w, op, p);
        }
        QuietSurplus(w, After(w, op), p);
      }
    }
  }

  /** Over a whole run, progress plus the open targets exceeds the standing visits by exactly the number of
      reversals whose clamp bound. */
  lemma {:induction false} ClampsAccountForProgress(w: World, ops: seq<Op>, p: Owner)
    requires Initial(w) && CanRun(w, ops)
    ensures var u := Run(w, ops);
            StateOf(u, p).progress + Sum(u.ledger, OpenTargets(p))
            == StateOf(u, p).totalVisits + ClampsIn(w, ops, p)
  {
    if ops == [] {
      assert StateOf(w, p) == NEW_STATE;
    } else {
      var init := ops[..|ops| - 1];
      ClampsAccountForProgress(w, init, p);
      InitialInv(w);
      RunKeeps(w, init);
      SurplusStep(Run(w, init), ops[|ops| - 1], p);
    }
  }
}
