/** Purchases without a spend, one after another. */
module PurchaseRuns {
  import opened Rows
  import opened Money
  import opened Cashback
  import opened Machine

  function BuyEach(p: Owner, totals: seq<nat>): (ops: seq<Op>)
    ensures |ops| == |totals|
  {
    seq(|totals|, k requires 0 <= k < |totals| => Buy(p, totals[k]))
  }

  /** A booked purchase earns the program's rate and changes neither the client nor the program. */
  lemma BuyOnce(w: World, p: Owner, total: int)
    requires EarnOnly(w, p, total).Ok?
    ensures p.org in w.orgs && w.orgs[p.org].cashback.Some?
    ensures var u, earn := EarnOnly(w, p, total).value, ApplyBps(total, w.orgs[p.org].cashback.value.rate);
            var a := StateOf(w, p);
            && u.users == w.users && u.orgs == w.orgs
            && StateOf(u, p) == a.(available := a.available + earn, earned := a.earned + earn)
  {
    if p.org in w.orgs && total > 0 && w.orgs[p.org].cashback.Some? {
      ApplyBpsAtMost(total, w.orgs[p.org].cashback.value.rate);
    }
  }

  /** The verdict on a purchase depends on the client and the program only. */
  lemma SameVerdict(w: World, u: World, p: Owner, total: int)
    requires u.users == w.users && u.orgs == w.orgs
    ensures EarnOnly(u, p, total).Ok? <==> EarnOnly(w, p, total).Ok?
  {
    hide Available, ApplyBps;
  }

  lemma {:induction false} BoughtInTurn(w: World, p: Owner, totals: seq<nat>)
    requires p.org in w.orgs && w.orgs[p.org].cashback.Some?
    requires forall k :: 0 <= k < |totals| ==> EarnOnly(w, p, totals[k]).Ok?
    ensures CanRun(w, BuyEach(p, totals))
    ensures var u, a := Run(w, BuyEach(p, totals)), StateOf(w, p);
            var earned := EarnedInTurn(totals, w.orgs[p.org].cashback.value.rate);
            && u.users == w.users && u.orgs == w.orgs
            && StateOf(u, p) == a.(available := a.available + earned, earned := a.earned + earned)
  {
    hide EarnOnly;
    var ops := BuyEach(p, totals);
    if totals != [] {
      var n := |totals| - 1;
      BoughtInTurn(w, p, totals[..n]);
      assert ops[..n] == BuyEach(p, totals[..n]);
      assert ops[n] == Buy(p, totals[n]);
      SameVerdict(w, Run(w, ops[..n]), p, totals[n]);
      BuyOnce(Run(w, ops[..n]), p, totals[n]);
    }
  }

  /** n purchases in turn, each of which the program books, earn at most what one purchase of their total would,
      and less than n tiyin below it. */
  lemma SplitPurchases(w: World, p: Owner, totals: seq<nat>)
    requires totals != [] && forall k :: 0 <= k < |totals| ==> EarnOnly(w, p, totals[k]).Ok?
    ensures CanRun(w, BuyEach(p, totals)) && EarnOnly(w, p, Total(totals)).Ok?
    ensures var split := StateOf(Run(w, BuyEach(p, totals)), p).available - StateOf(w, p).available;
            var once := StateOf(EarnOnly(w, p, Total(totals)).value, p).available - StateOf(w, p).available;
            split <= once < split + |totals|
  {
    BuyOnce(w, p, totals[0]);
    BoughtInTurn(w, p, totals);
    TotalCovers(totals);
    assert EarnOnly(w, p, Total(totals)).Ok? by { hide Available, ApplyBps; }
    BuyOnce(w, p, Total(totals));
    SplitPurchaseLoss(totals, w.orgs[p.org].cashback.value.rate);
  }

  lemma {:induction false} TotalCovers(totals: seq<nat>)
    requires totals != []
    ensures totals[0] <= Total(totals)
  {
    if |totals| > 1 {
      TotalCovers(totals[..|totals| - 1]);
    }
  }
}
