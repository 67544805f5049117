/** Sums of a row function over a table, the counterpart of the SUM and COUNT aggregates. */
module Sums {

  function Sum<T>(s: seq<T>, f: T -> int): int {
    if s == [] then 0 else Sum(s[..|s| - 1], f) + f(s[|s| - 1])
  }

  /** `n`, `n + 1`, ... : `count` consecutive row numbers. */
  function Range(first: nat, count: nat): (r: seq<nat>)
    ensures |r| == count
    ensures forall i {:trigger r[i]} :: 0 <= i < count ==> r[i] == first + i
  {
    seq(count, i requires 0 <= i => first + i)
  }

  function Min(a: int, b: int): int { if a <= b then a else b }

  function Max(a: int, b: int): int { if a <= b then b else a }

  lemma SumSnoc<T>(s: seq<T>, x: T, f: T -> int)
    ensures Sum(s + [x], f) == Sum(s, f) + f(x)
  {
    assert (s + [x])[..|s|] == s;
  }

  lemma {:induction false} SumConcat<T>(s: seq<T>, r: seq<T>, f: T -> int)
    ensures Sum(s + r, f) == Sum(s, f) + Sum(r, f)
    decreases |r|
  {
    if r == [] {
      assert s + r == s;
    } else {
      var init := r[..|r| - 1];
      SumConcat(s, init, f);
      assert (s + r)[..|s + r| - 1] == s + init;
    }
  }

  lemma {:induction false} SumUpdate<T>(s: seq<T>, i: nat, x: T, f: T -> int)
    requires i < |s|
    ensures Sum(s[i := x], f) == Sum(s, f) - f(s[i]) + f(x)
  {
    var u := s[i := x];
    var n := |s| - 1;
    if i == n {
      assert u[..n] == s[..n];
    } else {
      SumUpdate(s[..n], i, x, f);
      assert u[..n] == s[..n][i := x];
    }
  }

  /** Rows beyond the first table that count for nothing do not change the sum. */
  lemma {:induction false} SumFrame<T>(s: seq<T>, u: seq<T>, f: T -> int)
    requires |s| <= |u|
    requires forall i :: 0 <= i < |s| ==> f(u[i]) == f(s[i])
    requires forall i :: |s| <= i < |u| ==> f(u[i]) == 0
    ensures Sum(u, f) == Sum(s, f)
    decreases |u|
  {
    if |u| > |s| {
      SumFrame(s, u[..|u| - 1], f);
    } else if s != [] {
      SumFrame(s[..|s| - 1], u[..|u| - 1], f);
    }
  }

  lemma {:induction false} SumConst<T>(s: seq<T>, f: T -> int, c: int)
    requires forall i :: 0 <= i < |s| ==> f(s[i]) == c
    ensures Sum(s, f) == |s| * c
  {
    if s != [] {
      SumConst(s[..|s| - 1], f, c);
      assert |s| * c == (|s| - 1) * c + c;
    }
  }

  lemma {:induction false} SumNonNegative<T>(s: seq<T>, f: T -> int)
    requires forall i :: 0 <= i < |s| ==> f(s[i]) >= 0
    ensures Sum(s, f) >= 0
  {
    if s != [] {
      SumNonNegative(s[..|s| - 1], f);
    }
  }

  lemma {:induction false} SumAtLeast<T>(s: seq<T>, f: T -> int, i: nat)
    requires i < |s|
    requires forall k :: 0 <= k < |s| ==> f(s[k]) >= 0
    ensures Sum(s, f) >= f(s[i])
  {
    if i == |s| - 1 {
      SumNonNegative(s[..i], f);
    } else {
      SumAtLeast(s[..|s| - 1], f, i);
    }
  }

  lemma SumAtLeastTwo<T>(s: seq<T>, f: T -> int, i: nat, j: nat)
    requires i < j < |s|
    requires forall k :: 0 <= k < |s| ==> f(s[k]) >= 0
    ensures Sum(s, f) >= f(s[i]) + f(s[j])
  {
    SumConcat(s[..j], s[j..], f);
    assert s[..j] + s[j..] == s;
    SumAtLeast(s[..j], f, i);
    SumAtLeast(s[j..], f, 0);
  }

  /** A positive sum of non-negative terms has a positive term. */
  lemma {:induction false} SumWitness<T>(s: seq<T>, f: T -> int) returns (i: nat)
    requires Sum(s, f) > 0
    ensures i < |s| && f(s[i]) > 0
  {
    if f(s[|s| - 1]) > 0 {
      i := |s| - 1;
    } else {
      i := SumWitness(s[..|s| - 1], f);
    }
  }

  lemma {:induction false} SumMonotone<S, T>(s: seq<S>, u: seq<T>, f: S -> int, g: T -> int)
    requires |s| == |u| && forall i :: 0 <= i < |s| ==> f(s[i]) <= g(u[i])
    ensures Sum(s, f) <= Sum(u, g)
  {
    if s != [] {
      SumMonotone(s[..|s| - 1], u[..|u| - 1], f, g);
    }
  }

  /** Two tables that agree term by term under their own functions. */
  lemma SumAgrees<S, T>(s: seq<S>, u: seq<T>, f: S -> int, g: T -> int)
    requires |s| == |u| && forall i :: 0 <= i < |s| ==> f(s[i]) == g(u[i])
    ensures Sum(s, f) == Sum(u, g)
  {
    SumMonotone(s, u, f, g);
    SumMonotone(u, s, g, f);
  }

  /** The sum of a table of f splits as the sum of g plus the sum of h. */
  lemma {:induction false} SumSplit<T>(s: seq<T>, f: T -> int, g: T -> int, h: T -> int)
    requires forall i :: 0 <= i < |s| ==> f(s[i]) == g(s[i]) + h(s[i])
    ensures Sum(s, f) == Sum(s, g) + Sum(s, h)
  {
    if s != [] {
      SumSplit(s[..|s| - 1], f, g, h);
    }
  }

  // ---- counting ----

  function Values<T>(s: seq<T>, f: T -> int): (c: seq<int>)
    ensures |c| == |s| && forall i :: 0 <= i < |s| ==> c[i] == f(s[i])
  {
    seq(|s|, i requires 0 <= i < |s| => f(s[i]))
  }

  /** The counts with those at `ids` set to zero. */
  function Cleared(c: seq<int>, ids: seq<nat>): (r: seq<int>)
    requires forall k :: 0 <= k < |ids| ==> ids[k] < |c|
    ensures |r| == |c|
    ensures forall i :: 0 <= i < |c| ==> r[i] == if i in ids then 0 else c[i]
  {
    if ids == [] then c
    else
      var init, last := ids[..|ids| - 1], ids[|ids| - 1];
      assert forall i :: i in ids <==> i in init || i == last by { assert ids == init + [last]; }
      Cleared(c, init)[last := 0]
  }

  lemma {:induction false} ClearedSum(c: seq<int>, ids: seq<nat>)
    requires forall k :: 0 <= k < |ids| ==> ids[k] < |c| && c[ids[k]] == 1
    requires forall j, k :: 0 <= j < k < |ids| ==> ids[j] != ids[k]
    ensures Sum(Cleared(c, ids), x => x) == Sum(c, x => x) - |ids|
  {
    var id: int -> int := x => x;
    if ids != [] {
      var init, last := ids[..|ids| - 1], ids[|ids| - 1];
      ClearedSum(c, init);
      assert last !in init;
      SumUpdate(Cleared(c, init), last, 0, id);
    }
  }

  /** A count over a table in which the rows at `ids` counted one each and no longer do. */
  lemma CountFallsExactly<T>(s: seq<T>, u: seq<T>, ids: seq<nat>, f: T -> int)
    requires |s| == |u|
    requires forall k :: 0 <= k < |ids| ==> ids[k] < |s| && f(s[ids[k]]) == 1
    requires forall j, k :: 0 <= j < k < |ids| ==> ids[j] != ids[k]
    requires forall i :: 0 <= i < |s| ==> f(u[i]) == if i in ids then 0 else f(s[i])
    ensures Sum(u, f) == Sum(s, f) - |ids|
  {
    var c, id: int -> int := Values(s, f), x => x;
    SumAgrees(s, c, f, id);
    ClearedSum(c, ids);
    SumAgrees(u, Cleared(c, ids), f, id);
  }

  /** A count over a table `u` grown from `s`, where the rows at `ids` counted one each and no longer do, no other row
      counts for more than before and no new one counts. */
  lemma CountFalls<T>(s: seq<T>, u: seq<T>, ids: seq<nat>, f: T -> int)
    requires |s| <= |u|
    requires forall k :: 0 <= k < |ids| ==> ids[k] < |s| && f(s[ids[k]]) == 1
    requires forall j, k :: 0 <= j < k < |ids| ==> ids[j] != ids[k]
    requires forall i :: 0 <= i < |s| ==> f(u[i]) <= if i in ids then 0 else f(s[i])
    requires forall i :: |s| <= i < |u| ==> f(u[i]) == 0
    ensures Sum(u, f) <= Sum(s, f) - |ids|
  {
    var c, id: int -> int := Values(s, f), x => x;
    SumAgrees(s, c, f, id);
    ClearedSum(c, ids);
    SumMonotone(u[..|s|], Cleared(c, ids), f, id);
    SumFrame(u[..|s|], u, f);
  }
}
