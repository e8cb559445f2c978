/** Finding the transactions of a block that seem to be out of fee-rate order. */
module Prioritization {
  import opened Graph

  datatype BlockTx = BlockTx(txid: Txid, rate: real)

  /** Positions of a subsequence whose rates do not fall. */
  ghost predicate Rising(X: seq<BlockTx>, s: seq<nat>) {
    && (forall j | 0 <= j < |s| :: s[j] < |X|)
    && (forall j, k | 0 <= j < k < |s| :: s[j] < s[k] && X[s[j]].rate <= X[s[k]].rate)
  }

  /** A rising subsequence of the first `i` transactions. */
  ghost predicate RisingIn(X: seq<BlockTx>, i: nat, s: seq<nat>) {
    Rising(X, s) && (s != [] ==> s[|s| - 1] < i)
  }

  /** No longer one exists. */
  ghost predicate Longest(X: seq<BlockTx>, s: seq<nat>) {
    Rising(X, s) && forall t: seq<nat> | Rising(X, t) :: |t| <= |s|
  }

  /** `M[l]` ends a rising subsequence of length `l` as low as any does, and none is longer than `L`. */
  ghost predicate BestEnds(X: seq<BlockTx>, i: nat, M: seq<int>, L: nat)
    requires L < |M|
  {
    forall s: seq<nat> | RisingIn(X, i, s) && s != [] ::
      |s| <= L && 0 <= M[|s|] < |X| && X[M[|s|]].rate <= X[s[|s| - 1]].rate
  }

  ghost predicate EndsRise(X: seq<BlockTx>, i: nat, M: seq<int>, L: nat)
    requires L < |M|
  {
    && (forall l | 1 <= l <= L :: 0 <= M[l] < i && M[l] < |X|)
    && (forall l, m | 1 <= l <= m <= L :: X[M[l]].rate <= X[M[m]].rate)
  }

  predicate Before(P: seq<int>, s: seq<nat>, j: nat)
    requires 0 < j < |s| && s[j] < |P|
  {
    P[s[j]] == s[j - 1]
  }

  /** Following `P` from the last position of `s` visits `s` backwards. */
  ghost predicate Linked(P: seq<int>, s: seq<nat>) {
    && (forall j | 0 <= j < |s| :: s[j] < |P|)
    && (forall j | 0 < j < |s| :: Before(P, s, j))
  }

  /** For every length up to `L`, the subsequence that ends at `M[l]`. */
  ghost predicate Chains(X: seq<BlockTx>, i: nat, P: seq<int>, M: seq<int>, L: nat, chains: seq<seq<nat>>)
    requires L < |M|
  {
    && |chains| == L + 1
    && chains[0] == []
    && forall l | 1 <= l <= L :: ChainTo(X, i, P, chains[l], l, M[l])
  }

  /** A rising subsequence of length `l` that ends at `last` and that `P` links. */
  ghost predicate ChainTo(X: seq<BlockTx>, i: nat, P: seq<int>, s: seq<nat>, l: nat, last: int) {
    |s| == l > 0 && RisingIn(X, i, s) && Linked(P, s) && s[l - 1] == last
  }

  /** The last position splits off. */
  lemma RisingFront(X: seq<BlockTx>, s: seq<nat>)
    requires Rising(X, s) && s != []
    ensures RisingIn(X, s[|s| - 1], s[..|s| - 1])
    ensures |s| > 1 ==> X[s[|s| - 2]].rate <= X[s[|s| - 1]].rate
  {
  }

  /** Placing position `i` at the first length whose end is above it keeps every end lowest. */
  lemma BestEndsNext(X: seq<BlockTx>, i: nat, M: seq<int>, L: nat, newL: nat)
    requires i < |X| && L < |M| && 1 <= newL <= L + 1 && newL < |M|
    requires BestEnds(X, i, M, L) && EndsRise(X, i, M, L)
    requires forall l | 1 <= l < newL :: X[M[l]].rate <= X[i].rate
    requires newL <= L ==> X[i].rate < X[M[newL]].rate
    ensures BestEnds(X, i + 1, M[newL := i], if newL > L then newL else L)
  {
    var L' := if newL > L then newL else L;
    forall s: seq<nat> | RisingIn(X, i + 1, s) && s != []
      ensures |s| <= L' && 0 <= M[newL := i][|s|] < |X| && X[M[newL := i][|s|]].rate <= X[s[|s| - 1]].rate
    {
      if s[|s| - 1] < i {
        assert RisingIn(X, i, s);
      } else {
        RisingFront(X, s);
        var front := s[..|s| - 1];
        if front != [] {
          assert RisingIn(X, i, front);
          assert front[|front| - 1] == s[|s| - 2];
        }
      }
    }
  }

  lemma ChainsNext(X: seq<BlockTx>, i: nat, P: seq<int>, M: seq<int>, L: nat, chains: seq<seq<nat>>, newL: nat)
    returns (next: seq<seq<nat>>)
    requires i < |X| && |P| == |X| && L < |M| && 1 <= newL <= L + 1 && newL < |M|
    requires Chains(X, i, P, M, L, chains)
    requires EndsRise(X, i, M, L) && forall l | 1 <= l < newL :: X[M[l]].rate <= X[i].rate
    ensures Chains(X, i + 1, P[i := M[newL - 1]], M[newL := i], if newL > L then newL else L, next)
  {
    hide ChainTo, Rising;
    var chain := chains[newL - 1] + [i];
    next := if newL > L then chains + [chain] else chains[newL := chain];
    var P' := P[i := M[newL - 1]];
    ChainMore(X, i, P, chains[newL - 1], newL - 1, M[newL - 1]);
    forall l | 1 <= l <= L ensures ChainTo(X, i + 1, P', chains[l], l, M[l]) {
      ChainOlder(X, i, P, chains[l], l, M[l], M[newL - 1]);
    }
  }

  lemma ChainOlder(X: seq<BlockTx>, i: nat, P: seq<int>, s: seq<nat>, l: nat, last: int, p: int)
    requires i < |P| && ChainTo(X, i, P, s, l, last)
    ensures ChainTo(X, i + 1, P[i := p], s, l, last)
  {
    LinkedOlder(X, i, P, s, p);
    hide Linked;
  }

  lemma LinkedOlder(X: seq<BlockTx>, i: nat, P: seq<int>, s: seq<nat>, p: int)
    requires i < |P| && Linked(P, s) && RisingIn(X, i, s)
    ensures Linked(P[i := p], s) && RisingIn(X, i + 1, s)
  {
    var P' := P[i := p];
    forall j | 0 < j < |s| ensures Before(P', s, j) {
      assert s[j] <= s[|s| - 1];
      assert Before(P, s, j);
    }
  }

  lemma ChainMore(X: seq<BlockTx>, i: nat, P: seq<int>, s: seq<nat>, l: nat, p: int)
    requires i < |X| == |P| && (l == 0 ==> s == []) && (l > 0 ==> ChainTo(X, i, P, s, l, p) && 0 <= p < |X| && X[p].rate <= X[i].rate)
    ensures ChainTo(X, i + 1, P[i := p], s + [i], l + 1, i)
  {
    LinkedOlder(X, i, P, s, p);
    var all := s + [i];
    var P' := P[i := p];
    forall j | 0 < j < |all| ensures Before(P', all, j) {
      if j < |s| {
        assert Before(P', s, j);
      }
    }
  }

  lemma EndsRiseNext(X: seq<BlockTx>, i: nat, M: seq<int>, L: nat, newL: nat)
    requires i < |X| && L < |M| && 1 <= newL <= L + 1 && newL < |M| && EndsRise(X, i, M, L)
    requires forall l | 1 <= l < newL :: X[M[l]].rate <= X[i].rate
    requires newL <= L ==> X[i].rate < X[M[newL]].rate
    ensures EndsRise(X, i + 1, M[newL := i], if newL > L then newL else L)
  {
  }

  // ---------- telling prioritized from deprioritized

  /** Rate of the last transaction before position `i` that is in order. */
  function LastRate(X: seq<BlockTx>, inOrder: set<Txid>, i: nat): real
    requires i <= |X| && X != []
  {
    if i == 0 then X[0].rate else if X[i - 1].txid in inOrder then X[i - 1].rate else LastRate(X, inOrder, i - 1)
  }

  /** Out of order, by a tenth or more. */
  predicate Off(X: seq<BlockTx>, inOrder: set<Txid>, i: nat)
    requires i < |X|
  {
    var gap := X[i].rate - LastRate(X, inOrder, i);
    X[i].txid !in inOrder && !(-0.1 < gap < 0.1)
  }

  predicate Lifted(X: seq<BlockTx>, inOrder: set<Txid>, i: nat)
    requires i < |X|
  {
    Off(X, inOrder, i) && X[i].rate <= LastRate(X, inOrder, i)
  }

  predicate Held(X: seq<BlockTx>, inOrder: set<Txid>, i: nat)
    requires i < |X|
  {
    Off(X, inOrder, i) && X[i].rate > LastRate(X, inOrder, i)
  }

  function IdsAt(X: seq<BlockTx>, s: seq<nat>): set<Txid>
    requires forall j | 0 <= j < |s| :: s[j] < |X|
  {
    set j | 0 <= j < |s| :: X[s[j]].txid
  }

  /** How many of the first `i` transactions are named by `ids`. */
  function Count(X: seq<BlockTx>, ids: set<Txid>, i: nat): nat
    requires i <= |X|
  {
    if i == 0 then 0 else Count(X, ids, i - 1) + if X[i - 1].txid in ids then 1 else 0
  }

  lemma {:induction false} RisingCounts(X: seq<BlockTx>, ids: set<Txid>, i: nat, s: seq<nat>)
    requires i <= |X| && RisingIn(X, i, s) && forall j | 0 <= j < |s| :: X[s[j]].txid in ids
    ensures |s| <= Count(X, ids, i)
  {
    if s != [] {
      if s[|s| - 1] == i - 1 {
        RisingFront(X, s);
        RisingCounts(X, ids, i - 1, s[..|s| - 1]);
      } else {
        RisingCounts(X, ids, i - 1, s);
      }
    }
  }

  /** All positions of a block without a falling rate rise together. */
  lemma SortedRises(X: seq<BlockTx>) returns (s: seq<nat>)
    requires forall j, k | 0 <= j < k < |X| :: X[j].rate <= X[k].rate
    ensures Rising(X, s) && |s| == |X|
  {
    s := seq(|X|, j => j);
  }

  /** The block without its coinbase, from its last transaction to its first. */
  function Reversed(transactions: seq<BlockTx>): (X: seq<BlockTx>)
    ensures transactions != [] ==> |X| == |transactions| - 1 && forall i | 0 <= i < |X| :: X[i] == transactions[|transactions| - 1 - i]
  {
    if transactions == [] then []
    else seq(|transactions| - 1, i requires 0 <= i < |transactions| - 1 => transactions[|transactions| - 1 - i])
  }

  method BinarySearch(X: seq<BlockTx>, i: nat, M: array<int>, L: nat) returns (lo: nat)
    requires i < |X| && L < M.Length && EndsRise(X, i, M[..], L)
    ensures 1 <= lo <= L + 1
    ensures forall l | 1 <= l < lo :: X[M[l]].rate <= X[i].rate
    ensures lo <= L ==> X[i].rate < X[M[lo]].rate
  {
    lo := 1;
    var hi := L + 1;
    assert forall l | 1 <= l <= L :: M[..][l] == M[l];
    while lo < hi
      invariant 1 <= lo <= hi <= L + 1
      invariant forall l | 1 <= l < lo :: X[M[l]].rate <= X[i].rate
      invariant hi <= L ==> X[i].rate < X[M[hi]].rate
    {
      var mid := lo + (hi - lo) / 2;
      if X[M[mid]].rate > X[i].rate {
        hi := mid;
      } else {
        lo := mid + 1;
      }
    }
  }

  /** What the search knows after the first `i` transactions. */
  ghost predicate Searched(X: seq<BlockTx>, i: nat, P: seq<int>, M: seq<int>, L: nat, chains: seq<seq<nat>>) {
    && |P| == |X| && |M| == |X| + 1 && L <= i <= |X|
    && EndsRise(X, i, M, L) && BestEnds(X, i, M, L) && Chains(X, i, P, M, L, chains)
  }

  lemma SearchStart(X: seq<BlockTx>, P: seq<int>, M: seq<int>)
    requires |P| == |X| && |M| == |X| + 1
    ensures Searched(X, 0, P, M, 0, [[]])
  {
  }

  lemma SearchNext(X: seq<BlockTx>, i: nat, P: seq<int>, M: seq<int>, L: nat, chains: seq<seq<nat>>, newL: nat) returns (next: seq<seq<nat>>)
    requires i < |X| && Searched(X, i, P, M, L, chains) && 1 <= newL <= L + 1
    requires forall l | 1 <= l < newL :: X[M[l]].rate <= X[i].rate
    requires newL <= L ==> X[i].rate < X[M[newL]].rate
    ensures Searched(X, i + 1, P[i := M[newL - 1]], M[newL := i], if newL > L then newL else L, next)
  {
    BestEndsNext(X, i, M, L, newL);
    EndsRiseNext(X, i, M, L, newL);
    next := ChainsNext(X, i, P, M, L, chains, newL);
    hide EndsRise, BestEnds, Chains;
  }

  /** At the end, the chain from `M[L]` is a longest rising subsequence. */
  lemma SearchEnd(X: seq<BlockTx>, P: seq<int>, M: seq<int>, L: nat, chains: seq<seq<nat>>) returns (chain: seq<nat>)
    requires X != [] && Searched(X, |X|, P, M, L, chains)
    ensures Longest(X, chain) && |chain| == L && Linked(P, chain)
    ensures L > 0 && M[L] == chain[L - 1]
  {
    chain := chains[L];
    assert RisingIn(X, |X|, [0]);
    forall t: seq<nat> | Rising(X, t) ensures |t| <= L {
      if t != [] {
        assert RisingIn(X, |X|, t);
      }
    }
  }

  /** The positions of a longest subsequence with rising rates. */
  method LongestRising(X: seq<BlockTx>) returns (lis: seq<nat>)
    requires X != []
    ensures Longest(X, lis)
  {
    hide EndsRise, BestEnds, Chains, Longest, Rising;
    var N := |X|;
    var P := new int[N];
    var M := new int[N + 1];
    M[0] := -1;
    var L := 0;
    ghost var chains: seq<seq<nat>> := [[]];
    SearchStart(X, P[..], M[..]);
    for i := 0 to N
      invariant Searched(X, i, P[..], M[..], L, chains)
    {
      var newL := BinarySearch(X, i, M, L);
      assert forall l | 0 <= l <= N :: M[..][l] == M[l];
      ghost var P', M' := P[..][i := M[newL - 1]], M[..][newL := i];
      chains := SearchNext(X, i, P[..], M[..], L, chains, newL);
      P[i] := M[newL - 1];
      M[newL] := i;
      assert P[..] == P' && M[..] == M';
      if newL > L {
        L := newL;
      }
    }
    ghost var chain := SearchEnd(X, P[..], M[..], L, chains);
    lis := Reconstruct(P, M[L], L, chain);
  }

  method Reconstruct(P: array<int>, last: int, L: nat, ghost chain: seq<nat>) returns (lis: seq<nat>)
    requires |chain| == L > 0 && Linked(P[..], chain) && last == chain[L - 1]
    ensures lis == chain
  {
    var LIS := new nat[L];
    var k := last;
    for j := L downto 0
      invariant j > 0 ==> k == chain[j - 1]
      invariant forall m | j <= m < L :: LIS[m] == chain[m]
    {
      LIS[j] := k;
      if j > 0 {
        assert Before(P[..], chain, j);
      }
      k := P[k];
    }
    lis := LIS[..];
  }

  /** The named transactions out of order, in block order from the end, as `prioritized` and `deprioritized`. */
  function Picked(X: seq<BlockTx>, inOrder: set<Txid>, i: nat, lifted: bool): seq<Txid>
    requires i <= |X|
  {
    if i == 0 then []
    else Picked(X, inOrder, i - 1, lifted) + if (if lifted then Lifted(X, inOrder, i - 1) else Held(X, inOrder, i - 1)) then [X[i - 1].txid] else []
  }

  /** What the split of a block promises; `lis` is a longest run in order. */
  ghost predicate IsSplit(X: seq<BlockTx>, lis: seq<nat>, prioritized: seq<Txid>, deprioritized: seq<Txid>) {
    && Longest(X, lis)
    && prioritized == Picked(X, IdsAt(X, lis), |X|, true)
    && deprioritized == Picked(X, IdsAt(X, lis), |X|, false)
  }

  method IdentifyPrioritizedTransactions(transactions: seq<BlockTx>)
    returns (prioritized: seq<Txid>, deprioritized: seq<Txid>, ghost lis: seq<nat>)
    ensures |transactions| < 3 ==> prioritized == deprioritized == []
    ensures |transactions| >= 3 ==> IsSplit(Reversed(transactions), lis, prioritized, deprioritized)
    ensures |transactions| >= 3 ==> forall t ::
              var X := Reversed(transactions);
              && (t in prioritized <==> exists i: nat :: OffBelow(X, lis, i, t))
              && (t in deprioritized <==> exists i: nat :: OffAbove(X, lis, i, t))
  {
    prioritized, deprioritized, lis := [], [], [];
    var X := Reversed(transactions);
    if |X| < 2 {
      return;
    }
    var LIS := LongestRising(X);
    lis := LIS;
    var lisIds: set<Txid> := {};
    for j := 0 to |LIS|
      invariant lisIds == IdsAt(X, LIS[..j])
    {
      lisIds := lisIds + {X[LIS[j]].txid};
    }
    assert LIS[..|LIS|] == LIS;
    var lastRate := X[0].rate;
    for i := 0 to |X|
      invariant lastRate == LastRate(X, lisIds, i)
      invariant prioritized == Picked(X, lisIds, i, true) && deprioritized == Picked(X, lisIds, i, false)
    {
      var tx := X[i];
      if tx.txid in lisIds {
        lastRate := tx.rate;
      } else if -0.1 < tx.rate - lastRate < 0.1 {
      } else if tx.rate <= lastRate {
        prioritized := prioritized + [tx.txid];
      } else {
        deprioritized := deprioritized + [tx.txid];
      }
    }
    SplitMeans(X, lis, prioritized, deprioritized);
  }

  /** Transaction `t` at position `i` is not named by the run. */
  ghost predicate OutOfRun(X: seq<BlockTx>, lis: seq<nat>, i: nat, t: Txid) {
    i < |X| && X[i].txid == t && forall j | 0 <= j < |lis| && lis[j] < |X| :: X[lis[j]].txid != t
  }

  /** The rate of the run when it comes to position `i`: that of the last transaction before it that the
      run names, or else of the first transaction. */
  ghost predicate RunRate(X: seq<BlockTx>, lis: seq<nat>, i: nat, rate: real) {
    && i < |X| && Rising(X, lis)
    && ((exists k | 0 <= k < i :: X[k].txid in IdsAt(X, lis) && rate == X[k].rate && forall m | k < m < i :: X[m].txid !in IdsAt(X, lis))
        || (rate == X[0].rate && forall m | 0 <= m < i :: X[m].txid !in IdsAt(X, lis)))
  }

  lemma {:induction false} LastRateIs(X: seq<BlockTx>, lis: seq<nat>, i: nat)
    requires i < |X| && Rising(X, lis)
    ensures forall rate :: RunRate(X, lis, i, rate) <==> rate == LastRate(X, IdsAt(X, lis), i)
  {
    hide IdsAt;
    if i > 0 {
      LastRateIs(X, lis, i - 1);
      forall rate ensures RunRate(X, lis, i, rate) <==> rate == LastRate(X, IdsAt(X, lis), i) {
        RateStep(X, lis, i, rate);
      }
    }
  }

  lemma RateStep(X: seq<BlockTx>, lis: seq<nat>, i: nat, rate: real)
    requires 0 < i < |X| && Rising(X, lis)
    ensures RunRate(X, lis, i, rate) <==> if X[i - 1].txid in IdsAt(X, lis) then rate == X[i - 1].rate else RunRate(X, lis, i - 1, rate)
  {
    hide IdsAt;
    if X[i - 1].txid in IdsAt(X, lis) {
      if RunRate(X, lis, i, rate) {
        assert !forall m | 0 <= m < i :: X[m].txid !in IdsAt(X, lis);
      }
    } else if RunRate(X, lis, i - 1, rate) && !forall m | 0 <= m < i - 1 :: X[m].txid !in IdsAt(X, lis) {
      var k :| 0 <= k < i - 1 && X[k].txid in IdsAt(X, lis) && rate == X[k].rate && forall m | k < m < i - 1 :: X[m].txid !in IdsAt(X, lis);
      assert forall m | k < m < i :: X[m].txid !in IdsAt(X, lis);
    }
  }

  /** At position `i`, outside the run, `t` pays less than the run by a tenth or more. */
  ghost predicate OffBelow(X: seq<BlockTx>, lis: seq<nat>, i: nat, t: Txid) {
    OutOfRun(X, lis, i, t) && exists rate :: RunRate(X, lis, i, rate) && X[i].rate <= rate - 0.1
  }

  ghost predicate OffAbove(X: seq<BlockTx>, lis: seq<nat>, i: nat, t: Txid) {
    OutOfRun(X, lis, i, t) && exists rate :: RunRate(X, lis, i, rate) && X[i].rate >= rate + 0.1
  }

  lemma OffMeans(X: seq<BlockTx>, lis: seq<nat>, i: nat, t: Txid)
    requires i < |X| && Rising(X, lis)
    ensures OffBelow(X, lis, i, t) <==> X[i].txid == t && Lifted(X, IdsAt(X, lis), i)
    ensures OffAbove(X, lis, i, t) <==> X[i].txid == t && Held(X, IdsAt(X, lis), i)
  {
    hide RunRate, LastRate;
    LastRateIs(X, lis, i);
    assert RunRate(X, lis, i, LastRate(X, IdsAt(X, lis), i));
  }

  lemma SplitMeans(X: seq<BlockTx>, lis: seq<nat>, prioritized: seq<Txid>, deprioritized: seq<Txid>)
    requires IsSplit(X, lis, prioritized, deprioritized)
    ensures forall t ::
              && (t in prioritized <==> exists i: nat :: OffBelow(X, lis, i, t))
              && (t in deprioritized <==> exists i: nat :: OffAbove(X, lis, i, t))
  {
    hide Longest, OffBelow, OffAbove, Lifted, Held;
    LongestRises(X, lis);
    var ids := IdsAt(X, lis);
    forall t
      ensures t in prioritized <==> exists i: nat :: OffBelow(X, lis, i, t)
      ensures t in deprioritized <==> exists i: nat :: OffAbove(X, lis, i, t)
    {
      PickedMeans(X, ids, |X|, true, t);
      PickedMeans(X, ids, |X|, false, t);
      forall i: nat
        ensures OffBelow(X, lis, i, t) <==> i < |X| && X[i].txid == t && Lifted(X, ids, i)
        ensures OffAbove(X, lis, i, t) <==> i < |X| && X[i].txid == t && Held(X, ids, i)
      {
        if i < |X| {
          OffMeans(X, lis, i, t);
        } else {
          OffInside(X, lis, i, t);
        }
      }
    }
  }

  lemma OffInside(X: seq<BlockTx>, lis: seq<nat>, i: nat, t: Txid)
    ensures OffBelow(X, lis, i, t) || OffAbove(X, lis, i, t) ==> i < |X|
  {
  }

  lemma LongestRises(X: seq<BlockTx>, lis: seq<nat>)
    requires Longest(X, lis)
    ensures Rising(X, lis)
  {
  }

  /** The split names exactly the transactions that are off by a tenth or more, by the side they are off. */
  lemma {:induction false} PickedMeans(X: seq<BlockTx>, inOrder: set<Txid>, n: nat, lifted: bool, t: Txid)
    requires n <= |X|
    ensures t in Picked(X, inOrder, n, lifted) <==>
            exists i | 0 <= i < n :: X[i].txid == t && if lifted then Lifted(X, inOrder, i) else Held(X, inOrder, i)
  {
    if n > 0 {
      PickedMeans(X, inOrder, n - 1, lifted, t);
    }
  }

  lemma {:induction false} PickedCount(X: seq<BlockTx>, inOrder: set<Txid>, n: nat)
    requires n <= |X|
    ensures |Picked(X, inOrder, n, true)| + |Picked(X, inOrder, n, false)| + Count(X, inOrder, n) <= n
  {
    if n > 0 {
      PickedCount(X, inOrder, n - 1);
    }
  }

  /** No more transactions are named than a longest run in order leaves out. */
  lemma SplitBound(X: seq<BlockTx>, lis: seq<nat>, prioritized: seq<Txid>, deprioritized: seq<Txid>)
    requires IsSplit(X, lis, prioritized, deprioritized)
    ensures |prioritized| + |deprioritized| <= |X| - |lis|
    ensures forall s: seq<nat> | Rising(X, s) :: |prioritized| + |deprioritized| <= |X| - |s|
  {
    assert RisingIn(X, |X|, lis);
    RisingCounts(X, IdsAt(X, lis), |X|, lis);
    PickedCount(X, IdsAt(X, lis), |X|);
  }

  lemma {:induction false} PickedOnce(X: seq<BlockTx>, inOrder: set<Txid>, n: nat, lifted: bool)
    requires n <= |X| && forall i, j | 0 <= i < j < |X| :: X[i].txid != X[j].txid
    ensures Distinct(Picked(X, inOrder, n, lifted))
  {
    if n > 0 {
      PickedOnce(X, inOrder, n - 1, lifted);
      PickedMeans(X, inOrder, n - 1, lifted, X[n - 1].txid);
    }
  }

  /** With distinct transactions, none is named twice and none of the longest run is named. */
  lemma SplitDisjoint(X: seq<BlockTx>, lis: seq<nat>, prioritized: seq<Txid>, deprioritized: seq<Txid>, t: Txid)
    requires IsSplit(X, lis, prioritized, deprioritized)
    requires forall i, j | 0 <= i < j < |X| :: X[i].txid != X[j].txid
    ensures !(t in prioritized && t in deprioritized)
    ensures t in IdsAt(X, lis) ==> t !in prioritized && t !in deprioritized
    ensures Distinct(prioritized) && Distinct(deprioritized)
  {
    var ids := IdsAt(X, lis);
    PickedOnce(X, ids, |X|, true);
    PickedOnce(X, ids, |X|, false);
    PickedMeans(X, ids, |X|, true, t);
    PickedMeans(X, ids, |X|, false, t);
  }

  /** A block in fee-rate order has nothing to name. */
  lemma SplitSorted(X: seq<BlockTx>, lis: seq<nat>, prioritized: seq<Txid>, deprioritized: seq<Txid>)
    requires IsSplit(X, lis, prioritized, deprioritized)
    requires forall j, k | 0 <= j < k < |X| :: X[j].rate <= X[k].rate
    ensures prioritized == [] && deprioritized == []
  {
    var s := SortedRises(X);
    SplitBound(X, lis, prioritized, deprioritized);
  }
}
