/** A block template from a fixed list of candidates, by greedy choice of ancestor packages. */
module MiniMiner {
  import opened Options
  import opened Feerate
  import opened Graph
  import opened SetSize
  import opened AuditPool
  import Kahn
  import opened Extraction

  // ---------- what a package is

  /** Fee of `x` with its ancestors that are not placed yet; likewise for other amounts. */
  ghost function PackageTotal(m: map<Txid, int>, anc0: Relatives, placed: set<Txid>, x: Txid): int {
    At(m, x) + SumSet(m, Of(anc0, x) - placed)
  }

  /** A transaction with its unplaced ancestors, ancestors first. */
  ghost predicate IsPackage(anc0: Relatives, placed: set<Txid>, package: seq<Txid>) {
    && package != [] && Distinct(package)
    && var root := package[|package| - 1];
       && root !in placed && Elems(package) == Of(anc0, root) - placed + {root}
       && forall i, j | 0 <= i <= j < |package| :: package[j] !in Of(anc0, package[i])
  }

  /** No candidate has a higher ancestor feerate than the root of the package. */
  ghost predicate Best(c: Candidates, anc0: Relatives, placed: set<Txid>, among: set<Txid>, root: Txid) {
    forall u | u in among ::
      !Higher(PackageTotal(c.fee, anc0, placed, u), PackageTotal(c.size, anc0, placed, u),
              PackageTotal(c.fee, anc0, placed, root), PackageTotal(c.size, anc0, placed, root))
  }

  function Placed(packages: seq<seq<Txid>>): set<Txid> {
    set p, x | p in packages && x in p :: x
  }

  function Backwards(s: seq<Txid>): seq<Txid> {
    seq(|s|, i requires 0 <= i < |s| => s[|s| - 1 - i])
  }

  /** The transactions of all packages, in the order they are added: each package from its root down. */
  function Output(packages: seq<seq<Txid>>): seq<Txid> {
    if packages == [] then [] else Output(packages[..|packages| - 1]) + Backwards(packages[|packages| - 1])
  }

  /** Every package is one when its turn comes. */
  ghost predicate Packaged(anc0: Relatives, packages: seq<seq<Txid>>) {
    forall k | 0 <= k < |packages| :: IsPackage(anc0, Placed(packages[..k]), packages[k])
  }

  /** With one block there is no limit. */
  datatype Limits = Limits(maxBlocks: int, weight: Option<int>, sigops: Option<int>)

  /** After the packages `done`, the package of `x` is within the limits. */
  ghost predicate HasRoom(c: Candidates, anc0: Relatives, l: Limits, done: seq<seq<Txid>>, x: Txid) {
    var placed := Placed(done);
    || l.maxBlocks <= 1
    || ((l.weight.None? || SumSet(c.weight, placed) + 4 * PackageTotal(c.size, anc0, placed, x) < l.weight.value)
        && (l.sigops.None? || SumSet(c.sigops, placed) + PackageTotal(c.sigops, anc0, placed, x) <= l.sigops.value))
  }

  /** At some time so far there was no room for the package of `x`. */
  ghost predicate Refused(c: Candidates, anc0: Relatives, l: Limits, done: seq<seq<Txid>>, x: Txid) {
    exists j: nat | j <= |done| :: !HasRoom(c, anc0, l, done[..j], x)
  }

  /** Unplaced candidates whose package always had room. */
  ghost function Offered(c: Candidates, anc0: Relatives, l: Limits, done: seq<seq<Txid>>): set<Txid> {
    set u | u in c.Keys() && u !in Placed(done) && !Refused(c, anc0, l, done, u)
  }

  /** When its turn comes, every package has room and is a best one of those that always had. */
  ghost predicate Greedy(c: Candidates, anc0: Relatives, l: Limits, packages: seq<seq<Txid>>) {
    forall k | 0 <= k < |packages| && packages[k] != [] ::
      var done, root := packages[..k], packages[k][|packages[k]| - 1];
      HasRoom(c, anc0, l, done, root) && Best(c, anc0, Placed(done), Offered(c, anc0, l, done), root)
  }

  /** With one block, every unplaced candidate is offered. */
  lemma OneBlockOffersAll(c: Candidates, anc0: Relatives, l: Limits, done: seq<seq<Txid>>)
    requires l.maxBlocks <= 1
    ensures Offered(c, anc0, l, done) == c.Keys() - Placed(done)
  {
  }

  lemma RefusedStays(c: Candidates, anc0: Relatives, l: Limits, done: seq<seq<Txid>>, package: seq<Txid>, x: Txid)
    requires Refused(c, anc0, l, done, x)
    ensures Refused(c, anc0, l, done + [package], x)
  {
    hide HasRoom;
    var j: nat :| j <= |done| && !HasRoom(c, anc0, l, done[..j], x);
    assert (done + [package])[..j] == done[..j];
  }

  lemma RefusedNow(c: Candidates, anc0: Relatives, l: Limits, done: seq<seq<Txid>>, x: Txid)
    requires !HasRoom(c, anc0, l, done, x)
    ensures Refused(c, anc0, l, done, x)
  {
    hide HasRoom;
    assert done[..|done|] == done;
  }

  /** At some time there was no room for any of the candidates that are not placed. */
  ghost predicate AllRefused(c: Candidates, anc0: Relatives, l: Limits, packages: seq<seq<Txid>>) {
    forall u | u in c.Keys() && u !in Placed(packages) :: Refused(c, anc0, l, packages, u)
  }

  /** What was taken is placed, or there was no room for it. */
  ghost predicate AsideRefused(c: Candidates, anc0: Relatives, l: Limits, packages: seq<seq<Txid>>, used: set<Txid>, aside: set<Txid>) {
    forall x | x in aside :: x in used || Refused(c, anc0, l, packages, x)
  }

  lemma PlacedMore(packages: seq<seq<Txid>>, p: seq<Txid>)
    ensures Placed(packages + [p]) == Placed(packages) + Elems(p)
  {
    var all := packages + [p];
    assert all[|packages|] == p;
    forall x | x in Placed(packages) ensures x in Placed(all) {
      var q :| q in packages && x in q;
      assert q in all;
    }
  }

  lemma BackwardsElems(s: seq<Txid>)
    ensures Elems(Backwards(s)) == Elems(s) && (Distinct(s) ==> Distinct(Backwards(s)))
  {
    var r := Backwards(s);
    forall x | x in Elems(s) ensures x in Elems(r) {
      var i :| 0 <= i < |s| && s[i] == x;
      assert r[|s| - 1 - i] == x;
    }
  }

  lemma OutputMore(packages: seq<seq<Txid>>, p: seq<Txid>)
    ensures Output(packages + [p]) == Output(packages) + Backwards(p)
  {
    assert (packages + [p])[..|packages|] == packages;
  }

  lemma PackagedMore(anc0: Relatives, packages: seq<seq<Txid>>, p: seq<Txid>)
    requires Packaged(anc0, packages) && IsPackage(anc0, Placed(packages), p)
    ensures Packaged(anc0, packages + [p])
  {
    var all := packages + [p];
    forall k | 0 <= k < |all| ensures IsPackage(anc0, Placed(all[..k]), all[k]) {
      assert all[..k] == packages[..k];
      assert packages[..|packages|] == packages;
    }
  }

  lemma GreedyMore(c: Candidates, anc0: Relatives, l: Limits, packages: seq<seq<Txid>>, p: seq<Txid>)
    requires Greedy(c, anc0, l, packages) && p != []
    requires HasRoom(c, anc0, l, packages, p[|p| - 1]) && Best(c, anc0, Placed(packages), Offered(c, anc0, l, packages), p[|p| - 1])
    ensures Greedy(c, anc0, l, packages + [p])
  {
    hide Best, Placed, HasRoom, Offered;
    var all := packages + [p];
    forall k | 0 <= k < |all| && all[k] != []
      ensures HasRoom(c, anc0, l, all[..k], all[k][|all[k]| - 1])
      ensures Best(c, anc0, Placed(all[..k]), Offered(c, anc0, l, all[..k]), all[k][|all[k]| - 1])
    {
      assert all[..k] == packages[..k];
      assert packages[..|packages|] == packages;
      if k < |packages| {
        assert packages[k] != [];
      }
    }
  }

  /** Packages never overlap, so the output has no transaction twice. */
  lemma {:induction false} OutputDistinct(anc0: Relatives, packages: seq<seq<Txid>>)
    requires Packaged(anc0, packages)
    ensures Distinct(Output(packages)) && Elems(Output(packages)) == Placed(packages)
  {
    if packages != [] {
      var n := |packages| - 1;
      var front := packages[..n];
      assert forall k | 0 <= k < n :: packages[..k] == front[..k];
      assert packages == front + [packages[n]];
      OutputDistinct(anc0, front);
      PlacedMore(front, packages[n]);
      BackwardsElems(packages[n]);
      DistinctConcat(Output(front), Backwards(packages[n]));
      ElemsConcat(Output(front), Backwards(packages[n]));
      assert IsPackage(anc0, Placed(front), packages[n]);
    }
  }

  /** What is placed is placed with all its ancestors. */
  lemma {:induction false} PlacedClosed(c: Candidates, anc0: Relatives, rank: map<Txid, nat>, packages: seq<seq<Txid>>, x: Txid)
    requires Ancestry(c, anc0) && c.Ranked(rank) && Packaged(anc0, packages) && Placed(packages) <= c.Keys() && x in Placed(packages)
    ensures Of(anc0, x) <= Placed(packages)
  {
    hide Ancestry, Candidates.Ranked, IsPackage, Placed;
    assert Placed([]) == {} by { NonePlaced(); }
    var n := |packages| - 1;
    if packages != [] {
      var front := packages[..n];
      assert forall k | 0 <= k < n :: packages[..k] == front[..k];
      assert packages == front + [packages[n]];
      PlacedMore(front, packages[n]);
      if x in Placed(front) {
        PlacedClosed(c, anc0, rank, front, x);
      } else {
        PackageClosed(c, anc0, rank, Placed(front), packages[n], x);
      }
    }
  }

  lemma NonePlaced()
    ensures Placed([]) == {}
  {
  }

  /** A package completes the ancestors of its own. */
  lemma PackageClosed(c: Candidates, anc0: Relatives, rank: map<Txid, nat>, placed: set<Txid>, package: seq<Txid>, x: Txid)
    requires Ancestry(c, anc0) && c.Ranked(rank) && IsPackage(anc0, placed, package) && Elems(package) <= c.Keys() && x in package
    ensures Of(anc0, x) <= placed + Elems(package)
  {
    hide Ancestry, Candidates.Ranked;
    var root := package[|package| - 1];
    assert root in Elems(package) && x in Elems(package);
    if x != root {
      AncestorsNest(c, anc0, rank, root, x);
    }
  }

  // ---------- the queues

  /** Where candidates wait: those with a placed ancestor in `modified`, others in `waiting`. */
  ghost predicate Queues(keys: set<Txid>, used: set<Txid>, queued: set<Txid>, waiting: seq<Txid>, modified: seq<Txid>, aside: set<Txid>) {
    && Distinct(modified) && Elems(waiting) <= keys && Elems(modified) <= queued <= keys
    && forall u | u in keys && u !in used && u !in aside :: if u in queued then u in modified else u in waiting
  }

  /** Scores only changed for transactions that were queued again. */
  ghost predicate Unchanged(anc0: Relatives, used: set<Txid>, queued: set<Txid>) {
    forall x | x in anc0 && x !in queued :: anc0[x] !! used
  }

  ghost function TotalsOf(m: map<Txid, int>, anc0: Relatives, placed: set<Txid>): map<Txid, int> {
    map x | x in anc0 :: PackageTotal(m, anc0, placed, x)
  }

  /** Candidates in order of the score they had at the start, then in their own order. */
  ghost predicate InStartOrder(c: Candidates, anc0: Relatives, waiting: seq<Txid>) {
    Kahn.SortedBy(FeerateThen(TotalsOf(c.fee, anc0, {}), TotalsOf(c.size, anc0, {}), c.order), waiting)
  }

  /** Nothing in `s` has a higher score than `x`, or the same and an earlier place. */
  ghost predicate Leads(fee: map<Txid, int>, size: map<Txid, int>, order: map<Txid, nat>, x: Txid, s: seq<Txid>) {
    forall u | u in s ::
      && At(fee, u) * At(size, x) <= At(fee, x) * At(size, u)
      && (At(fee, u) * At(size, x) == At(fee, x) * At(size, u) ==> At(order, x) <= At(order, u))
  }

  /** The score of `x` is higher than that of `y`. */
  ghost predicate Scores(fee: map<Txid, int>, size: map<Txid, int>, x: Txid, y: Txid) {
    At(fee, x) * At(size, y) > At(fee, y) * At(size, x)
  }

  lemma ScoresHigher(fee: map<Txid, int>, size: map<Txid, int>, x: Txid, y: Txid)
    requires x in fee && x in size && y in fee && y in size
    ensures Scores(fee, size, x, y) <==> Higher(fee[x], size[x], fee[y], size[y])
  {
  }

  lemma HeadLeads(fee: map<Txid, int>, size: map<Txid, int>, order: map<Txid, nat>, s: seq<Txid>)
    requires s != [] && Kahn.SortedBy(FeerateThen(fee, size, order), s)
    ensures Leads(fee, size, order, s[0], s[1..])
  {
    forall u | u in s[1..] ensures !FeerateThen(fee, size, order)(u, s[0]) {
      var i :| 0 <= i < |s| - 1 && s[1..][i] == u;
      assert s[i + 1] == u;
    }
  }

  lemma SortedTail(better: Kahn.Order, s: seq<Txid>)
    requires Kahn.SortedBy(better, s) && s != []
    ensures Kahn.SortedBy(better, s[1..])
  {
  }

  lemma SortedHead(better: Kahn.Order, s: seq<Txid>, x: Txid)
    requires Kahn.SortedBy(better, s) && x in s && !better(s[0], s[0])
    ensures !better(x, s[0])
  {
    var i :| 0 <= i < |s| && s[i] == x;
  }

  /** The first of `waiting` is used or waits elsewhere. */
  lemma QueueSkip(keys: set<Txid>, used: set<Txid>, queued: set<Txid>, waiting: seq<Txid>, modified: seq<Txid>, aside: set<Txid>)
    requires Queues(keys, used, queued, waiting, modified, aside) && waiting != [] && (waiting[0] in used || waiting[0] in queued)
    ensures Queues(keys, used, queued, waiting[1..], modified, aside)
  {
    hide Distinct;
    QueueTake(keys, used, queued, waiting, modified, aside);
  }

  lemma QueueTake(keys: set<Txid>, used: set<Txid>, queued: set<Txid>, waiting: seq<Txid>, modified: seq<Txid>, aside: set<Txid>)
    requires Queues(keys, used, queued, waiting, modified, aside) && waiting != []
    ensures Queues(keys, used, queued, waiting[1..], modified, aside + {waiting[0]}) && waiting[0] in keys
    ensures Elems(waiting[1..]) <= keys
  {
    hide Distinct;
    assert waiting == [waiting[0]] + waiting[1..];
    assert waiting[0] in Elems(waiting);
    ElemsConcat([waiting[0]], waiting[1..]);
  }

  lemma QueueTakeModified(keys: set<Txid>, used: set<Txid>, queued: set<Txid>, waiting: seq<Txid>, modified: seq<Txid>, aside: set<Txid>)
    requires Queues(keys, used, queued, waiting, modified, aside) && modified != []
    ensures Queues(keys, used, queued, waiting, modified[1..], aside + {modified[0]}) && modified[0] in keys
  {
    assert modified == [modified[0]] + modified[1..];
    assert modified[0] in Elems(modified);
    ElemsConcat([modified[0]], modified[1..]);
    DistinctConcat([modified[0]], modified[1..]);
  }

  /** Totals kept in the pool are those of the packages, and positive in size. */
  lemma PoolTotals(c: Candidates, anc0: Relatives, used: set<Txid>, anc: Relatives, total: map<Txid, int>, m: map<Txid, int>, x: Txid)
    requires Remaining(anc0, used, anc) && Totalled(m, anc, total, c.Keys()) && x in c.Keys() && anc0.Keys == c.Keys()
    ensures x in total && total[x] == PackageTotal(m, anc0, used, x)
  {
  }

  lemma SizePositive(c: Candidates, anc0: Relatives, used: set<Txid>, x: Txid)
    requires c.WellFormed() && x in c.Keys() && Of(anc0, x) <= c.Keys()
    ensures PackageTotal(c.size, anc0, used, x) > 0
  {
    SumSetPositive(c.size, Of(anc0, x) - used);
  }

  lemma UnchangedTotal(anc0: Relatives, used: set<Txid>, queued: set<Txid>, m: map<Txid, int>, x: Txid)
    requires Unchanged(anc0, used, queued) && x in anc0 && x !in queued
    ensures PackageTotal(m, anc0, used, x) == PackageTotal(m, anc0, {}, x)
  {
    assert anc0[x] - used == anc0[x] && anc0[x] - {} == anc0[x];
  }

  ghost predicate NotBetter(c: Candidates, anc0: Relatives, used: set<Txid>, u: Txid, x: Txid) {
    !Higher(PackageTotal(c.fee, anc0, used, u), PackageTotal(c.size, anc0, used, u), PackageTotal(c.fee, anc0, used, x), PackageTotal(c.size, anc0, used, x))
  }

  /** The first waiting candidate is best among those that were not queued again. */
  lemma FirstWaiting(c: Candidates, anc0: Relatives, used: set<Txid>, queued: set<Txid>, waiting: seq<Txid>, u: Txid)
    requires Unchanged(anc0, used, queued) && InStartOrder(c, anc0, waiting) && u in waiting && u in anc0 && u !in queued
    requires waiting[0] in anc0 && waiting[0] !in queued
    ensures NotBetter(c, anc0, used, u, waiting[0])
  {
    var h := waiting[0];
    SortedByFeerate(TotalsOf(c.fee, anc0, {}), TotalsOf(c.size, anc0, {}), c.order, waiting);
    SortedHead(BetterBy(TotalsOf(c.fee, anc0, {}), TotalsOf(c.size, anc0, {})), waiting, u);
    UnchangedTotal(anc0, used, queued, c.fee, u);
    UnchangedTotal(anc0, used, queued, c.size, u);
    UnchangedTotal(anc0, used, queued, c.fee, h);
    UnchangedTotal(anc0, used, queued, c.size, h);
  }

  lemma FirstModified(c: Candidates, anc0: Relatives, used: set<Txid>, fee: map<Txid, int>, size: map<Txid, int>, modified: seq<Txid>, u: Txid)
    requires Kahn.SortedBy(FeerateThen(fee, size, c.order), modified) && u in modified && u in fee && u in size && modified[0] in fee && modified[0] in size
    requires forall x | x in modified && x in fee && x in size :: fee[x] == PackageTotal(c.fee, anc0, used, x) && size[x] == PackageTotal(c.size, anc0, used, x)
    ensures NotBetter(c, anc0, used, u, modified[0])
  {
    SortedByFeerate(fee, size, c.order, modified);
    SortedHead(BetterBy(fee, size), modified, u);
  }

  lemma NotBetterTrans(c: Candidates, anc0: Relatives, used: set<Txid>, u: Txid, v: Txid, x: Txid)
    requires c.WellFormed() && u in c.Keys() && v in c.Keys() && x in c.Keys() && forall y | y in c.Keys() :: Of(anc0, y) <= c.Keys()
    requires NotBetter(c, anc0, used, u, v) && NotBetter(c, anc0, used, v, x)
    ensures NotBetter(c, anc0, used, u, x)
  {
    SizePositive(c, anc0, used, u);
    SizePositive(c, anc0, used, v);
    SizePositive(c, anc0, used, x);
    NotHigherTrans(PackageTotal(c.fee, anc0, used, u), PackageTotal(c.size, anc0, used, u), PackageTotal(c.fee, anc0, used, v),
                   PackageTotal(c.size, anc0, used, v), PackageTotal(c.fee, anc0, used, x), PackageTotal(c.size, anc0, used, x));
  }

  /** The first of each queue; the better of the two is best of all. */
  lemma SelectedIsBest(c: Candidates, anc0: Relatives, used: set<Txid>, queued: set<Txid>, fee: map<Txid, int>, size: map<Txid, int>,
                       waiting: seq<Txid>, modified: seq<Txid>, aside: set<Txid>, next: Txid)
    requires c.WellFormed() && anc0.Keys == c.Keys() && forall y | y in c.Keys() :: Of(anc0, y) <= c.Keys()
    requires Queues(c.Keys(), used, queued, waiting, modified, aside) && Unchanged(anc0, used, queued)
    requires InStartOrder(c, anc0, waiting) && Kahn.SortedBy(FeerateThen(fee, size, c.order), modified)
    requires c.Keys() <= fee.Keys && c.Keys() <= size.Keys
    requires forall x | x in c.Keys() :: fee[x] == PackageTotal(c.fee, anc0, used, x) && size[x] == PackageTotal(c.size, anc0, used, x)
    requires waiting != [] ==> waiting[0] !in queued && waiting[0] in c.Keys()
    requires next in c.Keys()
    requires waiting != [] ==> next == waiting[0] || NotBetter(c, anc0, used, waiting[0], next)
    requires modified != [] ==> next == modified[0] || NotBetter(c, anc0, used, modified[0], next)
    ensures Best(c, anc0, used, c.Keys() - used - aside, next)
  {
    hide Queues, Unchanged, InStartOrder, Kahn.SortedBy, Higher, PackageTotal, Candidates.WellFormed;
    forall u | u in c.Keys() - used - aside ensures NotBetter(c, anc0, used, u, next) {
      WaitsSomewhere(c.Keys(), used, queued, waiting, modified, aside, u);
      if u in queued {
        FirstModified(c, anc0, used, fee, size, modified, u);
        if next != modified[0] {
          NotBetterTrans(c, anc0, used, u, modified[0], next);
        }
      } else {
        FirstWaiting(c, anc0, used, queued, waiting, u);
        if next != waiting[0] {
          NotBetterTrans(c, anc0, used, u, waiting[0], next);
        }
      }
    }
  }

  lemma WaitsSomewhere(keys: set<Txid>, used: set<Txid>, queued: set<Txid>, waiting: seq<Txid>, modified: seq<Txid>, aside: set<Txid>, u: Txid)
    requires Queues(keys, used, queued, waiting, modified, aside) && u in keys && u !in used && u !in aside
    ensures if u in queued then u in modified else u in waiting
    ensures forall x | x in modified :: x in keys
  {
    assert forall x | x in modified :: x in Elems(modified);
  }

  /** What the template loop knows about the pool and its queues. */
  ghost predicate Waiting(pool: AuditPool, anc0: Relatives, used: set<Txid>, waiting: seq<Txid>, modified: seq<Txid>, aside: set<Txid>)
    reads pool
  {
    && pool.Left(anc0, used) && Unchanged(anc0, used, pool.queued)
    && Queues(pool.c.Keys(), used, pool.queued, waiting, modified, aside)
    && InStartOrder(pool.c, anc0, waiting) && Kahn.SortedBy(FeerateThen(pool.ancestorFee, pool.ancestorSize, pool.c.order), modified)
  }

  lemma WaitingTotals(pool: AuditPool, anc0: Relatives, used: set<Txid>)
    requires pool.Left(anc0, used)
    ensures var c := pool.c;
            && c.WellFormed() && anc0.Keys == c.Keys() && c.Keys() <= pool.ancestorFee.Keys && c.Keys() <= pool.ancestorSize.Keys
            && c.Keys() <= pool.ancestorSigops.Keys && pool.ancestorMap.Keys == c.Keys()
            && (forall x | x in c.Keys() :: pool.ancestorFee[x] == PackageTotal(c.fee, anc0, used, x))
            && (forall x | x in c.Keys() :: pool.ancestorSize[x] == PackageTotal(c.size, anc0, used, x))
            && (forall x | x in c.Keys() :: pool.ancestorSigops[x] == PackageTotal(c.sigops, anc0, used, x))
            && (forall x | x in c.Keys() :: Of(anc0, x) <= c.Keys() && pool.ancestorMap[x] == Of(anc0, x) - used)
  {
    var c := pool.c;
    FamilyKeys(c, anc0, pool.children);
    hide Family, PackageTotal, Totalled;
    forall x | x in c.Keys()
      ensures pool.ancestorFee[x] == PackageTotal(c.fee, anc0, used, x) && pool.ancestorSize[x] == PackageTotal(c.size, anc0, used, x)
      ensures pool.ancestorSigops[x] == PackageTotal(c.sigops, anc0, used, x) && x in pool.ancestorFee && x in pool.ancestorSize && x in pool.ancestorSigops
    {
      PoolTotals(c, anc0, used, pool.ancestorMap, pool.ancestorFee, c.fee, x);
      PoolTotals(c, anc0, used, pool.ancestorMap, pool.ancestorSize, c.size, x);
      PoolTotals(c, anc0, used, pool.ancestorMap, pool.ancestorSigops, c.sigops, x);
    }
    forall x | x in c.Keys() ensures Of(anc0, x) <= c.Keys() {
      AncestorsInside(c, anc0, pool.children, x);
    }
  }

  lemma AncestorsInside(c: Candidates, anc0: Relatives, kids: Relatives, x: Txid)
    requires Family(c, anc0, kids) && x in c.Keys()
    ensures Of(anc0, x) <= c.Keys()
  {
    var rank := FamilyRank(c, anc0, kids);
    FamilyKeys(c, anc0, kids);
    forall a | a in Of(anc0, x) ensures a in c.Keys() {
      AncestorsNest(c, anc0, rank, x, a);
    }
  }

  /** Takes the first waiting transaction whose score is highest. */
  method SelectNext(pool: AuditPool, waiting0: seq<Txid>, modified0: seq<Txid>, used: set<Txid>, ghost anc0: Relatives, ghost aside: set<Txid>)
    returns (next: Option<Txid>, waiting: seq<Txid>, modified: seq<Txid>)
    requires Waiting(pool, anc0, used, waiting0, modified0, aside)
    ensures Waiting(pool, anc0, used, waiting, modified, aside + if next.Some? then {next.value} else {})
    ensures |waiting| <= |waiting0| && |modified| <= |modified0|
    ensures next.None? ==> waiting == [] && modified == []
    ensures next.Some? ==> next.value in pool.c.Keys() && |waiting| + |modified| < |waiting0| + |modified0|
    ensures next.Some? ==> Best(pool.c, anc0, used, pool.c.Keys() - used - aside, next.value)
    ensures next.Some? && modified == modified0 ==>
              && Leads(TotalsOf(pool.c.fee, anc0, {}), TotalsOf(pool.c.size, anc0, {}), pool.c.order, next.value, waiting)
              && (modified != [] ==> Scores(pool.ancestorFee, pool.ancestorSize, next.value, modified[0]))
    ensures next.Some? && modified != modified0 ==>
              && modified0 == [next.value] + modified && Leads(pool.ancestorFee, pool.ancestorSize, pool.c.order, next.value, modified)
              && (waiting != [] ==> !Scores(pool.ancestorFee, pool.ancestorSize, waiting[0], next.value))
  {
    hide AuditPool.Left, Unchanged, Queues, InStartOrder, Kahn.SortedBy, Higher, PackageTotal, Best, Candidates.WellFormed, FeerateThen;
    ghost var c := pool.c;
    WaitingTotals(pool, anc0, used);
    waiting, modified := waiting0, modified0;
    while waiting != [] && (waiting[0] in used || waiting[0] in pool.queued)
      invariant Waiting(pool, anc0, used, waiting, modified, aside)
      invariant |waiting| <= |waiting0| && modified == modified0
    {
      QueueSkip(c.Keys(), used, pool.queued, waiting, modified, aside);
      StartTail(c, anc0, waiting);
      waiting := waiting[1..];
    }
    if waiting != [] {
      QueueTake(c.Keys(), used, pool.queued, waiting, modified, aside);
    }
    if modified != [] {
      QueueTakeModified(c.Keys(), used, pool.queued, waiting, modified, aside);
    }
    if waiting != [] && modified != [] {
      ScoresHigher(pool.ancestorFee, pool.ancestorSize, waiting[0], modified[0]);
    }
    assert modified != [] ==> modified == [modified[0]] + modified[1..];
    if waiting != [] && (modified == [] || Higher(pool.ancestorFee[waiting[0]], pool.ancestorSize[waiting[0]], pool.ancestorFee[modified[0]], pool.ancestorSize[modified[0]])) {
      next := Some(waiting[0]);
      if modified != [] {
        AboveIsNotBelow(c, anc0, used, modified[0], waiting[0]);
      }
      SelectedIsBest(c, anc0, used, pool.queued, pool.ancestorFee, pool.ancestorSize, waiting, modified, aside, next.value);
      StartTail(c, anc0, waiting);
      WaitingLeads(c, anc0, waiting);
      waiting := waiting[1..];
    } else if modified != [] {
      next := Some(modified[0]);
      if waiting != [] {
        IsNotBetter(c, anc0, used, waiting[0], modified[0]);
      }
      SelectedIsBest(c, anc0, used, pool.queued, pool.ancestorFee, pool.ancestorSize, waiting, modified, aside, next.value);
      SortedTail(FeerateThen(pool.ancestorFee, pool.ancestorSize, c.order), modified);
      HeadLeads(pool.ancestorFee, pool.ancestorSize, c.order, modified);
      modified := modified[1..];
    } else {
      next := None;
      assert aside + {} == aside;
    }
  }

  lemma WaitingLeads(c: Candidates, anc0: Relatives, waiting: seq<Txid>)
    requires InStartOrder(c, anc0, waiting) && waiting != []
    ensures Leads(TotalsOf(c.fee, anc0, {}), TotalsOf(c.size, anc0, {}), c.order, waiting[0], waiting[1..])
  {
    HeadLeads(TotalsOf(c.fee, anc0, {}), TotalsOf(c.size, anc0, {}), c.order, waiting);
  }

  lemma StartTail(c: Candidates, anc0: Relatives, waiting: seq<Txid>)
    requires InStartOrder(c, anc0, waiting) && waiting != []
    ensures InStartOrder(c, anc0, waiting[1..])
  {
    SortedTail(FeerateThen(TotalsOf(c.fee, anc0, {}), TotalsOf(c.size, anc0, {}), c.order), waiting);
  }

  lemma AboveIsNotBelow(c: Candidates, anc0: Relatives, used: set<Txid>, u: Txid, x: Txid)
    requires c.WellFormed() && u in c.Keys() && x in c.Keys() && forall y | y in c.Keys() :: Of(anc0, y) <= c.Keys()
    requires Higher(PackageTotal(c.fee, anc0, used, x), PackageTotal(c.size, anc0, used, x), PackageTotal(c.fee, anc0, used, u), PackageTotal(c.size, anc0, used, u))
    ensures NotBetter(c, anc0, used, u, x)
  {
    NotBothHigher(PackageTotal(c.fee, anc0, used, x), PackageTotal(c.size, anc0, used, x), PackageTotal(c.fee, anc0, used, u), PackageTotal(c.size, anc0, used, u));
  }

  lemma IsNotBetter(c: Candidates, anc0: Relatives, used: set<Txid>, u: Txid, x: Txid)
    requires !Higher(PackageTotal(c.fee, anc0, used, u), PackageTotal(c.size, anc0, used, u), PackageTotal(c.fee, anc0, used, x), PackageTotal(c.size, anc0, used, x))
    ensures NotBetter(c, anc0, used, u, x)
  {
  }

  /** A transaction with its unplaced ancestors, in order of how many unplaced ancestors each has. */
  method SortedPackage(pool: AuditPool, next: Txid, ghost anc0: Relatives, ghost used: set<Txid>) returns (package: seq<Txid>)
    requires pool.Left(anc0, used) && next in pool.c.Keys() && next !in used
    ensures IsPackage(anc0, used, package) && package != [] && package[|package| - 1] == next && Elems(package) <= pool.c.Keys()
  {
    hide AuditPool.Left, Kahn.Refines, Kahn.SortedBy;
    WaitingTotals(pool, anc0, used);
    ghost var rank := LeftRank(pool, anc0, used);
    var ancestors := AnyOrder(pool.ancestorMap[next]);
    ByCountRefines(pool.ancestorMap, pool.ancestorMap[next]);
    var sorted := Kahn.SortBy(ancestors, ByCount(pool.ancestorMap), ByCount(pool.ancestorMap), pool.ancestorMap[next]);
    package := sorted + [next];
    SortedIsPackage(pool.c, anc0, rank, used, pool.ancestorMap, sorted, next);
  }

  function ByCount(anc: Relatives): Kahn.Order {
    (a: nat, b: nat) => |Of(anc, a)| < |Of(anc, b)|
  }

  lemma ByCountRefines(anc: Relatives, nodes: set<Txid>)
    ensures Kahn.Refines(ByCount(anc), ByCount(anc), nodes)
  {
  }

  lemma LeftRank(pool: AuditPool, anc0: Relatives, used: set<Txid>) returns (rank: map<Txid, nat>)
    requires pool.Left(anc0, used)
    ensures pool.c.Ranked(rank) && Ancestry(pool.c, anc0)
  {
    rank := FamilyRank(pool.c, anc0, pool.children);
  }

  /** An ancestor has fewer unplaced ancestors, so sorting by their number puts it first. */
  lemma SortedIsPackage(c: Candidates, anc0: Relatives, rank: map<Txid, nat>, used: set<Txid>, anc: Relatives, sorted: seq<Txid>, next: Txid)
    requires Ancestry(c, anc0) && c.Ranked(rank) && anc0.Keys == c.Keys() == anc.Keys && next in c.Keys() && next !in used
    requires forall x | x in c.Keys() :: Of(anc0, x) <= c.Keys() && anc[x] == Of(anc0, x) - used
    requires Distinct(sorted) && Elems(sorted) == anc[next] && Kahn.SortedBy(ByCount(anc), sorted)
    ensures IsPackage(anc0, used, sorted + [next]) && Elems(sorted + [next]) <= c.Keys()
  {
    hide Ancestry, Candidates.Ranked;
    var package := sorted + [next];
    RankKeys(c, rank);
    ElemsConcat(sorted, [next]);
    assert Elems([next]) == {next};
    NotOwnAncestor(c, anc0, rank, next);
    DistinctConcat(sorted, [next]);
    forall i, j | 0 <= i <= j < |package| ensures package[j] !in Of(anc0, package[i]) {
      assert package[i] in Elems(package) && package[j] in Elems(package);
      if j < |sorted| {
        SortedApart(c, anc0, rank, used, anc, sorted, i, j);
      } else if i < j {
        assert sorted[i] in Elems(sorted);
        NotAncestorBack(c, anc0, rank, next, package[i]);
      }
    }
  }

  /** What has no fewer ancestors is no ancestor. */
  lemma SortedApart(c: Candidates, anc0: Relatives, rank: map<Txid, nat>, used: set<Txid>, anc: Relatives, sorted: seq<Txid>, i: nat, j: nat)
    requires Ancestry(c, anc0) && c.Ranked(rank) && anc0.Keys == c.Keys() == anc.Keys && i <= j < |sorted|
    requires forall x | x in c.Keys() :: Of(anc0, x) <= c.Keys() && anc[x] == Of(anc0, x) - used
    requires sorted[i] in c.Keys() && sorted[j] in c.Keys() && sorted[j] !in used && Kahn.SortedBy(ByCount(anc), sorted)
    ensures sorted[j] !in Of(anc0, sorted[i])
  {
    hide Ancestry, Candidates.Ranked;
    if sorted[j] in Of(anc0, sorted[i]) {
      FewerAncestors(c, anc0, rank, used, anc, sorted[i], sorted[j]);
    }
  }

  lemma NotAncestorBack(c: Candidates, anc0: Relatives, rank: map<Txid, nat>, x: Txid, a: Txid)
    requires Ancestry(c, anc0) && c.Ranked(rank) && x in c.Keys() && a in Of(anc0, x)
    ensures x !in Of(anc0, a)
  {
    hide Ancestry, Candidates.Ranked;
    AncestorsNest(c, anc0, rank, x, a);
    NotOwnAncestor(c, anc0, rank, x);
  }

  lemma NotOwnAncestor(c: Candidates, anc0: Relatives, rank: map<Txid, nat>, x: Txid)
    requires Ancestry(c, anc0) && c.Ranked(rank) && x in c.Keys()
    ensures x !in Of(anc0, x)
  {
    if x in Of(anc0, x) {
      AncestorsNest(c, anc0, rank, x, x);
    }
  }

  lemma FewerAncestors(c: Candidates, anc0: Relatives, rank: map<Txid, nat>, used: set<Txid>, anc: Relatives, x: Txid, a: Txid)
    requires Ancestry(c, anc0) && c.Ranked(rank) && anc0.Keys == c.Keys() == anc.Keys && x in c.Keys() && a in Of(anc0, x) && a !in used
    requires forall y | y in c.Keys() :: anc[y] == Of(anc0, y) - used
    ensures a in c.Keys() && |anc[a]| < |anc[x]|
  {
    AncestorsNest(c, anc0, rank, x, a);
    NotOwnAncestor(c, anc0, rank, a);
    assert a in anc[x] && a !in anc[a];
    assert anc[a] <= anc[x];
    SmallerSet(anc[a], anc[x]);
  }

  // ---------- placing a package

  lemma ScoresRefine(pool: AuditPool, anc0: Relatives, used: set<Txid>)
    requires pool.Left(anc0, used)
    ensures var less := FeerateThen(pool.ancestorFee, pool.ancestorSize, pool.c.order); Kahn.Refines(less, less, pool.c.Keys())
  {
    hide AuditPool.Left, PackageTotal;
    WaitingTotals(pool, anc0, used);
    forall x | x in pool.c.Keys() ensures 0 < At(pool.ancestorSize, x) {
      SizePositive(pool.c, anc0, used, x);
    }
    hide Candidates.WellFormed;
    FeerateThenWeak(pool.ancestorFee, pool.ancestorSize, pool.c.order, pool.c.Keys());
  }

  /** Newly queued transactions join `modified`. */
  lemma QueueMore(keys: set<Txid>, used: set<Txid>, queued: set<Txid>, waiting: seq<Txid>, modified: seq<Txid>, aside: set<Txid>,
                  below: set<Txid>, added: seq<Txid>, sorted: seq<Txid>)
    requires Queues(keys, used, queued, waiting, modified, aside) && below <= keys
    requires Distinct(added) && Elems(added) == below - queued
    requires Distinct(sorted) && Elems(sorted) == Elems(modified + added)
    ensures Queues(keys, used, queued + below, waiting, sorted, aside)
  {
    hide Distinct;
    ElemsConcat(modified, added);
    forall u | u in keys && u !in used && u !in aside ensures if u in queued + below then u in sorted else u in waiting {
      assert u in modified ==> u in Elems(modified);
      assert u in Elems(sorted) ==> u in sorted;
    }
  }

  lemma QueueDistinct(keys: set<Txid>, used: set<Txid>, queued: set<Txid>, waiting: seq<Txid>, modified: seq<Txid>, aside: set<Txid>, added: seq<Txid>)
    requires Queues(keys, used, queued, waiting, modified, aside) && Distinct(added) && Elems(added) !! queued && Elems(added) <= keys
    ensures Distinct(modified + added) && Elems(modified + added) <= keys
  {
    DistinctConcat(modified, added);
    ElemsConcat(modified, added);
  }

  lemma UnchangedMore(anc0: Relatives, used: set<Txid>, queued: set<Txid>, root: Txid)
    requires Unchanged(anc0, used, queued)
    ensures Unchanged(anc0, used + {root}, queued + Below(anc0, root))
  {
  }

  /** Takes the placed transactions out of the ancestors of what remains. */
  method UpdateAll(pool: AuditPool, placed: seq<Txid>, waiting: seq<Txid>, modified0: seq<Txid>, ghost anc0: Relatives, ghost used: set<Txid>, ghost aside: set<Txid>)
    returns (modified: seq<Txid>)
    requires Waiting(pool, anc0, used, waiting, modified0, aside) && Distinct(placed) && Elems(placed) !! used && Elems(placed) <= pool.c.Keys()
    modifies pool
    ensures Waiting(pool, anc0, used + Elems(placed), waiting, modified, aside) && pool.queued >= old(pool.queued)
  {
    hide AuditPool.Left, Unchanged, Queues, InStartOrder, Kahn.SortedBy, Candidates.WellFormed, FeerateThen, Kahn.Refines, Distinct, Below;
    ghost var c := pool.c;
    modified := modified0;
    assert placed[..0] == [] && used + Elems(placed[..0]) == used;
    for i := 0 to |placed|
      invariant Waiting(pool, anc0, used + Elems(placed[..i]), waiting, modified, aside) && pool.queued >= old(pool.queued)
    {
      var tx := placed[i];
      ghost var removed, queued := used + Elems(placed[..i]), pool.queued;
      NextPlaced(placed, i);
      WaitingTotals(pool, anc0, removed);
      BelowKnown(pool, anc0, removed, tx);
      var added, visited := pool.UpdateDescendants(tx, anc0, removed);
      UnchangedMore(anc0, removed, queued, tx);
      QueueDistinct(c.Keys(), removed, queued, waiting, modified, aside, added);
      ScoresRefine(pool, anc0, removed + {tx});
      var less := FeerateThen(pool.ancestorFee, pool.ancestorSize, pool.c.order);
      var sorted := Kahn.SortBy(modified + added, less, less, pool.c.Keys());
      QueueMore(c.Keys(), removed, queued, waiting, modified, aside, Below(anc0, tx), added, sorted);
      QueueUsed(c.Keys(), removed, tx, pool.queued, waiting, sorted, aside);
      modified := sorted;
      assert removed + {tx} == used + Elems(placed[..i + 1]);
    }
    assert placed[..|placed|] == placed;
  }

  lemma NextPlaced(placed: seq<Txid>, i: nat)
    requires i < |placed| && Distinct(placed)
    ensures placed[i] in Elems(placed) && placed[i] !in Elems(placed[..i]) && Elems(placed[..i + 1]) == Elems(placed[..i]) + {placed[i]}
  {
    assert placed[..i + 1] == placed[..i] + [placed[i]];
  }

  lemma BelowKnown(pool: AuditPool, anc0: Relatives, used: set<Txid>, tx: Txid)
    requires pool.Left(anc0, used)
    ensures Below(anc0, tx) <= pool.c.Keys()
  {
    FamilyKeys(pool.c, anc0, pool.children);
  }

  lemma QueueUsed(keys: set<Txid>, used: set<Txid>, tx: Txid, queued: set<Txid>, waiting: seq<Txid>, modified: seq<Txid>, aside: set<Txid>)
    requires Queues(keys, used, queued, waiting, modified, aside)
    ensures Queues(keys, used + {tx}, queued, waiting, modified, aside)
  {
    hide Distinct;
  }

  // ---------- the template

  function Under(x: int, limit: Option<int>): bool {
    limit.None? || x < limit.value
  }

  /** Packages are bounded by their adjusted size. */
  ghost predicate SizesCover(c: Candidates) {
    forall x | x in c.Keys() :: At(c.weight, x) <= 4 * At(c.size, x)
  }

  lemma {:induction false} WeightCovered(c: Candidates, s: set<Txid>)
    requires SizesCover(c) && s <= c.Keys()
    ensures SumSet(c.weight, s) <= 4 * SumSet(c.size, s)
    decreases s
  {
    if s != {} {
      var x :| x in s;
      SumSetRemove(c.weight, s, x);
      SumSetRemove(c.size, s, x);
      WeightCovered(c, s - {x});
    }
  }

  /** The amounts of a package add up to the totals of its root. */
  lemma PackageSum(c: Candidates, anc0: Relatives, used: set<Txid>, package: seq<Txid>, m: map<Txid, int>)
    requires IsPackage(anc0, used, package)
    ensures SumSet(m, Elems(package)) == PackageTotal(m, anc0, used, package[|package| - 1])
  {
    var root := package[|package| - 1];
    var above := Of(anc0, root) - used;
    assert package[|package| - 1] !in Of(anc0, package[|package| - 1]);
    SumSetAdd(m, above, root);
  }

  /** The template so far: its packages, their sums, and where the rest waits. */
  ghost predicate Building(c: Candidates, anc0: Relatives, packages: seq<seq<Txid>>, used: set<Txid>, transactions: seq<Txid>, blockWeight: int, blockSigops: int) {
    && Packaged(anc0, packages) && used == Placed(packages) <= c.Keys() && transactions == Output(packages)
    && blockWeight == SumSet(c.weight, used) && blockSigops == SumSet(c.sigops, used)
  }

  lemma BuildingMore(c: Candidates, anc0: Relatives, packages: seq<seq<Txid>>, used: set<Txid>, transactions: seq<Txid>, blockWeight: int, blockSigops: int, package: seq<Txid>)
    requires Building(c, anc0, packages, used, transactions, blockWeight, blockSigops) && IsPackage(anc0, used, package) && Elems(package) <= c.Keys()
    ensures Building(c, anc0, packages + [package], used + Elems(package), transactions + Backwards(package),
                     blockWeight + SumSet(c.weight, Elems(package)), blockSigops + SumSet(c.sigops, Elems(package)))
    ensures Elems(package) !! used && Distinct(Backwards(package)) && Elems(Backwards(package)) == Elems(package)
  {
    hide SumSet, Placed, Output, Packaged, Backwards, Distinct, IsPackage;
    PackageApart(anc0, used, package);
    PlacedMore(packages, package);
    OutputMore(packages, package);
    PackagedMore(anc0, packages, package);
    BackwardsElems(package);
    SumSetUnion(c.weight, used, Elems(package));
    SumSetUnion(c.sigops, used, Elems(package));
  }

  lemma PackageApart(anc0: Relatives, used: set<Txid>, package: seq<Txid>)
    requires IsPackage(anc0, used, package)
    ensures Distinct(package) && Elems(package) !! used
  {
  }

  lemma BuildingNone(c: Candidates, anc0: Relatives)
    ensures Building(c, anc0, [], {}, [], 0, 0)
  {
  }

  /** Pops the package from its root down into the block. */
  method PushPackage(c: Candidates, package: seq<Txid>, transactions0: seq<Txid>, blockWeight0: int, blockSigops0: int, used0: set<Txid>)
    returns (transactions: seq<Txid>, blockWeight: int, blockSigops: int, used: set<Txid>, placed: seq<Txid>)
    requires Distinct(package)
    ensures placed == Backwards(package) && transactions == transactions0 + placed && used == used0 + Elems(package)
    ensures blockWeight == blockWeight0 + SumSet(c.weight, Elems(package)) && blockSigops == blockSigops0 + SumSet(c.sigops, Elems(package))
  {
    hide SumSet, Distinct, Backwards, Elems;
    transactions, blockWeight, blockSigops, used, placed := transactions0, blockWeight0, blockSigops0, used0, [];
    var left := package;
    assert package[..|package|] == package && package[|package|..] == [];
    NoneBackwards();
    while left != []
      invariant |left| <= |package| && left == package[..|left|]
      invariant placed == Backwards(package[|left|..]) && transactions == transactions0 + placed
      invariant used + Elems(left) == used0 + Elems(package)
      invariant blockWeight + SumSet(c.weight, Elems(left)) == blockWeight0 + SumSet(c.weight, Elems(package))
      invariant blockSigops + SumSet(c.sigops, Elems(left)) == blockSigops0 + SumSet(c.sigops, Elems(package))
    {
      var n := |left| - 1;
      var ancestor := left[n];
      PopOne(package, n);
      SumSetAdd(c.weight, Elems(package[..n]), ancestor);
      SumSetAdd(c.sigops, Elems(package[..n]), ancestor);
      left := left[..n];
      assert left == package[..n];
      used := used + {ancestor};
      transactions := transactions + [ancestor];
      blockWeight := blockWeight + At(c.weight, ancestor);
      blockSigops := blockSigops + At(c.sigops, ancestor);
      placed := placed + [ancestor];
    }
    assert package[0..] == package;
    NoSum(c, left);
  }

  lemma NoneBackwards()
    ensures Backwards([]) == []
  {
  }

  lemma NoSum(c: Candidates, s: seq<Txid>)
    requires s == []
    ensures Elems(s) == {} && SumSet(c.weight, Elems(s)) == 0 && SumSet(c.sigops, Elems(s)) == 0
  {
  }

  lemma PopOne(package: seq<Txid>, n: nat)
    requires n < |package| && Distinct(package)
    ensures Elems(package[..n + 1]) == Elems(package[..n]) + {package[n]} && package[n] !in Elems(package[..n])
    ensures Backwards(package[n..]) == Backwards(package[n + 1..]) + [package[n]]
    ensures Backwards(package[|package|..]) == []
  {
    NextPlaced(package, n);
  }

  /** Before anything is placed, nothing is taken out. */
  lemma LeftStart(pool: AuditPool, rank: map<Txid, nat>)
    requires pool.Building() && pool.relativesSet == pool.c.Keys() && Ancestry(pool.c, pool.ancestorMap) && pool.c.Ranked(rank)
    ensures pool.Left(pool.ancestorMap, {})
  {
    hide Built, Ancestry, TotalsRight, Candidates.Ranked;
  }

  /** All candidates wait in order of score. */
  method SortCandidates(pool: AuditPool, candidates: seq<Txid>) returns (waiting: seq<Txid>)
    requires pool.Left(pool.ancestorMap, {}) && pool.queued == {} && Distinct(candidates) && Elems(candidates) == pool.c.Keys()
    ensures Waiting(pool, pool.ancestorMap, {}, waiting, [], {}) && Distinct(waiting)
  {
    hide AuditPool.Left, PackageTotal, FeerateThen, Kahn.Refines, Candidates.WellFormed;
    ghost var c, anc0 := pool.c, pool.ancestorMap;
    WaitingTotals(pool, anc0, {});
    ScoresRefine(pool, anc0, {});
    var less := FeerateThen(pool.ancestorFee, pool.ancestorSize, pool.c.order);
    waiting := Kahn.SortBy(candidates, less, less, pool.c.Keys());
    SameOrder(pool.ancestorFee, pool.ancestorSize, TotalsOf(c.fee, anc0, {}), TotalsOf(c.size, anc0, {}), c.order, waiting, c.Keys());
    forall u | u in c.Keys() ensures u in waiting {
      assert u in Elems(waiting);
    }
  }

  lemma SameOrder(fee: map<Txid, int>, size: map<Txid, int>, fee': map<Txid, int>, size': map<Txid, int>, order: map<Txid, nat>, s: seq<Txid>, keys: set<Txid>)
    requires Elems(s) <= keys && forall x | x in keys :: At(fee, x) == At(fee', x) && At(size, x) == At(size', x)
    requires Kahn.SortedBy(FeerateThen(fee, size, order), s)
    ensures Kahn.SortedBy(FeerateThen(fee', size', order), s)
  {
    hide ComesBefore;
    forall i, j | 0 <= i < j < |s| ensures !FeerateThen(fee', size', order)(s[j], s[i]) {
      assert s[i] in Elems(s) && s[j] in Elems(s);
      assert !FeerateThen(fee, size, order)(s[j], s[i]);
    }
  }

  /** Places the package of `next` and brings the rest up to date. */
  method PlacePackage(pool: AuditPool, next: Txid, waiting: seq<Txid>, modified0: seq<Txid>, transactions0: seq<Txid>, blockWeight0: int, blockSigops0: int,
                      used0: set<Txid>, ghost anc0: Relatives, ghost packages0: seq<seq<Txid>>, ghost aside: set<Txid>)
    returns (modified: seq<Txid>, transactions: seq<Txid>, blockWeight: int, blockSigops: int, used: set<Txid>, ghost packages: seq<seq<Txid>>)
    requires Waiting(pool, anc0, used0, waiting, modified0, aside) && next in pool.c.Keys() && next !in used0
    requires Building(pool.c, anc0, packages0, used0, transactions0, blockWeight0, blockSigops0)
    modifies pool
    ensures Waiting(pool, anc0, used, waiting, modified, aside)
    ensures Building(pool.c, anc0, packages, used, transactions, blockWeight, blockSigops)
    ensures used0 < used && next in used && transactions != []
    ensures |packages| == |packages0| + 1 && packages[..|packages0|] == packages0
    ensures IsPackage(anc0, used0, packages[|packages0|]) && packages[|packages0|][|packages[|packages0|]| - 1] == next
    ensures used == used0 + Elems(packages[|packages0|]) && Elems(packages[|packages0|]) <= pool.c.Keys()
    ensures blockWeight == blockWeight0 + SumSet(pool.c.weight, Elems(packages[|packages0|]))
    ensures blockSigops == blockSigops0 + SumSet(pool.c.sigops, Elems(packages[|packages0|]))
  {
    hide AuditPool.Left, Unchanged, Queues, InStartOrder, Kahn.SortedBy, SumSet, Building, FeerateThen;
    var package := SortedPackage(pool, next, anc0, used0);
    assert next in Elems(package);
    BuildingMore(pool.c, anc0, packages0, used0, transactions0, blockWeight0, blockSigops0, package);
    var placed;
    transactions, blockWeight, blockSigops, used, placed := PushPackage(pool.c, package, transactions0, blockWeight0, blockSigops0, used0);
    modified := UpdateAll(pool, placed, waiting, modified0, anc0, used0, aside);
    packages := packages0 + [package];
  }

  /** A package that fits leaves the block within its limits. */
  lemma FitsInBlock(c: Candidates, anc0: Relatives, used: set<Txid>, package: seq<Txid>, blockWeight: int, blockSigops: int,
                    weightLimit: Option<int>, sigopLimit: Option<int>)
    requires IsPackage(anc0, used, package) && Elems(package) <= c.Keys()
    requires Under(blockWeight + 4 * PackageTotal(c.size, anc0, used, package[|package| - 1]), weightLimit)
    requires sigopLimit.None? || blockSigops + PackageTotal(c.sigops, anc0, used, package[|package| - 1]) <= sigopLimit.value
    ensures SizesCover(c) ==> Under(blockWeight + SumSet(c.weight, Elems(package)), weightLimit)
    ensures sigopLimit.None? || blockSigops + SumSet(c.sigops, Elems(package)) <= sigopLimit.value
  {
    PackageSum(c, anc0, used, package, c.size);
    PackageSum(c, anc0, used, package, c.sigops);
    if SizesCover(c) {
      WeightCovered(c, Elems(package));
    }
  }

  /** Once nothing waits, there was no room for what is not placed. */
  lemma NothingWaits(pool: AuditPool, anc0: Relatives, l: Limits, packages: seq<seq<Txid>>, used: set<Txid>, aside: set<Txid>)
    requires Waiting(pool, anc0, used, [], [], aside) && AsideRefused(pool.c, anc0, l, packages, used, aside)
    ensures forall u | u in pool.c.Keys() && u !in used :: Refused(pool.c, anc0, l, packages, u)
  {
    hide AuditPool.Left, Refused;
  }

  lemma OneBlockRefusesNone(c: Candidates, anc0: Relatives, l: Limits, packages: seq<seq<Txid>>, x: Txid)
    requires l.maxBlocks <= 1
    ensures !Refused(c, anc0, l, packages, x)
  {
  }

  /** Takes the best waiting package, and places it if it fits. */
  method TakeNext(pool: AuditPool, waiting0: seq<Txid>, modified0: seq<Txid>, transactions0: seq<Txid>, blockWeight0: int, blockSigops0: int,
                  used0: set<Txid>, failures0: nat, maxBlocks: int, weightLimit: Option<int>, sigopLimit: Option<int>,
                  ghost anc0: Relatives, ghost packages0: seq<seq<Txid>>, ghost aside0: set<Txid>)
    returns (waiting: seq<Txid>, modified: seq<Txid>, transactions: seq<Txid>, blockWeight: int, blockSigops: int, used: set<Txid>, failures: nat,
             ghost packages: seq<seq<Txid>>, ghost aside: set<Txid>)
    requires Running(pool, anc0, Limits(maxBlocks, weightLimit, sigopLimit), waiting0, modified0, transactions0, blockWeight0, blockSigops0, used0, failures0, packages0, aside0)
    modifies pool
    ensures Running(pool, anc0, Limits(maxBlocks, weightLimit, sigopLimit), waiting, modified, transactions, blockWeight, blockSigops, used, failures, packages, aside)
    ensures used0 < used || (used == used0 && |waiting| + |modified| < |waiting0| + |modified0|) || (waiting == [] && modified == [])
  {
    hide Waiting, PackageTotal, SumSet, Building, WithinLimits, Greedy, Best, IsPackage, Candidates.WellFormed, Under, Elems, AsideRefused, HasRoom, Few,
         Leads, Scores, TotalsOf;
    ghost var l := Limits(maxBlocks, weightLimit, sigopLimit);
    transactions, blockWeight, blockSigops, used, failures, packages := transactions0, blockWeight0, blockSigops0, used0, failures0, packages0;
    var next;
    next, waiting, modified := SelectNext(pool, waiting0, modified0, used, anc0, aside0);
    aside := aside0 + if next.Some? then {next.value} else {};
    if next.Some? && next.value !in used {
      NextTotals(pool, anc0, used, waiting, modified, aside, next.value);
      BuildingParts(pool.c, anc0, packages0, used0, transactions0, blockWeight0, blockSigops0);
      RoomNow(pool.c, anc0, l, packages0, next.value, used0, blockWeight0, blockSigops0);
      if maxBlocks - 1 <= 0 || (Under(blockWeight + 4 * pool.ancestorSize[next.value], weightLimit)
                                && (sigopLimit.None? || blockSigops + pool.ancestorSigops[next.value] <= sigopLimit.value)) {
        modified, transactions, blockWeight, blockSigops, used, packages :=
          PlacePackage(pool, next.value, waiting, modified, transactions, blockWeight, blockSigops, used, anc0, packages, aside);
        failures := 0;
        PackageNotEmpty(anc0, used0, packages[|packages0|]);
        StillBest(pool.c, anc0, l, used0, used, aside0, packages0, packages);
        StillWithin(pool.c, anc0, maxBlocks, weightLimit, sigopLimit, used0, packages[|packages0|], blockWeight0, blockSigops0);
      } else {
        failures := failures + 1;
        RefusedNow(pool.c, anc0, l, packages0, next.value);
        AsideMore(pool.c, anc0, l, packages0, used0, aside0, next.value);
      }
    } else if next.Some? {
      AsideMore(pool.c, anc0, l, packages0, used0, aside0, next.value);
    } else {
      assert aside0 + {} == aside0;
    }
    if failures == 0 && used != used0 {
      ModifiedCount(pool, anc0, used, waiting0, modified0, failures0, waiting, modified, aside);
    } else {
      FewLess(pool.c, waiting0, modified0, failures0, waiting, modified, failures);
    }
  }

  lemma AsideMore(c: Candidates, anc0: Relatives, l: Limits, packages: seq<seq<Txid>>, used: set<Txid>, aside: set<Txid>, x: Txid)
    requires AsideRefused(c, anc0, l, packages, used, aside) && (x in used || Refused(c, anc0, l, packages, x))
    ensures AsideRefused(c, anc0, l, packages, used, aside + {x})
  {
    hide Refused;
  }

  lemma RoomNow(c: Candidates, anc0: Relatives, l: Limits, packages: seq<seq<Txid>>, x: Txid, used: set<Txid>, blockWeight: int, blockSigops: int)
    requires used == Placed(packages) && blockWeight == SumSet(c.weight, used) && blockSigops == SumSet(c.sigops, used)
    ensures HasRoom(c, anc0, l, packages, x) <==>
            l.maxBlocks - 1 <= 0 || (Under(blockWeight + 4 * PackageTotal(c.size, anc0, used, x), l.weight)
                                     && (l.sigops.None? || blockSigops + PackageTotal(c.sigops, anc0, used, x) <= l.sigops.value))
  {
    hide PackageTotal, SumSet;
  }

  lemma PackageNotEmpty(anc0: Relatives, used: set<Txid>, package: seq<Txid>)
    requires IsPackage(anc0, used, package)
    ensures package != []
  {
  }

  /** Chooses packages by descending ancestor feerate until the block is full or nothing waits: always a
      best one of those that had room all the time. With one block there is no limit, and every candidate
      is placed. With more, there was no room for what is not placed, or the block is nearly full. */
  method MakeBlockTemplate(c: Candidates, candidates: seq<Txid>, maxBlocks: int, weightLimit: Option<int>, sigopLimit: Option<int>, ghost rank: map<Txid, nat>)
    returns (transactions: seq<Txid>, ghost packages: seq<seq<Txid>>, ghost anc0: Relatives)
    requires c.WellFormed() && c.Ranked(rank) && Distinct(candidates) && Elems(candidates) == c.Keys()
    ensures Ancestry(c, anc0) && Packaged(anc0, packages) && transactions == Output(packages) && Placed(packages) <= c.Keys()
    ensures Distinct(transactions) && Elems(transactions) == Placed(packages)
    ensures Greedy(c, anc0, Limits(maxBlocks, weightLimit, sigopLimit), packages) && (maxBlocks <= 1 ==> Placed(packages) == c.Keys())
    ensures AllRefused(c, anc0, Limits(maxBlocks, weightLimit, sigopLimit), packages) || NearlyFull(c, Limits(maxBlocks, weightLimit, sigopLimit), packages)
    ensures maxBlocks > 1 && SizesCover(c) && transactions != [] ==> Under(SumSet(c.weight, Placed(packages)), weightLimit)
    ensures maxBlocks > 1 && transactions != [] ==> sigopLimit.None? || SumSet(c.sigops, Placed(packages)) <= sigopLimit.value
  {
    hide AuditPool.Left, Unchanged, Queues, InStartOrder, Kahn.SortedBy, SumSet, Building, FeerateThen, Greedy, Best, IsPackage, Candidates.Ranked,
         Candidates.WellFormed, Ancestry, Packaged, SizesCover, Waiting, PackageTotal, WithinLimits, Placed, Output, Distinct, Elems, Under, AllRefused, Running, NearlyFull;
    ghost var l := Limits(maxBlocks, weightLimit, sigopLimit);
    var pool := new AuditPool(c);
    pool.SetAllRelatives(candidates, rank);
    LeftStart(pool, rank);
    anc0 := pool.ancestorMap;
    var waiting := SortCandidates(pool, candidates);
    var modified: seq<Txid> := [];
    var used: set<Txid> := {};
    var blockWeight, blockSigops, failures := 0, 0, 0;
    transactions, packages := [], [];
    ghost var aside: set<Txid> := {};
    StartRunning(pool, anc0, l, waiting);
    while waiting != [] || modified != []
      invariant pool.c == c && fresh(pool)
      invariant Running(pool, anc0, l, waiting, modified, transactions, blockWeight, blockSigops, used, failures, packages, aside)
      decreases c.Keys() - used, |waiting| + |modified|
    {
      waiting, modified, transactions, blockWeight, blockSigops, used, failures, packages, aside :=
        TakeNext(pool, waiting, modified, transactions, blockWeight, blockSigops, used, failures, maxBlocks, weightLimit, sigopLimit, anc0, packages, aside);
      UsedInside(pool, anc0, l, waiting, modified, transactions, blockWeight, blockSigops, used, failures, packages, aside);
      if (failures > 1000 && weightLimit.Some? && blockWeight > weightLimit.value - 4000) || (waiting == [] && modified == []) {
        break;
      }
    }
    EndedPlaced(pool, anc0, l, waiting, modified, transactions, blockWeight, blockSigops, used, failures, packages, aside);
    EndedWithin(pool, anc0, l, waiting, modified, transactions, blockWeight, blockSigops, used, failures, packages, aside);
    EndedRefused(pool, anc0, l, waiting, modified, transactions, blockWeight, blockSigops, used, failures, packages, aside);
  }

  /** The block is within 4000 of its limit, and there are more than five hundred candidates. */
  ghost predicate NearlyFull(c: Candidates, l: Limits, packages: seq<seq<Txid>>) {
    l.weight.Some? && SumSet(c.weight, Placed(packages)) > l.weight.value - 4000 && 2 * |c.Keys()| > 1000
  }

  /** What the loop knows. */
  ghost predicate Running(pool: AuditPool, anc0: Relatives, l: Limits, waiting: seq<Txid>, modified: seq<Txid>, transactions: seq<Txid>, blockWeight: int, blockSigops: int,
                          used: set<Txid>, failures: nat, packages: seq<seq<Txid>>, aside: set<Txid>)
    reads pool
  {
    && Waiting(pool, anc0, used, waiting, modified, aside) && Building(pool.c, anc0, packages, used, transactions, blockWeight, blockSigops)
    && WithinLimits(pool.c, l.maxBlocks, l.weight, l.sigops, transactions != [], blockWeight, blockSigops)
    && AsideRefused(pool.c, anc0, l, packages, used, aside) && Greedy(pool.c, anc0, l, packages)
    && (l.maxBlocks <= 1 ==> failures == 0) && Few(pool.c, waiting, modified, failures)
  }

  lemma StartRunning(pool: AuditPool, anc0: Relatives, l: Limits, waiting: seq<Txid>)
    requires Waiting(pool, anc0, {}, waiting, [], {}) && Distinct(waiting)
    ensures Running(pool, anc0, l, waiting, [], [], 0, 0, {}, 0, [], {})
  {
    hide Waiting, Building, WithinLimits, AsideRefused, Greedy, Few;
    BuildingNone(pool.c, anc0);
    GreedyNone(pool.c, anc0, l);
    WaitingCount(pool, anc0, waiting);
    LimitsStart(pool.c, l.maxBlocks, l.weight, l.sigops);
  }

  lemma UsedInside(pool: AuditPool, anc0: Relatives, l: Limits, waiting: seq<Txid>, modified: seq<Txid>, transactions: seq<Txid>, blockWeight: int, blockSigops: int,
                   used: set<Txid>, failures: nat, packages: seq<seq<Txid>>, aside: set<Txid>)
    requires Running(pool, anc0, l, waiting, modified, transactions, blockWeight, blockSigops, used, failures, packages, aside)
    ensures used <= pool.c.Keys()
  {
    hide Waiting, WithinLimits, AsideRefused, Greedy, Few;
  }

  /** Failures in a row use up entries, of which there are at most two for each candidate. */
  ghost predicate Few(c: Candidates, waiting: seq<Txid>, modified: seq<Txid>, failures: nat) {
    |waiting| <= |c.Keys()| && failures + |waiting| + |modified| <= 2 * |c.Keys()|
  }

  lemma FewLess(c: Candidates, waiting0: seq<Txid>, modified0: seq<Txid>, failures0: nat, waiting: seq<Txid>, modified: seq<Txid>, failures: nat)
    requires |waiting| <= |waiting0| && failures + |waiting| + |modified| <= failures0 + |waiting0| + |modified0|
    ensures Few(c, waiting0, modified0, failures0) ==> Few(c, waiting, modified, failures)
  {
  }

  /** What the packages say of the block. */
  lemma EndedPlaced(pool: AuditPool, anc0: Relatives, l: Limits, waiting: seq<Txid>, modified: seq<Txid>, transactions: seq<Txid>, blockWeight: int, blockSigops: int,
                    used: set<Txid>, failures: nat, packages: seq<seq<Txid>>, aside: set<Txid>)
    requires Running(pool, anc0, l, waiting, modified, transactions, blockWeight, blockSigops, used, failures, packages, aside)
    ensures Packaged(anc0, packages) && transactions == Output(packages) && used == Placed(packages) && used <= pool.c.Keys()
    ensures Distinct(transactions) && Elems(transactions) == used && Greedy(pool.c, anc0, l, packages)
  {
    hide Waiting, Building, WithinLimits, AsideRefused, Greedy, Few, SumSet, Placed, Packaged, Output, Distinct, Elems;
    BuildingParts(pool.c, anc0, packages, used, transactions, blockWeight, blockSigops);
    OutputDistinct(anc0, packages);
  }

  /** A block that has a transaction is within both limits if there may be more than one. */
  lemma EndedWithin(pool: AuditPool, anc0: Relatives, l: Limits, waiting: seq<Txid>, modified: seq<Txid>, transactions: seq<Txid>, blockWeight: int, blockSigops: int,
                    used: set<Txid>, failures: nat, packages: seq<seq<Txid>>, aside: set<Txid>)
    requires Running(pool, anc0, l, waiting, modified, transactions, blockWeight, blockSigops, used, failures, packages, aside)
    ensures used == Placed(packages) && used <= pool.c.Keys()
    ensures l.maxBlocks > 1 && transactions != [] ==>
              && (SizesCover(pool.c) ==> Under(SumSet(pool.c.weight, used), l.weight))
              && (l.sigops.None? || SumSet(pool.c.sigops, used) <= l.sigops.value)
  {
    hide Waiting, Building, WithinLimits, AsideRefused, Greedy, Few, SumSet, Placed, Packaged, Output, SizesCover, Under;
    BuildingParts(pool.c, anc0, packages, used, transactions, blockWeight, blockSigops);
    LimitsEnd(pool.c, l.maxBlocks, l.weight, l.sigops, transactions != [], blockWeight, blockSigops);
  }

  /** Nothing waits, or too many packages in a row failed to fit a nearly full block. */
  lemma EndedRefused(pool: AuditPool, anc0: Relatives, l: Limits, waiting: seq<Txid>, modified: seq<Txid>, transactions: seq<Txid>, blockWeight: int, blockSigops: int,
                     used: set<Txid>, failures: nat, packages: seq<seq<Txid>>, aside: set<Txid>)
    requires Running(pool, anc0, l, waiting, modified, transactions, blockWeight, blockSigops, used, failures, packages, aside)
    requires (waiting == [] && modified == []) || (failures > 1000 && l.weight.Some? && blockWeight > l.weight.value - 4000)
    ensures AllRefused(pool.c, anc0, l, packages) || NearlyFull(pool.c, l, packages)
    ensures l.maxBlocks <= 1 ==> Placed(packages) == pool.c.Keys()
  {
    hide Waiting, Building, WithinLimits, AsideRefused, Greedy, Refused, SumSet, Placed, Packaged, Output;
    BuildingParts(pool.c, anc0, packages, used, transactions, blockWeight, blockSigops);
    if waiting == [] && modified == [] {
      NothingWaits(pool, anc0, l, packages, used, aside);
      AllPlaced(pool.c, anc0, l, packages);
    }
  }

  /** No candidate is in the second queue twice. */
  lemma ModifiedCount(pool: AuditPool, anc0: Relatives, used: set<Txid>, waiting0: seq<Txid>, modified0: seq<Txid>, failures0: nat,
                      waiting: seq<Txid>, modified: seq<Txid>, aside: set<Txid>)
    requires Waiting(pool, anc0, used, waiting, modified, aside) && |waiting| <= |waiting0|
    ensures Few(pool.c, waiting0, modified0, failures0) ==> Few(pool.c, waiting, modified, 0)
  {
    hide AuditPool.Left, Unchanged, InStartOrder, Kahn.SortedBy;
    DistinctLength(modified);
    SubsetSize(Elems(modified), pool.c.Keys());
  }

  lemma WaitingCount(pool: AuditPool, anc0: Relatives, waiting: seq<Txid>)
    requires Waiting(pool, anc0, {}, waiting, [], {}) && Distinct(waiting)
    ensures Few(pool.c, waiting, [], 0)
  {
    hide AuditPool.Left, Unchanged, InStartOrder, Kahn.SortedBy;
    DistinctLength(waiting);
    SubsetSize(Elems(waiting), pool.c.Keys());
  }

  lemma {:induction false} DistinctLength(s: seq<Txid>)
    requires Distinct(s)
    ensures |s| == |Elems(s)|
  {
    if s != [] {
      var n := |s| - 1;
      assert s == s[..n] + [s[n]];
      DistinctConcat(s[..n], [s[n]]);
      ElemsConcat(s[..n], [s[n]]);
      DistinctLength(s[..n]);
      assert Elems([s[n]]) == {s[n]};
    }
  }

  lemma GreedyNone(c: Candidates, anc0: Relatives, l: Limits)
    ensures Greedy(c, anc0, l, []) && AsideRefused(c, anc0, l, [], {}, {})
  {
  }

  lemma AllPlaced(c: Candidates, anc0: Relatives, l: Limits, packages: seq<seq<Txid>>)
    requires Placed(packages) <= c.Keys() && forall u | u in c.Keys() && u !in Placed(packages) :: Refused(c, anc0, l, packages, u)
    ensures l.maxBlocks <= 1 ==> Placed(packages) == c.Keys()
  {
    hide Refused;
    forall u | l.maxBlocks <= 1 && u in c.Keys() ensures u in Placed(packages) {
      OneBlockRefusesNone(c, anc0, l, packages, u);
    }
  }

  lemma LimitsEnd(c: Candidates, maxBlocks: int, weightLimit: Option<int>, sigopLimit: Option<int>, started: bool, blockWeight: int, blockSigops: int)
    requires WithinLimits(c, maxBlocks, weightLimit, sigopLimit, started, blockWeight, blockSigops)
    ensures maxBlocks > 1 && SizesCover(c) && started ==> Under(blockWeight, weightLimit)
    ensures maxBlocks > 1 && started ==> sigopLimit.None? || blockSigops <= sigopLimit.value
  {
  }

  lemma NextTotals(pool: AuditPool, anc0: Relatives, used: set<Txid>, waiting: seq<Txid>, modified: seq<Txid>, aside: set<Txid>, x: Txid)
    requires Waiting(pool, anc0, used, waiting, modified, aside) && x in pool.c.Keys()
    ensures x in pool.ancestorSize && pool.ancestorSize[x] == PackageTotal(pool.c.size, anc0, used, x)
    ensures x in pool.ancestorSigops && pool.ancestorSigops[x] == PackageTotal(pool.c.sigops, anc0, used, x)
  {
    WaitingTotals(pool, anc0, used);
  }

  ghost predicate WithinLimits(c: Candidates, maxBlocks: int, weightLimit: Option<int>, sigopLimit: Option<int>, started: bool, blockWeight: int, blockSigops: int) {
    maxBlocks > 1 && started ==>
      && (SizesCover(c) ==> Under(blockWeight, weightLimit))
      && (sigopLimit.None? || blockSigops <= sigopLimit.value)
  }

  lemma LimitsStart(c: Candidates, maxBlocks: int, weightLimit: Option<int>, sigopLimit: Option<int>)
    ensures WithinLimits(c, maxBlocks, weightLimit, sigopLimit, false, 0, 0)
  {
  }

  lemma StillWithin(c: Candidates, anc0: Relatives, maxBlocks: int, weightLimit: Option<int>, sigopLimit: Option<int>, used: set<Txid>, package: seq<Txid>,
                    blockWeight: int, blockSigops: int)
    requires IsPackage(anc0, used, package) && Elems(package) <= c.Keys()
    requires maxBlocks > 1 ==> Under(blockWeight + 4 * PackageTotal(c.size, anc0, used, package[|package| - 1]), weightLimit)
    requires maxBlocks > 1 ==> sigopLimit.None? || blockSigops + PackageTotal(c.sigops, anc0, used, package[|package| - 1]) <= sigopLimit.value
    ensures WithinLimits(c, maxBlocks, weightLimit, sigopLimit, true, blockWeight + SumSet(c.weight, Elems(package)), blockSigops + SumSet(c.sigops, Elems(package)))
  {
    hide IsPackage, PackageTotal, SizesCover;
    if maxBlocks > 1 {
      FitsInBlock(c, anc0, used, package, blockWeight, blockSigops, weightLimit, sigopLimit);
    }
  }

  lemma StillBest(c: Candidates, anc0: Relatives, l: Limits, used0: set<Txid>, used: set<Txid>, aside: set<Txid>, earlier: seq<seq<Txid>>, packages: seq<seq<Txid>>)
    requires |packages| == |earlier| + 1 && packages[..|earlier|] == earlier && used0 == Placed(earlier) && used0 <= used
    requires Greedy(c, anc0, l, earlier) && AsideRefused(c, anc0, l, earlier, used0, aside)
    requires var p := packages[|earlier|];
             p != [] && p[|p| - 1] in used && Best(c, anc0, used0, c.Keys() - used0 - aside, p[|p| - 1]) && HasRoom(c, anc0, l, earlier, p[|p| - 1])
    ensures Greedy(c, anc0, l, packages) && AsideRefused(c, anc0, l, packages, used, aside + {packages[|earlier|][|packages[|earlier|]| - 1]})
  {
    hide Greedy, HasRoom, Refused, Placed, NotBetter;
    var p := packages[|earlier|];
    assert packages == earlier + [p];
    forall x | x in aside ensures x in used || Refused(c, anc0, l, packages, x) {
      if x !in used0 {
        RefusedStays(c, anc0, l, earlier, p, x);
      }
    }
    GreedyMore(c, anc0, l, earlier, p);
  }

  lemma BuildingParts(c: Candidates, anc0: Relatives, packages: seq<seq<Txid>>, used: set<Txid>, transactions: seq<Txid>, blockWeight: int, blockSigops: int)
    requires Building(c, anc0, packages, used, transactions, blockWeight, blockSigops)
    ensures Packaged(anc0, packages) && used == Placed(packages) <= c.Keys() && transactions == Output(packages)
    ensures blockWeight == SumSet(c.weight, used) && blockSigops == SumSet(c.sigops, used)
  {
  }
}
