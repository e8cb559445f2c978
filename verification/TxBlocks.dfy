/** What a list of block templates should be: whole packages, ancestors first, limits kept, and the
    package of highest score at every place where the builder can know it. */
module TxBlocks {
  import opened Graph
  import opened AuditPool
  import opened MiniMiner
  import opened TxQueues

  const BLOCK_WEIGHT_UNITS := 4_000_000
  const RESERVED_WEIGHT := 4000
  const MAX_SIGOPS := 80_000
  const LIMITED_BLOCKS := 7
  const MAX_FAILURES := 1000

  function Flat(blocks: seq<seq<Txid>>): seq<Txid> {
    if blocks == [] then [] else Flat(blocks[..|blocks| - 1]) + blocks[|blocks| - 1]
  }

  lemma FlatMore(blocks: seq<seq<Txid>>, block: seq<Txid>)
    ensures Flat(blocks + [block]) == Flat(blocks) + block
  {
    assert (blocks + [block])[..|blocks|] == blocks;
  }

  /** The weight of a block, with what is reserved. */
  ghost function BlockWeight(c: Candidates, block: seq<Txid>): int {
    RESERVED_WEIGHT + SumSet(c.size, Elems(block))
  }

  /** Every transaction comes with its ancestors, in its own block or an earlier one. */
  ghost predicate AncestorsFirst(anc0: Relatives, blocks: seq<seq<Txid>>) {
    forall k, x | 0 <= k < |blocks| && x in blocks[k] :: Of(anc0, x) <= Elems(Flat(blocks[..k + 1]))
  }

  /** The first seven blocks are within the limit. */
  ghost predicate Limited(c: Candidates, blocks: seq<seq<Txid>>) {
    forall k | 0 <= k < |blocks| && k < LIMITED_BLOCKS :: BlockWeight(c, blocks[k]) < BLOCK_WEIGHT_UNITS
  }

  lemma AncestorsFirstMore(anc0: Relatives, blocks: seq<seq<Txid>>, block: seq<Txid>)
    requires AncestorsFirst(anc0, blocks) && forall x | x in block :: Of(anc0, x) <= Elems(Flat(blocks)) + Elems(block)
    ensures AncestorsFirst(anc0, blocks + [block])
  {
    var all := blocks + [block];
    forall k, x | 0 <= k < |all| && x in all[k] ensures Of(anc0, x) <= Elems(Flat(all[..k + 1])) {
      if k < |blocks| {
        assert all[..k + 1] == blocks[..k + 1];
      } else {
        assert all[..k + 1] == all;
        FlatMore(blocks, block);
        ElemsConcat(Flat(blocks), block);
      }
    }
  }

  /** The ancestors of the block in progress are placed. */
  ghost predicate OwnAncestors(anc0: Relatives, transactions: seq<Txid>, used: set<Txid>) {
    forall x | x in transactions :: Of(anc0, x) <= used
  }

  /** What is placed, each transaction once. */
  ghost predicate Holds(c: Candidates, blocks: seq<seq<Txid>>, transactions: seq<Txid>, used: set<Txid>) {
    Distinct(Flat(blocks) + transactions) && used == Elems(Flat(blocks) + transactions) <= c.Keys()
  }

  // ---------- which package comes next

  /** A package that fits a block of the given weight. */
  predicate Fits(blockWeight: int, ancestorSize: int, ancestorSigops: int) {
    blockWeight + ancestorSize < BLOCK_WEIGHT_UNITS && ancestorSigops <= MAX_SIGOPS
  }

  /** After the packages `done` of a block, with `before` in earlier ones, the package of `x` fits. */
  ghost predicate FitsAfter(c: Candidates, anc0: Relatives, before: set<Txid>, done: seq<seq<Txid>>, x: Txid) {
    var placed := before + Placed(done);
    && RESERVED_WEIGHT + SumSet(c.size, Placed(done)) + PackageTotal(c.size, anc0, placed, x) < BLOCK_WEIGHT_UNITS
    && PackageTotal(c.sigops, anc0, placed, x) <= MAX_SIGOPS
  }

  /** Alone in a block, the package of `x` is too big. */
  ghost predicate TooBig(c: Candidates, anc0: Relatives, placed: set<Txid>, x: Txid) {
    RESERVED_WEIGHT + PackageTotal(c.size, anc0, placed, x) >= BLOCK_WEIGHT_UNITS || PackageTotal(c.sigops, anc0, placed, x) > MAX_SIGOPS
  }

  /** At some time in the block so far, the package of `x` did not fit. */
  ghost predicate Rejected(c: Candidates, anc0: Relatives, before: set<Txid>, done: seq<seq<Txid>>, x: Txid) {
    exists j: nat | j <= |done| :: !FitsAfter(c, anc0, before, done[..j], x)
  }

  /** Whose package may come next: unplaced candidates and, while there is a limit, only those whose
      package fitted all the time. */
  ghost function Contenders(c: Candidates, anc0: Relatives, before: set<Txid>, done: seq<seq<Txid>>, limited: bool): set<Txid> {
    set u | u in c.Keys() && u !in before + Placed(done) && (limited ==> !Rejected(c, anc0, before, done, u))
  }

  /** Too few entries for a block to be closed while the queues still hold some. */
  ghost predicate Small(c: Candidates, anc0: Relatives) {
    |c.Keys()| + |Shares(anc0, c.Keys())| <= MAX_FAILURES
  }

  /** A limited block ends when nothing fits any more, or when it is nearly full and the pool is not small. */
  ghost predicate EndsRight(c: Candidates, anc0: Relatives, before: set<Txid>, block: seq<Txid>, packages: seq<seq<Txid>>) {
    || (BlockWeight(c, block) > BLOCK_WEIGHT_UNITS - 4000 && !Small(c, anc0))
    || forall u | u in c.Keys() && u !in before + Elems(block) :: Rejected(c, anc0, before, packages, u)
  }

  ghost predicate AllEndRight(c: Candidates, anc0: Relatives, blocks: seq<seq<Txid>>, picks: seq<seq<seq<Txid>>>) {
    && |picks| == |blocks|
    && forall k | 0 <= k < |blocks| && k < LIMITED_BLOCKS :: EndsRight(c, anc0, Elems(Flat(blocks[..k])), blocks[k], picks[k])
  }

  lemma AllEndRightMore(c: Candidates, anc0: Relatives, blocks: seq<seq<Txid>>, picks: seq<seq<seq<Txid>>>, block: seq<Txid>, done: seq<seq<Txid>>)
    requires AllEndRight(c, anc0, blocks, picks) && (|blocks| < LIMITED_BLOCKS ==> EndsRight(c, anc0, Elems(Flat(blocks)), block, done))
    ensures AllEndRight(c, anc0, blocks + [block], picks + [done])
  {
    hide EndsRight, Flat, Elems;
    var all, allPicks := blocks + [block], picks + [done];
    forall k | 0 <= k < |all| && k < LIMITED_BLOCKS ensures EndsRight(c, anc0, Elems(Flat(all[..k])), all[k], allPicks[k]) {
      assert all[..k] == blocks[..k] && blocks[..|blocks|] == blocks;
    }
  }

  /** In numbers: with what the block holds by then, the package reaches the limit. */
  lemma RejectedMeans(c: Candidates, anc0: Relatives, before: set<Txid>, done: seq<seq<Txid>>, x: Txid)
    ensures Rejected(c, anc0, before, done, x) <==>
            exists j: nat | j <= |done| ::
              var inside := Placed(done[..j]);
              || 4000 + SumSet(c.size, inside) + PackageTotal(c.size, anc0, before + inside, x) >= 4_000_000
              || PackageTotal(c.sigops, anc0, before + inside, x) > 80_000
  {
    hide PackageTotal, SumSet, Placed;
    forall j: nat | j <= |done|
      ensures !FitsAfter(c, anc0, before, done[..j], x) <==>
              4000 + SumSet(c.size, Placed(done[..j])) + PackageTotal(c.size, anc0, before + Placed(done[..j]), x) >= 4_000_000
              || PackageTotal(c.sigops, anc0, before + Placed(done[..j]), x) > 80_000
    {
    }
  }

  /** The heap is in order when block `k` begins: it is the first, or the one before it was closed with
      empty queues, or began in order and nothing in it disturbed the order. */
  ghost predicate Steady(c: Candidates, anc0: Relatives, blocks: seq<seq<Txid>>, k: nat)
    requires k <= |blocks|
  {
    || k == 0 || Small(c, anc0) || BlockWeight(c, blocks[k - 1]) <= BLOCK_WEIGHT_UNITS - 4000
    || (Steady(c, anc0, blocks, k - 1) && Undisturbed(anc0, Elems(Flat(blocks[..k - 1])), Elems(blocks[k - 1])))
  }

  /** A whole package that fits and, unless the order was disturbed, is one that no contender beats. */
  ghost predicate GoodPick(c: Candidates, anc0: Relatives, before: set<Txid>, done: seq<seq<Txid>>, package: seq<Txid>, limited: bool, steady: bool) {
    && IsPackage(anc0, before + Placed(done), package) && package != []
    && (limited ==> FitsAfter(c, anc0, before, done, package[|package| - 1]))
    && (steady && Undisturbed(anc0, before, Placed(done)) ==>
          Best(c, anc0, before + Placed(done), Contenders(c, anc0, before, done, limited), package[|package| - 1]))
  }

  ghost predicate GoodPicks(c: Candidates, anc0: Relatives, before: set<Txid>, packages: seq<seq<Txid>>, limited: bool, steady: bool) {
    forall i | 0 <= i < |packages| :: GoodPick(c, anc0, before, packages[..i], packages[i], limited, steady)
  }

  /** The packages of every block, in the order they were picked. */
  ghost predicate AllGoodPicks(c: Candidates, anc0: Relatives, blocks: seq<seq<Txid>>, picks: seq<seq<seq<Txid>>>) {
    && |picks| == |blocks|
    && forall k | 0 <= k < |blocks| ::
         blocks[k] == Output(picks[k]) && GoodPicks(c, anc0, Elems(Flat(blocks[..k])), picks[k], k < LIMITED_BLOCKS, Steady(c, anc0, blocks, k))
  }

  lemma GoodPicksMore(c: Candidates, anc0: Relatives, before: set<Txid>, packages: seq<seq<Txid>>, package: seq<Txid>, limited: bool, steady: bool)
    requires GoodPicks(c, anc0, before, packages, limited, steady) && GoodPick(c, anc0, before, packages, package, limited, steady)
    ensures GoodPicks(c, anc0, before, packages + [package], limited, steady)
  {
    hide GoodPick;
    var all := packages + [package];
    assert all[..|packages|] == packages && forall i | 0 <= i < |packages| :: all[..i] == packages[..i] && all[i] == packages[i];
  }

  /** Steadiness of a block depends on the earlier ones only. */
  lemma {:induction false} SteadySame(c: Candidates, anc0: Relatives, blocks: seq<seq<Txid>>, block: seq<Txid>, k: nat)
    requires k <= |blocks|
    ensures Steady(c, anc0, blocks + [block], k) == Steady(c, anc0, blocks, k)
  {
    hide Undisturbed, Small, BlockWeight;
    if k > 0 {
      SteadySame(c, anc0, blocks, block, k - 1);
      assert (blocks + [block])[..k - 1] == blocks[..k - 1];
    }
  }

  lemma AllGoodPicksMore(c: Candidates, anc0: Relatives, blocks: seq<seq<Txid>>, picks: seq<seq<seq<Txid>>>, done: seq<seq<Txid>>)
    requires AllGoodPicks(c, anc0, blocks, picks)
    requires GoodPicks(c, anc0, Elems(Flat(blocks)), done, |blocks| < LIMITED_BLOCKS, Steady(c, anc0, blocks, |blocks|))
    ensures AllGoodPicks(c, anc0, blocks + [Output(done)], picks + [done])
  {
    hide GoodPicks, Flat, Elems, Output, Steady;
    var all, allPicks := blocks + [Output(done)], picks + [done];
    assert all[..|blocks|] == blocks;
    forall k | 0 <= k < |all|
      ensures all[k] == Output(allPicks[k]) && GoodPicks(c, anc0, Elems(Flat(all[..k])), allPicks[k], k < LIMITED_BLOCKS, Steady(c, anc0, all, k))
    {
      SteadySame(c, anc0, blocks, Output(done), k);
      if k < |blocks| {
        assert all[..k] == blocks[..k];
      }
    }
  }

  lemma RejectedStays(c: Candidates, anc0: Relatives, before: set<Txid>, done: seq<seq<Txid>>, package: seq<Txid>, x: Txid)
    requires Rejected(c, anc0, before, done, x)
    ensures Rejected(c, anc0, before, done + [package], x)
  {
    hide FitsAfter;
    var j: nat :| j <= |done| && !FitsAfter(c, anc0, before, done[..j], x);
    assert (done + [package])[..j] == done[..j];
  }

  lemma RejectedNow(c: Candidates, anc0: Relatives, before: set<Txid>, done: seq<seq<Txid>>, x: Txid)
    requires !FitsAfter(c, anc0, before, done, x)
    ensures Rejected(c, anc0, before, done, x)
  {
    hide FitsAfter;
    assert done[..|done|] == done;
  }

  lemma RejectedFirst(c: Candidates, anc0: Relatives, before: set<Txid>, x: Txid)
    ensures Rejected(c, anc0, before, [], x) <==> TooBig(c, anc0, before, x)
  {
    hide PackageTotal, Fits;
    var none: seq<seq<Txid>> := [];
    assert none[..0] == none && Placed(none) == {} && before + {} == before && SumSet(c.size, {}) == 0;
    assert FitsAfter(c, anc0, before, none, x) <==> !TooBig(c, anc0, before, x);
  }

  // ---------- the packages of a block

  /** Packages are apart from what is placed and from each other. */
  lemma {:induction false} PicksApart(c: Candidates, anc0: Relatives, before: set<Txid>, packages: seq<seq<Txid>>, limited: bool, steady: bool)
    requires GoodPicks(c, anc0, before, packages, limited, steady)
    ensures Placed(packages) !! before && Elems(Output(packages)) == Placed(packages)
  {
    hide GoodPicks, GoodPick;
    assert Placed([]) == {} && Elems(Output([])) == {} by { NoPicks(); }
    if packages != [] {
      var n := |packages| - 1;
      var front := packages[..n];
      LastPick(c, anc0, before, packages, limited, steady);
      PicksApart(c, anc0, before, front, limited, steady);
      PlacedMore(front, packages[n]);
      BackwardsElems(packages[n]);
      ElemsConcat(Output(front), Backwards(packages[n]));
      PickApart(c, anc0, before, front, packages[n], limited, steady);
    }
  }

  lemma NoPicks()
    ensures Placed([]) == {} && Elems(Output([])) == {}
  {
  }

  lemma LastPick(c: Candidates, anc0: Relatives, before: set<Txid>, packages: seq<seq<Txid>>, limited: bool, steady: bool)
    requires GoodPicks(c, anc0, before, packages, limited, steady) && packages != []
    ensures var n := |packages| - 1; var front := packages[..n];
            && packages == front + [packages[n]] && Output(packages) == Output(front) + Backwards(packages[n])
            && GoodPicks(c, anc0, before, front, limited, steady) && GoodPick(c, anc0, before, front, packages[n], limited, steady)
  {
    hide GoodPick;
    var n := |packages| - 1;
    var front := packages[..n];
    assert packages == front + [packages[n]] && forall i | 0 <= i < n :: packages[..i] == front[..i];
  }

  lemma PickApart(c: Candidates, anc0: Relatives, before: set<Txid>, done: seq<seq<Txid>>, package: seq<Txid>, limited: bool, steady: bool)
    requires GoodPick(c, anc0, before, done, package, limited, steady)
    ensures Elems(package) !! before + Placed(done)
  {
    hide Best, Contenders, FitsAfter;
  }

  // ---------- when every pick is known to be best

  lemma PickIsBest(c: Candidates, anc0: Relatives, blocks: seq<seq<Txid>>, picks: seq<seq<seq<Txid>>>, k: nat, i: nat)
    requires AllGoodPicks(c, anc0, blocks, picks) && k < |blocks| && i < |picks[k]|
    requires Steady(c, anc0, blocks, k) && Undisturbed(anc0, Elems(Flat(blocks[..k])), Placed(picks[k][..i]))
    ensures var before, done, package := Elems(Flat(blocks[..k])), picks[k][..i], picks[k][i];
            package != [] && Best(c, anc0, before + Placed(done), Contenders(c, anc0, before, done, k < LIMITED_BLOCKS), package[|package| - 1])
  {
    hide Best, Contenders, Steady, Undisturbed, IsPackage, FitsAfter;
    assert GoodPick(c, anc0, Elems(Flat(blocks[..k])), picks[k][..i], picks[k][i], k < LIMITED_BLOCKS, Steady(c, anc0, blocks, k));
  }

  /** In the first block every pick is best. */
  lemma FirstBlockBest(c: Candidates, anc0: Relatives, blocks: seq<seq<Txid>>, picks: seq<seq<seq<Txid>>>, i: nat)
    requires AllGoodPicks(c, anc0, blocks, picks) && blocks != [] && i < |picks[0]|
    ensures picks[0][i] != []
    ensures Best(c, anc0, Placed(picks[0][..i]), Contenders(c, anc0, {}, picks[0][..i], true), picks[0][i][|picks[0][i]| - 1])
  {
    hide Best, Contenders, GoodPicks;
    assert blocks[..0] == [] && Elems(Flat(blocks[..0])) == {};
    PickIsBest(c, anc0, blocks, picks, 0, i);
    assert {} + Placed(picks[0][..i]) == Placed(picks[0][..i]);
  }

  /** If nothing has two ancestors, every pick of every block is best. */
  lemma SingleAncestorsBest(c: Candidates, anc0: Relatives, blocks: seq<seq<Txid>>, picks: seq<seq<seq<Txid>>>, k: nat, i: nat)
    requires AllGoodPicks(c, anc0, blocks, picks) && k < |blocks| && i < |picks[k]|
    requires forall x | x in anc0 :: |anc0[x]| <= 1
    ensures var before, done, package := Elems(Flat(blocks[..k])), picks[k][..i], picks[k][i];
            package != [] && Best(c, anc0, before + Placed(done), Contenders(c, anc0, before, done, k < LIMITED_BLOCKS), package[|package| - 1])
  {
    hide Best, Contenders, GoodPick;
    SingleSteady(c, anc0, blocks, picks, k);
    var done := picks[k][..i];
    assert GoodPicks(c, anc0, Elems(Flat(blocks[..k])), picks[k], k < LIMITED_BLOCKS, Steady(c, anc0, blocks, k));
    FrontPicks(c, anc0, Elems(Flat(blocks[..k])), picks[k], i, k < LIMITED_BLOCKS, Steady(c, anc0, blocks, k));
    PicksApart(c, anc0, Elems(Flat(blocks[..k])), done, k < LIMITED_BLOCKS, Steady(c, anc0, blocks, k));
    SingleUndisturbed(anc0, Elems(Flat(blocks[..k])), Placed(done));
    PickIsBest(c, anc0, blocks, picks, k, i);
  }

  lemma FrontPicks(c: Candidates, anc0: Relatives, before: set<Txid>, packages: seq<seq<Txid>>, i: nat, limited: bool, steady: bool)
    requires GoodPicks(c, anc0, before, packages, limited, steady) && i <= |packages|
    ensures GoodPicks(c, anc0, before, packages[..i], limited, steady)
  {
    hide GoodPick;
    assert forall j | 0 <= j < i :: packages[..i][..j] == packages[..j];
  }

  lemma SingleUndisturbed(anc0: Relatives, before: set<Txid>, within: set<Txid>)
    requires before !! within && forall x | x in anc0 :: |anc0[x]| <= 1
    ensures Undisturbed(anc0, before, within)
  {
    forall x, y | x in anc0 && y in anc0[x] && y in within ensures anc0[x] !! before {
      OnlyOne(anc0[x], y);
    }
  }

  lemma OnlyOne(s: set<Txid>, y: Txid)
    requires |s| <= 1 && y in s
    ensures s == {y}
  {
    assert |s - {y}| == 0;
  }

  lemma BlockPlaced(c: Candidates, anc0: Relatives, blocks: seq<seq<Txid>>, picks: seq<seq<seq<Txid>>>, k: nat)
    requires AllGoodPicks(c, anc0, blocks, picks) && k < |blocks|
    ensures Elems(blocks[k]) !! Elems(Flat(blocks[..k]))
  {
    hide GoodPicks, Steady, Elems, Flat;
    PicksApart(c, anc0, Elems(Flat(blocks[..k])), picks[k], k < LIMITED_BLOCKS, Steady(c, anc0, blocks, k));
  }

  lemma {:induction false} SingleSteady(c: Candidates, anc0: Relatives, blocks: seq<seq<Txid>>, picks: seq<seq<seq<Txid>>>, k: nat)
    requires AllGoodPicks(c, anc0, blocks, picks) && k <= |blocks| && forall x | x in anc0 :: |anc0[x]| <= 1
    ensures Steady(c, anc0, blocks, k)
    decreases k
  {
    hide AllGoodPicks, Undisturbed, BlockWeight, Small, Elems, Flat;
    if k > 0 {
      SingleSteady(c, anc0, blocks, picks, k - 1);
      BlockPlaced(c, anc0, blocks, picks, k - 1);
      SingleUndisturbed(anc0, Elems(Flat(blocks[..k - 1])), Elems(blocks[k - 1]));
    }
  }

  /** Whose package may open block `k`: while there is a limit, those that fit an empty block. */
  ghost function Openers(c: Candidates, anc0: Relatives, before: set<Txid>, k: nat): set<Txid> {
    set u | u in c.Keys() && u !in before && (k < LIMITED_BLOCKS ==> !TooBig(c, anc0, before, u))
  }

  /** Every block begins with a best package if the pool is small, or no limited block before it comes
      within 4000 of the limit. */
  lemma BlockBeginsBest(c: Candidates, anc0: Relatives, blocks: seq<seq<Txid>>, picks: seq<seq<seq<Txid>>>, k: nat)
    requires AllGoodPicks(c, anc0, blocks, picks) && k < |blocks| && picks[k] != []
    requires Small(c, anc0) || k <= 1 || BlockWeight(c, blocks[k - 1]) <= BLOCK_WEIGHT_UNITS - 4000
    ensures var before, package := Elems(Flat(blocks[..k])), picks[k][0];
            package != [] && Best(c, anc0, before, Openers(c, anc0, before, k), package[|package| - 1])
  {
    hide Best, GoodPicks, Contenders, Openers, Steady, Undisturbed, Flat, Elems, Small, BlockWeight;
    var before := Elems(Flat(blocks[..k]));
    FirstTwoSteady(c, anc0, blocks, k);
    NothingDone(c, anc0, before, k);
    assert picks[k][..0] == [];
    PickIsBest(c, anc0, blocks, picks, k, 0);
  }

  /** At the beginning of a block. */
  lemma NothingDone(c: Candidates, anc0: Relatives, before: set<Txid>, k: nat)
    ensures Undisturbed(anc0, before, Placed([])) && before + Placed([]) == before
    ensures Contenders(c, anc0, before, [], k < LIMITED_BLOCKS) == Openers(c, anc0, before, k)
  {
    hide TooBig, Rejected;
    assert Placed([]) == {} && before + {} == before;
    forall u ensures Rejected(c, anc0, before, [], u) <==> TooBig(c, anc0, before, u) {
      RejectedFirst(c, anc0, before, u);
    }
  }

  lemma FirstTwoSteady(c: Candidates, anc0: Relatives, blocks: seq<seq<Txid>>, k: nat)
    requires k <= |blocks| && (Small(c, anc0) || k <= 1 || BlockWeight(c, blocks[k - 1]) <= BLOCK_WEIGHT_UNITS - 4000)
    ensures Steady(c, anc0, blocks, k)
  {
    if k == 1 {
      assert blocks[..0] == [] && Elems(Flat(blocks[..0])) == {};
      assert Steady(c, anc0, blocks, 0);
    }
  }
}
