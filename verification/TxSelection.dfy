/** Up to eight block templates from one pool of candidates; packages that do not fit a block are
    put back for the next one. */
module TxSelection {
  import opened Options
  import opened Feerate
  import opened Graph
  import opened AuditPool
  import opened MiniMiner
  import opened Extraction
  import opened TxQueues
  import opened TxBlocks
  import Heaps = PairingHeap

  class Worker {
    const c: Candidates
    const pool: AuditPool
    const mempoolArray: array<Txid>
    const heap: Heaps.PairingHeap<Txid>
    ghost const anc0: Relatives
    var top: nat
    /** The node of the heap that a transaction knows, if any. */
    var nodes: map<Txid, nat>
    var modified: set<Txid>
    var overflow: seq<Txid>
    var used: set<Txid>
    var transactions: seq<Txid>
    var blocks: seq<seq<Txid>>
    var blockWeight: int
    var failures: nat
    /** The packages of the finished blocks, and of the block in progress. */
    ghost var picks: seq<seq<seq<Txid>>>
    ghost var done: seq<seq<Txid>>

    /** The candidates with their relatives, and an array of them in order of score. */
    constructor (pool: AuditPool, mempoolArray: array<Txid>)
      requires pool.Left(pool.ancestorMap, {}) && Distinct(mempoolArray[..]) && Elems(mempoolArray[..]) == pool.c.Keys() && SameMeasure(pool.c)
      requires InStartOrder(pool.c, pool.ancestorMap, mempoolArray[..])
      ensures Valid() && this.pool == pool && this.mempoolArray == mempoolArray && c == pool.c && anc0 == pool.ancestorMap && fresh(heap)
      ensures blocks == [] && top == 0 && overflow == [] && transactions == [] && used == {} && modified == {} && done == [] && failures == 0
      ensures Q() == Queue(None, 0, map[])
    {
      hide AuditPool.Left, GoodWaits, InStartOrder, SameMeasure, Core, OverflowRight;
      this.pool, this.mempoolArray, this.c, this.anc0 := pool, mempoolArray, pool.c, pool.ancestorMap;
      heap := new Heaps.PairingHeap();
      top, nodes, modified, overflow, used, transactions, blocks, blockWeight, failures := 0, map[], {}, [], {}, [], [], RESERVED_WEIGHT, 0;
      picks, done := [], [];
      new;
      Started();
    }

    ghost function Q(): Queue
      reads this`nodes, heap
    {
      Queue(heap.root, heap.nextId, nodes)
    }

    ghost function Waiters(aside: seq<Txid>): Waits
      requires top <= mempoolArray.Length
      reads this`top, this`nodes, this`modified, this`overflow, heap`root, mempoolArray
    {
      Waits(top, mempoolArray[top..], nodes, heap.Held(), modified, overflow + aside)
    }

    /** What earlier blocks hold. */
    ghost function Before(): set<Txid>
      reads this`blocks
    {
      Elems(Flat(blocks))
    }

    ghost predicate Valid()
      reads this, pool, heap, mempoolArray
    {
      ValidBut([])
    }

    /** As between two steps, with some more entries put aside. */
    ghost predicate ValidBut(aside: seq<Txid>)
      reads this, pool, heap, mempoolArray
    {
      Core(aside) && OverflowRight()
    }

    ghost predicate Core(aside: seq<Txid>)
      reads this, pool, heap, mempoolArray
    {
      && pool.c == c && SameMeasure(c) && top <= mempoolArray.Length && pool.Left(anc0, used) && heap.Valid()
      && GoodWaits(c, anc0, used, used, Before(), Waiters(aside)) && BlocksRight() && Logged() && HeapRight()
    }

    /** What was placed so far: each transaction once, ancestors in the same block or before. */
    ghost predicate BlocksRight()
      reads this`used, this`transactions, this`blocks, this`blockWeight
    {
      RightFor(used, transactions, blocks, blockWeight)
    }

    ghost predicate RightFor(used: set<Txid>, transactions: seq<Txid>, blocks: seq<seq<Txid>>, blockWeight: int) {
      && |blocks| <= LIMITED_BLOCKS
      && (forall k | 0 <= k < |blocks| :: blocks[k] != [])
      && AncestorsFirst(anc0, blocks) && Limited(c, blocks)
      && OwnAncestors(anc0, transactions, used) && Holds(c, blocks, transactions, used)
      && blockWeight == BlockWeight(c, transactions)
      && (|blocks| < LIMITED_BLOCKS ==> blockWeight < BLOCK_WEIGHT_UNITS)
    }

    /** The packages picked make up the blocks, and are the best where that is known. */
    ghost predicate Logged()
      reads this`used, this`transactions, this`blocks, this`picks, this`done
    {
      LoggedAs(used, transactions, done)
    }

    ghost predicate LoggedAs(used: set<Txid>, transactions: seq<Txid>, done: seq<seq<Txid>>)
      reads this`blocks, this`picks
    {
      && AllGoodPicks(c, anc0, blocks, picks) && AllEndRight(c, anc0, blocks, picks)
      && GoodPicks(c, anc0, Before(), done, |blocks| < LIMITED_BLOCKS, Steady(c, anc0, blocks, |blocks|))
      && transactions == Output(done) && used == Before() + Placed(done)
    }

    /** Unless something disturbed it, the heap is in order. */
    ghost predicate HeapRight()
      reads this`nodes, this`blocks, this`done, heap, pool`ancestorFee, pool`ancestorSize
    {
      Steady(c, anc0, blocks, |blocks|) && Undisturbed(anc0, Before(), Placed(done)) ==> HeapInOrder()
    }

    ghost predicate HeapInOrder()
      reads this`nodes, heap, pool`ancestorFee, pool`ancestorSize
    {
      InOrder(Q(), pool.ancestorFee, pool.ancestorSize, c.order)
    }

    /** What is aside did not fit the block at some time; nothing is aside once there is no limit. */
    ghost predicate OverflowRight()
      reads this`overflow, this`blocks, this`done, this`transactions, this`failures
    {
      && (|blocks| >= LIMITED_BLOCKS ==> overflow == [])
      && (forall x | x in overflow :: Rejected(c, anc0, Before(), done, x))
      && (transactions != [] ==> failures <= |overflow|)
    }

    lemma Started()
      requires pool.c == c && SameMeasure(c) && pool.Left(anc0, {}) && heap.Valid() && heap.root == None
      requires top == 0 && nodes == map[] && modified == {} && overflow == [] && used == {} && transactions == [] && blocks == []
      requires blockWeight == RESERVED_WEIGHT && failures == 0 && picks == [] && done == []
      requires Distinct(mempoolArray[..]) && Elems(mempoolArray[..]) == c.Keys() && InStartOrder(c, anc0, mempoolArray[..])
      ensures Valid()
    {
      hide AuditPool.Left, GoodWaits, InStartOrder, SameMeasure, BlocksRight, Logged, HeapRight, Before, Distinct, Rejected;
      assert mempoolArray[0..] == mempoolArray[..] && overflow + [] == overflow;
      MiniMiner.WaitingTotals(pool, anc0, {});
      StartWaits(c, anc0, mempoolArray[..]);
      EmptyOrdered();
      NothingLogged();
    }

    lemma NothingLogged()
      requires used == {} && transactions == [] && blocks == [] && picks == [] && done == [] && blockWeight == RESERVED_WEIGHT
      ensures BlocksRight() && Logged() && Before() == {} && (HeapInOrder() ==> HeapRight())
    {
      hide Steady, Undisturbed, HeapInOrder, GoodPick;
      EmptyWeight(c);
      assert Elems<Txid>([]) == {} && Placed([]) == {};
    }

    // ---------- choosing

    /** Skips entries that were placed or wait in the heap. */
    method SkipDone()
      requires Valid()
      modifies this`top
      ensures Valid() && old(top) <= top <= mempoolArray.Length
      ensures top < mempoolArray.Length ==> mempoolArray[top] !in used && mempoolArray[top] !in modified
      ensures old(top) <= mempoolArray.Length && mempoolArray[top..] == SkipOver(old(mempoolArray[top..]), used + modified)
    {
      hide AuditPool.Left, GoodWaits, BlocksRight, Logged, HeapRight, OverflowRight, SameMeasure;
      while top < mempoolArray.Length && (mempoolArray[top] in used || mempoolArray[top] in modified)
        invariant Valid() && old(top) <= top
        invariant SkipOver(mempoolArray[top..], used + modified) == SkipOver(old(mempoolArray[top..]), used + modified)
      {
        assert mempoolArray[top..][1..] == mempoolArray[top + 1..];
        SkipFirst(c, anc0, used, Before(), Waiters([]));
        top := top + 1;
      }
    }

    /** Takes the first entry of the array. */
    method TakeEntry() returns (next: Txid)
      requires Valid() && top < mempoolArray.Length
      modifies this`top
      ensures ValidBut([next]) && next in c.Keys() && next == mempoolArray[old(top)] && top == old(top) + 1
    {
      hide AuditPool.Left, GoodWaits, BlocksRight, Logged, HeapRight, OverflowRight, SameMeasure, Before, Heaps.IsHeap, Heaps.HeapEntries;
      assert mempoolArray[top..][1..] == mempoolArray[top + 1..] && overflow + [] == overflow;
      TakeFirst(c, anc0, used, Before(), Waiters([]));
      next := mempoolArray[top];
      top := top + 1;
    }

    /** Takes the entry at the root of the heap. */
    method PopHeap() returns (next: Txid)
      requires Valid() && heap.root.Some?
      modifies heap`root, this`nodes
      ensures ValidBut([next]) && next in c.Keys() && next == old(heap.root).value.element && |heap.Held()| == |old(heap.Held())| - 1
      ensures heap.root == Heaps.PairsMerged(ByScores(pool.ancestorFee, pool.ancestorSize, c.order), old(heap.root).value.children)
      ensures nodes == old(nodes) - {next}
    {
      hide AuditPool.Left, GoodWaits, BlocksRight, Logged, OverflowRight, SameMeasure, Steady, Undisturbed, InOrder, ByScores, Before,
           Heaps.PairsMerged, Heaps.IsHeap, Heaps.HeapEntries;
      RootHeld();
      PopNode(c, anc0, used, Before(), Waiters([]), heap.root.value.id);
      assert overflow + [] + [heap.root.value.element] == overflow + [heap.root.value.element];
      if HeapInOrder() {
        PoppedOrder(Q(), pool.ancestorFee, pool.ancestorSize, c.order);
      }
      var element := heap.Pop(ByScores(pool.ancestorFee, pool.ancestorSize, c.order));
      next := element.value;
      nodes := nodes - {next};
      SameOrder(old(Q()));
    }

    lemma RootHeld()
      requires heap.Valid() && heap.root.Some?
      ensures heap.root.value.id in heap.Held() && heap.Held()[heap.root.value.id] == heap.root.value.element
    {
    }

    /** The order of the heap has nothing to do with which nodes are known. */
    lemma SameOrder(q: Queue)
      ensures InOrder(q.(root := heap.root), pool.ancestorFee, pool.ancestorSize, c.order) <==> HeapInOrder()
    {
    }

    /** Takes the next package root: the first entry of the array if its score is higher than that of
        the root of the heap, and else that root. */
    method SelectNext() returns (next: Option<Txid>)
      requires Valid()
      modifies this`top, heap`root, this`nodes
      ensures ValidBut(if next.Some? then [next.value] else []) && old(top) <= top <= mempoolArray.Length
      ensures next.Some? ==> next.value in c.Keys() && mempoolArray.Length - top + |heap.Held()| < mempoolArray.Length - old(top) + |old(heap.Held())|
      ensures next.None? ==> top == mempoolArray.Length && heap.root == None == old(heap.root)
      ensures next.Some? && old(HeapInOrder()) ==> Best(c, anc0, used, c.Keys() - used - Elems(overflow), next.value)
      ensures Selection(next, mempoolArray[top..], Q())
              == Selected(old(mempoolArray[top..]), used + modified, old(Q()), pool.ancestorFee, pool.ancestorSize, c.order)
    {
      hide ValidBut, Higher, Best, NotBetter, Heaps.PairsMerged, HeapInOrder, ByScores, SkipOver, Selected, Heaps.HeapEntries;
      SkipDone();
      SelectedFrom(old(mempoolArray[top..]), used + modified, mempoolArray[top..], old(Q()), pool.ancestorFee, pool.ancestorSize, c.order);
      if top < mempoolArray.Length {
        ArrayKnown();
        assert mempoolArray[top..][1..] == mempoolArray[top + 1..];
      }
      next := None;
      if heap.root.None? {
        if top < mempoolArray.Length {
          if HeapInOrder() {
            ChosenBest(mempoolArray[top]);
          }
          var first := TakeEntry();
          next := Some(first);
        }
      } else {
        HeapKnown();
        var first := heap.root.value.element;
        if top < mempoolArray.Length {
          Compared(mempoolArray[top], first);
        }
        if top < mempoolArray.Length && Higher(pool.ancestorFee[mempoolArray[top]], pool.ancestorSize[mempoolArray[top]], pool.ancestorFee[first], pool.ancestorSize[first]) {
          if HeapInOrder() {
            ChosenBest(mempoolArray[top]);
          }
          first := TakeEntry();
        } else {
          if HeapInOrder() {
            ChosenBest(first);
          }
          first := PopHeap();
        }
        next := Some(first);
      }
    }

    lemma ArrayKnown()
      requires Valid() && top < mempoolArray.Length
      ensures mempoolArray[top] in c.Keys() && mempoolArray[top] in pool.ancestorFee && mempoolArray[top] in pool.ancestorSize
    {
      hide AuditPool.Left, GoodWaits, BlocksRight, Logged, HeapRight, OverflowRight, SameMeasure, Before, Heaps.IsHeap, Heaps.HeapEntries;
      MiniMiner.WaitingTotals(pool, anc0, used);
      UsefulFacts(c, anc0, used, used, Before(), Waiters([]));
      assert mempoolArray[top..][0] == mempoolArray[top];
    }

    lemma HeapKnown()
      requires Valid() && heap.root.Some?
      ensures var x := heap.root.value.element; x in c.Keys() && x in pool.ancestorFee && x in pool.ancestorSize
    {
      hide AuditPool.Left, GoodWaits, BlocksRight, Logged, HeapRight, OverflowRight, Heaps.HeapEntries;
      MiniMiner.WaitingTotals(pool, anc0, used);
      UsefulFacts(c, anc0, used, used, Before(), Waiters([]));
      RootHeld();
    }

    /** Recorded scores are those of the packages. */
    lemma Compared(x: Txid, y: Txid)
      requires Valid() && x in c.Keys() && y in c.Keys()
      ensures Above(pool.ancestorFee, pool.ancestorSize, x, y) ==> NotBetter(c, anc0, used, y, x)
      ensures !Above(pool.ancestorFee, pool.ancestorSize, x, y) <==> NotBetter(c, anc0, used, x, y)
    {
      hide AuditPool.Left, GoodWaits, BlocksRight, Logged, HeapRight, OverflowRight, PackageTotal;
      MiniMiner.WaitingTotals(pool, anc0, used);
      EitherNotBetter(c, anc0, used, x, y);
    }

    lemma KeysKnown()
      requires Valid()
      ensures c.WellFormed() && anc0.Keys == c.Keys() && (forall y | y in c.Keys() :: Of(anc0, y) <= c.Keys()) && Sized(pool.ancestorSize, c.Keys())
    {
      hide AuditPool.Left, GoodWaits, BlocksRight, Logged, HeapRight, OverflowRight, PackageTotal;
      MiniMiner.WaitingTotals(pool, anc0, used);
      forall x | x in c.Keys() ensures 0 < At(pool.ancestorSize, x) {
        SizePositive(c, anc0, used, x);
      }
    }

    lemma QueueGood()
      requires Valid()
      ensures GoodQueue(Q()) && HoldsKeys(Q(), c.Keys())
    {
      hide AuditPool.Left, GoodWaits, BlocksRight, Logged, HeapRight, OverflowRight, Heaps.HeapEntries, Heaps.IsHeap;
      UsefulFacts(c, anc0, used, used, Before(), Waiters([]));
    }

    /** In an ordered heap the root is best among its entries. */
    lemma RootBest(k: nat)
      requires Valid() && HeapInOrder() && heap.root.Some? && k in heap.Held()
      ensures heap.Held()[k] in c.Keys() && heap.root.value.element in c.Keys() && NotBetter(c, anc0, used, heap.Held()[k], heap.root.value.element)
    {
      hide Valid, HeapInOrder, NotBetter, Heaps.HeapEntries;
      QueueGood();
      KeysKnown();
      InQueueOrder();
      TopScore(c.Keys(), Q(), pool.ancestorFee, pool.ancestorSize, c.order);
      Compared(heap.Held()[k], heap.root.value.element);
    }

    /** While the heap is in order, no element has a higher recorded score than the root, or the same and
        a later place. */
    lemma RootLeads(k: nat)
      requires Valid() && HeapInOrder() && heap.root.Some? && k in heap.Held()
      ensures var x, y := heap.root.value.element, heap.Held()[k];
              && At(pool.ancestorFee, y) * At(pool.ancestorSize, x) <= At(pool.ancestorFee, x) * At(pool.ancestorSize, y)
              && (At(pool.ancestorFee, y) * At(pool.ancestorSize, x) == At(pool.ancestorFee, x) * At(pool.ancestorSize, y) ==>
                    At(c.order, y) <= At(c.order, x))
    {
      hide Valid, HeapInOrder, Heaps.HeapEntries;
      QueueGood();
      KeysKnown();
      InQueueOrder();
      TopUnbeaten(c.Keys(), Q(), pool.ancestorFee, pool.ancestorSize, c.order);
    }

    lemma InQueueOrder()
      requires HeapInOrder()
      ensures InOrder(Q(), pool.ancestorFee, pool.ancestorSize, c.order)
    {
    }

    /** The better one of the first entry of the array and the root of the heap is best of all that wait. */
    lemma ChosenBest(next: Txid)
      requires Valid() && HeapInOrder() && (top < mempoolArray.Length ==> mempoolArray[top] !in used && mempoolArray[top] !in modified)
      requires next in c.Keys()
      requires top < mempoolArray.Length ==> next == mempoolArray[top] || NotBetter(c, anc0, used, mempoolArray[top], next)
      requires heap.root.Some? ==> next == heap.root.value.element || NotBetter(c, anc0, used, heap.root.value.element, next)
      ensures Best(c, anc0, used, c.Keys() - used - Elems(overflow), next)
    {
      hide Valid, HeapInOrder, NotBetter, Best, PackageTotal, Candidates.WellFormed, Heaps.HeapEntries;
      KeysKnown();
      forall u | u in c.Keys() - used - Elems(overflow) ensures NotBetter(c, anc0, used, u, next) {
        BeatenBy(u);
        if u in modified {
          if next != heap.root.value.element {
            NotBetterTrans(c, anc0, used, u, heap.root.value.element, next);
          }
        } else if next != mempoolArray[top] {
          NotBetterTrans(c, anc0, used, u, mempoolArray[top], next);
        }
      }
      BestIs(c.Keys() - used - Elems(overflow), next);
    }

    /** Whatever waits does not beat the first of its queue. */
    lemma BeatenBy(u: Txid)
      requires Valid() && HeapInOrder() && (top < mempoolArray.Length ==> mempoolArray[top] !in used && mempoolArray[top] !in modified)
      requires u in c.Keys() && u !in used && u !in Elems(overflow)
      ensures u in modified ==> heap.root.Some? && heap.root.value.element in c.Keys() && NotBetter(c, anc0, used, u, heap.root.value.element)
      ensures u !in modified ==> top < mempoolArray.Length && mempoolArray[top] in c.Keys() && NotBetter(c, anc0, used, u, mempoolArray[top])
    {
      hide NotBetter, AuditPool.Left, GoodWaits, BlocksRight, Logged, HeapRight, OverflowRight, HeapInOrder;
      assert overflow + [] == overflow;
      KeysKnown();
      TxQueues.WaitsSomewhere(c, anc0, used, Before(), Waiters([]), u);
      if u in modified {
        var k :| k in heap.Held() && heap.Held()[k] == u;
        RootBest(k);
      } else {
        var left := mempoolArray[top..];
        assert left[0] == mempoolArray[top];
        FirstUnmarked(c, anc0, used, Before(), Waiters([]), u);
      }
    }

    lemma BestIs(among: set<Txid>, next: Txid)
      requires forall u | u in among :: NotBetter(c, anc0, used, u, next)
      ensures Best(c, anc0, used, among, next)
    {
      hide PackageTotal;
    }

    // ---------- placing

    /** The weight of the block so far decides whether a package fits after the picks so far. */
    lemma BlockFits(x: Txid)
      requires Logged() && BlocksRight()
      ensures FitsAfter(c, anc0, Before(), done, x) <==>
              Fits(blockWeight, PackageTotal(c.size, anc0, used, x), PackageTotal(c.sigops, anc0, used, x))
    {
      hide PackageTotal, GoodPick, SumSet, AllGoodPicks, GoodPicks, AncestorsFirst, Limited, OwnAncestors, Steady, Flat, Before;
      PicksApart(c, anc0, Before(), done, |blocks| < LIMITED_BLOCKS, Steady(c, anc0, blocks, |blocks|));
    }

    /** Puts a package aside that does not fit. */
    method PutAside(next: Txid)
      requires ValidBut([next]) && next !in used && |blocks| < LIMITED_BLOCKS
      requires !Fits(blockWeight, PackageTotal(c.size, anc0, used, next), PackageTotal(c.sigops, anc0, used, next))
      modifies this`overflow, this`failures
      ensures Valid() && overflow == old(overflow) + [next] && failures == old(failures) + 1
    {
      hide AuditPool.Left, GoodWaits, PackageTotal, HeapRight, SameMeasure, Rejected, Fits, FitsAfter, BlocksRight, Logged, Before;
      BlockFits(next);
      RejectedNow(c, anc0, Before(), done, next);
      assert overflow + [next] + [] == overflow + [next];
      overflow := overflow + [next];
      failures := failures + 1;
    }

    /** Moves the transactions whose scores changed to their places in the heap, one after the other. */
    method Rebalance(visited: seq<Txid>, fee0: map<Txid, int>, size0: map<Txid, int>)
      requires heap.Valid() && Noted(nodes, heap.Held()) && nodes.Keys <= modified
      modifies heap, this`nodes, this`modified
      ensures heap.Valid() && Q() == Rebalanced(old(Q()), visited, fee0, size0, pool.ancestorFee, pool.ancestorSize, c.order)
      ensures modified == old(modified) + Elems(visited)
    {
      hide Rebalanced, GoodQueue, Higher, ByScores, Heaps.IsHeap, Heaps.HeapEntries, Heaps.Meld, Heaps.Lowered, Heaps.Raised;
      var fee, size := fee0, size0;
      assert visited[..0] == [];
      NothingRebalanced(Q(), fee0, size0);
      for i := 0 to |visited|
        invariant heap.Valid() && Noted(nodes, heap.Held()) && nodes.Keys <= modified
        invariant fee == Updated(fee0, pool.ancestorFee, visited[..i]) && size == Updated(size0, pool.ancestorSize, visited[..i])
        invariant Q() == Rebalanced(old(Q()), visited[..i], fee0, size0, pool.ancestorFee, pool.ancestorSize, c.order)
        invariant modified == old(modified) + Elems(visited[..i])
      {
        var x := visited[i];
        var wasFee, wasSize := fee, size;
        NextRebalanced(old(Q()), visited, i, fee0, size0);
        fee, size := fee[x := At(pool.ancestorFee, x)], size[x := At(pool.ancestorSize, x)];
        MoveOne(x, wasFee, wasSize, fee, size);
      }
      assert visited[..|visited|] == visited;
    }

    lemma NothingRebalanced(q: Queue, fee0: map<Txid, int>, size0: map<Txid, int>)
      ensures Rebalanced(q, [], fee0, size0, pool.ancestorFee, pool.ancestorSize, c.order) == q
      ensures Updated(fee0, pool.ancestorFee, []) == fee0 && Updated(size0, pool.ancestorSize, []) == size0
    {
    }

    lemma NextRebalanced(q: Queue, visited: seq<Txid>, i: nat, fee0: map<Txid, int>, size0: map<Txid, int>)
      requires i < |visited|
      ensures var x, fee, size := visited[i], Updated(fee0, pool.ancestorFee, visited[..i]), Updated(size0, pool.ancestorSize, visited[..i]);
              && Updated(fee0, pool.ancestorFee, visited[..i + 1]) == fee[x := At(pool.ancestorFee, x)]
              && Updated(size0, pool.ancestorSize, visited[..i + 1]) == size[x := At(pool.ancestorSize, x)]
              && Rebalanced(q, visited[..i + 1], fee0, size0, pool.ancestorFee, pool.ancestorSize, c.order)
                 == Moved(Rebalanced(q, visited[..i], fee0, size0, pool.ancestorFee, pool.ancestorSize, c.order), x, fee, size,
                          fee[x := At(pool.ancestorFee, x)], size[x := At(pool.ancestorSize, x)], c.order)
              && Elems(visited[..i + 1]) == Elems(visited[..i]) + {x}
    {
      hide Moved;
      assert visited[..i + 1][..i] == visited[..i];
      assert visited[..i + 1] == visited[..i] + [visited[i]];
    }

    /** A transaction without a known node gets a new one; another moves if its score changed. */
    method MoveOne(x: Txid, wasFee: map<Txid, int>, wasSize: map<Txid, int>, fee: map<Txid, int>, size: map<Txid, int>)
      requires heap.Valid() && Noted(nodes, heap.Held()) && nodes.Keys <= modified
      modifies heap, this`nodes, this`modified
      ensures heap.Valid() && Noted(nodes, heap.Held()) && nodes.Keys <= modified == old(modified) + {x}
      ensures Q() == Moved(old(Q()), x, wasFee, wasSize, fee, size, c.order)
    {
      hide Higher, ByScores, Heaps.IsHeap, Heaps.Entries, Heaps.Meld, Heaps.Lowered, Heaps.Raised;
      var higher := ByScores(fee, size, c.order);
      if x !in nodes {
        modified := modified + {x};
        var node := heap.Add(higher, x);
        nodes := nodes[x := node];
      } else if Higher(At(wasFee, x), At(wasSize, x), At(fee, x), At(size, x)) {
        heap.DecreasePriority(higher, nodes[x]);
      } else if Higher(At(fee, x), At(size, x), At(wasFee, x), At(wasSize, x)) {
        heap.IncreasePriority(higher, nodes[x]);
      }
    }

    /** The descendants of `removed` were updated so far. */
    ghost predicate Updating(removed: set<Txid>)
      reads this`used, this`blocks, this`top, this`nodes, this`modified, this`overflow, pool, heap, mempoolArray
    {
      && pool.c == c && c.WellFormed() && pool.Left(anc0, removed) && heap.Valid() && top <= mempoolArray.Length
      && GoodWaits(c, anc0, used, removed, Before(), Waiters([]))
    }

    /** Takes one placed transaction out of the ancestors of what remains; the heap follows. */
    method UpdateOne(y: Txid, ghost removed: set<Txid>) returns (ghost u: Update)
      requires Updating(removed) && y in c.Keys() && y !in removed
      modifies heap, this`nodes, this`modified, pool`ancestorMap, pool`ancestorFee, pool`ancestorSize, pool`ancestorSigops, pool`queued
      ensures Updating(removed + {y})
      ensures TrueUpdate(c, anc0, removed, y, u) && modified == old(modified) + Elems(u.visited)
      ensures Q() == Rebalanced(old(Q()), u.visited, u.fee, u.size, u.fee', u.size', c.order)
      ensures old(HeapInOrder()) && Undisturbed(anc0, Before(), {y}) ==> HeapInOrder()
    {
      hide AuditPool.Left, GoodWaits, Rebalanced, Below, PackageTotal, Grown, GoodQueue, Heaps.IsHeap, Heaps.HeapEntries, InOrder, Candidates.WellFormed,
           Noted, LostEarly, Unchanged, TrueUpdate, Before, Undisturbed, Distinct, Elems, ScoresAre;
      ghost var w, q := Waiters([]), Q();
      UsefulFacts(c, anc0, used, removed, Before(), w);
      RecordedScores(removed);
      IsGoodQueue();
      var visited, update := TakeOutOf(y, removed);
      u := update;
      RebalancedGood(q, visited, u.fee, u.size, u.fee', u.size', c.order);
      Rebalance(visited, update.fee, update.size);
      UpdateWaits(c, anc0, used, removed, Before(), w, q, Q(), visited, y);
      OrderKept(removed, y, q, w.entries, u);
    }

    /** Updates ancestors and scores of the descendants. */
    method TakeOutOf(y: Txid, ghost removed: set<Txid>) returns (visited: seq<Txid>, u: Update)
      requires pool.c == c && pool.Left(anc0, removed) && y in c.Keys() && y !in removed
      modifies pool`ancestorMap, pool`ancestorFee, pool`ancestorSize, pool`ancestorSigops, pool`queued
      ensures pool.Left(anc0, removed + {y}) && u.visited == visited && TrueUpdate(c, anc0, removed, y, u)
      ensures Distinct(visited) && Elems(visited) == Below(anc0, y) <= c.Keys()
      ensures u.fee == old(pool.ancestorFee) && u.size == old(pool.ancestorSize) && u.fee' == pool.ancestorFee && u.size' == pool.ancestorSize
    {
      hide AuditPool.Left, Below, TrueUpdate, ScoresAre;
      MiniMiner.BelowKnown(pool, anc0, removed, y);
      var fee, size := pool.ancestorFee, pool.ancestorSize;
      RecordedScores(removed);
      var added;
      added, visited := pool.UpdateDescendants(y, anc0, removed);
      RecordedScores(removed + {y});
      u := Update(visited, fee, size, pool.ancestorFee, pool.ancestorSize);
      IsTrueUpdate(removed, y, u);
    }

    lemma RecordedScores(removed: set<Txid>)
      requires pool.c == c && pool.Left(anc0, removed)
      ensures ScoresAre(c, anc0, removed, pool.ancestorFee, pool.ancestorSize)
      ensures anc0.Keys == c.Keys() && forall x | x in c.Keys() :: Of(anc0, x) <= c.Keys()
    {
      hide AuditPool.Left, PackageTotal;
      MiniMiner.WaitingTotals(pool, anc0, removed);
    }

    lemma IsTrueUpdate(removed: set<Txid>, y: Txid, u: Update)
      requires Distinct(u.visited) && Elems(u.visited) == Below(anc0, y)
      requires ScoresAre(c, anc0, removed, u.fee, u.size) && ScoresAre(c, anc0, removed + {y}, u.fee', u.size')
      ensures TrueUpdate(c, anc0, removed, y, u)
    {
    }

    lemma IsGoodQueue()
      requires heap.Valid() && Noted(nodes, heap.Held())
      ensures GoodQueue(Q()) && Heaps.HeapEntries(Q().root) == heap.Held()
    {
    }

    lemma OrderKept(removed: set<Txid>, y: Txid, q: Queue, entries: map<nat, Txid>, u: Update)
      requires c.WellFormed() && anc0.Keys == c.Keys() && forall x | x in c.Keys() :: Of(anc0, x) <= c.Keys()
      requires GoodQueue(q) && entries == Heaps.HeapEntries(q.root) && (forall k | k in entries :: entries[k] in c.Keys())
      requires LostEarly(anc0, Before(), q.nodes, entries) && TrueUpdate(c, anc0, removed, y, u)
      requires Q() == Rebalanced(q, u.visited, u.fee, u.size, u.fee', u.size', c.order) && u.fee' == pool.ancestorFee && u.size' == pool.ancestorSize
      ensures InOrder(q, u.fee, u.size, c.order) && Undisturbed(anc0, Before(), {y}) ==> HeapInOrder()
    {
      hide GoodQueue, InOrder, LostEarly, TrueUpdate, Rebalanced, Candidates.WellFormed, Heaps.HeapEntries, Before, Undisturbed;
      if InOrder(q, u.fee, u.size, c.order) && Undisturbed(anc0, Before(), {y}) {
        UpdateKeepsOrder(c, anc0, removed, Before(), y, q, u);
      }
    }

    /** Takes the placed transactions out of the ancestors of what remains, and the heap follows. */
    method UpdateAll(placed: seq<Txid>, ghost was: set<Txid>) returns (ghost updates: seq<Update>)
      requires Updating(was) && Distinct(placed) && Elems(placed) !! was && Elems(placed) <= c.Keys()
      modifies heap, this`nodes, this`modified, pool`ancestorMap, pool`ancestorFee, pool`ancestorSize, pool`ancestorSigops, pool`queued
      ensures Updating(was + Elems(placed))
      ensures TrueUpdates(c, anc0, was, placed, updates) && Q() == Followed(old(Q()), updates, c.order)
      ensures modified == old(modified) + AllVisited(updates)
      ensures old(HeapInOrder()) && Undisturbed(anc0, Before(), Elems(placed)) ==> HeapInOrder()
    {
      hide Updating, TrueUpdates, TrueUpdate, Followed, AllVisited, HeapInOrder, Undisturbed, Before, Distinct, Rebalanced;
      updates := [];
      StartUpdates(was, placed);
      for i := 0 to |placed|
        invariant Updating(was + Elems(placed[..i]))
        invariant TrueUpdates(c, anc0, was, placed[..i], updates) && Q() == Followed(old(Q()), updates, c.order)
        invariant modified == old(modified) + AllVisited(updates)
        invariant old(HeapInOrder()) && Undisturbed(anc0, Before(), Elems(placed[..i])) ==> HeapInOrder()
      {
        ghost var removed := was + Elems(placed[..i]);
        MiniMiner.NextPlaced(placed, i);
        assert removed + {placed[i]} == was + Elems(placed[..i + 1]);
        ghost var u := UpdateOne(placed[i], removed);
        MoreUpdates(was, placed, i, updates, u);
        FollowedMore(old(Q()), updates, u, c.order);
        UndisturbedParts(anc0, Before(), Elems(placed[..i]), {placed[i]});
        updates := updates + [u];
      }
      assert placed[..|placed|] == placed;
    }

    lemma StartUpdates(was: set<Txid>, placed: seq<Txid>)
      ensures TrueUpdates(c, anc0, was, placed[..0], []) && AllVisited([]) == {} && was + Elems(placed[..0]) == was
      ensures forall q :: Followed(q, [], c.order) == q
    {
    }

    lemma MoreUpdates(was: set<Txid>, placed: seq<Txid>, i: nat, updates: seq<Update>, u: Update)
      requires i < |placed| && TrueUpdates(c, anc0, was, placed[..i], updates) && TrueUpdate(c, anc0, was + Elems(placed[..i]), placed[i], u)
      ensures TrueUpdates(c, anc0, was, placed[..i + 1], updates + [u]) && AllVisited(updates + [u]) == AllVisited(updates) + Elems(u.visited)
    {
      hide TrueUpdate;
      assert placed[..i + 1] == placed[..i] + [placed[i]] && placed[..i + 1][..i] == placed[..i];
      assert (updates + [u])[..|updates|] == updates;
      forall j | 0 <= j < i ensures placed[..i + 1][..j] == placed[..i][..j] {
      }
    }

    /** Pops the package of `next` into the block. */
    method PushNext(next: Txid) returns (placed: seq<Txid>)
      requires pool.c == c && SameMeasure(c) && pool.Left(anc0, used) && BlocksRight() && Logged() && next in c.Keys() && next !in used
      requires |blocks| < LIMITED_BLOCKS ==> Fits(blockWeight, PackageTotal(c.size, anc0, used, next), PackageTotal(c.sigops, anc0, used, next))
      requires Steady(c, anc0, blocks, |blocks|) && Undisturbed(anc0, Before(), Placed(done)) ==>
                 Best(c, anc0, used, Contenders(c, anc0, Before(), done, |blocks| < LIMITED_BLOCKS), next)
      modifies this`transactions, this`blockWeight, this`used, this`done
      ensures BlocksRight() && Logged() && next in used && transactions != []
      ensures Distinct(placed) && Elems(placed) !! old(used) && Elems(placed) <= c.Keys() && used == old(used) + Elems(placed)
      ensures |done| == |old(done)| + 1 && done[..|done| - 1] == old(done) && transactions == old(transactions) + placed
      ensures done[|done| - 1] != [] && done[|done| - 1][|done[|done| - 1]| - 1] == next && placed == Backwards(done[|done| - 1])
      ensures blockWeight == old(blockWeight) + SumSet(c.size, Elems(placed)) && IsPackage(anc0, old(used), done[|done| - 1])
      ensures Placed(done) == Placed(old(done)) + Elems(placed)
    {
      hide AuditPool.Left, PackageTotal, SumSet, Distinct, IsPackage, RightFor, Best, Contenders, SameMeasure, Fits, Backwards, Elems, LoggedAs, Placed, Steady, Undisturbed, Before;
      var package := MiniMiner.SortedPackage(pool, next, anc0, used);
      PickFits(package);
      PlaceRight(package);
      LastIn(package);
      PlacedMore(done, package);
      MiniMiner.PackageApart(anc0, used, package);
      SameSum(c, Elems(package));
      var blockSigops;
      transactions, blockWeight, blockSigops, used, placed := MiniMiner.PushPackage(c, package, transactions, blockWeight, 0, used);
      done := done + [package];
      assert done[..|done| - 1] == old(done);
    }

    lemma LastIn(package: seq<Txid>)
      ensures package != [] ==> package[|package| - 1] in Elems(package)
    {
    }

    /** With one more package the log is right. */
    lemma PickFits(package: seq<Txid>)
      requires Logged() && BlocksRight() && IsPackage(anc0, used, package) && package != []
      requires var next := package[|package| - 1];
               |blocks| < LIMITED_BLOCKS ==> Fits(blockWeight, PackageTotal(c.size, anc0, used, next), PackageTotal(c.sigops, anc0, used, next))
      requires Steady(c, anc0, blocks, |blocks|) && Undisturbed(anc0, Before(), Placed(done)) ==>
                 Best(c, anc0, used, Contenders(c, anc0, Before(), done, |blocks| < LIMITED_BLOCKS), package[|package| - 1])
      ensures LoggedAs(used + Elems(package), transactions + Backwards(package), done + [package])
    {
      hide IsPackage, PackageTotal, Fits, Best, Contenders, FitsAfter, Steady, Undisturbed, GoodPicks, AllGoodPicks, Backwards, Placed, Before, BlocksRight;
      BlockFits(package[|package| - 1]);
      GoodPicksMore(c, anc0, Before(), done, package, |blocks| < LIMITED_BLOCKS, Steady(c, anc0, blocks, |blocks|));
      PlacedMore(done, package);
      OutputMore(done, package);
    }

    /** A package that fits keeps the block right. */
    lemma PlaceRight(package: seq<Txid>)
      requires SameMeasure(c) && pool.c == c && pool.Left(anc0, used) && BlocksRight()
      requires IsPackage(anc0, used, package) && Elems(package) <= c.Keys() && package != []
      requires var next := package[|package| - 1];
               |blocks| < LIMITED_BLOCKS ==> Fits(blockWeight, PackageTotal(c.size, anc0, used, next), PackageTotal(c.sigops, anc0, used, next))
      ensures var used' := used + Elems(package); var transactions' := transactions + Backwards(package);
              RightFor(used', transactions', blocks, blockWeight + SumSet(c.weight, Elems(package)))
      ensures Distinct(Backwards(package)) && Elems(Backwards(package)) == Elems(package) && Elems(package) !! used && Backwards(package) != []
    {
      hide IsPackage, PackageTotal, SumSet, AuditPool.Left, AncestorsFirst, Limited, OwnAncestors, Holds, SameMeasure, Distinct, Backwards, BlockWeight, Ancestry, Candidates.Ranked, Elems;
      ghost var rank := MiniMiner.LeftRank(pool, anc0, used);
      MiniMiner.PackageApart(anc0, used, package);
      BackwardsKnown(package);
      OwnMore(c, anc0, rank, transactions, used, package);
      HoldsMore(c, blocks, transactions, used, package);
      WeightMore(c, blocks, transactions, used, package);
      MiniMiner.PackageSum(c, anc0, used, package, c.size);
      SameSum(c, Elems(package));
    }

    /** Places the package of a transaction at the end of the block. */
    method Place(next: Txid) returns (ghost placed: seq<Txid>, ghost updates: seq<Update>)
      requires ValidBut([next]) && next in c.Keys() && next !in used
      requires |blocks| < LIMITED_BLOCKS ==> Fits(blockWeight, PackageTotal(c.size, anc0, used, next), PackageTotal(c.sigops, anc0, used, next))
      requires Steady(c, anc0, blocks, |blocks|) && Undisturbed(anc0, Before(), Placed(done)) ==>
                 Best(c, anc0, used, Contenders(c, anc0, Before(), done, |blocks| < LIMITED_BLOCKS), next)
      modifies this, heap, pool
      ensures Valid() && old(used) < used && blocks == old(blocks) && top == old(top) && overflow == old(overflow) && failures == 0
      ensures transactions != [] && used == old(used) + Elems(placed) && transactions == old(transactions) + placed
      ensures |done| == |old(done)| + 1 && done[..|done| - 1] == old(done)
      ensures done[|done| - 1] != [] && done[|done| - 1][|done[|done| - 1]| - 1] == next && placed == Backwards(done[|done| - 1])
      ensures IsPackage(anc0, old(used), done[|done| - 1]) && blockWeight == old(blockWeight) + SumSet(c.size, Elems(placed))
      ensures TrueUpdates(c, anc0, old(used), placed, updates) && Q() == Followed(old(Q()), updates, c.order)
      ensures modified == old(modified) + AllVisited(updates)
    {
      hide AuditPool.Left, GoodWaits, Heaps.IsHeap, Heaps.HeapEntries, ValidBut, Updating, HeapRight, OverflowRight, PackageTotal, BlocksRight,
           Logged, Distinct, Fits, Best, Contenders, Steady, Undisturbed, Before, Placed, HeapInOrder, Rejected,
           TrueUpdates, Followed, AllVisited, Backwards, SumSet, IsPackage, SameMeasure, Elems;
      ghost var was, before, ordered := used, done, HeapInOrder();
      TakenOut(next);
      var popped := PushNext(next);
      placed := popped;
      PlacedWaits(was, next);
      updates := UpdateAll(popped, was);
      failures := 0;
      StillRejected(before);
      StillOrdered(before, Elems(placed), ordered);
      NowValid();
    }

    lemma NowValid()
      requires Updating(used) && SameMeasure(c) && BlocksRight() && Logged() && HeapRight() && OverflowRight()
      ensures Valid()
    {
      hide AuditPool.Left, GoodWaits, BlocksRight, Logged, HeapRight, OverflowRight, SameMeasure, Before;
      assert overflow + [] == overflow;
    }

    lemma TakenOut(next: Txid)
      requires ValidBut([next])
      ensures pool.c == c && SameMeasure(c) && c.WellFormed() && top <= mempoolArray.Length && pool.Left(anc0, used) && heap.Valid()
      ensures GoodWaits(c, anc0, used, used, Before(), Waiters([next])) && BlocksRight() && Logged()
      ensures Steady(c, anc0, blocks, |blocks|) && Undisturbed(anc0, Before(), Placed(done)) ==> HeapInOrder()
      ensures (|blocks| >= LIMITED_BLOCKS ==> overflow == []) && forall x | x in overflow :: Rejected(c, anc0, Before(), done, x)
    {
      hide AuditPool.Left, GoodWaits, BlocksRight, Logged, Steady, Undisturbed, Rejected, HeapInOrder, Placed, Before;
    }

    lemma PlacedWaits(was: set<Txid>, next: Txid)
      requires pool.c == c && c.WellFormed() && pool.Left(anc0, was) && heap.Valid() && top <= mempoolArray.Length
      requires was <= used && next in used && GoodWaits(c, anc0, was, was, Before(), Waiters([next]))
      ensures Updating(was)
    {
      hide GoodWaits, Before, AuditPool.Left, Heaps.IsHeap, Heaps.HeapEntries, Candidates.WellFormed;
      MoreUsed(c, anc0, was, used, was, Before(), Waiters([next]));
      assert overflow + [] == overflow;
      DropPlaced(c, anc0, used, was, Before(), Waiters([next]), overflow, next);
    }

    lemma StillRejected(before: seq<seq<Txid>>)
      requires |done| > 0 && done[..|done| - 1] == before && (|blocks| >= LIMITED_BLOCKS ==> overflow == []) && failures == 0
      requires forall x | x in overflow :: Rejected(c, anc0, Before(), before, x)
      ensures OverflowRight()
    {
      hide Rejected, Before;
      var n := |done| - 1;
      assert done == before + [done[n]];
      forall x | x in overflow ensures Rejected(c, anc0, Before(), done, x) {
        RejectedStays(c, anc0, Before(), before, done[n], x);
      }
    }

    lemma StillOrdered(before: seq<seq<Txid>>, placed: set<Txid>, ordered: bool)
      requires Placed(done) == Placed(before) + placed && (ordered && Undisturbed(anc0, Before(), placed) ==> HeapInOrder())
      requires Steady(c, anc0, blocks, |blocks|) && Undisturbed(anc0, Before(), Placed(before)) ==> ordered
      ensures HeapRight()
    {
      hide Undisturbed, Steady, HeapInOrder, Before, Placed;
      UndisturbedParts(anc0, Before(), Placed(before), placed);
    }

    /** Passes over a root that was placed already. */
    method PassOver(next: Txid)
      requires ValidBut([next]) && next in used
      modifies {}
      ensures Valid()
    {
      hide AuditPool.Left, GoodWaits, BlocksRight, Logged, HeapRight, OverflowRight, SameMeasure, Before;
      assert overflow + [] == overflow;
      DropPlaced(c, anc0, used, used, Before(), Waiters([next]), overflow, next);
    }

    // ---------- closing a block

    /** Puts the entry put aside last back in line: in the heap, or in the slot before `top`. */
    method PutBack()
      requires Core([]) && Closed() && overflow != []
      modifies this`top, this`nodes, this`overflow, heap, mempoolArray
      ensures Core([]) && Closed() && overflow == old(overflow)[..|old(overflow)| - 1]
      ensures var x := old(overflow)[|old(overflow)| - 1];
              if x in modified then Q() == AddedTo(old(Q()), x, pool.ancestorFee, pool.ancestorSize, c.order) && mempoolArray[top..] == old(mempoolArray[top..])
              else Q() == old(Q()) && mempoolArray[top..] == [x] + old(mempoolArray[top..])
    {
      hide AuditPool.Left, GoodWaits, BlocksRight, Logged, SameMeasure, Before, Steady, Undisturbed, InOrder, ByScores, Heaps.Meld, Heaps.IsHeap, Heaps.HeapEntries;
      var n := |overflow| - 1;
      var overflowTx := overflow[n];
      ghost var q := Q();
      assert overflow + [] == overflow[..n] + [overflowTx] && overflow[..n] + [] == overflow[..n];
      if overflowTx in modified {
        BackToHeap(c, anc0, used, Waiters([]), overflow[..n], overflowTx, heap.nextId);
        if HeapInOrder() {
          AddedOrder(Q(), overflowTx, pool.ancestorFee, pool.ancestorSize, c.order);
        }
        var node := heap.Add(ByScores(pool.ancestorFee, pool.ancestorSize, c.order), overflowTx);
        nodes := nodes[overflowTx := node];
        SameOrder(q);
      } else {
        BackToArray(c, anc0, used, Before(), Waiters([]), overflow[..n], overflowTx);
        PutFront(overflowTx);
      }
      overflow := overflow[..n];
      assert overflow + [] == overflow;
    }

    /** As at the start of a block. */
    ghost predicate Closed()
      reads this`transactions, this`done, this`blocks, this`used
    {
      transactions == [] && done == [] && Before() == used
    }

    /** The slot before `top` takes the entry. */
    method PutFront(x: Txid)
      requires 0 < top <= mempoolArray.Length
      modifies this`top, mempoolArray
      ensures top == old(top) - 1 && mempoolArray[top..] == [x] + old(mempoolArray[top..])
    {
      top := top - 1;
      mempoolArray[top] := x;
    }

    /** Puts everything aside back in line for the next block, in the slots before `top`, all of which
        were consumed, or in the heap. */
    method Recycle()
      requires Core([]) && Closed()
      modifies this`top, this`nodes, this`overflow, heap, mempoolArray
      ensures Valid() && Closed() && overflow == []
      ensures Q() == AddedBack(old(Q()), old(overflow), modified, pool.ancestorFee, pool.ancestorSize, c.order)
      ensures mempoolArray[top..] == UnmarkedOnly(old(overflow), modified) + old(mempoolArray[top..])
    {
      hide AuditPool.Left, GoodWaits, BlocksRight, Logged, HeapRight, SameMeasure, Before, AddedTo, Heaps.IsHeap;
      while overflow != []
        invariant Core([]) && Closed() && top <= mempoolArray.Length
        invariant AddedBack(Q(), overflow, modified, pool.ancestorFee, pool.ancestorSize, c.order)
                  == AddedBack(old(Q()), old(overflow), modified, pool.ancestorFee, pool.ancestorSize, c.order)
        invariant UnmarkedOnly(overflow, modified) + mempoolArray[top..] == UnmarkedOnly(old(overflow), modified) + old(mempoolArray[top..])
        decreases |overflow|
      {
        PutBack();
      }
    }

    /** Closes the block, if anything is in it, when the queues are empty or too many packages in a row
        failed to fit a nearly full block; everything aside is in line for the next one. */
    method EndBlock() returns (stop: bool)
      requires Valid() && |blocks| < LIMITED_BLOCKS && (Empty() || Exceeded())
      modifies this`top, this`nodes, this`overflow, this`transactions, this`blocks, this`blockWeight, this`picks, this`done, heap, mempoolArray
      ensures Valid() && (stop <==> old(transactions) == [])
      ensures stop ==> blocks == old(blocks) && transactions == [] && top == old(top) && Q() == old(Q()) && overflow == old(overflow)
      ensures !stop ==> blocks == old(blocks) + [old(transactions)] && overflow == [] && transactions == [] && done == []
      ensures !stop ==> Q() == AddedBack(old(Q()), old(overflow), modified, pool.ancestorFee, pool.ancestorSize, c.order)
      ensures !stop ==> old(top) <= mempoolArray.Length && mempoolArray[top..] == UnmarkedOnly(old(overflow), modified) + old(mempoolArray[top..])
    {
      hide ValidBut, Core, AddedBack, UnmarkedOnly, Before;
      TopKnown();
      stop := transactions == [];
      if !stop {
        CloseBlock();
        Recycle();
      }
    }

    lemma TopKnown()
      requires Valid()
      ensures top <= mempoolArray.Length
    {
      hide AuditPool.Left, GoodWaits, BlocksRight, Logged, HeapRight, OverflowRight, SameMeasure, Heaps.IsHeap;
    }

    /** Too many packages in a row failed to fit a block that is nearly full. */
    predicate Exceeded()
      reads this`failures, this`blockWeight
    {
      failures > MAX_FAILURES && blockWeight > BLOCK_WEIGHT_UNITS - 4000
    }

    /** Nothing waits in the array or the heap. */
    predicate Empty()
      reads this`top, heap`root
    {
      top >= mempoolArray.Length && heap.root.None?
    }

    method CloseBlock()
      requires Valid() && |blocks| < LIMITED_BLOCKS && transactions != [] && (Empty() || Exceeded())
      modifies this`transactions, this`blocks, this`blockWeight, this`picks, this`done
      ensures Core([]) && Closed() && blocks == old(blocks) + [old(transactions)]
    {
      hide AuditPool.Left, GoodWaits, RightFor, AllGoodPicks, AllEndRight, EndsRight, GoodPicks, SameMeasure, OverflowRight, Steady, Undisturbed, HeapInOrder, Before, Flat, Elems, Heaps.IsHeap,
           Heaps.HeapEntries;
      CloseRight();
      EndsNow();
      CloseLogged();
      CloseWaits(c, anc0, used, Before(), Waiters([]));
      CloseOrdered();
      blocks, picks := blocks + [transactions], picks + [done];
      transactions, done := [], [];
      blockWeight := RESERVED_WEIGHT;
      BeforeIs();
    }

    lemma BeforeIs()
      ensures Before() == Elems(Flat(blocks))
    {
    }

    lemma CloseRight()
      requires BlocksRight() && |blocks| < LIMITED_BLOCKS && transactions != []
      ensures RightFor(used, [], blocks + [transactions], RESERVED_WEIGHT) && Elems(Flat(blocks + [transactions])) == used
    {
      hide SumSet, Distinct;
      FlatMore(blocks, transactions);
      ElemsConcat(Flat(blocks), transactions);
      assert Flat(blocks) + transactions + [] == Flat(blocks) + transactions;
      forall x | x in transactions ensures Of(anc0, x) <= Elems(Flat(blocks)) + Elems(transactions) {
      }
      AncestorsFirstMore(anc0, blocks, transactions);
      assert Elems<Txid>([]) == {};
      EmptyWeight(c);
    }

    lemma CloseLogged()
      requires Logged() && Elems(Flat(blocks + [transactions])) == used && EndsRight(c, anc0, Before(), transactions, done)
      ensures var blocks', picks' := blocks + [transactions], picks + [done];
              && AllGoodPicks(c, anc0, blocks', picks') && AllEndRight(c, anc0, blocks', picks') && used == Elems(Flat(blocks')) + Placed([]) && Output([]) == []
              && forall limited, steady :: GoodPicks(c, anc0, used, [], limited, steady)
    {
      hide GoodPick, Flat, Elems, Steady, EndsRight;
      AllGoodPicksMore(c, anc0, blocks, picks, done);
      AllEndRightMore(c, anc0, blocks, picks, transactions, done);
      assert Placed([]) == {};
    }

    /** The block is nearly full, or whatever is unplaced did not fit it at some time. */
    lemma EndsNow()
      requires Valid() && |blocks| < LIMITED_BLOCKS && transactions != [] && (Empty() || Exceeded())
      ensures EndsRight(c, anc0, Before(), transactions, done)
    {
      hide AuditPool.Left, GoodWaits, RightFor, AllGoodPicks, AllEndRight, GoodPicks, HeapRight, SameMeasure, Rejected, BlockWeight, Small, Before;
      if Exceeded() {
        NotSmall();
        WeightKnown();
      } else {
        assert mempoolArray[top..] == [] && overflow + [] == overflow;
        ClosedApart();
        forall u | u in c.Keys() && u !in Before() + Elems(transactions) ensures Rejected(c, anc0, Before(), done, u) {
          TxQueues.NothingWaits(c, anc0, used, Before(), Waiters([]), u);
        }
      }
    }

    /** The heap is in order when the next block begins, if nothing disturbed this one. */
    lemma CloseOrdered()
      requires Valid() && |blocks| < LIMITED_BLOCKS && transactions != [] && (Empty() || Exceeded())
      ensures Steady(c, anc0, blocks + [transactions], |blocks| + 1) ==> HeapInOrder()
    {
      hide AuditPool.Left, GoodWaits, RightFor, AllGoodPicks, AllEndRight, GoodPicks, SameMeasure, Undisturbed, Before, Flat, Elems, BlockWeight, Small, InOrder, Rejected, Heaps.IsHeap;
      EmptyOrdered();
      if heap.root.Some? {
        NotSmall();
        WeightKnown();
        ClosedApart();
        var all := blocks + [transactions];
        SteadySame(c, anc0, blocks, transactions, |blocks|);
        assert all[..|all| - 1] == blocks && all[|all| - 1] == transactions;
        BeforeIs();
      }
    }

    lemma EmptyOrdered()
      ensures heap.root.None? ==> HeapInOrder()
    {
    }

    lemma WeightKnown()
      requires BlocksRight()
      ensures blockWeight == BlockWeight(c, transactions)
    {
    }

    lemma ClosedApart()
      requires Logged()
      ensures Elems(transactions) == Placed(done)
    {
      hide GoodPick, AllGoodPicks, AllEndRight;
      PicksApart(c, anc0, Before(), done, |blocks| < LIMITED_BLOCKS, Steady(c, anc0, blocks, |blocks|));
    }

    /** So many failures take more entries than a small pool brings about. */
    lemma NotSmall()
      requires Valid() && transactions != [] && failures > MAX_FAILURES
      ensures !Small(c, anc0)
    {
      hide AuditPool.Left, GoodWaits, BlocksRight, Logged, HeapRight, SameMeasure, Before, Rejected, Shares, Heaps.IsHeap;
      Facts();
      UsefulFacts(c, anc0, used, used, Before(), Waiters([]));
      assert overflow + [] == overflow;
      SharesGrow(anc0, used, c.Keys());
    }

    // ---------- one step

    /** Takes the next root and places its package, puts it aside, or passes over it. */
    method Step() returns (ghost placed: seq<Txid>, ghost updates: seq<Update>)
      requires Valid() && (top < mempoolArray.Length || heap.root.Some?)
      modifies this, heap, pool
      ensures Valid() && blocks == old(blocks) && old(top) <= top <= mempoolArray.Length
      ensures transactions == [] ==> old(transactions) == []
      ensures old(used) < used || (used == old(used) && mempoolArray.Length - top + |heap.Held()| < mempoolArray.Length - old(top) + |old(heap.Held())|)
      ensures var s := Selected(old(mempoolArray[top..]), old(used + modified), old(Q()), old(pool.ancestorFee), old(pool.ancestorSize), c.order);
              && mempoolArray[top..] == s.left && Q() == Followed(s.queue, updates, c.order)
              && modified == old(modified) + AllVisited(updates) && TrueUpdates(c, anc0, old(used), placed, updates)
              && used == old(used) + Elems(placed) && transactions == old(transactions) + placed
              && blockWeight == old(blockWeight) + SumSet(c.size, Elems(placed))
              && if s.next.None? || s.next.value in old(used) then placed == [] && overflow == old(overflow) && done == old(done)
                 else if old(|blocks| >= LIMITED_BLOCKS || FitsNow(s.next.value)) then overflow == old(overflow) && PickedFor(s.next.value, old(used), old(done), placed)
                 else placed == [] && overflow == old(overflow) + [s.next.value] && done == old(done)
    {
      hide ValidBut, PackageTotal, Fits, Best, Contenders, Steady, Undisturbed, Before, Placed, HeapInOrder, Selected, Heaps.IsHeap, Heaps.HeapEntries,
           IsPackage, SumSet, Elems, TrueUpdates, Followed, AllVisited;
      ghost var ordered := HeapInOrder();
      SteadyOrdered();
      placed, updates := [], [];
      NothingPlaced();
      var next := SelectNext();
      if next.Some? {
        if next.value in used {
          PassOver(next.value);
        } else {
          RootTotals(next.value);
          if |blocks| >= LIMITED_BLOCKS || Fits(blockWeight, pool.ancestorSize[next.value], pool.ancestorSigops[next.value]) {
            if ordered {
              BestContender(next.value);
            }
            placed, updates := Place(next.value);
          } else {
            PutAside(next.value);
          }
        }
      }
    }

    lemma NothingPlaced()
      ensures Followed(Q(), [], c.order) == Q() && AllVisited([]) == {} && TrueUpdates(c, anc0, used, [], [])
      ensures SumSet(c.size, Elems([])) == 0 && Elems<Txid>([]) == {}
      ensures forall q :: Followed(q, [], c.order) == q
    {
      EmptyWeight(c);
    }

    ghost predicate FitsNow(x: Txid)
      reads this`used, this`blockWeight
    {
      Fits(blockWeight, PackageTotal(c.size, anc0, used, x), PackageTotal(c.sigops, anc0, used, x))
    }

    /** `placed` is the package of `next`, from its root down. */
    ghost predicate PickedFor(next: Txid, was: set<Txid>, before: seq<seq<Txid>>, placed: seq<Txid>)
      reads this`done
    {
      && |done| == |before| + 1 && done[..|before|] == before
      && IsPackage(anc0, was, done[|before|]) && done[|before|][|done[|before|]| - 1] == next && placed == Backwards(done[|before|])
    }

    lemma SteadyOrdered()
      requires Valid()
      ensures Steady(c, anc0, blocks, |blocks|) && Undisturbed(anc0, Before(), Placed(done)) ==> HeapInOrder()
    {
      hide AuditPool.Left, GoodWaits, BlocksRight, Logged, OverflowRight, SameMeasure, Before, Steady, Undisturbed, HeapInOrder, Heaps.IsHeap;
    }

    /** What is aside is no contender. */
    lemma BestContender(next: Txid)
      requires ValidBut([next]) && Best(c, anc0, used, c.Keys() - used - Elems(overflow), next)
      ensures Best(c, anc0, used, Contenders(c, anc0, Before(), done, |blocks| < LIMITED_BLOCKS), next)
    {
      hide AuditPool.Left, GoodWaits, BlocksRight, AllGoodPicks, GoodPicks, HeapRight, SameMeasure, Before, NotBetter, Rejected, Heaps.IsHeap;
    }

    lemma RootTotals(x: Txid)
      requires ValidBut([x]) && x in c.Keys()
      ensures x in pool.ancestorSize && pool.ancestorSize[x] == PackageTotal(c.size, anc0, used, x)
      ensures x in pool.ancestorSigops && pool.ancestorSigops[x] == PackageTotal(c.sigops, anc0, used, x)
    {
      hide AuditPool.Left, GoodWaits, BlocksRight, Logged, HeapRight, OverflowRight, PackageTotal, Heaps.IsHeap;
      MiniMiner.WaitingTotals(pool, anc0, used);
    }

    lemma Scores()
      requires Valid()
      ensures ScoresAre(c, anc0, used, pool.ancestorFee, pool.ancestorSize)
    {
      hide AuditPool.Left, GoodWaits, BlocksRight, Logged, HeapRight, OverflowRight, Heaps.IsHeap, ScoresAre;
      RecordedScores(used);
    }

    /** Once there is no limit, nothing is aside; an empty block has only the reserved weight. */
    lemma Facts()
      requires Valid()
      ensures |blocks| >= LIMITED_BLOCKS ==> overflow == []
      ensures transactions == [] ==> blockWeight == RESERVED_WEIGHT && done == []
      ensures used <= c.Keys() && |blocks| <= LIMITED_BLOCKS && used == Elems(Flat(blocks)) + Elems(transactions)
    {
      hide AuditPool.Left, GoodWaits, AllGoodPicks, HeapRight, SameMeasure, Heaps.IsHeap;
      assert Elems<Txid>([]) == {};
      EmptyWeight(c);
    }

    /** The finished blocks, with the one in progress. */
    lemma Result()
      requires Valid() && (|blocks| < LIMITED_BLOCKS && transactions != [] ==> used == c.Keys())
      ensures var result := WithLast(blocks, transactions);
              && AncestorsFirst(anc0, result) && Limited(c, result) && (forall k | 0 <= k < |result| :: result[k] != [])
              && Distinct(Flat(result)) && Elems(Flat(result)) == used <= c.Keys() && |result| <= LIMITED_BLOCKS + 1
    {
      hide AuditPool.Left, GoodWaits, SumSet, Distinct, OverflowRight, HeapRight, SameMeasure, Logged, Heaps.IsHeap, BlockWeight;
      FlatMore(blocks, transactions);
      ElemsConcat(Flat(blocks), transactions);
      AncestorsFirstMore(anc0, blocks, transactions);
      assert transactions == [] ==> Flat(blocks) + transactions == Flat(blocks);
    }

    /** Their picks, with those of the one in progress. */
    lemma ResultLogged()
      requires Valid() && (|blocks| < LIMITED_BLOCKS && transactions != [] ==> used == c.Keys())
      ensures var picks' := if transactions != [] then picks + [done] else picks;
              AllGoodPicks(c, anc0, WithLast(blocks, transactions), picks') && AllEndRight(c, anc0, WithLast(blocks, transactions), picks')
    {
      hide AuditPool.Left, GoodWaits, SumSet, Distinct, OverflowRight, HeapRight, SameMeasure, AllGoodPicks, AllEndRight, GoodPicks, Steady, Heaps.IsHeap,
           BlockWeight, Small, Rejected;
      if transactions != [] {
        AllGoodPicksMore(c, anc0, blocks, picks, done);
        ClosedApart();
        AllEndRightMore(c, anc0, blocks, picks, transactions, done);
      }
    }

    /** What the loop leaves behind: it stopped at an empty block, or nothing is aside. */
    lemma Finish(stopped: bool, result: seq<seq<Txid>>, shown: seq<seq<seq<Txid>>>)
      requires Valid() && top == mempoolArray.Length && heap.root.None? && (if stopped then transactions == [] else overflow == [])
      requires result == WithLast(blocks, transactions) && shown == if transactions != [] then picks + [done] else picks
      ensures AncestorsFirst(anc0, result) && (forall k | 0 <= k < |result| && k < 7 :: 4000 + SumSet(c.size, Elems(result[k])) < 4_000_000)
      ensures |result| <= 8 && (forall k | 0 <= k < |result| :: result[k] != []) && Distinct(Flat(result)) && Elems(Flat(result)) <= c.Keys()
      ensures var placed := Elems(Flat(result));
              placed == c.Keys() || (|result| < 7 && forall u | u in c.Keys() && u !in placed :: TooBig(c, anc0, placed, u))
      ensures AllGoodPicks(c, anc0, result, shown) && |shown| == |result|
      ensures forall k | 0 <= k < |result| && k < 7 ::
                || (4000 + SumSet(c.size, Elems(result[k])) > 3_996_000 && |c.Keys()| + |Shares(anc0, c.Keys())| > 1000)
                || forall u | u in c.Keys() && u !in Elems(Flat(result[..k + 1])) :: Rejected(c, anc0, Elems(Flat(result[..k])), shown[k], u)
    {
      hide ValidBut, AllGoodPicks, AllEndRight, SumSet, Shares, Rejected, TooBig, AncestorsFirst, Distinct, Elems, Flat;
      AllAside();
      Facts();
      Result();
      ResultLogged();
      AllEnd(c, anc0, result, shown);
    }

    /** When nothing waits, what is not placed is aside, and too big if the block is empty. */
    lemma AllAside()
      requires Valid() && top == mempoolArray.Length && heap.root.None?
      ensures overflow == [] ==> used == c.Keys()
      ensures transactions == [] ==> forall u | u in c.Keys() && u !in used :: TooBig(c, anc0, used, u)
    {
      hide AuditPool.Left, GoodWaits, AllGoodPicks, GoodPicks, HeapRight, SameMeasure, TooBig, Rejected;
      assert mempoolArray[top..] == [] && overflow + [] == overflow;
      Facts();
      forall u | u in c.Keys() && u !in used
        ensures u in overflow && (transactions == [] ==> TooBig(c, anc0, used, u))
      {
        TxQueues.NothingWaits(c, anc0, used, Before(), Waiters([]), u);
        if transactions == [] {
          assert Elems<Txid>([]) == {} && Before() == used;
          RejectedFirst(c, anc0, Before(), u);
        }
      }
    }
  }

  /** The block in progress is the last, if anything is in it. */
  function WithLast(blocks: seq<seq<Txid>>, transactions: seq<Txid>): seq<seq<Txid>> {
    if transactions != [] then blocks + [transactions] else blocks
  }

  /** Builds up to eight blocks: the first seven within the limit, the last with all that is left.
      If not everything is placed, every package that remains is too big for an empty block. The picks
      of every block are good ones. A limited block ends when whatever is unplaced failed to fit in it,
      or when it is nearly full. */
  method MakeBlockTemplates(c: Candidates, candidates: seq<Txid>, ghost rank: map<Txid, nat>)
    returns (blocks: seq<seq<Txid>>, ghost anc0: Relatives, ghost picks: seq<seq<seq<Txid>>>)
    requires SameMeasure(c) && c.Ranked(rank) && Distinct(candidates) && Elems(candidates) == c.Keys()
    ensures Ancestry(c, anc0) && AncestorsFirst(anc0, blocks)
    ensures forall k | 0 <= k < |blocks| && k < 7 :: 4000 + SumSet(c.size, Elems(blocks[k])) < 4_000_000
    ensures |blocks| <= 8 && forall k | 0 <= k < |blocks| :: blocks[k] != []
    ensures Distinct(Flat(blocks)) && Elems(Flat(blocks)) <= c.Keys()
    ensures var placed := Elems(Flat(blocks));
            placed == c.Keys() || (|blocks| < 7 && forall u | u in c.Keys() && u !in placed :: TooBig(c, anc0, placed, u))
    ensures AllGoodPicks(c, anc0, blocks, picks)
    ensures forall k | 0 <= k < |blocks| && k < 7 ::
              || (4000 + SumSet(c.size, Elems(blocks[k])) > 3_996_000 && |c.Keys()| + |Shares(anc0, c.Keys())| > 1000)
              || forall u | u in c.Keys() && u !in Elems(Flat(blocks[..k + 1])) :: Rejected(c, anc0, Elems(Flat(blocks[..k])), picks[k], u)
  {
    hide AllGoodPicks, AllEndRight, EndsRight, SumSet, Shares, Rejected, Candidates.Ranked, Ancestry, Worker.Valid, TooBig, AncestorsFirst, Limited, Distinct, SameMeasure, Elems, Flat,
         AddedBack, UnmarkedOnly, Selected, Followed, TrueUpdates, AllVisited, Heaps.HeapEntries,
         Worker.PickedFor, Worker.FitsNow;
    var w := Prepare(c, candidates, rank);
    anc0 := w.anc0;
    ghost var stopped := false;
    while w.top < w.mempoolArray.Length || w.heap.root.Some?
      invariant fresh(w) && fresh(w.pool) && fresh(w.mempoolArray) && fresh(w.heap)
      invariant w.Valid() && w.c == c && w.anc0 == anc0 && w.top <= w.mempoolArray.Length
      invariant !stopped && (w.top == w.mempoolArray.Length && w.heap.root.None? ==> w.overflow == [])
      decreases if |w.blocks| < LIMITED_BLOCKS then LIMITED_BLOCKS - |w.blocks| else 0, c.Keys() - w.used, w.mempoolArray.Length - w.top + |w.heap.Held()|
    {
      ghost var placed, updates := w.Step();
      w.Facts();
      var exceededPackageTries := w.Exceeded();
      var queueEmpty := w.Empty();
      if (exceededPackageTries || queueEmpty) && |w.blocks| < LIMITED_BLOCKS {
        var stop := w.EndBlock();
        w.TopKnown();
        if stop {
          stopped := true;
          break;
        }
      }
    }
    blocks := WithLast(w.blocks, w.transactions);
    picks := if w.transactions != [] then w.picks + [w.done] else w.picks;
    w.Finish(stopped, blocks, picks);
  }

  lemma AllEnd(c: Candidates, anc0: Relatives, blocks: seq<seq<Txid>>, picks: seq<seq<seq<Txid>>>)
    requires AllEndRight(c, anc0, blocks, picks)
    ensures |picks| == |blocks|
    ensures forall k | 0 <= k < |blocks| && k < LIMITED_BLOCKS ::
              || (BlockWeight(c, blocks[k]) > BLOCK_WEIGHT_UNITS - 4000 && !Small(c, anc0))
              || forall u | u in c.Keys() && u !in Elems(Flat(blocks[..k + 1])) :: Rejected(c, anc0, Elems(Flat(blocks[..k])), picks[k], u)
  {
    hide BlockWeight, Small, Rejected, Flat, Elems;
    forall k | 0 <= k < |blocks| ensures Elems(Flat(blocks[..k + 1])) == Elems(Flat(blocks[..k])) + Elems(blocks[k]) {
      assert blocks[..k + 1] == blocks[..k] + [blocks[k]];
      FlatMore(blocks[..k], blocks[k]);
      ElemsConcat(Flat(blocks[..k]), blocks[k]);
    }
    assert forall k | 0 <= k < |blocks| && k < LIMITED_BLOCKS :: EndsRight(c, anc0, Elems(Flat(blocks[..k])), blocks[k], picks[k]);
  }

  /** Sets the relatives of all candidates and sorts them by score. */
  method Prepare(c: Candidates, candidates: seq<Txid>, ghost rank: map<Txid, nat>) returns (w: Worker)
    requires SameMeasure(c) && c.Ranked(rank) && Distinct(candidates) && Elems(candidates) == c.Keys()
    ensures fresh(w) && fresh(w.pool) && fresh(w.mempoolArray) && fresh(w.heap) && w.Valid() && w.c == c && Ancestry(c, w.anc0)
    ensures w.blocks == [] && w.top == 0 && w.overflow == [] && w.transactions == [] && w.used == {} && w.modified == {} && w.done == []
    ensures w.Q() == Queue(None, 0, map[]) && Distinct(w.mempoolArray[..]) && Elems(w.mempoolArray[..]) == c.Keys() && InStartOrder(c, w.anc0, w.mempoolArray[..])
  {
    hide AuditPool.Left, Candidates.Ranked, Ancestry, Worker.Valid, InStartOrder;
    var pool := new AuditPool(c);
    pool.SetAllRelatives(candidates, rank);
    MiniMiner.LeftStart(pool, rank);
    var sorted := MiniMiner.SortCandidates(pool, candidates);
    var mempoolArray := new Txid[|sorted|](i requires 0 <= i < |sorted| => sorted[i]);
    assert mempoolArray[..] == sorted;
    SortedKeys(pool, sorted);
    w := new Worker(pool, mempoolArray);
  }

  lemma SortedKeys(pool: AuditPool, sorted: seq<Txid>)
    requires Waiting(pool, pool.ancestorMap, {}, sorted, [], {}) && pool.queued == {}
    ensures Elems(sorted) == pool.c.Keys() && InStartOrder(pool.c, pool.ancestorMap, sorted)
  {
    hide AuditPool.Left;
  }

  lemma EitherNotBetter(c: Candidates, anc0: Relatives, used: set<Txid>, x: Txid, y: Txid)
    ensures NotBetter(c, anc0, used, x, y) || NotBetter(c, anc0, used, y, x)
  {
    NotBothHigher(PackageTotal(c.fee, anc0, used, x), PackageTotal(c.size, anc0, used, x), PackageTotal(c.fee, anc0, used, y), PackageTotal(c.size, anc0, used, y));
  }

  lemma EmptyWeight(c: Candidates)
    ensures SumSet(c.size, {}) == 0
  {
  }

  /** Here a transaction's size is its weight. */
  ghost predicate SameMeasure(c: Candidates) {
    c.WellFormed() && forall x | x in c.Keys() :: At(c.weight, x) == At(c.size, x)
  }

  lemma {:induction false} SameSum(c: Candidates, s: set<Txid>)
    requires SameMeasure(c) && s <= c.Keys()
    ensures SumSet(c.weight, s) == SumSet(c.size, s)
    decreases s
  {
    if s != {} {
      var x :| x in s;
      SumSetRemove(c.weight, s, x);
      SumSetRemove(c.size, s, x);
      SameSum(c, s - {x});
    }
  }

  lemma BackwardsKnown(package: seq<Txid>)
    requires Distinct(package)
    ensures Elems(Backwards(package)) == Elems(package) && Distinct(Backwards(package)) && |Backwards(package)| == |package|
  {
    MiniMiner.BackwardsElems(package);
  }

  /** The ancestors of a package are placed with it. */
  lemma OwnMore(c: Candidates, anc0: Relatives, rank: map<Txid, nat>, transactions: seq<Txid>, used: set<Txid>, package: seq<Txid>)
    requires Ancestry(c, anc0) && c.Ranked(rank) && IsPackage(anc0, used, package) && Elems(package) <= c.Keys()
    requires OwnAncestors(anc0, transactions, used) && Elems(Backwards(package)) == Elems(package)
    ensures OwnAncestors(anc0, transactions + Backwards(package), used + Elems(package))
  {
    var root := package[|package| - 1];
    assert root in Elems(package) && Elems(package) == Of(anc0, root) - used + {root};
    hide Ancestry, Candidates.Ranked, IsPackage, Backwards;
    forall x | x in transactions + Backwards(package) ensures Of(anc0, x) <= used + Elems(package) {
      if x !in transactions {
        assert x in Elems(Backwards(package));
        if x != root {
          AncestorsNest(c, anc0, rank, root, x);
        }
      }
    }
  }

  lemma HoldsMore(c: Candidates, blocks: seq<seq<Txid>>, transactions: seq<Txid>, used: set<Txid>, package: seq<Txid>)
    requires Holds(c, blocks, transactions, used) && Elems(package) <= c.Keys() && Elems(package) !! used
    requires Elems(Backwards(package)) == Elems(package) && Distinct(Backwards(package))
    ensures Holds(c, blocks, transactions + Backwards(package), used + Elems(package))
  {
    var b := Backwards(package);
    assert Flat(blocks) + (transactions + b) == Flat(blocks) + transactions + b;
    DistinctConcat(Flat(blocks) + transactions, b);
    ElemsConcat(Flat(blocks) + transactions, b);
  }

  lemma WeightMore(c: Candidates, blocks: seq<seq<Txid>>, transactions: seq<Txid>, used: set<Txid>, package: seq<Txid>)
    requires Holds(c, blocks, transactions, used) && Elems(package) !! used && Elems(Backwards(package)) == Elems(package)
    ensures BlockWeight(c, transactions + Backwards(package)) == BlockWeight(c, transactions) + SumSet(c.size, Elems(package))
  {
    ElemsConcat(Flat(blocks), transactions);
    ElemsConcat(transactions, Backwards(package));
    SumSetUnion(c.size, Elems(transactions), Elems(package));
  }
}
