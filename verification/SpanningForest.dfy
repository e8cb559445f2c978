/** The spanning-forest linearizer: merging until the chunks are topological, splitting
    along bridges while the budget lasts. */
module SpanningForest {
  import opened Options
  import opened Feerate
  import opened Graph
  import opened SetSize
  import opened Components
  import opened SflState
  import opened SflRun
  import opened SflMinimal
  import opened Kahn
  import opened Extraction

  /** Directions a merge step can look in. */
  datatype MergeDir = Up | Down | Both

  function Near(dir: MergeDir, d: Dep): Txid { if dir == Up then d.1 else d.0 }

  function Far(dir: MergeDir, d: Dep): Txid { if dir == Up then d.0 else d.1 }

  /** A chunk may absorb a parent chunk that is not above it, or a child chunk it is not above. */
  predicate Mergeable(dir: MergeDir, far: SFLChunk, chunk: SFLChunk) {
    if dir == Up then !ChunkAbove(far, chunk) else !ChunkAbove(chunk, far)
  }

  /** Among parents the lowest feerate is preferred, among children the highest. */
  predicate Preferred(dir: MergeDir, a: SFLChunk, b: SFLChunk) {
    if dir == Up then ChunkAbove(b, a) else ChunkAbove(a, b)
  }

  lemma PreferredTrans(g: Graph, dir: MergeDir, a: SFLChunk, b: SFLChunk, c: SFLChunk)
    requires ExactChunk(g, a) && ExactChunk(g, b) && ExactChunk(g, c)
    requires !Preferred(dir, a, b) && (Preferred(dir, c, b) || !Preferred(dir, b, c))
    ensures !Preferred(dir, a, c)
  {
    hide Higher;
    if Preferred(dir, a, c) {
      if dir == Up {
        if Preferred(dir, c, b) {
          HigherTrans(b.fee, b.weight, c.fee, c.weight, a.fee, a.weight);
        } else {
          NotHigherTrans(c.fee, c.weight, b.fee, b.weight, a.fee, a.weight);
        }
      } else {
        if Preferred(dir, c, b) {
          HigherTrans(a.fee, a.weight, c.fee, c.weight, b.fee, b.weight);
        } else {
          NotHigherTrans(a.fee, a.weight, b.fee, b.weight, c.fee, c.weight);
        }
      }
    }
  }

  /** Dependency `d` joins chunk `id` to a chunk it may absorb. */
  ghost predicate Candidate(dir: MergeDir, chunks: map<nat, SFLChunk>, txToChunk: map<Txid, nat>, id: nat, d: Dep) {
    && id in chunks && d.0 in txToChunk && d.1 in txToChunk
    && txToChunk[Near(dir, d)] == id
    && txToChunk[Far(dir, d)] != id && txToChunk[Far(dir, d)] in chunks
    && Mergeable(dir, chunks[txToChunk[Far(dir, d)]], chunks[id])
  }

  /** The chunks that `id` may absorb through the dependencies `deps`. */
  ghost function Candidates(dir: MergeDir, chunks: map<nat, SFLChunk>, txToChunk: map<Txid, nat>, id: nat, deps: seq<Dep>): set<nat> {
    set d | d in deps && Candidate(dir, chunks, txToChunk, id, d) :: txToChunk[Far(dir, d)]
  }

  lemma CandidatesNext(dir: MergeDir, chunks: map<nat, SFLChunk>, txToChunk: map<Txid, nat>, id: nat, deps: seq<Dep>, i: nat)
    requires i < |deps|
    ensures Candidates(dir, chunks, txToChunk, id, deps[..i + 1])
         == Candidates(dir, chunks, txToChunk, id, deps[..i])
          + if Candidate(dir, chunks, txToChunk, id, deps[i]) then {txToChunk[Far(dir, deps[i])]} else {}
  {
    assert deps[..i + 1] == deps[..i] + [deps[i]];
  }

  /** `best` is a most preferred element of `pool`, or missing because the pool is empty. */
  ghost predicate IsBest(dir: MergeDir, chunks: map<nat, SFLChunk>, pool: set<nat>, best: Option<nat>) {
    && pool <= chunks.Keys
    && (best.None? <==> pool == {})
    && (best.Some? ==> best.value in pool && forall x | x in pool :: !Preferred(dir, chunks[x], chunks[best.value]))
  }

  lemma BestStep(g: Graph, dir: MergeDir, chunks: map<nat, SFLChunk>, pool: set<nat>, best: Option<nat>, far: nat, take: bool)
    requires forall id | id in chunks :: ExactChunk(g, chunks[id])
    requires IsBest(dir, chunks, pool, best) && far in chunks
    requires best.None? ==> take
    requires best.Some? && take ==> Preferred(dir, chunks[far], chunks[best.value]) || !Preferred(dir, chunks[best.value], chunks[far])
    requires best.Some? && !take ==> !Preferred(dir, chunks[far], chunks[best.value])
    ensures IsBest(dir, chunks, pool + {far}, if take then Some(far) else best)
  {
    if take {
      forall x | x in pool + {far} ensures !Preferred(dir, chunks[x], chunks[far]) {
        if x != far {
          PreferredTrans(g, dir, chunks[x], chunks[best.value], chunks[far]);
        }
      }
    }
  }

  class Forest {
    const g: Graph
    const deps: seq<Dep>
    var active: seq<bool>
    var chunks: map<nat, SFLChunk>
    var txToChunk: map<Txid, nat>
    var nextChunkId: nat
    var cost: int

    /** Every transaction starts as a chunk of its own, every dependency inactive. */
    constructor (g0: Graph, allTxs: seq<Txid>)
      requires g0.WellFormed() && g0.Acyclic()
      requires Distinct(allTxs) && Elems(allTxs) == g0.Nodes()
      ensures g == g0 && Valid() && Alone(g, S()) && cost == StartCost(g)
      ensures deps == [] <==> g0.edges == {}
    {
      var direct := CollectDirectDeps(g0, allTxs);
      g, deps := g0, direct;
      active := seq(|direct|, i => false);
      var singles, ids := InitSFLChunks(g0, allTxs);
      chunks, txToChunk, nextChunkId := singles, ids, |allTxs|;
      cost := 87 * |allTxs| + 4 * |direct|;
      new;
      StartActive(g, deps, active, txToChunk);
      SameCount(allTxs, g.Nodes());
      SameCount(deps, g.edges);
    }

    ghost function S(): State
      reads this`chunks, this`txToChunk
    {
      State(chunks, txToChunk)
    }

    lemma Parts()
      requires Valid()
      ensures Partition(g, chunks, txToChunk) && (IsOrdered() ==> FeerateOrdered(g.edges, chunks, txToChunk))
      ensures IsLayered() ==> Layered(g.edges, chunks, txToChunk)
    {
      hide Partition, ActiveInside, FeerateOrdered, Layered;
    }

    lemma Mapped(t: Txid)
      requires Valid()
      ensures t in txToChunk <==> t in g.Nodes()
      ensures t in txToChunk ==> txToChunk[t] in chunks
    {
      hide ActiveInside;
    }

    /** How many chunks, transactions and dependencies there can be. */
    lemma Sizes()
      requires Valid()
      ensures |chunks| <= |g.Nodes()| && |deps| == |g.edges| && forall id | id in chunks :: |chunks[id].txs| <= |g.Nodes()|
    {
      hide Partition, ActiveInside;
      ChunkCount(g, chunks, txToChunk);
      SameCount(deps, g.edges);
    }

    ghost predicate Valid()
      reads this
    {
      && g.WellFormed()
      && Distinct(deps) && (forall d :: d in g.edges <==> d in deps)
      && Partition(g, chunks, txToChunk)
      && ActiveInside(deps, active, txToChunk)
      && (forall id | id in chunks :: id < nextChunkId)
    }

    ghost predicate IsOrdered()
      reads this
    {
      FeerateOrdered(g.edges, chunks, txToChunk)
    }

    ghost predicate IsLayered()
      reads this
    {
      Layered(g.edges, chunks, txToChunk)
    }

    lemma DepEnds(i: nat)
      requires Valid() && i < |deps|
      ensures |active| == |deps| && deps[i].0 in txToChunk && deps[i].1 in txToChunk
      ensures txToChunk[deps[i].0] in chunks && txToChunk[deps[i].1] in chunks
      ensures active[i] <==> txToChunk[deps[i].0] == txToChunk[deps[i].1]
    {
      var (p, c) := deps[i];
      assert (p, c) in deps;
      assert (p, c) in g.edges;
    }

    lemma ActiveLength()
      requires Valid()
      ensures |active| == |deps|
    {
    }

    lemma AllExactChunks()
      requires Valid()
      ensures forall id | id in chunks :: ExactChunk(g, chunks[id])
    {
    }

    // ---------- merging

    lemma PoolStep(dir: MergeDir, id: nat, i: nat)
      requires Valid() && id in chunks && i < |deps|
      ensures |active| == |deps| && deps[i].0 in txToChunk && deps[i].1 in txToChunk && txToChunk[Far(dir, deps[i])] in chunks
      ensures Candidates(dir, chunks, txToChunk, id, deps[..i + 1])
           == Candidates(dir, chunks, txToChunk, id, deps[..i])
            + if !active[i] && txToChunk[Near(dir, deps[i])] == id && Mergeable(dir, chunks[txToChunk[Far(dir, deps[i])]], chunks[id])
              then {txToChunk[Far(dir, deps[i])]} else {}
    {
      hide Mergeable;
      DepEnds(i);
      CandidatesNext(dir, chunks, txToChunk, id, deps, i);
    }

    /** Looks at every inactive dependency of the chunk; ties are broken at random. */
    method PickMergeCandidate(dir: MergeDir, chunkId: nat) returns (best: Option<nat>)
      requires Valid() && chunkId in chunks
      modifies this`cost
      ensures old(cost) <= cost <= old(cost) + 8 * |chunks|
      ensures Valid() && IsBest(dir, chunks, Candidates(dir, chunks, txToChunk, chunkId, deps), best)
    {
      hide ExactChunk, Partition, ActiveInside, Candidates, Mergeable, Preferred, IsBest;
      AllExactChunks();
      best := None;
      var chunk := chunks[chunkId];
      var visited: set<nat> := {};
      ghost var pool: set<nat> := {};
      NoCandidates(dir, chunks, txToChunk, chunkId);
      assert deps[..0] == [];
      for i := 0 to |deps|
        invariant cost == old(cost) && visited <= chunks.Keys
        invariant pool == Candidates(dir, chunks, txToChunk, chunkId, deps[..i])
        invariant IsBest(dir, chunks, pool, best)
      {
        PoolStep(dir, chunkId, i);
        var far := txToChunk[Far(dir, deps[i])];
        if !active[i] && txToChunk[Near(dir, deps[i])] == chunkId {
          visited := visited + {far};
          if Mergeable(dir, chunks[far], chunk) {
            var coin: bool := *;
            BestValue(dir, chunks, pool, best);
            var take := best.None?
                        || Preferred(dir, chunks[far], chunks[best.value])
                        || (!Preferred(dir, chunks[best.value], chunks[far]) && coin);
            BestStep(g, dir, chunks, pool, best, far, take);
            pool := pool + {far};
            if take {
              best := Some(far);
            }
          }
        }
      }
      assert deps[..|deps|] == deps;
      SubsetSize(visited, chunks.Keys);
      cost := cost + 8 * |visited|;
    }

    /** A random inactive dependency from the top chunk to the bottom chunk. */
    method PickRandomCrossChunkDep(topChunkId: nat, bottomChunkId: nat) returns (dep: Option<nat>)
      requires Valid() && topChunkId != bottomChunkId
      modifies this`cost
      ensures old(cost) <= cost <= old(cost) + 2 * (if topChunkId in chunks then |chunks[topChunkId].txs| else 0) + 3 * |deps| + 5
      ensures Valid()
      ensures dep.None? <==> forall i | 0 <= i < |deps| :: !Connects(txToChunk, deps[i], topChunkId, bottomChunkId)
      ensures dep.Some? ==> dep.value < |deps| && Connects(txToChunk, deps[dep.value], topChunkId, bottomChunkId)
    {
      hide Partition, ActiveInside;
      var candidates: seq<nat> := [];
      var scanSteps := 0;
      for i := 0 to |deps|
        invariant cost == old(cost) && 0 <= scanSteps <= i
        invariant forall k | 0 <= k < |candidates| :: candidates[k] < i && Connects(txToChunk, deps[candidates[k]], topChunkId, bottomChunkId)
        invariant forall j | 0 <= j < i && Connects(txToChunk, deps[j], topChunkId, bottomChunkId) :: j in candidates
      {
        DepEnds(i);
        if !active[i] {
          if txToChunk[deps[i].0] == topChunkId && txToChunk[deps[i].1] == bottomChunkId {
            candidates := candidates + [i];
          }
          scanSteps := scanSteps + 1;
        }
      }
      cost := cost + 2 * (if topChunkId in chunks then |chunks[topChunkId].txs| else 0);
      cost := cost + 3 * scanSteps + 5;
      if candidates == [] {
        return None;
      }
      var k :| 0 <= k < |candidates|;
      dep := Some(candidates[k]);
    }

    /** Moves every transaction of `srcId` into `dstId`. */
    method MergeChunks(dstId: nat, srcId: nat)
      requires Partition(g, chunks, txToChunk) && dstId in chunks && srcId in chunks && dstId != srcId
      modifies this`chunks, this`txToChunk
      ensures chunks == old(chunks)[dstId := Joined(old(chunks)[dstId], old(chunks)[srcId])] - {srcId}
      ensures txToChunk == Moved(old(txToChunk), old(chunks)[srcId].txs, dstId)
    {
      hide Partition;
      ChunkKeys(srcId);
      var dst, src := chunks[dstId], chunks[srcId];
      var todo, dstTxs := src.txs, dst.txs;
      while todo != {}
        invariant chunks == old(chunks)
        invariant todo <= src.txs && dstTxs == dst.txs + (src.txs - todo)
        invariant txToChunk == Moved(old(txToChunk), src.txs - todo, dstId)
        decreases todo
      {
        var tx :| tx in todo;
        dstTxs := dstTxs + {tx};
        txToChunk := txToChunk[tx := dstId];
        todo := todo - {tx};
      }
      assert src.txs - {} == src.txs && dstTxs == dst.txs + src.txs;
      var merged := SFLChunk(dstTxs, dst.fee + src.fee, dst.weight + src.weight);
      assert merged == Joined(dst, src);
      chunks := chunks[dstId := merged] - {srcId};
    }

    lemma ChunkKeys(id: nat)
      requires Partition(g, chunks, txToChunk) && id in chunks
      ensures chunks[id].txs <= txToChunk.Keys
    {
    }

    /** Marks every dependency with both ends in the chunk. */
    method ActivateInternalDeps(chunkId: nat)
      requires |active| == |deps|
      modifies this`active, this`cost
      ensures |active| == |deps| && cost == old(cost) + 10 * (if chunkId in chunks then |chunks[chunkId].txs| else 0) + 1
      ensures forall i | 0 <= i < |deps| :: active[i] <==> old(active[i]) || InChunk(txToChunk, deps[i], chunkId)
    {
      for i := 0 to |deps|
        invariant |active| == |deps| && cost == old(cost)
        invariant forall j | 0 <= j < i :: active[j] <==> old(active[j]) || InChunk(txToChunk, deps[j], chunkId)
        invariant forall j | i <= j < |deps| :: active[j] == old(active[j])
      {
        if !active[i] {
          if InChunk(txToChunk, deps[i], chunkId) {
            active := active[i := true];
          }
        }
      }
      var mergedChunkSize := if chunkId in chunks then |chunks[chunkId].txs| else 0;
      cost := cost + 10 * mergedChunkSize + 1;
    }

    /** Absorbs the preferred parent or child chunk, if there is one. */
    method MergeStep(dir: MergeDir, chunkId: nat) returns (result: Option<nat>, ghost far: nat)
      requires Valid()
      modifies this`active, this`chunks, this`txToChunk, this`cost
      ensures Valid() && old(cost) <= cost <= old(cost) + Unit(g)
      ensures result.None? ==> chunks == old(chunks) && txToChunk == old(txToChunk) && active == old(active)
      ensures result.None? && chunkId in chunks ==> Candidates(dir, chunks, txToChunk, chunkId, deps) == {}
      ensures result.Some? ==>
                && result.value == chunkId && chunkId in old(chunks)
                && far in old(Candidates(dir, chunks, txToChunk, chunkId, deps)) && far in old(chunks) && far != chunkId
                && IsMerge(old(chunks), old(txToChunk), chunks, txToChunk, chunkId, far) && MergesTo(g, old(S()), S(), chunkId, far)
                && (dir == Up ==> TakesParent(g, old(S()), chunkId, far))
    {
      hide Partition, ActiveInside, Candidates, IsBest, Joined, Moved, Connects, InChunk, TakesParent, TakesChild;
      far := 0;
      Sizes();
      ghost var before := S();
      if chunkId !in chunks {
        return None, far;
      }
      var best := PickMergeCandidate(dir, chunkId);
      NoneOrBest(dir, chunks, Candidates(dir, chunks, txToChunk, chunkId, deps), best);
      if best.None? {
        return None, far;
      }
      far := best.value;
      CandidateConnects(dir, chunks, txToChunk, chunkId, deps, best.value);
      var top, bottom := if dir == Up then best.value else chunkId, if dir == Up then chunkId else best.value;
      var dep := PickRandomCrossChunkDep(top, bottom);
      assert dep.Some?;
      ActiveLength();
      active := active[dep.value := true];
      MergeKeepsPartition(g, chunks, txToChunk, chunkId, best.value);
      PartitionMembers(g, chunks, txToChunk, best.value);
      MergeChunks(chunkId, best.value);
      ActivateInternalDeps(chunkId);
      MergeActive(deps, old(active), active, old(chunks), old(txToChunk), chunkId, best.value, dep.value);
      Sizes();
      IsMergeNow(before, chunkId, best.value);
      IsTaken(g, deps, dir, before, chunkId, best.value);
      result := Some(chunkId);
    }

    lemma IsMergeNow(before: State, id: nat, far: nat)
      requires id in before.chunks && far in before.chunks && id != far
      requires chunks == before.chunks[id := Joined(before.chunks[id], before.chunks[far])] - {far}
      requires txToChunk == Moved(before.txToChunk, before.chunks[far].txs, id)
      ensures IsMerge(before.chunks, before.txToChunk, chunks, txToChunk, id, far)
    {
    }

    /** Merges until every dependency between chunks leads to a strictly lower feerate.
        Chunks that never took part in a merge are only tried in one random direction. */
    method MakeTopological()
      requires Valid()
      modifies this`active, this`chunks, this`txToChunk, this`cost
      ensures Valid() && IsOrdered() && Merged(g, old(S()), S())
      ensures old(cost) <= cost <= old(cost) + Units(g, 6 * |g.Nodes()| + 1)
    {
      hide Partition, ActiveInside, Candidates, FeerateOrdered, Merged, Units, Unit, AllCovered;
      ghost var from := S();
      MergedSelf(g, from);
      ghost var left: nat, turns: nat := |chunks|, 0;
      Sizes();
      UnitsAdd(g, 0, 0);
      var queue := ShuffledIds(chunks.Keys);
      QueueCount(queue, chunks.Keys);
      var onQueue := chunks.Keys;
      var mergedChunks: set<nat> := {};
      var initDir := RandomDir();
      var numSteps := 0;
      StartCovered(initDir, chunks, txToChunk, deps, queue);
      while queue != []
        invariant Valid() && Distinct(queue) && onQueue == Elems(queue)
        invariant AllCovered(initDir, chunks, txToChunk, deps, queue, mergedChunks)
        invariant Merged(g, from, S()) && |chunks| <= left && turns + |queue| <= 2 * left - |chunks| && 0 <= numSteps <= turns
        invariant old(cost) <= cost && cost + 28 * numSteps <= old(cost) + Units(g, 3 * turns)
        decreases |chunks|, |queue|
      {
        turns := turns + 1;
        UnitsAdd(g, 3 * (turns - 1), 3);
        UnitsAdd(g, 1, 2);
        UnitsAdd(g, 1, 1);
        UnitAmple(g);
        var chunkId := queue[0];
        QueueHead(queue);
        ghost var before := queue;
        queue := queue[1..];
        onQueue := onQueue - {chunkId};
        if chunkId !in chunks {
          DeadCovered(initDir, chunks, txToChunk, deps, before, mergedChunks);
          continue;
        }
        numSteps := numSteps + 1;
        ghost var was := S();
        var result, far := Try(initDir, chunkId in mergedChunks, chunkId, deps, before, mergedChunks);
        MergedTrans(g, from, was, S());
        if result.Some? {
          if result.value !in onQueue {
            onQueue := onQueue + {result.value};
            QueueAppend(queue, result.value);
            queue := queue + [result.value];
          }
          mergedChunks := mergedChunks + {result.value};
        }
      }
      Sizes();
      UnitAmple(g);
      UnitsLess(g, 3 * turns, 6 * |g.Nodes()|);
      UnitsAdd(g, 6 * |g.Nodes()|, 1);
      cost := cost + 20 * |chunks| + 28 * numSteps;
      CoveredOrdered(initDir, g.edges, chunks, txToChunk, deps, mergedChunks);
    }

    /** One turn of the worklist for the chunk at its head. */
    method Try(initDir: MergeDir, both: bool, chunkId: nat, ghost ds: seq<Dep>, ghost queue: seq<nat>, ghost merged: set<nat>)
      returns (result: Option<nat>, ghost far: nat)
      requires Valid() && chunkId in chunks && ds == deps && initDir != Both
      requires queue != [] && queue[0] == chunkId && (both <==> chunkId in merged)
      requires AllCovered(initDir, chunks, txToChunk, deps, queue, merged)
      modifies this`active, this`chunks, this`txToChunk, this`cost
      ensures Valid() && Merged(g, old(S()), S()) && old(cost) <= cost <= old(cost) + 2 * Unit(g)
      ensures result.None? ==> |chunks| == |old(chunks)| && AllCovered(initDir, chunks, txToChunk, deps, queue[1..], merged)
      ensures result.Some? ==>
                && result.value == chunkId && |chunks| < |old(chunks)|
                && AllCovered(initDir, chunks, txToChunk, deps, queue[1..] + [chunkId], merged + {chunkId})
    {
      hide Partition, ActiveInside, Candidates, Merged, MergesTo, Unit, TakesParent;
      MergedSelf(g, S());
      var dir := if both then Both else initDir;
      var first := RandomDir();
      var second := if first == Up then Down else Up;
      result, far := None, 0;
      if dir == Both || dir == first {
        result, far := MergeStep(first, chunkId);
      }
      if result.None? && (dir == Both || dir == second) {
        result, far := MergeStep(second, chunkId);
      }
      if result.Some? {
        MergedOnce(g, old(S()), S(), chunkId, far);
        MergeCovered(initDir, old(chunks), old(txToChunk), chunks, txToChunk, deps, queue, merged, far);
      } else {
        NoMergeCovered(initDir, chunks, txToChunk, deps, queue, merged);
      }
    }

    // ---------- splitting

    /** The parent side of dependency `i` when only that dependency holds its chunk together there. */
    method ComputeDepTopSet(i: nat, chunkId: nat) returns (split: Option<Split>)
      requires Valid() && i < |deps| && chunkId in chunks
      ensures split.Some? ==> IsSplit(g, deps, i, chunks[chunkId].txs, split.value)
      ensures split.Some? ==> IsReachable(deps, active, i, chunks[chunkId].txs, deps[i].0, split.value.parentSide)
      ensures split.None? ==> forall side :: !Cut(deps, i, chunks[chunkId].txs, side)
    {
      hide Partition, ActiveInside, Cut;
      DepEnds(i);
      var txs := chunks[chunkId].txs;
      DepInside(i, chunkId);
      if !active[i] || txToChunk[deps[i].0] != chunkId || txToChunk[deps[i].1] != chunkId {
        NoCut(deps, i, txs);
        return None;
      }
      var parentSide := BfsReachable(deps, active, i, txs, deps[i].0);
      if deps[i].1 in parentSide {
        ConnectedNoCut(deps, active, i, txs, parentSide);
        return None;
      }
      AllActiveInside(chunkId);
      ReachableCut(deps, active, i, txs, parentSide);
      var topFee := AddUp(g.fee, parentSide);
      var topWeight := AddUp(g.weight, parentSide);
      split := Some(Split(parentSide, topFee, topWeight));
    }

    lemma DepInside(i: nat, chunkId: nat)
      requires Valid() && i < |deps| && chunkId in chunks
      ensures deps[i].0 in txToChunk && deps[i].1 in txToChunk
      ensures txToChunk[deps[i].0] == chunkId <==> deps[i].0 in chunks[chunkId].txs
      ensures txToChunk[deps[i].1] == chunkId <==> deps[i].1 in chunks[chunkId].txs
      ensures |active| == |deps| && (deps[i].0 in chunks[chunkId].txs && deps[i].1 in chunks[chunkId].txs ==> active[i])
    {
      DepEnds(i);
    }

    lemma AllActiveInside(chunkId: nat)
      requires Valid() && chunkId in chunks
      ensures |active| == |deps|
      ensures forall j | 0 <= j < |deps| && deps[j].0 in chunks[chunkId].txs && deps[j].1 in chunks[chunkId].txs :: active[j]
    {
    }

    /** Cuts the chunk in two along the bridge. */
    method SplitChunk(bridge: nat, parentSide: set<Txid>, chunkId: nat) returns (childChunkId: nat)
      requires Valid() && IsLayered() && chunkId in chunks && Cut(deps, bridge, chunks[chunkId].txs, parentSide)
      modifies this
      ensures Valid() && IsLayered() && cost == old(cost)
      ensures childChunkId == old(nextChunkId) && nextChunkId == old(nextChunkId) + 1
      ensures chunks.Keys == old(chunks).Keys + {childChunkId} && childChunkId !in old(chunks)
      ensures chunks[chunkId].txs == parentSide && chunks[childChunkId].txs == old(chunks)[chunkId].txs - parentSide
      ensures forall id | id in old(chunks) && id != chunkId :: chunks[id] == old(chunks)[id]
      ensures txToChunk == Moved(old(txToChunk), old(chunks)[chunkId].txs - parentSide, childChunkId)
      ensures chunks == old(chunks)[chunkId := Piece(g, parentSide)][childChunkId := Piece(g, old(chunks)[chunkId].txs - parentSide)]
    {
      hide Partition, ActiveInside, Cut, Layered, SumSet, ExactChunk, SameChunk;
      CutFacts(deps, bridge, chunks[chunkId].txs, parentSide);
      BelowNext();
      AllEnds();
      ChunkInside(chunkId);
      active := active[bridge := false];
      var childSide := chunks[chunkId].txs - parentSide;
      childChunkId := nextChunkId;
      nextChunkId := nextChunkId + 1;
      var childFee := AddUp(g.fee, childSide);
      var childWeight := AddUp(g.weight, childSide);
      var parentFee := AddUp(g.fee, parentSide);
      var parentWeight := AddUp(g.weight, parentSide);
      var top, bottom := SFLChunk(parentSide, parentFee, parentWeight), SFLChunk(childSide, childFee, childWeight);
      HalvesExact(g, chunks, txToChunk, chunkId, top, bottom);
      SplitKeepsPartition(g, chunks, txToChunk, chunkId, childChunkId, top, bottom);
      SplitKeepsLayered(g, deps, chunks, txToChunk, chunkId, childChunkId, bridge, top, bottom);
      chunks := chunks[chunkId := top][childChunkId := bottom];
      MoveTo(childSide, childChunkId);
      DeactivateCrossing();
      SplitActive(g, deps, old(active), active, old(chunks), old(txToChunk), chunkId, childChunkId, bridge, parentSide);
    }

    /** Splits the chunk along the bridge. The bridge itself always asks for a merge back, and
        no dependency leads from the child side to the parent side, so the two halves stay. */
    method SplitAndMerge(bridge: nat, parentSide: set<Txid>, chunkId: nat) returns (childChunkId: nat)
      requires Valid() && IsLayered() && chunkId in chunks && Cut(deps, bridge, chunks[chunkId].txs, parentSide)
      modifies this
      ensures Valid() && IsLayered() && old(cost) < cost <= old(cost) + 13 * |g.Nodes()| + 3 * |g.edges| + 2
      ensures childChunkId == old(nextChunkId) && nextChunkId == old(nextChunkId) + 1
      ensures chunks.Keys == old(chunks).Keys + {childChunkId} && childChunkId !in old(chunks)
      ensures chunks[chunkId].txs == parentSide && chunks[childChunkId].txs == old(chunks)[chunkId].txs - parentSide
      ensures forall id | id in old(chunks) && id != chunkId :: chunks[id] == old(chunks)[id]
      ensures Rises(g, old(chunks)[chunkId], parentSide) ==> CutsTo(g, old(S()), S(), true, chunkId, childChunkId, parentSide, deps[bridge])
      ensures Level(g, old(chunks)[chunkId], parentSide) ==> CutsTo(g, old(S()), S(), false, chunkId, childChunkId, parentSide, deps[bridge])
    {
      hide Partition, ActiveInside, Cut, Layered, Moved, Connects, Bridge, CutsTo, Rises, Level, SumSet, Piece;
      ghost var before := S();
      CutIsBridge(bridge, parentSide, chunkId);
      Sizes();
      CutFacts(deps, bridge, chunks[chunkId].txs, parentSide);
      var origChunkSize := |chunks[chunkId].txs|;
      assert origChunkSize > 0;
      childChunkId := SplitChunk(bridge, parentSide, chunkId);
      cost := cost + 11 * (origChunkSize - 1) + 8;
      SplitSelfMerge(g, deps, old(chunks), old(txToChunk), chunkId, childChunkId, bridge, parentSide);
      CrossInactive(bridge, chunkId, childChunkId);
      var needsSelfMerge := exists i | 0 <= i < |deps| :: !active[i] && Connects(txToChunk, deps[i], chunkId, childChunkId);
      assert needsSelfMerge;
      var selfDep := PickRandomCrossChunkDep(childChunkId, chunkId);
      assert selfDep.None?;
      Sizes();
      IsCutNow(before, chunkId, childChunkId, parentSide, deps[bridge]);
    }

    lemma IsCutNow(before: State, id: nat, child: nat, side: set<Txid>, e: Dep)
      requires id in before.chunks && child !in before.chunks && Bridge(g, before.chunks[id].txs, side, e)
      requires chunks == before.chunks[id := Piece(g, side)][child := Piece(g, before.chunks[id].txs - side)]
      requires txToChunk == Moved(before.txToChunk, before.chunks[id].txs - side, child)
      ensures Rises(g, before.chunks[id], side) ==> CutsTo(g, before, S(), true, id, child, side, e)
      ensures Level(g, before.chunks[id], side) ==> CutsTo(g, before, S(), false, id, child, side, e)
    {
      hide Bridge, Moved, SumSet;
    }

    /** In terms of the graph, a cut is one at a bridge. */
    lemma CutIsBridge(bridge: nat, side: set<Txid>, chunkId: nat)
      requires Valid() && chunkId in chunks && Cut(deps, bridge, chunks[chunkId].txs, side)
      ensures bridge < |deps| && Bridge(g, chunks[chunkId].txs, side, deps[bridge])
    {
      hide Partition, ActiveInside;
      var txs, e := chunks[chunkId].txs, deps[bridge];
      assert e in deps;
      forall d | d in g.edges && d != e && d.0 in txs && d.1 in txs ensures d.0 in side <==> d.1 in side {
        var i :| 0 <= i < |deps| && deps[i] == d;
      }
    }

    /** If no dependency qualifies, no bridge of a connected chunk has a parent side of higher feerate. */
    lemma NoneQualifies(chunkId: nat)
      requires Valid() && chunkId in chunks && Connected(g.edges, chunks[chunkId].txs)
      requires forall i, side :: !Qualifies(i, side, chunkId)
      ensures NoSplit(g, chunks[chunkId])
    {
      hide Partition, ActiveInside, SumSet, Connected, IsReachable;
      var txs := chunks[chunkId].txs;
      forall side: set<Txid>, e: Dep | Bridge(g, txs, side, e) ensures !Rises(g, chunks[chunkId], side) {
        HalvesConnected(g, txs, side, e);
        assert e in deps;
        var i :| 0 <= i < |deps| && deps[i] == e;
        AllActiveInside(chunkId);
        SideReached(i, side, chunkId);
        assert !Qualifies(i, side, chunkId);
      }
    }

    /** A connected parent side is what the search finds from the parent without the bridge. */
    lemma SideReached(i: nat, side: set<Txid>, chunkId: nat)
      requires Valid() && chunkId in chunks && i < |deps| && Bridge(g, chunks[chunkId].txs, side, deps[i]) && Connected(g.edges, side)
      ensures Cut(deps, i, chunks[chunkId].txs, side) && |active| == |deps| && IsReachable(deps, active, i, chunks[chunkId].txs, deps[i].0, side)
    {
      hide Partition, SumSet, Neighbours;
      var txs, e := chunks[chunkId].txs, deps[i];
      AllActiveInside(chunkId);
      BridgeFacts(i, side, txs);
      forall s: set<Txid> | e.0 in s && ClosedFrom(deps, active, i, txs, s, s) ensures side <= s {
        var u := s * side;
        forall p, c | (p, c) in g.edges && p in side && c in side ensures p in u <==> c in u {
          var j :| 0 <= j < |deps| && deps[j] == (p, c);
          NeighbourEnds(deps, active, i, txs, j);
        }
        assert ClosedIn(g.edges, side, u) && e.0 in u;
      }
      forall v | v in side ensures Neighbours(deps, active, i, txs, v) <= side {
        InsideSide(i, side, txs, v);
      }
    }

    lemma BridgeFacts(i: nat, side: set<Txid>, txs: set<Txid>)
      requires Valid() && i < |deps| && Bridge(g, txs, side, deps[i])
      ensures Cut(deps, i, txs, side)
      ensures forall j | 0 <= j < |deps| && j != i && deps[j].0 in txs && deps[j].1 in txs :: deps[j].0 in side <==> deps[j].1 in side
    {
      hide Partition, ActiveInside;
      forall j | 0 <= j < |deps| && j != i && deps[j].0 in txs && deps[j].1 in txs ensures deps[j].0 in side <==> deps[j].1 in side {
        assert deps[j] in deps && deps[j] != deps[i];
      }
    }

    lemma InsideSide(i: nat, side: set<Txid>, txs: set<Txid>, v: Txid)
      requires |active| == |deps| && v in side && side <= txs
      requires forall j | 0 <= j < |deps| && j != i && deps[j].0 in txs && deps[j].1 in txs :: deps[j].0 in side <==> deps[j].1 in side
      ensures Neighbours(deps, active, i, txs, v) <= side
    {
    }

    lemma CrossInactive(i: nat, a: nat, b: nat)
      requires Valid() && i < |deps| && a != b && Connects(txToChunk, deps[i], a, b)
      ensures |active| == |deps| && !active[i]
    {
      DepEnds(i);
    }

    lemma AllEnds()
      requires Valid()
      ensures |active| == |deps|
      ensures forall i | 0 <= i < |deps| :: deps[i].0 in txToChunk && deps[i].1 in txToChunk
    {
      forall i | 0 <= i < |deps| ensures deps[i].0 in txToChunk && deps[i].1 in txToChunk {
        DepEnds(i);
      }
    }

    lemma ChunkInside(id: nat)
      requires Valid() && id in chunks
      ensures chunks[id].txs <= txToChunk.Keys && chunks[id].txs != {}
    {
    }

    lemma BelowNext()
      requires Valid()
      ensures forall id | id in chunks :: id < nextChunkId
    {
    }

    method MoveTo(txs: set<Txid>, id: nat)
      requires txs <= txToChunk.Keys
      modifies this`txToChunk
      ensures txToChunk == Moved(old(txToChunk), txs, id)
    {
      var todo := txs;
      while todo != {}
        invariant todo <= txs && txToChunk == Moved(old(txToChunk), txs - todo, id)
        decreases todo
      {
        var tx :| tx in todo;
        txToChunk := txToChunk[tx := id];
        todo := todo - {tx};
      }
      assert txs - {} == txs;
    }

    method DeactivateCrossing()
      requires |active| == |deps| && forall i | 0 <= i < |deps| :: deps[i].0 in txToChunk && deps[i].1 in txToChunk
      modifies this`active
      ensures |active| == |deps|
      ensures forall i | 0 <= i < |deps| :: active[i] <==> old(active[i]) && SameChunk(txToChunk, deps[i])
    {
      for i := 0 to |deps|
        invariant |active| == |deps|
        invariant forall j | 0 <= j < i :: active[j] <==> old(active[j]) && SameChunk(txToChunk, deps[j])
        invariant forall j | i <= j < |deps| :: active[j] == old(active[j])
      {
        if active[i] && txToChunk[deps[i].0] != txToChunk[deps[i].1] {
          active := active[i := false];
        }
      }
    }

    /** No other side can qualify for the same dependency. */
    lemma OneTopSet(i: nat, chunkId: nat, split: Option<Split>)
      requires Valid() && i < |deps| && chunkId in chunks && |active| == |deps|
      requires split.Some? ==> IsSplit(g, deps, i, chunks[chunkId].txs, split.value)
      requires split.Some? ==> IsReachable(deps, active, i, chunks[chunkId].txs, deps[i].0, split.value.parentSide)
      requires split.None? ==> forall side :: !Cut(deps, i, chunks[chunkId].txs, side)
      ensures forall side | Qualifies(i, side, chunkId) :: split.Some? && side == split.value.parentSide
      ensures split.Some? && Higher(split.value.topFee, split.value.topWeight, chunks[chunkId].fee, chunks[chunkId].weight) <==>
              exists side :: Qualifies(i, side, chunkId)
    {
      hide Valid, Cut, SumSet, Higher;
      forall side | Qualifies(i, side, chunkId) ensures split.Some? && side == split.value.parentSide {
        ReachableOnce(deps, active, i, chunks[chunkId].txs, deps[i].0, side, split.value.parentSide);
      }
      if split.Some? && Higher(split.value.topFee, split.value.topWeight, chunks[chunkId].fee, chunks[chunkId].weight) {
        assert Qualifies(i, split.value.parentSide, chunkId);
      }
    }

    /** Splitting the chunk at dependency `i` leaves `side` above, with a higher feerate than the chunk. */
    ghost predicate Qualifies(i: nat, side: set<Txid>, chunkId: nat)
      reads this`chunks, this`active
    {
      && chunkId in chunks && |active| == |deps| && i < |deps| && Cut(deps, i, chunks[chunkId].txs, side) && IsReachable(deps, active, i, chunks[chunkId].txs, deps[i].0, side)
      && Higher(SumSet(g.fee, side), SumSet(g.weight, side), chunks[chunkId].fee, chunks[chunkId].weight)
    }

    /** A random dependency of the chunk whose parent side has a higher feerate than the chunk, and
        none if there is none. */
    method PickDependencyToSplit(chunkId: nat) returns (best: Option<(nat, set<Txid>)>)
      requires Valid() && chunkId in chunks
      modifies this`cost
      ensures Valid() && cost == old(cost) + 8 * |chunks[chunkId].txs| + 9
      ensures best.Some? ==> Qualifies(best.value.0, best.value.1, chunkId)
      ensures best.None? ==> forall i, side :: !Qualifies(i, side, chunkId)
    {
      hide Partition, ActiveInside, Cut, SumSet, IsReachable, Higher;
      best := None;
      var chunk := chunks[chunkId];
      for i := 0 to |deps|
        invariant cost == old(cost)
        invariant best.Some? ==> Qualifies(best.value.0, best.value.1, chunkId)
        invariant best.None? ==> forall k: nat, side | k < i :: !Qualifies(k, side, chunkId)
      {
        var split := ComputeDepTopSet(i, chunkId);
        AllActiveInside(chunkId);
        OneTopSet(i, chunkId, split);
        if split.Some? && Higher(split.value.topFee, split.value.topWeight, chunk.fee, chunk.weight) {
          var coin: bool := *;
          if best.None? || coin {
            best := Some((i, split.value.parentSide));
          }
        }
      }
      cost := cost + 8 * |chunk.txs| + 9;
    }

    /** Splits chunks off the top while the budget lasts. */
    method OptimizeSFL(maxCost: int)
      requires Valid() && IsLayered() && AllConnected(g, S())
      modifies this
      ensures Valid() && IsLayered() && Refined(g, old(S()), S(), true) && cost >= old(cost)
      ensures maxCost > old(cost) + Units(g, 4 * |g.Nodes()| + 2) ==> Unsplittable(g, S()) && cost <= old(cost) + Units(g, 4 * |g.Nodes()| + 3)
    {
      hide AllConnected, Partition, ActiveInside, Cut, Layered, Refined, NoSplit, Units, Unit, CutsTo, Rises, Level, SumSet, Distinct, Elems, Qualifies;
      var queue := ShuffledIds(chunks.Keys);
      var onQueue := chunks.Keys;
      RefinedSelf(g, S(), true);
      Sizes();
      QueueCount(queue, chunks.Keys);
      UnitAmple(g);
      UnitsAdd(g, 0, 1);
      cost := cost + 13 * |chunks|;
      ghost var spent: nat := 1;
      var empty := false;
      while cost < maxCost && !empty
        invariant Valid() && IsLayered() && Refined(g, old(S()), S(), true)
        invariant Distinct(queue) && onQueue == Elems(queue) && (empty ==> Unsplittable(g, S()))
        invariant forall id | id in chunks && id !in onQueue :: NoSplit(g, chunks[id])
        invariant old(cost) <= cost <= old(cost) + Units(g, if empty then spent + 1 else spent)
        invariant spent <= 4 * |chunks| + 1 && (!empty ==> spent + 2 * |queue| <= 4 * |chunks| + 1)
        decreases maxCost - cost
      {
        ghost var was := cost;
        Sizes();
        ghost var popped;
        empty, queue, onQueue, popped := OptimizeTurn(queue, onQueue, old(S()));
        if empty {
          LastPaid(g, spent);
        } else {
          TurnPaid(g, old(cost), spent, popped, was, cost);
          spent := spent + 2 * popped;
        }
      }
      Sizes();
      UnitsLess(g, spent, 4 * |g.Nodes()| + 2);
      UnitsLess(g, spent + 1, 4 * |g.Nodes()| + 3);
    }

    /** Tries the next chunk of the queue; what it is cut into is tried again. */
    method OptimizeTurn(queue0: seq<nat>, onQueue0: set<nat>, ghost from: State) returns (empty: bool, queue: seq<nat>, onQueue: set<nat>, ghost popped: nat)
      requires Valid() && IsLayered() && AllConnected(g, from) && Refined(g, from, S(), true) && Distinct(queue0) && onQueue0 == Elems(queue0)
      requires forall id | id in chunks && id !in onQueue0 :: NoSplit(g, chunks[id])
      modifies this
      ensures Valid() && IsLayered() && Refined(g, from, S(), true) && Distinct(queue) && onQueue == Elems(queue) && cost > old(cost)
      ensures forall id | id in chunks && id !in onQueue :: NoSplit(g, chunks[id])
      ensures empty ==> Unsplittable(g, S()) && |chunks| == |old(chunks)| && cost <= old(cost) + |queue0| + 4
      ensures !empty ==> 0 < popped && cost <= old(cost) + popped + 21 * |g.Nodes()| + 3 * |g.edges| + 15
      ensures !empty ==> 2 * |queue| + 2 * popped <= 2 * |queue0| + 4 * (|chunks| - |old(chunks)|)
    {
      hide Partition, ActiveInside, Cut, Layered, Refined, NoSplit, CutsTo, Rises, Level, SumSet, Distinct, Elems, Qualifies;
      ghost var s0 := S();
      Sizes();
      empty := false;
      var chunkId, numPopped;
      chunkId, queue, onQueue, numPopped := PopChunk(queue0, onQueue0);
      popped := numPopped;
      cost := cost + 1 * numPopped + 4;
      if chunkId.None? {
        empty := true;
        return;
      }
      var split := PickDependencyToSplit(chunkId.value);
      if split.Some? {
        QualifiesCut(split.value.0, split.value.1, chunkId.value);
        var childChunkId := SplitAndMerge(split.value.0, split.value.1, chunkId.value);
        RefinedMore(g, from, s0, S(), true, chunkId.value, childChunkId, split.value.1, deps[split.value.0]);
        queue, onQueue := Requeue(queue, onQueue, chunkId.value);
        queue, onQueue := Requeue(queue, onQueue, childChunkId);
      } else {
        ConnectedNow(from, true, chunkId.value);
        NoneQualifies(chunkId.value);
      }
    }

    /** Takes the first entry of the queue that is still a chunk. */
    method PopChunk(queue0: seq<nat>, onQueue0: set<nat>) returns (chunkId: Option<nat>, queue: seq<nat>, onQueue: set<nat>, numPopped: nat)
      requires Distinct(queue0) && onQueue0 == Elems(queue0)
      ensures Distinct(queue) && onQueue == Elems(queue) && numPopped == |queue0| - |queue|
      ensures chunkId.Some? ==> chunkId.value in chunks && numPopped > 0 && forall id | id in chunks && id in onQueue0 :: id in onQueue || id == chunkId.value
      ensures chunkId.None? ==> queue == [] && forall id | id in chunks :: id !in onQueue0
    {
      queue, onQueue, chunkId, numPopped := queue0, onQueue0, None, 0;
      while queue != [] && chunkId.None?
        invariant Distinct(queue) && onQueue == Elems(queue) && numPopped == |queue0| - |queue|
        invariant chunkId.Some? ==> chunkId.value in chunks && numPopped > 0
        invariant forall id | id in chunks && id in onQueue0 :: id in onQueue || chunkId == Some(id)
        decreases |queue|
      {
        var candidate := queue[0];
        QueueHead(queue);
        queue := queue[1..];
        numPopped := numPopped + 1;
        onQueue := onQueue - {candidate};
        if candidate in chunks {
          chunkId := Some(candidate);
        }
      }
    }

    lemma ConnectedNow(from: State, rising: bool, id: nat)
      requires AllConnected(g, from) && Refined(g, from, S(), rising) && id in chunks
      ensures Connected(g.edges, chunks[id].txs)
    {
      hide Connected, Refined;
      StaysConnected(g, from, S(), rising);
    }

    lemma QualifiesCut(i: nat, side: set<Txid>, chunkId: nat)
      requires Qualifies(i, side, chunkId)
      ensures chunkId in chunks && Cut(deps, i, chunks[chunkId].txs, side) && Rises(g, chunks[chunkId], side)
    {
    }

    method Requeue(queue0: seq<nat>, onQueue0: set<nat>, id: nat) returns (queue: seq<nat>, onQueue: set<nat>)
      requires Distinct(queue0) && onQueue0 == Elems(queue0)
      ensures Distinct(queue) && onQueue == Elems(queue) == onQueue0 + (if id in chunks then {id} else {}) && |queue0| <= |queue| <= |queue0| + 1
    {
      queue, onQueue := queue0, onQueue0;
      if id !in onQueue && id in chunks {
        QueueAppend(queue, id);
        onQueue := onQueue + {id};
        queue := queue + [id];
      }
    }

    /** Splits chunks into equal-feerate halves around random pivots while the budget lasts. If it
        lasts, and no tiebreak drawn is 0, no chunk is left that could be split so. */
    method MinimizeSFL(maxCost: int, draws: Draws)
      requires Valid() && IsLayered() && AllConnected(g, S())
      modifies this
      ensures Valid() && IsLayered() && Refined(g, old(S()), S(), false)
      ensures old(Unsplittable(g, S())) ==> Unsplittable(g, S())
      ensures AllPositive(draws) && maxCost > old(cost) + Units(g, 4 * |g.Nodes()| + 1) ==> Unlevel(g, S())
    {
      hide Valid, IsLayered, Sound, TurnsLeft, Refined, AllConnected, Queued, Unsplittable, Unlevel, Units, Unit, Turns, AllPositive, Distinct, Elems;
      ghost var from, sure := S(), AllPositive(draws);
      RefinedSelf(g, from, false);
      Sizes();
      var queue := StartQueue(sure);
      var drawn := 0;
      UnitAmple(g);
      UnitsAdd(g, 0, 1);
      ghost var spent: nat := 1;
      FirstTurn(g, chunks, queue);
      while queue != [] && cost < maxCost
        invariant Valid() && IsLayered() && Refined(g, from, S(), false) && Queued(g, chunks, queue, sure)
        invariant Unsplittable(g, from) ==> Unsplittable(g, S())
        invariant TurnsLeft(g, chunks, queue, spent) && cost <= old(cost) + Units(g, spent)
        decreases maxCost - cost, |queue|
      {
        var entry := queue[0];
        assert queue == [entry] + queue[1..];
        UnitsAdd(g, spent, 1);
        HeadKnown(g, chunks, entry, queue[1..], sure);
        ghost var before, wasQueue := chunks, queue;
        queue := queue[1..];
        if entry.chunkId in chunks {
          queue, drawn := MinimizeChunkStep(entry, queue, draws, drawn, from);
          Sizes();
          NextTurn(g, before, wasQueue, chunks, queue, spent);
          spent := spent + 1;
        }
      }
      Ended(queue, sure);
      LastTurn(g, chunks, queue, spent);
    }

    lemma Ended(queue: seq<MinimizeEntry>, sure: bool)
      requires Queued(g, chunks, queue, sure)
      ensures queue == [] && sure ==> Unlevel(g, S())
    {
      hide Queued, Unlevel;
      if queue == [] && sure {
        QueuedDone(g, S());
      }
    }

    /** Every chunk is queued with a random pivot and a random direction. */
    method StartQueue(ghost sure: bool) returns (queue: seq<MinimizeEntry>)
      requires Valid() && IsLayered()
      modifies this`cost
      ensures Valid() && IsLayered() && cost == old(cost) + 18 * |chunks|
      ensures Queued(g, chunks, queue, sure) && Turns(queue) <= 2 * |chunks|
    {
      hide Partition, ActiveInside, Layered, Queued, Turns;
      var ids := ShuffledIds(chunks.Keys);
      queue := [];
      for i := 0 to |ids|
        invariant |queue| == i && cost == old(cost)
        invariant forall j | 0 <= j < i ::
                    ids[j] in chunks && queue[j].chunkId == ids[j] && queue[j].pivot in chunks[ids[j]].txs && !queue[j].secondStage
      {
        assert ids[i] in Elems(ids);
        ChunkInside(ids[i]);
        var pivot :| pivot in chunks[ids[i]].txs;
        var down: bool := *;
        queue := queue + [MinimizeEntry(ids[i], pivot, down, false)];
      }
      QueuedStart(g, chunks, queue, ids, sure);
      QueueCount(ids, chunks.Keys);
      TurnsMost(queue);
      cost := cost + 18 * |chunks|;
    }

    /** Draws one of the level bridges that have the wanted side of the pivot, if there is one. */
    method PickLevelSplit(entry: MinimizeEntry, draws: Draws, drawn0: nat)
      returns (haveAny: bool, best: Option<(nat, set<Txid>)>, drawn: nat)
      requires Valid() && entry.chunkId in chunks && Connected(g.edges, chunks[entry.chunkId].txs)
      ensures best.Some? ==> haveAny && Cut(deps, best.value.0, chunks[entry.chunkId].txs, best.value.1)
      ensures best.Some? ==> Level(g, chunks[entry.chunkId], best.value.1) && entry.movePivotDown != (entry.pivot in best.value.1)
      ensures haveAny <==> exists side: set<Txid>, e: Dep :: Bridge(g, chunks[entry.chunkId].txs, side, e) && Level(g, chunks[entry.chunkId], side)
      ensures best.None? && AllPositive(draws) ==> forall side: set<Txid>, e: Dep ::
                Bridge(g, chunks[entry.chunkId].txs, side, e) && Level(g, chunks[entry.chunkId], side) ==> entry.movePivotDown == (entry.pivot in side)
    {
      hide Partition, ActiveInside, Cut, Layered, SumSet, Bridge, Level, Connected, AllPositive, Tried;
      StartTried(chunks[entry.chunkId], entry, AllPositive(draws));
      haveAny, best, drawn := false, None, drawn0;
      var bestTiebreak := 0.0;
      var chunk := chunks[entry.chunkId];
      for i := 0 to |deps|
        invariant best.Some? ==> haveAny && Cut(deps, best.value.0, chunk.txs, best.value.1)
        invariant best.Some? ==> Level(g, chunk, best.value.1) && entry.movePivotDown != (entry.pivot in best.value.1)
        invariant Tried(chunk, entry, i, haveAny, best.None? && AllPositive(draws))
        invariant best.None? ==> bestTiebreak == 0.0
      {
        var split := ComputeDepTopSet(i, entry.chunkId);
        OnlySide(i, entry.chunkId, split);
        ghost var hadAny, hadNone := haveAny, best.None?;
        if split.Some? && split.value.topFee * chunk.weight == chunk.fee * split.value.topWeight {
          haveAny := true;
          if entry.movePivotDown != (entry.pivot in split.value.parentSide) {
            var tiebreak := draws(drawn);
            PositiveAt(draws, drawn);
            drawn := drawn + 1;
            if tiebreak > bestTiebreak {
              bestTiebreak := tiebreak;
              best := Some((i, split.value.parentSide));
            }
          }
        }
        TriedMore(chunk, entry, i, split, hadAny, hadNone && AllPositive(draws), haveAny, best.None? && AllPositive(draws));
      }
      TriedAll(chunk, entry, haveAny, best.None? && AllPositive(draws));
    }

    /** Among the first `n` dependencies, level bridges are known, and with the wanted side there are none. */
    ghost predicate Tried(chunk: SFLChunk, entry: MinimizeEntry, n: nat, haveAny: bool, none: bool) {
      && n <= |deps|
      && (haveAny ==> exists side: set<Txid>, e: Dep :: Bridge(g, chunk.txs, side, e) && Level(g, chunk, side))
      && forall side: set<Txid>, j | 0 <= j < n && Bridge(g, chunk.txs, side, deps[j]) && Level(g, chunk, side) ::
           haveAny && (none ==> entry.movePivotDown == (entry.pivot in side))
    }

    lemma StartTried(chunk: SFLChunk, entry: MinimizeEntry, none: bool)
      ensures Tried(chunk, entry, 0, false, none)
    {
    }

    lemma TriedMore(chunk: SFLChunk, entry: MinimizeEntry, i: nat, split: Option<Split>, hadAny: bool, hadNone: bool, haveAny: bool, none: bool)
      requires i < |deps| && Tried(chunk, entry, i, hadAny, hadNone) && (none ==> hadNone) && (hadAny ==> haveAny)
      requires split.Some? ==> Bridge(g, chunk.txs, split.value.parentSide, deps[i])
      requires forall side: set<Txid> | Bridge(g, chunk.txs, side, deps[i]) :: split.Some? && side == split.value.parentSide
      requires haveAny <==> hadAny || (split.Some? && Level(g, chunk, split.value.parentSide))
      requires split.Some? && Level(g, chunk, split.value.parentSide) && none ==> entry.movePivotDown == (entry.pivot in split.value.parentSide)
      ensures Tried(chunk, entry, i + 1, haveAny, none)
    {
      hide Bridge, Level;
    }

    lemma TriedAll(chunk: SFLChunk, entry: MinimizeEntry, haveAny: bool, none: bool)
      requires Valid() && Tried(chunk, entry, |deps|, haveAny, none)
      ensures haveAny <==> exists side: set<Txid>, e: Dep :: Bridge(g, chunk.txs, side, e) && Level(g, chunk, side)
      ensures none ==> forall side: set<Txid>, e: Dep ::
                Bridge(g, chunk.txs, side, e) && Level(g, chunk, side) ==> entry.movePivotDown == (entry.pivot in side)
    {
      hide Partition, ActiveInside, Bridge, Level;
      forall side: set<Txid>, e: Dep | Bridge(g, chunk.txs, side, e) && Level(g, chunk, side)
        ensures haveAny && (none ==> entry.movePivotDown == (entry.pivot in side))
      {
        BridgeListed(chunk.txs, side, e);
        var j :| 0 <= j < |deps| && deps[j] == e;
      }
    }

    lemma BridgeListed(txs: set<Txid>, side: set<Txid>, e: Dep)
      requires Valid() && Bridge(g, txs, side, e)
      ensures e in deps
    {
      hide Partition, ActiveInside;
    }

    /** What the search returns is the one side that the dependency cuts off. */
    lemma OnlySide(i: nat, chunkId: nat, split: Option<Split>)
      requires Valid() && i < |deps| && chunkId in chunks && Connected(g.edges, chunks[chunkId].txs)
      requires split.Some? ==> IsSplit(g, deps, i, chunks[chunkId].txs, split.value)
      requires split.None? ==> forall side :: !Cut(deps, i, chunks[chunkId].txs, side)
      ensures split.Some? ==> Cut(deps, i, chunks[chunkId].txs, split.value.parentSide) && Bridge(g, chunks[chunkId].txs, split.value.parentSide, deps[i])
      ensures split.Some? ==> split.value.topFee == SumSet(g.fee, split.value.parentSide) && split.value.topWeight == SumSet(g.weight, split.value.parentSide)
      ensures split.Some? ==> (Level(g, chunks[chunkId], split.value.parentSide) <==>
                                 split.value.topFee * chunks[chunkId].weight == chunks[chunkId].fee * split.value.topWeight)
      ensures forall side: set<Txid> | Bridge(g, chunks[chunkId].txs, side, deps[i]) :: split.Some? && side == split.value.parentSide
    {
      hide Partition, ActiveInside, SumSet, Connected, Bridge, Cut;
      if split.Some? {
        CutIsBridge(i, split.value.parentSide, chunkId);
      }
      forall side: set<Txid> | Bridge(g, chunks[chunkId].txs, side, deps[i]) ensures split.Some? && side == split.value.parentSide {
        HalvesConnected(g, chunks[chunkId].txs, side, deps[i]);
        SideReached(i, side, chunkId);
        if split.Some? {
          SideUnique(g, chunks[chunkId].txs, side, split.value.parentSide, deps[i]);
        }
      }
    }

    lemma PositiveAt(draws: Draws, i: nat)
      ensures AllPositive(draws) ==> draws(i) > 0.0
    {
    }

    /** One turn of the minimizer for a chunk on its queue. */
    method MinimizeChunkStep(entry: MinimizeEntry, queue0: seq<MinimizeEntry>, draws: Draws, drawn0: nat, ghost from: State)
      returns (queue: seq<MinimizeEntry>, drawn: nat)
      requires Valid() && IsLayered() && entry.chunkId in chunks && entry.pivot in chunks[entry.chunkId].txs
      requires AllConnected(g, from) && Refined(g, from, S(), false) && Queued(g, chunks, [entry] + queue0, AllPositive(draws))
      modifies this
      ensures Valid() && IsLayered() && old(cost) < cost <= old(cost) + Unit(g) && Refined(g, from, S(), false)
      ensures Queued(g, chunks, queue, AllPositive(draws)) && (old(Unsplittable(g, S())) ==> Unsplittable(g, S()))
      ensures Turns(queue) + 1 <= Turns([entry] + queue0) + 4 * (|chunks| - |old(chunks)|)
    {
      hide Partition, ActiveInside, Cut, Layered, SumSet, Refined, CutsTo, AllConnected, Connected, Queued, NoLevel, Unsplittable, AllPositive, Turns, Bridge, Level, Sound;
      ghost var before := S();
      queue := queue0;
      Sizes();
      ConnectedNow(from, false, entry.chunkId);
      HeadKnown(g, chunks, entry, queue, AllPositive(draws));
      TurnsConcat([entry], queue);
      TurnsPair(entry, entry);
      var haveAny, best;
      haveAny, best, drawn := PickLevelSplit(entry, draws, drawn0);
      cost := cost + 11 * |chunks[entry.chunkId].txs| + 11;
      if !haveAny {
        cost := cost + 7;
        IsNoLevel(chunks[entry.chunkId]);
        QueuedDrop(g, chunks, entry, queue, AllPositive(draws));
        return;
      }
      if best.None? {
        ghost var entry' := entry.(movePivotDown := !entry.movePivotDown, secondStage := true);
        NoneOnThisSide(chunks[entry.chunkId], entry, entry', AllPositive(draws));
        if !entry.secondStage {
          QueuedAgain(g, chunks, entry, queue, entry', AllPositive(draws));
          TurnsConcat(queue, [entry']);
          TurnsPair(entry', entry');
          queue := queue + [entry.(movePivotDown := !entry.movePivotDown, secondStage := true)];
        } else {
          QueuedDrop(g, chunks, entry, queue, AllPositive(draws));
        }
        cost := cost + 7;
        return;
      }
      queue := SplitLevel(entry, best.value.0, best.value.1, queue, from, AllPositive(draws));
    }
    /** Splits the chunk of an entry and queues both halves: the one with the pivot in the same stage,
        the other one with a new pivot. */
    method SplitLevel(entry: MinimizeEntry, bridge: nat, side: set<Txid>, queue0: seq<MinimizeEntry>, ghost from: State, ghost sure: bool)
      returns (queue: seq<MinimizeEntry>)
      requires Valid() && IsLayered() && entry.chunkId in chunks && entry.pivot in chunks[entry.chunkId].txs && Refined(g, from, S(), false)
      requires Cut(deps, bridge, chunks[entry.chunkId].txs, side) && Level(g, chunks[entry.chunkId], side)
      requires entry.movePivotDown != (entry.pivot in side) && Queued(g, chunks, [entry] + queue0, sure)
      modifies this
      ensures Valid() && IsLayered() && old(cost) < cost <= old(cost) + 13 * |g.Nodes()| + 3 * |g.edges| + 26 && Refined(g, from, S(), false)
      ensures Queued(g, chunks, queue, sure) && (old(Unsplittable(g, S())) ==> Unsplittable(g, S()))
      ensures |chunks| == |old(chunks)| + 1 && Turns(queue) == Turns(queue0) + TurnsOf(entry) + 2
    {
      hide Partition, ActiveInside, Cut, Layered, SumSet, Refined, Queued, NoLevel, Unsplittable, Turns, Bridge, Level, Sound, Piece, Distinct, Moved;
      ghost var before := S();
      queue := queue0;
      HeadKnown(g, chunks, entry, queue0, sure);
      IsExact(entry.chunkId);
      CutIsBridge(bridge, side, entry.chunkId);
      var childChunkId := SplitAndMerge(bridge, side, entry.chunkId);
      RefinedMore(g, from, before, S(), false, entry.chunkId, childChunkId, side, deps[bridge]);
      if Unsplittable(g, before) {
        UnsplittableStep(g, before, S(), entry.chunkId, childChunkId, side, deps[bridge]);
      }
      cost := cost + 17 + 7;
      ChunkInside(entry.chunkId);
      ChunkInside(childChunkId);
      queue := RequeueHalves(entry, childChunkId, queue0, before.chunks, side, deps[bridge], sure);
    }

    /** Queues both halves, in either order. */
    method RequeueHalves(entry: MinimizeEntry, childChunkId: nat, queue0: seq<MinimizeEntry>,
                         ghost before: map<nat, SFLChunk>, ghost side: set<Txid>, ghost e: Dep, ghost sure: bool)
      returns (queue: seq<MinimizeEntry>)
      requires g.WellFormed() && entry.chunkId in before && ExactChunk(g, before[entry.chunkId]) && childChunkId !in before
      requires Bridge(g, before[entry.chunkId].txs, side, e) && Level(g, before[entry.chunkId], side) && side != {} && before[entry.chunkId].txs - side != {}
      requires chunks == before[entry.chunkId := Piece(g, side)][childChunkId := Piece(g, before[entry.chunkId].txs - side)]
      requires entry.pivot in before[entry.chunkId].txs && entry.movePivotDown != (entry.pivot in side) && Queued(g, before, [entry] + queue0, sure)
      ensures Queued(g, chunks, queue, sure) && Turns(queue) == Turns(queue0) + TurnsOf(entry) + 2
    {
      hide SumSet, Queued, NoLevel, Turns, Bridge, Level, Sound, ExactChunk;
      HeadKnown(g, before, entry, queue0, sure);
      ghost var c := before[entry.chunkId];
      queue := queue0;
      var down: bool := *;
      ghost var x, y;
      if entry.movePivotDown {
        var parentPivot :| parentPivot in chunks[entry.chunkId].txs;
        x, y := MinimizeEntry(entry.chunkId, parentPivot, down, false), entry.(chunkId := childChunkId);
        queue := queue + [MinimizeEntry(entry.chunkId, parentPivot, down, false)];
        queue := queue + [entry.(chunkId := childChunkId)];
        HalvesSound(c, side, e, c.txs - side, entry, y, x, chunks[entry.chunkId], sure);
      } else {
        queue := queue + [entry];
        var childPivot :| childPivot in chunks[childChunkId].txs;
        queue := queue + [MinimizeEntry(childChunkId, childPivot, down, false)];
        x, y := entry, MinimizeEntry(childChunkId, childPivot, down, false);
        HalvesSound(c, side, e, side, entry, x, y, chunks[childChunkId], sure);
      }
      assert queue == queue0 + [x, y];
      var swap: bool := *;
      if |queue| >= 2 && swap {
        var last := |queue| - 1;
        queue := queue[last := queue[last - 1]][last - 1 := queue[last]];
        assert queue == queue0 + [y, x];
      }
      QueuedSplit(g, before, chunks, entry, queue0, x, y, sure);
      QueuedSplit(g, before, chunks, entry, queue0, y, x, sure);
      TurnsConcat(queue0, [x, y]);
      TurnsConcat(queue0, [y, x]);
      TurnsPair(x, y);
      TurnsPair(y, x);
    }

    lemma IsExact(id: nat)
      requires Valid() && id in chunks
      ensures g.WellFormed() && ExactChunk(g, chunks[id])
    {
      hide ActiveInside, ExactChunk;
    }

    /** The entry of the half with the pivot is sound if it was, a new one always is. */
    lemma HalvesSound(c: SFLChunk, side: set<Txid>, e0: Dep, half: set<Txid>, entry: MinimizeEntry, same: MinimizeEntry, other: MinimizeEntry, rest: SFLChunk, sure: bool)
      requires g.WellFormed() && ExactChunk(g, c) && Bridge(g, c.txs, side, e0) && Level(g, c, side)
      requires (sure ==> Sound(g, c, entry)) && (half == side || half == c.txs - side) && entry.pivot in half
      requires same == entry.(chunkId := same.chunkId) && !other.secondStage && other.pivot in rest.txs
      ensures sure ==> Sound(g, Piece(g, half), same) && Sound(g, rest, other)
    {
      hide Bridge, Level, SumSet;
      if sure {
        SoundHalf(g, c, side, e0, half, entry, same);
      }
    }

    /** Without a level bridge on the wanted side of the pivot, all are on the other side, and this was
        the first stage. */
    lemma NoneOnThisSide(c: SFLChunk, entry: MinimizeEntry, entry': MinimizeEntry, sure: bool)
      requires sure ==> Sound(g, c, entry)
      requires entry.pivot in c.txs && entry' == entry.(movePivotDown := !entry.movePivotDown, secondStage := true)
      requires exists side: set<Txid>, e: Dep :: Bridge(g, c.txs, side, e) && Level(g, c, side)
      requires sure ==> forall side: set<Txid>, e: Dep ::
                 Bridge(g, c.txs, side, e) && Level(g, c, side) ==> entry.movePivotDown == (entry.pivot in side)
      ensures sure ==> !entry.secondStage && Sound(g, c, entry')
    {
      hide Bridge, Level;
    }

    lemma IsNoLevel(c: SFLChunk)
      requires !exists side: set<Txid>, e: Dep :: Bridge(g, c.txs, side, e) && Level(g, c, side)
      ensures NoLevel(g, c)
    {
      hide Bridge, Level;
    }

    /** Merges the chunk with parents that are not above it until none is left. */
    method MergeUpwards(chunkId: nat)
      requires Valid()
      modifies this`active, this`chunks, this`txToChunk, this`cost
      ensures Valid() && |chunks| <= |old(chunks)|
      ensures old(cost) <= cost <= old(cost) + Units(g, |old(chunks)| - |chunks| + 1)
      ensures chunkId in chunks ==> Candidates(Up, chunks, txToChunk, chunkId, deps) == {}
      ensures chunkId in old(chunks) ==> Raised(g, old(S()), S(), chunkId)
    {
      hide Partition, ActiveInside, Candidates, Units, Unit, TakesParent, MergesTo, Feeds, RaisedIn, AtMost;
      ghost var from, steps: nat := S(), 0;
      RaisedStart(g, from, chunkId);
      var done := false;
      UnitsAdd(g, 0, 0);
      while !done
        invariant Valid() && |chunks| <= |old(chunks)| && RaisedIn(g, from, S(), chunkId, steps)
        invariant old(cost) <= cost <= old(cost) + Units(g, |old(chunks)| - |chunks| + if done then 1 else 0)
        invariant done && chunkId in chunks ==> Candidates(Up, chunks, txToChunk, chunkId, deps) == {}
        decreases |chunks|, !done
      {
        ghost var was := S();
        UnitsAdd(g, |old(chunks)| - |chunks|, 1);
        var result, far := MergeStep(Up, chunkId);
        if result.Some? {
          MergeShrinks(was.chunks, was.txToChunk, chunks, txToChunk, chunkId, far);
          UnitsLess(g, |old(chunks)| - |was.chunks| + 1, |old(chunks)| - |chunks|);
          RaisedMore(g, from, was, S(), chunkId, steps, far);
          steps := steps + 1;
        }
        done := result.None?;
      }
      if chunkId in from.chunks {
        RaisedStays(g, from, S(), chunkId, steps);
        NoneAbove(chunkId);
      }
    }

    /** Without a candidate, all parent chunks are above. */
    lemma NoneAbove(id: nat)
      requires Valid() && id in chunks && Candidates(Up, chunks, txToChunk, id, deps) == {}
      ensures forall x: nat | Feeds(g, S(), x, id) :: !AtMost(chunks[x], chunks[id])
    {
      hide Partition, ActiveInside, Candidates, AtMost;
      forall x: nat | Feeds(g, S(), x, id) ensures !AtMost(chunks[x], chunks[id]) {
        CandidateFeeds(g, deps, Up, S(), id, x);
      }
    }
  }

  lemma TurnPaid(g: Graph, start: int, spent: nat, popped: nat, before: int, after: int)
    requires before <= start + Units(g, spent) && 0 < popped && after <= before + popped + 21 * |g.Nodes()| + 3 * |g.edges| + 15
    ensures after <= start + Units(g, spent + 2 * popped)
  {
    hide Units;
    UnitsAdd(g, spent, 2 * popped);
    UnitsAdd(g, popped, popped);
    UnitsLess(g, 1, popped);
    UnitsAdd(g, 1, 0);
    UnitsAtLeast(g, popped);
  }

  /** The turns left, and four for each further chunk there can be, are at most four for each transaction. */
  ghost predicate TurnsLeft(g: Graph, chunks: map<nat, SFLChunk>, queue: seq<MinimizeEntry>, spent: nat) {
    |chunks| <= |g.Nodes()| && spent + Turns(queue) + 4 * (|g.Nodes()| - |chunks|) <= 4 * |g.Nodes()| + 1
  }

  lemma FirstTurn(g: Graph, chunks: map<nat, SFLChunk>, queue: seq<MinimizeEntry>)
    requires |chunks| <= |g.Nodes()| && Turns(queue) <= 2 * |chunks|
    ensures TurnsLeft(g, chunks, queue, 1)
  {
    hide Turns;
  }

  lemma NextTurn(g: Graph, before: map<nat, SFLChunk>, queue0: seq<MinimizeEntry>, chunks: map<nat, SFLChunk>, queue: seq<MinimizeEntry>, spent: nat)
    requires TurnsLeft(g, before, queue0, spent) && |chunks| <= |g.Nodes()|
    requires Turns(queue) + 1 <= Turns(queue0) + 4 * (|chunks| - |before|)
    ensures TurnsLeft(g, chunks, queue, spent + 1)
  {
    hide Turns;
  }

  lemma LastTurn(g: Graph, chunks: map<nat, SFLChunk>, queue: seq<MinimizeEntry>, spent: nat)
    requires TurnsLeft(g, chunks, queue, spent)
    ensures Units(g, spent) <= Units(g, 4 * |g.Nodes()| + 1)
  {
    hide Turns, Units;
    UnitsLess(g, spent, 4 * |g.Nodes()| + 1);
  }

  lemma LastPaid(g: Graph, spent: nat)
    ensures Units(g, spent + 1) >= Units(g, spent) + 2 * |g.Nodes()| + 4
  {
    hide Units;
    UnitsAdd(g, spent, 1);
  }

  lemma UnitsAtLeast(g: Graph, n: nat)
    ensures n <= Units(g, n)
  {
    AtLeast(n, Unit(g));
  }

  lemma AtLeast(n: nat, u: nat)
    requires 1 <= u
    ensures n <= n * u
  {
  }

  /** A unit pays for a fixed amount too. */
  lemma UnitAmple(g: Graph)
    ensures 28 <= Unit(g) && 20 * |g.Nodes()| <= Unit(g)
  {
  }

  /** What a merge step picks is a parent or child chunk as the run allows it. */
  lemma IsTaken(g: Graph, deps: seq<Dep>, dir: MergeDir, s: State, id: nat, far: nat)
    requires Partition(g, s.chunks, s.txToChunk) && forall d :: d in g.edges <==> d in deps
    requires id in s.chunks && IsBest(dir, s.chunks, Candidates(dir, s.chunks, s.txToChunk, id, deps), Some(far))
    ensures if dir == Up then TakesParent(g, s, id, far) else TakesChild(g, s, id, far)
  {
    hide ExactChunk;
    forall x: nat | x in s.chunks
      ensures x in Candidates(dir, s.chunks, s.txToChunk, id, deps) <==>
              if dir == Up then Feeds(g, s, x, id) && AtMost(s.chunks[x], s.chunks[id]) else Feeds(g, s, id, x) && AtMost(s.chunks[id], s.chunks[x])
    {
      CandidateFeeds(g, deps, dir, s, id, x);
    }
  }

  lemma CandidateFeeds(g: Graph, deps: seq<Dep>, dir: MergeDir, s: State, id: nat, x: nat)
    requires Partition(g, s.chunks, s.txToChunk) && (forall d :: d in g.edges <==> d in deps) && id in s.chunks && x in s.chunks
    ensures x in Candidates(dir, s.chunks, s.txToChunk, id, deps) <==>
            if dir == Up then Feeds(g, s, x, id) && AtMost(s.chunks[x], s.chunks[id]) else Feeds(g, s, id, x) && AtMost(s.chunks[id], s.chunks[x])
  {
    hide ExactChunk;
    if x in Candidates(dir, s.chunks, s.txToChunk, id, deps) {
      var d :| d in deps && Candidate(dir, s.chunks, s.txToChunk, id, d) && s.txToChunk[Far(dir, d)] == x;
      assert d in g.edges;
    }
    if dir == Up && Feeds(g, s, x, id) && AtMost(s.chunks[x], s.chunks[id]) {
      var d :| d in g.edges && d.0 in s.chunks[x].txs && d.1 in s.chunks[id].txs;
      assert d in deps && Candidate(dir, s.chunks, s.txToChunk, id, d);
    }
    if dir != Up && Feeds(g, s, id, x) && AtMost(s.chunks[id], s.chunks[x]) {
      var d :| d in g.edges && d.0 in s.chunks[id].txs && d.1 in s.chunks[x].txs;
      assert d in deps && Candidate(dir, s.chunks, s.txToChunk, id, d);
    }
  }

  lemma MergeShrinks(chunks: map<nat, SFLChunk>, txToChunk: map<Txid, nat>,
                     chunks': map<nat, SFLChunk>, txToChunk': map<Txid, nat>, id: nat, far: nat)
    requires IsMerge(chunks, txToChunk, chunks', txToChunk', id, far)
    ensures |chunks'| < |chunks|
  {
    assert chunks'.Keys == chunks.Keys - {far};
  }

  // ---------- the initial state

  method CollectDirectDeps(g: Graph, allTxs: seq<Txid>) returns (deps: seq<Dep>)
    requires g.WellFormed() && Distinct(allTxs) && Elems(allTxs) == g.Nodes()
    ensures Distinct(deps) && forall d :: d in g.edges <==> d in deps
    ensures deps == [] ==> g.edges == {}
  {
    deps := [];
    for i := 0 to |allTxs|
      invariant Distinct(deps)
      invariant forall d :: d in deps <==> d in g.edges && d.1 in allTxs[..i]
    {
      var tx := allTxs[i];
      var todo := g.Parents(tx);
      while todo != {}
        invariant todo <= g.Parents(tx) && Distinct(deps)
        invariant forall d :: d in deps <==> d in g.edges && (d.1 in allTxs[..i] || (d.1 == tx && d.0 !in todo))
        decreases todo
      {
        var parent :| parent in todo;
        ParentEdge(g, parent, tx);
        DistinctConcat(deps, [(parent, tx)]);
        assert (parent, tx) !in Elems(deps);
        deps := deps + [(parent, tx)];
        todo := todo - {parent};
      }
      assert allTxs[..i + 1] == allTxs[..i] + [tx];
    }
    assert allTxs[..|allTxs|] == allTxs;
    forall d ensures d in g.edges <==> d in deps {
      if d in g.edges {
        var (p, c) := d;
        assert (p, c) in g.edges;
        assert c in Elems(allTxs);
      }
    }
    assert deps == [] ==> forall d :: d !in g.edges;
  }

  lemma ParentEdge(g: Graph, p: Txid, c: Txid)
    ensures p in g.Parents(c) <==> (p, c) in g.edges
    ensures c in g.Children(p) <==> (p, c) in g.edges
  {
    if (p, c) in g.edges {
      var e := (p, c);
      assert e.0 in g.Parents(c) && e.1 in g.Children(p);
    }
  }

  method InitSFLChunks(g: Graph, allTxs: seq<Txid>) returns (chunks: map<nat, SFLChunk>, txToChunk: map<Txid, nat>)
    requires g.WellFormed() && Distinct(allTxs) && Elems(allTxs) == g.Nodes()
    ensures Partition(g, chunks, txToChunk)
    ensures forall id | id in chunks :: id < |allTxs|
    ensures forall t, u | t in txToChunk && u in txToChunk && txToChunk[t] == txToChunk[u] :: t == u
  {
    chunks, txToChunk := map[], map[];
    for i := 0 to |allTxs|
      invariant Singles(g, allTxs, i, chunks, txToChunk)
    {
      var tx := allTxs[i];
      SinglesNext(g, allTxs, i, chunks, txToChunk);
      chunks := chunks[i := SFLChunk({tx}, g.fee[tx], g.weight[tx])];
      txToChunk := txToChunk[tx := i];
    }
    SinglesPartition(g, allTxs, chunks, txToChunk);
  }

  /** The first `n` transactions have a chunk each, numbered in their order. */
  ghost predicate Singles(g: Graph, allTxs: seq<Txid>, n: nat, chunks: map<nat, SFLChunk>, txToChunk: map<Txid, nat>)
    requires n <= |allTxs|
  {
    && (forall t :: t in txToChunk <==> t in allTxs[..n])
    && (forall id :: id in chunks <==> 0 <= id < n)
    && (forall t | t in txToChunk :: txToChunk[t] < n && allTxs[txToChunk[t]] == t)
    && (forall id | 0 <= id < n :: chunks[id].txs == {allTxs[id]} && ExactChunk(g, chunks[id]))
  }

  lemma SinglesNext(g: Graph, allTxs: seq<Txid>, n: nat, chunks: map<nat, SFLChunk>, txToChunk: map<Txid, nat>)
    requires g.WellFormed() && n < |allTxs| && Elems(allTxs) == g.Nodes()
    requires Singles(g, allTxs, n, chunks, txToChunk)
    ensures allTxs[n] in g.Nodes()
    ensures Singles(g, allTxs, n + 1, chunks[n := SFLChunk({allTxs[n]}, g.fee[allTxs[n]], g.weight[allTxs[n]])], txToChunk[allTxs[n] := n])
  {
    hide ExactChunk;
    assert allTxs[n] in Elems(allTxs);
    SingleExact(g, allTxs[n]);
    assert allTxs[..n + 1] == allTxs[..n] + [allTxs[n]];
  }

  lemma SinglesPartition(g: Graph, allTxs: seq<Txid>, chunks: map<nat, SFLChunk>, txToChunk: map<Txid, nat>)
    requires Distinct(allTxs) && Elems(allTxs) == g.Nodes()
    requires Singles(g, allTxs, |allTxs|, chunks, txToChunk)
    ensures Partition(g, chunks, txToChunk)
    ensures forall id | id in chunks :: id < |allTxs|
    ensures forall t, u | t in txToChunk && u in txToChunk && txToChunk[t] == txToChunk[u] :: t == u
  {
    hide ExactChunk;
    assert allTxs[..|allTxs|] == allTxs;
    forall t ensures t in txToChunk <==> t in g.Nodes() {
      assert t in Elems(allTxs) <==> t in allTxs;
    }
    forall id | id in chunks ensures txToChunk[allTxs[id]] == id {
      assert allTxs[id] in txToChunk;
    }
  }

  lemma SingleExact(g: Graph, t: Txid)
    requires g.WellFormed() && t in g.Nodes()
    ensures ExactChunk(g, SFLChunk({t}, g.fee[t], g.weight[t]))
  {
    SumSetRemove(g.fee, {t}, t);
    SumSetRemove(g.weight, {t}, t);
    assert {t} - {t} == {};
  }

  lemma StartActive(g: Graph, deps: seq<Dep>, active: seq<bool>, txToChunk: map<Txid, nat>)
    requires g.Acyclic() && |active| == |deps| && forall i | 0 <= i < |active| :: !active[i]
    requires forall d :: d in g.edges <==> d in deps
    requires forall t, u | t in txToChunk && u in txToChunk && txToChunk[t] == txToChunk[u] :: t == u
    ensures ActiveInside(deps, active, txToChunk)
  {
    var rank :| RankedBy(g.edges, rank);
    forall i | 0 <= i < |deps| ensures !SameChunk(txToChunk, deps[i]) {
      var (p, c) := deps[i];
      assert (p, c) in deps && (p, c) in g.edges;
      assert p != c;
    }
  }

  // ---------- the linearizer

  /** Independent transactions: highest feerate first, equal ones in their order. */
  method SortByFeerateDesc(g: Graph, txs: seq<Txid>) returns (sorted: seq<Txid>)
    requires g.WellFormed() && Distinct(txs) && Elems(txs) <= g.Nodes()
    ensures Distinct(sorted) && Elems(sorted) == Elems(txs)
    ensures SortedBy(FeerateThen(g.fee, g.weight, g.order), sorted) && SortedBy(BetterBy(g.fee, g.weight), sorted)
  {
    var less := FeerateThen(g.fee, g.weight, g.order);
    FeerateThenWeak(g.fee, g.weight, g.order, g.Nodes());
    sorted := SortBy(txs, less, less, g.Nodes());
    SortedByFeerate(g.fee, g.weight, g.order, sorted);
  }

  /** The partitions after the given linearization and at the end of the three phases, and the pieces
      read off the last one. */
  datatype Run = Run(loaded: State, ordered: State, optimized: State, minimized: State, ids: seq<nat>, pieces: seq<seq<Txid>>)

  /** The given linearization is merged upwards, and merges lead on to chunks whose feerates fall along
      every dependency; rising cuts, then level ones, lead to the chunks that the result is read off. Without budget nothing is
      cut; with enough of it, no chunk is left that a rising cut could divide, nor, if no draw is 0,
      one that a level cut could. */
  ghost predicate IsRun(g: Graph, costBudget: int, given: seq<Txid>, draws: Draws, run: Run, result: seq<Txid>) {
    && Loaded(g, run.loaded, given) && Merged(g, run.loaded, run.ordered) && FeerateOrdered(g.edges, run.ordered.chunks, run.ordered.txToChunk)
    && Refined(g, run.ordered, run.optimized, true) && Refined(g, run.optimized, run.minimized, false)
    && Partition(g, run.minimized.chunks, run.minimized.txToChunk)
    && IsExtraction(g, run.minimized.chunks, run.minimized.txToChunk, run.ids, run.pieces, result)
    && (costBudget <= StartCost(g) ==> run.minimized == run.ordered)
    && (costBudget > Enough(g, |given|) ==> Unsplittable(g, run.optimized) && Unsplittable(g, run.minimized))
    && (costBudget > Enough(g, |given|) && AllPositive(draws) ==> Unlevel(g, run.minimized))
  }

  /** For every random choice, every budget and any existing linearization: each transaction
      exactly once, parents before children, read off the chunks that the phases arrive at. */
  method SpanningForestLinearize(g: Graph, costBudget: int, existingLinearization: seq<Txid>, draws: Draws) returns (result: seq<Txid>, ghost run: Run)
    requires g.WellFormed() && g.Acyclic()
    ensures IsLinearization(g.edges, g.Nodes(), result)
    ensures g.edges == {} ==> SortedBy(FeerateThen(g.fee, g.weight, g.order), result)
    ensures g.edges != {} ==> IsRun(g, costBudget, existingLinearization, draws, run, result)
  {
    hide Loaded, Refined, Unit, Units, Forest.Valid, FeerateOrdered, SortedBy, IsRun, Alone, StartCost, Enough, RankedBy, IsLinearization, Distinct, Elems,
         Graph.Acyclic, Graph.WellFormed;
    ghost var none := State(map[], map[]);
    run := Run(none, none, none, none, [], []);
    var allTxs := AnyOrder(g.Nodes());
    if |allTxs| <= 1 {
      SmallNoEdges(g, allTxs);
      NoEdgesLinear(g, allTxs);
      return allTxs, run;
    }
    var forest := new Forest(g, allTxs);
    if |forest.deps| == 0 {
      result := SortByFeerateDesc(g, allTxs);
      NoEdgesLinear(g, result);
      return;
    }
    NoneLoaded(g, forest.S());
    MergeGiven(forest, existingLinearization);
    result, run := RunPhases(forest, costBudget, existingLinearization, draws);
  }

  lemma NoEdgesLinear(g: Graph, s: seq<Txid>)
    requires g.edges == {} && Distinct(s) && Elems(s) == g.Nodes()
    ensures IsLinearization(g.edges, g.Nodes(), s)
  {
  }

  /** Chunks of an existing linearization absorb what is not above them, one after the other. */
  method MergeGiven(forest: Forest, existingLinearization: seq<Txid>)
    requires forest.Valid() && Loaded(forest.g, forest.S(), []) && forest.cost == StartCost(forest.g)
    modifies forest
    ensures forest.Valid() && Loaded(forest.g, forest.S(), existingLinearization)
    ensures StartCost(forest.g) <= forest.cost <= StartCost(forest.g) + Units(forest.g, |forest.g.Nodes()| + |existingLinearization|)
  {
    hide Loaded, Raised, Unit, Units, Forest.Valid, StartCost, Candidates, FeerateOrdered, Layered;
    ghost var g, n := forest.g, |forest.g.Nodes()|;
    forest.Sizes();
    UnitsLess(g, 0, n - |forest.chunks|);
    UnitsAdd(g, 0, 0);
    for i := 0 to |existingLinearization|
      invariant forest.Valid() && Loaded(g, forest.S(), existingLinearization[..i]) && |forest.chunks| <= n
      invariant StartCost(g) <= forest.cost <= StartCost(g) + Units(g, n - |forest.chunks| + i)
    {
      var tx := existingLinearization[i];
      ghost var before, was := |forest.chunks|, forest.S();
      UnitsLess(g, n - before + i, n - before + i + 1);
      forest.Mapped(tx);
      if tx in forest.g.Nodes() && tx in forest.txToChunk {
        forest.MergeUpwards(forest.txToChunk[tx]);
        UnitsAdd(g, n - before + i, before - |forest.chunks| + 1);
      }
      LoadedMore(g, was, forest.S(), existingLinearization[..i], tx);
      assert existingLinearization[..i + 1] == existingLinearization[..i] + [tx];
    }
    assert existingLinearization[..|existingLinearization|] == existingLinearization;
    UnitsLess(g, n - |forest.chunks| + |existingLinearization|, n + |existingLinearization|);
  }

  method RunPhases(forest: Forest, costBudget: int, ghost given: seq<Txid>, draws: Draws) returns (result: seq<Txid>, ghost run: Run)
    requires forest.Valid() && Loaded(forest.g, forest.S(), given) && forest.g.WellFormed() && forest.g.Acyclic()
    requires StartCost(forest.g) <= forest.cost <= StartCost(forest.g) + Units(forest.g, |forest.g.Nodes()| + |given|)
    modifies forest
    ensures IsLinearization(forest.g.edges, forest.g.Nodes(), result) && IsRun(forest.g, costBudget, given, draws, run, result)
  {
    hide Loaded, Merged, Refined, Unit, Units, Forest.Valid, FeerateOrdered, StartCost, Enough, Partition, Layered, IsLinearization, IsExtraction, Unsplittable,
         Unlevel, AllPositive, AllConnected, IsRun, Graph.Acyclic, Graph.WellFormed, RankedBy;
    var g := forest.g;
    BudgetParts(g, |given|);
    ghost var loaded := forest.S();
    forest.MakeTopological();
    forest.Parts();
    FeerateOrderedLayered(g, forest.chunks, forest.txToChunk);
    ghost var ordered := forest.S();
    BuiltConnected(g, loaded, ordered, given);
    ghost var optimized := CutPhases(forest, costBudget, draws);
    forest.Parts();
    ghost var ids, pieces;
    result, ids, pieces := ExtractLinearization(g, forest.chunks, forest.txToChunk);
    run := Run(loaded, ordered, optimized, forest.S(), ids, pieces);
    IsRunNow(g, costBudget, given, draws, run, result);
  }

  /** Both phases of cutting, each only if there is budget left. */
  method CutPhases(forest: Forest, costBudget: int, draws: Draws) returns (ghost optimized: State)
    requires forest.Valid() && forest.IsLayered() && AllConnected(forest.g, forest.S())
    modifies forest
    ensures forest.Valid() && forest.IsLayered() && Refined(forest.g, old(forest.S()), optimized, true) && Refined(forest.g, optimized, forest.S(), false)
    ensures costBudget <= old(forest.cost) ==> forest.S() == old(forest.S())
    ensures costBudget > old(forest.cost) + Units(forest.g, 4 * |forest.g.Nodes()| + 3) + Units(forest.g, 4 * |forest.g.Nodes()| + 1) ==>
              Unsplittable(forest.g, optimized) && Unsplittable(forest.g, forest.S()) && (AllPositive(draws) ==> Unlevel(forest.g, forest.S()))
  {
    hide Refined, Units, Forest.Valid, Forest.IsLayered, Unsplittable, Unlevel, AllPositive, AllConnected;
    var g := forest.g;
    ghost var ordered, n := forest.S(), |g.Nodes()|;
    UnitsLess(g, 4 * n + 2, 4 * n + 3);
    RefinedSelf(g, ordered, true);
    if forest.cost < costBudget {
      forest.OptimizeSFL(costBudget);
    }
    optimized := forest.S();
    RefinedSelf(g, optimized, false);
    StaysConnected(g, ordered, optimized, true);
    if forest.cost < costBudget {
      forest.MinimizeSFL(costBudget, draws);
    }
  }

  lemma IsRunNow(g: Graph, costBudget: int, given: seq<Txid>, draws: Draws, run: Run, result: seq<Txid>)
    requires Loaded(g, run.loaded, given) && Merged(g, run.loaded, run.ordered) && FeerateOrdered(g.edges, run.ordered.chunks, run.ordered.txToChunk)
    requires Refined(g, run.ordered, run.optimized, true) && Refined(g, run.optimized, run.minimized, false)
    requires Partition(g, run.minimized.chunks, run.minimized.txToChunk)
    requires IsExtraction(g, run.minimized.chunks, run.minimized.txToChunk, run.ids, run.pieces, result)
    requires costBudget <= StartCost(g) ==> run.minimized == run.ordered
    requires costBudget > Enough(g, |given|) ==> Unsplittable(g, run.optimized) && Unsplittable(g, run.minimized)
    requires costBudget > Enough(g, |given|) && AllPositive(draws) ==> Unlevel(g, run.minimized)
    ensures IsRun(g, costBudget, given, draws, run, result)
  {
    hide Loaded, Merged, Refined, FeerateOrdered, StartCost, Enough, Partition, IsExtraction, Unsplittable, Unlevel, AllPositive;
  }

  lemma BudgetParts(g: Graph, given: nat)
    ensures var n := |g.Nodes()|;
            StartCost(g) + Units(g, n + given) + Units(g, 6 * n + 1) + Units(g, 4 * n + 3) + Units(g, 4 * n + 1) == Enough(g, given)
  {
    hide Units;
    var n := |g.Nodes()|;
    UnitsAdd(g, n + given, 6 * n + 1);
    UnitsAdd(g, 7 * n + given + 1, 4 * n + 3);
    UnitsAdd(g, 11 * n + given + 4, 4 * n + 1);
  }

  lemma SmallNoEdges(g: Graph, s: seq<Txid>)
    requires g.WellFormed() && g.Acyclic() && |s| <= 1 && Elems(s) == g.Nodes()
    ensures g.edges == {} && SortedBy(FeerateThen(g.fee, g.weight, g.order), s)
  {
    if g.edges != {} {
      var e :| e in g.edges;
      EdgeApart(g, e);
    }
  }

  lemma EdgeApart(g: Graph, e: Dep)
    requires g.WellFormed() && g.Acyclic() && e in g.edges
    ensures e.0 != e.1 && e.0 in g.Nodes() && e.1 in g.Nodes()
  {
    var rank :| RankedBy(g.edges, rank);
    assert (e.0, e.1) in g.edges;
  }

  lemma NoneLoaded(g: Graph, s: State)
    requires Alone(g, s)
    ensures Loaded(g, s, [])
  {
  }

  lemma {:induction false} SameCount<T>(s: seq<T>, all: set<T>)
    requires Distinct(s) && forall x :: x in all <==> x in s
    ensures |s| == |all|
  {
    if s == [] {
      assert all == {};
    } else {
      var n := |s| - 1;
      SameCount(s[..n], all - {s[n]});
    }
  }

  lemma QueueCount(queue: seq<nat>, ids: set<nat>)
    requires Distinct(queue) && Elems(queue) == ids
    ensures |queue| == |ids|
  {
    SameCount(queue, ids);
  }

  /** A parent side with its fee and weight. */
  datatype Split = Split(parentSide: set<Txid>, topFee: int, topWeight: int)

  ghost predicate IsSplit(g: Graph, deps: seq<Dep>, i: nat, txs: set<Txid>, split: Split) {
    && Cut(deps, i, txs, split.parentSide)
    && split.topFee == SumSet(g.fee, split.parentSide)
    && split.topWeight == SumSet(g.weight, split.parentSide)
  }

  lemma NoCut(deps: seq<Dep>, i: nat, txs: set<Txid>)
    requires i < |deps| && !(deps[i].0 in txs && deps[i].1 in txs)
    ensures forall side :: !Cut(deps, i, txs, side)
  {
  }

  lemma CutFacts(deps: seq<Dep>, i: nat, txs: set<Txid>, side: set<Txid>)
    requires Cut(deps, i, txs, side)
    ensures i < |deps| && side <= txs && deps[i].0 in side && deps[i].1 in txs - side
  {
  }

  // ---------- reachability inside a chunk

  /** Neighbours of `node` over active dependencies inside `txs`, leaving out number `skip`. */
  function Neighbours(deps: seq<Dep>, active: seq<bool>, skip: nat, txs: set<Txid>, node: Txid): set<Txid>
    requires |active| == |deps|
  {
    (set i | 0 <= i < |deps| && i != skip && active[i] && deps[i].0 == node && deps[i].1 in txs :: deps[i].1) +
    (set i | 0 <= i < |deps| && i != skip && active[i] && deps[i].1 == node && deps[i].0 in txs :: deps[i].0)
  }

  ghost predicate ClosedFrom(deps: seq<Dep>, active: seq<bool>, skip: nat, txs: set<Txid>, from: set<Txid>, to: set<Txid>)
    requires |active| == |deps|
  {
    forall v | v in from :: Neighbours(deps, active, skip, txs, v) <= to
  }

  /** The set reached is closed under neighbours and contained in every closed set. */
  ghost predicate IsReachable(deps: seq<Dep>, active: seq<bool>, skip: nat, txs: set<Txid>, start: Txid, visited: set<Txid>)
    requires |active| == |deps|
  {
    && start in visited && visited <= txs
    && ClosedFrom(deps, active, skip, txs, visited, visited)
    && forall s: set<Txid> | start in s && ClosedFrom(deps, active, skip, txs, s, s) :: visited <= s
  }

  method BfsReachable(deps: seq<Dep>, active: seq<bool>, skip: nat, txs: set<Txid>, start: Txid) returns (visited: set<Txid>)
    requires |active| == |deps| && start in txs
    ensures IsReachable(deps, active, skip, txs, start, visited)
  {
    hide Neighbours, Searched;
    visited := {start};
    var queue := [start];
    SearchedStart(deps, active, skip, txs, start);
    while queue != []
      invariant Searched(deps, active, skip, txs, start, visited, queue) && visited <= txs
      decreases txs - visited, |queue|
    {
      var node := queue[0];
      var next := Neighbours(deps, active, skip, txs, node) - visited;
      NeighboursInside(deps, active, skip, txs, node);
      var more := AnyOrder(next);
      SearchedNext(deps, active, skip, txs, start, visited, queue, more);
      if next == {} {
        assert more == [];
        assert visited + next == visited;
      }
      queue := queue[1..] + more;
      visited := visited + next;
    }
    SearchedAll(deps, active, skip, txs, start, visited);
  }

  /** Partway through a search: the neighbours of what left the queue are known. */
  ghost predicate Searched(deps: seq<Dep>, active: seq<bool>, skip: nat, txs: set<Txid>, start: Txid, visited: set<Txid>, queue: seq<Txid>)
    requires |active| == |deps|
  {
    && start in visited && Elems(queue) <= visited
    && ClosedFrom(deps, active, skip, txs, visited - Elems(queue), visited)
    && forall s: set<Txid> | start in s && ClosedFrom(deps, active, skip, txs, s, s) :: visited <= s
  }

  lemma ReachableOnce(deps: seq<Dep>, active: seq<bool>, skip: nat, txs: set<Txid>, start: Txid, a: set<Txid>, b: set<Txid>)
    requires |active| == |deps| && IsReachable(deps, active, skip, txs, start, a) && IsReachable(deps, active, skip, txs, start, b)
    ensures a == b
  {
    hide Neighbours;
  }

  lemma SearchedStart(deps: seq<Dep>, active: seq<bool>, skip: nat, txs: set<Txid>, start: Txid)
    requires |active| == |deps|
    ensures Searched(deps, active, skip, txs, start, {start}, [start])
  {
    hide Neighbours;
    assert {start} - Elems([start]) == {};
  }

  lemma SearchedNext(deps: seq<Dep>, active: seq<bool>, skip: nat, txs: set<Txid>, start: Txid, visited: set<Txid>, queue: seq<Txid>, more: seq<Txid>)
    requires |active| == |deps| && Searched(deps, active, skip, txs, start, visited, queue) && queue != []
    requires Elems(more) == Neighbours(deps, active, skip, txs, queue[0]) - visited
    ensures Searched(deps, active, skip, txs, start, visited + Elems(more), queue[1..] + more)
  {
    hide Neighbours;
    var node, rest := queue[0], queue[1..];
    assert node in Elems(queue) && queue == [node] + rest;
    ElemsConcat([node], rest);
    ElemsConcat(rest, more);
    hide Elems;
    forall v | v in visited + Elems(more) - Elems(rest + more) ensures Neighbours(deps, active, skip, txs, v) <= visited + Elems(more) {
    }
  }

  lemma SearchedAll(deps: seq<Dep>, active: seq<bool>, skip: nat, txs: set<Txid>, start: Txid, visited: set<Txid>)
    requires |active| == |deps| && Searched(deps, active, skip, txs, start, visited, []) && visited <= txs
    ensures IsReachable(deps, active, skip, txs, start, visited)
  {
    hide Neighbours;
    assert visited - Elems([]) == visited;
  }

  lemma NeighboursInside(deps: seq<Dep>, active: seq<bool>, skip: nat, txs: set<Txid>, node: Txid)
    requires |active| == |deps|
    ensures Neighbours(deps, active, skip, txs, node) <= txs
  {
  }

  lemma NeighbourEnds(deps: seq<Dep>, active: seq<bool>, skip: nat, txs: set<Txid>, i: nat)
    requires |active| == |deps| && i < |deps| && i != skip && active[i]
    ensures deps[i].1 in txs ==> deps[i].1 in Neighbours(deps, active, skip, txs, deps[i].0)
    ensures deps[i].0 in txs ==> deps[i].0 in Neighbours(deps, active, skip, txs, deps[i].1)
  {
  }

  lemma ReachableCut(deps: seq<Dep>, active: seq<bool>, bridge: nat, txs: set<Txid>, side: set<Txid>)
    requires |active| == |deps| && bridge < |deps|
    requires forall j | 0 <= j < |deps| && deps[j].0 in txs && deps[j].1 in txs :: active[j]
    requires IsReachable(deps, active, bridge, txs, deps[bridge].0, side)
    requires deps[bridge].1 in txs && deps[bridge].1 !in side
    ensures Cut(deps, bridge, txs, side)
  {
    hide Neighbours;
    forall i | 0 <= i < |deps| && i != bridge && deps[i].0 in txs && deps[i].1 in txs
      ensures deps[i].0 in side <==> deps[i].1 in side
    {
      NeighbourEnds(deps, active, bridge, txs, i);
    }
  }

  lemma ConnectedNoCut(deps: seq<Dep>, active: seq<bool>, bridge: nat, txs: set<Txid>, reached: set<Txid>)
    requires |active| == |deps| && bridge < |deps|
    requires IsReachable(deps, active, bridge, txs, deps[bridge].0, reached) && deps[bridge].1 in reached
    ensures forall side :: !Cut(deps, bridge, txs, side)
  {
    forall side | Cut(deps, bridge, txs, side) ensures false {
      forall v | v in side ensures Neighbours(deps, active, bridge, txs, v) <= side {
      }
      assert ClosedFrom(deps, active, bridge, txs, side, side);
    }
  }

  lemma HalvesExact(g: Graph, chunks: map<nat, SFLChunk>, txToChunk: map<Txid, nat>, id: nat, top: SFLChunk, bottom: SFLChunk)
    requires g.WellFormed() && Partition(g, chunks, txToChunk) && id in chunks
    requires top.txs != {} && bottom.txs != {} && top.txs <= chunks[id].txs && bottom.txs == chunks[id].txs - top.txs
    requires top.fee == SumSet(g.fee, top.txs) && top.weight == SumSet(g.weight, top.txs)
    requires bottom.fee == SumSet(g.fee, bottom.txs) && bottom.weight == SumSet(g.weight, bottom.txs)
    ensures ExactChunk(g, top) && ExactChunk(g, bottom)
    ensures top.txs !! bottom.txs && top.txs + bottom.txs == chunks[id].txs
  {
    SumSetPositive(g.weight, top.txs);
    SumSetPositive(g.weight, bottom.txs);
  }

  lemma SplitActive(g: Graph, deps: seq<Dep>, before: seq<bool>, active: seq<bool>, chunks: map<nat, SFLChunk>, txToChunk: map<Txid, nat>,
                    id: nat, fresh_id: nat, bridge: nat, side: set<Txid>)
    requires Partition(g, chunks, txToChunk) && id in chunks && fresh_id !in chunks && bridge < |deps|
    requires ActiveInside(deps, before, txToChunk) && |active| == |deps|
    requires Cut(deps, bridge, chunks[id].txs, side)
    requires forall i | 0 <= i < |deps| ::
               active[i] <==> before[bridge := false][i] && SameChunk(Moved(txToChunk, chunks[id].txs - side, fresh_id), deps[i])
    ensures ActiveInside(deps, active, Moved(txToChunk, chunks[id].txs - side, fresh_id))
  {
  }

  lemma SplitSelfMerge(g: Graph, deps: seq<Dep>, chunks: map<nat, SFLChunk>, txToChunk: map<Txid, nat>,
                       id: nat, fresh_id: nat, bridge: nat, side: set<Txid>)
    requires Partition(g, chunks, txToChunk) && id in chunks && fresh_id !in chunks
    requires Cut(deps, bridge, chunks[id].txs, side)
    ensures var to := Moved(txToChunk, chunks[id].txs - side, fresh_id);
            && Connects(to, deps[bridge], id, fresh_id)
            && forall i | 0 <= i < |deps| :: !Connects(to, deps[i], fresh_id, id)
  {
    forall i | 0 <= i < |deps| ensures !Connects(Moved(txToChunk, chunks[id].txs - side, fresh_id), deps[i], fresh_id, id) {
      CutOneWay(deps, bridge, chunks[id].txs, side, i);
    }
  }

  method RandomDir() returns (dir: MergeDir)
    ensures dir != Both
  {
    var coin: bool := *;
    dir := if coin then Up else Down;
  }

  // ---------- the worklist of makeTopological

  /** A violating dependency waits on the queue at its near end, or at its far end if that
      chunk was merged and is therefore tried in both directions. */
  ghost predicate AllCovered(dir: MergeDir, chunks: map<nat, SFLChunk>, txToChunk: map<Txid, nat>, deps: seq<Dep>,
                             queue: seq<nat>, merged: set<nat>) {
    forall d | d in deps && Violating(chunks, txToChunk, d) ::
      txToChunk[Near(dir, d)] in queue || (txToChunk[Far(dir, d)] in queue && txToChunk[Far(dir, d)] in merged)
  }

  lemma StartCovered(dir: MergeDir, chunks: map<nat, SFLChunk>, txToChunk: map<Txid, nat>, deps: seq<Dep>, queue: seq<nat>)
    requires Elems(queue) == chunks.Keys
    ensures AllCovered(dir, chunks, txToChunk, deps, queue, {})
  {
    forall d | d in deps && Violating(chunks, txToChunk, d) ensures txToChunk[Near(dir, d)] in queue {
      assert txToChunk[Near(dir, d)] in Elems(queue);
    }
  }

  lemma CoveredOrdered(dir: MergeDir, edges: set<Dep>, chunks: map<nat, SFLChunk>, txToChunk: map<Txid, nat>, deps: seq<Dep>, merged: set<nat>)
    requires forall d :: d in edges <==> d in deps
    requires AllCovered(dir, chunks, txToChunk, deps, [], merged)
    ensures FeerateOrdered(edges, chunks, txToChunk)
  {
  }

  lemma DeadCovered(dir: MergeDir, chunks: map<nat, SFLChunk>, txToChunk: map<Txid, nat>, deps: seq<Dep>, queue: seq<nat>, merged: set<nat>)
    requires queue != [] && queue[0] !in chunks && AllCovered(dir, chunks, txToChunk, deps, queue, merged)
    ensures AllCovered(dir, chunks, txToChunk, deps, queue[1..], merged)
  {
    assert queue == [queue[0]] + queue[1..];
  }

  lemma NoMergeCovered(dir: MergeDir, chunks: map<nat, SFLChunk>, txToChunk: map<Txid, nat>, deps: seq<Dep>, queue: seq<nat>, merged: set<nat>)
    requires dir != Both && queue != [] && queue[0] in chunks && AllCovered(dir, chunks, txToChunk, deps, queue, merged)
    requires Candidates(dir, chunks, txToChunk, queue[0], deps) == {}
    requires queue[0] in merged ==> Candidates(if dir == Up then Down else Up, chunks, txToChunk, queue[0], deps) == {}
    ensures AllCovered(dir, chunks, txToChunk, deps, queue[1..], merged)
  {
    var id := queue[0];
    var other := if dir == Up then Down else Up;
    assert queue == [id] + queue[1..];
    forall d | d in deps && Violating(chunks, txToChunk, d)
      ensures txToChunk[Near(dir, d)] != id && (id in merged ==> txToChunk[Far(dir, d)] != id)
    {
      NoCandidate(dir, chunks, txToChunk, id, deps, d);
      if id in merged {
        NoCandidate(other, chunks, txToChunk, id, deps, d);
      }
    }
  }

  lemma NoCandidate(dir: MergeDir, chunks: map<nat, SFLChunk>, txToChunk: map<Txid, nat>, id: nat, deps: seq<Dep>, d: Dep)
    requires id in chunks && d in deps && Violating(chunks, txToChunk, d)
    requires Candidates(dir, chunks, txToChunk, id, deps) == {}
    ensures dir != Both ==> txToChunk[Near(dir, d)] != id
  {
    assert txToChunk[Far(dir, d)] !in Candidates(dir, chunks, txToChunk, id, deps);
  }

  lemma MergeCovered(dir: MergeDir, chunks: map<nat, SFLChunk>, txToChunk: map<Txid, nat>,
                     chunks': map<nat, SFLChunk>, txToChunk': map<Txid, nat>, deps: seq<Dep>,
                     queue: seq<nat>, merged: set<nat>, far: nat)
    requires queue != [] && queue[0] in chunks && far in chunks && far != queue[0]
    requires IsMerge(chunks, txToChunk, chunks', txToChunk', queue[0], far)
    requires AllCovered(dir, chunks, txToChunk, deps, queue, merged)
    ensures |chunks'| < |chunks|
    ensures AllCovered(dir, chunks', txToChunk', deps, queue[1..] + [queue[0]], merged + {queue[0]})
  {
    var id := queue[0];
    assert queue == [id] + queue[1..];
    assert chunks'.Keys == chunks.Keys - {far};
    forall d | d in deps && Violating(chunks', txToChunk', d) && txToChunk'[d.0] != id && txToChunk'[d.1] != id
      ensures Violating(chunks, txToChunk, d) && txToChunk[d.0] == txToChunk'[d.0] && txToChunk[d.1] == txToChunk'[d.1]
    {
    }
  }

  lemma QueueHead(queue: seq<nat>)
    requires queue != [] && Distinct(queue)
    ensures Distinct(queue[1..]) && Elems(queue[1..]) == Elems(queue) - {queue[0]}
  {
    assert queue == [queue[0]] + queue[1..];
    DistinctConcat([queue[0]], queue[1..]);
    ElemsConcat([queue[0]], queue[1..]);
  }

  lemma QueueAppend(queue: seq<nat>, id: nat)
    requires Distinct(queue) && id !in Elems(queue)
    ensures Distinct(queue + [id]) && Elems(queue + [id]) == Elems(queue) + {id}
  {
    DistinctConcat(queue, [id]);
    ElemsConcat(queue, [id]);
  }

  /** The ids in random order, shuffled while they are collected. */
  method ShuffledIds(ids: set<nat>) returns (queue: seq<nat>)
    ensures Distinct(queue) && Elems(queue) == ids
  {
    queue := [];
    var todo := ids;
    while todo != {}
      invariant todo <= ids && Distinct(queue) && Elems(queue) == ids - todo
      decreases todo
    {
      var id :| id in todo;
      QueueAppend(queue, id);
      queue := queue + [id];
      var j :| 0 <= j < |queue|;
      SwapKeeps(queue, |queue| - 1, j);
      queue := Swapped(queue, |queue| - 1, j);
      todo := todo - {id};
    }
  }

  function Swapped(s: seq<nat>, i: nat, j: nat): seq<nat>
    requires i < |s| && j < |s|
  {
    s[i := s[j]][j := s[i]]
  }

  function Partner(i: nat, j: nat, k: nat): nat {
    if k == i then j else if k == j then i else k
  }

  lemma SwapKeeps(s: seq<nat>, i: nat, j: nat)
    requires i < |s| && j < |s| && Distinct(s)
    ensures Distinct(Swapped(s, i, j)) && Elems(Swapped(s, i, j)) == Elems(s)
  {
    var r := Swapped(s, i, j);
    assert forall k | 0 <= k < |s| :: r[k] == s[Partner(i, j, k)];
    hide Swapped;
    forall a, b | 0 <= a < b < |r| ensures r[a] != r[b] {
      assert Partner(i, j, a) != Partner(i, j, b);
    }
    forall x | x in r ensures x in s {
    }
    forall x | x in s ensures x in r {
      var k :| 0 <= k < |s| && s[k] == x;
      assert r[Partner(i, j, k)] == x;
    }
  }

  predicate InChunk(txToChunk: map<Txid, nat>, d: Dep, id: nat) {
    d.0 in txToChunk && d.1 in txToChunk && txToChunk[d.0] == id && txToChunk[d.1] == id
  }

  predicate Connects(txToChunk: map<Txid, nat>, d: Dep, top: nat, bottom: nat) {
    d.0 in txToChunk && d.1 in txToChunk && txToChunk[d.0] == top && txToChunk[d.1] == bottom
  }

  lemma CandidateConnects(dir: MergeDir, chunks: map<nat, SFLChunk>, txToChunk: map<Txid, nat>, id: nat, deps: seq<Dep>, far: nat)
    requires far in Candidates(dir, chunks, txToChunk, id, deps)
    ensures far in chunks && far != id
    ensures exists i | 0 <= i < |deps| ::
              Connects(txToChunk, deps[i], if dir == Up then far else id, if dir == Up then id else far)
  {
    var d :| d in deps && Candidate(dir, chunks, txToChunk, id, d) && txToChunk[Far(dir, d)] == far;
    var i :| 0 <= i < |deps| && deps[i] == d;
  }

  /** Merging keeps "active exactly inside chunks": the dependency that joined the two chunks
      is set before the merge, all other dependencies inside the new chunk after it. */
  lemma MergeActive(deps: seq<Dep>, before: seq<bool>, active: seq<bool>, chunks: map<nat, SFLChunk>, txToChunk: map<Txid, nat>,
                    dst: nat, src: nat, dep: nat)
    requires ActiveInside(deps, before, txToChunk) && |active| == |deps| && dep < |deps|
    requires src in chunks && forall t | t in txToChunk :: txToChunk[t] == src <==> t in chunks[src].txs
    requires Connects(txToChunk, deps[dep], src, dst) || Connects(txToChunk, deps[dep], dst, src)
    requires forall i | 0 <= i < |deps| ::
               active[i] <==> before[dep := true][i] || InChunk(Moved(txToChunk, chunks[src].txs, dst), deps[i], dst)
    ensures ActiveInside(deps, active, Moved(txToChunk, chunks[src].txs, dst))
  {
  }

  lemma NoCandidates(dir: MergeDir, chunks: map<nat, SFLChunk>, txToChunk: map<Txid, nat>, id: nat)
    ensures Candidates(dir, chunks, txToChunk, id, []) == {}
    ensures IsBest(dir, chunks, {}, None)
  {
  }

  lemma NoneOrBest(dir: MergeDir, chunks: map<nat, SFLChunk>, pool: set<nat>, best: Option<nat>)
    requires IsBest(dir, chunks, pool, best)
    ensures if best.None? then pool == {} else best.value in pool
  {
  }

  lemma PartitionMembers(g: Graph, chunks: map<nat, SFLChunk>, txToChunk: map<Txid, nat>, id: nat)
    requires Partition(g, chunks, txToChunk) && id in chunks
    ensures forall t | t in txToChunk :: txToChunk[t] == id <==> t in chunks[id].txs
  {
  }

  lemma BestValue(dir: MergeDir, chunks: map<nat, SFLChunk>, pool: set<nat>, best: Option<nat>)
    requires IsBest(dir, chunks, pool, best)
    ensures best.Some? ==> best.value in chunks && best.value in pool
  {
  }
}
