/** The state of the spanning-forest linearizer as values, and what merging and splitting
    chunks do to it. */
module SflState {
  import opened Feerate
  import opened Graph
  import opened SetSize

  datatype SFLChunk = SFLChunk(txs: set<Txid>, fee: int, weight: int)

  type Dep = (Txid, Txid)

  predicate ChunkAbove(a: SFLChunk, b: SFLChunk) {
    Higher(a.fee, a.weight, b.fee, b.weight)
  }

  /** The chunk carries the exact fee and weight of its transactions. */
  ghost predicate ExactChunk(g: Graph, c: SFLChunk) {
    && c.txs != {} && c.txs <= g.Nodes()
    && c.fee == SumSet(g.fee, c.txs)
    && c.weight == SumSet(g.weight, c.txs)
    && 0 < c.weight
  }

  /** `chunks` partition the transactions and `txToChunk` is the map into them. */
  ghost predicate Partition(g: Graph, chunks: map<nat, SFLChunk>, txToChunk: map<Txid, nat>) {
    && txToChunk.Keys == g.Nodes()
    && (forall t | t in txToChunk :: txToChunk[t] in chunks && t in chunks[txToChunk[t]].txs)
    && (forall id, t | id in chunks && t in chunks[id].txs :: t in txToChunk && txToChunk[t] == id)
    && (forall id | id in chunks :: ExactChunk(g, chunks[id]))
  }

  ghost predicate SameChunk(txToChunk: map<Txid, nat>, d: Dep) {
    d.0 in txToChunk && d.1 in txToChunk && txToChunk[d.0] == txToChunk[d.1]
  }

  /** A dependency is active exactly when both ends share a chunk. */
  ghost predicate ActiveInside(deps: seq<Dep>, active: seq<bool>, txToChunk: map<Txid, nat>) {
    && |active| == |deps|
    && forall i | 0 <= i < |deps| :: active[i] <==> SameChunk(txToChunk, deps[i])
  }

  /** Edges between different chunks. */
  function Quotient(edges: set<Dep>, txToChunk: map<Txid, nat>): set<(nat, nat)> {
    set e | e in edges && e.0 in txToChunk && e.1 in txToChunk && txToChunk[e.0] != txToChunk[e.1]
      :: (txToChunk[e.0], txToChunk[e.1])
  }

  lemma QuotientEdge(edges: set<Dep>, txToChunk: map<Txid, nat>, p: Txid, c: Txid)
    requires (p, c) in edges && p in txToChunk && c in txToChunk && txToChunk[p] != txToChunk[c]
    ensures (txToChunk[p], txToChunk[c]) in Quotient(edges, txToChunk)
  {
    var e := (p, c);
    assert e in edges && (txToChunk[e.0], txToChunk[e.1]) == (txToChunk[p], txToChunk[c]);
  }

  /** The chunks can be ordered so that every dependency between chunks points forward. */
  ghost predicate Layered(edges: set<Dep>, chunks: map<nat, SFLChunk>, txToChunk: map<Txid, nat>) {
    exists rank: map<nat, int> | rank.Keys == chunks.Keys :: RankedBy(Quotient(edges, txToChunk), rank)
  }

  // ---------- merging two chunks

  function Joined(a: SFLChunk, b: SFLChunk): SFLChunk {
    SFLChunk(a.txs + b.txs, a.fee + b.fee, a.weight + b.weight)
  }

  function Moved(txToChunk: map<Txid, nat>, txs: set<Txid>, id: nat): map<Txid, nat> {
    map t | t in txToChunk :: if t in txs then id else txToChunk[t]
  }

  /** Chunk `far` was merged into chunk `id`. */
  ghost predicate IsMerge(chunks: map<nat, SFLChunk>, txToChunk: map<Txid, nat>,
                          chunks': map<nat, SFLChunk>, txToChunk': map<Txid, nat>, id: nat, far: nat) {
    && id in chunks && far in chunks && id != far
    && chunks' == chunks[id := Joined(chunks[id], chunks[far])] - {far}
    && txToChunk' == Moved(txToChunk, chunks[far].txs, id)
  }

  lemma MergeKeepsPartition(g: Graph, chunks: map<nat, SFLChunk>, txToChunk: map<Txid, nat>, dst: nat, src: nat)
    requires Partition(g, chunks, txToChunk) && dst in chunks && src in chunks && dst != src
    ensures Partition(g, chunks[dst := Joined(chunks[dst], chunks[src])] - {src}, Moved(txToChunk, chunks[src].txs, dst))
  {
    hide ExactChunk;
    var a, b := chunks[dst], chunks[src];
    assert forall t | t in a.txs :: txToChunk[t] == dst;
    assert forall t | t in b.txs :: txToChunk[t] == src;
    JoinedExact(g, a, b);
    var chunks' := chunks[dst := Joined(a, b)] - {src};
    assert chunks'.Keys == chunks.Keys - {src};
    var to := Moved(txToChunk, chunks[src].txs, dst);
    forall t | t in to ensures to[t] in chunks' && t in chunks'[to[t]].txs {
    }
    forall id, t | id in chunks' && t in chunks'[id].txs ensures t in to && to[t] == id {
      assert id in chunks;
      assert id != dst ==> t in chunks[id].txs;
    }
  }

  lemma JoinedExact(g: Graph, a: SFLChunk, b: SFLChunk)
    requires ExactChunk(g, a) && ExactChunk(g, b) && a.txs !! b.txs
    ensures ExactChunk(g, Joined(a, b))
  {
    SumSetUnion(g.fee, a.txs, b.txs);
    SumSetUnion(g.weight, a.txs, b.txs);
  }

  // ---------- splitting a chunk

  /** Every dependency inside the chunk other than number `bridge` has both ends on one side. */
  ghost predicate OnlyBridge(deps: seq<Dep>, bridge: nat, txs: set<Txid>, side: set<Txid>) {
    forall i | 0 <= i < |deps| && i != bridge && deps[i].0 in txs && deps[i].1 in txs :: deps[i].0 in side <==> deps[i].1 in side
  }

  /** `side` is a parent side cut off by dependency `bridge`. */
  ghost predicate Cut(deps: seq<Dep>, bridge: nat, txs: set<Txid>, side: set<Txid>) {
    && bridge < |deps| && side <= txs
    && deps[bridge].0 in side && deps[bridge].1 in txs - side
    && OnlyBridge(deps, bridge, txs, side)
  }

  lemma SplitKeepsPartition(g: Graph, chunks: map<nat, SFLChunk>, txToChunk: map<Txid, nat>, id: nat, fresh_id: nat,
                            top: SFLChunk, bottom: SFLChunk)
    requires Partition(g, chunks, txToChunk) && id in chunks && fresh_id !in chunks
    requires ExactChunk(g, top) && ExactChunk(g, bottom)
    requires top.txs !! bottom.txs && top.txs + bottom.txs == chunks[id].txs
    ensures Partition(g, chunks[id := top][fresh_id := bottom], Moved(txToChunk, bottom.txs, fresh_id))
  {
    hide ExactChunk;
    var chunks', to := chunks[id := top][fresh_id := bottom], Moved(txToChunk, bottom.txs, fresh_id);
    forall t | t in to ensures to[t] in chunks' && t in chunks'[to[t]].txs {
      assert t in chunks[txToChunk[t]].txs;
    }
    forall i, t | i in chunks' && t in chunks'[i].txs ensures t in to && to[t] == i {
      if i == id || i == fresh_id {
        assert t in chunks[id].txs;
      } else {
        assert t in chunks[i].txs;
      }
    }
  }

  /** Splitting along a bridge keeps the chunks layered: the two halves take neighbouring ranks. */
  lemma SplitKeepsLayered(g: Graph, deps: seq<Dep>, chunks: map<nat, SFLChunk>, txToChunk: map<Txid, nat>, id: nat, fresh_id: nat,
                          bridge: nat, top: SFLChunk, bottom: SFLChunk)
    requires Partition(g, chunks, txToChunk) && id in chunks && fresh_id !in chunks
    requires Layered(g.edges, chunks, txToChunk)
    requires forall d :: d in g.edges <==> d in deps
    requires Cut(deps, bridge, chunks[id].txs, top.txs) && bottom.txs == chunks[id].txs - top.txs
    requires Distinct(deps)
    ensures Layered(g.edges, chunks[id := top][fresh_id := bottom], Moved(txToChunk, bottom.txs, fresh_id))
  {
    hide Quotient, Cut, ExactChunk, RankedBy;
    var rank := LayerRank(g.edges, chunks, txToChunk);
    var chunks' := chunks[id := top][fresh_id := bottom];
    var txToChunk' := Moved(txToChunk, bottom.txs, fresh_id);
    var rank' := map i | i in chunks' :: if i == fresh_id then 2 * rank[id] + 1 else 2 * rank[i];
    forall a, b | (a, b) in Quotient(g.edges, txToChunk') ensures a in rank' && b in rank' && rank'[a] < rank'[b] {
      var e := EdgeBetween(g.edges, txToChunk', a, b);
      SplitEdge(deps, chunks, txToChunk, id, fresh_id, bridge, top.txs, e);
      if txToChunk[e.0] != txToChunk[e.1] {
        QuotientEdge(g.edges, txToChunk, e.0, e.1);
        RankedEdge(Quotient(g.edges, txToChunk), rank, txToChunk[e.0], txToChunk[e.1]);
      }
    }
    MakeRanked(Quotient(g.edges, txToChunk'), rank');
  }

  lemma LayerRank(edges: set<Dep>, chunks: map<nat, SFLChunk>, txToChunk: map<Txid, nat>) returns (rank: map<nat, int>)
    requires Layered(edges, chunks, txToChunk)
    ensures rank.Keys == chunks.Keys && RankedBy(Quotient(edges, txToChunk), rank)
  {
    rank :| rank.Keys == chunks.Keys && RankedBy(Quotient(edges, txToChunk), rank);
  }

  lemma EdgeBetween(edges: set<Dep>, txToChunk: map<Txid, nat>, a: nat, b: nat) returns (e: Dep)
    requires (a, b) in Quotient(edges, txToChunk)
    ensures e in edges && e.0 in txToChunk && e.1 in txToChunk && txToChunk[e.0] == a && txToChunk[e.1] == b && a != b
  {
    e :| e in edges && e.0 in txToChunk && e.1 in txToChunk && txToChunk[e.0] == a && txToChunk[e.1] == b && a != b;
  }

  lemma RankedEdge(edges: set<(nat, nat)>, rank: map<nat, int>, a: nat, b: nat)
    requires RankedBy(edges, rank) && (a, b) in edges
    ensures a in rank && b in rank && rank[a] < rank[b]
  {
  }

  lemma MakeRanked(edges: set<(nat, nat)>, rank: map<nat, int>)
    requires forall a, b | (a, b) in edges :: a in rank && b in rank && rank[a] < rank[b]
    ensures RankedBy(edges, rank)
  {
  }

  lemma SplitEdge(deps: seq<Dep>, chunks: map<nat, SFLChunk>, txToChunk: map<Txid, nat>, id: nat, fresh_id: nat,
                  bridge: nat, side: set<Txid>, e: Dep)
    requires id in chunks && fresh_id !in chunks && e in deps
    requires e.0 in txToChunk && e.1 in txToChunk
    requires txToChunk[e.0] in chunks && txToChunk[e.1] in chunks
    requires forall t | t in txToChunk :: txToChunk[t] == id <==> t in chunks[id].txs
    requires Cut(deps, bridge, chunks[id].txs, side)
    ensures var to := Moved(txToChunk, chunks[id].txs - side, fresh_id);
            to[e.0] == to[e.1] || txToChunk[e.0] != txToChunk[e.1] || (to[e.0] == id && to[e.1] == fresh_id)
  {
    var i :| 0 <= i < |deps| && deps[i] == e;
  }

  /** No dependency leads back from the child side of a cut to its parent side. */
  lemma CutOneWay(deps: seq<Dep>, bridge: nat, txs: set<Txid>, side: set<Txid>, i: nat)
    requires Cut(deps, bridge, txs, side) && i < |deps|
    ensures !(deps[i].0 in txs - side && deps[i].1 in side)
  {
  }

  // ---------- feerate order gives layers

  /** Dependency `d` leads to a chunk whose feerate is not strictly below its parent chunk's. */
  ghost predicate Violating(chunks: map<nat, SFLChunk>, txToChunk: map<Txid, nat>, d: Dep) {
    && d.0 in txToChunk && d.1 in txToChunk
    && txToChunk[d.0] in chunks && txToChunk[d.1] in chunks
    && txToChunk[d.0] != txToChunk[d.1]
    && !ChunkAbove(chunks[txToChunk[d.0]], chunks[txToChunk[d.1]])
  }

  ghost predicate FeerateOrdered(edges: set<Dep>, chunks: map<nat, SFLChunk>, txToChunk: map<Txid, nat>) {
    forall d | d in edges :: !Violating(chunks, txToChunk, d)
  }

  ghost function AboveSet(chunks: map<nat, SFLChunk>, id: nat): set<nat>
    requires id in chunks
  {
    set x | x in chunks && ChunkAbove(chunks[x], chunks[id])
  }

  lemma AboveSetGrows(g: Graph, chunks: map<nat, SFLChunk>, a: nat, b: nat)
    requires forall id | id in chunks :: ExactChunk(g, chunks[id])
    requires a in chunks && b in chunks && ChunkAbove(chunks[a], chunks[b])
    ensures |AboveSet(chunks, a)| < |AboveSet(chunks, b)|
  {
    var A, B := AboveSet(chunks, a), AboveSet(chunks, b);
    forall x | x in A ensures x in B {
      AboveTrans(g, chunks[x], chunks[a], chunks[b]);
    }
    assert a in B && a !in A;
    assert A <= B - {a};
    SubsetSize(A, B - {a});
  }

  lemma AboveTrans(g: Graph, a: SFLChunk, b: SFLChunk, c: SFLChunk)
    requires ExactChunk(g, a) && ExactChunk(g, b) && ExactChunk(g, c) && ChunkAbove(a, b) && ChunkAbove(b, c)
    ensures ChunkAbove(a, c)
  {
    HigherTrans(a.fee, a.weight, b.fee, b.weight, c.fee, c.weight);
  }

  /** Chunks whose feerates strictly fall along every dependency are layered. */
  lemma FeerateOrderedLayered(g: Graph, chunks: map<nat, SFLChunk>, txToChunk: map<Txid, nat>)
    requires Partition(g, chunks, txToChunk) && FeerateOrdered(g.edges, chunks, txToChunk)
    ensures Layered(g.edges, chunks, txToChunk)
  {
    var rank := map id | id in chunks :: |AboveSet(chunks, id)|;
    forall a, b | (a, b) in Quotient(g.edges, txToChunk) ensures a in rank && b in rank && rank[a] < rank[b] {
      var e :| e in g.edges && e.0 in txToChunk && e.1 in txToChunk && txToChunk[e.0] == a && txToChunk[e.1] == b && a != b;
      assert !Violating(chunks, txToChunk, e);
      AboveSetGrows(g, chunks, a, b);
    }
    assert RankedBy(Quotient(g.edges, txToChunk), rank);
  }
}
