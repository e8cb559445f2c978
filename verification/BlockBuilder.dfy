/** Packing the chunks of all clusters into weight-bounded blocks. */
module BlockBuilder {
  import opened Options
  import opened Feerate
  import opened Graph
  import opened SetSize
  import opened Chunking
  import opened MempoolState
  import Extraction
  import Heaps = PairingHeap
  import Linearize

  const BLOCK_WEIGHT_UNITS := 4_000_000
  const MAX_BLOCK_SIGOPS_COST := 80_000
  const COINBASE_RESERVED_WEIGHT := 8000
  const MAX_CONSECUTIVE_FAILURES := 1000
  const MAX_WASTED_WEIGHT := 4000

  datatype ProjectedBlock = ProjectedBlock(txids: seq<Txid>, weight: int, sigops: int)

  datatype ChunkHeapEntry = ChunkHeapEntry(fee: int, weight: int, sigops: int, equalFeeratePrefixWeight: int, maxOrder: nat,
                                           clusterId: nat, chunkIndex: nat)

  // ---------- the heap

  predicate HigherPriority(a: ChunkHeapEntry, b: ChunkHeapEntry) {
    var feerateDiff := a.fee * b.weight - b.fee * a.weight;
    if feerateDiff != 0 then feerateDiff > 0
    else if a.equalFeeratePrefixWeight != b.equalFeeratePrefixWeight then a.equalFeeratePrefixWeight < b.equalFeeratePrefixWeight
    else a.maxOrder < b.maxOrder
  }

  predicate EntryAbove(a: ChunkHeapEntry, b: ChunkHeapEntry) {
    Higher(a.fee, a.weight, b.fee, b.weight)
  }

  lemma PriorityByFeerate(a: ChunkHeapEntry, b: ChunkHeapEntry)
    ensures HigherPriority(a, b) <==>
            EntryAbove(a, b) || (!EntryAbove(b, a) && TieBreak(a, b))
  {
  }

  predicate TieBreak(a: ChunkHeapEntry, b: ChunkHeapEntry) {
    if a.equalFeeratePrefixWeight != b.equalFeeratePrefixWeight then a.equalFeeratePrefixWeight < b.equalFeeratePrefixWeight
    else a.maxOrder < b.maxOrder
  }

  /** Whoever does not precede someone that does not precede a third does not precede the third. */
  lemma PriorityWeak(a: ChunkHeapEntry, b: ChunkHeapEntry, c: ChunkHeapEntry)
    requires 0 < a.weight && 0 < b.weight && 0 < c.weight
    requires !HigherPriority(a, b) && !HigherPriority(b, c)
    ensures !HigherPriority(a, c)
  {
    hide HigherPriority, Higher;
    PriorityByFeerate(a, b);
    PriorityByFeerate(b, c);
    PriorityByFeerate(a, c);
    NotHigherTrans(a.fee, a.weight, b.fee, b.weight, c.fee, c.weight);
    if !EntryAbove(c, a) {
      if EntryAbove(b, a) {
        HigherTransRight(b.fee, b.weight, a.fee, a.weight, c.fee, c.weight);
      }
      if EntryAbove(c, b) {
        NotHigherTrans(c.fee, c.weight, a.fee, a.weight, b.fee, b.weight);
      }
    }
  }

  lemma PriorityAsymmetric()
    ensures Heaps.Asymmetric(HigherPriority)
  {
  }

  lemma PriorityWeakOn(entries: set<ChunkHeapEntry>)
    requires forall e | e in entries :: 0 < e.weight
    ensures Heaps.WeakOn(HigherPriority, entries)
  {
    forall a, b, c | a in entries && b in entries && c in entries && !HigherPriority(a, b) && !HigherPriority(b, c) ensures !HigherPriority(a, c) {
      PriorityWeak(a, b, c);
    }
  }

  /** A priority queue of chunk entries: `Pop` takes an entry that no other precedes. */
  class ChunkHeap {
    const queue: Heaps.PairingHeap<ChunkHeapEntry>
    ghost var entries: set<ChunkHeapEntry>

    ghost predicate Valid()
      reads this, queue
    {
      && queue.Valid() && Heaps.InOrder(HigherPriority, queue.root) && entries == queue.Held().Values
      && forall i, j | i in queue.Held() && j in queue.Held() && queue.Held()[i] == queue.Held()[j] :: i == j
    }

    constructor ()
      ensures Valid() && fresh(queue) && entries == {}
    {
      queue := new Heaps.PairingHeap();
      entries := {};
    }

    predicate IsEmpty()
      requires Valid()
      reads this, queue
      ensures IsEmpty() <==> entries == {}
    {
      SomeHeld();
      queue.root.None?
    }

    lemma SomeHeld()
      requires Valid()
      ensures queue.root.None? <==> entries == {}
    {
      hide Heaps.Proper;
      if queue.root.Some? {
        var n := queue.root.value;
        assert n.id in queue.Held() && queue.Held()[n.id] == n.element;
        assert n.element in queue.Held().Values;
      }
    }

    method Add(e: ChunkHeapEntry)
      requires Valid() && e !in entries
      modifies this, queue
      ensures Valid() && entries == old(entries) + {e}
    {
      hide HigherPriority, Heaps.IsHeap, Heaps.Meld, Heaps.Ordered, Heaps.HeapEntries, Heaps.Asymmetric;
      PriorityAsymmetric();
      Alone(queue.nextId, e);
      Heaps.MeldOrdered(HigherPriority, queue.root, Some(Heaps.Node(queue.nextId, e, [])));
      ghost var held := queue.Held();
      var node := queue.Add(HigherPriority, e);
      OneMoreValue(held, node, e);
      entries := entries + {e};
    }

    lemma Alone(id: nat, e: ChunkHeapEntry)
      ensures Heaps.InOrder(HigherPriority, Some(Heaps.Node(id, e, [])))
    {
    }

    method Pop() returns (best: ChunkHeapEntry)
      requires Valid() && entries != {} && forall e | e in entries :: 0 < e.weight
      modifies this, queue
      ensures Valid() && best in old(entries) && entries == old(entries) - {best}
      ensures forall e | e in old(entries) :: !HigherPriority(e, best)
    {
      hide HigherPriority, Heaps.IsHeap, Heaps.PairsMerged, Heaps.Ordered, Heaps.HeapEntries, Heaps.Asymmetric;
      SomeHeld();
      PriorityAsymmetric();
      RootFirst();
      ghost var root, held := queue.root.value, queue.Held();
      var taken := queue.Pop(HigherPriority);
      best := taken.value;
      ChildrenOrdered(root);
      OneLessValue(held, root.id);
      entries := entries - {best};
    }

    /** The root of the heap is an entry that no other precedes. */
    lemma RootFirst()
      requires Valid() && queue.root.Some? && forall e | e in entries :: 0 < e.weight
      ensures var n := queue.root.value;
              && n.id in queue.Held() && queue.Held()[n.id] == n.element && n.element in entries
              && forall e | e in entries :: !HigherPriority(e, n.element)
    {
      hide HigherPriority, Heaps.Proper, Heaps.Ordered;
      var n := queue.root.value;
      assert n.id in Heaps.Entries(n) && Heaps.Entries(n)[n.id] == n.element;
      hide Heaps.Entries;
      assert n.element in queue.Held().Values;
      PriorityWeakOn(entries);
      PriorityAsymmetric();
      Heaps.TopUnbeaten(HigherPriority, n, entries);
      forall e | e in entries ensures !HigherPriority(e, n.element) {
        var k :| k in queue.Held() && queue.Held()[k] == e;
        assert !HigherPriority(Heaps.Entries(n)[k], n.element);
      }
    }

    lemma ChildrenOrdered(root: Heaps.Node<ChunkHeapEntry>)
      requires Heaps.InOrder(HigherPriority, Some(root)) && Heaps.Asymmetric(HigherPriority)
      ensures Heaps.InOrder(HigherPriority, Heaps.PairsMerged(HigherPriority, root.children))
    {
      hide HigherPriority, Heaps.PairsMerged;
      Heaps.MergeOrdered(HigherPriority, root.children);
    }
  }

  lemma OneMoreValue(held: map<nat, ChunkHeapEntry>, id: nat, e: ChunkHeapEntry)
    requires id !in held && e !in held.Values && forall i, j | i in held && j in held && held[i] == held[j] :: i == j
    ensures var held' := held[id := e];
            held'.Values == held.Values + {e} && forall i, j | i in held' && j in held' && held'[i] == held'[j] :: i == j
  {
    var held' := held[id := e];
    assert held'[id] == e;
    forall v | v in held.Values ensures v in held'.Values {
      var i :| i in held && held[i] == v;
      assert held'[i] == v;
    }
  }

  lemma OneLessValue(held: map<nat, ChunkHeapEntry>, id: nat)
    requires id in held && forall i, j | i in held && j in held && held[i] == held[j] :: i == j
    ensures var held' := held - {id};
            held'.Values == held.Values - {held[id]} && forall i, j | i in held' && j in held' && held'[i] == held'[j] :: i == j
  {
    var held' := held - {id};
    forall v | v in held.Values && v != held[id] ensures v in held'.Values {
      var i :| i in held && held[i] == v;
      assert held'[i] == v;
    }
  }

  // ---------- what goes into blocks

  /** Linearized clusters over disjoint transactions, whose weights bound the mempool's. */
  ghost predicate Packable(clusters: map<nat, Cluster>, mempool: Pool) {
    && (forall id | id in clusters :: Linearized(clusters[id]) && clusters[id].graph.WellFormed())
    && (forall i, j | i in clusters && j in clusters && i != j :: clusters[i].graph.Nodes() !! clusters[j].graph.Nodes())
    && (forall id, t | id in clusters && t in clusters[id].graph.Nodes() && t in mempool :: mempool[t].weight <= At(clusters[id].graph.weight, t))
  }

  function Chunks(clusters: map<nat, Cluster>, id: nat): seq<Chunk> {
    if id in clusters then clusters[id].chunks else []
  }

  function SigopsOf(mempool: Pool, txs: seq<Txid>): int {
    if txs == [] then 0
    else SigopsOf(mempool, txs[..|txs| - 1]) + (if txs[|txs| - 1] in mempool then mempool[txs[|txs| - 1]].sigops else 0)
  }

  /** Weight of the transactions that the mempool still has. */
  function WeightOf(mempool: Pool, txs: seq<Txid>): int {
    if txs == [] then 0
    else WeightOf(mempool, txs[..|txs| - 1]) + (if txs[|txs| - 1] in mempool then mempool[txs[|txs| - 1]].weight else 0)
  }

  /** Both amounts are plain sums over the records of the mempool. */
  lemma {:induction false} AmountsAreSums(mempool: Pool, txs: seq<Txid>)
    ensures WeightOf(mempool, txs) == Sum(map t | t in mempool :: mempool[t].weight, txs)
    ensures SigopsOf(mempool, txs) == Sum(map t | t in mempool :: mempool[t].sigops, txs)
  {
    if txs != [] {
      var n := |txs| - 1;
      var weights, sigops := map t | t in mempool :: mempool[t].weight, map t | t in mempool :: mempool[t].sigops;
      AmountsAreSums(mempool, txs[..n]);
      assert txs == txs[..n] + [txs[n]];
      SumConcat(weights, txs[..n], [txs[n]]);
      SumConcat(sigops, txs[..n], [txs[n]]);
      SumOne(weights, txs[n]);
      SumOne(sigops, txs[n]);
    }
  }

  method ChunkWeight(chunk: Chunk, mempool: Pool) returns (weight: int)
    ensures weight == WeightOf(mempool, chunk.txs) == Sum(map t | t in mempool :: mempool[t].weight, chunk.txs)
  {
    AmountsAreSums(mempool, chunk.txs);
    weight := 0;
    for i := 0 to |chunk.txs|
      invariant weight == WeightOf(mempool, chunk.txs[..i])
    {
      assert chunk.txs[..i + 1][..i] == chunk.txs[..i];
      if chunk.txs[i] in mempool {
        weight := weight + mempool[chunk.txs[i]].weight;
      }
    }
    assert chunk.txs[..|chunk.txs|] == chunk.txs;
  }

  /** What an entry says about its chunk. */
  ghost predicate IsEntry(clusters: map<nat, Cluster>, mempool: Pool, id: nat, index: nat, e: ChunkHeapEntry) {
    && e.clusterId == id && e.chunkIndex == index && id in clusters && index < |clusters[id].chunks|
    && e.fee == clusters[id].chunks[index].fee && e.weight == clusters[id].chunks[index].weight
    && e.sigops == SigopsOf(mempool, clusters[id].chunks[index].txs)
    && e.equalFeeratePrefixWeight == EqualPrefixWeight(clusters[id].chunks, index, index)
    && Extraction.IsMaxOrder(clusters[id].graph.order, Elems(clusters[id].chunks[index].txs), e.maxOrder)
  }

  lemma EntryUnique(clusters: map<nat, Cluster>, mempool: Pool, id: nat, index: nat, e: ChunkHeapEntry, f: ChunkHeapEntry)
    requires IsEntry(clusters, mempool, id, index, e) && IsEntry(clusters, mempool, id, index, f)
    ensures e == f
  {
  }

  ghost function TotalWeight(chunks: seq<Chunk>): int {
    if chunks == [] then 0 else TotalWeight(chunks[..|chunks| - 1]) + chunks[|chunks| - 1].weight
  }

  /** Chunks `k` to `index` have the feerate of chunk `index`, and the one before them has another. */
  ghost predicate IsRun(chunks: seq<Chunk>, k: nat, index: nat) {
    && k <= index < |chunks| && (forall j | k <= j <= index :: chunks[j].fee * chunks[index].weight == chunks[index].fee * chunks[j].weight)
    && (k > 0 ==> chunks[k - 1].fee * chunks[index].weight != chunks[index].fee * chunks[k - 1].weight)
  }

  lemma {:induction false} RunFound(chunks: seq<Chunk>, index: nat, i: nat) returns (k: nat)
    requires i <= index < |chunks|
    ensures k <= i && forall j | k <= j < i :: chunks[j].fee * chunks[index].weight == chunks[index].fee * chunks[j].weight
    ensures k > 0 ==> chunks[k - 1].fee * chunks[index].weight != chunks[index].fee * chunks[k - 1].weight
    ensures EqualPrefixWeight(chunks, index, i) == TotalWeight(chunks[k..i]) + chunks[index].weight
  {
    k := i;
    if i > 0 && EqualFeerate(chunks[i - 1], chunks[index]) {
      k := RunFound(chunks, index, i - 1);
      assert chunks[k..i][..i - 1 - k] == chunks[k..i - 1];
    }
  }

  /** The prefix weight of an entry is the weight of the run of equal feerate that ends at its chunk. */
  lemma RunWeight(chunks: seq<Chunk>, index: nat) returns (k: nat)
    requires index < |chunks|
    ensures IsRun(chunks, k, index) && EqualPrefixWeight(chunks, index, index) == TotalWeight(chunks[k..index + 1])
  {
    k := RunFound(chunks, index, index);
    assert chunks[k..index + 1][..index - k] == chunks[k..index];
  }

  method MakeChunkHeapEntry(clusters: map<nat, Cluster>, id: nat, chunkIndex: nat, mempool: Pool) returns (e: ChunkHeapEntry)
    requires id in clusters && chunkIndex < |clusters[id].chunks|
    ensures IsEntry(clusters, mempool, id, chunkIndex, e)
    ensures exists k: nat :: IsRun(clusters[id].chunks, k, chunkIndex) && e.equalFeeratePrefixWeight == TotalWeight(clusters[id].chunks[k..chunkIndex + 1])
    ensures e.sigops == Sum(map t | t in mempool :: mempool[t].sigops, clusters[id].chunks[chunkIndex].txs)
  {
    hide Extraction.IsMaxOrder, EqualFeerate, Elems, IsRun;
    var cluster := clusters[id];
    var chunk := cluster.chunks[chunkIndex];
    var maxOrder: nat := 0;
    NoOrder(cluster.graph.order, chunk.txs);
    var sigops := 0;
    for i := 0 to |chunk.txs|
      invariant sigops == SigopsOf(mempool, chunk.txs[..i])
      invariant Extraction.IsMaxOrder(cluster.graph.order, Elems(chunk.txs[..i]), maxOrder)
    {
      var tx := chunk.txs[i];
      assert chunk.txs[..i + 1][..i] == chunk.txs[..i];
      MaxOrderMore(cluster.graph.order, chunk.txs, i, maxOrder);
      if tx in cluster.graph.order && cluster.graph.order[tx] > maxOrder {
        maxOrder := cluster.graph.order[tx];
      }
      if tx in mempool {
        sigops := sigops + mempool[tx].sigops;
      }
    }
    assert chunk.txs[..|chunk.txs|] == chunk.txs;
    var prefixWeight := chunk.weight;
    var i := chunkIndex;
    while i > 0 && EqualFeerate(cluster.chunks[i - 1], chunk)
      invariant 0 <= i <= chunkIndex
      invariant prefixWeight + EqualPrefixWeight(cluster.chunks, chunkIndex, i) - chunk.weight == EqualPrefixWeight(cluster.chunks, chunkIndex, chunkIndex)
    {
      prefixWeight := prefixWeight + cluster.chunks[i - 1].weight;
      i := i - 1;
    }
    e := ChunkHeapEntry(chunk.fee, chunk.weight, sigops, prefixWeight, maxOrder, id, chunkIndex);
    ghost var k := RunWeight(cluster.chunks, chunkIndex);
    AmountsAreSums(mempool, chunk.txs);
  }

  lemma NoOrder(order: map<Txid, nat>, txs: seq<Txid>)
    ensures Extraction.IsMaxOrder(order, Elems(txs[..0]), 0)
  {
  }

  lemma MaxOrderMore(order: map<Txid, nat>, txs: seq<Txid>, i: nat, max: nat)
    requires i < |txs| && Extraction.IsMaxOrder(order, Elems(txs[..i]), max)
    ensures Extraction.IsMaxOrder(order, Elems(txs[..i + 1]), if At(order, txs[i]) > max then At(order, txs[i]) else max)
  {
    assert txs[..i + 1] == txs[..i] + [txs[i]];
    ElemsConcat(txs[..i], [txs[i]]);
    assert txs[i] in Elems(txs[..i + 1]);
  }

  predicate EqualFeerate(a: Chunk, b: Chunk) {
    a.fee * b.weight == b.fee * a.weight
  }

  /** Weight of chunk `index` and of the run of equal-feerate chunks that ends before position `i`. */
  function EqualPrefixWeight(chunks: seq<Chunk>, index: nat, i: nat): int
    requires i <= index < |chunks|
  {
    if i > 0 && EqualFeerate(chunks[i - 1], chunks[index]) then chunks[i - 1].weight + EqualPrefixWeight(chunks, index, i - 1)
    else chunks[index].weight
  }

  // ---------- sums over several chunks

  lemma {:induction false} WeightOfConcat(mempool: Pool, a: seq<Txid>, b: seq<Txid>)
    ensures WeightOf(mempool, a + b) == WeightOf(mempool, a) + WeightOf(mempool, b)
    ensures SigopsOf(mempool, a + b) == SigopsOf(mempool, a) + SigopsOf(mempool, b)
    decreases |b|
  {
    if b == [] {
      assert a + b == a;
    } else {
      var n := |b| - 1;
      assert (a + b)[..|a + b| - 1] == a + b[..n] && (a + b)[|a + b| - 1] == b[n];
      WeightOfConcat(mempool, a, b[..n]);
    }
  }

  /** The weight in a block is at most the adjusted weight of the chunk. */
  lemma {:induction false} RealWeightBounded(g: Graph, mempool: Pool, txs: seq<Txid>)
    requires Elems(txs) <= g.weight.Keys && forall t | t in g.weight && t in mempool :: mempool[t].weight <= At(g.weight, t)
    ensures WeightOf(mempool, txs) <= Sum(g.weight, txs)
    decreases |txs|
  {
    if txs != [] {
      var n := |txs| - 1;
      assert txs == txs[..n] + [txs[n]];
      SumConcat(g.weight, txs[..n], [txs[n]]);
      SumOne(g.weight, txs[n]);
      assert txs[n] in Elems(txs) && Elems(txs[..n]) <= Elems(txs);
      RealWeightBounded(g, mempool, txs[..n]);
    }
  }

  // ---------- progress through the clusters

  /** How many chunks of each cluster were placed. */
  type Progress = map<nat, nat>

  ghost predicate IsProgress(clusters: map<nat, Cluster>, pos: Progress) {
    pos.Keys == clusters.Keys && forall id | id in pos :: pos[id] <= |Chunks(clusters, id)|
  }

  /** One entry for the next chunk of every cluster that is not used up. */
  ghost predicate Frontier(clusters: map<nat, Cluster>, mempool: Pool, pos: Progress, entries: set<ChunkHeapEntry>) {
    && IsProgress(clusters, pos)
    && (forall e | e in entries :: e.clusterId in pos && IsEntry(clusters, mempool, e.clusterId, pos[e.clusterId], e))
    && (forall e, f | e in entries && f in entries && e.clusterId == f.clusterId :: e == f)
    && (forall id | id in pos && pos[id] < |Chunks(clusters, id)| :: exists e | e in entries :: e.clusterId == id)
  }

  lemma FrontierNext(clusters: map<nat, Cluster>, mempool: Pool, pos: Progress, entries: set<ChunkHeapEntry>, e: ChunkHeapEntry, next: Option<ChunkHeapEntry>)
    requires Frontier(clusters, mempool, pos, entries) && e in entries
    requires next.None? <==> e.chunkIndex + 1 == |clusters[e.clusterId].chunks|
    requires next.Some? ==> IsEntry(clusters, mempool, e.clusterId, e.chunkIndex + 1, next.value)
    ensures Frontier(clusters, mempool, pos[e.clusterId := e.chunkIndex + 1], entries - {e} + if next.Some? then {next.value} else {})
  {
    hide IsEntry;
    EntryFields(clusters, mempool, e.clusterId, pos[e.clusterId], e);
    if next.Some? {
      EntryFields(clusters, mempool, e.clusterId, e.chunkIndex + 1, next.value);
    }
    NextWaits(clusters, mempool, pos, entries, e, next);
    hide Chunks;
  }

  /** Every cluster that is not used up has an entry again. */
  lemma NextWaits(clusters: map<nat, Cluster>, mempool: Pool, pos: Progress, entries: set<ChunkHeapEntry>, e: ChunkHeapEntry, next: Option<ChunkHeapEntry>)
    requires Frontier(clusters, mempool, pos, entries) && e in entries
    requires next.None? <==> e.chunkIndex + 1 == |Chunks(clusters, e.clusterId)|
    requires next.Some? ==> next.value.clusterId == e.clusterId
    ensures var pos', entries' := pos[e.clusterId := e.chunkIndex + 1], entries - {e} + if next.Some? then {next.value} else {};
            forall id | id in pos' && pos'[id] < |Chunks(clusters, id)| :: exists f | f in entries' :: f.clusterId == id
  {
    hide IsEntry, Chunks;
    var pos' := pos[e.clusterId := e.chunkIndex + 1];
    var entries' := entries - {e} + if next.Some? then {next.value} else {};
    forall id | id in pos' && pos'[id] < |Chunks(clusters, id)| ensures exists f | f in entries' :: f.clusterId == id {
      if id == e.clusterId {
        assert next.value in entries';
      } else {
        var f :| f in entries && f.clusterId == id;
        assert f in entries';
      }
    }
  }

  lemma EntryFields(clusters: map<nat, Cluster>, mempool: Pool, id: nat, index: nat, e: ChunkHeapEntry)
    requires IsEntry(clusters, mempool, id, index, e)
    ensures e.clusterId == id && e.chunkIndex == index && id in clusters && index < |clusters[id].chunks|
  {
  }

  function Unplaced(clusters: map<nat, Cluster>, pos: Progress): set<(nat, nat)> {
    set id, i | id in clusters && id in pos && pos[id] <= i < |clusters[id].chunks| :: (id, i)
  }

  lemma UnplacedShrinks(clusters: map<nat, Cluster>, pos: Progress, id: nat)
    requires id in clusters && id in pos && pos[id] < |clusters[id].chunks|
    ensures Unplaced(clusters, pos[id := pos[id] + 1]) < Unplaced(clusters, pos)
  {
    assert (id, pos[id]) in Unplaced(clusters, pos);
    assert (id, pos[id]) !in Unplaced(clusters, pos[id := pos[id] + 1]);
  }

  // ---------- what has been placed

  ghost predicate PlacedTx(clusters: map<nat, Cluster>, pos: Progress, t: Txid) {
    exists id, j | id in clusters && id in pos && 0 <= j < pos[id] && j < |clusters[id].chunks| :: t in clusters[id].chunks[j].txs
  }

  ghost predicate HasEdge(clusters: map<nat, Cluster>, p: Txid, c: Txid) {
    exists id | id in clusters :: (p, c) in clusters[id].graph.edges
  }

  /** No transaction comes after one that spends from it. */
  ghost predicate ParentsFirst(clusters: map<nat, Cluster>, out: seq<Txid>) {
    forall i, j | 0 <= i <= j < |out| :: !HasEdge(clusters, out[j], out[i])
  }

  ghost predicate PlacedExactly(clusters: map<nat, Cluster>, pos: Progress, out: seq<Txid>) {
    forall t :: t in Elems(out) <==> PlacedTx(clusters, pos, t)
  }

  /** The output so far: the placed prefixes, each transaction once, no parent after its child. */
  ghost predicate Packed(clusters: map<nat, Cluster>, pos: Progress, out: seq<Txid>) {
    Distinct(out) && PlacedExactly(clusters, pos, out) && ParentsFirst(clusters, out)
  }

  lemma ChunkOf(clusters: map<nat, Cluster>, mempool: Pool, id: nat, index: nat)
    requires Packable(clusters, mempool) && id in clusters && index < |clusters[id].chunks|
    ensures var c := clusters[id].chunks[index];
            && Exact(clusters[id].graph, c) && Distinct(c.txs) && Topological(clusters[id].graph.edges, c.txs)
            && Elems(c.txs) <= clusters[id].graph.Nodes()
            && WeightOf(mempool, c.txs) <= c.weight && c.txs != []
  {
    var cl := clusters[id];
    assert Linearized(cl);
    Linearize.BlockOf(cl.graph, cl.chunks, index);
    assert Exact(cl.graph, cl.chunks[index]);
    RealWeightBounded(cl.graph, mempool, cl.chunks[index].txs);
  }

  /** A transaction of the next chunk is neither placed yet nor a parent of a placed one. */
  lemma NextChunkApart(clusters: map<nat, Cluster>, mempool: Pool, pos: Progress, id: nat, x: Txid, y: Txid)
    requires Packable(clusters, mempool) && IsProgress(clusters, pos) && id in clusters && pos[id] < |clusters[id].chunks|
    requires x in clusters[id].chunks[pos[id]].txs && PlacedTx(clusters, pos, y)
    ensures x != y && !HasEdge(clusters, x, y)
  {
    var id2, j :| id2 in clusters && id2 in pos && 0 <= j < pos[id2] && j < |clusters[id2].chunks| && y in clusters[id2].chunks[j].txs;
    ChunkOf(clusters, mempool, id, pos[id]);
    ChunkOf(clusters, mempool, id2, j);
    assert x in Elems(clusters[id].chunks[pos[id]].txs) && y in Elems(clusters[id2].chunks[j].txs);
    assert Linearized(clusters[id]);
    if id == id2 {
      Linearize.BlocksApart(clusters[id].graph.edges, clusters[id].chunks, j, pos[id], y, x);
    } else {
      assert clusters[id].graph.Nodes() !! clusters[id2].graph.Nodes();
    }
    NoCrossEdge(clusters, mempool, id, x, y);
  }

  lemma OneOwner(clusters: map<nat, Cluster>, mempool: Pool, i: nat, j: nat, x: Txid)
    requires Packable(clusters, mempool) && i in clusters && j in clusters
    requires x in clusters[i].graph.Nodes() && x in clusters[j].graph.Nodes()
    ensures i == j
  {
  }

  lemma NoCrossEdge(clusters: map<nat, Cluster>, mempool: Pool, id: nat, x: Txid, y: Txid)
    requires Packable(clusters, mempool) && id in clusters && x in clusters[id].graph.Nodes()
    ensures HasEdge(clusters, x, y) ==> (x, y) in clusters[id].graph.edges && y in clusters[id].graph.Nodes()
  {
    if HasEdge(clusters, x, y) {
      var i :| i in clusters && (x, y) in clusters[i].graph.edges;
      assert clusters[i].graph.WellFormed();
      OneOwner(clusters, mempool, i, id, x);
    }
  }

  lemma PlaceChunk(clusters: map<nat, Cluster>, mempool: Pool, pos: Progress, out: seq<Txid>, id: nat)
    requires Packable(clusters, mempool) && IsProgress(clusters, pos) && id in clusters && pos[id] < |clusters[id].chunks|
    requires Packed(clusters, pos, out)
    ensures Packed(clusters, pos[id := pos[id] + 1], out + clusters[id].chunks[pos[id]].txs)
  {
    var txs := clusters[id].chunks[pos[id]].txs;
    ChunkOf(clusters, mempool, id, pos[id]);
    hide Exact, HasEdge, Packable, PlacedTx, Topological, ParentsFirst, Distinct, PlacedExactly;
    ChunkApart(clusters, mempool, pos, out, id);
    DistinctConcat(out, txs);
    PlacedMore(clusters, pos, out, id);
    InnerEdges(clusters, mempool, id, txs);
    AppendApart(clusters, out, txs);
  }

  lemma ChunkApart(clusters: map<nat, Cluster>, mempool: Pool, pos: Progress, out: seq<Txid>, id: nat)
    requires Packable(clusters, mempool) && IsProgress(clusters, pos) && id in clusters && pos[id] < |clusters[id].chunks|
    requires PlacedExactly(clusters, pos, out)
    ensures forall x, y | x in Elems(clusters[id].chunks[pos[id]].txs) && y in Elems(out) :: !HasEdge(clusters, x, y)
    ensures Elems(out) !! Elems(clusters[id].chunks[pos[id]].txs)
  {
    hide HasEdge, Packable, PlacedTx;
    var txs := clusters[id].chunks[pos[id]].txs;
    forall x, y | x in Elems(txs) && y in Elems(out) ensures x != y && !HasEdge(clusters, x, y) {
      NextChunkApart(clusters, mempool, pos, id, x, y);
    }
  }

  lemma PlacedMore(clusters: map<nat, Cluster>, pos: Progress, out: seq<Txid>, id: nat)
    requires IsProgress(clusters, pos) && id in clusters && pos[id] < |clusters[id].chunks| && PlacedExactly(clusters, pos, out)
    ensures PlacedExactly(clusters, pos[id := pos[id] + 1], out + clusters[id].chunks[pos[id]].txs)
  {
    PlacedNext(clusters, pos, id);
    ElemsConcat(out, clusters[id].chunks[pos[id]].txs);
    hide PlacedTx;
  }

  lemma AppendApart(clusters: map<nat, Cluster>, out: seq<Txid>, txs: seq<Txid>)
    requires ParentsFirst(clusters, out) && ParentsFirst(clusters, txs)
    requires forall x, y | x in Elems(txs) && y in Elems(out) :: !HasEdge(clusters, x, y)
    ensures ParentsFirst(clusters, out + txs)
  {
    hide HasEdge;
    var all := out + txs;
    forall i, j | 0 <= i <= j < |all| ensures !HasEdge(clusters, all[j], all[i]) {
      if i < |out| <= j {
        assert all[j] in Elems(txs) && all[i] in Elems(out);
      } else if i >= |out| {
        assert !HasEdge(clusters, txs[j - |out|], txs[i - |out|]);
      }
    }
  }

  lemma InnerEdges(clusters: map<nat, Cluster>, mempool: Pool, id: nat, txs: seq<Txid>)
    requires Packable(clusters, mempool) && id in clusters && Elems(txs) <= clusters[id].graph.Nodes()
    requires Topological(clusters[id].graph.edges, txs)
    ensures ParentsFirst(clusters, txs)
  {
    forall i, j | 0 <= i <= j < |txs| ensures !HasEdge(clusters, txs[j], txs[i]) {
      assert txs[j] in Elems(txs) && (txs[j], txs[i]) !in clusters[id].graph.edges;
      NoCrossEdge(clusters, mempool, id, txs[j], txs[i]);
    }
  }

  lemma PlacedNext(clusters: map<nat, Cluster>, pos: Progress, id: nat)
    requires IsProgress(clusters, pos) && id in clusters && pos[id] < |clusters[id].chunks|
    ensures forall t :: PlacedTx(clusters, pos[id := pos[id] + 1], t) <==> PlacedTx(clusters, pos, t) || t in Elems(clusters[id].chunks[pos[id]].txs)
  {
    var pos' := pos[id := pos[id] + 1];
    forall t ensures PlacedTx(clusters, pos', t) <==> PlacedTx(clusters, pos, t) || t in Elems(clusters[id].chunks[pos[id]].txs) {
      if PlacedTx(clusters, pos', t) {
        var i, j :| i in clusters && i in pos' && 0 <= j < pos'[i] && j < |clusters[i].chunks| && t in clusters[i].chunks[j].txs;
        assert j < pos[i] || (i == id && j == pos[id]);
      }
      if PlacedTx(clusters, pos, t) {
        var i, j :| i in clusters && i in pos && 0 <= j < pos[i] && j < |clusters[i].chunks| && t in clusters[i].chunks[j].txs;
        assert j < pos'[i];
      }
    }
  }

  // ---------- the chunks of one block

  /** `chosen` interleaves the chunk lists: it takes each cluster from `from` to `to` chunk by chunk. */
  ghost predicate Merged(clusters: map<nat, Cluster>, from: Progress, to: Progress, chosen: seq<Chunk>)
    decreases |chosen|
  {
    if chosen == [] then to == from
    else exists id | id in to ::
           && 0 < to[id] <= |Chunks(clusters, id)| && chosen[|chosen| - 1] == Chunks(clusters, id)[to[id] - 1]
           && Merged(clusters, from, to[id := to[id] - 1], chosen[..|chosen| - 1])
  }

  lemma MergedMore(clusters: map<nat, Cluster>, from: Progress, to: Progress, chosen: seq<Chunk>, id: nat)
    requires Merged(clusters, from, to, chosen) && id in to && to[id] < |Chunks(clusters, id)|
    ensures Merged(clusters, from, to[id := to[id] + 1], chosen + [Chunks(clusters, id)[to[id]]])
  {
    var next := to[id := to[id] + 1];
    var all := chosen + [Chunks(clusters, id)[to[id]]];
    assert next[id := next[id] - 1] == to && all[..|all| - 1] == chosen;
    MergedBy(clusters, from, next, all, id);
  }

  lemma MergedBy(clusters: map<nat, Cluster>, from: Progress, to: Progress, chosen: seq<Chunk>, id: nat)
    requires chosen != [] && id in to && 0 < to[id] <= |Chunks(clusters, id)| && chosen[|chosen| - 1] == Chunks(clusters, id)[to[id] - 1]
    requires Merged(clusters, from, to[id := to[id] - 1], chosen[..|chosen| - 1])
    ensures Merged(clusters, from, to, chosen)
  {
  }

  /** What a block holds once the chunks `chosen` were placed in it. */
  ghost predicate Holds(mempool: Pool, block: ProjectedBlock, chosen: seq<Chunk>) {
    && block.txids == Flatten(chosen) && NonIncreasing(chosen)
    && block.weight == COINBASE_RESERVED_WEIGHT + WeightOf(mempool, block.txids)
    && block.sigops == SigopsOf(mempool, block.txids)
  }

  predicate Under(x: int, limit: Option<int>) {
    limit.None? || x < limit.value
  }

  /** The chunk of the entry goes into a block of the given weight and sigops. */
  predicate FitsIn(weight: int, sigops: int, e: ChunkHeapEntry, maxWeight: Option<int>, maxSigops: Option<int>) {
    Under(weight + e.weight, maxWeight) && Under(sigops + e.sigops, maxSigops)
  }

  /** The chunk of the entry goes into a block that holds nothing else. */
  predicate FitsAlone(e: ChunkHeapEntry, maxWeight: Option<int>, maxSigops: Option<int>) {
    FitsIn(COINBASE_RESERVED_WEIGHT, 0, e, maxWeight, maxSigops)
  }

  /** Of the next chunks of all clusters that fit a block of the given contents, none precedes that
      of cluster `id`, which fits. */
  ghost predicate FirstThatFits(clusters: map<nat, Cluster>, mempool: Pool, pos: Progress, txids: seq<Txid>, id: nat, maxWeight: Option<int>, maxSigops: Option<int>) {
    var weight, sigops := COINBASE_RESERVED_WEIGHT + WeightOf(mempool, txids), SigopsOf(mempool, txids);
    exists e ::
      && id in pos && IsEntry(clusters, mempool, id, pos[id], e) && FitsIn(weight, sigops, e, maxWeight, maxSigops)
      && forall f: ChunkHeapEntry | f.clusterId in pos && IsEntry(clusters, mempool, f.clusterId, pos[f.clusterId], f) && FitsIn(weight, sigops, f, maxWeight, maxSigops) ::
           !HigherPriority(f, e)
  }

  /** In plain terms: against the next chunk of any other cluster that fits as well, the chunk placed has
      the higher feerate, or the same and the lighter run of equal feerate, or the same and the lower
      order. */
  lemma FirstMeans(clusters: map<nat, Cluster>, mempool: Pool, pos: Progress, txids: seq<Txid>, id: nat, other: nat, maxWeight: Option<int>, maxSigops: Option<int>)
    requires FirstThatFits(clusters, mempool, pos, txids, id, maxWeight, maxSigops)
    requires other in pos && other in clusters && pos[other] < |clusters[other].chunks|
    requires Under(8000 + Sum(map t | t in mempool :: mempool[t].weight, txids) + clusters[other].chunks[pos[other]].weight, maxWeight)
    requires var sigops := map t | t in mempool :: mempool[t].sigops;
             Under(Sum(sigops, txids) + Sum(sigops, clusters[other].chunks[pos[other]].txs), maxSigops)
    ensures id in pos && id in clusters && pos[id] < |clusters[id].chunks|
    ensures var a, b := clusters[id].chunks[pos[id]], clusters[other].chunks[pos[other]];
            && b.fee * a.weight <= a.fee * b.weight
            && (b.fee * a.weight == a.fee * b.weight ==> LighterRun(clusters, id, pos[id], other, pos[other]))
  {
    hide Extraction.IsMaxOrder, Elems, Sum, HigherPriority, EqualFeerate;
    AmountsAreSums(mempool, txids);
    AmountsAreSums(mempool, clusters[other].chunks[pos[other]].txs);
    var weight, sigops := COINBASE_RESERVED_WEIGHT + WeightOf(mempool, txids), SigopsOf(mempool, txids);
    var e :| id in pos && IsEntry(clusters, mempool, id, pos[id], e) && FitsIn(weight, sigops, e, maxWeight, maxSigops)
          && forall f: ChunkHeapEntry | f.clusterId in pos && IsEntry(clusters, mempool, f.clusterId, pos[f.clusterId], f) && FitsIn(weight, sigops, f, maxWeight, maxSigops) ::
               !HigherPriority(f, e);
    var f := NextEntry(clusters, mempool, other, pos[other]);
    assert !HigherPriority(f, e);
    NotHigherMeans(clusters, mempool, e, f);
  }

  /** Some entry stands for every chunk. */
  lemma NextEntry(clusters: map<nat, Cluster>, mempool: Pool, id: nat, index: nat) returns (e: ChunkHeapEntry)
    requires id in clusters && index < |clusters[id].chunks|
    ensures IsEntry(clusters, mempool, id, index, e)
  {
    hide Extraction.IsMaxOrder, Elems;
    var chunk := clusters[id].chunks[index];
    var maxOrder := SomeMaxOrder(clusters[id].graph.order, chunk.txs, |chunk.txs|);
    assert chunk.txs[..|chunk.txs|] == chunk.txs;
    e := ChunkHeapEntry(chunk.fee, chunk.weight, SigopsOf(mempool, chunk.txs), EqualPrefixWeight(clusters[id].chunks, index, index), maxOrder, id, index);
  }

  lemma {:induction false} SomeMaxOrder(order: map<Txid, nat>, txs: seq<Txid>, n: nat) returns (max: nat)
    requires n <= |txs|
    ensures Extraction.IsMaxOrder(order, Elems(txs[..n]), max)
    decreases n
  {
    hide Extraction.IsMaxOrder, Elems;
    if n == 0 {
      NoOrder(order, txs);
      max := 0;
    } else {
      max := SomeMaxOrder(order, txs, n - 1);
      MaxOrderMore(order, txs, n - 1, max);
      if At(order, txs[n - 1]) > max {
        max := At(order, txs[n - 1]);
      }
    }
  }

  /** The run of equal feerate that ends at the first chunk weighs less than that of the second, or as
      much and the first chunk's highest order is not above the second's. */
  ghost predicate LighterRun(clusters: map<nat, Cluster>, id: nat, index: nat, other: nat, index': nat)
    requires id in clusters && index < |clusters[id].chunks| && other in clusters && index' < |clusters[other].chunks|
  {
    exists k: nat, l: nat, m: nat, n: nat ::
      && IsRun(clusters[id].chunks, k, index) && IsRun(clusters[other].chunks, l, index')
      && Extraction.IsMaxOrder(clusters[id].graph.order, Elems(clusters[id].chunks[index].txs), m)
      && Extraction.IsMaxOrder(clusters[other].graph.order, Elems(clusters[other].chunks[index'].txs), n)
      && TotalWeight(clusters[id].chunks[k..index + 1]) <= TotalWeight(clusters[other].chunks[l..index' + 1])
      && (TotalWeight(clusters[id].chunks[k..index + 1]) == TotalWeight(clusters[other].chunks[l..index' + 1]) ==> m <= n)
  }

  lemma NotHigherMeans(clusters: map<nat, Cluster>, mempool: Pool, e: ChunkHeapEntry, f: ChunkHeapEntry)
    requires IsEntry(clusters, mempool, e.clusterId, e.chunkIndex, e) && IsEntry(clusters, mempool, f.clusterId, f.chunkIndex, f) && !HigherPriority(f, e)
    ensures f.fee * e.weight <= e.fee * f.weight
    ensures f.fee * e.weight == e.fee * f.weight ==> LighterRun(clusters, e.clusterId, e.chunkIndex, f.clusterId, f.chunkIndex)
  {
    hide Extraction.IsMaxOrder, Elems, IsRun, TotalWeight;
    var k := RunWeight(clusters[e.clusterId].chunks, e.chunkIndex);
    var l := RunWeight(clusters[f.clusterId].chunks, f.chunkIndex);
  }

  /** Each chunk was first among those that fitted when it was placed. */
  ghost predicate Greedily(clusters: map<nat, Cluster>, mempool: Pool, from: Progress, to: Progress, chosen: seq<Chunk>, maxWeight: Option<int>, maxSigops: Option<int>)
    decreases |chosen|
  {
    if chosen == [] then to == from
    else exists id | id in to ::
           && 0 < to[id] <= |Chunks(clusters, id)| && chosen[|chosen| - 1] == Chunks(clusters, id)[to[id] - 1]
           && FirstThatFits(clusters, mempool, to[id := to[id] - 1], Flatten(chosen[..|chosen| - 1]), id, maxWeight, maxSigops)
           && Greedily(clusters, mempool, from, to[id := to[id] - 1], chosen[..|chosen| - 1], maxWeight, maxSigops)
  }

  lemma GreedilyMore(clusters: map<nat, Cluster>, mempool: Pool, from: Progress, to: Progress, chosen: seq<Chunk>, maxWeight: Option<int>, maxSigops: Option<int>, id: nat)
    requires Greedily(clusters, mempool, from, to, chosen, maxWeight, maxSigops) && id in to && to[id] < |Chunks(clusters, id)|
    requires FirstThatFits(clusters, mempool, to, Flatten(chosen), id, maxWeight, maxSigops)
    ensures Greedily(clusters, mempool, from, to[id := to[id] + 1], chosen + [Chunks(clusters, id)[to[id]]], maxWeight, maxSigops)
  {
    hide FirstThatFits, Flatten;
    var next := to[id := to[id] + 1];
    var all := chosen + [Chunks(clusters, id)[to[id]]];
    assert all[..|all| - 1] == chosen && next[id := next[id] - 1] == to;
    GreedilyBy(clusters, mempool, from, next, all, maxWeight, maxSigops, id);
  }

  lemma GreedilyBy(clusters: map<nat, Cluster>, mempool: Pool, from: Progress, to: Progress, chosen: seq<Chunk>, maxWeight: Option<int>, maxSigops: Option<int>, id: nat)
    requires chosen != [] && id in to && 0 < to[id] <= |Chunks(clusters, id)| && chosen[|chosen| - 1] == Chunks(clusters, id)[to[id] - 1]
    requires FirstThatFits(clusters, mempool, to[id := to[id] - 1], Flatten(chosen[..|chosen| - 1]), id, maxWeight, maxSigops)
    requires Greedily(clusters, mempool, from, to[id := to[id] - 1], chosen[..|chosen| - 1], maxWeight, maxSigops)
    ensures Greedily(clusters, mempool, from, to, chosen, maxWeight, maxSigops)
  {
    hide FirstThatFits, Flatten;
  }

  /** The entry taken from the heap is first among all that fit, since those put aside do not. */
  lemma TakenFirst(clusters: map<nat, Cluster>, mempool: Pool, pos: Progress, heap: set<ChunkHeapEntry>, deferred: set<ChunkHeapEntry>, e: ChunkHeapEntry,
                   block: ProjectedBlock, chosen: seq<Chunk>, maxWeight: Option<int>, maxSigops: Option<int>)
    requires Frontier(clusters, mempool, pos, heap + deferred) && e in heap && Holds(mempool, block, chosen)
    requires forall f | f in heap :: !HigherPriority(f, e)
    requires forall f | f in deferred :: !FitsIn(block.weight, block.sigops, f, maxWeight, maxSigops)
    requires FitsIn(block.weight, block.sigops, e, maxWeight, maxSigops)
    ensures FirstThatFits(clusters, mempool, pos, Flatten(chosen), e.clusterId, maxWeight, maxSigops)
  {
    hide HigherPriority, IsEntry, FitsIn;
    assert e in heap + deferred;
    forall f: ChunkHeapEntry | f.clusterId in pos && IsEntry(clusters, mempool, f.clusterId, pos[f.clusterId], f) && FitsIn(block.weight, block.sigops, f, maxWeight, maxSigops)
      ensures !HigherPriority(f, e)
    {
      EntryFields(clusters, mempool, f.clusterId, pos[f.clusterId], f);
      var h :| h in heap + deferred && h.clusterId == f.clusterId;
      EntryUnique(clusters, mempool, f.clusterId, pos[f.clusterId], f, h);
    }
  }

  /** A fuller block fits no more. */
  lemma StillTooBig(block: ProjectedBlock, fuller: ProjectedBlock, deferred: seq<ChunkHeapEntry>, maxWeight: Option<int>, maxSigops: Option<int>)
    requires block.weight <= fuller.weight && block.sigops <= fuller.sigops
    requires forall f | f in deferred :: !FitsIn(block.weight, block.sigops, f, maxWeight, maxSigops)
    ensures forall f | f in deferred :: !FitsIn(fuller.weight, fuller.sigops, f, maxWeight, maxSigops)
  {
  }

  lemma {:induction false} AmountsPositive(mempool: Pool, txs: seq<Txid>)
    ensures 0 <= WeightOf(mempool, txs) && 0 <= SigopsOf(mempool, txs)
  {
    if txs != [] {
      AmountsPositive(mempool, txs[..|txs| - 1]);
    }
  }

  /** No entry has a higher feerate than the chunk placed last. */
  ghost predicate NoneAbove(entries: set<ChunkHeapEntry>, chosen: seq<Chunk>) {
    chosen != [] ==> forall e | e in entries :: !Higher(e.fee, e.weight, chosen[|chosen| - 1].fee, chosen[|chosen| - 1].weight)
  }

  lemma HoldsMore(mempool: Pool, block: ProjectedBlock, chosen: seq<Chunk>, c: Chunk)
    requires Holds(mempool, block, chosen)
    requires chosen != [] ==> !Above(c, chosen[|chosen| - 1])
    ensures Holds(mempool, ProjectedBlock(block.txids + c.txs, block.weight + WeightOf(mempool, c.txs), block.sigops + SigopsOf(mempool, c.txs)),
                  chosen + [c])
  {
    FlattenConcat(chosen, [c]);
    FlattenOne(c);
    WeightOfConcat(mempool, block.txids, c.txs);
  }

  lemma NoneAboveNext(clusters: map<nat, Cluster>, mempool: Pool, entries: set<ChunkHeapEntry>, chosen: seq<Chunk>, id: nat, index: nat,
                      e: ChunkHeapEntry, next: Option<ChunkHeapEntry>)
    requires id in clusters && index < |clusters[id].chunks| && Linearized(clusters[id])
    requires IsEntry(clusters, mempool, id, index, e)
    requires next.Some? ==> IsEntry(clusters, mempool, id, index + 1, next.value)
    requires forall f | f in entries :: !HigherPriority(f, e)
    ensures NoneAbove(entries + if next.Some? then {next.value} else {}, chosen + [clusters[id].chunks[index]])
  {
    var chunks := clusters[id].chunks;
    if next.Some? {
      assert !Above(chunks[index + 1], chunks[index]);
    }
  }

  lemma EntryPositive(clusters: map<nat, Cluster>, mempool: Pool, pos: Progress, entries: set<ChunkHeapEntry>)
    requires Packable(clusters, mempool) && Frontier(clusters, mempool, pos, entries)
    ensures forall e | e in entries :: 0 < e.weight
  {
    forall e | e in entries ensures 0 < e.weight {
      ChunkOf(clusters, mempool, e.clusterId, pos[e.clusterId]);
    }
  }

  /** The queue after the chunk of entry `e` was placed and the next one of its cluster queued. */
  lemma PlacingQueue(clusters: map<nat, Cluster>, mempool: Pool, pos: Progress, heap: set<ChunkHeapEntry>, deferred: set<ChunkHeapEntry>,
                     e: ChunkHeapEntry, next: Option<ChunkHeapEntry>, chosen: seq<Chunk>)
    requires Packable(clusters, mempool) && Frontier(clusters, mempool, pos, heap + deferred)
    requires heap !! deferred && e in heap && forall f | f in heap :: !HigherPriority(f, e)
    requires next.None? <==> e.chunkIndex + 1 == |Chunks(clusters, e.clusterId)|
    requires next.Some? ==> IsEntry(clusters, mempool, e.clusterId, e.chunkIndex + 1, next.value)
    ensures IsEntry(clusters, mempool, e.clusterId, e.chunkIndex, e) && e.clusterId in pos && pos[e.clusterId] == e.chunkIndex
    ensures var heap' := heap - {e} + if next.Some? then {next.value} else {};
            && Frontier(clusters, mempool, pos[e.clusterId := e.chunkIndex + 1], heap' + deferred) && heap' !! deferred
            && NoneAbove(heap', chosen + [clusters[e.clusterId].chunks[e.chunkIndex]])
  {
    hide Packable, Frontier, NoneAbove, HigherPriority, IsEntry, Linearized, Higher;
    var queued := heap + deferred;
    assert e in queued;
    FrontierAt(clusters, mempool, pos, queued, e);
    EntryFields(clusters, mempool, e.clusterId, e.chunkIndex, e);
    if next.Some? {
      EntryFields(clusters, mempool, e.clusterId, e.chunkIndex + 1, next.value);
    }
    PackableAt(clusters, mempool, e.clusterId);
    FrontierNext(clusters, mempool, pos, queued, e, next);
    NextApart(clusters, mempool, pos, heap, deferred, e, next);
    NoneAboveNext(clusters, mempool, heap - {e}, chosen, e.clusterId, e.chunkIndex, e, next);
  }

  /** The block after the next chunk of cluster `id` was placed. */
  lemma PlacingOutput(clusters: map<nat, Cluster>, mempool: Pool, from: Progress, to: Progress, id: nat, before: seq<Txid>, block: ProjectedBlock, chosen: seq<Chunk>)
    requires Packable(clusters, mempool) && IsProgress(clusters, to) && Packed(clusters, to, before + block.txids)
    requires Holds(mempool, block, chosen) && Merged(clusters, from, to, chosen)
    requires id in clusters && to[id] < |clusters[id].chunks|
    requires chosen != [] ==> !Above(clusters[id].chunks[to[id]], chosen[|chosen| - 1])
    ensures var c := clusters[id].chunks[to[id]];
            var to' := to[id := to[id] + 1];
            var block' := ProjectedBlock(block.txids + c.txs, block.weight + WeightOf(mempool, c.txs), block.sigops + SigopsOf(mempool, c.txs));
            && Packed(clusters, to', before + block'.txids)
            && Holds(mempool, block', chosen + [c]) && Merged(clusters, from, to', chosen + [c])
            && WeightOf(mempool, c.txs) <= c.weight && block'.txids != []
            && Unplaced(clusters, to') < Unplaced(clusters, to)
  {
    hide Packable, Packed, Holds, Merged, WeightOf, SigopsOf, Exact, Unplaced, Higher, Linearized, Distinct, Topological;
    var c := clusters[id].chunks[to[id]];
    ChunkOf(clusters, mempool, id, to[id]);
    UnplacedShrinks(clusters, to, id);
    PlaceChunk(clusters, mempool, to, before + block.txids, id);
    assert before + (block.txids + c.txs) == before + block.txids + c.txs;
    MergedMore(clusters, from, to, chosen, id);
    HoldsMore(mempool, block, chosen, c);
  }

  lemma PackableAt(clusters: map<nat, Cluster>, mempool: Pool, id: nat)
    requires Packable(clusters, mempool) && id in clusters
    ensures Linearized(clusters[id])
  {
  }

  lemma FrontierAt(clusters: map<nat, Cluster>, mempool: Pool, pos: Progress, entries: set<ChunkHeapEntry>, e: ChunkHeapEntry)
    requires Frontier(clusters, mempool, pos, entries) && e in entries
    ensures IsProgress(clusters, pos) && e.clusterId in clusters && e.clusterId in pos && pos[e.clusterId] == e.chunkIndex
    ensures IsEntry(clusters, mempool, e.clusterId, e.chunkIndex, e)
  {
  }

  lemma EntryChunk(clusters: map<nat, Cluster>, mempool: Pool, id: nat, index: nat, e: ChunkHeapEntry)
    requires IsEntry(clusters, mempool, id, index, e)
    ensures var c := clusters[id].chunks[index]; e.fee == c.fee && e.weight == c.weight && e.sigops == SigopsOf(mempool, c.txs)
  {
  }

  lemma NextApart(clusters: map<nat, Cluster>, mempool: Pool, pos: Progress, heap: set<ChunkHeapEntry>, deferred: set<ChunkHeapEntry>,
                  e: ChunkHeapEntry, next: Option<ChunkHeapEntry>)
    requires Frontier(clusters, mempool, pos, heap + deferred) && heap !! deferred && e in heap
    requires next.Some? ==> next.value.clusterId == e.clusterId
    ensures var heap' := heap - {e} + if next.Some? then {next.value} else {};
            heap' !! deferred && heap' + deferred == heap + deferred - {e} + if next.Some? then {next.value} else {}
  {
    var queued := heap + deferred;
    assert e in queued;
    forall f | f in deferred ensures f.clusterId != e.clusterId {
      assert f in queued && f != e;
    }
  }

  lemma Empty(clusters: map<nat, Cluster>, mempool: Pool, from: Progress, entries: set<ChunkHeapEntry>)
    ensures Holds(mempool, ProjectedBlock([], COINBASE_RESERVED_WEIGHT, 0), []) && Merged(clusters, from, from, [])
    ensures NoneAbove(entries, [])
  {
  }

  /** Placing the chunk of an entry that fits: everything the loop knows holds again. */
  lemma Placing(clusters: map<nat, Cluster>, mempool: Pool, from: Progress, to: Progress, heap: set<ChunkHeapEntry>, deferred: seq<ChunkHeapEntry>,
                e: ChunkHeapEntry, next: Option<ChunkHeapEntry>, before: seq<Txid>, block: ProjectedBlock, chosen: seq<Chunk>, maxWeight: Option<int>, maxSigops: Option<int>)
    requires Packable(clusters, mempool) && Frontier(clusters, mempool, to, heap + Elems(deferred)) && heap !! Elems(deferred)
    requires e in heap && forall f | f in heap :: !HigherPriority(f, e)
    requires next.None? <==> e.chunkIndex + 1 == |Chunks(clusters, e.clusterId)|
    requires next.Some? ==> IsEntry(clusters, mempool, e.clusterId, e.chunkIndex + 1, next.value)
    requires Packed(clusters, to, before + block.txids) && Holds(mempool, block, chosen) && Merged(clusters, from, to, chosen) && NoneAbove(heap, chosen)
    requires Greedily(clusters, mempool, from, to, chosen, maxWeight, maxSigops)
    requires FitsIn(block.weight, block.sigops, e, maxWeight, maxSigops)
    requires forall f | f in deferred :: !FitsIn(block.weight, block.sigops, f, maxWeight, maxSigops)
    ensures IsEntry(clusters, mempool, e.clusterId, e.chunkIndex, e) && e.clusterId in to && to[e.clusterId] == e.chunkIndex
    ensures var c := clusters[e.clusterId].chunks[e.chunkIndex];
            var pos := to[e.clusterId := e.chunkIndex + 1];
            var heap' := heap - {e} + if next.Some? then {next.value} else {};
            var block' := ProjectedBlock(block.txids + c.txs, block.weight + WeightOf(mempool, c.txs), block.sigops + SigopsOf(mempool, c.txs));
            && Frontier(clusters, mempool, pos, heap' + Elems(deferred)) && heap' !! Elems(deferred)
            && Packed(clusters, pos, before + block'.txids) && Holds(mempool, block', chosen + [c]) && Merged(clusters, from, pos, chosen + [c])
            && NoneAbove(heap', chosen + [c]) && Greedily(clusters, mempool, from, pos, chosen + [c], maxWeight, maxSigops)
            && Under(block'.weight, maxWeight) && Under(block'.sigops, maxSigops) && block'.txids != []
            && (forall f | f in deferred :: !FitsIn(block'.weight, block'.sigops, f, maxWeight, maxSigops))
            && Unplaced(clusters, pos) < Unplaced(clusters, to)
            && e.sigops == SigopsOf(mempool, c.txs)
  {
    hide Packable, Frontier, Packed, Holds, Merged, HigherPriority, IsEntry, Linearized, Unplaced, WeightOf, SigopsOf, NoneAbove, FitsIn, Greedily, Under, Elems;
    assert e in heap + Elems(deferred);
    FrontierAt(clusters, mempool, to, heap + Elems(deferred), e);
    EntryChunk(clusters, mempool, e.clusterId, e.chunkIndex, e);
    var c := clusters[e.clusterId].chunks[e.chunkIndex];
    PlacingQueue(clusters, mempool, to, heap, Elems(deferred), e, next, chosen);
    NotAboveLast(heap, chosen, e, c);
    PlacingOutput(clusters, mempool, from, to, e.clusterId, before, block, chosen);
    DeferredElems(block, deferred, maxWeight, maxSigops);
    TakenFirst(clusters, mempool, to, heap, Elems(deferred), e, block, chosen, maxWeight, maxSigops);
    GreedilyMore(clusters, mempool, from, to, chosen, maxWeight, maxSigops, e.clusterId);
    AmountsPositive(mempool, c.txs);
    FitsIs(block, e, maxWeight, maxSigops);
    UnderLess(block.weight + WeightOf(mempool, c.txs), block.weight + e.weight, maxWeight);
    var block' := ProjectedBlock(block.txids + c.txs, block.weight + WeightOf(mempool, c.txs), block.sigops + SigopsOf(mempool, c.txs));
    StillTooBig(block, block', deferred, maxWeight, maxSigops);
  }

  lemma DeferredElems(block: ProjectedBlock, deferred: seq<ChunkHeapEntry>, maxWeight: Option<int>, maxSigops: Option<int>)
    requires forall f | f in deferred :: !FitsIn(block.weight, block.sigops, f, maxWeight, maxSigops)
    ensures forall f | f in Elems(deferred) :: !FitsIn(block.weight, block.sigops, f, maxWeight, maxSigops)
  {
    hide FitsIn;
  }

  lemma NoneAboveFewer(entries: set<ChunkHeapEntry>, fewer: set<ChunkHeapEntry>, chosen: seq<Chunk>)
    requires NoneAbove(entries, chosen) && fewer <= entries
    ensures NoneAbove(fewer, chosen)
  {
  }

  lemma NotAboveLast(entries: set<ChunkHeapEntry>, chosen: seq<Chunk>, e: ChunkHeapEntry, c: Chunk)
    requires NoneAbove(entries, chosen) && e in entries && c.fee == e.fee && c.weight == e.weight
    ensures chosen != [] ==> !Above(c, chosen[|chosen| - 1])
  {
  }

  method FillBlock(heap: ChunkHeap, clusters: map<nat, Cluster>, mempool: Pool, maxWeight: Option<int>, maxSigops: Option<int>,
                   ghost from: Progress, ghost before: seq<Txid>)
    returns (block: ProjectedBlock, ghost to: Progress, ghost chosen: seq<Chunk>)
    requires heap.Valid() && Packable(clusters, mempool) && Frontier(clusters, mempool, from, heap.entries) && Packed(clusters, from, before)
    requires Under(COINBASE_RESERVED_WEIGHT, maxWeight) && Under(0, maxSigops)
    modifies heap, heap.queue
    ensures heap.Valid() && Frontier(clusters, mempool, to, heap.entries) && Packed(clusters, to, before + block.txids)
    ensures Holds(mempool, block, chosen) && Merged(clusters, from, to, chosen)
    ensures block.weight == 8000 + Sum(map t | t in mempool :: mempool[t].weight, block.txids)
    ensures block.sigops == Sum(map t | t in mempool :: mempool[t].sigops, block.txids)
    ensures Under(block.weight, maxWeight) && Under(block.sigops, maxSigops)
    ensures maxWeight.None? && maxSigops.None? ==> heap.entries == {}
    ensures Greedily(clusters, mempool, from, to, chosen, maxWeight, maxSigops)
    ensures Under(block.weight + MAX_WASTED_WEIGHT, maxWeight) || |clusters| <= MAX_CONSECUTIVE_FAILURES ==>
              forall e | e in heap.entries :: !FitsIn(block.weight, block.sigops, e, maxWeight, maxSigops)
    ensures block.txids == [] && (Under(COINBASE_RESERVED_WEIGHT + MAX_WASTED_WEIGHT, maxWeight) || |clusters| <= MAX_CONSECUTIVE_FAILURES) ==>
              to == from && forall e | e in heap.entries :: !FitsAlone(e, maxWeight, maxSigops)
  {
    hide Packable, Filling, Unplaced, ChunkHeap.Valid, Under, Sum, Frontier, Packed, Holds, Merged, Greedily, FitsIn, FitsAlone, Distinct, Elems;
    block := ProjectedBlock([], COINBASE_RESERVED_WEIGHT, 0);
    var deferred: seq<ChunkHeapEntry> := [];
    var consecutiveFailed: nat := 0;
    var full := false;
    to, chosen := from, [];
    NothingFilled(clusters, mempool, from, heap.entries, before, maxWeight, maxSigops);
    while !heap.IsEmpty() && !full
      invariant heap.Valid() && Filling(clusters, mempool, from, to, heap.entries, deferred, before, block, chosen, maxWeight, maxSigops)
      invariant full ==> maxWeight.Some? && block.weight + MAX_WASTED_WEIGHT > maxWeight.value && |clusters| > MAX_CONSECUTIVE_FAILURES
      invariant consecutiveFailed <= |deferred|
      decreases Unplaced(clusters, to), heap.entries
    {
      block, deferred, consecutiveFailed, full, to, chosen :=
        PlaceNext(heap, clusters, mempool, maxWeight, maxSigops, block, deferred, consecutiveFailed, from, to, before, chosen);
    }
    Filled(clusters, mempool, from, to, heap.entries, deferred, before, block, chosen, maxWeight, maxSigops, full);
    Requeue(heap, deferred);
    assert {} + Elems(deferred) == Elems(deferred);
  }

  /** What is known while a block is filled. */
  ghost predicate Filling(clusters: map<nat, Cluster>, mempool: Pool, from: Progress, to: Progress, entries: set<ChunkHeapEntry>, deferred: seq<ChunkHeapEntry>,
                          before: seq<Txid>, block: ProjectedBlock, chosen: seq<Chunk>, maxWeight: Option<int>, maxSigops: Option<int>) {
    && Frontier(clusters, mempool, to, entries + Elems(deferred)) && entries !! Elems(deferred) && Distinct(deferred)
    && Packed(clusters, to, before + block.txids) && Holds(mempool, block, chosen) && Merged(clusters, from, to, chosen)
    && Under(block.weight, maxWeight) && Under(block.sigops, maxSigops) && NoneAbove(entries, chosen)
    && (maxWeight.None? && maxSigops.None? ==> deferred == []) && (block.txids == [] ==> chosen == [])
    && (chosen == [] ==> to == from && block.weight == COINBASE_RESERVED_WEIGHT && block.sigops == 0)
    && (forall e | e in deferred :: !FitsIn(block.weight, block.sigops, e, maxWeight, maxSigops))
    && Greedily(clusters, mempool, from, to, chosen, maxWeight, maxSigops)
  }

  lemma NothingFilled(clusters: map<nat, Cluster>, mempool: Pool, from: Progress, entries: set<ChunkHeapEntry>, before: seq<Txid>, maxWeight: Option<int>, maxSigops: Option<int>)
    requires Frontier(clusters, mempool, from, entries) && Packed(clusters, from, before)
    requires Under(COINBASE_RESERVED_WEIGHT, maxWeight) && Under(0, maxSigops)
    ensures Filling(clusters, mempool, from, from, entries, [], before, ProjectedBlock([], COINBASE_RESERVED_WEIGHT, 0), [], maxWeight, maxSigops)
  {
    hide Frontier, Packed, Holds, Merged, NoneAbove, Greedily, Under;
    GreedilyNone(clusters, mempool, from, maxWeight, maxSigops);
    Empty(clusters, mempool, from, entries);
    assert before + [] == before && entries + Elems([]) == entries;
  }

  /** What the filling comes to, with the deferred entries back in the heap. */
  lemma Filled(clusters: map<nat, Cluster>, mempool: Pool, from: Progress, to: Progress, entries: set<ChunkHeapEntry>, deferred: seq<ChunkHeapEntry>,
               before: seq<Txid>, block: ProjectedBlock, chosen: seq<Chunk>, maxWeight: Option<int>, maxSigops: Option<int>, full: bool)
    requires Filling(clusters, mempool, from, to, entries, deferred, before, block, chosen, maxWeight, maxSigops) && (full || entries == {})
    requires full ==> maxWeight.Some? && block.weight + MAX_WASTED_WEIGHT > maxWeight.value && |clusters| > MAX_CONSECUTIVE_FAILURES
    ensures entries !! Elems(deferred) && Distinct(deferred)
    ensures var waiting := entries + Elems(deferred);
            && Frontier(clusters, mempool, to, waiting) && Packed(clusters, to, before + block.txids)
            && Holds(mempool, block, chosen) && Merged(clusters, from, to, chosen) && Under(block.weight, maxWeight) && Under(block.sigops, maxSigops)
            && (maxWeight.None? && maxSigops.None? ==> waiting == {}) && Greedily(clusters, mempool, from, to, chosen, maxWeight, maxSigops)
            && (Under(block.weight + MAX_WASTED_WEIGHT, maxWeight) || |clusters| <= MAX_CONSECUTIVE_FAILURES ==>
                  forall e | e in waiting :: !FitsIn(block.weight, block.sigops, e, maxWeight, maxSigops))
            && (block.txids == [] && (Under(COINBASE_RESERVED_WEIGHT + MAX_WASTED_WEIGHT, maxWeight) || |clusters| <= MAX_CONSECUTIVE_FAILURES) ==>
                  to == from && forall e | e in waiting :: !FitsAlone(e, maxWeight, maxSigops))
    ensures block.weight == 8000 + Sum(map t | t in mempool :: mempool[t].weight, block.txids)
    ensures block.sigops == Sum(map t | t in mempool :: mempool[t].sigops, block.txids)
  {
    hide Frontier, Packed, Holds, Merged, NoneAbove, Greedily, Distinct, FitsIn;
    HeldAmounts(mempool, block, chosen);
    DeferredElems(block, deferred, maxWeight, maxSigops);
    if entries == {} {
      assert entries + Elems(deferred) == Elems(deferred);
    }
  }

  /** Takes the first entry of the heap: its chunk goes into the block if it fits, and waits otherwise. */
  method PlaceNext(heap: ChunkHeap, clusters: map<nat, Cluster>, mempool: Pool, maxWeight: Option<int>, maxSigops: Option<int>,
                   block0: ProjectedBlock, deferred0: seq<ChunkHeapEntry>, failed0: nat,
                   ghost from: Progress, ghost to0: Progress, ghost before: seq<Txid>, ghost chosen0: seq<Chunk>)
    returns (block: ProjectedBlock, deferred: seq<ChunkHeapEntry>, consecutiveFailed: nat, full: bool, ghost to: Progress, ghost chosen: seq<Chunk>)
    requires heap.Valid() && heap.entries != {} && Packable(clusters, mempool) && failed0 <= |deferred0|
    requires Filling(clusters, mempool, from, to0, heap.entries, deferred0, before, block0, chosen0, maxWeight, maxSigops)
    modifies heap, heap.queue
    ensures heap.Valid() && Filling(clusters, mempool, from, to, heap.entries, deferred, before, block, chosen, maxWeight, maxSigops)
    ensures consecutiveFailed <= |deferred|
    ensures full ==> maxWeight.Some? && block.weight + MAX_WASTED_WEIGHT > maxWeight.value && |clusters| > MAX_CONSECUTIVE_FAILURES
    ensures Unplaced(clusters, to) < Unplaced(clusters, to0) || (to == to0 && heap.entries < old(heap.entries))
  {
    hide Packable, Frontier, Packed, Holds, Merged, HigherPriority, IsEntry, Linearized, Unplaced, WeightOf, SigopsOf, NoneAbove, FitsIn, Greedily, Under, ChunkHeap.Valid, Distinct,
         IsRun, TotalWeight, Sum, Elems;
    block, deferred, consecutiveFailed, full := block0, deferred0, failed0, false;
    to, chosen := to0, chosen0;
    NoLimit(maxWeight, maxSigops);
    ghost var queued, waiting := heap.entries, Elems(deferred);
    EntryPositive(clusters, mempool, to, queued + waiting);
    var entry := heap.Pop();
    assert entry in queued + waiting;
    FrontierAt(clusters, mempool, to, queued + waiting, entry);
    EntryChunk(clusters, mempool, entry.clusterId, entry.chunkIndex, entry);
    var cluster := clusters[entry.clusterId];
    var chunk := cluster.chunks[entry.chunkIndex];
    FitsIs(block, entry, maxWeight, maxSigops);
    if Under(block.weight + entry.weight, maxWeight) && Under(block.sigops + entry.sigops, maxSigops) {
      consecutiveFailed := 0;
      ghost var queue: Option<ChunkHeapEntry> := None;
      var w := ChunkWeight(chunk, mempool);
      block := ProjectedBlock(block.txids + chunk.txs, block.weight + w, block.sigops + entry.sigops);
      if entry.chunkIndex + 1 < |cluster.chunks| {
        var next := MakeChunkHeapEntry(clusters, entry.clusterId, entry.chunkIndex + 1, mempool);
        NextNew(clusters, mempool, to, queued + waiting, entry, next);
        heap.Add(next);
        queue := Some(next);
      }
      assert heap.entries == queued - {entry} + if queue.Some? then {queue.value} else {};
      Placing(clusters, mempool, from, to, queued, deferred, entry, queue, before, block0, chosen, maxWeight, maxSigops);
      to, chosen := to[entry.clusterId := entry.chunkIndex + 1], chosen + [chunk];
    } else {
      DistinctMore(deferred, entry);
      deferred := deferred + [entry];
      assert heap.entries + Elems(deferred) == queued + waiting;
      NoneAboveFewer(queued, heap.entries, chosen);
      consecutiveFailed := consecutiveFailed + 1;
      if consecutiveFailed > MAX_CONSECUTIVE_FAILURES && maxWeight.Some? && block.weight + MAX_WASTED_WEIGHT > maxWeight.value {
        OnePerCluster(clusters, mempool, to, queued + waiting, deferred);
        full := true;
      }
    }
  }

  lemma HeldAmounts(mempool: Pool, block: ProjectedBlock, chosen: seq<Chunk>)
    requires Holds(mempool, block, chosen)
    ensures block.weight == 8000 + Sum(map t | t in mempool :: mempool[t].weight, block.txids)
    ensures block.sigops == Sum(map t | t in mempool :: mempool[t].sigops, block.txids)
  {
    AmountsAreSums(mempool, block.txids);
  }

  /** Entries are of different clusters. */
  lemma {:induction false} OnePerCluster(clusters: map<nat, Cluster>, mempool: Pool, pos: Progress, entries: set<ChunkHeapEntry>, s: seq<ChunkHeapEntry>)
    requires Frontier(clusters, mempool, pos, entries) && Distinct(s) && Elems(s) <= entries
    ensures |s| <= |clusters|
  {
    var ids := set e | e in s :: e.clusterId;
    CountClusters(s, ids, clusters, mempool, pos, entries);
    forall id | id in ids ensures id in clusters.Keys {
      var e :| e in s && e.clusterId == id;
      assert e in Elems(s);
      FrontierAt(clusters, mempool, pos, entries, e);
    }
    SubsetSize(ids, clusters.Keys);
  }

  lemma {:induction false} CountClusters(s: seq<ChunkHeapEntry>, ids: set<nat>, clusters: map<nat, Cluster>, mempool: Pool, pos: Progress, entries: set<ChunkHeapEntry>)
    requires Frontier(clusters, mempool, pos, entries) && Distinct(s) && Elems(s) <= entries && ids == set e | e in s :: e.clusterId
    ensures |ids| == |s|
  {
    hide IsEntry;
    if s != [] {
      var n := |s| - 1;
      var front := s[..n];
      var before := set e | e in front :: e.clusterId;
      assert s == front + [s[n]];
      ElemsConcat(front, [s[n]]);
      assert s[n] in Elems(s);
      CountClusters(front, before, clusters, mempool, pos, entries);
      forall e | e in front ensures e.clusterId != s[n].clusterId {
        assert e in Elems(s);
      }
      assert ids == before + {s[n].clusterId};
    }
  }

  lemma DistinctMore(s: seq<ChunkHeapEntry>, e: ChunkHeapEntry)
    requires Distinct(s) && e !in Elems(s)
    ensures Distinct(s + [e]) && Elems(s + [e]) == Elems(s) + {e}
  {
    DistinctConcat(s, [e]);
    ElemsConcat(s, [e]);
  }

  /** The entry of the next chunk of a cluster is not in the heap yet. */
  lemma NextNew(clusters: map<nat, Cluster>, mempool: Pool, pos: Progress, queued: set<ChunkHeapEntry>, e: ChunkHeapEntry, next: ChunkHeapEntry)
    requires Frontier(clusters, mempool, pos, queued) && e in queued && IsEntry(clusters, mempool, e.clusterId, e.chunkIndex + 1, next)
    ensures next !in queued
  {
    hide IsEntry;
    EntryFields(clusters, mempool, e.clusterId, e.chunkIndex + 1, next);
  }

  /** What did not fit waits again. */
  method Requeue(heap: ChunkHeap, deferred: seq<ChunkHeapEntry>)
    requires heap.Valid() && Distinct(deferred) && heap.entries !! Elems(deferred)
    modifies heap, heap.queue
    ensures heap.Valid() && heap.entries == old(heap.entries) + Elems(deferred)
  {
    hide ChunkHeap.Valid;
    for i := 0 to |deferred|
      invariant heap.Valid() && heap.entries == old(heap.entries) + Elems(deferred[..i])
    {
      assert deferred[i] in Elems(deferred);
      heap.Add(deferred[i]);
      ElemsConcat(deferred[..i], [deferred[i]]);
      assert deferred[..i + 1] == deferred[..i] + [deferred[i]];
    }
    assert deferred[..|deferred|] == deferred;
  }

  lemma UnderLess(x: int, y: int, limit: Option<int>)
    ensures x <= y && Under(y, limit) ==> Under(x, limit)
  {
  }

  lemma NoLimit(maxWeight: Option<int>, maxSigops: Option<int>)
    ensures maxWeight.None? ==> forall x :: Under(x, maxWeight)
    ensures maxSigops.None? ==> forall x :: Under(x, maxSigops)
  {
  }

  lemma FitsIs(block: ProjectedBlock, e: ChunkHeapEntry, maxWeight: Option<int>, maxSigops: Option<int>)
    ensures FitsIn(block.weight, block.sigops, e, maxWeight, maxSigops) <==>
            Under(block.weight + e.weight, maxWeight) && Under(block.sigops + e.sigops, maxSigops)
  {
  }

  lemma GreedilyNone(clusters: map<nat, Cluster>, mempool: Pool, from: Progress, maxWeight: Option<int>, maxSigops: Option<int>)
    ensures Greedily(clusters, mempool, from, from, [], maxWeight, maxSigops)
  {
  }

  // ---------- several blocks

  function Output(blocks: seq<ProjectedBlock>): seq<Txid> {
    if blocks == [] then [] else Output(blocks[..|blocks| - 1]) + blocks[|blocks| - 1].txids
  }

  ghost function Joined(chosen: seq<seq<Chunk>>): seq<Chunk> {
    if chosen == [] then [] else Joined(chosen[..|chosen| - 1]) + chosen[|chosen| - 1]
  }

  ghost function Start(clusters: map<nat, Cluster>): Progress {
    map id | id in clusters :: 0
  }

  ghost function Finished(clusters: map<nat, Cluster>): Progress {
    map id | id in clusters :: |clusters[id].chunks|
  }

  /** The chunk goes into a limited block that holds nothing else. */
  ghost predicate ChunkFits(mempool: Pool, c: Chunk) {
    COINBASE_RESERVED_WEIGHT + c.weight < BLOCK_WEIGHT_UNITS && SigopsOf(mempool, c.txs) < MAX_BLOCK_SIGOPS_COST
  }

  ghost predicate AllFit(clusters: map<nat, Cluster>, mempool: Pool) {
    forall id, i | id in clusters && 0 <= i < |clusters[id].chunks| :: ChunkFits(mempool, clusters[id].chunks[i])
  }

  /** The next chunk of every cluster that is not used up is too big for an empty limited block. */
  ghost predicate Stuck(clusters: map<nat, Cluster>, mempool: Pool, pos: Progress) {
    forall id | id in clusters && id in pos && pos[id] < |clusters[id].chunks| :: !ChunkFits(mempool, clusters[id].chunks[pos[id]])
  }

  lemma MergedLast(clusters: map<nat, Cluster>, from: Progress, to: Progress, chosen: seq<Chunk>) returns (id: nat)
    requires Merged(clusters, from, to, chosen) && chosen != []
    ensures id in to && 0 < to[id] <= |Chunks(clusters, id)| && chosen[|chosen| - 1] == Chunks(clusters, id)[to[id] - 1]
    ensures Merged(clusters, from, to[id := to[id] - 1], chosen[..|chosen| - 1])
  {
    id :| id in to && 0 < to[id] <= |Chunks(clusters, id)| && chosen[|chosen| - 1] == Chunks(clusters, id)[to[id] - 1]
          && Merged(clusters, from, to[id := to[id] - 1], chosen[..|chosen| - 1]);
  }

  lemma MergedNone(clusters: map<nat, Cluster>, from: Progress, to: Progress)
    requires Merged(clusters, from, to, [])
    ensures from == to
  {
  }

  lemma {:induction false} MergedConcat(clusters: map<nat, Cluster>, a: Progress, b: Progress, c: Progress, first: seq<Chunk>, second: seq<Chunk>)
    requires Merged(clusters, a, b, first) && Merged(clusters, b, c, second)
    ensures Merged(clusters, a, c, first + second)
    decreases |second|
  {
    hide Merged;
    if second == [] {
      MergedNone(clusters, b, c);
      assert first + second == first;
    } else {
      var id := MergedLast(clusters, b, c, second);
      var rest := second[..|second| - 1];
      var prev := c[id := c[id] - 1];
      MergedConcat(clusters, a, b, prev, first, rest);
      MergedMore(clusters, a, prev, first + rest, id);
      assert prev[id := prev[id] + 1] == c;
      assert first + second == first + rest + [second[|second| - 1]];
    }
  }

  lemma StuckWhenNoneFits(clusters: map<nat, Cluster>, mempool: Pool, pos: Progress, entries: set<ChunkHeapEntry>)
    requires Frontier(clusters, mempool, pos, entries)
    requires forall e | e in entries :: !FitsAlone(e, Some(BLOCK_WEIGHT_UNITS), Some(MAX_BLOCK_SIGOPS_COST))
    ensures Stuck(clusters, mempool, pos)
  {
    forall id | id in clusters && id in pos && pos[id] < |clusters[id].chunks| ensures !ChunkFits(mempool, clusters[id].chunks[pos[id]]) {
      var e :| e in entries && e.clusterId == id;
      FrontierAt(clusters, mempool, pos, entries, e);
      EntryChunk(clusters, mempool, id, pos[id], e);
    }
  }

  lemma FinishedWhenEmpty(clusters: map<nat, Cluster>, mempool: Pool, pos: Progress)
    requires Frontier(clusters, mempool, pos, {})
    ensures pos == Finished(clusters) && Stuck(clusters, mempool, pos)
  {
    forall id | id in pos ensures pos[id] == |Chunks(clusters, id)| {
    }
  }

  lemma FinishedWhenStuck(clusters: map<nat, Cluster>, mempool: Pool, pos: Progress)
    requires IsProgress(clusters, pos) && Stuck(clusters, mempool, pos) && AllFit(clusters, mempool)
    ensures pos == Finished(clusters)
  {
    forall id | id in pos ensures pos[id] == |Chunks(clusters, id)| {
      NextFits(clusters, mempool, pos, id);
      NextStuck(clusters, mempool, pos, id);
      hide AllFit, Stuck;
    }
  }

  lemma NextFits(clusters: map<nat, Cluster>, mempool: Pool, pos: Progress, id: nat)
    requires AllFit(clusters, mempool) && id in pos && id in clusters
    ensures pos[id] < |clusters[id].chunks| ==> ChunkFits(mempool, clusters[id].chunks[pos[id]])
  {
  }

  lemma NextStuck(clusters: map<nat, Cluster>, mempool: Pool, pos: Progress, id: nat)
    requires Stuck(clusters, mempool, pos) && id in pos && id in clusters
    ensures pos[id] < |clusters[id].chunks| ==> !ChunkFits(mempool, clusters[id].chunks[pos[id]])
  {
  }

  /** A finished packing holds exactly the transactions of the clusters. */
  lemma FinishedHoldsAll(clusters: map<nat, Cluster>, mempool: Pool, out: seq<Txid>, t: Txid)
    requires Packable(clusters, mempool) && Packed(clusters, Finished(clusters), out)
    ensures t in Elems(out) <==> exists id | id in clusters :: t in clusters[id].graph.Nodes()
  {
    hide Exact;
    var pos := Finished(clusters);
    if id :| id in clusters && t in clusters[id].graph.Nodes() {
      assert Linearized(clusters[id]);
      var j := ChunkHolding(clusters[id].chunks, t);
      assert j < pos[id];
      assert PlacedTx(clusters, pos, t);
    }
    if t in Elems(out) {
      assert PlacedTx(clusters, pos, t);
      var id, j :| id in clusters && id in pos && 0 <= j < pos[id] && j < |clusters[id].chunks| && t in clusters[id].chunks[j].txs;
      ChunkOf(clusters, mempool, id, j);
      assert t in clusters[id].graph.Nodes();
    }
  }

  lemma {:induction false} ChunkHolding(chunks: seq<Chunk>, t: Txid) returns (j: nat)
    requires t in Flatten(chunks)
    ensures j < |chunks| && t in chunks[j].txs
  {
    if t in chunks[0].txs {
      j := 0;
    } else {
      j := ChunkHolding(chunks[1..], t);
      j := j + 1;
    }
  }

  /** What a placed transaction spends is placed as well. */
  lemma ParentPlaced(clusters: map<nat, Cluster>, mempool: Pool, pos: Progress, p: Txid, c: Txid)
    requires Packable(clusters, mempool) && IsProgress(clusters, pos) && HasEdge(clusters, p, c) && PlacedTx(clusters, pos, c)
    ensures PlacedTx(clusters, pos, p)
  {
    hide Exact, Solid;
    var id, j :| id in clusters && id in pos && 0 <= j < pos[id] && j < |clusters[id].chunks| && c in clusters[id].chunks[j].txs;
    ChunkOf(clusters, mempool, id, j);
    PackableAt(clusters, mempool, id);
    assert c in clusters[id].graph.Nodes();
    EdgeOwner(clusters, mempool, id, p, c);
    var i := ChunkHolding(clusters[id].chunks, p);
    if j < i {
      Linearize.BlocksApart(clusters[id].graph.edges, clusters[id].chunks, j, i, c, p);
    }
    assert i < pos[id];
  }

  lemma EdgeOwner(clusters: map<nat, Cluster>, mempool: Pool, id: nat, p: Txid, c: Txid)
    requires Packable(clusters, mempool) && id in clusters && HasEdge(clusters, p, c) && c in clusters[id].graph.Nodes()
    ensures (p, c) in clusters[id].graph.edges && p in Elems(Flatten(clusters[id].chunks))
  {
    var i :| i in clusters && (p, c) in clusters[i].graph.edges;
    assert clusters[i].graph.WellFormed();
    OneOwner(clusters, mempool, i, id, c);
    PackableAt(clusters, mempool, id);
  }

  /** In any packing, what a transaction spends comes before it. */
  lemma SpentBefore(clusters: map<nat, Cluster>, mempool: Pool, pos: Progress, out: seq<Txid>, p: Txid, j: nat)
    requires Packable(clusters, mempool) && IsProgress(clusters, pos) && Packed(clusters, pos, out)
    requires j < |out| && HasEdge(clusters, p, out[j])
    ensures p in out[..j]
  {
    hide Packable, PlacedTx, HasEdge, IsProgress, Distinct;
    assert out[j] in Elems(out);
    ParentPlaced(clusters, mempool, pos, p, out[j]);
    assert p in Elems(out);
    var i :| 0 <= i < |out| && out[i] == p;
    assert i < j;
    assert out[..j][i] == p;
  }

  /** The first entry of every cluster but those in `ids`. */
  ghost predicate FirstEntries(clusters: map<nat, Cluster>, mempool: Pool, ids: set<nat>, entries: set<ChunkHeapEntry>) {
    && (forall e | e in entries :: e.clusterId in clusters && e.clusterId !in ids && IsEntry(clusters, mempool, e.clusterId, 0, e))
    && (forall e, f | e in entries && f in entries && e.clusterId == f.clusterId :: e == f)
    && (forall id | id in clusters && id !in ids && |clusters[id].chunks| > 0 :: exists e | e in entries :: e.clusterId == id)
  }

  lemma FirstEntriesMore(clusters: map<nat, Cluster>, mempool: Pool, ids: set<nat>, entries: set<ChunkHeapEntry>, id: nat, next: Option<ChunkHeapEntry>)
    requires FirstEntries(clusters, mempool, ids, entries) && id in ids && id in clusters && (next.None? <==> |clusters[id].chunks| == 0)
    requires next.Some? ==> IsEntry(clusters, mempool, id, 0, next.value) && next.value.clusterId == id
    ensures next.Some? ==> next.value !in entries
    ensures FirstEntries(clusters, mempool, ids - {id}, entries + if next.Some? then {next.value} else {})
  {
    hide IsEntry;
    var entries' := entries + if next.Some? then {next.value} else {};
    forall i | i in clusters && i !in ids - {id} && |clusters[i].chunks| > 0 ensures exists e | e in entries' :: e.clusterId == i {
      if i == id {
        assert next.value in entries';
      } else {
        var e :| e in entries && e.clusterId == i;
        assert e in entries';
      }
    }
  }

  lemma FirstFrontier(clusters: map<nat, Cluster>, mempool: Pool, entries: set<ChunkHeapEntry>)
    requires FirstEntries(clusters, mempool, {}, entries)
    ensures Frontier(clusters, mempool, Start(clusters), entries)
  {
    hide IsEntry;
  }

  method BuildChunkHeap(clusters: map<nat, Cluster>, mempool: Pool) returns (heap: ChunkHeap)
    ensures fresh(heap) && fresh(heap.queue) && heap.Valid() && Frontier(clusters, mempool, Start(clusters), heap.entries)
  {
    hide ChunkHeap.Valid, FirstEntries, Frontier, IsEntry;
    heap := new ChunkHeap();
    var ids := clusters.Keys;
    NoFirstEntries(clusters, mempool);
    while ids != {}
      invariant ids <= clusters.Keys && fresh(heap) && fresh(heap.queue) && heap.Valid()
      invariant FirstEntries(clusters, mempool, ids, heap.entries)
    {
      var id :| id in ids;
      if |clusters[id].chunks| > 0 {
        var e := MakeChunkHeapEntry(clusters, id, 0, mempool);
        EntryFields(clusters, mempool, id, 0, e);
        FirstEntriesMore(clusters, mempool, ids, heap.entries, id, Some(e));
        heap.Add(e);
      } else {
        FirstEntriesMore(clusters, mempool, ids, heap.entries, id, None);
        assert heap.entries + {} == heap.entries;
      }
      ids := ids - {id};
    }
    FirstFrontier(clusters, mempool, heap.entries);
  }

  lemma NoFirstEntries(clusters: map<nat, Cluster>, mempool: Pool)
    ensures FirstEntries(clusters, mempool, clusters.Keys, {})
  {
  }

  method AssembleBlocks(n: int, clusters: map<nat, Cluster>, mempool: Pool, enforceLimit: bool)
    returns (blocks: seq<ProjectedBlock>, ghost to: Progress, ghost chosen: seq<seq<Chunk>>, ghost stops: seq<Progress>)
    requires Packable(clusters, mempool)
    ensures blocks == [] || |blocks| <= n
    ensures BlockByBlock(clusters, mempool, blocks, chosen, stops, n, enforceLimit) && to == stops[|blocks|]
    ensures IsProgress(clusters, to) && Packed(clusters, to, Output(blocks))
    ensures Merged(clusters, Start(clusters), to, Joined(chosen))
    ensures |blocks| < n || (1 <= n && !enforceLimit) ==> Stuck(clusters, mempool, to)
    ensures 1 <= n && !enforceLimit && (n == 1 || AllFit(clusters, mempool)) ==> to == Finished(clusters)
    ensures forall b | b in blocks ::
              && b.weight == 8000 + Sum(map t | t in mempool :: mempool[t].weight, b.txids)
              && b.sigops == Sum(map t | t in mempool :: mempool[t].sigops, b.txids)
  {
    hide Packable, Packed, Holds, Merged, Stuck, AllFit, IsProgress, Start, Finished, Frontier, Joined, Output, Greedily, BlockByBlock, FilledBlock, ChunkHeap.Valid, NoneFits, FitsIn, FitsAlone;
    var heap := BuildChunkHeap(clusters, mempool);
    blocks, to, chosen, stops := [], Start(clusters), [], [Start(clusters)];
    var blockIdx := 0;
    StartPacked(clusters, mempool, n, enforceLimit);
    while blockIdx < n
      invariant 0 <= blockIdx && (blockIdx <= n || blockIdx == 0) && |blocks| == blockIdx && |stops| == blockIdx + 1
      invariant fresh(heap) && fresh(heap.queue) && heap.Valid() && Frontier(clusters, mempool, to, heap.entries) && Packed(clusters, to, Output(blocks))
      invariant Merged(clusters, Start(clusters), to, Joined(chosen))
      invariant BlockByBlock(clusters, mempool, blocks, chosen, stops, n, enforceLimit) && to == stops[|blocks|]
      invariant 1 <= n == blockIdx && !enforceLimit ==> heap.entries == {}
      decreases n - blockIdx
    {
      var limited := enforceLimit || blockIdx < n - 1;
      var maxWeight := if limited then Some(BLOCK_WEIGHT_UNITS) else None;
      var maxSigops := if limited then Some(MAX_BLOCK_SIGOPS_COST) else None;
      ghost var earlier, done := to, Output(blocks);
      var block;
      ghost var picked;
      block, to, picked := FillBlock(heap, clusters, mempool, maxWeight, maxSigops, earlier, done);
      if |block.txids| == 0 {
        assert done + block.txids == done;
        NothingFits(clusters, mempool, to, heap.entries, limited);
        break;
      }
      OutputMore(blocks, block, chosen, picked);
      if limited {
        NoneWaitingFits(clusters, mempool, block, to, heap.entries);
      }
      IsFilledBlock(clusters, mempool, block, picked, earlier, to, limited);
      OneMoreBlock(clusters, mempool, blocks, chosen, stops, n, enforceLimit, block, picked, to);
      MergedConcat(clusters, Start(clusters), earlier, to, Joined(chosen), picked);
      blocks := blocks + [block];
      chosen, stops := chosen + [picked], stops + [to];
      blockIdx := blockIdx + 1;
    }
    Outcome(clusters, mempool, to, heap.entries);
    AllAmounts(clusters, mempool, blocks, chosen, stops, n, enforceLimit);
  }

  lemma AllAmounts(clusters: map<nat, Cluster>, mempool: Pool, blocks: seq<ProjectedBlock>, chosen: seq<seq<Chunk>>, stops: seq<Progress>,
                   n: int, enforceLimit: bool)
    requires BlockByBlock(clusters, mempool, blocks, chosen, stops, n, enforceLimit)
    ensures forall b | b in blocks ::
              && b.weight == 8000 + Sum(map t | t in mempool :: mempool[t].weight, b.txids)
              && b.sigops == Sum(map t | t in mempool :: mempool[t].sigops, b.txids)
  {
    hide Greedily, Holds, NoneFits;
    forall b | b in blocks
      ensures b.weight == 8000 + Sum(map t | t in mempool :: mempool[t].weight, b.txids)
      ensures b.sigops == Sum(map t | t in mempool :: mempool[t].sigops, b.txids)
    {
      var i :| 0 <= i < |blocks| && blocks[i] == b;
      assert FilledBlock(clusters, mempool, blocks[i], chosen[i], stops[i], stops[i + 1], enforceLimit || i < n - 1);
      HeldAmounts(mempool, b, chosen[i]);
    }
  }

  lemma NoneWaitingFits(clusters: map<nat, Cluster>, mempool: Pool, block: ProjectedBlock, pos: Progress, entries: set<ChunkHeapEntry>)
    requires Frontier(clusters, mempool, pos, entries)
    requires Under(block.weight + MAX_WASTED_WEIGHT, Some(BLOCK_WEIGHT_UNITS)) || |clusters| <= MAX_CONSECUTIVE_FAILURES ==>
               forall e | e in entries :: !FitsIn(block.weight, block.sigops, e, Some(BLOCK_WEIGHT_UNITS), Some(MAX_BLOCK_SIGOPS_COST))
    ensures block.weight + MAX_WASTED_WEIGHT < BLOCK_WEIGHT_UNITS || |clusters| <= 1000 ==> NoneFits(clusters, mempool, block, pos)
  {
    hide Extraction.IsMaxOrder;
    if block.weight + MAX_WASTED_WEIGHT < BLOCK_WEIGHT_UNITS || |clusters| <= 1000 {
      forall id | id in clusters && id in pos && pos[id] < |clusters[id].chunks| ensures !GoesInto(mempool, block, clusters[id].chunks[pos[id]]) {
        var e :| e in entries && e.clusterId == id;
        assert IsEntry(clusters, mempool, id, pos[id], e);
        AmountsAreSums(mempool, clusters[id].chunks[pos[id]].txs);
      }
    }
  }

  /** With the chunk, the block stays below both limits. */
  ghost predicate GoesInto(mempool: Pool, block: ProjectedBlock, c: Chunk) {
    block.weight + c.weight < 4_000_000 && block.sigops + Sum(map t | t in mempool :: mempool[t].sigops, c.txs) < 80_000
  }

  ghost predicate NoneFits(clusters: map<nat, Cluster>, mempool: Pool, block: ProjectedBlock, pos: Progress) {
    forall id | id in clusters && id in pos && pos[id] < |clusters[id].chunks| :: !GoesInto(mempool, block, clusters[id].chunks[pos[id]])
  }

  /** A block takes what is first among all that fits, again and again; `from` and `to` say how far
      the clusters are used up. When it is limited, no next chunk of a cluster fits any more, unless it
      is nearly full and the clusters are many. */
  ghost predicate FilledBlock(clusters: map<nat, Cluster>, mempool: Pool, block: ProjectedBlock, chosen: seq<Chunk>, from: Progress, to: Progress, limited: bool) {
    && block.txids != [] && Holds(mempool, block, chosen)
    && if limited then
         && Greedily(clusters, mempool, from, to, chosen, Some(4_000_000), Some(80_000))
         && block.weight < 4_000_000 && block.sigops < 80_000
         && (block.weight + 4000 < 4_000_000 || |clusters| <= 1000 ==> NoneFits(clusters, mempool, block, to))
       else Greedily(clusters, mempool, from, to, chosen, None, None)
  }

  /** Each block goes on where the one before it stopped. Only the last may be without limits. */
  ghost predicate BlockByBlock(clusters: map<nat, Cluster>, mempool: Pool, blocks: seq<ProjectedBlock>, chosen: seq<seq<Chunk>>, stops: seq<Progress>,
                               n: int, enforceLimit: bool) {
    && |chosen| == |blocks| && |stops| == |blocks| + 1 && stops[0] == Start(clusters)
    && forall i | 0 <= i < |blocks| :: FilledBlock(clusters, mempool, blocks[i], chosen[i], stops[i], stops[i + 1], enforceLimit || i < n - 1)
  }

  lemma IsFilledBlock(clusters: map<nat, Cluster>, mempool: Pool, block: ProjectedBlock, chosen: seq<Chunk>, from: Progress, to: Progress, limited: bool)
    requires block.txids != [] && Holds(mempool, block, chosen)
    requires var maxWeight, maxSigops := if limited then Some(BLOCK_WEIGHT_UNITS) else None, if limited then Some(MAX_BLOCK_SIGOPS_COST) else None;
             && Greedily(clusters, mempool, from, to, chosen, maxWeight, maxSigops)
             && Under(block.weight, maxWeight) && Under(block.sigops, maxSigops)
    requires limited && (block.weight + MAX_WASTED_WEIGHT < BLOCK_WEIGHT_UNITS || |clusters| <= 1000) ==> NoneFits(clusters, mempool, block, to)
    ensures FilledBlock(clusters, mempool, block, chosen, from, to, limited)
  {
    hide Holds, Greedily, NoneFits;
  }

  lemma OneMoreBlock(clusters: map<nat, Cluster>, mempool: Pool, blocks: seq<ProjectedBlock>, chosen: seq<seq<Chunk>>, stops: seq<Progress>,
                     n: int, enforceLimit: bool, block: ProjectedBlock, picked: seq<Chunk>, to: Progress)
    requires BlockByBlock(clusters, mempool, blocks, chosen, stops, n, enforceLimit)
    requires |stops| == |blocks| + 1 && FilledBlock(clusters, mempool, block, picked, stops[|blocks|], to, enforceLimit || |blocks| < n - 1)
    ensures BlockByBlock(clusters, mempool, blocks + [block], chosen + [picked], stops + [to], n, enforceLimit)
  {
    hide FilledBlock, Start;
  }

  lemma StartPacked(clusters: map<nat, Cluster>, mempool: Pool, n: int, enforceLimit: bool)
    ensures Packed(clusters, Start(clusters), Output([])) && Merged(clusters, Start(clusters), Start(clusters), Joined([]))
    ensures BlockByBlock(clusters, mempool, [], [], [Start(clusters)], n, enforceLimit)
  {
    forall t ensures !PlacedTx(clusters, Start(clusters), t) {
    }
  }

  lemma OutputMore(blocks: seq<ProjectedBlock>, block: ProjectedBlock, chosen: seq<seq<Chunk>>, picked: seq<Chunk>)
    ensures Output(blocks + [block]) == Output(blocks) + block.txids
    ensures Joined(chosen + [picked]) == Joined(chosen) + picked
  {
    assert (blocks + [block])[..|blocks|] == blocks && (chosen + [picked])[..|chosen|] == chosen;
  }

  lemma NothingFits(clusters: map<nat, Cluster>, mempool: Pool, pos: Progress, entries: set<ChunkHeapEntry>, limited: bool)
    requires Frontier(clusters, mempool, pos, entries)
    requires if limited then forall e | e in entries :: !FitsAlone(e, Some(BLOCK_WEIGHT_UNITS), Some(MAX_BLOCK_SIGOPS_COST)) else entries == {}
    ensures Stuck(clusters, mempool, pos)
  {
    StuckWhenNoneFits(clusters, mempool, pos, entries);
  }

  lemma Outcome(clusters: map<nat, Cluster>, mempool: Pool, pos: Progress, entries: set<ChunkHeapEntry>)
    requires Frontier(clusters, mempool, pos, entries)
    ensures IsProgress(clusters, pos)
    ensures entries == {} ==> pos == Finished(clusters) && Stuck(clusters, mempool, pos)
    ensures Stuck(clusters, mempool, pos) && AllFit(clusters, mempool) ==> pos == Finished(clusters)
  {
    if entries == {} {
      FinishedWhenEmpty(clusters, mempool, pos);
    }
    if Stuck(clusters, mempool, pos) && AllFit(clusters, mempool) {
      FinishedWhenStuck(clusters, mempool, pos);
    }
  }
}
