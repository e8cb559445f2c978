# Mempool clusters, replacement trees and block templates

A Dafny model of the parts of the mempool backend that decide which transactions belong
together, in which order they would be mined, and how replacements are remembered, with proofs
of what these parts promise.

| files | what they model |
|---|---|
| Feerate, Graph, Options, SetSize | feerates compared by cross multiplication; dependency graphs, orders and sums |
| Chunking, Hull | cutting a linearization into chunks, and why the result is the upper concave hull |
| PostLinearize | the two improvement passes over a linearization |
| SflState, SpanningForest | the randomised, budgeted merging and splitting of chunks |
| SflRun, SflMinimal | which merges and cuts a run consists of, and why nothing is left to cut at its end |
| Kahn, Extraction | reading a linearization off chunks whose graph is acyclic |
| Components, Linearize | connected components, and the whole linearizer |
| Closure, DepGraph | the dependency graph objects with their ancestor and descendant sets |
| MempoolState, MempoolSteps, ClusterMempool | the clusters of a mempool under additions, removals and accelerations |
| BlockBuilder | packing chunk lists into blocks |
| RbfTrees, RbfCache, RbfDump | replacement trees, the indexes into them, and their dumps |
| PairingHeap | the priority queue, and when its root is the best element |
| AuditPool, MiniMiner | ancestor totals, and the greedy builder of one template |
| TxQueues, TxBlocks, TxSelection | the greedy builder of up to eight blocks: its queues, what its blocks should be, and its run |
| TxWitness | a pool for which it does not pick the best package |
| Prioritization | finding transactions that are out of fee-rate order in a block |
| FeeStats | fee rates at weight percentiles in one pass |

Conventions: fees and weights are integers and weights are positive, since every comparison in
the source is by cross multiplication or by a score that is a quotient of the two. Random choices,
and the order in which sets are walked, are arbitrary: every contract holds for all of them. An
infinite limit is a missing one. Classes stand for the source's objects with state; a dictionary
is a field of type `map`. A method with a long loop is cut at the loop body where that keeps its
contract readable.

## What the code does that its comments do not say

- `RbfCache.add` (backend/src/api/rbf-cache.ts:121) breaks the invariants of lines 55-60 when the
  new transaction is among the replaced ones; `RbfCache.Add` and `RbfCache.AddIsSafe` give the exact
  condition, `RbfCache.SelfReplacementSpoils` the smallest case.
- The worker can put an entry into its heap that is there already
  (backend/src/api/tx-selection-worker.ts:189-191); the older node is then forgotten and keeps its
  place when the score changes (lines 287-295), and a package can be picked although a better one
  waits and fits. `TxWitness.SecondBestPicked` gives the input: five transactions, of which one,
  spending two others, is put aside twice in the first block; in the second it loses its other
  parent, and its old node stays above a better transaction. `TxBlocks.FirstBlockBest`,
  `TxBlocks.SingleAncestorsBest` and `TxBlocks.BlockBeginsBest` say for which pools and blocks it
  cannot happen, and `TxSelection.MakeBlockTemplates` for which picks: a forgotten node is one of a
  transaction with an ancestor in an earlier block, and does harm only when another ancestor of it
  is placed. These conditions are sufficient and not necessary, since a forgotten node may happen
  to stand right.
- `postLinearize` (backend/src/cluster-mempool/linearize.ts:83-95) merges a group into one it depends
  on even if its own feerate is lower, so the fee-over-weight diagram can get worse;
  `PostLinearize.DiagramCanDrop` gives three transactions.
- `importTree` keeps an entry in `replaces` for a transaction that is not stored and yields no node
  (backend/src/api/rbf-cache.ts:519-524); `RbfDump.UnstoredListed`.
- `importTree` (backend/src/api/rbf-cache.ts:488-537) gives every node the mark it was called with,
  so the eviction after a restore (lines 422-424) never happens.
- A `ClusterMempool` built from a loaded mempool records only spends of present parents
  (backend/src/cluster-mempool/cluster-mempool.ts:164-167), while additions record all; a parent
  that arrives later can miss its loaded children, as `ClusterMempool.LateParentMissed` shows.
  Clusters agree with a rebuild if and only if no tracked transaction has a tracked child of which
  no spend from it is recorded (`ClusterMempool.IncrementalIsRebuild`); `ApplyMempoolChange` says how
  a diff changes that.
- `splitAndMerge` (backend/src/cluster-mempool/linearize.ts:767-786) always finds the split
  dependency between the two halves, so the branch behind `needsSelfMerge` never merges anything else.
- Both template builders append a package from its root down, so inside a block a child comes
  before its parents; ancestors are in the same block or before.

## Model

| member | source | states |
|---|---|---|
| Chunking.Chunkify | backend/src/cluster-mempool/linearize.ts:13-34 | The chunks concatenate to the linearization, carry exact sums, have non-increasing feerates, and every proper prefix of a chunk has a strictly lower feerate than the chunk |
| Hull.ChunkingUnique | backend/src/cluster-mempool/linearize.ts:13-34 | Only one list of chunks has these properties for a given linearization |
| Hull.HullDominates | backend/src/cluster-mempool/linearize.ts:13-34 | No prefix of the linearization rises above the line of any chunk in the fee-over-weight diagram, so the chunk ends are its upper concave hull |
| PostLinearize.Settle | backend/src/cluster-mempool/linearize.ts:83-95 | The last group ends where moving it left, absorbing and passing, leaves it; on the way feerates stay non-increasing left of it, right of it and around it; groups stay connected and the order topological; at rest the whole list is non-increasing |
| PostLinearize.BuildGroups | backend/src/cluster-mempool/linearize.ts:62-96 | The groups of one pass, each transaction settling in turn, are connected sets in non-increasing feerate (sign-adjusted) whose concatenation respects the direction of the pass |
| PostLinearize.PostLinearizePass | backend/src/cluster-mempool/linearize.ts:53-110 | A pass in either direction permutes the order topologically, and the result is a row of connected groups with non-increasing feerates, read from the front or the back |
| PostLinearize.PostLinearize | backend/src/cluster-mempool/linearize.ts:36-44 | The two passes together give a topological permutation that is grouped as the backward pass leaves it |
| PostLinearize.DiagramCanDrop | backend/src/cluster-mempool/linearize.ts:53-110 | Three transactions of one weight, a parent of fee 10, its child of fee 0 and an independent one of fee 6: the passes turn an order whose first chunk has feerate 10 into one whose first chunk has 8, so the fee-over-weight diagram can get worse |
| SpanningForest.CollectDirectDeps | backend/src/cluster-mempool/linearize.ts:207-215 | The dependency list holds every edge exactly once |
| SpanningForest.InitSFLChunks | backend/src/cluster-mempool/linearize.ts:229-248 | Every transaction starts alone in a chunk with its own fee and weight |
| SpanningForest.Forest.MergeChunks | backend/src/cluster-mempool/linearize.ts:250-268 | One chunk takes over the transactions and sums of the other, and the index follows |
| SpanningForest.Forest.ActivateInternalDeps | backend/src/cluster-mempool/linearize.ts:270-288 | Exactly the dependencies inside the chunk become active, the others keep their flag |
| SpanningForest.Forest.PickMergeCandidate | backend/src/cluster-mempool/linearize.ts:290-326 | The neighbour chosen is a best one among the chunks across a dependency in the given direction that the comparison admits, and none is returned only if there is none; covers the mirrored downward version |
| SpanningForest.Forest.PickRandomCrossChunkDep | backend/src/cluster-mempool/linearize.ts:502-529 | Whatever the random start, a dependency between the two chunks is found exactly if one exists |
| SpanningForest.Forest.MergeStep | backend/src/cluster-mempool/linearize.ts:328-390 | A step either absorbs the neighbour of lowest feerate among parent chunks that are not above it, or of highest among child chunks it is not above, or changes nothing because there is none; dependencies are active exactly inside chunks afterwards |
| SpanningForest.Forest.MakeTopological | backend/src/cluster-mempool/linearize.ts:392-449 | Terminates for every random choice, by merges alone; afterwards each dependency between two chunks has a parent chunk of strictly higher feerate, although chunks that never merged were tried in one direction only; the cost is at most six merges' worth for every transaction |
| SpanningForest.Forest.MergeUpwards | backend/src/cluster-mempool/linearize.ts:451-462 | The chunk absorbs parent chunks that are not above it, the lowest first, until all that are left are above it |
| SflState.FeerateOrderedLayered | backend/src/cluster-mempool/linearize.ts:392-449 | Strictly falling feerates along dependencies make the graph of chunks acyclic |
| SpanningForest.BfsReachable | backend/src/cluster-mempool/linearize.ts:568-587 | The visited set is the set reachable over active dependencies other than the skipped one |
| SpanningForest.Forest.ComputeDepTopSet | backend/src/cluster-mempool/linearize.ts:657-681 | Returns the parent's side with its exact sums when the dependency is a bridge of its chunk, and nothing exactly when no side is cut off by it alone |
| SpanningForest.Forest.PickDependencyToSplit | backend/src/cluster-mempool/linearize.ts:683-706 | The dependency chosen, as the only one across, cuts its chunk into a top of strictly higher feerate than the whole and the rest; none is returned exactly if no dependency of the chunk does |
| SpanningForest.Forest.NoneQualifies | backend/src/cluster-mempool/linearize.ts:683-706 | If no dependency qualifies, no bridge of a connected chunk has a parent side of higher feerate |
| SpanningForest.Forest.SplitChunk | backend/src/cluster-mempool/linearize.ts:708-765 | The chunk keeps one side of the bridge, a new chunk gets the other, all other chunks stay, and the graph of chunks stays acyclic |
| SpanningForest.SplitSelfMerge | backend/src/cluster-mempool/linearize.ts:767-786 | After a split the two halves are joined by the split dependency and by none the other way round, so the source's self-merge condition always holds and its branch never merges |
| SpanningForest.Forest.SplitAndMerge | backend/src/cluster-mempool/linearize.ts:708-788 | The chunk is cut at the bridge and nowhere else: one chunk gets the parent side, a new one the rest, each with exact sums; partition, active flags and an acyclic graph of chunks are kept, and budget is spent |
| SflState.SplitKeepsLayered | backend/src/cluster-mempool/linearize.ts:708-788 | Cutting a chunk at a bridge cannot create a cycle between chunks |
| SpanningForest.Forest.OptimizeSFL | backend/src/cluster-mempool/linearize.ts:589-655 | For every budget and random choice the phase does nothing but cut chunks at bridges whose parent side has a higher feerate; if the budget lasts, no chunk has such a bridge left; partition and an acyclic graph of chunks are kept |
| SpanningForest.Forest.MinimizeChunkStep | backend/src/cluster-mempool/linearize.ts:838-914 | Each step cuts at a bridge of equal feerate, tries the other direction later, or leaves a chunk without such a bridge; whichever chunk is not in the queue has none, unless a draw was exactly 0; the turns left get fewer |
| SpanningForest.Forest.PickLevelSplit | backend/src/cluster-mempool/linearize.ts:850-868 | Tells whether the chunk has a bridge of equal feerate, and picks one with the wanted side of the pivot; if no draw is 0, none is picked only if there is none on that side |
| SpanningForest.Forest.MinimizeSFL | backend/src/cluster-mempool/linearize.ts:797-836 | The phase does nothing but cut chunks at bridges of equal feerate; if the budget lasts and no draw is exactly 0, no chunk has such a bridge left, although a pivot is tried in at most two directions; what could not be split for a higher feerate still cannot |
| SflMinimal.SoundHalf | backend/src/cluster-mempool/linearize.ts:894-906 | Why a half may keep the stage of its pivot: its bridges of equal feerate are bridges of equal feerate of the whole chunk, with the pivot on the same side |
| SflMinimal.BuiltConnected | backend/src/cluster-mempool/linearize.ts:195-204 | Chunks that come about by raising and merging are connected |
| Kahn.Emit | backend/src/cluster-mempool/linearize.ts:997-1039 | Both emission loops: every node once, predecessors first, at each place the first in the comparison among the nodes that could stand there; non-increasing when no edge leads upwards |
| Extraction.EmitChunkTxs | backend/src/cluster-mempool/linearize.ts:1041-1085 | The transactions of a chunk in a topological order that always takes the first by feerate, weight and order among those ready |
| Extraction.EmitChunks | backend/src/cluster-mempool/linearize.ts:964-1039 | The chunks in an order that respects dependencies and always takes the first by feerate, weight and highest order among those ready |
| Extraction.ExtractLinearization | backend/src/cluster-mempool/linearize.ts:942-962 | From an acyclic partition, a linearization of all transactions made of the ordered chunks, each in its own order |
| Extraction.ChunkOrderMeans | backend/src/cluster-mempool/linearize.ts:916-940 | A chunk that was ready no later than a chunk before it does not have a higher feerate; at the same feerate not a higher weight, and at the same weight its highest order is not lower |
| Extraction.PieceOrderMeans | backend/src/cluster-mempool/linearize.ts:916-940 | The same for the transactions inside a chunk |
| SpanningForest.SortByFeerateDesc | backend/src/cluster-mempool/linearize.ts:217-227 | Independent transactions: a permutation by descending feerate, equal ones in their order |
| SpanningForest.SpanningForestLinearize | backend/src/cluster-mempool/linearize.ts:164-205 | For every acyclic graph, random choice, budget and existing linearization: each transaction exactly once, parents before children. Without dependencies, sorted by feerate. Otherwise read off chunks that come about in this way: from single transactions, the chunk of each transaction of the existing linearization absorbs its parents; merges lead on until feerates fall along every dependency; cuts at bridges of higher feerate, then of equal feerate, follow. With a budget at most the starting cost nothing is cut; with one above a stated bound no bridge of higher feerate is left and, if no draw is 0, none of equal feerate |
| Linearize.SplitChunkByComponents | backend/src/cluster-mempool/linearize.ts:1120-1164 | The pieces are exactly the connected components of the chunk, with exact sums, non-increasing and, among equal feerates, by where they begin in the chunk; each keeps the order of the chunk; together a topological permutation |
| Linearize.MinimizeChunks | backend/src/cluster-mempool/linearize.ts:1105-1118 | Each chunk in turn is replaced by its connected components, highest feerate first, each in the order of the chunk, without breaking the topological order |
| Linearize.CanonicalizeChunkOrder | backend/src/cluster-mempool/linearize.ts:1214-1314 | The same chunks in a new order that is again a chunking of a topological order, each chunk first by feerate, weight and highest order among those whose parent chunks are out |
| Linearize.LinearizeCluster | backend/src/cluster-mempool/linearize.ts:1198-1212 | Linearization and chunks belong together: topological order of all transactions, exact sums, hull chunks with non-increasing feerates, in canonical order; they are what the stages lead to: an answer of the forest or of sorting, the two passes over it, chunks, connected components, chunks again, and the canonical order of these |
| Linearize.RechunkSame | backend/src/cluster-mempool/linearize.ts:1198-1212 | Running chunkify on the returned linearization gives the returned chunks |
| Components.ComponentOf | backend/src/cluster-mempool/linearize.ts:1166-1196 | The search returns the connected component of its start |
| Components.FindComponents | backend/src/cluster-mempool/linearize.ts:1120-1140 | The components found are pairwise disjoint, cover everything, and are connected and closed |
| Components.ComponentUnique | backend/src/cluster-mempool/depgraph.ts:106-135 | Two components that share a transaction are equal, so the decomposition is unique |
| DepGraph.DepGraph.AddTransaction | backend/src/cluster-mempool/depgraph.ts:32-36 | A new unlinked transaction; ancestors and descendants stay the closure of the links; read as a value, the graph is the old one with the transaction added |
| DepGraph.DepGraph.AddDependency | backend/src/cluster-mempool/depgraph.ts:38-57 | The link is recorded on both sides and the ancestor and descendant sets of all objects become the closure of the links with it; links to outsiders change nothing; read as a value, the graph gains exactly this edge |
| DepGraph.DepGraph.RemoveTransactions | backend/src/cluster-mempool/depgraph.ts:59-78 | The transactions and their links are gone, also when some were never in the graph, and the sets are the closure of the remaining links; read as a value, the graph is the old one restricted to the rest |
| DepGraph.DepGraph.Rederive | backend/src/cluster-mempool/depgraph.ts:80-96 | Visiting by the size of the old ancestor sets rebuilds the closure, since parents come first in that order |
| DepGraph.DepGraph.FindConnectedComponents | backend/src/cluster-mempool/depgraph.ts:106-135 | The components of the undirected links, although the search follows ancestors and descendants |
| DepGraph.SortTopological | backend/src/cluster-mempool/depgraph.ts:139-141 | A permutation by number of ancestors |
| DepGraph.Subgraph | backend/src/cluster-mempool/depgraph.ts:143-165 | Fresh copies with the same data, linked exactly like the originals inside the subset, with closed sets, and as a value the restriction of the original; the original graph is untouched |
| Closure.AncestorsAreReachable | backend/src/cluster-mempool/depgraph.ts:38-57 | In any valid state the ancestors are exactly what leads to a transaction over zero or more parent links |
| Closure.LinkClosed | backend/src/cluster-mempool/depgraph.ts:47-57 | Joining all descendants of the child to all ancestors of the parent is enough to close the sets again |
| Closure.RemovalCountsUp | backend/src/cluster-mempool/depgraph.ts:80-96 | After a removal, a parent still has fewer recorded ancestors than its child |
| ClusterMempool.ClusterMempool.ApplyMempoolChange | backend/src/cluster-mempool/cluster-mempool.ts:63-69 | After every diff the invariant holds again: index and clusters inverse, clusters connected and clean, every cluster with what the linearizer answers for it. Every tracked transaction is in a cluster that carries its fee, or its fee plus its delta if accelerated, the larger of its weight and 20 for each sigop, and an edge for exactly the recorded spends. Tracked are the old ones without the removed and with the added; a parent has a tracked child without a recorded spend afterwards exactly if one that was not removed had it before, so an exact index stays exact if and only if no such parent is added |
| ClusterMempool.ClusterMempool.Plain | backend/src/cluster-mempool/cluster-mempool.ts:223-262 | Whenever the invariant holds, the cluster of a tracked transaction has its fee, plus its delta if there is one, its weight or 20 for each sigop, whichever is more, and exactly the recorded spends as edges |
| ClusterMempool.AfterPlain | backend/src/cluster-mempool/cluster-mempool.ts:63-69 | Tracked after a diff are exactly the old ones that were not removed, and the added ones, which replace old records |
| ClusterMempool.IncrementalIsRebuild | backend/src/cluster-mempool/cluster-mempool.ts:63-69 | However it came about, an index agrees with a rebuild over the same transactions and deltas on the cluster graph of every transaction if and only if no tracked transaction has a tracked child of which no spend from it is recorded |
| ClusterMempool.ClusterMempool.ExactIndex | backend/src/cluster-mempool/cluster-mempool.ts:63-69 | The clusters are a partition with exact graphs for all spends between tracked transactions if and only if no tracked transaction has a tracked child of which no spend from it is recorded |
| ClusterMempool.ExactComponent | backend/src/cluster-mempool/cluster-mempool.ts:63-69 | Every cluster of an exact index is a connected component of all spends between tracked transactions |
| ClusterMempool.ClusterMempool.ChildrenFound | backend/src/cluster-mempool/cluster-mempool.ts:471-480 | The children found for a new transaction are all its tracked children if and only if each of them has a recorded spend from it |
| ClusterMempool.LateParentMissed | backend/src/cluster-mempool/cluster-mempool.ts:164-167 | The failing case in two transactions: a child is loaded without its parent, the parent is added, and they end in different clusters |
| MempoolState.IndexUnique | backend/src/cluster-mempool/cluster-mempool.ts:149-155 | Connected clusters with exact graphs are determined by the tracked transactions |
| MempoolState.IndexComponent | backend/src/cluster-mempool/cluster-mempool.ts:149-155 | Every cluster is a connected component of the spends between tracked transactions |
| ClusterMempool.ClusterMempool.constructor | backend/src/cluster-mempool/cluster-mempool.ts:53-61 | An index built from a mempool satisfies the invariant, tracks exactly that mempool and is exact; clusters carry fees, deltas and weights as told and an edge for every spend; without a recorded spend are exactly the parents missing in the mempool |
| ClusterMempool.ClusterMempool.BuildFromMempool | backend/src/cluster-mempool/cluster-mempool.ts:149-155 | Building covers the whole mempool with components of all its spends, although only spends of present parents are recorded |
| ClusterMempool.BuildRelativeMaps | backend/src/cluster-mempool/cluster-mempool.ts:157-173 | The parent map is exact, and exactly the spends of present parents are recorded |
| ClusterMempool.RelativeEdges | backend/src/cluster-mempool/cluster-mempool.ts:188-221 | The links that the component search follows are exactly the spends inside the mempool |
| ClusterMempool.BuildGraph | backend/src/cluster-mempool/cluster-mempool.ts:223-262 | The graph built for a set of transactions has their fees, with the delta of the accelerated ones, the larger of weight and 20 for each sigop, their orders, and an edge for exactly the spends among them |
| ClusterMempool.ClusterMempool.CreateClusterFromTxids | backend/src/cluster-mempool/cluster-mempool.ts:231-283 | A component becomes a clean, linearized cluster, and the index keeps its invariant |
| ClusterMempool.ClusterMempool.ForgetSpends | backend/src/cluster-mempool/cluster-mempool.ts:352-363 | Dropping the spends of removed transactions keeps the records of all others |
| ClusterMempool.ClusterMempool.DropTransactions | backend/src/cluster-mempool/cluster-mempool.ts:352-376 | Removed transactions leave index and clusters; touched clusters are marked, empty ones deleted |
| ClusterMempool.ClusterMempool.ProcessRemovals | backend/src/cluster-mempool/cluster-mempool.ts:352-376 | Both together: the removed leave index and clusters, and the recorded spends are exactly those known of the others |
| ClusterMempool.ClusterMempool.SplitComponentToCluster | backend/src/cluster-mempool/cluster-mempool.ts:396-428 | One component moves to a new connected cluster and the index follows it |
| ClusterMempool.ClusterMempool.SplitOne | backend/src/cluster-mempool/cluster-mempool.ts:378-394 | A cluster that fell apart is replaced by its components; a connected one stays |
| ClusterMempool.ClusterMempool.SplitDisconnectedClusters | backend/src/cluster-mempool/cluster-mempool.ts:378-394 | Afterwards every cluster is connected |
| ClusterMempool.ClusterMempool.ProcessAccelerationChanges | backend/src/cluster-mempool/cluster-mempool.ts:599-623 | Every effective fee becomes mempool fee plus current delta, and only clusters with a changed fee become dirty |
| ClusterMempool.ClusterMempool.RecordSpends | backend/src/cluster-mempool/cluster-mempool.ts:430-450 | Every spend of a new transaction is recorded, present parent or not, and no parent gains a child without a record |
| ClusterMempool.ClusterMempool.FindRelatedParents | backend/src/cluster-mempool/cluster-mempool.ts:461-469 | The parents found are exactly the tracked transactions it spends from |
| ClusterMempool.ClusterMempool.FindRelatedChildren | backend/src/cluster-mempool/cluster-mempool.ts:471-480 | The children found are exactly the tracked transactions recorded as spending its outputs |
| ClusterMempool.ClusterMempool.FindRelatedClusters | backend/src/cluster-mempool/cluster-mempool.ts:452-483 | Parents and children are exactly the tracked relatives over recorded spends, also when the child came first, and the clusters are theirs |
| ClusterMempool.ClusterMempool.AddSingletonCluster | backend/src/cluster-mempool/cluster-mempool.ts:485-501 | A transaction without relatives becomes a cluster of its own |
| ClusterMempool.ClusterMempool.AddToExistingCluster | backend/src/cluster-mempool/cluster-mempool.ts:503-523 | The cluster gains the transaction and exactly its links |
| ClusterMempool.ClusterMempool.MergeClusterInto | backend/src/cluster-mempool/cluster-mempool.ts:574-597 | One cluster takes over the transactions and links of another, which disappears |
| ClusterMempool.ClusterMempool.MergeAndAddToCluster | backend/src/cluster-mempool/cluster-mempool.ts:525-554 | All related clusters become one connected cluster with the new transaction |
| ClusterMempool.ClusterMempool.AddOne | backend/src/cluster-mempool/cluster-mempool.ts:430-450 | One addition keeps the index exact for the recorded spends, whatever the parent, and the clusters connected |
| ClusterMempool.ClusterMempool.ProcessAdditions | backend/src/cluster-mempool/cluster-mempool.ts:430-450 | Any order of additions, child before parent included, tracks exactly the additions and leaves no further parent without a record of a child |
| ClusterMempool.ClusterMempool.RelinearizeOne | backend/src/cluster-mempool/cluster-mempool.ts:625-650 | A dirty cluster gets a new id, a linearization and chunks of its own transactions |
| ClusterMempool.ClusterMempool.RelinearizeDirtyClusters | backend/src/cluster-mempool/cluster-mempool.ts:625-650 | Afterwards no cluster is dirty |
| ClusterMempool.ClusterMempool.GetBlocks | backend/src/cluster-mempool/cluster-mempool.ts:71-73 | Projected blocks hold tracked transactions at most once, each after everything tracked it is known to spend, which is all it spends if the index is exact; each block, and the merge of all chunk lists into one unlimited block, takes the first chunk that fits at every place; limited blocks are within limits |
| PairingHeap.MergePairs | backend/src/utils/pairing-heap.ts:135-173 | The two loops over the children give what merging them in pairs and the pairs from the last on gives |
| PairingHeap.PairingHeap.Add | backend/src/utils/pairing-heap.ts:22-30 | The new node is melded with the root; the heap holds what it held and the element under a new node |
| PairingHeap.PairingHeap.Pop | backend/src/utils/pairing-heap.ts:38-46 | The element at the root, if any, is given and leaves with its node only; its children are merged |
| PairingHeap.PairingHeap.DeleteNode | backend/src/utils/pairing-heap.ts:48-74 | Exactly one node leaves, wherever it is, and what was below it is merged and melded again |
| PairingHeap.PairingHeap.IncreasePriority | backend/src/utils/pairing-heap.ts:77-100 | The node moves with all below it, unless it is the root or a first child whose parent beats it; the heap holds the same nodes |
| PairingHeap.PairingHeap.DecreasePriority | backend/src/utils/pairing-heap.ts:102-105 | The node is taken out alone and melded again; the heap holds the same nodes |
| PairingHeap.TopUnbeaten | backend/src/utils/pairing-heap.ts:33-35 | In a heap in order nothing beats the root |
| PairingHeap.MeldOrdered | backend/src/utils/pairing-heap.ts:107-133 | Melding keeps heaps in order |
| PairingHeap.MergeOrdered | backend/src/utils/pairing-heap.ts:135-173 | Merging ordered children gives a heap in order |
| PairingHeap.LoweredOrdered | backend/src/utils/pairing-heap.ts:102-105 | If only one node may be out of order, whichever way its priority went, decreasing puts the heap in order |
| PairingHeap.RaisedOrdered | backend/src/utils/pairing-heap.ts:77-100 | If only one node may be out of order, and only towards what is above it, increasing puts the heap in order |
| BlockBuilder.PriorityWeak | backend/src/cluster-mempool/block-builder.ts:28-37 | On positive weights, an entry that does not precede one that does not precede a third does not precede the third |
| BlockBuilder.FirstMeans | backend/src/cluster-mempool/block-builder.ts:28-37 | Against the next chunk of any other cluster that fits as well, the chunk placed has the higher feerate, or the same and the lighter run of equal feerate up to it, or the same and the lower highest order |
| BlockBuilder.ChunkHeap.RootFirst | backend/src/cluster-mempool/block-builder.ts:118-119 | The root of the heap of entries is one that no other precedes |
| BlockBuilder.ChunkHeap.Pop | backend/src/cluster-mempool/block-builder.ts:118-119 | Exactly that entry leaves the heap, and the heap stays in order |
| BlockBuilder.MakeChunkHeapEntry | backend/src/cluster-mempool/block-builder.ts:43-73 | The entry carries fee, weight and highest order of its chunk, the sum of its sigops, and the weight of all chunks from the first of the run of equal feerate up to it |
| BlockBuilder.RunWeight | backend/src/cluster-mempool/block-builder.ts:43-73 | The accumulated weight is the sum over exactly the chunks of the equal-feerate run that ends at the entry |
| BlockBuilder.ChunkWeight | backend/src/cluster-mempool/block-builder.ts:153-165 | The sum of the weights that the mempool has for the chunk's transactions |
| BlockBuilder.AmountsAreSums | backend/src/cluster-mempool/block-builder.ts:153-165 | Real weight and sigops of any list are the sums of what the mempool records for its transactions, nothing for others |
| BlockBuilder.RealWeightBounded | backend/src/cluster-mempool/cluster-mempool.ts:227-229 | The real weight of a chunk is at most its adjusted weight |
| BlockBuilder.BuildChunkHeap | backend/src/cluster-mempool/block-builder.ts:75-83 | One entry for the first chunk of every cluster that has one |
| BlockBuilder.FillBlock | backend/src/cluster-mempool/block-builder.ts:106-151 | Each chunk placed is first in priority among the next chunks of all clusters that still fit; the block interleaves them in non-increasing feerate, its weight is 8000 and the sum of its transactions' weights, its sigops the sum of theirs, both strictly below the limits; what is deferred waits again; unless the block is within 4000 of its weight limit and there are over a thousand clusters, no waiting chunk fits any more; an unlimited block takes everything |
| BlockBuilder.AssembleBlocks | backend/src/cluster-mempool/block-builder.ts:85-104 | Over all blocks each cluster contributes a prefix of its chunks in order, each transaction once and after its parents; every block goes on where the one before it stopped, always with the chunk first in priority among those that fit, in non-increasing feerate; its weight is 8000 and the sum of its transactions' weights, its sigops the sum of theirs; limited blocks stay below 4,000,000 weight and 80,000 sigops, and end when no next chunk fits or when they are nearly full and clusters are over a thousand; if blocks run out early, or the last block is unlimited, every cluster not used up has a next chunk that fits no empty block; so all is placed when every chunk fits or one unlimited block is asked for |
| BlockBuilder.PlaceChunk | backend/src/cluster-mempool/block-builder.ts:118-134 | Placing the next chunk of a cluster keeps every transaction single and behind its parents |
| BlockBuilder.MergedConcat | backend/src/cluster-mempool/block-builder.ts:85-104 | Interleavings of consecutive blocks make one interleaving of the chunk lists |
| BlockBuilder.FinishedHoldsAll | backend/src/cluster-mempool/block-builder.ts:85-104 | A finished packing holds exactly the transactions of the clusters |
| BlockBuilder.SpentBefore | backend/src/cluster-mempool/block-builder.ts:85-104 | In any packing, complete or not, what a transaction spends comes before it |
| RbfCache.RbfCache.Add | backend/src/api/rbf-cache.ts:121-186 | If the new transaction is unknown and one of the replaced is not replaced yet: those not replaced yet now are, by it; their trees, or leaves for the unknown, are its children in the order of the first mention of each, with their intervals; every transaction below is mapped to it; stored are the old, the new and the replaced. Otherwise nothing changes. The indexes describe one forest afterwards if and only if nothing changed or the new transaction is not among the replaced |
| RbfCache.ReplacesNow | backend/src/api/rbf-cache.ts:121-186 | The indexes after a replacement, entry by entry: links, tree map, stored transactions, and the new tree with the tree or leaf that stood for each child |
| RbfCache.AddIsSafe | backend/src/api/rbf-cache.ts:121-186 | A replacement that is not passed over leaves a complete forest exactly if the new transaction is not among the replaced |
| RbfCache.SelfReplacementSpoils | backend/src/api/rbf-cache.ts:121-186 | The failing case: a transaction that replaces itself makes an empty cache inconsistent |
| RbfCache.AddedForest | backend/src/api/rbf-cache.ts:139-185 | Trees that become children of a new root keep all indexes in step, with exact fullRbf flags and stored transactions |
| RbfCache.Symmetry | backend/src/api/rbf-cache.ts:55-60 | Documented invariant: A is replaced by B exactly if B lists A |
| RbfCache.UniqueId | backend/src/api/rbf-cache.ts:55-60 | Documented invariants: tree ids are fixed points of the tree index and name stored trees |
| RbfCache.UniqueTree | backend/src/api/rbf-cache.ts:55-60 | Documented invariant: a replaced transaction is tracked in the tree of what replaced it |
| RbfCache.RootOf | backend/src/api/rbf-cache.ts:328-346 | A tracked transaction is unreplaced exactly if it is the id of its tree |
| RbfCache.RbfCache.UpdateTreeMap | backend/src/api/rbf-cache.ts:348-353 | Exactly the transactions of the tree are mapped to the new id |
| RbfCache.RbfCache.Remove | backend/src/api/rbf-cache.ts:328-346 | Terminates; nothing changes if a newer version exists, otherwise exactly the transactions of the tree leave every index |
| RbfCache.RemovedComplete | backend/src/api/rbf-cache.ts:328-346 | Removing a whole tree leaves a complete forest |
| RbfCache.RbfCache.Mined | backend/src/api/rbf-cache.ts:188-203 | Exactly one transaction of one tree, and that tree, get the mark; the forest is kept and the expiry set |
| RbfTrees.SetTreeMinedMarks | backend/src/api/rbf-cache.ts:363-371 | Marking adds exactly the mined transaction to the marked ones, wherever in the tree it is |
| RbfCache.RbfCache.Evict | backend/src/api/rbf-cache.ts:206-212 | The expiry of a stored transaction is set to a day from now once, or to ten minutes from now when fast; otherwise nothing changes |
| RbfCache.RbfCache.Cleanup | backend/src/api/rbf-cache.ts:315-325 | Exactly the trees whose root is overdue go, with all their transactions; all other entries stay as they were, and overdue dates are dropped |
| RbfDump.ExportTree | backend/src/api/rbf-cache.ts:467-486 | The dump holds a record of every transaction of the tree and nothing else changes in it |
| RbfDump.ImportTree | backend/src/api/rbf-cache.ts:488-537 | The tree restored from a dump, with stale and known transactions left out, and both link indexes, whatever is stored; when everything is stored and new, they describe the tree exactly |
| RbfDump.UnstoredListed | backend/src/api/rbf-cache.ts:505-524 | A transaction of the dump that is not stored yields no node, but an entry of its own in the index of what it replaced, to which all restored below it point |
| RbfDump.ImportedAll | backend/src/api/rbf-cache.ts:488-537 | Everything is restored in place: shape, order, times, intervals, tree flags, mined marks of transactions; only tree marks and transaction-level fullRbf are lost |
| RbfDump.LoadTree | backend/src/api/rbf-cache.ts:411-430 | A restored tree joins the cache and the indexes stay one forest |
| RbfDump.Dump | backend/src/api/rbf-cache.ts:400-408 | The stored transactions, one dump for each tree, and the expiry times |
| RbfDump.Load | backend/src/api/rbf-cache.ts:411-440 | Restoring the dumps of a forest, in any order, into a new cache gives the same trees, up to marks of whole trees and of full replacement, the same index and stored transactions, the expiry times of what is stored, and a complete forest |
| Prioritization.BinarySearch | backend/src/api/transaction-utils.ts:406-416 | The first length whose end has a higher rate |
| Prioritization.LongestRising | backend/src/api/transaction-utils.ts:398-444 | A rising subsequence that no other exceeds in length |
| Prioritization.BestEndsNext | backend/src/api/transaction-utils.ts:404-432 | After each element, every rising subsequence of the prefix ends no lower than the recorded end of its length |
| Prioritization.IdentifyPrioritizedTransactions | backend/src/api/transaction-utils.ts:389-466 | Of at least three transactions the two lists are those out of the longest rising run and off by a tenth or more from the last one in order, split by the side they are off; of fewer, nothing |
| Prioritization.SplitMeans | backend/src/api/transaction-utils.ts:448-463 | In plain terms: named are exactly the transactions out of the run whose rate is at least a tenth below, or above, the rate that the run has when it comes to them |
| Prioritization.PickedMeans | backend/src/api/transaction-utils.ts:448-463 | A transaction is named exactly if it is not in the longest run and off by at least a tenth on that side |
| Prioritization.SplitBound | backend/src/api/transaction-utils.ts:448-463 | Together at most as many are named as any rising subsequence leaves out |
| Prioritization.SplitDisjoint | backend/src/api/transaction-utils.ts:448-463 | With distinct transactions none is named twice and none of the longest run is named |
| Prioritization.SplitSorted | backend/src/api/transaction-utils.ts:389-466 | Nothing is named in a block that is already in order |
| FeeStats.OnlineFeeStatsCalculator.constructor | backend/src/api/common.ts:1270-1283 | One band at each end is added; for percentiles in order the calculator starts valid, bands that overlap counting from where the one before them ends |
| FeeStats.BandsCentered | backend/src/api/common.ts:1270-1283 | Bands that are apart are centred on their percentile of the maximum weight and have the width asked for |
| FeeStats.OnlineFeeStatsCalculator.ProcessNext | backend/src/api/common.ts:1285-1318 | After any stream the reported bands and the band in progress are those computed from the whole stream |
| FeeStats.OnlineFeeStatsCalculator.SetNextBounds | backend/src/api/common.ts:1320-1329 | The bounds are those of the next band, or none |
| FeeStats.OnlineFeeStatsCalculator.GetRawFeeStats | backend/src/api/common.ts:1331-1345 | Every band gets the figures of its own offline computation, unreached ones 0, highest band first |
| FeeStats.OnlineFeeStatsCalculator.GetFeeStats | backend/src/api/common.ts:1347-1352 | The same with lowest and highest rate at the ends |
| FeeStats.AllOffline | backend/src/api/common.ts:1285-1318 | Online equals offline for finished, current and later bands |
| FeeStats.OfflineMeans | backend/src/api/common.ts:1285-1318 | The average of a passed band is the integral of the rate step function over it divided by its width, with lowest and highest rate over exactly the overlapping transactions |
| FeeStats.OfflineSplit | backend/src/api/common.ts:1285-1318 | Splitting a transaction in two of the same rate changes no figure |
| FeeStats.UniformStream | backend/src/api/common.ts:1285-1318 | A stream of one rate gives that rate as lowest, average and highest figure of every band it reaches |
| AuditPool.AuditPool.SetRelatives | backend/src/api/mini-miner.ts:418-446 | Gathers the ancestors of a transaction and of those it depends on, with exact totals, touching nothing else; the same procedure as in the worker |
| AuditPool.AuditPool.SetAllRelatives | backend/src/api/mini-miner.ts:317-322 | Every ancestor map is complete, although a parent that is already an ancestor is not recorded as having the child |
| AuditPool.AncestorsAreReached | backend/src/api/tx-selection-worker.ts:226-254 | The ancestor sets are exactly what is reached over one or more spends |
| AuditPool.AuditPool.UpdateDescendants | backend/src/api/mini-miner.ts:450-494 | Takes a placed transaction out of the ancestors and totals of exactly its descendants, each once, and queues those not queued yet; tells which were visited; the same procedure as in the worker |
| AuditPool.ReachesAll | backend/src/api/tx-selection-worker.ts:258-308 | The recorded children reach every descendant, although some parent links are not recorded |
| MiniMiner.SelectNext | backend/src/api/mini-miner.ts:336-357 | The package root chosen has the highest ancestor feerate among all unused transactions not put aside; it is the first by score and then order of its queue, and one queued again goes before a waiting one of the same score |
| MiniMiner.SortedPackage | backend/src/api/mini-miner.ts:362-365 | The unused ancestors sorted by their number of unused ancestors, and the root, form a package with ancestors first |
| MiniMiner.PlacePackage | backend/src/api/mini-miner.ts:362-391 | The package enters the template from its root down, and maps, totals and queues are exact again |
| MiniMiner.MakeBlockTemplate | backend/src/api/mini-miner.ts:273-414 | Terminates with distinct transactions in whole packages; each package has room when chosen and is a best one of those that always had; with one block every candidate is placed; with more, weight and sigops stay within the limits, and what is not placed had no room at some time, or the block is within 4000 of its weight limit and there are more than five hundred candidates |
| MiniMiner.OneBlockOffersAll | backend/src/api/mini-miner.ts:360-360 | With one block nothing is ever refused, so each package is a best one of all unplaced candidates |
| MiniMiner.PlacedClosed | backend/src/api/mini-miner.ts:362-391 | What is placed is placed with all its ancestors |
| TxQueues.RebalancedOrder | backend/src/api/tx-selection-worker.ts:258-308 | While the scores of descendants change one after the other, new nodes and moved nodes keep the heap in order, unless a transaction whose score changes has a node it does not know |
| TxQueues.UpdateKeepsOrder | backend/src/api/tx-selection-worker.ts:258-308 | The update after a placed transaction keeps the heap in order unless a descendant of it has an ancestor in an earlier block |
| TxQueues.BackToHeap | backend/src/api/tx-selection-worker.ts:189-191 | An entry put back into the heap, whether it is there already or not, loses no unplaced transaction, and only marked ones have nodes they do not know |
| TxSelection.Worker.SelectNext | backend/src/api/tx-selection-worker.ts:101-120 | What is chosen, what is left of the array and the heap are those of comparing the first entry that is neither placed nor marked with the root of the heap; while the heap is in order, the package chosen has the highest ancestor feerate among all unplaced transactions not put aside |
| TxSelection.Worker.RootLeads | backend/src/api/tx-selection-worker.ts:90-97 | While the heap is in order, its root has the highest recorded score, and the highest place among those that share it |
| TxSelection.Worker.UpdateOne | backend/src/api/tx-selection-worker.ts:258-308 | Ancestors, totals and marks of exactly the descendants change, and the heap follows them one by one; it stays in order if no descendant has an ancestor in an earlier block |
| TxSelection.Worker.Place | backend/src/api/tx-selection-worker.ts:125-165 | A package that fits keeps every block right and every remaining total exact; the heap follows every placed transaction |
| TxSelection.Worker.Step | backend/src/api/tx-selection-worker.ts:101-171 | What is chosen is placed if it fits, put aside if it does not, and dropped if it was placed before; array, heap, marks, weight and block afterwards are exactly those |
| TxSelection.Worker.Recycle | backend/src/api/tx-selection-worker.ts:189-196 | Packages put aside return to the heap, from the last on, or to the slots before the top in their order; no unconsumed slot is overwritten and no unplaced transaction is lost |
| TxSelection.Worker.EndBlock | backend/src/api/tx-selection-worker.ts:174-200 | When the queues are empty or a thousand packages in a row failed to fit a nearly full block, a block with transactions is closed and everything put aside waits again; an empty block stops |
| TxSelection.Worker.EndsNow | backend/src/api/tx-selection-worker.ts:173-187 | At that moment every unplaced candidate has failed to fit this block, or the block is nearly full and candidates and their ancestors are over a thousand |
| TxSelection.Worker.NotSmall | backend/src/api/tx-selection-worker.ts:173-177 | Over a thousand packages in a row can fail to fit only if candidates and their ancestors together are more than a thousand |
| TxSelection.Worker.AllAside | backend/src/api/tx-selection-worker.ts:174-185 | When nothing waits, whatever is unplaced is aside, and too big for an empty block if the block is empty |
| TxSelection.MakeBlockTemplates | backend/src/api/tx-selection-worker.ts:35-222 | Terminates with at most eight blocks: no transaction twice, ancestors in the same or an earlier block, the first seven below 4,000,000 weight with the 4000 reserve; a limited block ends only if every candidate unplaced by then failed to fit in it, or if it is within 4000 of the limit and candidates and their ancestors are over a thousand; everything is placed, or else every remaining package is too big for an empty block; the blocks are rows of whole packages that fit when picked, and each is of highest ancestor feerate among all that fitted the block all the time, if the heap was in order when the block began and nothing placed in it before has a descendant with an ancestor in an earlier block |
| TxBlocks.RejectedMeans | backend/src/api/tx-selection-worker.ts:122-171 | A candidate failed to fit a block if and only if, at some time, its package with what the block held reached the limit of 4,000,000 weight or had more than 80,000 sigops of its own |
| TxBlocks.FirstBlockBest | backend/src/api/tx-selection-worker.ts:101-165 | In the first block every package picked is of highest ancestor feerate among those that fitted all the time |
| TxBlocks.SingleAncestorsBest | backend/src/api/tx-selection-worker.ts:101-165 | If no transaction has two ancestors, so is every package of every block |
| TxBlocks.BlockBeginsBest | backend/src/api/tx-selection-worker.ts:101-200 | The first package of a block is of highest ancestor feerate among all that fit an empty block: for every block if candidates and their ancestors together are at most a thousand, for the first two blocks in any pool, and for every block after one that is not within 4000 of the weight limit |
| TxWitness.SecondBestPicked | backend/src/api/tx-selection-worker.ts:101-200 | A run of the builder over five transactions that ends with a package picked in the second block although one of higher ancestor feerate waits and fitted all the time |

## Left out

- SpanningForest.Forest.OptimizeSFL: states that no single cut can improve a chunk when the budget lasts, not that the result is an optimal linearization, which the source does not reach either: every dependency inside a chunk is active, so only bridges can be split. With a smaller budget which chunks were tried is left to chance.
- SpanningForest.Forest.MinimizeSFL: asks that no tiebreak drawn is exactly 0, since the source would then pass over the only split; the draws are a parameter, all other random choices are arbitrary.
- SpanningForest.SpanningForestLinearize: its budget bound is a sufficient one, 40 * (transactions + dependencies + 1) for each turn there can be.
- PostLinearize.PostLinearize: does not state that the diagram never gets worse, because it is false, as PostLinearize.DiagramCanDrop shows.
- SpanningForest.Forest.MergeStep: `mergeStepUp` and `mergeStepDown`, and the two candidate searches, are one method with a direction, since they mirror each other.
- SpanningForest.Forest.PickRandomCrossChunkDep: the reservoir choice is any matching dependency; its distribution is not modelled.
- ClusterMempool.ClusterMempool.ApplyMempoolChange: clusters hold their graph as a value, so aliasing of transaction objects between a cluster, its map and its graph is not captured here; DepGraph models the objects and their sets in place. It covers callers that drop removed transactions from the mempool before the call (backend/src/api/mempool.ts:383-399) and callers that do not.
- ClusterMempool.ClusterMempool.GetBlocks: asks that the mempool still has the records of tracked transactions unchanged.
- RbfCache.RbfCache.Cleanup: the time is a parameter; timers, logging and the counters are not modelled.
- RbfDump.Load: network lookups, reconnection of conflicts and the check of the trees after a restore are not modelled, nor are damaged dumps.
- RbfDump.ImportTree: the replacement flag on mempool transactions is not modelled.
- TxSelection.MakeBlockTemplates: effective rates and dirty flags are not modelled; the cluster lists are the packages picked. There is no bound on the sigops of a block, since the source never counts them.
- PairingHeap.PairingHeap.IncreasePriority: nodes are values with numbers for their identity; child, next and previous pointers, and what a removed node still points to, are not modelled.
- MiniMiner.MakeBlockTemplate: effective rates and cluster lists of the placed transactions are not modelled; rates are compared as exact quotients.
- FeeStats.OnlineFeeStatsCalculator.ProcessNext: rates and weights are reals, so rounding is not modelled.
- FeeStats.OnlineFeeStatsCalculator.constructor: asks for percentiles in ascending order, each once, after half a band from the start and before half a band from the end.
- FeeStats.OnlineFeeStatsCalculator.GetRawFeeStats: describes the first call, since a second one would append the unfinished band again.
- FeeStats.OnlineFeeStatsCalculator.GetFeeStats: describes the first call, for the same reason.
- Prioritization.IdentifyPrioritizedTransactions: rates are reals; missing rates are not modelled.
- Transaction ids are numbers; only their identity and order matter here.
- The event queue and the list of changed trees of the RBF cache, and its paginated queries.
- Writing clusters back to mempool transactions, and the queries that only read a cluster.
- Database, indexer, routes, websocket and configuration code.
