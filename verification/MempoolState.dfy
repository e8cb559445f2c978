/** What the clusters of a mempool should be: for given transactions and accelerations, the
    connected components of the spends between them. */
module MempoolState {
  import opened Feerate
  import opened Graph
  import opened Components
  import Chunking
  import Linearize

  datatype Vin = Vin(txid: Txid, vout: nat, isCoinbase: bool)

  /** The parts of a mempool transaction that clusters depend on; `vouts` counts its outputs. */
  datatype MempoolTx = MempoolTx(txid: Txid, fee: int, weight: Weight, sigops: nat, order: nat, vin: seq<Vin>, vouts: nat)

  type Pool = map<Txid, MempoolTx>

  /** Fee deltas of accelerated transactions. */
  type Deltas = map<Txid, int>

  type Outpoint = (Txid, nat)

  function Delta(accelerations: Deltas, t: Txid): int {
    if t in accelerations then accelerations[t] else 0
  }

  function EffectiveFee(accelerations: Deltas, tx: MempoolTx, t: Txid): int {
    tx.fee + Delta(accelerations, t)
  }

  /** Sigops count for at least 20 weight units each. */
  function AdjustedWeight(tx: MempoolTx): Weight {
    if tx.weight < tx.sigops * 20 then tx.sigops * 20 else tx.weight
  }

  predicate SpendsFrom(tx: MempoolTx, p: Txid) {
    exists v | v in tx.vin :: !v.isCoinbase && v.txid == p
  }

  predicate SpendsOutpoint(tx: MempoolTx, o: Outpoint) {
    exists v | v in tx.vin :: !v.isCoinbase && v.txid == o.0 && v.vout == o.1
  }

  /** The spends between the transactions `nodes`. */
  function SpendEdges(txs: Pool, nodes: set<Txid>): set<(Txid, Txid)>
    requires nodes <= txs.Keys
  {
    set p, c | p in nodes && c in nodes && SpendsFrom(txs[c], p) :: (p, c)
  }

  /** The dependency graph that a cluster over `nodes` should have. */
  function GraphOf(txs: Pool, accelerations: Deltas, nodes: set<Txid>): Graph
    requires nodes <= txs.Keys
  {
    Graph(map t | t in nodes :: EffectiveFee(accelerations, txs[t], t),
          map t | t in nodes :: AdjustedWeight(txs[t]),
          map t | t in nodes :: txs[t].order,
          SpendEdges(txs, nodes))
  }

  datatype Cluster = Cluster(id: nat, graph: Graph, linearization: seq<Txid>, chunks: seq<Chunking.Chunk>, dirty: bool)

  /** The index and the clusters are inverse to each other. */
  ghost predicate Inverse(clusters: map<nat, Cluster>, txToCluster: map<Txid, nat>) {
    && (forall t | t in txToCluster :: txToCluster[t] in clusters && t in clusters[txToCluster[t]].graph.Nodes())
    && (forall id, t | id in clusters && t in clusters[id].graph.Nodes() :: t in txToCluster && txToCluster[t] == id)
  }

  ghost predicate Numbered(clusters: map<nat, Cluster>, next: nat) {
    forall id | id in clusters :: id < next && clusters[id].id == id
  }

  ghost predicate AllExactGraphs(txs: Pool, accelerations: Deltas, clusters: map<nat, Cluster>) {
    forall id | id in clusters :: ExactGraph(txs, accelerations, clusters[id].graph)
  }

  /** No spend joins two clusters. */
  ghost predicate Together(txs: Pool, txToCluster: map<Txid, nat>)
    requires txToCluster.Keys == txs.Keys
  {
    forall p, c | p in txs && c in txs && SpendsFrom(txs[c], p) :: txToCluster[p] == txToCluster[c]
  }

  /** Clusters and the index into them partition the tracked transactions, no spend joins two
      clusters, and every graph is the one a rebuild would make. */
  ghost predicate Indexed(txs: Pool, accelerations: Deltas, clusters: map<nat, Cluster>, txToCluster: map<Txid, nat>, next: nat) {
    && txToCluster.Keys == txs.Keys
    && Inverse(clusters, txToCluster)
    && Numbered(clusters, next)
    && AllExactGraphs(txs, accelerations, clusters)
    && Together(txs, txToCluster)
  }

  ghost predicate ExactGraph(txs: Pool, accelerations: Deltas, g: Graph) {
    g.Nodes() <= txs.Keys && g == GraphOf(txs, accelerations, g.Nodes())
  }

  /** The cluster cannot be divided. */
  ghost predicate Whole(c: Cluster) {
    Connected(c.graph.edges, c.graph.Nodes())
  }

  /** Linearization and chunks belong to the graph. */
  ghost predicate Linearized(c: Cluster) {
    Linearize.IsLinearized(c.graph, c.linearization, c.chunks)
  }

  /** They are what the linearizer answers for some existing linearization. */
  ghost predicate Answered(costBudget: int, c: Cluster) {
    exists given: seq<Txid>, stages: Linearize.Stages :: Linearize.IsAnswer(c.graph, costBudget, given, stages, c.linearization, c.chunks)
  }

  // ---------- the graph of a set of transactions

  lemma SpendEdge(txs: Pool, nodes: set<Txid>, p: Txid, c: Txid)
    requires nodes <= txs.Keys
    ensures (p, c) in SpendEdges(txs, nodes) <==> p in nodes && c in nodes && SpendsFrom(txs[c], p)
  {
  }

  lemma GraphOfWellFormed(txs: Pool, accelerations: Deltas, nodes: set<Txid>)
    requires nodes <= txs.Keys
    ensures GraphOf(txs, accelerations, nodes).WellFormed() && GraphOf(txs, accelerations, nodes).Nodes() == nodes
  {
  }

  /** The graph depends only on the records and deltas of its own transactions. */
  lemma GraphOfSame(txs: Pool, txs': Pool, acc: Deltas, acc': Deltas, nodes: set<Txid>)
    requires nodes <= txs.Keys && nodes <= txs'.Keys
    requires forall t | t in nodes :: txs[t] == txs'[t] && Delta(acc, t) == Delta(acc', t)
    ensures GraphOf(txs, acc, nodes) == GraphOf(txs', acc', nodes)
  {
    SameFields(txs, txs', acc, acc', nodes);
    hide SpendsFrom, EffectiveFee, AdjustedWeight, GraphOf;
    GraphFields(txs, acc, nodes);
    GraphFields(txs', acc', nodes);
  }

  lemma SameFields(txs: Pool, txs': Pool, acc: Deltas, acc': Deltas, nodes: set<Txid>)
    requires nodes <= txs.Keys && nodes <= txs'.Keys
    requires forall t | t in nodes :: EffectiveFee(acc, txs[t], t) == EffectiveFee(acc', txs'[t], t)
    requires forall t | t in nodes :: AdjustedWeight(txs[t]) == AdjustedWeight(txs'[t]) && txs[t].order == txs'[t].order
    ensures var g, g' := GraphOf(txs, acc, nodes), GraphOf(txs', acc', nodes);
            g.fee == g'.fee && g.weight == g'.weight && g.order == g'.order
  {
    hide SpendEdges, EffectiveFee, AdjustedWeight;
    var g, g' := GraphOf(txs, acc, nodes), GraphOf(txs', acc', nodes);
    SameMaps(g.fee, g'.fee);
    SameMaps(g.weight, g'.weight);
    SameMaps(g.order, g'.order);
  }

  /** Part of a graph: the chosen transactions and the spends between them. */
  function Restrict(g: Graph, keep: set<Txid>): Graph {
    Graph(map t | t in g.fee && t in keep :: g.fee[t],
          map t | t in g.weight && t in keep :: g.weight[t],
          map t | t in g.order && t in keep :: g.order[t],
          set e | e in g.edges && e.0 in keep && e.1 in keep)
  }

  lemma RestrictExact(txs: Pool, acc: Deltas, nodes: set<Txid>, keep: set<Txid>)
    requires nodes <= txs.Keys && keep <= nodes
    ensures Restrict(GraphOf(txs, acc, nodes), keep) == GraphOf(txs, acc, keep)
  {
    hide SpendsFrom, AdjustedWeight;
    var g, g' := Restrict(GraphOf(txs, acc, nodes), keep), GraphOf(txs, acc, keep);
    assert g.fee == g'.fee && g.weight == g'.weight && g.order == g'.order;
    forall p: Txid, c: Txid ensures (p, c) in g.edges <==> (p, c) in g'.edges {
      SpendEdge(txs, nodes, p, c);
      SpendEdge(txs, keep, p, c);
    }
  }

  /** Connectivity only looks at the edges inside the set. */
  lemma ConnectedSame(edges: set<(Txid, Txid)>, edges': set<(Txid, Txid)>, s: set<Txid>)
    requires forall p, c | p in s && c in s :: (p, c) in edges <==> (p, c) in edges'
    ensures Connected(edges, s) <==> Connected(edges', s)
  {
    forall u | u <= s ensures ClosedIn(edges, s, u) <==> ClosedIn(edges', s, u) {
    }
  }

  // ---------- uniqueness

  /** Two states that index the same transactions agree on every cluster. */
  lemma IndexUnique(txs: Pool, acc: Deltas, a: map<nat, Cluster>, at: map<Txid, nat>, an: nat, b: map<nat, Cluster>, bt: map<Txid, nat>, bn: nat, t: Txid)
    requires Indexed(txs, acc, a, at, an) && forall id | id in a :: Whole(a[id])
    requires Indexed(txs, acc, b, bt, bn) && forall id | id in b :: Whole(b[id])
    requires t in txs
    ensures a[at[t]].graph == b[bt[t]].graph
  {
    hide SpendEdges, Whole, IsComponent, GraphOf;
    var A, B := a[at[t]].graph.Nodes(), b[bt[t]].graph.Nodes();
    IndexComponent(txs, acc, a, at, an, at[t]);
    IndexComponent(txs, acc, b, bt, bn, bt[t]);
    ComponentUnique(SpendEdges(txs, txs.Keys), txs.Keys, A, B, t);
    assert ExactGraph(txs, acc, a[at[t]].graph) && ExactGraph(txs, acc, b[bt[t]].graph);
  }

  /** Every cluster is a connected component of the spends. */
  lemma IndexComponent(txs: Pool, acc: Deltas, clusters: map<nat, Cluster>, txToCluster: map<Txid, nat>, next: nat, id: nat)
    requires Indexed(txs, acc, clusters, txToCluster, next) && id in clusters && Whole(clusters[id])
    ensures IsComponent(SpendEdges(txs, txs.Keys), txs.Keys, clusters[id].graph.Nodes())
  {
    var g := clusters[id].graph;
    assert ExactGraph(txs, acc, g);
    forall p, c | p in g.Nodes() && c in g.Nodes() ensures (p, c) in g.edges <==> (p, c) in SpendEdges(txs, txs.Keys) {
      SpendEdge(txs, g.Nodes(), p, c);
      SpendEdge(txs, txs.Keys, p, c);
    }
    ConnectedSame(g.edges, SpendEdges(txs, txs.Keys), g.Nodes());
  }

  // ---------- growing a graph

  function AddTransaction(g: Graph, t: Txid, fee: int, weight: Weight, order: nat): Graph {
    Graph(g.fee[t := fee], g.weight[t := weight], g.order[t := order], g.edges)
  }

  /** Links to outsiders are ignored. */
  function AddDependency(g: Graph, parent: Txid, child: Txid): Graph {
    if parent in g.Nodes() && child in g.Nodes() then g.(edges := g.edges + {(parent, child)}) else g
  }

  function Union(a: Graph, b: Graph): Graph {
    Graph(a.fee + b.fee, a.weight + b.weight, a.order + b.order, a.edges + b.edges)
  }

  lemma UnionExact(txs: Pool, acc: Deltas, a: set<Txid>, b: set<Txid>)
    requires a <= txs.Keys && b <= txs.Keys
    requires forall p, c | p in a && c in b :: !SpendsFrom(txs[c], p) && !SpendsFrom(txs[p], c)
    ensures Union(GraphOf(txs, acc, a), GraphOf(txs, acc, b)) == GraphOf(txs, acc, a + b)
  {
    hide SpendsFrom, SpendEdges, GraphOf;
    UnionEdges(txs, a, b);
    GraphFields(txs, acc, a);
    GraphFields(txs, acc, b);
    GraphFields(txs, acc, a + b);
    UnionFields(txs, acc, a, b);
  }

  lemma UnionFields(txs: Pool, acc: Deltas, a: set<Txid>, b: set<Txid>)
    requires a <= txs.Keys && b <= txs.Keys
    ensures var u, g := Union(GraphOf(txs, acc, a), GraphOf(txs, acc, b)), GraphOf(txs, acc, a + b);
            u.fee == g.fee && u.weight == g.weight && u.order == g.order
  {
    hide AdjustedWeight, SpendEdges, EffectiveFee;
    var u, g := Union(GraphOf(txs, acc, a), GraphOf(txs, acc, b)), GraphOf(txs, acc, a + b);
    SameMaps(u.fee, g.fee);
    SameMaps(u.weight, g.weight);
    SameMaps(u.order, g.order);
  }

  lemma SameMaps<V>(a: map<Txid, V>, b: map<Txid, V>)
    requires a.Keys == b.Keys && forall t | t in a :: a[t] == b[t]
    ensures a == b
  {
  }

  lemma UnionEdges(txs: Pool, a: set<Txid>, b: set<Txid>)
    requires a <= txs.Keys && b <= txs.Keys
    requires forall p, c | p in a && c in b :: !SpendsFrom(txs[c], p) && !SpendsFrom(txs[p], c)
    ensures SpendEdges(txs, a) + SpendEdges(txs, b) == SpendEdges(txs, a + b)
  {
    hide SpendsFrom;
    forall p: Txid, c: Txid ensures (p, c) in SpendEdges(txs, a) + SpendEdges(txs, b) <==> (p, c) in SpendEdges(txs, a + b) {
      SpendEdge(txs, a, p, c);
      SpendEdge(txs, b, p, c);
      SpendEdge(txs, a + b, p, c);
    }
  }

  /** Edges added to a graph for a new transaction `t`. */
  function NewEdges(t: Txid, parents: set<Txid>, children: set<Txid>): set<(Txid, Txid)> {
    (set p | p in parents :: (p, t)) + (set c | c in children :: (t, c))
  }

  lemma AddExact(txs: Pool, acc: Deltas, nodes: set<Txid>, t: Txid, parents: set<Txid>, children: set<Txid>)
    requires nodes + {t} <= txs.Keys && t !in nodes && !SpendsFrom(txs[t], t)
    requires forall p | p in nodes :: p in parents <==> SpendsFrom(txs[t], p)
    requires forall c | c in nodes :: c in children <==> SpendsFrom(txs[c], t)
    requires parents <= nodes && children <= nodes
    ensures var g := GraphOf(txs, acc, nodes);
            var g' := AddTransaction(g, t, EffectiveFee(acc, txs[t], t), AdjustedWeight(txs[t]), txs[t].order);
            g'.(edges := g'.edges + NewEdges(t, parents, children)) == GraphOf(txs, acc, nodes + {t})
  {
    AddEdges(txs, nodes, t, parents, children);
    AddFields(txs, acc, nodes, t);
    hide GraphOf, SpendEdges, NewEdges;
    GraphFields(txs, acc, nodes);
    GraphFields(txs, acc, nodes + {t});
  }

  lemma GraphFields(txs: Pool, acc: Deltas, nodes: set<Txid>)
    requires nodes <= txs.Keys
    ensures GraphOf(txs, acc, nodes).edges == SpendEdges(txs, nodes)
  {
  }

  lemma AddFields(txs: Pool, acc: Deltas, nodes: set<Txid>, t: Txid)
    requires nodes + {t} <= txs.Keys
    ensures var g, g' := GraphOf(txs, acc, nodes), GraphOf(txs, acc, nodes + {t});
            && g.fee[t := EffectiveFee(acc, txs[t], t)] == g'.fee
            && g.weight[t := AdjustedWeight(txs[t])] == g'.weight
            && g.order[t := txs[t].order] == g'.order
  {
    hide SpendEdges, EffectiveFee, AdjustedWeight;
  }

  lemma AddEdges(txs: Pool, nodes: set<Txid>, t: Txid, parents: set<Txid>, children: set<Txid>)
    requires nodes + {t} <= txs.Keys && t !in nodes && !SpendsFrom(txs[t], t)
    requires forall p | p in nodes :: p in parents <==> SpendsFrom(txs[t], p)
    requires forall c | c in nodes :: c in children <==> SpendsFrom(txs[c], t)
    requires parents <= nodes && children <= nodes
    ensures SpendEdges(txs, nodes) + NewEdges(t, parents, children) == SpendEdges(txs, nodes + {t})
  {
    hide SpendsFrom;
    forall p: Txid, c: Txid
      ensures (p, c) in SpendEdges(txs, nodes) + NewEdges(t, parents, children) <==> (p, c) in SpendEdges(txs, nodes + {t})
    {
      SpendEdge(txs, nodes, p, c);
      SpendEdge(txs, nodes + {t}, p, c);
      NewEdge(t, parents, children, p, c);
    }
  }

  lemma NewEdge(t: Txid, parents: set<Txid>, children: set<Txid>, p: Txid, c: Txid)
    ensures (p, c) in NewEdges(t, parents, children) <==> (c == t && p in parents) || (p == t && c in children)
  {
  }

  // ---------- replacing clusters by one

  /** A new transaction connects the clusters of all its neighbours, and nothing else. */
  lemma JoinedConnected(edges: set<(Txid, Txid)>, parts: set<set<Txid>>, t: Txid, all: set<Txid>)
    requires forall s | s in parts :: Connected(edges, s) && t !in s && exists u | u in s :: (u, t) in edges || (t, u) in edges
    requires forall x :: x in all <==> x == t || exists s | s in parts :: x in s
    ensures Connected(edges, all)
  {
    assert t in all;
    forall cut | cut <= all && cut != {} && ClosedIn(edges, all, cut) ensures cut == all {
      forall s | s in parts ensures s <= all && (s <= cut || s !! cut) && (t in cut <==> s <= cut) {
        JoinedPart(edges, t, all, s, cut);
      }
      var x :| x in cut;
      if x != t {
        var s :| s in parts && x in s;
      }
      assert t in cut;
    }
  }

  lemma JoinedPart(edges: set<(Txid, Txid)>, t: Txid, all: set<Txid>, s: set<Txid>, cut: set<Txid>)
    requires Connected(edges, s) && s <= all && t in all && exists u | u in s :: (u, t) in edges || (t, u) in edges
    requires ClosedIn(edges, all, cut)
    ensures (s <= cut || s !! cut) && (t in cut <==> s <= cut)
  {
    var u :| u in s && ((u, t) in edges || (t, u) in edges);
    assert u in cut <==> t in cut;
    assert ClosedIn(edges, s, s * cut);
    assert u in s * cut <==> u in cut;
    var both := s * cut;
    assert both <= s;
    assert both == {} || both == s;
    forall x | x in s ensures both == {} ==> x !in cut {
      assert x in both <==> x in cut;
    }
    assert both == s ==> s <= cut;
  }

  // ---------- outpoints

  /** Every spend of these transactions is recorded. */
  ghost predicate SpendsRecorded(txs: Pool, spentBy: map<Outpoint, Txid>) {
    forall t, o: Outpoint | t in txs && SpendsOutpoint(txs[t], o) :: o in spentBy && spentBy[o] == t
  }

  /** No other spend is recorded for one of these transactions. */
  ghost predicate OnlyRecorded(txs: Pool, spentBy: map<Outpoint, Txid>) {
    forall o | o in spentBy && spentBy[o] in txs :: SpendsOutpoint(txs[spentBy[o]], o)
  }

  /** The same records of the spends of these transactions. */
  ghost predicate SameRecords(txs: Pool, before: map<Outpoint, Txid>, after: map<Outpoint, Txid>) {
    forall t, o: Outpoint | t in txs && SpendsOutpoint(txs[t], o) ::
      (o in after <==> o in before) && (o in after ==> after[o] == before[o])
  }

  /** A record without its inputs. */
  function Blind(tx: MempoolTx): MempoolTx {
    tx.(vin := [])
  }

  /** The records agree on everything but the inputs. */
  ghost predicate SameData(txs: Pool, pool: Pool) {
    forall t | t in txs :: t in pool && Blind(pool[t]) == Blind(txs[t])
  }

  /** The same records, perhaps with fewer spends. */
  ghost predicate Shows(visible: Pool, txs: Pool) {
    && visible.Keys == txs.Keys && SameData(visible, txs)
    && forall c, o: Outpoint | c in visible && SpendsOutpoint(visible[c], o) :: SpendsOutpoint(txs[c], o)
  }

  /** Some spend from `p` is recorded for `c`. */
  ghost predicate Heard(spentBy: map<Outpoint, Txid>, tx: MempoolTx, c: Txid, p: Txid) {
    exists o: Outpoint | SpendsOutpoint(tx, o) && o.0 == p :: o in spentBy && spentBy[o] == c
  }

  lemma HeardMeans(spentBy: map<Outpoint, Txid>, tx: MempoolTx, c: Txid, p: Txid)
    ensures Heard(spentBy, tx, c, p) <==> exists v | v in tx.vin :: !v.isCoinbase && v.txid == p && (p, v.vout) in spentBy && spentBy[(p, v.vout)] == c
    ensures SpendsFrom(tx, p) <==> exists v | v in tx.vin :: !v.isCoinbase && v.txid == p
  {
    forall v | v in tx.vin && !v.isCoinbase && v.txid == p && (p, v.vout) in spentBy && spentBy[(p, v.vout)] == c ensures Heard(spentBy, tx, c, p) {
      var o: Outpoint := (p, v.vout);
      assert SpendsOutpoint(tx, o);
    }
  }

  /** The parents, present or not, that have a child among these transactions of which no spend from
      them is recorded. */
  ghost function Unheard(txs: Pool, spentBy: map<Outpoint, Txid>): set<Txid> {
    set c, v | c in txs && v in txs[c].vin && !v.isCoinbase && !Heard(spentBy, txs[c], c, v.txid) :: v.txid
  }

  lemma IsUnheard(txs: Pool, spentBy: map<Outpoint, Txid>, p: Txid)
    ensures p in Unheard(txs, spentBy) <==> exists c :: c in txs && SpendsFrom(txs[c], p) && !Heard(spentBy, txs[c], c, p)
  {
    hide Heard;
    if c :| c in txs && SpendsFrom(txs[c], p) && !Heard(spentBy, txs[c], c, p) {
      var v :| v in txs[c].vin && !v.isCoinbase && v.txid == p;
    }
  }

  /** Fewer spends are good if more are. */
  lemma ShowsGood(visible: Pool, txs: Pool)
    requires Shows(visible, txs) && GoodSpends(txs)
    ensures GoodSpends(visible)
  {
    var rank :| RankedBy(SpendEdges(txs, txs.Keys), rank);
    forall p, c | (p, c) in SpendEdges(visible, visible.Keys) ensures p in rank && c in rank && rank[p] < rank[c] {
      SpendEdge(visible, visible.Keys, p, c);
      ShowsSpend(visible, txs, p, c);
      SpendEdge(txs, txs.Keys, p, c);
    }
    ShowsParts(visible, txs);
    hide SpendEdges;
    assert RankedBy(SpendEdges(visible, visible.Keys), rank);
  }

  lemma ShowsSpend(visible: Pool, txs: Pool, p: Txid, c: Txid)
    requires Shows(visible, txs) && c in visible && SpendsFrom(visible[c], p)
    ensures SpendsFrom(txs[c], p)
  {
    SpendsSome(visible[c], p);
    var o: Outpoint :| o.0 == p && SpendsOutpoint(visible[c], o);
    OutpointSpends(txs[c], o);
  }

  lemma ShowsParts(visible: Pool, txs: Pool)
    requires Shows(visible, txs) && NoDoubleSpend(txs) && OutputsExist(txs)
    ensures NoDoubleSpend(visible) && OutputsExist(visible)
  {
    hide SpendsOutpoint;
    forall c, o: Outpoint | c in visible && o.0 in visible && SpendsOutpoint(visible[c], o) ensures o.1 < visible[o.0].vouts {
      assert SpendsOutpoint(txs[c], o);
      assert Blind(visible[o.0]).vouts == Blind(txs[o.0]).vouts;
    }
  }

  lemma ShowsMore(visible: Pool, txs: Pool, tx: MempoolTx)
    requires Shows(visible, txs)
    ensures Shows(visible[tx.txid := tx], txs[tx.txid := tx])
  {
  }

  lemma ShowsLess(visible: Pool, txs: Pool, gone: set<Txid>)
    requires Shows(visible, txs)
    ensures Shows(visible - gone, txs - gone)
  {
  }

  /** What is visible are exactly the spends with a record. */
  lemma VisibleHeard(visible: Pool, txs: Pool, spentBy: map<Outpoint, Txid>, p: Txid, c: Txid)
    requires Shows(visible, txs) && SpendsRecorded(visible, spentBy) && OnlyRecorded(visible, spentBy) && c in txs
    ensures SpendsFrom(visible[c], p) <==> SpendsFrom(txs[c], p) && Heard(spentBy, txs[c], c, p)
  {
    if SpendsFrom(visible[c], p) {
      SpendsSome(visible[c], p);
      var o: Outpoint :| o.0 == p && SpendsOutpoint(visible[c], o);
      assert SpendsOutpoint(txs[c], o) && o in spentBy && spentBy[o] == c;
      OutpointSpends(txs[c], o);
    }
    if Heard(spentBy, txs[c], c, p) {
      var o: Outpoint :| SpendsOutpoint(txs[c], o) && o.0 == p && o in spentBy && spentBy[o] == c;
      assert SpendsOutpoint(visible[c], o);
      OutpointSpends(visible[c], o);
    }
  }

  /** Records of other spends do not matter. */
  lemma UnheardSame(txs: Pool, spentBy: map<Outpoint, Txid>, spentBy': map<Outpoint, Txid>)
    requires forall c, o: Outpoint | c in txs && SpendsOutpoint(txs[c], o) ::
               (o in spentBy && spentBy[o] == c <==> o in spentBy' && spentBy'[o] == c)
    ensures Unheard(txs, spentBy) == Unheard(txs, spentBy')
  {
    hide SpendsOutpoint;
    forall c, p | c in txs ensures Heard(spentBy, txs[c], c, p) <==> Heard(spentBy', txs[c], c, p) {
    }
    hide Heard;
  }

  /** Every recorded spend is one that the named transaction makes. */
  ghost predicate SpendsTrue(seen: Pool, spentBy: map<Outpoint, Txid>) {
    forall o | o in spentBy :: spentBy[o] in seen && SpendsOutpoint(seen[spentBy[o]], o)
  }

  ghost predicate Agree(txs: Pool, seen: Pool) {
    forall t | t in txs :: t in seen && seen[t] == txs[t]
  }

  ghost predicate NoDoubleSpend(txs: Pool) {
    forall t, u, o: Outpoint | t in txs && u in txs && SpendsOutpoint(txs[t], o) && SpendsOutpoint(txs[u], o) :: t == u
  }

  /** Spends name outputs that the spent transaction has. */
  ghost predicate OutputsExist(txs: Pool) {
    forall c, o: Outpoint | c in txs && o.0 in txs && SpendsOutpoint(txs[c], o) :: o.1 < txs[o.0].vouts
  }

  /** The spends are without double spends, missing outputs and cycles. */
  ghost predicate GoodSpends(txs: Pool) {
    && NoDoubleSpend(txs) && OutputsExist(txs)
    && exists rank :: RankedBy(SpendEdges(txs, txs.Keys), rank)
  }

  lemma GoodSpendsSubset(txs: Pool, all: Pool)
    requires GoodSpends(all) && Agree(txs, all)
    ensures GoodSpends(txs)
  {
    var rank :| RankedBy(SpendEdges(all, all.Keys), rank);
    forall p, c | (p, c) in SpendEdges(txs, txs.Keys) ensures p in rank && c in rank && rank[p] < rank[c] {
      SpendEdge(txs, txs.Keys, p, c);
      SpendEdge(all, all.Keys, p, c);
    }
    hide SpendEdges;
    assert RankedBy(SpendEdges(txs, txs.Keys), rank);
  }

  lemma NoSelfSpend(txs: Pool, t: Txid)
    requires GoodSpends(txs) && t in txs
    ensures !SpendsFrom(txs[t], t)
  {
    SpendEdge(txs, txs.Keys, t, t);
  }

  /** Spending from a transaction is spending one of its outpoints. */
  lemma SpendsSome(tx: MempoolTx, p: Txid)
    requires SpendsFrom(tx, p)
    ensures exists o: Outpoint :: o.0 == p && SpendsOutpoint(tx, o)
  {
    var v :| v in tx.vin && !v.isCoinbase && v.txid == p;
    var o: Outpoint := (v.txid, v.vout);
    assert SpendsOutpoint(tx, o);
  }

  lemma OutpointSpends(tx: MempoolTx, o: Outpoint)
    requires SpendsOutpoint(tx, o)
    ensures SpendsFrom(tx, o.0)
  {
  }

  lemma ShowsKeys(visible: Pool, txs: Pool)
    requires Shows(visible, txs)
    ensures visible.Keys == txs.Keys && SameData(visible, txs)
  {
  }

  lemma UnheardFewer(txs: Pool, spentBy: map<Outpoint, Txid>, gone: set<Txid>)
    ensures Unheard(txs - gone, spentBy) <= Unheard(txs, spentBy)
  {
  }

  /** Two sets of records with the same spends between them have the same index. */
  lemma SameSpendsIndexed(txs: Pool, txs': Pool, acc: Deltas, clusters: map<nat, Cluster>, txToCluster: map<Txid, nat>, next: nat)
    requires Indexed(txs, acc, clusters, txToCluster, next) && txs'.Keys == txs.Keys && SameData(txs, txs')
    requires forall p, c | p in txs && c in txs :: SpendsFrom(txs[c], p) <==> SpendsFrom(txs'[c], p)
    ensures Indexed(txs', acc, clusters, txToCluster, next)
  {
    hide SpendsFrom, Inverse, Numbered;
    forall id | id in clusters ensures ExactGraph(txs', acc, clusters[id].graph) {
      assert ExactGraph(txs, acc, clusters[id].graph);
      SameSpendsGraph(txs, txs', acc, clusters[id].graph.Nodes());
    }
    hide ExactGraph;
  }

  lemma SameSpendsGraph(txs: Pool, txs': Pool, acc: Deltas, nodes: set<Txid>)
    requires nodes <= txs.Keys && txs'.Keys == txs.Keys && SameData(txs, txs')
    requires forall p, c | p in txs && c in txs :: SpendsFrom(txs[c], p) <==> SpendsFrom(txs'[c], p)
    ensures GraphOf(txs, acc, nodes) == GraphOf(txs', acc, nodes)
  {
    hide SpendsFrom;
    forall t | t in nodes ensures EffectiveFee(acc, txs[t], t) == EffectiveFee(acc, txs'[t], t) && AdjustedWeight(txs[t]) == AdjustedWeight(txs'[t]) && txs[t].order == txs'[t].order {
      var a, b := Blind(txs[t]), Blind(txs'[t]);
      assert a.fee == b.fee && a.weight == b.weight && a.sigops == b.sigops && a.order == b.order;
    }
    hide EffectiveFee, AdjustedWeight;
    forall e | e in SpendEdges(txs, nodes) ensures e in SpendEdges(txs', nodes) {
      SpendEdge(txs, nodes, e.0, e.1);
      SpendEdge(txs', nodes, e.0, e.1);
      assert e == (e.0, e.1);
    }
    forall e | e in SpendEdges(txs', nodes) ensures e in SpendEdges(txs, nodes) {
      SpendEdge(txs, nodes, e.0, e.1);
      SpendEdge(txs', nodes, e.0, e.1);
      assert e == (e.0, e.1);
    }
    hide SpendEdges, GraphOf;
    SameFields(txs, txs', acc, acc, nodes);
    GraphFields(txs, acc, nodes);
    GraphFields(txs', acc, nodes);
  }

  /** One set of clusters cannot be exact with and without a spend. */
  lemma BothIndexed(visible: Pool, txs: Pool, acc: Deltas, clusters: map<nat, Cluster>, txToCluster: map<Txid, nat>, next: nat, p: Txid, c: Txid)
    requires Indexed(visible, acc, clusters, txToCluster, next) && visible.Keys == txs.Keys
    requires p in txs && c in txs && SpendsFrom(txs[c], p) && !SpendsFrom(visible[c], p)
    ensures !Indexed(txs, acc, clusters, txToCluster, next)
  {
    hide SpendsFrom, Numbered, ExactGraph;
    var g := clusters[txToCluster[c]].graph;
    assert ExactGraph(visible, acc, g);
    if Indexed(txs, acc, clusters, txToCluster, next) {
      assert p in g.Nodes() && c in g.Nodes() && ExactGraph(txs, acc, g);
      ExactSpend(visible, acc, g, p, c);
      ExactSpend(txs, acc, g, p, c);
    }
  }

  lemma ExactSpend(txs: Pool, acc: Deltas, g: Graph, p: Txid, c: Txid)
    requires ExactGraph(txs, acc, g) && p in g.Nodes() && c in g.Nodes()
    ensures c in txs && ((p, c) in g.edges <==> SpendsFrom(txs[c], p))
  {
    SpendEdge(txs, g.Nodes(), p, c);
  }
}
