/** Single changes of the cluster index: each keeps the clusters a partition with exact graphs. */
module MempoolSteps {
  import opened Graph
  import opened Components
  import opened MempoolState

  function Sent(txToCluster: map<Txid, nat>, txs: set<Txid>, id: nat): map<Txid, nat> {
    map t | t in txToCluster.Keys + txs :: if t in txs then id else txToCluster[t]
  }

  /** The graphs stay exact when only records and deltas of other transactions change. */
  lemma ExactGraphSame(txs: Pool, txs': Pool, acc: Deltas, acc': Deltas, g: Graph)
    requires ExactGraph(txs, acc, g) && g.Nodes() <= txs'.Keys
    requires forall t | t in g.Nodes() :: txs[t] == txs'[t] && Delta(acc, t) == Delta(acc', t)
    ensures ExactGraph(txs', acc', g)
  {
    GraphOfSame(txs, txs', acc, acc', g.Nodes());
  }

  lemma ExactGraphsSame(txs: Pool, txs': Pool, acc: Deltas, acc': Deltas, clusters: map<nat, Cluster>)
    requires AllExactGraphs(txs, acc, clusters) && txs.Keys <= txs'.Keys
    requires forall t | t in txs :: txs[t] == txs'[t] && Delta(acc, t) == Delta(acc', t)
    ensures AllExactGraphs(txs', acc', clusters)
  {
    hide ExactGraph, Delta;
    forall i | i in clusters ensures ExactGraph(txs', acc', clusters[i].graph) {
      ExactInside(txs, acc, clusters[i].graph);
      ExactGraphSame(txs, txs', acc, acc', clusters[i].graph);
    }
  }

  lemma ExactInside(txs: Pool, acc: Deltas, g: Graph)
    requires ExactGraph(txs, acc, g)
    ensures g.Nodes() <= txs.Keys
  {
  }

  lemma ExactGraphsPut(txs: Pool, acc: Deltas, clusters: map<nat, Cluster>, id: nat, c: Cluster)
    requires AllExactGraphs(txs, acc, clusters) && ExactGraph(txs, acc, c.graph)
    ensures AllExactGraphs(txs, acc, clusters[id := c])
  {
    hide ExactGraph;
  }

  lemma ExactRestrict(txs: Pool, acc: Deltas, g: Graph, keep: set<Txid>)
    requires ExactGraph(txs, acc, g) && keep <= g.Nodes()
    ensures ExactGraph(txs, acc, Restrict(g, keep)) && Restrict(g, keep).Nodes() == keep
  {
    RestrictExact(txs, acc, g.Nodes(), keep);
    GraphOfWellFormed(txs, acc, keep);
  }

  // ---------- the index

  /** Some transactions leave their cluster. */
  lemma TakeMembers(clusters: map<nat, Cluster>, txToCluster: map<Txid, nat>, id: nat, part: set<Txid>, c': Cluster)
    requires Inverse(clusters, txToCluster) && id in clusters && part <= clusters[id].graph.Nodes()
    requires c'.graph.Nodes() == clusters[id].graph.Nodes() - part
    ensures Inverse(clusters[id := c'], txToCluster - part)
  {
    forall i, t | i in clusters && t in clusters[id := c'][i].graph.Nodes() ensures t in txToCluster - part && txToCluster[t] == i {
      assert t in clusters[i].graph.Nodes();
    }
  }

  /** New transactions enter a cluster. */
  lemma GiveMembers(clusters: map<nat, Cluster>, txToCluster: map<Txid, nat>, id: nat, added: set<Txid>, c': Cluster)
    requires Inverse(clusters, txToCluster) && id in clusters && added !! txToCluster.Keys
    requires c'.graph.Nodes() == clusters[id].graph.Nodes() + added
    ensures Inverse(clusters[id := c'], Sent(txToCluster, added, id))
  {
  }

  lemma DropMembers(clusters: map<nat, Cluster>, txToCluster: map<Txid, nat>, id: nat)
    requires Inverse(clusters, txToCluster) && id in clusters
    ensures Inverse(clusters - {id}, txToCluster - clusters[id].graph.Nodes())
  {
    var rest := txToCluster - clusters[id].graph.Nodes();
    forall t | t in rest ensures rest[t] in clusters - {id} && t in clusters[rest[t]].graph.Nodes() {
      assert rest[t] == txToCluster[t];
    }
    forall i, t | i in clusters - {id} && t in clusters[i].graph.Nodes() ensures t in rest && rest[t] == i {
      assert txToCluster[t] == i;
    }
  }

  /** A new cluster of new transactions. */
  lemma CreateInverse(clusters: map<nat, Cluster>, txToCluster: map<Txid, nat>, next: nat, added: set<Txid>, c: Cluster)
    requires Inverse(clusters, txToCluster) && next !in clusters && added !! txToCluster.Keys && c.graph.Nodes() == added
    ensures Inverse(clusters[next := c], Sent(txToCluster, added, next))
  {
  }

  lemma SentAgain(txToCluster: map<Txid, nat>, txs: set<Txid>, id: nat)
    ensures Sent(txToCluster - txs, txs, id) == Sent(txToCluster, txs, id)
    ensures txs <= txToCluster.Keys ==> Sent(txToCluster, txs, id).Keys == txToCluster.Keys
  {
  }

  // ---------- removing a transaction

  lemma RemoveIndexed(txs: Pool, acc: Deltas, clusters: map<nat, Cluster>, txToCluster: map<Txid, nat>, next: nat, t: Txid, c': Cluster)
    requires Indexed(txs, acc, clusters, txToCluster, next) && t in txs
    requires var c := clusters[txToCluster[t]]; c'.id == c.id && c'.graph == Restrict(c.graph, c.graph.Nodes() - {t})
    ensures Indexed(txs - {t}, acc, clusters[txToCluster[t] := c'], txToCluster - {t}, next)
  {
    hide ExactGraph, AllExactGraphs, SpendsFrom, Inverse, Restrict;
    var id := txToCluster[t];
    IndexedAt(txs, acc, clusters, txToCluster, next, t);
    ExactRestrict(txs, acc, clusters[id].graph, clusters[id].graph.Nodes() - {t});
    ExactGraphsPut(txs, acc, clusters, id, c');
    TakeMembers(clusters, txToCluster, id, {t}, c');
    RemoveExact(txs, acc, clusters[id := c'], txToCluster - {t}, t);
  }

  lemma IndexedAt(txs: Pool, acc: Deltas, clusters: map<nat, Cluster>, txToCluster: map<Txid, nat>, next: nat, t: Txid)
    requires Indexed(txs, acc, clusters, txToCluster, next) && t in txs
    ensures t in txToCluster && txToCluster[t] in clusters && t in clusters[txToCluster[t]].graph.Nodes()
    ensures ExactGraph(txs, acc, clusters[txToCluster[t]].graph)
  {
    hide ExactGraph, Together;
  }

  lemma RemoveExact(txs: Pool, acc: Deltas, clusters: map<nat, Cluster>, txToCluster: map<Txid, nat>, t: Txid)
    requires AllExactGraphs(txs, acc, clusters) && Inverse(clusters, txToCluster) && txToCluster.Keys == txs.Keys - {t}
    ensures AllExactGraphs(txs - {t}, acc, clusters)
  {
    hide ExactGraph;
    var txs' := txs - {t};
    forall i | i in clusters ensures ExactGraph(txs', acc, clusters[i].graph) {
      forall u | u in clusters[i].graph.Nodes() ensures u in txs' && txs'[u] == txs[u] {
        assert u in txToCluster;
      }
      ExactGraphSame(txs, txs', acc, acc, clusters[i].graph);
    }
  }

  // ---------- splitting clusters

  lemma DropEmptyIndexed(txs: Pool, acc: Deltas, clusters: map<nat, Cluster>, txToCluster: map<Txid, nat>, next: nat, id: nat)
    requires Indexed(txs, acc, clusters, txToCluster, next) && id in clusters && clusters[id].graph.Nodes() == {}
    ensures Indexed(txs, acc, clusters - {id}, txToCluster, next)
  {
    hide ExactGraph, SpendEdges, SpendsFrom;
  }

  /** A part that no spend joins to the rest of its cluster becomes a cluster of its own. */
  lemma CarveIndexed(txs: Pool, acc: Deltas, clusters: map<nat, Cluster>, txToCluster: map<Txid, nat>, next: nat,
                     id: nat, part: set<Txid>, rest: Cluster, piece: Cluster)
    requires Indexed(txs, acc, clusters, txToCluster, next) && id in clusters && part <= clusters[id].graph.Nodes()
    requires ClosedIn(clusters[id].graph.edges, clusters[id].graph.Nodes(), part)
    requires rest.id == id && rest.graph == Restrict(clusters[id].graph, clusters[id].graph.Nodes() - part)
    requires piece.id == next && piece.graph == Restrict(clusters[id].graph, part)
    ensures Indexed(txs, acc, clusters[id := rest][next := piece], Sent(txToCluster, part, next), next + 1)
  {
    var g := clusters[id].graph;
    assert ExactGraph(txs, acc, g);
    ExactRestrict(txs, acc, g, g.Nodes() - part);
    ExactRestrict(txs, acc, g, part);
    CarveMembers(txs, acc, clusters, txToCluster, next, id, part, rest, piece);
    CarveTogether(txs, acc, clusters, txToCluster, next, id, part);
    hide ExactGraph, Inverse, Together;
  }

  lemma CarveTogether(txs: Pool, acc: Deltas, clusters: map<nat, Cluster>, txToCluster: map<Txid, nat>, next: nat, id: nat, part: set<Txid>)
    requires Indexed(txs, acc, clusters, txToCluster, next) && id in clusters && part <= clusters[id].graph.Nodes()
    requires ClosedIn(clusters[id].graph.edges, clusters[id].graph.Nodes(), part)
    ensures Sent(txToCluster, part, next).Keys == txs.Keys
    ensures Together(txs, Sent(txToCluster, part, next))
  {
    hide ExactGraph, SpendsFrom, ClosedIn;
    var g := clusters[id].graph;
    forall p, c | p in txs && c in txs && SpendsFrom(txs[c], p)
      ensures Sent(txToCluster, part, next)[p] == Sent(txToCluster, part, next)[c]
    {
      EdgeInside(txs, acc, clusters, txToCluster, next, p, c);
      if txToCluster[p] == id {
        ClosedEdge(g.edges, g.Nodes(), part, p, c);
      }
    }
  }

  lemma ClosedEdge(edges: set<(Txid, Txid)>, within: set<Txid>, s: set<Txid>, p: Txid, c: Txid)
    requires ClosedIn(edges, within, s) && (p, c) in edges && p in within && c in within
    ensures p in s <==> c in s
  {
  }

  lemma CarveMembers(txs: Pool, acc: Deltas, clusters: map<nat, Cluster>, txToCluster: map<Txid, nat>, next: nat,
                     id: nat, part: set<Txid>, rest: Cluster, piece: Cluster)
    requires Inverse(clusters, txToCluster) && id in clusters && next !in clusters && part <= clusters[id].graph.Nodes()
    requires rest.graph.Nodes() == clusters[id].graph.Nodes() - part && piece.graph.Nodes() == part
    ensures Inverse(clusters[id := rest][next := piece], Sent(txToCluster, part, next))
    ensures Sent(txToCluster, part, next).Keys == txToCluster.Keys
  {
    hide Inverse;
    InsideKeys(clusters, txToCluster, id);
    TakeMembers(clusters, txToCluster, id, part, rest);
    CreateInverse(clusters[id := rest], txToCluster - part, next, part, piece);
    SentAgain(txToCluster, part, next);
  }

  lemma InsideKeys(clusters: map<nat, Cluster>, txToCluster: map<Txid, nat>, id: nat)
    requires Inverse(clusters, txToCluster) && id in clusters
    ensures clusters[id].graph.Nodes() <= txToCluster.Keys
  {
  }

  /** A spend between tracked transactions is an edge of their cluster. */
  lemma EdgeInside(txs: Pool, acc: Deltas, clusters: map<nat, Cluster>, txToCluster: map<Txid, nat>, next: nat, p: Txid, c: Txid)
    requires Indexed(txs, acc, clusters, txToCluster, next) && p in txs && c in txs && SpendsFrom(txs[c], p)
    ensures p in txToCluster && c in txToCluster && txToCluster[p] == txToCluster[c]
    ensures (p, c) in clusters[txToCluster[p]].graph.edges
  {
    hide SpendEdges, SpendsFrom;
    var g := clusters[txToCluster[p]].graph;
    assert ExactGraph(txs, acc, g);
    SpendEdge(txs, g.Nodes(), p, c);
  }

  // ---------- accelerations

  lemma FeeIndexed(txs: Pool, acc: Deltas, clusters: map<nat, Cluster>, txToCluster: map<Txid, nat>, next: nat, t: Txid, delta: int, c': Cluster)
    requires Indexed(txs, acc, clusters, txToCluster, next) && t in txs
    requires var c := clusters[txToCluster[t]]; c'.id == c.id && c'.graph == c.graph.(fee := c.graph.fee[t := txs[t].fee + delta])
    ensures Indexed(txs, acc[t := delta], clusters[txToCluster[t] := c'], txToCluster, next)
  {
    hide ExactGraph, AllExactGraphs, SpendsFrom, Inverse, Together;
    var id := txToCluster[t];
    IndexedAt(txs, acc, clusters, txToCluster, next, t);
    FeeExact(txs, acc, clusters[id].graph, t, delta);
    SameNodesInverse(clusters, txToCluster, id, c');
    OthersExact(txs, acc, clusters, txToCluster, t, delta, c');
  }

  /** Only the cluster of the transaction needs a new graph. */
  lemma OthersExact(txs: Pool, acc: Deltas, clusters: map<nat, Cluster>, txToCluster: map<Txid, nat>, t: Txid, delta: int, c': Cluster)
    requires Inverse(clusters, txToCluster) && AllExactGraphs(txs, acc, clusters) && t in txToCluster && txToCluster[t] in clusters
    requires ExactGraph(txs, acc[t := delta], c'.graph)
    ensures AllExactGraphs(txs, acc[t := delta], clusters[txToCluster[t] := c'])
  {
    hide ExactGraph, Inverse;
    forall i | i in clusters && i != txToCluster[t] ensures ExactGraph(txs, acc[t := delta], clusters[i].graph) {
      OtherExact(txs, acc, clusters, txToCluster, i, t, delta);
    }
  }

  lemma SameNodesInverse(clusters: map<nat, Cluster>, txToCluster: map<Txid, nat>, id: nat, c': Cluster)
    requires Inverse(clusters, txToCluster) && id in clusters && c'.graph.Nodes() == clusters[id].graph.Nodes()
    ensures Inverse(clusters[id := c'], txToCluster)
  {
  }

  lemma OtherExact(txs: Pool, acc: Deltas, clusters: map<nat, Cluster>, txToCluster: map<Txid, nat>, i: nat, t: Txid, delta: int)
    requires Inverse(clusters, txToCluster) && AllExactGraphs(txs, acc, clusters)
    requires i in clusters && t in txToCluster && txToCluster[t] != i
    ensures ExactGraph(txs, acc[t := delta], clusters[i].graph)
  {
    hide ExactGraph;
    assert ExactGraph(txs, acc, clusters[i].graph);
    ExactInside(txs, acc, clusters[i].graph);
    forall u | u in clusters[i].graph.Nodes() ensures Delta(acc, u) == Delta(acc[t := delta], u) {
      assert u != t;
    }
    ExactGraphSame(txs, txs, acc, acc[t := delta], clusters[i].graph);
  }

  lemma FeeExact(txs: Pool, acc: Deltas, g: Graph, t: Txid, delta: int)
    requires ExactGraph(txs, acc, g) && t in g.Nodes()
    ensures ExactGraph(txs, acc[t := delta], g.(fee := g.fee[t := txs[t].fee + delta]))
  {
    hide SpendEdges, AdjustedWeight, SpendsFrom;
    var g' := g.(fee := g.fee[t := txs[t].fee + delta]);
    assert g'.Nodes() == g.Nodes();
    assert g'.fee == GraphOf(txs, acc[t := delta], g.Nodes()).fee;
  }

  /** Only the deltas of tracked transactions matter. */
  lemma SameDeltasIndexed(txs: Pool, acc: Deltas, acc': Deltas, clusters: map<nat, Cluster>, txToCluster: map<Txid, nat>, next: nat)
    requires Indexed(txs, acc, clusters, txToCluster, next)
    requires forall t | t in txs :: Delta(acc, t) == Delta(acc', t)
    ensures Indexed(txs, acc', clusters, txToCluster, next)
  {
    hide AllExactGraphs, Inverse, Together;
    ExactGraphsSame(txs, txs, acc, acc', clusters);
  }

  // ---------- additions

  /** A new cluster of transactions that no spend joins to the others. */
  lemma CreateIndexed(txs: Pool, txs': Pool, acc: Deltas, clusters: map<nat, Cluster>, txToCluster: map<Txid, nat>, next: nat, added: set<Txid>, c: Cluster)
    requires Indexed(txs, acc, clusters, txToCluster, next) && added !! txs.Keys
    requires txs'.Keys == txs.Keys + added && forall t | t in txs :: txs'[t] == txs[t]
    requires forall t, u | t in added && u in txs :: !SpendsFrom(txs'[u], t) && !SpendsFrom(txs'[t], u)
    requires c.id == next && ExactGraph(txs', acc, c.graph) && c.graph.Nodes() == added
    ensures Indexed(txs', acc, clusters[next := c], Sent(txToCluster, added, next), next + 1)
  {
    hide AllExactGraphs, ExactGraph, Inverse, Together, SpendsFrom;
    CreateInverse(clusters, txToCluster, next, added, c);
    CreateTogether(txs, txs', txToCluster, next, added);
    ExactGraphsSame(txs, txs', acc, acc, clusters);
    ExactGraphsPut(txs', acc, clusters, next, c);
  }

  lemma CreateTogether(txs: Pool, txs': Pool, txToCluster: map<Txid, nat>, next: nat, added: set<Txid>)
    requires txToCluster.Keys == txs.Keys && Together(txs, txToCluster) && added !! txs.Keys
    requires txs'.Keys == txs.Keys + added && forall t | t in txs :: txs'[t] == txs[t]
    requires forall t, u | t in added && u in txs :: !SpendsFrom(txs'[u], t) && !SpendsFrom(txs'[t], u)
    ensures Sent(txToCluster, added, next).Keys == txs'.Keys && Together(txs', Sent(txToCluster, added, next))
  {
    hide SpendsFrom;
  }

  /** One cluster takes over the transactions of another. */
  lemma MergeIndexed(txs: Pool, acc: Deltas, clusters: map<nat, Cluster>, txToCluster: map<Txid, nat>, next: nat, primary: nat, other: nat, merged: Cluster)
    requires Indexed(txs, acc, clusters, txToCluster, next) && primary in clusters && other in clusters && primary != other
    requires merged.id == primary && merged.graph == Union(clusters[primary].graph, clusters[other].graph)
    ensures Indexed(txs, acc, clusters[primary := merged] - {other}, Sent(txToCluster, clusters[other].graph.Nodes(), primary), next)
    ensures merged.graph.Nodes() == clusters[primary].graph.Nodes() + clusters[other].graph.Nodes()
  {
    UnionIsExact(txs, acc, clusters, txToCluster, next, primary, other);
    UnionNodes(clusters[primary].graph, clusters[other].graph);
    MergeMembers(clusters, txToCluster, primary, other, merged);
    MergeTogether(txs, clusters, txToCluster, primary, other);
    hide ExactGraph, Union, Inverse, Together;
  }

  lemma MergeTogether(txs: Pool, clusters: map<nat, Cluster>, txToCluster: map<Txid, nat>, primary: nat, other: nat)
    requires txToCluster.Keys == txs.Keys && Inverse(clusters, txToCluster) && Together(txs, txToCluster) && other in clusters
    ensures Sent(txToCluster, clusters[other].graph.Nodes(), primary).Keys == txs.Keys
    ensures Together(txs, Sent(txToCluster, clusters[other].graph.Nodes(), primary))
  {
    hide SpendsFrom;
  }

  lemma UnionNodes(a: Graph, b: Graph)
    ensures Union(a, b).Nodes() == a.Nodes() + b.Nodes()
  {
  }

  lemma MergeMembers(clusters: map<nat, Cluster>, txToCluster: map<Txid, nat>, primary: nat, other: nat, merged: Cluster)
    requires Inverse(clusters, txToCluster) && primary in clusters && other in clusters && primary != other
    requires merged.graph.Nodes() == clusters[primary].graph.Nodes() + clusters[other].graph.Nodes()
    ensures Inverse(clusters[primary := merged] - {other}, Sent(txToCluster, clusters[other].graph.Nodes(), primary))
    ensures Sent(txToCluster, clusters[other].graph.Nodes(), primary).Keys == txToCluster.Keys
  {
    hide Inverse;
    InsideKeys(clusters, txToCluster, other);
    DropMembers(clusters, txToCluster, other);
    var nodes := clusters[other].graph.Nodes();
    GiveMembers(clusters - {other}, txToCluster - nodes, primary, nodes, merged);
    SentAgain(txToCluster, nodes, primary);
    assert (clusters - {other})[primary := merged] == clusters[primary := merged] - {other};
  }

  lemma UnionIsExact(txs: Pool, acc: Deltas, clusters: map<nat, Cluster>, txToCluster: map<Txid, nat>, next: nat, primary: nat, other: nat)
    requires Indexed(txs, acc, clusters, txToCluster, next) && primary in clusters && other in clusters && primary != other
    ensures ExactGraph(txs, acc, Union(clusters[primary].graph, clusters[other].graph))
  {
    hide SpendEdges, SpendsFrom;
    var a, b := clusters[primary].graph.Nodes(), clusters[other].graph.Nodes();
    assert ExactGraph(txs, acc, clusters[primary].graph) && ExactGraph(txs, acc, clusters[other].graph);
    UnionExact(txs, acc, a, b);
    GraphOfWellFormed(txs, acc, a + b);
  }

  /** A new transaction joins the cluster that holds all its parents and children. */
  lemma AddIndexed(txs: Pool, acc: Deltas, clusters: map<nat, Cluster>, txToCluster: map<Txid, nat>, next: nat, id: nat, t: Txid, tx: MempoolTx, c': Cluster)
    requires Indexed(txs, acc, clusters, txToCluster, next) && id in clusters && t !in txs && !SpendsFrom(tx, t)
    requires forall u | u in txs && (SpendsFrom(txs[u], t) || SpendsFrom(tx, u)) :: txToCluster[u] == id
    requires c'.id == id && ExactGraph(txs[t := tx], acc, c'.graph) && c'.graph.Nodes() == clusters[id].graph.Nodes() + {t}
    ensures Indexed(txs[t := tx], acc, clusters[id := c'], txToCluster[t := id], next)
  {
    hide AllExactGraphs, ExactGraph, Inverse, Together, SpendsFrom;
    GiveMembers(clusters, txToCluster, id, {t}, c');
    assert Sent(txToCluster, {t}, id) == txToCluster[t := id];
    AddTogether(txs, txToCluster, id, t, tx);
    ExactGraphsSame(txs, txs[t := tx], acc, acc, clusters);
    ExactGraphsPut(txs[t := tx], acc, clusters, id, c');
  }

  lemma AddTogether(txs: Pool, txToCluster: map<Txid, nat>, id: nat, t: Txid, tx: MempoolTx)
    requires txToCluster.Keys == txs.Keys && Together(txs, txToCluster) && t !in txs
    requires forall u | u in txs && (SpendsFrom(txs[u], t) || SpendsFrom(tx, u)) :: txToCluster[u] == id
    ensures Together(txs[t := tx], txToCluster[t := id])
  {
    hide SpendsFrom;
  }

  // ---------- renaming

  lemma RenameIndexed(txs: Pool, acc: Deltas, clusters: map<nat, Cluster>, txToCluster: map<Txid, nat>, next: nat, id: nat, c': Cluster)
    requires Indexed(txs, acc, clusters, txToCluster, next) && id in clusters
    requires c'.id == next && c'.graph == clusters[id].graph
    ensures Indexed(txs, acc, (clusters - {id})[next := c'], Sent(txToCluster, clusters[id].graph.Nodes(), next), next + 1)
  {
    RenameMembers(clusters, txToCluster, id, next, c');
    MergeTogether(txs, clusters, txToCluster, next, id);
    hide ExactGraph, Inverse, Together;
  }

  lemma RenameMembers(clusters: map<nat, Cluster>, txToCluster: map<Txid, nat>, id: nat, next: nat, c': Cluster)
    requires Inverse(clusters, txToCluster) && id in clusters && next !in clusters && c'.graph == clusters[id].graph
    ensures Inverse((clusters - {id})[next := c'], Sent(txToCluster, clusters[id].graph.Nodes(), next))
    ensures Sent(txToCluster, clusters[id].graph.Nodes(), next).Keys == txToCluster.Keys
  {
    hide Inverse;
    InsideKeys(clusters, txToCluster, id);
    DropMembers(clusters, txToCluster, id);
    var nodes := clusters[id].graph.Nodes();
    CreateInverse(clusters - {id}, txToCluster - nodes, next, nodes, c');
    SentAgain(txToCluster, nodes, next);
  }
}
