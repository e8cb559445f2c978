/** The cluster index over a changing mempool. */
module ClusterMempool {
  import opened Feerate
  import opened Graph
  import opened Components
  import opened MempoolState
  import opened MempoolSteps
  import Chunking
  import Linearize
  import BlockBuilder

  datatype MempoolDiff = MempoolDiff(added: seq<MempoolTx>, removed: seq<Txid>, accelerations: Deltas)

  /** The records after the first additions were made to `txs`. */
  function AddAll(txs: Pool, added: seq<MempoolTx>): Pool {
    if added == [] then txs
    else AddAll(txs, added[..|added| - 1])[added[|added| - 1].txid := added[|added| - 1]]
  }

  /** What is tracked after a diff: removals first, then additions. */
  function After(txs: Pool, diff: MempoolDiff): Pool {
    AddAll(txs - Elems(diff.removed), diff.added)
  }

  ghost predicate AllWhole(clusters: map<nat, Cluster>) {
    forall id | id in clusters :: Whole(clusters[id])
  }

  /** Clusters that are not dirty carry what the linearizer answers for their graph. */
  ghost predicate CleanLinearized(costBudget: int, clusters: map<nat, Cluster>) {
    forall id | id in clusters && !clusters[id].dirty :: Linearized(clusters[id]) && Answered(costBudget, clusters[id])
  }

  ghost predicate CleanWhole(clusters: map<nat, Cluster>) {
    forall id | id in clusters && !clusters[id].dirty :: Whole(clusters[id])
  }

  ghost predicate AllClean(clusters: map<nat, Cluster>) {
    forall id | id in clusters :: !clusters[id].dirty
  }

  /** Every transaction comes after what it spends. */
  ghost predicate SpentFirst(txs: Pool, out: seq<Txid>) {
    forall p, j | 0 <= j < |out| && out[j] in txs && p in txs && SpendsFrom(txs[out[j]], p) :: p in out[..j]
  }

  /** Every transaction is in a cluster, with its fee and delta, and its weight or that of its sigops,
      whichever is larger. */
  ghost predicate Carried(clusters: map<nat, Cluster>, txToCluster: map<Txid, nat>, txs: Pool, accelerations: Deltas) {
    txToCluster.Keys == txs.Keys && forall t | t in txs ::
      && txToCluster[t] in clusters && t in clusters[txToCluster[t]].graph.fee && t in clusters[txToCluster[t]].graph.weight
      && var fee, weight := clusters[txToCluster[t]].graph.fee[t], clusters[txToCluster[t]].graph.weight[t];
         && (t !in accelerations ==> fee == txs[t].fee)
         && (t in accelerations ==> fee == txs[t].fee + accelerations[t])
         && weight >= txs[t].weight && weight >= 20 * txs[t].sigops
         && (weight == txs[t].weight || weight == 20 * txs[t].sigops)
  }

  /** The edges in clusters are exactly the spends that are recorded. */
  ghost predicate Linked(clusters: map<nat, Cluster>, txToCluster: map<Txid, nat>, txs: Pool, spentBy: map<Outpoint, Txid>) {
    forall p, c | p in txs && c in txs ::
      && c in txToCluster && txToCluster[c] in clusters
      && ((p, c) in clusters[txToCluster[c]].graph.edges <==>
          exists v | v in txs[c].vin :: !v.isCoinbase && v.txid == p && (p, v.vout) in spentBy && spentBy[(p, v.vout)] == c)
  }

  /** The removed went, the added came with their own records, and the others stayed as they were. */
  ghost predicate Applied(before: Pool, after: Pool, diff: MempoolDiff) {
    && after.Keys == before.Keys - Elems(diff.removed) + (set tx | tx in diff.added :: tx.txid)
    && forall t | t in after ::
         if exists tx | tx in diff.added :: tx.txid == t then after[t].txid == t && after[t] in diff.added
         else t in before && after[t] == before[t]
  }

  class ClusterMempool {
    var clusters: map<nat, Cluster>
    var txToCluster: map<Txid, nat>
    var spentBy: map<Outpoint, Txid>
    var mempool: Pool
    var accelerations: Deltas
    var nextClusterId: nat
    const costBudget: int

    /** The records of the transactions in clusters, and of all that ever were. */
    ghost var tracked: Pool
    ghost var seen: Pool
    /** The tracked records with the spends that the index knows of. */
    ghost var visible: Pool

    ghost predicate IsIndexed()
      reads this`visible, this`accelerations, this`clusters, this`txToCluster, this`nextClusterId
    {
      Indexed(visible, accelerations, clusters, txToCluster, nextClusterId)
    }

    ghost predicate SpendsKnown()
      reads this`visible, this`tracked, this`seen, this`spentBy
    {
      && Shows(visible, tracked) && Agree(tracked, seen) && SpendsTrue(seen, spentBy)
      && SpendsRecorded(visible, spentBy) && OnlyRecorded(visible, spentBy)
    }

    /** Between diffs: connected, linearized clusters that are exact for the spends known, and
        records of exactly these spends. */
    ghost predicate Valid()
      reads this
    {
      && IsIndexed() && SpendsKnown() && GoodSpends(tracked)
      && AllWhole(clusters) && AllClean(clusters) && CleanLinearized(costBudget, clusters)
    }

    /** No tracked transaction has a tracked child of which no spend from it is recorded. */
    ghost predicate IsExact()
      reads this
    {
      Unheard(tracked, spentBy) !! tracked.Keys
    }

    /** The clusters are those of all spends if and only if the index is exact. */
    lemma ExactIndex()
      requires Valid()
      ensures IsExact() <==> Indexed(tracked, accelerations, clusters, txToCluster, nextClusterId)
    {
      hide Indexed, GoodSpends, AllWhole, CleanLinearized, Unheard, SpendsFrom, Shows, SpendsRecorded, OnlyRecorded, Heard;
      ShowsKeys(visible, tracked);
      if IsExact() {
        forall p, c | p in tracked && c in tracked ensures SpendsFrom(visible[c], p) <==> SpendsFrom(tracked[c], p) {
          VisibleHeard(visible, tracked, spentBy, p, c);
          IsUnheard(tracked, spentBy, p);
        }
        SameSpendsIndexed(visible, tracked, accelerations, clusters, txToCluster, nextClusterId);
      } else {
        var p :| p in Unheard(tracked, spentBy) && p in tracked;
        IsUnheard(tracked, spentBy, p);
        var c :| c in tracked && SpendsFrom(tracked[c], p) && !Heard(spentBy, tracked[c], c, p);
        VisibleHeard(visible, tracked, spentBy, p, c);
        BothIndexed(visible, tracked, accelerations, clusters, txToCluster, nextClusterId, p, c);
      }
    }

    // ---------- removals

    /** Forgets the spends of removed transactions that the mempool still has; the records of the
        spends of all others stay. */
    method ForgetSpends(removed: seq<Txid>, ghost kept: Pool)
      requires SpendsTrue(seen, spentBy) && OnlyRecorded(visible, spentBy)
      requires forall r, t, o: Outpoint | r in removed && r in mempool && t in kept && SpendsOutpoint(mempool[r], o) :: !SpendsOutpoint(kept[t], o)
      modifies this`spentBy
      ensures SpendsTrue(seen, spentBy) && OnlyRecorded(visible, spentBy)
      ensures SameRecords(kept, old(spentBy), spentBy)
    {
      for i := 0 to |removed|
        invariant SpendsTrue(seen, spentBy) && OnlyRecorded(visible, spentBy)
        invariant SameRecords(kept, old(spentBy), spentBy)
      {
        if removed[i] in mempool {
          var tx := mempool[removed[i]];
          for j := 0 to |tx.vin|
            invariant SpendsTrue(seen, spentBy) && OnlyRecorded(visible, spentBy)
            invariant SameRecords(kept, old(spentBy), spentBy)
          {
            if !tx.vin[j].isCoinbase {
              var o: Outpoint := (tx.vin[j].txid, tx.vin[j].vout);
              assert SpendsOutpoint(tx, o);
              spentBy := spentBy - {o};
            }
          }
        }
      }
    }

    /** Takes one transaction out of its cluster, which becomes dirty. */
    method DropOne(txid: Txid)
      requires IsIndexed() && CleanLinearized(costBudget, clusters) && CleanWhole(clusters)
      modifies this`clusters, this`txToCluster, this`visible
      ensures IsIndexed() && CleanLinearized(costBudget, clusters) && CleanWhole(clusters)
      ensures visible == old(visible) - {txid}
    {
      hide Indexed, Whole, Linearized, Answered;
      IndexKeys();
      if txid in txToCluster {
        var c := clusters[txToCluster[txid]];
        var c' := c.(graph := Restrict(c.graph, c.graph.Nodes() - {txid}),
                     linearization := Linearize.Filter(c.linearization, c.graph.Nodes() - {txid}),
                     dirty := true);
        RemoveIndexed(visible, accelerations, clusters, txToCluster, nextClusterId, txid, c');
        clusters := clusters[txToCluster[txid] := c'];
        txToCluster := txToCluster - {txid};
        visible := visible - {txid};
      }
    }

    lemma IndexKeys()
      requires IsIndexed()
      ensures txToCluster.Keys == visible.Keys
      ensures forall t | t in txToCluster :: txToCluster[t] in clusters && t in clusters[txToCluster[t]].graph.Nodes()
      ensures forall id | id in clusters :: id < nextClusterId && clusters[id].id == id
    {
    }

    method DropTransactions(removed: seq<Txid>)
      requires IsIndexed() && CleanLinearized(costBudget, clusters) && CleanWhole(clusters)
      modifies this`clusters, this`txToCluster, this`visible
      ensures IsIndexed() && CleanLinearized(costBudget, clusters) && CleanWhole(clusters)
      ensures visible == old(visible) - Elems(removed)
    {
      hide Indexed, Whole, Linearized;
      for i := 0 to |removed|
        invariant IsIndexed() && CleanLinearized(costBudget, clusters) && CleanWhole(clusters)
        invariant visible == old(visible) - Elems(removed[..i])
      {
        assert removed[..i + 1] == removed[..i] + [removed[i]];
        DropOne(removed[i]);
      }
      assert removed[..|removed|] == removed;
    }

    /** Removed transactions leave the clusters, and the spends recorded are those of the others. */
    method ProcessRemovals(removed: seq<Txid>)
      requires IsIndexed() && CleanLinearized(costBudget, clusters) && CleanWhole(clusters) && SpendsKnown()
      requires var kept := tracked - Elems(removed);
               forall r, t, o: Outpoint | r in removed && r in mempool && t in kept && SpendsOutpoint(mempool[r], o) :: !SpendsOutpoint(kept[t], o)
      modifies this`clusters, this`txToCluster, this`visible, this`spentBy, this`tracked
      ensures IsIndexed() && CleanLinearized(costBudget, clusters) && CleanWhole(clusters) && SpendsKnown()
      ensures tracked == old(tracked) - Elems(removed)
      ensures Unheard(tracked, spentBy) == old(Unheard(tracked - Elems(removed), spentBy))
    {
      hide Indexed, CleanLinearized, CleanWhole, SpendsOutpoint, Shows, SpendsRecorded, OnlyRecorded, SpendsTrue, Unheard, Agree, SameRecords, Elems;
      ghost var kept, records := tracked - Elems(removed), spentBy;
      ForgetSpends(removed, kept);
      UnheardSame(kept, records, spentBy);
      KeptKnown(removed, records);
      DropTransactions(removed);
      tracked := kept;
    }

    // ---------- splitting

    /** Moves one component of a removed cluster into a cluster of its own. `shadow` is what is
        left of the removed cluster. */
    method SplitComponentToCluster(source: Cluster, component: set<Txid>, ghost shadow: Cluster) returns (ghost rest: Cluster)
      requires source.id !in clusters && shadow.id == source.id && component <= shadow.graph.Nodes() <= source.graph.Nodes()
      requires shadow.graph == Restrict(source.graph, shadow.graph.Nodes())
      requires Indexed(visible, accelerations, clusters[source.id := shadow], txToCluster, nextClusterId)
      requires IsComponent(source.graph.edges, source.graph.Nodes(), component)
      requires CleanLinearized(costBudget, clusters) && source.id < nextClusterId
      modifies this`clusters, this`txToCluster, this`nextClusterId
      ensures rest.id == source.id && rest.graph.Nodes() == shadow.graph.Nodes() - component
      ensures rest.graph == Restrict(source.graph, rest.graph.Nodes())
      ensures Indexed(visible, accelerations, clusters[source.id := rest], txToCluster, nextClusterId)
      ensures nextClusterId == old(nextClusterId) + 1 && source.id !in clusters
      ensures CleanLinearized(costBudget, clusters) && clusters.Keys == old(clusters).Keys + {old(nextClusterId)}
      ensures forall id | id in old(clusters) :: clusters[id] == old(clusters)[id]
      ensures Whole(clusters[old(nextClusterId)])
    {
      hide Indexed, Linearized, Answered, IsComponent, Restrict;
      var newClusterId := nextClusterId;
      nextClusterId := nextClusterId + 1;
      var piece := Cluster(newClusterId, Restrict(source.graph, component),
                           Linearize.Filter(source.linearization, component), [], true);
      rest := shadow.(graph := Restrict(source.graph, shadow.graph.Nodes() - component));
      CarveSetup(source.graph, shadow.graph, component);
      ShadowBelow(visible, accelerations, clusters[source.id := shadow], txToCluster, newClusterId);
      assert newClusterId !in clusters[source.id := shadow];
      CarveIndexed(visible, accelerations, clusters[source.id := shadow], txToCluster, newClusterId, source.id, component, rest, piece);
      assert clusters[source.id := shadow][source.id := rest][newClusterId := piece] == clusters[newClusterId := piece][source.id := rest];
      clusters := clusters[newClusterId := piece];
      SendTo(component, newClusterId);
    }

    method SendTo(txs: set<Txid>, id: nat)
      modifies this`txToCluster
      ensures txToCluster == Sent(old(txToCluster), txs, id)
    {
      var todo := txs;
      while todo != {}
        invariant todo <= txs && txToCluster == Sent(old(txToCluster), txs - todo, id)
        decreases todo
      {
        var t :| t in todo;
        txToCluster := txToCluster[t := id];
        todo := todo - {t};
      }
      assert txs - {} == txs;
    }

    /** Empty dirty clusters go; disconnected ones are replaced by their components. */
    method SplitOne(id: nat)
      requires IsIndexed() && CleanLinearized(costBudget, clusters) && id in clusters && clusters[id].dirty
      modifies this`clusters, this`txToCluster, this`nextClusterId
      ensures IsIndexed() && CleanLinearized(costBudget, clusters)
      ensures nextClusterId >= old(nextClusterId)
      ensures old(Whole(clusters[id])) ==> nextClusterId == old(nextClusterId) && clusters == old(clusters)
      ensures id in clusters ==> Whole(clusters[id])
      ensures SplitSince(old(clusters), clusters, old(nextClusterId))
    {
      hide Indexed, Linearized, Answered, IsComponent, Restrict, Connected;
      IndexKeys();
      var cluster := clusters[id];
      if |cluster.graph.Nodes()| == 0 {
        DropEmptyIndexed(visible, accelerations, clusters, txToCluster, nextClusterId, id);
        EmptyNotWhole(cluster);
        clusters := clusters - {id};
      } else {
        var list := AnyOrder(cluster.graph.Nodes());
        var components := FindComponents(cluster.graph.edges, list);
        if |components| > 1 {
          ManyNotWhole(cluster, components);
          SplitInto(id, components);
        } else {
          OneIsWhole(cluster, components);
        }
      }
    }

    method SplitInto(id: nat, components: seq<set<Txid>>)
      requires IsIndexed() && CleanLinearized(costBudget, clusters) && id in clusters
      requires AreComponents(clusters[id].graph.edges, clusters[id].graph.Nodes(), components)
      modifies this`clusters, this`txToCluster, this`nextClusterId
      ensures IsIndexed() && CleanLinearized(costBudget, clusters)
      ensures nextClusterId >= old(nextClusterId) && id !in clusters
      ensures SplitSince(old(clusters), clusters, old(nextClusterId))
    {
      hide Indexed, CleanLinearized, IsComponent, Restrict, Whole, SplitSince;
      IndexKeys();
      var cluster := clusters[id];
      CleanLess(costBudget, clusters, id);
      SplitSinceStart(clusters, id, nextClusterId);
      clusters := clusters - {id};
      ghost var shadow := cluster;
      RestrictAll(visible, accelerations, old(clusters), txToCluster, nextClusterId, id);
      assert clusters[id := shadow] == old(clusters);
      for k := 0 to |components|
        invariant nextClusterId >= old(nextClusterId) && id !in clusters && id < nextClusterId
        invariant shadow.id == id && shadow.graph == Restrict(cluster.graph, shadow.graph.Nodes())
        invariant LeftOver(cluster.graph.Nodes(), components, k, shadow.graph.Nodes())
        invariant Indexed(visible, accelerations, clusters[id := shadow], txToCluster, nextClusterId)
        invariant CleanLinearized(costBudget, clusters)
        invariant SplitSince(old(clusters), clusters, old(nextClusterId))
      {
        ghost var now := clusters;
        NextLeftOver(cluster.graph.edges, cluster.graph.Nodes(), components, k, shadow.graph.Nodes());
        shadow := SplitComponentToCluster(cluster, components[k], shadow);
        SplitSinceMore(old(clusters), now, clusters, old(nextClusterId), nextClusterId - 1);
      }
      NothingLeft(cluster.graph.edges, cluster.graph.Nodes(), components, shadow.graph.Nodes());
      DropEmptyIndexed(visible, accelerations, clusters[id := shadow], txToCluster, nextClusterId, id);
      assert clusters[id := shadow] - {id} == clusters;
    }

    /** Walks the clusters in the order of their ids, which is the order of insertion; clusters
        made on the way are visited too and found connected. */
    method SplitDisconnectedClusters()
      requires IsIndexed() && CleanLinearized(costBudget, clusters) && CleanWhole(clusters)
      modifies this`clusters, this`txToCluster, this`nextClusterId
      ensures IsIndexed() && CleanLinearized(costBudget, clusters) && AllWhole(clusters)
    {
      hide Indexed, Linearized, Answered, Whole;
      var id := 0;
      ghost var n := nextClusterId;
      IndexKeys();
      while id < nextClusterId
        invariant IsIndexed() && CleanLinearized(costBudget, clusters) && n <= nextClusterId
        invariant forall i | i in clusters :: i < id || i >= n || !clusters[i].dirty ==> Whole(clusters[i])
        decreases if id < n then n - id else 0, nextClusterId - id
      {
        if id in clusters && clusters[id].dirty {
          SplitOne(id);
        }
        id := id + 1;
      }
      IndexKeys();
    }

    // ---------- accelerations

    /** Transactions whose delta differs between the old and the new accelerations. */
    static function Changed(before: Deltas, after: Deltas): set<Txid> {
      (set t | t in after && after[t] != Delta(before, t)) + (set t | t in before && t !in after)
    }

    static lemma UnchangedDelta(before: Deltas, after: Deltas)
      ensures forall t | t !in Changed(before, after) :: Delta(before, t) == Delta(after, t)
    {
    }

    /** Takes over new accelerations and refreshes the fees that they change. */
    method ProcessAccelerationChanges(newAccelerations: Deltas)
      requires IsIndexed() && CleanLinearized(costBudget, clusters) && AllWhole(clusters)
      requires SameData(visible, mempool)
      modifies this`clusters, this`accelerations
      ensures IsIndexed() && CleanLinearized(costBudget, clusters) && AllWhole(clusters)
      ensures accelerations == newAccelerations
    {
      hide Indexed, CleanLinearized, AllWhole, SameData, EffectiveFee, Changed;
      DataKeys(visible, mempool);
      UnchangedDelta(accelerations, newAccelerations);
      var changed := Changed(accelerations, newAccelerations);
      ghost var deltas := accelerations;
      accelerations := newAccelerations;
      var todo := changed;
      while todo != {}
        invariant todo <= changed && accelerations == newAccelerations
        invariant Indexed(visible, deltas, clusters, txToCluster, nextClusterId)
        invariant CleanLinearized(costBudget, clusters) && AllWhole(clusters)
        invariant forall t | t in visible && t !in todo :: Delta(deltas, t) == Delta(newAccelerations, t)
        decreases todo
      {
        var txid :| txid in todo;
        todo := todo - {txid};
        if txid in mempool {
          IndexFacts(deltas);
          if txid in txToCluster {
            var c := clusters[txToCluster[txid]];
            var fee := EffectiveFee(accelerations, mempool[txid], txid);
            var c' := c.(graph := c.graph.(fee := c.graph.fee[txid := fee]), dirty := true);
            RefreshedFee(deltas, txid);
            clusters := clusters[txToCluster[txid] := c'];
            deltas := deltas[txid := Delta(newAccelerations, txid)];
          }
        }
      }
      SameDeltasIndexed(visible, deltas, newAccelerations, clusters, txToCluster, nextClusterId);
    }

    /** With its new fee a cluster is exact for the new delta. */
    lemma RefreshedFee(deltas: Deltas, txid: Txid)
      requires Indexed(visible, deltas, clusters, txToCluster, nextClusterId) && CleanLinearized(costBudget, clusters) && AllWhole(clusters)
      requires SameData(visible, mempool) && txid in mempool && txid in txToCluster && txToCluster[txid] in clusters
      ensures var c := clusters[txToCluster[txid]];
              var c' := c.(graph := c.graph.(fee := c.graph.fee[txid := EffectiveFee(accelerations, mempool[txid], txid)]), dirty := true);
              var refreshed := clusters[txToCluster[txid] := c'];
              && Indexed(visible, deltas[txid := Delta(accelerations, txid)], refreshed, txToCluster, nextClusterId)
              && CleanLinearized(costBudget, refreshed) && AllWhole(refreshed)
    {
      hide Indexed, Linearized, Answered, Whole;
      IndexFacts(deltas);
      var c := clusters[txToCluster[txid]];
      var fee := EffectiveFee(accelerations, mempool[txid], txid);
      var c' := c.(graph := c.graph.(fee := c.graph.fee[txid := fee]), dirty := true);
      assert Blind(mempool[txid]).fee == Blind(visible[txid]).fee;
      assert fee == visible[txid].fee + Delta(accelerations, txid);
      FeeIndexed(visible, deltas, clusters, txToCluster, nextClusterId, txid, Delta(accelerations, txid), c');
      SameShapeWhole(c, c');
    }

    lemma IndexFacts(deltas: Deltas)
      requires Indexed(visible, deltas, clusters, txToCluster, nextClusterId)
      ensures txToCluster.Keys == visible.Keys
      ensures forall t | t in txToCluster :: txToCluster[t] in clusters && t in clusters[txToCluster[t]].graph.Nodes()
      ensures forall id | id in clusters :: id < nextClusterId && clusters[id].id == id
    {
    }

    // ---------- additions

    /** Records what the transaction spends, parent present or not; no other parent becomes unheard. */
    method RecordSpends(tx: MempoolTx)
      requires SpendsKnown() && tx.txid !in tracked
      requires NoDoubleSpend(tracked[tx.txid := tx]) && (tx.txid in seen ==> seen[tx.txid] == tx)
      modifies this`spentBy, this`seen
      ensures seen == old(seen)[tx.txid := tx]
      ensures Agree(tracked[tx.txid := tx], seen) && SpendsTrue(seen, spentBy) && Shows(visible[tx.txid := tx], tracked[tx.txid := tx])
      ensures SpendsRecorded(visible[tx.txid := tx], spentBy) && OnlyRecorded(visible[tx.txid := tx], spentBy)
      ensures Unheard(tracked[tx.txid := tx], spentBy) == old(Unheard(tracked, spentBy))
    {
      hide Shows, Unheard, Agree, SpendsTrue, OnlyRecorded, SpendsRecorded, NoDoubleSpend, SpendsOutpoint, SameRecords;
      SeenToo(tx);
      ShowsKeys(visible, tracked);
      ShowsMore(visible, tracked, tx);
      seen := seen[tx.txid := tx];
      StartRecording(tx, old(seen));
      for i := 0 to |tx.vin|
        invariant seen == old(seen)[tx.txid := tx] && SpendsTrue(seen, spentBy) && OnlyRecorded(visible[tx.txid := tx], spentBy)
        invariant SameRecords(tracked, old(spentBy), spentBy)
        invariant forall v | v in tx.vin[..i] && !v.isCoinbase :: (v.txid, v.vout) in spentBy && spentBy[(v.txid, v.vout)] == tx.txid
      {
        var v := tx.vin[i];
        assert tx.vin[..i + 1] == tx.vin[..i] + [v];
        if !v.isCoinbase {
          RecordOne(tx, v, old(spentBy));
          spentBy := spentBy[(v.txid, v.vout) := tx.txid];
        }
      }
      assert tx.vin[..|tx.vin|] == tx.vin;
      AllRecorded(tx, old(spentBy));
    }

    lemma SeenToo(tx: MempoolTx)
      requires Agree(tracked, seen) && (tx.txid in seen ==> seen[tx.txid] == tx)
      ensures Agree(tracked[tx.txid := tx], seen[tx.txid := tx]) && SameRecords(tracked, spentBy, spentBy)
    {
    }

    lemma RecordOne(tx: MempoolTx, v: Vin, before: map<Outpoint, Txid>)
      requires v in tx.vin && !v.isCoinbase && tx.txid !in tracked && visible.Keys == tracked.Keys
      requires NoDoubleSpend(tracked[tx.txid := tx]) && tx.txid in seen && seen[tx.txid] == tx
      requires SpendsTrue(seen, spentBy) && OnlyRecorded(visible[tx.txid := tx], spentBy) && SameRecords(tracked, before, spentBy)
      ensures var spentBy' := spentBy[(v.txid, v.vout) := tx.txid];
              SpendsTrue(seen, spentBy') && OnlyRecorded(visible[tx.txid := tx], spentBy') && SameRecords(tracked, before, spentBy')
    {
      var o: Outpoint := (v.txid, v.vout);
      assert SpendsOutpoint(tx, o);
      hide SpendsOutpoint;
      var txs := tracked[tx.txid := tx];
      assert SpendsOutpoint(txs[tx.txid], o);
      forall t | t in tracked ensures !SpendsOutpoint(tracked[t], o) {
        assert t in txs && txs[t] == tracked[t];
      }
    }

    lemma StartRecording(tx: MempoolTx, seen0: Pool)
      requires SpendsTrue(seen0, spentBy) && OnlyRecorded(visible, spentBy) && (tx.txid in seen0 ==> seen0[tx.txid] == tx)
      ensures SpendsTrue(seen0[tx.txid := tx], spentBy) && OnlyRecorded(visible[tx.txid := tx], spentBy)
    {
    }

    lemma AllRecorded(tx: MempoolTx, before: map<Outpoint, Txid>)
      requires Shows(visible, tracked) && tx.txid !in tracked && SpendsRecorded(visible, before)
      requires SameRecords(tracked, before, spentBy)
      requires forall v | v in tx.vin && !v.isCoinbase :: (v.txid, v.vout) in spentBy && spentBy[(v.txid, v.vout)] == tx.txid
      ensures SpendsRecorded(visible[tx.txid := tx], spentBy)
      ensures Unheard(tracked[tx.txid := tx], spentBy) == Unheard(tracked, before)
    {
      forall o: Outpoint | SpendsOutpoint(tx, o) ensures o in spentBy && spentBy[o] == tx.txid {
        var v :| v in tx.vin && !v.isCoinbase && v.txid == o.0 && v.vout == o.1;
        assert (v.txid, v.vout) == o;
      }
      var txs := tracked[tx.txid := tx];
      hide SpendsOutpoint, Unheard;
      forall p ensures p in Unheard(txs, spentBy) <==> p in Unheard(tracked, spentBy) {
        IsUnheard(txs, spentBy, p);
        IsUnheard(tracked, spentBy, p);
        HeardAll(tx, p);
        hide Heard, SpendsFrom;
        forall c | c in tracked ensures txs[c] == tracked[c] {
        }
      }
      UnheardSame(tracked, before, spentBy);
    }

    lemma HeardAll(tx: MempoolTx, p: Txid)
      requires forall o: Outpoint | SpendsOutpoint(tx, o) :: o in spentBy && spentBy[o] == tx.txid
      ensures SpendsFrom(tx, p) ==> Heard(spentBy, tx, tx.txid, p)
    {
      if SpendsFrom(tx, p) {
        SpendsSome(tx, p);
      }
    }

    /** Tracked parents of the transaction and the clusters they are in. */
    method FindRelatedParents(tx: MempoolTx) returns (related: set<nat>, parents: seq<Txid>)
      requires txToCluster.Keys == visible.Keys && visible.Keys <= mempool.Keys
      ensures forall p :: p in Elems(parents) <==> p in visible && SpendsFrom(tx, p)
      ensures related == ClusterIds(txToCluster, Elems(parents))
    {
      related, parents := {}, [];
      for i := 0 to |tx.vin|
        invariant forall p | p in Elems(parents) :: p in visible && SpendsFrom(tx, p)
        invariant forall v | v in tx.vin[..i] && !v.isCoinbase && v.txid in visible :: v.txid in Elems(parents)
        invariant related == ClusterIds(txToCluster, Elems(parents))
      {
        var v := tx.vin[i];
        assert tx.vin[..i + 1] == tx.vin[..i] + [v];
        if !v.isCoinbase && v.txid in mempool {
          if v.txid in txToCluster {
            ClusterIdsAdd(txToCluster, Elems(parents), v.txid);
            related := related + {txToCluster[v.txid]};
            ElemsConcat(parents, [v.txid]);
            parents := parents + [v.txid];
          }
        }
      }
      assert tx.vin[..|tx.vin|] == tx.vin;
    }

    /** Tracked children of the transaction, found through the recorded spends of its outputs. */
    method FindRelatedChildren(tx: MempoolTx, related0: set<nat>, ghost parents: seq<Txid>) returns (related: set<nat>, children: seq<Txid>)
      requires txToCluster.Keys == visible.Keys && visible.Keys <= mempool.Keys
      requires related0 == ClusterIds(txToCluster, Elems(parents))
      ensures forall c :: c in Elems(children) <==> RecordedChild(visible, spentBy, tx, c)
      ensures related == ClusterIds(txToCluster, Elems(parents) + Elems(children))
    {
      related, children := related0, [];
      assert Elems(parents) + Elems(children) == Elems(parents);
      for vout := 0 to tx.vouts
        invariant forall c | c in Elems(children) :: RecordedChild(visible, spentBy, tx, c)
        invariant forall k: nat | k < vout && (tx.txid, k) in spentBy && spentBy[(tx.txid, k)] in visible :: spentBy[(tx.txid, k)] in Elems(children)
        invariant related == ClusterIds(txToCluster, Elems(parents) + Elems(children))
      {
        if (tx.txid, vout) in spentBy {
          var child := spentBy[(tx.txid, vout)];
          if child in mempool {
            if child in txToCluster {
              ClusterIdsAdd(txToCluster, Elems(parents) + Elems(children), child);
              related := related + {txToCluster[child]};
              ElemsConcat(children, [child]);
              assert Elems(parents) + Elems(children + [child]) == Elems(parents) + Elems(children) + {child};
              children := children + [child];
            }
          }
        }
      }
    }

    /** The recorded children are the visible ones. */
    lemma ChildrenRecorded(tx: MempoolTx)
      requires SpendsRecorded(visible, spentBy) && OnlyRecorded(visible, spentBy)
      requires tx.txid !in visible && OutputsExist(visible[tx.txid := tx])
      ensures forall c: Txid :: RecordedChild(visible, spentBy, tx, c) <==> c in visible && SpendsFrom(visible[c], tx.txid)
    {
      forall c: Txid ensures RecordedChild(visible, spentBy, tx, c) <==> c in visible && SpendsFrom(visible[c], tx.txid) {
        if RecordedChild(visible, spentBy, tx, c) {
          var k: nat :| k < tx.vouts && (tx.txid, k) in spentBy && spentBy[(tx.txid, k)] == c;
          assert SpendsOutpoint(visible[c], (tx.txid, k));
          OutpointSpends(visible[c], (tx.txid, k));
        }
        if c in visible && SpendsFrom(visible[c], tx.txid) {
          SpendsSome(visible[c], tx.txid);
          var o: Outpoint :| o.0 == tx.txid && SpendsOutpoint(visible[c], o);
          var txs := visible[tx.txid := tx];
          assert c in txs && o.0 in txs && SpendsOutpoint(txs[c], o) && txs[o.0] == tx;
          assert o in spentBy && spentBy[o] == c && o.1 < tx.vouts;
          assert (tx.txid, o.1) == o;
        }
      }
    }

    /** A transaction without visible relatives gets a cluster of its own. */
    method AddSingletonCluster(tx: MempoolTx)
      requires IsIndexed() && tx.txid !in visible && !SpendsFrom(tx, tx.txid)
      requires forall u | u in visible :: !SpendsFrom(visible[u], tx.txid) && !SpendsFrom(tx, u)
      requires CleanLinearized(costBudget, clusters) && AllWhole(clusters)
      modifies this`clusters, this`txToCluster, this`nextClusterId, this`visible
      ensures IsIndexed() && CleanLinearized(costBudget, clusters) && AllWhole(clusters)
      ensures visible == old(visible)[tx.txid := tx]
    {
      hide Indexed, Linearized, Answered, Connected, ExactGraph, SpendsFrom, EffectiveFee, AdjustedWeight;
      var clusterId := nextClusterId;
      nextClusterId := nextClusterId + 1;
      var empty := Graph(map[], map[], map[], {});
      var graph := AddTransaction(empty, tx.txid, EffectiveFee(accelerations, tx, tx.txid), AdjustedWeight(tx), tx.order);
      var cluster := Cluster(clusterId, graph, [tx.txid], [], true);
      SingletonGraph(visible[tx.txid := tx], accelerations, tx.txid);
      CreateIndexed(visible, visible[tx.txid := tx], accelerations, clusters, txToCluster, clusterId, {tx.txid}, cluster);
      clusters := clusters[clusterId := cluster];
      assert txToCluster[tx.txid := clusterId] == Sent(txToCluster, {tx.txid}, clusterId);
      txToCluster := txToCluster[tx.txid := clusterId];
      visible := visible[tx.txid := tx];
    }

    /** Moves all transactions, links and the linearization of one cluster into another. */
    method MergeClusterInto(primaryId: nat, otherId: nat)
      requires IsIndexed() && primaryId in clusters && otherId in clusters && primaryId != otherId
      modifies this`clusters, this`txToCluster
      ensures IsIndexed() && clusters.Keys == old(clusters).Keys - {otherId}
      ensures clusters[primaryId].graph.Nodes() == old(clusters)[primaryId].graph.Nodes() + old(clusters)[otherId].graph.Nodes()
      ensures clusters[primaryId].graph.edges == old(clusters)[primaryId].graph.edges + old(clusters)[otherId].graph.edges
      ensures forall id | id in clusters && id != primaryId :: clusters[id] == old(clusters)[id]
    {
      hide Indexed;
      IndexKeys();
      var primary, other := clusters[primaryId], clusters[otherId];
      var merged := primary.(graph := Union(primary.graph, other.graph), linearization := primary.linearization + other.linearization);
      MergeIndexed(visible, accelerations, clusters, txToCluster, nextClusterId, primaryId, otherId, merged);
      clusters := clusters[primaryId := merged] - {otherId};
      SendTo(other.graph.Nodes(), primaryId);
    }

    /** Adds the transaction to the cluster that holds all its relatives, with its links. */
    method AddToExistingCluster(tx: MempoolTx, clusterId: nat, parents: seq<Txid>, children: seq<Txid>)
      requires IsIndexed() && clusterId in clusters && tx.txid !in visible && !SpendsFrom(tx, tx.txid)
      requires forall p :: p in Elems(parents) <==> p in visible && SpendsFrom(tx, p)
      requires forall c :: c in Elems(children) <==> c in visible && SpendsFrom(visible[c], tx.txid)
      requires forall t | t in Elems(parents) + Elems(children) :: t in clusters[clusterId].graph.Nodes()
      modifies this`clusters, this`txToCluster, this`visible
      ensures IsIndexed() && visible == old(visible)[tx.txid := tx] && clusters.Keys == old(clusters).Keys
      ensures clusters[clusterId].dirty && clusters[clusterId].graph.Nodes() == old(clusters)[clusterId].graph.Nodes() + {tx.txid}
      ensures clusters[clusterId].graph.edges == old(clusters)[clusterId].graph.edges + NewEdges(tx.txid, Elems(parents), Elems(children))
      ensures forall id | id in clusters && id != clusterId :: clusters[id] == old(clusters)[id]
    {
      hide Indexed, NewEdges, SpendsFrom, ExactGraph, Elems, EffectiveFee, AdjustedWeight;
      IndexKeys();
      var cluster := clusters[clusterId];
      ClusterGraph(clusterId);
      var graph := AddTransaction(cluster.graph, tx.txid, EffectiveFee(accelerations, tx, tx.txid), AdjustedWeight(tx), tx.order);
      graph := AddParentDeps(graph, tx.txid, parents);
      graph := AddChildDeps(graph, tx.txid, children);
      var c' := cluster.(graph := graph, linearization := cluster.linearization + [tx.txid], dirty := true);
      NewEdgesSplit(tx.txid, Elems(parents), Elems(children));
      AddGraph(visible, accelerations, cluster.graph, tx, Elems(parents), Elems(children), graph);
      InCluster(clusterId, tx, Elems(parents), Elems(children));
      AddIndexed(visible, accelerations, clusters, txToCluster, nextClusterId, clusterId, tx.txid, tx, c');
      clusters := clusters[clusterId := c'];
      txToCluster := txToCluster[tx.txid := clusterId];
      visible := visible[tx.txid := tx];
    }

    lemma ClusterGraph(id: nat)
      requires IsIndexed() && id in clusters
      ensures ExactGraph(visible, accelerations, clusters[id].graph)
      ensures forall t | t in clusters[id].graph.Nodes() :: t in txToCluster && txToCluster[t] == id
    {
    }

    lemma InCluster(id: nat, tx: MempoolTx, parents: set<Txid>, children: set<Txid>)
      requires IsIndexed() && id in clusters
      requires forall p :: p in parents <==> p in visible && SpendsFrom(tx, p)
      requires forall c :: c in children <==> c in visible && SpendsFrom(visible[c], tx.txid)
      requires forall t | t in parents + children :: t in clusters[id].graph.Nodes()
      ensures txToCluster.Keys == visible.Keys
      ensures forall u | u in visible && (SpendsFrom(visible[u], tx.txid) || SpendsFrom(tx, u)) :: txToCluster[u] == id
    {
      ClusterGraph(id);
      hide Indexed, SpendsFrom;
      IndexKeys();
      forall u | u in visible && (SpendsFrom(visible[u], tx.txid) || SpendsFrom(tx, u)) ensures txToCluster[u] == id {
        assert u in parents + children;
      }
    }

    static method AddParentDeps(graph0: Graph, child: Txid, parents: seq<Txid>) returns (graph: Graph)
      requires child in graph0.Nodes() && forall p | p in Elems(parents) :: p in graph0.Nodes()
      ensures graph == graph0.(edges := graph0.edges + NewEdges(child, Elems(parents), {}))
    {
      graph := graph0;
      for i := 0 to |parents|
        invariant graph == graph0.(edges := graph0.edges + NewEdges(child, Elems(parents[..i]), {}))
      {
        assert parents[i] in Elems(parents);
        assert Elems(parents[..i + 1]) == Elems(parents[..i]) + {parents[i]} by { assert parents[..i + 1] == parents[..i] + [parents[i]]; }
        MoreEdges(child, Elems(parents[..i]), {}, parents[i]);
        graph := AddDependency(graph, parents[i], child);
      }
      assert parents[..|parents|] == parents;
    }

    static method AddChildDeps(graph0: Graph, parent: Txid, children: seq<Txid>) returns (graph: Graph)
      requires parent in graph0.Nodes() && forall c | c in Elems(children) :: c in graph0.Nodes()
      ensures graph == graph0.(edges := graph0.edges + NewEdges(parent, {}, Elems(children)))
    {
      graph := graph0;
      for i := 0 to |children|
        invariant graph == graph0.(edges := graph0.edges + NewEdges(parent, {}, Elems(children[..i])))
      {
        assert children[i] in Elems(children);
        assert Elems(children[..i + 1]) == Elems(children[..i]) + {children[i]} by { assert children[..i + 1] == children[..i] + [children[i]]; }
        MoreEdges(parent, {}, Elems(children[..i]), children[i]);
        graph := AddDependency(graph, parent, children[i]);
      }
      assert children[..|children|] == children;
    }

    /** Merges the other related clusters into the primary one. */
    method MergeRelated(related: set<nat>, primaryId: nat)
      requires IsIndexed() && related <= clusters.Keys && primaryId in related
      modifies this`clusters, this`txToCluster
      ensures IsIndexed() && clusters.Keys == old(clusters).Keys - (related - {primaryId})
      ensures forall id | id in clusters && id != primaryId :: clusters[id] == old(clusters)[id]
      ensures IsMergeOf(old(clusters), related, clusters[primaryId].graph.Nodes())
    {
      hide Indexed;
      var todo := related - {primaryId};
      assert related - todo == {primaryId};
      while todo != {}
        invariant todo <= related - {primaryId} && IsIndexed()
        invariant clusters.Keys == old(clusters).Keys - (related - {primaryId} - todo)
        invariant forall id | id in clusters && id != primaryId :: clusters[id] == old(clusters)[id]
        invariant IsMergeOf(old(clusters), related - todo, clusters[primaryId].graph.Nodes())
        decreases todo
      {
        var clusterId :| clusterId in todo;
        IsMergeOfNext(old(clusters), related - todo, clusterId, clusters[primaryId].graph.Nodes());
        MergeClusterInto(primaryId, clusterId);
        assert related - (todo - {clusterId}) == related - todo + {clusterId};
        todo := todo - {clusterId};
      }
      assert related - {} == related;
    }

    /** Merges all related clusters into one of them and adds the transaction there. */
    method MergeAndAddToCluster(tx: MempoolTx, related: set<nat>, parents: seq<Txid>, children: seq<Txid>)
      requires IsIndexed() && tx.txid !in visible && !SpendsFrom(tx, tx.txid)
      requires CleanLinearized(costBudget, clusters) && AllWhole(clusters)
      requires forall p :: p in Elems(parents) <==> p in visible && SpendsFrom(tx, p)
      requires forall c :: c in Elems(children) <==> c in visible && SpendsFrom(visible[c], tx.txid)
      requires related == ClusterIds(txToCluster, Elems(parents) + Elems(children)) && related != {}
      modifies this`clusters, this`txToCluster, this`visible
      ensures IsIndexed() && CleanLinearized(costBudget, clusters) && AllWhole(clusters)
      ensures visible == old(visible)[tx.txid := tx]
    {
      hide Indexed, Linearized, Answered, Connected, SpendsFrom, NewEdges, IsMergeOf, Whole, Elems, ClusterIds, ExactGraph;
      IndexKeys();
      RelatedInClusters(clusters, txToCluster, Elems(parents) + Elems(children));
      var primaryId :| primaryId in related;
      MergeRelated(related, primaryId);
      forall t | t in Elems(parents) + Elems(children) ensures t in clusters[primaryId].graph.Nodes() {
        RelativeIn(old(clusters), old(txToCluster), related, Elems(parents) + Elems(children), clusters[primaryId].graph.Nodes(), t);
      }
      ghost var merged := clusters[primaryId].graph.Nodes();
      AddToExistingCluster(tx, primaryId, parents, children);
      ClusterGraph(primaryId);
      JoinedWhole(old(visible), accelerations, old(clusters), old(txToCluster), old(nextClusterId), related, tx,
                  Elems(parents), Elems(children), merged, clusters[primaryId].graph);
      JoinedWholeGraph(clusters[primaryId]);
    }

    lemma JoinedWholeGraph(c: Cluster)
      requires Connected(c.graph.edges, c.graph.Nodes())
      ensures Whole(c)
    {
    }

    /** One addition: records its spends and joins it to the clusters of its relatives. */
    method AddOne(tx: MempoolTx)
      requires IsIndexed() && SpendsKnown() && CleanLinearized(costBudget, clusters) && AllWhole(clusters)
      requires visible.Keys <= mempool.Keys && tx.txid !in tracked
      requires tx.txid in seen ==> seen[tx.txid] == tx
      requires GoodSpends(tracked[tx.txid := tx])
      modifies this`clusters, this`txToCluster, this`nextClusterId, this`tracked, this`visible, this`spentBy, this`seen
      ensures IsIndexed() && SpendsKnown() && CleanLinearized(costBudget, clusters) && AllWhole(clusters)
      ensures tracked == old(tracked)[tx.txid := tx] && visible == old(visible)[tx.txid := tx] && seen == old(seen)[tx.txid := tx]
      ensures Unheard(tracked, spentBy) == old(Unheard(tracked, spentBy))
    {
      hide Indexed, Linearized, Answered, Connected, SpendsFrom, Whole, ClusterIds, Elems, SpendsRecorded, SpendsTrue, GoodSpends,
           NoDoubleSpend, OutputsExist, Shows, OnlyRecorded, Unheard;
      ShowsKeys(visible, tracked);
      ShowsMore(visible, tracked, tx);
      ShowsGood(visible[tx.txid := tx], tracked[tx.txid := tx]);
      NoSelfSpend(visible[tx.txid := tx], tx.txid);
      GoodParts(visible[tx.txid := tx]);
      GoodParts(tracked[tx.txid := tx]);
      IndexKeys();
      RecordSpends(tx);
      StillRecorded(tx);
      var related, parents, children := FindRelatedClusters(tx);
      AddToClusters(tx, related, parents, children);
      tracked := tracked[tx.txid := tx];
    }

    lemma StillRecorded(tx: MempoolTx)
      requires tx.txid !in visible && SpendsRecorded(visible[tx.txid := tx], spentBy) && OnlyRecorded(visible[tx.txid := tx], spentBy)
      ensures SpendsRecorded(visible, spentBy) && OnlyRecorded(visible, spentBy)
    {
      var txs := visible[tx.txid := tx];
      forall t | t in visible ensures t in txs && txs[t] == visible[t] {
      }
    }

    /** Parents and visible children of the transaction and the clusters they are in. */
    method FindRelatedClusters(tx: MempoolTx) returns (related: set<nat>, parents: seq<Txid>, children: seq<Txid>)
      requires txToCluster.Keys == visible.Keys && visible.Keys <= mempool.Keys && tx.txid !in visible
      requires SpendsRecorded(visible, spentBy) && OnlyRecorded(visible, spentBy) && OutputsExist(visible[tx.txid := tx])
      ensures forall p :: p in Elems(parents) <==> p in visible && SpendsFrom(tx, p)
      ensures forall c :: c in Elems(children) <==> c in visible && SpendsFrom(visible[c], tx.txid)
      ensures related == ClusterIds(txToCluster, Elems(parents) + Elems(children))
    {
      hide Elems, SpendsFrom, ClusterIds, SpendsRecorded, OnlyRecorded, OutputsExist, RecordedChild;
      ChildrenRecorded(tx);
      related, parents := FindRelatedParents(tx);
      related, children := FindRelatedChildren(tx, related, parents);
    }

    /** The children found are all tracked children if and only if the transaction is not unheard. */
    lemma ChildrenFound(tx: MempoolTx)
      requires SpendsKnown() && tx.txid !in tracked && OutputsExist(visible[tx.txid := tx])
      ensures (forall c: Txid :: RecordedChild(visible, spentBy, tx, c) <==> c in tracked && SpendsFrom(tracked[c], tx.txid))
              <==> tx.txid !in Unheard(tracked, spentBy)
    {
      hide Shows, SpendsFrom, SpendsRecorded, OnlyRecorded, Heard, Unheard, OutputsExist, RecordedChild;
      ShowsKeys(visible, tracked);
      ChildrenRecorded(tx);
      forall c | c in tracked ensures SpendsFrom(visible[c], tx.txid) <==> SpendsFrom(tracked[c], tx.txid) && Heard(spentBy, tracked[c], c, tx.txid) {
        VisibleHeard(visible, tracked, spentBy, tx.txid, c);
      }
      IsUnheard(tracked, spentBy, tx.txid);
      if tx.txid in Unheard(tracked, spentBy) {
        var c :| c in tracked && SpendsFrom(tracked[c], tx.txid) && !Heard(spentBy, tracked[c], c, tx.txid);
        assert !RecordedChild(visible, spentBy, tx, c);
      }
    }

    method AddToClusters(tx: MempoolTx, related: set<nat>, parents: seq<Txid>, children: seq<Txid>)
      requires IsIndexed() && tx.txid !in visible && !SpendsFrom(tx, tx.txid)
      requires CleanLinearized(costBudget, clusters) && AllWhole(clusters)
      requires forall p :: p in Elems(parents) <==> p in visible && SpendsFrom(tx, p)
      requires forall c :: c in Elems(children) <==> c in visible && SpendsFrom(visible[c], tx.txid)
      requires related == ClusterIds(txToCluster, Elems(parents) + Elems(children))
      modifies this`clusters, this`txToCluster, this`nextClusterId, this`visible
      ensures IsIndexed() && CleanLinearized(costBudget, clusters) && AllWhole(clusters)
      ensures visible == old(visible)[tx.txid := tx]
    {
      hide Indexed, Linearized, Answered, SpendsFrom, Whole, ClusterIds, Elems;
      IndexKeys();
      if |related| == 0 {
        NoRelatives(txToCluster, Elems(parents) + Elems(children));
        forall u | u in visible ensures !SpendsFrom(visible[u], tx.txid) && !SpendsFrom(tx, u) {
          assert u !in Elems(parents) + Elems(children);
        }
        AddSingletonCluster(tx);
      } else {
        MergeAndAddToCluster(tx, related, parents, children);
      }
    }

    /** All additions of a diff, in any order of parents and children. */
    method ProcessAdditions(added: seq<MempoolTx>)
      requires IsIndexed() && SpendsKnown() && CleanLinearized(costBudget, clusters) && AllWhole(clusters)
      requires Agree(AddAll(tracked, added), mempool) && GoodSpends(AddAll(tracked, added))
      requires Additions(tracked, seen, added)
      modifies this`clusters, this`txToCluster, this`nextClusterId, this`tracked, this`visible, this`spentBy, this`seen
      ensures IsIndexed() && SpendsKnown() && CleanLinearized(costBudget, clusters) && AllWhole(clusters)
      ensures tracked == AddAll(old(tracked), added)
      ensures Unheard(tracked, spentBy) == old(Unheard(tracked, spentBy))
    {
      hide Indexed, Linearized, Answered, GoodSpends, Whole, Shows, SpendsRecorded, OnlyRecorded, SpendsTrue, Unheard;
      for i := 0 to |added|
        invariant IsIndexed() && SpendsKnown() && CleanLinearized(costBudget, clusters) && AllWhole(clusters)
        invariant tracked == AddAll(old(tracked), added[..i]) && Unheard(tracked, spentBy) == old(Unheard(tracked, spentBy))
        invariant forall t | t in seen :: (t in old(seen) && seen[t] == old(seen)[t]) || exists j | 0 <= j < i :: added[j].txid == t
      {
        ShowsKeys(visible, tracked);
        AddAllNext(old(tracked), added, i);
        AdditionStep(old(tracked), old(seen), mempool, added, i);
        AddOne(added[i]);
      }
      assert added[..|added|] == added;
    }

    // ---------- relinearizing

    /** Gives the cluster a new id, a new linearization and new chunks. */
    method RelinearizeOne(id: nat)
      requires IsIndexed() && GoodSpends(visible) && CleanLinearized(costBudget, clusters) && AllWhole(clusters) && id in clusters
      modifies this`clusters, this`txToCluster, this`nextClusterId
      ensures IsIndexed() && CleanLinearized(costBudget, clusters) && AllWhole(clusters)
      ensures nextClusterId == old(nextClusterId) + 1 && clusters.Keys == old(clusters).Keys - {id} + {old(nextClusterId)}
      ensures !clusters[old(nextClusterId)].dirty
      ensures forall i | i in old(clusters) && i != id :: clusters[i] == old(clusters)[i]
    {
      hide Indexed, Linearized, Answered, GoodSpends, Connected, Linearize.IsAnswer;
      IndexKeys();
      var cluster := clusters[id];
      AcyclicCluster(id);
      var newId := nextClusterId;
      nextClusterId := nextClusterId + 1;
      var linearization, chunks;
      ghost var stages;
      linearization, chunks, stages := Linearize.LinearizeCluster(cluster.graph, costBudget, cluster.linearization);
      var c' := cluster.(id := newId, linearization := linearization, chunks := chunks, dirty := false);
      IsLinearizedCluster(c');
      IsAnswered(costBudget, c', cluster.linearization, stages);
      RenameIndexed(visible, accelerations, clusters, txToCluster, newId, id, c');
      clusters := (clusters - {id})[newId := c'];
      SendTo(cluster.graph.Nodes(), newId);
    }

    lemma IsLinearizedCluster(c: Cluster)
      requires Linearize.IsLinearized(c.graph, c.linearization, c.chunks)
      ensures Linearized(c)
    {
    }

    lemma AcyclicCluster(id: nat)
      requires IsIndexed() && GoodSpends(visible) && id in clusters
      ensures clusters[id].graph.WellFormed() && clusters[id].graph.Acyclic()
    {
      var g := clusters[id].graph;
      assert ExactGraph(visible, accelerations, g);
      GraphOfWellFormed(visible, accelerations, g.Nodes());
      var rank :| RankedBy(SpendEdges(visible, visible.Keys), rank);
      forall p, c | (p, c) in g.edges ensures p in rank && c in rank && rank[p] < rank[c] {
        SpendEdge(visible, g.Nodes(), p, c);
        SpendEdge(visible, visible.Keys, p, c);
      }
      hide SpendEdges;
      assert RankedBy(g.edges, rank);
    }

    /** Walks the clusters in the order of their ids; relinearized ones come back at the end and
        are clean by then. */
    method RelinearizeDirtyClusters()
      requires IsIndexed() && GoodSpends(visible) && CleanLinearized(costBudget, clusters) && AllWhole(clusters)
      modifies this`clusters, this`txToCluster, this`nextClusterId
      ensures IsIndexed() && CleanLinearized(costBudget, clusters) && AllWhole(clusters) && AllClean(clusters)
    {
      hide Indexed, Linearized, Answered, GoodSpends, Whole;
      var id := 0;
      ghost var n := nextClusterId;
      IndexKeys();
      while id < nextClusterId
        invariant IsIndexed() && CleanLinearized(costBudget, clusters) && AllWhole(clusters) && n <= nextClusterId
        invariant forall i | i in clusters :: i < nextClusterId
        invariant forall i | i in clusters :: i < id || i >= n ==> !clusters[i].dirty
        decreases if id < n then n - id else 0, nextClusterId - id
      {
        if id in clusters && clusters[id].dirty {
          RelinearizeOne(id);
        }
        id := id + 1;
      }
    }

    // ---------- a whole diff

    /** What the caller owes for a diff against its mempool `pool`. */
    ghost predicate Fits(pool: Pool, diff: MempoolDiff)
      reads this
    {
      var kept := tracked - Elems(diff.removed);
      && Agree(After(tracked, diff), pool) && GoodSpends(After(tracked, diff))
      && Additions(kept, seen, diff.added)
      && (forall t | t in diff.removed && t in pool && t in tracked :: pool[t] == tracked[t])
      && (forall t, u, o: Outpoint | t in diff.removed && t in pool && t !in tracked && u in kept && SpendsOutpoint(pool[t], o) ::
            !SpendsOutpoint(kept[u], o))
    }

    /** After any diff the clusters are those of the tracked transactions and the spends recorded for
        them. Parents without a record of a tracked child are as before, but for the children that
        were removed; so an exact index stays exact if and only if no such parent is added. */
    method ApplyMempoolChange(pool: Pool, diff: MempoolDiff)
      requires Valid() && Fits(pool, diff)
      modifies this
      ensures Valid() && tracked == After(old(tracked), diff) && accelerations == diff.accelerations && mempool == pool
      ensures Unheard(tracked, spentBy) == old(Unheard(tracked - Elems(diff.removed), spentBy))
      ensures old(IsExact()) ==> (IsExact() <==> forall tx | tx in diff.added :: tx.txid !in Unheard(tracked, spentBy))
      ensures Applied(old(tracked), tracked, diff)
      ensures Carried(clusters, txToCluster, tracked, diff.accelerations) && Linked(clusters, txToCluster, tracked, spentBy)
    {
      hide Indexed, CleanLinearized, GoodSpends, Whole, SpendsOutpoint, SpendsKnown, Unheard, Agree, Additions, Elems, SameData, Carried, Linked, Applied;
      mempool := pool;
      RemovedSpends(pool, diff);
      ProcessRemovals(diff.removed);
      SplitDisconnectedClusters();
      KeptData(pool, diff);
      ProcessAccelerationChanges(diff.accelerations);
      ProcessAdditions(diff.added);
      GoodVisible();
      RelinearizeDirtyClusters();
      StillExact(old(tracked), old(spentBy), diff);
      AfterPlain(old(tracked), diff);
      Plain();
    }

    /** In plain terms: every tracked transaction is in a cluster, with its fee and delta, the larger of
        its weight and that of its sigops, and the recorded spends. */
    lemma Plain()
      requires Valid()
      ensures Carried(clusters, txToCluster, tracked, accelerations) && Linked(clusters, txToCluster, tracked, spentBy)
    {
      hide Valid, Carried;
      AllCarried();
      forall p, c | p in tracked && c in tracked
        ensures c in txToCluster && txToCluster[c] in clusters
        ensures (p, c) in clusters[txToCluster[c]].graph.edges <==>
                exists v | v in tracked[c].vin :: !v.isCoinbase && v.txid == p && (p, v.vout) in spentBy && spentBy[(p, v.vout)] == c
      {
        EdgeMeans(p, c);
      }
    }

    lemma AllCarried()
      requires Valid()
      ensures Carried(clusters, txToCluster, tracked, accelerations)
    {
      hide Indexed, SpendsKnown, GoodSpends, AllWhole, CleanLinearized, SameData, ExactGraph;
      ShowsParts();
      IndexFacts(accelerations);
      forall t | t in tracked
        ensures t in clusters[txToCluster[t]].graph.fee && t in clusters[txToCluster[t]].graph.weight
        ensures var fee, weight := clusters[txToCluster[t]].graph.fee[t], clusters[txToCluster[t]].graph.weight[t];
                && fee == tracked[t].fee + (if t in accelerations then accelerations[t] else 0)
                && weight >= tracked[t].weight && weight >= 20 * tracked[t].sigops && (weight == tracked[t].weight || weight == 20 * tracked[t].sigops)
      {
        TxExact(t);
        TxCarried(t, clusters[txToCluster[t]].graph);
      }
    }

    lemma TxCarried(t: Txid, g: Graph)
      requires t in visible && t in tracked && ExactGraph(visible, accelerations, g) && t in g.Nodes() && Blind(tracked[t]) == Blind(visible[t])
      ensures t in g.fee && t in g.weight && g.fee[t] == tracked[t].fee + (if t in accelerations then accelerations[t] else 0)
      ensures g.weight[t] >= tracked[t].weight && g.weight[t] >= 20 * tracked[t].sigops && (g.weight[t] == tracked[t].weight || g.weight[t] == 20 * tracked[t].sigops)
    {
      hide GraphOf;
      GraphPlain(visible, accelerations, g.Nodes());
      assert Blind(tracked[t]).fee == Blind(visible[t]).fee && Blind(tracked[t]).weight == Blind(visible[t]).weight
             && Blind(tracked[t]).sigops == Blind(visible[t]).sigops;
    }

    lemma TxExact(t: Txid)
      requires IsIndexed() && SpendsKnown() && t in tracked
      ensures t in visible && t in txToCluster && txToCluster[t] in clusters && Blind(tracked[t]) == Blind(visible[t])
      ensures ExactGraph(visible, accelerations, clusters[txToCluster[t]].graph)
    {
      hide ExactGraph, Together, SpendsRecorded, OnlyRecorded, SpendsTrue, Agree;
      ShowsParts();
    }

    lemma ShowsParts()
      requires SpendsKnown()
      ensures visible.Keys == tracked.Keys && SameData(visible, tracked)
    {
    }

    lemma EdgeMeans(p: Txid, c: Txid)
      requires Valid() && p in tracked && c in tracked
      ensures c in txToCluster && txToCluster[c] in clusters
      ensures (p, c) in clusters[txToCluster[c]].graph.edges <==>
              exists v | v in tracked[c].vin :: !v.isCoinbase && v.txid == p && (p, v.vout) in spentBy && spentBy[(p, v.vout)] == c
    {
      hide GoodSpends, AllWhole, CleanLinearized, EffectiveFee, AdjustedWeight, SpendsFrom, SpendsOutpoint, Shows, SpendsRecorded, OnlyRecorded, SpendsTrue, Agree;
      ShowsParts();
      var g := clusters[txToCluster[c]].graph;
      assert ExactGraph(visible, accelerations, g) && c in g.Nodes();
      SpendEdge(visible, g.Nodes(), p, c);
      assert SpendsFrom(visible[c], p) ==> txToCluster[p] == txToCluster[c];
      VisibleHeard(visible, tracked, spentBy, p, c);
      HeardMeans(spentBy, tracked[c], c, p);
    }

    lemma KeptData(pool: Pool, diff: MempoolDiff)
      requires SpendsKnown() && Agree(AddAll(tracked, diff.added), pool) && Additions(tracked, seen, diff.added)
      ensures SameData(visible, pool)
    {
      hide Shows, AddAll, Additions, Agree;
      KeptInPool(tracked, seen, pool, diff.added);
      SameDataKept(visible, tracked, pool);
    }

    lemma GoodVisible()
      requires SpendsKnown() && GoodSpends(tracked)
      ensures GoodSpends(visible)
    {
      hide GoodSpends, Shows;
      ShowsGood(visible, tracked);
    }

    lemma StillExact(before: Pool, records: map<Outpoint, Txid>, diff: MempoolDiff)
      requires tracked == After(before, diff) && Unheard(tracked, spentBy) == Unheard(before - Elems(diff.removed), records)
      ensures Unheard(before, records) !! before.Keys ==> (IsExact() <==> forall tx | tx in diff.added :: tx.txid !in Unheard(tracked, spentBy))
    {
      hide Unheard;
      var kept := before - Elems(diff.removed);
      UnheardFewer(before, records, Elems(diff.removed));
      AddAllKeys(kept, diff.added, |diff.added|);
      AddedIn(kept, diff.added, |diff.added|);
      assert diff.added[..|diff.added|] == diff.added;
      forall tx | tx in diff.added ensures tx.txid in tracked {
        var j :| 0 <= j < |diff.added| && diff.added[j] == tx;
      }
    }

    /** What is kept of the mempool is known as before. */
    lemma KeptKnown(removed: seq<Txid>, before: map<Outpoint, Txid>)
      requires Shows(visible, tracked) && SpendsRecorded(visible, before) && OnlyRecorded(visible, spentBy) && Agree(tracked, seen)
      requires SameRecords(tracked - Elems(removed), before, spentBy)
      ensures var gone := Elems(removed);
              && Shows(visible - gone, tracked - gone) && Agree(tracked - gone, seen)
              && SpendsRecorded(visible - gone, spentBy) && OnlyRecorded(visible - gone, spentBy)
    {
      hide SpendsOutpoint, Elems;
      var gone := Elems(removed);
      ShowsLess(visible, tracked, gone);
      var less, kept := visible - gone, tracked - gone;
      forall t, o: Outpoint | t in less && SpendsOutpoint(less[t], o) ensures o in spentBy && spentBy[o] == t {
        assert SpendsOutpoint(visible[t], o) && kept[t] == tracked[t] && SpendsOutpoint(kept[t], o);
      }
    }

    lemma RemovedSpends(pool: Pool, diff: MempoolDiff)
      requires SpendsKnown() && GoodSpends(tracked) && Fits(pool, diff)
      ensures var kept := tracked - Elems(diff.removed);
              forall r, t, o: Outpoint | r in diff.removed && r in pool && t in kept && SpendsOutpoint(pool[r], o) :: !SpendsOutpoint(kept[t], o)
    {
      hide SpendsOutpoint;
      var kept := tracked - Elems(diff.removed);
      assert forall t | t in kept :: kept[t] == tracked[t];
    }

    lemma SomeMember(id: nat) returns (t: Txid)
      requires Valid() && id in clusters
      ensures t in tracked && t in txToCluster && txToCluster[t] == id && t in clusters[id].graph.Nodes()
    {
      assert Whole(clusters[id]);
      t :| t in clusters[id].graph.Nodes();
      hide GoodSpends;
    }

    // ---------- projected blocks

    /** Blocks of tracked transactions, each at most once and after everything it is known to spend,
        which is everything tracked that it spends if the index is exact. Each block takes the chunk
        that is first among those that fit, again and again. */
    method GetBlocks(n: int, enforceLimit: bool)
      returns (blocks: seq<BlockBuilder.ProjectedBlock>, ghost to: BlockBuilder.Progress, ghost chosen: seq<seq<Chunking.Chunk>>,
               ghost stops: seq<BlockBuilder.Progress>)
      requires Valid() && Agree(tracked, mempool)
      ensures blocks == [] || |blocks| <= n
      ensures n == 1 && !enforceLimit ==> Elems(BlockBuilder.Output(blocks)) == tracked.Keys
      ensures BlockBuilder.BlockByBlock(clusters, mempool, blocks, chosen, stops, n, enforceLimit) && to == stops[|blocks|]
      ensures BlockBuilder.Merged(clusters, BlockBuilder.Start(clusters), to, BlockBuilder.Joined(chosen))
      ensures n == 1 && !enforceLimit ==> to == BlockBuilder.Finished(clusters)
      ensures Distinct(BlockBuilder.Output(blocks)) && Elems(BlockBuilder.Output(blocks)) <= tracked.Keys
      ensures SpentFirst(visible, BlockBuilder.Output(blocks)) && (IsExact() ==> SpentFirst(tracked, BlockBuilder.Output(blocks)))
    {
      hide Valid, IsExact, BlockBuilder.Packable, BlockBuilder.Packed, BlockBuilder.IsProgress, SpendsFrom, BlockBuilder.Finished, BlockBuilder.Holds,
           BlockBuilder.Merged, BlockBuilder.Stuck, BlockBuilder.Output, BlockBuilder.Joined, BlockBuilder.BlockByBlock, SpentFirst, Elems, Distinct,
           BlockBuilder.AllFit, SpendsKnown, Agree;
      ValidKeys();
      ValidPackable();
      blocks, to, chosen, stops := BlockBuilder.AssembleBlocks(n, clusters, mempool, enforceLimit);
      BlocksTracked(to, BlockBuilder.Output(blocks));
      if IsExact() {
        AfterAllSpent(BlockBuilder.Output(blocks));
      }
    }

    /** What comes after all visible parents comes after all parents if the index is exact. */
    lemma AfterAllSpent(out: seq<Txid>)
      requires SpendsKnown() && IsExact() && Elems(out) <= tracked.Keys
      requires visible.Keys == tracked.Keys && SpentFirst(visible, out)
      ensures SpentFirst(tracked, out)
    {
      hide SpendsKnown, IsExact, SpendsFrom;
      ExactVisible();
      forall p, j | p in tracked && 0 <= j < |out| && SpendsFrom(tracked[out[j]], p) ensures p in out[..j] {
        assert out[j] in Elems(out);
      }
    }

    lemma ValidKeys()
      requires Valid()
      ensures SpendsKnown() && visible.Keys == tracked.Keys
    {
      ShowsKeys(visible, tracked);
    }

    lemma ExactVisible()
      requires SpendsKnown() && IsExact()
      ensures forall p, c | p in tracked && c in tracked :: SpendsFrom(visible[c], p) <==> SpendsFrom(tracked[c], p)
    {
      hide SpendsFrom, Shows, SpendsRecorded, OnlyRecorded, Heard, Unheard;
      ShowsKeys(visible, tracked);
      forall p, c | p in tracked && c in tracked ensures SpendsFrom(visible[c], p) <==> SpendsFrom(tracked[c], p) {
        VisibleHeard(visible, tracked, spentBy, p, c);
        IsUnheard(tracked, spentBy, p);
      }
    }

    lemma ValidPackable()
      requires Valid() && Agree(tracked, mempool)
      ensures BlockBuilder.Packable(clusters, mempool)
    {
      hide Indexed, SpendsKnown, GoodSpends, AllWhole, Linearized, Answered;
      forall id | id in clusters ensures Linearized(clusters[id]) && clusters[id].graph.WellFormed() {
        CleanCluster(id);
      }
      forall id, t | id in clusters && t in clusters[id].graph.Nodes() && t in mempool
        ensures mempool[t].weight <= At(clusters[id].graph.weight, t)
      {
        ClusterGraph(id);
        VisibleData(t);
      }
      forall i, j | i in clusters && j in clusters && i != j ensures clusters[i].graph.Nodes() !! clusters[j].graph.Nodes() {
        ClusterGraph(i);
        ClusterGraph(j);
      }
    }

    lemma VisibleData(t: Txid)
      requires SpendsKnown() && t in visible
      ensures t in tracked && visible[t].weight == tracked[t].weight && visible[t].sigops == tracked[t].sigops
    {
      assert Blind(tracked[t]).weight == Blind(visible[t]).weight && Blind(tracked[t]).sigops == Blind(visible[t]).sigops;
    }

    lemma CleanCluster(id: nat)
      requires Valid() && id in clusters
      ensures Linearized(clusters[id]) && clusters[id].graph.WellFormed()
    {
      ClusterGraph(id);
      GraphOfWellFormed(visible, accelerations, clusters[id].graph.Nodes());
    }

    /** A spend between visible transactions is an edge of a cluster. */
    lemma SpendIsEdge(p: Txid, c: Txid)
      requires Valid() && p in visible && c in visible && SpendsFrom(visible[c], p)
      ensures BlockBuilder.HasEdge(clusters, p, c)
    {
      var id := txToCluster[c];
      assert txToCluster[p] == id && p in clusters[id].graph.Nodes() && c in clusters[id].graph.Nodes();
      ClusterGraph(id);
      SpendEdge(visible, clusters[id].graph.Nodes(), p, c);
    }

    lemma BlocksTracked(to: BlockBuilder.Progress, out: seq<Txid>)
      requires Valid() && BlockBuilder.Packable(clusters, mempool) && BlockBuilder.IsProgress(clusters, to) && BlockBuilder.Packed(clusters, to, out)
      ensures Distinct(out) && Elems(out) <= visible.Keys
      ensures SpentFirst(visible, out)
      ensures to == BlockBuilder.Finished(clusters) ==> Elems(out) == visible.Keys
    {
      hide Valid, BlockBuilder.Packable, BlockBuilder.Packed, BlockBuilder.IsProgress, SpendsFrom, BlockBuilder.HasEdge, BlockBuilder.Finished;
      PackedOnce(to, out);
      forall t | t in Elems(out) ensures t in visible {
        PlacedTracked(to, out, t);
      }
      forall p, j | p in visible && 0 <= j < |out| && SpendsFrom(visible[out[j]], p) ensures p in out[..j] {
        assert out[j] in Elems(out);
        SpendIsEdge(p, out[j]);
        BlockBuilder.SpentBefore(clusters, mempool, to, out, p, j);
      }
      if to == BlockBuilder.Finished(clusters) {
        forall t | t in visible ensures t in Elems(out) {
          TrackedHeld(t);
          BlockBuilder.FinishedHoldsAll(clusters, mempool, out, t);
        }
      }
    }

    lemma PackedOnce(to: BlockBuilder.Progress, out: seq<Txid>)
      requires BlockBuilder.Packed(clusters, to, out)
      ensures Distinct(out)
    {
    }

    lemma TrackedHeld(t: Txid)
      requires Valid() && t in visible
      ensures exists id | id in clusters :: t in clusters[id].graph.Nodes()
    {
      assert t in txToCluster;
    }

    lemma PlacedTracked(to: BlockBuilder.Progress, out: seq<Txid>, t: Txid)
      requires Valid() && BlockBuilder.Packable(clusters, mempool) && BlockBuilder.Packed(clusters, to, out) && t in Elems(out)
      ensures t in visible
    {
      assert BlockBuilder.PlacedTx(clusters, to, t);
      var id, j :| id in clusters && id in to && 0 <= j < to[id] && j < |clusters[id].chunks| && t in clusters[id].chunks[j].txs;
      BlockBuilder.ChunkOf(clusters, mempool, id, j);
      assert t in clusters[id].graph.Nodes();
      ClusterGraph(id);
    }

    // ---------- building from a mempool

    /** Builds clusters for a whole mempool at once. The index is exact, and unheard are the parents
        that are missing in the mempool. */
    constructor (pool: Pool, accelerations: Deltas, costBudget: int)
      requires GoodSpends(pool)
      ensures Valid() && tracked == pool && this.accelerations == accelerations && mempool == pool && seen == pool
      ensures IsExact() && Unheard(tracked, spentBy) == MissingParents(pool)
      ensures Carried(clusters, txToCluster, pool, accelerations)
      ensures forall p, c | p in pool && c in pool ::
                (p, c) in clusters[txToCluster[c]].graph.edges <==> exists v | v in pool[c].vin :: !v.isCoinbase && v.txid == p
    {
      hide Indexed, GoodSpends, AllWhole, CleanLinearized, SpendsKnown, Unheard, MissingParents, Recorded, Shows;
      this.mempool, this.accelerations, this.costBudget := pool, accelerations, costBudget;
      clusters, txToCluster, spentBy, nextClusterId := map[], map[], map[], 0;
      tracked, visible, seen := pool, map[], pool;
      new;
      BuildFromMempool();
      Plain();
      AllSpends();
    }

    /** In an exact index every spend between tracked transactions is an edge. */
    lemma AllSpends()
      requires Valid() && IsExact()
      ensures forall p, c | p in tracked && c in tracked :: c in txToCluster && txToCluster[c] in clusters
      ensures forall p, c | p in tracked && c in tracked ::
                (p, c) in clusters[txToCluster[c]].graph.edges <==> exists v | v in tracked[c].vin :: !v.isCoinbase && v.txid == p
    {
      hide Indexed, GoodSpends, AllWhole, CleanLinearized, SpendsKnown, Unheard;
      forall p, c | p in tracked && c in tracked
        ensures c in txToCluster && txToCluster[c] in clusters
        ensures (p, c) in clusters[txToCluster[c]].graph.edges <==> exists v | v in tracked[c].vin :: !v.isCoinbase && v.txid == p
      {
        EdgeMeans(p, c);
        IsUnheard(tracked, spentBy, p);
        HeardMeans(spentBy, tracked[c], c, p);
      }
    }

    method BuildFromMempool()
      requires GoodSpends(mempool) && clusters == map[] && txToCluster == map[] && visible == map[]
      requires seen == mempool && tracked == mempool
      modifies this`clusters, this`txToCluster, this`nextClusterId, this`visible, this`spentBy
      ensures Valid() && IsExact() && Unheard(tracked, spentBy) == MissingParents(mempool)
    {
      hide Indexed, Linearized, Answered, GoodSpends, Whole, SpendsTrue, IsComponent, SpendEdges, AreComponents, UnionOf,
           IsParentMap, Elems, NoDoubleSpend, Unheard, MissingParents, Shows, SpendsRecorded, OnlyRecorded, Recorded;
      GoodParts(mempool);
      var parentMap;
      parentMap, spentBy := BuildRelativeMaps(mempool);
      var edges := RelativeEdges(mempool, parentMap, spentBy);
      var list := AnyOrder(mempool.Keys);
      var components := FindComponents(edges, list);
      StartIndexed(accelerations, nextClusterId);
      assert components[..0] == [];
      for i := 0 to |components|
        invariant IsIndexed() && CleanLinearized(costBudget, clusters) && AllWhole(clusters) && AllClean(clusters)
        invariant Agree(visible, mempool) && visible.Keys == UnionOf(components[..i])
        invariant Recorded(mempool, spentBy) && SpendsTrue(mempool, spentBy)
      {
        NextComponent(edges, mempool.Keys, components, i);
        CreateClusterFromTxids(components[i], parentMap);
      }
      assert components[..|components|] == components;
      AllCovered(edges, mempool.Keys, components);
      assert visible == mempool;
      visible := VisiblePart(mempool);
      LoadedKnown(mempool, spentBy);
      LoadedSame(mempool);
      SameSpendsIndexed(mempool, visible, accelerations, clusters, txToCluster, nextClusterId);
    }

    /** One component becomes a linearized cluster. */
    method CreateClusterFromTxids(txids: set<Txid>, parentMap: map<Txid, set<Txid>>)
      requires IsIndexed() && CleanLinearized(costBudget, clusters) && AllWhole(clusters) && AllClean(clusters)
      requires GoodSpends(mempool) && Agree(visible, mempool) && IsParentMap(mempool, parentMap)
      requires IsComponent(SpendEdges(mempool, mempool.Keys), mempool.Keys, txids) && txids !! visible.Keys
      modifies this`clusters, this`txToCluster, this`nextClusterId, this`visible
      ensures IsIndexed() && CleanLinearized(costBudget, clusters) && AllWhole(clusters) && AllClean(clusters)
      ensures Agree(visible, mempool) && visible.Keys == old(visible).Keys + txids
    {
      hide Indexed, Linearized, Answered, GoodSpends, Whole, SpendEdges, IsComponent, GraphOf, ExactGraph, IsParentMap, SpendsFrom;
      IndexKeys();
      ComponentInside(mempool, txids);
      var clusterId := nextClusterId;
      nextClusterId := nextClusterId + 1;
      var cluster := MakeCluster(mempool, accelerations, txids, parentMap, clusterId, costBudget);
      ghost var grown := map t | t in visible.Keys + txids :: mempool[t];
      ComponentApart(mempool, visible.Keys, txids);
      GrownExact(mempool, grown, accelerations, txids);
      CreateIndexed(visible, grown, accelerations, clusters, txToCluster, clusterId, txids, cluster);
      clusters := clusters[clusterId := cluster];
      SendTo(txids, clusterId);
      visible := grown;
    }
  }

  method MakeCluster(pool: Pool, acc: Deltas, txids: set<Txid>, parentMap: map<Txid, set<Txid>>, id: nat, costBudget: int)
    returns (cluster: Cluster)
    requires GoodSpends(pool) && IsParentMap(pool, parentMap) && txids <= pool.Keys
    requires IsComponent(SpendEdges(pool, pool.Keys), pool.Keys, txids)
    ensures cluster.id == id && cluster.graph == GraphOf(pool, acc, txids) && cluster.graph.Nodes() == txids && !cluster.dirty
    ensures Linearized(cluster) && Answered(costBudget, cluster) && Whole(cluster)
  {
    hide Answered, Linearize.IsAnswer, GoodSpends, Connected, SpendEdges, IsComponent, GraphOf, IsParentMap;
    var graph := BuildGraph(pool, acc, txids, parentMap);
    ComponentGraph(pool, acc, txids);
    var linearization, chunks;
    ghost var stages;
    linearization, chunks, stages := Linearize.LinearizeCluster(graph, costBudget, []);
    cluster := Cluster(id, graph, linearization, chunks, false);
    IsAnswered(costBudget, cluster, [], stages);
  }

  /** Parents that are spent from but absent. */
  ghost function MissingParents(pool: Pool): set<Txid> {
    set c, v | c in pool && v in pool[c].vin && !v.isCoinbase && v.txid !in pool :: v.txid
  }

  ghost predicate IsParentMap(pool: Pool, parentMap: map<Txid, set<Txid>>) {
    && parentMap.Keys <= pool.Keys
    && forall c, p | c in pool && p in pool :: SpendsFrom(pool[c], p) <==> c in parentMap && p in parentMap[c]
  }

  /** Parents of every transaction in the mempool and spenders of their outpoints. */
  method BuildRelativeMaps(pool: Pool) returns (parentMap: map<Txid, set<Txid>>, spentBy: map<Outpoint, Txid>)
    requires NoDoubleSpend(pool)
    ensures IsParentMap(pool, parentMap)
    ensures Recorded(pool, spentBy) && SpendsTrue(pool, spentBy)
  {
    hide SpendsFrom, SpendsOutpoint;
    parentMap, spentBy := map[], map[];
    var todo := pool.Keys;
    while todo != {}
      invariant todo <= pool.Keys && parentMap.Keys <= pool.Keys - todo
      invariant forall c, p | c in pool && c !in todo && p in pool :: SpendsFrom(pool[c], p) <==> c in parentMap && p in parentMap[c]
      invariant forall c, o: Outpoint | c in pool && c !in todo && SpendsOutpoint(pool[c], o) && o.0 in pool :: o in spentBy && spentBy[o] == c
      invariant SpendsTrue(pool, spentBy) && forall o | o in spentBy :: o.0 in pool
      decreases todo
    {
      var txid :| txid in todo;
      todo := todo - {txid};
      var txParents;
      txParents, spentBy := ScanInputs(pool, txid, spentBy);
      if |txParents| > 0 {
        parentMap := parentMap[txid := txParents];
      }
    }
  }

  /** Exactly the spends from present parents are recorded. */
  ghost predicate Recorded(pool: Pool, spentBy: map<Outpoint, Txid>) {
    && (forall c, o: Outpoint | c in pool && SpendsOutpoint(pool[c], o) && o.0 in pool :: o in spentBy && spentBy[o] == c)
    && (forall o | o in spentBy :: o.0 in pool)
  }

  ghost function Present(vin: seq<Vin>, keys: set<Txid>): (r: seq<Vin>)
    ensures forall v :: v in r <==> v in vin && v.txid in keys
  {
    if vin == [] then [] else Present(vin[..|vin| - 1], keys) + if vin[|vin| - 1].txid in keys then [vin[|vin| - 1]] else []
  }

  /** The spends that are seen when the mempool is loaded. */
  ghost function VisiblePart(pool: Pool): Pool {
    map c | c in pool :: pool[c].(vin := Present(pool[c].vin, pool.Keys))
  }

  /** After loading, exactly the visible spends are recorded, and missing parents are unheard. */
  lemma LoadedKnown(pool: Pool, spentBy: map<Outpoint, Txid>)
    requires Recorded(pool, spentBy) && SpendsTrue(pool, spentBy)
    ensures Shows(VisiblePart(pool), pool) && SpendsRecorded(VisiblePart(pool), spentBy) && OnlyRecorded(VisiblePart(pool), spentBy)
    ensures Unheard(pool, spentBy) == MissingParents(pool) && MissingParents(pool) !! pool.Keys
  {
    hide VisiblePart, Shows, SpendsRecorded, OnlyRecorded, SpendsTrue, Recorded, Unheard, MissingParents;
    LoadedShows(pool);
    LoadedRecorded(pool, spentBy);
    forall p ensures p in Unheard(pool, spentBy) <==> p in MissingParents(pool) {
      LoadedUnheard(pool, spentBy, p);
    }
    MissingAbsent(pool);
  }

  lemma LoadedShows(pool: Pool)
    ensures Shows(VisiblePart(pool), pool)
  {
    LoadedSame(pool);
    forall c, o: Outpoint | c in pool && SpendsOutpoint(VisiblePart(pool)[c], o) ensures SpendsOutpoint(pool[c], o) {
      VisibleSpends(pool, c, o);
    }
    hide SpendsOutpoint, VisiblePart;
  }

  lemma LoadedRecorded(pool: Pool, spentBy: map<Outpoint, Txid>)
    requires Recorded(pool, spentBy) && SpendsTrue(pool, spentBy)
    ensures SpendsRecorded(VisiblePart(pool), spentBy) && OnlyRecorded(VisiblePart(pool), spentBy)
  {
    LoadedSame(pool);
    SpendsLoaded(pool, spentBy);
    var visible := VisiblePart(pool);
    forall o | o in spentBy && spentBy[o] in visible ensures SpendsOutpoint(visible[spentBy[o]], o) {
      VisibleSpends(pool, spentBy[o], o);
    }
    hide SpendsOutpoint, VisiblePart;
  }

  lemma SpendsLoaded(pool: Pool, spentBy: map<Outpoint, Txid>)
    requires Recorded(pool, spentBy)
    ensures SpendsRecorded(VisiblePart(pool), spentBy)
  {
    LoadedSame(pool);
    var visible := VisiblePart(pool);
    forall c, o: Outpoint | c in visible && SpendsOutpoint(visible[c], o) ensures o in spentBy && spentBy[o] == c {
      VisibleSpends(pool, c, o);
    }
    hide SpendsOutpoint, VisiblePart;
  }

  lemma VisibleSpends(pool: Pool, c: Txid, o: Outpoint)
    requires c in pool
    ensures SpendsOutpoint(VisiblePart(pool)[c], o) <==> SpendsOutpoint(pool[c], o) && o.0 in pool
  {
  }

  lemma MissingAbsent(pool: Pool)
    ensures MissingParents(pool) !! pool.Keys
  {
  }

  lemma LoadedUnheard(pool: Pool, spentBy: map<Outpoint, Txid>, p: Txid)
    requires Recorded(pool, spentBy) && SpendsTrue(pool, spentBy)
    ensures p in Unheard(pool, spentBy) <==> p in MissingParents(pool)
  {
    IsUnheard(pool, spentBy, p);
    forall c | c in pool && SpendsFrom(pool[c], p) ensures Heard(spentBy, pool[c], c, p) <==> p in pool {
      SpendsSome(pool[c], p);
      var o: Outpoint :| o.0 == p && SpendsOutpoint(pool[c], o);
    }
    hide Heard, Unheard;
    if p in MissingParents(pool) {
      var c, v :| c in pool && v in pool[c].vin && !v.isCoinbase && v.txid == p;
      assert SpendsFrom(pool[c], p);
    }
  }

  lemma LoadedSame(pool: Pool)
    ensures var visible := VisiblePart(pool); forall p, c | p in pool && c in pool :: SpendsFrom(visible[c], p) <==> SpendsFrom(pool[c], p)
    ensures SameData(VisiblePart(pool), pool) && SameData(pool, VisiblePart(pool)) && VisiblePart(pool).Keys == pool.Keys
  {
  }

  method ScanInputs(pool: Pool, txid: Txid, spentBy0: map<Outpoint, Txid>) returns (txParents: set<Txid>, spentBy: map<Outpoint, Txid>)
    requires txid in pool && SpendsTrue(pool, spentBy0) && forall o | o in spentBy0 :: o.0 in pool
    ensures forall p | p in pool :: SpendsFrom(pool[txid], p) <==> p in txParents
    ensures forall o: Outpoint | SpendsOutpoint(pool[txid], o) && o.0 in pool :: o in spentBy && spentBy[o] == txid
    ensures forall o: Outpoint | o in spentBy0 && !SpendsOutpoint(pool[txid], o) :: o in spentBy && spentBy[o] == spentBy0[o]
    ensures SpendsTrue(pool, spentBy) && forall o | o in spentBy :: o.0 in pool
  {
    txParents, spentBy := {}, spentBy0;
    var tx := pool[txid];
    for i := 0 to |tx.vin|
      invariant forall p | p in txParents :: SpendsFrom(tx, p)
      invariant forall v | v in tx.vin[..i] && !v.isCoinbase && v.txid in pool ::
                  v.txid in txParents && (v.txid, v.vout) in spentBy && spentBy[(v.txid, v.vout)] == txid
      invariant forall o: Outpoint | o in spentBy0 && !SpendsOutpoint(tx, o) :: o in spentBy && spentBy[o] == spentBy0[o]
      invariant SpendsTrue(pool, spentBy) && forall o | o in spentBy :: o.0 in pool
    {
      var v := tx.vin[i];
      assert tx.vin[..i + 1] == tx.vin[..i] + [v];
      if !v.isCoinbase && v.txid in pool {
        txParents := txParents + {v.txid};
        assert SpendsOutpoint(tx, (v.txid, v.vout));
        spentBy := spentBy[(v.txid, v.vout) := txid];
      }
    }
    assert tx.vin[..|tx.vin|] == tx.vin;
  }

  /** The relation the component search follows: recorded parents, and children found as
      spenders of a transaction's outputs. */
  method RelativeEdges(pool: Pool, parentMap: map<Txid, set<Txid>>, spentBy: map<Outpoint, Txid>) returns (edges: set<(Txid, Txid)>)
    requires IsParentMap(pool, parentMap) && SpendsTrue(pool, spentBy)
    ensures edges == SpendEdges(pool, pool.Keys)
  {
    edges := {};
    var todo := pool.Keys;
    while todo != {}
      invariant todo <= pool.Keys
      invariant forall p: Txid, c: Txid | (p, c) in edges :: p in pool && c in pool && SpendsFrom(pool[c], p)
      invariant forall p: Txid, c: Txid | c in pool && c !in todo && p in pool && SpendsFrom(pool[c], p) :: (p, c) in edges
      decreases todo
    {
      var txid :| txid in todo;
      todo := todo - {txid};
      if txid in parentMap {
        edges := edges + set p | p in parentMap[txid] && p in pool :: (p, txid);
      }
      for vout := 0 to pool[txid].vouts
        invariant forall p: Txid, c: Txid | (p, c) in edges :: p in pool && c in pool && SpendsFrom(pool[c], p)
        invariant forall p: Txid, c: Txid | c in pool && c !in todo && p in pool && SpendsFrom(pool[c], p) :: (p, c) in edges
      {
        if (txid, vout) in spentBy {
          OutpointSpends(pool[spentBy[(txid, vout)]], (txid, vout));
          edges := edges + {(txid, spentBy[(txid, vout)])};
        }
      }
    }
    forall e | e in edges ensures e in SpendEdges(pool, pool.Keys) {
      SpendEdge(pool, pool.Keys, e.0, e.1);
      assert e == (e.0, e.1);
    }
    forall e | e in SpendEdges(pool, pool.Keys) ensures e in edges {
      SpendEdge(pool, pool.Keys, e.0, e.1);
      assert e == (e.0, e.1);
    }
  }

  /** The dependency graph of a component, transaction by transaction and link by link. */
  method BuildGraph(pool: Pool, acc: Deltas, txids: set<Txid>, parentMap: map<Txid, set<Txid>>) returns (graph: Graph)
    requires txids <= pool.Keys && IsParentMap(pool, parentMap)
    ensures graph == GraphOf(pool, acc, txids) && graph.fee.Keys == graph.weight.Keys == graph.order.Keys == txids
    ensures forall t | t in txids ::
              && (t !in acc ==> graph.fee[t] == pool[t].fee) && (t in acc ==> graph.fee[t] == pool[t].fee + acc[t])
              && graph.weight[t] >= pool[t].weight && graph.weight[t] >= 20 * pool[t].sigops
              && (graph.weight[t] == pool[t].weight || graph.weight[t] == 20 * pool[t].sigops) && graph.order[t] == pool[t].order
    ensures forall p, c :: (p, c) in graph.edges <==> p in txids && c in txids && exists v | v in pool[c].vin :: !v.isCoinbase && v.txid == p
  {
    hide AdjustedWeight, EffectiveFee, SpendsFrom;
    graph := Graph(map[], map[], map[], {});
    var todo := txids;
    assert txids - todo == {};
    while todo != {}
      invariant todo <= txids && graph == GraphOf(pool, acc, txids - todo).(edges := {})
      decreases todo
    {
      var t :| t in todo;
      AddFields(pool, acc, txids - todo, t);
      assert txids - (todo - {t}) == txids - todo + {t};
      graph := AddTransaction(graph, t, EffectiveFee(acc, pool[t], t), AdjustedWeight(pool[t]), pool[t].order);
      todo := todo - {t};
    }
    assert txids - {} == txids;
    graph := AddLinks(pool, txids, parentMap, graph);
    GraphPlain(pool, acc, txids);
  }

  lemma GraphPlain(pool: Pool, acc: Deltas, txids: set<Txid>)
    requires txids <= pool.Keys
    ensures var graph := GraphOf(pool, acc, txids);
            && graph.fee.Keys == graph.weight.Keys == graph.order.Keys == txids
            && (forall t | t in txids ::
                  && (t !in acc ==> graph.fee[t] == pool[t].fee) && (t in acc ==> graph.fee[t] == pool[t].fee + acc[t])
                  && graph.weight[t] >= pool[t].weight && graph.weight[t] >= 20 * pool[t].sigops
                  && (graph.weight[t] == pool[t].weight || graph.weight[t] == 20 * pool[t].sigops) && graph.order[t] == pool[t].order)
            && forall p, c :: (p, c) in graph.edges <==> p in txids && c in txids && exists v | v in pool[c].vin :: !v.isCoinbase && v.txid == p
  {
    hide SpendEdges;
    forall p, c ensures (p, c) in SpendEdges(pool, txids) <==> p in txids && c in txids && exists v | v in pool[c].vin :: !v.isCoinbase && v.txid == p {
      SpendEdge(pool, txids, p, c);
    }
  }

  method AddLinks(pool: Pool, txids: set<Txid>, parentMap: map<Txid, set<Txid>>, graph0: Graph) returns (graph: Graph)
    requires txids <= pool.Keys && IsParentMap(pool, parentMap) && graph0.Nodes() == txids && graph0.edges == {}
    ensures graph == graph0.(edges := SpendEdges(pool, txids))
  {
    hide SpendsFrom;
    graph := graph0;
    var todo := txids;
    while todo != {}
      invariant todo <= txids && graph == graph0.(edges := graph.edges)
      invariant forall p: Txid, c: Txid :: (p, c) in graph.edges <==> c in txids && c !in todo && p in txids && SpendsFrom(pool[c], p)
      decreases todo
    {
      var t :| t in todo;
      ghost var before := graph;
      if t in parentMap {
        var parents := parentMap[t] * txids;
        while parents != {}
          invariant parents <= parentMap[t] * txids && graph == graph0.(edges := graph.edges)
          invariant forall p: Txid, c: Txid :: (p, c) in graph.edges <==> (p, c) in before.edges || (c == t && p in parentMap[t] * txids - parents)
          decreases parents
        {
          var p :| p in parents;
          graph := AddDependency(graph, p, t);
          parents := parents - {p};
        }
      }
      todo := todo - {t};
    }
    forall e | e in graph.edges ensures e in SpendEdges(pool, txids) {
      SpendEdge(pool, txids, e.0, e.1);
      assert e == (e.0, e.1);
    }
    forall e | e in SpendEdges(pool, txids) ensures e in graph.edges {
      SpendEdge(pool, txids, e.0, e.1);
      assert e == (e.0, e.1);
    }
    assert graph.edges == SpendEdges(pool, txids);
  }

  ghost function UnionOf(components: seq<set<Txid>>): set<Txid> {
    if components == [] then {} else UnionOf(components[..|components| - 1]) + components[|components| - 1]
  }

  lemma {:induction false} InUnion(components: seq<set<Txid>>, t: Txid)
    ensures t in UnionOf(components) <==> exists i | 0 <= i < |components| :: t in components[i]
  {
    if components != [] {
      var n := |components| - 1;
      var front := components[..n];
      InUnion(front, t);
      assert components == front + [components[n]];
      assert forall i | 0 <= i < n :: components[i] == front[i];
    }
  }

  lemma NextComponent(edges: set<(Txid, Txid)>, within: set<Txid>, components: seq<set<Txid>>, i: nat)
    requires AreComponents(edges, within, components) && i < |components|
    ensures IsComponent(edges, within, components[i]) && components[i] !! UnionOf(components[..i])
    ensures UnionOf(components[..i + 1]) == UnionOf(components[..i]) + components[i]
  {
    assert IsComponent(edges, within, components[i]);
    hide IsComponent;
    assert components[..i + 1][..i] == components[..i];
    forall t | t in components[i] ensures t !in UnionOf(components[..i]) {
      InUnion(components[..i], t);
      forall j | 0 <= j < i ensures t !in components[..i][j] {
        assert components[j] !! components[i];
      }
    }
  }

  lemma AllCovered(edges: set<(Txid, Txid)>, within: set<Txid>, components: seq<set<Txid>>)
    requires AreComponents(edges, within, components)
    ensures within <= UnionOf(components)
  {
    hide IsComponent;
    forall t | t in within ensures t in UnionOf(components) {
      InUnion(components, t);
    }
  }

  lemma ComponentInside(pool: Pool, txids: set<Txid>)
    requires IsComponent(SpendEdges(pool, pool.Keys), pool.Keys, txids)
    ensures txids <= pool.Keys
  {
  }

  lemma StartIndexed(acc: Deltas, next: nat)
    ensures Indexed(map[], acc, map[], map[], next)
    ensures UnionOf([]) == {}
  {
  }

  /** The graph of a component is acyclic and connected. */
  lemma ComponentGraph(pool: Pool, acc: Deltas, txids: set<Txid>)
    requires GoodSpends(pool) && IsComponent(SpendEdges(pool, pool.Keys), pool.Keys, txids)
    ensures var g := GraphOf(pool, acc, txids);
            g.Nodes() == txids && g.WellFormed() && g.Acyclic() && Connected(g.edges, txids)
  {
    GraphOfWellFormed(pool, acc, txids);
    var g := GraphOf(pool, acc, txids);
    var rank :| RankedBy(SpendEdges(pool, pool.Keys), rank);
    forall p, c | (p, c) in g.edges ensures p in rank && c in rank && rank[p] < rank[c] {
      SpendEdge(pool, txids, p, c);
      SpendEdge(pool, pool.Keys, p, c);
    }
    forall p, c | p in txids && c in txids ensures (p, c) in g.edges <==> (p, c) in SpendEdges(pool, pool.Keys) {
      SpendEdge(pool, txids, p, c);
      SpendEdge(pool, pool.Keys, p, c);
    }
    hide SpendEdges;
    assert RankedBy(g.edges, rank);
    ConnectedSame(g.edges, SpendEdges(pool, pool.Keys), txids);
  }

  lemma ComponentApart(pool: Pool, others: set<Txid>, txids: set<Txid>)
    requires IsComponent(SpendEdges(pool, pool.Keys), pool.Keys, txids) && others <= pool.Keys && others !! txids
    ensures forall t, u | t in txids && u in others :: !SpendsFrom(pool[u], t) && !SpendsFrom(pool[t], u)
  {
    forall t, u | t in txids && u in others ensures !SpendsFrom(pool[u], t) && !SpendsFrom(pool[t], u) {
      SpendEdge(pool, pool.Keys, t, u);
      SpendEdge(pool, pool.Keys, u, t);
    }
  }

  lemma GrownExact(pool: Pool, grown: Pool, acc: Deltas, txids: set<Txid>)
    requires txids <= pool.Keys && txids <= grown.Keys && Agree(grown, pool)
    ensures ExactGraph(grown, acc, GraphOf(pool, acc, txids))
  {
    GraphOfSame(pool, grown, acc, acc, txids);
    GraphOfWellFormed(pool, acc, txids);
  }

  /** However an index came about, its clusters are those a rebuild over the same transactions and
      accelerations makes if and only if it is exact. */
  lemma IncrementalIsRebuild(a: ClusterMempool, rebuilt: ClusterMempool)
    requires a.Valid() && rebuilt.Valid() && rebuilt.IsExact()
    requires a.tracked == rebuilt.tracked && a.accelerations == rebuilt.accelerations
    ensures (forall t | t in a.tracked :: SameGraphs(a, rebuilt, t)) <==> a.IsExact()
  {
    hide ClusterMempool.Valid, ClusterMempool.IsExact;
    rebuilt.ExactIndex();
    a.ExactIndex();
    if a.IsExact() {
      forall t | t in a.tracked ensures SameGraphs(a, rebuilt, t) {
        ExactGraphs(a, rebuilt, t);
      }
    }
    if forall t | t in a.tracked :: SameGraphs(a, rebuilt, t) {
      RebuiltIndexed(a, rebuilt);
    }
  }

  /** Both put the transaction into a cluster with the same graph. */
  ghost predicate SameGraphs(a: ClusterMempool, b: ClusterMempool, t: Txid)
    reads a, b
  {
    && t in a.txToCluster && a.txToCluster[t] in a.clusters && t in b.txToCluster && b.txToCluster[t] in b.clusters
    && a.clusters[a.txToCluster[t]].graph == b.clusters[b.txToCluster[t]].graph
  }

  lemma ExactGraphs(a: ClusterMempool, b: ClusterMempool, t: Txid)
    requires a.Valid() && b.Valid() && a.tracked == b.tracked && a.accelerations == b.accelerations && t in a.tracked
    requires Indexed(a.tracked, a.accelerations, a.clusters, a.txToCluster, a.nextClusterId)
    requires Indexed(b.tracked, b.accelerations, b.clusters, b.txToCluster, b.nextClusterId)
    ensures SameGraphs(a, b, t)
  {
    hide Whole, ExactGraph, GoodSpends, AllClean, CleanLinearized, ClusterMempool.SpendsKnown;
    IndexUnique(a.tracked, a.accelerations, a.clusters, a.txToCluster, a.nextClusterId, b.clusters, b.txToCluster, b.nextClusterId, t);
  }

  /** An index with the graphs of an exact one is exact for all spends. */
  lemma RebuiltIndexed(a: ClusterMempool, b: ClusterMempool)
    requires a.Valid() && b.Valid() && a.tracked == b.tracked && a.accelerations == b.accelerations
    requires Indexed(b.tracked, b.accelerations, b.clusters, b.txToCluster, b.nextClusterId)
    requires forall t | t in a.tracked :: SameGraphs(a, b, t)
    ensures Indexed(a.tracked, a.accelerations, a.clusters, a.txToCluster, a.nextClusterId)
  {
    hide ClusterMempool.Valid, SpendsFrom, Inverse, Numbered, ExactGraph, SameGraphs;
    ValidParts(a);
    forall id | id in a.clusters ensures ExactGraph(a.tracked, a.accelerations, a.clusters[id].graph) {
      var t := a.SomeMember(id);
      RebuiltGraph(a, b, t);
    }
    forall p, c | p in a.tracked && c in a.tracked && SpendsFrom(a.tracked[c], p) ensures a.txToCluster[p] == a.txToCluster[c] {
      RebuiltTogether(a, b, p, c);
    }
  }

  lemma ValidParts(a: ClusterMempool)
    requires a.Valid()
    ensures a.txToCluster.Keys == a.tracked.Keys && Inverse(a.clusters, a.txToCluster) && Numbered(a.clusters, a.nextClusterId)
  {
    ShowsKeys(a.visible, a.tracked);
  }

  lemma RebuiltGraph(a: ClusterMempool, b: ClusterMempool, t: Txid)
    requires a.tracked == b.tracked && a.accelerations == b.accelerations && SameGraphs(a, b, t)
    requires Indexed(b.tracked, b.accelerations, b.clusters, b.txToCluster, b.nextClusterId)
    ensures ExactGraph(a.tracked, a.accelerations, a.clusters[a.txToCluster[t]].graph)
  {
    hide ExactGraph, Together, Inverse, Numbered;
  }

  lemma RebuiltTogether(a: ClusterMempool, b: ClusterMempool, p: Txid, c: Txid)
    requires Inverse(a.clusters, a.txToCluster) && a.tracked == b.tracked && SameGraphs(a, b, p) && SameGraphs(a, b, c)
    requires Indexed(b.tracked, b.accelerations, b.clusters, b.txToCluster, b.nextClusterId)
    requires p in a.tracked && c in a.tracked && SpendsFrom(a.tracked[c], p)
    ensures a.txToCluster[p] == a.txToCluster[c]
  {
    hide ExactGraph, SpendsFrom, Numbered;
    assert b.txToCluster[p] == b.txToCluster[c];
    assert p in a.clusters[a.txToCluster[c]].graph.Nodes();
  }

  // ---------- where it fails

  function LateParent(): MempoolTx {
    MempoolTx(0, 1, 4, 0, 0, [], 1)
  }

  function EarlyChild(): MempoolTx {
    MempoolTx(1, 1, 4, 0, 1, [Vin(0, 0, false)], 1)
  }

  /** A child that was loaded without its parent is not joined to it when the parent comes. */
  method LateParentMissed(costBudget: int) returns (m: ClusterMempool)
    ensures fresh(m) && m.Valid() && !m.IsExact()
    ensures m.tracked == map[1 := EarlyChild(), 0 := LateParent()] && SpendsFrom(m.tracked[1], 0)
    ensures 0 in m.txToCluster && 1 in m.txToCluster && m.txToCluster[0] != m.txToCluster[1]
  {
    hide ClusterMempool.Valid, ClusterMempool.IsExact, Unheard, GoodSpends, MissingParents;
    var loaded, pool := map[1 := EarlyChild()], map[1 := EarlyChild(), 0 := LateParent()];
    LateParentGood();
    m := new ClusterMempool(loaded, map[], costBudget);
    var diff := MempoolDiff([LateParent()], [], map[]);
    LateParentFits(m, diff);
    m.ApplyMempoolChange(pool, diff);
    LateParentApart(m);
  }

  lemma LateParentGood()
    ensures GoodSpends(map[1 := EarlyChild()]) && GoodSpends(map[1 := EarlyChild(), 0 := LateParent()])
    ensures 0 in MissingParents(map[1 := EarlyChild()]) && SpendsFrom(EarlyChild(), 0)
  {
    hide GoodSpends;
    OneSpendGood(map[1 := EarlyChild()]);
    OneSpendGood(map[1 := EarlyChild(), 0 := LateParent()]);
    assert Vin(0, 0, false) in EarlyChild().vin;
  }

  lemma OneSpendGood(pool: Pool)
    requires 1 in pool && pool.Keys <= {0, 1} && pool[1] == EarlyChild() && (0 in pool ==> pool[0] == LateParent())
    ensures GoodSpends(pool)
  {
    forall c, o: Outpoint | c in pool && SpendsOutpoint(pool[c], o) ensures c == 1 && o == (0, 0) {
    }
    hide SpendsOutpoint;
    assert NoDoubleSpend(pool) && OutputsExist(pool);
    forall p, c | (p, c) in SpendEdges(pool, pool.Keys) ensures p == 0 && c == 1 {
      SpendEdge(pool, pool.Keys, p, c);
    }
    hide NoDoubleSpend, OutputsExist, SpendEdges;
    assert RankedBy(SpendEdges(pool, pool.Keys), map[0 := 0, 1 := 1]);
  }

  lemma LateParentFits(m: ClusterMempool, diff: MempoolDiff)
    requires m.tracked == m.seen == map[1 := EarlyChild()] && diff == MempoolDiff([LateParent()], [], map[])
    requires GoodSpends(map[1 := EarlyChild(), 0 := LateParent()])
    ensures After(m.tracked, diff) == map[1 := EarlyChild(), 0 := LateParent()]
    ensures m.Fits(map[1 := EarlyChild(), 0 := LateParent()], diff)
    ensures m.tracked - Elems(diff.removed) == m.tracked
  {
    hide GoodSpends, SpendsOutpoint;
    assert Elems(diff.removed) == {} && m.tracked - {} == m.tracked;
    AddAllNext(m.tracked, diff.added, 0);
    assert diff.added[..1] == diff.added && diff.added[..0] == [];
    assert AddAll(m.tracked, diff.added) == m.tracked[0 := LateParent()];
  }

  lemma LateParentApart(m: ClusterMempool)
    requires m.Valid() && m.tracked == map[1 := EarlyChild(), 0 := LateParent()] && 0 in Unheard(m.tracked, m.spentBy)
    ensures 0 in m.txToCluster && 1 in m.txToCluster && m.txToCluster[0] != m.txToCluster[1]
  {
    hide ClusterMempool.Valid, Unheard, SpendsFrom, ExactGraph, Whole, Inverse;
    ValidParts(m);
    NothingVisible(m);
    if m.txToCluster[0] == m.txToCluster[1] {
      ClusterParts(m, 0);
      ClusterParts(m, 1);
      NotTogether(m.visible, m.accelerations, m.clusters[m.txToCluster[0]]);
    }
  }

  lemma ClusterParts(m: ClusterMempool, t: Txid)
    requires m.Valid() && t in m.txToCluster
    ensures m.txToCluster[t] in m.clusters && t in m.clusters[m.txToCluster[t]].graph.Nodes()
    ensures Whole(m.clusters[m.txToCluster[t]]) && ExactGraph(m.visible, m.accelerations, m.clusters[m.txToCluster[t]].graph)
  {
    hide ExactGraph, Whole, Together, GoodSpends;
  }

  lemma NothingVisible(m: ClusterMempool)
    requires m.Valid() && m.tracked == map[1 := EarlyChild(), 0 := LateParent()] && 0 in Unheard(m.tracked, m.spentBy)
    ensures m.visible.Keys == {0, 1} && forall p, c | c in m.visible :: p in {0, 1} ==> !SpendsFrom(m.visible[c], p)
  {
    hide GoodSpends, Shows, SpendsRecorded, OnlyRecorded, Heard, Unheard, Indexed;
    ShowsKeys(m.visible, m.tracked);
    IsUnheard(m.tracked, m.spentBy, 0);
    forall p, c | c in m.visible && p in {0, 1} ensures !SpendsFrom(m.visible[c], p) {
      VisibleHeard(m.visible, m.tracked, m.spentBy, p, c);
    }
  }

  lemma NotTogether(txs: Pool, acc: Deltas, c: Cluster)
    requires ExactGraph(txs, acc, c.graph) && Whole(c) && txs.Keys == {0, 1}
    requires forall p, t | t in txs :: p in {0, 1} ==> !SpendsFrom(txs[t], p)
    ensures !(0 in c.graph.Nodes() && 1 in c.graph.Nodes())
  {
    var nodes := c.graph.Nodes();
    hide SpendsFrom, Whole;
    GraphFields(txs, acc, nodes);
    forall p: Txid, t: Txid ensures (p, t) !in c.graph.edges {
      SpendEdge(txs, nodes, p, t);
    }
    if 0 in nodes && 1 in nodes {
      NoEdges(c);
    }
  }

  lemma NoEdges(c: Cluster)
    requires c.graph.edges == {} && 0 in c.graph.Nodes() && 1 in c.graph.Nodes()
    ensures !Whole(c)
  {
    assert ClosedIn(c.graph.edges, c.graph.Nodes(), {0});
  }

  /** Every cluster of an exact index is a component of all spends between tracked transactions. */
  lemma ExactComponent(a: ClusterMempool, id: nat)
    requires a.Valid() && a.IsExact() && id in a.clusters
    ensures IsComponent(SpendEdges(a.tracked, a.tracked.Keys), a.tracked.Keys, a.clusters[id].graph.Nodes())
  {
    hide IsComponent, ExactGraph, GoodSpends, Indexed;
    a.ExactIndex();
    assert Whole(a.clusters[id]);
    IndexComponent(a.tracked, a.accelerations, a.clusters, a.txToCluster, a.nextClusterId, id);
  }

  /** The additions are new, and the same as before if they were tracked before. */
  ghost predicate Additions(txs: Pool, seen: Pool, added: seq<MempoolTx>) {
    && (forall i | 0 <= i < |added| :: added[i].txid !in txs)
    && (forall i, j | 0 <= i < j < |added| :: added[i].txid != added[j].txid)
    && (forall i | 0 <= i < |added| && added[i].txid in seen :: seen[added[i].txid] == added[i])
  }

  /** What is tracked after a diff, transaction by transaction. */
  lemma AfterPlain(txs: Pool, diff: MempoolDiff)
    ensures Applied(txs, After(txs, diff), diff)
  {
    AddAllPlain(txs - Elems(diff.removed), diff.added);
  }

  lemma {:induction false} AddAllPlain(txs: Pool, added: seq<MempoolTx>)
    ensures var after := AddAll(txs, added);
            && after.Keys == txs.Keys + (set tx | tx in added :: tx.txid)
            && forall t | t in after ::
                 if exists tx | tx in added :: tx.txid == t then after[t].txid == t && after[t] in added
                 else t in txs && after[t] == txs[t]
  {
    if added != [] {
      var n := |added| - 1;
      AddAllPlain(txs, added[..n]);
      assert added == added[..n] + [added[n]];
    }
  }

  lemma AddAllNext(txs: Pool, added: seq<MempoolTx>, i: nat)
    requires i < |added|
    ensures AddAll(txs, added[..i + 1]) == AddAll(txs, added[..i])[added[i].txid := added[i]]
  {
    assert added[..i + 1][..i] == added[..i];
  }

  lemma {:induction false} AddAllKeys(txs: Pool, added: seq<MempoolTx>, i: nat)
    requires i <= |added|
    ensures forall t | t in AddAll(txs, added[..i]) :: t in txs || exists j | 0 <= j < i :: added[j].txid == t
  {
    if i > 0 {
      AddAllKeys(txs, added, i - 1);
      AddAllNext(txs, added, i - 1);
    }
  }

  /** Later additions leave earlier records alone. */
  lemma {:induction false} AddAllGrows(txs: Pool, seen: Pool, added: seq<MempoolTx>, i: nat, j: nat)
    requires Additions(txs, seen, added) && i <= j <= |added|
    ensures Agree(AddAll(txs, added[..i]), AddAll(txs, added[..j]))
    decreases j - i
  {
    if i < j {
      AddAllGrows(txs, seen, added, i, j - 1);
      NotYetAdded(txs, seen, added, j - 1);
      AddAllNext(txs, added, j - 1);
      hide AddAll, Additions;
    }
  }

  lemma NotYetAdded(txs: Pool, seen: Pool, added: seq<MempoolTx>, i: nat)
    requires Additions(txs, seen, added) && i < |added|
    ensures added[i].txid !in AddAll(txs, added[..i])
  {
    AddAllKeys(txs, added, i);
    hide AddAll;
  }

  lemma AdditionStep(txs: Pool, seen: Pool, pool: Pool, added: seq<MempoolTx>, i: nat)
    requires Additions(txs, seen, added) && i < |added|
    requires Agree(AddAll(txs, added), pool) && GoodSpends(AddAll(txs, added))
    ensures Agree(AddAll(txs, added[..i]), pool) && added[i].txid !in AddAll(txs, added[..i])
    ensures GoodSpends(AddAll(txs, added[..i])[added[i].txid := added[i]])
    ensures (added[i].txid in seen ==> seen[added[i].txid] == added[i])
    ensures forall j | 0 <= j < i :: added[j].txid != added[i].txid
  {
    hide GoodSpends;
    assert added[..|added|] == added;
    AddAllGrows(txs, seen, added, i, |added|);
    AddAllGrows(txs, seen, added, i + 1, |added|);
    AddAllNext(txs, added, i);
    NotYetAdded(txs, seen, added, i);
    GoodSpendsSubset(AddAll(txs, added[..i + 1]), AddAll(txs, added));
  }

  lemma KeptInPool(kept: Pool, seen: Pool, pool: Pool, added: seq<MempoolTx>)
    requires Additions(kept, seen, added) && Agree(AddAll(kept, added), pool)
    ensures Agree(kept, pool)
  {
    AddAllGrows(kept, seen, added, 0, |added|);
    assert added[..|added|] == added && added[..0] == [];
  }

  /** Every addition is there in the end. */
  lemma {:induction false} AddedIn(txs: Pool, added: seq<MempoolTx>, n: nat)
    requires n <= |added|
    ensures forall j | 0 <= j < n :: added[j].txid in AddAll(txs, added[..n])
  {
    if n > 0 {
      AddedIn(txs, added, n - 1);
      AddAllNext(txs, added, n - 1);
    }
  }

  lemma DataKeys(txs: Pool, pool: Pool)
    requires SameData(txs, pool)
    ensures txs.Keys <= pool.Keys
  {
  }

  lemma SameDataKept(visible: Pool, txs: Pool, pool: Pool)
    requires Shows(visible, txs) && Agree(txs, pool)
    ensures SameData(visible, pool)
  {
  }

  lemma NoRelatives(txToCluster: map<Txid, nat>, relatives: set<Txid>)
    requires relatives <= txToCluster.Keys
    ensures |ClusterIds(txToCluster, relatives)| == 0 ==> relatives == {}
  {
    if t :| t in relatives {
      assert txToCluster[t] in ClusterIds(txToCluster, relatives);
    }
  }

  lemma GoodParts(txs: Pool)
    requires GoodSpends(txs)
    ensures NoDoubleSpend(txs) && OutputsExist(txs)
  {
  }

  /** The union of the transactions of some clusters. */
  ghost predicate IsMergeOf(clusters: map<nat, Cluster>, ids: set<nat>, nodes: set<Txid>) {
    forall x :: x in nodes <==> exists id | id in ids :: id in clusters && x in clusters[id].graph.Nodes()
  }

  lemma IsMergeOfNext(clusters: map<nat, Cluster>, ids: set<nat>, id: nat, nodes: set<Txid>)
    requires IsMergeOf(clusters, ids, nodes) && id in clusters
    ensures IsMergeOf(clusters, ids + {id}, nodes + clusters[id].graph.Nodes())
  {
  }

  lemma RelatedInClusters(clusters: map<nat, Cluster>, txToCluster: map<Txid, nat>, relatives: set<Txid>)
    requires forall t | t in txToCluster :: txToCluster[t] in clusters && t in clusters[txToCluster[t]].graph.Nodes()
    ensures ClusterIds(txToCluster, relatives) <= clusters.Keys
    ensures forall id | id in clusters :: IsMergeOf(clusters, {id}, clusters[id].graph.Nodes())
  {
  }

  lemma RelativeIn(clusters: map<nat, Cluster>, txToCluster: map<Txid, nat>, related: set<nat>, relatives: set<Txid>, nodes: set<Txid>, t: Txid)
    requires forall t | t in txToCluster :: txToCluster[t] in clusters && t in clusters[txToCluster[t]].graph.Nodes()
    requires related == ClusterIds(txToCluster, relatives) && IsMergeOf(clusters, related, nodes)
    requires t in relatives && t in txToCluster
    ensures t in nodes
  {
    assert txToCluster[t] in related;
  }

  /** The clusters of all relatives and the new transaction make one connected cluster. */
  lemma JoinedWhole(txs: Pool, acc: Deltas, clusters: map<nat, Cluster>, txToCluster: map<Txid, nat>, next: nat,
                    related: set<nat>, tx: MempoolTx, parents: set<Txid>, children: set<Txid>, merged: set<Txid>, g: Graph)
    requires Indexed(txs, acc, clusters, txToCluster, next) && AllWhole(clusters) && tx.txid !in txs
    requires forall p :: p in parents <==> p in txs && SpendsFrom(tx, p)
    requires forall c :: c in children <==> c in txs && SpendsFrom(txs[c], tx.txid)
    requires related == ClusterIds(txToCluster, parents + children) && IsMergeOf(clusters, related, merged)
    requires ExactGraph(txs[tx.txid := tx], acc, g) && g.Nodes() == merged + {tx.txid}
    ensures Connected(g.edges, g.Nodes())
  {
    hide Connected, ExactGraph, Indexed, SpendsFrom;
    var parts := set id | id in related && id in clusters :: clusters[id].graph.Nodes();
    forall id | id in related
      ensures id in clusters && Connected(g.edges, clusters[id].graph.Nodes()) && tx.txid !in clusters[id].graph.Nodes()
      ensures exists u | u in clusters[id].graph.Nodes() :: (u, tx.txid) in g.edges || (tx.txid, u) in g.edges
    {
      RelatedPart(txs, acc, clusters, txToCluster, next, tx, parents, children, merged, g, id, related);
    }
    JoinedConnected(g.edges, parts, tx.txid, g.Nodes());
  }

  lemma RelatedPart(txs: Pool, acc: Deltas, clusters: map<nat, Cluster>, txToCluster: map<Txid, nat>, next: nat, tx: MempoolTx,
                    parents: set<Txid>, children: set<Txid>, merged: set<Txid>, g: Graph, id: nat, related: set<nat>)
    requires Indexed(txs, acc, clusters, txToCluster, next) && AllWhole(clusters) && tx.txid !in txs
    requires forall p :: p in parents <==> p in txs && SpendsFrom(tx, p)
    requires forall c :: c in children <==> c in txs && SpendsFrom(txs[c], tx.txid)
    requires related == ClusterIds(txToCluster, parents + children) && id in related && IsMergeOf(clusters, related, merged)
    requires ExactGraph(txs[tx.txid := tx], acc, g) && g.Nodes() == merged + {tx.txid}
    ensures id in clusters && Connected(g.edges, clusters[id].graph.Nodes()) && tx.txid !in clusters[id].graph.Nodes()
    ensures exists u | u in clusters[id].graph.Nodes() :: (u, tx.txid) in g.edges || (tx.txid, u) in g.edges
  {
    hide SpendsFrom, ExactGraph, Together;
    var u :| u in parents + children && u in txToCluster && txToCluster[u] == id;
    var part := clusters[id].graph;
    assert ExactGraph(txs, acc, part) && Whole(clusters[id]);
    assert u in part.Nodes() && part.Nodes() <= merged;
    hide Indexed, AllWhole, IsMergeOf, ClusterIds, Whole, Connected;
    PartConnected(txs, acc, clusters[id], tx, g);
    ExactSpend(txs[tx.txid := tx], acc, g, u, tx.txid);
    ExactSpend(txs[tx.txid := tx], acc, g, tx.txid, u);
    ExactInside(txs, acc, part);
  }

  /** A whole cluster is connected in the larger graph too. */
  lemma PartConnected(txs: Pool, acc: Deltas, c: Cluster, tx: MempoolTx, g: Graph)
    requires ExactGraph(txs, acc, c.graph) && Whole(c) && tx.txid !in txs
    requires ExactGraph(txs[tx.txid := tx], acc, g) && c.graph.Nodes() <= g.Nodes()
    ensures Connected(g.edges, c.graph.Nodes())
  {
    hide Connected, SpendsFrom, ExactGraph;
    var part := c.graph;
    ExactInside(txs, acc, part);
    forall p, c | p in part.Nodes() && c in part.Nodes() ensures (p, c) in part.edges <==> (p, c) in g.edges {
      ExactSpend(txs, acc, part, p, c);
      ExactSpend(txs[tx.txid := tx], acc, g, p, c);
    }
    ConnectedSame(part.edges, g.edges, part.Nodes());
  }

  lemma MoreEdges(t: Txid, parents: set<Txid>, children: set<Txid>, u: Txid)
    ensures NewEdges(t, parents + {u}, children) == NewEdges(t, parents, children) + {(u, t)}
    ensures NewEdges(t, parents, children + {u}) == NewEdges(t, parents, children) + {(t, u)}
  {
  }

  lemma NewEdgesSplit(t: Txid, parents: set<Txid>, children: set<Txid>)
    ensures NewEdges(t, parents, children) == NewEdges(t, parents, {}) + NewEdges(t, {}, children)
  {
  }

  lemma SingletonGraph(txs: Pool, acc: Deltas, t: Txid)
    requires t in txs && !SpendsFrom(txs[t], t)
    ensures var g := AddTransaction(Graph(map[], map[], map[], {}), t, EffectiveFee(acc, txs[t], t), AdjustedWeight(txs[t]), txs[t].order);
            && g.Nodes() == {t} && ExactGraph(txs, acc, g) && Connected(g.edges, g.Nodes())
  {
    var g := AddTransaction(Graph(map[], map[], map[], {}), t, EffectiveFee(acc, txs[t], t), AdjustedWeight(txs[t]), txs[t].order);
    AddExact(txs, acc, {}, t, {}, {});
    assert GraphOf(txs, acc, {}) == Graph(map[], map[], map[], {});
    assert NewEdges(t, {}, {}) == {};
    assert {} + {t} == {t} && g.edges == {};
    assert GraphOf(txs, acc, {t}) == g;
  }

  /** The graph of a cluster after a new transaction and its links were added. */
  lemma AddGraph(txs: Pool, acc: Deltas, g: Graph, tx: MempoolTx, parents: set<Txid>, children: set<Txid>, g': Graph)
    requires ExactGraph(txs, acc, g) && tx.txid !in txs && !SpendsFrom(tx, tx.txid)
    requires forall p :: p in parents <==> p in txs && SpendsFrom(tx, p)
    requires forall c :: c in children <==> c in txs && SpendsFrom(txs[c], tx.txid)
    requires parents + children <= g.Nodes()
    requires var g1 := AddTransaction(g, tx.txid, EffectiveFee(acc, tx, tx.txid), AdjustedWeight(tx), tx.order);
             g' == g1.(edges := g1.edges + NewEdges(tx.txid, parents, children))
    ensures ExactGraph(txs[tx.txid := tx], acc, g') && g'.Nodes() == g.Nodes() + {tx.txid}
  {
    hide SpendsFrom, GraphOf, NewEdges, SpendEdges, AdjustedWeight, EffectiveFee;
    var txs' := txs[tx.txid := tx];
    var nodes := g.Nodes();
    ExactGraphSame(txs, txs', acc, acc, g);
    forall c | c in nodes ensures txs'[c] == txs[c] {
    }
    AddExact(txs', acc, nodes, tx.txid, parents, children);
    AddNodes(g, tx.txid, EffectiveFee(acc, tx, tx.txid), AdjustedWeight(tx), tx.order);
    hide AddTransaction;
  }

  lemma AddNodes(g: Graph, t: Txid, fee: int, weight: Weight, order: nat)
    ensures AddTransaction(g, t, fee, weight, order).Nodes() == g.Nodes() + {t}
  {
  }

  /** A tracked transaction that is recorded as spender of some output of `tx`. */
  ghost predicate RecordedChild(tracked: Pool, spentBy: map<Outpoint, Txid>, tx: MempoolTx, c: Txid) {
    c in tracked && exists k: nat | k < tx.vouts :: (tx.txid, k) in spentBy && spentBy[(tx.txid, k)] == c
  }

  function ClusterIds(txToCluster: map<Txid, nat>, txs: set<Txid>): set<nat> {
    set t | t in txs && t in txToCluster :: txToCluster[t]
  }

  lemma ClusterIdsAdd(txToCluster: map<Txid, nat>, txs: set<Txid>, t: Txid)
    requires t in txToCluster
    ensures ClusterIds(txToCluster, txs + {t}) == ClusterIds(txToCluster, txs) + {txToCluster[t]}
  {
  }

  lemma SameShapeWhole(c: Cluster, c': Cluster)
    requires c'.graph.edges == c.graph.edges && c'.graph.Nodes() == c.graph.Nodes() && Whole(c)
    ensures Whole(c')
  {
  }

  lemma EmptyNotWhole(c: Cluster)
    requires |c.graph.Nodes()| == 0
    ensures c.graph.Nodes() == {} && !Whole(c)
  {
  }

  lemma ManyNotWhole(c: Cluster, components: seq<set<Txid>>)
    requires AreComponents(c.graph.edges, c.graph.Nodes(), components) && |components| > 1
    ensures !Whole(c)
  {
    assert IsComponent(c.graph.edges, c.graph.Nodes(), components[0]) && IsComponent(c.graph.edges, c.graph.Nodes(), components[1]);
    assert components[0] !! components[1];
    assert components[0] != c.graph.Nodes();
  }

  lemma OneIsWhole(c: Cluster, components: seq<set<Txid>>)
    requires AreComponents(c.graph.edges, c.graph.Nodes(), components) && |components| <= 1 && |c.graph.Nodes()| != 0
    ensures Whole(c)
  {
    hide IsComponent;
    var nodes := c.graph.Nodes();
    var t :| t in nodes;
    assert exists i | 0 <= i < |components| :: t in components[i];
    forall u | u in nodes ensures u in components[0] {
      assert exists i | 0 <= i < |components| :: u in components[i];
    }
    assert IsComponent(c.graph.edges, nodes, components[0]);
    ComponentIsWhole(c, components[0]);
  }

  lemma ComponentIsWhole(c: Cluster, component: set<Txid>)
    requires IsComponent(c.graph.edges, c.graph.Nodes(), component) && c.graph.Nodes() <= component
    ensures Whole(c)
  {
    assert component == c.graph.Nodes();
  }

  /** Clusters from before are as they were, and those made since are whole. */
  ghost predicate SplitSince(before: map<nat, Cluster>, now: map<nat, Cluster>, next: nat) {
    && (forall i | i in now && i < next :: i in before && now[i] == before[i])
    && (forall i | i in now && i >= next :: Whole(now[i]))
  }

  lemma SplitSinceStart(clusters: map<nat, Cluster>, id: nat, next: nat)
    requires forall i | i in clusters :: i < next
    ensures SplitSince(clusters, clusters - {id}, next)
  {
  }

  lemma SplitSinceMore(before: map<nat, Cluster>, now: map<nat, Cluster>, later: map<nat, Cluster>, next: nat, id: nat)
    requires SplitSince(before, now, next) && later.Keys == now.Keys + {id} && id >= next && Whole(later[id])
    requires forall i | i in now :: later[i] == now[i]
    ensures SplitSince(before, later, next)
  {
    hide Whole;
  }

  lemma IsAnswered(costBudget: int, c: Cluster, given: seq<Txid>, stages: Linearize.Stages)
    requires Linearize.IsAnswer(c.graph, costBudget, given, stages, c.linearization, c.chunks)
    ensures Answered(costBudget, c)
  {
    hide Linearize.IsAnswer;
  }

  lemma CleanLess(costBudget: int, clusters: map<nat, Cluster>, id: nat)
    requires CleanLinearized(costBudget, clusters)
    ensures CleanLinearized(costBudget, clusters - {id})
  {
    hide Linearized, Answered;
  }

  /** What is left after the first k components went. */
  ghost predicate LeftOver(nodes: set<Txid>, components: seq<set<Txid>>, k: nat, rest: set<Txid>)
    requires k <= |components|
  {
    && rest <= nodes
    && forall t | t in nodes :: t in rest <==> forall i | 0 <= i < k :: t !in components[i]
  }

  lemma NextLeftOver(edges: set<(Txid, Txid)>, nodes: set<Txid>, components: seq<set<Txid>>, k: nat, rest: set<Txid>)
    requires AreComponents(edges, nodes, components) && k < |components| && LeftOver(nodes, components, k, rest)
    ensures components[k] <= rest && IsComponent(edges, nodes, components[k])
    ensures LeftOver(nodes, components, k + 1, rest - components[k])
  {
    assert IsComponent(edges, nodes, components[k]);
    hide IsComponent;
    forall t | t in components[k] ensures t in nodes && t in rest {
      forall i | 0 <= i < k ensures t !in components[i] {
        assert components[i] !! components[k];
      }
    }
  }

  lemma NothingLeft(edges: set<(Txid, Txid)>, nodes: set<Txid>, components: seq<set<Txid>>, rest: set<Txid>)
    requires AreComponents(edges, nodes, components) && LeftOver(nodes, components, |components|, rest)
    ensures rest == {}
  {
    hide IsComponent;
  }

  lemma RestrictAll(txs: Pool, acc: Deltas, clusters: map<nat, Cluster>, txToCluster: map<Txid, nat>, next: nat, id: nat)
    requires Indexed(txs, acc, clusters, txToCluster, next) && id in clusters
    ensures clusters[id].graph == Restrict(clusters[id].graph, clusters[id].graph.Nodes())
  {
    var g := clusters[id].graph;
    assert ExactGraph(txs, acc, g);
    RestrictExact(txs, acc, g.Nodes(), g.Nodes());
  }

  lemma ShadowBelow(txs: Pool, acc: Deltas, clusters: map<nat, Cluster>, txToCluster: map<Txid, nat>, next: nat)
    requires Indexed(txs, acc, clusters, txToCluster, next)
    ensures forall id | id in clusters :: id < next
  {
  }

  lemma RestrictTwice(g: Graph, a: set<Txid>, b: set<Txid>)
    requires b <= a
    ensures Restrict(Restrict(g, a), b) == Restrict(g, b)
  {
  }

  /** A component of a cluster is closed in what is left of the cluster, and connected by itself. */
  lemma CarveSetup(g: Graph, rest: Graph, component: set<Txid>)
    requires component <= rest.Nodes() <= g.Nodes() && rest == Restrict(g, rest.Nodes())
    requires IsComponent(g.edges, g.Nodes(), component)
    ensures ClosedIn(rest.edges, rest.Nodes(), component)
    ensures Restrict(rest, component) == Restrict(g, component)
    ensures Restrict(rest, rest.Nodes() - component) == Restrict(g, rest.Nodes() - component)
    ensures Restrict(g, component).Nodes() == component && Restrict(g, rest.Nodes() - component).Nodes() == rest.Nodes() - component
    ensures Connected(Restrict(g, component).edges, Restrict(g, component).Nodes())
  {
    RestrictTwice(g, rest.Nodes(), component);
    RestrictTwice(g, rest.Nodes(), rest.Nodes() - component);
    ConnectedSame(g.edges, Restrict(g, component).edges, component);
  }
}
