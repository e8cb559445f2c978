/** The dependency graph of one cluster: transaction objects whose relative sets are kept up
    to date as links come and transactions go. */
module DepGraph {
  import opened Feerate
  import opened Graph
  import opened Closure
  import opened Components
  import MempoolState

  class ClusterTx {
    const txid: Txid
    var effectiveFee: int
    const weight: Weight
    const order: nat
    var ancestors: set<ClusterTx>
    var descendants: set<ClusterTx>
    var parents: set<ClusterTx>
    var children: set<ClusterTx>

    constructor (txid: Txid, effectiveFee: int, weight: Weight, order: nat)
      ensures this.txid == txid && this.effectiveFee == effectiveFee && this.weight == weight && this.order == order
      ensures ancestors == {this} && descendants == {this} && parents == {} && children == {}
    {
      this.txid, this.effectiveFee, this.weight, this.order := txid, effectiveFee, weight, order;
      ancestors, descendants, parents, children := {this}, {this}, {}, {};
    }
  }

  /** No two of these have the same id. */
  ghost predicate OneEach(txs: set<ClusterTx>) {
    forall a, b | a in txs && b in txs && a.txid == b.txid :: a == b
  }

  ghost function Ids(txs: set<ClusterTx>): set<Txid> {
    set t | t in txs :: t.txid
  }

  ghost function ById<V>(txs: set<ClusterTx>, m: map<ClusterTx, V>): map<Txid, V>
    requires OneEach(txs) && txs <= m.Keys
  {
    map t | t in txs :: t.txid := m[t]
  }

  ghost function EdgeIds(txs: set<ClusterTx>, parents: Sets<ClusterTx>): set<(Txid, Txid)>
    requires txs <= parents.Keys
  {
    set c, p | c in txs && p in parents[c] :: (p.txid, c.txid)
  }

  ghost function Weights(txs: set<ClusterTx>): map<ClusterTx, Weight> {
    map t | t in txs :: t.weight
  }

  ghost function Orders(txs: set<ClusterTx>): map<ClusterTx, nat> {
    map t | t in txs :: t.order
  }

  ghost function AsGraph(txs: set<ClusterTx>, parents: Sets<ClusterTx>, fees: map<ClusterTx, int>): Graph
    requires OneEach(txs) && txs <= parents.Keys && txs <= fees.Keys
  {
    Graph(ById(txs, fees), ById(txs, Weights(txs)), ById(txs, Orders(txs)), EdgeIds(txs, parents))
  }

  /** Everything the given transactions are linked to. */
  ghost function ParentsOf(txs: set<ClusterTx>): set<ClusterTx>
    reads txs`parents
  {
    set t, p | t in txs && p in t.parents :: p
  }

  ghost function ChildrenOf(txs: set<ClusterTx>): set<ClusterTx>
    reads txs`children
  {
    set t, c | t in txs && c in t.children :: c
  }

  class DepGraph {
    var txs: set<ClusterTx>
    ghost var rank: map<ClusterTx, int>

    constructor ()
      ensures Valid() && txs == {}
    {
      txs, rank := {}, map[];
    }

    ghost function Parents(): Sets<ClusterTx>
      reads this`txs, txs`parents
    {
      map t | t in txs :: t.parents
    }

    ghost function Children(): Sets<ClusterTx>
      reads this`txs, txs`children
    {
      map t | t in txs :: t.children
    }

    ghost function Ancestors(): Sets<ClusterTx>
      reads this`txs, txs`ancestors
    {
      map t | t in txs :: t.ancestors
    }

    ghost function Descendants(): Sets<ClusterTx>
      reads this`txs, txs`descendants
    {
      map t | t in txs :: t.descendants
    }

    ghost function Fees(): map<ClusterTx, int>
      reads this`txs, txs`effectiveFee
    {
      map t | t in txs :: t.effectiveFee
    }

    /** The graph as a value. */
    ghost function Value(): Graph
      requires OneEach(txs)
      reads this`txs, txs`parents, txs`effectiveFee
    {
      AsGraph(txs, Parents(), Fees())
    }

    /** Parents and children mirror each other without cycles, and ancestors and descendants
        are their closure. */
    ghost predicate Valid()
      reads this, txs`parents, txs`children, txs`ancestors, txs`descendants
    {
      Related(txs, Parents(), Children(), rank) && Closed(txs, Parents(), Ancestors(), Descendants())
    }

    method AddTransaction(txid: Txid, fee: int, weight: Weight, order: nat) returns (tx: ClusterTx)
      requires Valid()
      modifies this
      ensures Valid() && fresh(tx) && txs == old(txs) + {tx}
      ensures tx.txid == txid && tx.effectiveFee == fee && tx.weight == weight && tx.order == order
      ensures Parents() == old(Parents())[tx := {}]
      ensures OneEach(old(txs)) && txid !in Ids(old(txs)) ==>
                OneEach(txs) && Value() == MempoolState.AddTransaction(old(Value()), txid, fee, weight, order)
    {
      hide ByParent, Related, Closed, AsGraph, Parents, Children, Ancestors, Descendants, Fees, OneEach, Ids;
      ParentKeys();
      tx := new ClusterTx(txid, fee, weight, order);
      assert tx !in txs;
      SingleClosed(txs, Parents(), Children(), Ancestors(), Descendants(), rank, tx);
      txs := txs + {tx};
      rank := rank[tx := 0];
      Grown(tx);
      AddedGraph(old(txs), old(Parents()), old(Fees()), tx, fee);
    }

    /** The graph has a new transaction without links. */
    twostate lemma Grown(new tx: ClusterTx)
      requires txs == old(txs) + {tx} && tx !in old(txs) && forall t | t in old(txs) :: old(allocated(t)) && unchanged(t)
      requires tx.parents == {} && tx.children == {} && tx.ancestors == {tx} && tx.descendants == {tx}
      ensures Parents() == old(Parents())[tx := {}] && Children() == old(Children())[tx := {}]
      ensures Ancestors() == old(Ancestors())[tx := {tx}] && Descendants() == old(Descendants())[tx := {tx}]
      ensures Fees() == old(Fees())[tx := tx.effectiveFee]
    {
      hide Parents, Children, Ancestors, Descendants, Fees;
      GrownLinks(tx);
      GrownClosure(tx);
      GrownFees(tx);
    }

    twostate lemma GrownClosure(new tx: ClusterTx)
      requires txs == old(txs) + {tx} && tx !in old(txs) && forall t | t in old(txs) :: old(allocated(t)) && unchanged(t)
      requires tx.ancestors == {tx} && tx.descendants == {tx}
      ensures Ancestors() == old(Ancestors())[tx := {tx}] && Descendants() == old(Descendants())[tx := {tx}]
    {
      MapMore(old(Ancestors()), Ancestors(), tx);
      MapMore(old(Descendants()), Descendants(), tx);
    }

    twostate lemma GrownFees(new tx: ClusterTx)
      requires txs == old(txs) + {tx} && tx !in old(txs) && forall t | t in old(txs) :: old(allocated(t)) && unchanged(t)
      ensures Fees() == old(Fees())[tx := tx.effectiveFee]
    {
    }

    twostate lemma GrownLinks(new tx: ClusterTx)
      requires txs == old(txs) + {tx} && tx !in old(txs) && forall t | t in old(txs) :: old(allocated(t)) && unchanged(t)
      requires tx.parents == {} && tx.children == {}
      ensures Parents() == old(Parents())[tx := {}] && Children() == old(Children())[tx := {}]
    {
      MapMore(old(Parents()), Parents(), tx);
      MapMore(old(Children()), Children(), tx);
    }

    /** Joins one descendant to every ancestor of a new parent. */
    method Connect(descendant: ClusterTx, ancestors: set<ClusterTx>)
      requires descendant !in ancestors
      modifies {descendant}`ancestors, ancestors`descendants
      ensures descendant.ancestors == old(descendant.ancestors) + ancestors
      ensures forall a | a in ancestors :: a.descendants == old(a.descendants) + {descendant}
    {
      var todo := ancestors;
      while todo != {}
        invariant todo <= ancestors
        invariant descendant.ancestors == old(descendant.ancestors) + (ancestors - todo)
        invariant forall a | a in ancestors :: a.descendants == if a in todo then old(a.descendants) else old(a.descendants) + {descendant}
        decreases todo
      {
        var ancestor :| ancestor in todo;
        descendant.ancestors := descendant.ancestors + {ancestor};
        ancestor.descendants := ancestor.descendants + {descendant};
        todo := todo - {ancestor};
      }
    }

    /** Records the link itself. */
    method SetLink(parent: ClusterTx, child: ClusterTx)
      requires parent in txs && child in txs
      modifies parent`children, child`parents
      ensures Parents() == WithLink(old(Parents()), child, parent)
      ensures Children() == WithLink(old(Children()), parent, child)
      ensures Ancestors() == old(Ancestors()) && Descendants() == old(Descendants())
    {
      parent.children := parent.children + {child};
      child.parents := child.parents + {parent};
    }

    /** Adds the link and, unless the parent is a known ancestor, joins every descendant of the
        child to every ancestor of the parent. Links to outsiders are ignored. */
    method AddDependency(parent: ClusterTx, child: ClusterTx)
      requires Valid()
      requires parent in txs && child in txs ==> child !in parent.ancestors
      modifies this`rank, txs`parents, txs`children, txs`ancestors, txs`descendants
      ensures Valid() && txs == old(txs)
      ensures parent in txs && child in txs ==> Parents() == WithLink(old(Parents()), child, parent)
      ensures !(parent in txs && child in txs) ==> Parents() == old(Parents())
      ensures OneEach(txs) ==>
                Value() == if parent in txs && child in txs then MempoolState.AddDependency(old(Value()), parent.txid, child.txid) else old(Value())
    {
      hide ByParent, Related, Closed, Children, WithLink, AsGraph, OneEach, MempoolState.AddDependency;
      if parent in txs && child in txs {
        Link(parent, child);
        LinkedGraph(txs, old(Parents()), old(Fees()), parent, child);
      }
      assert Fees() == old(Fees());
    }

    /** Adds a link between members. */
    method Link(parent: ClusterTx, child: ClusterTx)
      requires Valid() && parent in txs && child in txs && child !in parent.ancestors
      modifies this`rank, txs`parents, txs`children, txs`ancestors, txs`descendants
      ensures Valid() && txs == old(txs) && Parents() == WithLink(old(Parents()), child, parent)
    {
      hide ByParent, Related, Closed, Parents, Children, WithLink;
      assert child !in Ancestors()[parent];
      ghost var newRank := LinkRelated(txs, Parents(), Children(), Ancestors(), Descendants(), rank, parent, child);
      SetLink(parent, child);
      rank := newRank;
      if parent in child.ancestors {
        assert parent in Ancestors()[child];
        KnownAncestors(txs, old(Parents()), old(Children()), old(Ancestors()), old(Descendants()), old(rank), parent, child);
        KnownLinkClosed(txs, old(Parents()), old(Ancestors()), old(Descendants()), parent, child);
        return;
      }
      LinkClosed(txs, old(Parents()), old(Children()), old(Ancestors()), old(Descendants()), old(rank), parent, child);
      LinkSides(txs, old(Parents()), old(Children()), old(Ancestors()), old(Descendants()), old(rank), parent, child);
      assert child.descendants == Descendants()[child] && parent.ancestors == Ancestors()[parent];
      ConnectAll(child.descendants, parent.ancestors);
    }

    lemma ParentsWithin()
      requires Valid()
      ensures forall t | t in txs :: Parents()[t] <= txs
    {
    }

    lemma ParentKeys()
      ensures Parents().Keys == Fees().Keys == txs
    {
    }

    /** The two sets are disjoint, so neither changes while they are walked. */
    method ConnectAll(below: set<ClusterTx>, above: set<ClusterTx>)
      requires below !! above && below <= txs && above <= txs
      modifies below`ancestors, above`descendants
      ensures Ancestors() == Spread(old(Ancestors()), below, above)
      ensures Descendants() == Spread(old(Descendants()), above, below)
      ensures Parents() == old(Parents()) && Children() == old(Children())
    {
      var todo := below;
      while todo != {}
        invariant todo <= below
        invariant forall d | d in below :: d.ancestors == if d in todo then old(d.ancestors) else old(d.ancestors) + above
        invariant forall a | a in above :: a.descendants == old(a.descendants) + (below - todo)
        decreases todo
      {
        var descendant :| descendant in todo;
        Connect(descendant, above);
        todo := todo - {descendant};
      }
      assert below - {} == below;
    }

    // ---------- removal

    /** Takes the transactions out, together with every mention of them. Those that are not in the
        graph only lose the mentions in what they are linked to. */
    method RemoveTransactions(toRemove: set<ClusterTx>)
      requires Valid()
      modifies this, txs`parents, txs`children, txs`ancestors, txs`descendants, ParentsOf(toRemove)`children, ChildrenOf(toRemove)`parents
      ensures Valid() && txs == old(txs) - toRemove
      ensures Parents() == Without(old(Parents()), toRemove)
      ensures OneEach(old(txs)) ==> OneEach(txs) && Value() == MempoolState.Restrict(old(Value()), Ids(txs))
    {
      hide ByParent, Related, Closed, CountsUp, Without, Parents, Children, Ancestors, Descendants, OneEach, Ids, ParentsOf, ChildrenOf, Value;
      ParentsWithin();
      WithoutRelated(txs, Parents(), Children(), rank, toRemove);
      RemovalCountsUp(txs, Parents(), Children(), Ancestors(), Descendants(), rank, toRemove);
      Detach(toRemove);
      rank := rank - toRemove;
      Rederive();
      RemovedValue(toRemove);
    }

    twostate lemma RemovedValue(toRemove: set<ClusterTx>)
      requires txs == old(txs) - toRemove && forall t | t in txs :: t.effectiveFee == old(t.effectiveFee)
      requires Parents() == Without(old(Parents()), toRemove) && forall t | t in old(txs) :: old(Parents())[t] <= old(txs)
      ensures OneEach(old(txs)) ==> OneEach(txs) && Value() == MempoolState.Restrict(old(Value()), Ids(txs))
    {
      hide OneEach, MempoolState.Restrict, AsGraph, Ids, Without;
      RemovedGraph(old(txs), old(Parents()), old(Fees()), toRemove);
      assert Fees() == old(Fees()) - toRemove;
    }

    method Detach(toRemove: set<ClusterTx>)
      requires Valid()
      modifies this`txs, txs`parents, txs`children, txs`ancestors, txs`descendants, ParentsOf(toRemove)`children, ChildrenOf(toRemove)`parents
      ensures txs == old(txs) - toRemove
      ensures Parents() == Without(old(Parents()), toRemove) && Children() == Without(old(Children()), toRemove)
      ensures Ancestors() == Without(old(Ancestors()), toRemove)
    {
      hide ByParent, Related, Closed;
      RelatedFacts();
      Unlink(toRemove);
      Forget(toRemove);
    }

    lemma RelatedFacts()
      requires Valid()
      ensures forall t | t in txs :: t.parents <= txs && t.children <= txs && t.ancestors <= txs && t.descendants <= txs
      ensures forall p, c | p in txs && c in txs :: p in c.parents <==> c in p.children
    {
      hide ByParent;
      forall t | t in txs ensures t.parents <= txs && t.children <= txs && t.ancestors <= txs && t.descendants <= txs {
        assert Parents()[t] <= txs && Children()[t] <= txs && Ancestors()[t] <= txs && Descendants()[t] <= txs;
      }
      forall p, c | p in txs && c in txs ensures p in c.parents <==> c in p.children {
        assert p in Parents()[c] <==> c in Children()[p];
      }
    }

    /** Removes the transactions from the graph and from the links of those that stay. */
    method Unlink(toRemove: set<ClusterTx>)
      requires forall t | t in txs :: t.parents <= txs && t.children <= txs
      requires forall p, c | p in txs && c in txs :: p in c.parents <==> c in p.children
      modifies this`txs, txs`parents, txs`children, ParentsOf(toRemove)`children, ChildrenOf(toRemove)`parents
      ensures txs == old(txs) - toRemove
      ensures forall t | t in txs :: t.parents == old(t.parents) - toRemove && t.children == old(t.children) - toRemove
    {
      var todo := toRemove;
      while todo != {}
        invariant todo <= toRemove && txs == old(txs) - (toRemove - todo)
        invariant forall t | t in txs :: t.parents == old(t.parents) - (toRemove - todo) && t.children == old(t.children) - (toRemove - todo)
        invariant forall t | t in todo :: t.parents <= old(t.parents) && t.children <= old(t.children)
        decreases todo
      {
        var tx :| tx in todo;
        UnlinkOne(tx, tx.parents, tx.children);
        txs := txs - {tx};
        todo := todo - {tx};
      }
      assert toRemove - {} == toRemove;
    }

    method UnlinkOne(tx: ClusterTx, above: set<ClusterTx>, below: set<ClusterTx>)
      modifies above`children, below`parents
      ensures forall p | p in above :: p.children == old(p.children) - {tx}
      ensures forall c | c in below :: c.parents == old(c.parents) - {tx}
    {
      var todo := above;
      while todo != {}
        invariant todo <= above
        invariant forall p | p in above :: p.children == if p in todo then old(p.children) else old(p.children) - {tx}
        invariant forall c | c in below :: c.parents == old(c.parents)
        decreases todo
      {
        var parent :| parent in todo;
        parent.children := parent.children - {tx};
        todo := todo - {parent};
      }
      todo := below;
      while todo != {}
        invariant todo <= below
        invariant forall p | p in above :: p.children == old(p.children) - {tx}
        invariant forall c | c in below :: c.parents == if c in todo then old(c.parents) else old(c.parents) - {tx}
        decreases todo
      {
        var child :| child in todo;
        child.parents := child.parents - {tx};
        todo := todo - {child};
      }
    }

    /** Drops the removed transactions from every remaining ancestor and descendant set. */
    method Forget(toRemove: set<ClusterTx>)
      modifies txs`ancestors, txs`descendants
      ensures forall t | t in txs :: t.ancestors == old(t.ancestors) - toRemove && t.descendants == old(t.descendants) - toRemove
    {
      var todo := txs;
      while todo != {}
        invariant todo <= txs
        invariant forall t | t in txs :: t.ancestors == if t in todo then old(t.ancestors) else old(t.ancestors) - toRemove
        invariant forall t | t in txs :: t.descendants == if t in todo then old(t.descendants) else old(t.descendants) - toRemove
        decreases todo
      {
        var tx :| tx in todo;
        tx.ancestors := tx.ancestors - toRemove;
        tx.descendants := tx.descendants - toRemove;
        todo := todo - {tx};
      }
    }

    /** Rebuilds the closure from the links alone, in the order of the ancestor counts. */
    method Rederive()
      requires Related(txs, Parents(), Children(), rank)
      requires CountsUp(txs, Parents(), Ancestors())
      modifies txs`ancestors, txs`descendants
      ensures Closed(txs, Parents(), Ancestors(), Descendants())
      ensures Parents() == old(Parents())
    {
      hide ByParent, Rebuilt, Related, CountsUp, Closed, Parents, Ancestors, Descendants;
      var ordered := SortTopological(txs);
      OrderedParents(ordered);
      ResetAll();
      ghost var done: set<ClusterTx> := {};
      for i := 0 to |ordered|
        invariant done == Elems(ordered[..i])
        invariant forall k | 0 <= k < |ordered| :: ordered[k].parents <= Elems(ordered[..k])
        invariant Rebuilt(txs, Parents(), Ancestors(), Descendants(), done)
      {
        NextElem(ordered, i);
        RederiveOne(ordered[i], done);
        done := done + {ordered[i]};
      }
      assert ordered[..|ordered|] == ordered;
      RebuiltAll(txs, Parents(), Ancestors(), Descendants());
    }

    method ResetAll()
      requires Related(txs, Parents(), Children(), rank)
      modifies txs`ancestors, txs`descendants
      ensures Rebuilt(txs, Parents(), Ancestors(), Descendants(), {}) && Parents() == old(Parents())
    {
      hide ByParent, Rebuilt;
      ParentsInside();
      Reset();
      RebuiltStart(txs, Parents(), Ancestors(), Descendants());
    }

    lemma ParentsInside()
      requires Related(txs, Parents(), Children(), rank)
      ensures forall t | t in txs :: Parents()[t] <= txs
    {
    }

    /** Where the number of ancestors grows along links, its order puts parents first. */
    lemma OrderedParents(ordered: seq<ClusterTx>)
      requires Elems(ordered) == txs && Related(txs, Parents(), Children(), rank)
      requires CountsUp(txs, Parents(), Ancestors())
      requires forall i, j | 0 <= i < j < |ordered| :: |ordered[i].ancestors| <= |ordered[j].ancestors|
      ensures forall k | 0 <= k < |ordered| :: ordered[k].parents <= Elems(ordered[..k])
    {
      forall k, p | 0 <= k < |ordered| && p in ordered[k].parents ensures p in Elems(ordered[..k]) {
        var t := ordered[k];
        assert t in Elems(ordered);
        assert Parents()[t] <= txs;
        assert |Ancestors()[p]| < |Ancestors()[t]|;
        assert p in Elems(ordered);
        var j :| 0 <= j < |ordered| && ordered[j] == p;
        assert j < k;
        assert ordered[..k][j] == p;
      }
    }

    method Reset()
      modifies txs`ancestors, txs`descendants
      ensures forall t | t in txs :: t.ancestors == {t} && t.descendants == {t}
    {
      var todo := txs;
      while todo != {}
        invariant todo <= txs
        invariant forall t | t in txs - todo :: t.ancestors == {t} && t.descendants == {t}
        decreases todo
      {
        var tx :| tx in todo;
        tx.ancestors := {tx};
        tx.descendants := {tx};
        todo := todo - {tx};
      }
    }

    /** Collects the ancestors of the parents, which are final, and tells every ancestor. */
    method RederiveOne(tx: ClusterTx, ghost done: set<ClusterTx>)
      requires Rebuilt(txs, Parents(), Ancestors(), Descendants(), done)
      requires tx in txs && tx !in done && tx.parents <= done
      modifies tx`ancestors, txs`descendants
      ensures Rebuilt(txs, Parents(), Ancestors(), Descendants(), done + {tx})
    {
      hide ByParent, Rebuilt;
      RebuiltFacts(tx, done);
      Gather(tx);
      RebuiltStep(txs, old(Parents()), old(Ancestors()), old(Descendants()), done, tx, tx.ancestors);
      Tell(tx);
      assert Ancestors() == old(Ancestors())[tx := tx.ancestors];
    }

    lemma RebuiltFacts(tx: ClusterTx, done: set<ClusterTx>)
      requires Rebuilt(txs, Parents(), Ancestors(), Descendants(), done)
      requires tx in txs && tx !in done && tx.parents <= done
      ensures tx.ancestors == {tx} && tx.parents <= txs && tx !in tx.parents
      ensures forall p | p in tx.parents :: p.ancestors <= txs
    {
      hide ByParent;
      assert Ancestors()[tx] == {tx};
      forall p | p in tx.parents ensures p.ancestors <= txs {
        assert Ancestors()[p] <= txs;
      }
    }

    method Gather(tx: ClusterTx)
      requires tx.ancestors == {tx} && tx !in tx.parents && tx in txs && tx.parents <= txs
      requires forall p | p in tx.parents :: p.ancestors <= txs
      modifies tx`ancestors
      ensures tx in tx.ancestors && tx.ancestors <= txs
      ensures forall a | a in txs :: a in tx.ancestors <==> ByParent(old(Parents()), old(Ancestors()), tx, a)
    {
      var todo := tx.parents;
      while todo != {}
        invariant todo <= tx.parents
        invariant tx in tx.ancestors && tx.ancestors <= txs
        invariant forall a | a in txs :: a in tx.ancestors <==> a == tx || exists p | p in tx.parents && p !in todo :: a in p.ancestors
        decreases todo
      {
        var parent :| parent in todo;
        tx.ancestors := tx.ancestors + parent.ancestors;
        todo := todo - {parent};
      }
      assert forall p | p in tx.parents :: old(Ancestors())[p] == p.ancestors;
      assert old(Parents())[tx] == tx.parents;
    }

    method Tell(tx: ClusterTx)
      requires tx in txs && tx.ancestors <= txs
      modifies tx.ancestors`descendants
      ensures Descendants() == Spread(old(Descendants()), tx.ancestors, {tx})
      ensures Parents() == old(Parents()) && Ancestors() == old(Ancestors())
    {
      var todo := tx.ancestors;
      while todo != {}
        invariant todo <= tx.ancestors
        invariant forall a | a in tx.ancestors :: a.descendants == if a in todo then old(a.descendants) else old(a.descendants) + {tx}
        decreases todo
      {
        var ancestor :| ancestor in todo;
        ancestor.descendants := ancestor.descendants + {tx};
        todo := todo - {ancestor};
      }
    }

    // ---------- connected components

    /** Depth-first over ancestor and descendant sets. */
    method FindConnectedComponents() returns (components: seq<set<ClusterTx>>)
      requires Valid()
      ensures AreComponents(Links(Parents()), txs, components)
    {
      hide ByParent, Related, Closed, IsComponent;
      components := [];
      var visited: set<ClusterTx> := {};
      var list := AnyOrder(txs);
      for i := 0 to |list|
        invariant Found(Links(Parents()), txs, components, visited)
        invariant Uncrossed(txs, Parents(), visited)
        invariant Elems(list[..i]) <= visited
      {
        NextElem(list, i);
        if list[i] !in visited {
          var component := SearchFrom(list[i], visited);
          FoundNext(Links(Parents()), txs, components, visited, component, list[i]);
          components := components + [component];
          visited := visited + component;
        }
      }
      assert list[..|list|] == list;
    }

    method SearchFrom(start: ClusterTx, before: set<ClusterTx>) returns (component: set<ClusterTx>)
      requires Valid() && start in txs && start !in before && Uncrossed(txs, Parents(), before)
      ensures start in component && IsComponent(Links(Parents()), txs, component)
      ensures Uncrossed(txs, Parents(), before + component)
    {
      hide ByParent, Related, Closed, Searching;
      component := {};
      var visited := before;
      var stack := [start];
      SearchStart(txs, Parents(), Ancestors(), Descendants(), start, before);
      while stack != []
        invariant Searching(txs, Parents(), Ancestors(), Descendants(), start, before, component, stack)
        invariant visited == before + component
        decreases txs - visited, |stack|
      {
        var node := stack[|stack| - 1];
        if node !in visited {
          StackInside(start, before, component, stack);
          var more := AnyOrder(set x | x in node.ancestors + node.descendants && x in txs && x !in visited && x != node);
          SearchMore(node, visited, more);
          SearchVisit(txs, Parents(), Children(), Ancestors(), Descendants(), rank, start, before, component, stack, more);
          visited := visited + {node};
          component := component + {node};
          stack := stack[..|stack| - 1] + more;
        } else {
          SearchSkip(txs, Parents(), Ancestors(), Descendants(), start, before, component, stack);
          stack := stack[..|stack| - 1];
        }
      }
      SearchEnd(txs, Parents(), Children(), Ancestors(), Descendants(), rank, start, before, component);
      UncrossedIsComponent(start, component);
    }

    lemma StackInside(start: ClusterTx, before: set<ClusterTx>, component: set<ClusterTx>, stack: seq<ClusterTx>)
      requires Searching(txs, Parents(), Ancestors(), Descendants(), start, before, component, stack) && stack != []
      ensures stack[|stack| - 1] in txs
    {
    }

    lemma SearchMore(node: ClusterTx, visited: set<ClusterTx>, more: seq<ClusterTx>)
      requires node in txs
      requires Elems(more) == set x | x in node.ancestors + node.descendants && x in txs && x !in visited && x != node
      ensures forall x :: x in more <==> x in txs && (x in Ancestors()[node] || x in Descendants()[node]) && x !in visited && x != node
    {
      forall x ensures x in more <==> x in txs && (x in Ancestors()[node] || x in Descendants()[node]) && x !in visited && x != node {
        assert x in more <==> x in Elems(more);
      }
    }

    lemma UncrossedIsComponent(start: ClusterTx, component: set<ClusterTx>)
      requires Related(txs, Parents(), Children(), rank)
      requires start in component && component <= txs && Uncrossed(txs, Parents(), component)
      requires forall u: set<ClusterTx> | start in u && u <= txs && Uncrossed(txs, Parents(), u) :: component <= u
      ensures IsComponent(Links(Parents()), txs, component)
    {
      UncrossedClosed(txs, Parents(), component);
      forall u: set<ClusterTx> | start in u && u <= txs && ClosedIn(Links(Parents()), txs, u) ensures component <= u {
        UncrossedClosed(txs, Parents(), u);
      }
      LeastIsComponent(Links(Parents()), txs, start, component);
    }
  }

  lemma UncrossedClosed(nodes: set<ClusterTx>, parents: Sets<ClusterTx>, s: set<ClusterTx>)
    requires parents.Keys == nodes && forall t | t in nodes :: parents[t] <= nodes
    ensures Uncrossed(nodes, parents, s) <==> ClosedIn(Links(parents), nodes, s)
  {
    if ClosedIn(Links(parents), nodes, s) {
      forall c, p | c in nodes && p in parents[c] ensures p in s <==> c in s {
        assert (p, c) in Links(parents);
      }
    }
  }

  /** Ascending by the number of ancestors. */
  method SortTopological(subset: set<ClusterTx>) returns (ordered: seq<ClusterTx>)
    ensures Distinct(ordered) && Elems(ordered) == subset
    ensures forall i, j | 0 <= i < j < |ordered| :: |ordered[i].ancestors| <= |ordered[j].ancestors|
  {
    hide Distinct, Elems;
    ordered := [];
    NothingSorted();
    var todo := subset;
    while todo != {}
      invariant todo <= subset && Distinct(ordered) && Elems(ordered) == subset - todo && Ascending(ordered)
      decreases todo
    {
      var tx :| tx in todo;
      var pos := 0;
      while pos < |ordered| && |ordered[pos].ancestors| <= |tx.ancestors|
        invariant 0 <= pos <= |ordered|
        invariant forall i | 0 <= i < pos :: |ordered[i].ancestors| <= |tx.ancestors|
      {
        pos := pos + 1;
      }
      InsertAt(ordered, pos, tx);
      InsertAscending(ordered, pos, tx);
      ordered := ordered[..pos] + [tx] + ordered[pos..];
      todo := todo - {tx};
    }
  }

  ghost predicate Ascending(s: seq<ClusterTx>)
    reads s
  {
    forall i, j | 0 <= i < j < |s| :: |s[i].ancestors| <= |s[j].ancestors|
  }

  lemma NothingSorted()
    ensures Distinct<ClusterTx>([]) && Elems<ClusterTx>([]) == {} && Ascending([])
  {
  }

  lemma InsertAscending(s: seq<ClusterTx>, pos: nat, tx: ClusterTx)
    requires pos <= |s| && Ascending(s) && (pos < |s| ==> |tx.ancestors| < |s[pos].ancestors|)
    requires forall i | 0 <= i < pos :: |s[i].ancestors| <= |tx.ancestors|
    ensures Ascending(s[..pos] + [tx] + s[pos..])
  {
    var t := s[..pos] + [tx] + s[pos..];
    forall i, j | 0 <= i < j < |t| ensures |t[i].ancestors| <= |t[j].ancestors| {
      assert forall k | pos <= k < |s| :: |s[pos].ancestors| <= |s[k].ancestors|;
    }
  }

  lemma InsertAt<T>(s: seq<T>, pos: nat, x: T)
    requires pos <= |s| && Distinct(s) && x !in Elems(s)
    ensures Distinct(s[..pos] + [x] + s[pos..]) && Elems(s[..pos] + [x] + s[pos..]) == Elems(s) + {x}
  {
    assert s == s[..pos] + s[pos..];
    DistinctConcat(s[..pos], s[pos..]);
    DistinctConcat(s[..pos], [x]);
    DistinctConcat(s[..pos] + [x], s[pos..]);
    ElemsConcat(s[..pos], s[pos..]);
    ElemsConcat(s[..pos], [x]);
    ElemsConcat(s[..pos] + [x], s[pos..]);
  }

  lemma SingleClosed(nodes: set<ClusterTx>, parents: Sets<ClusterTx>, children: Sets<ClusterTx>, ancestors: Sets<ClusterTx>,
                     descendants: Sets<ClusterTx>, rank: map<ClusterTx, int>, tx: ClusterTx)
    requires Related(nodes, parents, children, rank) && Closed(nodes, parents, ancestors, descendants) && tx !in nodes
    ensures Related(nodes + {tx}, parents[tx := {}], children[tx := {}], rank[tx := 0])
    ensures Closed(nodes + {tx}, parents[tx := {}], ancestors[tx := {tx}], descendants[tx := {tx}])
  {
    SingleRelated(nodes, parents, children, rank, tx);
    SingleByParents(nodes, parents, ancestors, descendants, tx);
    hide ByParent, Related;
    SingleInverse(nodes, parents, ancestors, descendants, tx);
  }

  lemma SingleRelated(nodes: set<ClusterTx>, parents: Sets<ClusterTx>, children: Sets<ClusterTx>, rank: map<ClusterTx, int>, tx: ClusterTx)
    requires Related(nodes, parents, children, rank) && tx !in nodes
    ensures Related(nodes + {tx}, parents[tx := {}], children[tx := {}], rank[tx := 0])
  {
  }

  lemma SingleInverse(nodes: set<ClusterTx>, parents: Sets<ClusterTx>, ancestors: Sets<ClusterTx>, descendants: Sets<ClusterTx>, tx: ClusterTx)
    requires Closed(nodes, parents, ancestors, descendants) && tx !in nodes
    ensures forall t, a | t in nodes + {tx} && a in nodes + {tx} :: a in ancestors[tx := {tx}][t] <==> t in descendants[tx := {tx}][a]
  {
    hide ByParent;
  }

  lemma SingleByParents(nodes: set<ClusterTx>, parents: Sets<ClusterTx>, ancestors: Sets<ClusterTx>, descendants: Sets<ClusterTx>, tx: ClusterTx)
    requires Closed(nodes, parents, ancestors, descendants) && tx !in nodes
    ensures var parents', ancestors' := parents[tx := {}], ancestors[tx := {tx}];
            forall t, a | t in nodes + {tx} && a in nodes + {tx} ::
              (forall p | p in parents'[t] :: p in ancestors') && (a in ancestors'[t] <==> ByParent(parents', ancestors', t, a))
  {
    hide ByParent;
    var parents', ancestors' := parents[tx := {}], ancestors[tx := {tx}];
    forall t, a | t in nodes + {tx} && a in nodes + {tx}
      ensures (forall p | p in parents'[t] :: p in ancestors') && (a in ancestors'[t] <==> ByParent(parents', ancestors', t, a))
    {
      if t == tx {
        NoParents(parents', ancestors', tx, a);
      } else {
        SameByParents(parents, ancestors, parents', ancestors', t, a);
        if a == tx {
          OutsideAncestor(nodes, parents, ancestors, descendants, t, a);
        }
      }
    }
  }

  // ---------- as a value

  lemma AddedGraph(txs: set<ClusterTx>, parents: Sets<ClusterTx>, fees: map<ClusterTx, int>, tx: ClusterTx, fee: int)
    requires parents.Keys == fees.Keys == txs && tx !in txs
    ensures OneEach(txs) && tx.txid !in Ids(txs) ==>
              && OneEach(txs + {tx})
              && AsGraph(txs + {tx}, parents[tx := {}], fees[tx := fee])
                 == MempoolState.AddTransaction(AsGraph(txs, parents, fees), tx.txid, fee, tx.weight, tx.order)
  {
    hide ById, EdgeIds;
    if OneEach(txs) && tx.txid !in Ids(txs) {
      assert Weights(txs + {tx}) == Weights(txs)[tx := tx.weight] && Orders(txs + {tx}) == Orders(txs)[tx := tx.order];
      ByIdMore(txs, fees, tx, fee);
      ByIdMore(txs, Weights(txs), tx, tx.weight);
      ByIdMore(txs, Orders(txs), tx, tx.order);
      SameEdges(txs, parents, tx);
    }
  }

  lemma ByIdMore<V>(txs: set<ClusterTx>, m: map<ClusterTx, V>, tx: ClusterTx, v: V)
    requires OneEach(txs) && tx.txid !in Ids(txs) && m.Keys == txs
    ensures OneEach(txs + {tx}) && ById(txs + {tx}, m[tx := v]) == ById(txs, m)[tx.txid := v]
  {
    forall t | t in txs ensures t.txid != tx.txid {
      assert t.txid in Ids(txs);
    }
  }

  lemma SameEdges(txs: set<ClusterTx>, parents: Sets<ClusterTx>, tx: ClusterTx)
    requires parents.Keys == txs && tx !in txs
    ensures EdgeIds(txs + {tx}, parents[tx := {}]) == EdgeIds(txs, parents)
  {
  }

  lemma LinkedGraph(txs: set<ClusterTx>, parents: Sets<ClusterTx>, fees: map<ClusterTx, int>, parent: ClusterTx, child: ClusterTx)
    requires parents.Keys == fees.Keys == txs && parent in txs && child in txs
    ensures OneEach(txs) ==>
              AsGraph(txs, WithLink(parents, child, parent), fees) == MempoolState.AddDependency(AsGraph(txs, parents, fees), parent.txid, child.txid)
  {
    hide ById, EdgeIds, WithLink;
    LinkedEdges(txs, parents, parent, child);
    if OneEach(txs) {
      ByIdKeys(txs, fees);
    }
  }

  lemma ByIdKeys(txs: set<ClusterTx>, fees: map<ClusterTx, int>)
    requires OneEach(txs) && fees.Keys == txs
    ensures ById(txs, fees).Keys == Ids(txs)
  {
  }

  lemma LinkedEdges(txs: set<ClusterTx>, parents: Sets<ClusterTx>, parent: ClusterTx, child: ClusterTx)
    requires parents.Keys == txs && parent in txs && child in txs
    ensures EdgeIds(txs, WithLink(parents, child, parent)) == EdgeIds(txs, parents) + {(parent.txid, child.txid)}
  {
    var parents' := WithLink(parents, child, parent);
    forall e | e in EdgeIds(txs, parents') ensures e in EdgeIds(txs, parents) + {(parent.txid, child.txid)} {
      var c: ClusterTx, p: ClusterTx :| c in txs && p in parents'[c] && e == (p.txid, c.txid);
    }
    forall e | e in EdgeIds(txs, parents) ensures e in EdgeIds(txs, parents') {
      var c: ClusterTx, p: ClusterTx :| c in txs && p in parents[c] && e == (p.txid, c.txid);
      assert p in parents'[c];
    }
    assert parent in parents'[child];
  }

  lemma RemovedGraph(txs: set<ClusterTx>, parents: Sets<ClusterTx>, fees: map<ClusterTx, int>, toRemove: set<ClusterTx>)
    requires parents.Keys == fees.Keys == txs && forall t | t in txs :: parents[t] <= txs
    ensures OneEach(txs) ==>
              && OneEach(txs - toRemove)
              && AsGraph(txs - toRemove, Without(parents, toRemove), fees - toRemove)
                 == MempoolState.Restrict(AsGraph(txs, parents, fees), Ids(txs - toRemove))
  {
    hide ById, EdgeIds, Without, Ids;
    if OneEach(txs) {
      ByIdLess(txs, fees, fees - toRemove, txs - toRemove);
      ByIdLess(txs, Weights(txs), Weights(txs - toRemove), txs - toRemove);
      ByIdLess(txs, Orders(txs), Orders(txs - toRemove), txs - toRemove);
      RemovedEdges(txs, parents, toRemove);
    }
  }

  lemma ByIdLess<V>(txs: set<ClusterTx>, m: map<ClusterTx, V>, m': map<ClusterTx, V>, part: set<ClusterTx>)
    requires OneEach(txs) && m.Keys == txs && part <= txs && m'.Keys == part && forall t | t in part :: m'[t] == m[t]
    ensures OneEach(part) && ById(part, m') == map t | t in ById(txs, m) && t in Ids(part) :: ById(txs, m)[t]
  {
    var all := ById(txs, m);
    forall t | t in part ensures t.txid in all && all[t.txid] == m'[t] && t.txid in Ids(part) {
    }
  }

  lemma RemovedEdges(txs: set<ClusterTx>, parents: Sets<ClusterTx>, toRemove: set<ClusterTx>)
    requires OneEach(txs) && parents.Keys == txs && forall t | t in txs :: parents[t] <= txs
    ensures var ids := Ids(txs - toRemove);
            EdgeIds(txs - toRemove, Without(parents, toRemove)) == set e | e in EdgeIds(txs, parents) && e.0 in ids && e.1 in ids
  {
    var rest, parents' := txs - toRemove, Without(parents, toRemove);
    forall e | e in EdgeIds(rest, parents') ensures e in EdgeIds(txs, parents) && e.0 in Ids(rest) && e.1 in Ids(rest) {
      var c: ClusterTx, p: ClusterTx :| c in rest && p in parents'[c] && e == (p.txid, c.txid);
    }
    forall e | e in EdgeIds(txs, parents) && e.0 in Ids(rest) && e.1 in Ids(rest) ensures e in EdgeIds(rest, parents') {
      var c: ClusterTx, p: ClusterTx :| c in txs && p in parents[c] && e == (p.txid, c.txid);
      assert c in rest && p in rest;
    }
  }

  lemma MapMore(before: Sets<ClusterTx>, after: Sets<ClusterTx>, tx: ClusterTx)
    requires after.Keys == before.Keys + {tx} && tx !in before && forall t | t in before :: after[t] == before[t]
    ensures after == before[tx := after[tx]]
  {
  }

  lemma NoParents(parents: Sets<ClusterTx>, ancestors: Sets<ClusterTx>, t: ClusterTx, a: ClusterTx)
    requires t in parents && parents[t] == {}
    ensures ByParent(parents, ancestors, t, a) <==> a == t
  {
  }

  lemma OutsideAncestor(nodes: set<ClusterTx>, parents: Sets<ClusterTx>, ancestors: Sets<ClusterTx>, descendants: Sets<ClusterTx>,
                        t: ClusterTx, a: ClusterTx)
    requires Closed(nodes, parents, ancestors, descendants) && t in nodes && a !in nodes
    ensures !ByParent(parents, ancestors, t, a)
  {
  }

  lemma SameByParents(parents: Sets<ClusterTx>, ancestors: Sets<ClusterTx>, parents': Sets<ClusterTx>, ancestors': Sets<ClusterTx>,
                      t: ClusterTx, a: ClusterTx)
    requires t in parents && t in parents' && parents[t] == parents'[t]
    requires forall p | p in parents[t] :: p in ancestors && p in ancestors' && ancestors[p] == ancestors'[p]
    ensures ByParent(parents, ancestors, t, a) <==> ByParent(parents', ancestors', t, a)
  {
  }

  lemma KnownAncestors(nodes: set<ClusterTx>, parents: Sets<ClusterTx>, children: Sets<ClusterTx>, ancestors: Sets<ClusterTx>,
                       descendants: Sets<ClusterTx>, rank: map<ClusterTx, int>, parent: ClusterTx, child: ClusterTx)
    requires Related(nodes, parents, children, rank) && Closed(nodes, parents, ancestors, descendants)
    requires parent in nodes && child in nodes && parent in ancestors[child]
    ensures forall a | a in ancestors[parent] :: a in ancestors[child]
  {
    hide ByParent;
    var low := Lowest(nodes, rank);
    forall a | a in ancestors[parent] ensures a in ancestors[child] {
      AncestorTrans(nodes, parents, children, ancestors, descendants, rank, low, a, parent, child);
    }
  }

  /** Descendants of the child and ancestors of the parent do not meet. */
  lemma LinkSides(nodes: set<ClusterTx>, parents: Sets<ClusterTx>, children: Sets<ClusterTx>, ancestors: Sets<ClusterTx>,
                  descendants: Sets<ClusterTx>, rank: map<ClusterTx, int>, parent: ClusterTx, child: ClusterTx)
    requires Related(nodes, parents, children, rank) && Closed(nodes, parents, ancestors, descendants)
    requires parent in nodes && child in nodes && child !in ancestors[parent]
    ensures descendants[child] !! ancestors[parent]
    ensures descendants[child] <= nodes && ancestors[parent] <= nodes
  {
    hide ByParent;
    var low := Lowest(nodes, rank);
    if x :| x in descendants[child] && x in ancestors[parent] {
      AncestorTrans(nodes, parents, children, ancestors, descendants, rank, low, child, x, parent);
    }
  }

  // ---------- a copy of a part

  /** Each transaction of a part has its own copy. */
  ghost predicate Paired(txMap: map<ClusterTx, ClusterTx>, inverse: map<ClusterTx, ClusterTx>) {
    && (forall t | t in txMap :: txMap[t] in inverse && inverse[txMap[t]] == t)
    && (forall u | u in inverse :: inverse[u] in txMap && txMap[inverse[u]] == u)
  }

  ghost predicate SameData(a: ClusterTx, b: ClusterTx)
    reads a`effectiveFee, b`effectiveFee
  {
    a.txid == b.txid && a.effectiveFee == b.effectiveFee && a.weight == b.weight && a.order == b.order
  }

  /** The links among the copies are those of the pairs `links`. */
  ghost predicate CopiedLinks(txMap: map<ClusterTx, ClusterTx>, parents: Sets<ClusterTx>, links: set<(ClusterTx, ClusterTx)>) {
    && parents.Keys == txMap.Values
    && (forall c, p | c in txMap && p in txMap :: txMap[p] in parents[txMap[c]] <==> (p, c) in links)
    && (forall u | u in parents :: parents[u] <= txMap.Values)
  }

  lemma LinkCopied(txMap: map<ClusterTx, ClusterTx>, inverse: map<ClusterTx, ClusterTx>, parents: Sets<ClusterTx>, links: set<(ClusterTx, ClusterTx)>,
                   parent: ClusterTx, child: ClusterTx)
    requires Paired(txMap, inverse) && CopiedLinks(txMap, parents, links) && parent in txMap && child in txMap
    ensures CopiedLinks(txMap, WithLink(parents, txMap[child], txMap[parent]), links + {(parent, child)})
  {
    var parents' := WithLink(parents, txMap[child], txMap[parent]);
    forall c, p | c in txMap && p in txMap ensures txMap[p] in parents'[txMap[c]] <==> (p, c) in links + {(parent, child)} {
      assert txMap[p] == txMap[parent] ==> p == parent;
      assert txMap[c] == txMap[child] ==> c == child;
    }
  }

  /** The copies are ranked like the originals, so a link between originals closes no cycle. */
  lemma NoLinkBack(nodes: set<ClusterTx>, parents: Sets<ClusterTx>, children: Sets<ClusterTx>, rank: map<ClusterTx, int>,
                   copies: set<ClusterTx>, parents': Sets<ClusterTx>, children': Sets<ClusterTx>, ancestors': Sets<ClusterTx>, descendants': Sets<ClusterTx>,
                   rank': map<ClusterTx, int>, txMap: map<ClusterTx, ClusterTx>, inverse: map<ClusterTx, ClusterTx>, links: set<(ClusterTx, ClusterTx)>,
                   parent: ClusterTx, child: ClusterTx)
    requires Related(nodes, parents, children, rank) && txMap.Keys <= nodes && Paired(txMap, inverse)
    requires Related(copies, parents', children', rank') && Closed(copies, parents', ancestors', descendants')
    requires CopiedLinks(txMap, parents', links) && copies == txMap.Values
    requires forall p, c | (p, c) in links :: c in nodes && p in parents[c]
    requires child in txMap && parent in txMap && child in parents && parent in parents[child]
    ensures txMap[parent] in ancestors' && txMap[child] !in ancestors'[txMap[parent]]
  {
    hide ByParent, Related, Closed, Paired, CopiedLinks;
    ClosedParts(copies, parents', ancestors', descendants');
    PairedAt(txMap, inverse, parent);
    PairedAt(txMap, inverse, child);
    var through := CopiesRanked(nodes, parents, children, rank, copies, parents', children', rank', txMap, inverse, links);
    RelatedRank(nodes, parents, children, rank, parent, child);
    var low := Lowest(copies, through);
    if txMap[child] in ancestors'[txMap[parent]] {
      AncestorRank(copies, parents', children', ancestors', descendants', through, low, txMap[child], txMap[parent]);
    }
  }

  lemma PairedAt(txMap: map<ClusterTx, ClusterTx>, inverse: map<ClusterTx, ClusterTx>, t: ClusterTx)
    requires Paired(txMap, inverse) && t in txMap
    ensures txMap[t] in inverse && inverse[txMap[t]] == t && txMap[t] in txMap.Values
  {
  }

  lemma CopiesRanked(nodes: set<ClusterTx>, parents: Sets<ClusterTx>, children: Sets<ClusterTx>, rank: map<ClusterTx, int>,
                     copies: set<ClusterTx>, parents': Sets<ClusterTx>, children': Sets<ClusterTx>, rank': map<ClusterTx, int>,
                     txMap: map<ClusterTx, ClusterTx>, inverse: map<ClusterTx, ClusterTx>, links: set<(ClusterTx, ClusterTx)>)
    returns (through: map<ClusterTx, int>)
    requires Related(nodes, parents, children, rank) && txMap.Keys <= nodes && Paired(txMap, inverse)
    requires Related(copies, parents', children', rank') && CopiedLinks(txMap, parents', links) && copies == txMap.Values
    requires forall p, c | (p, c) in links :: c in nodes && p in parents[c]
    ensures Related(copies, parents', children', through) && through.Keys == copies
    ensures forall t | t in txMap :: txMap[t] in through && through[txMap[t]] == rank[t]
  {
    hide Related, Paired, CopiedLinks;
    forall t | t in txMap ensures txMap[t] in inverse && inverse[txMap[t]] == t {
      PairedAt(txMap, inverse, t);
    }
    RelatedKeys(nodes, parents, children, rank);
    RelatedKeys(copies, parents', children', rank');
    through := map u | u in copies && u in inverse && inverse[u] in rank :: rank[inverse[u]];
    forall u: ClusterTx | u in copies ensures u in through {
      var t: ClusterTx :| t in txMap && txMap[t] == u;
    }
    forall c, p | c in copies && p in parents'[c] ensures p in copies && through[p] < through[c] {
      LinkOf(txMap, inverse, parents', links, c, p);
      RelatedRank(nodes, parents, children, rank, inverse[p], inverse[c]);
    }
    Rerank(copies, parents', children', rank', through);
  }

  lemma RelatedKeys(nodes: set<ClusterTx>, parents: Sets<ClusterTx>, children: Sets<ClusterTx>, rank: map<ClusterTx, int>)
    requires Related(nodes, parents, children, rank)
    ensures parents.Keys == nodes && rank.Keys == nodes
  {
  }

  lemma Rerank(nodes: set<ClusterTx>, parents: Sets<ClusterTx>, children: Sets<ClusterTx>, rank: map<ClusterTx, int>, rank': map<ClusterTx, int>)
    requires Related(nodes, parents, children, rank) && rank'.Keys == nodes == parents.Keys
    requires forall c, p | c in nodes && p in parents[c] :: p in nodes && rank'[p] < rank'[c]
    ensures Related(nodes, parents, children, rank')
  {
  }

  lemma LinkOf(txMap: map<ClusterTx, ClusterTx>, inverse: map<ClusterTx, ClusterTx>, parents: Sets<ClusterTx>, links: set<(ClusterTx, ClusterTx)>,
               c: ClusterTx, p: ClusterTx)
    requires Paired(txMap, inverse) && CopiedLinks(txMap, parents, links) && c in parents && p in parents[c]
    ensures p in txMap.Values && p in inverse && c in inverse && (inverse[p], inverse[c]) in links
  {
    assert p in txMap.Values && c in txMap.Values;
    var q: ClusterTx :| q in txMap && txMap[q] == p;
    var d: ClusterTx :| d in txMap && txMap[d] == c;
    assert inverse[p] == q && inverse[c] == d;
  }

  lemma RelatedRank(nodes: set<ClusterTx>, parents: Sets<ClusterTx>, children: Sets<ClusterTx>, rank: map<ClusterTx, int>, parent: ClusterTx, child: ClusterTx)
    requires Related(nodes, parents, children, rank) && child in nodes && child in parents && parent in parents[child]
    ensures parent in rank && child in rank && rank[parent] < rank[child]
  {
  }

  /** A copy of every transaction of the part, without links. */
  method CopyTransactions(txSubset: set<ClusterTx>) returns (depgraph: DepGraph, txMap: map<ClusterTx, ClusterTx>, ghost inverse: map<ClusterTx, ClusterTx>)
    ensures fresh(depgraph) && fresh(depgraph.txs) && depgraph.Valid()
    ensures txMap.Keys == txSubset && txMap.Values == depgraph.txs && Paired(txMap, inverse)
    ensures forall t | t in txSubset :: SameData(txMap[t], t)
    ensures CopiedLinks(txMap, depgraph.Parents(), {})
  {
    hide ByParent, Related, Closed, CopiedLinks, Paired, DepGraph.Parents, DepGraph.Valid, DepGraph.Value, OneEach, Ids, SameData;
    depgraph := new DepGraph();
    NoneCopied(depgraph);
    txMap, inverse := map[], map[];
    var todo := txSubset;
    while todo != {}
      invariant todo <= txSubset && fresh(depgraph) && fresh(depgraph.txs) && depgraph.Valid()
      invariant txMap.Keys == txSubset - todo && txMap.Values == depgraph.txs && Paired(txMap, inverse)
      invariant forall t | t in txMap :: SameData(txMap[t], t)
      invariant CopiedLinks(txMap, depgraph.Parents(), {})
      decreases todo
    {
      var oldTx :| oldTx in todo;
      todo := todo - {oldTx};
      ghost var parents := depgraph.Parents();
      var newTx := depgraph.AddTransaction(oldTx.txid, oldTx.effectiveFee, oldTx.weight, oldTx.order);
      Alike(newTx, oldTx);
      CopyMore(txMap, inverse, parents, oldTx, newTx);
      txMap := txMap[oldTx := newTx];
      inverse := inverse[newTx := oldTx];
    }
  }

  lemma Alike(a: ClusterTx, b: ClusterTx)
    requires a.txid == b.txid && a.effectiveFee == b.effectiveFee && a.weight == b.weight && a.order == b.order
    ensures SameData(a, b)
  {
  }

  lemma NoneCopied(depgraph: DepGraph)
    requires depgraph.txs == {}
    ensures CopiedLinks(map[], depgraph.Parents(), {}) && Paired(map[], map[])
  {
  }

  lemma CopyMore(txMap: map<ClusterTx, ClusterTx>, inverse: map<ClusterTx, ClusterTx>, parents: Sets<ClusterTx>, oldTx: ClusterTx, newTx: ClusterTx)
    requires Paired(txMap, inverse) && CopiedLinks(txMap, parents, {}) && oldTx !in txMap && newTx !in txMap.Values
    ensures Paired(txMap[oldTx := newTx], inverse[newTx := oldTx]) && CopiedLinks(txMap[oldTx := newTx], parents[newTx := {}], {})
    ensures txMap[oldTx := newTx].Values == txMap.Values + {newTx}
  {
    var txMap' := txMap[oldTx := newTx];
    forall u: ClusterTx | u in txMap.Values + {newTx} ensures u in txMap'.Values {
      if u != newTx {
        var t: ClusterTx :| t in txMap && txMap[t] == u;
        assert txMap'[t] == u;
      } else {
        assert txMap'[oldTx] == u;
      }
    }
  }

  /** The links between transactions of the part. */
  ghost function LinksWithin(parents: Sets<ClusterTx>, part: set<ClusterTx>): set<(ClusterTx, ClusterTx)> {
    set c, p | c in part && c in parents && p in parents[c] && p in part :: (p, c)
  }

  ghost function LinksInto(parents: Sets<ClusterTx>, part: set<ClusterTx>, done: set<ClusterTx>): set<(ClusterTx, ClusterTx)> {
    set e | e in LinksWithin(parents, part) && e.1 in done
  }

  /** A part of a graph as a graph of its own, over copies of its transactions. */
  method Subgraph(source: DepGraph, txSubset: set<ClusterTx>) returns (depgraph: DepGraph, txMap: map<ClusterTx, ClusterTx>, ghost inverse: map<ClusterTx, ClusterTx>)
    requires source.Valid() && txSubset <= source.txs
    ensures fresh(depgraph) && fresh(depgraph.txs) && depgraph.Valid()
    ensures txMap.Keys == txSubset && txMap.Values == depgraph.txs && Paired(txMap, inverse)
    ensures forall t | t in txSubset :: SameData(txMap[t], t)
    ensures CopiedLinks(txMap, depgraph.Parents(), LinksWithin(source.Parents(), txSubset))
    ensures OneEach(source.txs) ==> OneEach(depgraph.txs) && depgraph.Value() == MempoolState.Restrict(source.Value(), Ids(txSubset))
  {
    hide ByParent, Related, Closed, CopiedLinks, Paired, WithLink, LinksInto, LinksWithin, SameData, DepGraph.Valid, DepGraph.Value, OneEach;
    depgraph, txMap, inverse := CopyTransactions(txSubset);
    var todo := txSubset;
    ghost var par := source.Parents();
    NoLinksYet(par, txSubset);
    assert txSubset - todo == {};
    while todo != {}
      invariant todo <= txSubset && fresh(depgraph) && fresh(depgraph.txs) && depgraph.Valid()
      invariant txMap.Keys == txSubset && txMap.Values == depgraph.txs
      invariant source.Valid() && source.Parents() == par
      invariant CopiedLinks(txMap, depgraph.Parents(), LinksInto(par, txSubset, txSubset - todo))
      invariant forall t | t in txSubset :: SameData(txMap[t], t)
      decreases todo
    {
      var oldTx :| oldTx in todo;
      ghost var done := txSubset - todo;
      CopyParents(source, depgraph, txSubset, txMap, inverse, oldTx, done);
      todo := todo - {oldTx};
      assert txSubset - todo == done + {oldTx};
    }
    LinksIntoAll(par, txSubset);
    CopiedValue(source, depgraph, txSubset, txMap, inverse);
  }

  /** The copies make the graph that is left of the source when only the part is kept. */
  lemma CopiedValue(source: DepGraph, depgraph: DepGraph, part: set<ClusterTx>, txMap: map<ClusterTx, ClusterTx>, inverse: map<ClusterTx, ClusterTx>)
    requires source.Valid() && part <= source.txs && txMap.Keys == part && txMap.Values == depgraph.txs && Paired(txMap, inverse)
    requires forall t | t in part :: SameData(txMap[t], t)
    requires CopiedLinks(txMap, depgraph.Parents(), LinksWithin(source.Parents(), part))
    ensures OneEach(source.txs) ==> OneEach(depgraph.txs) && depgraph.Value() == MempoolState.Restrict(source.Value(), Ids(part))
  {
    if OneEach(source.txs) {
      hide Paired, CopiedLinks, LinksWithin, AsGraph, MempoolState.Restrict, DepGraph.Valid, Ids;
      source.ParentsWithin();
      CopiedFees(source, depgraph, part, txMap);
      PartGraph(source.txs, source.Parents(), source.Fees(), part, depgraph.txs, depgraph.Parents(), depgraph.Fees(), txMap);
    }
  }

  lemma PartGraph(txs: set<ClusterTx>, parents: Sets<ClusterTx>, fees: map<ClusterTx, int>, part: set<ClusterTx>,
                  copies: set<ClusterTx>, parents': Sets<ClusterTx>, fees': map<ClusterTx, int>, txMap: map<ClusterTx, ClusterTx>)
    requires OneEach(txs) && part <= txs && parents.Keys == fees.Keys == txs && forall t | t in txs :: parents[t] <= txs
    requires txMap.Keys == part && txMap.Values == copies && fees'.Keys == copies
    requires forall t | t in part :: txMap[t] in copies && fees'[txMap[t]] == fees[t]
    requires forall t | t in part :: txMap[t].txid == t.txid && txMap[t].weight == t.weight && txMap[t].order == t.order
    requires CopiedLinks(txMap, parents', LinksWithin(parents, part))
    ensures OneEach(copies) && parents'.Keys == copies
    ensures AsGraph(copies, parents', fees') == MempoolState.Restrict(AsGraph(txs, parents, fees), Ids(part))
  {
    hide AsGraph, MempoolState.Restrict, CopiedLinks, LinksWithin, Ids, Without;
    var gone := txs - part;
    assert txs - gone == part;
    RemovedGraph(txs, parents, fees, gone);
    CopiesOnce(txs, part, copies, txMap);
    PartLinks(txs, parents, part, txMap, parents');
    var rest, left := Without(parents, gone), fees - gone;
    assert left.Keys == part && forall t | t in part :: left[t] == fees[t];
    CopiedGraph(part, rest, left, copies, parents', fees', txMap);
  }

  lemma CopiedFees(source: DepGraph, depgraph: DepGraph, part: set<ClusterTx>, txMap: map<ClusterTx, ClusterTx>)
    requires part <= source.txs && txMap.Keys == part && txMap.Values == depgraph.txs && forall t | t in part :: SameData(txMap[t], t)
    ensures forall t | t in part :: txMap[t] in depgraph.txs && depgraph.Fees()[txMap[t]] == source.Fees()[t]
    ensures forall t | t in part :: txMap[t].txid == t.txid && txMap[t].weight == t.weight && txMap[t].order == t.order
  {
  }

  lemma PartLinks(txs: set<ClusterTx>, parents: Sets<ClusterTx>, part: set<ClusterTx>, txMap: map<ClusterTx, ClusterTx>, parents': Sets<ClusterTx>)
    requires parents.Keys == txs && part <= txs && txMap.Keys == part && CopiedLinks(txMap, parents', LinksWithin(parents, part))
    requires forall t | t in txs :: parents[t] <= txs
    ensures Without(parents, txs - part).Keys == part && forall c | c in part :: Without(parents, txs - part)[c] <= part
    ensures parents'.Keys == txMap.Values && forall u | u in parents' :: parents'[u] <= txMap.Values
    ensures forall c, p | c in part && p in part :: txMap[c] in parents' && (txMap[p] in parents'[txMap[c]] <==> p in Without(parents, txs - part)[c])
  {
  }

  lemma CopiesOnce(txs: set<ClusterTx>, part: set<ClusterTx>, copies: set<ClusterTx>, txMap: map<ClusterTx, ClusterTx>)
    requires OneEach(txs) && part <= txs && txMap.Keys == part && txMap.Values == copies && forall t | t in part :: txMap[t].txid == t.txid
    ensures OneEach(copies)
  {
    forall a, b | a in copies && b in copies && a.txid == b.txid ensures a == b {
      var s: ClusterTx :| s in txMap && txMap[s] == a;
      var t: ClusterTx :| t in txMap && txMap[t] == b;
    }
  }

  /** A graph over copies with the same ids and links has the same value. */
  lemma CopiedGraph(part: set<ClusterTx>, parents: Sets<ClusterTx>, fees: map<ClusterTx, int>,
                    copies: set<ClusterTx>, parents': Sets<ClusterTx>, fees': map<ClusterTx, int>, txMap: map<ClusterTx, ClusterTx>)
    requires OneEach(part) && parents.Keys == fees.Keys == part && OneEach(copies) && parents'.Keys == fees'.Keys == copies
    requires txMap.Keys == part && txMap.Values == copies
    requires forall t | t in part :: txMap[t] in copies && txMap[t].txid == t.txid && txMap[t].weight == t.weight && txMap[t].order == t.order
    requires forall t | t in part :: fees'[txMap[t]] == fees[t] && parents[t] <= part && parents'[txMap[t]] <= copies
    requires forall c, p | c in part && p in part :: txMap[p] in parents'[txMap[c]] <==> p in parents[c]
    ensures AsGraph(copies, parents', fees') == AsGraph(part, parents, fees)
  {
    CopiedById(part, fees, copies, fees', txMap);
    CopiedById(part, Weights(part), copies, Weights(copies), txMap);
    CopiedById(part, Orders(part), copies, Orders(copies), txMap);
    CopiedEdges(part, parents, copies, parents', txMap);
    hide ById, EdgeIds, OneEach;
  }

  lemma CopiedById<V>(part: set<ClusterTx>, m: map<ClusterTx, V>, copies: set<ClusterTx>, m': map<ClusterTx, V>, txMap: map<ClusterTx, ClusterTx>)
    requires OneEach(part) && m.Keys == part && m'.Keys == copies && OneEach(copies) && txMap.Keys == part && txMap.Values == copies
    requires forall t | t in part :: txMap[t].txid == t.txid && txMap[t] in copies && m'[txMap[t]] == m[t]
    ensures ById(copies, m') == ById(part, m)
  {
    forall u | u in copies ensures u.txid in ById(part, m) && ById(part, m)[u.txid] == m'[u] {
      var t: ClusterTx :| t in txMap && txMap[t] == u;
    }
    forall t | t in part ensures t.txid in ById(copies, m') {
      assert txMap[t] in copies;
    }
  }

  lemma CopiedEdges(part: set<ClusterTx>, parents: Sets<ClusterTx>, copies: set<ClusterTx>, parents': Sets<ClusterTx>, txMap: map<ClusterTx, ClusterTx>)
    requires parents.Keys == part == txMap.Keys && parents'.Keys == copies == txMap.Values
    requires forall t | t in part :: txMap[t] in copies && txMap[t].txid == t.txid && parents[t] <= part && parents'[txMap[t]] <= copies
    requires forall c, p | c in part && p in part :: txMap[p] in parents'[txMap[c]] <==> p in parents[c]
    ensures EdgeIds(copies, parents') == EdgeIds(part, parents)
  {
    forall e | e in EdgeIds(copies, parents') ensures e in EdgeIds(part, parents) {
      var u: ClusterTx, v: ClusterTx :| u in copies && v in parents'[u] && e == (v.txid, u.txid);
      var c: ClusterTx :| c in txMap && txMap[c] == u;
      var p: ClusterTx :| p in txMap && txMap[p] == v;
      assert p in parents[c];
    }
    forall e | e in EdgeIds(part, parents) ensures e in EdgeIds(copies, parents') {
      var c: ClusterTx, p: ClusterTx :| c in part && p in parents[c] && e == (p.txid, c.txid);
      assert txMap[p] in parents'[txMap[c]];
    }
  }

  lemma NoLinksYet(parents: Sets<ClusterTx>, part: set<ClusterTx>)
    ensures LinksInto(parents, part, {}) == {}
  {
  }

  lemma LinksIntoAll(parents: Sets<ClusterTx>, part: set<ClusterTx>)
    ensures LinksInto(parents, part, part - {}) == LinksWithin(parents, part)
  {
  }

  /** Links the copy of one transaction to the copies of its parents. */
  method CopyParents(source: DepGraph, depgraph: DepGraph, txSubset: set<ClusterTx>, txMap: map<ClusterTx, ClusterTx>, ghost inverse: map<ClusterTx, ClusterTx>,
                     oldTx: ClusterTx, ghost done: set<ClusterTx>)
    requires source.Valid() && depgraph.Valid() && depgraph != source && depgraph.txs !! source.txs && oldTx in txSubset && txSubset <= source.txs
    requires txMap.Keys == txSubset && txMap.Values == depgraph.txs && Paired(txMap, inverse) && oldTx !in done && done <= txSubset
    requires CopiedLinks(txMap, depgraph.Parents(), LinksInto(source.Parents(), txSubset, done))
    modifies depgraph`rank, depgraph.txs`parents, depgraph.txs`children, depgraph.txs`ancestors, depgraph.txs`descendants
    ensures depgraph.Valid() && depgraph.txs == old(depgraph.txs)
    ensures CopiedLinks(txMap, depgraph.Parents(), LinksInto(source.Parents(), txSubset, done + {oldTx}))
  {
    hide DepGraph.Valid, CopiedLinks, Paired, WithLink, LinksInto, LinksWithin, LinksSome;
    ghost var par := source.Parents();
    assert oldTx.parents == par[oldTx];
    var parents := oldTx.parents * txSubset;
    ghost var links := LinksInto(par, txSubset, done);
    LinksStart(par, txSubset, done, oldTx, parents);
    while parents != {}
      invariant parents <= par[oldTx] * txSubset && depgraph.Valid() && depgraph.txs == old(depgraph.txs)
      invariant source.Valid() && source.Parents() == par && oldTx.parents == par[oldTx]
      invariant CopiedLinks(txMap, depgraph.Parents(), links) && LinksSome(par, txSubset, done, oldTx, parents, links)
      decreases parents
    {
      var parent :| parent in parents;
      LinksNext(par, txSubset, done, oldTx, parents, links, parent);
      LinkParent(source, depgraph, txSubset, txMap, inverse, links, parent, oldTx);
      links := links + {(parent, oldTx)};
      parents := parents - {parent};
    }
    LinksIntoMore(par, txSubset, done, oldTx, links);
  }

  /** Links the copies of a parent and its child. */
  method LinkParent(source: DepGraph, depgraph: DepGraph, ghost part: set<ClusterTx>, txMap: map<ClusterTx, ClusterTx>, ghost inverse: map<ClusterTx, ClusterTx>,
                    ghost links: set<(ClusterTx, ClusterTx)>, parent: ClusterTx, child: ClusterTx)
    requires source.Valid() && depgraph.Valid() && depgraph != source && depgraph.txs !! source.txs
    requires txMap.Keys == part <= source.txs && txMap.Values == depgraph.txs && Paired(txMap, inverse)
    requires CopiedLinks(txMap, depgraph.Parents(), links) && links <= LinksWithin(source.Parents(), part)
    requires parent in part && child in part && parent in child.parents
    modifies depgraph`rank, depgraph.txs`parents, depgraph.txs`children, depgraph.txs`ancestors, depgraph.txs`descendants
    ensures depgraph.Valid() && depgraph.txs == old(depgraph.txs)
    ensures CopiedLinks(txMap, depgraph.Parents(), links + {(parent, child)})
  {
    hide ByParent, Related, Closed, CopiedLinks, Paired, WithLink;
    PairedAt(txMap, inverse, parent);
    PairedAt(txMap, inverse, child);
    assert parent in source.Parents()[child];
    NoLinkBack(source.txs, source.Parents(), source.Children(), source.rank, depgraph.txs, depgraph.Parents(), depgraph.Children(), depgraph.Ancestors(),
               depgraph.Descendants(), depgraph.rank, txMap, inverse, links, parent, child);
    LinkCopied(txMap, inverse, depgraph.Parents(), links, parent, child);
    assert depgraph.Ancestors()[txMap[parent]] == txMap[parent].ancestors;
    depgraph.AddDependency(txMap[parent], txMap[child]);
  }

  /** The links into `done`, and those from the parents of `child` that are not in `todo`. */
  ghost predicate LinksSome(parents: Sets<ClusterTx>, part: set<ClusterTx>, done: set<ClusterTx>, child: ClusterTx, todo: set<ClusterTx>,
                            links: set<(ClusterTx, ClusterTx)>) {
    && child in parents && child in part
    && links == LinksInto(parents, part, done) + set p | p in parents[child] * part - todo :: (p, child)
  }

  lemma LinksStart(parents: Sets<ClusterTx>, part: set<ClusterTx>, done: set<ClusterTx>, child: ClusterTx, todo: set<ClusterTx>)
    requires child in parents && child in part && todo == parents[child] * part
    ensures LinksSome(parents, part, done, child, todo, LinksInto(parents, part, done))
  {
    hide LinksInto;
  }

  lemma LinksNext(parents: Sets<ClusterTx>, part: set<ClusterTx>, done: set<ClusterTx>, child: ClusterTx, todo: set<ClusterTx>,
                  links: set<(ClusterTx, ClusterTx)>, p: ClusterTx)
    requires LinksSome(parents, part, done, child, todo, links) && p in todo && todo <= parents[child] * part
    ensures LinksSome(parents, part, done, child, todo - {p}, links + {(p, child)}) && links <= LinksWithin(parents, part)
  {
  }

  lemma LinksIntoMore(parents: Sets<ClusterTx>, part: set<ClusterTx>, done: set<ClusterTx>, child: ClusterTx, links: set<(ClusterTx, ClusterTx)>)
    requires LinksSome(parents, part, done, child, {}, links)
    ensures links == LinksInto(parents, part, done + {child})
  {
    forall e | e in LinksInto(parents, part, done + {child}) ensures e in links {
      if e.1 == child {
        assert e == (e.0, child);
      }
    }
    forall e | e in links ensures e in LinksInto(parents, part, done + {child}) {
      if e !in LinksInto(parents, part, done) {
        assert e == (e.0, child);
      }
    }
  }
}
