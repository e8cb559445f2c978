/** The cache of replacement trees and the indexes into it. */
module RbfCache {
  import opened Options
  import opened Graph
  import opened RbfTrees

  /** The indexes of a cache: who replaced a transaction, whom it replaced, the trees by their
      newest transaction, the tree of every transaction, and the stored transactions. */
  datatype Index = Index(replacedBy: map<Txid, Txid>, replacing: map<Txid, seq<Txid>>, rbfTrees: map<Txid, RbfTree>,
                         treeMap: map<Txid, Txid>, txs: map<Txid, CachedTx>)

  // ---------- one forest

  ghost predicate Rooted(ix: Index) {
    forall id | id in ix.rbfTrees :: ix.rbfTrees[id].tx.txid == id && Proper(ix.rbfTrees[id])
  }

  /** `treeMap` names for every transaction the one tree that holds it. */
  ghost predicate Mapped(ix: Index) {
    && (forall x | x in ix.treeMap :: ix.treeMap[x] in ix.rbfTrees && x in Ids(ix.rbfTrees[ix.treeMap[x]]))
    && (forall id, x | id in ix.rbfTrees && x in Ids(ix.rbfTrees[id]) :: x in ix.treeMap && ix.treeMap[x] == id)
  }

  ghost predicate AllLinked(ix: Index) {
    forall id | id in ix.rbfTrees :: Linked(ix.rbfTrees[id], ix.replacedBy, ix.replacing) && id !in ix.replacedBy
  }

  ghost predicate Covered(ix: Index) {
    ix.replacedBy.Keys <= ix.treeMap.Keys && ix.replacing.Keys <= ix.treeMap.Keys
  }

  ghost predicate AllStored(ix: Index) {
    forall id | id in ix.rbfTrees :: Stored(ix.rbfTrees[id], ix.txs)
  }

  ghost predicate AllFlagged(ix: Index) {
    forall id | id in ix.rbfTrees :: Flagged(ix.rbfTrees[id])
  }

  /** All indexes describe one forest. */
  ghost predicate Forest(ix: Index) {
    Rooted(ix) && Mapped(ix) && AllLinked(ix) && Covered(ix) && AllStored(ix) && AllFlagged(ix)
  }

  // ---------- the documented invariants

  lemma Symmetry(ix: Index, a: Txid, b: Txid)
    requires Forest(ix)
    ensures a in ix.replacedBy && ix.replacedBy[a] == b <==> b in ix.replacing && a in ix.replacing[b]
  {
    if a in ix.replacedBy && ix.replacedBy[a] == b {
      var id := ix.treeMap[a];
      assert a in Ids(ix.rbfTrees[id]) && a != id;
      BelowReplaced(ix.rbfTrees[id], ix.replacedBy, ix.replacing, a);
    }
    if b in ix.replacing && a in ix.replacing[b] {
      var id := ix.treeMap[b];
      assert b in Ids(ix.rbfTrees[id]);
      ListedBelow(ix.rbfTrees[id], ix.replacedBy, ix.replacing, b, a);
    }
  }

  lemma UniqueId(ix: Index, x: Txid)
    requires Forest(ix) && x in ix.treeMap
    ensures ix.treeMap[x] in ix.rbfTrees && ix.treeMap[x] in ix.treeMap && ix.treeMap[ix.treeMap[x]] == ix.treeMap[x]
  {
    assert ix.treeMap[x] in Ids(ix.rbfTrees[ix.treeMap[x]]);
  }

  lemma UniqueTree(ix: Index, a: Txid, b: Txid)
    requires Forest(ix) && b in ix.replacing && a in ix.replacing[b]
    ensures a in ix.treeMap && b in ix.treeMap && ix.treeMap[a] == ix.treeMap[b] && a != b
  {
    var t := ix.rbfTrees[ix.treeMap[b]];
    assert b in Ids(t);
    ListedBelow(t, ix.replacedBy, ix.replacing, b, a);
    assert a in Ids(t);
    NotOwnChild(t, ix.replacedBy, ix.replacing, a);
  }

  lemma {:induction false} NotOwnChild(t: RbfTree, rb: map<Txid, Txid>, rp: map<Txid, seq<Txid>>, x: Txid)
    requires Linked(t, rb, rp) && Proper(t) && x in BelowIds(t)
    ensures x in rb && rb[x] != x
  {
    var i :| 0 <= i < |t.replacing| && x in Ids(t.replacing[i]);
    if x != t.replacing[i].tx.txid {
      NotOwnChild(t.replacing[i], rb, rp, x);
    }
  }

  /** A tracked transaction that nothing replaced is the newest of its tree. */
  lemma RootOf(ix: Index, x: Txid)
    requires Forest(ix) && x in ix.treeMap
    ensures x !in ix.replacedBy <==> ix.treeMap[x] == x
    ensures ix.treeMap[x] in ix.rbfTrees
  {
    var id := ix.treeMap[x];
    if id != x {
      BelowReplaced(ix.rbfTrees[id], ix.replacedBy, ix.replacing, x);
    }
  }

  // ---------- a replacement

  /** The subtree under a new transaction for one that it replaces. */
  function KidOf(ix: Index, tx: CachedTx, newTime: real, now: real): RbfTree {
    if tx.txid in ix.rbfTrees then
      var t := ix.rbfTrees[tx.txid];
      t.(interval := Some(newTime - t.time))
    else
      var time := if tx.firstSeen.Some? && tx.firstSeen.value != 0.0 then tx.firstSeen.value else now;
      RbfTree(Strip(tx), time, Some(newTime - time), false, !Signals(tx), [])
  }

  /** The subtrees for all replaced transactions that nothing replaced before, in order. */
  function Kids(ix: Index, replaced: seq<CachedTx>, newTime: real, now: real): seq<RbfTree> {
    if replaced == [] then []
    else
      var kids := Kids(ix, replaced[..|replaced| - 1], newTime, now);
      var tx := replaced[|replaced| - 1];
      if tx.txid in ix.replacedBy || tx.txid in RootIds(kids) then kids else kids + [KidOf(ix, tx, newTime, now)]
  }

  function Links(ids: set<Txid>, newId: Txid): map<Txid, Txid> {
    map x | x in ids :: newId
  }

  predicate Fits(ix: Index, kid: RbfTree) {
    var id := kid.tx.txid;
    if id in ix.rbfTrees then kid == ix.rbfTrees[id].(interval := kid.interval)
    else id !in ix.treeMap && kid.replacing == [] && kid.fullRbf == !kid.tx.rbf
  }

  /** Subtrees that a new root may take over. */
  ghost predicate KidsFit(ix: Index, kids: seq<RbfTree>) {
    && (forall i | 0 <= i < |kids| :: Fits(ix, kids[i]) && kids[i].tx.txid !in ix.replacedBy)
    && (forall i, j | 0 <= i < j < |kids| :: kids[i].tx.txid != kids[j].tx.txid)
  }

  /** The indexes after the transaction of tree `t` replaced those of its children. */
  function Added(ix: Index, t: RbfTree, txs: map<Txid, CachedTx>): Index {
    Index(ix.replacedBy + Links(Elems<Txid>(ChildIds(t)), t.tx.txid), ix.replacing[t.tx.txid := ChildIds(t)],
          (ix.rbfTrees - Elems<Txid>(ChildIds(t)))[t.tx.txid := t], ix.treeMap + Links(Ids(t), t.tx.txid), txs)
  }

  ghost predicate CanAdd(ix: Index, t: RbfTree) {
    && Forest(ix) && KidsFit(ix, t.replacing) && t.tx.txid !in ix.treeMap
    && t.tx.txid !in ChildIds(t)
  }

  lemma InRootIds(ts: seq<RbfTree>, i: nat)
    requires i < |ts|
    ensures ts[i].tx.txid in RootIds(ts) && ts[i].tx.txid in Elems<Txid>(RootIds(ts))
  {
    assert RootIds(ts)[i] == ts[i].tx.txid;
  }

  lemma TreeAt(ix: Index, id: Txid)
    requires Forest(ix) && id in ix.rbfTrees
    ensures var t := ix.rbfTrees[id];
            && t.tx.txid == id && Proper(t) && Linked(t, ix.replacedBy, ix.replacing) && Stored(t, ix.txs) && Flagged(t)
            && id !in ix.replacedBy && id in ix.treeMap && id in Ids(t)
  {
    assert ix.rbfTrees[id].tx.txid in Ids(ix.rbfTrees[id]);
    hide Proper, Linked, Stored, Flagged, Ids;
  }

  lemma InTree(ix: Index, id: Txid, x: Txid)
    requires Forest(ix) && id in ix.rbfTrees && x in Ids(ix.rbfTrees[id])
    ensures x in ix.treeMap && ix.treeMap[x] == id
  {
    hide Proper, Linked, Stored, Flagged, Ids;
  }

  lemma TreeOf(ix: Index, x: Txid)
    requires Forest(ix) && x in ix.treeMap
    ensures ix.treeMap[x] in ix.rbfTrees && x in Ids(ix.rbfTrees[ix.treeMap[x]])
  {
    hide Proper, Linked, Stored, Flagged, Ids;
  }

  /** The time to its replacement is not part of what the indexes say about a tree. */
  lemma IntervalFree(t: RbfTree, interval: Option<real>, rb: map<Txid, Txid>, rp: map<Txid, seq<Txid>>)
    ensures var u := t.(interval := interval);
            && Ids(u) == Ids(t) && BelowIds(u) == BelowIds(t) && (Proper(u) <==> Proper(t))
            && (Linked(u, rb, rp) <==> Linked(t, rb, rp)) && (Flagged(u) <==> Flagged(t)) && (SomeSilent(u) <==> SomeSilent(t))
  {
    var u := t.(interval := interval);
    assert u.replacing == t.replacing;
    assert BelowIds(u) == BelowIds(t);
  }

  lemma KidAt(ix: Index, t: RbfTree, i: nat)
    requires CanAdd(ix, t) && i < |t.replacing|
    ensures var k := t.replacing[i]; Fits(ix, k) && k.tx.txid !in ix.replacedBy && k.tx.txid != t.tx.txid && k.tx.txid in ChildIds(t)
  {
    InRootIds(t.replacing, i);
    hide Forest;
  }

  /** Where the transactions of one child come from. */
  lemma KidIds(ix: Index, t: RbfTree, i: nat)
    requires CanAdd(ix, t) && i < |t.replacing|
    ensures var k := t.replacing[i]; var id := k.tx.txid;
            && t.tx.txid !in Ids(k)
            && (id in ix.rbfTrees ==> Ids(k) == Ids(ix.rbfTrees[id]) && forall x | x in Ids(k) :: x in ix.treeMap && ix.treeMap[x] == id)
            && (id !in ix.rbfTrees ==> Ids(k) == {id} && id !in ix.treeMap)
  {
    hide Forest, Proper, Linked, Stored, Flagged, SomeSilent;
    KidAt(ix, t, i);
    var k := t.replacing[i];
    var id := k.tx.txid;
    if id in ix.rbfTrees {
      IntervalFree(ix.rbfTrees[id], k.interval, map[], map[]);
      hide Ids, BelowIds;
      forall x | x in Ids(k) ensures x in ix.treeMap && ix.treeMap[x] == id {
        InTree(ix, id, x);
      }
    }
  }

  lemma {:induction false} KidProper(ix: Index, t: RbfTree, i: nat)
    requires CanAdd(ix, t) && i < |t.replacing|
    ensures Proper(t.replacing[i]) && Linked(t.replacing[i], ix.replacedBy, ix.replacing) && Flagged(t.replacing[i])
    ensures SomeSilent(t.replacing[i]) <==> t.replacing[i].fullRbf || !t.replacing[i].tx.rbf
  {
    hide Forest;
    KidAt(ix, t, i);
    var k := t.replacing[i];
    var id := k.tx.txid;
    if id in ix.rbfTrees {
      TreeAt(ix, id);
      IntervalFree(ix.rbfTrees[id], k.interval, ix.replacedBy, ix.replacing);
      SilentFlag(k);
    } else {
      LeafUnlisted(ix, id);
    }
  }

  lemma SilentFlag(t: RbfTree)
    requires Flagged(t)
    ensures SomeSilent(t) <==> t.fullRbf || !t.tx.rbf
  {
  }

  lemma LeafUnlisted(ix: Index, id: Txid)
    requires Forest(ix) && id !in ix.treeMap
    ensures id !in ix.replacing && id !in ix.replacedBy && id !in ix.rbfTrees
  {
    hide Proper, Linked, Stored, Flagged;
    if id in ix.rbfTrees {
      TreeAt(ix, id);
    }
  }

  lemma AddedProper(ix: Index, t: RbfTree)
    requires CanAdd(ix, t)
    ensures Proper(t)
  {
    var kids := t.replacing;
    forall i, j | 0 <= i < j < |kids| ensures Ids(kids[i]) !! Ids(kids[j]) {
      KidsApart(ix, t, i, j);
    }
    forall i | 0 <= i < |kids| ensures Proper(kids[i]) && t.tx.txid !in Ids(kids[i]) {
      KidIds(ix, t, i);
      KidProper(ix, t, i);
    }
    hide CanAdd;
  }

  lemma KidsApart(ix: Index, t: RbfTree, i: nat, j: nat)
    requires CanAdd(ix, t) && i < j < |t.replacing|
    ensures Ids(t.replacing[i]) !! Ids(t.replacing[j])
  {
    hide Ids, Forest;
    KidIds(ix, t, i);
    KidIds(ix, t, j);
    KidAt(ix, t, i);
    KidAt(ix, t, j);
    forall x | x in Ids(t.replacing[i]) ensures x !in Ids(t.replacing[j]) {
    }
  }

  lemma AddedRooted(ix: Index, t: RbfTree, txs: map<Txid, CachedTx>)
    requires CanAdd(ix, t)
    ensures Rooted(Added(ix, t, txs))
  {
    AddedProper(ix, t);
  }

  lemma NotInIds(t: RbfTree, x: Txid)
    requires x != t.tx.txid && forall i | 0 <= i < |t.replacing| :: x !in Ids(t.replacing[i])
    ensures x !in Ids(t)
  {
  }

  /** The transactions of the trees that are left are not in the new one. */
  lemma OthersApart(ix: Index, t: RbfTree, id: Txid, x: Txid)
    requires CanAdd(ix, t) && id in ix.rbfTrees && id !in ChildIds(t) && x in Ids(ix.rbfTrees[id])
    ensures x !in Ids(t) && x in ix.treeMap && ix.treeMap[x] == id
  {
    hide Forest, Ids;
    InTree(ix, id, x);
    forall i | 0 <= i < |t.replacing| ensures x !in Ids(t.replacing[i]) {
      hide CanAdd;
      KidIds(ix, t, i);
      KidAt(ix, t, i);
    }
    NotInIds(t, x);
  }

  lemma AddedMapped(ix: Index, t: RbfTree, txs: map<Txid, CachedTx>)
    requires CanAdd(ix, t)
    ensures Mapped(Added(ix, t, txs))
  {
    hide Ids, Forest;
    var ix' := Added(ix, t, txs);
    var newId := t.tx.txid;
    assert newId in Ids(t) by { RootInIds(t); }
    forall x | x in ix'.treeMap ensures ix'.treeMap[x] in ix'.rbfTrees && x in Ids(ix'.rbfTrees[ix'.treeMap[x]]) {
      if x !in Ids(t) {
        StaysApart(ix, t, x);
        TreeOf(ix, x);
      }
    }
    forall id, x | id in ix'.rbfTrees && x in Ids(ix'.rbfTrees[id]) ensures x in ix'.treeMap && ix'.treeMap[x] == id {
      if id != newId {
        OthersApart(ix, t, id, x);
      }
    }
  }

  lemma RootInIds(t: RbfTree)
    ensures t.tx.txid in Ids(t)
  {
  }

  lemma StaysApart(ix: Index, t: RbfTree, x: Txid)
    requires CanAdd(ix, t) && x in ix.treeMap && x !in Ids(t)
    ensures ix.treeMap[x] !in ChildIds(t) && ix.treeMap[x] != t.tx.txid
  {
    hide Forest;
    TreeOf(ix, x);
    var id := ix.treeMap[x];
    forall i | 0 <= i < |t.replacing| ensures ChildIds(t)[i] != id {
      KidIds(ix, t, i);
      assert forall y | y in Ids(t.replacing[i]) :: y in BelowIds(t);
      hide Ids;
    }
    LeafUnlisted(ix, t.tx.txid);
  }

  lemma AddedLinked(ix: Index, t: RbfTree, txs: map<Txid, CachedTx>)
    requires CanAdd(ix, t)
    ensures AllLinked(Added(ix, t, txs))
  {
    hide Ids, BelowIds, Forest, Linked, Proper;
    var ix' := Added(ix, t, txs);
    AddedLinkedRoot(ix, t, txs);
    forall id | id in ix'.rbfTrees && id != t.tx.txid ensures Linked(ix'.rbfTrees[id], ix'.replacedBy, ix'.replacing) && id !in ix'.replacedBy {
      var u := ix.rbfTrees[id];
      TreeAt(ix, id);
      forall x | x in Ids(u) ensures x !in Ids(t) {
        OthersApart(ix, t, id, x);
      }
      RootInIds(t);
      KeptLinks(ix, t, txs, u);
    }
  }

  lemma KeptLinks(ix: Index, t: RbfTree, txs: map<Txid, CachedTx>, u: RbfTree)
    requires CanAdd(ix, t) && Linked(u, ix.replacedBy, ix.replacing) && Proper(u) && t.tx.txid !in Ids(u)
    ensures Linked(u, Added(ix, t, txs).replacedBy, Added(ix, t, txs).replacing)
  {
    hide Ids, BelowIds, Forest, Linked, Proper;
    var ix' := Added(ix, t, txs);
    forall x | x in BelowIds(u) && x in ix.replacedBy ensures x in ix'.replacedBy && ix.replacedBy[x] == ix'.replacedBy[x] {
      NotAKid(ix, t, x);
    }
    LinkedFrame(u, ix.replacedBy, ix.replacing, ix'.replacedBy, ix'.replacing);
  }

  lemma AddedLinkedKid(ix: Index, t: RbfTree, txs: map<Txid, CachedTx>, i: nat)
    requires CanAdd(ix, t) && i < |t.replacing|
    ensures var ix' := Added(ix, t, txs); var id := t.replacing[i].tx.txid;
            Linked(t.replacing[i], ix'.replacedBy, ix'.replacing) && id in ix'.replacedBy && ix'.replacedBy[id] == t.tx.txid
  {
    hide CanAdd, Linked, Ids, Proper, Flagged;
    KidIds(ix, t, i);
    KidProper(ix, t, i);
    KeptLinks(ix, t, txs, t.replacing[i]);
    InRootIds(t.replacing, i);
  }

  lemma AddedLinkedRoot(ix: Index, t: RbfTree, txs: map<Txid, CachedTx>)
    requires CanAdd(ix, t)
    ensures Linked(t, Added(ix, t, txs).replacedBy, Added(ix, t, txs).replacing)
    ensures t.tx.txid !in Added(ix, t, txs).replacedBy
  {
    var ix' := Added(ix, t, txs);
    LeafUnlisted(ix, t.tx.txid);
    forall i | 0 <= i < |t.replacing|
      ensures Linked(t.replacing[i], ix'.replacedBy, ix'.replacing)
      ensures t.replacing[i].tx.txid in ix'.replacedBy && ix'.replacedBy[t.replacing[i].tx.txid] == t.tx.txid
    {
      AddedLinkedKid(ix, t, txs, i);
    }
    LinkedNode(t, ix'.replacedBy, ix'.replacing);
    hide Linked, Forest;
  }

  lemma LinkedNode(t: RbfTree, rb: map<Txid, Txid>, rp: map<Txid, seq<Txid>>)
    requires ChildIds(t) == (if t.tx.txid in rp then rp[t.tx.txid] else [])
    requires forall i | 0 <= i < |t.replacing| :: t.replacing[i].tx.txid in rb && rb[t.replacing[i].tx.txid] == t.tx.txid
    requires forall i | 0 <= i < |t.replacing| :: Linked(t.replacing[i], rb, rp)
    ensures Linked(t, rb, rp)
  {
  }

  lemma NotAKid(ix: Index, t: RbfTree, x: Txid)
    requires CanAdd(ix, t) && x in ix.replacedBy
    ensures x !in ChildIds(t)
  {
  }

  lemma AddedStored(ix: Index, t: RbfTree, txs: map<Txid, CachedTx>)
    requires CanAdd(ix, t) && Shows(t.tx, txs)
    requires forall x | x in ix.txs :: x in txs && txs[x] == ix.txs[x]
    requires forall i | 0 <= i < |t.replacing| && t.replacing[i].tx.txid !in ix.rbfTrees :: Shows(t.replacing[i].tx, txs)
    ensures AllStored(Added(ix, t, txs))
  {
    forall i | 0 <= i < |t.replacing| ensures Stored(t.replacing[i], txs) {
      var k := t.replacing[i];
      assert Fits(ix, k);
      if k.tx.txid in ix.rbfTrees {
        StoredFrame(ix.rbfTrees[k.tx.txid], ix.txs, txs);
      }
    }
    forall id | id in ix.rbfTrees ensures Stored(ix.rbfTrees[id], txs) {
      StoredFrame(ix.rbfTrees[id], ix.txs, txs);
    }
  }

  lemma AddedFlagged(ix: Index, t: RbfTree, txs: map<Txid, CachedTx>)
    requires CanAdd(ix, t) && t.replacing != []
    requires t.fullRbf <==> exists i | 0 <= i < |t.replacing| :: t.replacing[i].fullRbf || !t.replacing[i].tx.rbf
    ensures AllFlagged(Added(ix, t, txs))
  {
    forall i | 0 <= i < |t.replacing| ensures Flagged(t.replacing[i]) && (SomeSilent(t.replacing[i]) <==> t.replacing[i].fullRbf || !t.replacing[i].tx.rbf) {
      KidProper(ix, t, i);
    }
  }

  /** A replacement keeps the forest. */
  lemma AddedForest(ix: Index, t: RbfTree, txs: map<Txid, CachedTx>)
    requires CanAdd(ix, t) && Shows(t.tx, txs) && t.replacing != []
    requires forall x | x in ix.txs :: x in txs && txs[x] == ix.txs[x]
    requires forall i | 0 <= i < |t.replacing| && t.replacing[i].tx.txid !in ix.rbfTrees :: Shows(t.replacing[i].tx, txs)
    requires t.fullRbf <==> exists i | 0 <= i < |t.replacing| :: t.replacing[i].fullRbf || !t.replacing[i].tx.rbf
    ensures Forest(Added(ix, t, txs))
  {
    AddedRooted(ix, t, txs);
    AddedMapped(ix, t, txs);
    AddedLinked(ix, t, txs);
    AddedStored(ix, t, txs);
    AddedFlagged(ix, t, txs);
    AddedCovered(ix, t, txs);
  }

  lemma AddedCovered(ix: Index, t: RbfTree, txs: map<Txid, CachedTx>)
    requires CanAdd(ix, t)
    ensures Covered(Added(ix, t, txs))
  {
    forall x | x in Elems<Txid>(ChildIds(t)) ensures x in Ids(t) {
      var i :| 0 <= i < |t.replacing| && ChildIds(t)[i] == x;
      assert x in Ids(t.replacing[i]);
    }
  }

  /** The stored transactions after a replacement: those that no tree holds yet are new. */
  function TxsAfter(ix: Index, replaced: seq<CachedTx>, base: map<Txid, CachedTx>, newTime: real, now: real): map<Txid, CachedTx> {
    if replaced == [] then base
    else
      var earlier := replaced[..|replaced| - 1];
      var tx := replaced[|replaced| - 1];
      var txs := TxsAfter(ix, earlier, base, newTime, now);
      if tx.txid in ix.replacedBy || tx.txid in RootIds(Kids(ix, earlier, newTime, now)) || tx.txid in ix.treeMap then txs
      else txs[tx.txid := tx]
  }

  /** The replacements that `Add` passes over. */
  predicate Ignored(ix: Index, replaced: seq<CachedTx>, newTx: CachedTx) {
    newTx.txid in ix.txs || forall r | r in replaced :: r.txid in ix.replacedBy
  }

  function NewTime(newTx: CachedTx, now: real): real {
    if newTx.firstSeen.Some? && newTx.firstSeen.value != 0.0 then newTx.firstSeen.value else now
  }

  predicate AnySilent(kids: seq<RbfTree>) {
    exists i | 0 <= i < |kids| :: kids[i].fullRbf || !kids[i].tx.rbf
  }

  /** The tree that a replacement makes. */
  function NewTree(ix: Index, replaced: seq<CachedTx>, newTx: CachedTx, now: real): RbfTree {
    var kids := Kids(ix, replaced, NewTime(newTx, now), now);
    RbfTree(Strip(newTx).(fullRbf := exists r | r in replaced :: !Signals(r)), NewTime(newTx, now), None, false, AnySilent(kids), kids)
  }

  ghost function AfterAdd(ix: Index, replaced: seq<CachedTx>, newTx: CachedTx, now: real): Index {
    Added(ix, NewTree(ix, replaced, newTx, now), TxsAfter(ix, replaced, ix.txs[newTx.txid := newTx], NewTime(newTx, now), now))
  }

  /** Those of the replaced that nothing replaced before. */
  ghost function Fresh(ix: Index, replaced: seq<CachedTx>): set<Txid> {
    set r | r in replaced && r.txid !in ix.replacedBy :: r.txid
  }

  /** When a transaction was first seen. */
  ghost predicate SeenAt(tx: CachedTx, now: real, time: real) {
    time == (if tx.firstSeen.Some? && tx.firstSeen.value != 0.0 then tx.firstSeen.value else now)
  }

  /** The node under a new root: the tree that stood there, or a leaf for a transaction without one. */
  ghost predicate IsKid(before: Index, replaced: seq<CachedTx>, now: real, rootTime: real, k: RbfTree) {
    && k.interval == Some(rootTime - k.time)
    && if k.tx.txid in before.rbfTrees then k == before.rbfTrees[k.tx.txid].(interval := k.interval)
       else
         && k.replacing == [] && !k.mined && !k.tx.mined && !k.tx.fullRbf && k.fullRbf == !k.tx.rbf
         && exists r | r in replaced ::
              && r.txid == k.tx.txid && k.tx.fee == r.fee && k.tx.weight == r.weight && SeenAt(r, now, k.time)
              && (k.tx.rbf <==> exists i | 0 <= i < |r.sequences| :: r.sequences[i] < 0xfffffffe)
  }

  ghost predicate AllKids(before: Index, replaced: seq<CachedTx>, now: real, rootTime: real, kids: seq<RbfTree>) {
    forall i | 0 <= i < |kids| :: IsKid(before, replaced, now, rootTime, kids[i])
  }

  /** The tree of the new transaction. */
  ghost predicate IsRoot(before: Index, replaced: seq<CachedTx>, newTx: CachedTx, now: real, t: RbfTree) {
    && t.tx.txid == newTx.txid && t.tx.fee == newTx.fee && t.tx.weight == newTx.weight && SeenAt(newTx, now, t.time)
    && (t.tx.rbf <==> exists i | 0 <= i < |newTx.sequences| :: newTx.sequences[i] < 0xfffffffe)
    && t.interval == None && !t.mined && !t.tx.mined
    && AllKids(before, replaced, now, t.time, t.replacing)
    && (t.fullRbf <==> exists i | 0 <= i < |t.replacing| :: t.replacing[i].fullRbf || !t.replacing[i].tx.rbf)
    && (t.tx.fullRbf <==> exists r | r in replaced :: forall i | 0 <= i < |r.sequences| :: r.sequences[i] >= 0xfffffffe)
  }

  /** The links gain those to and from `id`; its tree replaces those of `taken`. */
  ghost predicate LinksTaken(before: Index, after: Index, taken: set<Txid>, id: Txid) {
    && after.replacedBy.Keys == before.replacedBy.Keys + taken && (forall x | x in taken :: after.replacedBy[x] == id)
    && (forall x | x in before.replacedBy :: after.replacedBy[x] == before.replacedBy[x])
    && id in after.replacing && after.replacing == before.replacing[id := after.replacing[id]]
    && Distinct(after.replacing[id]) && Elems(after.replacing[id]) == taken
    && id in after.rbfTrees && after.rbfTrees - {id} == before.rbfTrees - taken - {id} && ChildIds(after.rbfTrees[id]) == after.replacing[id]
  }

  /** Whatever was in a tree of `taken` is in that of `id` now. */
  ghost predicate MapTaken(before: Index, after: Index, taken: set<Txid>, id: Txid) {
    && after.treeMap.Keys == before.treeMap.Keys + taken + {id}
    && forall x | x in after.treeMap ::
         after.treeMap[x] == if x == id || x in taken || (x in before.treeMap && before.treeMap[x] in taken) then id else before.treeMap[x]
  }

  ghost predicate StoredTaken(before: Index, after: Index, taken: set<Txid>, newTx: CachedTx) {
    && after.txs.Keys == before.txs.Keys + taken + {newTx.txid} && (forall x | x in before.txs :: after.txs[x] == before.txs[x])
    && (newTx.txid !in taken ==> after.txs[newTx.txid] == newTx)
  }

  /** What a replacement does to every index, entry by entry. */
  ghost predicate Replaces(before: Index, after: Index, replaced: seq<CachedTx>, newTx: CachedTx, now: real) {
    var taken := Fresh(before, replaced);
    && LinksTaken(before, after, taken, newTx.txid) && MapTaken(before, after, taken, newTx.txid) && StoredTaken(before, after, taken, newTx)
    && newTx.txid in after.rbfTrees && IsRoot(before, replaced, newTx, now, after.rbfTrees[newTx.txid])
  }

  lemma ReplacesNow(ix: Index, replaced: seq<CachedTx>, newTx: CachedTx, now: real)
    requires Complete(ix) && newTx.txid !in ix.txs
    ensures Replaces(ix, AfterAdd(ix, replaced, newTx, now), replaced, newTx, now)
  {
    hide Forest, Kids, TxsAfter, AnySilent, Ids, Signals, IsRoot, LinksTaken, MapTaken, StoredTaken, Fresh;
    var t := NewTree(ix, replaced, newTx, now);
    var after, taken := AfterAdd(ix, replaced, newTx, now), Fresh(ix, replaced);
    FreshRoots(ix, replaced, NewTime(newTx, now), now);
    RootIsRight(ix, replaced, newTx, now);
    TxsKept(ix, replaced, newTx, NewTime(newTx, now), now);
    LinksNow(ix, after, t, after.txs, taken);
    StoredNow(ix, after, taken, newTx);
    forall x ensures x in Ids(t) <==> x == newTx.txid || x in taken || (x in ix.treeMap && ix.treeMap[x] in taken) {
      InNewTree(ix, replaced, newTx, now, x);
    }
    MapNow(ix, after, t, after.txs, taken);
  }

  lemma LinksNow(ix: Index, after: Index, t: RbfTree, txs: map<Txid, CachedTx>, taken: set<Txid>)
    requires after == Added(ix, t, txs) && Distinct(ChildIds(t)) && Elems<Txid>(ChildIds(t)) == taken && taken !! ix.replacedBy.Keys
    ensures LinksTaken(ix, after, taken, t.tx.txid)
  {
    hide Distinct, Ids;
  }

  lemma StoredNow(ix: Index, after: Index, taken: set<Txid>, newTx: CachedTx)
    requires after.txs.Keys == ix.txs.Keys + taken + {newTx.txid} && (forall x | x in ix.txs :: after.txs[x] == ix.txs[x])
    requires newTx.txid !in taken ==> after.txs[newTx.txid] == newTx
    ensures StoredTaken(ix, after, taken, newTx)
  {
  }

  lemma MapNow(ix: Index, after: Index, t: RbfTree, txs: map<Txid, CachedTx>, taken: set<Txid>)
    requires after == Added(ix, t, txs)
    requires forall x :: x in Ids(t) <==> x == t.tx.txid || x in taken || (x in ix.treeMap && ix.treeMap[x] in taken)
    ensures MapTaken(ix, after, taken, t.tx.txid)
  {
    hide Ids;
  }

  /** The roots of the subtrees taken over are the fresh ones, each once. */
  lemma FreshRoots(ix: Index, replaced: seq<CachedTx>, newTime: real, now: real)
    requires Forest(ix)
    ensures var roots := RootIds(Kids(ix, replaced, newTime, now)); Distinct(roots) && Elems<Txid>(roots) == Fresh(ix, replaced)
    ensures Fresh(ix, replaced) !! ix.replacedBy.Keys
  {
    hide Forest, Kids, Fits;
    KidsRight(ix, replaced, newTime, now);
  }

  lemma {:induction false} KidsAre(ix: Index, replaced: seq<CachedTx>, newTime: real, now: real)
    requires Forest(ix)
    ensures AllKids(ix, replaced, now, newTime, Kids(ix, replaced, newTime, now))
  {
    hide Forest, KidOf, IsKid;
    if replaced != [] {
      var earlier, tx := replaced[..|replaced| - 1], replaced[|replaced| - 1];
      var kids := Kids(ix, earlier, newTime, now);
      KidsAre(ix, earlier, newTime, now);
      forall i | 0 <= i < |kids| ensures IsKid(ix, replaced, now, newTime, kids[i]) {
        KidOfMore(ix, earlier, replaced, now, newTime, kids[i]);
      }
      if tx.txid !in ix.replacedBy {
        KidOfIs(ix, replaced, tx, now, newTime);
      }
    }
  }

  lemma KidOfMore(ix: Index, earlier: seq<CachedTx>, replaced: seq<CachedTx>, now: real, newTime: real, k: RbfTree)
    requires IsKid(ix, earlier, now, newTime, k) && forall r | r in earlier :: r in replaced
    ensures IsKid(ix, replaced, now, newTime, k)
  {
  }

  lemma KidOfIs(ix: Index, replaced: seq<CachedTx>, tx: CachedTx, now: real, newTime: real)
    requires Forest(ix) && tx in replaced && tx.txid !in ix.replacedBy
    ensures IsKid(ix, replaced, now, newTime, KidOf(ix, tx, newTime, now))
  {
    hide Forest;
    SignalsMean(tx);
    if tx.txid in ix.rbfTrees {
      TreeAt(ix, tx.txid);
    }
  }

  lemma RootIsRight(ix: Index, replaced: seq<CachedTx>, newTx: CachedTx, now: real)
    requires Forest(ix)
    ensures IsRoot(ix, replaced, newTx, now, NewTree(ix, replaced, newTx, now))
  {
    hide Forest, Kids, IsKid, Signals;
    KidsAre(ix, replaced, NewTime(newTx, now), now);
    SignalsMean(newTx);
    forall r | r in replaced ensures !Signals(r) <==> forall i | 0 <= i < |r.sequences| :: r.sequences[i] >= 0xfffffffe {
      SignalsMean(r);
    }
  }

  lemma SignalsMean(tx: CachedTx)
    ensures Signals(tx) <==> exists i | 0 <= i < |tx.sequences| :: tx.sequences[i] < 0xfffffffe
    ensures !Signals(tx) <==> forall i | 0 <= i < |tx.sequences| :: tx.sequences[i] >= 0xfffffffe
  {
  }

  lemma FreshMore(ix: Index, replaced: seq<CachedTx>)
    requires replaced != []
    ensures var earlier, tx := replaced[..|replaced| - 1], replaced[|replaced| - 1];
            Fresh(ix, replaced) == if tx.txid in ix.replacedBy then Fresh(ix, earlier) else Fresh(ix, earlier) + {tx.txid}
  {
    var earlier, tx := replaced[..|replaced| - 1], replaced[|replaced| - 1];
    assert replaced == earlier + [tx];
  }

  /** One more replaced transaction is stored if it is neither replaced before, nor fresh before, nor in a tree. */
  lemma StoredStep(ix: Index, replaced: seq<CachedTx>, base: map<Txid, CachedTx>, newTime: real, now: real)
    requires replaced != [] && Forest(ix)
    ensures var earlier, tx := replaced[..|replaced| - 1], replaced[|replaced| - 1];
            var txs := TxsAfter(ix, earlier, base, newTime, now);
            TxsAfter(ix, replaced, base, newTime, now) ==
            if tx.txid in ix.replacedBy || tx.txid in Fresh(ix, earlier) || tx.txid in ix.treeMap then txs else txs[tx.txid := tx]
  {
    hide Forest, KidOf, Kids, RootIds, Fresh;
    var earlier := replaced[..|replaced| - 1];
    FreshRoots(ix, earlier, newTime, now);
  }

  /** What is stored stays; the new transaction and the fresh ones come to it. */
  lemma {:induction false} TxsKept(ix: Index, replaced: seq<CachedTx>, newTx: CachedTx, newTime: real, now: real)
    requires Complete(ix) && newTx.txid !in ix.txs
    ensures var after := TxsAfter(ix, replaced, ix.txs[newTx.txid := newTx], newTime, now);
            && after.Keys == ix.txs.Keys + Fresh(ix, replaced) + {newTx.txid} && (forall x | x in ix.txs :: after[x] == ix.txs[x])
            && (newTx.txid !in Fresh(ix, replaced) ==> after[newTx.txid] == newTx)
  {
    hide Forest, Fresh, TxsAfter;
    if replaced == [] {
      NoneStored(ix, newTx, newTime, now);
    } else {
      TxsKept(ix, replaced[..|replaced| - 1], newTx, newTime, now);
      FreshMore(ix, replaced);
      StoredStep(ix, replaced, ix.txs[newTx.txid := newTx], newTime, now);
    }
  }

  lemma NoneStored(ix: Index, newTx: CachedTx, newTime: real, now: real)
    ensures Fresh(ix, []) == {} && TxsAfter(ix, [], ix.txs[newTx.txid := newTx], newTime, now) == ix.txs[newTx.txid := newTx]
  {
  }

  /** Whom the new tree holds. */
  lemma InNewTree(ix: Index, replaced: seq<CachedTx>, newTx: CachedTx, now: real, x: Txid)
    requires Complete(ix)
    ensures x in Ids(NewTree(ix, replaced, newTx, now)) <==>
            x == newTx.txid || x in Fresh(ix, replaced) || (x in ix.treeMap && ix.treeMap[x] in Fresh(ix, replaced))
  {
    hide Forest, Kids, AnySilent, Fits, Signals;
    var t := NewTree(ix, replaced, newTx, now);
    var kids := Kids(ix, replaced, NewTime(newTx, now), now);
    FreshRoots(ix, replaced, NewTime(newTx, now), now);
    KidsRight(ix, replaced, NewTime(newTx, now), now);
    forall i | 0 <= i < |kids| ensures x in Ids(kids[i]) <==> x == kids[i].tx.txid || (x in ix.treeMap && ix.treeMap[x] == kids[i].tx.txid) {
      InKid(ix, kids[i], x);
    }
    if x in Fresh(ix, replaced) || (x in ix.treeMap && ix.treeMap[x] in Fresh(ix, replaced)) {
      var id := if x in Fresh(ix, replaced) then x else ix.treeMap[x];
      assert id in Elems<Txid>(RootIds(kids));
      var i :| 0 <= i < |kids| && RootIds(kids)[i] == id;
      assert x in Ids(kids[i]);
    }
    if x in BelowIds(t) {
      var i :| 0 <= i < |kids| && x in Ids(kids[i]);
      assert RootIds(kids)[i] in Elems<Txid>(RootIds(kids));
    }
  }

  lemma InKid(ix: Index, kid: RbfTree, x: Txid)
    requires Forest(ix) && Fits(ix, kid)
    ensures x in Ids(kid) <==> x == kid.tx.txid || (x in ix.treeMap && ix.treeMap[x] == kid.tx.txid)
  {
    hide AllLinked, Covered, AllStored, AllFlagged, Proper;
    var id := kid.tx.txid;
    if id in ix.rbfTrees {
      SameIdsBut(kid, ix.rbfTrees[id]);
    } else {
      LeafIds(kid);
    }
  }

  lemma SameIdsBut(a: RbfTree, b: RbfTree)
    requires a == b.(interval := a.interval)
    ensures Ids(a) == Ids(b)
  {
  }

  lemma LeafIds(t: RbfTree)
    requires t.replacing == []
    ensures Ids(t) == {t.tx.txid}
  {
  }

  ghost predicate Complete(ix: Index) {
    Forest(ix) && ix.txs.Keys == ix.treeMap.Keys
  }

  predicate Names(replaced: seq<CachedTx>, x: Txid) {
    exists r | r in replaced :: r.txid == x
  }

  lemma NamesMore(replaced: seq<CachedTx>, x: Txid)
    requires replaced != []
    ensures Names(replaced, x) <==> Names(replaced[..|replaced| - 1], x) || replaced[|replaced| - 1].txid == x
  {
    assert replaced == replaced[..|replaced| - 1] + [replaced[|replaced| - 1]];
  }

  lemma KidOfFits(ix: Index, tx: CachedTx, newTime: real, now: real)
    requires Forest(ix) && tx.txid !in ix.replacedBy
    ensures KidOf(ix, tx, newTime, now).tx.txid == tx.txid && Fits(ix, KidOf(ix, tx, newTime, now))
  {
    if tx.txid in ix.rbfTrees {
      TreeAt(ix, tx.txid);
    } else if tx.txid in ix.treeMap {
      RootOf(ix, tx.txid);
    }
  }

  lemma {:induction false} KidsRight(ix: Index, replaced: seq<CachedTx>, newTime: real, now: real)
    requires Forest(ix)
    ensures KidsFit(ix, Kids(ix, replaced, newTime, now))
    ensures forall x :: x in RootIds(Kids(ix, replaced, newTime, now)) <==> Names(replaced, x) && x !in ix.replacedBy
  {
    hide Forest;
    if replaced != [] {
      var earlier := replaced[..|replaced| - 1];
      var tx := replaced[|replaced| - 1];
      KidsRight(ix, earlier, newTime, now);
      var kids := Kids(ix, earlier, newTime, now);
      if tx.txid !in ix.replacedBy {
        KidOfFits(ix, tx, newTime, now);
      }
      hide Fits;
      forall i | 0 <= i < |kids| ensures kids[i].tx.txid in RootIds(kids) {
        InRootIds(kids, i);
      }
      RootIdsMore(kids, KidOf(ix, tx, newTime, now));
      forall x ensures Names(replaced, x) <==> Names(earlier, x) || tx.txid == x {
        NamesMore(replaced, x);
      }
      hide Names, KidOf;
    }
  }

  lemma RootIdsMore(kids: seq<RbfTree>, k: RbfTree)
    ensures RootIds(kids + [k]) == RootIds(kids) + [k.tx.txid]
  {
  }

  /** Stored after a replacement: what was stored before, and the new leaves. */
  ghost predicate Keeps(ix: Index, base: map<Txid, CachedTx>, txs: map<Txid, CachedTx>, kids: seq<RbfTree>) {
    && txs.Keys == base.Keys + Elems<Txid>(RootIds(kids))
    && (forall x | x in base :: x in txs && txs[x] == base[x])
    && (forall i | 0 <= i < |kids| && kids[i].tx.txid !in ix.rbfTrees :: Shows(kids[i].tx, txs))
  }

  lemma {:induction false} TxsRight(ix: Index, replaced: seq<CachedTx>, newTx: CachedTx, newTime: real, now: real)
    requires Complete(ix) && newTx.txid !in ix.txs && !Names(replaced, newTx.txid)
    ensures var base := ix.txs[newTx.txid := newTx];
            Keeps(ix, base, TxsAfter(ix, replaced, base, newTime, now), Kids(ix, replaced, newTime, now))
  {
    hide Forest, Keeps, KidOf;
    var base := ix.txs[newTx.txid := newTx];
    if replaced == [] {
      KeepsNone(ix, base);
    } else {
      var earlier := replaced[..|replaced| - 1];
      var tx := replaced[|replaced| - 1];
      NamesMore(replaced, newTx.txid);
      TxsRight(ix, earlier, newTx, newTime, now);
      var kids := Kids(ix, earlier, newTime, now);
      if tx.txid !in ix.replacedBy && tx.txid !in RootIds(kids) {
        KidOfFits(ix, tx, newTime, now);
        KeepsMore(ix, base, TxsAfter(ix, earlier, base, newTime, now), kids, tx, newTime, now);
      }
    }
  }

  lemma KeepsNone(ix: Index, base: map<Txid, CachedTx>)
    ensures Keeps(ix, base, base, [])
  {
  }

  lemma KeepsMore(ix: Index, base: map<Txid, CachedTx>, txs: map<Txid, CachedTx>, kids: seq<RbfTree>, tx: CachedTx, newTime: real, now: real)
    requires Complete(ix) && Keeps(ix, base, txs, kids) && ix.txs.Keys <= base.Keys
    requires tx.txid !in RootIds(kids) && tx.txid !in ix.replacedBy && (tx.txid in base ==> tx.txid in ix.txs)
    ensures Keeps(ix, base, if tx.txid in ix.treeMap then txs else txs[tx.txid := tx], kids + [KidOf(ix, tx, newTime, now)])
  {
    var k := KidOf(ix, tx, newTime, now);
    KidOfFits(ix, tx, newTime, now);
    if tx.txid in ix.treeMap {
      hide Forest, KidOf, Keeps;
      InTreeRoot(ix, tx.txid);
      KeepsTree(ix, base, txs, kids, k);
    } else {
      LeafUnlisted(ix, tx.txid);
      hide Forest, Keeps;
      KeepsLeaf(ix, base, txs, kids, k, tx);
    }
  }

  lemma KeepsTree(ix: Index, base: map<Txid, CachedTx>, txs: map<Txid, CachedTx>, kids: seq<RbfTree>, k: RbfTree)
    requires Keeps(ix, base, txs, kids) && k.tx.txid in ix.rbfTrees && k.tx.txid in base
    ensures Keeps(ix, base, txs, kids + [k])
  {
    hide Shows;
    RootIdsMore(kids, k);
    assert Elems<Txid>(RootIds(kids) + [k.tx.txid]) == Elems<Txid>(RootIds(kids)) + {k.tx.txid};
  }

  lemma KeepsLeaf(ix: Index, base: map<Txid, CachedTx>, txs: map<Txid, CachedTx>, kids: seq<RbfTree>, k: RbfTree, tx: CachedTx)
    requires Keeps(ix, base, txs, kids) && k.tx == Strip(tx) && tx.txid !in base && tx.txid !in RootIds(kids)
    ensures Keeps(ix, base, txs[tx.txid := tx], kids + [k])
  {
    var all := kids + [k];
    var txs' := txs[tx.txid := tx];
    RootIdsMore(kids, k);
    assert Elems<Txid>(RootIds(kids) + [k.tx.txid]) == Elems<Txid>(RootIds(kids)) + {k.tx.txid};
    hide Strip;
    forall i | 0 <= i < |all| && all[i].tx.txid !in ix.rbfTrees ensures Shows(all[i].tx, txs') {
      if i < |kids| {
        InRootIds(kids, i);
        assert Shows(kids[i].tx, txs);
      } else {
        ShowsStored(tx, txs');
      }
    }
  }

  lemma ShowsStored(tx: CachedTx, txs: map<Txid, CachedTx>)
    requires tx.txid in txs && txs[tx.txid] == tx
    ensures Shows(Strip(tx), txs)
  {
  }

  lemma InTreeRoot(ix: Index, x: Txid)
    requires Forest(ix) && x in ix.treeMap && x !in ix.replacedBy
    ensures x in ix.rbfTrees
  {
    RootOf(ix, x);
  }

  lemma {:induction false} TxsGrow(ix: Index, replaced: seq<CachedTx>, base: map<Txid, CachedTx>, newTime: real, now: real)
    ensures base.Keys <= TxsAfter(ix, replaced, base, newTime, now).Keys
  {
    if replaced != [] {
      TxsGrow(ix, replaced[..|replaced| - 1], base, newTime, now);
    }
  }

  lemma IsNewTree(ix: Index, replaced: seq<CachedTx>, newTx: CachedTx, now: real, t: RbfTree)
    requires t.replacing == Kids(ix, replaced, NewTime(newTx, now), now) && t.time == NewTime(newTx, now) && t.interval == None && !t.mined
    requires (t.fullRbf <==> AnySilent(t.replacing)) && t.tx == Strip(newTx).(fullRbf := t.tx.fullRbf)
    requires t.tx.fullRbf <==> exists r | r in replaced :: !Signals(r)
    ensures t == NewTree(ix, replaced, newTx, now) && t.tx.txid == newTx.txid
  {
    hide Kids, AnySilent, Signals;
  }

  /** The indexes after every step of a replacement. */
  lemma IsAfterAdd(ix: Index, replaced: seq<CachedTx>, newTx: CachedTx, now: real, t: RbfTree, after: Index)
    requires t.replacing == Kids(ix, replaced, NewTime(newTx, now), now) && t.time == NewTime(newTx, now) && t.interval == None && !t.mined
    requires (t.fullRbf <==> AnySilent(t.replacing)) && t.tx == Strip(newTx).(fullRbf := t.tx.fullRbf)
    requires t.tx.fullRbf <==> exists r | r in replaced :: !Signals(r)
    requires after.replacedBy == ix.replacedBy + Links(Elems<Txid>(RootIds(t.replacing)), newTx.txid)
    requires after.replacing == ix.replacing[newTx.txid := RootIds(t.replacing)]
    requires after.rbfTrees == (ix.rbfTrees - Elems<Txid>(RootIds(t.replacing)))[newTx.txid := t]
    requires after.treeMap == ix.treeMap + Links(Ids(t), newTx.txid)
    requires after.txs == TxsAfter(ix, replaced, ix.txs[newTx.txid := newTx], NewTime(newTx, now), now)
    ensures after == AfterAdd(ix, replaced, newTx, now) && ix.txs.Keys <= after.txs.Keys
  {
    hide Kids, TxsAfter, Links, Elems, RootIds, Ids, AnySilent, Signals, AfterAdd, NewTree, Strip;
    IsNewTree(ix, replaced, newTx, now, t);
    AfterAddIs(ix, replaced, newTx, now, t, after.txs);
    TxsGrow(ix, replaced, ix.txs[newTx.txid := newTx], NewTime(newTx, now), now);
  }

  lemma AfterAddIs(ix: Index, replaced: seq<CachedTx>, newTx: CachedTx, now: real, t: RbfTree, txs: map<Txid, CachedTx>)
    requires t == NewTree(ix, replaced, newTx, now)
    requires txs == TxsAfter(ix, replaced, ix.txs[newTx.txid := newTx], NewTime(newTx, now), now)
    ensures AfterAdd(ix, replaced, newTx, now)
         == Index(ix.replacedBy + Links(Elems<Txid>(ChildIds(t)), newTx.txid), ix.replacing[newTx.txid := ChildIds(t)],
                  (ix.rbfTrees - Elems<Txid>(ChildIds(t)))[newTx.txid := t], ix.treeMap + Links(Ids(t), newTx.txid), txs)
  {
    hide Kids, TxsAfter, Links, Elems, RootIds, Ids, AnySilent, Signals;
  }

  /** A replacement leaves a complete forest exactly if the new transaction is not among the replaced. */
  lemma AddIsSafe(ix: Index, replaced: seq<CachedTx>, newTx: CachedTx, now: real)
    requires Complete(ix) && !Ignored(ix, replaced, newTx)
    ensures Complete(AfterAdd(ix, replaced, newTx, now)) <==> !Names(replaced, newTx.txid)
  {
    hide Forest, NewTree, TxsAfter, Added, Names;
    if Names(replaced, newTx.txid) {
      NewTreeListsItself(ix, replaced, newTx, now);
      SelfReplaced(ix, NewTree(ix, replaced, newTx, now), TxsAfter(ix, replaced, ix.txs[newTx.txid := newTx], NewTime(newTx, now), now));
    } else {
      AddKeeps(ix, replaced, newTx, now);
    }
  }

  /** A transaction that is said to replace itself spoils an empty cache. */
  lemma SelfReplacementSpoils(tx: CachedTx, now: real)
    ensures var ix := Index(map[], map[], map[], map[], map[]);
            Complete(ix) && !Ignored(ix, [tx], tx) && !Complete(AfterAdd(ix, [tx], tx, now))
  {
    var ix := Index(map[], map[], map[], map[], map[]);
    assert [tx][0] == tx;
    assert Names([tx], tx.txid);
    AddIsSafe(ix, [tx], tx, now);
  }

  lemma NewTreeListsItself(ix: Index, replaced: seq<CachedTx>, newTx: CachedTx, now: real)
    requires Complete(ix) && newTx.txid !in ix.txs && Names(replaced, newTx.txid)
    ensures newTx.txid in ChildIds(NewTree(ix, replaced, newTx, now)) && NewTree(ix, replaced, newTx, now).tx.txid == newTx.txid
  {
    LeafUnlisted(ix, newTx.txid);
    KidsRight(ix, replaced, NewTime(newTx, now), now);
    hide Forest, Names, KidsFit, Kids;
  }

  lemma NewTreeFits(ix: Index, replaced: seq<CachedTx>, newTx: CachedTx, now: real)
    requires Complete(ix) && newTx.txid !in ix.txs && !Names(replaced, newTx.txid)
    ensures var t := NewTree(ix, replaced, newTx, now);
            && CanAdd(ix, t) && t.tx.txid == newTx.txid && t.replacing == Kids(ix, replaced, NewTime(newTx, now), now)
            && t.tx == Strip(newTx).(fullRbf := t.tx.fullRbf)
            && (t.fullRbf <==> AnySilent(t.replacing))
  {
    KidsRight(ix, replaced, NewTime(newTx, now), now);
    hide Forest, Names, KidsFit, Kids;
  }

  lemma AddKeeps(ix: Index, replaced: seq<CachedTx>, newTx: CachedTx, now: real)
    requires Complete(ix) && !Ignored(ix, replaced, newTx) && !Names(replaced, newTx.txid)
    ensures Complete(AfterAdd(ix, replaced, newTx, now))
  {
    hide Forest, NewTree, TxsAfter, CanAdd, Shows, Kids, Keeps, Added, AnySilent, Signals;
    var t := NewTree(ix, replaced, newTx, now);
    NewTreeFits(ix, replaced, newTx, now);
    TxsRight(ix, replaced, newTx, NewTime(newTx, now), now);
    SomeKid(ix, replaced, newTx, now);
    AddedComplete(ix, t, newTx, TxsAfter(ix, replaced, ix.txs[newTx.txid := newTx], NewTime(newTx, now), now));
  }

  lemma AddedComplete(ix: Index, t: RbfTree, newTx: CachedTx, txs: map<Txid, CachedTx>)
    requires Complete(ix) && CanAdd(ix, t) && t.tx == Strip(newTx).(fullRbf := t.tx.fullRbf) && t.replacing != []
    requires newTx.txid !in ix.txs && Keeps(ix, ix.txs[newTx.txid := newTx], txs, t.replacing)
    requires t.fullRbf <==> AnySilent(t.replacing)
    ensures Complete(Added(ix, t, txs))
  {
    hide Forest, CanAdd, Shows;
    ShowsNew(newTx, t.tx.fullRbf, txs);
    assert forall x | x in ix.txs :: x in txs && txs[x] == ix.txs[x];
    AddedForest(ix, t, txs);
    AddedKeys(ix, t);
  }

  lemma ShowsNew(tx: CachedTx, fullRbf: bool, txs: map<Txid, CachedTx>)
    requires tx.txid in txs && txs[tx.txid] == tx
    ensures Shows(Strip(tx).(fullRbf := fullRbf), txs)
  {
  }

  lemma SomeKid(ix: Index, replaced: seq<CachedTx>, newTx: CachedTx, now: real)
    requires Complete(ix) && !Ignored(ix, replaced, newTx)
    ensures NewTree(ix, replaced, newTx, now).replacing != []
  {
    KidsRight(ix, replaced, NewTime(newTx, now), now);
    var r :| r in replaced && r.txid !in ix.replacedBy;
    assert Names(replaced, r.txid);
  }

  lemma AddedKeys(ix: Index, t: RbfTree)
    requires CanAdd(ix, t)
    ensures ix.treeMap.Keys + Ids(t) == ix.treeMap.Keys + {t.tx.txid} + Elems<Txid>(ChildIds(t))
  {
    hide Forest;
    forall x | x in Ids(t) ensures x in ix.treeMap.Keys + {t.tx.txid} + Elems<Txid>(ChildIds(t)) {
      if x != t.tx.txid {
        assert x in BelowIds(t);
        var i :| 0 <= i < |t.replacing| && x in Ids(t.replacing[i]);
        KidIds(ix, t, i);
        InRootIds(t.replacing, i);
      }
    }
    forall x | x in Elems<Txid>(ChildIds(t)) ensures x in Ids(t) {
      var i :| 0 <= i < |t.replacing| && ChildIds(t)[i] == x;
      assert x in Ids(t.replacing[i]);
    }
  }

  lemma SelfReplaced(ix: Index, t: RbfTree, txs: map<Txid, CachedTx>)
    requires t.tx.txid in ChildIds(t)
    ensures !Forest(Added(ix, t, txs))
  {
    var ix' := Added(ix, t, txs);
    assert ix'.replacedBy[t.tx.txid] == t.tx.txid;
    if Forest(ix') {
      RootOf(ix', t.tx.txid);
    }
  }

  // ---------- removing a tree

  /** The indexes without the transactions `ids` and the tree `id`. */
  function Without(ix: Index, id: Txid, ids: set<Txid>): Index {
    Index(ix.replacedBy - ids, ix.replacing - ids, ix.rbfTrees - {id}, ix.treeMap - ids, ix.txs - ids)
  }

  /** Removing a whole tree keeps the forest. */
  lemma RemovedComplete(ix: Index, id: Txid)
    requires Complete(ix) && id in ix.rbfTrees
    ensures Complete(Without(ix, id, Ids(ix.rbfTrees[id])))
  {
    hide Ids, Proper, Linked, Stored, Flagged, Forest;
    var gone := Ids(ix.rbfTrees[id]);
    var ix' := Without(ix, id, gone);
    ForestParts(ix);
    forall i | i in ix'.rbfTrees ensures Linked(ix.rbfTrees[i], ix'.replacedBy, ix'.replacing) && Stored(ix.rbfTrees[i], ix'.txs) {
      RemovedLeaves(ix, id, i);
    }
    forall x | x in ix'.treeMap ensures ix.treeMap[x] != id {
      TreeOf(ix, x);
    }
    forall i, x | i in ix'.rbfTrees && x in Ids(ix.rbfTrees[i]) ensures x !in gone {
      if x in gone {
        InTree(ix, id, x);
        InTree(ix, i, x);
      }
    }
    FromParts(ix');
  }

  lemma ForestParts(ix: Index)
    requires Forest(ix)
    ensures Rooted(ix) && Mapped(ix) && AllLinked(ix) && Covered(ix) && AllStored(ix) && AllFlagged(ix)
  {
  }

  lemma FromParts(ix: Index)
    requires Rooted(ix) && Mapped(ix) && AllLinked(ix) && Covered(ix) && AllStored(ix) && AllFlagged(ix)
    ensures Forest(ix)
  {
  }

  lemma RemovedLeaves(ix: Index, id: Txid, i: Txid)
    requires Forest(ix) && id in ix.rbfTrees && i in ix.rbfTrees && i != id
    ensures var ix' := Without(ix, id, Ids(ix.rbfTrees[id]));
            Linked(ix.rbfTrees[i], ix'.replacedBy, ix'.replacing) && Stored(ix.rbfTrees[i], ix'.txs)
  {
    hide Ids, BelowIds, Proper, Linked, Stored, Flagged, Forest;
    var t := ix.rbfTrees[i];
    var ix' := Without(ix, id, Ids(ix.rbfTrees[id]));
    TreeAt(ix, i);
    forall x | x in Ids(t) ensures x !in Ids(ix.rbfTrees[id]) {
      InTree(ix, i, x);
      if x in Ids(ix.rbfTrees[id]) {
        InTree(ix, id, x);
      }
    }
    BelowInIds(t);
    LinkedFrame(t, ix.replacedBy, ix.replacing, ix'.replacedBy, ix'.replacing);
    StoredFrame(t, ix.txs, ix'.txs);
  }

  lemma BelowInIds(t: RbfTree)
    ensures BelowIds(t) <= Ids(t)
  {
  }

  /** The transactions of the first `i` subtrees and of the root. */
  ghost function UpTo(t: RbfTree, i: nat): set<Txid>
    requires i <= |t.replacing|
  {
    {t.tx.txid} + set j, x | 0 <= j < i && x in Ids(t.replacing[j]) :: x
  }

  lemma UpToNext(t: RbfTree, i: nat)
    requires i < |t.replacing|
    ensures UpTo(t, i + 1) == UpTo(t, i) + Ids(t.replacing[i])
  {
  }

  lemma UpToAll(t: RbfTree)
    ensures UpTo(t, |t.replacing|) == Ids(t)
  {
    forall x | x in BelowIds(t) ensures x in UpTo(t, |t.replacing|) {
      var i :| 0 <= i < |t.replacing| && x in Ids(t.replacing[i]);
    }
    forall x | x in UpTo(t, |t.replacing|) && x != t.tx.txid ensures x in BelowIds(t) {
      var i :| 0 <= i < |t.replacing| && x in Ids(t.replacing[i]);
    }
  }

  lemma UpToNone(t: RbfTree)
    ensures UpTo(t, 0) == {t.tx.txid}
  {
  }

  lemma Minus<K, V>(m: map<K, V>, a: set<K>, b: set<K>, k: K)
    ensures m - a - b == m - (a + b)
    ensures k in b ==> m - a - {k} - b == m - (a + b)
    ensures k !in m ==> m - {k} == m
  {
  }

  lemma LinksMore(a: set<Txid>, b: set<Txid>, id: Txid)
    ensures Links(a, id) + Links(b, id) == Links(a + b, id)
  {
  }

  lemma ListedKids(t: RbfTree, rb: map<Txid, Txid>, rp: map<Txid, seq<Txid>>)
    requires Linked(t, rb, rp)
    ensures ChildIds(t) == (if t.tx.txid in rp then rp[t.tx.txid] else [])
  {
  }

  lemma UpToApart(t: RbfTree, i: nat)
    requires Proper(t) && i < |t.replacing|
    ensures UpTo(t, i) !! Ids(t.replacing[i]) && Ids(t.replacing[i]) <= BelowIds(t)
    ensures Proper(t.replacing[i]) && t.replacing[i].tx.txid in Ids(t.replacing[i])
  {
  }

  /** The subtree of a node is still described after its earlier siblings went. */
  lemma NextSubtree(t: RbfTree, i: nat, rb: map<Txid, Txid>, rp: map<Txid, seq<Txid>>)
    requires Proper(t) && Linked(t, rb, rp) && i < |t.replacing|
    ensures Linked(t.replacing[i], rb - UpTo(t, i) - {t.replacing[i].tx.txid}, rp - UpTo(t, i))
  {
    hide Ids, Proper;
    UpToApart(t, i);
    var c := t.replacing[i];
    BelowInIds(c);
    RootNotBelow(c);
    hide UpTo, BelowIds;
    var rb' := rb - UpTo(t, i) - {c.tx.txid};
    var rp' := rp - UpTo(t, i);
    LinkedFrame(c, rb, rp, rb', rp');
  }

  lemma RootNotBelow(t: RbfTree)
    requires Proper(t)
    ensures t.tx.txid !in BelowIds(t)
  {
  }

  lemma NoKids(ix: Index, newTime: real, now: real, base: map<Txid, CachedTx>, newId: Txid)
    ensures Kids(ix, [], newTime, now) == [] && TxsAfter(ix, [], base, newTime, now) == base
    ensures Taken(ix, [], newId, ix.replacedBy, ix.rbfTrees) && !AnySilent([])
  {
  }

  /** The links made and trees taken for the subtrees `kids`. */
  ghost predicate Taken(ix: Index, kids: seq<RbfTree>, newId: Txid, rb: map<Txid, Txid>, trees: map<Txid, RbfTree>) {
    rb == ix.replacedBy + Links(Elems<Txid>(RootIds(kids)), newId) && trees == ix.rbfTrees - Elems<Txid>(RootIds(kids))
  }

  lemma TakenAll(ix: Index, kids: seq<RbfTree>, newId: Txid, rb: map<Txid, Txid>, trees: map<Txid, RbfTree>)
    requires Taken(ix, kids, newId, rb, trees)
    ensures rb == ix.replacedBy + Links(Elems<Txid>(RootIds(kids)), newId) && trees == ix.rbfTrees - Elems<Txid>(RootIds(kids))
  {
  }

  lemma TakenHas(ix: Index, kids: seq<RbfTree>, newId: Txid, rb: map<Txid, Txid>, trees: map<Txid, RbfTree>, x: Txid)
    requires Taken(ix, kids, newId, rb, trees)
    ensures x in rb <==> x in ix.replacedBy || x in RootIds(kids)
  {
  }

  lemma TakenWhere(ix: Index, kids: seq<RbfTree>, newId: Txid, rb: map<Txid, Txid>, trees: map<Txid, RbfTree>, tx: CachedTx, newTime: real, now: real)
    requires Forest(ix) && Taken(ix, kids, newId, rb, trees) && tx.txid !in rb
    ensures tx.txid in ix.treeMap ==>
              && ix.treeMap[tx.txid] == tx.txid && tx.txid in trees
              && KidOf(ix, tx, newTime, now) == trees[tx.txid].(interval := Some(newTime - trees[tx.txid].time))
    ensures tx.txid !in ix.treeMap ==>
              && trees - {tx.txid} == trees
              && var time := NewTime(tx, now);
                 KidOf(ix, tx, newTime, now) == RbfTree(Strip(tx), time, Some(newTime - time), false, !Signals(tx), [])
  {
    hide Forest, Taken, Signals, Strip;
    TakenHas(ix, kids, newId, rb, trees, tx.txid);
    TakenTrees(ix, kids, newId, rb, trees, tx.txid);
    if tx.txid in ix.treeMap {
      InTreeRoot(ix, tx.txid);
      RootOf(ix, tx.txid);
    } else {
      LeafUnlisted(ix, tx.txid);
    }
  }

  lemma TakenTrees(ix: Index, kids: seq<RbfTree>, newId: Txid, rb: map<Txid, Txid>, trees: map<Txid, RbfTree>, x: Txid)
    requires Taken(ix, kids, newId, rb, trees) && x !in rb
    ensures x in trees <==> x in ix.rbfTrees
    ensures x in trees ==> trees[x] == ix.rbfTrees[x]
  {
    TakenHas(ix, kids, newId, rb, trees, x);
  }

  lemma TakenMore(ix: Index, kids: seq<RbfTree>, newId: Txid, rb: map<Txid, Txid>, trees: map<Txid, RbfTree>, tx: CachedTx, k: RbfTree)
    requires Taken(ix, kids, newId, rb, trees) && k.tx.txid == tx.txid
    ensures Taken(ix, kids + [k], newId, rb[tx.txid := newId], trees - {tx.txid})
  {
    RootIdsMore(kids, k);
    ElemsMore(RootIds(kids), tx.txid);
    hide RootIds, Elems;
    LinksMore(Elems<Txid>(RootIds(kids)), {tx.txid}, newId);
  }

  lemma ElemsMore(s: seq<Txid>, x: Txid)
    ensures Elems<Txid>(s + [x]) == Elems<Txid>(s) + {x}
  {
  }

  lemma SilentMore(kids: seq<RbfTree>, k: RbfTree)
    ensures AnySilent(kids + [k]) <==> AnySilent(kids) || k.fullRbf || !k.tx.rbf
  {
    var all := kids + [k];
    assert all[|kids|] == k;
    assert forall i | 0 <= i < |kids| :: all[i] == kids[i];
  }

  lemma KidsStep(ix: Index, earlier: seq<CachedTx>, tx: CachedTx, newTime: real, now: real, base: map<Txid, CachedTx>)
    ensures var kids := Kids(ix, earlier, newTime, now);
            var txs := TxsAfter(ix, earlier, base, newTime, now);
            if tx.txid in ix.replacedBy || tx.txid in RootIds(kids) then
              Kids(ix, earlier + [tx], newTime, now) == kids && TxsAfter(ix, earlier + [tx], base, newTime, now) == txs
            else
              && Kids(ix, earlier + [tx], newTime, now) == kids + [KidOf(ix, tx, newTime, now)]
              && TxsAfter(ix, earlier + [tx], base, newTime, now) == (if tx.txid in ix.treeMap then txs else txs[tx.txid := tx])
  {
    hide KidOf;
    var all := earlier + [tx];
    assert all[..|all| - 1] == earlier;
  }

  // ---------- the cache

  class RbfCache {
    var replacedBy: map<Txid, Txid>
    var replacing: map<Txid, seq<Txid>>
    var rbfTrees: map<Txid, RbfTree>
    var treeMap: map<Txid, Txid>
    var txs: map<Txid, CachedTx>
    /** When to drop transactions that left the mempool, in milliseconds. */
    var expiring: map<Txid, int>

    ghost function Indexes(): Index
      reads this
    {
      Index(replacedBy, replacing, rbfTrees, treeMap, txs)
    }

    ghost predicate Valid()
      reads this
    {
      Complete(Indexes()) && expiring.Keys <= txs.Keys
    }

    constructor ()
      ensures Valid() && Indexes() == Index(map[], map[], map[], map[], map[]) && expiring == map[]
    {
      replacedBy, replacing, rbfTrees, treeMap, txs, expiring := map[], map[], map[], map[], map[], map[];
    }

    /** Records that `newTx` replaced others. The indexes stay one forest exactly if it is not among
        them, or if the call is passed over. */
    method Add(replaced: seq<CachedTx>, newTx: CachedTx, now: real)
      requires Valid()
      modifies this`replacedBy, this`replacing, this`rbfTrees, this`treeMap, this`txs
      ensures Ignored(old(Indexes()), replaced, newTx) ==> Indexes() == old(Indexes())
      ensures !Ignored(old(Indexes()), replaced, newTx) ==> Indexes() == AfterAdd(old(Indexes()), replaced, newTx, now)
      ensures Valid() <==> Ignored(old(Indexes()), replaced, newTx) || !Names(replaced, newTx.txid)
      ensures if newTx.txid !in old(txs) && exists r | r in replaced :: r.txid !in old(replacedBy)
              then Replaces(old(Indexes()), Indexes(), replaced, newTx, now)
              else Indexes() == old(Indexes())
    {
      hide Complete, AfterAdd, Names, Replaces;
      if |replaced| == 0 || newTx.txid in txs || forall r | r in replaced :: r.txid in replacedBy {
        return;
      }
      AddIsSafe(Indexes(), replaced, newTx, now);
      ReplacesNow(Indexes(), replaced, newTx, now);
      AddTree(replaced, newTx, now);
    }

    /** Puts the replaced trees under a new root. */
    method AddTree(replaced: seq<CachedTx>, newTx: CachedTx, now: real)
      requires Valid() && !Ignored(Indexes(), replaced, newTx)
      modifies this`replacedBy, this`replacing, this`rbfTrees, this`treeMap, this`txs
      ensures Indexes() == AfterAdd(old(Indexes()), replaced, newTx, now) && old(txs.Keys) <= txs.Keys
    {
      hide Complete, Forest, Kids, Signals, KidOf, TxsAfter, AnySilent, Ids, Links, Elems, RootIds, Names, NewTree, AfterAdd, Ignored;
      ghost var ix := Indexes();
      var newTime := if newTx.firstSeen.Some? && newTx.firstSeen.value != 0.0 then newTx.firstSeen.value else now;
      txs := txs[newTx.txid := newTx];
      var replacedTrees, txFullRbf, treeFullRbf := TakeReplaced(ix, replaced, newTx, newTime, now);
      var newTree := RbfTree(Strip(newTx).(fullRbf := txFullRbf), newTime, None, false, treeFullRbf, replacedTrees);
      rbfTrees := rbfTrees[newTx.txid := newTree];
      UpdateTreeMap(newTx.txid, newTree);
      replacing := replacing[newTx.txid := RootIds(replacedTrees)];
      IsAfterAdd(ix, replaced, newTx, now, newTree, Indexes());
    }

    /** Takes the trees of the replaced transactions out of the cache, or makes new leaves. */
    method TakeReplaced(ghost ix: Index, replaced: seq<CachedTx>, newTx: CachedTx, newTime: real, now: real)
      returns (replacedTrees: seq<RbfTree>, txFullRbf: bool, treeFullRbf: bool)
      requires Complete(ix) && Indexes() == ix.(txs := txs)
      modifies this`replacedBy, this`rbfTrees, this`txs
      ensures replacedTrees == Kids(ix, replaced, newTime, now)
      ensures replacedBy == ix.replacedBy + Links(Elems<Txid>(RootIds(replacedTrees)), newTx.txid)
      ensures rbfTrees == ix.rbfTrees - Elems<Txid>(RootIds(replacedTrees))
      ensures txs == TxsAfter(ix, replaced, old(txs), newTime, now)
      ensures treeFullRbf <==> AnySilent(replacedTrees)
      ensures txFullRbf <==> exists r | r in replaced :: !Signals(r)
    {
      hide Forest, Kids, Signals, Strip, KidOf, TxsAfter, Taken, AnySilent;
      txFullRbf, treeFullRbf := false, false;
      replacedTrees := [];
      NoKids(ix, newTime, now, txs, newTx.txid);
      for i := 0 to |replaced|
        invariant replacedTrees == Kids(ix, replaced[..i], newTime, now)
        invariant Taken(ix, replacedTrees, newTx.txid, replacedBy, rbfTrees)
        invariant txs == TxsAfter(ix, replaced[..i], old(txs), newTime, now)
        invariant treeFullRbf <==> AnySilent(replacedTrees)
        invariant txFullRbf <==> exists r | r in replaced[..i] :: !Signals(r)
      {
        var tx := replaced[i];
        assert replaced[..i + 1] == replaced[..i] + [tx];
        KidsStep(ix, replaced[..i], tx, newTime, now, old(txs));
        TakenHas(ix, replacedTrees, newTx.txid, replacedBy, rbfTrees, tx.txid);
        if !Signals(tx) {
          txFullRbf := true;
        }
        if tx.txid in replacedBy {
          continue;
        }
        TakenWhere(ix, replacedTrees, newTx.txid, replacedBy, rbfTrees, tx, newTime, now);
        KidOfFits(ix, tx, newTime, now);
        TakenMore(ix, replacedTrees, newTx.txid, replacedBy, rbfTrees, tx, KidOf(ix, tx, newTime, now));
        replacedBy := replacedBy[tx.txid := newTx.txid];
        var tree;
        if tx.txid in treeMap {
          var treeId := treeMap[tx.txid];
          tree := rbfTrees[treeId];
          rbfTrees := rbfTrees - {treeId};
          tree := tree.(interval := Some(newTime - tree.time));
        } else {
          var time := if tx.firstSeen.Some? && tx.firstSeen.value != 0.0 then tx.firstSeen.value else now;
          tree := RbfTree(Strip(tx), time, Some(newTime - time), false, !Signals(tx), []);
          txs := txs[tx.txid := tx];
        }
        SilentMore(replacedTrees, tree);
        replacedTrees := replacedTrees + [tree];
        treeFullRbf := treeFullRbf || tree.fullRbf || !tree.tx.rbf;
      }
      assert replaced[..|replaced|] == replaced;
      TakenAll(ix, replacedTrees, newTx.txid, replacedBy, rbfTrees);
    }

    method UpdateTreeMap(newId: Txid, tree: RbfTree)
      modifies this`treeMap
      ensures treeMap == old(treeMap) + Links(Ids(tree), newId)
      decreases tree
    {
      hide Ids, UpTo;
      treeMap := treeMap[tree.tx.txid := newId];
      UpToNone(tree);
      for i := 0 to |tree.replacing|
        invariant treeMap == old(treeMap) + Links(UpTo(tree, i), newId)
      {
        UpdateTreeMap(newId, tree.replacing[i]);
        UpToNext(tree, i);
        LinksMore(UpTo(tree, i), Ids(tree.replacing[i]), newId);
        hide Links;
      }
      UpToAll(tree);
    }

    /** Removes a transaction that nothing replaced, with everything it replaced; `tree` is its tree. */
    method Remove(txid: Txid, ghost tree: RbfTree)
      requires txid !in replacedBy ==> txid == tree.tx.txid && Proper(tree) && Linked(tree, replacedBy, replacing)
      requires txid !in replacedBy ==> forall x | x in BelowIds(tree) && x in treeMap :: treeMap[x] != x
      modifies this
      ensures txid in old(replacedBy) ==> Indexes() == old(Indexes()) && expiring == old(expiring)
      ensures txid !in old(replacedBy) ==>
                && replacedBy == old(replacedBy) - Ids(tree) && replacing == old(replacing) - Ids(tree)
                && treeMap == old(treeMap) - Ids(tree) && txs == old(txs) - Ids(tree) && expiring == old(expiring) - Ids(tree)
                && rbfTrees == old(rbfTrees) - (if txid in old(treeMap) && old(treeMap)[txid] == txid then {txid} else {})
      decreases tree, 1
    {
      hide Proper, Linked, Ids, BelowIds, UpTo;
      if txid !in replacedBy {
        ghost var ix := Indexes();
        ListedKids(tree, replacedBy, replacing);
        UpToNone(tree);
        Minus(replacedBy, {}, {}, txid);
        ghost var exp := expiring;
        var isRoot := txid in treeMap && treeMap[txid] == txid;
        var older := if txid in replacing then replacing[txid] else [];
        assert older == ChildIds(tree);
        replacing := replacing - {txid};
        treeMap := treeMap - {txid};
        txs := txs - {txid};
        expiring := expiring - {txid};
        if isRoot {
          rbfTrees := rbfTrees - {txid};
        }
        RemoveOlder(older, ix, exp, tree);
      }
    }

    method RemoveOlder(older: seq<Txid>, ghost ix: Index, ghost exp: map<Txid, int>, ghost tree: RbfTree)
      requires older == ChildIds(tree) && Proper(tree) && Linked(tree, ix.replacedBy, ix.replacing)
      requires Gone(ix, exp, UpTo(tree, 0))
      requires forall x | x in BelowIds(tree) && x in ix.treeMap :: ix.treeMap[x] != x
      modifies this
      ensures Gone(ix, exp, Ids(tree)) && rbfTrees == old(rbfTrees)
      decreases tree, 0
    {
      hide Proper, Linked, Ids, BelowIds, UpTo, Gone;
      for i := 0 to |older|
        invariant Gone(ix, exp, UpTo(tree, i)) && rbfTrees == old(rbfTrees)
      {
        ghost var c := tree.replacing[i];
        UpToApart(tree, i);
        NextSubtree(tree, i, ix.replacedBy, ix.replacing);
        UpToNext(tree, i);
        BelowInIds(c);
        BeforeKid(ix, exp, UpTo(tree, i));
        replacedBy := replacedBy - {older[i]};
        Remove(older[i], c);
        AfterKid(ix, exp, UpTo(tree, i), older[i], Ids(c));
      }
      UpToAll(tree);
    }

    ghost predicate Gone(ix: Index, exp: map<Txid, int>, ids: set<Txid>)
      reads this
    {
      && replacedBy == ix.replacedBy - ids && replacing == ix.replacing - ids && treeMap == ix.treeMap - ids
      && txs == ix.txs - ids && expiring == exp - ids
    }

    lemma BeforeKid(ix: Index, exp: map<Txid, int>, a: set<Txid>)
      requires Gone(ix, exp, a)
      ensures replacedBy == ix.replacedBy - a && replacing == ix.replacing - a && treeMap == ix.treeMap - a
      ensures txs == ix.txs - a && expiring == exp - a
    {
    }

    lemma AfterKid(ix: Index, exp: map<Txid, int>, a: set<Txid>, k: Txid, b: set<Txid>)
      requires k in b
      requires replacedBy == ix.replacedBy - a - {k} - b && replacing == ix.replacing - a - b && treeMap == ix.treeMap - a - b
      requires txs == ix.txs - a - b && expiring == exp - a - b
      ensures Gone(ix, exp, a + b)
    {
      Minus(ix.replacedBy, a, b, k);
      Minus(ix.replacing, a, b, k);
      Minus(ix.treeMap, a, b, k);
      Minus(ix.txs, a, b, k);
      Minus(exp, a, b, k);
    }

    /** Marks a transaction as mined, in its tree and as a whole. */
    method Mined(txid: Txid, now: int)
      requires Valid()
      modifies this`rbfTrees, this`expiring
      ensures Valid()
      ensures txid !in txs ==> rbfTrees == old(rbfTrees) && expiring == old(expiring)
      ensures txid in txs ==>
                && txid in treeMap && treeMap[txid] in old(rbfTrees)
                && var t := old(rbfTrees)[treeMap[txid]];
                   rbfTrees == old(rbfTrees)[treeMap[txid] := SetTreeMined(t, txid).(mined := true)]
                   && MinedIds(rbfTrees[treeMap[txid]]) == MinedIds(t) + {txid}
      ensures expiring == Evicted(txs, old(expiring), txid, false, now)
    {
      hide Forest;
      if txid !in txs {
        return;
      }
      var treeId := treeMap[txid];
      TreeOf(Indexes(), txid);
      TreeAt(Indexes(), treeId);
      var tree := rbfTrees[treeId];
      MarkedComplete(Indexes(), treeId, txid);
      MarkedIds(tree, txid);
      rbfTrees := rbfTrees[treeId := SetTreeMined(tree, txid).(mined := true)];
      Evict(txid, false, now);
    }

    /** Notes when to drop a transaction that left the mempool; the first date stands unless `fast`. */
    method Evict(txid: Txid, fast: bool, now: int)
      requires Valid()
      modifies this`expiring
      ensures Valid() && expiring == Evicted(txs, old(expiring), txid, fast, now)
      ensures txid in txs && fast ==> expiring == old(expiring)[txid := now + 600_000]
      ensures txid in txs && !fast && txid !in old(expiring) ==> expiring == old(expiring)[txid := now + 86_400_000]
      ensures txid !in txs || (!fast && txid in old(expiring)) ==> expiring == old(expiring)
    {
      hide Forest;
      if txid in txs && (fast || txid !in expiring) {
        var expiryTime := if fast then now + 1000 * 60 * 10 else now + 1000 * 86400;
        expiring := expiring[txid := expiryTime];
      }
    }

    static function Evicted(txs: map<Txid, CachedTx>, expiring: map<Txid, int>, txid: Txid, fast: bool, now: int): map<Txid, int> {
      if txid in txs && (fast || txid !in expiring) then expiring[txid := if fast then now + 600_000 else now + 86_400_000] else expiring
    }

    /** Drops a transaction that is due: its whole tree if nothing replaced it, else only its date. */
    method Expire(txid: Txid)
      requires Valid() && txid in expiring
      modifies this
      ensures Valid()
      ensures txid !in old(rbfTrees) ==> Indexes() == old(Indexes()) && expiring == old(expiring) - {txid}
      ensures txid in old(rbfTrees) ==>
                && Indexes() == Without(old(Indexes()), txid, Ids(old(rbfTrees)[txid]))
                && expiring == old(expiring) - {txid} - Ids(old(rbfTrees)[txid])
    {
      hide Forest, Ids, Proper, Linked, BelowIds;
      ghost var was := Indexes();
      Removable(was, txid);
      ghost var tree := rbfTrees[treeMap[txid]];
      expiring := expiring - {txid};
      Remove(txid, tree);
      if txid in was.rbfTrees {
        RemovedComplete(was, txid);
      }
    }

    /** Drops exactly the trees whose newest transaction is overdue, with all their transactions. */
    method Cleanup(now: int)
      requires Valid()
      modifies this
      ensures Valid() && Within(Indexes(), old(Indexes()))
      ensures rbfTrees == old(rbfTrees) - Overdue(old(expiring), now)
      ensures expiring == Kept(old(expiring) - Overdue(old(expiring), now), treeMap)
      ensures forall id :: id in rbfTrees <==> id in old(rbfTrees) && !(id in old(expiring) && old(expiring)[id] < now)
      ensures forall x :: x in treeMap <==>
                x in old(treeMap) && !(old(treeMap)[x] in old(expiring) && old(expiring)[old(treeMap)[x]] < now)
      ensures txs.Keys == treeMap.Keys
      ensures forall x :: x in expiring <==> x in old(expiring) && old(expiring)[x] >= now && x in treeMap
    {
      hide Complete, Ids, Overdue, Kept, Within;
      ghost var ix := Indexes();
      ghost var exp := expiring;
      ghost var overdue := Overdue(exp, now);
      var todo := expiring.Keys;
      OverdueKeys(exp, now);
      CleanupStart(ix, exp, overdue);
      while todo != {}
        invariant Valid() && todo <= exp.Keys && Within(Indexes(), ix)
        invariant rbfTrees == ix.rbfTrees - (overdue - todo)
        invariant expiring == Kept(exp - (overdue - todo), treeMap)
      {
        var txid :| txid in todo;
        ghost var was, wasExpiring, handled := Indexes(), expiring, overdue - todo;
        KeptOne(was, ix, exp, wasExpiring, todo, txid, now);
        todo := todo - {txid};
        if txid in expiring && expiring[txid] < now {
          Expire(txid);
          ghost var ids := if txid in was.rbfTrees then Ids(was.rbfTrees[txid]) else {};
          assert overdue - todo == handled + {txid};
          WithinLess(was, ix, txid, ids);
          KeptLess(exp - handled, txid, ids, was.treeMap, wasExpiring);
          assert exp - handled - {txid} == exp - (overdue - todo);
          assert ix.rbfTrees - handled - {txid} == ix.rbfTrees - (overdue - todo);
        }
      }
      assert overdue - {} == overdue;
      CleanupMeans(ix, Indexes(), exp, expiring, now);
    }
  }

  /** The trees with an overdue root are gone, with all their transactions and dates. */
  ghost predicate NoneOverdue(ix: Index, after: Index, exp: map<Txid, int>, expiring: map<Txid, int>, now: int) {
    && (forall id :: id in after.rbfTrees <==> id in ix.rbfTrees && !(id in exp && exp[id] < now))
    && (forall x :: x in after.treeMap <==> x in ix.treeMap && !(ix.treeMap[x] in exp && exp[ix.treeMap[x]] < now))
    && after.txs.Keys == after.treeMap.Keys
    && forall x :: x in expiring <==> x in exp && exp[x] >= now && x in after.treeMap
  }

  lemma CleanupMeans(ix: Index, after: Index, exp: map<Txid, int>, expiring: map<Txid, int>, now: int)
    requires Complete(ix) && Complete(after) && Within(after, ix) && exp.Keys <= ix.txs.Keys
    requires after.rbfTrees == ix.rbfTrees - Overdue(exp, now) && expiring == Kept(exp - Overdue(exp, now), after.treeMap)
    ensures NoneOverdue(ix, after, exp, expiring, now)
  {
    hide Forest;
    forall x ensures x in after.treeMap <==> x in ix.treeMap && !(ix.treeMap[x] in exp && exp[ix.treeMap[x]] < now) {
      if x in ix.treeMap {
        MapsInto(ix, x);
        if ix.treeMap[x] in after.rbfTrees {
          InTree(after, ix.treeMap[x], x);
        }
      }
      if x in after.treeMap {
        MapsInto(after, x);
      }
    }
  }

  lemma MapsInto(ix: Index, x: Txid)
    requires Forest(ix) && x in ix.treeMap
    ensures ix.treeMap[x] in ix.rbfTrees && x in Ids(ix.rbfTrees[ix.treeMap[x]])
  {
    hide AllLinked, Covered, AllStored, AllFlagged, Rooted;
  }

  /** Passing over a transaction that is not due, or that went with its tree. */
  lemma KeptOne(was: Index, ix: Index, exp: map<Txid, int>, expiring: map<Txid, int>, todo: set<Txid>, txid: Txid, now: int)
    requires Complete(was) && txid in todo && todo <= exp.Keys
    requires was.rbfTrees == ix.rbfTrees - (Overdue(exp, now) - todo) && expiring == Kept(exp - (Overdue(exp, now) - todo), was.treeMap)
    ensures txid in expiring ==> expiring[txid] == exp[txid]
    ensures txid in expiring && exp[txid] < now ==> txid in Overdue(exp, now)
    ensures !(txid in expiring && exp[txid] < now) ==>
              && was.rbfTrees == ix.rbfTrees - (Overdue(exp, now) - (todo - {txid}))
              && expiring == Kept(exp - (Overdue(exp, now) - (todo - {txid})), was.treeMap)
  {
    hide Forest;
    var overdue := Overdue(exp, now);
    if txid in was.rbfTrees {
      TreeAt(was, txid);
    }
    hide Overdue, Complete;
    if txid in overdue {
      assert overdue - (todo - {txid}) == overdue - todo + {txid};
      KeptWithout(exp - (overdue - todo), txid, was.treeMap);
      assert exp - (overdue - todo) - {txid} == exp - (overdue - (todo - {txid}));
    } else {
      assert overdue - (todo - {txid}) == overdue - todo;
    }
  }

  lemma KeptWithout(all: map<Txid, int>, txid: Txid, treeMap: map<Txid, Txid>)
    ensures txid !in Kept(all, treeMap) ==> Kept(all - {txid}, treeMap) == Kept(all, treeMap)
    ensures txid in all && txid in treeMap ==> txid in Kept(all, treeMap)
  {
  }

  lemma CleanupStart(ix: Index, exp: map<Txid, int>, overdue: set<Txid>)
    requires Complete(ix) && exp.Keys <= ix.txs.Keys
    ensures overdue <= exp.Keys ==> ix.rbfTrees == ix.rbfTrees - (overdue - exp.Keys) && exp == Kept(exp - (overdue - exp.Keys), ix.treeMap)
    ensures Within(ix, ix)
  {
    hide Forest;
    if overdue <= exp.Keys {
      assert overdue - exp.Keys == {};
    }
  }

  lemma OverdueKeys(expiring: map<Txid, int>, now: int)
    ensures Overdue(expiring, now) <= expiring.Keys
  {
  }

  /** The transactions with a date before `now`. */
  function Overdue(expiring: map<Txid, int>, now: int): set<Txid> {
    set x | x in expiring && expiring[x] < now
  }

  /** The entries for transactions that are still in a tree. */
  function Kept(expiring: map<Txid, int>, treeMap: map<Txid, Txid>): map<Txid, int> {
    map x | x in expiring && x in treeMap :: expiring[x]
  }

  /** Nothing new compared to `before`. */
  ghost predicate Within(ix: Index, before: Index) {
    && (forall x | x in ix.treeMap :: x in before.treeMap && ix.treeMap[x] == before.treeMap[x])
    && (forall x | x in ix.txs :: x in before.txs && ix.txs[x] == before.txs[x])
    && (forall x | x in ix.replacedBy :: x in before.replacedBy && ix.replacedBy[x] == before.replacedBy[x])
    && (forall x | x in ix.replacing :: x in before.replacing && ix.replacing[x] == before.replacing[x])
  }

  /** The tree that removing an unreplaced transaction drops. */
  lemma Removable(ix: Index, txid: Txid)
    requires Forest(ix) && txid in ix.treeMap
    ensures ix.treeMap[txid] in ix.rbfTrees
    ensures txid !in ix.replacedBy <==> txid in ix.rbfTrees
    ensures var t := ix.rbfTrees[ix.treeMap[txid]];
            txid !in ix.replacedBy ==>
              && ix.treeMap[txid] == txid && txid == t.tx.txid && Proper(t) && Linked(t, ix.replacedBy, ix.replacing)
              && forall x | x in BelowIds(t) && x in ix.treeMap :: ix.treeMap[x] != x
  {
    RootOf(ix, txid);
    var id := ix.treeMap[txid];
    var t := ix.rbfTrees[id];
    TreeAt(ix, id);
    RootNotBelow(t);
    BelowInIds(t);
    hide Forest, Proper, Linked, BelowIds, Ids;
    forall x | x in BelowIds(t) ensures x in ix.treeMap && ix.treeMap[x] == id {
      InTree(ix, id, x);
    }
    if txid in ix.rbfTrees {
      TreeAt(ix, txid);
    }
  }

  lemma WithinLess(ix: Index, before: Index, id: Txid, ids: set<Txid>)
    requires Within(ix, before)
    ensures Within(Without(ix, id, ids), before)
  {
  }

  lemma KeptLess(all: map<Txid, int>, txid: Txid, ids: set<Txid>, treeMap: map<Txid, Txid>, expiring: map<Txid, int>)
    requires expiring == Kept(all, treeMap)
    ensures expiring - {txid} - ids == Kept(all - {txid}, treeMap - ids)
    ensures ids == {} ==> treeMap - ids == treeMap && expiring - {txid} - ids == expiring - {txid}
  {
  }

  lemma MarkedIds(t: RbfTree, txid: Txid)
    requires Proper(t) && txid in Ids(t)
    ensures MinedIds(SetTreeMined(t, txid).(mined := true)) == MinedIds(t) + {txid}
  {
    SetTreeMinedMarks(t, txid);
    var u := SetTreeMined(t, txid);
    assert MinedIds(u.(mined := true)) == MinedIds(u);
  }

  /** The mark of a whole tree is not part of what the indexes say about it. */
  lemma MinedFree(t: RbfTree, mined: bool, rb: map<Txid, Txid>, rp: map<Txid, seq<Txid>>, txs: map<Txid, CachedTx>)
    ensures var u := t.(mined := mined);
            && Ids(u) == Ids(t) && (Proper(u) <==> Proper(t))
            && (Linked(u, rb, rp) <==> Linked(t, rb, rp)) && (Flagged(u) <==> Flagged(t)) && (Stored(u, txs) <==> Stored(t, txs))
  {
    assert BelowIds(t.(mined := mined)) == BelowIds(t);
  }

  lemma MarkedComplete(ix: Index, id: Txid, txid: Txid)
    requires Complete(ix) && id in ix.rbfTrees
    ensures Complete(ix.(rbfTrees := ix.rbfTrees[id := SetTreeMined(ix.rbfTrees[id], txid).(mined := true)]))
  {
    hide Forest, Ids, BelowIds, Proper, Linked, Flagged, Stored, SetTreeMined;
    var t := ix.rbfTrees[id];
    var u := SetTreeMined(t, txid);
    TreeAt(ix, id);
    SetTreeMinedShape(t, txid);
    SameIds(u, t);
    SameProper(u, t);
    SameLinked(u, t, ix.replacedBy, ix.replacing);
    SameStored(u, t, ix.txs);
    SameFlagged(u, t);
    MinedFree(u, true, ix.replacedBy, ix.replacing, ix.txs);
    SwappedComplete(ix, id, u.(mined := true));
  }

  /** A tree gives way to one over the same transactions. */
  lemma SwappedComplete(ix: Index, id: Txid, u: RbfTree)
    requires Complete(ix) && id in ix.rbfTrees && u.tx.txid == id && Ids(u) == Ids(ix.rbfTrees[id])
    requires Proper(u) && Linked(u, ix.replacedBy, ix.replacing) && Stored(u, ix.txs) && Flagged(u)
    ensures Complete(ix.(rbfTrees := ix.rbfTrees[id := u]))
  {
    hide Ids, Proper, Linked, Flagged, Stored, Forest;
    ForestParts(ix);
    FromParts(ix.(rbfTrees := ix.rbfTrees[id := u]));
  }
}
