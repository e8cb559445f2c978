/** Trees of replaced transactions: the root is the newest version, children are what it replaced. */
module RbfTrees {
  import opened Options
  import opened Graph

  /** A mempool transaction as the cache stores it. `firstSeen` is missing when it was never set. */
  datatype CachedTx = CachedTx(txid: Txid, fee: int, weight: int, sequences: seq<nat>, firstSeen: Option<real>)

  /** The stripped transaction in a tree node. */
  datatype RbfTransaction = RbfTransaction(txid: Txid, fee: int, weight: int, rbf: bool, mined: bool, fullRbf: bool)

  datatype RbfTree = RbfTree(tx: RbfTransaction, time: real, interval: Option<real>, mined: bool, fullRbf: bool, replacing: seq<RbfTree>)

  predicate Signals(tx: CachedTx) {
    exists i | 0 <= i < |tx.sequences| :: tx.sequences[i] < 0xfffffffe
  }

  function Strip(tx: CachedTx): RbfTransaction {
    RbfTransaction(tx.txid, tx.fee, tx.weight, Signals(tx), false, false)
  }

  function Ids(t: RbfTree): set<Txid>
    decreases t, 1
  {
    {t.tx.txid} + BelowIds(t)
  }

  /** The transactions in the tree except its newest. */
  function BelowIds(t: RbfTree): set<Txid>
    decreases t, 0
  {
    set i, x | 0 <= i < |t.replacing| && x in Ids(t.replacing[i]) :: x
  }

  function ChildIds(t: RbfTree): seq<Txid> {
    RootIds(t.replacing)
  }

  function RootIds(ts: seq<RbfTree>): (r: seq<Txid>)
    ensures |r| == |ts| && forall i | 0 <= i < |ts| :: r[i] == ts[i].tx.txid
  {
    seq(|ts|, i requires 0 <= i < |ts| => ts[i].tx.txid)
  }

  /** No transaction is in the tree twice. */
  ghost predicate Proper(t: RbfTree) {
    && Apart(t.replacing)
    && (forall i | 0 <= i < |t.replacing| :: t.tx.txid !in Ids(t.replacing[i]))
    && (forall i | 0 <= i < |t.replacing| :: Proper(t.replacing[i]))
  }

  ghost predicate Apart(ts: seq<RbfTree>) {
    forall i, j | 0 <= i < j < |ts| :: Ids(ts[i]) !! Ids(ts[j])
  }

  /** The two indexes describe exactly the tree; the entry of its root in `replacedBy` is free. */
  ghost predicate Linked(t: RbfTree, replacedBy: map<Txid, Txid>, replacing: map<Txid, seq<Txid>>) {
    && ChildIds(t) == (if t.tx.txid in replacing then replacing[t.tx.txid] else [])
    && (forall i | 0 <= i < |t.replacing| :: t.replacing[i].tx.txid in replacedBy && replacedBy[t.replacing[i].tx.txid] == t.tx.txid)
    && (forall i | 0 <= i < |t.replacing| :: Linked(t.replacing[i], replacedBy, replacing))
  }

  /** Some transaction in the tree did not signal that it may be replaced. */
  ghost predicate SomeSilent(t: RbfTree) {
    !t.tx.rbf || exists i | 0 <= i < |t.replacing| :: SomeSilent(t.replacing[i])
  }

  /** `fullRbf` says whether a transaction that did not signal was replaced; in a leaf, whether the
      leaf's own did not. */
  ghost predicate Flagged(t: RbfTree) {
    && (t.fullRbf <==> if t.replacing == [] then !t.tx.rbf else exists i | 0 <= i < |t.replacing| :: SomeSilent(t.replacing[i]))
    && (forall i | 0 <= i < |t.replacing| :: Flagged(t.replacing[i]))
  }

  /** Every node shows the stored transaction. */
  ghost predicate Stored(t: RbfTree, txs: map<Txid, CachedTx>) {
    && Shows(t.tx, txs)
    && (forall i | 0 <= i < |t.replacing| :: Stored(t.replacing[i], txs))
  }

  ghost predicate Shows(tx: RbfTransaction, txs: map<Txid, CachedTx>) {
    tx.txid in txs && tx == Strip(txs[tx.txid]).(mined := tx.mined, fullRbf := tx.fullRbf)
  }

  // ---------- what the predicates depend on

  lemma {:induction false} LinkedFrame(t: RbfTree, rb: map<Txid, Txid>, rp: map<Txid, seq<Txid>>, rb': map<Txid, Txid>, rp': map<Txid, seq<Txid>>)
    requires Linked(t, rb, rp) && Proper(t)
    requires forall x | x in Ids(t) :: (x in rp <==> x in rp') && (x in rp ==> rp[x] == rp'[x])
    requires forall x | x in BelowIds(t) && x in rb :: x in rb' && rb[x] == rb'[x]
    ensures Linked(t, rb', rp')
  {
    forall i | 0 <= i < |t.replacing|
      ensures Linked(t.replacing[i], rb', rp')
      ensures t.replacing[i].tx.txid in rb' && rb'[t.replacing[i].tx.txid] == t.tx.txid
    {
      var c := t.replacing[i];
      assert forall x | x in Ids(c) :: x in BelowIds(t);
      assert c.tx.txid in Ids(c);
      LinkedFrame(c, rb, rp, rb', rp');
    }
  }

  lemma {:induction false} StoredFrame(t: RbfTree, txs: map<Txid, CachedTx>, txs': map<Txid, CachedTx>)
    requires Stored(t, txs)
    requires forall x | x in Ids(t) && x in txs :: x in txs' && txs'[x] == txs[x]
    ensures Stored(t, txs')
  {
    forall i | 0 <= i < |t.replacing| ensures Stored(t.replacing[i], txs') {
      assert forall x | x in Ids(t.replacing[i]) :: x in BelowIds(t);
      StoredFrame(t.replacing[i], txs, txs');
    }
  }

  /** Every transaction below the root was replaced by one that lists it. */
  lemma {:induction false} BelowReplaced(t: RbfTree, rb: map<Txid, Txid>, rp: map<Txid, seq<Txid>>, x: Txid)
    requires Linked(t, rb, rp) && x in BelowIds(t)
    ensures x in rb && rb[x] in Ids(t) && rb[x] in rp && x in rp[rb[x]]
  {
    var i :| 0 <= i < |t.replacing| && x in Ids(t.replacing[i]);
    var c := t.replacing[i];
    if x == c.tx.txid {
      assert ChildIds(t)[i] == x;
    } else {
      BelowReplaced(c, rb, rp, x);
      assert rb[x] in Ids(c);
    }
  }

  /** What a transaction of the tree lists as replaced is in the tree, and points back. */
  lemma {:induction false} ListedBelow(t: RbfTree, rb: map<Txid, Txid>, rp: map<Txid, seq<Txid>>, p: Txid, x: Txid)
    requires Linked(t, rb, rp) && p in Ids(t) && p in rp && x in rp[p]
    ensures x in BelowIds(t) && x in rb && rb[x] == p
  {
    if p == t.tx.txid {
      var i :| 0 <= i < |ChildIds(t)| && ChildIds(t)[i] == x;
      assert x in Ids(t.replacing[i]);
    } else {
      var i :| 0 <= i < |t.replacing| && p in Ids(t.replacing[i]);
      ListedBelow(t.replacing[i], rb, rp, p, x);
      assert x in Ids(t.replacing[i]);
    }
  }

  // ---------- marking as mined

  function SetTreeMined(t: RbfTree, txid: Txid): RbfTree {
    if t.tx.txid == txid then t.(tx := t.tx.(mined := true))
    else t.(replacing := seq(|t.replacing|, i requires 0 <= i < |t.replacing| => SetTreeMined(t.replacing[i], txid)))
  }

  /** The transactions marked as mined. */
  function MinedIds(t: RbfTree): set<Txid> {
    (if t.tx.mined then {t.tx.txid} else {}) + set i, x | 0 <= i < |t.replacing| && x in MinedIds(t.replacing[i]) :: x
  }

  /** Same transactions in the same places with the same times; only the mined marks differ. */
  ghost predicate SameButMined(a: RbfTree, b: RbfTree) {
    && a.tx == b.tx.(mined := a.tx.mined) && a.time == b.time && a.interval == b.interval && a.fullRbf == b.fullRbf && a.mined == b.mined
    && |a.replacing| == |b.replacing| && forall i | 0 <= i < |a.replacing| :: SameButMined(a.replacing[i], b.replacing[i])
  }

  lemma {:induction false} SameButMinedSelf(t: RbfTree)
    ensures SameButMined(t, t)
  {
    forall i | 0 <= i < |t.replacing| ensures SameButMined(t.replacing[i], t.replacing[i]) {
      SameButMinedSelf(t.replacing[i]);
    }
  }

  lemma {:induction false} SetTreeMinedShape(t: RbfTree, txid: Txid)
    ensures SameButMined(SetTreeMined(t, txid), t)
  {
    if t.tx.txid == txid {
      forall i | 0 <= i < |t.replacing| ensures SameButMined(t.replacing[i], t.replacing[i]) {
        SameButMinedSelf(t.replacing[i]);
      }
    } else {
      forall i | 0 <= i < |t.replacing| ensures SameButMined(SetTreeMined(t.replacing[i], txid), t.replacing[i]) {
        SetTreeMinedShape(t.replacing[i], txid);
      }
    }
  }

  /** Exactly the mined transaction gets a new mark, wherever in the tree it is. */
  lemma {:induction false} SetTreeMinedMarks(t: RbfTree, txid: Txid)
    requires Proper(t)
    ensures MinedIds(SetTreeMined(t, txid)) == MinedIds(t) + (if txid in Ids(t) then {txid} else {})
  {
    var t' := SetTreeMined(t, txid);
    if t.tx.txid != txid {
      forall i | 0 <= i < |t.replacing|
        ensures MinedIds(t'.replacing[i]) == MinedIds(t.replacing[i]) + (if txid in Ids(t.replacing[i]) then {txid} else {})
      {
        SetTreeMinedMarks(t.replacing[i], txid);
      }
      forall x ensures x in MinedIds(t') <==> x in MinedIds(t) || (x == txid && txid in Ids(t)) {
      }
    }
  }

  lemma {:induction false} SameIds(a: RbfTree, b: RbfTree)
    requires SameButMined(a, b)
    ensures Ids(a) == Ids(b) && BelowIds(a) == BelowIds(b) && ChildIds(a) == ChildIds(b)
  {
    forall i | 0 <= i < |a.replacing| ensures Ids(a.replacing[i]) == Ids(b.replacing[i]) {
      SameIds(a.replacing[i], b.replacing[i]);
    }
  }

  lemma {:induction false} SameProper(a: RbfTree, b: RbfTree)
    requires SameButMined(a, b)
    ensures Proper(b) ==> Proper(a)
  {
    forall i | 0 <= i < |a.replacing| ensures Ids(a.replacing[i]) == Ids(b.replacing[i]) && (Proper(b.replacing[i]) ==> Proper(a.replacing[i])) {
      SameIds(a.replacing[i], b.replacing[i]);
      SameProper(a.replacing[i], b.replacing[i]);
    }
  }

  lemma {:induction false} SameLinked(a: RbfTree, b: RbfTree, rb: map<Txid, Txid>, rp: map<Txid, seq<Txid>>)
    requires SameButMined(a, b) && Linked(b, rb, rp)
    ensures Linked(a, rb, rp)
  {
    SameIds(a, b);
    forall i | 0 <= i < |a.replacing| ensures Linked(a.replacing[i], rb, rp) && a.replacing[i].tx.txid == b.replacing[i].tx.txid {
      SameLinked(a.replacing[i], b.replacing[i], rb, rp);
    }
  }

  lemma {:induction false} SameStored(a: RbfTree, b: RbfTree, txs: map<Txid, CachedTx>)
    requires SameButMined(a, b) && Stored(b, txs)
    ensures Stored(a, txs)
  {
    forall i | 0 <= i < |a.replacing| ensures Stored(a.replacing[i], txs) {
      SameStored(a.replacing[i], b.replacing[i], txs);
    }
  }

  lemma {:induction false} SameFlagged(a: RbfTree, b: RbfTree)
    requires SameButMined(a, b)
    ensures SomeSilent(a) <==> SomeSilent(b)
    ensures Flagged(b) ==> Flagged(a)
  {
    forall i | 0 <= i < |a.replacing|
      ensures SomeSilent(a.replacing[i]) <==> SomeSilent(b.replacing[i])
      ensures Flagged(b.replacing[i]) ==> Flagged(a.replacing[i])
    {
      SameFlagged(a.replacing[i], b.replacing[i]);
    }
  }
}
