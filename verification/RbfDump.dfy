/** Saving the replacement trees and restoring them. */
module RbfDump {
  import opened Options
  import opened Graph
  import opened RbfTrees
  import opened RbfCache

  /** A tree node in a dump; children are named by their txid. */
  datatype Record = Record(tx: Txid, txMined: bool, time: real, interval: Option<real>, mined: bool, fullRbf: bool, replacing: seq<Txid>)

  type Deflated = map<Txid, Record>

  function RecordOf(t: RbfTree): Record {
    Record(t.tx.txid, t.tx.mined, t.time, t.interval, t.mined, t.fullRbf, ChildIds(t))
  }

  ghost predicate Encodes(deflated: Deflated, t: RbfTree) {
    && t.tx.txid in deflated && deflated[t.tx.txid] == RecordOf(t)
    && forall i | 0 <= i < |t.replacing| :: Encodes(deflated, t.replacing[i])
  }

  lemma {:induction false} EncodesFrame(d: Deflated, d': Deflated, t: RbfTree)
    requires Encodes(d, t) && forall x | x in Ids(t) && x in d :: x in d' && d'[x] == d[x]
    ensures Encodes(d', t)
  {
    forall i | 0 <= i < |t.replacing| ensures Encodes(d', t.replacing[i]) {
      assert forall x | x in Ids(t.replacing[i]) :: x in BelowIds(t);
      EncodesFrame(d, d', t.replacing[i]);
    }
  }

  /** `to` differs from `from` only at `ids`, and has entries for all of them. */
  ghost predicate Extends<V>(from: map<Txid, V>, to: map<Txid, V>, ids: set<Txid>) {
    && to.Keys == from.Keys + ids
    && forall x | x in from && x !in ids :: to[x] == from[x]
  }

  method ExportTree(tree: RbfTree, deflated: Deflated) returns (out: Deflated)
    ensures Extends(deflated, out, Ids(tree))
    ensures Proper(tree) ==> Encodes(out, tree)
    decreases tree
  {
    hide Proper, Encodes, Ids, BelowIds, UpTo;
    out := deflated[tree.tx.txid := RecordOf(tree)];
    UpToNone(tree);
    for i := 0 to |tree.replacing|
      invariant Extends(deflated, out, UpTo(tree, i))
      invariant Proper(tree) ==> tree.tx.txid in out && out[tree.tx.txid] == RecordOf(tree)
      invariant Proper(tree) ==> forall j | 0 <= j < i :: Encodes(out, tree.replacing[j])
    {
      ghost var was := out;
      out := ExportTree(tree.replacing[i], out);
      UpToNext(tree, i);
      if Proper(tree) {
        RootApart(tree, i);
        forall j | 0 <= j < i ensures Encodes(out, tree.replacing[j]) {
          SiblingsApart(tree, j, i);
          EncodesFrame(was, out, tree.replacing[j]);
        }
      }
    }
    UpToAll(tree);
    if Proper(tree) {
      EncodesNode(out, tree);
    }
  }

  lemma EncodesNode(d: Deflated, t: RbfTree)
    requires t.tx.txid in d && d[t.tx.txid] == RecordOf(t)
    requires forall i | 0 <= i < |t.replacing| :: Encodes(d, t.replacing[i])
    ensures Encodes(d, t)
  {
  }

  lemma RootApart(t: RbfTree, i: nat)
    requires Proper(t) && i < |t.replacing|
    ensures t.tx.txid !in Ids(t.replacing[i]) && Proper(t.replacing[i])
  {
  }

  lemma SiblingsApart(t: RbfTree, i: nat, j: nat)
    requires Proper(t) && i < j < |t.replacing|
    ensures Ids(t.replacing[i]) !! Ids(t.replacing[j])
  {
  }

  // ---------- restoring

  /** What a dump of `t` restores: a transaction that is in the cache already or is not stored is
      left out with everything below it. All nodes get the same mark. */
  ghost function Imported(t: RbfTree, treeMap: map<Txid, Txid>, txs: map<Txid, CachedTx>, mined: bool): Option<RbfTree>
    decreases t, 0
  {
    if t.tx.txid in treeMap || t.tx.txid !in txs then None
    else Some(RbfTree(Strip(txs[t.tx.txid]).(mined := t.tx.mined), t.time, t.interval, mined, t.fullRbf,
                      Survivors(t, |t.replacing|, treeMap, txs, mined)))
  }

  /** The subtrees restored from the first `i` children. */
  ghost function Survivors(t: RbfTree, i: nat, treeMap: map<Txid, Txid>, txs: map<Txid, CachedTx>, mined: bool): seq<RbfTree>
    requires i <= |t.replacing|
    decreases t, 0, i
  {
    if i == 0 then []
    else
      var rest := Survivors(t, i - 1, treeMap, txs, mined);
      var next := Imported(t.replacing[i - 1], treeMap, txs, mined);
      if next.Some? then rest + [next.value] else rest
  }

  /** Nothing is restored, and no link changes: an unknown root, or a transaction that is in the cache. */
  predicate Skipped(t: RbfTree, root: Txid, treeMap: map<Txid, Txid>, txs: map<Txid, CachedTx>) {
    (root == t.tx.txid && t.tx.txid !in txs) || t.tx.txid in treeMap
  }

  /** Who replaced whom after a restore: children that were restored point to their parent, even to one
      that is not stored itself. */
  ghost function RestoredBy(t: RbfTree, i: nat, root: Txid, treeMap: map<Txid, Txid>, txs: map<Txid, CachedTx>, mined: bool, rb: map<Txid, Txid>): map<Txid, Txid>
    requires i <= |t.replacing|
    decreases t, i
  {
    if i == 0 || Skipped(t, root, treeMap, txs) then rb
    else
      var c, rb1 := t.replacing[i - 1], RestoredBy(t, i - 1, root, treeMap, txs, mined, rb);
      var rb2 := RestoredBy(c, |c.replacing|, root, treeMap, txs, mined, rb1);
      if Imported(c, treeMap, txs, mined).Some? then rb2[c.tx.txid := t.tx.txid] else rb2
  }

  /** The lists below the first `i` children of `t` after a restore. */
  ghost function RestoredLists(t: RbfTree, i: nat, root: Txid, treeMap: map<Txid, Txid>, txs: map<Txid, CachedTx>, mined: bool, rp: map<Txid, seq<Txid>>): map<Txid, seq<Txid>>
    requires i <= |t.replacing|
    decreases t, 0, i
  {
    if i == 0 then rp
    else RestoredFrom(t.replacing[i - 1], root, treeMap, txs, mined, RestoredLists(t, i - 1, root, treeMap, txs, mined, rp))
  }

  /** Whom each replaced after a restore: every transaction of the dump that is not skipped gets a list of
      those below it that were restored, whether it is stored or not. */
  ghost function RestoredFrom(t: RbfTree, root: Txid, treeMap: map<Txid, Txid>, txs: map<Txid, CachedTx>, mined: bool, rp: map<Txid, seq<Txid>>): map<Txid, seq<Txid>>
    decreases t, 1
  {
    if Skipped(t, root, treeMap, txs) then rp
    else RestoredLists(t, |t.replacing|, root, treeMap, txs, mined, rp)[t.tx.txid := RootIds(Survivors(t, |t.replacing|, treeMap, txs, mined))]
  }

  /** A transaction that is not stored yields no node, but a list of its own, to which those restored
      below it point. */
  lemma UnstoredListed(t: RbfTree, root: Txid, treeMap: map<Txid, Txid>, txs: map<Txid, CachedTx>, mined: bool, rb: map<Txid, Txid>, rp: map<Txid, seq<Txid>>)
    requires Proper(t) && t.tx.txid !in txs && t.tx.txid !in treeMap && t.tx.txid != root
    ensures Imported(t, treeMap, txs, mined) == None
    ensures var rp' := RestoredFrom(t, root, treeMap, txs, mined, rp);
            t.tx.txid in rp' && rp'[t.tx.txid] == RootIds(Survivors(t, |t.replacing|, treeMap, txs, mined))
    ensures var rb' := RestoredBy(t, |t.replacing|, root, treeMap, txs, mined, rb);
            forall i | 0 <= i < |t.replacing| && Imported(t.replacing[i], treeMap, txs, mined).Some? ::
              t.replacing[i].tx.txid in rb' && rb'[t.replacing[i].tx.txid] == t.tx.txid
  {
    hide Survivors, Imported;
    assert Imported(t, treeMap, txs, mined) == None by { NotStored(t, treeMap, txs, mined); }
    KidsPoint(t, |t.replacing|, root, treeMap, txs, mined, rb);
  }

  lemma NotStored(t: RbfTree, treeMap: map<Txid, Txid>, txs: map<Txid, CachedTx>, mined: bool)
    requires t.tx.txid !in txs
    ensures Imported(t, treeMap, txs, mined) == None
  {
  }

  lemma RestoredNext(t: RbfTree, i: nat, root: Txid, treeMap: map<Txid, Txid>, txs: map<Txid, CachedTx>, mined: bool, rb: map<Txid, Txid>, rp: map<Txid, seq<Txid>>)
    requires i < |t.replacing| && !Skipped(t, root, treeMap, txs)
    ensures var c := t.replacing[i];
            var next := Imported(c, treeMap, txs, mined);
            var below := RestoredBy(c, |c.replacing|, root, treeMap, txs, mined, RestoredBy(t, i, root, treeMap, txs, mined, rb));
            && RestoredBy(t, i + 1, root, treeMap, txs, mined, rb) == (if next.Some? then below[c.tx.txid := t.tx.txid] else below)
            && RestoredLists(t, i + 1, root, treeMap, txs, mined, rp) == RestoredFrom(c, root, treeMap, txs, mined, RestoredLists(t, i, root, treeMap, txs, mined, rp))
            && Survivors(t, i + 1, treeMap, txs, mined) == Survivors(t, i, treeMap, txs, mined) + if next.Some? then [next.value] else []
  {
    hide Imported, Skipped, RestoredFrom;
  }

  lemma {:induction false} KidsPoint(t: RbfTree, i: nat, root: Txid, treeMap: map<Txid, Txid>, txs: map<Txid, CachedTx>, mined: bool, rb: map<Txid, Txid>)
    requires Proper(t) && i <= |t.replacing| && !Skipped(t, root, treeMap, txs)
    ensures var rb' := RestoredBy(t, i, root, treeMap, txs, mined, rb);
            forall j | 0 <= j < i && Imported(t.replacing[j], treeMap, txs, mined).Some? ::
              t.replacing[j].tx.txid in rb' && rb'[t.replacing[j].tx.txid] == t.tx.txid
    decreases i
  {
    hide Imported, Skipped, Ids, BelowIds, RestoredBy, Proper;
    if i > 0 {
      RestoredNext(t, i - 1, root, treeMap, txs, mined, rb, map[]);
      KidsPoint(t, i - 1, root, treeMap, txs, mined, rb);
      var c, rb1 := t.replacing[i - 1], RestoredBy(t, i - 1, root, treeMap, txs, mined, rb);
      OnlyBelow(c, |c.replacing|, root, treeMap, txs, mined, rb1);
      forall j | 0 <= j < i - 1 ensures t.replacing[j].tx.txid !in Ids(c) {
        SiblingsApart(t, j, i - 1);
        RootInIds(t.replacing[j]);
      }
      BelowInIds(c);
      RootInIds(c);
    }
  }

  lemma BelowInIds(t: RbfTree)
    ensures BelowIds(t) <= Ids(t)
  {
  }

  /** Only links from below `t` change. */
  lemma {:induction false} OnlyBelow(t: RbfTree, i: nat, root: Txid, treeMap: map<Txid, Txid>, txs: map<Txid, CachedTx>, mined: bool, rb: map<Txid, Txid>)
    requires i <= |t.replacing|
    ensures SameOutside(rb, RestoredBy(t, i, root, treeMap, txs, mined, rb), BelowIds(t))
    decreases t, i
  {
    hide Imported, Skipped, Ids;
    if i > 0 {
      var c, rb1 := t.replacing[i - 1], RestoredBy(t, i - 1, root, treeMap, txs, mined, rb);
      OnlyBelow(t, i - 1, root, treeMap, txs, mined, rb);
      OnlyBelow(c, |c.replacing|, root, treeMap, txs, mined, rb1);
      ChildInside(t, i - 1);
      RootInIds(c);
      BelowInIds(c);
    }
  }

  /** What a full restore brings back: all but the marks of whole trees and `fullRbf` of transactions. */
  function Cleared(t: RbfTree, mined: bool): RbfTree {
    t.(tx := t.tx.(fullRbf := false), mined := mined,
       replacing := seq(|t.replacing|, i requires 0 <= i < |t.replacing| => Cleared(t.replacing[i], mined)))
  }

  /** The trees agree on all that a dump saves, down to the leaves, but for the marks of whole trees. */
  ghost predicate SavedAlike(a: RbfTree, t: RbfTree) {
    && a.tx.txid == t.tx.txid && a.tx.fee == t.tx.fee && a.tx.weight == t.tx.weight && a.tx.rbf == t.tx.rbf && a.tx.mined == t.tx.mined
    && a.time == t.time && a.interval == t.interval && a.fullRbf == t.fullRbf
    && |a.replacing| == |t.replacing| && forall i | 0 <= i < |t.replacing| :: SavedAlike(a.replacing[i], t.replacing[i])
  }

  lemma {:induction false} ClearedAlike(t: RbfTree, mined: bool)
    ensures SavedAlike(Cleared(t, mined), t)
  {
    forall i | 0 <= i < |t.replacing| ensures SavedAlike(Cleared(t, mined).replacing[i], t.replacing[i]) {
      ClearedAlike(t.replacing[i], mined);
    }
  }

  /** All transactions of the tree are stored and none is in the cache. */
  ghost predicate Restorable(t: RbfTree, treeMap: map<Txid, Txid>, txs: map<Txid, CachedTx>) {
    Proper(t) && Stored(t, txs) && Ids(t) !! treeMap.Keys
  }

  lemma RestorableChild(t: RbfTree, i: nat, treeMap: map<Txid, Txid>, txs: map<Txid, CachedTx>)
    requires Restorable(t, treeMap, txs) && i < |t.replacing|
    ensures Restorable(t.replacing[i], treeMap, txs)
  {
    UpToApart(t, i);
    assert Ids(t.replacing[i]) <= BelowIds(t) <= Ids(t);
  }

  /** Everything is restored when all of it is stored. */
  lemma {:induction false} ImportedAll(t: RbfTree, treeMap: map<Txid, Txid>, txs: map<Txid, CachedTx>, mined: bool)
    requires Restorable(t, treeMap, txs)
    ensures Imported(t, treeMap, txs, mined) == Some(Cleared(t, mined))
    decreases t, 0
  {
    SurvivorsAll(t, |t.replacing|, treeMap, txs, mined);
    assert Cleared(t, mined).replacing[..|t.replacing|] == Cleared(t, mined).replacing;
    RestorableRoot(t, treeMap, txs);
  }

  lemma {:induction false} SurvivorsAll(t: RbfTree, i: nat, treeMap: map<Txid, Txid>, txs: map<Txid, CachedTx>, mined: bool)
    requires Restorable(t, treeMap, txs) && i <= |t.replacing|
    ensures Survivors(t, i, treeMap, txs, mined) == Cleared(t, mined).replacing[..i]
    decreases t, 0, i
  {
    hide Restorable, Imported;
    if i > 0 {
      SurvivorsAll(t, i - 1, treeMap, txs, mined);
      RestorableChild(t, i - 1, treeMap, txs);
      ImportedAll(t.replacing[i - 1], treeMap, txs, mined);
      assert Cleared(t, mined).replacing[i - 1] == Cleared(t.replacing[i - 1], mined);
    }
  }

  lemma {:induction false} ClearedSame(t: RbfTree, mined: bool, rb: map<Txid, Txid>, rp: map<Txid, seq<Txid>>, txs: map<Txid, CachedTx>)
    ensures var u := Cleared(t, mined);
            && Ids(u) == Ids(t) && ChildIds(u) == ChildIds(t) && u.tx.txid == t.tx.txid && (SomeSilent(u) <==> SomeSilent(t))
    ensures var u := Cleared(t, mined);
            && (Proper(t) ==> Proper(u)) && (Flagged(t) ==> Flagged(u)) && (Stored(t, txs) ==> Stored(u, txs)) && (Linked(t, rb, rp) ==> Linked(u, rb, rp))
  {
    var u := Cleared(t, mined);
    forall i | 0 <= i < |t.replacing|
      ensures var c, d := t.replacing[i], u.replacing[i];
              && Ids(d) == Ids(c) && ChildIds(d) == ChildIds(c) && d.tx.txid == c.tx.txid && (SomeSilent(d) <==> SomeSilent(c))
              && (Proper(c) ==> Proper(d)) && (Flagged(c) ==> Flagged(d)) && (Stored(c, txs) ==> Stored(d, txs)) && (Linked(c, rb, rp) ==> Linked(d, rb, rp))
    {
      ClearedSame(t.replacing[i], mined, rb, rp, txs);
    }
    assert BelowIds(u) == BelowIds(t);
  }

  ghost predicate SameOutside<V>(from: map<Txid, V>, to: map<Txid, V>, ids: set<Txid>) {
    forall x | x !in ids :: (x in from <==> x in to) && (x in from ==> to[x] == from[x])
  }

  /** The links of the first `i` subtrees are as the tree says. */
  ghost predicate KidsLinked(t: RbfTree, i: nat, rb: map<Txid, Txid>, rp: map<Txid, seq<Txid>>)
    requires i <= |t.replacing|
  {
    forall j | 0 <= j < i :: t.replacing[j].tx.txid in rb && rb[t.replacing[j].tx.txid] == t.tx.txid && Linked(t.replacing[j], rb, rp)
  }

  /** The indexes `rb` and `rp` came from `rb0` and `rp0` by restoring the first `i` subtrees. */
  ghost predicate Rebuilt(t: RbfTree, i: nat, rb0: map<Txid, Txid>, rp0: map<Txid, seq<Txid>>, rb: map<Txid, Txid>, rp: map<Txid, seq<Txid>>)
    requires i <= |t.replacing|
  {
    && KidsLinked(t, i, rb, rp)
    && rb.Keys == rb0.Keys + (UpTo(t, i) - {t.tx.txid}) && rp.Keys == rp0.Keys + (UpTo(t, i) - {t.tx.txid})
  }

  lemma KidsLinkedMore(t: RbfTree, i: nat, rb: map<Txid, Txid>, rp: map<Txid, seq<Txid>>, rb': map<Txid, Txid>, rp': map<Txid, seq<Txid>>)
    requires Proper(t) && i < |t.replacing| && KidsLinked(t, i, rb, rp)
    requires SameOutside(rb, rb', Ids(t.replacing[i])) && SameOutside(rp, rp', Ids(t.replacing[i]))
    requires Linked(t.replacing[i], rb', rp') && t.replacing[i].tx.txid in rb' && rb'[t.replacing[i].tx.txid] == t.tx.txid
    ensures KidsLinked(t, i + 1, rb', rp')
  {
    hide Proper, Ids, BelowIds, Linked;
    forall j | 0 <= j < i
      ensures t.replacing[j].tx.txid in rb' && rb'[t.replacing[j].tx.txid] == t.tx.txid && Linked(t.replacing[j], rb', rp')
    {
      var c := t.replacing[j];
      SiblingsApart(t, j, i);
      RootApart(t, j);
      RootInIds(c);
      BelowInIds(c);
      LinkedFrame(c, rb, rp, rb', rp');
    }
  }

  /** One more child: its subtree was restored, then it was linked to its parent. */
  lemma RebuiltMore(t: RbfTree, i: nat, rb0: map<Txid, Txid>, rp0: map<Txid, seq<Txid>>, rb: map<Txid, Txid>, rp: map<Txid, seq<Txid>>,
                    rb': map<Txid, Txid>, rp': map<Txid, seq<Txid>>)
    requires Proper(t) && i < |t.replacing| && Rebuilt(t, i, rb0, rp0, rb, rp)
    requires var c := t.replacing[i];
             && SameOutside(rb, rb', BelowIds(c)) && SameOutside(rp, rp', Ids(c)) && Linked(c, rb', rp')
             && rp'.Keys == rp.Keys + Ids(c) && rb'.Keys == rb.Keys + BelowIds(c)
    ensures Rebuilt(t, i + 1, rb0, rp0, rb'[t.replacing[i].tx.txid := t.tx.txid], rp')
  {
    hide Linked, Proper, Ids, BelowIds, UpTo, KidsLinked, SameOutside;
    var c := t.replacing[i];
    var rb'' := rb'[c.tx.txid := t.tx.txid];
    RootApart(t, i);
    RootNotBelow(c);
    UpToNext(t, i);
    BelowAndRoot(c);
    LinkedFrame(c, rb', rp', rb'', rp');
    OutsideWider(rb, rb', BelowIds(c), c.tx.txid, t.tx.txid);
    KidsLinkedMore(t, i, rb, rp, rb'', rp');
    assert rb''.Keys == rb.Keys + Ids(c);
    KeysMore(rb0.Keys, rb.Keys, UpTo(t, i), Ids(c), t.tx.txid);
    KeysMore(rp0.Keys, rp.Keys, UpTo(t, i), Ids(c), t.tx.txid);
  }

  lemma KeysMore(k0: set<Txid>, k: set<Txid>, a: set<Txid>, b: set<Txid>, root: Txid)
    requires k == k0 + (a - {root}) && root !in b
    ensures k + b == k0 + (a + b - {root})
  {
  }

  lemma OutsideWider<V>(a: map<Txid, V>, b: map<Txid, V>, ids: set<Txid>, k: Txid, v: V)
    requires SameOutside(a, b, ids)
    ensures SameOutside(a, b[k := v], ids + {k})
  {
  }

  lemma BelowAndRoot(t: RbfTree)
    ensures Ids(t) == BelowIds(t) + {t.tx.txid}
  {
  }

  lemma RebuiltNone(t: RbfTree, rb: map<Txid, Txid>, rp: map<Txid, seq<Txid>>)
    ensures Rebuilt(t, 0, rb, rp, rb, rp)
  {
    UpToNone(t);
  }

  lemma RebuiltAll(t: RbfTree, rb0: map<Txid, Txid>, rp0: map<Txid, seq<Txid>>, rb: map<Txid, Txid>, rp: map<Txid, seq<Txid>>)
    requires Proper(t) && Rebuilt(t, |t.replacing|, rb0, rp0, rb, rp)
    ensures var rp' := rp[t.tx.txid := ChildIds(t)];
            Linked(t, rb, rp') && rp'.Keys == rp0.Keys + Ids(t) && rb.Keys == rb0.Keys + BelowIds(t)
  {
    hide Linked, Proper, Ids, BelowIds, UpTo, ChildIds;
    var rp' := rp[t.tx.txid := ChildIds(t)];
    UpToAll(t);
    BelowAndRoot(t);
    RootNotBelow(t);
    forall i | 0 <= i < |t.replacing| ensures Linked(t.replacing[i], rb, rp') {
      RootApart(t, i);
      LinkedFrame(t.replacing[i], rb, rp, rb, rp');
    }
    LinkedNode(t, rb, rp');
  }

  lemma RestorableRoot(t: RbfTree, treeMap: map<Txid, Txid>, txs: map<Txid, CachedTx>)
    requires Restorable(t, treeMap, txs)
    ensures t.tx.txid !in treeMap && t.tx.txid in txs && Proper(t)
  {
    RootInIds(t);
  }

  lemma EncodesParts(d: Deflated, t: RbfTree)
    requires Encodes(d, t)
    ensures t.tx.txid in d && d[t.tx.txid] == RecordOf(t)
    ensures forall i | 0 <= i < |t.replacing| :: Encodes(d, t.replacing[i])
  {
  }

  lemma OutsideMore<V>(a: map<Txid, V>, b: map<Txid, V>, c: map<Txid, V>, ids: set<Txid>, more: set<Txid>)
    requires SameOutside(a, b, ids) && SameOutside(b, c, more) && more <= ids
    ensures SameOutside(a, c, ids)
  {
  }

  lemma OutsideSet<V>(a: map<Txid, V>, b: map<Txid, V>, ids: set<Txid>, k: Txid, v: V)
    requires SameOutside(a, b, ids) && k in ids
    ensures SameOutside(a, b[k := v], ids)
  {
  }

  lemma OutsideSelf<V>(a: map<Txid, V>, ids: set<Txid>)
    ensures SameOutside(a, a, ids)
  {
  }

  lemma ChildInside(t: RbfTree, i: nat)
    requires i < |t.replacing|
    ensures Ids(t.replacing[i]) <= BelowIds(t) && t.replacing[i].tx.txid in BelowIds(t) && BelowIds(t.replacing[i]) <= BelowIds(t)
    ensures BelowIds(t) <= Ids(t) && Ids(t.replacing[i]) <= Ids(t)
  {
    RootInIds(t.replacing[i]);
    BelowInIds(t.replacing[i]);
  }

  lemma ImportedId(t: RbfTree, treeMap: map<Txid, Txid>, txs: map<Txid, CachedTx>, mined: bool)
    requires Named(txs)
    ensures Imported(t, treeMap, txs, mined).Some? ==>
              Imported(t, treeMap, txs, mined).value.tx.txid == t.tx.txid && Imported(t, treeMap, txs, mined).value.mined == mined
  {
  }

  /** Transactions are stored under their own name. */
  ghost predicate Named(txs: map<Txid, CachedTx>) {
    forall x | x in txs :: txs[x].txid == x
  }

  lemma {:induction false} StoredNames(t: RbfTree, txs: map<Txid, CachedTx>, x: Txid)
    requires Stored(t, txs) && x in Ids(t)
    ensures x in txs && txs[x].txid == x
  {
    if x != t.tx.txid {
      assert x in BelowIds(t);
      var i :| 0 <= i < |t.replacing| && x in Ids(t.replacing[i]);
      StoredNames(t.replacing[i], txs, x);
    }
  }

  lemma StoredUnderName(ix: Index)
    requires Complete(ix)
    ensures Named(ix.txs)
  {
    hide Forest, Ids, Stored;
    forall x | x in ix.txs ensures ix.txs[x].txid == x {
      TreeOf(ix, x);
      TreeAt(ix, ix.treeMap[x]);
      StoredNames(ix.rbfTrees[ix.treeMap[x]], ix.txs, x);
    }
  }

  lemma SurvivorIds(t: RbfTree, treeMap: map<Txid, Txid>, txs: map<Txid, CachedTx>, mined: bool)
    requires Restorable(t, treeMap, txs)
    ensures RootIds(Survivors(t, |t.replacing|, treeMap, txs, mined)) == ChildIds(t)
  {
    SurvivorsAll(t, |t.replacing|, treeMap, txs, mined);
    ClearedSame(t, mined, map[], map[], txs);
    assert Cleared(t, mined).replacing[..|t.replacing|] == Cleared(t, mined).replacing;
  }

  lemma RestoredNone(t: RbfTree, root: Txid, treeMap: map<Txid, Txid>, txs: map<Txid, CachedTx>, mined: bool, rb: map<Txid, Txid>, rp: map<Txid, seq<Txid>>)
    ensures RestoredBy(t, 0, root, treeMap, txs, mined, rb) == rb && RestoredLists(t, 0, root, treeMap, txs, mined, rp) == rp
    ensures Survivors(t, 0, treeMap, txs, mined) == []
    ensures Skipped(t, root, treeMap, txs) ==>
              && RestoredBy(t, |t.replacing|, root, treeMap, txs, mined, rb) == rb && RestoredFrom(t, root, treeMap, txs, mined, rp) == rp
              && Imported(t, treeMap, txs, mined) == None
  {
  }

  lemma RestoredEnd(t: RbfTree, root: Txid, treeMap: map<Txid, Txid>, txs: map<Txid, CachedTx>, mined: bool, rp: map<Txid, seq<Txid>>)
    requires !Skipped(t, root, treeMap, txs)
    ensures var kids := Survivors(t, |t.replacing|, treeMap, txs, mined);
            && RestoredFrom(t, root, treeMap, txs, mined, rp) == RestoredLists(t, |t.replacing|, root, treeMap, txs, mined, rp)[t.tx.txid := RootIds(kids)]
            && Imported(t, treeMap, txs, mined) == if t.tx.txid !in txs then None
                 else Some(RbfTree(Strip(txs[t.tx.txid]).(mined := t.tx.mined), t.time, t.interval, mined, t.fullRbf, kids))
  {
  }

  /** Restores the tree `t` from a dump of it, child before parent. */
  method ImportTree(cache: RbfCache, root: Txid, txid: Txid, deflated: Deflated, txMined: bool, ghost t: RbfTree) returns (out: Option<RbfTree>)
    requires txid == t.tx.txid && Encodes(deflated, t) && Named(cache.txs)
    modifies cache`replacedBy, cache`replacing
    ensures out == Imported(t, cache.treeMap, cache.txs, txMined)
    ensures cache.replacedBy == RestoredBy(t, |t.replacing|, root, cache.treeMap, cache.txs, txMined, old(cache.replacedBy))
    ensures cache.replacing == RestoredFrom(t, root, cache.treeMap, cache.txs, txMined, old(cache.replacing))
    ensures SameOutside(old(cache.replacing), cache.replacing, Ids(t))
    ensures SameOutside(old(cache.replacedBy), cache.replacedBy, BelowIds(t))
    ensures Restorable(t, cache.treeMap, cache.txs) ==>
              && Linked(t, cache.replacedBy, cache.replacing)
              && cache.replacing.Keys == old(cache.replacing.Keys) + Ids(t)
              && cache.replacedBy.Keys == old(cache.replacedBy.Keys) + BelowIds(t)
    decreases t
  {
    hide Ids, BelowIds, Linked, Proper, Stored, UpTo, Encodes, Restorable, Strip, Rebuilt, SameOutside, Named, RootIds, Imported, Survivors, RestoredBy,
         RestoredLists, RestoredFrom, Cleared;
    ghost var rb, rp := cache.replacedBy, cache.replacing;
    ghost var full := Restorable(t, cache.treeMap, cache.txs);
    EncodesParts(deflated, t);
    if full {
      RestorableRoot(t, cache.treeMap, cache.txs);
    }
    OutsideSelf(rb, BelowIds(t));
    OutsideSelf(rp, Ids(t));
    RestoredNone(t, root, cache.treeMap, cache.txs, txMined, rb, rp);
    if (root == txid && txid !in cache.txs) || txid in cache.treeMap {
      return None;
    }
    var treeInfo := deflated[txid];
    var mined := txMined;
    var kids: seq<RbfTree> := [];
    RebuiltNone(t, rb, rp);
    for i := 0 to |treeInfo.replacing|
      invariant mined == txMined
      invariant kids == Survivors(t, i, cache.treeMap, cache.txs, txMined)
      invariant SameOutside(rp, cache.replacing, Ids(t)) && SameOutside(rb, cache.replacedBy, BelowIds(t))
      invariant full ==> Rebuilt(t, i, rb, rp, cache.replacedBy, cache.replacing)
      invariant cache.replacedBy == RestoredBy(t, i, root, cache.treeMap, cache.txs, txMined, rb)
      invariant cache.replacing == RestoredLists(t, i, root, cache.treeMap, cache.txs, txMined, rp)
    {
      ghost var c := t.replacing[i];
      ghost var rb1, rp1 := cache.replacedBy, cache.replacing;
      ChildInside(t, i);
      ImportedId(c, cache.treeMap, cache.txs, mined);
      RestoredNext(t, i, root, cache.treeMap, cache.txs, mined, rb, rp);
      if full {
        RestorableChild(t, i, cache.treeMap, cache.txs);
        ImportedAll(c, cache.treeMap, cache.txs, mined);
      }
      var replaced := ImportTree(cache, root, treeInfo.replacing[i], deflated, mined, c);
      OutsideMore(rp, rp1, cache.replacing, Ids(t), Ids(c));
      OutsideMore(rb, rb1, cache.replacedBy, BelowIds(t), BelowIds(c));
      if full {
        RebuiltMore(t, i, rb, rp, rb1, rp1, cache.replacedBy, cache.replacing);
      }
      if replaced.Some? {
        OutsideSet(rb, cache.replacedBy, BelowIds(t), c.tx.txid, txid);
        cache.replacedBy := cache.replacedBy[replaced.value.tx.txid := txid];
        kids := kids + [replaced.value];
        if replaced.value.mined {
          mined := true;
        }
      }
    }
    if full {
      SurvivorIds(t, cache.treeMap, cache.txs, txMined);
      RebuiltAll(t, rb, rp, cache.replacedBy, cache.replacing);
    }
    RootInIds(t);
    RestoredEnd(t, root, cache.treeMap, cache.txs, mined, rp);
    OutsideSet(rp, cache.replacing, Ids(t), txid, RootIds(kids));
    cache.replacing := cache.replacing[txid := RootIds(kids)];
    if txid !in cache.txs {
      return None;
    }
    out := Some(RbfTree(Strip(cache.txs[txid]).(mined := treeInfo.txMined), treeInfo.time, treeInfo.interval, mined, treeInfo.fullRbf, kids));
  }

  // ---------- a restored cache

  ghost function LoadedIndex(ix: Index, t: RbfTree, rb: map<Txid, Txid>, rp: map<Txid, seq<Txid>>): Index {
    Index(rb, rp, ix.rbfTrees[t.tx.txid := Cleared(t, false)], ix.treeMap + Links(Ids(t), t.tx.txid), ix.txs)
  }

  lemma LoadedForest(ix: Index, t: RbfTree, rb: map<Txid, Txid>, rp: map<Txid, seq<Txid>>)
    requires Forest(ix) && Restorable(t, ix.treeMap, ix.txs) && Flagged(t) && Linked(t, rb, rp)
    requires SameOutside(ix.replacedBy, rb, BelowIds(t)) && SameOutside(ix.replacing, rp, Ids(t))
    requires rb.Keys == ix.replacedBy.Keys + BelowIds(t) && rp.Keys == ix.replacing.Keys + Ids(t)
    ensures Forest(LoadedIndex(ix, t, rb, rp))
  {
    hide Forest, Linked, Flagged, Rooted, Mapped, AllLinked, Covered, AllStored, AllFlagged, SameOutside;
    RestorableRoot(t, ix.treeMap, ix.txs);
    LoadedTrees(ix, t, rb, rp);
    LoadedLinked(ix, t, rb, rp);
    LoadedMapped(ix, t, rb, rp);
    LoadedCovered(ix, t, rb, rp);
    FromParts(LoadedIndex(ix, t, rb, rp));
  }

  lemma LoadedTrees(ix: Index, t: RbfTree, rb: map<Txid, Txid>, rp: map<Txid, seq<Txid>>)
    requires Forest(ix) && Restorable(t, ix.treeMap, ix.txs) && Flagged(t)
    ensures var ix' := LoadedIndex(ix, t, rb, rp); Rooted(ix') && AllStored(ix') && AllFlagged(ix')
  {
    hide Forest, Mapped, AllLinked, Covered, Ids, Proper, Linked, Flagged, Stored, Cleared, Links;
    ForestParts(ix);
    RestorableRoot(t, ix.treeMap, ix.txs);
    ClearedSame(t, false, rb, rp, ix.txs);
  }

  lemma LoadedLinked(ix: Index, t: RbfTree, rb: map<Txid, Txid>, rp: map<Txid, seq<Txid>>)
    requires Forest(ix) && Restorable(t, ix.treeMap, ix.txs) && Linked(t, rb, rp)
    requires SameOutside(ix.replacedBy, rb, BelowIds(t)) && SameOutside(ix.replacing, rp, Ids(t))
    requires rb.Keys == ix.replacedBy.Keys + BelowIds(t)
    ensures AllLinked(LoadedIndex(ix, t, rb, rp))
  {
    hide Forest, Rooted, Mapped, AllStored, AllFlagged, Ids, BelowIds, Proper, Linked, Flagged, Stored, Cleared, Links, SameOutside;
    ForestParts(ix);
    RestorableRoot(t, ix.treeMap, ix.txs);
    RootNotBelow(t);
    BelowInIds(t);
    ClearedSame(t, false, rb, rp, ix.txs);
    forall i | i in ix.rbfTrees ensures Linked(ix.rbfTrees[i], rb, rp) && i !in rb {
      TreeAt(ix, i);
      LoadedOther(ix, t, rb, rp, i);
    }
  }

  lemma LoadedCovered(ix: Index, t: RbfTree, rb: map<Txid, Txid>, rp: map<Txid, seq<Txid>>)
    requires Forest(ix) && rb.Keys == ix.replacedBy.Keys + BelowIds(t) && rp.Keys == ix.replacing.Keys + Ids(t)
    ensures Covered(LoadedIndex(ix, t, rb, rp))
  {
    hide Forest, Ids, BelowIds, Links, Cleared, Mapped, Rooted, AllLinked, AllStored, AllFlagged;
    ForestParts(ix);
    BelowInIds(t);
    LinksAre(Ids(t), t.tx.txid);
  }

  lemma LinksAre(ids: set<Txid>, id: Txid)
    ensures Links(ids, id).Keys == ids && forall x | x in ids :: Links(ids, id)[x] == id
  {
  }

  lemma ClearedIds(t: RbfTree)
    ensures Ids(Cleared(t, false)) == Ids(t) && Cleared(t, false).tx.txid == t.tx.txid && t.tx.txid in Ids(t)
  {
    ClearedSame(t, false, map[], map[], map[]);
    RootInIds(t);
  }

  lemma LoadedMapped(ix: Index, t: RbfTree, rb: map<Txid, Txid>, rp: map<Txid, seq<Txid>>)
    requires Forest(ix) && Ids(t) !! ix.treeMap.Keys
    ensures Mapped(LoadedIndex(ix, t, rb, rp))
  {
    hide Forest, Ids, Cleared, Links, Mapped;
    ClearedIds(t);
    ForestParts(ix);
    if t.tx.txid in ix.rbfTrees {
      TreeAt(ix, t.tx.txid);
    }
    JoinedMapped(ix, Cleared(t, false), rb, rp);
  }

  /** One more tree over new transactions, with an entry for each of them. */
  lemma JoinedMapped(ix: Index, u: RbfTree, rb: map<Txid, Txid>, rp: map<Txid, seq<Txid>>)
    requires Mapped(ix) && Ids(u) !! ix.treeMap.Keys && u.tx.txid in Ids(u) && u.tx.txid !in ix.rbfTrees
    ensures Mapped(Index(rb, rp, ix.rbfTrees[u.tx.txid := u], ix.treeMap + Links(Ids(u), u.tx.txid), ix.txs))
  {
    hide Ids, Mapped, Links;
    var id := u.tx.txid;
    var trees, at := ix.rbfTrees[id := u], ix.treeMap + Links(Ids(u), id);
    LinkKeys(Ids(u), id);
    forall x | x in at ensures at[x] in trees && x in Ids(trees[at[x]]) {
      if x in Ids(u) {
        LinkAt(Ids(u), id, x);
      } else {
        MappedTo(ix, x);
      }
    }
    forall i, x | i in trees && x in Ids(trees[i]) ensures x in at && at[x] == i {
      if i != id {
        MappedFrom(ix, i, x);
      } else {
        LinkAt(Ids(u), id, x);
      }
    }
    MakeMapped(Index(rb, rp, trees, at, ix.txs));
  }

  lemma LinkKeys(ids: set<Txid>, id: Txid)
    ensures Links(ids, id).Keys == ids
  {
  }

  lemma LinkAt(ids: set<Txid>, id: Txid, x: Txid)
    requires x in ids
    ensures x in Links(ids, id) && Links(ids, id)[x] == id
  {
  }

  lemma MappedTo(ix: Index, x: Txid)
    requires Mapped(ix) && x in ix.treeMap
    ensures ix.treeMap[x] in ix.rbfTrees && x in Ids(ix.rbfTrees[ix.treeMap[x]])
  {
    hide Ids;
  }

  lemma MappedFrom(ix: Index, i: Txid, x: Txid)
    requires Mapped(ix) && i in ix.rbfTrees && x in Ids(ix.rbfTrees[i])
    ensures x in ix.treeMap && ix.treeMap[x] == i
  {
    hide Ids;
  }

  lemma MakeMapped(ix: Index)
    requires forall x | x in ix.treeMap :: ix.treeMap[x] in ix.rbfTrees && x in Ids(ix.rbfTrees[ix.treeMap[x]])
    requires forall i, x | i in ix.rbfTrees && x in Ids(ix.rbfTrees[i]) :: x in ix.treeMap && ix.treeMap[x] == i
    ensures Mapped(ix)
  {
    hide Ids;
  }

  lemma LoadedOther(ix: Index, t: RbfTree, rb: map<Txid, Txid>, rp: map<Txid, seq<Txid>>, i: Txid)
    requires Forest(ix) && Ids(t) !! ix.treeMap.Keys && i in ix.rbfTrees
    requires SameOutside(ix.replacedBy, rb, BelowIds(t)) && SameOutside(ix.replacing, rp, Ids(t))
    ensures Linked(ix.rbfTrees[i], rb, rp) && forall x | x in Ids(ix.rbfTrees[i]) :: x !in Ids(t)
  {
    hide Forest, Ids, BelowIds, Proper, Linked, Flagged, Stored;
    var u := ix.rbfTrees[i];
    TreeAt(ix, i);
    forall x | x in Ids(u) ensures x !in Ids(t) {
      InTree(ix, i, x);
    }
    BelowInIds(t);
    BelowInIds(u);
    LinkedFrame(u, ix.replacedBy, ix.replacing, rb, rp);
  }

  /** Restores one tree of a dump into the cache. */
  method LoadTree(cache: RbfCache, root: Txid, deflated: Deflated, ghost t: RbfTree)
    requires root == t.tx.txid && Encodes(deflated, t) && Named(cache.txs) && Forest(cache.Indexes())
    modifies cache
    ensures cache.txs == old(cache.txs) && cache.expiring == old(cache.expiring)
    ensures old(Restorable(t, cache.treeMap, cache.txs)) && Flagged(t) ==>
              && Forest(cache.Indexes())
              && cache.rbfTrees == old(cache.rbfTrees)[root := Cleared(t, false)]
              && cache.treeMap == old(cache.treeMap) + Links(Ids(t), root)
  {
    hide Forest, Ids, BelowIds, Proper, Linked, Flagged, Stored, Encodes, Restorable, Cleared, Named, SameOutside, Links, Imported, Rebuilt;
    ghost var ix := cache.Indexes();
    var tree := ImportTree(cache, root, root, deflated, false, t);
    ImportedId(t, cache.treeMap, cache.txs, false);
    if Restorable(t, cache.treeMap, cache.txs) {
      ImportedAll(t, cache.treeMap, cache.txs, false);
      ClearedSame(t, false, map[], map[], cache.txs);
      if Flagged(t) {
        LoadedForest(ix, t, cache.replacedBy, cache.replacing);
      }
    }
    if tree.Some? {
      assert !tree.value.mined;
      cache.rbfTrees := cache.rbfTrees[tree.value.tx.txid := tree.value];
      cache.UpdateTreeMap(tree.value.tx.txid, tree.value);
    }
  }

  /** One dump for every tree of the cache, in any order. */
  ghost predicate Dumps(dumps: seq<(Txid, Deflated)>, trees: map<Txid, RbfTree>) {
    && (forall i | 0 <= i < |dumps| :: dumps[i].0 in trees && Encodes(dumps[i].1, trees[dumps[i].0]))
    && (forall i, j | 0 <= i < j < |dumps| :: dumps[i].0 != dumps[j].0)
    && (forall id | id in trees :: exists i | 0 <= i < |dumps| :: dumps[i].0 == id)
  }

  /** What is saved: the stored transactions, a dump of every tree, and the expiry times. */
  method Dump(cache: RbfCache) returns (txs: map<Txid, CachedTx>, dumps: seq<(Txid, Deflated)>, expiring: map<Txid, int>)
    requires Forest(cache.Indexes())
    ensures txs == cache.txs && Dumps(dumps, cache.rbfTrees) && expiring == cache.expiring
  {
    hide Forest, Encodes;
    txs, dumps, expiring := cache.txs, [], cache.expiring;
    var todo := cache.rbfTrees.Keys;
    while todo != {}
      invariant todo <= cache.rbfTrees.Keys
      invariant forall i | 0 <= i < |dumps| :: dumps[i].0 in cache.rbfTrees && dumps[i].0 !in todo && Encodes(dumps[i].1, cache.rbfTrees[dumps[i].0])
      invariant forall i, j | 0 <= i < j < |dumps| :: dumps[i].0 != dumps[j].0
      invariant forall id | id in cache.rbfTrees && id !in todo :: exists i | 0 <= i < |dumps| :: dumps[i].0 == id
    {
      var id :| id in todo;
      TreeAt(cache.Indexes(), id);
      var d := ExportTree(cache.rbfTrees[id], map[]);
      ghost var was := dumps;
      dumps := dumps + [(id, d)];
      todo := todo - {id};
      assert dumps[|dumps| - 1].0 == id;
      assert forall i | 0 <= i < |was| :: dumps[i] == was[i];
    }
  }

  lemma EmptyForest(txs: map<Txid, CachedTx>)
    ensures Forest(Index(map[], map[], map[], map[], txs))
  {
  }

  lemma StillRestorable(ix: Index, was: Index, id: Txid)
    requires Forest(ix) && Forest(was) && was.txs == ix.txs && id in ix.rbfTrees && id !in was.rbfTrees
    requires forall x | x in was.treeMap :: x in ix.treeMap && ix.treeMap[x] == was.treeMap[x]
    ensures Restorable(ix.rbfTrees[id], was.treeMap, was.txs) && Flagged(ix.rbfTrees[id]) && ix.rbfTrees[id].tx.txid == id
  {
    hide Forest, Ids, Proper, Linked, Flagged, Stored;
    TreeAt(ix, id);
    forall x | x in Ids(ix.rbfTrees[id]) ensures x !in was.treeMap {
      InTree(ix, id, x);
      if x in was.treeMap {
        TreeOf(was, x);
      }
    }
  }

  lemma LoadedMap(ix: Index, id: Txid)
    requires Forest(ix) && id in ix.rbfTrees
    ensures forall x | x in Links(Ids(ix.rbfTrees[id]), id) :: x in ix.treeMap && ix.treeMap[x] == Links(Ids(ix.rbfTrees[id]), id)[x]
  {
    hide Forest, Ids;
    forall x | x in Ids(ix.rbfTrees[id]) ensures x in ix.treeMap && ix.treeMap[x] == id {
      InTree(ix, id, x);
    }
  }

  lemma SameMap(ix: Index, now: Index)
    requires Forest(ix) && Forest(now) && now.rbfTrees.Keys == ix.rbfTrees.Keys
    requires forall id | id in ix.rbfTrees :: now.rbfTrees[id] == Cleared(ix.rbfTrees[id], false)
    requires forall x | x in now.treeMap :: x in ix.treeMap && ix.treeMap[x] == now.treeMap[x]
    ensures now.treeMap == ix.treeMap
  {
    hide Forest, Ids, Cleared;
    forall x | x in ix.treeMap ensures x in now.treeMap {
      TreeOf(ix, x);
      var id := ix.treeMap[x];
      ClearedSame(ix.rbfTrees[id], false, map[], map[], map[]);
      InTree(now, id, x);
    }
  }

  /** A cache restored from the dumps of a forest holds the same trees, except for the marks of
      whole trees and `fullRbf` of single transactions. */
  method Load(txs: map<Txid, CachedTx>, dumps: seq<(Txid, Deflated)>, expiring: map<Txid, int>, ghost ix: Index) returns (cache: RbfCache)
    requires Complete(ix) && ix.txs == txs && Dumps(dumps, ix.rbfTrees)
    ensures fresh(cache) && cache.Valid()
    ensures cache.rbfTrees.Keys == ix.rbfTrees.Keys && forall id | id in ix.rbfTrees :: cache.rbfTrees[id] == Cleared(ix.rbfTrees[id], false)
    ensures forall id | id in ix.rbfTrees :: SavedAlike(cache.rbfTrees[id], ix.rbfTrees[id])
    ensures cache.treeMap == ix.treeMap && cache.txs == txs
    ensures cache.expiring == map x | x in expiring && x in txs :: expiring[x]
  {
    hide Forest, Ids, BelowIds, Proper, Linked, Flagged, Stored, Encodes, Cleared, SavedAlike, Named, Links, Restorable, Dumps, LoadedSome;
    StoredUnderName(ix);
    cache := new RbfCache();
    cache.txs := txs;
    EmptyForest(txs);
    NoneLoaded(ix, dumps);
    for i := 0 to |dumps|
      invariant fresh(cache) && cache.expiring == map[] && cache.txs == txs && LoadedSome(ix, cache.Indexes(), dumps, i)
    {
      ghost var was := cache.Indexes();
      NextDump(ix, was, dumps, i);
      LoadTree(cache, dumps[i].0, dumps[i].1, ix.rbfTrees[dumps[i].0]);
      LoadedMore(ix, was, cache.Indexes(), dumps, i);
    }
    LoadedAll(ix, cache.Indexes(), dumps);
    cache.expiring := map x | x in expiring && x in txs :: expiring[x];
    forall id | id in ix.rbfTrees ensures SavedAlike(cache.rbfTrees[id], ix.rbfTrees[id]) {
      ClearedAlike(ix.rbfTrees[id], false);
    }
  }

  /** The first `i` trees of the dump are in the cache. */
  ghost predicate LoadedSome(ix: Index, now: Index, dumps: seq<(Txid, Deflated)>, i: nat)
    requires i <= |dumps|
  {
    && Forest(now) && now.txs == ix.txs
    && (forall id :: id in now.rbfTrees <==> exists j | 0 <= j < i :: dumps[j].0 == id)
    && (forall id | id in now.rbfTrees :: id in ix.rbfTrees && now.rbfTrees[id] == Cleared(ix.rbfTrees[id], false))
    && (forall x | x in now.treeMap :: x in ix.treeMap && ix.treeMap[x] == now.treeMap[x])
  }

  lemma NoneLoaded(ix: Index, dumps: seq<(Txid, Deflated)>)
    requires Forest(Index(map[], map[], map[], map[], ix.txs))
    ensures LoadedSome(ix, Index(map[], map[], map[], map[], ix.txs), dumps, 0)
  {
    hide Forest;
  }

  lemma NextDump(ix: Index, was: Index, dumps: seq<(Txid, Deflated)>, i: nat)
    requires Forest(ix) && Dumps(dumps, ix.rbfTrees) && i < |dumps| && LoadedSome(ix, was, dumps, i)
    ensures var id := dumps[i].0;
            && id in ix.rbfTrees && Encodes(dumps[i].1, ix.rbfTrees[id]) && Forest(was) && was.txs == ix.txs
            && Restorable(ix.rbfTrees[id], was.treeMap, was.txs) && Flagged(ix.rbfTrees[id]) && ix.rbfTrees[id].tx.txid == id
  {
    hide Forest, Encodes, Restorable, Flagged, Cleared;
    StillRestorable(ix, was, dumps[i].0);
  }

  lemma LoadedMore(ix: Index, was: Index, now: Index, dumps: seq<(Txid, Deflated)>, i: nat)
    requires Forest(ix) && Dumps(dumps, ix.rbfTrees) && i < |dumps| && LoadedSome(ix, was, dumps, i)
    requires var id := dumps[i].0;
             && Forest(now) && now.txs == was.txs
             && now.rbfTrees == was.rbfTrees[id := Cleared(ix.rbfTrees[id], false)]
             && now.treeMap == was.treeMap + Links(Ids(ix.rbfTrees[id]), id)
    ensures LoadedSome(ix, now, dumps, i + 1)
  {
    hide Forest, Dumps, Cleared, Ids, Links;
    NextDump(ix, was, dumps, i);
    LoadedMap(ix, dumps[i].0);
    OneMoreId(was.rbfTrees.Keys, dumps, i);
    assert now.rbfTrees.Keys == was.rbfTrees.Keys + {dumps[i].0};
    OneMoreTree(ix.rbfTrees, was.rbfTrees, dumps[i].0);
    MoreEntries(ix.treeMap, was.treeMap, Links(Ids(ix.rbfTrees[dumps[i].0]), dumps[i].0));
  }

  lemma OneMoreTree(all: map<Txid, RbfTree>, was: map<Txid, RbfTree>, id: Txid)
    requires id in all && forall i | i in was :: i in all && was[i] == Cleared(all[i], false)
    ensures var now := was[id := Cleared(all[id], false)]; forall i | i in now :: i in all && now[i] == Cleared(all[i], false)
  {
    hide Cleared;
  }

  lemma MoreEntries(all: map<Txid, Txid>, was: map<Txid, Txid>, more: map<Txid, Txid>)
    requires forall x | x in was :: x in all && all[x] == was[x]
    requires forall x | x in more :: x in all && all[x] == more[x]
    ensures forall x | x in was + more :: x in all && all[x] == (was + more)[x]
  {
  }

  lemma OneMoreId(ids: set<Txid>, dumps: seq<(Txid, Deflated)>, i: nat)
    requires i < |dumps| && forall id :: id in ids <==> exists j | 0 <= j < i :: dumps[j].0 == id
    ensures forall id :: id in ids + {dumps[i].0} <==> exists j | 0 <= j < i + 1 :: dumps[j].0 == id
  {
    forall id ensures id in ids + {dumps[i].0} <==> exists j | 0 <= j < i + 1 :: dumps[j].0 == id {
      if id in ids {
        var j :| 0 <= j < i && dumps[j].0 == id;
      }
      if j :| 0 <= j < i + 1 && dumps[j].0 == id && j != i {
        assert id in ids;
      }
    }
  }

  lemma LoadedAll(ix: Index, now: Index, dumps: seq<(Txid, Deflated)>)
    requires Complete(ix) && Dumps(dumps, ix.rbfTrees) && LoadedSome(ix, now, dumps, |dumps|)
    ensures Complete(now) && now.rbfTrees.Keys == ix.rbfTrees.Keys && now.treeMap == ix.treeMap
    ensures forall id | id in ix.rbfTrees :: now.rbfTrees[id] == Cleared(ix.rbfTrees[id], false)
  {
    hide Forest, Encodes, Cleared;
    SameMap(ix, now);
  }
}
