/** How the queues of the template builder follow the scores: an array in the order of the first
    scores, and a heap of transactions whose score has changed since. */
module TxQueues {
  import opened Options
  import opened Feerate
  import opened Graph
  import opened Extraction
  import opened AuditPool
  import opened MiniMiner
  import opened SetSize
  import Heaps = PairingHeap

  // ---------- comparing scores

  /** Higher score first, then the later transaction. */
  predicate Beats(fee: map<Txid, int>, size: map<Txid, int>, order: map<Txid, nat>, a: Txid, b: Txid) {
    ComesBefore(At(fee, a), At(size, a), -At(order, a), At(fee, b), At(size, b), -At(order, b))
  }

  function ByScores(fee: map<Txid, int>, size: map<Txid, int>, order: map<Txid, nat>): Heaps.Comparator<Txid> {
    (a: Txid, b: Txid) => Beats(fee, size, order, a, b)
  }

  ghost predicate Sized(size: map<Txid, int>, keys: set<Txid>) {
    forall x | x in keys :: 0 < At(size, x)
  }

  lemma ByScoresAsymmetric(fee: map<Txid, int>, size: map<Txid, int>, order: map<Txid, nat>)
    ensures Heaps.Asymmetric(ByScores(fee, size, order))
  {
    var higher := ByScores(fee, size, order);
    forall a, b | higher(a, b) ensures !higher(b, a) {
      NotBothHigher(At(fee, a), At(size, a), At(fee, b), At(size, b));
    }
  }

  lemma ByScoresWeak(fee: map<Txid, int>, size: map<Txid, int>, order: map<Txid, nat>, keys: set<Txid>)
    requires Sized(size, keys)
    ensures Heaps.WeakOn(ByScores(fee, size, order), keys)
  {
    hide ComesBefore;
    forall a, b, c | a in keys && b in keys && c in keys && !Beats(fee, size, order, a, b) && !Beats(fee, size, order, b, c)
      ensures !Beats(fee, size, order, a, c)
    {
      ComesBeforeWeak(At(fee, a), At(size, a), -At(order, a), At(fee, b), At(size, b), -At(order, b), At(fee, c), At(size, c), -At(order, c));
    }
  }

  /** At a rate that is the same, all comparisons are. */
  lemma SameRate(f: int, w: int, f': int, w': int, g: int, v: int)
    requires 0 < w && 0 < w' && 0 < v && !Higher(f, w, f', w') && !Higher(f', w', f, w)
    ensures Higher(f, w, g, v) == Higher(f', w', g, v) && Higher(g, v, f, w) == Higher(g, v, f', w')
  {
    if !Higher(f', w', g, v) {
      NotHigherTrans(f, w, f', w', g, v);
    }
    if !Higher(f, w, g, v) {
      NotHigherTrans(f', w', f, w, g, v);
    }
    if !Higher(g, v, f', w') {
      NotHigherTrans(g, v, f', w', f, w);
    }
    if !Higher(g, v, f, w) {
      NotHigherTrans(g, v, f, w, f', w');
    }
  }

  /** Whoever did not come before does not after the rate has risen. */
  lemma RisenRate(f: int, w: int, f': int, w': int, o: int, g: int, v: int, p: int)
    requires 0 < w && 0 < w' && 0 < v && Higher(f', w', f, w) && !ComesBefore(g, v, p, f, w, o)
    ensures !ComesBefore(g, v, p, f', w', o)
  {
    NotBothHigher(f', w', f, w);
    if Higher(g, v, f', w') {
      HigherTransRight(g, v, f', w', f, w);
    } else if !Higher(f', w', g, v) {
      HigherTransLeft(g, v, f', w', f, w);
    }
  }

  // ---------- the heap and its nodes

  /** The heap, the number for the next node, and the node that each transaction knows. */
  datatype Queue = Queue(root: Option<Heaps.Node<Txid>>, nextId: nat, nodes: map<Txid, nat>)

  ghost predicate GoodQueue(q: Queue) {
    && Heaps.IsHeap(q.root) && (forall k | k in Heaps.HeapEntries(q.root) :: k < q.nextId)
    && Noted(q.nodes, Heaps.HeapEntries(q.root))
  }

  /** A node that a transaction knows is in the heap and holds it. */
  ghost predicate Noted(nodes: map<Txid, nat>, entries: map<nat, Txid>) {
    forall x | x in nodes :: nodes[x] in entries && entries[nodes[x]] == x
  }

  /** Some node holds `x` without its knowing. */
  ghost predicate Lost(nodes: map<Txid, nat>, entries: map<nat, Txid>, x: Txid) {
    exists k | k in entries :: entries[k] == x && !(x in nodes && nodes[x] == k)
  }

  /** A transaction whose score changed enters the heap, or its node is put in its place. */
  function Moved(q: Queue, x: Txid, fee: map<Txid, int>, size: map<Txid, int>, fee': map<Txid, int>, size': map<Txid, int>, order: map<Txid, nat>): Queue {
    var higher := ByScores(fee', size', order);
    if x !in q.nodes then
      Queue(Heaps.Meld(higher, q.root, Some(Heaps.Node(q.nextId, x, []))), q.nextId + 1, q.nodes[x := q.nextId])
    else if q.root.None? then q
    else if Higher(At(fee, x), At(size, x), At(fee', x), At(size', x)) then
      q.(root := Heaps.Lowered(higher, q.root.value, q.nodes[x]))
    else if Higher(At(fee', x), At(size', x), At(fee, x), At(size, x)) then
      q.(root := Some(Heaps.Raised(higher, q.root.value, q.nodes[x])))
    else q
  }

  /** The scores when those of `changed` are the new ones. */
  function Updated(m: map<Txid, int>, m': map<Txid, int>, changed: seq<Txid>): map<Txid, int> {
    if changed == [] then m
    else Updated(m, m', changed[..|changed| - 1])[changed[|changed| - 1] := At(m', changed[|changed| - 1])]
  }

  /** The queue after the scores of `changed` changed one after the other. */
  function Rebalanced(q: Queue, changed: seq<Txid>, fee: map<Txid, int>, size: map<Txid, int>, fee': map<Txid, int>, size': map<Txid, int>,
                      order: map<Txid, nat>): Queue {
    if changed == [] then q
    else
      var n := |changed| - 1;
      Moved(Rebalanced(q, changed[..n], fee, size, fee', size', order), changed[n],
            Updated(fee, fee', changed[..n]), Updated(size, size', changed[..n]), Updated(fee, fee', changed), Updated(size, size', changed), order)
  }

  ghost predicate InOrder(q: Queue, fee: map<Txid, int>, size: map<Txid, int>, order: map<Txid, nat>) {
    Heaps.InOrder(ByScores(fee, size, order), q.root)
  }

  /** Only the score of `x` is another one. */
  ghost predicate OneChanged(keys: set<Txid>, x: Txid, fee: map<Txid, int>, size: map<Txid, int>, fee': map<Txid, int>, size': map<Txid, int>) {
    && x in keys && Sized(size, keys) && Sized(size', keys)
    && forall y | y in keys && y != x :: At(fee', y) == At(fee, y) && At(size', y) == At(size, y)
  }

  ghost predicate HoldsKeys(q: Queue, keys: set<Txid>) {
    forall k | k in Heaps.HeapEntries(q.root) :: Heaps.HeapEntries(q.root)[k] in keys
  }

  lemma MovedGood(q: Queue, x: Txid, fee: map<Txid, int>, size: map<Txid, int>, fee': map<Txid, int>, size': map<Txid, int>, order: map<Txid, nat>)
    requires GoodQueue(q)
    ensures GoodQueue(Moved(q, x, fee, size, fee', size', order))
    ensures var q', entries := Moved(q, x, fee, size, fee', size', order), Heaps.HeapEntries(q.root);
            && Heaps.HeapEntries(q'.root) == (if x in q.nodes then entries else entries[q.nextId := x])
            && q'.nodes == (if x in q.nodes then q.nodes else q.nodes[x := q.nextId]) && (x !in q.nodes ==> q.nextId !in entries)
  {
    hide Beats, Heaps.Entries, Heaps.Proper, Heaps.Meld, Heaps.Lowered, Heaps.Raised, Heaps.MeldNodes;
    var higher := ByScores(fee', size', order);
    if x !in q.nodes {
      Heaps.SingleHolds(q.nextId, x);
      var single := Heaps.Node(q.nextId, x, []);
      Heaps.SingleIsHeap(single);
      Heaps.MeldHolds(higher, q.root, Some(single));
    } else if q.root.Some? {
      Heaps.LoweredHolds(higher, q.root.value, q.nodes[x]);
      Heaps.RaisedHolds(higher, q.root.value, q.nodes[x]);
    }
  }

  /** As long as no node of the transaction is lost, the heap stays in order. */
  lemma MovedOrder(keys: set<Txid>, q: Queue, x: Txid, fee: map<Txid, int>, size: map<Txid, int>, fee': map<Txid, int>, size': map<Txid, int>, order: map<Txid, nat>)
    requires GoodQueue(q) && HoldsKeys(q, keys) && OneChanged(keys, x, fee, size, fee', size') && !Lost(q.nodes, Heaps.HeapEntries(q.root), x)
    requires InOrder(q, fee, size, order)
    ensures InOrder(Moved(q, x, fee, size, fee', size', order), fee', size', order)
  {
    hide Beats, Heaps.Proper, Heaps.Ordered, Heaps.Meld, Heaps.Lowered, Heaps.Raised, Heaps.MeldNodes, Heaps.Entries;
    var higher, higher' := ByScores(fee, size, order), ByScores(fee', size', order);
    ByScoresAsymmetric(fee', size', order);
    if q.root.Some? {
      var n := q.root.value;
      if x !in q.nodes {
        AgreeBut(keys, q, x, {}, fee, size, fee', size', order);
        Heaps.Rescored(higher, higher', n, {});
      } else {
        var id := q.nodes[x];
        AgreeBut(keys, q, x, {id}, fee, size, fee', size', order);
        Heaps.Rescored(higher, higher', n, {id});
        if Higher(At(fee, x), At(size, x), At(fee', x), At(size', x)) {
          Heaps.LoweredOrdered(higher', n, id);
        } else if Higher(At(fee', x), At(size', x), At(fee, x), At(size, x)) {
          Risen(keys, q, x, fee, size, fee', size', order);
          Heaps.StillAbove(higher, higher', n, id);
          Heaps.RaisedOrdered(higher', n, id);
        } else {
          AgreeAll(keys, q, x, fee, size, fee', size', order);
          Heaps.Rescored(higher, higher', n, {});
        }
      }
    }
    if x !in q.nodes {
      var single := Heaps.Node(q.nextId, x, []);
      SingleOrdered(higher', single);
      Heaps.MeldOrdered(higher', q.root, Some(single));
    }
  }

  lemma SingleOrdered(higher: Heaps.Comparator<Txid>, n: Heaps.Node<Txid>)
    requires n.children == []
    ensures Heaps.InOrder(higher, Some(n))
  {
  }

  /** Without the nodes of `x` nothing changed. */
  lemma AgreeBut(keys: set<Txid>, q: Queue, x: Txid, except: set<nat>, fee: map<Txid, int>, size: map<Txid, int>, fee': map<Txid, int>, size': map<Txid, int>,
                 order: map<Txid, nat>)
    requires q.root.Some? && HoldsKeys(q, keys) && OneChanged(keys, x, fee, size, fee', size') && !Lost(q.nodes, Heaps.HeapEntries(q.root), x)
    requires x in q.nodes ==> q.nodes[x] in except
    ensures Heaps.Agree(ByScores(fee, size, order), ByScores(fee', size', order), Heaps.Entries(q.root.value), except)
  {
    hide ComesBefore, Heaps.Entries;
    var all := Heaps.Entries(q.root.value);
    assert Heaps.HeapEntries(q.root) == all;
    assert forall k | k in all && k !in except :: all[k] != x && all[k] in keys;
  }

  lemma AgreeAll(keys: set<Txid>, q: Queue, x: Txid, fee: map<Txid, int>, size: map<Txid, int>, fee': map<Txid, int>, size': map<Txid, int>, order: map<Txid, nat>)
    requires q.root.Some? && HoldsKeys(q, keys) && OneChanged(keys, x, fee, size, fee', size')
    requires !Higher(At(fee, x), At(size, x), At(fee', x), At(size', x)) && !Higher(At(fee', x), At(size', x), At(fee, x), At(size, x))
    ensures Heaps.Agree(ByScores(fee, size, order), ByScores(fee', size', order), Heaps.Entries(q.root.value), {})
  {
    hide Higher, Heaps.Entries;
    var all := Heaps.Entries(q.root.value);
    assert Heaps.HeapEntries(q.root) == all;
    forall a, b | a in keys && b in keys ensures Beats(fee, size, order, a, b) == Beats(fee', size', order, a, b) {
      SameRate(At(fee, x), At(size, x), At(fee', x), At(size', x), At(fee, a), At(size, a));
      SameRate(At(fee, x), At(size, x), At(fee', x), At(size', x), At(fee, b), At(size, b));
      SameRate(At(fee, x), At(size, x), At(fee', x), At(size', x), At(fee', x), At(size', x));
    }
  }

  /** What does not beat `x` does not beat it at its new score. */
  lemma Risen(keys: set<Txid>, q: Queue, x: Txid, fee: map<Txid, int>, size: map<Txid, int>, fee': map<Txid, int>, size': map<Txid, int>, order: map<Txid, nat>)
    requires q.root.Some? && GoodQueue(q) && x in q.nodes && HoldsKeys(q, keys) && OneChanged(keys, x, fee, size, fee', size')
    requires Higher(At(fee', x), At(size', x), At(fee, x), At(size, x))
    ensures var all, id := Heaps.Entries(q.root.value), q.nodes[x];
            id in all && forall k | k in all && !ByScores(fee, size, order)(all[k], all[id]) :: !ByScores(fee', size', order)(all[k], all[id])
  {
    hide ComesBefore, Higher, Heaps.Entries, Heaps.Proper;
    var all, id := Heaps.Entries(q.root.value), q.nodes[x];
    assert Heaps.HeapEntries(q.root) == all;
    forall k | k in all && !Beats(fee, size, order, all[k], x) ensures !Beats(fee', size', order, all[k], x) {
      if all[k] == x {
        NotBeforeItself(At(fee', x), At(size', x), -At(order, x));
      } else {
        RisenRate(At(fee, x), At(size, x), At(fee', x), At(size', x), -At(order, x), At(fee, all[k]), At(size, all[k]), -At(order, all[k]));
      }
    }
  }

  lemma NotBeforeItself(f: int, w: int, o: int)
    ensures !ComesBefore(f, w, o, f, w, o)
  {
    NotBothHigher(f, w, f, w);
  }

  /** What a queue has become by taking in `changed`. */
  ghost predicate Grown(q: Queue, q': Queue, changed: seq<Txid>) {
    var entries, entries' := Heaps.HeapEntries(q.root), Heaps.HeapEntries(q'.root);
    && q'.nodes.Keys == q.nodes.Keys + Elems(changed)
    && (forall k | k in entries :: k in entries' && entries'[k] == entries[k])
    && (forall k | k in entries' && k !in entries :: entries'[k] in changed)
    && (forall x | Lost(q'.nodes, entries', x) :: Lost(q.nodes, entries, x))
    && |entries'| <= |entries| + |changed|
  }

  lemma {:induction false} RebalancedGood(q: Queue, changed: seq<Txid>, fee: map<Txid, int>, size: map<Txid, int>, fee': map<Txid, int>, size': map<Txid, int>,
                                          order: map<Txid, nat>)
    requires GoodQueue(q)
    ensures GoodQueue(Rebalanced(q, changed, fee, size, fee', size', order)) && Grown(q, Rebalanced(q, changed, fee, size, fee', size', order), changed)
  {
    hide Moved, GoodQueue, Grown, Updated, Rebalanced;
    RebalancedEnd(q, changed, fee, size, fee', size', order);
    if changed == [] {
      GrownNone(q);
    } else {
      var n := |changed| - 1;
      var q1 := Rebalanced(q, changed[..n], fee, size, fee', size', order);
      RebalancedGood(q, changed[..n], fee, size, fee', size', order);
      var x, f, s, f', s' := changed[n], Updated(fee, fee', changed[..n]), Updated(size, size', changed[..n]), Updated(fee, fee', changed), Updated(size, size', changed);
      MovedGood(q1, x, f, s, f', s', order);
      assert changed == changed[..n] + [x];
      GrownMore(q, q1, Moved(q1, x, f, s, f', s', order), changed[..n], x);
    }
  }

  lemma RebalancedEnd(q: Queue, changed: seq<Txid>, fee: map<Txid, int>, size: map<Txid, int>, fee': map<Txid, int>, size': map<Txid, int>,
                      order: map<Txid, nat>)
    ensures changed == [] ==> Rebalanced(q, changed, fee, size, fee', size', order) == q
    ensures changed != [] ==>
              var n := |changed| - 1;
              Rebalanced(q, changed, fee, size, fee', size', order)
              == Moved(Rebalanced(q, changed[..n], fee, size, fee', size', order), changed[n],
                       Updated(fee, fee', changed[..n]), Updated(size, size', changed[..n]), Updated(fee, fee', changed), Updated(size, size', changed), order)
  {
    hide Moved, Updated;
  }

  lemma GrownNone(q: Queue)
    ensures Grown(q, q, [])
  {
  }

  lemma GrownMore(q: Queue, q1: Queue, q2: Queue, changed: seq<Txid>, x: Txid)
    requires Grown(q, q1, changed)
    requires var entries := Heaps.HeapEntries(q1.root);
             && Heaps.HeapEntries(q2.root) == (if x in q1.nodes then entries else entries[q1.nextId := x])
             && q2.nodes == (if x in q1.nodes then q1.nodes else q1.nodes[x := q1.nextId]) && (x !in q1.nodes ==> q1.nextId !in entries)
    ensures Grown(q, q2, changed + [x])
  {
    hide Heaps.HeapEntries;
    ElemsConcat(changed, [x]);
    var entries, entries1, entries2 := Heaps.HeapEntries(q.root), Heaps.HeapEntries(q1.root), Heaps.HeapEntries(q2.root);
    forall k | k in entries2 && k !in entries ensures entries2[k] in changed + [x] {
      if k in entries1 {
        assert entries1[k] in changed;
      }
    }
    forall y | Lost(q2.nodes, entries2, y) ensures Lost(q.nodes, entries, y) {
      var k :| k in entries2 && entries2[k] == y && !(y in q2.nodes && q2.nodes[y] == k);
      assert k in entries1 && Lost(q1.nodes, entries1, y);
    }
  }

  lemma {:induction false} UpdatedAt(m: map<Txid, int>, m': map<Txid, int>, changed: seq<Txid>, x: Txid)
    ensures At(Updated(m, m', changed), x) == if x in changed then At(m', x) else At(m, x)
  {
    if changed != [] {
      UpdatedAt(m, m', changed[..|changed| - 1], x);
      assert changed == changed[..|changed| - 1] + [changed[|changed| - 1]];
    }
  }

  lemma UpdatedSized(size: map<Txid, int>, size': map<Txid, int>, changed: seq<Txid>, keys: set<Txid>)
    requires Sized(size, keys) && Sized(size', keys)
    ensures Sized(Updated(size, size', changed), keys)
  {
    forall x | x in keys ensures 0 < At(Updated(size, size', changed), x) {
      UpdatedAt(size, size', changed, x);
    }
  }

  /** Unless one of those whose score changes has a lost node, the heap stays in order. */
  lemma {:induction false} RebalancedOrder(keys: set<Txid>, q: Queue, changed: seq<Txid>, fee: map<Txid, int>, size: map<Txid, int>,
                                           fee': map<Txid, int>, size': map<Txid, int>, order: map<Txid, nat>)
    requires GoodQueue(q) && HoldsKeys(q, keys) && Elems(changed) <= keys && Sized(size, keys) && Sized(size', keys)
    requires InOrder(q, fee, size, order) && forall x | x in changed :: !Lost(q.nodes, Heaps.HeapEntries(q.root), x)
    ensures InOrder(Rebalanced(q, changed, fee, size, fee', size', order), Updated(fee, fee', changed), Updated(size, size', changed), order)
  {
    hide Moved, GoodQueue, InOrder, Lost, Sized;
    if changed != [] {
      var n := |changed| - 1;
      var before, x := changed[..n], changed[n];
      assert changed == before + [x];
      ElemsConcat(before, [x]);
      assert x in Elems(changed);
      RebalancedOrder(keys, q, before, fee, size, fee', size', order);
      RebalancedGood(q, before, fee, size, fee', size', order);
      var q1 := Rebalanced(q, before, fee, size, fee', size', order);
      UpdatedSized(size, size', before, keys);
      UpdatedSized(size, size', changed, keys);
      StillKeys(keys, q, q1, before);
      OneUpdated(keys, before, x, fee, size, fee', size');
      MovedOrder(keys, q1, x, Updated(fee, fee', before), Updated(size, size', before), Updated(fee, fee', changed), Updated(size, size', changed), order);
    }
  }

  lemma StillKeys(keys: set<Txid>, q: Queue, q': Queue, changed: seq<Txid>)
    requires Grown(q, q', changed) && HoldsKeys(q, keys) && Elems(changed) <= keys
    ensures HoldsKeys(q', keys) && forall x | !Lost(q.nodes, Heaps.HeapEntries(q.root), x) :: !Lost(q'.nodes, Heaps.HeapEntries(q'.root), x)
  {
    hide Lost, Heaps.HeapEntries;
    var entries := Heaps.HeapEntries(q'.root);
    forall k | k in entries ensures entries[k] in keys {
      if k !in Heaps.HeapEntries(q.root) {
        assert entries[k] in Elems(changed);
      }
    }
  }

  lemma OneUpdated(keys: set<Txid>, before: seq<Txid>, x: Txid, fee: map<Txid, int>, size: map<Txid, int>, fee': map<Txid, int>, size': map<Txid, int>)
    requires x in keys && Sized(Updated(size, size', before), keys) && Sized(Updated(size, size', before + [x]), keys)
    ensures OneChanged(keys, x, Updated(fee, fee', before), Updated(size, size', before), Updated(fee, fee', before + [x]), Updated(size, size', before + [x]))
  {
    forall y | y in keys && y != x
      ensures At(Updated(fee, fee', before + [x]), y) == At(Updated(fee, fee', before), y)
      ensures At(Updated(size, size', before + [x]), y) == At(Updated(size, size', before), y)
    {
      UpdatedAt(fee, fee', before, y);
      UpdatedAt(fee, fee', before + [x], y);
      UpdatedAt(size, size', before, y);
      UpdatedAt(size, size', before + [x], y);
    }
  }

  /** Only the scores of what the heap holds matter. */
  lemma SameScores(keys: set<Txid>, q: Queue, fee: map<Txid, int>, size: map<Txid, int>, fee': map<Txid, int>, size': map<Txid, int>, order: map<Txid, nat>)
    requires GoodQueue(q) && HoldsKeys(q, keys) && InOrder(q, fee, size, order)
    requires forall x | x in keys :: At(fee', x) == At(fee, x) && At(size', x) == At(size, x)
    ensures InOrder(q, fee', size', order)
  {
    hide ComesBefore, Heaps.Proper, Heaps.Ordered;
    if q.root.Some? {
      AgreeSame(keys, q, fee, size, fee', size', order);
      Heaps.Rescored(ByScores(fee, size, order), ByScores(fee', size', order), q.root.value, {});
    }
  }

  lemma AgreeSame(keys: set<Txid>, q: Queue, fee: map<Txid, int>, size: map<Txid, int>, fee': map<Txid, int>, size': map<Txid, int>, order: map<Txid, nat>)
    requires q.root.Some? && HoldsKeys(q, keys) && forall x | x in keys :: At(fee', x) == At(fee, x) && At(size', x) == At(size, x)
    ensures Heaps.Agree(ByScores(fee, size, order), ByScores(fee', size', order), Heaps.Entries(q.root.value), {})
  {
    hide ComesBefore, Heaps.Entries;
    assert Heaps.HeapEntries(q.root) == Heaps.Entries(q.root.value);
  }

  /** A whole update: old scores before it, new scores after it. */
  lemma UpdateOrder(keys: set<Txid>, q: Queue, changed: seq<Txid>, fee: map<Txid, int>, size: map<Txid, int>, fee': map<Txid, int>, size': map<Txid, int>,
                    order: map<Txid, nat>)
    requires GoodQueue(q) && HoldsKeys(q, keys) && Elems(changed) <= keys && Sized(size, keys) && Sized(size', keys)
    requires InOrder(q, fee, size, order) && forall x | x in changed :: !Lost(q.nodes, Heaps.HeapEntries(q.root), x)
    requires forall x | x in keys && x !in changed :: At(fee', x) == At(fee, x) && At(size', x) == At(size, x)
    ensures InOrder(Rebalanced(q, changed, fee, size, fee', size', order), fee', size', order)
  {
    hide Rebalanced, Updated, InOrder, GoodQueue, Lost, Sized;
    RebalancedOrder(keys, q, changed, fee, size, fee', size', order);
    RebalancedGood(q, changed, fee, size, fee', size', order);
    var q' := Rebalanced(q, changed, fee, size, fee', size', order);
    StillKeys(keys, q, q', changed);
    forall x | x in keys ensures At(fee', x) == At(Updated(fee, fee', changed), x) && At(size', x) == At(Updated(size, size', changed), x) {
      UpdatedAt(fee, fee', changed, x);
      UpdatedAt(size, size', changed, x);
    }
    SameScores(keys, q', Updated(fee, fee', changed), Updated(size, size', changed), fee', size', order);
  }

  lemma AddedOrder(q: Queue, x: Txid, fee: map<Txid, int>, size: map<Txid, int>, order: map<Txid, nat>)
    requires InOrder(q, fee, size, order)
    ensures InOrder(q.(root := Heaps.Meld(ByScores(fee, size, order), q.root, Some(Heaps.Node(q.nextId, x, [])))), fee, size, order)
  {
    hide Beats, Heaps.Ordered, Heaps.Meld;
    ByScoresAsymmetric(fee, size, order);
    SingleOrdered(ByScores(fee, size, order), Heaps.Node(q.nextId, x, []));
    Heaps.MeldOrdered(ByScores(fee, size, order), q.root, Some(Heaps.Node(q.nextId, x, [])));
  }

  lemma PoppedOrder(q: Queue, fee: map<Txid, int>, size: map<Txid, int>, order: map<Txid, nat>)
    requires q.root.Some? && InOrder(q, fee, size, order)
    ensures InOrder(q.(root := Heaps.PairsMerged(ByScores(fee, size, order), q.root.value.children)), fee, size, order)
  {
    hide Beats, Heaps.PairsMerged;
    ByScoresAsymmetric(fee, size, order);
    Heaps.MergeOrdered(ByScores(fee, size, order), q.root.value.children);
  }

  /** While the heap is in order, nothing in it has a higher score than its root. */
  lemma TopUnbeaten(keys: set<Txid>, q: Queue, fee: map<Txid, int>, size: map<Txid, int>, order: map<Txid, nat>)
    requires GoodQueue(q) && HoldsKeys(q, keys) && Sized(size, keys) && q.root.Some? && InOrder(q, fee, size, order)
    ensures var x := q.root.value.element;
            x in keys && forall k | k in Heaps.HeapEntries(q.root) :: !Beats(fee, size, order, Heaps.HeapEntries(q.root)[k], x)
  {
    hide Higher, Heaps.Proper, Heaps.Ordered;
    var n := q.root.value;
    assert n.id in Heaps.Entries(n) && Heaps.Entries(n)[n.id] == n.element;
    hide Heaps.Entries;
    ByScoresWeak(fee, size, order, keys);
    NotBeforeItself(At(fee, n.element), At(size, n.element), -At(order, n.element));
    Heaps.TopUnbeaten(ByScores(fee, size, order), n, keys);
    forall k | k in Heaps.Entries(n) ensures !Beats(fee, size, order, Heaps.Entries(n)[k], n.element) {
      assert !ByScores(fee, size, order)(Heaps.Entries(n)[k], n.element);
    }
  }

  lemma TopScore(keys: set<Txid>, q: Queue, fee: map<Txid, int>, size: map<Txid, int>, order: map<Txid, nat>)
    requires GoodQueue(q) && HoldsKeys(q, keys) && Sized(size, keys) && q.root.Some? && InOrder(q, fee, size, order)
    ensures var x := q.root.value.element;
            x in keys && forall k | k in Heaps.HeapEntries(q.root) ::
              !Higher(At(fee, Heaps.HeapEntries(q.root)[k]), At(size, Heaps.HeapEntries(q.root)[k]), At(fee, x), At(size, x))
  {
    hide Higher, Heaps.HeapEntries, Heaps.Proper, InOrder;
    TopUnbeaten(keys, q, fee, size, order);
  }

  // ---------- shares

  /** Pairs of a transaction and an ancestor of it that was placed: each can bring a node into the heap. */
  ghost function Shares(anc0: Relatives, placed: set<Txid>): set<(Txid, Txid)> {
    set x, a | x in anc0 && a in anc0[x] && a in placed :: (x, a)
  }

  ghost function Shared(s: set<Txid>, a: Txid): set<(Txid, Txid)> {
    set x | x in s :: (x, a)
  }

  lemma {:induction false} SharedSize(s: set<Txid>, a: Txid)
    ensures |Shared(s, a)| == |s|
    decreases s
  {
    if s == {} {
      assert Shared(s, a) == {};
    } else {
      var x :| x in s;
      SharedSize(s - {x}, a);
      assert Shared(s, a) == Shared(s - {x}, a) + {(x, a)};
    }
  }

  lemma SharesMore(anc0: Relatives, placed: set<Txid>, a: Txid)
    requires a !in placed
    ensures |Shares(anc0, placed + {a})| == |Shares(anc0, placed)| + |Below(anc0, a)|
  {
    SharedSize(Below(anc0, a), a);
    assert Shares(anc0, placed + {a}) == Shares(anc0, placed) + Shared(Below(anc0, a), a);
    assert Shares(anc0, placed) !! Shared(Below(anc0, a), a);
  }

  lemma SharesGrow(anc0: Relatives, placed: set<Txid>, all: set<Txid>)
    requires placed <= all
    ensures |Shares(anc0, placed)| <= |Shares(anc0, all)|
  {
    SubsetSize(Shares(anc0, placed), Shares(anc0, all));
  }

  // ---------- where transactions wait

  /** What is left of the array behind `top`, the nodes of the heap, the marked transactions, and those
      put aside. */
  datatype Waits = Waits(top: nat, left: seq<Txid>, nodes: map<Txid, nat>, entries: map<nat, Txid>, modified: set<Txid>, aside: seq<Txid>)

  /** How many of the entries are not marked as modified. */
  function Unmarked(s: seq<Txid>, modified: set<Txid>): nat {
    if s == [] then 0 else Unmarked(s[..|s| - 1], modified) + if s[|s| - 1] in modified then 0 else 1
  }

  /** Unplaced transactions: unmarked ones are in what is left of the array, marked ones in the heap,
      and both may be among those put aside. */
  ghost predicate Covered(keys: set<Txid>, used: set<Txid>, w: Waits) {
    forall u | u in keys && u !in used && u !in w.aside :: if u in w.modified then u in w.entries.Values else u in w.left
  }

  ghost predicate Known(keys: set<Txid>, w: Waits) {
    && w.nodes.Keys <= w.modified <= keys && Elems(w.left) <= keys && Elems(w.aside) <= keys
    && forall k | k in w.entries :: w.entries[k] in w.modified
  }

  /** Marked are exactly the transactions with an ancestor among `removed`. */
  ghost predicate MarkedBelow(keys: set<Txid>, anc0: Relatives, removed: set<Txid>, modified: set<Txid>) {
    Unchanged(anc0, removed, modified) && forall x | x in modified :: x in anc0 && !(anc0[x] !! removed)
  }

  /** Unmarked entries come in the order of the score they had at the start. */
  ghost predicate StartOrder(c: Candidates, anc0: Relatives, modified: set<Txid>, s: seq<Txid>) {
    forall i, j | 0 <= i < j < |s| && s[i] !in modified && s[j] !in modified ::
      !BetterBy(TotalsOf(c.fee, anc0, {}), TotalsOf(c.size, anc0, {}))(s[j], s[i])
  }

  /** Only what had an ancestor in an earlier block can have lost a node. */
  ghost predicate LostEarly(anc0: Relatives, before: set<Txid>, nodes: map<Txid, nat>, entries: map<nat, Txid>) {
    forall x | Lost(nodes, entries, x) :: x in anc0 && !(anc0[x] !! before)
  }

  /** No more entries than candidates and shares. */
  ghost predicate Counted(keys: set<Txid>, anc0: Relatives, removed: set<Txid>, w: Waits) {
    |w.left| + |w.entries| + |w.aside| <= |keys| + |Shares(anc0, removed)|
  }

  /** `used` are placed, `removed` are those among them whose descendants were updated, and `before`
      those in earlier blocks. */
  ghost predicate GoodWaits(c: Candidates, anc0: Relatives, used: set<Txid>, removed: set<Txid>, before: set<Txid>, w: Waits) {
    && Noted(w.nodes, w.entries) && Covered(c.Keys(), used, w) && Known(c.Keys(), w) && Unmarked(w.aside, w.modified) <= w.top
    && MarkedBelow(c.Keys(), anc0, removed, w.modified) && StartOrder(c, anc0, w.modified, w.aside + w.left)
    && LostEarly(anc0, before, w.nodes, w.entries) && Counted(c.Keys(), anc0, removed, w)
  }

  lemma UnmarkedMore(s: seq<Txid>, x: Txid, modified: set<Txid>)
    ensures Unmarked(s + [x], modified) == Unmarked(s, modified) + if x in modified then 0 else 1
  {
    assert (s + [x])[..|s|] == s;
  }

  lemma {:induction false} UnmarkedFewer(s: seq<Txid>, modified: set<Txid>, more: set<Txid>)
    requires modified <= more
    ensures Unmarked(s, more) <= Unmarked(s, modified)
  {
    if s != [] {
      UnmarkedFewer(s[..|s| - 1], modified, more);
    }
  }

  lemma OrderDrop(c: Candidates, anc0: Relatives, modified: set<Txid>, a: seq<Txid>, x: Txid, b: seq<Txid>)
    requires StartOrder(c, anc0, modified, a + [x] + b)
    ensures StartOrder(c, anc0, modified, a + b)
  {
    var s, t := a + [x] + b, a + b;
    forall i, j | 0 <= i < j < |t| && t[i] !in modified && t[j] !in modified
      ensures !BetterBy(TotalsOf(c.fee, anc0, {}), TotalsOf(c.size, anc0, {}))(t[j], t[i])
    {
      var k, l := if i < |a| then i else i + 1, if j < |a| then j else j + 1;
      assert s[k] == t[i] && s[l] == t[j];
    }
  }

  lemma OrderInsert(c: Candidates, anc0: Relatives, modified: set<Txid>, a: seq<Txid>, x: Txid, b: seq<Txid>)
    requires StartOrder(c, anc0, modified, a + b) && x in modified
    ensures StartOrder(c, anc0, modified, a + [x] + b)
  {
    var s, t := a + [x] + b, a + b;
    forall i, j | 0 <= i < j < |s| && s[i] !in modified && s[j] !in modified
      ensures !BetterBy(TotalsOf(c.fee, anc0, {}), TotalsOf(c.size, anc0, {}))(s[j], s[i])
    {
      var k, l := if i < |a| then i else i - 1, if j < |a| then j else j - 1;
      assert t[k] == s[i] && t[l] == s[j];
    }
  }

  lemma OrderMarked(c: Candidates, anc0: Relatives, modified: set<Txid>, more: set<Txid>, s: seq<Txid>)
    requires StartOrder(c, anc0, modified, s) && modified <= more
    ensures StartOrder(c, anc0, more, s)
  {
  }

  // ---------- steps of the queues

  /** The first entry of the array was placed or waits in the heap. */
  lemma SkipFirst(c: Candidates, anc0: Relatives, used: set<Txid>, before: set<Txid>, w: Waits)
    requires GoodWaits(c, anc0, used, used, before, w) && w.left != [] && (w.left[0] in used || w.left[0] in w.modified)
    ensures GoodWaits(c, anc0, used, used, before, w.(top := w.top + 1, left := w.left[1..]))
  {
    hide MarkedBelow, StartOrder, LostEarly, Shares, Noted;
    assert w.left == [w.left[0]] + w.left[1..];
    ElemsConcat([w.left[0]], w.left[1..]);
    assert w.aside + w.left == w.aside + [w.left[0]] + w.left[1..];
    OrderDrop(c, anc0, w.modified, w.aside, w.left[0], w.left[1..]);
  }

  lemma TakeFirst(c: Candidates, anc0: Relatives, used: set<Txid>, before: set<Txid>, w: Waits)
    requires GoodWaits(c, anc0, used, used, before, w) && w.left != []
    ensures GoodWaits(c, anc0, used, used, before, w.(top := w.top + 1, left := w.left[1..], aside := w.aside + [w.left[0]]))
    ensures w.left[0] in c.Keys()
  {
    hide MarkedBelow, StartOrder, LostEarly, Shares, Noted, Covered, Known;
    var x := w.left[0];
    assert w.left == [x] + w.left[1..];
    TakeCovered(c.Keys(), used, w);
    assert w.aside + w.left == w.aside + [x] + w.left[1..];
    UnmarkedMore(w.aside, x, w.modified);
  }

  lemma TakeCovered(keys: set<Txid>, used: set<Txid>, w: Waits)
    requires Covered(keys, used, w) && Known(keys, w) && w.left != []
    ensures var w' := w.(top := w.top + 1, left := w.left[1..], aside := w.aside + [w.left[0]]); Covered(keys, used, w') && Known(keys, w')
    ensures w.left[0] in keys
  {
    var x := w.left[0];
    assert w.left == [x] + w.left[1..] && x in Elems(w.left);
    ElemsConcat([x], w.left[1..]);
    ElemsConcat(w.aside, [x]);
    assert forall u :: u in w.aside + [x] <==> u in w.aside || u == x;
  }

  lemma PopNode(c: Candidates, anc0: Relatives, used: set<Txid>, before: set<Txid>, w: Waits, id: nat)
    requires GoodWaits(c, anc0, used, used, before, w) && id in w.entries
    ensures var x := w.entries[id];
            x in c.Keys() && GoodWaits(c, anc0, used, used, before, w.(nodes := w.nodes - {x}, entries := w.entries - {id}, aside := w.aside + [x]))
  {
    hide MarkedBelow, StartOrder, Shares;
    var x := w.entries[id];
    ElemsConcat(w.aside, [x]);
    assert forall u :: u in w.aside + [x] <==> u in w.aside || u == x;
    UnmarkedMore(w.aside, x, w.modified);
    OrderInsert(c, anc0, w.modified, w.aside, x, w.left);
    PopLost(anc0, before, w.nodes, w.entries, id);
    PopCovered(c.Keys(), used, w, id);
    hide Lost, LostEarly, Covered;
    assert |w.entries - {id}| == |w.entries| - 1;
  }

  lemma PopCovered(keys: set<Txid>, used: set<Txid>, w: Waits, id: nat)
    requires Covered(keys, used, w) && id in w.entries
    ensures var x := w.entries[id]; Covered(keys, used, w.(nodes := w.nodes - {x}, entries := w.entries - {id}, aside := w.aside + [x]))
  {
    var x := w.entries[id];
    assert forall u :: u in w.aside + [x] <==> u in w.aside || u == x;
    forall u | u in w.entries.Values && u != x ensures u in (w.entries - {id}).Values {
      var k :| k in w.entries && w.entries[k] == u;
      assert k in w.entries - {id} && (w.entries - {id})[k] == u;
    }
  }

  lemma PopLost(anc0: Relatives, before: set<Txid>, nodes: map<Txid, nat>, entries: map<nat, Txid>, id: nat)
    requires LostEarly(anc0, before, nodes, entries) && Noted(nodes, entries) && id in entries
    ensures LostEarly(anc0, before, nodes - {entries[id]}, entries - {id}) && Noted(nodes - {entries[id]}, entries - {id})
  {
    var x := entries[id];
    forall y | Lost(nodes - {x}, entries - {id}, y) ensures y in anc0 && !(anc0[y] !! before) {
      var k :| k in entries - {id} && (entries - {id})[k] == y && !(y in nodes - {x} && (nodes - {x})[y] == k);
      assert entries[k] == y;
      if y == x && x in nodes && nodes[x] == k {
        assert entries[id] == x && nodes[x] != id;
      }
      assert Lost(nodes, entries, y);
    }
  }

  /** An entry that was placed need not wait anywhere. */
  lemma DropPlaced(c: Candidates, anc0: Relatives, used: set<Txid>, removed: set<Txid>, before: set<Txid>, w: Waits, aside: seq<Txid>, x: Txid)
    requires GoodWaits(c, anc0, used, removed, before, w) && w.aside == aside + [x] && x in used
    ensures GoodWaits(c, anc0, used, removed, before, w.(aside := aside))
  {
    hide MarkedBelow, StartOrder, LostEarly, Shares, Noted;
    ElemsConcat(aside, [x]);
    assert forall u :: u in w.aside <==> u in aside || u == x;
    UnmarkedMore(aside, x, w.modified);
    OrderDrop(c, anc0, w.modified, aside, x, w.left);
  }

  lemma MoreUsed(c: Candidates, anc0: Relatives, used: set<Txid>, more: set<Txid>, removed: set<Txid>, before: set<Txid>, w: Waits)
    requires GoodWaits(c, anc0, used, removed, before, w) && used <= more
    ensures GoodWaits(c, anc0, more, removed, before, w)
  {
    hide MarkedBelow, StartOrder, LostEarly, Shares, Noted, Known;
  }

  /** What was put aside last goes back to the array. */
  lemma BackToArray(c: Candidates, anc0: Relatives, used: set<Txid>, before: set<Txid>, w: Waits, aside: seq<Txid>, x: Txid)
    requires GoodWaits(c, anc0, used, used, before, w) && w.aside == aside + [x] && x !in w.modified
    ensures w.top > 0 && GoodWaits(c, anc0, used, used, before, w.(top := w.top - 1, left := [x] + w.left, aside := aside))
  {
    hide MarkedBelow, StartOrder, LostEarly, Shares, Noted, Covered, Known;
    ArrayCovered(c.Keys(), used, w, aside, x);
    UnmarkedMore(aside, x, w.modified);
    assert aside + [x] + w.left == aside + ([x] + w.left);
  }

  lemma ArrayCovered(keys: set<Txid>, used: set<Txid>, w: Waits, aside: seq<Txid>, x: Txid)
    requires Covered(keys, used, w) && Known(keys, w) && w.aside == aside + [x] && x !in w.modified && w.top > 0
    ensures var w' := w.(top := w.top - 1, left := [x] + w.left, aside := aside); Covered(keys, used, w') && Known(keys, w')
  {
    ElemsConcat(aside, [x]);
    ElemsConcat([x], w.left);
    assert x in Elems([x]) && Elems([x]) == {x};
    assert forall u :: u in w.aside <==> u in aside || u == x;
    assert forall u :: u in [x] + w.left <==> u in w.left || u == x;
  }

  /** What was put aside last goes back to the heap, whatever is there already. */
  lemma BackToHeap(c: Candidates, anc0: Relatives, used: set<Txid>, w: Waits, aside: seq<Txid>, x: Txid, id: nat)
    requires GoodWaits(c, anc0, used, used, used, w) && w.aside == aside + [x] && x in w.modified && id !in w.entries
    ensures GoodWaits(c, anc0, used, used, used, w.(nodes := w.nodes[x := id], entries := w.entries[id := x], aside := aside))
  {
    hide StartOrder, Shares, MarkedBelow, Covered, Known, LostEarly, Noted;
    UnmarkedMore(aside, x, w.modified);
    OrderDrop(c, anc0, w.modified, aside, x, w.left);
    BackCovered(c.Keys(), used, w, aside, x, id);
    BackKnown(c.Keys(), w, aside, x, id);
    MarkedLost(c.Keys(), anc0, used, w.modified, w.nodes[x := id], w.entries[id := x]);
    assert |w.entries[id := x]| == |w.entries| + 1;
  }

  lemma BackKnown(keys: set<Txid>, w: Waits, aside: seq<Txid>, x: Txid, id: nat)
    requires Known(keys, w) && Noted(w.nodes, w.entries) && w.aside == aside + [x] && x in w.modified && id !in w.entries
    ensures Known(keys, w.(nodes := w.nodes[x := id], entries := w.entries[id := x], aside := aside)) && Noted(w.nodes[x := id], w.entries[id := x])
    ensures var entries := w.entries[id := x]; forall k | k in entries :: entries[k] in w.modified
  {
    ElemsConcat(aside, [x]);
  }

  /** Marked transactions have a placed ancestor. */
  lemma MarkedLost(keys: set<Txid>, anc0: Relatives, used: set<Txid>, modified: set<Txid>, nodes: map<Txid, nat>, entries: map<nat, Txid>)
    requires MarkedBelow(keys, anc0, used, modified) && forall k | k in entries :: entries[k] in modified
    ensures LostEarly(anc0, used, nodes, entries)
  {
    hide Unchanged;
  }

  lemma BackCovered(keys: set<Txid>, used: set<Txid>, w: Waits, aside: seq<Txid>, x: Txid, id: nat)
    requires Covered(keys, used, w) && w.aside == aside + [x] && x in w.modified && id !in w.entries
    ensures Covered(keys, used, w.(nodes := w.nodes[x := id], entries := w.entries[id := x], aside := aside))
  {
    var entries := w.entries[id := x];
    assert entries[id] == x;
    forall u | u in w.entries.Values ensures u in entries.Values {
      var k :| k in w.entries && w.entries[k] == u;
      assert entries[k] == u;
    }
    assert forall u :: u in w.aside <==> u in aside || u == x;
  }

  /** The descendants of a placed transaction are marked and in the heap. */
  lemma UpdateWaits(c: Candidates, anc0: Relatives, used: set<Txid>, removed: set<Txid>, before: set<Txid>, w: Waits, q: Queue, q': Queue,
                    visited: seq<Txid>, y: Txid)
    requires GoodWaits(c, anc0, used, removed, before, w) && w.nodes == q.nodes && w.entries == Heaps.HeapEntries(q.root)
    requires Grown(q, q', visited) && GoodQueue(q') && Distinct(visited) && Elems(visited) == Below(anc0, y) <= c.Keys() && y !in removed
    ensures GoodWaits(c, anc0, used, removed + {y}, before,
                      w.(nodes := q'.nodes, entries := Heaps.HeapEntries(q'.root), modified := w.modified + Elems(visited)))
  {
    hide StartOrder, Shares, Heaps.HeapEntries, Lost, Heaps.IsHeap;
    UpdateCovered(c.Keys(), used, w, q, q', visited);
    UpdateMarked(c.Keys(), anc0, removed, w.modified, y);
    UnmarkedFewer(w.aside, w.modified, w.modified + Elems(visited));
    OrderMarked(c, anc0, w.modified, w.modified + Elems(visited), w.aside + w.left);
    SharesMore(anc0, removed, y);
    DistinctLength(visited);
    UpdateKnown(c.Keys(), w, q, q', visited);
    hide Below, Covered, MarkedBelow, Known;
  }

  lemma UpdateKnown(keys: set<Txid>, w: Waits, q: Queue, q': Queue, visited: seq<Txid>)
    requires Known(keys, w) && w.nodes == q.nodes && w.entries == Heaps.HeapEntries(q.root) && Grown(q, q', visited) && Elems(visited) <= keys
    ensures Known(keys, w.(nodes := q'.nodes, entries := Heaps.HeapEntries(q'.root), modified := w.modified + Elems(visited)))
  {
    hide Heaps.HeapEntries, Lost;
    var entries := Heaps.HeapEntries(q'.root);
    forall k | k in entries ensures entries[k] in w.modified + Elems(visited) {
      if k !in w.entries {
        assert entries[k] in visited;
      }
    }
  }

  lemma UpdateCovered(keys: set<Txid>, used: set<Txid>, w: Waits, q: Queue, q': Queue, visited: seq<Txid>)
    requires Covered(keys, used, w) && w.nodes == q.nodes && w.entries == Heaps.HeapEntries(q.root) && Grown(q, q', visited) && GoodQueue(q')
    ensures Covered(keys, used, w.(nodes := q'.nodes, entries := Heaps.HeapEntries(q'.root), modified := w.modified + Elems(visited)))
  {
    hide Heaps.HeapEntries, Lost, Heaps.IsHeap;
    var entries := Heaps.HeapEntries(q'.root);
    forall u | u in w.entries.Values ensures u in entries.Values {
      var k :| k in w.entries && w.entries[k] == u;
      assert entries[k] == u;
    }
    forall u | u in Elems(visited) ensures u in entries.Values {
      assert u in q'.nodes && entries[q'.nodes[u]] == u;
    }
  }

  lemma UpdateMarked(keys: set<Txid>, anc0: Relatives, removed: set<Txid>, modified: set<Txid>, y: Txid)
    requires MarkedBelow(keys, anc0, removed, modified)
    ensures MarkedBelow(keys, anc0, removed + {y}, modified + Below(anc0, y))
  {
  }

  lemma UsefulFacts(c: Candidates, anc0: Relatives, used: set<Txid>, removed: set<Txid>, before: set<Txid>, w: Waits)
    requires GoodWaits(c, anc0, used, removed, before, w)
    ensures Noted(w.nodes, w.entries) && w.nodes.Keys <= w.modified <= c.Keys() && (forall k | k in w.entries :: w.entries[k] in c.Keys())
    ensures (forall i | 0 <= i < |w.left| :: w.left[i] in c.Keys()) && (forall i | 0 <= i < |w.aside| :: w.aside[i] in c.Keys())
    ensures Unchanged(anc0, removed, w.modified) && LostEarly(anc0, before, w.nodes, w.entries)
    ensures |w.left| + |w.entries| + |w.aside| <= |c.Keys()| + |Shares(anc0, removed)|
  {
    hide StartOrder, LostEarly, Shares, Unchanged, Covered, Noted;
    forall i | 0 <= i < |w.left| ensures w.left[i] in c.Keys() {
      assert w.left[i] in Elems(w.left);
    }
    forall i | 0 <= i < |w.aside| ensures w.aside[i] in c.Keys() {
      assert w.aside[i] in Elems(w.aside);
    }
  }

  /** When a block is closed, every marked transaction has an ancestor in an earlier block. */
  lemma CloseWaits(c: Candidates, anc0: Relatives, used: set<Txid>, before: set<Txid>, w: Waits)
    requires GoodWaits(c, anc0, used, used, before, w)
    ensures GoodWaits(c, anc0, used, used, used, w)
  {
    hide StartOrder, Shares, Unchanged, Covered, Noted;
    forall x | Lost(w.nodes, w.entries, x) ensures x in anc0 && !(anc0[x] !! used) {
      assert x in w.modified;
    }
  }

  /** Where an unplaced transaction waits that is not aside. */
  lemma WaitsSomewhere(c: Candidates, anc0: Relatives, used: set<Txid>, before: set<Txid>, w: Waits, u: Txid)
    requires GoodWaits(c, anc0, used, used, before, w) && u in c.Keys() && u !in used && u !in w.aside
    ensures u in w.modified ==> exists k :: k in w.entries && w.entries[k] == u
    ensures u !in w.modified ==> u in w.left
  {
    hide StartOrder, Shares, LostEarly, Noted, MarkedBelow, Known;
    assert u in w.entries.Values ==> exists k :: k in w.entries && w.entries[k] == u;
  }

  /** The first unmarked entry is best among all unmarked ones. */
  lemma FirstUnmarked(c: Candidates, anc0: Relatives, used: set<Txid>, before: set<Txid>, w: Waits, u: Txid)
    requires GoodWaits(c, anc0, used, used, before, w) && anc0.Keys == c.Keys()
    requires w.left != [] && w.left[0] !in w.modified && u in w.left && u !in w.modified
    ensures w.left[0] in c.Keys() && u in c.Keys() && NotBetter(c, anc0, used, u, w.left[0])
  {
    UsefulFacts(c, anc0, used, used, before, w);
    StartTail(c, anc0, w.modified, w.aside, w.left);
    hide GoodWaits, StartOrder, Unchanged, NotBetter;
    var j :| 0 <= j < |w.left| && w.left[j] == u;
    UnmarkedBest(c, anc0, used, w.modified, w.left, j);
  }

  lemma StartTail(c: Candidates, anc0: Relatives, modified: set<Txid>, a: seq<Txid>, b: seq<Txid>)
    requires StartOrder(c, anc0, modified, a + b)
    ensures StartOrder(c, anc0, modified, b)
  {
    forall i, j | 0 <= i < j < |b| && b[i] !in modified && b[j] !in modified
      ensures !BetterBy(TotalsOf(c.fee, anc0, {}), TotalsOf(c.size, anc0, {}))(b[j], b[i])
    {
      assert (a + b)[|a| + i] == b[i] && (a + b)[|a| + j] == b[j];
    }
  }

  lemma UnmarkedBest(c: Candidates, anc0: Relatives, used: set<Txid>, modified: set<Txid>, left: seq<Txid>, j: nat)
    requires Unchanged(anc0, used, modified) && StartOrder(c, anc0, modified, left) && j < |left|
    requires left[j] in anc0 && left[j] !in modified && left[0] in anc0 && left[0] !in modified
    ensures NotBetter(c, anc0, used, left[j], left[0])
  {
    hide PackageTotal;
    UnchangedTotal(anc0, used, modified, c.fee, left[j]);
    UnchangedTotal(anc0, used, modified, c.size, left[j]);
    UnchangedTotal(anc0, used, modified, c.fee, left[0]);
    UnchangedTotal(anc0, used, modified, c.size, left[0]);
    if j > 0 {
      assert !BetterBy(TotalsOf(c.fee, anc0, {}), TotalsOf(c.size, anc0, {}))(left[j], left[0]);
    }
  }

  /** When nothing waits, what is not placed is aside. */
  lemma NothingWaits(c: Candidates, anc0: Relatives, used: set<Txid>, before: set<Txid>, w: Waits, u: Txid)
    requires GoodWaits(c, anc0, used, used, before, w) && w.left == [] && w.entries == map[] && u in c.Keys() && u !in used
    ensures u in w.aside
  {
    hide StartOrder, Shares, LostEarly, Noted, MarkedBelow, Known;
  }

  lemma StartWaits(c: Candidates, anc0: Relatives, left: seq<Txid>)
    requires Elems(left) == c.Keys() == anc0.Keys && Distinct(left) && InStartOrder(c, anc0, left)
    ensures GoodWaits(c, anc0, {}, {}, {}, Waits(0, left, map[], map[], {}, []))
  {
    assert [] + left == left;
    SortedByFeerate(TotalsOf(c.fee, anc0, {}), TotalsOf(c.size, anc0, {}), c.order, left);
    DistinctLength(left);
    assert forall u | u in c.Keys() :: u in left;
  }

  // ---------- choosing

  /** The array without the first entries that were placed or marked. */
  function SkipOver(left: seq<Txid>, over: set<Txid>): (rest: seq<Txid>)
    ensures rest != [] ==> rest[0] !in over
  {
    if left != [] && left[0] in over then SkipOver(left[1..], over) else left
  }

  /** What is taken, what is left of the array, and the heap. */
  datatype Selection = Selection(next: Option<Txid>, left: seq<Txid>, queue: Queue)

  /** The first entry of the array, if its score is higher than that of the root of the heap, and else
      that root. */
  function Selected(left: seq<Txid>, over: set<Txid>, q: Queue, fee: map<Txid, int>, size: map<Txid, int>, order: map<Txid, nat>): Selection {
    var rest := SkipOver(left, over);
    if rest != [] && (q.root.None? || Above(fee, size, rest[0], q.root.value.element)) then Selection(Some(rest[0]), rest[1..], q)
    else if q.root.None? then Selection(None, rest, q)
    else
      var x := q.root.value.element;
      Selection(Some(x), rest, Queue(Heaps.PairsMerged(ByScores(fee, size, order), q.root.value.children), q.nextId, q.nodes - {x}))
  }

  /** What is selected once the placed and marked entries are skipped. */
  lemma SelectedFrom(left: seq<Txid>, over: set<Txid>, rest: seq<Txid>, q: Queue, fee: map<Txid, int>, size: map<Txid, int>, order: map<Txid, nat>)
    requires rest == SkipOver(left, over)
    ensures var s := Selected(left, over, q, fee, size, order);
            && (rest != [] && (q.root.None? || Above(fee, size, rest[0], q.root.value.element)) ==> s == Selection(Some(rest[0]), rest[1..], q))
            && (rest == [] && q.root.None? ==> s == Selection(None, [], q))
            && (q.root.Some? && (rest == [] || !Above(fee, size, rest[0], q.root.value.element)) ==>
                  s == Selection(Some(q.root.value.element), rest, Queue(Heaps.PairsMerged(ByScores(fee, size, order), q.root.value.children), q.nextId, q.nodes - {q.root.value.element})))
  {
    hide SkipOver, Above, ByScores, Heaps.PairsMerged;
  }

  predicate Above(fee: map<Txid, int>, size: map<Txid, int>, x: Txid, y: Txid) {
    Higher(At(fee, x), At(size, x), At(fee, y), At(size, y))
  }

  // ---------- putting entries back

  function AddedTo(q: Queue, x: Txid, fee: map<Txid, int>, size: map<Txid, int>, order: map<Txid, nat>): Queue {
    Queue(Heaps.Meld(ByScores(fee, size, order), q.root, Some(Heaps.Node(q.nextId, x, []))), q.nextId + 1, q.nodes[x := q.nextId])
  }

  /** The marked among `aside` go to the heap, from the last on. */
  function AddedBack(q: Queue, aside: seq<Txid>, modified: set<Txid>, fee: map<Txid, int>, size: map<Txid, int>, order: map<Txid, nat>): Queue
    decreases |aside|
  {
    if aside == [] then q
    else
      var n := |aside| - 1;
      AddedBack(if aside[n] in modified then AddedTo(q, aside[n], fee, size, order) else q, aside[..n], modified, fee, size, order)
  }

  /** The others, in their order. */
  function UnmarkedOnly(aside: seq<Txid>, modified: set<Txid>): seq<Txid> {
    if aside == [] then []
    else UnmarkedOnly(aside[..|aside| - 1], modified) + if aside[|aside| - 1] in modified then [] else [aside[|aside| - 1]]
  }

  // ---------- following the placed transactions

  /** The visits of the descendants of one placed transaction, with the scores before and after. */
  datatype Update = Update(visited: seq<Txid>, fee: map<Txid, int>, size: map<Txid, int>, fee': map<Txid, int>, size': map<Txid, int>)

  ghost function Followed(q: Queue, updates: seq<Update>, order: map<Txid, nat>): Queue {
    if updates == [] then q
    else
      var u := updates[|updates| - 1];
      Rebalanced(Followed(q, updates[..|updates| - 1], order), u.visited, u.fee, u.size, u.fee', u.size', order)
  }

  /** Recorded scores are those of the packages. */
  ghost predicate ScoresAre(c: Candidates, anc0: Relatives, removed: set<Txid>, fee: map<Txid, int>, size: map<Txid, int>) {
    forall x | x in c.Keys() :: At(fee, x) == PackageTotal(c.fee, anc0, removed, x) && At(size, x) == PackageTotal(c.size, anc0, removed, x)
  }

  ghost predicate TrueUpdate(c: Candidates, anc0: Relatives, removed: set<Txid>, y: Txid, u: Update) {
    && Distinct(u.visited) && Elems(u.visited) == Below(anc0, y)
    && ScoresAre(c, anc0, removed, u.fee, u.size) && ScoresAre(c, anc0, removed + {y}, u.fee', u.size')
  }

  /** One after the other, `placed` are taken out of the ancestors of what remains. */
  ghost predicate TrueUpdates(c: Candidates, anc0: Relatives, was: set<Txid>, placed: seq<Txid>, updates: seq<Update>) {
    |updates| == |placed| && forall i | 0 <= i < |placed| :: TrueUpdate(c, anc0, was + Elems(placed[..i]), placed[i], updates[i])
  }

  ghost function AllVisited(updates: seq<Update>): set<Txid> {
    if updates == [] then {} else AllVisited(updates[..|updates| - 1]) + Elems(updates[|updates| - 1].visited)
  }

  lemma FollowedMore(q: Queue, updates: seq<Update>, u: Update, order: map<Txid, nat>)
    ensures Followed(q, updates + [u], order) == Rebalanced(Followed(q, updates, order), u.visited, u.fee, u.size, u.fee', u.size', order)
  {
    assert (updates + [u])[..|updates|] == updates;
  }

  /** Only the descendants of what is placed change their scores. */
  lemma OthersSame(anc0: Relatives, removed: set<Txid>, y: Txid, m: map<Txid, int>, x: Txid)
    requires x !in Below(anc0, y)
    ensures PackageTotal(m, anc0, removed + {y}, x) == PackageTotal(m, anc0, removed, x)
  {
    assert Of(anc0, x) - (removed + {y}) == Of(anc0, x) - removed;
  }

  /** Nothing has both an ancestor among `within` and one in an earlier block. */
  ghost predicate Undisturbed(anc0: Relatives, before: set<Txid>, within: set<Txid>) {
    forall x, y | x in anc0 && y in anc0[x] && y in within :: anc0[x] !! before
  }

  lemma UndisturbedParts(anc0: Relatives, before: set<Txid>, within: set<Txid>, more: set<Txid>)
    ensures Undisturbed(anc0, before, within + more) <==> Undisturbed(anc0, before, within) && Undisturbed(anc0, before, more)
  {
  }

  /** The order survives if no descendant of the placed transaction has an ancestor in an earlier block. */
  lemma UpdateKeepsOrder(c: Candidates, anc0: Relatives, removed: set<Txid>, before: set<Txid>, y: Txid, q: Queue, u: Update)
    requires c.WellFormed() && anc0.Keys == c.Keys() && forall x | x in c.Keys() :: Of(anc0, x) <= c.Keys()
    requires GoodQueue(q) && HoldsKeys(q, c.Keys()) && TrueUpdate(c, anc0, removed, y, u) && LostEarly(anc0, before, q.nodes, Heaps.HeapEntries(q.root))
    requires InOrder(q, u.fee, u.size, c.order) && Undisturbed(anc0, before, {y})
    ensures InOrder(Rebalanced(q, u.visited, u.fee, u.size, u.fee', u.size', c.order), u.fee', u.size', c.order)
  {
    hide GoodQueue, InOrder, Lost, PackageTotal, Rebalanced, Candidates.WellFormed, Heaps.HeapEntries;
    forall x | x in c.Keys() ensures 0 < At(u.size, x) && 0 < At(u.size', x) {
      SizePositive(c, anc0, removed, x);
      SizePositive(c, anc0, removed + {y}, x);
    }
    forall x | x in c.Keys() && x !in u.visited ensures At(u.fee', x) == At(u.fee, x) && At(u.size', x) == At(u.size, x) {
      assert x !in Elems(u.visited);
      OthersSame(anc0, removed, y, c.fee, x);
      OthersSame(anc0, removed, y, c.size, x);
    }
    forall x | x in u.visited ensures !Lost(q.nodes, Heaps.HeapEntries(q.root), x) {
      assert x in Elems(u.visited);
    }
    UpdateOrder(c.Keys(), q, u.visited, u.fee, u.size, u.fee', u.size', c.order);
  }
}
