/** Kahn's algorithm with a sorted ready list, as the linearizer runs it over chunks, over
    the transactions of a chunk, and over chunks again. */
module Kahn {
  import opened Graph

  type Order = (nat, nat) -> bool

  function Preds(edges: set<(nat, nat)>, t: nat): set<nat> {
    set e | e in edges && e.1 == t :: e.0
  }

  function Succs(edges: set<(nat, nat)>, t: nat): set<nat> {
    set e | e in edges && e.0 == t :: e.1
  }

  lemma PredsSuccs(edges: set<(nat, nat)>, p: nat, t: nat)
    ensures (p, t) in edges <==> p in Preds(edges, t)
    ensures (p, t) in edges <==> t in Succs(edges, p)
  {
    if (p, t) in edges {
      var e := (p, t);
      assert e.0 in Preds(edges, t) && e.1 in Succs(edges, p);
    }
  }

  /** No later element is better than an earlier one. */
  ghost predicate SortedBy(better: Order, s: seq<nat>) {
    forall i, j | 0 <= i < j < |s| :: !better(s[j], s[i])
  }

  /** `less` is a tie-broken form of the weak order `better`. */
  ghost predicate Refines(less: Order, better: Order, nodes: set<nat>) {
    && (forall a, b | a in nodes && b in nodes :: better(a, b) ==> less(a, b))
    && (forall a, b | a in nodes && b in nodes :: less(a, b) ==> !better(b, a))
    && (forall a, b, c | a in nodes && b in nodes && c in nodes :: !better(a, b) && !better(b, c) ==> !better(a, c))
  }

  /** Insertion before the first element that `item` precedes. */
  function InsertSorted(less: Order, s: seq<nat>, item: nat): seq<nat> {
    if s == [] then [item]
    else if less(item, s[0]) then [item] + s
    else [s[0]] + InsertSorted(less, s[1..], item)
  }

  lemma {:induction false} InsertElems(less: Order, s: seq<nat>, item: nat)
    requires Distinct(s) && item !in s
    ensures Elems(InsertSorted(less, s, item)) == Elems(s) + {item}
    ensures Distinct(InsertSorted(less, s, item))
  {
    if s != [] && !less(item, s[0]) {
      InsertElems(less, s[1..], item);
      var r := InsertSorted(less, s[1..], item);
      assert s == [s[0]] + s[1..];
      assert s[0] !in Elems(r);
      DistinctConcat([s[0]], r);
      ElemsConcat([s[0]], r);
      ElemsConcat([s[0]], s[1..]);
    } else {
      DistinctConcat([item], s);
      ElemsConcat([item], s);
    }
  }

  lemma {:induction false} InsertKeepsSorted(less: Order, better: Order, nodes: set<nat>, s: seq<nat>, item: nat)
    requires Refines(less, better, nodes) && Elems(s) <= nodes && item in nodes
    requires SortedBy(better, s)
    ensures SortedBy(better, InsertSorted(less, s, item))
    ensures forall x | x in InsertSorted(less, s, item) :: x in s || x == item
  {
    if s != [] {
      assert s[0] in Elems(s);
      if less(item, s[0]) {
        forall j | 0 <= j < |s| ensures !better(s[j], item) {
          assert s[j] in Elems(s);
        }
      } else {
        assert Elems(s[1..]) <= Elems(s);
        InsertKeepsSorted(less, better, nodes, s[1..], item);
        var r := InsertSorted(less, s[1..], item);
        forall j | 0 <= j < |r| ensures !better(r[j], s[0]) {
          assert r[j] in r;
          if r[j] != item {
            var k :| 0 <= k < |s[1..]| && s[1..][k] == r[j];
            assert s[k + 1] == r[j];
          }
        }
      }
    }
  }

  /** An element of smallest rank. */
  lemma {:induction false} LowestRank(s: set<nat>, rank: map<nat, int>) returns (t: nat)
    requires s != {} && s <= rank.Keys
    ensures t in s && forall u | u in s :: rank[t] <= rank[u]
    decreases s
  {
    t :| t in s;
    if s != {t} {
      var u := LowestRank(s - {t}, rank);
      if rank[u] < rank[t] {
        t := u;
      }
    }
  }

  /** Predecessors still to be emitted. */
  function Pending(edges: set<(nat, nat)>, emitted: set<nat>, t: nat): nat {
    |Preds(edges, t) - emitted|
  }

  lemma PendingZero(edges: set<(nat, nat)>, emitted: set<nat>, t: nat, p: nat)
    requires Pending(edges, emitted, t) == 0 && (p, t) in edges
    ensures p in emitted
  {
    PredsSuccs(edges, p, t);
    var left := Preds(edges, t) - emitted;
    assert left == {};
    assert p !in left;
  }

  lemma PendingNone(edges: set<(nat, nat)>, emitted: set<nat>, t: nat)
    requires forall p | (p, t) in edges :: p in emitted
    ensures Pending(edges, emitted, t) == 0
  {
    var left := Preds(edges, t) - emitted;
    forall p ensures p !in left {
      PredsSuccs(edges, p, t);
    }
    assert left == {};
  }

  lemma PendingEmit(edges: set<(nat, nat)>, emitted: set<nat>, t: nat, best: nat)
    requires best !in emitted
    ensures Pending(edges, emitted, t) == Pending(edges, emitted + {best}, t) + if t in Succs(edges, best) then 1 else 0
  {
    PredsSuccs(edges, best, t);
    var left := Preds(edges, t) - emitted;
    assert left - {best} == Preds(edges, t) - (emitted + {best});
    if best in left {
      assert |left| == |left - {best}| + 1;
    }
  }

  /** The state between two emissions; `todo` are successors not yet counted down. */
  ghost predicate Counting(edges: set<(nat, nat)>, nodes: set<nat>, emitted: set<nat>, todo: set<nat>,
                           count: map<nat, int>, ready: seq<nat>) {
    && count.Keys == nodes && todo <= nodes
    && (forall t | t in nodes :: count[t] == Pending(edges, emitted, t) + if t in todo then 1 else 0)
    && Distinct(ready)
    && Elems(ready) == set t | t in nodes && t !in emitted && count[t] == 0
  }

  ghost predicate NoBetter(better: Order, ready: seq<nat>, out: seq<nat>) {
    forall x, y | x in out && y in ready :: !better(y, x)
  }

  /** Emitted nodes have emitted predecessors. */
  ghost predicate ClosedUp(edges: set<(nat, nat)>, emitted: set<nat>) {
    forall p, c | (p, c) in edges && c in emitted :: p in emitted
  }

  ghost predicate Within(edges: set<(nat, nat)>, nodes: set<nat>) {
    forall p, c | (p, c) in edges :: p in nodes && c in nodes
  }

  lemma NoneLeft(edges: set<(nat, nat)>, nodes: set<nat>, emitted: set<nat>, count: map<nat, int>, rank: map<nat, int>)
    requires emitted <= nodes && Within(edges, nodes)
    requires RankedBy(edges, rank) && nodes <= rank.Keys
    requires Counting(edges, nodes, emitted, {}, count, [])
    ensures emitted == nodes
  {
    hide Pending, RankedBy;
    forall t | t in nodes && t !in emitted ensures Pending(edges, emitted, t) != 0 {
      assert t !in Elems<nat>([]);
    }
    if !(nodes <= emitted) {
      var t := LowestUnemitted(edges, nodes, emitted, rank);
      PendingNone(edges, emitted, t);
    }
  }

  lemma LowestUnemitted(edges: set<(nat, nat)>, nodes: set<nat>, emitted: set<nat>, rank: map<nat, int>) returns (t: nat)
    requires Within(edges, nodes) && !(nodes <= emitted)
    requires RankedBy(edges, rank) && nodes <= rank.Keys
    ensures t in nodes && t !in emitted && forall p | (p, t) in edges :: p in emitted
  {
    var x :| x in nodes && x !in emitted;
    var left := nodes - emitted;
    assert x in left;
    t := LowestRank(left, rank);
    forall p | (p, t) in edges ensures p in emitted {
      assert p in nodes && rank[p] < rank[t];
    }
  }

  lemma CountDown(edges: set<(nat, nat)>, nodes: set<nat>, emitted: set<nat>, todo: set<nat>,
                  count: map<nat, int>, ready: seq<nat>, c: nat, less: Order)
    requires Counting(edges, nodes, emitted, todo, count, ready) && c in todo && c !in emitted
    ensures var count' := count[c := count[c] - 1];
            var ready' := if count'[c] == 0 then InsertSorted(less, ready, c) else ready;
            c !in ready && Counting(edges, nodes, emitted, todo - {c}, count', ready')
  {
    hide Pending;
    var count' := count[c := count[c] - 1];
    assert c !in Elems(ready);
    if count'[c] == 0 {
      InsertElems(less, ready, c);
    }
  }

  lemma EmitFirst(edges: set<(nat, nat)>, nodes: set<nat>, emitted: set<nat>, count: map<nat, int>, ready: seq<nat>)
    requires Counting(edges, nodes, emitted, {}, count, ready) && ready != []
    requires Within(edges, nodes) && ClosedUp(edges, emitted)
    requires forall t | t in nodes :: (t, t) !in edges
    ensures ready[0] in nodes && ready[0] !in emitted
    ensures ClosedUp(edges, emitted + {ready[0]})
    ensures Succs(edges, ready[0]) !! emitted + {ready[0]}
    ensures Counting(edges, nodes, emitted + {ready[0]}, Succs(edges, ready[0]), count, ready[1..])
  {
    hide Pending;
    var best := ready[0];
    assert best in Elems(ready);
    var todo := Succs(edges, best);
    forall t | t in todo ensures t in nodes && t !in emitted + {best} {
      PredsSuccs(edges, best, t);
      assert (best, t) in edges;
    }
    forall p, c | (p, c) in edges && c in emitted + {best} ensures p in emitted + {best} {
      if c == best {
        PendingZero(edges, emitted, best, p);
      }
    }
    forall t | t in nodes ensures count[t] == Pending(edges, emitted + {best}, t) + if t in todo then 1 else 0 {
      PendingEmit(edges, emitted, t, best);
    }
    assert ready == [best] + ready[1..];
    DistinctConcat([best], ready[1..]);
    ElemsConcat([best], ready[1..]);
  }

  /** `x` is first in `less` among the nodes that are not in `before` but whose predecessors are. */
  ghost predicate Least(edges: set<(nat, nat)>, nodes: set<nat>, less: Order, before: seq<nat>, x: nat) {
    forall t | t in nodes && t !in before && (forall p | (p, t) in edges :: p in before) :: !less(t, x)
  }

  /** Every node is first among those that could have come out in its place. */
  ghost predicate LeastFirst(edges: set<(nat, nat)>, nodes: set<nat>, less: Order, out: seq<nat>) {
    forall i | 0 <= i < |out| :: Least(edges, nodes, less, out[..i], out[i])
  }

  lemma EmitLeast(edges: set<(nat, nat)>, nodes: set<nat>, less: Order, out: seq<nat>, count: map<nat, int>, ready: seq<nat>)
    requires Counting(edges, nodes, Elems(out), {}, count, ready) && ready != [] && SortedBy(less, ready)
    requires Refines(less, less, nodes) && LeastFirst(edges, nodes, less, out)
    ensures LeastFirst(edges, nodes, less, out + [ready[0]])
  {
    hide Pending;
    var best := ready[0];
    assert best in Elems(ready);
    forall t | t in nodes && t !in out && (forall p | (p, t) in edges :: p in out) ensures !less(t, best) {
      PendingNone(edges, Elems(out), t);
      assert t in Elems(ready);
      var i :| 0 <= i < |ready| && ready[i] == t;
    }
    MoreLeast(edges, nodes, less, out, best);
  }

  lemma MoreLeast(edges: set<(nat, nat)>, nodes: set<nat>, less: Order, out: seq<nat>, x: nat)
    requires LeastFirst(edges, nodes, less, out) && Least(edges, nodes, less, out, x)
    ensures LeastFirst(edges, nodes, less, out + [x])
  {
    hide Least;
    var all := out + [x];
    forall i | 0 <= i < |all| ensures Least(edges, nodes, less, all[..i], all[i]) {
      assert all[..i] == out[..i];
      assert out[..|out|] == out;
    }
  }

  /** Emits every node once, predecessors first, always the first in `less` of those that can come
      next. When no edge leads to a better node, the nodes come out in non-increasing order. */
  method Emit(nodes: set<nat>, edges: set<(nat, nat)>, less: Order, ghost better: Order, ghost rank: map<nat, int>)
    returns (out: seq<nat>)
    requires Within(edges, nodes)
    requires RankedBy(edges, rank) && nodes <= rank.Keys
    requires Refines(less, better, nodes) && Refines(less, less, nodes)
    ensures IsLinearization(edges, nodes, out)
    ensures LeastFirst(edges, nodes, less, out)
    ensures Monotone(edges, better) ==> SortedBy(better, out)
  {
    hide Pending;
    ghost var mono := Monotone(edges, better);
    var count := map t | t in nodes :: Pending(edges, {}, t);
    var ready := FirstReady(nodes, edges, count, less, better);
    out := [];
    ghost var emitted: set<nat> := {};
    while ready != []
      invariant Distinct(out) && Topological(edges, out) && emitted == Elems(out) && emitted <= nodes
      invariant Counting(edges, nodes, emitted, {}, count, ready)
      invariant ClosedUp(edges, emitted)
      invariant SortedBy(better, ready) && SortedBy(less, ready) && LeastFirst(edges, nodes, less, out)
      invariant mono ==> SortedBy(better, out) && NoBetter(better, ready, out)
      decreases nodes - emitted
    {
      var best := ready[0];
      EmitLeast(edges, nodes, less, out, count, ready);
      TailSorted(less, ready);
      EmitFirst(edges, nodes, emitted, count, ready);
      EmitOrder(edges, better, mono, out, ready);
      out, ready, emitted := out + [best], ready[1..], emitted + {best};
      ready, count := Release(nodes, edges, less, better, mono, out, best, Succs(edges, best), count, ready);
    }
    NoneLeft(edges, nodes, emitted, count, rank);
  }

  /** No edge leads to a better node. */
  ghost predicate Monotone(edges: set<(nat, nat)>, better: Order) {
    forall p, c | (p, c) in edges :: !better(c, p)
  }

  lemma EmitOrder(edges: set<(nat, nat)>, better: Order, mono: bool, out: seq<nat>, ready: seq<nat>)
    requires ready != [] && Distinct(out) && Topological(edges, out)
    requires ClosedUp(edges, Elems(out))
    requires ready[0] !in Elems(out) && (ready[0], ready[0]) !in edges
    requires SortedBy(better, ready)
    requires mono ==> SortedBy(better, out) && NoBetter(better, ready, out)
    ensures var o := out + [ready[0]];
            && Distinct(o) && Topological(edges, o) && Elems(o) == Elems(out) + {ready[0]}
            && SortedBy(better, ready[1..])
            && (mono ==> SortedBy(better, o) && NoBetter(better, ready[1..], o))
  {
    var best := ready[0];
    assert best in ready;
    forall x, y | x in [best] && y in out ensures (x, y) !in edges {
      assert y in Elems(out);
    }
    TopologicalConcat(edges, out, [best]);
    DistinctConcat(out, [best]);
    ElemsConcat(out, [best]);
    if mono {
      var o := out + [best];
      forall i, j | 0 <= i < j < |o| ensures !better(o[j], o[i]) {
        if j == |out| {
          assert out[i] in out;
        }
      }
      forall x, y | x in o && y in ready[1..] ensures !better(y, x) {
        var j :| 0 <= j < |ready[1..]| && ready[1..][j] == y;
        assert ready[j + 1] == y;
        if x !in out {
          assert !better(ready[j + 1], ready[0]);
        }
      }
    }
  }

  lemma TailSorted(less: Order, s: seq<nat>)
    requires SortedBy(less, s) && s != []
    ensures SortedBy(less, s[1..])
  {
  }

  method FirstReady(nodes: set<nat>, edges: set<(nat, nat)>, count: map<nat, int>, less: Order, ghost better: Order)
    returns (ready: seq<nat>)
    requires Refines(less, better, nodes) && Refines(less, less, nodes)
    requires count.Keys == nodes && forall t | t in nodes :: count[t] == Pending(edges, {}, t)
    ensures Counting(edges, nodes, {}, {}, count, ready)
    ensures SortedBy(better, ready) && SortedBy(less, ready)
  {
    hide Pending, Refines;
    ready := [];
    var todo := set t | t in nodes && count[t] == 0;
    ghost var all := todo;
    while todo != {}
      invariant todo <= all && Elems(ready) == all - todo
      invariant Distinct(ready) && SortedBy(better, ready) && SortedBy(less, ready)
      decreases todo
    {
      var t :| t in todo;
      assert t !in Elems(ready);
      InsertElems(less, ready, t);
      InsertKeepsSorted(less, better, nodes, ready, t);
      InsertKeepsSorted(less, less, nodes, ready, t);
      ready := InsertSorted(less, ready, t);
      todo := todo - {t};
    }
  }

  /** Counts down the successors of the node just emitted and inserts those that are ready. */
  method Release(nodes: set<nat>, edges: set<(nat, nat)>, less: Order, ghost better: Order, ghost mono: bool,
                 ghost out: seq<nat>, ghost best: nat, succs: set<nat>, count0: map<nat, int>, ready0: seq<nat>)
    returns (ready: seq<nat>, count: map<nat, int>)
    requires Refines(less, better, nodes) && Refines(less, less, nodes)
    requires Counting(edges, nodes, Elems(out), succs, count0, ready0)
    requires succs !! Elems(out) && Elems(out) <= nodes && best in nodes
    requires SortedBy(better, ready0) && SortedBy(less, ready0)
    requires mono ==> (forall c | c in succs :: !better(c, best)) && NoBetter(better, ready0, out)
    requires mono ==> forall x | x in out :: !better(best, x)
    ensures Counting(edges, nodes, Elems(out), {}, count, ready)
    ensures SortedBy(better, ready) && SortedBy(less, ready)
    ensures mono ==> NoBetter(better, ready, out)
  {
    hide Pending, Refines;
    ready, count := ready0, count0;
    var todo := succs;
    while todo != {}
      invariant todo <= succs
      invariant Counting(edges, nodes, Elems(out), todo, count, ready)
      invariant SortedBy(better, ready) && SortedBy(less, ready)
      invariant mono ==> NoBetter(better, ready, out)
      decreases todo
    {
      var c :| c in todo;
      CountDown(edges, nodes, Elems(out), todo, count, ready, c, less);
      InsertKeepsSorted(less, better, nodes, ready, c);
      InsertKeepsSorted(less, less, nodes, ready, c);
      ReleaseOrder(nodes, better, less, mono, out, best, ready, c);
      count := count[c := count[c] - 1];
      if count[c] == 0 {
        ready := InsertSorted(less, ready, c);
      }
      todo := todo - {c};
    }
  }

  lemma ReleaseOrder(nodes: set<nat>, better: Order, less: Order, mono: bool, out: seq<nat>, best: nat, ready: seq<nat>, c: nat)
    requires Refines(less, better, nodes) && SortedBy(better, ready) && Elems(ready) <= nodes && c in nodes && best in nodes
    requires Elems(out) <= nodes
    requires mono ==> !better(c, best) && NoBetter(better, ready, out) && forall x | x in out :: !better(best, x)
    ensures mono ==> NoBetter(better, InsertSorted(less, ready, c), out)
  {
    InsertKeepsSorted(less, better, nodes, ready, c);
    if mono {
      forall x, y | x in out && y in InsertSorted(less, ready, c) ensures !better(y, x) {
        assert x in Elems(out);
        if y == c {
          assert !better(best, x);
        }
      }
    }
  }

  /** Sorts by insertion; equal elements keep their order. */
  method SortBy(s: seq<nat>, less: Order, ghost better: Order, ghost nodes: set<nat>) returns (sorted: seq<nat>)
    requires Refines(less, better, nodes) && Elems(s) <= nodes && Distinct(s)
    ensures Distinct(sorted) && Elems(sorted) == Elems(s)
    ensures SortedBy(better, sorted)
  {
    sorted := [];
    for i := 0 to |s|
      invariant Distinct(sorted) && Elems(sorted) == Elems(s[..i])
      invariant SortedBy(better, sorted)
    {
      assert s[..i + 1] == s[..i] + [s[i]];
      assert s[i] in Elems(s);
      DistinctConcat(s[..i], [s[i]]);
      assert s == s[..i + 1] + s[i + 1..];
      DistinctConcat(s[..i + 1], s[i + 1..]);
      assert s[i] !in Elems(sorted);
      InsertElems(less, sorted, s[i]);
      InsertKeepsSorted(less, better, nodes, sorted, s[i]);
      sorted := InsertSorted(less, sorted, s[i]);
    }
    assert s[..|s|] == s;
  }
}
