/** The post-linearization pass: groups move left past lower ones and absorb what they
    depend on. */
module PostLinearize {
  import opened Feerate
  import opened Graph
  import opened Components
  import Chunking

  datatype Group = Group(txs: seq<Txid>, deps: set<Txid>, fee: int, weight: int)

  function Flatten(groups: seq<Group>): seq<Txid> {
    if groups == [] then [] else groups[0].txs + Flatten(groups[1..])
  }

  lemma {:induction false} FlattenConcat(a: seq<Group>, b: seq<Group>)
    ensures Flatten(a + b) == Flatten(a) + Flatten(b)
  {
    if a == [] {
      assert a + b == b;
    } else {
      assert (a + b)[1..] == a[1..] + b;
      FlattenConcat(a[1..], b);
      assert a[0].txs + (Flatten(a[1..]) + Flatten(b)) == (a[0].txs + Flatten(a[1..])) + Flatten(b);
    }
  }

  lemma FlattenOne(a: Group)
    ensures Flatten([a]) == a.txs
  {
    assert [a][1..] == [];
  }

  lemma FlattenTake(groups: seq<Group>, k: nat)
    requires k < |groups|
    ensures Flatten(groups[..k + 1]) == Flatten(groups[..k]) + groups[k].txs
  {
    assert groups[..k + 1] == groups[..k] + [groups[k]];
    FlattenConcat(groups[..k], [groups[k]]);
    FlattenOne(groups[k]);
  }

  lemma FlattenAround(groups: seq<Group>, pos: nat)
    requires 0 < pos < |groups|
    ensures Flatten(groups) == Flatten(groups[..pos - 1]) + (groups[pos - 1].txs + groups[pos].txs) + Flatten(groups[pos + 1..])
  {
    hide Flatten;
    assert groups == groups[..pos + 1] + groups[pos + 1..];
    FlattenConcat(groups[..pos + 1], groups[pos + 1..]);
    FlattenTake(groups, pos);
    FlattenTake(groups, pos - 1);
    Assoc(Flatten(groups[..pos - 1]), groups[pos - 1].txs, groups[pos].txs);
  }

  /** The relation a pass follows: spends forwards, or the same spends turned around. */
  function Direction(edges: set<(Txid, Txid)>, forward: bool): set<(Txid, Txid)> {
    if forward then edges else set e | e in edges :: (e.1, e.0)
  }

  function Sign(forward: bool): int {
    if forward then 1 else -1
  }

  predicate Above(a: Group, b: Group) {
    Higher(a.fee, a.weight, b.fee, b.weight)
  }

  ghost predicate Exact(g: Graph, forward: bool, a: Group) {
    && Elems(a.txs) <= g.weight.Keys
    && a.fee == Sum(g.fee, a.txs) * Sign(forward)
    && a.weight == Sum(g.weight, a.txs)
    && 0 < a.weight
  }

  ghost predicate AllExact(g: Graph, forward: bool, groups: seq<Group>) {
    forall i | 0 <= i < |groups| :: Exact(g, forward, groups[i])
  }

  /** Each group knows every seen transaction that one of its members depends on. */
  ghost predicate DepsKnown(edges: set<(Txid, Txid)>, seen: set<Txid>, groups: seq<Group>) {
    forall i, p, t | 0 <= i < |groups| && p in seen && t in groups[i].txs && (p, t) in edges :: p in groups[i].deps
  }

  /** Transactions handled so far: each once, in topological order, with known deps. */
  ghost predicate Sound(edges: set<(Txid, Txid)>, seen: set<Txid>, groups: seq<Group>) {
    && IsLinearization(edges, seen, Flatten(groups))
    && DepsKnown(edges, seen, groups)
  }

  /** Feerates do not increase left of `pos`, right of `pos`, around `pos`, and after `pos`. */
  ghost predicate SortedExcept(groups: seq<Group>, pos: nat)
    requires pos < |groups|
  {
    && (forall i | 0 < i < pos :: !Above(groups[i], groups[i - 1]))
    && (forall i | pos + 1 < i < |groups| :: !Above(groups[i], groups[i - 1]))
    && (0 < pos < |groups| - 1 ==> !Above(groups[pos + 1], groups[pos - 1]))
    && (pos < |groups| - 1 ==> !Above(groups[pos + 1], groups[pos]))
  }

  ghost predicate NonIncreasing(groups: seq<Group>) {
    forall i | 0 < i < |groups| :: !Above(groups[i], groups[i - 1])
  }

  /** The group hangs together, and each of its deps is one of a member. */
  ghost predicate Tied(edges: set<(Txid, Txid)>, a: Group) {
    Connected(edges, Elems(a.txs)) && forall d | d in a.deps :: exists t | t in a.txs :: (d, t) in edges
  }

  ghost predicate AllTied(edges: set<(Txid, Txid)>, groups: seq<Group>) {
    forall i | 0 <= i < |groups| :: Tied(edges, groups[i])
  }

  /** Two connected sets with an edge between them are connected. */
  lemma JoinConnected(edges: set<(Txid, Txid)>, a: set<Txid>, b: set<Txid>, x: Txid, y: Txid)
    requires Connected(edges, a) && Connected(edges, b) && x in a && y in b && (x, y) in edges
    ensures Connected(edges, a + b)
  {
    forall u | u <= a + b && u != {} && ClosedIn(edges, a + b, u) ensures u == a + b {
      assert ClosedIn(edges, a, u * a) && ClosedIn(edges, b, u * b);
      assert u * a <= a && u * b <= b;
      assert u * a == {} || u * a == a;
      assert u * b == {} || u * b == b;
      assert x in u <==> y in u;
      assert x in u * a <==> x in u;
      assert y in u * b <==> y in u;
      assert u == u * a + u * b;
    }
  }

  lemma MergeTied(edges: set<(Txid, Txid)>, groups: seq<Group>, pos: nat)
    requires 0 < pos < |groups| && AllTied(edges, groups) && DepsOverlap(groups[pos], groups[pos - 1])
    ensures AllTied(edges, Merged(groups, pos))
  {
    hide Connected;
    var cur, prev, after := groups[pos], groups[pos - 1], Merged(groups, pos);
    var x :| x in prev.txs && x in cur.deps;
    assert Tied(edges, cur) && Tied(edges, prev);
    var y :| y in cur.txs && (x, y) in edges;
    assert x in Elems(prev.txs) && y in Elems(cur.txs);
    JoinConnected(edges, Elems(prev.txs), Elems(cur.txs), x, y);
    ElemsConcat(prev.txs, cur.txs);
    var joined := after[pos - 1];
    forall d | d in joined.deps ensures exists t | t in joined.txs :: (d, t) in edges {
      if d in prev.deps {
        var t :| t in prev.txs && (d, t) in edges;
        assert t in joined.txs;
      } else {
        var t :| t in cur.txs && (d, t) in edges;
        assert t in joined.txs;
      }
    }
    hide Tied;
    forall i | 0 <= i < |after| && i != pos - 1 ensures Tied(edges, after[i]) {
      assert after[i] == groups[if i < pos - 1 then i else i + 1];
    }
  }

  lemma SingleTied(edges: set<(Txid, Txid)>, groups: seq<Group>, a: Group)
    requires AllTied(edges, groups) && |a.txs| == 1 && forall d | d in a.deps :: (d, a.txs[0]) in edges
    ensures AllTied(edges, groups + [a])
  {
    assert a.txs[0] in Elems(a.txs);
    forall u | u <= Elems(a.txs) && u != {} ensures u == Elems(a.txs) {
      var t :| t in u;
      assert t == a.txs[0];
    }
  }

  // ---------- one step of the moving group

  function Merged(groups: seq<Group>, pos: nat): seq<Group>
    requires 0 < pos < |groups|
  {
    var cur, prev := groups[pos], groups[pos - 1];
    groups[..pos - 1] + [Group(prev.txs + cur.txs, prev.deps + cur.deps, prev.fee + cur.fee, prev.weight + cur.weight)]
    + groups[pos + 1..]
  }

  function Swapped(groups: seq<Group>, pos: nat): seq<Group>
    requires 0 < pos < |groups|
  {
    groups[pos := groups[pos - 1]][pos - 1 := groups[pos]]
  }

  predicate DepsOverlap(cur: Group, prev: Group) {
    exists t | t in prev.txs :: t in cur.deps
  }

  lemma MergeKeepsSound(edges: set<(Txid, Txid)>, seen: set<Txid>, groups: seq<Group>, pos: nat)
    requires 0 < pos < |groups| && Sound(edges, seen, groups)
    ensures Sound(edges, seen, Merged(groups, pos))
  {
    var after := Merged(groups, pos);
    FlattenAround(groups, pos);
    var a, b := groups[..pos - 1], groups[pos + 1..];
    var m := after[pos - 1];
    assert after == a + [m] + b;
    FlattenConcat(a + [m], b);
    FlattenConcat(a, [m]);
    FlattenOne(m);
    forall i, p, t | 0 <= i < |after| && p in seen && t in after[i].txs && (p, t) in edges ensures p in after[i].deps {
      if i < pos - 1 {
        assert after[i] == groups[i];
      } else if i == pos - 1 {
        assert t in groups[pos - 1].txs || t in groups[pos].txs;
      } else {
        assert after[i] == groups[i + 1];
      }
    }
  }

  lemma MergeKeepsExact(g: Graph, forward: bool, groups: seq<Group>, pos: nat)
    requires 0 < pos < |groups| && AllExact(g, forward, groups)
    ensures AllExact(g, forward, Merged(groups, pos))
  {
    var after := Merged(groups, pos);
    var cur, prev := groups[pos], groups[pos - 1];
    assert Exact(g, forward, cur) && Exact(g, forward, prev);
    SumConcat(g.fee, prev.txs, cur.txs);
    SumConcat(g.weight, prev.txs, cur.txs);
    ElemsConcat(prev.txs, cur.txs);
    forall i | 0 <= i < |after| ensures Exact(g, forward, after[i]) {
      if i < pos - 1 {
        assert after[i] == groups[i];
      } else if i > pos - 1 {
        assert after[i] == groups[i + 1];
      }
    }
  }

  lemma MergeKeepsSorted(g: Graph, forward: bool, groups: seq<Group>, pos: nat)
    requires 0 < pos < |groups| && AllExact(g, forward, groups) && SortedExcept(groups, pos)
    ensures SortedExcept(Merged(groups, pos), pos - 1)
  {
    hide Higher;
    var after := Merged(groups, pos);
    var cur, prev := groups[pos], groups[pos - 1];
    assert Exact(g, forward, cur) && Exact(g, forward, prev);
    if pos + 1 < |groups| {
      var next := groups[pos + 1];
      assert Exact(g, forward, next);
      assert after[pos] == next;
      MediantNotBelow(prev.fee, prev.weight, cur.fee, cur.weight, next.fee, next.weight);
      if 1 < pos {
        var left := groups[pos - 2];
        assert Exact(g, forward, left) && !Above(groups[pos - 1], groups[pos - 2]);
        NotHigherTrans(next.fee, next.weight, prev.fee, prev.weight, left.fee, left.weight);
      }
    }
    forall i | pos < i < |after| ensures !Above(after[i], after[i - 1]) {
      assert after[i] == groups[i + 1] && after[i - 1] == groups[i];
    }
    forall i | 0 < i < pos - 1 ensures !Above(after[i], after[i - 1]) {
      assert !Above(groups[i], groups[i - 1]);
    }
  }

  lemma SwapKeepsSound(edges: set<(Txid, Txid)>, seen: set<Txid>, groups: seq<Group>, pos: nat)
    requires 0 < pos < |groups| && Sound(edges, seen, groups)
    requires !DepsOverlap(groups[pos], groups[pos - 1])
    ensures Sound(edges, seen, Swapped(groups, pos))
  {
    var after := Swapped(groups, pos);
    FlattenAround(groups, pos);
    FlattenAround(after, pos);
    assert after[..pos - 1] == groups[..pos - 1] && after[pos + 1..] == groups[pos + 1..];
    var a, b := Flatten(groups[..pos - 1]), Flatten(groups[pos + 1..]);
    var p, c := groups[pos - 1].txs, groups[pos].txs;
    forall x, y | x in p && y in c ensures (x, y) !in edges {
      assert x in Flatten(groups);
    }
    SwapPieces(edges, a, p, c, b);
    forall i, q, t | 0 <= i < |after| && q in seen && t in after[i].txs && (q, t) in edges ensures q in after[i].deps {
      var j := if i == pos then pos - 1 else if i == pos - 1 then pos else i;
      assert after[i] == groups[j];
    }
  }

  /** Two adjacent pieces may trade places when nothing in the second depends on the first. */
  lemma SwapPieces(edges: set<(Txid, Txid)>, a: seq<Txid>, p: seq<Txid>, c: seq<Txid>, b: seq<Txid>)
    requires NoEdges(edges, p, c)
    requires Distinct(a + (p + c) + b) && Topological(edges, a + (p + c) + b)
    ensures Distinct(a + (c + p) + b) && Topological(edges, a + (c + p) + b)
    ensures Elems(a + (c + p) + b) == Elems(a + (p + c) + b)
  {
    TopologicalConcat(edges, a + (p + c), b);
    TopologicalConcat(edges, a, p + c);
    TopologicalConcat(edges, p, c);
    TopologicalConcat(edges, c, p);
    TopologicalConcat(edges, a, c + p);
    TopologicalConcat(edges, a + (c + p), b);
    DistinctConcat(a + (p + c), b);
    DistinctConcat(a, p + c);
    DistinctConcat(p, c);
    DistinctConcat(c, p);
    DistinctConcat(a, c + p);
    DistinctConcat(a + (c + p), b);
    assert Elems(c + p) == Elems(p + c);
    assert Elems(a + (c + p)) == Elems(a + (p + c));
  }

  lemma SwapKeepsSorted(groups: seq<Group>, pos: nat)
    requires 0 < pos < |groups| && SortedExcept(groups, pos) && Above(groups[pos], groups[pos - 1])
    ensures SortedExcept(Swapped(groups, pos), pos - 1)
  {
    var after := Swapped(groups, pos);
    forall i | pos < i < |after| ensures !Above(after[i], after[i - 1]) {
      if i > pos + 1 {
        assert after[i] == groups[i] && after[i - 1] == groups[i - 1];
      }
    }
    forall i | 0 < i < pos - 1 ensures !Above(after[i], after[i - 1]) {
      assert !Above(groups[i], groups[i - 1]);
    }
    if pos > 1 {
      assert !Above(groups[pos - 1], groups[pos - 2]);
    }
  }

  // ---------- the pass

  /** The group at `pos` moves left: it takes in a group it depends on, whatever their feerates, and
      passes a lower one it does not depend on. */
  function Settled(groups: seq<Group>, pos: nat): seq<Group>
    requires pos < |groups|
    decreases pos
  {
    if pos == 0 then groups
    else if DepsOverlap(groups[pos], groups[pos - 1]) then Settled(Merged(groups, pos), pos - 1)
    else if Above(groups[pos], groups[pos - 1]) then Settled(Swapped(groups, pos), pos - 1)
    else groups
  }

  function Related(g: Graph, forward: bool, tx: Txid): set<Txid> {
    if forward then g.Parents(tx) else g.Children(tx)
  }

  /** A transaction as a group of its own. */
  function Single(g: Graph, forward: bool, seen: set<Txid>, tx: Txid): Group {
    Group([tx], Related(g, forward, tx) * seen, At(g.fee, tx) * Sign(forward), At(g.weight, tx))
  }

  /** The groups of one pass. */
  function Passed(g: Graph, input: seq<Txid>, forward: bool): seq<Group> {
    if input == [] then []
    else
      var n := |input| - 1;
      var groups := Passed(g, input[..n], forward);
      Settled(groups + [Single(g, forward, Elems(input[..n]), input[n])], |groups|)
  }

  lemma PassedMore(g: Graph, input: seq<Txid>, tx: Txid, forward: bool)
    ensures Passed(g, input + [tx], forward)
            == Settled(Passed(g, input, forward) + [Single(g, forward, Elems(input), tx)], |Passed(g, input, forward)|)
  {
    hide Settled, Single;
    assert (input + [tx])[..|input|] == input;
  }

  function PassResult(g: Graph, lin: seq<Txid>, forward: bool): seq<Txid> {
    if |lin| <= 1 then lin
    else if forward then Flatten(Passed(g, lin, true))
    else Reverse(Flatten(Passed(g, Reverse(lin), false)))
  }

  /** Let the last group move left until it meets a group that is neither lower nor needed. */
  method Settle(g: Graph, forward: bool, ghost seen: set<Txid>, start: seq<Group>) returns (groups: seq<Group>)
    requires start != [] && NonIncreasing(start[..|start| - 1])
    requires AllExact(g, forward, start) && Sound(Direction(g.edges, forward), seen, start)
    requires AllTied(Direction(g.edges, forward), start)
    ensures AllExact(g, forward, groups) && Sound(Direction(g.edges, forward), seen, groups)
    ensures NonIncreasing(groups) && AllTied(Direction(g.edges, forward), groups) && groups == Settled(start, |start| - 1)
  {
    hide Sound, AllExact, AllTied, SortedExcept, NonIncreasing, Higher, Direction, DepsOverlap;
    groups := start;
    var pos := |groups| - 1;
    StartSorted(start);
    while pos > 0
      invariant 0 <= pos < |groups|
      invariant AllExact(g, forward, groups) && Sound(Direction(g.edges, forward), seen, groups)
      invariant SortedExcept(groups, pos) && AllTied(Direction(g.edges, forward), groups) && Settled(groups, pos) == Settled(start, |start| - 1)
      decreases pos
    {
      var cur, prev := groups[pos], groups[pos - 1];
      if DepsOverlap(cur, prev) {
        MergeKeepsSound(Direction(g.edges, forward), seen, groups, pos);
        MergeKeepsExact(g, forward, groups, pos);
        MergeTied(Direction(g.edges, forward), groups, pos);
        MergeKeepsSorted(g, forward, groups, pos);
        groups := Merged(groups, pos);
        pos := pos - 1;
      } else if Higher(cur.fee, cur.weight, prev.fee, prev.weight) {
        SwapKeepsSound(Direction(g.edges, forward), seen, groups, pos);
        SwapKeepsSorted(groups, pos);
        SwapKeepsEach(g, forward, groups, pos);
        groups := Swapped(groups, pos);
        pos := pos - 1;
      } else {
        SettledSorted(groups, pos);
        return;
      }
    }
    SettledSorted(groups, pos);
  }

  lemma StartSorted(start: seq<Group>)
    requires start != [] && NonIncreasing(start[..|start| - 1])
    ensures SortedExcept(start, |start| - 1)
  {
    var front := start[..|start| - 1];
    forall i | 0 < i < |front| ensures !Above(start[i], start[i - 1]) {
      assert !Above(front[i], front[i - 1]);
    }
  }

  lemma SwapKeepsEach(g: Graph, forward: bool, groups: seq<Group>, pos: nat)
    requires 0 < pos < |groups| && AllExact(g, forward, groups) && AllTied(Direction(g.edges, forward), groups)
    ensures AllExact(g, forward, Swapped(groups, pos)) && AllTied(Direction(g.edges, forward), Swapped(groups, pos))
  {
    hide Exact, Tied;
  }

  lemma SettledSorted(groups: seq<Group>, pos: nat)
    requires pos < |groups| && SortedExcept(groups, pos)
    requires pos > 0 ==> !Above(groups[pos], groups[pos - 1])
    ensures NonIncreasing(groups)
  {
  }

  lemma PushGroup(g: Graph, forward: bool, input: seq<Txid>, i: nat, groups: seq<Group>, deps: set<Txid>)
    requires i < |input| && Distinct(input) && Elems(input) <= g.weight.Keys
    requires Topological(Direction(g.edges, forward), input)
    requires AllExact(g, forward, groups) && Sound(Direction(g.edges, forward), Elems(input[..i]), groups)
    requires forall p | p in Elems(input[..i]) && (p, input[i]) in Direction(g.edges, forward) :: p in deps
    ensures var pushed := groups + [Group([input[i]], deps, At(g.fee, input[i]) * Sign(forward), At(g.weight, input[i]))];
            AllExact(g, forward, pushed) && Sound(Direction(g.edges, forward), Elems(input[..i + 1]), pushed)
  {
    var edges := Direction(g.edges, forward);
    var tx := input[i];
    var last := Group([tx], deps, At(g.fee, tx) * Sign(forward), At(g.weight, tx));
    var pushed := groups + [last];
    SumOne(g.fee, tx);
    SumOne(g.weight, tx);
    assert tx in Elems(input);
    FlattenConcat(groups, [last]);
    FlattenOne(last);
    assert input == input[..i + 1] + input[i + 1..] && input[..i + 1] == input[..i] + [tx];
    TopologicalConcat(edges, input[..i + 1], input[i + 1..]);
    TopologicalConcat(edges, input[..i], [tx]);
    DistinctConcat(input[..i + 1], input[i + 1..]);
    DistinctConcat(input[..i], [tx]);
    var flat := Flatten(groups);
    forall x, y | x in [tx] && y in flat ensures (x, y) !in edges {
      assert y in Elems(flat);
    }
    TopologicalConcat(edges, flat, [tx]);
    DistinctConcat(flat, [tx]);
    ElemsConcat(flat, [tx]);
    ElemsConcat(input[..i], [tx]);
    var seen := Elems(input[..i + 1]);
    forall j, p, t | 0 <= j < |pushed| && p in seen && t in pushed[j].txs && (p, t) in edges ensures p in pushed[j].deps {
      if j < |groups| {
        MemberInFlatten(groups, j, t);
        assert t in Elems(flat);
        assert p != tx;
      } else {
        assert p != tx;
      }
    }
  }

  lemma {:induction false} MemberInFlatten(groups: seq<Group>, j: nat, t: Txid)
    requires j < |groups| && t in groups[j].txs
    ensures t in Flatten(groups)
  {
    if j > 0 {
      MemberInFlatten(groups[1..], j - 1, t);
    }
  }

  /** The groups of one pass over `input`, which follows `Direction(g.edges, forward)`. */
  method BuildGroups(g: Graph, input: seq<Txid>, forward: bool) returns (groups: seq<Group>)
    requires Distinct(input) && Elems(input) <= g.weight.Keys
    requires Topological(Direction(g.edges, forward), input)
    ensures IsLinearization(Direction(g.edges, forward), Elems(input), Flatten(groups))
    ensures AllExact(g, forward, groups) && NonIncreasing(groups) && AllTied(Direction(g.edges, forward), groups)
    ensures groups == Passed(g, input, forward)
  {
    hide Tied, Settled, Sound, AllExact, NonIncreasing, AllTied, Direction, Passed;
    groups := [];
    NoGroups(g, forward);
    var seen: set<Txid> := {};
    for i := 0 to |input|
      invariant seen == Elems(input[..i])
      invariant AllExact(g, forward, groups) && Sound(Direction(g.edges, forward), seen, groups)
      invariant NonIncreasing(groups) && AllTied(Direction(g.edges, forward), groups) && groups == Passed(g, input[..i], forward)
    {
      var tx := input[i];
      var related := if forward then g.Parents(tx) else g.Children(tx);
      var deps := set r | r in related && r in seen;
      RelatedComplete(g, forward, tx);
      PushGroup(g, forward, input, i, groups, deps);
      seen := seen + {tx};
      assert input[..i + 1] == input[..i] + [tx];
      ElemsConcat(input[..i], [tx]);
      assert Elems([tx]) == {tx};
      var pushed := groups + [Group([tx], deps, At(g.fee, tx) * Sign(forward), At(g.weight, tx))];
      assert pushed[..|pushed| - 1] == groups;
      assert deps == Related(g, forward, tx) * Elems(input[..i]);
      PassedMore(g, input[..i], tx, forward);
      SingleTied(Direction(g.edges, forward), groups, pushed[|groups|]);
      groups := Settle(g, forward, seen, pushed);
    }
    assert input[..|input|] == input;
    SoundOrder(Direction(g.edges, forward), seen, groups);
  }

  lemma NoGroups(g: Graph, forward: bool)
    ensures AllExact(g, forward, []) && Sound(Direction(g.edges, forward), {}, []) && NonIncreasing([]) && AllTied(Direction(g.edges, forward), [])
    ensures Passed(g, [], forward) == []
  {
  }

  lemma SoundOrder(edges: set<(Txid, Txid)>, seen: set<Txid>, groups: seq<Group>)
    requires Sound(edges, seen, groups)
    ensures IsLinearization(edges, seen, Flatten(groups))
  {
  }

  lemma RelatedComplete(g: Graph, forward: bool, t: Txid)
    ensures forall p :: (p, t) in Direction(g.edges, forward) <==> p in (if forward then g.Parents(t) else g.Children(t))
  {
    forall p ensures (p, t) in Direction(g.edges, forward) <==> p in (if forward then g.Parents(t) else g.Children(t)) {
      if forward {
        assert (p, t) in g.edges ==> (p, t).0 in g.Parents(t);
      } else {
        assert (t, p) in g.edges ==> (t, p).1 in g.Children(t);
        if (t, p) in g.edges {
          var e := (t, p);
          assert (e.1, e.0) == (p, t);
          assert (p, t) in Direction(g.edges, forward);
        }
      }
    }
  }

  function Reverse(s: seq<Txid>): seq<Txid> {
    seq(|s|, i requires 0 <= i < |s| => s[|s| - 1 - i])
  }

  lemma ReverseElems(s: seq<Txid>)
    ensures Elems(Reverse(s)) == Elems(s)
    ensures Distinct(s) ==> Distinct(Reverse(s))
  {
    forall x | x in s ensures x in Reverse(s) {
      var i :| 0 <= i < |s| && s[i] == x;
      assert Reverse(s)[|s| - 1 - i] == x;
    }
  }

  /** Turning a sequence around turns the order it respects around. */
  lemma ReverseTopological(edges: set<(Txid, Txid)>, s: seq<Txid>)
    ensures Topological(edges, s) <==> Topological(Direction(edges, false), Reverse(s))
  {
    var r, d := Reverse(s), Direction(edges, false);
    forall x, y ensures (x, y) in edges <==> (y, x) in d {
      if (x, y) in edges {
        var e := (x, y);
        assert (e.1, e.0) == (y, x);
      }
    }
    if Topological(edges, s) {
      forall i, j | 0 <= i <= j < |r| ensures (r[j], r[i]) !in d {
        assert (s[|s| - 1 - i], s[|s| - 1 - j]) !in edges;
      }
    }
    if Topological(d, r) {
      forall i, j | 0 <= i <= j < |s| ensures (s[j], s[i]) !in edges {
        assert (r[|s| - 1 - i], r[|s| - 1 - j]) !in d;
      }
    }
  }

  /** The order is made of connected groups with non-increasing feerates, from the front or from the back. */
  ghost predicate IsGrouped(g: Graph, forward: bool, groups: seq<Group>, order: seq<Txid>) {
    && order == (if forward then Flatten(groups) else Reverse(Flatten(groups)))
    && AllExact(g, forward, groups) && NonIncreasing(groups) && AllTied(Direction(g.edges, forward), groups)
  }

  method PostLinearizePass(g: Graph, lin: seq<Txid>, forward: bool) returns (result: seq<Txid>, ghost groups: seq<Group>)
    requires Distinct(lin) && Elems(lin) <= g.weight.Keys && Topological(g.edges, lin)
    ensures IsLinearization(g.edges, Elems(lin), result) && result == PassResult(g, lin, forward)
    ensures |lin| > 1 ==> IsGrouped(g, forward, groups, result)
  {
    hide Tied, AllExact, NonIncreasing, Passed;
    groups := [];
    if |lin| <= 1 {
      result := lin;
      return;
    }
    var input := if forward then lin else Reverse(lin);
    ReverseElems(lin);
    ReverseTopological(g.edges, lin);
    var built := BuildGroups(g, input, forward);
    groups := built;
    result := Flatten(built);
    if !forward {
      ReverseElems(result);
      ReverseReverse(result);
      ReverseTopological(g.edges, Reverse(result));
      result := Reverse(result);
    }
  }

  lemma ReverseReverse(s: seq<Txid>)
    ensures Reverse(Reverse(s)) == s
  {
  }

  /** A pass from the front and one from the back. */
  method PostLinearize(g: Graph, linearization: seq<Txid>) returns (result: seq<Txid>, ghost groups: seq<Group>)
    requires Distinct(linearization) && Elems(linearization) <= g.weight.Keys && Topological(g.edges, linearization)
    ensures IsLinearization(g.edges, Elems(linearization), result)
    ensures |linearization| > 1 ==> IsGrouped(g, false, groups, result)
    ensures result == PassResult(g, PassResult(g, linearization, true), false)
  {
    hide IsGrouped, Passed;
    groups := [];
    if |linearization| <= 1 {
      result := linearization;
      return;
    }
    result, groups := PostLinearizePass(g, linearization, true);
    SameLength(linearization, result);
    result, groups := PostLinearizePass(g, result, false);
  }

  lemma SameLength(a: seq<Txid>, b: seq<Txid>)
    requires Distinct(a) && Distinct(b) && Elems(a) == Elems(b)
    ensures |a| > 1 ==> |b| > 1
  {
    if |a| > 1 {
      assert a[0] in Elems(b) && a[1] in Elems(b);
      assert a[0] != a[1];
    }
  }

  // ---------- a diagram that gets worse

  /** 0 of fee 10, its child 1 of fee 0, and 2 of fee 6, all of one weight. */
  function Trio(): Graph {
    Graph(map[0 := 10, 1 := 0, 2 := 6], map[0 := 1, 1 := 1, 2 := 1], map[0 := 0, 1 := 1, 2 := 2], {(0, 1)})
  }

  lemma SettledOnce(groups: seq<Group>, pos: nat)
    requires pos < |groups|
    ensures pos == 0 || !(DepsOverlap(groups[pos], groups[pos - 1]) || Above(groups[pos], groups[pos - 1])) ==> Settled(groups, pos) == groups
    ensures pos > 0 && DepsOverlap(groups[pos], groups[pos - 1]) ==> Settled(groups, pos) == Settled(Merged(groups, pos), pos - 1)
    ensures pos > 0 && !DepsOverlap(groups[pos], groups[pos - 1]) && Above(groups[pos], groups[pos - 1]) ==>
              Settled(groups, pos) == Settled(Swapped(groups, pos), pos - 1)
  {
  }

  const Parent: Group := Group([0], {}, 10, 1)
  const Child: Group := Group([1], {0}, 0, 1)
  const Both: Group := Group([0, 1], {0}, 10, 2)
  const Third: Group := Group([2], {}, 6, 1)

  lemma TrioSteps()
    ensures Settled([Parent], 0) == [Parent] && Settled([Parent, Child], 1) == [Both] && Settled([Both, Third], 1) == [Third, Both]
    ensures Flatten([Third, Both]) == [2, 0, 1]
  {
    hide Settled;
    SettledOnce([Parent], 0);
    SettledOnce([Parent, Child], 1);
    assert [0] + [1] == [0, 1] && {} + {0} == {0};
    assert Merged([Parent, Child], 1) == [Both];
    SettledOnce([Both], 0);
    SettledOnce([Both, Third], 1);
    assert Swapped([Both, Third], 1) == [Third, Both];
    SettledOnce([Third, Both], 0);
    FlattenConcat([Third], [Both]);
    FlattenOne(Third);
    FlattenOne(Both);
  }

  lemma PassStep(g: Graph, forward: bool, input: seq<Txid>, tx: Txid, before: seq<Group>, a: Group, pushed: seq<Group>, after: seq<Group>)
    requires Passed(g, input, forward) == before && Single(g, forward, Elems(input), tx) == a
    requires pushed == before + [a] && Settled(pushed, |before|) == after
    ensures Passed(g, input + [tx], forward) == after
  {
    hide Passed, Single, Settled;
    PassedMore(g, input, tx, forward);
  }

  lemma TrioSets()
    ensures Elems<Txid>([]) == {} && Elems<Txid>([0]) == {0} && Elems<Txid>([0, 1]) == {0, 1} && Elems<Txid>([1]) == {1} && Elems<Txid>([1, 0]) == {0, 1}
    ensures [] + [0] == [0] && [0] + [1] == [0, 1] && [0, 1] + [2] == [0, 1, 2] && [] + [1] == [1] && [1] + [0] == [1, 0] && [1, 0] + [2] == [1, 0, 2]
  {
  }

  lemma TrioPassed()
    ensures Passed(Trio(), [0, 1, 2], true) == [Third, Both]
  {
    hide Settled, Passed, Trio, Single, Flatten, Elems;
    TrioSingles();
    TrioSteps();
    NoGroups(Trio(), true);
    TrioSets();
    PassStep(Trio(), true, [], 0, [], Parent, [Parent], [Parent]);
    PassStep(Trio(), true, [0], 1, [Parent], Child, [Parent, Child], [Both]);
    PassStep(Trio(), true, [0, 1], 2, [Both], Third, [Both, Third], [Third, Both]);
  }

  /** The child takes in its parent, and together they fall behind the third. */
  lemma TrioForward()
    ensures PassResult(Trio(), [0, 1, 2], true) == [2, 0, 1]
  {
    hide Passed, Trio, Flatten;
    TrioPassed();
    TrioSteps();
  }

  lemma TrioSingles()
    ensures Single(Trio(), true, {}, 0) == Parent && Single(Trio(), true, {0}, 1) == Child && Single(Trio(), true, {0, 1}, 2) == Third
  {
  }

  const ChildBack: Group := Group([1], {}, 0, 1)
  const ParentBack: Group := Group([0], {1}, -10, 1)
  const BothBack: Group := Group([1, 0], {1}, -10, 2)
  const ThirdBack: Group := Group([2], {}, -6, 1)

  lemma TrioSinglesBack()
    ensures Single(Trio(), false, {}, 1) == ChildBack && Single(Trio(), false, {1}, 0) == ParentBack && Single(Trio(), false, {0, 1}, 2) == ThirdBack
  {
  }

  lemma TrioStepsBack()
    ensures Settled([ChildBack], 0) == [ChildBack] && Settled([ChildBack, ParentBack], 1) == [BothBack]
    ensures Settled([BothBack, ThirdBack], 1) == [BothBack, ThirdBack] && Flatten([BothBack, ThirdBack]) == [1, 0, 2]
  {
    hide Settled;
    SettledOnce([ChildBack], 0);
    SettledOnce([ChildBack, ParentBack], 1);
    assert [1] + [0] == [1, 0] && {} + {1} == {1};
    assert Merged([ChildBack, ParentBack], 1) == [BothBack];
    SettledOnce([BothBack], 0);
    SettledOnce([BothBack, ThirdBack], 1);
    FlattenConcat([BothBack], [ThirdBack]);
    FlattenOne(BothBack);
    FlattenOne(ThirdBack);
  }

  lemma TrioPassedBack()
    ensures Passed(Trio(), [1, 0, 2], false) == [BothBack, ThirdBack]
  {
    hide Settled, Passed, Trio, Single, Flatten, Elems;
    TrioSinglesBack();
    TrioStepsBack();
    NoGroups(Trio(), false);
    TrioSets();
    PassStep(Trio(), false, [], 1, [], ChildBack, [ChildBack], [ChildBack]);
    PassStep(Trio(), false, [1], 0, [ChildBack], ParentBack, [ChildBack, ParentBack], [BothBack]);
    PassStep(Trio(), false, [1, 0], 2, [BothBack], ThirdBack, [BothBack, ThirdBack], [BothBack, ThirdBack]);
  }

  lemma TrioBackward()
    ensures PassResult(Trio(), [2, 0, 1], false) == [2, 0, 1]
  {
    hide Passed, Trio, Flatten, Reverse;
    TrioPassedBack();
    TrioStepsBack();
    TrioReversed();
  }

  lemma TrioReversed()
    ensures Reverse([2, 0, 1]) == [1, 0, 2] && Reverse([1, 0, 2]) == [2, 0, 1]
  {
  }

  /** The pass can make the fee-over-weight diagram worse: the first chunk of this result is lower than
      that of the order it was given. */
  lemma DiagramCanDrop()
    ensures var g, before, after := Trio(), [Chunking.Chunk([0], 10, 1), Chunking.Chunk([1, 2], 6, 2)], [Chunking.Chunk([2, 0], 16, 2), Chunking.Chunk([1], 0, 1)];
            && IsLinearization(g.edges, {0, 1, 2}, [0, 1, 2]) && Chunking.IsChunking(g, [0, 1, 2], before)
            && Chunking.IsChunking(g, PassResult(g, PassResult(g, [0, 1, 2], true), false), after) && Chunking.Above(before[0], after[0])
  {
    hide PassResult;
    TrioForward();
    TrioBackward();
    TrioChunkedBefore();
    TrioChunkedAfter();
    assert Trio().edges == {(0, 1)};
  }

  lemma TrioSums(x: Txid, y: Txid)
    ensures Sum(Trio().fee, [x]) == At(Trio().fee, x) && Sum(Trio().weight, [x]) == At(Trio().weight, x)
    ensures Sum(Trio().fee, [x, y]) == At(Trio().fee, x) + At(Trio().fee, y) && Sum(Trio().weight, [x, y]) == At(Trio().weight, x) + At(Trio().weight, y)
  {
    hide Trio;
    SumOne(Trio().fee, x);
    SumOne(Trio().weight, x);
    SumOne(Trio().fee, y);
    SumOne(Trio().weight, y);
    SumConcat(Trio().fee, [x], [y]);
    SumConcat(Trio().weight, [x], [y]);
    assert [x] + [y] == [x, y];
  }

  lemma TrioChunkedBefore()
    ensures Chunking.IsChunking(Trio(), [0, 1, 2], [Chunking.Chunk([0], 10, 1), Chunking.Chunk([1, 2], 6, 2)])
  {
    hide Sum;
    var a, b := Chunking.Chunk([0], 10, 1), Chunking.Chunk([1, 2], 6, 2);
    Chunking.FlattenConcat([a], [b]);
    Chunking.FlattenOne(a);
    Chunking.FlattenOne(b);
    TrioSums(0, 1);
    TrioSums(1, 2);
    assert b.txs[..1] == [1];
  }

  lemma TrioChunkedAfter()
    ensures Chunking.IsChunking(Trio(), [2, 0, 1], [Chunking.Chunk([2, 0], 16, 2), Chunking.Chunk([1], 0, 1)])
  {
    hide Sum;
    var a, b := Chunking.Chunk([2, 0], 16, 2), Chunking.Chunk([1], 0, 1);
    Chunking.FlattenConcat([a], [b]);
    Chunking.FlattenOne(a);
    Chunking.FlattenOne(b);
    TrioSums(2, 0);
    TrioSums(1, 0);
    assert a.txs[..1] == [2];
  }
}
