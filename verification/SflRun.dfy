/** Runs of the spanning-forest linearizer: which merges and which cuts lead from one partition into
    chunks to the next. */
module SflRun {
  import opened Graph
  import opened SetSize
  import opened SflState

  datatype State = State(chunks: map<nat, SFLChunk>, txToChunk: map<Txid, nat>)

  // ---------- merging

  /** Some transaction of chunk `c` spends one of chunk `p`. */
  ghost predicate Feeds(g: Graph, s: State, p: nat, c: nat) {
    p in s.chunks && c in s.chunks && p != c && exists d | d in g.edges :: d.0 in s.chunks[p].txs && d.1 in s.chunks[c].txs
  }

  /** The feerate of `a` is at most that of `b`. */
  ghost predicate AtMost(a: SFLChunk, b: SFLChunk) {
    a.fee * b.weight <= b.fee * a.weight
  }

  /** `far` is a parent chunk of `id` of no higher feerate, and one of lowest feerate. */
  ghost predicate TakesParent(g: Graph, s: State, id: nat, far: nat) {
    && Feeds(g, s, far, id) && AtMost(s.chunks[far], s.chunks[id])
    && forall x: nat | Feeds(g, s, x, id) && AtMost(s.chunks[x], s.chunks[id]) :: AtMost(s.chunks[far], s.chunks[x])
  }

  /** `far` is a child chunk of `id` of no lower feerate, and one of highest feerate. */
  ghost predicate TakesChild(g: Graph, s: State, id: nat, far: nat) {
    && Feeds(g, s, id, far) && AtMost(s.chunks[id], s.chunks[far])
    && forall x: nat | Feeds(g, s, id, x) && AtMost(s.chunks[id], s.chunks[x]) :: AtMost(s.chunks[x], s.chunks[far])
  }

  ghost predicate MergesTo(g: Graph, s: State, s': State, id: nat, far: nat) {
    && (TakesParent(g, s, id, far) || TakesChild(g, s, id, far))
    && IsMerge(s.chunks, s.txToChunk, s'.chunks, s'.txToChunk, id, far)
  }

  /** Every transaction is a chunk of its own. */
  ghost predicate Alone(g: Graph, s: State) {
    Partition(g, s.chunks, s.txToChunk) && forall t, u | t in s.txToChunk && u in s.txToChunk && s.txToChunk[t] == s.txToChunk[u] :: t == u
  }

  /** `n` merges lead from `s0` to `s`. */
  ghost predicate MergedIn(g: Graph, s0: State, s: State, n: nat)
    decreases n
  {
    if n == 0 then s == s0 else exists s1: State, id: nat, far: nat :: MergedIn(g, s0, s1, n - 1) && MergesTo(g, s1, s, id, far)
  }

  ghost predicate Merged(g: Graph, s0: State, s: State) {
    exists n: nat :: MergedIn(g, s0, s, n)
  }

  lemma MergedSelf(g: Graph, s: State)
    ensures Merged(g, s, s)
  {
    assert MergedIn(g, s, s, 0);
  }

  lemma MergedOnce(g: Graph, s: State, s': State, id: nat, far: nat)
    requires MergesTo(g, s, s', id, far)
    ensures Merged(g, s, s')
  {
    hide MergesTo;
    assert MergedIn(g, s, s, 0) && MergedIn(g, s, s', 1);
  }

  lemma MergedTrans(g: Graph, s0: State, s1: State, s2: State)
    requires Merged(g, s0, s1) && Merged(g, s1, s2)
    ensures Merged(g, s0, s2)
  {
    var m: nat :| MergedIn(g, s0, s1, m);
    var n: nat :| MergedIn(g, s1, s2, n);
    MergedAfter(g, s0, s1, s2, m, n);
  }

  lemma {:induction false} MergedAfter(g: Graph, s0: State, s1: State, s2: State, m: nat, n: nat)
    requires MergedIn(g, s0, s1, m) && MergedIn(g, s1, s2, n)
    ensures MergedIn(g, s0, s2, m + n)
    decreases n
  {
    hide MergesTo;
    if n > 0 {
      var s: State, id: nat, far: nat :| MergedIn(g, s1, s, n - 1) && MergesTo(g, s, s2, id, far);
      MergedAfter(g, s0, s1, s, m, n - 1);
    }
  }

  /** `n` times chunk `id` absorbs a parent chunk that is not above it. */
  ghost predicate RaisedIn(g: Graph, s0: State, s: State, id: nat, n: nat)
    decreases n
  {
    if n == 0 then s == s0
    else exists s1: State, far: nat :: RaisedIn(g, s0, s1, id, n - 1) && TakesParent(g, s1, id, far) && MergesTo(g, s1, s, id, far)
  }

  /** Chunk `id` absorbs parent chunks until all that are left are above it. */
  ghost predicate Raised(g: Graph, s0: State, s: State, id: nat) {
    (exists n: nat :: RaisedIn(g, s0, s, id, n)) && forall x: nat | Feeds(g, s, x, id) :: !AtMost(s.chunks[x], s.chunks[id])
  }

  lemma RaisedStart(g: Graph, s: State, id: nat)
    ensures RaisedIn(g, s, s, id, 0)
  {
  }

  lemma RaisedMore(g: Graph, s0: State, s1: State, s: State, id: nat, n: nat, far: nat)
    requires RaisedIn(g, s0, s1, id, n) && TakesParent(g, s1, id, far) && MergesTo(g, s1, s, id, far)
    ensures RaisedIn(g, s0, s, id, n + 1)
  {
    hide TakesParent, MergesTo;
  }

  lemma {:induction false} RaisedStays(g: Graph, s0: State, s: State, id: nat, n: nat)
    requires RaisedIn(g, s0, s, id, n) && id in s0.chunks
    ensures id in s.chunks
    decreases n
  {
    hide TakesParent, TakesChild;
    if n > 0 {
      var s1: State, far: nat :| RaisedIn(g, s0, s1, id, n - 1) && TakesParent(g, s1, id, far) && MergesTo(g, s1, s, id, far);
      RaisedStays(g, s0, s1, id, n - 1);
    }
  }

  /** From single transactions, the chunk of one given transaction after the other is raised. */
  ghost predicate Loaded(g: Graph, s: State, given: seq<Txid>)
    decreases |given|
  {
    if given == [] then Alone(g, s)
    else
      exists s0: State :: Loaded(g, s0, given[..|given| - 1])
                       && var tx := given[|given| - 1];
                          if tx in s0.txToChunk then Raised(g, s0, s, s0.txToChunk[tx]) else s == s0
  }

  lemma LoadedMore(g: Graph, s0: State, s: State, given: seq<Txid>, tx: Txid)
    requires Loaded(g, s0, given) && if tx in s0.txToChunk then Raised(g, s0, s, s0.txToChunk[tx]) else s == s0
    ensures Loaded(g, s, given + [tx])
  {
    hide Raised;
    assert (given + [tx])[..|given|] == given;
  }

  // ---------- cutting

  /** Dependency `e` leads from `side` to the rest of `txs`, and no other one inside `txs` crosses. */
  ghost predicate Bridge(g: Graph, txs: set<Txid>, side: set<Txid>, e: Dep) {
    && e in g.edges && side <= txs && e.0 in side && e.1 in txs - side
    && forall d | d in g.edges && d != e && d.0 in txs && d.1 in txs :: d.0 in side <==> d.1 in side
  }

  /** The parent side of the bridge has a higher feerate than the chunk. */
  ghost predicate Rises(g: Graph, c: SFLChunk, side: set<Txid>) {
    SumSet(g.fee, side) * c.weight > c.fee * SumSet(g.weight, side)
  }

  ghost predicate Level(g: Graph, c: SFLChunk, side: set<Txid>) {
    SumSet(g.fee, side) * c.weight == c.fee * SumSet(g.weight, side)
  }

  ghost function Piece(g: Graph, txs: set<Txid>): SFLChunk {
    SFLChunk(txs, SumSet(g.fee, txs), SumSet(g.weight, txs))
  }

  /** Chunk `id` is cut at bridge `e`; the child side becomes chunk `child`. */
  ghost predicate CutsTo(g: Graph, s: State, s': State, rising: bool, id: nat, child: nat, side: set<Txid>, e: Dep) {
    && id in s.chunks && child !in s.chunks && Bridge(g, s.chunks[id].txs, side, e)
    && (if rising then Rises(g, s.chunks[id], side) else Level(g, s.chunks[id], side))
    && var rest := s.chunks[id].txs - side;
       s' == State(s.chunks[id := Piece(g, side)][child := Piece(g, rest)], Moved(s.txToChunk, rest, child))
  }

  ghost predicate RefinedIn(g: Graph, s0: State, s: State, rising: bool, n: nat)
    decreases n
  {
    if n == 0 then s == s0
    else exists s1: State, id: nat, child: nat, side: set<Txid>, e: Dep :: RefinedIn(g, s0, s1, rising, n - 1) && CutsTo(g, s1, s, rising, id, child, side, e)
  }

  /** Cuts lead from `s0` to `s`. */
  ghost predicate Refined(g: Graph, s0: State, s: State, rising: bool) {
    exists n: nat :: RefinedIn(g, s0, s, rising, n)
  }

  lemma RefinedSelf(g: Graph, s: State, rising: bool)
    ensures Refined(g, s, s, rising)
  {
    assert RefinedIn(g, s, s, rising, 0);
  }

  lemma RefinedMore(g: Graph, s0: State, s: State, s': State, rising: bool, id: nat, child: nat, side: set<Txid>, e: Dep)
    requires Refined(g, s0, s, rising) && CutsTo(g, s, s', rising, id, child, side, e)
    ensures Refined(g, s0, s', rising)
  {
    hide CutsTo;
    var n: nat :| RefinedIn(g, s0, s, rising, n);
    assert RefinedIn(g, s0, s', rising, n + 1);
  }

  /** No bridge of the chunk has a parent side of higher feerate. */
  ghost predicate NoSplit(g: Graph, c: SFLChunk) {
    forall side: set<Txid>, e: Dep | Bridge(g, c.txs, side, e) :: !Rises(g, c, side)
  }

  ghost predicate Unsplittable(g: Graph, s: State) {
    forall id | id in s.chunks :: NoSplit(g, s.chunks[id])
  }

  // ---------- what a run may cost

  /** Bounds what one merge, one failed attempt or one turn of the splitting costs. */
  ghost function Unit(g: Graph): nat {
    40 * (|g.Nodes()| + |g.edges| + 1)
  }

  ghost function Units(g: Graph, n: nat): nat {
    n * Unit(g)
  }

  lemma UnitsAdd(g: Graph, a: nat, b: nat)
    ensures Units(g, a + b) == Units(g, a) + Units(g, b) && Units(g, 0) == 0 && Units(g, 1) == Unit(g)
  {
    Distribute(a, b, Unit(g));
  }

  lemma Distribute(a: nat, b: nat, u: nat)
    ensures (a + b) * u == a * u + b * u
  {
  }

  lemma UnitsLess(g: Graph, a: nat, b: nat)
    requires a <= b
    ensures Units(g, a) <= Units(g, b)
  {
    UnitsAdd(g, a, b - a);
  }

  /** What is spent before anything is merged. */
  ghost function StartCost(g: Graph): nat {
    87 * |g.Nodes()| + 4 * |g.edges|
  }

  /** A budget that pays for every split there can be, after `given` transactions of an existing
      linearization were merged upwards. */
  ghost function Enough(g: Graph, given: nat): nat {
    StartCost(g) + Units(g, given + 15 * |g.Nodes()| + 5)
  }

  /** Chunks are at most as many as transactions. */
  lemma ChunkCount(g: Graph, chunks: map<nat, SFLChunk>, txToChunk: map<Txid, nat>)
    requires Partition(g, chunks, txToChunk)
    ensures |chunks| <= |g.Nodes()| && forall id | id in chunks :: |chunks[id].txs| <= |g.Nodes()|
  {
    hide SumSet;
    forall id | id in chunks ensures exists t | t in g.Nodes() :: txToChunk[t] == id {
      assert ExactChunk(g, chunks[id]);
      var t :| t in chunks[id].txs;
      assert t in txToChunk;
    }
    ImageSize(txToChunk, g.Nodes(), chunks.Keys);
    forall id | id in chunks ensures |chunks[id].txs| <= |g.Nodes()| {
      assert forall t | t in chunks[id].txs :: t in txToChunk;
      SubsetSize(chunks[id].txs, g.Nodes());
    }
  }

  lemma {:induction false} ImageSize(m: map<Txid, nat>, from: set<Txid>, to: set<nat>)
    requires from <= m.Keys && forall id | id in to :: exists t | t in from :: m[t] == id
    ensures |to| <= |from|
    decreases from
  {
    if to != {} {
      var id :| id in to;
      var t :| t in from && m[t] == id;
      forall i | i in to - {id} ensures exists u | u in from - {t} :: m[u] == i {
        var u :| u in from && m[u] == i;
        assert u in from - {t};
      }
      ImageSize(m, from - {t}, to - {id});
    }
  }
}
