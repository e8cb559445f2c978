/** Chunks that no cut can improve: every chunk is connected, both halves of a cut are, and what
    bridges a half bridges the whole chunk. The queue of the minimizer over such chunks. */
module SflMinimal {
  import opened Graph
  import opened Components
  import opened SflState
  import opened SflRun

  // ---------- connected chunks

  ghost predicate AllConnected(g: Graph, s: State) {
    forall id | id in s.chunks :: Connected(g.edges, s.chunks[id].txs)
  }

  /** A bridge of a connected set has only one parent side. */
  lemma SideUnique(g: Graph, txs: set<Txid>, a: set<Txid>, b: set<Txid>, e: Dep)
    requires Connected(g.edges, txs) && Bridge(g, txs, a, e) && Bridge(g, txs, b, e)
    ensures a == b
  {
    var u := set t | t in txs && (t in a <==> t in b);
    forall p, c | (p, c) in g.edges && p in txs && c in txs ensures p in u <==> c in u {
      var d := (p, c);
      assert d in g.edges && (d != e ==> (d.0 in a <==> d.1 in a) && (d.0 in b <==> d.1 in b));
    }
    assert e.0 in u && ClosedIn(g.edges, txs, u);
  }

  /** Both sides of a bridge of a connected set are connected. */
  lemma HalvesConnected(g: Graph, txs: set<Txid>, side: set<Txid>, e: Dep)
    requires Connected(g.edges, txs) && Bridge(g, txs, side, e)
    ensures Connected(g.edges, side) && Connected(g.edges, txs - side)
  {
    HalfConnected(g, txs, side, side, e);
    HalfConnected(g, txs, side, txs - side, e);
  }

  lemma HalfConnected(g: Graph, txs: set<Txid>, side: set<Txid>, half: set<Txid>, e: Dep)
    requires Connected(g.edges, txs) && Bridge(g, txs, side, e) && (half == side || half == txs - side)
    ensures Connected(g.edges, half)
  {
    forall u | u <= half && u != {} && ClosedIn(g.edges, half, u) ensures u == half {
      var other := txs - half;
      var whole := if e.0 in u || e.1 in u then u + other else u;
      forall p, c | (p, c) in g.edges && p in txs && c in txs ensures p in whole <==> c in whole {
        var d := (p, c);
        assert d != e ==> (d.0 in side <==> d.1 in side);
      }
      assert ClosedIn(g.edges, txs, whole) && whole != {};
    }
  }

  lemma JoinedConnected(g: Graph, a: set<Txid>, b: set<Txid>, d: Dep)
    requires Connected(g.edges, a) && Connected(g.edges, b) && d in g.edges
    requires (d.0 in a && d.1 in b) || (d.0 in b && d.1 in a)
    ensures Connected(g.edges, a + b)
  {
    forall u | u <= a + b && u != {} && ClosedIn(g.edges, a + b, u) ensures u == a + b {
      assert (d.0, d.1) in g.edges;
      assert d.0 in u <==> d.1 in u;
      assert ClosedIn(g.edges, a, u * a) && ClosedIn(g.edges, b, u * b);
      assert u == u * a + u * b;
    }
  }

  lemma SingleConnected(edges: set<Dep>, s: set<Txid>)
    requires s != {} && forall t, u | t in s && u in s :: t == u
    ensures Connected(edges, s)
  {
  }

  /** Merging keeps chunks connected. */
  lemma {:induction false} MergedConnected(g: Graph, s0: State, s: State, n: nat)
    requires AllConnected(g, s0) && MergedIn(g, s0, s, n)
    ensures AllConnected(g, s)
    decreases n
  {
    hide AllConnected, MergesTo;
    if n > 0 {
      var s1: State, id: nat, far: nat :| MergedIn(g, s0, s1, n - 1) && MergesTo(g, s1, s, id, far);
      MergedConnected(g, s0, s1, n - 1);
      MergeConnected(g, s1, s, id, far);
    }
  }

  lemma {:induction false} RaisedConnected(g: Graph, s0: State, s: State, id: nat, n: nat)
    requires AllConnected(g, s0) && RaisedIn(g, s0, s, id, n)
    ensures AllConnected(g, s)
    decreases n
  {
    hide AllConnected, MergesTo, TakesParent;
    if n > 0 {
      var s1: State, far: nat :| RaisedIn(g, s0, s1, id, n - 1) && TakesParent(g, s1, id, far) && MergesTo(g, s1, s, id, far);
      RaisedConnected(g, s0, s1, id, n - 1);
      MergeConnected(g, s1, s, id, far);
    }
  }

  lemma {:induction false} LoadedConnected(g: Graph, s: State, given: seq<Txid>)
    requires Loaded(g, s, given)
    ensures AllConnected(g, s)
    decreases |given|
  {
    hide AllConnected, Alone;
    if given == [] {
      AloneConnected(g, s);
    } else {
      var tx := given[|given| - 1];
      var s0: State :| Loaded(g, s0, given[..|given| - 1]) && if tx in s0.txToChunk then Raised(g, s0, s, s0.txToChunk[tx]) else s == s0;
      LoadedConnected(g, s0, given[..|given| - 1]);
      if tx in s0.txToChunk {
        var n: nat :| RaisedIn(g, s0, s, s0.txToChunk[tx], n);
        RaisedConnected(g, s0, s, s0.txToChunk[tx], n);
      }
    }
  }

  /** Chunks that come about by merging are connected. */
  lemma BuiltConnected(g: Graph, loaded: State, s: State, given: seq<Txid>)
    requires Loaded(g, loaded, given) && Merged(g, loaded, s)
    ensures AllConnected(g, s)
  {
    hide AllConnected, Loaded;
    LoadedConnected(g, loaded, given);
    var n: nat :| MergedIn(g, loaded, s, n);
    MergedConnected(g, loaded, s, n);
  }

  lemma AloneConnected(g: Graph, s: State)
    requires Alone(g, s)
    ensures AllConnected(g, s)
  {
    hide Connected, SumSet;
    forall id | id in s.chunks ensures Connected(g.edges, s.chunks[id].txs) {
      assert ExactChunk(g, s.chunks[id]);
      SingleConnected(g.edges, s.chunks[id].txs);
    }
  }

  lemma MergeConnected(g: Graph, s: State, s': State, id: nat, far: nat)
    requires AllConnected(g, s) && MergesTo(g, s, s', id, far)
    ensures AllConnected(g, s')
  {
    hide Connected, AtMost;
    var p, c := if TakesParent(g, s, id, far) then far else id, if TakesParent(g, s, id, far) then id else far;
    assert Feeds(g, s, p, c);
    var d :| d in g.edges && d.0 in s.chunks[p].txs && d.1 in s.chunks[c].txs;
    JoinedConnected(g, s.chunks[id].txs, s.chunks[far].txs, d);
  }

  /** Cuts keep them connected. */
  lemma {:induction false} RefinedConnected(g: Graph, s0: State, s: State, rising: bool, n: nat)
    requires AllConnected(g, s0) && RefinedIn(g, s0, s, rising, n)
    ensures AllConnected(g, s)
    decreases n
  {
    hide Connected, Bridge, Rises, Level, SumSet;
    if n > 0 {
      var s1: State, id: nat, child: nat, side: set<Txid>, e: Dep :| RefinedIn(g, s0, s1, rising, n - 1) && CutsTo(g, s1, s, rising, id, child, side, e);
      RefinedConnected(g, s0, s1, rising, n - 1);
      HalvesConnected(g, s1.chunks[id].txs, side, e);
    }
  }

  lemma StaysConnected(g: Graph, s0: State, s: State, rising: bool)
    requires AllConnected(g, s0) && Refined(g, s0, s, rising)
    ensures AllConnected(g, s)
  {
    var n: nat :| RefinedIn(g, s0, s, rising, n);
    RefinedConnected(g, s0, s, rising, n);
  }

  // ---------- bridges of a half

  /** No bridge of the chunk has a parent side of the chunk's feerate. */
  ghost predicate NoLevel(g: Graph, c: SFLChunk) {
    forall side: set<Txid>, e: Dep | Bridge(g, c.txs, side, e) :: !Level(g, c, side)
  }

  ghost predicate Unlevel(g: Graph, s: State) {
    forall id | id in s.chunks :: NoLevel(g, s.chunks[id])
  }

  /** What side `s'` of a bridge of one half of a chunk is in the whole chunk. */
  ghost function Widened(txs: set<Txid>, half: set<Txid>, s': set<Txid>, e0: Dep): set<Txid> {
    if e0.0 in s' || e0.1 in s' then s' + (txs - half) else s'
  }

  lemma HalfBridge(g: Graph, txs: set<Txid>, side: set<Txid>, e0: Dep, half: set<Txid>, s': set<Txid>, e: Dep)
    requires Bridge(g, txs, side, e0) && (half == side || half == txs - side) && Bridge(g, half, s', e)
    ensures Bridge(g, txs, Widened(txs, half, s', e0), e) && Widened(txs, half, s', e0) * half == s'
  {
    var s := Widened(txs, half, s', e0);
    forall d | d in g.edges && d != e && d.0 in txs && d.1 in txs ensures d.0 in s <==> d.1 in s {
      assert d != e0 ==> (d.0 in side <==> d.1 in side);
    }
  }

  /** A level bridge of a half of a level cut is a level bridge of the whole, and a rising one a rising one. */
  lemma HalfRate(g: Graph, c: SFLChunk, side: set<Txid>, e0: Dep, half: set<Txid>, s': set<Txid>, e: Dep)
    requires ExactChunk(g, c) && Bridge(g, c.txs, side, e0) && Level(g, c, side) && c.txs <= g.weight.Keys
    requires (half == side || half == c.txs - side) && Bridge(g, half, s', e)
    ensures var s := Widened(c.txs, half, s', e0);
            (Level(g, Piece(g, half), s') <==> Level(g, c, s)) && (Rises(g, Piece(g, half), s') <==> Rises(g, c, s))
  {
    hide SumSet;
    var other, s := c.txs - half, Widened(c.txs, half, s', e0);
    assert half + other == c.txs && s' !! other && side + (c.txs - side) == c.txs;
    SumSetUnion(g.fee, half, other);
    SumSetUnion(g.weight, half, other);
    SumSetUnion(g.fee, s', other);
    SumSetUnion(g.weight, s', other);
    SumSetUnion(g.fee, side, c.txs - side);
    SumSetUnion(g.weight, side, c.txs - side);
    SumSetPositive(g.weight, half);
    OtherLevel(c.fee, c.weight, SumSet(g.fee, side), SumSet(g.weight, side));
    Scaled(c.fee, c.weight, SumSet(g.fee, half), SumSet(g.weight, half), SumSet(g.fee, s'), SumSet(g.weight, s'));
    Added(c.fee, c.weight, SumSet(g.fee, other), SumSet(g.weight, other), SumSet(g.fee, s'), SumSet(g.weight, s'));
  }

  lemma OtherLevel(fee: int, weight: int, f: int, w: int)
    requires f * weight == fee * w
    ensures (fee - f) * weight == fee * (weight - w)
  {
  }

  /** Comparing with a part of the same feerate is comparing with the whole. */
  lemma Scaled(fee: int, weight: int, fee': int, weight': int, f: int, w: int)
    requires 0 < weight && 0 < weight' && fee' * weight == fee * weight'
    ensures f * weight' == fee' * w <==> f * weight == fee * w
    ensures f * weight' > fee' * w <==> f * weight > fee * w
  {
    var d, d' := f * weight - fee * w, f * weight' - fee' * w;
    calc {
      d * weight';
      f * weight * weight' - fee * w * weight';
      f * weight * weight' - fee' * weight * w;
      d' * weight;
    }
    assert (d > 0 <==> d * weight' > 0) && (d == 0 <==> d * weight' == 0);
    assert (d' > 0 <==> d' * weight > 0) && (d' == 0 <==> d' * weight == 0);
  }

  lemma Added(fee: int, weight: int, f0: int, w0: int, f: int, w: int)
    requires f0 * weight == fee * w0
    ensures (f + f0) * weight - fee * (w + w0) == f * weight - fee * w
  {
  }

  // ---------- the queue of the minimizer

  datatype MinimizeEntry = MinimizeEntry(chunkId: nat, pivot: Txid, movePivotDown: bool, secondStage: bool)

  /** The numbers drawn, one after the other. */
  type Draws = f: nat -> real | forall i :: 0.0 <= f(i) < 1.0 witness (i: nat) => 0.5

  ghost predicate AllPositive(draws: Draws) {
    forall i :: draws(i) > 0.0
  }

  /** In its second stage an entry has every level bridge on the wanted side of its pivot. */
  ghost predicate Sound(g: Graph, c: SFLChunk, e: MinimizeEntry) {
    && e.pivot in c.txs
    && (e.secondStage ==> forall side: set<Txid>, b: Dep | Bridge(g, c.txs, side, b) && Level(g, c, side) :: e.movePivotDown != (e.pivot in side))
  }

  ghost predicate Waits(queue: seq<MinimizeEntry>, id: nat) {
    exists i | 0 <= i < |queue| :: queue[i].chunkId == id
  }

  /** Every chunk is in the queue at most once; if `sure`, only chunks without a level bridge are not. */
  ghost predicate Queued(g: Graph, chunks: map<nat, SFLChunk>, queue: seq<MinimizeEntry>, sure: bool) {
    && (forall i | 0 <= i < |queue| :: queue[i].chunkId in chunks && queue[i].pivot in chunks[queue[i].chunkId].txs)
    && (forall i, j | 0 <= i < j < |queue| :: queue[i].chunkId != queue[j].chunkId)
    && (sure ==> forall i | 0 <= i < |queue| :: Sound(g, chunks[queue[i].chunkId], queue[i]))
    && (sure ==> forall id | id in chunks :: NoLevel(g, chunks[id]) || Waits(queue, id))
  }

  lemma QueuedStart(g: Graph, chunks: map<nat, SFLChunk>, queue: seq<MinimizeEntry>, ids: seq<nat>, sure: bool)
    requires Distinct(ids) && Elems(ids) == chunks.Keys && |queue| == |ids|
    requires forall i | 0 <= i < |ids| :: ids[i] in chunks && queue[i].chunkId == ids[i] && queue[i].pivot in chunks[ids[i]].txs && !queue[i].secondStage
    ensures Queued(g, chunks, queue, sure)
  {
    hide NoLevel;
    forall id | id in chunks ensures Waits(queue, id) {
      assert id in Elems(ids);
      var i :| 0 <= i < |ids| && ids[i] == id;
      assert queue[i].chunkId == id;
    }
  }

  lemma QueuedDone(g: Graph, s: State)
    requires Queued(g, s.chunks, [], true)
    ensures Unlevel(g, s)
  {
    hide NoLevel;
  }

  lemma HeadKnown(g: Graph, chunks: map<nat, SFLChunk>, e: MinimizeEntry, queue: seq<MinimizeEntry>, sure: bool)
    requires Queued(g, chunks, [e] + queue, sure)
    ensures e.chunkId in chunks && e.pivot in chunks[e.chunkId].txs && (sure ==> Sound(g, chunks[e.chunkId], e))
  {
    hide NoLevel, Sound;
    assert ([e] + queue)[0] == e;
  }

  /** The first entry goes, since its chunk has no level bridge. */
  lemma QueuedDrop(g: Graph, chunks: map<nat, SFLChunk>, e: MinimizeEntry, queue: seq<MinimizeEntry>, sure: bool)
    requires Queued(g, chunks, [e] + queue, sure) && e.chunkId in chunks && (sure ==> NoLevel(g, chunks[e.chunkId]))
    ensures Queued(g, chunks, queue, sure)
  {
    hide NoLevel, Sound;
    forall i | 0 <= i < |queue| ensures queue[i] == ([e] + queue)[i + 1] {
    }
    forall id | sure && id in chunks && !NoLevel(g, chunks[id]) ensures Waits(queue, id) {
      var i :| 0 <= i < |[e] + queue| && ([e] + queue)[i].chunkId == id;
      assert queue[i - 1].chunkId == id;
    }
  }

  /** The first entry goes to the end. */
  lemma QueuedAgain(g: Graph, chunks: map<nat, SFLChunk>, e: MinimizeEntry, queue: seq<MinimizeEntry>, e': MinimizeEntry, sure: bool)
    requires Queued(g, chunks, [e] + queue, sure) && e.chunkId in chunks && e'.chunkId == e.chunkId && e'.pivot == e.pivot
    requires sure ==> Sound(g, chunks[e.chunkId], e')
    ensures Queued(g, chunks, queue + [e'], sure)
  {
    hide NoLevel, Sound;
    var all, q := [e] + queue, queue + [e'];
    HeadKnown(g, chunks, e, queue, sure);
    assert all[0] == e && q[|queue|] == e';
    forall i | 0 <= i < |queue| ensures q[i] == all[i + 1] {
    }
    forall id | sure && id in chunks && !NoLevel(g, chunks[id]) ensures Waits(q, id) {
      var i :| 0 <= i < |all| && all[i].chunkId == id;
      assert q[if i == 0 then |queue| else i - 1].chunkId == id;
    }
  }

  /** The chunk of the first entry is cut, and both halves go to the end of the queue. */
  lemma QueuedSplit(g: Graph, chunks: map<nat, SFLChunk>, chunks': map<nat, SFLChunk>, e: MinimizeEntry, queue: seq<MinimizeEntry>,
                    x: MinimizeEntry, y: MinimizeEntry, sure: bool)
    requires Queued(g, chunks, [e] + queue, sure) && x.chunkId != y.chunkId
    requires chunks'.Keys == chunks.Keys + {x.chunkId, y.chunkId} && e.chunkId in {x.chunkId, y.chunkId}
    requires forall id | id in {x.chunkId, y.chunkId} :: id == e.chunkId || id !in chunks
    requires forall id | id in chunks && id != e.chunkId :: chunks'[id] == chunks[id]
    requires x.pivot in chunks'[x.chunkId].txs && y.pivot in chunks'[y.chunkId].txs
    requires sure ==> Sound(g, chunks'[x.chunkId], x) && Sound(g, chunks'[y.chunkId], y)
    ensures Queued(g, chunks', queue + [x, y], sure)
  {
    hide NoLevel, Sound;
    var all, q := [e] + queue, queue + [x, y];
    assert all[0] == e;
    forall i | 0 <= i < |queue| ensures q[i] == all[i + 1] && q[i].chunkId in chunks && q[i].chunkId != e.chunkId {
    }
    assert q[|queue|] == x && q[|queue| + 1] == y;
    forall id | sure && id in chunks' && !NoLevel(g, chunks'[id]) ensures Waits(q, id) {
      if id == x.chunkId {
        assert q[|queue|].chunkId == id;
      } else if id == y.chunkId {
        assert q[|queue| + 1].chunkId == id;
      } else {
        var i :| 0 <= i < |all| && all[i].chunkId == id;
        assert q[i - 1].chunkId == id;
      }
    }
  }

  /** The pivot keeps its side of every level bridge when the other half goes. */
  lemma SoundHalf(g: Graph, c: SFLChunk, side: set<Txid>, e0: Dep, half: set<Txid>, e: MinimizeEntry, e': MinimizeEntry)
    requires g.WellFormed() && ExactChunk(g, c) && Bridge(g, c.txs, side, e0) && Level(g, c, side)
    requires Sound(g, c, e) && (half == side || half == c.txs - side) && e.pivot in half
    requires e' == e.(chunkId := e'.chunkId)
    ensures Sound(g, Piece(g, half), e')
  {
    hide Bridge, Level, SumSet;
    forall s': set<Txid>, b: Dep | e.secondStage && Bridge(g, half, s', b) && Level(g, Piece(g, half), s') ensures e.movePivotDown != (e.pivot in s') {
      HalfBridge(g, c.txs, side, e0, half, s', b);
      HalfRate(g, c, side, e0, half, s', b);
      assert e.pivot in Widened(c.txs, half, s', e0) <==> e.pivot in s';
    }
  }

  // ---------- how many turns there are

  function TurnsOf(e: MinimizeEntry): nat {
    if e.secondStage then 1 else 2
  }

  /** What is left to do in the queue, if nothing is cut. */
  function Turns(queue: seq<MinimizeEntry>): nat {
    if queue == [] then 0 else TurnsOf(queue[0]) + Turns(queue[1..])
  }

  lemma {:induction false} TurnsConcat(q: seq<MinimizeEntry>, r: seq<MinimizeEntry>)
    ensures Turns(q + r) == Turns(q) + Turns(r)
  {
    if q == [] {
      assert q + r == r;
    } else {
      assert (q + r)[1..] == q[1..] + r;
      TurnsConcat(q[1..], r);
    }
  }

  lemma TurnsPair(x: MinimizeEntry, y: MinimizeEntry)
    ensures Turns([x]) == TurnsOf(x) && Turns([x, y]) == TurnsOf(x) + TurnsOf(y)
  {
    assert [x, y] == [x] + [y];
    TurnsConcat([x], [y]);
  }

  lemma {:induction false} TurnsMost(q: seq<MinimizeEntry>)
    ensures Turns(q) <= 2 * |q|
  {
    if q != [] {
      TurnsMost(q[1..]);
    }
  }

  // ---------- level cuts make nothing rise

  lemma UnsplittableStep(g: Graph, s: State, s': State, id: nat, child: nat, side: set<Txid>, e: Dep)
    requires g.WellFormed() && Unsplittable(g, s) && CutsTo(g, s, s', false, id, child, side, e) && ExactChunk(g, s.chunks[id])
    ensures Unsplittable(g, s')
  {
    hide Bridge, Level, SumSet, Rises;
    var c := s.chunks[id];
    forall half: set<Txid>, s1: set<Txid>, b: Dep | (half == side || half == c.txs - side) && Bridge(g, half, s1, b)
      ensures !Rises(g, Piece(g, half), s1)
    {
      HalfBridge(g, c.txs, side, e, half, s1, b);
      HalfRate(g, c, side, e, half, s1, b);
    }
  }
}
