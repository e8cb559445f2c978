/** The whole linearizer of one cluster: spanning forest, post-linearization, chunking,
    splitting chunks into connected parts, and the canonical order of chunks. */
module Linearize {
  import opened Feerate
  import opened Graph
  import opened Chunking
  import opened Kahn
  import opened Components
  import Hull
  import SflState
  import Extraction
  import SpanningForest
  import SflMinimal
  import PostLinearize

  // ---------- keeping part of a sequence

  function Filter(s: seq<Txid>, keep: set<Txid>): seq<Txid> {
    if s == [] then [] else (if s[0] in keep then [s[0]] else []) + Filter(s[1..], keep)
  }

  lemma {:induction false} FilterKeeps(edges: set<(Txid, Txid)>, s: seq<Txid>, keep: set<Txid>)
    requires Distinct(s) && Topological(edges, s)
    ensures Elems(Filter(s, keep)) == Elems(s) * keep
    ensures Distinct(Filter(s, keep)) && Topological(edges, Filter(s, keep))
  {
    if s != [] {
      var head, rest := [s[0]], s[1..];
      assert s == head + rest;
      DistinctConcat(head, rest);
      TopologicalConcat(edges, head, rest);
      ElemsConcat(head, rest);
      FilterKeeps(edges, rest, keep);
      var f := Filter(rest, keep);
      forall x | x in f ensures x in rest {
        assert x in Elems(f);
      }
      DistinctConcat(head, f);
      TopologicalConcat(edges, head, f);
      ElemsConcat(head, f);
      if s[0] !in keep {
        assert [] + f == f;
      }
    }
  }

  // ---------- splitting a chunk into connected parts

  /** The number of the component of each transaction. */
  ghost function PartOf(comps: seq<set<Txid>>, within: set<Txid>): (part: map<Txid, nat>)
    requires Covers(within, comps)
    ensures part.Keys == within
    ensures forall t | t in within :: part[t] < |comps| && t in comps[part[t]]
  {
    map t | t in within :: var i: nat :| i < |comps| && t in comps[i]; i
  }

  lemma ComponentsDisjoint(edges: set<(Txid, Txid)>, within: set<Txid>, comps: seq<set<Txid>>, i: nat, j: nat)
    requires AreComponents(edges, within, comps) && i < |comps| && j < |comps| && i != j
    ensures comps[i] !! comps[j]
  {
    hide IsComponent;
    if i < j {
    } else {
      assert comps[j] !! comps[i];
    }
  }

  lemma PartIs(edges: set<(Txid, Txid)>, within: set<Txid>, comps: seq<set<Txid>>, t: Txid, i: nat)
    requires AreComponents(edges, within, comps)
    requires t in within && i < |comps| && t in comps[i]
    ensures PartOf(comps, within)[t] == i
  {
    hide IsComponent, PartOf;
    var j := PartOf(comps, within)[t];
    assert t in comps[j];
    if i != j {
      ComponentsDisjoint(edges, within, comps, i, j);
    }
  }

  lemma PartMembers(edges: set<(Txid, Txid)>, within: set<Txid>, comps: seq<set<Txid>>, i: nat)
    requires AreComponents(edges, within, comps) && i < |comps|
    ensures Extraction.TxsIn(PartOf(comps, within), [i]) == comps[i]
  {
    ComponentSizes(edges, within, comps);
    hide IsComponent, PartOf;
    var part := PartOf(comps, within);
    forall t | t in part ensures t in comps[i] <==> part[t] == i {
      PartMember(edges, within, comps, i, t);
    }
    hide AreComponents, PartOf;
    TxsInOne(part, i, comps[i]);
  }

  lemma PartMember(edges: set<(Txid, Txid)>, within: set<Txid>, comps: seq<set<Txid>>, i: nat, t: Txid)
    requires AreComponents(edges, within, comps) && i < |comps| && t in within
    ensures t in comps[i] <==> PartOf(comps, within)[t] == i
  {
    hide IsComponent, PartOf;
    if t in comps[i] {
      PartIs(edges, within, comps, t, i);
    }
  }

  lemma TxsInOne(part: map<Txid, nat>, i: nat, s: set<Txid>)
    requires s <= part.Keys && forall t | t in part :: t in s <==> part[t] == i
    ensures Extraction.TxsIn(part, [i]) == s
  {
  }

  lemma TxsInAll(part: map<Txid, nat>, ids: seq<nat>)
    requires forall t | t in part :: part[t] in Elems(ids)
    ensures Extraction.TxsIn(part, ids) == part.Keys
    ensures Extraction.TxsIn(part, []) == {}
  {
  }

  lemma PartEdges(edges: set<(Txid, Txid)>, within: set<Txid>, comps: seq<set<Txid>>)
    requires AreComponents(edges, within, comps)
    ensures SflState.Quotient(edges, PartOf(comps, within)) == {}
  {
    hide PartOf;
    var part := PartOf(comps, within);
    forall e | e in edges && e.0 in part && e.1 in part ensures part[e.0] == part[e.1] {
      ComponentEdge(edges, within, comps, e.0, e.1, part[e.0]);
      PartIs(edges, within, comps, e.1, part[e.0]);
    }
    hide AreComponents;
  }

  lemma ComponentEdge(edges: set<(Txid, Txid)>, within: set<Txid>, comps: seq<set<Txid>>, p: Txid, c: Txid, i: nat)
    requires AreComponents(edges, within, comps) && i < |comps|
    requires (p, c) in edges && p in within && c in within && p in comps[i]
    ensures c in comps[i]
  {
    assert IsComponent(edges, within, comps[i]);
  }

  /** Sort keys of the components: fee, weight and first position. */
  method ComponentKeys(g: Graph, txs: seq<Txid>, comps: seq<set<Txid>>)
    returns (fee: map<nat, int>, weight: map<nat, int>, first: map<nat, int>)
    requires Distinct(txs) && Topological(g.edges, txs) && Elems(txs) <= g.weight.Keys
    requires forall i | 0 <= i < |comps| :: comps[i] != {} && comps[i] <= Elems(txs)
    ensures forall i | 0 <= i < |comps| :: At(fee, i) == Sum(g.fee, Filter(txs, comps[i]))
    ensures forall i | 0 <= i < |comps| :: At(weight, i) == Sum(g.weight, Filter(txs, comps[i])) && 0 < At(weight, i)
    ensures forall i | 0 <= i < |comps| :: FirstIn(txs, comps[i], At(first, i))
  {
    hide Filter, Sum, Topological, Distinct, FirstIn;
    fee, weight, first := map[], map[], map[];
    for i := 0 to |comps|
      invariant forall k | 0 <= k < i :: At(fee, k) == Sum(g.fee, Filter(txs, comps[k]))
      invariant forall k | 0 <= k < i :: At(weight, k) == Sum(g.weight, Filter(txs, comps[k])) && 0 < At(weight, k)
      invariant forall k | 0 <= k < i :: FirstIn(txs, comps[k], At(first, k))
    {
      ComponentWeight(g, txs, comps[i]);
      fee := fee[i := Sum(g.fee, Filter(txs, comps[i]))];
      weight := weight[i := Sum(g.weight, Filter(txs, comps[i]))];
      var pos := 0;
      while pos < |txs| && txs[pos] !in comps[i]
        invariant 0 <= pos <= |txs| && forall k | 0 <= k < pos :: txs[k] !in comps[i]
      {
        pos := pos + 1;
      }
      IsFirst(txs, comps[i], pos);
      first := first[i := pos];
    }
  }

  /** The first position of a member. */
  ghost predicate FirstIn(txs: seq<Txid>, comp: set<Txid>, pos: int) {
    0 <= pos < |txs| && txs[pos] in comp && forall k | 0 <= k < pos :: txs[k] !in comp
  }

  lemma IsFirst(txs: seq<Txid>, comp: set<Txid>, pos: nat)
    requires comp != {} && comp <= Elems(txs) && pos <= |txs| && (pos == |txs| || txs[pos] in comp)
    requires forall k | 0 <= k < pos :: txs[k] !in comp
    ensures FirstIn(txs, comp, pos)
  {
    var t :| t in comp;
    assert t in Elems(txs);
  }

  lemma {:induction false} FilterBegins(txs: seq<Txid>, comp: set<Txid>, pos: nat)
    requires FirstIn(txs, comp, pos)
    ensures Filter(txs, comp) != [] && Filter(txs, comp)[0] == txs[pos]
  {
    if pos > 0 {
      FilterBegins(txs[1..], comp, pos - 1);
    }
  }

  lemma ComponentWeight(g: Graph, txs: seq<Txid>, comp: set<Txid>)
    requires Distinct(txs) && Topological(g.edges, txs) && Elems(txs) <= g.weight.Keys
    requires comp != {} && comp <= Elems(txs)
    ensures 0 < Sum(g.weight, Filter(txs, comp))
    ensures Exact(g, Chunk(Filter(txs, comp), Sum(g.fee, Filter(txs, comp)), Sum(g.weight, Filter(txs, comp))))
    ensures IsLinearization(g.edges, comp, Filter(txs, comp))
  {
    FilterKeeps(g.edges, txs, comp);
    assert Elems(txs) * comp == comp;
    SumPositive(g.weight, Filter(txs, comp));
  }

  /** Among parts with one feerate, the one that begins first comes first. */
  ghost predicate TiesInOrder(txs: seq<Txid>, subs: seq<Chunk>) {
    forall i: nat, j: nat, p: nat, q: nat | i < j < |subs| && BeginsAt(txs, subs[i], p) && BeginsAt(txs, subs[j], q) :: Above(subs[i], subs[j]) || p < q
  }

  ghost predicate BeginsAt(txs: seq<Txid>, c: Chunk, p: nat) {
    p < |txs| && c.txs != [] && c.txs[0] == txs[p]
  }

  /** Every part has its transactions in the order of the chunk. */
  ghost predicate KeepsOrder(txs: seq<Txid>, subs: seq<Chunk>) {
    forall i | 0 <= i < |subs| :: subs[i].txs == Filter(txs, Elems(subs[i].txs))
  }

  /** The connected parts of a chunk as they replace it. */
  ghost predicate PartsOf(g: Graph, chunk: Chunk, subs: seq<Chunk>) {
    && AllExact(g, subs) && NonIncreasing(subs) && TiesInOrder(chunk.txs, subs) && KeepsOrder(chunk.txs, subs)
    && IsLinearization(g.edges, Elems(chunk.txs), Flatten(subs))
    && forall i | 0 <= i < |subs| :: IsComponent(g.edges, Elems(chunk.txs), Elems(subs[i].txs))
  }

  lemma {:induction false} FilterAll(s: seq<Txid>, keep: set<Txid>)
    requires forall x | x in s :: x in keep
    ensures Filter(s, keep) == s
  {
    if s != [] {
      FilterAll(s[1..], keep);
      assert s == [s[0]] + s[1..];
    }
  }

  /** Connected parts of the chunk, highest feerate first, each in the order of the chunk. */
  method SplitChunkByComponents(g: Graph, chunk: Chunk) returns (subs: seq<Chunk>)
    requires Exact(g, chunk) && Distinct(chunk.txs) && Topological(g.edges, chunk.txs)
    ensures AllExact(g, subs) && NonIncreasing(subs) && TiesInOrder(chunk.txs, subs) && KeepsOrder(chunk.txs, subs)
    ensures IsLinearization(g.edges, Elems(chunk.txs), Flatten(subs))
    ensures forall i | 0 <= i < |subs| :: IsComponent(g.edges, Elems(chunk.txs), Elems(subs[i].txs))
  {
    hide AreComponents, IsComponent, Exact, Refines, FirstIn, BeginsAt, SortedBy;
    ChunkKeys(g, chunk);
    var comps := FindComponents(g.edges, chunk.txs);
    if |comps| <= 1 {
      WholeChunk(g, chunk, comps);
      FilterAll(chunk.txs, Elems(chunk.txs));
      return [chunk];
    }
    ComponentSizes(g.edges, Elems(chunk.txs), comps);
    var fee, weight, first := ComponentKeys(g, chunk.txs, comps);
    var ids := seq(|comps|, i => i);
    ghost var nodes := Indices(|comps|);
    IdentityElems(|comps|);
    var less := Extraction.FeerateThen(fee, weight, first);
    Extraction.FeerateThenWeak(fee, weight, first, nodes);
    ids := SortBy(ids, less, less, nodes);
    Extraction.SortedByFeerate(fee, weight, first, ids);
    subs := BuildParts(g, chunk.txs, comps, ids, fee, weight, first);
  }

  lemma ChunkKeys(g: Graph, chunk: Chunk)
    requires Exact(g, chunk)
    ensures chunk.txs != [] && Elems(chunk.txs) <= g.weight.Keys
  {
  }

  lemma ComponentSizes(edges: set<(Txid, Txid)>, within: set<Txid>, comps: seq<set<Txid>>)
    requires AreComponents(edges, within, comps)
    ensures forall i | 0 <= i < |comps| :: comps[i] != {} && comps[i] <= within
  {
    forall i | 0 <= i < |comps| ensures comps[i] != {} && comps[i] <= within {
      assert IsComponent(edges, within, comps[i]);
    }
  }

  lemma WholeChunk(g: Graph, chunk: Chunk, comps: seq<set<Txid>>)
    requires chunk.txs != [] && AreComponents(g.edges, Elems(chunk.txs), comps) && |comps| <= 1
    ensures IsComponent(g.edges, Elems(chunk.txs), Elems(chunk.txs))
    ensures Flatten([chunk]) == chunk.txs
  {
    FlattenOne(chunk);
    var within := Elems(chunk.txs);
    ComponentSizes(g.edges, within, comps);
    hide IsComponent;
    assert chunk.txs[0] in within;
    assert comps[0] == within;
    assert IsComponent(g.edges, within, comps[0]);
  }

  method BuildParts(g: Graph, txs: seq<Txid>, comps: seq<set<Txid>>, ids: seq<nat>, fee: map<nat, int>, weight: map<nat, int>,
                    ghost first: map<nat, int>)
    returns (subs: seq<Chunk>)
    requires Distinct(txs) && Topological(g.edges, txs) && Elems(txs) <= g.weight.Keys
    requires AreComponents(g.edges, Elems(txs), comps)
    requires Distinct(ids) && Elems(ids) == Indices(|comps|)
    requires forall i | 0 <= i < |comps| :: At(fee, i) == Sum(g.fee, Filter(txs, comps[i]))
    requires forall i | 0 <= i < |comps| :: At(weight, i) == Sum(g.weight, Filter(txs, comps[i]))
    requires forall i | 0 <= i < |comps| :: FirstIn(txs, comps[i], At(first, i))
    requires SortedBy(Extraction.BetterBy(fee, weight), ids) && SortedBy(Extraction.FeerateThen(fee, weight, first), ids)
    ensures AllExact(g, subs) && NonIncreasing(subs) && TiesInOrder(txs, subs) && KeepsOrder(txs, subs)
    ensures IsLinearization(g.edges, Elems(txs), Flatten(subs))
    ensures forall i | 0 <= i < |subs| :: IsComponent(g.edges, Elems(txs), Elems(subs[i].txs))
  {
    hide Higher, Exact, IsComponent, IsLinearization, AreComponents, Filter, Sum, Flatten, Distinct, SortedBy, Extraction.TxsIn, Extraction.BetterBy, Extraction.FeerateThen, Topological, At, FirstIn, TiesInOrder;
    PartsNone(g.edges);
    IdsBelow(ids, |comps|);
    subs := [];
    ghost var part := ComponentParts(g.edges, Elems(txs), comps, ids);
    for n := 0 to |ids|
      invariant |subs| == n && AllExact(g, subs)
      invariant forall k | 0 <= k < n :: subs[k].fee == At(fee, ids[k]) && subs[k].weight == At(weight, ids[k])
      invariant forall k | 0 <= k < n :: IsComponent(g.edges, Elems(txs), Elems(subs[k].txs))
      invariant forall k | 0 <= k < n :: subs[k].txs == Filter(txs, comps[ids[k]]) && Elems(subs[k].txs) == comps[ids[k]]
      invariant IsLinearization(g.edges, Extraction.TxsIn(part, ids[..n]), Flatten(subs))
    {
      var i := ids[n];
      assert i in Elems(ids);
      PartLinearization(g, txs, comps, part, i);
      var sub := Chunk(Filter(txs, comps[i]), Sum(g.fee, Filter(txs, comps[i])), Sum(g.weight, Filter(txs, comps[i])));
      Extraction.AppendPiece(g.edges, part, Elems(ids), ids, n, Flatten(subs), sub.txs);
      FlattenConcat(subs, [sub]);
      FlattenOne(sub);
      subs := subs + [sub];
    }
    assert ids[..|ids|] == ids;
    SortedParts(fee, weight, ids, subs);
    TiesSorted(g.edges, txs, comps, fee, weight, first, ids, subs);
  }

  lemma IdsBelow(ids: seq<nat>, n: nat)
    requires Elems(ids) == Indices(n)
    ensures forall k | 0 <= k < |ids| :: ids[k] < n
  {
    forall k | 0 <= k < |ids| ensures ids[k] < n {
      assert ids[k] in Elems(ids);
    }
  }

  lemma TiesSorted(edges: set<(Txid, Txid)>, txs: seq<Txid>, comps: seq<set<Txid>>, fee: map<nat, int>, weight: map<nat, int>, first: map<nat, int>,
                   ids: seq<nat>, subs: seq<Chunk>)
    requires Distinct(txs) && AreComponents(edges, Elems(txs), comps) && Distinct(ids) && Elems(ids) == Indices(|comps|) && |subs| == |ids|
    requires SortedBy(Extraction.FeerateThen(fee, weight, first), ids)
    requires forall i | 0 <= i < |comps| :: FirstIn(txs, comps[i], At(first, i))
    requires forall k | 0 <= k < |ids| :: subs[k].fee == At(fee, ids[k]) && subs[k].weight == At(weight, ids[k])
    requires forall k | 0 <= k < |ids| :: ids[k] < |comps| && subs[k].txs == Filter(txs, comps[ids[k]])
    ensures TiesInOrder(txs, subs)
  {
    hide Higher, AreComponents, Filter, FirstIn;
    forall i: nat, j: nat, p: nat, q: nat | i < j < |subs| && BeginsAt(txs, subs[i], p) && BeginsAt(txs, subs[j], q) ensures Above(subs[i], subs[j]) || p < q {
      PartBegins(txs, comps[ids[i]], At(first, ids[i]), subs[i], p);
      PartBegins(txs, comps[ids[j]], At(first, ids[j]), subs[j], q);
      assert !Extraction.FeerateThen(fee, weight, first)(ids[j], ids[i]);
      if p == q {
        SameComponent(edges, Elems(txs), comps, ids[i], ids[j], txs[p]);
      }
    }
  }

  lemma PartBegins(txs: seq<Txid>, comp: set<Txid>, first: int, c: Chunk, p: nat)
    requires Distinct(txs) && FirstIn(txs, comp, first) && c.txs == Filter(txs, comp) && BeginsAt(txs, c, p)
    ensures p == first && txs[p] in comp
  {
    FilterBegins(txs, comp, first);
  }

  lemma SameComponent(edges: set<(Txid, Txid)>, within: set<Txid>, comps: seq<set<Txid>>, i: nat, j: nat, t: Txid)
    requires AreComponents(edges, within, comps) && i < |comps| && j < |comps| && t in comps[i] && t in comps[j]
    ensures i == j
  {
  }

  lemma PartsNone(edges: set<(Txid, Txid)>)
    ensures Flatten([]) == [] && IsLinearization(edges, {}, [])
    ensures forall part: map<Txid, nat> :: Extraction.TxsIn(part, []) == {}
  {
  }

  lemma PartLinearization(g: Graph, txs: seq<Txid>, comps: seq<set<Txid>>, part: map<Txid, nat>, i: nat)
    requires Distinct(txs) && Topological(g.edges, txs) && Elems(txs) <= g.weight.Keys
    requires AreComponents(g.edges, Elems(txs), comps) && i < |comps| && part == PartOf(comps, Elems(txs))
    ensures Exact(g, Chunk(Filter(txs, comps[i]), Sum(g.fee, Filter(txs, comps[i])), Sum(g.weight, Filter(txs, comps[i]))))
    ensures IsComponent(g.edges, Elems(txs), Elems(Filter(txs, comps[i])))
    ensures IsLinearization(g.edges, Extraction.TxsIn(part, [i]), Filter(txs, comps[i])) && Elems(Filter(txs, comps[i])) == comps[i]
  {
    ComponentSizes(g.edges, Elems(txs), comps);
    PartMembers(g.edges, Elems(txs), comps, i);
    ComponentWeight(g, txs, comps[i]);
    hide IsComponent;
    assert IsComponent(g.edges, Elems(txs), comps[i]);
  }

  /** With no edges between components, any order of them will do. */
  lemma ComponentParts(edges: set<(Txid, Txid)>, within: set<Txid>, comps: seq<set<Txid>>, ids: seq<nat>) returns (part: map<Txid, nat>)
    requires AreComponents(edges, within, comps) && Distinct(ids) && Elems(ids) == Indices(|comps|)
    ensures AreComponents(edges, within, comps) && part == PartOf(comps, within)
    ensures IsLinearization(SflState.Quotient(edges, part), Elems(ids), ids)
    ensures Extraction.TxsIn(part, ids) == within
    ensures IsLinearization(edges, Extraction.TxsIn(part, ids[..0]), Flatten([]))
  {
    part := PartOf(comps, within);
    PartEdges(edges, within, comps);
    hide AreComponents, PartOf;
    TxsInAll(part, ids);
    assert ids[..0] == [];
  }

  lemma SortedParts(fee: map<nat, int>, weight: map<nat, int>, ids: seq<nat>, subs: seq<Chunk>)
    requires |subs| == |ids| && SortedBy(Extraction.BetterBy(fee, weight), ids)
    requires forall k | 0 <= k < |ids| :: subs[k].fee == At(fee, ids[k]) && subs[k].weight == At(weight, ids[k])
    ensures NonIncreasing(subs)
  {
    hide Higher;
    forall k | 0 < k < |subs| ensures !Above(subs[k], subs[k - 1]) {
      assert !Extraction.BetterBy(fee, weight)(ids[k], ids[k - 1]);
    }
  }

  /** Rearranging one block leaves the whole a linearization. */
  lemma ReplaceBlock(edges: set<(Txid, Txid)>, a: seq<Txid>, c: seq<Txid>, r: seq<Txid>, f: seq<Txid>)
    requires Distinct(a + c) && Topological(edges, a + c)
    requires IsLinearization(edges, Elems(a), r) && IsLinearization(edges, Elems(c), f)
    ensures IsLinearization(edges, Elems(a + c), r + f)
  {
    DistinctConcat(a, c);
    TopologicalConcat(edges, a, c);
    forall x, y | x in f && y in r ensures (x, y) !in edges {
      assert x in Elems(f) && y in Elems(r);
      assert x in c && y in a;
    }
    DistinctConcat(r, f);
    TopologicalConcat(edges, r, f);
    ElemsConcat(a, c);
    ElemsConcat(r, f);
  }

  lemma NotEmpty(g: Graph, chunk: Chunk)
    requires Exact(g, chunk)
    ensures chunk.txs != []
  {
  }

  /** The piece is one of the connected components of some chunk. */
  ghost predicate ComponentOfSome(g: Graph, chunks: seq<Chunk>, piece: Chunk) {
    exists j | 0 <= j < |chunks| :: IsComponent(g.edges, Elems(chunks[j].txs), Elems(piece.txs))
  }

  lemma SingleComponent(g: Graph, chunk: Chunk)
    requires |chunk.txs| == 1
    ensures IsComponent(g.edges, Elems(chunk.txs), Elems(chunk.txs))
  {
    var t := chunk.txs[0];
    assert t in Elems(chunk.txs);
    forall u | u <= Elems(chunk.txs) && u != {} ensures u == Elems(chunk.txs) {
      var x :| x in u;
      assert x == t;
    }
  }

  lemma MoreComponents(g: Graph, chunks: seq<Chunk>, i: nat, result: seq<Chunk>, subs: seq<Chunk>)
    requires i < |chunks| && forall k | 0 <= k < |result| :: ComponentOfSome(g, chunks, result[k])
    requires forall k | 0 <= k < |subs| :: IsComponent(g.edges, Elems(chunks[i].txs), Elems(subs[k].txs))
    ensures forall k | 0 <= k < |result + subs| :: ComponentOfSome(g, chunks, (result + subs)[k])
  {
    hide IsComponent;
    forall k | 0 <= k < |subs| ensures ComponentOfSome(g, chunks, subs[k]) {
    }
    hide ComponentOfSome;
  }

  ghost function Joined(parts: seq<seq<Chunk>>): seq<Chunk> {
    if parts == [] then [] else Joined(parts[..|parts| - 1]) + parts[|parts| - 1]
  }

  lemma JoinedMore(parts: seq<seq<Chunk>>, part: seq<Chunk>)
    ensures Joined(parts + [part]) == Joined(parts) + part
  {
    assert (parts + [part])[..|parts|] == parts;
  }

  lemma SinglePart(g: Graph, chunk: Chunk)
    requires Exact(g, chunk) && |chunk.txs| == 1 && Distinct(chunk.txs) && Topological(g.edges, chunk.txs)
    ensures PartsOf(g, chunk, [chunk])
  {
    hide Exact, IsComponent;
    SingleComponent(g, chunk);
    FlattenOne(chunk);
    FilterAll(chunk.txs, Elems(chunk.txs));
  }

  /** Every chunk is replaced by its connected parts. */
  method MinimizeChunks(g: Graph, chunks: seq<Chunk>) returns (result: seq<Chunk>, ghost parts: seq<seq<Chunk>>)
    requires AllExact(g, chunks) && Distinct(Flatten(chunks)) && Topological(g.edges, Flatten(chunks))
    ensures AllExact(g, result)
    ensures IsLinearization(g.edges, Elems(Flatten(chunks)), Flatten(result))
    ensures forall k | 0 <= k < |result| :: ComponentOfSome(g, chunks, result[k])
    ensures |parts| == |chunks| && result == Joined(parts) && forall i | 0 <= i < |chunks| :: PartsOf(g, chunks[i], parts[i])
  {
    hide Exact, IsComponent, ComponentOfSome, PartsOf, KeepsOrder, TiesInOrder, NonIncreasing, IsLinearization, Distinct, Topological, Flatten, Joined;
    result, parts := [], [];
    NothingSplit(g, chunks);
    for i := 0 to |chunks|
      invariant |parts| == i && result == Joined(parts) && forall k | 0 <= k < i :: PartsOf(g, chunks[k], parts[k])
      invariant AllExact(g, result)
      invariant IsLinearization(g.edges, Elems(Flatten(chunks[..i])), Flatten(result))
      invariant forall k | 0 <= k < |result| :: ComponentOfSome(g, chunks, result[k])
    {
      BlockOf(g, chunks, i);
      assert Exact(g, chunks[i]);
      var subs := [chunks[i]];
      FlattenOne(chunks[i]);
      if |chunks[i].txs| > 1 {
        subs := SplitChunkByComponents(g, chunks[i]);
        ArePartsOf(g, chunks[i], subs);
      } else {
        NotEmpty(g, chunks[i]);
        SingleComponent(g, chunks[i]);
        SinglePart(g, chunks[i]);
      }
      JoinedMore(parts, subs);
      parts := parts + [subs];
      MoreComponents(g, chunks, i, result, subs);
      ReplaceBlock(g.edges, Flatten(chunks[..i]), chunks[i].txs, Flatten(result), Flatten(subs));
      FlattenConcat(result, subs);
      result := result + subs;
    }
    assert chunks[..|chunks|] == chunks;
  }

  lemma NothingSplit(g: Graph, chunks: seq<Chunk>)
    ensures IsLinearization(g.edges, Elems(Flatten(chunks[..0])), Flatten([])) && Joined([]) == []
  {
  }

  lemma ArePartsOf(g: Graph, chunk: Chunk, subs: seq<Chunk>)
    requires AllExact(g, subs) && NonIncreasing(subs) && TiesInOrder(chunk.txs, subs) && KeepsOrder(chunk.txs, subs)
    requires IsLinearization(g.edges, Elems(chunk.txs), Flatten(subs))
    requires forall i | 0 <= i < |subs| :: IsComponent(g.edges, Elems(chunk.txs), Elems(subs[i].txs))
    ensures PartsOf(g, chunk, subs)
  {
  }

  lemma FlattenTake(chunks: seq<Chunk>, i: nat)
    requires i < |chunks|
    ensures Flatten(chunks[..i + 1]) == Flatten(chunks[..i]) + chunks[i].txs
  {
    assert chunks[..i + 1] == chunks[..i] + [chunks[i]];
    FlattenConcat(chunks[..i], [chunks[i]]);
    FlattenOne(chunks[i]);
  }

  lemma FlattenSplit(chunks: seq<Chunk>, i: nat)
    requires i <= |chunks|
    ensures Flatten(chunks) == Flatten(chunks[..i]) + Flatten(chunks[i..])
  {
    assert chunks == chunks[..i] + chunks[i..];
    FlattenConcat(chunks[..i], chunks[i..]);
  }

  lemma BlockOf(g: Graph, chunks: seq<Chunk>, i: nat)
    requires i < |chunks| && Distinct(Flatten(chunks)) && Topological(g.edges, Flatten(chunks))
    ensures Flatten(chunks[..i + 1]) == Flatten(chunks[..i]) + chunks[i].txs
    ensures Distinct(Flatten(chunks[..i]) + chunks[i].txs) && Topological(g.edges, Flatten(chunks[..i]) + chunks[i].txs)
    ensures Distinct(chunks[i].txs) && Topological(g.edges, chunks[i].txs)
  {
    hide Flatten;
    FlattenTake(chunks, i);
    FlattenSplit(chunks, i + 1);
    DistinctConcat(Flatten(chunks[..i + 1]), Flatten(chunks[i + 1..]));
    TopologicalConcat(g.edges, Flatten(chunks[..i + 1]), Flatten(chunks[i + 1..]));
    DistinctConcat(Flatten(chunks[..i]), chunks[i].txs);
    TopologicalConcat(g.edges, Flatten(chunks[..i]), chunks[i].txs);
  }

  // ---------- the canonical order of chunks

  /** `part` numbers the chunk of every transaction. */
  ghost predicate Numbers(chunks: seq<Chunk>, n: nat, part: map<Txid, nat>)
    requires n <= |chunks|
  {
    && (forall t :: t in part <==> t in Flatten(chunks[..n]))
    && (forall t | t in part :: part[t] < n && t in chunks[part[t]].txs)
  }

  method NumberChunks(chunks: seq<Chunk>) returns (part: map<Txid, nat>)
    ensures Numbers(chunks, |chunks|, part)
  {
    hide Flatten;
    part := map[];
    NumbersNone(chunks);
    for i := 0 to |chunks|
      invariant Numbers(chunks, i, part)
    {
      FlattenTake(chunks, i);
      ghost var before := part;
      for k := 0 to |chunks[i].txs|
        invariant forall t :: t in part <==> t in Flatten(chunks[..i]) || t in chunks[i].txs[..k]
        invariant forall t | t in part :: part[t] <= i && t in chunks[part[t]].txs
      {
        part := part[chunks[i].txs[k] := i];
        assert chunks[i].txs[..k + 1] == chunks[i].txs[..k] + [chunks[i].txs[k]];
      }
      assert chunks[i].txs[..|chunks[i].txs|] == chunks[i].txs;
    }
  }

  lemma NumbersNone(chunks: seq<Chunk>)
    ensures Numbers(chunks, 0, map[])
  {
    assert chunks[..0] == [];
  }

  lemma {:induction false} InFlatten(chunks: seq<Chunk>, i: nat, t: Txid)
    requires i < |chunks| && t in chunks[i].txs
    ensures t in Flatten(chunks)
  {
    if i > 0 {
      InFlatten(chunks[1..], i - 1, t);
    }
  }

  /** Blocks of a linearization: no transaction of a later block is in or above an earlier one. */
  lemma BlocksApart(edges: set<(Txid, Txid)>, chunks: seq<Chunk>, i: nat, j: nat, x: Txid, y: Txid)
    requires Distinct(Flatten(chunks)) && Topological(edges, Flatten(chunks))
    requires i < j < |chunks| && x in chunks[i].txs && y in chunks[j].txs
    ensures x != y && (y, x) !in edges
  {
    InFlatten(chunks[..j], i, x);
    InFlatten(chunks[j..], 0, y);
    FlattenSplit(chunks, j);
    hide Flatten;
    DistinctConcat(Flatten(chunks[..j]), Flatten(chunks[j..]));
    TopologicalConcat(edges, Flatten(chunks[..j]), Flatten(chunks[j..]));
    assert x in Elems(Flatten(chunks[..j])) && y in Elems(Flatten(chunks[j..]));
  }

  lemma NumberIs(edges: set<(Txid, Txid)>, chunks: seq<Chunk>, part: map<Txid, nat>, i: nat)
    requires Distinct(Flatten(chunks)) && Topological(edges, Flatten(chunks))
    requires Numbers(chunks, |chunks|, part) && i < |chunks|
    ensures Extraction.TxsIn(part, [i]) == Elems(chunks[i].txs)
  {
    assert chunks[..|chunks|] == chunks;
    forall t | t in chunks[i].txs ensures t in part && part[t] == i {
      InFlatten(chunks, i, t);
      if part[t] < i {
        BlocksApart(edges, chunks, part[t], i, t, t);
      } else if i < part[t] {
        BlocksApart(edges, chunks, i, part[t], t, t);
      }
    }
    hide Flatten;
    TxsInOne(part, i, Elems(chunks[i].txs));
  }

  /** In a topological list of chunks, chunk dependencies point to later chunks. */
  lemma ChunkEdgesForward(edges: set<(Txid, Txid)>, chunks: seq<Chunk>, part: map<Txid, nat>)
    requires Distinct(Flatten(chunks)) && Topological(edges, Flatten(chunks))
    requires Numbers(chunks, |chunks|, part)
    ensures forall i, j | (i, j) in SflState.Quotient(edges, part) :: i < j < |chunks|
  {
    forall i, j | (i, j) in SflState.Quotient(edges, part) ensures i < j < |chunks| {
      var e :| e in edges && e.0 in part && e.1 in part && part[e.0] == i && part[e.1] == j && i != j;
      if j < i {
        BlocksApart(edges, chunks, j, i, e.1, e.0);
      }
    }
  }

  /** Keys of the chunks: fee, weight and highest order. */
  method ChunkSortKeys(g: Graph, chunks: seq<Chunk>) returns (fee: map<nat, int>, weight: map<nat, int>, order: map<nat, int>)
    requires AllExact(g, chunks)
    ensures forall i | 0 <= i < |chunks| :: At(fee, i) == chunks[i].fee && At(weight, i) == chunks[i].weight
    ensures forall i | 0 <= i < |chunks| :: Extraction.IsMaxOrder(g.order, Elems(chunks[i].txs), At(order, i))
  {
    hide Extraction.IsMaxOrder;
    fee, weight, order := map[], map[], map[];
    for i := 0 to |chunks|
      invariant forall k | 0 <= k < i :: At(fee, k) == chunks[k].fee && At(weight, k) == chunks[k].weight
      invariant forall k | 0 <= k < i :: Extraction.IsMaxOrder(g.order, Elems(chunks[k].txs), At(order, k))
    {
      fee := fee[i := chunks[i].fee];
      weight := weight[i := chunks[i].weight];
      var max := Extraction.MaxOrder(g.order, Elems(chunks[i].txs));
      order := order[i := max];
    }
  }

  predicate Below(ids: seq<nat>, n: nat) {
    forall k | 0 <= k < |ids| :: ids[k] < n
  }

  function Pick(chunks: seq<Chunk>, ids: seq<nat>): seq<Chunk>
    requires Below(ids, |chunks|)
  {
    seq(|ids|, k requires 0 <= k < |ids| => chunks[ids[k]])
  }

  /** Chunks best feerate first as their parent chunks allow; lighter ones first among equals. */
  method CanonicalizeChunkOrder(g: Graph, chunks: seq<Chunk>) returns (result: seq<Chunk>)
    requires IsChunking(g, Flatten(chunks), chunks)
    requires IsLinearization(g.edges, g.Nodes(), Flatten(chunks))
    ensures IsChunking(g, Flatten(result), result)
    ensures IsLinearization(g.edges, g.Nodes(), Flatten(result))
    ensures multiset(result) == multiset(chunks)
    ensures CanonicalOrder(g, result)
  {
    hide Exact, Solid, Refines, IsLinearization, LeastFirst;
    if |chunks| <= 1 {
      return chunks;
    }
    ChunkingFacts(g, chunks);
    var part := NumberChunks(chunks);
    var edges := SflState.Quotient(g.edges, part);
    var fee, weight, order := ChunkSortKeys(g, chunks);
    ghost var rank := CanonicalSetup(g, chunks, part, fee, weight);
    Extraction.LessRefinesBetter(fee, weight, order, false, Indices(|chunks|));
    Extraction.LessRefinesItself(fee, weight, order, false, Indices(|chunks|));
    var ids := Emit(Indices(|chunks|), edges, Extraction.LessBy(fee, weight, order, false), Extraction.BetterBy(fee, weight), rank);
    ValidIds(edges, |chunks|, ids);
    result := Pick(chunks, ids);
    CanonicalChunking(g, chunks, fee, weight, ids);
    CanonicalLinearization(g, chunks, part, ids);
    PickMultiset(chunks, ids);
    PickCanonical(g, chunks, part, fee, weight, order, ids);
  }

  /** No transaction of chunk `b` spends from chunk `a`. */
  ghost predicate Independent(g: Graph, a: Chunk, b: Chunk) {
    forall p, c | p in a.txs && c in b.txs :: (p, c) !in g.edges
  }

  /** Chunk `a` goes before `b`: by feerate, then the lighter, then by highest order. */
  ghost predicate ChunkBefore(g: Graph, a: Chunk, b: Chunk) {
    exists m, n :: Extraction.IsMaxOrder(g.order, Elems(a.txs), m) && Extraction.IsMaxOrder(g.order, Elems(b.txs), n)
                   && (a.fee * b.weight > b.fee * a.weight
                       || (a.fee * b.weight == b.fee * a.weight && (a.weight < b.weight || (a.weight == b.weight && m < n))))
  }

  /** Each chunk is first among those whose parent chunks are all out. */
  ghost predicate CanonicalOrder(g: Graph, chunks: seq<Chunk>) {
    forall i, j | 0 <= i < j < |chunks| && (forall k | i <= k < |chunks| && k != j :: Independent(g, chunks[k], chunks[j])) ::
      !ChunkBefore(g, chunks[j], chunks[i])
  }

  lemma MaxOrderIs(order: map<Txid, nat>, txs: set<Txid>, m: int, n: int)
    requires Extraction.IsMaxOrder(order, txs, m) && Extraction.IsMaxOrder(order, txs, n)
    ensures m == n
  {
  }

  lemma PickCanonical(g: Graph, chunks: seq<Chunk>, part: map<Txid, nat>, fee: map<nat, int>, weight: map<nat, int>, order: map<nat, int>, ids: seq<nat>)
    requires Numbers(chunks, |chunks|, part) && Below(ids, |chunks|) && Distinct(ids) && Elems(ids) == Indices(|chunks|)
    requires forall i | 0 <= i < |chunks| :: At(fee, i) == chunks[i].fee && At(weight, i) == chunks[i].weight
    requires forall i | 0 <= i < |chunks| :: Extraction.IsMaxOrder(g.order, Elems(chunks[i].txs), At(order, i))
    requires LeastFirst(SflState.Quotient(g.edges, part), Indices(|chunks|), Extraction.LessBy(fee, weight, order, false), ids)
    ensures CanonicalOrder(g, Pick(chunks, ids))
  {
    hide SflState.Quotient, Numbers, LeastFirst, Independent, Distinct, Extraction.IsMaxOrder, Extraction.LessBy, ChunkBefore, Elems, Indices;
    var result := Pick(chunks, ids);
    forall i, j | 0 <= i < j < |result| && (forall k | i <= k < |result| && k != j :: Independent(g, result[k], result[j]))
      ensures !ChunkBefore(g, result[j], result[i])
    {
      forall k | i <= k < |ids| && k != j ensures Independent(g, chunks[ids[k]], chunks[ids[j]]) {
        assert Independent(g, result[k], result[j]);
      }
      ReadyParents(g, chunks, part, ids, i, j);
      ReadyLeast(SflState.Quotient(g.edges, part), |chunks|, Extraction.LessBy(fee, weight, order, false), ids, i, j);
      BeforeKeys(g, chunks, fee, weight, order, ids[j], ids[i]);
    }
  }

  /** The parent chunks of a chunk that no chunk from `i` on is a parent of come before `i`. */
  lemma ReadyParents(g: Graph, chunks: seq<Chunk>, part: map<Txid, nat>, ids: seq<nat>, i: nat, j: nat)
    requires Numbers(chunks, |chunks|, part) && Below(ids, |chunks|) && Elems(ids) == Indices(|chunks|) && i < j < |ids|
    requires forall k | i <= k < |ids| && k != j :: Independent(g, chunks[ids[k]], chunks[ids[j]])
    ensures forall p | (p, ids[j]) in SflState.Quotient(g.edges, part) :: p in ids[..i]
  {
    hide SflState.Quotient, Numbers, Independent, Elems, Indices;
    forall p | (p, ids[j]) in SflState.Quotient(g.edges, part) ensures p in ids[..i] {
      var k := PositionOf(g, chunks, part, ids, p, ids[j]);
      assert k < i;
    }
  }

  lemma ReadyLeast(edges: set<(nat, nat)>, n: nat, less: Order, ids: seq<nat>, i: nat, j: nat)
    requires Distinct(ids) && Elems(ids) == Indices(n) && i < j < |ids| && LeastFirst(edges, Indices(n), less, ids)
    requires forall p | (p, ids[j]) in edges :: p in ids[..i]
    ensures !less(ids[j], ids[i])
  {
    NotIn(ids, i, j);
    assert ids[j] in Elems(ids);
    LeastAt(edges, Indices(n), less, ids, i, ids[j]);
  }

  lemma BeforeKeys(g: Graph, chunks: seq<Chunk>, fee: map<nat, int>, weight: map<nat, int>, order: map<nat, int>, y: nat, x: nat)
    requires x < |chunks| && y < |chunks|
    requires forall i | 0 <= i < |chunks| :: At(fee, i) == chunks[i].fee && At(weight, i) == chunks[i].weight
    requires forall i | 0 <= i < |chunks| :: Extraction.IsMaxOrder(g.order, Elems(chunks[i].txs), At(order, i))
    requires !Extraction.LessBy(fee, weight, order, false)(y, x)
    ensures !ChunkBefore(g, chunks[y], chunks[x])
  {
    hide Extraction.IsMaxOrder;
    if ChunkBefore(g, chunks[y], chunks[x]) {
      var m, n :| Extraction.IsMaxOrder(g.order, Elems(chunks[y].txs), m) && Extraction.IsMaxOrder(g.order, Elems(chunks[x].txs), n)
                  && (chunks[y].fee * chunks[x].weight > chunks[x].fee * chunks[y].weight
                      || (chunks[y].fee * chunks[x].weight == chunks[x].fee * chunks[y].weight
                          && (chunks[y].weight < chunks[x].weight || (chunks[y].weight == chunks[x].weight && m < n))));
      MaxOrderIs(g.order, Elems(chunks[y].txs), m, At(order, y));
      MaxOrderIs(g.order, Elems(chunks[x].txs), n, At(order, x));
    }
  }

  lemma NotIn(ids: seq<nat>, i: nat, j: nat)
    requires i < j < |ids| && Distinct(ids)
    ensures ids[j] !in ids[..i]
  {
  }

  lemma LeastAt(edges: set<(nat, nat)>, nodes: set<nat>, less: Order, out: seq<nat>, i: nat, y: nat)
    requires LeastFirst(edges, nodes, less, out) && i < |out| && y in nodes && y !in out[..i]
    requires forall p | (p, y) in edges :: p in out[..i]
    ensures !less(y, out[i])
  {
    assert Least(edges, nodes, less, out[..i], out[i]);
  }

  /** A chunk that another one spends from stands somewhere, and is not independent of it. */
  lemma PositionOf(g: Graph, chunks: seq<Chunk>, part: map<Txid, nat>, ids: seq<nat>, p: nat, y: nat) returns (k: nat)
    requires Numbers(chunks, |chunks|, part) && Below(ids, |chunks|) && Elems(ids) == Indices(|chunks|)
    requires (p, y) in SflState.Quotient(g.edges, part) && y < |chunks|
    ensures k < |ids| && ids[k] == p && p != y && p < |chunks| && !Independent(g, chunks[p], chunks[y])
    ensures forall i | k < i <= |ids| :: p in ids[..i]
  {
    var e := SflState.EdgeBetween(g.edges, part, p, y);
    assert p in Indices(|chunks|);
    assert p in Elems(ids);
    k :| 0 <= k < |ids| && ids[k] == p;
    assert (e.0, e.1) in g.edges && e.0 in chunks[p].txs && e.1 in chunks[y].txs;
    assert forall i | k < i <= |ids| :: ids[..i][k] == p;
  }

  lemma ChunkingFacts(g: Graph, chunks: seq<Chunk>)
    requires IsChunking(g, Flatten(chunks), chunks) && IsLinearization(g.edges, g.Nodes(), Flatten(chunks))
    ensures AllExact(g, chunks) && Distinct(Flatten(chunks)) && Topological(g.edges, Flatten(chunks))
  {
  }

  lemma ValidIds(edges: set<(nat, nat)>, n: nat, ids: seq<nat>)
    requires IsLinearization(edges, Indices(n), ids)
    ensures Distinct(ids) && Elems(ids) == Indices(n)
    ensures Below(ids, n)
  {
    forall k | 0 <= k < |ids| ensures ids[k] < n {
      assert ids[k] in Elems(ids);
    }
  }

  lemma CanonicalSetup(g: Graph, chunks: seq<Chunk>, part: map<Txid, nat>, fee: map<nat, int>, weight: map<nat, int>) returns (rank: map<nat, int>)
    requires IsChunking(g, Flatten(chunks), chunks) && IsLinearization(g.edges, g.Nodes(), Flatten(chunks))
    requires Numbers(chunks, |chunks|, part)
    requires forall i | 0 <= i < |chunks| :: At(fee, i) == chunks[i].fee && At(weight, i) == chunks[i].weight
    ensures Within(SflState.Quotient(g.edges, part), Indices(|chunks|))
    ensures RankedBy(SflState.Quotient(g.edges, part), rank) && Indices(|chunks|) <= rank.Keys
    ensures Monotone(SflState.Quotient(g.edges, part), Extraction.BetterBy(fee, weight))
    ensures forall a | a in Indices(|chunks|) :: 0 < At(weight, a)
  {
    rank := map i | i in Indices(|chunks|) :: i;
    ChunkEdgesForward(g.edges, chunks, part);
    forall i, j | (i, j) in SflState.Quotient(g.edges, part) ensures !Extraction.BetterBy(fee, weight)(j, i) {
      Hull.NonIncreasingFar(g, chunks, i, j);
    }
    forall a | a in Indices(|chunks|) ensures 0 < At(weight, a) {
      assert Exact(g, chunks[a]);
    }
  }

  lemma CanonicalChunking(g: Graph, chunks: seq<Chunk>, fee: map<nat, int>, weight: map<nat, int>, ids: seq<nat>)
    requires AllExact(g, chunks) && AllSolid(g, chunks)
    requires Below(ids, |chunks|)
    requires forall i | 0 <= i < |chunks| :: At(fee, i) == chunks[i].fee && At(weight, i) == chunks[i].weight
    requires SortedBy(Extraction.BetterBy(fee, weight), ids)
    ensures IsChunking(g, Flatten(Pick(chunks, ids)), Pick(chunks, ids))
  {
    hide Exact, Solid, Flatten, Higher;
    var result := Pick(chunks, ids);
    forall k | 0 < k < |result| ensures !Above(result[k], result[k - 1]) {
      assert !Extraction.BetterBy(fee, weight)(ids[k], ids[k - 1]);
    }
  }

  lemma CanonicalLinearization(g: Graph, chunks: seq<Chunk>, part: map<Txid, nat>, ids: seq<nat>)
    requires IsLinearization(g.edges, g.Nodes(), Flatten(chunks))
    requires Numbers(chunks, |chunks|, part)
    requires IsLinearization(SflState.Quotient(g.edges, part), Indices(|chunks|), ids)
    requires Below(ids, |chunks|)
    ensures IsLinearization(g.edges, g.Nodes(), Flatten(Pick(chunks, ids)))
  {
    CanonicalPrefix(g, chunks, part, ids, |ids|);
    assert ids[..|ids|] == ids && chunks[..|chunks|] == chunks;
    assert part.Keys == g.Nodes() by {
      forall t ensures t in part <==> t in g.Nodes() { assert t in Elems(Flatten(chunks)) <==> t in Flatten(chunks); }
    }
    forall t | t in part ensures part[t] in Elems(ids) {
      assert part[t] in Indices(|chunks|);
    }
    TxsInAll(part, ids);
  }

  lemma {:induction false} CanonicalPrefix(g: Graph, chunks: seq<Chunk>, part: map<Txid, nat>, ids: seq<nat>, n: nat)
    requires Distinct(Flatten(chunks)) && Topological(g.edges, Flatten(chunks))
    requires Numbers(chunks, |chunks|, part)
    requires IsLinearization(SflState.Quotient(g.edges, part), Indices(|chunks|), ids)
    requires n <= |ids| && Below(ids, |chunks|)
    ensures IsLinearization(g.edges, Extraction.TxsIn(part, ids[..n]), Flatten(Pick(chunks, ids[..n])))
  {
    hide Numbers, Distinct, Topological, SflState.Quotient;
    if n == 0 {
      Extraction.NothingExtracted(g.edges, part, ids);
      assert ids[..0] == [] && Pick(chunks, ids[..0]) == [];
    } else {
      CanonicalPrefix(g, chunks, part, ids, n - 1);
      CanonicalNext(g, chunks, part, ids, n - 1);
    }
  }

  lemma CanonicalNext(g: Graph, chunks: seq<Chunk>, part: map<Txid, nat>, ids: seq<nat>, n: nat)
    requires Distinct(Flatten(chunks)) && Topological(g.edges, Flatten(chunks))
    requires Numbers(chunks, |chunks|, part)
    requires IsLinearization(SflState.Quotient(g.edges, part), Indices(|chunks|), ids)
    requires n < |ids| && Below(ids, |chunks|)
    requires IsLinearization(g.edges, Extraction.TxsIn(part, ids[..n]), Flatten(Pick(chunks, ids[..n])))
    ensures IsLinearization(g.edges, Extraction.TxsIn(part, ids[..n + 1]), Flatten(Pick(chunks, ids[..n + 1])))
  {
    hide Flatten, Numbers, IsLinearization, SflState.Quotient;
    var c := chunks[ids[n]];
    NumberIs(g.edges, chunks, part, ids[n]);
    BlockOf(g, chunks, ids[n]);
    Extraction.AppendPiece(g.edges, part, Indices(|chunks|), ids, n, Flatten(Pick(chunks, ids[..n])), c.txs);
    assert Pick(chunks, ids[..n + 1]) == Pick(chunks, ids[..n]) + [c];
    FlattenConcat(Pick(chunks, ids[..n]), [c]);
    FlattenOne(c);
  }

  /** A permutation of the indices permutes the elements. */
  lemma {:induction false} PickMultiset(chunks: seq<Chunk>, ids: seq<nat>)
    requires Distinct(ids) && Elems(ids) == Indices(|chunks|) && Below(ids, |chunks|)
    ensures multiset(Pick(chunks, ids)) == multiset(chunks)
    decreases |chunks|
  {
    if chunks == [] {
      NoElems(ids);
    } else {
      var n := |chunks| - 1;
      assert n in Elems(ids);
      var k :| 0 <= k < |ids| && ids[k] == n;
      DropIndex(ids, k, n);
      PickMultiset(chunks[..n], ids[..k] + ids[k + 1..]);
      PickDrop(chunks, ids, k);
      hide Pick;
      assert chunks == chunks[..n] + [chunks[n]];
    }
  }

  lemma NoElems(ids: seq<nat>)
    ensures Elems(ids) == {} ==> ids == []
  {
    if ids != [] {
      assert ids[0] in Elems(ids);
    }
  }

  lemma PickDrop(chunks: seq<Chunk>, ids: seq<nat>, k: nat)
    requires chunks != [] && k < |ids| && ids[k] == |chunks| - 1 && Below(ids, |chunks|)
    requires Below(ids[..k] + ids[k + 1..], |chunks| - 1)
    ensures multiset(Pick(chunks, ids)) == multiset(Pick(chunks[..|chunks| - 1], ids[..k] + ids[k + 1..])) + multiset{chunks[|chunks| - 1]}
  {
    var n := |chunks| - 1;
    var picked, rest := Pick(chunks, ids), ids[..k] + ids[k + 1..];
    assert picked == picked[..k] + [chunks[n]] + picked[k + 1..];
    assert picked[..k] + picked[k + 1..] == Pick(chunks[..n], rest) by {
      forall i | 0 <= i < |rest| ensures (picked[..k] + picked[k + 1..])[i] == chunks[rest[i]] && rest[i] < n {
      }
    }
    hide Pick;
    assert multiset(picked) == multiset(picked[..k] + picked[k + 1..]) + multiset{chunks[n]};
  }

  lemma IndicesDrop(n: nat)
    ensures Indices(n + 1) - {n} == Indices(n) && forall i | i in Indices(n) :: i < n
  {
  }

  lemma DropIndex(ids: seq<nat>, k: nat, n: nat)
    requires k < |ids| && ids[k] == n && Distinct(ids) && Elems(ids) == Indices(n + 1)
    ensures Distinct(ids[..k] + ids[k + 1..]) && Elems(ids[..k] + ids[k + 1..]) == Indices(n)
    ensures Below(ids[..k] + ids[k + 1..], n)
  {
    var rest := ids[..k] + ids[k + 1..];
    DropAt(ids, k);
    IndicesDrop(n);
    assert Elems(rest) == Indices(n);
    forall i | 0 <= i < |rest| ensures rest[i] < n {
      assert rest[i] in Elems(rest);
    }
  }

  lemma DropAt(ids: seq<nat>, k: nat)
    requires k < |ids| && Distinct(ids)
    ensures Distinct(ids[..k] + ids[k + 1..]) && Elems(ids[..k] + ids[k + 1..]) == Elems(ids) - {ids[k]}
  {
    var rest := ids[..k] + ids[k + 1..];
    assert forall i | 0 <= i < |rest| :: rest[i] == ids[if i < k then i else i + 1];
    forall x | x in Elems(ids) - {ids[k]} ensures x in rest {
      var i :| 0 <= i < |ids| && ids[i] == x;
      assert rest[if i < k then i else i - 1] == x;
    }
  }

  // ---------- the linearizer of one cluster

  /** A linearization of the cluster together with its chunking. */
  ghost predicate IsLinearized(g: Graph, linearization: seq<Txid>, chunks: seq<Chunk>) {
    && IsLinearization(g.edges, g.Nodes(), linearization)
    && IsChunking(g, linearization, chunks)
  }

  /** What each stage of the linearizer hands to the next: the order read off the forest, its chunks
      after the two passes, their connected parts, and the chunks of these. */
  datatype Stages = Stages(draws: SflMinimal.Draws, first: seq<Txid>, run: SpanningForest.Run, chunked: seq<Chunk>, parts: seq<seq<Chunk>>, rechunked: seq<Chunk>)

  /** The order comes from the forest or, without dependencies, from sorting. */
  ghost predicate IsStart(g: Graph, costBudget: int, given: seq<Txid>, s: Stages) {
    && IsLinearization(g.edges, g.Nodes(), s.first)
    && (g.edges == {} ==> SortedBy(Extraction.FeerateThen(g.fee, g.weight, g.order), s.first))
    && (g.edges != {} ==> SpanningForest.IsRun(g, costBudget, given, s.draws, s.run, s.first))
  }

  /** The linearization and chunks are the result of all stages. */
  ghost predicate IsAnswer(g: Graph, costBudget: int, given: seq<Txid>, s: Stages, linearization: seq<Txid>, chunks: seq<Chunk>) {
    && IsStart(g, costBudget, given, s)
    && IsChunking(g, PostLinearize.PassResult(g, PostLinearize.PassResult(g, s.first, true), false), s.chunked)
    && |s.parts| == |s.chunked| && (forall i | 0 <= i < |s.chunked| :: PartsOf(g, s.chunked[i], s.parts[i]))
    && IsChunking(g, Flatten(Joined(s.parts)), s.rechunked)
    && multiset(chunks) == multiset(s.rechunked) && CanonicalOrder(g, chunks) && linearization == Flatten(chunks)
  }

  method LinearizeCluster(g: Graph, costBudget: int, existingLinearization: seq<Txid>)
    returns (linearization: seq<Txid>, chunks: seq<Chunk>, ghost stages: Stages)
    requires g.WellFormed() && g.Acyclic()
    ensures IsLinearized(g, linearization, chunks) && CanonicalOrder(g, chunks)
    ensures IsAnswer(g, costBudget, existingLinearization, stages, linearization, chunks)
  {
    hide AllExact, AllSolid, NonIncreasing, CanonicalOrder, PostLinearize.PassResult, PartsOf, SpanningForest.IsRun, SortedBy, PostLinearize.IsGrouped;
    var first;
    ghost var run;
    var draws: SflMinimal.Draws := *;
    first, run := SpanningForest.SpanningForestLinearize(g, costBudget, existingLinearization, draws);
    ghost var groups;
    linearization, groups := PostLinearize.PostLinearize(g, first);
    chunks := Chunkify(g, linearization);
    ghost var chunked, parts := chunks, [];
    chunks, parts := MinimizeChunks(g, chunks);
    linearization := Flatten(chunks);
    chunks := Chunkify(g, linearization);
    ghost var rechunked := chunks;
    chunks := CanonicalizeChunkOrder(g, chunks);
    linearization := Flatten(chunks);
    stages := Stages(draws, first, run, chunked, parts, rechunked);
  }

  /** Chunking the returned linearization again gives the returned chunks. */
  lemma RechunkSame(g: Graph, linearization: seq<Txid>, chunks: seq<Chunk>, again: seq<Chunk>)
    requires IsLinearized(g, linearization, chunks) && IsChunking(g, linearization, again)
    ensures again == chunks
  {
    Hull.ChunkingUnique(g, linearization, again, chunks);
  }
}
