/** Reading a linearization off layered chunks: chunks best first as their parents allow, and
    inside each chunk transactions best first as their parents allow. */
module Extraction {
  import opened Feerate
  import opened Graph
  import opened SflState
  import opened Kahn

  /** Comparison by feerate, then by weight, then by order. */
  predicate Precedes(aFee: int, aWeight: int, aOrder: int, bFee: int, bWeight: int, bOrder: int, heavyFirst: bool) {
    || Higher(aFee, aWeight, bFee, bWeight)
    || (!Higher(bFee, bWeight, aFee, aWeight)
        && if aWeight != bWeight then (if heavyFirst then bWeight < aWeight else aWeight < bWeight) else aOrder < bOrder)
  }

  function LessBy(fee: map<nat, int>, weight: map<nat, int>, order: map<nat, int>, heavyFirst: bool): Order {
    (a: nat, b: nat) => Precedes(At(fee, a), At(weight, a), At(order, a), At(fee, b), At(weight, b), At(order, b), heavyFirst)
  }

  function BetterBy(fee: map<nat, int>, weight: map<nat, int>): Order {
    (a: nat, b: nat) => Higher(At(fee, a), At(weight, a), At(fee, b), At(weight, b))
  }

  lemma LessRefinesBetter(fee: map<nat, int>, weight: map<nat, int>, order: map<nat, int>, heavyFirst: bool, nodes: set<nat>)
    requires forall a | a in nodes :: 0 < At(weight, a)
    ensures Refines(LessBy(fee, weight, order, heavyFirst), BetterBy(fee, weight), nodes)
  {
    var less, better := LessBy(fee, weight, order, heavyFirst), BetterBy(fee, weight);
    forall a, b | a in nodes && b in nodes && less(a, b) ensures !better(b, a) {
      NotBothHigher(At(fee, a), At(weight, a), At(fee, b), At(weight, b));
    }
    forall a, b, c | a in nodes && b in nodes && c in nodes && !better(a, b) && !better(b, c) ensures !better(a, c) {
      NotHigherTrans(At(fee, a), At(weight, a), At(fee, b), At(weight, b), At(fee, c), At(weight, c));
    }
  }

  /** The tie-broken order is itself a weak order. */
  lemma LessRefinesItself(fee: map<nat, int>, weight: map<nat, int>, order: map<nat, int>, heavyFirst: bool, nodes: set<nat>)
    requires forall a | a in nodes :: 0 < At(weight, a)
    ensures Refines(LessBy(fee, weight, order, heavyFirst), LessBy(fee, weight, order, heavyFirst), nodes)
  {
    hide Precedes;
    var less := LessBy(fee, weight, order, heavyFirst);
    forall a, b | a in nodes && b in nodes && less(a, b) ensures !less(b, a) {
      PrecedesWeak(At(fee, a), At(weight, a), At(order, a), At(fee, b), At(weight, b), At(order, b), At(fee, a), At(weight, a), At(order, a), heavyFirst);
    }
    forall a, b, c | a in nodes && b in nodes && c in nodes && !less(a, b) && !less(b, c) ensures !less(a, c) {
      PrecedesWeak(At(fee, a), At(weight, a), At(order, a), At(fee, b), At(weight, b), At(order, b), At(fee, c), At(weight, c), At(order, c), heavyFirst);
    }
  }

  lemma PrecedesWeak(f1: int, w1: int, o1: int, f2: int, w2: int, o2: int, f3: int, w3: int, o3: int, heavyFirst: bool)
    requires 0 < w1 && 0 < w2 && 0 < w3
    ensures !(Precedes(f1, w1, o1, f2, w2, o2, heavyFirst) && Precedes(f2, w2, o2, f1, w1, o1, heavyFirst))
    ensures !Precedes(f1, w1, o1, f2, w2, o2, heavyFirst) && !Precedes(f2, w2, o2, f3, w3, o3, heavyFirst) ==> !Precedes(f1, w1, o1, f3, w3, o3, heavyFirst)
  {
    NotBothHigher(f1, w1, f2, w2);
    if !Precedes(f1, w1, o1, f2, w2, o2, heavyFirst) && !Precedes(f2, w2, o2, f3, w3, o3, heavyFirst) {
      NotHigherTrans(f1, w1, f2, w2, f3, w3);
      if Higher(f2, w2, f1, w1) {
        HigherOrEqual(f3, w3, f2, w2, f1, w1);
      } else if Higher(f3, w3, f2, w2) {
        HigherTransRight(f3, w3, f2, w2, f1, w1);
      }
      hide Higher;
    }
  }

  /** Comparison by feerate, then by a tie-break. */
  predicate ComesBefore(aFee: int, aWeight: int, aTie: int, bFee: int, bWeight: int, bTie: int) {
    Higher(aFee, aWeight, bFee, bWeight) || (!Higher(bFee, bWeight, aFee, aWeight) && aTie < bTie)
  }

  function FeerateThen(fee: map<nat, int>, weight: map<nat, int>, tie: map<nat, int>): Order {
    (a: nat, b: nat) => ComesBefore(At(fee, a), At(weight, a), At(tie, a), At(fee, b), At(weight, b), At(tie, b))
  }

  lemma FeerateThenWeak(fee: map<nat, int>, weight: map<nat, int>, tie: map<nat, int>, nodes: set<nat>)
    requires forall a | a in nodes :: 0 < At(weight, a)
    ensures Refines(FeerateThen(fee, weight, tie), FeerateThen(fee, weight, tie), nodes)
  {
    hide ComesBefore;
    var less := FeerateThen(fee, weight, tie);
    forall a, b | a in nodes && b in nodes && less(a, b) ensures !less(b, a) {
      ComesBeforeWeak(At(fee, a), At(weight, a), At(tie, a), At(fee, b), At(weight, b), At(tie, b), At(fee, a), At(weight, a), At(tie, a));
    }
    forall a, b, c | a in nodes && b in nodes && c in nodes && !less(a, b) && !less(b, c) ensures !less(a, c) {
      ComesBeforeWeak(At(fee, a), At(weight, a), At(tie, a), At(fee, b), At(weight, b), At(tie, b), At(fee, c), At(weight, c), At(tie, c));
    }
  }

  lemma ComesBeforeWeak(f1: int, w1: int, o1: int, f2: int, w2: int, o2: int, f3: int, w3: int, o3: int)
    requires 0 < w1 && 0 < w2 && 0 < w3
    ensures !(ComesBefore(f1, w1, o1, f2, w2, o2) && ComesBefore(f2, w2, o2, f1, w1, o1))
    ensures !ComesBefore(f1, w1, o1, f2, w2, o2) && !ComesBefore(f2, w2, o2, f3, w3, o3) ==> !ComesBefore(f1, w1, o1, f3, w3, o3)
  {
    NotBothHigher(f1, w1, f2, w2);
    if !ComesBefore(f1, w1, o1, f2, w2, o2) && !ComesBefore(f2, w2, o2, f3, w3, o3) {
      NotHigherTrans(f1, w1, f2, w2, f3, w3);
      if Higher(f2, w2, f1, w1) {
        HigherOrEqual(f3, w3, f2, w2, f1, w1);
      } else if Higher(f3, w3, f2, w2) {
        HigherTransRight(f3, w3, f2, w2, f1, w1);
      }
      hide Higher;
    }
  }

  /** The order with a tie-break is one of the feerate order. */
  lemma SortedByFeerate(fee: map<nat, int>, weight: map<nat, int>, tie: map<nat, int>, s: seq<nat>)
    requires SortedBy(FeerateThen(fee, weight, tie), s)
    ensures SortedBy(BetterBy(fee, weight), s)
  {
    forall i, j | 0 <= i < j < |s| ensures !BetterBy(fee, weight)(s[j], s[i]) {
      assert !FeerateThen(fee, weight, tie)(s[j], s[i]);
    }
  }

  lemma HigherOrEqual(f3: int, w3: int, f2: int, w2: int, f1: int, w1: int)
    requires 0 < w1 && 0 < w2 && 0 < w3 && Higher(f2, w2, f1, w1) && !Higher(f2, w2, f3, w3)
    ensures Higher(f3, w3, f1, w1)
  {
    HigherTransLeft(f3, w3, f2, w2, f1, w1);
  }

  lemma NotBothHigher(f1: int, w1: int, f2: int, w2: int)
    ensures !(Higher(f1, w1, f2, w2) && Higher(f2, w2, f1, w1))
  {
  }

  ghost predicate IsMaxOrder(order: map<Txid, nat>, txs: set<Txid>, max: int) {
    && 0 <= max && (forall t | t in txs :: At(order, t) <= max)
    && (max == 0 || exists t | t in txs :: At(order, t) == max)
  }

  /** Highest order value in the set, 0 for none. */
  method MaxOrder(order: map<Txid, nat>, txs: set<Txid>) returns (max: nat)
    ensures IsMaxOrder(order, txs, max)
  {
    max := 0;
    var todo := txs;
    while todo != {}
      invariant todo <= txs
      invariant forall t | t in txs - todo :: At(order, t) <= max
      invariant max == 0 || exists t | t in txs :: At(order, t) == max
      decreases todo
    {
      var tx :| tx in todo;
      if At(order, tx) > max {
        max := At(order, tx);
      }
      todo := todo - {tx};
    }
  }

  function Inner(edges: set<(Txid, Txid)>, txs: set<Txid>): set<(Txid, Txid)> {
    set e | e in edges && e.0 in txs && e.1 in txs
  }

  /** Transactions by feerate, then weight, then order. */
  function TxOrder(g: Graph): Order {
    LessBy(g.fee, g.weight, g.order, true)
  }

  function FeeOf(chunks: map<nat, SFLChunk>): map<nat, int> {
    map id | id in chunks :: chunks[id].fee
  }

  function WeightOf(chunks: map<nat, SFLChunk>): map<nat, int> {
    map id | id in chunks :: chunks[id].weight
  }

  /** The transactions of one chunk, best first among those whose parents are out. */
  method EmitChunkTxs(g: Graph, txs: set<Txid>, ghost rank: map<Txid, int>) returns (result: seq<Txid>)
    requires g.WellFormed() && txs <= g.Nodes()
    requires RankedBy(g.edges, rank) && g.Nodes() <= rank.Keys
    ensures IsLinearization(g.edges, txs, result)
    ensures LeastFirst(Inner(g.edges, txs), txs, TxOrder(g), result)
  {
    var edges := Inner(g.edges, txs);
    LessRefinesBetter(g.fee, g.weight, g.order, true, txs);
    LessRefinesItself(g.fee, g.weight, g.order, true, txs);
    result := Emit(txs, edges, LessBy(g.fee, g.weight, g.order, true), BetterBy(g.fee, g.weight), rank);
    forall i, j | 0 <= i <= j < |result| ensures (result[j], result[i]) !in g.edges {
      assert result[i] in Elems(result) && result[j] in Elems(result);
      assert (result[j], result[i]) !in edges;
    }
  }

  // ---------- putting pieces in order

  /** The transactions that `part` assigns to one of the ids. */
  ghost function TxsIn(part: map<Txid, nat>, ids: seq<nat>): set<Txid> {
    set t | t in part && part[t] in ids
  }

  /** The next piece goes behind all pieces it may depend on. */
  lemma AppendPiece(edges: set<(Txid, Txid)>, part: map<Txid, nat>, nodes: set<nat>, ids: seq<nat>, i: nat, result: seq<Txid>, txs: seq<Txid>)
    requires i < |ids| && IsLinearization(Quotient(edges, part), nodes, ids)
    requires IsLinearization(edges, TxsIn(part, ids[..i]), result)
    requires IsLinearization(edges, TxsIn(part, [ids[i]]), txs)
    ensures IsLinearization(edges, TxsIn(part, ids[..i + 1]), result + txs)
  {
    assert ids[..i + 1] == ids[..i] + [ids[i]];
    assert TxsIn(part, ids[..i + 1]) == TxsIn(part, ids[..i]) + TxsIn(part, [ids[i]]);
    forall x, y | x in txs && y in result ensures (x, y) !in edges && x != y {
      assert x in Elems(txs) && y in Elems(result);
      NoEdgeBack(edges, part, nodes, ids, i, x, y);
    }
    TopologicalConcat(edges, result, txs);
    DistinctConcat(result, txs);
    ElemsConcat(result, txs);
  }

  lemma NoEdgeBack(edges: set<(Txid, Txid)>, part: map<Txid, nat>, nodes: set<nat>, ids: seq<nat>, i: nat, x: Txid, y: Txid)
    requires i < |ids| && IsLinearization(Quotient(edges, part), nodes, ids)
    requires x in TxsIn(part, [ids[i]]) && y in TxsIn(part, ids[..i])
    ensures (x, y) !in edges && x != y
  {
    var j :| 0 <= j < i && ids[j] == part[y];
    assert part[x] == ids[i];
    assert ids[i] != ids[j] && (ids[i], ids[j]) !in Quotient(edges, part);
    if (x, y) in edges {
      QuotientEdge(edges, part, x, y);
    }
  }

  // ---------- the extraction

  /** Chunks in emission order, and in each chunk its transactions in emission order. */
  method ExtractLinearization(g: Graph, chunks: map<nat, SFLChunk>, txToChunk: map<Txid, nat>)
    returns (result: seq<Txid>, ghost ids: seq<nat>, ghost pieces: seq<seq<Txid>>)
    requires g.WellFormed() && g.Acyclic()
    requires Partition(g, chunks, txToChunk) && Layered(g.edges, chunks, txToChunk)
    ensures IsLinearization(g.edges, g.Nodes(), result)
    ensures IsExtraction(g, chunks, txToChunk, ids, pieces, result)
  {
    hide Partition, Layered, LeastFirst, IsLinearization, Quotient, IsPiece, TxsIn, Graph.Acyclic, RankedBy, IsMaxOrder, IsExtraction, Distinct, Concat, FeeOf, WeightOf;
    ghost var layers := LayerRank(g.edges, chunks, txToChunk);
    ghost var rank := FullRank(g);
    var order, maxOrder := EmitChunks(g, chunks, txToChunk, layers);
    ids := order;
    result, pieces := [], [];
    ElementsOf(g.edges, chunks, txToChunk, order);
    NothingExtracted(g.edges, txToChunk, order);
    for i := 0 to |order|
      invariant IsLinearization(g.edges, TxsIn(txToChunk, order[..i]), result)
      invariant |pieces| == i && result == Concat(pieces) && forall k | 0 <= k < i :: IsPiece(g, chunks, order[k], pieces[k])
    {
      assert order[i] in Elems(order);
      ChunkTxs(g, chunks, txToChunk, order[i]);
      var txs := EmitChunkTxs(g, chunks[order[i]].txs, rank);
      MakePiece(g, chunks, order[i], txs);
      AppendPiece(g.edges, txToChunk, chunks.Keys, order, i, result, txs);
      ConcatMore(pieces, txs);
      result := result + txs;
      pieces := pieces + [txs];
    }
    assert order[..|order|] == order;
    AllTxs(g, chunks, txToChunk, order);
    MakeExtraction(g, chunks, txToChunk, maxOrder, order, pieces, result);
  }

  /** The transactions of a chunk in the order they are emitted. */
  ghost predicate IsPiece(g: Graph, chunks: map<nat, SFLChunk>, id: nat, piece: seq<Txid>) {
    && id in chunks && IsLinearization(g.edges, chunks[id].txs, piece)
    && LeastFirst(Inner(g.edges, chunks[id].txs), chunks[id].txs, TxOrder(g), piece)
  }

  function Concat(pieces: seq<seq<Txid>>): seq<Txid> {
    if pieces == [] then [] else Concat(pieces[..|pieces| - 1]) + pieces[|pieces| - 1]
  }

  /** At each step the first chunk that may come next, and within it the first transaction. */
  ghost predicate IsExtraction(g: Graph, chunks: map<nat, SFLChunk>, txToChunk: map<Txid, nat>, ids: seq<nat>, pieces: seq<seq<Txid>>, result: seq<Txid>) {
    && |pieces| == |ids| && result == Concat(pieces) && Distinct(ids) && Elems(ids) == chunks.Keys
    && (forall k | 0 <= k < |ids| :: IsPiece(g, chunks, ids[k], pieces[k]))
    && exists maxOrder: map<nat, int> | (forall id | id in chunks :: IsMaxOrder(g.order, chunks[id].txs, At(maxOrder, id))) ::
         LeastFirst(Quotient(g.edges, txToChunk), chunks.Keys, LessBy(FeeOf(chunks), WeightOf(chunks), maxOrder, true), ids)
  }

  /** Of two chunks that could both come next, the earlier one has the higher feerate, or the same and
      more weight, or the same of both and the lower highest order. */
  lemma ChunkOrderMeans(g: Graph, chunks: map<nat, SFLChunk>, txToChunk: map<Txid, nat>, ids: seq<nat>, pieces: seq<seq<Txid>>, result: seq<Txid>, i: nat, j: nat)
    requires IsExtraction(g, chunks, txToChunk, ids, pieces, result) && i < j < |ids|
    requires forall p | (p, ids[j]) in Quotient(g.edges, txToChunk) :: p in ids[..i]
    ensures ids[i] in chunks && ids[j] in chunks
    ensures var a, b := chunks[ids[i]], chunks[ids[j]];
            && b.fee * a.weight <= a.fee * b.weight
            && (b.fee * a.weight == a.fee * b.weight ==> b.weight <= a.weight)
            && (b.fee * a.weight == a.fee * b.weight && a.weight == b.weight ==>
                  exists m, n :: IsMaxOrder(g.order, a.txs, m) && IsMaxOrder(g.order, b.txs, n) && m <= n)
  {
    hide IsExtraction, Quotient, IsMaxOrder, Precedes, LeastFirst, Elems, Distinct;
    var maxOrder := OrderUsed(g, chunks, txToChunk, ids, pieces, result);
    IdsApart(chunks, ids, i, j);
    LeastThere(Quotient(g.edges, txToChunk), chunks.Keys, LessBy(FeeOf(chunks), WeightOf(chunks), maxOrder, true), ids, i, j);
    var a, b := chunks[ids[i]], chunks[ids[j]];
    assert At(FeeOf(chunks), ids[i]) == a.fee && At(WeightOf(chunks), ids[i]) == a.weight;
    assert At(FeeOf(chunks), ids[j]) == b.fee && At(WeightOf(chunks), ids[j]) == b.weight;
    assert !LessBy(FeeOf(chunks), WeightOf(chunks), maxOrder, true)(ids[j], ids[i]);
    NotPrecedes(b.fee, b.weight, At(maxOrder, ids[j]), a.fee, a.weight, At(maxOrder, ids[i]));
  }

  lemma OrderUsed(g: Graph, chunks: map<nat, SFLChunk>, txToChunk: map<Txid, nat>, ids: seq<nat>, pieces: seq<seq<Txid>>, result: seq<Txid>)
    returns (maxOrder: map<nat, int>)
    requires IsExtraction(g, chunks, txToChunk, ids, pieces, result)
    ensures forall id | id in chunks :: IsMaxOrder(g.order, chunks[id].txs, At(maxOrder, id))
    ensures LeastFirst(Quotient(g.edges, txToChunk), chunks.Keys, LessBy(FeeOf(chunks), WeightOf(chunks), maxOrder, true), ids)
    ensures Distinct(ids) && Elems(ids) == chunks.Keys
  {
    hide IsPiece, IsMaxOrder, LeastFirst, Quotient, LessBy, Concat;
    maxOrder :| (forall id | id in chunks :: IsMaxOrder(g.order, chunks[id].txs, At(maxOrder, id)))
                && LeastFirst(Quotient(g.edges, txToChunk), chunks.Keys, LessBy(FeeOf(chunks), WeightOf(chunks), maxOrder, true), ids);
  }

  lemma IdsApart(chunks: map<nat, SFLChunk>, ids: seq<nat>, i: nat, j: nat)
    requires Distinct(ids) && Elems(ids) == chunks.Keys && i < j < |ids|
    ensures ids[i] in chunks && ids[j] in chunks && ids[j] !in ids[..i]
  {
    assert ids[i] in Elems(ids) && ids[j] in Elems(ids);
  }

  lemma LeastThere(edges: set<(nat, nat)>, nodes: set<nat>, less: Order, ids: seq<nat>, i: nat, j: nat)
    requires LeastFirst(edges, nodes, less, ids) && i < j < |ids| && ids[j] in nodes && ids[j] !in ids[..i]
    requires forall p | (p, ids[j]) in edges :: p in ids[..i]
    ensures !less(ids[j], ids[i])
  {
    assert Least(edges, nodes, less, ids[..i], ids[i]);
  }

  lemma NotPrecedes(bFee: int, bWeight: int, bOrder: int, aFee: int, aWeight: int, aOrder: int)
    requires !Precedes(bFee, bWeight, bOrder, aFee, aWeight, aOrder, true)
    ensures bFee * aWeight <= aFee * bWeight
    ensures bFee * aWeight == aFee * bWeight ==> bWeight <= aWeight && (aWeight == bWeight ==> aOrder <= bOrder)
  {
  }

  /** Inside a chunk likewise, transaction by transaction. */
  lemma PieceOrderMeans(g: Graph, chunks: map<nat, SFLChunk>, id: nat, piece: seq<Txid>, i: nat, j: nat)
    requires IsPiece(g, chunks, id, piece) && i < j < |piece|
    requires forall p | (p, piece[j]) in g.edges && p in chunks[id].txs :: p in piece[..i]
    ensures var a, b := piece[i], piece[j];
            && At(g.fee, b) * At(g.weight, a) <= At(g.fee, a) * At(g.weight, b)
            && (At(g.fee, b) * At(g.weight, a) == At(g.fee, a) * At(g.weight, b) ==>
                  At(g.weight, b) <= At(g.weight, a) && (At(g.weight, a) == At(g.weight, b) ==> At(g.order, a) <= At(g.order, b)))
  {
    var txs := chunks[id].txs;
    assert piece[j] in Elems(piece) && piece[j] !in piece[..i];
    forall p | (p, piece[j]) in Inner(g.edges, txs) ensures p in piece[..i] {
      assert (p, piece[j]) in g.edges;
    }
    assert Least(Inner(g.edges, txs), txs, TxOrder(g), piece[..i], piece[i]);
    assert !TxOrder(g)(piece[j], piece[i]);
    NotPrecedes(At(g.fee, piece[j]), At(g.weight, piece[j]), At(g.order, piece[j]), At(g.fee, piece[i]), At(g.weight, piece[i]), At(g.order, piece[i]));
  }

  lemma ConcatMore(pieces: seq<seq<Txid>>, piece: seq<Txid>)
    ensures Concat(pieces + [piece]) == Concat(pieces) + piece
  {
    assert (pieces + [piece])[..|pieces|] == pieces;
  }

  lemma ElementsOf(edges: set<(Txid, Txid)>, chunks: map<nat, SFLChunk>, txToChunk: map<Txid, nat>, ids: seq<nat>)
    requires IsLinearization(Quotient(edges, txToChunk), chunks.Keys, ids)
    ensures Distinct(ids) && Elems(ids) == chunks.Keys
  {
  }

  lemma NothingExtracted(edges: set<(Txid, Txid)>, txToChunk: map<Txid, nat>, ids: seq<nat>)
    ensures IsLinearization(edges, TxsIn(txToChunk, ids[..0]), []) && Concat([]) == []
  {
  }

  lemma MakePiece(g: Graph, chunks: map<nat, SFLChunk>, id: nat, piece: seq<Txid>)
    requires id in chunks && IsLinearization(g.edges, chunks[id].txs, piece)
    requires LeastFirst(Inner(g.edges, chunks[id].txs), chunks[id].txs, TxOrder(g), piece)
    ensures IsPiece(g, chunks, id, piece)
  {
  }

  lemma MakeExtraction(g: Graph, chunks: map<nat, SFLChunk>, txToChunk: map<Txid, nat>, maxOrder: map<nat, int>, ids: seq<nat>, pieces: seq<seq<Txid>>, result: seq<Txid>)
    requires |pieces| == |ids| && result == Concat(pieces) && Distinct(ids) && Elems(ids) == chunks.Keys
    requires forall k | 0 <= k < |ids| :: IsPiece(g, chunks, ids[k], pieces[k])
    requires forall id | id in chunks :: IsMaxOrder(g.order, chunks[id].txs, At(maxOrder, id))
    requires LeastFirst(Quotient(g.edges, txToChunk), chunks.Keys, LessBy(FeeOf(chunks), WeightOf(chunks), maxOrder, true), ids)
    ensures IsExtraction(g, chunks, txToChunk, ids, pieces, result)
  {
    hide IsPiece, LeastFirst, Quotient, IsMaxOrder;
  }

  /** The chunk ids, best feerate first among those whose parent chunks are out. */
  method EmitChunks(g: Graph, chunks: map<nat, SFLChunk>, txToChunk: map<Txid, nat>, ghost layers: map<nat, int>)
    returns (ids: seq<nat>, maxOrder: map<nat, int>)
    requires g.WellFormed() && Partition(g, chunks, txToChunk)
    requires layers.Keys == chunks.Keys && RankedBy(Quotient(g.edges, txToChunk), layers)
    ensures IsLinearization(Quotient(g.edges, txToChunk), chunks.Keys, ids)
    ensures forall id | id in chunks :: IsMaxOrder(g.order, chunks[id].txs, At(maxOrder, id))
    ensures LeastFirst(Quotient(g.edges, txToChunk), chunks.Keys, LessBy(FeeOf(chunks), WeightOf(chunks), maxOrder, true), ids)
  {
    var fee, weight := FeeOf(chunks), WeightOf(chunks);
    maxOrder := map[];
    var todo := chunks.Keys;
    while todo != {}
      invariant forall id | id in chunks && id !in todo :: IsMaxOrder(g.order, chunks[id].txs, At(maxOrder, id))
      decreases todo
    {
      hide IsMaxOrder;
      var id :| id in todo;
      var max := MaxOrder(g.order, chunks[id].txs);
      maxOrder := maxOrder[id := max];
      todo := todo - {id};
    }
    forall id | id in chunks ensures 0 < At(weight, id) {
      assert ExactChunk(g, chunks[id]);
    }
    LessRefinesBetter(fee, weight, maxOrder, true, chunks.Keys);
    LessRefinesItself(fee, weight, maxOrder, true, chunks.Keys);
    ids := Emit(chunks.Keys, Quotient(g.edges, txToChunk), LessBy(fee, weight, maxOrder, true), BetterBy(fee, weight), layers);
  }

  ghost function FullRank(g: Graph): (rank: map<Txid, int>)
    requires g.WellFormed() && g.Acyclic()
    ensures RankedBy(g.edges, rank) && g.Nodes() <= rank.Keys
  {
    var rank :| RankedBy(g.edges, rank);
    map t | t in g.Nodes() :: if t in rank then rank[t] else 0
  }

  lemma ChunkTxs(g: Graph, chunks: map<nat, SFLChunk>, txToChunk: map<Txid, nat>, id: nat)
    requires Partition(g, chunks, txToChunk) && id in chunks
    ensures chunks[id].txs <= g.Nodes()
    ensures chunks[id].txs == TxsIn(txToChunk, [id])
  {
  }

  lemma AllTxs(g: Graph, chunks: map<nat, SFLChunk>, txToChunk: map<Txid, nat>, ids: seq<nat>)
    requires Partition(g, chunks, txToChunk) && Elems(ids) == chunks.Keys
    ensures TxsIn(txToChunk, ids) == g.Nodes()
  {
    forall t | t in g.Nodes() ensures t in TxsIn(txToChunk, ids) {
      assert txToChunk[t] in Elems(ids);
    }
  }
}
