/** Cutting a linearization into chunks, and why the result is its upper concave hull. */
module Chunking {
  import opened Feerate
  import opened Graph

  datatype Chunk = Chunk(txs: seq<Txid>, fee: int, weight: int)

  function Flatten(chunks: seq<Chunk>): seq<Txid> {
    if chunks == [] then [] else chunks[0].txs + Flatten(chunks[1..])
  }

  lemma {:induction false} FlattenConcat(a: seq<Chunk>, b: seq<Chunk>)
    ensures Flatten(a + b) == Flatten(a) + Flatten(b)
  {
    if a == [] {
      assert a + b == b;
    } else {
      assert (a + b)[1..] == a[1..] + b;
      FlattenConcat(a[1..], b);
      assert a[0].txs + (Flatten(a[1..]) + Flatten(b)) == (a[0].txs + Flatten(a[1..])) + Flatten(b);
    }
  }

  lemma FlattenOne(c: Chunk)
    ensures Flatten([c]) == c.txs
  {
    assert [c][1..] == [];
  }

  /** A non-empty chunk that carries the exact fee and weight of its transactions. */
  ghost predicate Exact(g: Graph, c: Chunk) {
    && c.txs != []
    && Elems(c.txs) <= g.weight.Keys
    && c.fee == Sum(g.fee, c.txs)
    && c.weight == Sum(g.weight, c.txs)
    && 0 < c.weight
  }

  ghost predicate AllExact(g: Graph, chunks: seq<Chunk>) {
    forall i | 0 <= i < |chunks| :: Exact(g, chunks[i])
  }

  ghost predicate PrefixBelow(g: Graph, c: Chunk, k: nat)
    requires k <= |c.txs|
  {
    Higher(c.fee, c.weight, Sum(g.fee, c.txs[..k]), Sum(g.weight, c.txs[..k]))
  }

  /** Every proper prefix of the chunk has a strictly lower feerate than the chunk. */
  ghost predicate Solid(g: Graph, c: Chunk) {
    forall k | 0 < k < |c.txs| :: PrefixBelow(g, c, k)
  }

  ghost predicate AllSolid(g: Graph, chunks: seq<Chunk>) {
    forall i | 0 <= i < |chunks| :: Solid(g, chunks[i])
  }

  predicate Above(a: Chunk, b: Chunk) {
    Higher(a.fee, a.weight, b.fee, b.weight)
  }

  /** Feerates do not increase along the list. */
  ghost predicate NonIncreasing(chunks: seq<Chunk>) {
    forall i | 0 < i < |chunks| :: !Above(chunks[i], chunks[i - 1])
  }

  /** What chunkify returns for the linearization `lin`. */
  ghost predicate IsChunking(g: Graph, lin: seq<Txid>, chunks: seq<Chunk>) {
    && Flatten(chunks) == lin
    && AllExact(g, chunks)
    && AllSolid(g, chunks)
    && NonIncreasing(chunks)
  }

  function Merge(a: Chunk, b: Chunk): Chunk {
    Chunk(a.txs + b.txs, a.fee + b.fee, a.weight + b.weight)
  }

  lemma MergeExact(g: Graph, a: Chunk, b: Chunk)
    requires Exact(g, a) && Exact(g, b)
    ensures Exact(g, Merge(a, b))
  {
    SumConcat(g.fee, a.txs, b.txs);
    SumConcat(g.weight, a.txs, b.txs);
  }

  /** A chunk absorbs a strictly higher successor: the union is solid again. */
  lemma MergeSolid(g: Graph, a: Chunk, b: Chunk)
    requires Exact(g, a) && Exact(g, b) && Solid(g, a) && Solid(g, b) && Above(b, a)
    ensures Solid(g, Merge(a, b))
  {
    var m := Merge(a, b);
    forall k | 0 < k < |m.txs| ensures PrefixBelow(g, m, k) {
      MergePrefixBelow(g, a, b, k);
    }
  }

  lemma SolidPrefix(g: Graph, c: Chunk, k: int)
    requires Solid(g, c)
    ensures 0 < k < |c.txs| ==> PrefixBelow(g, c, k)
  {
  }

  lemma MergePrefixBelow(g: Graph, a: Chunk, b: Chunk, k: nat)
    requires Exact(g, a) && Exact(g, b) && Solid(g, a) && Solid(g, b) && Above(b, a)
    requires 0 < k < |a.txs| + |b.txs|
    ensures PrefixBelow(g, Merge(a, b), k)
  {
    hide Higher, Solid;
    if k <= |a.txs| {
      MergePrefixFirst(g, a, b, k);
    } else {
      MergePrefixSecond(g, a, b, k - |a.txs|);
    }
  }

  lemma MergePrefixFirst(g: Graph, a: Chunk, b: Chunk, k: nat)
    requires Exact(g, a) && Exact(g, b) && Solid(g, a) && Above(b, a) && 0 < k <= |a.txs|
    ensures PrefixBelow(g, Merge(a, b), k)
  {
    hide Higher, Solid;
    var m := Merge(a, b);
    MediantBetween(a.fee, a.weight, b.fee, b.weight);
    assert m.txs[..k] == a.txs[..k];
    if k == |a.txs| {
      assert a.txs[..k] == a.txs;
    } else {
      SolidPrefix(g, a, k);
      PrefixWeight(g, a.txs, k);
      HigherTrans(m.fee, m.weight, a.fee, a.weight, Sum(g.fee, a.txs[..k]), Sum(g.weight, a.txs[..k]));
    }
  }

  lemma MergePrefixSecond(g: Graph, a: Chunk, b: Chunk, j: nat)
    requires Exact(g, a) && Exact(g, b) && Solid(g, b) && Above(b, a) && 0 < j < |b.txs|
    ensures PrefixBelow(g, Merge(a, b), |a.txs| + j)
  {
    MergeSums(g, a, b, j);
    hide Higher, Solid, Sum, Exact, Elems;
    var m, k, rest := Merge(a, b), |a.txs| + j, b.txs[j..];
    MediantBetween(a.fee, a.weight, b.fee, b.weight);
    SolidPrefix(g, b, j);
    RestAboveWhole(Sum(g.fee, b.txs[..j]), Sum(g.weight, b.txs[..j]), Sum(g.fee, rest), Sum(g.weight, rest));
    HigherTrans(Sum(g.fee, rest), Sum(g.weight, rest), b.fee, b.weight, m.fee, m.weight);
    FirstBelowWhole(Sum(g.fee, m.txs[..k]), Sum(g.weight, m.txs[..k]), Sum(g.fee, rest), Sum(g.weight, rest));
  }

  /** What a prefix of a merged chunk and the rest add up to. */
  lemma MergeSums(g: Graph, a: Chunk, b: Chunk, j: nat)
    requires Exact(g, a) && Exact(g, b) && 0 < j < |b.txs|
    ensures var prefix, rest := Merge(a, b).txs[..|a.txs| + j], b.txs[j..];
            && Sum(g.fee, b.txs[..j]) + Sum(g.fee, rest) == b.fee && Sum(g.weight, b.txs[..j]) + Sum(g.weight, rest) == b.weight
            && Sum(g.fee, prefix) + Sum(g.fee, rest) == a.fee + b.fee && Sum(g.weight, prefix) + Sum(g.weight, rest) == a.weight + b.weight
            && 0 < Sum(g.weight, rest) && 0 < a.weight && 0 < b.weight && 0 < Sum(g.weight, b.txs[..j]) && 0 < Sum(g.weight, prefix)
  {
    var m, rest := Merge(a, b), b.txs[j..];
    var prefix := m.txs[..|a.txs| + j];
    assert b.txs == b.txs[..j] + rest && m.txs == prefix + rest && prefix == a.txs + b.txs[..j];
    SumConcat(g.fee, b.txs[..j], rest);
    SumConcat(g.weight, b.txs[..j], rest);
    SumConcat(g.fee, prefix, rest);
    SumConcat(g.weight, prefix, rest);
    SumPositive(g.weight, rest);
    SumPositive(g.weight, b.txs[..j]);
    SumPositive(g.weight, prefix);
    MergeExact(g, a, b);
  }

  lemma PrefixWeight(g: Graph, s: seq<Txid>, k: nat)
    requires 0 < k <= |s| && Elems(s) <= g.weight.Keys
    ensures 0 < Sum(g.weight, s[..k])
  {
    assert Elems(s[..k]) <= Elems(s);
    SumPositive(g.weight, s[..k]);
  }

  /** What holds while the last chunk may still join the one before it. */
  ghost predicate IsMerging(g: Graph, lin: seq<Txid>, chunks: seq<Chunk>) {
    && chunks != [] && Flatten(chunks) == lin
    && AllExact(g, chunks) && AllSolid(g, chunks) && NonIncreasing(chunks[..|chunks| - 1])
  }

  method Chunkify(g: Graph, linearization: seq<Txid>) returns (chunks: seq<Chunk>)
    requires Elems(linearization) <= g.weight.Keys
    ensures IsChunking(g, linearization, chunks)
  {
    hide Higher, IsChunking, IsMerging, At;
    chunks := [];
    NoChunks(g, linearization);
    for i := 0 to |linearization|
      invariant IsChunking(g, linearization[..i], chunks)
    {
      var tx := linearization[i];
      PushSingle(g, linearization, i, chunks);
      chunks := chunks + [Chunk([tx], At(g.fee, tx), At(g.weight, tx))];
      while |chunks| >= 2
        invariant IsMerging(g, linearization[..i + 1], chunks) && chunks != []
        decreases |chunks|
      {
        var n := |chunks|;
        var last, prev := chunks[n - 1], chunks[n - 2];
        if Higher(last.fee, last.weight, prev.fee, prev.weight) {
          MergeLast(g, linearization[..i + 1], chunks);
          chunks := chunks[..n - 2] + [Merge(prev, last)];
        } else {
          break;
        }
      }
      NothingToMerge(g, linearization[..i + 1], chunks);
    }
    assert linearization[..|linearization|] == linearization;
  }

  lemma NoChunks(g: Graph, lin: seq<Txid>)
    ensures IsChunking(g, lin[..0], [])
  {
  }

  lemma NothingToMerge(g: Graph, lin: seq<Txid>, chunks: seq<Chunk>)
    requires IsMerging(g, lin, chunks) && (|chunks| < 2 || !Above(chunks[|chunks| - 1], chunks[|chunks| - 2]))
    ensures IsChunking(g, lin, chunks)
  {
    hide Above, Exact, Solid;
    forall i | 0 < i < |chunks| ensures !Above(chunks[i], chunks[i - 1]) {
      if i < |chunks| - 1 {
        var front := chunks[..|chunks| - 1];
        assert !Above(front[i], front[i - 1]);
      }
    }
  }

  lemma PushSingle(g: Graph, lin: seq<Txid>, i: nat, before: seq<Chunk>)
    requires i < |lin| && Elems(lin) <= g.weight.Keys && IsChunking(g, lin[..i], before)
    ensures IsMerging(g, lin[..i + 1], before + [Chunk([lin[i]], At(g.fee, lin[i]), At(g.weight, lin[i]))])
  {
    hide Higher;
    var c := Chunk([lin[i]], At(g.fee, lin[i]), At(g.weight, lin[i]));
    var chunks := before + [c];
    FlattenConcat(before, [c]);
    FlattenOne(c);
    assert lin[..i + 1] == lin[..i] + [lin[i]];
    SingleExact(g, lin, i);
    hide Exact, Solid, Flatten;
    assert chunks[..|chunks| - 1] == before;
  }

  lemma SingleExact(g: Graph, lin: seq<Txid>, i: nat)
    requires i < |lin| && Elems(lin) <= g.weight.Keys
    ensures var c := Chunk([lin[i]], At(g.fee, lin[i]), At(g.weight, lin[i])); Exact(g, c) && Solid(g, c)
  {
    SumOne(g.fee, lin[i]);
    SumOne(g.weight, lin[i]);
    assert lin[i] in Elems(lin);
  }

  lemma MergeLast(g: Graph, lin: seq<Txid>, chunks: seq<Chunk>)
    requires |chunks| >= 2 && IsMerging(g, lin, chunks) && Above(chunks[|chunks| - 1], chunks[|chunks| - 2])
    ensures var n := |chunks|; IsMerging(g, lin, chunks[..n - 2] + [Merge(chunks[n - 2], chunks[n - 1])])
  {
    hide Above, Exact, Solid, Merge;
    var n := |chunks|;
    var a, b := chunks[n - 2], chunks[n - 1];
    MergeExact(g, a, b);
    MergeSolid(g, a, b);
    var front := chunks[..n - 2];
    MergedFlat(chunks);
    hide Flatten;
    assert (front + [Merge(a, b)])[..n - 2] == chunks[..n - 1][..n - 2];
  }

  lemma MergedFlat(chunks: seq<Chunk>)
    requires |chunks| >= 2
    ensures var n := |chunks|; Flatten(chunks[..n - 2] + [Merge(chunks[n - 2], chunks[n - 1])]) == Flatten(chunks)
  {
    hide Flatten;
    var n := |chunks|;
    var a, b := chunks[n - 2], chunks[n - 1];
    var front := chunks[..n - 2];
    assert chunks == front + [a] + [b];
    FlattenConcat(front + [a], [b]);
    FlattenConcat(front, [a]);
    FlattenConcat(front, [Merge(a, b)]);
    FlattenOne(a);
    FlattenOne(b);
    FlattenOne(Merge(a, b));
    Assoc(Flatten(front), a.txs, b.txs);
  }
}
