/** The chunking of a linearization is the upper concave hull of its fee-weight diagram,
    and it is the only chunking. */
module Hull {
  import opened Feerate
  import opened Graph
  import opened Chunking

  lemma TailChunking(g: Graph, lin: seq<Txid>, chunks: seq<Chunk>)
    requires IsChunking(g, lin, chunks) && chunks != []
    ensures |chunks[0].txs| <= |lin|
    ensures lin[..|chunks[0].txs|] == chunks[0].txs
    ensures IsChunking(g, lin[|chunks[0].txs|..], chunks[1..])
  {
    assert lin == chunks[0].txs + Flatten(chunks[1..]);
    var rest := chunks[1..];
    forall i | 0 < i < |rest| ensures !Above(rest[i], rest[i - 1]) {
      assert !Above(chunks[i + 1], chunks[i]);
    }
  }

  lemma {:induction false} FlattenKeys(g: Graph, chunks: seq<Chunk>)
    requires AllExact(g, chunks)
    ensures Elems(Flatten(chunks)) <= g.weight.Keys
    ensures Flatten(chunks) == [] ==> chunks == []
  {
    if chunks != [] {
      assert Exact(g, chunks[0]);
      FlattenKeys(g, chunks[1..]);
    }
  }

  /** Later chunks are not above earlier ones. */
  lemma {:induction false} NonIncreasingFar(g: Graph, chunks: seq<Chunk>, i: nat, j: nat)
    requires AllExact(g, chunks) && NonIncreasing(chunks) && i <= j < |chunks|
    ensures !Above(chunks[j], chunks[i])
    decreases j - i
  {
    if i < j {
      hide Higher;
      NonIncreasingFar(g, chunks, i, j - 1);
      var a, b, c := chunks[j], chunks[j - 1], chunks[i];
      assert Exact(g, a) && Exact(g, b) && Exact(g, c);
      assert !Above(chunks[j], chunks[j - 1]);
      NotHigherTrans(a.fee, a.weight, b.fee, b.weight, c.fee, c.weight);
    }
  }

  /** No prefix of the linearization has a higher feerate than the first chunk. */
  lemma {:induction false} PrefixNotAboveHead(g: Graph, lin: seq<Txid>, chunks: seq<Chunk>, k: nat)
    requires IsChunking(g, lin, chunks) && chunks != [] && 0 < k <= |lin|
    ensures !Higher(Sum(g.fee, lin[..k]), Sum(g.weight, lin[..k]), chunks[0].fee, chunks[0].weight)
    decreases |chunks|
  {
    hide Higher;
    var head := chunks[0];
    var n := |head.txs|;
    TailChunking(g, lin, chunks);
    assert Exact(g, head) && Solid(g, head);
    if k < n {
      assert lin[..k] == head.txs[..k];
      assert PrefixBelow(g, head, k);
      HigherNotBack(head.fee, head.weight, Sum(g.fee, lin[..k]), Sum(g.weight, lin[..k]));
    } else if k == n {
      HigherIrreflexive(head.fee, head.weight);
    } else {
      var rest := lin[n..];
      assert lin[..k] == head.txs + rest[..k - n];
      assert rest == Flatten(chunks[1..]) != [];
      PrefixNotAboveHead(g, rest, chunks[1..], k - n);
      SumConcat(g.fee, head.txs, rest[..k - n]);
      SumConcat(g.weight, head.txs, rest[..k - n]);
      FlattenKeys(g, chunks[1..]);
      PrefixWeight(g, rest, k - n);
      var next := chunks[1];
      assert !Above(next, head) && Exact(g, next);
      NotHigherTrans(Sum(g.fee, rest[..k - n]), Sum(g.weight, rest[..k - n]), next.fee, next.weight, head.fee, head.weight);
      HigherIrreflexive(head.fee, head.weight);
      MediantNotAbove(head.fee, head.weight, Sum(g.fee, rest[..k - n]), Sum(g.weight, rest[..k - n]), head.fee, head.weight);
    }
  }

  lemma HigherIrreflexive(f: int, w: int)
    ensures !Higher(f, w, f, w)
  {
  }

  lemma HigherNotBack(f1: int, w1: int, f2: int, w2: int)
    requires Higher(f1, w1, f2, w2)
    ensures !Higher(f2, w2, f1, w1)
  {
  }

  /** The first chunks of two chunkings of one linearization have the same length. */
  lemma HeadUnique(g: Graph, lin: seq<Txid>, a: seq<Chunk>, b: seq<Chunk>)
    requires IsChunking(g, lin, a) && IsChunking(g, lin, b) && a != [] && b != []
    ensures |a[0].txs| >= |b[0].txs|
  {
    hide Higher;
    var n := |a[0].txs|;
    if n < |b[0].txs| {
      TailChunking(g, lin, a);
      TailChunking(g, lin, b);
      assert Exact(g, a[0]) && Exact(g, b[0]) && Solid(g, b[0]);
      assert PrefixBelow(g, b[0], n);
      assert b[0].txs[..n] == a[0].txs;
      PrefixNotAboveHead(g, lin, a, |b[0].txs|);
    }
  }

  /** Segmentation into solid chunks of non-increasing feerate is unique. */
  lemma {:induction false} ChunkingUnique(g: Graph, lin: seq<Txid>, a: seq<Chunk>, b: seq<Chunk>)
    requires IsChunking(g, lin, a) && IsChunking(g, lin, b)
    ensures a == b
    decreases |a|
  {
    FlattenKeys(g, a);
    FlattenKeys(g, b);
    if a != [] && b != [] {
      HeadUnique(g, lin, a, b);
      HeadUnique(g, lin, b, a);
      TailChunking(g, lin, a);
      TailChunking(g, lin, b);
      assert Exact(g, a[0]) && Exact(g, b[0]);
      assert a[0] == b[0];
      ChunkingUnique(g, lin[|a[0].txs|..], a[1..], b[1..]);
      assert a == [a[0]] + a[1..] && b == [b[0]] + b[1..];
    }
  }

  /** Every part that ends where a chunk list ends is not below the list's last bound. */
  lemma {:induction false} SuffixNotBelow(g: Graph, lin: seq<Txid>, chunks: seq<Chunk>, k: nat, f: int, w: int)
    requires IsChunking(g, lin, chunks) && k <= |lin| && 0 < w
    requires forall i | 0 <= i < |chunks| :: !Higher(f, w, chunks[i].fee, chunks[i].weight)
    ensures !Higher(f, w, Sum(g.fee, lin[k..]), Sum(g.weight, lin[k..]))
    decreases |chunks|
  {
    if k == |lin| {
      assert lin[k..] == [];
    } else {
      hide Higher;
      var head := chunks[0];
      var n := |head.txs|;
      TailChunking(g, lin, chunks);
      assert Exact(g, head) && Solid(g, head);
      var rest := lin[n..];
      if k >= n {
        assert lin[k..] == rest[k - n..];
        SuffixNotBelow(g, rest, chunks[1..], k - n, f, w);
      } else {
        var tail := head.txs[k..];
        assert lin[k..] == tail + rest by { assert lin == head.txs + rest; }
        assert rest[0..] == rest;
        SuffixNotBelow(g, rest, chunks[1..], 0, f, w);
        ChunkTailNotBelow(g, head, k, f, w);
        SumConcat(g.fee, tail, rest);
        SumConcat(g.weight, tail, rest);
        MediantNotBelow(Sum(g.fee, tail), Sum(g.weight, tail), Sum(g.fee, rest), Sum(g.weight, rest), f, w);
      }
    }
  }

  lemma ChunkTailNotBelow(g: Graph, c: Chunk, k: nat, f: int, w: int)
    requires Exact(g, c) && Solid(g, c) && k < |c.txs| && 0 < w
    requires !Higher(f, w, c.fee, c.weight)
    ensures !Higher(f, w, Sum(g.fee, c.txs[k..]), Sum(g.weight, c.txs[k..]))
  {
    hide Higher;
    var rest := c.txs[k..];
    assert c.txs == c.txs[..k] + rest;
    if k == 0 {
      assert rest == c.txs;
    } else {
      SumConcat(g.fee, c.txs[..k], rest);
      SumConcat(g.weight, c.txs[..k], rest);
      assert PrefixBelow(g, c, k);
      RestAboveWhole(Sum(g.fee, c.txs[..k]), Sum(g.weight, c.txs[..k]), Sum(g.fee, rest), Sum(g.weight, rest));
      SumPositive(g.weight, rest);
      HigherTransRight(Sum(g.fee, rest), Sum(g.weight, rest), c.fee, c.weight, f, w);
      HigherNotBack(Sum(g.fee, rest), Sum(g.weight, rest), f, w);
    }
  }

  lemma {:induction false} SplitChunking(g: Graph, lin: seq<Txid>, chunks: seq<Chunk>, j: nat)
    requires IsChunking(g, lin, chunks) && j <= |chunks|
    ensures var s := |Flatten(chunks[..j])|;
            && s <= |lin|
            && IsChunking(g, lin[..s], chunks[..j])
            && IsChunking(g, lin[s..], chunks[j..])
  {
    var s := |Flatten(chunks[..j])|;
    assert chunks == chunks[..j] + chunks[j..];
    FlattenConcat(chunks[..j], chunks[j..]);
    assert lin[..s] == Flatten(chunks[..j]) && lin[s..] == Flatten(chunks[j..]);
    var back := chunks[j..];
    forall i | 0 < i < |back| ensures !Above(back[i], back[i - 1]) {
      assert !Above(chunks[j + i], chunks[j + i - 1]);
    }
    forall i | 0 <= i < |back| ensures Exact(g, back[i]) && Solid(g, back[i]) {
      assert Exact(g, chunks[j + i]) && Solid(g, chunks[j + i]);
    }
  }

  lemma PartSum(m: map<Txid, int>, lin: seq<Txid>, i: nat, k: nat)
    requires i <= k <= |lin|
    ensures Sum(m, lin[..k]) == Sum(m, lin[..i]) + Sum(m, lin[i..k])
  {
    assert lin[..k] == lin[..i] + lin[i..k];
    SumConcat(m, lin[..i], lin[i..k]);
  }

  /** No part that starts with a chunk has a higher feerate than the chunk. */
  lemma NotAboveAfter(g: Graph, lin: seq<Txid>, chunks: seq<Chunk>, j: nat, s: nat, k: nat)
    requires IsChunking(g, lin, chunks) && j < |chunks| && s == |Flatten(chunks[..j])| < k <= |lin|
    ensures !Higher(Sum(g.fee, lin[s..k]), Sum(g.weight, lin[s..k]), chunks[j].fee, chunks[j].weight)
  {
    hide Higher, IsChunking;
    SplitChunking(g, lin, chunks, j);
    PrefixNotAboveHead(g, lin[s..], chunks[j..], k - s);
    assert lin[s..][..k - s] == lin[s..k];
  }

  /** No part that ends before a chunk has a lower feerate than the chunk. */
  lemma NotBelowBefore(g: Graph, lin: seq<Txid>, chunks: seq<Chunk>, j: nat, s: nat, k: nat)
    requires IsChunking(g, lin, chunks) && j < |chunks| && s == |Flatten(chunks[..j])| <= |lin| && k <= s && 0 < chunks[j].weight
    ensures !Higher(chunks[j].fee, chunks[j].weight, Sum(g.fee, lin[k..s]), Sum(g.weight, lin[k..s]))
  {
    hide Higher, IsChunking, Exact, Solid;
    SplitChunking(g, lin, chunks, j);
    var c := chunks[j];
    forall i | 0 <= i < |chunks[..j]| ensures !Higher(c.fee, c.weight, chunks[..j][i].fee, chunks[..j][i].weight) {
      NonIncreasingAt(g, lin, chunks, i, j);
    }
    SuffixNotBelow(g, lin[..s], chunks[..j], k, c.fee, c.weight);
    assert lin[..s][k..] == lin[k..s];
  }

  lemma NonIncreasingAt(g: Graph, lin: seq<Txid>, chunks: seq<Chunk>, i: nat, j: nat)
    requires IsChunking(g, lin, chunks) && i <= j < |chunks|
    ensures !Higher(chunks[j].fee, chunks[j].weight, chunks[i].fee, chunks[i].weight)
  {
    NonIncreasingFar(g, chunks, i, j);
  }

  lemma ChunkWeighs(g: Graph, lin: seq<Txid>, chunks: seq<Chunk>, j: nat)
    requires IsChunking(g, lin, chunks) && j < |chunks|
    ensures 0 < chunks[j].weight && |Flatten(chunks[..j])| <= |lin|
  {
    hide Higher, Solid;
    assert Exact(g, chunks[j]);
    SplitChunking(g, lin, chunks, j);
  }

  /** The hull lies on or above the whole diagram: the point reached after any k
      transactions is on or below the line through any chunk j, which starts at the point
      reached after the s transactions before it and rises with its feerate. */
  lemma HullDominates(g: Graph, lin: seq<Txid>, chunks: seq<Chunk>, j: nat, k: nat)
    requires IsChunking(g, lin, chunks) && j < |chunks| && k <= |lin|
    ensures var s := |Flatten(chunks[..j])|;
            && s <= |lin|
            && (Sum(g.fee, lin[..k]) - Sum(g.fee, lin[..s])) * chunks[j].weight
               <= chunks[j].fee * (Sum(g.weight, lin[..k]) - Sum(g.weight, lin[..s]))
  {
    hide IsChunking, Sum, Flatten;
    ChunkWeighs(g, lin, chunks, j);
    var s := |Flatten(chunks[..j])|;
    if s < k {
      NotAboveAfter(g, lin, chunks, j, s, k);
      PartSum(g.fee, lin, s, k);
      PartSum(g.weight, lin, s, k);
    } else {
      NotBelowBefore(g, lin, chunks, j, s, k);
      PartSum(g.fee, lin, k, s);
      PartSum(g.weight, lin, k, s);
      DiagramLeft(Sum(g.fee, lin[..k]), Sum(g.weight, lin[..k]), Sum(g.fee, lin[k..s]), Sum(g.weight, lin[k..s]), chunks[j].fee, chunks[j].weight);
    }
  }

  lemma DiagramLeft(f0: int, w0: int, f1: int, w1: int, f: int, w: int)
    requires !Higher(f, w, f1, w1)
    ensures (f0 - (f0 + f1)) * w <= f * (w0 - (w0 + w1))
  {
    assert f0 - (f0 + f1) == -f1 && w0 - (w0 + w1) == -w1;
    assert (-f1) * w == -(f1 * w) && f * (-w1) == -(f * w1);
  }
}
