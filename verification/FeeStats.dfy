/** Average fee rates at weight percentiles, computed in one pass over the transactions. */
module FeeStats {
  import opened Options

  /** A missing rate is 0. */
  datatype Tx = Tx(weight: real, rate: real, effectiveFeePerVsize: real, feePerVsize: real)

  function TxRate(tx: Tx): real {
    if tx.rate != 0.0 then tx.rate else if tx.effectiveFeePerVsize != 0.0 then tx.effectiveFeePerVsize else tx.feePerVsize
  }

  function Max(a: real, b: real): real {
    if a < b then b else a
  }

  function Min(a: real, b: real): real {
    if a < b then a else b
  }

  // ---------- the reference: one band at a time

  /** Where the transactions end when laid end to end from 0. */
  function Total(txs: seq<Tx>): real {
    if txs == [] then 0.0 else Total(txs[..|txs| - 1]) + txs[|txs| - 1].weight
  }

  /** Length of the part of `[s, e]` inside `[a, b]`. */
  function Overlap(s: real, e: real, a: real, b: real): (r: real)
    ensures 0.0 <= r
  {
    var lo, hi := Max(s, a), Min(e, b);
    if lo < hi then hi - lo else 0.0
  }

  /** Length of the part of transaction `i` inside the band `[a, b]`. */
  function Inside(txs: seq<Tx>, i: nat, a: real, b: real): real
    requires i < |txs|
  {
    Overlap(Total(txs[..i]), Total(txs[..i + 1]), a, b)
  }

  /** Integral of the rate over the band. */
  function Integral(txs: seq<Tx>, n: nat, a: real, b: real): real
    requires n <= |txs|
  {
    if n == 0 then 0.0 else Integral(txs, n - 1, a, b) + TxRate(txs[n - 1]) * Inside(txs, n - 1, a, b)
  }

  /** The lowest rate in the band; none if no transaction overlaps it. */
  ghost predicate Lowest(txs: seq<Tx>, a: real, b: real, min: Option<real>) {
    && (forall i | 0 <= i < |txs| && Inside(txs, i, a, b) > 0.0 :: min.Some? && min.value <= TxRate(txs[i]))
    && (min.Some? ==> exists i | 0 <= i < |txs| :: Inside(txs, i, a, b) > 0.0 && TxRate(txs[i]) == min.value)
  }

  /** The highest rate in the band, at least 0. */
  ghost predicate Highest(txs: seq<Tx>, a: real, b: real, max: real) {
    && 0.0 <= max
    && (forall i | 0 <= i < |txs| && Inside(txs, i, a, b) > 0.0 :: TxRate(txs[i]) <= max)
    && (max > 0.0 ==> exists i | 0 <= i < |txs| :: Inside(txs, i, a, b) > 0.0 && TxRate(txs[i]) == max)
  }

  // ---------- what accumulates in a band

  datatype Acc = Acc(fee: real, weight: real, min: Option<real>, max: real)

  const Empty := Acc(0.0, 0.0, None, 0.0)

  function Add(acc: Acc, rate: real, weight: real): Acc {
    if weight <= 0.0 then acc
    else Acc(acc.fee + rate * weight, acc.weight + weight,
             Some(if acc.min.None? then rate else Min(acc.min.value, rate)), Max(acc.max, rate))
  }

  function Fold(txs: seq<Tx>, a: real, b: real): Acc {
    if txs == [] then Empty
    else
      var front := txs[..|txs| - 1];
      Add(Fold(front, a, b), TxRate(txs[|txs| - 1]), Overlap(Total(front), Total(txs), a, b))
  }

  ghost predicate Weighted(txs: seq<Tx>) {
    forall i | 0 <= i < |txs| :: 0.0 <= txs[i].weight
  }

  lemma {:induction false} TotalNonNegative(txs: seq<Tx>)
    requires Weighted(txs)
    ensures 0.0 <= Total(txs)
  {
    if txs != [] {
      TotalNonNegative(txs[..|txs| - 1]);
    }
  }

  lemma {:induction false} IntegralFront(txs: seq<Tx>, n: nat, a: real, b: real)
    requires n < |txs|
    ensures Integral(txs, n, a, b) == Integral(txs[..|txs| - 1], n, a, b)
  {
    if n > 0 {
      IntegralFront(txs, n - 1, a, b);
      InsideFront(txs, n - 1, a, b);
    }
  }

  lemma InsideFront(txs: seq<Tx>, i: nat, a: real, b: real)
    requires i < |txs| - 1
    ensures Inside(txs, i, a, b) == Inside(txs[..|txs| - 1], i, a, b)
  {
    var front := txs[..|txs| - 1];
    assert front[..i] == txs[..i] && front[..i + 1] == txs[..i + 1];
  }

  /** What accumulates is the integral, the covered part of the band, and the rates at both ends. */
  lemma {:induction false} FoldMeans(txs: seq<Tx>, a: real, b: real)
    requires Weighted(txs) && a < b
    ensures var acc := Fold(txs, a, b);
            && acc.fee == Integral(txs, |txs|, a, b)
            && acc.weight == Overlap(0.0, Total(txs), a, b)
            && Lowest(txs, a, b, acc.min) && Highest(txs, a, b, acc.max)
  {
    hide Overlap, TxRate, Lowest, Highest, Inside, Add;
    if txs == [] {
      FoldNone(a, b);
    } else {
      var n := |txs| - 1;
      var front := txs[..n];
      FoldMeans(front, a, b);
      IntegralFront(txs, n, a, b);
      TotalNonNegative(front);
      OverlapSplit(0.0, Total(front), Total(txs), a, b);
      InsideLast(txs, a, b);
      RangeMore(txs, a, b, Fold(front, a, b));
      AddFields(Fold(front, a, b), TxRate(txs[n]), Inside(txs, n, a, b));
    }
  }

  lemma FoldNone(a: real, b: real)
    requires a < b
    ensures Overlap(0.0, 0.0, a, b) == 0.0 && Lowest([], a, b, None) && Highest([], a, b, 0.0)
  {
  }

  lemma InsideLast(txs: seq<Tx>, a: real, b: real)
    requires txs != []
    ensures Inside(txs, |txs| - 1, a, b) == Overlap(Total(txs[..|txs| - 1]), Total(txs), a, b) >= 0.0
  {
    assert txs[..|txs| - 1 + 1] == txs;
  }

  lemma AddFields(acc: Acc, rate: real, weight: real)
    requires 0.0 <= weight
    ensures Add(acc, rate, weight).fee == acc.fee + rate * weight && Add(acc, rate, weight).weight == acc.weight + weight
  {
  }

  lemma RangeMore(txs: seq<Tx>, a: real, b: real, acc: Acc)
    requires txs != []
    requires var front := txs[..|txs| - 1]; Lowest(front, a, b, acc.min) && Highest(front, a, b, acc.max)
    ensures var next := Add(acc, TxRate(txs[|txs| - 1]), Inside(txs, |txs| - 1, a, b)); Lowest(txs, a, b, next.min) && Highest(txs, a, b, next.max)
  {
    hide Overlap, TxRate, Inside;
    var n := |txs| - 1;
    var front := txs[..n];
    var next := Add(acc, TxRate(txs[n]), Inside(txs, n, a, b));
    forall i | 0 <= i < n ensures Inside(txs, i, a, b) == Inside(front, i, a, b) && txs[i] == front[i] {
      InsideFront(txs, i, a, b);
    }
    if acc.min.Some? {
      var i :| 0 <= i < n && Inside(front, i, a, b) > 0.0 && TxRate(front[i]) == acc.min.value;
      assert Inside(txs, i, a, b) > 0.0;
    }
    if acc.max > 0.0 {
      var i :| 0 <= i < n && Inside(front, i, a, b) > 0.0 && TxRate(front[i]) == acc.max;
      assert Inside(txs, i, a, b) > 0.0;
    }
  }

  lemma OverlapSplit(s: real, m: real, e: real, a: real, b: real)
    requires s <= m <= e
    ensures Overlap(s, e, a, b) == Overlap(s, m, a, b) + Overlap(m, e, a, b)
  {
  }

  lemma OverlapBefore(s: real, e: real, a: real, b: real)
    requires e <= a || b <= s
    ensures Overlap(s, e, a, b) == 0.0
  {
  }

  lemma OverlapWhole(e: real, a: real, b: real)
    requires 0.0 <= a < b <= e
    ensures Overlap(0.0, e, a, b) == b - a
  {
  }

  /** Two pieces with one rate accumulate like one. */
  lemma AddTwice(acc: Acc, rate: real, w1: real, w2: real)
    requires 0.0 <= w1 && 0.0 <= w2
    ensures Add(Add(acc, rate, w1), rate, w2) == Add(acc, rate, w1 + w2)
  {
    if w1 > 0.0 && w2 > 0.0 {
      assert rate * (w1 + w2) == rate * w1 + rate * w2;
    }
  }

  lemma {:induction false} FoldBefore(txs: seq<Tx>, a: real, b: real)
    requires Weighted(txs) && Total(txs) <= a
    ensures Fold(txs, a, b) == Empty
  {
    if txs != [] {
      FoldBefore(txs[..|txs| - 1], a, b);
      OverlapBefore(Total(txs[..|txs| - 1]), Total(txs), a, b);
    }
  }

  /** Splitting a transaction in two of the same rate changes nothing. */
  lemma {:induction false} SplitSame(before: seq<Tx>, t: Tx, t1: Tx, t2: Tx, after: seq<Tx>, a: real, b: real)
    requires TxRate(t1) == TxRate(t) && TxRate(t2) == TxRate(t)
    requires 0.0 <= t1.weight && 0.0 <= t2.weight && t1.weight + t2.weight == t.weight
    ensures Fold(before + [t1, t2] + after, a, b) == Fold(before + [t] + after, a, b)
    ensures Total(before + [t1, t2] + after) == Total(before + [t] + after)
    decreases |after|
  {
    hide Overlap, TxRate, Add;
    var whole, split := before + [t] + after, before + [t1, t2] + after;
    if after == [] {
      assert whole[|whole| - 1] == t && split[|split| - 1] == t2 && (before + [t1])[|before|] == t1;
      assert whole[..|whole| - 1] == before && split[..|split| - 1] == before + [t1] && (before + [t1])[..|before|] == before;
      var s := Total(before);
      OverlapSplit(s, s + t1.weight, s + t.weight, a, b);
      AddTwice(Fold(before, a, b), TxRate(t), Overlap(s, s + t1.weight, a, b), Overlap(s + t1.weight, s + t.weight, a, b));
    } else {
      var front := after[..|after| - 1];
      SplitSame(before, t, t1, t2, front, a, b);
      assert whole[..|whole| - 1] == before + [t] + front && split[..|split| - 1] == before + [t1, t2] + front;
      assert whole[|whole| - 1] == split[|split| - 1];
    }
  }

  // ---------- the calculator

  /** A band `[left, right]` of weights. */
  datatype Band = Band(left: real, right: real)

  /** What the calculator reports for a band. */
  datatype BandFees = BandFees(avg: real, min: Option<real>, max: real)

  function Report(acc: Acc): BandFees {
    BandFees(if acc.weight != 0.0 then acc.fee / acc.weight else 0.0, acc.min, acc.max)
  }

  /** The percentiles with one band at each end of the range. */
  function WithEnds(percentiles: seq<real>, bandWidthPercent: real): seq<real> {
    [bandWidthPercent / 2.0] + percentiles + [100.0 - bandWidthPercent / 2.0]
  }

  function BandOf(percentile: real, bandWidthPercent: real, maxWeight: real): Band {
    var bandWidth := maxWeight * (bandWidthPercent / 100.0);
    var left := percentile / 100.0 * maxWeight - bandWidth / 2.0;
    Band(left, left + bandWidth)
  }

  /** Percentiles in order, and not two the same. */
  predicate Increasing(percentiles: seq<real>) {
    forall i, j | 0 <= i < j < |percentiles| :: percentiles[i] < percentiles[j]
  }

  /** Bands that overlap only count from where the one before them ends. */
  function BandsOf(percentiles: seq<real>, bandWidthPercent: real, maxWeight: real): seq<Band> {
    seq(|percentiles|, i requires 0 <= i < |percentiles| =>
      var band := BandOf(percentiles[i], bandWidthPercent, maxWeight);
      if i == 0 then band else band.(left := Max(band.left, BandOf(percentiles[i - 1], bandWidthPercent, maxWeight).right)))
  }

  lemma LaterBand(p: real, q: real, bandWidthPercent: real, maxWeight: real)
    requires p < q && 0.0 < maxWeight && 0.0 < bandWidthPercent
    ensures BandOf(p, bandWidthPercent, maxWeight).right < BandOf(q, bandWidthPercent, maxWeight).right
    ensures BandOf(q, bandWidthPercent, maxWeight).left < BandOf(q, bandWidthPercent, maxWeight).right
  {
    var bandWidth := maxWeight * (bandWidthPercent / 100.0);
    Scaled(p / 100.0, q / 100.0, maxWeight);
    Scaled(0.0, bandWidthPercent / 100.0, maxWeight);
    assert (bandWidthPercent / 100.0) * maxWeight == bandWidth;
  }

  lemma Scaled(a: real, b: real, m: real)
    requires a < b && 0.0 < m
    ensures a * m < b * m
  {
  }

  lemma FirstBand(bandWidthPercent: real, maxWeight: real)
    requires 0.0 < maxWeight && 0.0 < bandWidthPercent
    ensures BandOf(bandWidthPercent / 2.0, bandWidthPercent, maxWeight).left == 0.0
    ensures 0.0 < BandOf(bandWidthPercent / 2.0, bandWidthPercent, maxWeight).right
  {
    LaterBand(0.0, bandWidthPercent / 2.0, bandWidthPercent, maxWeight);
    var x := bandWidthPercent / 100.0;
    assert bandWidthPercent / 2.0 / 100.0 == x / 2.0;
    assert x / 2.0 * maxWeight == maxWeight * x / 2.0;
  }

  /** With percentiles in order the bands are apart. */
  lemma BandsApart(percentiles: seq<real>, bandWidthPercent: real, maxWeight: real)
    requires 0.0 < maxWeight && 0.0 < bandWidthPercent && Increasing(percentiles)
    requires percentiles != [] && percentiles[0] == bandWidthPercent / 2.0
    ensures Disjoint(BandsOf(percentiles, bandWidthPercent, maxWeight))
  {
    hide BandOf, BandsOf;
    BandAt(percentiles, bandWidthPercent, maxWeight, 0);
    var bands := BandsOf(percentiles, bandWidthPercent, maxWeight);
    forall i | 0 <= i < |percentiles| ensures 0.0 <= bands[i].left < bands[i].right {
      BandWidth(percentiles, bandWidthPercent, maxWeight, i);
    }
    forall i, j | 0 <= i < j < |percentiles| ensures bands[i].right <= bands[j].left {
      BandAt(percentiles, bandWidthPercent, maxWeight, i);
      BandAt(percentiles, bandWidthPercent, maxWeight, j);
      if i < j - 1 {
        LaterBand(percentiles[i], percentiles[j - 1], bandWidthPercent, maxWeight);
      }
    }
  }

  lemma BandWidth(percentiles: seq<real>, bandWidthPercent: real, maxWeight: real, i: nat)
    requires 0.0 < maxWeight && 0.0 < bandWidthPercent && Increasing(percentiles) && i < |percentiles|
    requires percentiles[0] == bandWidthPercent / 2.0
    ensures |BandsOf(percentiles, bandWidthPercent, maxWeight)| == |percentiles|
    ensures var b := BandsOf(percentiles, bandWidthPercent, maxWeight)[i]; 0.0 <= b.left < b.right
  {
    hide BandOf, BandsOf;
    BandAt(percentiles, bandWidthPercent, maxWeight, i);
    FirstBand(bandWidthPercent, maxWeight);
    if i > 0 {
      LaterBand(percentiles[i - 1], percentiles[i], bandWidthPercent, maxWeight);
      if i > 1 {
        LaterBand(percentiles[0], percentiles[i - 1], bandWidthPercent, maxWeight);
      }
    }
  }

  lemma BandAt(percentiles: seq<real>, bandWidthPercent: real, maxWeight: real, i: nat)
    requires i < |percentiles|
    ensures var bands, band := BandsOf(percentiles, bandWidthPercent, maxWeight), BandOf(percentiles[i], bandWidthPercent, maxWeight);
            && |bands| == |percentiles| && bands[i].right == band.right
            && (i == 0 ==> bands[i] == band)
            && (i > 0 ==> bands[i].left == Max(band.left, BandOf(percentiles[i - 1], bandWidthPercent, maxWeight).right)
                          && bands[i - 1].right == BandOf(percentiles[i - 1], bandWidthPercent, maxWeight).right)
  {
    hide BandOf;
  }

  /** Bands in order, none overlapping another. */
  ghost predicate Disjoint(bands: seq<Band>) {
    && (forall i | 0 <= i < |bands| :: 0.0 <= bands[i].left < bands[i].right)
    && (forall i, j | 0 <= i < j < |bands| :: bands[i].right <= bands[j].left)
  }

  /** Accumulated over `txs` and then a piece of one more transaction that reaches from their end to `at`. */
  function FoldTo(txs: seq<Tx>, rate: real, at: real, band: Band): Acc {
    Add(Fold(txs, band.left, band.right), rate, Overlap(Total(txs), at, band.left, band.right))
  }

  /** The state after everything up to weight `at`: finished bands reported last first, one band in progress. */
  ghost predicate Reached(bands: seq<Band>, txs: seq<Tx>, rate: real, at: real, k: nat, done: seq<BandFees>, acc: Acc) {
    && k <= |bands| && |done| == k
    && (forall j | 0 <= j < k :: bands[j].right <= at && done[k - 1 - j] == Report(FoldTo(txs, rate, at, bands[j])))
    && (k < |bands| ==> at < bands[k].right)
    && acc == (if k < |bands| then FoldTo(txs, rate, at, bands[k]) else Empty)
  }

  /** The piece grows without finishing a band. */
  lemma ReachedFurther(bands: seq<Band>, txs: seq<Tx>, rate: real, at: real, k: nat, done: seq<BandFees>, acc: Acc, next: real)
    requires Disjoint(bands) && Reached(bands, txs, rate, at, k, done, acc) && Total(txs) <= at <= next
    requires k < |bands| ==> next < bands[k].right
    ensures Reached(bands, txs, rate, next, k, done,
                    if k < |bands| then Add(acc, rate, Overlap(at, next, bands[k].left, bands[k].right)) else Empty)
  {
    hide Overlap, Add;
    forall j | 0 <= j < k ensures FoldTo(txs, rate, next, bands[j]) == FoldTo(txs, rate, at, bands[j]) {
      FoldPast(bands[j], txs, rate, at, next);
    }
    if k < |bands| {
      FoldOn(bands[k], txs, rate, at, next);
    }
  }

  /** A finished band takes nothing more. */
  lemma FoldPast(band: Band, txs: seq<Tx>, rate: real, at: real, next: real)
    requires Total(txs) <= at <= next && band.right <= at
    ensures FoldTo(txs, rate, next, band) == FoldTo(txs, rate, at, band)
  {
    OverlapSplit(Total(txs), at, next, band.left, band.right);
    OverlapBefore(at, next, band.left, band.right);
  }

  lemma FoldOn(band: Band, txs: seq<Tx>, rate: real, at: real, next: real)
    requires Total(txs) <= at <= next
    ensures FoldTo(txs, rate, next, band) == Add(FoldTo(txs, rate, at, band), rate, Overlap(at, next, band.left, band.right))
  {
    OverlapSplit(Total(txs), at, next, band.left, band.right);
    AddTwice(Fold(txs, band.left, band.right), rate, Overlap(Total(txs), at, band.left, band.right), Overlap(at, next, band.left, band.right));
  }

  /** The piece grows to the end of the band in progress. */
  lemma ReachedEnd(bands: seq<Band>, txs: seq<Tx>, rate: real, at: real, k: nat, done: seq<BandFees>, acc: Acc)
    requires Disjoint(bands) && Weighted(txs) && Reached(bands, txs, rate, at, k, done, acc) && Total(txs) <= at && k < |bands|
    ensures var next := bands[k].right;
            Reached(bands, txs, rate, next, k + 1, [Report(Add(acc, rate, Overlap(at, next, bands[k].left, next)))] + done, Empty)
  {
    hide Overlap, Add;
    var next := bands[k].right;
    var done' := [Report(Add(acc, rate, Overlap(at, next, bands[k].left, next)))] + done;
    FoldOn(bands[k], txs, rate, at, next);
    forall j | 0 <= j < k + 1 ensures bands[j].right <= next && done'[k - j] == Report(FoldTo(txs, rate, next, bands[j])) {
      if j < k {
        FoldPast(bands[j], txs, rate, at, next);
        assert done'[k - j] == done[k - 1 - j];
      }
    }
    if k + 1 < |bands| {
      NotYet(bands[k + 1], txs, rate, next);
    }
  }

  /** Nothing has accumulated in a band ahead. */
  lemma NotYet(band: Band, txs: seq<Tx>, rate: real, at: real)
    requires Weighted(txs) && Total(txs) <= at <= band.left
    ensures FoldTo(txs, rate, at, band) == Empty
  {
    FoldBefore(txs, band.left, band.right);
    OverlapBefore(Total(txs), at, band.left, band.right);
  }

  /** A transaction that was taken in whole is one more of the stream. */
  lemma ReachedNext(bands: seq<Band>, txs: seq<Tx>, tx: Tx, k: nat, done: seq<BandFees>, acc: Acc, rate: real)
    requires Reached(bands, txs, TxRate(tx), Total(txs) + tx.weight, k, done, acc)
    ensures Reached(bands, txs + [tx], rate, Total(txs + [tx]), k, done, acc)
  {
    hide Add, TxRate;
    var all := txs + [tx];
    assert all[..|all| - 1] == txs;
    forall j | 0 <= j < |bands| ensures FoldTo(all, rate, Total(all), bands[j]) == FoldTo(txs, TxRate(tx), Total(all), bands[j]) {
      OverlapNone(Total(all), bands[j].left, bands[j].right);
      hide Overlap;
      AddNone(Fold(all, bands[j].left, bands[j].right), rate);
    }
    hide FoldTo;
  }

  lemma OverlapNone(at: real, a: real, b: real)
    ensures Overlap(at, at, a, b) == 0.0
  {
  }

  lemma AddNone(acc: Acc, rate: real)
    ensures Add(acc, rate, 0.0) == acc
  {
  }

  lemma ReachedStart(bands: seq<Band>)
    requires Disjoint(bands)
    ensures Reached(bands, [], 0.0, 0.0, 0, [], Empty)
  {
    if bands != [] {
      NotYet(bands[0], [], 0.0, 0.0);
    }
  }

  /** Before a transaction has begun, its rate does not matter. */
  lemma AnyRate(bands: seq<Band>, txs: seq<Tx>, rate: real, k: nat, done: seq<BandFees>, acc: Acc)
    requires Reached(bands, txs, 0.0, Total(txs), k, done, acc)
    ensures Reached(bands, txs, rate, Total(txs), k, done, acc)
  {
    hide Add, Overlap;
    forall j | 0 <= j < |bands| ensures FoldTo(txs, rate, Total(txs), bands[j]) == FoldTo(txs, 0.0, Total(txs), bands[j]) {
      OverlapNone(Total(txs), bands[j].left, bands[j].right);
      AddNone(Fold(txs, bands[j].left, bands[j].right), rate);
      AddNone(Fold(txs, bands[j].left, bands[j].right), 0.0);
    }
    hide FoldTo;
  }

  lemma PastBands(bands: seq<Band>, txs: seq<Tx>, rate: real, at: real, done: seq<BandFees>, acc: Acc)
    requires Reached(bands, txs, rate, at, |bands|, done, acc)
    ensures acc == Empty
  {
  }

  lemma InBand(bands: seq<Band>, txs: seq<Tx>, rate: real, at: real, k: nat, done: seq<BandFees>, acc: Acc)
    requires Reached(bands, txs, rate, at, k, done, acc) && k < |bands|
    ensures at < bands[k].right
  {
  }

  /** How much of the rest of a transaction lies in the band in progress. */
  lemma PieceWeight(from: real, right: real, band: Band)
    requires from <= right && from < band.right && band.left < band.right
    ensures var next := Min(right, band.right);
            && from <= next <= right && next <= band.right && (next == right || next == band.right)
            && (right > band.left ==> Overlap(from, next, band.left, band.right) == next - Max(from, band.left) >= 0.0)
            && (right <= band.left ==> Overlap(from, next, band.left, band.right) == 0.0 && next == right < band.right)
            && (from < right && right > band.left ==> next - Max(from, band.left) > 0.0)
  {
  }

  lemma BandWide(bands: seq<Band>, k: nat)
    requires Disjoint(bands) && k < |bands|
    ensures bands[k].left < bands[k].right && (k + 1 < |bands| ==> bands[k].right <= bands[k + 1].left)
  {
  }

  lemma SameStart(from: real, bound: real, left: real)
    requires bound <= left && (bound == left || left <= from)
    ensures Max(from, bound) == Max(from, left)
  {
  }

  lemma AddWeight(acc: Acc, rate: real, weight: real)
    requires weight > 0.0
    ensures Add(acc, rate, weight) == Acc(acc.fee + rate * weight, acc.weight + weight,
                                          Some(if acc.min.None? then rate else Min(acc.min.value, rate)), Max(acc.max, rate))
  {
  }

  lemma TotalNext(txs: seq<Tx>, tx: Tx)
    ensures Total(txs + [tx]) == Total(txs) + tx.weight
  {
    var all := txs + [tx];
    assert all[..|all| - 1] == txs && all[|all| - 1] == tx;
  }

  /** The figures of one band, computed from the whole stream. */
  function Offline(txs: seq<Tx>, band: Band): BandFees {
    var acc := Fold(txs, band.left, band.right);
    if acc.weight > 0.0 then Report(acc) else BandFees(0.0, Some(0.0), 0.0)
  }

  lemma OfflineMin(txs: seq<Tx>, band: Band)
    ensures Offline(txs, band).min.Some?
  {
    FoldMin(txs, band.left, band.right);
  }

  lemma {:induction false} FoldMin(txs: seq<Tx>, a: real, b: real)
    ensures Fold(txs, a, b).weight >= 0.0
    ensures Fold(txs, a, b).weight > 0.0 ==> Fold(txs, a, b).min.Some?
  {
    hide Overlap, TxRate;
    if txs != [] {
      FoldMin(txs[..|txs| - 1], a, b);
    }
  }

  lemma FoldToEnd(txs: seq<Tx>, band: Band)
    ensures FoldTo(txs, 0.0, Total(txs), band) == Fold(txs, band.left, band.right)
  {
    OverlapNone(Total(txs), band.left, band.right);
    AddNone(Fold(txs, band.left, band.right), 0.0);
  }

  /** After a stream, the reports so far and the band in progress are what each band gives on its own. */
  lemma AllOffline(bands: seq<Band>, txs: seq<Tx>, k: nat, done: seq<BandFees>, acc: Acc)
    requires Disjoint(bands) && Weighted(txs) && Reached(bands, txs, 0.0, Total(txs), k, done, acc)
    ensures k <= |bands| && |done| == k
    ensures forall j | 0 <= j < k :: done[k - 1 - j] == Offline(txs, bands[j])
    ensures k < |bands| ==> Offline(txs, bands[k]) == if acc.weight > 0.0 then Report(acc) else BandFees(0.0, Some(0.0), 0.0)
    ensures k == |bands| ==> acc.weight == 0.0
    ensures forall j | k < j < |bands| :: Offline(txs, bands[j]) == BandFees(0.0, Some(0.0), 0.0)
  {
    hide Fold, FoldTo, Report, Total;
    forall j | 0 <= j < k ensures done[k - 1 - j] == Offline(txs, bands[j]) {
      FoldToEnd(txs, bands[j]);
      FinishedWeight(txs, bands[j]);
    }
    if k < |bands| {
      FoldToEnd(txs, bands[k]);
    }
    forall j | k < j < |bands| ensures Offline(txs, bands[j]) == BandFees(0.0, Some(0.0), 0.0) {
      FoldBefore(txs, bands[j].left, bands[j].right);
    }
  }

  lemma FinishedWeight(txs: seq<Tx>, band: Band)
    requires Weighted(txs) && 0.0 <= band.left < band.right <= Total(txs)
    ensures Fold(txs, band.left, band.right).weight == band.right - band.left
  {
    FoldMeans(txs, band.left, band.right);
    OverlapWhole(Total(txs), band.left, band.right);
  }

  /** The average of a band that the stream has passed is the integral of the rate over it divided
      by its width; of a band it is in, over the part it has covered. */
  lemma OfflineMeans(txs: seq<Tx>, band: Band)
    requires Weighted(txs) && 0.0 <= band.left < band.right
    ensures var covered := Overlap(0.0, Total(txs), band.left, band.right);
            && (band.right <= Total(txs) ==> covered == band.right - band.left)
            && (covered > 0.0 ==>
                  && Offline(txs, band).avg == Integral(txs, |txs|, band.left, band.right) / covered
                  && Lowest(txs, band.left, band.right, Offline(txs, band).min)
                  && Highest(txs, band.left, band.right, Offline(txs, band).max))
  {
    FoldMeans(txs, band.left, band.right);
    hide Lowest, Highest, Integral, Fold, Total;
  }

  /** The first of the three rates that is set, and 0 if none is. */
  ghost predicate Pays(tx: Tx, q: real) {
    || (tx.rate != 0.0 && q == tx.rate)
    || (tx.rate == 0.0 && tx.effectiveFeePerVsize != 0.0 && q == tx.effectiveFeePerVsize)
    || (tx.rate == 0.0 && tx.effectiveFeePerVsize == 0.0 && q == tx.feePerVsize)
  }

  /** If everything pays the same, every band that the stream reaches shows just that. */
  lemma UniformStream(txs: seq<Tx>, band: Band, q: real)
    requires Weighted(txs) && 0.0 <= band.left < band.right && 0.0 <= q && forall i | 0 <= i < |txs| :: Pays(txs[i], q)
    ensures Overlap(0.0, Total(txs), band.left, band.right) > 0.0 ==> Offline(txs, band) == BandFees(q, Some(q), q)
  {
    hide Fold, Lowest, Highest, Integral, Total, Overlap, Pays;
    UniformFold(txs, band.left, band.right, q);
    FoldMeans(txs, band.left, band.right);
    Quotient(q, Fold(txs, band.left, band.right).weight);
  }

  lemma Quotient(q: real, w: real)
    ensures w > 0.0 ==> q * w / w == q
  {
  }

  lemma {:induction false} UniformFold(txs: seq<Tx>, a: real, b: real, q: real)
    requires 0.0 <= q && forall i | 0 <= i < |txs| :: Pays(txs[i], q)
    ensures var acc := Fold(txs, a, b);
            && acc.fee == q * acc.weight && 0.0 <= acc.weight && (acc.weight > 0.0 ==> acc.min == Some(q) && acc.max == q)
            && (acc.weight == 0.0 ==> acc == Empty)
  {
    hide Overlap, Total;
    if txs != [] {
      UniformFold(txs[..|txs| - 1], a, b, q);
    }
  }

  /** A band lies around its percentile with the width asked for, unless the one before it reaches into it. */
  lemma BandsCentered(percentiles: seq<real>, bandWidthPercent: real, maxWeight: real, i: nat)
    requires i < |percentiles| && 0.0 < maxWeight && 0.0 < bandWidthPercent
    requires i > 0 ==> percentiles[i] - percentiles[i - 1] >= bandWidthPercent
    ensures var band := BandsOf(percentiles, bandWidthPercent, maxWeight)[i];
            && (band.left + band.right) / 2.0 == maxWeight * percentiles[i] / 100.0
            && band.right - band.left == maxWeight * bandWidthPercent / 100.0
  {
    if i > 0 {
      ApartEnds(percentiles[i - 1], percentiles[i], bandWidthPercent, maxWeight);
    }
  }

  lemma ApartEnds(p: real, q: real, bandWidthPercent: real, maxWeight: real)
    requires 0.0 < maxWeight && q - p >= bandWidthPercent
    ensures BandOf(p, bandWidthPercent, maxWeight).right <= BandOf(q, bandWidthPercent, maxWeight).left
  {
    assert (q - p) * maxWeight >= bandWidthPercent * maxWeight;
  }

  /** Splitting a transaction in two of the same rate changes no figure of any band. */
  lemma OfflineSplit(before: seq<Tx>, t: Tx, t1: Tx, t2: Tx, after: seq<Tx>, band: Band)
    requires TxRate(t1) == TxRate(t) && TxRate(t2) == TxRate(t)
    requires 0.0 <= t1.weight && 0.0 <= t2.weight && t1.weight + t2.weight == t.weight
    ensures Offline(before + [t1, t2] + after, band) == Offline(before + [t] + after, band)
  {
    SplitSame(before, t, t1, t2, after, band.left, band.right);
  }

  class OnlineFeeStatsCalculator {
    const maxWeight: real
    const percentiles: seq<real>
    const bandWidthPercent: real
    const bandWidth: real
    var bandIndex: nat
    /** Missing bounds are past every weight. */
    var leftBound: Option<real>
    var rightBound: Option<real>
    var inBand: bool
    var totalBandFee: real
    var totalBandWeight: real
    var minBandRate: Option<real>
    var maxBandRate: real
    var feeRange: seq<BandFees>
    var totalWeight: real

    /** Everything processed so far. */
    ghost var txs: seq<Tx>

    ghost function Bands(): seq<Band> {
      BandsOf(percentiles, bandWidthPercent, maxWeight)
    }

    ghost predicate Valid()
      reads this
    {
      && Disjoint(Bands()) && Weighted(txs) && totalWeight == Total(txs)
      && AtBand(totalWeight)
      && Reached(Bands(), txs, 0.0, totalWeight, bandIndex, feeRange, Current())
    }

    function Current(): Acc
      reads this`totalBandFee, this`totalBandWeight, this`minBandRate, this`maxBandRate
    {
      Acc(totalBandFee, totalBandWeight, minBandRate, maxBandRate)
    }

    ghost predicate AtBand(at: real)
      reads this`bandIndex, this`leftBound, this`rightBound, this`inBand
    {
      && bandWidth == maxWeight * (bandWidthPercent / 100.0)
      && bandIndex <= |percentiles|
      && (bandIndex < |percentiles| ==>
            && leftBound.Some? && leftBound.value <= Bands()[bandIndex].left && rightBound == Some(Bands()[bandIndex].right)
            && (leftBound.value == Bands()[bandIndex].left || Bands()[bandIndex].left <= at)
            && (inBand <==> Bands()[bandIndex].left < at))
      && (bandIndex == |percentiles| ==> leftBound == rightBound == None && !inBand)
    }

    /** The percentiles default to five; one band is added at each end. */
    constructor (maxWeight: real, percentileBandWidth: Option<real>, percentiles: seq<real>)
      requires var width := if percentileBandWidth.Some? then percentileBandWidth.value else 2.0;
               0.0 < maxWeight && 0.0 < width && Increasing(WithEnds(if percentiles != [] then percentiles else [10.0, 25.0, 50.0, 75.0, 90.0], width))
      ensures Valid() && txs == []
      ensures this.maxWeight == maxWeight
      ensures bandWidthPercent == (if percentileBandWidth.Some? then percentileBandWidth.value else 2.0)
      ensures this.percentiles == WithEnds(if percentiles != [] then percentiles else [10.0, 25.0, 50.0, 75.0, 90.0], bandWidthPercent)
    {
      hide BandsOf, Disjoint, Reached, Increasing;
      var width := if percentileBandWidth.Some? then percentileBandWidth.value else 2.0;
      var chosen := if percentiles != [] then percentiles else [10.0, 25.0, 50.0, 75.0, 90.0];
      this.maxWeight := maxWeight;
      this.bandWidthPercent := width;
      this.bandWidth := maxWeight * (width / 100.0);
      this.percentiles := WithEnds(chosen, width);
      bandIndex, inBand := 0, false;
      totalBandFee, totalBandWeight, minBandRate, maxBandRate := 0.0, 0.0, None, 0.0;
      feeRange, totalWeight, txs := [], 0.0, [];
      new;
      Started();
      SetNextBounds(0.0);
    }

    lemma Started()
      requires 0.0 < maxWeight && 0.0 < bandWidthPercent && Increasing(percentiles)
      requires percentiles != [] && percentiles[0] == bandWidthPercent / 2.0
      ensures Disjoint(Bands()) && |Bands()| == |percentiles| && 0.0 <= Bands()[0].left && Reached(Bands(), [], 0.0, 0.0, 0, [], Empty)
    {
      hide BandsOf;
      BandAt(percentiles, bandWidthPercent, maxWeight, 0);
      BandsApart(percentiles, bandWidthPercent, maxWeight);
      ReachedStart(Bands());
    }

    lemma BandKnown()
      requires bandWidth == maxWeight * (bandWidthPercent / 100.0)
      ensures |Bands()| == |percentiles|
      ensures bandIndex < |percentiles| ==>
                var left := percentiles[bandIndex] / 100.0 * maxWeight - bandWidth / 2.0;
                && Bands()[bandIndex].right == left + bandWidth
                && Bands()[bandIndex].left == if bandIndex > 0 then Max(left, Bands()[bandIndex - 1].right) else left
    {
      if bandIndex < |percentiles| {
        BandAt(percentiles, bandWidthPercent, maxWeight, bandIndex);
        hide BandsOf;
      }
    }

    method SetNextBounds(ghost at: real)
      requires bandIndex <= |percentiles| && bandWidth == maxWeight * (bandWidthPercent / 100.0) && !inBand
      requires bandIndex < |percentiles| ==> at <= Bands()[bandIndex].left && (bandIndex > 0 ==> Bands()[bandIndex - 1].right <= at)
      modifies this`leftBound, this`rightBound
      ensures AtBand(at)
    {
      hide BandsOf, BandOf;
      BandKnown();
      if bandIndex < |percentiles| {
        var left := percentiles[bandIndex] / 100.0 * maxWeight - bandWidth / 2.0;
        leftBound := Some(left);
        rightBound := Some(left + bandWidth);
      } else {
        leftBound := None;
        rightBound := None;
      }
    }

    /** Takes the next transaction of the stream. */
    method ProcessNext(tx: Tx)
      requires Valid() && 0.0 <= tx.weight
      modifies this
      ensures Valid() && txs == old(txs) + [tx]
    {
      hide Reached, Disjoint, TxRate, Bands, AtBand, Current, Total, Fold;
      BandsKnown(totalWeight);
      var left := totalWeight;
      var right := totalWeight + tx.weight;
      AnyRate(Bands(), txs, TxRate(tx), bandIndex, feeRange, Current());
      if !inBand && (leftBound.None? || right <= leftBound.value) {
        SkipAhead(tx, right);
      } else {
        while left < right
          invariant totalWeight <= left <= right && AtBand(left) && bandIndex <= |percentiles|
          invariant Reached(Bands(), txs, TxRate(tx), left, bandIndex, feeRange, Current())
          invariant totalWeight == old(totalWeight) && txs == old(txs)
          decreases |percentiles| - bandIndex, if left < right then 1 else 0
        {
          left := TakePart(tx, left, right);
        }
      }
      totalWeight := totalWeight + tx.weight;
      ReachedNext(Bands(), txs, tx, bandIndex, feeRange, Current(), 0.0);
      TotalNext(txs, tx);
      txs := txs + [tx];
    }

    lemma BandsKnown(at: real)
      requires AtBand(at)
      ensures bandIndex <= |percentiles| == |Bands()|
    {
    }

    /** A transaction that ends before the next band adds nothing to it. */
    lemma SkipAhead(tx: Tx, right: real)
      requires Disjoint(Bands()) && AtBand(totalWeight) && !inBand && totalWeight == Total(txs) <= right
      requires leftBound.None? || right <= leftBound.value
      requires Reached(Bands(), txs, TxRate(tx), totalWeight, bandIndex, feeRange, Current())
      ensures Reached(Bands(), txs, TxRate(tx), right, bandIndex, feeRange, Current()) && AtBand(right)
    {
      hide Reached, TxRate, Overlap, Add;
      var bands, rate := Bands(), TxRate(tx);
      if bandIndex < |bands| {
        BandWide(bands, bandIndex);
        OverlapBefore(totalWeight, right, bands[bandIndex].left, bands[bandIndex].right);
        AddNone(Current(), rate);
      } else {
        PastBands(bands, txs, rate, totalWeight, feeRange, Current());
      }
      ReachedFurther(bands, txs, rate, totalWeight, bandIndex, feeRange, Current(), right);
    }

    /** Takes the rest of a transaction up to the end of the band in progress. */
    method TakePart(tx: Tx, from: real, right: real) returns (left: real)
      requires Disjoint(Bands()) && Weighted(txs) && Total(txs) <= from < right && AtBand(from)
      requires Reached(Bands(), txs, TxRate(tx), from, bandIndex, feeRange, Current())
      modifies this`inBand, this`totalBandFee, this`totalBandWeight, this`minBandRate, this`maxBandRate, this`feeRange, this`bandIndex
      modifies this`leftBound, this`rightBound
      ensures from <= left <= right && AtBand(left) && bandIndex <= |percentiles|
      ensures Reached(Bands(), txs, TxRate(tx), left, bandIndex, feeRange, Current())
      ensures bandIndex > old(bandIndex) || (bandIndex == old(bandIndex) && left == right)
    {
      hide Reached, Disjoint, TxRate, Overlap, Add, BandsOf, Total, Fold, Weighted, Min, Max, Report, Current;
      BandsKnown(from);
      ghost var bands, rate, acc := Bands(), TxRate(tx), Current();
      if bandIndex < |bands| {
        BandWide(bands, bandIndex);
        InBand(bands, txs, rate, from, bandIndex, feeRange, acc);
        PieceWeight(from, right, bands[bandIndex]);
        AddNone(acc, rate);
      } else {
        PastBands(bands, txs, rate, from, feeRange, acc);
      }
      if leftBound.Some? && right > leftBound.value {
        AddPiece(tx, from, right);
      }
      left := if rightBound.None? then right else Min(right, rightBound.value);
      if rightBound.Some? && left >= rightBound.value {
        ReachedEnd(bands, txs, rate, from, bandIndex, feeRange, acc);
        EndBand(left);
      } else {
        ReachedFurther(bands, txs, rate, from, bandIndex, feeRange, acc, left);
      }
    }

    /** Adds the part of a transaction that lies in the band in progress. */
    method AddPiece(tx: Tx, from: real, right: real)
      requires AtBand(from) && bandIndex < |percentiles| && Bands()[bandIndex].left < Bands()[bandIndex].right
      requires from < right && from < Bands()[bandIndex].right && Bands()[bandIndex].left < right
      modifies this`inBand, this`totalBandFee, this`totalBandWeight, this`minBandRate, this`maxBandRate
      ensures inBand
      ensures var b := Bands()[bandIndex]; Current() == Add(old(Current()), TxRate(tx), Overlap(from, Min(right, b.right), b.left, b.right))
    {
      hide TxRate, Overlap, Add, BandOf, Min, Max;
      PieceWeight(from, right, Bands()[bandIndex]);
      SameStart(from, leftBound.value, Bands()[bandIndex].left);
      ghost var acc := Current();
      inBand := true;
      var txRate := TxRate(tx);
      var weight := Min(right, rightBound.value) - Max(from, leftBound.value);
      totalBandFee := totalBandFee + txRate * weight;
      totalBandWeight := totalBandWeight + weight;
      maxBandRate := Max(maxBandRate, txRate);
      minBandRate := Some(if minBandRate.None? then txRate else Min(minBandRate.value, txRate));
      AddWeight(acc, txRate, weight);
    }

    /** Reports the band in progress and goes on to the next. */
    method EndBand(ghost at: real)
      requires bandIndex < |percentiles| && bandWidth == maxWeight * (bandWidthPercent / 100.0)
      requires at == Bands()[bandIndex].right && (bandIndex + 1 < |percentiles| ==> at <= Bands()[bandIndex + 1].left)
      modifies this`inBand, this`totalBandFee, this`totalBandWeight, this`minBandRate, this`maxBandRate, this`feeRange, this`bandIndex
      modifies this`leftBound, this`rightBound
      ensures AtBand(at) && bandIndex == old(bandIndex) + 1
      ensures feeRange == [Report(old(Current()))] + old(feeRange) && Current() == Empty
    {
      hide BandsOf;
      BandKnown();
      inBand := false;
      var avgBandFeeRate := if totalBandWeight != 0.0 then totalBandFee / totalBandWeight else 0.0;
      feeRange := [BandFees(avgBandFeeRate, minBandRate, maxBandRate)] + feeRange;
      totalBandFee, totalBandWeight, minBandRate, maxBandRate := 0.0, 0.0, None, 0.0;
      bandIndex := bandIndex + 1;
      SetNextBounds(at);
    }

    /** The figures of all bands; those not reached yet count as 0. */
    method GetRawFeeStats() returns (minFee: real, medianFee: real, maxFee: real, range: seq<real>)
      requires Valid() && percentiles != []
      modifies this`feeRange
      ensures |feeRange| == |percentiles|
      ensures forall j | 0 <= j < |percentiles| :: feeRange[|percentiles| - 1 - j] == Offline(txs, Bands()[j])
      ensures |range| == |percentiles| && forall i | 0 <= i < |range| :: range[i] == feeRange[i].avg
      ensures feeRange[0].min == Some(minFee) && medianFee == range[|range| / 2] && maxFee == feeRange[|feeRange| - 1].max
    {
      hide Disjoint, Reached, BandsOf, Fold, Offline, AtBand, Weighted, Total;
      ghost var bands, k := Bands(), bandIndex;
      BandsKnown(totalWeight);
      AllOffline(bands, txs, k, feeRange, Current());
      ghost var done := feeRange;
      if totalBandWeight > 0.0 {
        var avgBandFeeRate := if totalBandWeight != 0.0 then totalBandFee / totalBandWeight else 0.0;
        feeRange := [BandFees(avgBandFeeRate, minBandRate, maxBandRate)] + feeRange;
      }
      while |feeRange| < |percentiles|
        invariant k <= |feeRange| <= |percentiles|
        invariant forall j | 0 <= j < |feeRange| :: feeRange[|feeRange| - 1 - j] == Offline(txs, bands[j])
      {
        feeRange := [BandFees(0.0, Some(0.0), 0.0)] + feeRange;
      }
      assert feeRange[0] == Offline(txs, bands[|percentiles| - 1]);
      OfflineMin(txs, bands[|percentiles| - 1]);
      minFee := feeRange[0].min.value;
      maxFee := feeRange[|feeRange| - 1].max;
      medianFee := feeRange[|feeRange| / 2].avg;
      range := seq(|feeRange|, i requires 0 <= i < |feeRange| reads this => feeRange[i].avg);
    }

    /** The figures, with the lowest and highest rate at the ends of the range. */
    method GetFeeStats() returns (minFee: real, medianFee: real, maxFee: real, range: seq<real>)
      requires Valid() && |percentiles| > 1
      modifies this`feeRange
      ensures |feeRange| == |percentiles| == |range|
      ensures forall j | 0 <= j < |percentiles| :: feeRange[|percentiles| - 1 - j] == Offline(txs, Bands()[j])
      ensures range[0] == minFee && feeRange[0].min == Some(minFee)
      ensures range[|range| - 1] == maxFee == feeRange[|range| - 1].max
      ensures forall i | 0 < i < |range| - 1 :: range[i] == feeRange[i].avg
    {
      hide Offline, Bands, Valid;
      minFee, medianFee, maxFee, range := GetRawFeeStats();
      range := range[0 := minFee][|range| - 1 := maxFee];
    }
  }
}
