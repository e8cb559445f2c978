/** Feerates are never divided: a feerate is a fee over a positive weight, and two
    feerates are compared by cross multiplication. */
module Feerate {

  type Weight = w: int | 0 < w witness 1

  /** The first feerate is strictly higher than the second. */
  predicate Higher(aFee: int, aWeight: int, bFee: int, bWeight: int) {
    aFee * bWeight > bFee * aWeight
  }

  lemma MulLe(a: int, b: int, c: int)
    requires a <= b && 0 <= c
    ensures a * c <= b * c
  {
  }

  lemma CancelLe(a: int, b: int, c: int)
    requires a * c <= b * c && 0 < c
    ensures a <= b
  {
  }

  /** "Not higher" is transitive on positive weights. */
  lemma NotHigherTrans(f1: int, w1: int, f2: int, w2: int, f3: int, w3: int)
    requires 0 < w1 && 0 < w2 && 0 < w3
    requires !Higher(f1, w1, f2, w2) && !Higher(f2, w2, f3, w3)
    ensures !Higher(f1, w1, f3, w3)
  {
    MulLe(f1 * w2, f2 * w1, w3);
    MulLe(f2 * w3, f3 * w2, w1);
    assert (f1 * w3) * w2 == f1 * w2 * w3;
    assert (f3 * w1) * w2 == f3 * w2 * w1;
    assert f2 * w1 * w3 == f2 * w3 * w1;
    CancelLe(f1 * w3, f3 * w1, w2);
  }

  /** 1 above 2, and 3 not above 2: then 1 is above 3. */
  lemma HigherTransRight(f1: int, w1: int, f2: int, w2: int, f3: int, w3: int)
    requires 0 < w1 && 0 < w2 && 0 < w3
    requires Higher(f1, w1, f2, w2) && !Higher(f3, w3, f2, w2)
    ensures Higher(f1, w1, f3, w3)
  {
    if !Higher(f1, w1, f3, w3) {
      NotHigherTrans(f1, w1, f3, w3, f2, w2);
    }
  }

  /** 2 not above 1, and 2 above 3: then 1 is above 3. */
  lemma HigherTransLeft(f1: int, w1: int, f2: int, w2: int, f3: int, w3: int)
    requires 0 < w1 && 0 < w2 && 0 < w3
    requires !Higher(f2, w2, f1, w1) && Higher(f2, w2, f3, w3)
    ensures Higher(f1, w1, f3, w3)
  {
    if !Higher(f1, w1, f3, w3) {
      NotHigherTrans(f2, w2, f1, w1, f3, w3);
    }
  }

  lemma HigherTrans(f1: int, w1: int, f2: int, w2: int, f3: int, w3: int)
    requires 0 < w1 && 0 < w2 && 0 < w3
    requires Higher(f1, w1, f2, w2) && Higher(f2, w2, f3, w3)
    ensures Higher(f1, w1, f3, w3)
  {
    HigherTransRight(f1, w1, f2, w2, f3, w3);
  }

  /** Joining two pieces that are not above a feerate gives a piece not above it. */
  lemma MediantNotAbove(f1: int, w1: int, f2: int, w2: int, f: int, w: int)
    requires !Higher(f1, w1, f, w) && !Higher(f2, w2, f, w)
    ensures !Higher(f1 + f2, w1 + w2, f, w)
  {
    assert (f1 + f2) * w == f1 * w + f2 * w;
    assert f * (w1 + w2) == f * w1 + f * w2;
  }

  /** Joining two pieces that are not below a feerate gives a piece not below it. */
  lemma MediantNotBelow(f1: int, w1: int, f2: int, w2: int, f: int, w: int)
    requires !Higher(f, w, f1, w1) && !Higher(f, w, f2, w2)
    ensures !Higher(f, w, f1 + f2, w1 + w2)
  {
    assert (f1 + f2) * w == f1 * w + f2 * w;
    assert f * (w1 + w2) == f * w1 + f * w2;
  }

  /** The join of a lower and a higher piece lies strictly between the two. */
  lemma MediantBetween(f1: int, w1: int, f2: int, w2: int)
    requires Higher(f2, w2, f1, w1)
    ensures Higher(f1 + f2, w1 + w2, f1, w1)
    ensures Higher(f2, w2, f1 + f2, w1 + w2)
  {
    assert (f1 + f2) * w1 == f1 * w1 + f2 * w1;
    assert f1 * (w1 + w2) == f1 * w1 + f1 * w2;
    assert f2 * (w1 + w2) == f2 * w1 + f2 * w2;
    assert (f1 + f2) * w2 == f1 * w2 + f2 * w2;
  }

  /** If the first part is strictly below the whole, the rest is strictly above it. */
  lemma RestAboveWhole(f1: int, w1: int, f2: int, w2: int)
    requires Higher(f1 + f2, w1 + w2, f1, w1)
    ensures Higher(f2, w2, f1 + f2, w1 + w2)
  {
    assert (f1 + f2) * w1 == f1 * w1 + f2 * w1;
    assert f1 * (w1 + w2) == f1 * w1 + f1 * w2;
    assert f2 * (w1 + w2) == f2 * w1 + f2 * w2;
    assert (f1 + f2) * w2 == f1 * w2 + f2 * w2;
  }

  /** If the rest is strictly above the whole, the first part is strictly below it. */
  lemma FirstBelowWhole(f1: int, w1: int, f2: int, w2: int)
    requires Higher(f2, w2, f1 + f2, w1 + w2)
    ensures Higher(f1 + f2, w1 + w2, f1, w1)
  {
    assert (f1 + f2) * w1 == f1 * w1 + f2 * w1;
    assert f1 * (w1 + w2) == f1 * w1 + f1 * w2;
    assert f2 * (w1 + w2) == f2 * w1 + f2 * w2;
    assert (f1 + f2) * w2 == f1 * w2 + f2 * w2;
  }
}
