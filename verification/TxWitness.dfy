/** A pool for which the template builder does not pick the best package: in the second block a
    transaction is picked although another one waits, fits and has the higher score. */
module TxWitness {
  import opened Options
  import opened Feerate
  import opened Graph
  import opened Extraction
  import opened AuditPool
  import opened MiniMiner
  import opened TxQueues
  import opened TxBlocks
  import opened TxSelection
  import Kahn
  import Heaps = PairingHeap

  const F: Txid := 0
  const Q: Txid := 1
  const P: Txid := 2
  const A: Txid := 3
  const B: Txid := 4

  const Sizes: map<Txid, Weight> := map[F := 2_500_000, Q := 1_900_000, P := 100_000, A := 2_000_000, B := 1_500_000]

  /** `A` spends `P` and `Q`, and `B` spends `P`. */
  function Pool(): Candidates {
    Candidates(map[F := 2500, Q := 570, P := 17, A := 200, B := 225], Sizes, Sizes, map[F := 0, Q := 0, P := 0, A := 0, B := 0],
               map[F := 0, Q := 1, P := 2, A := 3, B := 4], map[F := [], Q := [], P := [], A := [P, Q], B := [P]])
  }

  function Ancestors(): Relatives {
    map[F := {}, Q := {}, P := {}, A := {P, Q}, B := {P}]
  }

  lemma KeysAre()
    ensures Pool().Keys() == {F, Q, P, A, B} && |{F, Q, P, A, B}| == 5
  {
  }

  lemma ParentsAre(x: Txid)
    requires x in {F, Q, P, A, B}
    ensures Pool().Parents(x) == if x == A then {P, Q} else if x == B then {P} else {}
  {
    var c := Pool();
    assert c.inputs[x] == if x == A then [P, Q] else if x == B then [P] else [];
  }

  lemma AncestorsKnown(anc0: Relatives)
    requires Ancestry(Pool(), anc0)
    ensures anc0 == Ancestors()
  {
    KeysAre();
    hide Pool;
    ParentsAre(P);
    ParentsAre(Q);
    forall x | x in anc0 ensures anc0[x] == Ancestors()[x] {
      ParentsAre(x);
      assert forall a :: a in anc0[x] <==> AboveParents(Pool(), anc0, x, a);
    }
  }

  lemma SmallSums(m: map<Txid, int>, x: Txid, y: Txid)
    requires x != y
    ensures SumSet(m, {}) == 0 && SumSet(m, {x}) == At(m, x) && SumSet(m, {x, y}) == At(m, x) + At(m, y)
  {
    SumSetRemove(m, {x}, x);
    assert {x} - {x} == {};
    SumSetRemove(m, {x, y}, y);
    assert {x, y} - {y} == {x};
  }

  lemma Totals(m: map<Txid, int>, used: set<Txid>, x: Txid)
    requires x in {F, Q, P, A, B}
    ensures PackageTotal(m, Ancestors(), used, x)
            == At(m, x) + (if x in {A, B} && P !in used then At(m, P) else 0) + (if x == A && Q !in used then At(m, Q) else 0)
  {
    SmallSums(m, P, Q);
    SmallSums(m, Q, P);
    var own := Of(Ancestors(), x) - used;
    assert own == (if x in {A, B} && P !in used then {P} else {}) + (if x == A && Q !in used then {Q} else {});
    assert {P} + {Q} == {P, Q} && {} + {Q} == {Q} && {P} + {} == {P};
  }

  lemma PoolGood()
    ensures Pool().WellFormed() && SameMeasure(Pool())
  {
  }

  lemma PoolRanked()
    ensures Pool().Ranked(Pool().order)
  {
    var c := Pool();
    assert c.order.Keys == c.fee.Keys;
    forall x, p | x in c.Keys() && p in c.Parents(x) ensures c.order[p] < c.order[x] {
      ParentsAre(x);
    }
  }

  lemma CandidatesGood()
    ensures Distinct([F, Q, P, A, B]) && Elems([F, Q, P, A, B]) == Pool().Keys()
  {
  }

  /** The place by the score at the start. */
  function Place(x: Txid): nat {
    if x == A then 2 else if x == P then 3 else x
  }

  lemma StartScores(fee: map<Txid, int>, size: map<Txid, int>, x: Txid, y: Txid)
    requires ScoresAre(Pool(), Ancestors(), {}, fee, size) && x in Pool().Keys() && y in Pool().Keys() && Place(x) < Place(y)
    ensures Higher(At(fee, x), At(size, x), At(fee, y), At(size, y))
  {
    hide PackageTotal;
    Totals(Pool().fee, {}, x);
    Totals(Pool().size, {}, x);
    Totals(Pool().fee, {}, y);
    Totals(Pool().size, {}, y);
  }

  lemma StartTotals()
    ensures ScoresAre(Pool(), Ancestors(), {}, TotalsOf(Pool().fee, Ancestors(), {}), TotalsOf(Pool().size, Ancestors(), {}))
  {
    hide PackageTotal;
    KeysAre();
  }

  lemma Ordered(s: seq<Txid>, i: nat, j: nat)
    requires Distinct(s) && Elems(s) == Pool().Keys() && InStartOrder(Pool(), Ancestors(), s) && i < j < |s|
    ensures Place(s[i]) < Place(s[j])
  {
    hide PackageTotal, Higher, Pool, ScoresAre, TotalsOf, FeerateThen, Ancestors;
    KeysAre();
    assert s[i] in Elems(s) && s[j] in Elems(s) && s[i] != s[j];
    if Place(s[j]) < Place(s[i]) {
      var fee, size := TotalsOf(Pool().fee, Ancestors(), {}), TotalsOf(Pool().size, Ancestors(), {});
      StartTotals();
      StartScores(fee, size, s[j], s[i]);
      NotHigherLater(fee, size, Pool().order, s, i, j);
    }
  }

  lemma NotHigherLater(fee: map<Txid, int>, size: map<Txid, int>, order: map<Txid, nat>, s: seq<Txid>, i: nat, j: nat)
    requires i < j < |s| && Kahn.SortedBy(FeerateThen(fee, size, order), s)
    ensures !Higher(At(fee, s[j]), At(size, s[j]), At(fee, s[i]), At(size, s[i]))
  {
    assert !FeerateThen(fee, size, order)(s[j], s[i]);
  }

  lemma ArrayKnown(s: seq<Txid>)
    requires Distinct(s) && Elems(s) == Pool().Keys() && InStartOrder(Pool(), Ancestors(), s)
    ensures s == [F, Q, A, P, B]
  {
    hide Pool, InStartOrder, Distinct;
    KeysAre();
    DistinctLength(s);
    forall i: nat | i < 5 ensures s[i] in {F, Q, P, A, B} {
      assert s[i] in Elems(s);
    }
    Ordered(s, 0, 1);
    Ordered(s, 1, 2);
    Ordered(s, 2, 3);
    Ordered(s, 3, 4);
  }

  // ---------- the steps of the builder

  ghost predicate Here(w: Worker, used: set<Txid>, left: seq<Txid>, q: Queue, modified: set<Txid>, aside: seq<Txid>, weight: int)
    reads w, w.heap, w.pool, w.mempoolArray
  {
    && w.Valid() && w.c == Pool() && w.anc0 == Ancestors() && w.top <= w.mempoolArray.Length && w.mempoolArray[w.top..] == left
    && w.Q() == q && w.used == used && w.modified == modified && w.overflow == aside && w.blockWeight == weight
  }

  /** What is taken next, whatever maps hold the scores. */
  ghost predicate Takes(used: set<Txid>, left: seq<Txid>, q: Queue, modified: set<Txid>, x: Txid, left': seq<Txid>, q': Queue) {
    forall fee, size | ScoresAre(Pool(), Ancestors(), used, fee, size) ::
      Selected(left, used + modified, q, fee, size, Pool().order) == Selection(Some(x), left', q')
  }

  /** Takes `x` and puts it aside. */
  method PassBy(w: Worker, ghost used: set<Txid>, ghost left: seq<Txid>, ghost q: Queue, ghost modified: set<Txid>, ghost aside: seq<Txid>,
                ghost weight: int, ghost x: Txid, ghost left': seq<Txid>, ghost q': Queue)
    requires Here(w, used, left, q, modified, aside, weight) && (left != [] || q.root.Some?) && Takes(used, left, q, modified, x, left', q')
    requires |w.blocks| < LIMITED_BLOCKS && x !in used
    requires !Fits(weight, PackageTotal(Pool().size, Ancestors(), used, x), PackageTotal(Pool().sigops, Ancestors(), used, x))
    modifies w, w.heap, w.pool
    ensures Here(w, used, left', q', modified, aside + [x], weight)
    ensures w.blocks == old(w.blocks) && w.done == old(w.done) && w.transactions == old(w.transactions)
  {
    hide Worker.Valid, Pool, Ancestors, PackageTotal, Fits, Selected, ScoresAre, TrueUpdates;
    w.Scores();
    ghost var placed, updates := w.Step();
    NoUpdates(used, updates, q');
  }

  lemma NoUpdates(used: set<Txid>, updates: seq<Update>, q: Queue)
    requires TrueUpdates(Pool(), Ancestors(), used, [], updates)
    ensures Followed(q, updates, Pool().order) == q && AllVisited(updates) == {} && SumSet(Pool().size, Elems([])) == 0 && Elems<Txid>([]) == {}
  {
  }

  /** Takes `x` and places it alone. */
  method PlaceAlone(w: Worker, ghost used: set<Txid>, ghost left: seq<Txid>, ghost q: Queue, ghost modified: set<Txid>, ghost aside: seq<Txid>,
                    ghost weight: int, ghost x: Txid, ghost left': seq<Txid>, ghost q': Queue) returns (ghost u: Update)
    requires Here(w, used, left, q, modified, aside, weight) && (left != [] || q.root.Some?) && Takes(used, left, q, modified, x, left', q')
    requires x !in used && x in Pool().Keys() && Of(Ancestors(), x) <= used
    requires Fits(weight, PackageTotal(Pool().size, Ancestors(), used, x), PackageTotal(Pool().sigops, Ancestors(), used, x))
    modifies w, w.heap, w.pool
    ensures Here(w, used + {x}, left', Followed(q', [u], Pool().order), modified + Elems(u.visited), aside, weight + At(Pool().size, x))
    ensures TrueUpdate(Pool(), Ancestors(), used, x, u) && w.done == old(w.done) + [[x]] && w.transactions == old(w.transactions) + [x] && w.blocks == old(w.blocks)
  {
    hide Worker.Valid, Pool, Ancestors, PackageTotal, Fits, Selected, ScoresAre, TrueUpdates, TrueUpdate, IsPackage, Elems, Followed, AllVisited, SumSet;
    w.Scores();
    ghost var placed, updates := w.Step();
    PickedAlone(x, used, w.done, |old(w.done)|);
    assert w.done == w.done[..|old(w.done)|] + [[x]] && placed == [x];
    u := OneUpdate(used, x, updates);
  }

  lemma PickedAlone(x: Txid, used: set<Txid>, done: seq<seq<Txid>>, n: nat)
    requires n < |done| && IsPackage(Ancestors(), used, done[n]) && done[n][|done[n]| - 1] == x && Of(Ancestors(), x) <= used
    ensures done[n] == [x] && Backwards(done[n]) == [x] && Elems([x]) == {x} && SumSet(Pool().size, {x}) == At(Pool().size, x)
  {
    hide Ancestors;
    DistinctLength(done[n]);
    assert Elems(done[n]) == {x};
    SumSetRemove(Pool().size, {x}, x);
    assert {x} - {x} == {};
    assert Backwards([x]) == [x];
  }

  ghost function OneUpdate(used: set<Txid>, x: Txid, updates: seq<Update>): (u: Update)
    requires TrueUpdates(Pool(), Ancestors(), used, [x], updates)
    ensures updates == [u] && TrueUpdate(Pool(), Ancestors(), used, x, u) && AllVisited(updates) == Elems(u.visited)
  {
    assert [x][..0] == [] && used + Elems([x][..0]) == used && updates[..0] == [];
    updates[0]
  }

  lemma TakesArray(used: set<Txid>, left: seq<Txid>, q: Queue, modified: set<Txid>)
    requires left != [] && left[0] !in used + modified && q.root.None?
    ensures Takes(used, left, q, modified, left[0], left[1..], q)
  {
    hide ScoresAre;
  }

  /** The array has nothing more to offer, and the root of the heap has one child at most. */
  lemma TakesRoot(used: set<Txid>, left: seq<Txid>, q: Queue, modified: set<Txid>, q': Queue)
    requires SkipOver(left, used + modified) == [] && q.root.Some? && |q.root.value.children| <= 1
    requires var n := q.root.value; q' == Queue(if n.children == [] then None else Some(n.children[0]), q.nextId, q.nodes - {n.element})
    ensures Takes(used, left, q, modified, q.root.value.element, [], q')
  {
    hide ScoresAre, ByScores;
  }

  // ---------- the scores

  lemma ScoresNow(used: set<Txid>, fee: map<Txid, int>, size: map<Txid, int>)
    requires ScoresAre(Pool(), Ancestors(), used, fee, size) && F in used && P in used
    ensures At(fee, Q) == 570 && At(size, Q) == 1_900_000 && At(fee, B) == 225 && At(size, B) == 1_500_000
    ensures At(fee, A) == (if Q in used then 200 else 770) && At(size, A) == (if Q in used then 2_000_000 else 3_900_000)
  {
    hide PackageTotal;
    KeysAre();
    Totals(Pool().fee, used, Q);
    Totals(Pool().size, used, Q);
    Totals(Pool().fee, used, A);
    Totals(Pool().size, used, A);
    Totals(Pool().fee, used, B);
    Totals(Pool().size, used, B);
  }

  lemma Beaten(fee: map<Txid, int>, size: map<Txid, int>, x: Txid, y: Txid)
    requires Above(fee, size, x, y)
    ensures ByScores(fee, size, Pool().order)(x, y) && !ByScores(fee, size, Pool().order)(y, x)
  {
    hide Pool;
    NotBothHigher(At(fee, x), At(size, x), At(fee, y), At(size, y));
  }

  lemma BeatsNotItself(fee: map<Txid, int>, size: map<Txid, int>, x: Txid)
    ensures !ByScores(fee, size, Pool().order)(x, x)
  {
    hide Pool;
    NotBeforeItself(At(fee, x), At(size, x), -At(Pool().order, x));
  }

  /** What a placed transaction brings about. */
  lemma VisitedAre(used: set<Txid>, y: Txid, u: Update)
    requires TrueUpdate(Pool(), Ancestors(), used, y, u) && y in {F, Q, P}
    ensures y == F ==> u.visited == []
    ensures y == Q ==> u.visited == [A]
    ensures y == P ==> u.visited == [A, B] || u.visited == [B, A]
    ensures Elems(u.visited) == if y == F then {} else if y == Q then {A} else {A, B}
  {
    hide ScoresAre;
    assert Below(Ancestors(), y) == if y == F then {} else if y == Q then {A} else {A, B};
    DistinctLength(u.visited);
    assert forall i | 0 <= i < |u.visited| :: u.visited[i] in Elems(u.visited);
  }

  /** The one with the higher score has no children yet. */
  lemma MeldedOver(higher: Heaps.Comparator<Txid>, a: Heaps.Node<Txid>, b: Heaps.Node<Txid>)
    requires if higher(a.element, b.element) then a.children == [] else b.children == []
    ensures Heaps.MeldNodes(higher, a, b) == if higher(a.element, b.element) then Heaps.Node(a.id, a.element, [b]) else Heaps.Node(b.id, b.element, [a])
  {
    assert [a] + [] == [a] && [b] + [] == [b];
  }

  /** `A` over `B`. */
  function Pair(a: nat, b: nat): Queue {
    Queue(Some(Heaps.Node(a, A, [Heaps.Node(b, B, [])])), 2, map[A := a, B := b])
  }

  lemma AfterP(u: Update) returns (a: nat, b: nat)
    requires TrueUpdate(Pool(), Ancestors(), {F}, P, u)
    ensures Followed(Queue(None, 0, map[]), [u], Pool().order) == Pair(a, b)
  {
    hide Pool, Ancestors, TrueUpdate, ByScores, Rebalanced, Updated, Followed, Above, Heaps.MeldNodes;
    VisitedAre({F}, P, u);
    var q := Queue(None, 0, map[]);
    var x, y := u.visited[0], u.visited[1];
    a, b := if x == A then 0 else 1, if x == A then 1 else 0;
    var higher := ByScores(Updated(u.fee, u.fee', u.visited), Updated(u.size, u.size', u.visited), Pool().order);
    UpdatedBoth(u, A);
    UpdatedBoth(u, B);
    ScoresAfter({F}, P, u);
    HigherThere(Updated(u.fee, u.fee', u.visited), Updated(u.size, u.size', u.visited));
    FollowedOne(q, u);
    TwoRebalanced(q, u, x, y);
    MeldedOver(higher, Heaps.Node(0, x, []), Heaps.Node(1, y, []));
    assert map[x := 0, y := 1] == map[A := a, B := b];
  }

  lemma HigherThere(fee: map<Txid, int>, size: map<Txid, int>)
    requires At(fee, A) == 770 && At(size, A) == 3_900_000 && At(fee, B) == 225 && At(size, B) == 1_500_000
    ensures ByScores(fee, size, Pool().order)(A, B) && !ByScores(fee, size, Pool().order)(B, A)
  {
    Beaten(fee, size, A, B);
  }

  lemma UpdatedBoth(u: Update, x: Txid)
    requires x in u.visited
    ensures At(Updated(u.fee, u.fee', u.visited), x) == At(u.fee', x) && At(Updated(u.size, u.size', u.visited), x) == At(u.size', x)
  {
    UpdatedAt(u.fee, u.fee', u.visited, x);
    UpdatedAt(u.size, u.size', u.visited, x);
  }

  lemma ScoresAfter(used: set<Txid>, y: Txid, u: Update)
    requires TrueUpdate(Pool(), Ancestors(), used, y, u) && F in used && (P in used || y == P)
    ensures At(u.fee', B) == 225 && At(u.size', B) == 1_500_000
    ensures At(u.fee', A) == (if Q in used || y == Q then 200 else 770) && At(u.size', A) == (if Q in used || y == Q then 2_000_000 else 3_900_000)
    ensures P in used && Q !in used ==> At(u.fee, A) == 770 && At(u.size, A) == 3_900_000
  {
    hide ScoresAre;
    ScoresNow(used + {y}, u.fee', u.size');
    if P in used {
      ScoresNow(used, u.fee, u.size);
    }
  }

  lemma FollowedOne(q: Queue, u: Update)
    ensures Followed(q, [u], Pool().order) == Rebalanced(q, u.visited, u.fee, u.size, u.fee', u.size', Pool().order)
  {
    hide Rebalanced, Pool;
    assert [u][..0] == [];
  }

  lemma RebalancedMore(q: Queue, before: seq<Txid>, x: Txid, u: Update)
    ensures var order := Pool().order;
            Rebalanced(q, before + [x], u.fee, u.size, u.fee', u.size', order)
            == Moved(Rebalanced(q, before, u.fee, u.size, u.fee', u.size', order), x, Updated(u.fee, u.fee', before), Updated(u.size, u.size', before),
                     Updated(u.fee, u.fee', before + [x]), Updated(u.size, u.size', before + [x]), order)
  {
    hide Pool, Moved, Updated;
    assert (before + [x])[..|before|] == before;
  }

  lemma NoneRebalanced(q: Queue, u: Update)
    ensures Rebalanced(q, [], u.fee, u.size, u.fee', u.size', Pool().order) == q && Updated(u.fee, u.fee', []) == u.fee && Updated(u.size, u.size', []) == u.size
  {
    hide Pool;
  }

  /** Two new nodes: the one with the higher score is the root. */
  lemma TwoRebalanced(q: Queue, u: Update, x: Txid, y: Txid)
    requires q == Queue(None, 0, map[]) && u.visited == [x, y] && x != y
    ensures var higher := ByScores(Updated(u.fee, u.fee', u.visited), Updated(u.size, u.size', u.visited), Pool().order);
            Rebalanced(q, u.visited, u.fee, u.size, u.fee', u.size', Pool().order)
            == Queue(Some(Heaps.MeldNodes(higher, Heaps.Node(0, x, []), Heaps.Node(1, y, []))), 2, map[x := 0, y := 1])
  {
    hide Pool, ByScores, Updated, Rebalanced;
    NoneRebalanced(q, u);
    RebalancedMore(q, [], x, u);
    assert [] + [x] == [x] && [x] + [y] == u.visited;
    RebalancedMore(q, [x], y, u);
  }

  /** In the second block: two nodes of `A`, the newer one on top, over `B`. */
  function Stack(): Queue {
    Queue(Some(Heaps.Node(4, A, [Heaps.Node(3, A, [Heaps.Node(2, B, [])])])), 5, map[A := 4, B := 2])
  }

  lemma PutBackMore(q: Queue, aside: seq<Txid>, x: Txid, fee: map<Txid, int>, size: map<Txid, int>)
    ensures AddedBack(q, aside + [x], {A, B}, fee, size, Pool().order)
            == AddedBack(if x in {A, B} then AddedTo(q, x, fee, size, Pool().order) else q, aside, {A, B}, fee, size, Pool().order)
    ensures UnmarkedOnly(aside + [x], {A, B}) == UnmarkedOnly(aside, {A, B}) + if x in {A, B} then [] else [x]
    ensures AddedBack(q, [], {A, B}, fee, size, Pool().order) == q
  {
    hide Pool, AddedTo;
    assert (aside + [x])[..|aside|] == aside;
  }

  lemma PutBackStack(fee: map<Txid, int>, size: map<Txid, int>)
    requires ScoresAre(Pool(), Ancestors(), {F, P}, fee, size)
    ensures AddedBack(Queue(None, 2, map[]), [Q, A, A, B], {A, B}, fee, size, Pool().order) == Stack()
    ensures UnmarkedOnly([Q, A, A, B], {A, B}) == [Q]
  {
    hide Pool, Ancestors, ScoresAre, ByScores, AddedBack, UnmarkedOnly;
    ScoresNow({F, P}, fee, size);
    Beaten(fee, size, A, B);
    BeatsNotItself(fee, size, A);
    assert [Q, A, A, B] == [Q, A, A] + [B] && [Q, A, A] == [Q, A] + [A] && [Q, A] == [Q] + [A] && [Q] == [] + [Q];
    var q0, order := Queue(None, 2, map[]), Pool().order;
    var q1 := AddedTo(q0, B, fee, size, order);
    MeldedOver(ByScores(fee, size, order), Heaps.Node(2, B, []), Heaps.Node(3, A, []));
    var q2 := AddedTo(q1, A, fee, size, order);
    MeldedOver(ByScores(fee, size, order), q2.root.value, Heaps.Node(4, A, []));
    PutBackMore(q0, [Q, A, A], B, fee, size);
    PutBackMore(q1, [Q, A], A, fee, size);
    PutBackMore(q2, [Q], A, fee, size);
    PutBackMore(AddedTo(q2, A, fee, size, order), [], Q, fee, size);
    UnmarkedNone();
  }

  lemma UnmarkedNone()
    ensures UnmarkedOnly([], {A, B}) == []
  {
  }

  /** The newer node is taken out and melded again, above the older one, which keeps its place over `B`. */
  lemma StackStays(u: Update)
    requires TrueUpdate(Pool(), Ancestors(), {F, P}, Q, u)
    ensures Followed(Stack(), [u], Pool().order) == Stack()
  {
    hide Pool, Ancestors, TrueUpdate, ByScores, Rebalanced, Updated;
    VisitedAre({F, P}, Q, u);
    ScoresAfter({F, P}, Q, u);
    FollowedOne(Stack(), u);
    UpdatedBoth(u, A);
    NoneRebalanced(Stack(), u);
    assert [] + [A] == u.visited;
    RebalancedMore(Stack(), [], A, u);
    MovedStack(u.fee, u.size, Updated(u.fee, u.fee', u.visited), Updated(u.size, u.size', u.visited));
  }

  lemma MovedStack(fee: map<Txid, int>, size: map<Txid, int>, fee': map<Txid, int>, size': map<Txid, int>)
    requires Higher(At(fee, A), At(size, A), At(fee', A), At(size', A))
    ensures Moved(Stack(), A, fee, size, fee', size', Pool().order) == Stack()
  {
    hide Pool, ByScores, Higher;
    BeatsNotItself(fee', size', A);
    var higher, n := ByScores(fee', size', Pool().order), Stack().root.value;
    assert Heaps.Deleted(higher, n, 4) == Some(Heaps.Node(3, A, [Heaps.Node(2, B, [])]));
    assert Heaps.NodeIn(n, 4) == n;
    MeldedOver(higher, n.children[0], Heaps.Node(4, A, []));
  }

  // ---------- the run

  const Empty: Queue := Queue(None, 0, map[])

  /** Whether a package fits, in numbers. */
  lemma FitsNumbers(weight: int, used: set<Txid>, x: Txid)
    requires x in {F, Q, P, A, B}
    ensures Fits(weight, PackageTotal(Pool().size, Ancestors(), used, x), PackageTotal(Pool().sigops, Ancestors(), used, x))
            <==> weight + At(Pool().size, x) + (if x in {A, B} && P !in used then 100_000 else 0) + (if x == A && Q !in used then 1_900_000 else 0) < BLOCK_WEIGHT_UNITS
  {
    hide PackageTotal;
    Totals(Pool().size, used, x);
    Totals(Pool().sigops, used, x);
  }

  method Begin() returns (w: Worker)
    ensures fresh(w) && fresh(w.heap) && fresh(w.pool) && fresh(w.mempoolArray)
    ensures Here(w, {}, [F, Q, A, P, B], Empty, {}, [], RESERVED_WEIGHT) && w.blocks == [] && w.done == [] && w.transactions == []
  {
    hide Worker.Valid, Pool, Ancestors, InStartOrder, Distinct, Elems, SameMeasure, Candidates.Ranked, Candidates.WellFormed, Ancestry;
    PoolGood();
    PoolRanked();
    CandidatesGood();
    w := Prepare(Pool(), [F, Q, P, A, B], Pool().order);
    AncestorsKnown(w.anc0);
    ArrayKnown(w.mempoolArray[..]);
    assert w.mempoolArray[0..] == w.mempoolArray[..];
    w.Facts();
  }

  /** `F` is placed, then `Q` does not fit. */
  method PlaceF(w: Worker)
    requires Here(w, {}, [F, Q, A, P, B], Empty, {}, [], RESERVED_WEIGHT) && w.blocks == [] && w.done == [] && w.transactions == []
    modifies w, w.heap, w.pool
    ensures Here(w, {F}, [A, P, B], Empty, {}, [Q], 2_504_000) && w.blocks == [] && w.transactions == [F]
  {
    hide Here, Pool, Ancestors, PackageTotal, Fits, Takes, TrueUpdate, Followed;
    KeysAre();
    Parts();
    assert [] + [Q] == [Q] && {} + {F} == {F};
    FitsNumbers(RESERVED_WEIGHT, {}, F);
    TakesArray({}, [F, Q, A, P, B], Empty, {});
    ghost var u := PlaceAlone(w, {}, [F, Q, A, P, B], Empty, {}, [], RESERVED_WEIGHT, F, [Q, A, P, B], Empty);
    VisitedAre({}, F, u);
    NothingFollows(Empty, u);
    FitsNumbers(2_504_000, {F}, Q);
    TakesArray({F}, [Q, A, P, B], Empty, {});
    PassBy(w, {F}, [Q, A, P, B], Empty, {}, [], 2_504_000, Q, [A, P, B], Empty);
  }

  /** `A` does not fit, then `P` is placed. */
  method PlaceP(w: Worker) returns (ghost a: nat, ghost b: nat)
    requires Here(w, {F}, [A, P, B], Empty, {}, [Q], 2_504_000) && w.blocks == [] && w.transactions == [F]
    modifies w, w.heap, w.pool
    ensures Here(w, {F, P}, [B], Pair(a, b), {A, B}, [Q, A], 2_604_000) && w.blocks == [] && w.transactions == [F, P]
  {
    hide Here, Pool, Ancestors, PackageTotal, Fits, Takes, TrueUpdate, Followed, Pair;
    KeysAre();
    Parts();
    assert [Q] + [A] == [Q, A] && {F} + {P} == {F, P};
    FitsNumbers(2_504_000, {F}, A);
    TakesArray({F}, [A, P, B], Empty, {});
    PassBy(w, {F}, [A, P, B], Empty, {}, [Q], 2_504_000, A, [P, B], Empty);
    FitsNumbers(2_504_000, {F}, P);
    TakesArray({F}, [P, B], Empty, {});
    ghost var u := PlaceAlone(w, {F}, [P, B], Empty, {}, [Q, A], 2_504_000, P, [B], Empty);
    VisitedAre({F}, P, u);
    a, b := AfterP(u);
  }

  lemma Parts()
    ensures At(Pool().size, F) == 2_500_000 && At(Pool().size, Q) == 1_900_000 && At(Pool().size, P) == 100_000
    ensures At(Pool().size, A) == 2_000_000 && At(Pool().size, B) == 1_500_000
    ensures Of(Ancestors(), F) == {} && Of(Ancestors(), Q) == {} && Of(Ancestors(), P) == {} && Of(Ancestors(), A) == {P, Q}
  {
  }

  lemma NothingFollows(q: Queue, u: Update)
    requires u.visited == []
    ensures Followed(q, [u], Pool().order) == q
  {
    FollowedOne(q, u);
  }

  /** `A` and `B` come from the heap and do not fit. */
  method PassBoth(w: Worker, ghost a: nat, ghost b: nat)
    requires Here(w, {F, P}, [B], Pair(a, b), {A, B}, [Q, A], 2_604_000) && w.blocks == [] && w.transactions == [F, P]
    modifies w, w.heap, w.pool
    ensures Here(w, {F, P}, [], Queue(None, 2, map[]), {A, B}, [Q, A, A, B], 2_604_000) && w.blocks == [] && w.transactions == [F, P]
  {
    hide Here, Pool, Ancestors, PackageTotal, Fits, Takes;
    Parts();
    assert SkipOver([B], {F, P} + {A, B}) == [];
    assert [Q, A] + [A] == [Q, A, A] && [Q, A, A] + [B] == [Q, A, A, B];
    FitsNumbers(2_604_000, {F, P}, A);
    ghost var q1 := Queue(Some(Heaps.Node(b, B, [])), 2, map[B := b]);
    assert Pair(a, b).nodes - {A} == map[B := b];
    TakesRoot({F, P}, [B], Pair(a, b), {A, B}, q1);
    PassBy(w, {F, P}, [B], Pair(a, b), {A, B}, [Q, A], 2_604_000, A, [], q1);
    FitsNumbers(2_604_000, {F, P}, B);
    ghost var q2 := Queue(None, 2, map[]);
    assert q1.nodes - {B} == map[];
    TakesRoot({F, P}, [], q1, {A, B}, q2);
    PassBy(w, {F, P}, [], q1, {A, B}, [Q, A, A], 2_604_000, B, [], q2);
  }

  /** The block is closed, and what is aside goes back in line. */
  method CloseFirst(w: Worker)
    requires Here(w, {F, P}, [], Queue(None, 2, map[]), {A, B}, [Q, A, A, B], 2_604_000) && w.blocks == [] && w.transactions == [F, P]
    modifies w, w.heap, w.pool, w.mempoolArray
    ensures Here(w, {F, P}, [Q], Stack(), {A, B}, [], RESERVED_WEIGHT) && w.blocks == [[F, P]] && w.done == [] && w.transactions == []
  {
    hide Worker.Valid, Pool, Ancestors, AddedBack, UnmarkedOnly, ScoresAre;
    assert [Q] + [] == [Q];
    w.Scores();
    PutBackStack(w.pool.ancestorFee, w.pool.ancestorSize);
    var stop := w.EndBlock();
    w.Facts();
    w.TopKnown();
  }

  /** `Q` is placed; the old node of `A` stays over `B`. */
  method PlaceQ(w: Worker)
    requires Here(w, {F, P}, [Q], Stack(), {A, B}, [], RESERVED_WEIGHT) && w.blocks == [[F, P]] && w.done == [] && w.transactions == []
    modifies w, w.heap, w.pool
    ensures Here(w, {F, P, Q}, [], Stack(), {A, B}, [], 1_904_000) && w.blocks == [[F, P]] && w.done == [[Q]] && w.transactions == [Q]
  {
    hide Here, Pool, Ancestors, PackageTotal, Fits, Takes, TrueUpdate, Followed, Stack;
    KeysAre();
    Parts();
    FitsNumbers(RESERVED_WEIGHT, {F, P}, Q);
    TakesQ();
    ghost var u := PlaceAlone(w, {F, P}, [Q], Stack(), {A, B}, [], RESERVED_WEIGHT, Q, [], Stack());
    VisitedAre({F, P}, Q, u);
    StackStays(u);
    assert {F, P} + {Q} == {F, P, Q} && {A, B} + {A} == {A, B};
  }

  lemma TakesQ()
    ensures Takes({F, P}, [Q], Stack(), {A, B}, Q, [], Stack())
  {
    hide Pool, Ancestors, ScoresAre;
    forall fee, size | ScoresAre(Pool(), Ancestors(), {F, P}, fee, size)
      ensures Selected([Q], {F, P} + {A, B}, Stack(), fee, size, Pool().order) == Selection(Some(Q), [], Stack())
    {
      ScoresNow({F, P}, fee, size);
      assert SkipOver([Q], {F, P} + {A, B}) == [Q];
    }
  }

  /** `B` may be picked after `Q`, and has the higher score. */
  lemma NotTheBest()
    ensures B in Contenders(Pool(), Ancestors(), {F, P}, [[Q]], true)
    ensures !NotBetter(Pool(), Ancestors(), {F, P, Q}, B, A)
    ensures !Best(Pool(), Ancestors(), {F, P, Q}, Contenders(Pool(), Ancestors(), {F, P}, [[Q]], true), A)
  {
    hide Pool, Ancestors, PackageTotal, Fits, Rejected;
    KeysAre();
    PlacedQ();
    RejectedNot();
    Scores(B);
    Scores(A);
  }

  lemma Scores(x: Txid)
    requires x in {A, B}
    ensures PackageTotal(Pool().fee, Ancestors(), {F, P, Q}, x) == if x == A then 200 else 225
    ensures PackageTotal(Pool().size, Ancestors(), {F, P, Q}, x) == if x == A then 2_000_000 else 1_500_000
  {
    hide PackageTotal;
    Totals(Pool().fee, {F, P, Q}, x);
    Totals(Pool().size, {F, P, Q}, x);
  }

  lemma PlacedQ()
    ensures Placed([[Q]]) == {Q} && Placed([]) == {} && {F, P} + {Q} == {F, P, Q}
  {
    PlacedMore([], [Q]);
    assert [] + [[Q]] == [[Q]] && Elems([Q]) == {Q};
  }

  lemma RejectedNot()
    ensures !Rejected(Pool(), Ancestors(), {F, P}, [[Q]], B)
  {
    hide Pool, Ancestors, PackageTotal;
    Parts();
    PlacedQ();
    SmallSums(Pool().size, Q, P);
    FitsNumbers(RESERVED_WEIGHT, {F, P}, B);
    FitsNumbers(RESERVED_WEIGHT + 1_900_000, {F, P, Q}, B);
    assert {F, P} + {} == {F, P};
    forall j: nat | j <= 1 ensures FitsAfter(Pool(), Ancestors(), {F, P}, [[Q]][..j], B) {
      assert [[Q]][..j] == if j == 0 then [] else [[Q]];
    }
  }

  /** `A` is picked. */
  method PlaceA(w: Worker)
    requires Here(w, {F, P, Q}, [], Stack(), {A, B}, [], 1_904_000) && w.blocks == [[F, P]] && w.done == [[Q]] && w.transactions == [Q]
    modifies w, w.heap, w.pool
    ensures w.Valid() && w.c == Pool() && w.anc0 == Ancestors() && w.blocks == [[F, P]] && w.done == [[Q], [A]] && w.transactions == [Q, A]
  {
    hide Worker.Valid, Pool, Ancestors, PackageTotal, Fits, Takes, TrueUpdate, Followed;
    KeysAre();
    Parts();
    FitsNumbers(1_904_000, {F, P, Q}, A);
    ghost var q' := Queue(Some(Heaps.Node(3, A, [Heaps.Node(2, B, [])])), 5, Stack().nodes - {A});
    TakesRoot({F, P, Q}, [], Stack(), {A, B}, q');
    ghost var u := PlaceAlone(w, {F, P, Q}, [], Stack(), {A, B}, [], 1_904_000, A, [], q');
  }

  /** The builder picks `A` after `Q` in the second block, although `B` may be picked then and has the
      higher score. */
  method SecondBestPicked() returns (w: Worker)
    ensures w.Valid() && w.c == Pool() && w.anc0 == Ancestors() && w.blocks == [[F, P]] && w.done == [[Q], [A]] && w.transactions == [Q, A]
    ensures !Best(Pool(), Ancestors(), {F, P, Q}, Contenders(Pool(), Ancestors(), {F, P}, [[Q]], true), A)
  {
    hide Here, Worker.Valid, Pool, Ancestors, Stack, Pair, Contenders, Best;
    w := Begin();
    PlaceF(w);
    ghost var a, b := PlaceP(w);
    PassBoth(w, a, b);
    CloseFirst(w);
    PlaceQ(w);
    PlaceA(w);
    NotTheBest();
  }
}
