/** The priority queue: a tree of nodes in which, while elements keep their priority, none is above
    the node over it. Nodes have numbers, which stand for references to them. */
module PairingHeap {
  import opened Options

  /** The first child comes first. */
  datatype Node<T> = Node(id: nat, element: T, children: seq<Node<T>>)

  /** Compares the priorities that two elements have at the moment. */
  type Comparator<!T> = (T, T) -> bool

  // ---------- melding

  function MeldNodes<T>(higher: Comparator<T>, a: Node<T>, b: Node<T>): Node<T> {
    if higher(a.element, b.element) then a.(children := [b] + a.children) else b.(children := [a] + b.children)
  }

  function Meld<T>(higher: Comparator<T>, a: Option<Node<T>>, b: Option<Node<T>>): Option<Node<T>> {
    if a.None? then b else if b.None? then a else Some(MeldNodes(higher, a.value, b.value))
  }

  /** Neighbours are melded in pairs from the first on, and the pairs from the last on. */
  function PairsMerged<T>(higher: Comparator<T>, s: seq<Node<T>>): Option<Node<T>>
    decreases |s|
  {
    if s == [] then None
    else if |s| == 1 then Some(s[0])
    else Meld(higher, PairsMerged(higher, s[2..]), Some(MeldNodes(higher, s[0], s[1])))
  }

  /** The melded pairs of neighbours. */
  function Pairs<T>(higher: Comparator<T>, s: seq<Node<T>>): seq<Node<T>>
    decreases |s|
  {
    if |s| <= 1 then s else [MeldNodes(higher, s[0], s[1])] + Pairs(higher, s[2..])
  }

  function MeldedFromLast<T>(higher: Comparator<T>, s: seq<Node<T>>): Option<Node<T>> {
    if s == [] then None else Meld(higher, MeldedFromLast(higher, s[1..]), Some(s[0]))
  }

  lemma {:induction false} PairsThenMeld<T>(higher: Comparator<T>, s: seq<Node<T>>)
    ensures MeldedFromLast(higher, Pairs(higher, s)) == PairsMerged(higher, s)
    decreases |s|
  {
    if |s| == 1 {
      assert s[1..] == [];
    } else if |s| > 1 {
      PairsThenMeld(higher, s[2..]);
      var p := Pairs(higher, s);
      assert p[1..] == Pairs(higher, s[2..]);
    }
  }

  lemma {:induction false} PairsNext<T>(higher: Comparator<T>, s: seq<Node<T>>, i: nat)
    requires i % 2 == 0 && i <= |s|
    ensures i + 1 < |s| ==> Pairs(higher, s[..i + 2]) == Pairs(higher, s[..i]) + [MeldNodes(higher, s[i], s[i + 1])]
    ensures i + 1 == |s| ==> Pairs(higher, s) == Pairs(higher, s[..i]) + [s[i]]
    decreases i
  {
    if i == 0 {
      if i + 1 < |s| {
        assert s[..2][2..] == [];
      }
    } else {
      assert s[..i][2..] == s[2..][..i - 2];
      PairsNext(higher, s[2..], i - 2);
      if i + 1 < |s| {
        assert s[..i + 2][2..] == s[2..][..i];
      }
    }
  }

  method MergePairs<T>(higher: Comparator<T>, s: seq<Node<T>>) returns (melded: Option<Node<T>>)
    ensures melded == PairsMerged(higher, s)
  {
    var pairs: seq<Node<T>> := [];
    var i := 0;
    while i < |s|
      invariant 0 <= i <= |s| && (i % 2 == 0 || i == |s|)
      invariant pairs == Pairs(higher, s[..i])
    {
      PairsNext(higher, s, i);
      if i + 1 < |s| {
        pairs := pairs + [MeldNodes(higher, s[i], s[i + 1])];
        i := i + 2;
      } else {
        pairs := pairs + [s[i]];
        i := i + 1;
        assert s[..i] == s;
      }
    }
    assert s[..|s|] == s;
    melded := None;
    var n := |pairs|;
    while n > 0
      invariant 0 <= n <= |pairs| && melded == MeldedFromLast(higher, pairs[n..])
    {
      n := n - 1;
      assert pairs[n..][1..] == pairs[n + 1..];
      melded := Meld(higher, melded, Some(pairs[n]));
    }
    assert pairs[0..] == pairs;
    PairsThenMeld(higher, s);
  }

  // ---------- what the nodes hold

  ghost function Entries<T>(n: Node<T>): map<nat, T> {
    AllEntries(n.children)[n.id := n.element]
  }

  ghost function AllEntries<T>(s: seq<Node<T>>): map<nat, T> {
    if s == [] then map[] else Entries(s[0]) + AllEntries(s[1..])
  }

  ghost function HeapEntries<T>(h: Option<Node<T>>): map<nat, T> {
    if h.None? then map[] else Entries(h.value)
  }

  /** No two nodes have one number. */
  ghost predicate Proper<T>(n: Node<T>) {
    n.id !in AllEntries(n.children) && AllProper(n.children)
  }

  ghost predicate AllProper<T>(s: seq<Node<T>>) {
    s != [] ==> Proper(s[0]) && Entries(s[0]).Keys !! AllEntries(s[1..]).Keys && AllProper(s[1..])
  }

  ghost predicate IsHeap<T>(h: Option<Node<T>>) {
    h.Some? ==> Proper(h.value)
  }

  lemma AllOne<T>(n: Node<T>, s: seq<Node<T>>)
    ensures AllEntries([n] + s) == Entries(n) + AllEntries(s)
    ensures AllProper([n] + s) <==> Proper(n) && Entries(n).Keys !! AllEntries(s).Keys && AllProper(s)
  {
    assert ([n] + s)[1..] == s;
  }

  lemma MeldNodesHolds<T>(higher: Comparator<T>, a: Node<T>, b: Node<T>)
    requires Proper(a) && Proper(b) && Entries(a).Keys !! Entries(b).Keys
    ensures Proper(MeldNodes(higher, a, b)) && Entries(MeldNodes(higher, a, b)) == Entries(a) + Entries(b)
  {
    AllOne(b, a.children);
    AllOne(a, b.children);
    assert a.id in Entries(a) && b.id in Entries(b);
    assert AllEntries(a.children).Keys <= Entries(a).Keys && AllEntries(b.children).Keys <= Entries(b).Keys;
  }

  lemma MeldHolds<T>(higher: Comparator<T>, a: Option<Node<T>>, b: Option<Node<T>>)
    requires IsHeap(a) && IsHeap(b) && HeapEntries(a).Keys !! HeapEntries(b).Keys
    ensures IsHeap(Meld(higher, a, b)) && HeapEntries(Meld(higher, a, b)) == HeapEntries(a) + HeapEntries(b)
  {
    hide Proper, Entries, MeldNodes;
    if a.Some? && b.Some? {
      MeldNodesHolds(higher, a.value, b.value);
    }
  }

  lemma {:induction false} MergeHolds<T>(higher: Comparator<T>, s: seq<Node<T>>)
    requires AllProper(s)
    ensures IsHeap(PairsMerged(higher, s)) && HeapEntries(PairsMerged(higher, s)) == AllEntries(s)
    decreases |s|
  {
    hide Proper, Entries, MeldNodes, Meld;
    if |s| == 1 {
      assert s[1..] == [];
    } else if |s| > 1 {
      var rest := s[2..];
      assert s[1..][1..] == rest;
      MergeHolds(higher, rest);
      MeldNodesHolds(higher, s[0], s[1]);
      MeldHolds(higher, PairsMerged(higher, rest), Some(MeldNodes(higher, s[0], s[1])));
    }
  }

  // ---------- taking a node out

  function FindIn<T>(s: seq<Node<T>>, id: nat): Option<Node<T>> {
    if s == [] then None
    else if s[0].id == id then Some(s[0])
    else if FindIn(s[0].children, id).Some? then FindIn(s[0].children, id)
    else FindIn(s[1..], id)
  }

  /** Without the node and everything below it. */
  function DropIn<T>(s: seq<Node<T>>, id: nat): seq<Node<T>> {
    if s == [] then []
    else if s[0].id == id then s[1..]
    else [s[0].(children := DropIn(s[0].children, id))] + DropIn(s[1..], id)
  }

  lemma {:induction false} NothingToDrop<T>(s: seq<Node<T>>, id: nat)
    requires id !in AllEntries(s)
    ensures FindIn(s, id) == None && DropIn(s, id) == s
  {
    if s != [] {
      NothingToDrop(s[0].children, id);
      NothingToDrop(s[1..], id);
      assert s == [s[0]] + s[1..];
    }
  }

  /** What is left when the node and everything below it goes. */
  ghost predicate IsCut<T>(s: seq<Node<T>>, id: nat, m: Node<T>, left: seq<Node<T>>) {
    && m.id == id && Proper(m) && AllProper(left) && AllEntries(left) == AllEntries(s) - Entries(m).Keys
    && forall k | k in Entries(m) :: k in AllEntries(s) && AllEntries(s)[k] == Entries(m)[k]
  }

  /** The node is found with what is below it, and the rest stays. */
  lemma {:induction false} Cut<T>(s: seq<Node<T>>, id: nat)
    requires AllProper(s) && id in AllEntries(s)
    ensures FindIn(s, id).Some? && IsCut(s, id, FindIn(s, id).value, DropIn(s, id))
  {
    hide IsCut;
    var n, rest := s[0], s[1..];
    assert s == [n] + rest;
    AllOne(n, rest);
    if n.id == id {
      CutHead(n, rest);
    } else if id in AllEntries(n.children) {
      Cut(n.children, id);
      NothingToDrop(rest, id);
      CutBelow(n, rest, id, FindIn(n.children, id).value, DropIn(n.children, id));
    } else {
      NothingToDrop(n.children, id);
      Cut(rest, id);
      assert n == n.(children := DropIn(n.children, id));
      CutRest(n, rest, id, FindIn(rest, id).value, DropIn(rest, id));
    }
  }

  lemma CutHead<T>(n: Node<T>, rest: seq<Node<T>>)
    requires Proper(n) && Entries(n).Keys !! AllEntries(rest).Keys && AllProper(rest)
    ensures IsCut([n] + rest, n.id, n, rest)
  {
    AllOne(n, rest);
    hide Proper, Entries, AllEntries, AllProper;
  }

  lemma CutRest<T>(n: Node<T>, rest: seq<Node<T>>, id: nat, m: Node<T>, left: seq<Node<T>>)
    requires Proper(n) && Entries(n).Keys !! AllEntries(rest).Keys && IsCut(rest, id, m, left)
    ensures IsCut([n] + rest, id, m, [n] + left)
  {
    AllOne(n, rest);
    AllOne(n, left);
    hide Proper, Entries, AllEntries, AllProper;
  }

  lemma CutBelow<T>(n: Node<T>, rest: seq<Node<T>>, id: nat, m: Node<T>, left: seq<Node<T>>)
    requires Proper(n) && Entries(n).Keys !! AllEntries(rest).Keys && AllProper(rest) && id != n.id && IsCut(n.children, id, m, left)
    ensures IsCut([n] + rest, id, m, [n.(children := left)] + rest)
  {
    hide Proper, Entries, AllEntries, AllProper;
    CutChild(n, id, m, left);
    AllOne(n, rest);
    AllOne(n.(children := left), rest);
  }

  lemma CutChild<T>(n: Node<T>, id: nat, m: Node<T>, left: seq<Node<T>>)
    requires Proper(n) && id != n.id && AllProper(left) && AllEntries(left) == AllEntries(n.children) - Entries(m).Keys
    requires forall k | k in Entries(m) :: k in AllEntries(n.children) && AllEntries(n.children)[k] == Entries(m)[k]
    ensures Proper(n.(children := left)) && Entries(n.(children := left)) == Entries(n) - Entries(m).Keys
    ensures forall k | k in Entries(m) :: k in Entries(n) && Entries(n)[k] == Entries(m)[k]
  {
    hide AllEntries, AllProper;
    assert n.id !in Entries(m);
  }

  // ---------- order

  /** No node beats the one over it; what is in `except` does not count. */
  ghost predicate Ordered<T>(higher: Comparator<T>, n: Node<T>, except: set<nat>) {
    AllBelow(higher, n, n.children, except) && AllOrdered(higher, n.children, except)
  }

  ghost predicate AllBelow<T>(higher: Comparator<T>, n: Node<T>, s: seq<Node<T>>, except: set<nat>) {
    forall i | 0 <= i < |s| :: n.id in except || s[i].id in except || !higher(s[i].element, n.element)
  }

  ghost predicate AllOrdered<T>(higher: Comparator<T>, s: seq<Node<T>>, except: set<nat>) {
    s != [] ==> Ordered(higher, s[0], except) && AllOrdered(higher, s[1..], except)
  }

  ghost predicate InOrder<T>(higher: Comparator<T>, h: Option<Node<T>>) {
    h.Some? ==> Ordered(higher, h.value, {})
  }

  ghost predicate Asymmetric<T(!new)>(higher: Comparator<T>) {
    forall a, b :: higher(a, b) ==> !higher(b, a)
  }

  ghost predicate WeakOn<T>(higher: Comparator<T>, elements: set<T>) {
    forall a, b, c | a in elements && b in elements && c in elements && !higher(a, b) && !higher(b, c) :: !higher(a, c)
  }

  lemma OrderedOne<T>(higher: Comparator<T>, n: Node<T>, s: seq<Node<T>>, except: set<nat>)
    ensures AllOrdered(higher, [n] + s, except) <==> Ordered(higher, n, except) && AllOrdered(higher, s, except)
  {
    assert ([n] + s)[1..] == s;
  }

  lemma MeldNodesOrdered<T(!new)>(higher: Comparator<T>, a: Node<T>, b: Node<T>)
    requires Asymmetric(higher) && Ordered(higher, a, {}) && Ordered(higher, b, {})
    ensures Ordered(higher, MeldNodes(higher, a, b), {})
  {
    OrderedOne(higher, b, a.children, {});
    OrderedOne(higher, a, b.children, {});
    hide AllOrdered;
  }

  lemma MeldOrdered<T(!new)>(higher: Comparator<T>, a: Option<Node<T>>, b: Option<Node<T>>)
    requires Asymmetric(higher) && InOrder(higher, a) && InOrder(higher, b)
    ensures InOrder(higher, Meld(higher, a, b))
  {
    hide Ordered, MeldNodes, Asymmetric;
    if a.Some? && b.Some? {
      MeldNodesOrdered(higher, a.value, b.value);
    }
  }

  lemma {:induction false} MergeOrdered<T(!new)>(higher: Comparator<T>, s: seq<Node<T>>)
    requires Asymmetric(higher) && AllOrdered(higher, s, {})
    ensures InOrder(higher, PairsMerged(higher, s))
    decreases |s|
  {
    hide Ordered, MeldNodes, Asymmetric, Meld;
    if |s| > 1 {
      var rest := s[2..];
      assert s[1..][1..] == rest;
      MergeOrdered(higher, rest);
      MeldNodesOrdered(higher, s[0], s[1]);
      MeldOrdered(higher, PairsMerged(higher, rest), Some(MeldNodes(higher, s[0], s[1])));
    }
  }

  ghost predicate Holding<T>(entries: map<nat, T>, elements: set<T>) {
    forall k | k in entries :: entries[k] in elements
  }

  /** Nothing in the trees beats what none of their roots beats. */
  lemma {:induction false} NoneBeats<T>(higher: Comparator<T>, s: seq<Node<T>>, top: T, elements: set<T>)
    requires AllProper(s) && AllOrdered(higher, s, {}) && forall i | 0 <= i < |s| :: !higher(s[i].element, top)
    requires WeakOn(higher, elements) && Holding(AllEntries(s), elements) && top in elements
    ensures forall k | k in AllEntries(s) :: !higher(AllEntries(s)[k], top)
  {
    if s != [] {
      var n, rest := s[0], s[1..];
      HeadHeld(n, rest, s, elements);
      NoneBeats(higher, rest, top, elements);
      forall i | 0 <= i < |n.children| ensures !higher(n.children[i].element, top) {
        ElementHeld(n.children, i, elements);
        assert !higher(n.children[i].element, n.element) && !higher(n.element, top);
      }
      NoneBeats(higher, n.children, top, elements);
    }
  }

  lemma HeadHeld<T>(n: Node<T>, rest: seq<Node<T>>, s: seq<Node<T>>, elements: set<T>)
    requires s == [n] + rest && AllProper(s) && Holding(AllEntries(s), elements)
    ensures Holding(AllEntries(rest), elements) && Holding(AllEntries(n.children), elements) && n.element in elements
  {
    AllOne(n, rest);
    hide AllProper;
    assert Entries(n)[n.id] == n.element;
    assert forall k | k in Entries(n) :: k in AllEntries(s) && AllEntries(s)[k] == Entries(n)[k];
    assert forall k | k in AllEntries(n.children) :: k in Entries(n) && Entries(n)[k] == AllEntries(n.children)[k];
  }

  lemma {:induction false} ElementHeld<T>(s: seq<Node<T>>, i: nat, elements: set<T>)
    requires i < |s| && AllProper(s) && Holding(AllEntries(s), elements)
    ensures s[i].element in elements
  {
    assert s == [s[0]] + s[1..];
    HeadHeld(s[0], s[1..], s, elements);
    if i > 0 {
      ElementHeld(s[1..], i - 1, elements);
    }
  }

  /** In an ordered heap nothing beats the root. */
  lemma TopUnbeaten<T>(higher: Comparator<T>, n: Node<T>, elements: set<T>)
    requires Proper(n) && Ordered(higher, n, {}) && WeakOn(higher, elements) && Holding(Entries(n), elements) && !higher(n.element, n.element)
    ensures forall k | k in Entries(n) :: !higher(Entries(n)[k], n.element)
  {
    assert [n][1..] == [];
    HeadHeld(n, [], [n], elements);
    NoneBeats(higher, n.children, n.element, elements);
  }

  // ---------- deleting and moving nodes

  function Deleted<T>(higher: Comparator<T>, n: Node<T>, id: nat): Option<Node<T>> {
    if n.id == id then PairsMerged(higher, n.children)
    else Meld(higher, Some(n.(children := DropIn(n.children, id))), PairsMerged(higher, NodeIn(n, id).children))
  }

  /** The node with the number, or the root if there is none. */
  function NodeIn<T>(n: Node<T>, id: nat): Node<T> {
    if n.id == id then n
    else match FindIn(n.children, id)
      case Some(m) => m
      case None => n
  }

  /** The node is the first child of a node that beats it. */
  predicate FirstBelow<T>(higher: Comparator<T>, n: Node<T>, id: nat) {
    || (n.children != [] && n.children[0].id == id && higher(n.element, n.children[0].element))
    || AnyFirstBelow(higher, n.children, id)
  }

  predicate AnyFirstBelow<T>(higher: Comparator<T>, s: seq<Node<T>>, id: nat) {
    s != [] && (FirstBelow(higher, s[0], id) || AnyFirstBelow(higher, s[1..], id))
  }

  function Raised<T>(higher: Comparator<T>, n: Node<T>, id: nat): Node<T> {
    if n.id == id || FirstBelow(higher, n, id) then n
    else MeldNodes(higher, n.(children := DropIn(n.children, id)), NodeIn(n, id))
  }

  function Lowered<T>(higher: Comparator<T>, n: Node<T>, id: nat): Option<Node<T>> {
    Meld(higher, Deleted(higher, n, id), Some(Node(id, NodeIn(n, id).element, [])))
  }

  /** The found node with everything below it, and the root without them. */
  lemma NodeCut<T>(n: Node<T>, id: nat)
    requires Proper(n) && id in Entries(n) && id != n.id
    ensures FindIn(n.children, id) == Some(NodeIn(n, id))
    ensures var m, rest := NodeIn(n, id), n.(children := DropIn(n.children, id));
            && Proper(m) && m.id == id && m.element == Entries(n)[id] && Proper(rest)
            && Entries(rest).Keys !! Entries(m).Keys && Entries(rest) + Entries(m) == Entries(n)
            && Entries(m).Keys !! {n.id}
  {
    Cut(n.children, id);
    var m, left := FindIn(n.children, id).value, DropIn(n.children, id);
    hide FindIn, DropIn, AllProper, AllEntries;
    CutChild(n, id, m, left);
    assert id in Entries(m) && Entries(m)[id] == m.element;
    assert n.id in Entries(n.(children := left));
    MapSplit(Entries(n), Entries(m));
  }

  lemma MapSplit<T>(all: map<nat, T>, part: map<nat, T>)
    requires forall k | k in part :: k in all && all[k] == part[k]
    ensures (all - part.Keys) + part == all
  {
  }

  lemma DeletedHolds<T>(higher: Comparator<T>, n: Node<T>, id: nat)
    requires Proper(n) && id in Entries(n)
    ensures IsHeap(Deleted(higher, n, id)) && HeapEntries(Deleted(higher, n, id)) == Entries(n) - {id}
  {
    if n.id == id {
      MergeHolds(higher, n.children);
    } else {
      NodeCut(n, id);
      var m, rest := NodeIn(n, id), n.(children := DropIn(n.children, id));
      MergeHolds(higher, m.children);
      MeldHolds(higher, Some(rest), PairsMerged(higher, m.children));
      WithoutOne(Entries(n), Entries(rest), AllEntries(m.children), id, m.element);
    }
  }

  lemma WithoutOne<T>(all: map<nat, T>, rest: map<nat, T>, below: map<nat, T>, id: nat, e: T)
    requires rest + below[id := e] == all && id !in rest && id !in below
    ensures rest + below == all - {id}
  {
  }

  lemma RaisedHolds<T>(higher: Comparator<T>, n: Node<T>, id: nat)
    requires Proper(n) && id in Entries(n)
    ensures Proper(Raised(higher, n, id)) && Entries(Raised(higher, n, id)) == Entries(n)
  {
    if n.id != id && !FirstBelow(higher, n, id) {
      NodeCut(n, id);
      MeldNodesHolds(higher, n.(children := DropIn(n.children, id)), NodeIn(n, id));
    }
  }

  lemma LoweredHolds<T>(higher: Comparator<T>, n: Node<T>, id: nat)
    requires Proper(n) && id in Entries(n)
    ensures IsHeap(Lowered(higher, n, id)) && HeapEntries(Lowered(higher, n, id)) == Entries(n)
  {
    hide Entries, Proper, Meld, Deleted, NodeIn;
    DeletedHolds(higher, n, id);
    NodeInIs(n, id);
    var single := Node(id, NodeIn(n, id).element, []);
    SingleHolds(id, NodeIn(n, id).element);
    MeldHolds(higher, Deleted(higher, n, id), Some(single));
    MapBack(Entries(n), id);
  }

  lemma MapBack<T>(all: map<nat, T>, id: nat)
    requires id in all
    ensures (all - {id}) + map[id := all[id]] == all
  {
  }

  lemma SingleHolds<T>(id: nat, element: T)
    ensures var n := Node(id, element, []); Proper(n) && Entries(n) == map[id := element]
  {
  }

  lemma NodeInIs<T>(n: Node<T>, id: nat)
    requires Proper(n) && id in Entries(n)
    ensures NodeIn(n, id).id == id && NodeIn(n, id).element == Entries(n)[id]
  {
    if n.id != id {
      NodeCut(n, id);
    }
  }

  // ---------- order after deleting and moving

  /** An exception for a node that is not there is none. */
  lemma {:induction false} Absent<T>(higher: Comparator<T>, s: seq<Node<T>>, id: nat)
    requires AllOrdered(higher, s, {id}) && id !in AllEntries(s)
    ensures AllOrdered(higher, s, {}) && forall i | 0 <= i < |s| :: s[i].id != id
  {
    if s != [] {
      Absent(higher, s[0].children, id);
      Absent(higher, s[1..], id);
      assert s[0].id in Entries(s[0]);
    }
  }

  /** Every root that is left was one before, with another number. */
  ghost predicate RootsLeft<T>(left: seq<Node<T>>, s: seq<Node<T>>, id: nat) {
    forall i | 0 <= i < |left| :: left[i].id != id && exists j | 0 <= j < |s| :: s[j].id == left[i].id && s[j].element == left[i].element
  }

  lemma {:induction false} CutRoots<T>(s: seq<Node<T>>, id: nat)
    requires AllProper(s)
    ensures RootsLeft(DropIn(s, id), s, id)
  {
    if s != [] {
      var n, rest := s[0], s[1..];
      var left := DropIn(s, id);
      if n.id == id {
        assert id in Entries(n);
        RootsHeld(rest);
        forall i | 0 <= i < |left| ensures left[i].id != id && s[i + 1] == left[i] {
        }
      } else {
        CutRoots(rest, id);
        var more := DropIn(rest, id);
        forall i | 0 <= i < |left| ensures left[i].id != id && exists j | 0 <= j < |s| :: s[j].id == left[i].id && s[j].element == left[i].element {
          if i > 0 {
            assert left[i] == more[i - 1];
            var j :| 0 <= j < |rest| && rest[j].id == left[i].id && rest[j].element == left[i].element;
            assert s[j + 1] == rest[j];
          } else {
            assert s[0].id == left[0].id && s[0].element == left[0].element;
          }
        }
      }
    }
  }

  lemma BelowLeft<T>(higher: Comparator<T>, n: Node<T>, left: seq<Node<T>>, s: seq<Node<T>>, id: nat)
    requires n.id != id && AllBelow(higher, n, s, {id}) && RootsLeft(left, s, id)
    ensures AllBelow(higher, n, left, {})
  {
  }

  /** Taking a node out takes its exceptions out. */
  lemma {:induction false} CutOrdered<T>(higher: Comparator<T>, s: seq<Node<T>>, id: nat)
    requires AllProper(s) && id in AllEntries(s) && AllOrdered(higher, s, {id}) && FindIn(s, id).Some?
    ensures AllOrdered(higher, DropIn(s, id), {}) && AllOrdered(higher, FindIn(s, id).value.children, {})
  {
    hide IsCut, AllBelow;
    var n, rest := s[0], s[1..];
    assert s == [n] + rest;
    AllOne(n, rest);
    if n.id == id {
      Absent(higher, rest, id);
      Absent(higher, n.children, id);
    } else if id in AllEntries(n.children) {
      Cut(n.children, id);
      CutOrdered(higher, n.children, id);
      Absent(higher, rest, id);
      CutRoots(n.children, id);
      var n' := n.(children := DropIn(n.children, id));
      BelowLeft(higher, n, n'.children, n.children, id);
      SameRoot(higher, n, n', n'.children);
      NothingToDrop(rest, id);
      OrderedOne(higher, n', rest, {});
    } else {
      NothingToDrop(n.children, id);
      Absent(higher, n.children, id);
      AbsentBelow(higher, n, id);
      Cut(rest, id);
      CutOrdered(higher, rest, id);
      assert n == n.(children := DropIn(n.children, id));
      OrderedOne(higher, n, DropIn(rest, id), {});
    }
  }

  lemma SameRoot<T>(higher: Comparator<T>, n: Node<T>, n': Node<T>, s: seq<Node<T>>)
    requires AllBelow(higher, n, s, {}) && n'.id == n.id && n'.element == n.element
    ensures AllBelow(higher, n', s, {})
  {
  }

  lemma AbsentBelow<T>(higher: Comparator<T>, n: Node<T>, id: nat)
    requires AllBelow(higher, n, n.children, {id}) && n.id != id && forall i | 0 <= i < |n.children| :: n.children[i].id != id
    ensures AllBelow(higher, n, n.children, {})
  {
  }

  lemma NodeCutOrdered<T>(higher: Comparator<T>, n: Node<T>, id: nat)
    requires Proper(n) && id in Entries(n) && id != n.id && Ordered(higher, n, {id})
    ensures Ordered(higher, n.(children := DropIn(n.children, id)), {}) && AllOrdered(higher, NodeIn(n, id).children, {})
  {
    Cut(n.children, id);
    CutOrdered(higher, n.children, id);
    CutRoots(n.children, id);
    BelowLeft(higher, n, DropIn(n.children, id), n.children, id);
  }

  lemma DeletedOrdered<T(!new)>(higher: Comparator<T>, n: Node<T>, id: nat)
    requires Asymmetric(higher) && Proper(n) && id in Entries(n) && Ordered(higher, n, {id})
    ensures InOrder(higher, Deleted(higher, n, id))
  {
    if n.id == id {
      Absent(higher, n.children, id);
      MergeOrdered(higher, n.children);
    } else {
      NodeCutOrdered(higher, n, id);
      hide Ordered, Meld, Asymmetric;
      MergeOrdered(higher, NodeIn(n, id).children);
      MeldOrdered(higher, Some(n.(children := DropIn(n.children, id))), PairsMerged(higher, NodeIn(n, id).children));
    }
  }

  /** After its priority fell, or for any reason, a node can be put in its place this way. */
  lemma LoweredOrdered<T(!new)>(higher: Comparator<T>, n: Node<T>, id: nat)
    requires Asymmetric(higher) && Proper(n) && id in Entries(n) && Ordered(higher, n, {id})
    ensures InOrder(higher, Lowered(higher, n, id))
  {
    DeletedOrdered(higher, n, id);
    var single := Node(id, NodeIn(n, id).element, []);
    assert Ordered(higher, single, {});
    hide Ordered, Meld, Deleted, Asymmetric;
    MeldOrdered(higher, Deleted(higher, n, id), Some(single));
  }

  /** A node that only beats too much is put in its place by moving it up. */
  lemma RaisedOrdered<T(!new)>(higher: Comparator<T>, n: Node<T>, id: nat)
    requires Asymmetric(higher) && Proper(n) && id in Entries(n) && Ordered(higher, n, {id})
    requires AllBelow(higher, NodeIn(n, id), NodeIn(n, id).children, {})
    ensures Ordered(higher, Raised(higher, n, id), {})
  {
    if n.id == id {
      Absent(higher, n.children, id);
    } else if FirstBelow(higher, n, id) {
      FirstInside(higher, n, id);
      Cut(n.children, id);
      StaysBelow(higher, n, id);
    } else {
      NodeCut(n, id);
      NodeCutOrdered(higher, n, id);
      MeldNodesOrdered(higher, n.(children := DropIn(n.children, id)), NodeIn(n, id));
    }
  }

  lemma {:induction false} AnyFirstInside<T>(higher: Comparator<T>, s: seq<Node<T>>, id: nat)
    requires AllProper(s) && AnyFirstBelow(higher, s, id)
    ensures id in AllEntries(s) && forall i | 0 <= i < |s| :: s[i].id != id
    decreases s
  {
    var n, rest := s[0], s[1..];
    if FirstBelow(higher, n, id) {
      FirstInside(higher, n, id);
    } else {
      AnyFirstInside(higher, rest, id);
    }
    assert n.id in Entries(n);
    RootsHeld(rest);
  }

  lemma {:induction false} RootsHeld<T>(s: seq<Node<T>>)
    ensures forall i | 0 <= i < |s| :: s[i].id in AllEntries(s)
  {
    if s != [] {
      RootsHeld(s[1..]);
      assert s[0].id in Entries(s[0]);
    }
  }

  lemma {:induction false} FirstInside<T>(higher: Comparator<T>, n: Node<T>, id: nat)
    requires Proper(n) && FirstBelow(higher, n, id)
    ensures id in AllEntries(n.children) && id != n.id
    decreases n
  {
    if n.children != [] && n.children[0].id == id && higher(n.element, n.children[0].element) {
      RootsHeld(n.children);
    } else {
      AnyFirstInside(higher, n.children, id);
    }
  }

  /** The first child of a node that beats it may stay. */
  lemma {:induction false} StaysBelow<T(!new)>(higher: Comparator<T>, n: Node<T>, id: nat)
    requires Asymmetric(higher) && Proper(n) && Ordered(higher, n, {id}) && FirstBelow(higher, n, id)
    requires FindIn(n.children, id).Some? && AllBelow(higher, FindIn(n.children, id).value, FindIn(n.children, id).value.children, {})
    ensures Ordered(higher, n, {})
    decreases n
  {
    FirstInside(higher, n, id);
    var s := n.children;
    if s != [] && s[0].id == id && higher(n.element, s[0].element) {
      assert s == [s[0]] + s[1..];
      AllOne(s[0], s[1..]);
      assert id in Entries(s[0]);
      assert Ordered(higher, s[0], {id}) && AllOrdered(higher, s[1..], {id});
      Absent(higher, s[1..], id);
      Absent(higher, s[0].children, id);
    } else {
      AnyFirstInside(higher, s, id);
      AllStayBelow(higher, s, id);
    }
  }

  lemma {:induction false} AllStayBelow<T(!new)>(higher: Comparator<T>, s: seq<Node<T>>, id: nat)
    requires Asymmetric(higher) && AllProper(s) && AllOrdered(higher, s, {id}) && AnyFirstBelow(higher, s, id)
    requires FindIn(s, id).Some? && AllBelow(higher, FindIn(s, id).value, FindIn(s, id).value.children, {})
    ensures AllOrdered(higher, s, {})
    decreases s
  {
    var n, rest := s[0], s[1..];
    assert s == [n] + rest;
    AllOne(n, rest);
    if FirstBelow(higher, n, id) {
      FirstInside(higher, n, id);
      Cut(n.children, id);
      StaysBelow(higher, n, id);
      Absent(higher, rest, id);
    } else {
      AnyFirstInside(higher, rest, id);
      AnyFirstInside(higher, s, id);
      NothingToDrop(n.children, id);
      AllStayBelow(higher, rest, id);
      Absent(higher, n.children, id);
    }
  }

  // ---------- when priorities change

  ghost predicate Within<T>(part: map<nat, T>, all: map<nat, T>) {
    forall k | k in part :: k in all && all[k] == part[k]
  }

  /** The comparators agree but for the nodes in `except`. */
  ghost predicate Agree<T>(higher: Comparator<T>, higher': Comparator<T>, all: map<nat, T>, except: set<nat>) {
    forall i, j | i in all && j in all && i !in except && j !in except :: higher(all[i], all[j]) == higher'(all[i], all[j])
  }

  lemma {:induction false} AllRescored<T>(higher: Comparator<T>, higher': Comparator<T>, s: seq<Node<T>>, all: map<nat, T>, except: set<nat>)
    requires AllProper(s) && AllOrdered(higher, s, {}) && Within(AllEntries(s), all) && Agree(higher, higher', all, except)
    ensures AllOrdered(higher', s, except)
  {
    if s != [] {
      var n, rest := s[0], s[1..];
      HeadWithin(n, rest, s, all);
      AllRescored(higher, higher', rest, all, except);
      AllRescored(higher, higher', n.children, all, except);
      forall i | 0 <= i < |n.children| ensures n.id in except || n.children[i].id in except || !higher'(n.children[i].element, n.element) {
        RootWithin(n.children, i, all);
      }
    }
  }

  lemma HeadWithin<T>(n: Node<T>, rest: seq<Node<T>>, s: seq<Node<T>>, all: map<nat, T>)
    requires s == [n] + rest && AllProper(s) && Within(AllEntries(s), all)
    ensures Within(AllEntries(rest), all) && Within(AllEntries(n.children), all) && n.id in all && all[n.id] == n.element
  {
    AllOne(n, rest);
    hide AllProper;
    assert Entries(n)[n.id] == n.element;
    assert forall k | k in Entries(n) :: k in AllEntries(s) && AllEntries(s)[k] == Entries(n)[k];
    assert forall k | k in AllEntries(n.children) :: k in Entries(n) && Entries(n)[k] == AllEntries(n.children)[k];
  }

  lemma {:induction false} RootWithin<T>(s: seq<Node<T>>, i: nat, all: map<nat, T>)
    requires i < |s| && AllProper(s) && Within(AllEntries(s), all)
    ensures s[i].id in all && all[s[i].id] == s[i].element
  {
    assert s == [s[0]] + s[1..];
    HeadWithin(s[0], s[1..], s, all);
    if i > 0 {
      RootWithin(s[1..], i - 1, all);
    }
  }

  /** Changed priorities of some nodes leave the others in order. */
  lemma Rescored<T>(higher: Comparator<T>, higher': Comparator<T>, n: Node<T>, except: set<nat>)
    requires Proper(n) && Ordered(higher, n, {}) && Agree(higher, higher', Entries(n), except)
    ensures Ordered(higher', n, except)
  {
    assert [n][1..] == [] && AllProper([n]) && AllOrdered(higher, [n], {});
    AllOne(n, []);
    assert [n] + [] == [n];
    AllRescored(higher, higher', [n], Entries(n), except);
  }

  lemma {:induction false} FoundOrdered<T>(higher: Comparator<T>, s: seq<Node<T>>, id: nat)
    requires AllOrdered(higher, s, {}) && FindIn(s, id).Some?
    ensures Ordered(higher, FindIn(s, id).value, {})
  {
    var n := s[0];
    assert Ordered(higher, n, {});
    if n.id != id {
      if FindIn(n.children, id).Some? {
        FoundOrdered(higher, n.children, id);
      } else {
        FoundOrdered(higher, s[1..], id);
      }
    }
  }

  /** A node that only gained priority still has nothing below that beats it. */
  lemma StillAbove<T>(higher: Comparator<T>, higher': Comparator<T>, n: Node<T>, id: nat)
    requires Proper(n) && id in Entries(n) && Ordered(higher, n, {})
    requires forall k | k in Entries(n) && !higher(Entries(n)[k], Entries(n)[id]) :: !higher'(Entries(n)[k], Entries(n)[id])
    ensures AllBelow(higher', NodeIn(n, id), NodeIn(n, id).children, {})
  {
    var m := NodeIn(n, id);
    NodeInIs(n, id);
    if n.id != id {
      Cut(n.children, id);
      FoundOrdered(higher, n.children, id);
    }
    NodeWithin(n, id);
    forall i | 0 <= i < |m.children| ensures !higher'(m.children[i].element, m.element) {
      RootWithin(m.children, i, Entries(n));
      assert !higher(m.children[i].element, m.element);
    }
  }

  lemma NodeWithin<T>(n: Node<T>, id: nat)
    requires Proper(n) && id in Entries(n)
    ensures Proper(NodeIn(n, id)) && AllProper(NodeIn(n, id).children) && Within(AllEntries(NodeIn(n, id).children), Entries(n))
  {
    if n.id != id {
      NodeCut(n, id);
      var m, rest := NodeIn(n, id), n.(children := DropIn(n.children, id));
      assert Within(AllEntries(m.children), Entries(m));
      assert Within(Entries(m), Entries(rest) + Entries(m));
    }
  }

  // ---------- the queue

  class PairingHeap<T(!new)> {
    var root: Option<Node<T>>
    var nextId: nat

    constructor ()
      ensures Valid() && root == None && nextId == 0
    {
      root, nextId := None, 0;
    }

    ghost predicate Valid()
      reads this
    {
      IsHeap(root) && forall k | k in Held() :: k < nextId
    }

    /** The elements by the numbers of their nodes. */
    ghost function Held(): map<nat, T>
      reads this`root
    {
      HeapEntries(root)
    }

    method Add(higher: Comparator<T>, element: T) returns (node: nat)
      requires Valid()
      modifies this
      ensures Valid() && node == old(nextId) && nextId == node + 1 && node !in old(Held())
      ensures root == Meld(higher, old(root), Some(Node(node, element, []))) && Held() == old(Held())[node := element]
    {
      hide Meld, Proper, Entries;
      node := nextId;
      var single := Node(node, element, []);
      SingleHolds(node, element);
      SingleIsHeap(single);
      assert HeapEntries(Some(single)).Keys == {node} && node !in Held();
      MeldHolds(higher, root, Some(single));
      nextId := nextId + 1;
      root := Meld(higher, root, Some(single));
    }

    method Pop(higher: Comparator<T>) returns (element: Option<T>)
      requires Valid()
      modifies this`root
      ensures Valid()
      ensures old(root).None? ==> element == None && root == None
      ensures old(root).Some? ==>
                && element == Some(old(root).value.element) && root == PairsMerged(higher, old(root).value.children)
                && Held() == old(Held()) - {old(root).value.id}
    {
      hide PairsMerged, AllProper, AllEntries, Proper, Entries;
      element := None;
      if root.Some? {
        var node := root.value;
        element := Some(node.element);
        RootGone(higher, node);
        root := MergePairs(higher, node.children);
        assert IsHeap(root);
        assert Held() == old(Held()) - {node.id};
      }
    }

    method DeleteNode(higher: Comparator<T>, id: nat)
      requires Valid() && id in Held()
      modifies this`root
      ensures Valid() && root == Deleted(higher, old(root).value, id) && Held() == old(Held()) - {id}
    {
      hide Meld, DropIn, FindIn, Proper, Entries, NodeIn;
      DeletedHolds(higher, root.value, id);
      if root.value.id == id {
        root := MergePairs(higher, root.value.children);
      } else {
        var node := NodeIn(root.value, id);
        var rest := root.value.(children := DropIn(root.value.children, id));
        var below := MergePairs(higher, node.children);
        root := Meld(higher, Some(rest), below);
      }
    }

    /** Moves a node up whose priority has risen. */
    method IncreasePriority(higher: Comparator<T>, id: nat)
      requires Valid() && id in Held()
      modifies this`root
      ensures Valid() && root == Some(Raised(higher, old(root).value, id)) && Held() == old(Held())
    {
      hide DropIn, FindIn, FirstBelow, MeldNodes, Proper, Entries, NodeIn;
      RaisedHolds(higher, root.value, id);
      if root.value.id == id || FirstBelow(higher, root.value, id) {
        return;
      }
      var node := NodeIn(root.value, id);
      root := Meld(higher, Some(root.value.(children := DropIn(root.value.children, id))), Some(node));
    }

    /** Puts a node in its place whose priority has fallen. */
    method DecreasePriority(higher: Comparator<T>, id: nat)
      requires Valid() && id in Held()
      modifies this`root
      ensures Valid() && root == Lowered(higher, old(root).value, id) && Held() == old(Held())
    {
      hide DropIn, FindIn, Deleted, Meld, Proper, Entries, NodeIn;
      LoweredHolds(higher, root.value, id);
      var element := NodeIn(root.value, id).element;
      DeleteNode(higher, id);
      root := Meld(higher, root, Some(Node(id, element, [])));
    }
  }

  lemma RootGone<T>(higher: Comparator<T>, n: Node<T>)
    requires Proper(n)
    ensures IsHeap(PairsMerged(higher, n.children)) && HeapEntries(PairsMerged(higher, n.children)) == Entries(n) - {n.id}
  {
    MergeHolds(higher, n.children);
  }

  lemma SingleIsHeap<T>(n: Node<T>)
    requires Proper(n)
    ensures IsHeap(Some(n)) && HeapEntries(Some(n)) == Entries(n)
  {
  }
}
