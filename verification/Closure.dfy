/** Ancestor and descendant sets of an acyclic relation, kept beside the relation itself. */
module Closure {
  import opened SetSize

  /** One set of relatives per node. */
  type Sets<T> = map<T, set<T>>

  /** Children are the inverse of parents, and parents come lower in `rank`. */
  ghost predicate Related<T>(nodes: set<T>, parents: Sets<T>, children: Sets<T>, rank: map<T, int>) {
    && parents.Keys == nodes && children.Keys == nodes && rank.Keys == nodes
    && (forall t | t in nodes :: parents[t] <= nodes && children[t] <= nodes)
    && (forall p, c | p in nodes && c in nodes :: p in parents[c] <==> c in children[p])
    && (forall p, c | c in nodes && p in parents[c] :: p in nodes && rank[p] < rank[c])
  }

  ghost predicate ByParent<T>(parents: Sets<T>, ancestors: Sets<T>, t: T, a: T)
    requires t in parents && forall p | p in parents[t] :: p in ancestors
  {
    a == t || exists p | p in parents[t] :: a in ancestors[p]
  }

  /** A transaction's ancestors are itself and its parents' ancestors; descendants are the inverse. */
  ghost predicate Closed<T>(nodes: set<T>, parents: Sets<T>, ancestors: Sets<T>, descendants: Sets<T>) {
    && parents.Keys == nodes && ancestors.Keys == nodes && descendants.Keys == nodes
    && (forall t | t in nodes :: parents[t] <= nodes && ancestors[t] <= nodes && descendants[t] <= nodes)
    && (forall t, a | t in nodes && a in nodes :: a in ancestors[t] <==> ByParent(parents, ancestors, t, a))
    && (forall t, a | t in nodes && a in nodes :: a in ancestors[t] <==> t in descendants[a])
  }

  lemma ByParentHas<T>(parents: Sets<T>, ancestors: Sets<T>, t: T, a: T) returns (p: T)
    requires t in parents && forall p | p in parents[t] :: p in ancestors
    requires ByParent(parents, ancestors, t, a) && a != t
    ensures p in parents[t] && a in ancestors[p]
  {
    p :| p in parents[t] && a in ancestors[p];
  }

  lemma ByParentOf<T>(parents: Sets<T>, ancestors: Sets<T>, t: T, p: T, a: T)
    requires t in parents && forall p | p in parents[t] :: p in ancestors
    requires a == t || (p in parents[t] && a in ancestors[p])
    ensures ByParent(parents, ancestors, t, a)
  {
  }

  /** Another ancestor comes from some parent. */
  lemma UpOne<T>(nodes: set<T>, parents: Sets<T>, ancestors: Sets<T>, descendants: Sets<T>, t: T, a: T) returns (p: T)
    requires Closed(nodes, parents, ancestors, descendants) && t in nodes && a in ancestors[t] && a != t
    ensures p in nodes && p in parents[t] && a in ancestors[p]
  {
    hide ByParent;
    assert ByParent(parents, ancestors, t, a);
    p := ByParentHas(parents, ancestors, t, a);
  }

  /** A parent's ancestors, and the transaction itself, are ancestors. */
  lemma DownOne<T>(nodes: set<T>, parents: Sets<T>, ancestors: Sets<T>, descendants: Sets<T>, t: T, p: T, a: T)
    requires Closed(nodes, parents, ancestors, descendants) && t in nodes
    requires a == t || (p in parents[t] && a in ancestors[p])
    ensures a in ancestors[t]
  {
    hide ByParent;
    ByParentOf(parents, ancestors, t, p, a);
  }

  // ---------- the sets are the reflexive-transitive closure

  /** `a` leads to `t` over n parent links. */
  ghost predicate Leads<T>(parents: Sets<T>, n: nat, a: T, t: T) {
    if n == 0 then a == t else t in parents && exists p | p in parents[t] :: Leads(parents, n - 1, a, p)
  }

  lemma {:induction false} LeadsIsAncestor<T>(nodes: set<T>, parents: Sets<T>, ancestors: Sets<T>, descendants: Sets<T>, n: nat, a: T, t: T)
    requires Closed(nodes, parents, ancestors, descendants) && t in nodes && Leads(parents, n, a, t)
    ensures a in ancestors[t]
  {
    hide ByParent;
    if n == 0 {
      DownOne(nodes, parents, ancestors, descendants, t, t, t);
    } else {
      var p :| p in parents[t] && Leads(parents, n - 1, a, p);
      LeadsIsAncestor(nodes, parents, ancestors, descendants, n - 1, a, p);
      DownOne(nodes, parents, ancestors, descendants, t, p, a);
    }
  }

  lemma {:induction false} AncestorLeads<T>(nodes: set<T>, parents: Sets<T>, children: Sets<T>, ancestors: Sets<T>, descendants: Sets<T>,
                                            rank: map<T, int>, low: int, a: T, t: T) returns (n: nat)
    requires Related(nodes, parents, children, rank) && Closed(nodes, parents, ancestors, descendants)
    requires t in nodes && a in ancestors[t] && forall x | x in nodes :: low <= rank[x]
    ensures Leads(parents, n, a, t)
    decreases rank[t] - low
  {
    hide ByParent;
    if a == t {
      n := 0;
    } else {
      var p := UpOne(nodes, parents, ancestors, descendants, t, a);
      var m := AncestorLeads(nodes, parents, children, ancestors, descendants, rank, low, a, p);
      n := m + 1;
    }
  }

  /** Ancestors are exactly what leads to a transaction over parent links. */
  lemma AncestorsAreReachable<T>(nodes: set<T>, parents: Sets<T>, children: Sets<T>, ancestors: Sets<T>, descendants: Sets<T>,
                                 rank: map<T, int>, a: T, t: T)
    requires Related(nodes, parents, children, rank) && Closed(nodes, parents, ancestors, descendants)
    requires t in nodes
    ensures a in ancestors[t] <==> exists n: nat :: Leads(parents, n, a, t)
  {
    hide ByParent;
    if a in ancestors[t] {
      var low := Lowest(nodes, rank);
      var n := AncestorLeads(nodes, parents, children, ancestors, descendants, rank, low, a, t);
    }
    if n: nat :| Leads(parents, n, a, t) {
      LeadsIsAncestor(nodes, parents, ancestors, descendants, n, a, t);
    }
  }

  lemma {:induction false} Lowest<T>(nodes: set<T>, rank: map<T, int>) returns (low: int)
    requires nodes <= rank.Keys
    ensures forall x | x in nodes :: low <= rank[x]
    decreases nodes
  {
    low := 0;
    if t :| t in nodes {
      low := Lowest(nodes - {t}, rank);
      if rank[t] < low {
        low := rank[t];
      }
    }
  }

  // ---------- consequences

  lemma SelfAncestor<T>(nodes: set<T>, parents: Sets<T>, ancestors: Sets<T>, descendants: Sets<T>, t: T)
    requires Closed(nodes, parents, ancestors, descendants) && t in nodes
    ensures t in ancestors[t] && t in descendants[t]
  {
    hide ByParent;
    DownOne(nodes, parents, ancestors, descendants, t, t, t);
  }

  lemma ParentAncestors<T>(nodes: set<T>, parents: Sets<T>, ancestors: Sets<T>, descendants: Sets<T>, p: T, t: T)
    requires Closed(nodes, parents, ancestors, descendants) && t in nodes && p in parents[t]
    ensures ancestors[p] <= ancestors[t]
  {
    hide ByParent;
    forall a | a in ancestors[p] ensures a in ancestors[t] {
      DownOne(nodes, parents, ancestors, descendants, t, p, a);
    }
  }

  lemma {:induction false} AncestorRank<T>(nodes: set<T>, parents: Sets<T>, children: Sets<T>, ancestors: Sets<T>, descendants: Sets<T>,
                                           rank: map<T, int>, low: int, a: T, t: T)
    requires Related(nodes, parents, children, rank) && Closed(nodes, parents, ancestors, descendants)
    requires t in nodes && a in ancestors[t] && forall x | x in nodes :: low <= rank[x]
    ensures a == t || rank[a] < rank[t]
    decreases rank[t] - low
  {
    hide ByParent;
    if a != t {
      var p := UpOne(nodes, parents, ancestors, descendants, t, a);
      AncestorRank(nodes, parents, children, ancestors, descendants, rank, low, a, p);
    }
  }

  /** Along a parent link the ancestor set strictly grows. */
  lemma AncestorsGrow<T>(nodes: set<T>, parents: Sets<T>, children: Sets<T>, ancestors: Sets<T>, descendants: Sets<T>,
                         rank: map<T, int>, p: T, t: T)
    requires Related(nodes, parents, children, rank) && Closed(nodes, parents, ancestors, descendants)
    requires t in nodes && p in parents[t]
    ensures ancestors[p] <= ancestors[t] && t in ancestors[t] && t !in ancestors[p]
  {
    hide ByParent;
    ParentAncestors(nodes, parents, ancestors, descendants, p, t);
    SelfAncestor(nodes, parents, ancestors, descendants, t);
    var low := Lowest(nodes, rank);
    if t in ancestors[p] {
      AncestorRank(nodes, parents, children, ancestors, descendants, rank, low, t, p);
    }
  }

  // ---------- adding a link

  function WithLink<T>(m: Sets<T>, from: T, to: T): Sets<T>
    requires from in m
  {
    m[from := m[from] + {to}]
  }

  /** `extra` joins the sets of `at`. */
  function Spread<T>(m: Sets<T>, at: set<T>, extra: set<T>): Sets<T> {
    map t | t in m :: if t in at then m[t] + extra else m[t]
  }

  /** A rank for the relation with one more link that closes no cycle. */
  ghost function Shifted<T>(rank: map<T, int>, below: set<T>, step: int): map<T, int> {
    map t | t in rank :: if t in below then rank[t] + step else rank[t]
  }

  lemma LinkRelated<T>(nodes: set<T>, parents: Sets<T>, children: Sets<T>, ancestors: Sets<T>, descendants: Sets<T>,
                       rank: map<T, int>, parent: T, child: T) returns (rank': map<T, int>)
    requires Related(nodes, parents, children, rank) && Closed(nodes, parents, ancestors, descendants)
    requires parent in nodes && child in nodes && child !in ancestors[parent]
    ensures Related(nodes, WithLink(parents, child, parent), WithLink(children, parent, child), rank')
  {
    hide ByParent;
    var below := descendants[child];
    SelfAncestor(nodes, parents, ancestors, descendants, child);
    forall p, c | c in nodes && p in parents[c] && p in below ensures c in below {
      ParentAncestors(nodes, parents, ancestors, descendants, p, c);
    }
    assert parent !in below;
    hide Closed;
    ShiftRelated(nodes, parents, children, rank, below, parent, child);
    rank' := Shifted(rank, below, if rank[parent] < rank[child] then 0 else rank[parent] - rank[child] + 1);
  }

  lemma ShiftRelated<T>(nodes: set<T>, parents: Sets<T>, children: Sets<T>, rank: map<T, int>, below: set<T>, parent: T, child: T)
    requires Related(nodes, parents, children, rank)
    requires parent in nodes && child in nodes && child in below && parent !in below
    requires forall p, c | c in nodes && p in parents[c] && p in below :: c in below
    ensures Related(nodes, WithLink(parents, child, parent), WithLink(children, parent, child),
                    Shifted(rank, below, if rank[parent] < rank[child] then 0 else rank[parent] - rank[child] + 1))
  {
    LinkMirrored(nodes, parents, children, rank, parent, child);
    var step := if rank[parent] < rank[child] then 0 else rank[parent] - rank[child] + 1;
    ShiftedRanks(nodes, parents, children, rank, below, parent, child, step);
  }

  lemma ShiftedRanks<T>(nodes: set<T>, parents: Sets<T>, children: Sets<T>, rank: map<T, int>, below: set<T>, parent: T, child: T, step: int)
    requires Related(nodes, parents, children, rank)
    requires parent in nodes && child in nodes && child in below && parent !in below && 0 <= step && rank[parent] < rank[child] + step
    requires forall p, c | c in nodes && p in parents[c] && p in below :: c in below
    ensures Shifted(rank, below, step).Keys == nodes
    ensures forall p, c | c in nodes && (p in parents[c] || (p == parent && c == child)) ::
              p in nodes && Shifted(rank, below, step)[p] < Shifted(rank, below, step)[c]
  {
  }

  lemma LinkMirrored<T>(nodes: set<T>, parents: Sets<T>, children: Sets<T>, rank: map<T, int>, parent: T, child: T)
    requires Related(nodes, parents, children, rank) && parent in nodes && child in nodes
    ensures var parents', children' := WithLink(parents, child, parent), WithLink(children, parent, child);
            && parents'.Keys == nodes && children'.Keys == nodes
            && (forall t | t in nodes :: parents'[t] <= nodes && children'[t] <= nodes)
            && (forall p, c | p in nodes && c in nodes :: p in parents'[c] <==> c in children'[p])
            && (forall p, c | c in nodes && p in parents'[c] :: p in parents[c] || (p == parent && c == child))
  {
  }

  lemma LinkClosed<T>(nodes: set<T>, parents: Sets<T>, children: Sets<T>, ancestors: Sets<T>, descendants: Sets<T>,
                      rank: map<T, int>, parent: T, child: T)
    requires Related(nodes, parents, children, rank) && Closed(nodes, parents, ancestors, descendants)
    requires parent in nodes && child in nodes && child !in ancestors[parent]
    ensures Closed(nodes, WithLink(parents, child, parent),
                   Spread(ancestors, descendants[child], ancestors[parent]),
                   Spread(descendants, ancestors[parent], descendants[child]))
  {
    hide ByParent, Closed, Spread, Related;
    ClosedParts(nodes, parents, ancestors, descendants);
    var parents' := WithLink(parents, child, parent);
    var ancestors' := Spread(ancestors, descendants[child], ancestors[parent]);
    var descendants' := Spread(descendants, ancestors[parent], descendants[child]);
    LinkInverse(nodes, ancestors, descendants, parent, child);
    forall t, a | t in nodes && a in nodes ensures a in ancestors'[t] <==> ByParent(parents', ancestors', t, a) {
      LinkByParent(nodes, parents, children, ancestors, descendants, rank, parent, child, t, a);
    }
    MakeClosed(nodes, parents', ancestors', descendants');
  }

  lemma ClosedParts<T>(nodes: set<T>, parents: Sets<T>, ancestors: Sets<T>, descendants: Sets<T>)
    requires Closed(nodes, parents, ancestors, descendants)
    ensures parents.Keys == nodes && ancestors.Keys == nodes && descendants.Keys == nodes
    ensures forall t | t in nodes :: parents[t] <= nodes && ancestors[t] <= nodes && descendants[t] <= nodes
    ensures forall t, a | t in nodes && a in nodes :: a in ancestors[t] <==> t in descendants[a]
  {
  }

  lemma MakeClosed<T>(nodes: set<T>, parents: Sets<T>, ancestors: Sets<T>, descendants: Sets<T>)
    requires parents.Keys == nodes && ancestors.Keys == nodes && descendants.Keys == nodes
    requires forall t | t in nodes :: parents[t] <= nodes && ancestors[t] <= nodes && descendants[t] <= nodes
    requires forall t, a | t in nodes && a in nodes :: a in ancestors[t] <==> ByParent(parents, ancestors, t, a)
    requires forall t, a | t in nodes && a in nodes :: a in ancestors[t] <==> t in descendants[a]
    ensures Closed(nodes, parents, ancestors, descendants)
  {
  }

  lemma LinkInverse<T>(nodes: set<T>, ancestors: Sets<T>, descendants: Sets<T>, parent: T, child: T)
    requires ancestors.Keys == nodes && descendants.Keys == nodes && parent in nodes && child in nodes
    requires forall t | t in nodes :: ancestors[t] <= nodes && descendants[t] <= nodes
    requires forall t, a | t in nodes && a in nodes :: a in ancestors[t] <==> t in descendants[a]
    ensures var up := Spread(ancestors, descendants[child], ancestors[parent]);
            var down := Spread(descendants, ancestors[parent], descendants[child]);
            && up.Keys == nodes && down.Keys == nodes
            && (forall t | t in nodes :: up[t] <= nodes && down[t] <= nodes)
            && (forall t, a | t in nodes && a in nodes :: a in up[t] <==> t in down[a])
  {
  }

  lemma LinkByParent<T>(nodes: set<T>, parents: Sets<T>, children: Sets<T>, ancestors: Sets<T>, descendants: Sets<T>,
                        rank: map<T, int>, parent: T, child: T, t: T, a: T)
    requires Related(nodes, parents, children, rank) && Closed(nodes, parents, ancestors, descendants)
    requires parent in nodes && child in nodes && child !in ancestors[parent] && t in nodes && a in nodes
    ensures a in Spread(ancestors, descendants[child], ancestors[parent])[t] <==>
            ByParent(WithLink(parents, child, parent), Spread(ancestors, descendants[child], ancestors[parent]), t, a)
  {
    hide ByParent;
    var ancestors' := Spread(ancestors, descendants[child], ancestors[parent]);
    var parents' := WithLink(parents, child, parent);
    SelfAncestor(nodes, parents, ancestors, descendants, child);
    if a == t {
      SelfAncestor(nodes, parents, ancestors, descendants, t);
      ByParentOf(parents', ancestors', t, t, t);
    } else {
      if ByParent(parents', ancestors', t, a) {
        var p := ByParentHas(parents', ancestors', t, a);
        if p in parents[t] {
          ParentAncestors(nodes, parents, ancestors, descendants, p, t);
        }
      }
      if a in ancestors'[t] {
        var p := parent;
        if a in ancestors[t] {
          p := UpOne(nodes, parents, ancestors, descendants, t, a);
        } else if t != child {
          p := UpOne(nodes, parents, ancestors, descendants, t, child);
        }
        ByParentOf(parents', ancestors', t, p, a);
      }
    }
  }

  /** Linking to an ancestor that is already known changes no closure. */
  lemma KnownLinkClosed<T>(nodes: set<T>, parents: Sets<T>, ancestors: Sets<T>, descendants: Sets<T>, parent: T, child: T)
    requires Closed(nodes, parents, ancestors, descendants)
    requires parent in nodes && child in nodes && parent in ancestors[child]
    requires forall a | a in ancestors[parent] :: a in ancestors[child]
    ensures Closed(nodes, WithLink(parents, child, parent), ancestors, descendants)
  {
    var parents' := WithLink(parents, child, parent);
    hide ByParent;
    forall t, a | t in nodes && a in nodes ensures a in ancestors[t] <==> ByParent(parents', ancestors, t, a) {
      if a != t && ByParent(parents', ancestors, t, a) {
        var p := ByParentHas(parents', ancestors, t, a);
        if p in parents[t] {
          DownOne(nodes, parents, ancestors, descendants, t, p, a);
        }
      }
      if a in ancestors[t] && a != t {
        var p := UpOne(nodes, parents, ancestors, descendants, t, a);
        ByParentOf(parents', ancestors, t, p, a);
      }
      if a == t {
        ByParentOf(parents', ancestors, t, t, t);
        DownOne(nodes, parents, ancestors, descendants, t, t, t);
      }
    }
  }

  lemma {:induction false} AncestorTrans<T>(nodes: set<T>, parents: Sets<T>, children: Sets<T>, ancestors: Sets<T>, descendants: Sets<T>,
                                            rank: map<T, int>, low: int, a: T, b: T, t: T)
    requires Related(nodes, parents, children, rank) && Closed(nodes, parents, ancestors, descendants)
    requires t in nodes && b in ancestors[t] && a in ancestors[b] && forall x | x in nodes :: low <= rank[x]
    ensures a in ancestors[t]
    decreases rank[t] - low
  {
    hide ByParent;
    if b != t {
      var p := UpOne(nodes, parents, ancestors, descendants, t, b);
      AncestorTrans(nodes, parents, children, ancestors, descendants, rank, low, a, b, p);
      DownOne(nodes, parents, ancestors, descendants, t, p, a);
    }
  }

  // ---------- removing nodes

  function Without<T>(m: Sets<T>, removed: set<T>): Sets<T> {
    map t | t in m && t !in removed :: m[t] - removed
  }

  lemma WithoutRelated<T>(nodes: set<T>, parents: Sets<T>, children: Sets<T>, rank: map<T, int>, removed: set<T>)
    requires Related(nodes, parents, children, rank)
    ensures Related(nodes - removed, Without(parents, removed), Without(children, removed), rank - removed)
  {
  }

  /** The number of ancestors grows along every link. */
  ghost predicate CountsUp<T>(nodes: set<T>, parents: Sets<T>, ancestors: Sets<T>) {
    forall t, p | t in nodes && t in parents && p in parents[t] && t in ancestors && p in ancestors :: |ancestors[p]| < |ancestors[t]|
  }

  /** After the removal the number of remaining ancestors still grows along every link. */
  lemma RemovalCountsUp<T>(nodes: set<T>, parents: Sets<T>, children: Sets<T>, ancestors: Sets<T>, descendants: Sets<T>,
                           rank: map<T, int>, removed: set<T>)
    requires Related(nodes, parents, children, rank) && Closed(nodes, parents, ancestors, descendants)
    ensures CountsUp(nodes - removed, Without(parents, removed), Without(ancestors, removed))
  {
    hide ByParent;
    var parents', ancestors' := Without(parents, removed), Without(ancestors, removed);
    forall t, p | t in nodes - removed && p in parents'[t] && p in ancestors'
      ensures |ancestors'[p]| < |ancestors'[t]|
    {
      AncestorsGrow(nodes, parents, children, ancestors, descendants, rank, p, t);
      assert t in ancestors'[t] && t !in ancestors'[p];
      SmallerSet(ancestors'[p], ancestors'[t]);
    }
  }

  // ---------- deriving the closure again

  /** The nodes `done` have their final sets, all others only themselves. */
  ghost predicate Rebuilt<T>(nodes: set<T>, parents: Sets<T>, ancestors: Sets<T>, descendants: Sets<T>, done: set<T>) {
    && parents.Keys == nodes && ancestors.Keys == nodes && descendants.Keys == nodes && done <= nodes
    && (forall t | t in nodes :: parents[t] <= nodes && ancestors[t] <= nodes && descendants[t] <= nodes)
    && (forall t | t in done :: parents[t] <= done)
    && (forall t, a | t in done && a in nodes :: a in ancestors[t] <==> ByParent(parents, ancestors, t, a))
    && (forall t | t in nodes - done :: ancestors[t] == {t})
    && (forall t, a | t in nodes && a in nodes :: a in ancestors[t] <==> t in descendants[a])
  }

  lemma RebuiltAll<T>(nodes: set<T>, parents: Sets<T>, ancestors: Sets<T>, descendants: Sets<T>)
    requires Rebuilt(nodes, parents, ancestors, descendants, nodes)
    ensures Closed(nodes, parents, ancestors, descendants)
  {
    hide ByParent;
  }

  lemma RebuiltStart<T>(nodes: set<T>, parents: Sets<T>, ancestors: Sets<T>, descendants: Sets<T>)
    requires parents.Keys == nodes && ancestors.Keys == nodes && descendants.Keys == nodes
    requires forall t | t in nodes :: parents[t] <= nodes && ancestors[t] == {t} && descendants[t] == {t}
    ensures Rebuilt(nodes, parents, ancestors, descendants, {})
  {
  }

  lemma RebuiltStep<T>(nodes: set<T>, parents: Sets<T>, ancestors: Sets<T>, descendants: Sets<T>, done: set<T>, t: T, all: set<T>)
    requires Rebuilt(nodes, parents, ancestors, descendants, done)
    requires t in nodes && t !in done && parents[t] <= done && all <= nodes
    requires t in all && forall a | a in nodes :: a in all <==> ByParent(parents, ancestors, t, a)
    ensures Rebuilt(nodes, parents, ancestors[t := all], Spread(descendants, all, {t}), done + {t})
  {
    hide ByParent;
    var ancestors' := ancestors[t := all];
    forall u, a | u in done + {t} && a in nodes ensures a in ancestors'[u] <==> ByParent(parents, ancestors', u, a) {
      SameByParent(parents, ancestors, ancestors', u, a);
    }
  }

  lemma SameByParent<T>(parents: Sets<T>, ancestors: Sets<T>, ancestors': Sets<T>, t: T, a: T)
    requires t in parents && forall p | p in parents[t] :: p in ancestors && p in ancestors' && ancestors[p] == ancestors'[p]
    ensures ByParent(parents, ancestors, t, a) <==> ByParent(parents, ancestors', t, a)
  {
  }

  // ---------- links as edges

  ghost function Links<T>(parents: Sets<T>): set<(T, T)> {
    set c, p | c in parents && p in parents[c] :: (p, c)
  }

  /** A set that no link crosses is closed under ancestors and descendants. */
  lemma {:induction false} UncrossedHasAncestors<T>(nodes: set<T>, parents: Sets<T>, children: Sets<T>, ancestors: Sets<T>, descendants: Sets<T>,
                                                    rank: map<T, int>, low: int, s: set<T>, a: T, t: T)
    requires Related(nodes, parents, children, rank) && Closed(nodes, parents, ancestors, descendants)
    requires forall c, p | c in nodes && p in parents[c] :: p in s <==> c in s
    requires t in nodes && a in ancestors[t] && forall x | x in nodes :: low <= rank[x]
    ensures a in s <==> t in s
    decreases rank[t] - low
  {
    hide ByParent;
    if a != t {
      var p := UpOne(nodes, parents, ancestors, descendants, t, a);
      UncrossedHasAncestors(nodes, parents, children, ancestors, descendants, rank, low, s, a, p);
    }
  }

  /** No link leads out of the set or into it. */
  ghost predicate Uncrossed<T>(nodes: set<T>, parents: Sets<T>, s: set<T>) {
    forall c, p | c in nodes && c in parents && p in parents[c] :: p in s <==> c in s
  }

  /** A depth-first search over ancestors and descendants, started after `before` was visited. */
  ghost predicate Searching<T>(nodes: set<T>, parents: Sets<T>, ancestors: Sets<T>, descendants: Sets<T>,
                               start: T, before: set<T>, component: set<T>, stack: seq<T>) {
    && start in nodes && component <= nodes && component !! before
    && (start in component || start in stack)
    && (forall t | t in stack :: t in nodes)
    && (forall t | t in component && t in ancestors && t in descendants ::
          forall x | x in ancestors[t] + descendants[t] :: x in before || x in component || x in stack)
    && (forall u: set<T> | start in u && u <= nodes && Uncrossed(nodes, parents, u) ::
          component <= u && forall t | t in stack :: t in u)
  }

  lemma SearchStart<T>(nodes: set<T>, parents: Sets<T>, ancestors: Sets<T>, descendants: Sets<T>, start: T, before: set<T>)
    requires start in nodes
    ensures Searching(nodes, parents, ancestors, descendants, start, before, {}, [start])
  {
  }

  lemma SearchSkip<T>(nodes: set<T>, parents: Sets<T>, ancestors: Sets<T>, descendants: Sets<T>,
                      start: T, before: set<T>, component: set<T>, stack: seq<T>)
    requires Searching(nodes, parents, ancestors, descendants, start, before, component, stack) && stack != []
    requires stack[|stack| - 1] in before || stack[|stack| - 1] in component
    requires start !in before
    ensures Searching(nodes, parents, ancestors, descendants, start, before, component, stack[..|stack| - 1])
  {
    assert stack == stack[..|stack| - 1] + [stack[|stack| - 1]];
  }

  lemma SearchVisit<T>(nodes: set<T>, parents: Sets<T>, children: Sets<T>, ancestors: Sets<T>, descendants: Sets<T>, rank: map<T, int>,
                       start: T, before: set<T>, component: set<T>, stack: seq<T>, more: seq<T>)
    requires Related(nodes, parents, children, rank) && Closed(nodes, parents, ancestors, descendants)
    requires Searching(nodes, parents, ancestors, descendants, start, before, component, stack) && stack != []
    requires var node := stack[|stack| - 1];
             && node !in before && node !in component
             && forall x :: x in more <==> x in nodes && (x in ancestors[node] || x in descendants[node]) && x !in before && x !in component && x != node
    ensures Searching(nodes, parents, ancestors, descendants, start, before, component + {stack[|stack| - 1]}, stack[..|stack| - 1] + more)
  {
    hide ByParent;
    var node := stack[|stack| - 1];
    assert stack == stack[..|stack| - 1] + [node];
    var low := Lowest(nodes, rank);
    var stack' := stack[..|stack| - 1] + more;
    forall t | t in component + {node}
      ensures forall x | x in ancestors[t] + descendants[t] :: x in before || x in component + {node} || x in stack'
    {
    }
    forall u: set<T> | start in u && u <= nodes && Uncrossed(nodes, parents, u)
      ensures component + {node} <= u && forall t | t in stack' :: t in u
    {
      forall x | x in more ensures x in u {
        if x in ancestors[node] {
          UncrossedHasAncestors(nodes, parents, children, ancestors, descendants, rank, low, u, x, node);
        } else {
          UncrossedHasAncestors(nodes, parents, children, ancestors, descendants, rank, low, u, node, x);
        }
      }
    }
  }

  /** When the stack is empty the set found is uncrossed and the least such set around its start. */
  lemma SearchEnd<T>(nodes: set<T>, parents: Sets<T>, children: Sets<T>, ancestors: Sets<T>, descendants: Sets<T>, rank: map<T, int>,
                     start: T, before: set<T>, component: set<T>)
    requires Related(nodes, parents, children, rank) && Closed(nodes, parents, ancestors, descendants)
    requires Searching(nodes, parents, ancestors, descendants, start, before, component, [])
    requires Uncrossed(nodes, parents, before)
    ensures start in component && component <= nodes && Uncrossed(nodes, parents, component) && Uncrossed(nodes, parents, before + component)
    ensures forall u: set<T> | start in u && u <= nodes && Uncrossed(nodes, parents, u) :: component <= u
  {
    hide ByParent;
    forall c, p | c in nodes && p in parents[c] ensures p in component <==> c in component {
      ParentAncestors(nodes, parents, ancestors, descendants, p, c);
      SelfAncestor(nodes, parents, ancestors, descendants, p);
    }
  }
}
