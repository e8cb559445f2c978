/** Undirected connectivity of the spend relation, by cuts. */
module Components {
  import opened Graph

  /** No edge inside `within` crosses the border of `s`. */
  ghost predicate ClosedIn<T>(edges: set<(T, T)>, within: set<T>, s: set<T>) {
    forall p, c | (p, c) in edges && p in within && c in within :: p in s <==> c in s
  }

  /** The set cannot be cut in two without cutting an edge. */
  ghost predicate Connected<T>(edges: set<(T, T)>, s: set<T>) {
    s != {} && forall u | u <= s && u != {} && ClosedIn(edges, s, u) :: u == s
  }

  ghost predicate IsComponent<T>(edges: set<(T, T)>, within: set<T>, s: set<T>) {
    s <= within && ClosedIn(edges, within, s) && Connected(edges, s)
  }

  /** Two components that share a transaction are the same. */
  lemma ComponentUnique<T>(edges: set<(T, T)>, within: set<T>, a: set<T>, b: set<T>, t: T)
    requires IsComponent(edges, within, a) && IsComponent(edges, within, b) && t in a && t in b
    ensures a == b
  {
    assert t in a * b;
    assert ClosedIn(edges, a, a * b);
    assert ClosedIn(edges, b, a * b);
  }

  /** The least closed set around a transaction is a component. */
  lemma LeastIsComponent<T>(edges: set<(T, T)>, within: set<T>, start: T, s: set<T>)
    requires start in s && s <= within && ClosedIn(edges, within, s)
    requires forall u: set<T> | start in u && u <= within && ClosedIn(edges, within, u) :: s <= u
    ensures IsComponent(edges, within, s)
  {
    forall u | u <= s && u != {} && ClosedIn(edges, s, u) ensures u == s {
      assert ClosedIn(edges, within, u);
      assert ClosedIn(edges, within, s - u);
      assert start in u || start in s - u;
    }
  }

  function Adjacent(edges: set<(Txid, Txid)>, within: set<Txid>, t: Txid): set<Txid> {
    (set e | e in edges && e.0 == t && e.1 in within :: e.1) + (set e | e in edges && e.1 == t && e.0 in within :: e.0)
  }

  lemma AdjacentEdges(edges: set<(Txid, Txid)>, within: set<Txid>, t: Txid, u: Txid)
    ensures u in Adjacent(edges, within, t) <==> u in within && ((t, u) in edges || (u, t) in edges)
  {
    if (t, u) in edges && u in within {
      var e := (t, u);
      assert e.1 in Adjacent(edges, within, t);
    }
    if (u, t) in edges && u in within {
      var e := (u, t);
      assert e.0 in Adjacent(edges, within, t);
    }
  }

  ghost predicate AdjacentTo(edges: set<(Txid, Txid)>, within: set<Txid>, from: set<Txid>, to: set<Txid>) {
    forall t | t in from :: Adjacent(edges, within, t) <= to
  }

  lemma AdjacentClosed(edges: set<(Txid, Txid)>, within: set<Txid>, s: set<Txid>)
    requires s <= within
    ensures AdjacentTo(edges, within, s, s) <==> ClosedIn(edges, within, s)
  {
    if AdjacentTo(edges, within, s, s) {
      forall p, c | (p, c) in edges && p in within && c in within ensures p in s <==> c in s {
        AdjacentEdges(edges, within, p, c);
        AdjacentEdges(edges, within, c, p);
      }
    }
    if ClosedIn(edges, within, s) {
      forall t, u | t in s && u in Adjacent(edges, within, t) ensures u in s {
        AdjacentEdges(edges, within, t, u);
      }
    }
  }

  /** Found so far: `component`, whose members outside the queue have been expanded. */
  ghost predicate Expanding(edges: set<(Txid, Txid)>, within: set<Txid>, start: Txid, queue: seq<Txid>, component: set<Txid>) {
    && start in component && component <= within && Elems(queue) <= component
    && AdjacentTo(edges, within, component - Elems(queue), component)
    && forall u: set<Txid> | start in u && u <= within && AdjacentTo(edges, within, u, u) :: component <= u
  }

  lemma SearchStep(edges: set<(Txid, Txid)>, within: set<Txid>, start: Txid, queue: seq<Txid>, component: set<Txid>, more: seq<Txid>)
    requires queue != [] && Expanding(edges, within, start, queue, component)
    requires Elems(more) == Adjacent(edges, within, queue[0]) - component
    ensures Expanding(edges, within, start, queue[1..] + more, component + Elems(more))
  {
    var node := queue[0];
    assert node in Elems(queue);
    assert queue == [node] + queue[1..];
    ElemsConcat([node], queue[1..]);
    ElemsConcat(queue[1..], more);
    AdjacentInside(edges, within, node);
    hide Adjacent;
  }

  lemma AdjacentInside(edges: set<(Txid, Txid)>, within: set<Txid>, t: Txid)
    ensures Adjacent(edges, within, t) <= within
  {
  }

  lemma SearchDone(edges: set<(Txid, Txid)>, within: set<Txid>, start: Txid, component: set<Txid>)
    requires Expanding(edges, within, start, [], component)
    ensures IsComponent(edges, within, component)
  {
    hide Adjacent;
    assert component - Elems<Txid>([]) == component;
    AdjacentClosed(edges, within, component);
    forall u: set<Txid> | start in u && u <= within && ClosedIn(edges, within, u) ensures component <= u {
      AdjacentClosed(edges, within, u);
    }
    LeastIsComponent(edges, within, start, component);
  }

  /** Searches outwards over parents and children. */
  method ComponentOf(edges: set<(Txid, Txid)>, within: set<Txid>, start: Txid) returns (component: set<Txid>)
    requires start in within
    ensures start in component && IsComponent(edges, within, component)
  {
    component := {start};
    var queue := [start];
    assert component - Elems(queue) == {};
    while queue != []
      invariant Expanding(edges, within, start, queue, component)
      decreases within - component, |queue|
    {
      var next := Adjacent(edges, within, queue[0]) - component;
      var more := AnyOrder(next);
      SearchStep(edges, within, start, queue, component, more);
      if next == {} {
        assert more == [] && component + next == component;
      }
      queue := queue[1..] + more;
      component := component + next;
    }
    SearchDone(edges, within, start, component);
  }

  /** Pairwise disjoint components that cover `within`. */
  ghost predicate AreComponents<T>(edges: set<(T, T)>, within: set<T>, comps: seq<set<T>>) {
    && (forall i | 0 <= i < |comps| :: IsComponent(edges, within, comps[i]))
    && (forall i, j | 0 <= i < j < |comps| :: comps[i] !! comps[j])
    && Covers(within, comps)
  }

  ghost predicate Covers<T>(within: set<T>, comps: seq<set<T>>) {
    forall t | t in within :: exists i | 0 <= i < |comps| :: t in comps[i]
  }

  /** Components found so far, which together make up `visited`. */
  ghost predicate Found<T>(edges: set<(T, T)>, within: set<T>, comps: seq<set<T>>, visited: set<T>) {
    && (forall i | 0 <= i < |comps| :: IsComponent(edges, within, comps[i]) && comps[i] <= visited)
    && (forall i, j | 0 <= i < j < |comps| :: comps[i] !! comps[j])
    && Covers(visited, comps)
  }

  lemma FoundNext<T>(edges: set<(T, T)>, within: set<T>, comps: seq<set<T>>, visited: set<T>, component: set<T>, t: T)
    requires Found(edges, within, comps, visited)
    requires IsComponent(edges, within, component) && t in component && t !in visited
    ensures Found(edges, within, comps + [component], visited + component)
  {
    forall i | 0 <= i < |comps| ensures comps[i] !! component {
      if u :| u in comps[i] && u in component {
        ComponentUnique(edges, within, comps[i], component, u);
      }
    }
    hide IsComponent;
    var after := comps + [component];
    forall u | u in visited + component ensures exists i | 0 <= i < |after| :: u in after[i] {
      if u in visited {
        var i :| 0 <= i < |comps| && u in comps[i];
        assert u in after[i];
      } else {
        assert u in after[|comps|];
      }
    }
  }

  /** The components, in the order of their first transactions in `list`. */
  method FindComponents(edges: set<(Txid, Txid)>, list: seq<Txid>) returns (comps: seq<set<Txid>>)
    ensures AreComponents(edges, Elems(list), comps)
  {
    hide IsComponent;
    comps := [];
    var visited: set<Txid> := {};
    for n := 0 to |list|
      invariant Found(edges, Elems(list), comps, visited)
      invariant Elems(list[..n]) <= visited
    {
      assert list[..n + 1] == list[..n] + [list[n]];
      if list[n] !in visited {
        assert list[n] in Elems(list);
        var component := ComponentOf(edges, Elems(list), list[n]);
        FoundNext(edges, Elems(list), comps, visited, component, list[n]);
        comps := comps + [component];
        visited := visited + component;
      }
    }
    assert list[..|list|] == list;
  }
}
