/** The transactions of one cluster as values: amounts, spends, and orders of them. */
module Graph {
  import opened Feerate

  /** Transaction ids are only compared for equality, so they are plain numbers here. */
  type Txid = nat

  /** A dependency graph: an edge (p, c) says that c spends an output of p. */
  datatype Graph = Graph(fee: map<Txid, int>, weight: map<Txid, Weight>, order: map<Txid, nat>,
                         edges: set<(Txid, Txid)>) {
    function Nodes(): set<Txid> {
      fee.Keys
    }

    function Parents(t: Txid): set<Txid> {
      set e | e in edges && e.1 == t :: e.0
    }

    function Children(t: Txid): set<Txid> {
      set e | e in edges && e.0 == t :: e.1
    }

    ghost predicate WellFormed() {
      && weight.Keys == Nodes()
      && order.Keys == Nodes()
      && forall p, c | (p, c) in edges :: p in Nodes() && c in Nodes()
    }

    ghost predicate Acyclic() {
      exists rank :: RankedBy(edges, rank)
    }
  }

  /** Every edge goes up in `rank`. */
  ghost predicate RankedBy(edges: set<(Txid, Txid)>, rank: map<Txid, int>) {
    forall p, c | (p, c) in edges :: p in rank && c in rank && rank[p] < rank[c]
  }

  // ---------- sequences without repetition

  function Elems<T>(s: seq<T>): set<T> {
    set x | x in s
  }

  lemma Assoc(a: seq<Txid>, b: seq<Txid>, c: seq<Txid>)
    ensures (a + b) + c == a + (b + c)
  {
  }

  predicate Distinct<T(==)>(s: seq<T>) {
    forall i, j | 0 <= i < j < |s| :: s[i] != s[j]
  }

  /** No element of `s` is a parent of itself or of an earlier element. */
  ghost predicate Topological(edges: set<(Txid, Txid)>, s: seq<Txid>) {
    forall i, j | 0 <= i <= j < |s| :: (s[j], s[i]) !in edges
  }

  /** Each transaction of `nodes` exactly once, parents before children. */
  ghost predicate IsLinearization(edges: set<(Txid, Txid)>, nodes: set<Txid>, s: seq<Txid>) {
    Distinct(s) && Elems(s) == nodes && Topological(edges, s)
  }

  /** No edge leads from an element of `from` to an element of `to`. */
  ghost predicate NoEdges(edges: set<(Txid, Txid)>, from: seq<Txid>, to: seq<Txid>) {
    forall x, y | x in from && y in to :: (x, y) !in edges
  }

  lemma TopologicalConcat(edges: set<(Txid, Txid)>, s: seq<Txid>, t: seq<Txid>)
    ensures Topological(edges, s + t) <==>
            Topological(edges, s) && Topological(edges, t) && NoEdges(edges, t, s)
  {
    var u := s + t;
    if Topological(edges, u) {
      forall i, j | 0 <= i <= j < |s| ensures (s[j], s[i]) !in edges {
        assert (u[j], u[i]) !in edges;
      }
      forall i, j | 0 <= i <= j < |t| ensures (t[j], t[i]) !in edges {
        assert (u[|s| + j], u[|s| + i]) !in edges;
      }
      forall x, y | x in t && y in s ensures (x, y) !in edges {
        var j :| 0 <= j < |t| && t[j] == x;
        var i :| 0 <= i < |s| && s[i] == y;
        assert (u[|s| + j], u[i]) !in edges;
      }
    }
    if Topological(edges, s) && Topological(edges, t) && NoEdges(edges, t, s) {
      forall i, j | 0 <= i <= j < |u| ensures (u[j], u[i]) !in edges {
        if i < |s| <= j {
          assert u[j] in t && u[i] in s;
        } else if j < |s| {
          assert (s[j], s[i]) !in edges;
        } else {
          assert (t[j - |s|], t[i - |s|]) !in edges;
        }
      }
    }
  }

  lemma DistinctConcat<T>(s: seq<T>, t: seq<T>)
    ensures Distinct(s + t) <==> Distinct(s) && Distinct(t) && Elems(s) !! Elems(t)
  {
    var u := s + t;
    if Distinct(u) {
      forall i, j | 0 <= i < j < |t| ensures t[i] != t[j] {
        assert u[|s| + i] != u[|s| + j];
      }
      forall i, j | 0 <= i < |s| && 0 <= j < |t| ensures s[i] != t[j] {
        assert u[i] != u[|s| + j];
      }
      assert Distinct(s) by {
        forall i, j | 0 <= i < j < |s| ensures s[i] != s[j] {
          assert u[i] != u[j];
        }
      }
      assert Elems(s) !! Elems(t);
    }
    if Distinct(s) && Distinct(t) && Elems(s) !! Elems(t) {
      forall i, j | 0 <= i < j < |u| ensures u[i] != u[j] {
        if i < |s| <= j {
          assert u[i] in Elems(s) && u[j] in Elems(t);
        }
      }
    }
  }

  lemma ElemsConcat<T>(s: seq<T>, t: seq<T>)
    ensures Elems(s + t) == Elems(s) + Elems(t)
  {
  }

  /** The next element of a sequence without repetition is new. */
  lemma NextElem<T>(s: seq<T>, i: nat)
    requires Distinct(s) && i < |s|
    ensures s[i] in Elems(s) && s[i] !in Elems(s[..i])
    ensures Elems(s[..i + 1]) == Elems(s[..i]) + {s[i]}
  {
    assert s[..i + 1] == s[..i] + [s[i]];
  }

  function Indices(n: nat): (s: set<nat>)
    ensures forall i: nat :: i in s <==> i < n
  {
    if n == 0 then {} else Indices(n - 1) + {n - 1}
  }

  lemma IdentityElems(n: nat)
    ensures Elems(seq(n, i => i)) == Indices(n)
  {
    var s := seq(n, i => i);
    forall i | i in Indices(n) ensures i in s {
      assert s[i] == i;
    }
  }

  /** The elements of a set in some order. */
  method AnyOrder<T(==)>(s: set<T>) returns (r: seq<T>)
    ensures Distinct(r) && Elems(r) == s && |r| == |s|
  {
    r := [];
    var todo := s;
    while todo != {}
      invariant |r| + |todo| == |s|
      invariant todo <= s && Distinct(r) && Elems(r) == s - todo
      decreases todo
    {
      var x :| x in todo;
      DistinctConcat(r, [x]);
      ElemsConcat(r, [x]);
      r := r + [x];
      todo := todo - {x};
    }
  }

  // ---------- sums of fees or weights

  function At(m: map<Txid, int>, t: Txid): int {
    if t in m then m[t] else 0
  }

  function Sum(m: map<Txid, int>, s: seq<Txid>): int {
    if s == [] then 0 else At(m, s[0]) + Sum(m, s[1..])
  }

  lemma {:induction false} SumConcat(m: map<Txid, int>, s: seq<Txid>, t: seq<Txid>)
    ensures Sum(m, s + t) == Sum(m, s) + Sum(m, t)
  {
    if s == [] {
      assert s + t == t;
    } else {
      assert (s + t)[1..] == s[1..] + t;
      SumConcat(m, s[1..], t);
    }
  }

  lemma SumOne(m: map<Txid, int>, t: Txid)
    ensures Sum(m, [t]) == At(m, t)
  {
    assert [t][1..] == [];
  }

  lemma {:induction false} SumPositive(m: map<Txid, Weight>, s: seq<Txid>)
    requires Elems(s) <= m.Keys
    ensures 0 <= Sum(m, s)
    ensures s != [] ==> 0 < Sum(m, s)
  {
    if s != [] {
      assert s[0] in s;
      assert Elems(s[1..]) <= Elems(s);
      SumPositive(m, s[1..]);
    }
  }

  ghost function SumSet(m: map<Txid, int>, s: set<Txid>): int {
    if s == {} then 0 else
      var t :| t in s;
      At(m, t) + SumSet(m, s - {t})
  }

  /** The sum over a set does not depend on the element taken out first. */
  lemma {:induction false} SumSetRemove(m: map<Txid, int>, s: set<Txid>, t: Txid)
    requires t in s
    ensures SumSet(m, s) == At(m, t) + SumSet(m, s - {t})
    decreases s
  {
    var u :| u in s && SumSet(m, s) == At(m, u) + SumSet(m, s - {u});
    if u != t {
      SumSetRemove(m, s - {u}, t);
      SumSetRemove(m, s - {t}, u);
      assert s - {u} - {t} == s - {t} - {u};
    }
  }

  lemma SumSetAdd(m: map<Txid, int>, s: set<Txid>, t: Txid)
    requires t !in s
    ensures SumSet(m, s + {t}) == SumSet(m, s) + At(m, t)
  {
    SumSetRemove(m, s + {t}, t);
    assert s + {t} - {t} == s;
  }

  lemma {:induction false} SumSetUnion(m: map<Txid, int>, s: set<Txid>, t: set<Txid>)
    requires s !! t
    ensures SumSet(m, s + t) == SumSet(m, s) + SumSet(m, t)
    decreases t
  {
    if t == {} {
      assert s + t == s;
    } else {
      var u :| u in t;
      SumSetUnion(m, s, t - {u});
      assert s + t == (s + (t - {u})) + {u};
      SumSetAdd(m, s + (t - {u}), u);
      SumSetRemove(m, t, u);
    }
  }

  lemma {:induction false} SumSetPositive(m: map<Txid, Weight>, s: set<Txid>)
    requires s <= m.Keys
    ensures 0 <= SumSet(m, s)
    ensures s != {} ==> 0 < SumSet(m, s)
    decreases s
  {
    if s != {} {
      var u :| u in s;
      SumSetRemove(m, s, u);
      SumSetPositive(m, s - {u});
    }
  }

  method AddUp(m: map<Txid, int>, s: set<Txid>) returns (total: int)
    ensures total == SumSet(m, s)
  {
    total := 0;
    var todo := s;
    while todo != {}
      invariant todo <= s && total + SumSet(m, todo) == SumSet(m, s)
      decreases todo
    {
      var t :| t in todo;
      SumSetRemove(m, todo, t);
      total := total + At(m, t);
      todo := todo - {t};
    }
  }
}
