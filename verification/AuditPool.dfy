/** Ancestor sets and ancestor totals of candidate transactions, kept while packages are placed. */
module AuditPool {
  import opened Feerate
  import opened Graph

  /** The fixed data of the candidates. Fees include deltas; `size` is what rates are measured by. */
  datatype Candidates = Candidates(fee: map<Txid, int>, size: map<Txid, Weight>, weight: map<Txid, int>, sigops: map<Txid, int>,
                                   order: map<Txid, nat>, inputs: map<Txid, seq<Txid>>) {
    function Keys(): set<Txid> {
      fee.Keys
    }

    /** The spent transactions that are candidates too. */
    function Parents(x: Txid): set<Txid> {
      if x in inputs then set p | p in inputs[x] && p in fee else {}
    }

    ghost predicate WellFormed() {
      size.Keys == weight.Keys == sigops.Keys == order.Keys == inputs.Keys == fee.Keys
    }

    /** Spends go up in `rank`: there are no cycles. */
    ghost predicate Ranked(rank: map<Txid, nat>) {
      rank.Keys == fee.Keys && forall x, p | x in fee && p in Parents(x) :: rank[p] < rank[x]
    }
  }

  type Relatives = map<Txid, set<Txid>>

  function Of(m: Relatives, x: Txid): set<Txid> {
    if x in m then m[x] else {}
  }

  // ---------- ancestors

  /** Every ancestor is a parent or an ancestor of one, and the other way round. */
  ghost predicate Ancestry(c: Candidates, anc: Relatives) {
    && anc.Keys == c.Keys()
    && forall x, a | x in c.Keys() :: a in anc[x] <==> AboveParents(c, anc, x, a)
  }

  ghost predicate AboveParents(c: Candidates, anc: Relatives, x: Txid, a: Txid) {
    a in c.Parents(x) || exists p | p in c.Parents(x) :: a in Of(anc, p)
  }

  /** `a` is reached from `x` over n + 1 spends. */
  ghost predicate Leads(c: Candidates, n: nat, a: Txid, x: Txid) {
    if n == 0 then a in c.Parents(x) else exists p | p in c.Parents(x) :: Leads(c, n - 1, a, p)
  }

  lemma UpOne(c: Candidates, anc: Relatives, x: Txid, a: Txid) returns (p: Txid)
    requires Ancestry(c, anc) && x in c.Keys() && a in anc[x]
    ensures p in c.Parents(x) && p in c.Keys() && (a == p || a in anc[p])
  {
    assert AboveParents(c, anc, x, a);
    if a in c.Parents(x) {
      p := a;
    } else {
      p :| p in c.Parents(x) && a in Of(anc, p);
    }
  }

  lemma DownOne(c: Candidates, anc: Relatives, x: Txid, p: Txid, a: Txid)
    requires Ancestry(c, anc) && x in c.Keys() && p in c.Parents(x) && (a == p || a in Of(anc, p))
    ensures a in anc[x]
  {
    assert AboveParents(c, anc, x, a);
  }

  lemma {:induction false} LeadsIsAncestor(c: Candidates, anc: Relatives, n: nat, a: Txid, x: Txid)
    requires Ancestry(c, anc) && x in c.Keys() && Leads(c, n, a, x)
    ensures x in anc && a in anc[x]
  {
    assert x in anc;
    hide Ancestry;
    if n == 0 {
      DownOne(c, anc, x, a, a);
    } else {
      var p :| p in c.Parents(x) && Leads(c, n - 1, a, p);
      LeadsIsAncestor(c, anc, n - 1, a, p);
      DownOne(c, anc, x, p, a);
    }
  }

  lemma {:induction false} AncestorLeads(c: Candidates, anc: Relatives, rank: map<Txid, nat>, a: Txid, x: Txid) returns (n: nat)
    requires Ancestry(c, anc) && c.Ranked(rank) && x in c.Keys() && a in anc[x]
    ensures Leads(c, n, a, x)
    decreases rank[x]
  {
    var p := UpOne(c, anc, x, a);
    hide Ancestry;
    if a == p {
      n := 0;
    } else {
      var m := AncestorLeads(c, anc, rank, a, p);
      n := m + 1;
    }
  }

  /** The ancestors are exactly what is reached over one or more spends. */
  lemma AncestorsAreReached(c: Candidates, anc: Relatives, rank: map<Txid, nat>, a: Txid, x: Txid)
    requires Ancestry(c, anc) && c.Ranked(rank) && x in c.Keys()
    ensures a in anc[x] <==> exists n: nat :: Leads(c, n, a, x)
  {
    if a in anc[x] {
      var n := AncestorLeads(c, anc, rank, a, x);
    }
    if exists n: nat :: Leads(c, n, a, x) {
      var n: nat :| Leads(c, n, a, x);
      LeadsIsAncestor(c, anc, n, a, x);
    }
  }

  /** An ancestor's ancestors are ancestors, and come lower in rank. */
  lemma {:induction false} AncestorsNest(c: Candidates, anc: Relatives, rank: map<Txid, nat>, x: Txid, a: Txid)
    requires Ancestry(c, anc) && c.Ranked(rank) && x in c.Keys() && a in anc[x]
    ensures a in c.Keys() && anc[a] <= anc[x] && rank[a] < rank[x]
    decreases rank[x]
  {
    var p := UpOne(c, anc, x, a);
    if a != p {
      AncestorsNest(c, anc, rank, p, a);
    }
    forall b | b in anc[a] ensures b in anc[x] {
      DownOne(c, anc, x, p, b);
    }
  }

  // ---------- children as recorded

  /** `a` was recorded as a parent of `x`, or is above one that was. */
  ghost predicate AboveRecorded(c: Candidates, anc: Relatives, kids: Relatives, x: Txid, a: Txid) {
    exists z | z in c.Keys() :: x in Of(kids, z) && (a == z || a in Of(anc, z))
  }

  /** The ancestors of one transaction are complete. */
  ghost predicate Settled(c: Candidates, anc: Relatives, kids: Relatives, done: set<Txid>, x: Txid) {
    && c.Parents(x) <= Of(anc, x)
    && Rising(c, anc, kids, done, x)
  }

  /** What was gathered for one transaction comes from recorded parents that are complete. */
  ghost predicate Rising(c: Candidates, anc: Relatives, kids: Relatives, done: set<Txid>, x: Txid) {
    && (forall z | x in Of(kids, z) :: z in c.Parents(x) && z in Of(anc, x))
    && (forall a | a in Of(anc, x) :: a in done && Of(anc, a) <= Of(anc, x))
    && (forall a | a in Of(anc, x) :: AboveRecorded(c, anc, kids, x, a))
  }

  ghost predicate AllSettled(c: Candidates, anc: Relatives, kids: Relatives, done: set<Txid>) {
    done <= c.Keys() && forall x | x in done :: Settled(c, anc, kids, done, x)
  }

  /** Nothing was gathered for `x` yet. */
  ghost predicate Untouched(anc: Relatives, kids: Relatives, x: Txid) {
    Of(anc, x) == {} && forall z :: x !in Of(kids, z)
  }

  /** For `x`, one state is as good as the other. */
  ghost predicate SameFor(anc: Relatives, kids: Relatives, anc': Relatives, kids': Relatives, x: Txid) {
    Of(anc', x) == Of(anc, x) && forall z :: x in Of(kids', z) <==> x in Of(kids, z)
  }

  lemma SettledSame(c: Candidates, anc: Relatives, kids: Relatives, done: set<Txid>, anc': Relatives, kids': Relatives, done': set<Txid>, x: Txid)
    requires Rising(c, anc, kids, done, x) && SameFor(anc, kids, anc', kids', x) && done <= done'
    requires forall a | a in done :: Of(anc', a) == Of(anc, a)
    ensures Rising(c, anc', kids', done', x)
    ensures Settled(c, anc, kids, done, x) ==> Settled(c, anc', kids', done', x)
  {
    forall a | a in Of(anc', x) ensures AboveRecorded(c, anc', kids', x, a) {
      assert AboveRecorded(c, anc, kids, x, a);
      var z :| z in c.Keys() && x in Of(kids, z) && (a == z || a in Of(anc, z));
      assert z in Of(anc, x) && z in done;
    }
  }

  /** When everything is settled, the gathered sets are the ancestors. */
  lemma SettledAncestry(c: Candidates, anc: Relatives, kids: Relatives)
    requires anc.Keys == c.Keys() && AllSettled(c, anc, kids, c.Keys())
    ensures Ancestry(c, anc)
  {
    forall x, a | x in c.Keys() ensures a in anc[x] <==> AboveParents(c, anc, x, a) {
      assert Settled(c, anc, kids, c.Keys(), x);
      if a in anc[x] {
        assert AboveRecorded(c, anc, kids, x, a);
        var z :| z in c.Keys() && x in Of(kids, z) && (a == z || a in Of(anc, z));
      }
      if p :| p in c.Parents(x) && a in Of(anc, p) {
        assert p in Of(anc, x);
      }
    }
  }

  // ---------- totals

  /** Own amount plus that of all ancestors. */
  ghost function TotalOf(m: map<Txid, int>, anc: Relatives, x: Txid): int {
    At(m, x) + SumSet(m, Of(anc, x))
  }

  lemma TotalWithout(m: map<Txid, int>, anc: Relatives, x: Txid, r: Txid)
    requires r in Of(anc, x) && x in anc
    ensures TotalOf(m, anc[x := anc[x] - {r}], x) == TotalOf(m, anc, x) - At(m, r)
  {
    SumSetRemove(m, anc[x], r);
  }

  // ---------- gathering

  /** Only transactions that became done, and `except`, changed. */
  ghost predicate Kept(anc: Relatives, kids: Relatives, done: set<Txid>, anc': Relatives, kids': Relatives, done': set<Txid>, except: set<Txid>) {
    forall y | (y !in done' || y in done) && y !in except :: SameFor(anc, kids, anc', kids', y)
  }

  lemma KeptTrans(anc0: Relatives, kids0: Relatives, done0: set<Txid>, anc1: Relatives, kids1: Relatives, done1: set<Txid>,
                  anc2: Relatives, kids2: Relatives, done2: set<Txid>, except: set<Txid>)
    requires done0 <= done1 <= done2
    requires Kept(anc0, kids0, done0, anc1, kids1, done1, except) && Kept(anc1, kids1, done1, anc2, kids2, done2, except)
    ensures Kept(anc0, kids0, done0, anc2, kids2, done2, except)
  {
    forall y | (y !in done2 || y in done0) && y !in except ensures SameFor(anc0, kids0, anc2, kids2, y) {
      assert SameFor(anc0, kids0, anc1, kids1, y);
      assert SameFor(anc1, kids1, anc2, kids2, y);
    }
  }

  lemma StillUntouched(anc: Relatives, kids: Relatives, done: set<Txid>, anc': Relatives, kids': Relatives, done': set<Txid>, except: set<Txid>, y: Txid)
    requires Kept(anc, kids, done, anc', kids', done', except) && y !in done' && y !in except && Untouched(anc, kids, y)
    ensures Untouched(anc', kids', y)
  {
    assert SameFor(anc, kids, anc', kids', y);
  }

  /** What is gathered for one transaction does not disturb the others. */
  lemma SettledKept(c: Candidates, anc: Relatives, kids: Relatives, done: set<Txid>, anc': Relatives, kids': Relatives, tx: Txid)
    requires AllSettled(c, anc, kids, done) && tx !in done && Kept(anc, kids, done, anc', kids', done, {tx})
    ensures AllSettled(c, anc', kids', done)
  {
    hide Settled, Rising, SameFor;
    forall x | x in done ensures Settled(c, anc', kids', done, x) {
      KeptOf(anc, kids, done, anc', kids', tx);
      SettledRising(c, anc, kids, done, x);
      SettledSame(c, anc, kids, done, anc', kids', done, x);
    }
  }

  lemma KeptOf(anc: Relatives, kids: Relatives, done: set<Txid>, anc': Relatives, kids': Relatives, tx: Txid)
    requires Kept(anc, kids, done, anc', kids', done, {tx}) && tx !in done
    ensures forall a | a in done :: Of(anc', a) == Of(anc, a)
  {
    forall a | a in done ensures Of(anc', a) == Of(anc, a) {
      assert SameFor(anc, kids, anc', kids', a);
    }
  }

  lemma SettledRising(c: Candidates, anc: Relatives, kids: Relatives, done: set<Txid>, x: Txid)
    requires Settled(c, anc, kids, done, x)
    ensures Rising(c, anc, kids, done, x)
  {
  }

  function With(m: Relatives, k: Txid, more: set<Txid>): Relatives {
    m[k := Of(m, k) + more]
  }

  lemma WithKept(anc: Relatives, kids: Relatives, done: set<Txid>, tx: Txid, parent: Txid)
    ensures Kept(anc, kids, done, With(anc, tx, {parent}), With(kids, parent, {tx}), done, {tx})
    ensures forall more: set<Txid> :: Kept(anc, kids, done, With(anc, tx, more), kids, done, {tx})
  {
  }

  lemma RisingAt(c: Candidates, anc: Relatives, kids: Relatives, done: set<Txid>, x: Txid, a: Txid) returns (z: Txid)
    requires Rising(c, anc, kids, done, x) && a in Of(anc, x)
    ensures a in done && Of(anc, a) <= Of(anc, x)
    ensures z in c.Keys() && x in Of(kids, z) && (a == z || a in Of(anc, z)) && z in done
  {
    assert AboveRecorded(c, anc, kids, x, a);
    z :| z in c.Keys() && x in Of(kids, z) && (a == z || a in Of(anc, z));
  }

  lemma RisingRecorded(c: Candidates, anc: Relatives, kids: Relatives, done: set<Txid>, x: Txid, z: Txid)
    requires Rising(c, anc, kids, done, x) && x in Of(kids, z)
    ensures z in c.Parents(x) && z in Of(anc, x)
  {
  }

  lemma SettledAt(c: Candidates, anc: Relatives, kids: Relatives, done: set<Txid>, x: Txid, a: Txid)
    requires Settled(c, anc, kids, done, x) && a in Of(anc, x)
    ensures a in done && Of(anc, a) <= Of(anc, x)
  {
  }

  /** Taking over the ancestors of a parent that is done. */
  lemma GatherParent(c: Candidates, anc: Relatives, kids: Relatives, done: set<Txid>, anc': Relatives, kids': Relatives, done': set<Txid>, tx: Txid, parent: Txid)
    requires Rising(c, anc, kids, done, tx) && parent in c.Parents(tx) && parent in done' && tx !in done' && done <= done'
    requires SameFor(With(anc, tx, {parent}), With(kids, parent, {tx}), anc', kids', tx)
    requires forall a | a in done :: Of(anc', a) == Of(anc, a)
    requires Settled(c, anc', kids', done', parent) && parent in c.Keys()
    ensures Rising(c, With(anc', tx, Of(anc', parent)), kids', done', tx)
  {
    hide Rising, Settled, AboveRecorded;
    var anc'' := With(anc', tx, Of(anc', parent));
    assert Of(anc'', tx) == Of(anc, tx) + {parent} + Of(anc', parent);
    forall z | tx in Of(kids', z) ensures z in c.Parents(tx) && z in Of(anc'', tx) {
      if z != parent {
        RisingRecorded(c, anc, kids, done, tx, z);
      }
    }
    forall a | a in Of(anc'', tx) ensures a in done' && Of(anc'', a) <= Of(anc'', tx) && AboveRecorded(c, anc'', kids', tx, a) {
      if a in Of(anc, tx) {
        var z := RisingAt(c, anc, kids, done, tx, a);
        AboveThrough(c, anc'', kids', tx, a, z);
      } else {
        if a != parent {
          SettledAt(c, anc', kids', done', parent, a);
        }
        AboveThrough(c, anc'', kids', tx, a, parent);
      }
    }
    MakeRising(c, anc'', kids', done', tx);
  }

  lemma AboveThrough(c: Candidates, anc: Relatives, kids: Relatives, x: Txid, a: Txid, z: Txid)
    requires z in c.Keys() && x in Of(kids, z) && (a == z || a in Of(anc, z))
    ensures AboveRecorded(c, anc, kids, x, a)
  {
  }

  lemma MakeRising(c: Candidates, anc: Relatives, kids: Relatives, done: set<Txid>, x: Txid)
    requires forall z | x in Of(kids, z) :: z in c.Parents(x) && z in Of(anc, x)
    requires forall a | a in Of(anc, x) :: a in done && Of(anc, a) <= Of(anc, x) && AboveRecorded(c, anc, kids, x, a)
    ensures Rising(c, anc, kids, done, x)
  {
  }

  lemma RisingNone(c: Candidates, anc: Relatives, kids: Relatives, done: set<Txid>, x: Txid)
    requires Untouched(anc, kids, x)
    ensures Rising(c, anc, kids, done, x)
    ensures Kept(anc, kids, done, anc, kids, done, {x})
  {
  }

  /** Relatives are set for some transactions and those they depend on. */
  ghost predicate Built(c: Candidates, anc: Relatives, kids: Relatives, done: set<Txid>) {
    c.WellFormed() && anc.Keys == kids.Keys == c.Keys() && AllSettled(c, anc, kids, done) && KidsKnown(c, kids)
  }

  ghost predicate KidsKnown(c: Candidates, kids: Relatives) {
    forall z | z in kids :: kids[z] <= c.Keys()
  }

  /** Partway through the ancestors of `tx`; `anc0`, `kids0` and `done0` are from before. */
  ghost predicate Gathering(c: Candidates, anc0: Relatives, kids0: Relatives, done0: set<Txid>, anc: Relatives, kids: Relatives, done: set<Txid>,
                            tx: Txid, rank: map<Txid, nat>) {
    && Built(c, anc, kids, done) && c.Ranked(rank) && tx in c.Keys() && done0 <= done && tx !in done
    && (forall y | y in done - done0 :: rank[y] < rank[tx])
    && Kept(anc0, kids0, done0, anc, kids, done, {tx})
    && Rising(c, anc, kids, done, tx)
  }

  ghost predicate AllUntouched(c: Candidates, anc: Relatives, kids: Relatives, done: set<Txid>, rank: map<Txid, nat>, limit: nat) {
    rank.Keys == c.Keys() && forall y | y in c.Keys() && y !in done && rank[y] <= limit :: Untouched(anc, kids, y)
  }

  lemma GatherStart(c: Candidates, anc: Relatives, kids: Relatives, done: set<Txid>, tx: Txid, rank: map<Txid, nat>)
    requires Built(c, anc, kids, done) && c.Ranked(rank) && tx in c.Keys() && tx !in done && Untouched(anc, kids, tx)
    ensures Gathering(c, anc, kids, done, anc, kids, done, tx, rank)
  {
    RisingNone(c, anc, kids, done, tx);
  }

  /** After a parent was recorded, its own ancestors may be gathered. */
  lemma GatherRecorded(c: Candidates, anc0: Relatives, kids0: Relatives, done0: set<Txid>, anc: Relatives, kids: Relatives, done: set<Txid>,
                       tx: Txid, parent: Txid, rank: map<Txid, nat>)
    requires Gathering(c, anc0, kids0, done0, anc, kids, done, tx, rank) && parent in c.Parents(tx)
    requires AllUntouched(c, anc0, kids0, done0, rank, rank[tx])
    ensures var anc1, kids1 := With(anc, tx, {parent}), With(kids, parent, {tx});
            && Built(c, anc1, kids1, done) && Kept(anc, kids, done, anc1, kids1, done, {tx})
            && AllUntouched(c, anc1, kids1, done, rank, rank[parent])
            && forall x | x in done :: Of(anc1, x) == Of(anc, x)
  {
    hide AllSettled, Rising, Kept, AllUntouched, Of, Candidates.Parents, Candidates.Ranked, KidsKnown;
    var anc1, kids1 := With(anc, tx, {parent}), With(kids, parent, {tx});
    WithKept(anc, kids, done, tx, parent);
    WithKnown(c, kids, parent, tx);
    SettledKept(c, anc, kids, done, anc1, kids1, tx);
    KeptOf(anc, kids, done, anc1, kids1, tx);
    ParentBelow(c, tx, parent, rank);
    RecordedUntouched(c, anc0, kids0, done0, anc, kids, done, tx, parent, rank);
  }

  /** What ranks no higher than the parent stays untouched. */
  lemma RecordedUntouched(c: Candidates, anc0: Relatives, kids0: Relatives, done0: set<Txid>, anc: Relatives, kids: Relatives, done: set<Txid>,
                          tx: Txid, parent: Txid, rank: map<Txid, nat>)
    requires done0 <= done && Kept(anc0, kids0, done0, anc, kids, done, {tx}) && c.Ranked(rank) && tx in c.Keys() && parent in c.Parents(tx)
    requires AllUntouched(c, anc0, kids0, done0, rank, rank[tx])
    ensures parent in rank && AllUntouched(c, With(anc, tx, {parent}), With(kids, parent, {tx}), done, rank, rank[parent])
  {
    hide Kept, Untouched, With, Candidates.Parents;
    ParentBelow(c, tx, parent, rank);
    WithKept(anc, kids, done, tx, parent);
    forall y | y in c.Keys() && y !in done && rank[y] <= rank[parent] ensures Untouched(With(anc, tx, {parent}), With(kids, parent, {tx}), y) {
      StillUntouched(anc0, kids0, done0, anc, kids, done, {tx}, y);
      StillUntouched(anc, kids, done, With(anc, tx, {parent}), With(kids, parent, {tx}), done, {tx}, y);
    }
  }

  lemma WithKnown(c: Candidates, kids: Relatives, parent: Txid, tx: Txid)
    requires KidsKnown(c, kids) && tx in c.Keys()
    ensures KidsKnown(c, With(kids, parent, {tx}))
  {
  }

  lemma ParentBelow(c: Candidates, tx: Txid, parent: Txid, rank: map<Txid, nat>)
    requires c.Ranked(rank) && tx in c.Keys() && parent in c.Parents(tx)
    ensures parent in c.Keys() && rank[parent] < rank[tx]
  {
  }

  /** Once the parent is done, its ancestors are taken over. */
  lemma GatherTaken(c: Candidates, anc0: Relatives, kids0: Relatives, done0: set<Txid>, anc: Relatives, kids: Relatives, done: set<Txid>,
                    anc2: Relatives, kids2: Relatives, done2: set<Txid>, tx: Txid, parent: Txid, rank: map<Txid, nat>)
    requires Gathering(c, anc0, kids0, done0, anc, kids, done, tx, rank) && parent in c.Parents(tx)
    requires Built(c, anc2, kids2, done2) && done + {parent} <= done2
    requires parent in rank && forall y | y in done2 - done :: y in rank && rank[y] <= rank[parent]
    requires Kept(With(anc, tx, {parent}), With(kids, parent, {tx}), done, anc2, kids2, done2, {})
    ensures Gathering(c, anc0, kids0, done0, With(anc2, tx, Of(anc2, parent)), kids2, done2, tx, rank)
    ensures Of(anc2, tx) == Of(anc, tx) + {parent}
    ensures forall x | x in done2 :: Of(With(anc2, tx, Of(anc2, parent)), x) == Of(anc2, x)
  {
    hide AllSettled, Rising, Kept, Settled, Candidates.Parents, SameFor, Of, KidsKnown, Candidates.Ranked;
    RankKnown(c, rank);
    var anc1, kids1, anc3 := With(anc, tx, {parent}), With(kids, parent, {tx}), With(anc2, tx, Of(anc2, parent));
    ParentBelow(c, tx, parent, rank);
    KeptAt(anc1, kids1, done, anc2, kids2, done2, {}, tx);
    WithKept(anc, kids, done, tx, parent);
    WithOf(anc, tx, {parent});
    forall a | a in done ensures Of(anc2, a) == Of(anc, a) {
      KeptAt(anc1, kids1, done, anc2, kids2, done2, {}, a);
      KeptOf(anc, kids, done, anc1, kids1, tx);
    }
    SettledIn(c, anc2, kids2, done2, parent);
    GatherParent(c, anc, kids, done, anc2, kids2, done2, tx, parent);
    WithKept(anc2, kids2, done2, tx, parent);
    SettledKept(c, anc2, kids2, done2, anc3, kids2, tx);
    KeptOf(anc2, kids2, done2, anc3, kids2, tx);
    TakenKept(anc0, kids0, done0, anc, kids, done, anc2, kids2, done2, tx, parent);
  }

  lemma TakenKept(anc0: Relatives, kids0: Relatives, done0: set<Txid>, anc: Relatives, kids: Relatives, done: set<Txid>,
                  anc2: Relatives, kids2: Relatives, done2: set<Txid>, tx: Txid, parent: Txid)
    requires done0 <= done <= done2 && Kept(anc0, kids0, done0, anc, kids, done, {tx})
    requires Kept(With(anc, tx, {parent}), With(kids, parent, {tx}), done, anc2, kids2, done2, {})
    ensures Kept(anc0, kids0, done0, With(anc2, tx, Of(anc2, parent)), kids2, done2, {tx})
  {
    hide Kept, With, Of;
    var anc1, kids1, anc3 := With(anc, tx, {parent}), With(kids, parent, {tx}), With(anc2, tx, Of(anc2, parent));
    WithKept(anc, kids, done, tx, parent);
    WithKept(anc2, kids2, done2, tx, parent);
    KeptMore(anc1, kids1, done, anc2, kids2, done2, tx);
    KeptTrans(anc0, kids0, done0, anc, kids, done, anc1, kids1, done, {tx});
    KeptTrans(anc0, kids0, done0, anc1, kids1, done, anc2, kids2, done2, {tx});
    KeptTrans(anc0, kids0, done0, anc2, kids2, done2, anc3, kids2, done2, {tx});
  }

  lemma WithOf(m: Relatives, k: Txid, more: set<Txid>)
    ensures Of(With(m, k, more), k) == Of(m, k) + more
  {
  }

  lemma KeptAt(anc: Relatives, kids: Relatives, done: set<Txid>, anc': Relatives, kids': Relatives, done': set<Txid>, except: set<Txid>, y: Txid)
    requires Kept(anc, kids, done, anc', kids', done', except) && (y !in done' || y in done) && y !in except
    ensures SameFor(anc, kids, anc', kids', y) && Of(anc', y) == Of(anc, y)
  {
  }

  lemma KeptMore(anc: Relatives, kids: Relatives, done: set<Txid>, anc': Relatives, kids': Relatives, done': set<Txid>, tx: Txid)
    requires Kept(anc, kids, done, anc', kids', done', {})
    ensures Kept(anc, kids, done, anc', kids', done', {tx})
  {
  }

  lemma SettledIn(c: Candidates, anc: Relatives, kids: Relatives, done: set<Txid>, x: Txid)
    requires AllSettled(c, anc, kids, done) && x in done
    ensures Settled(c, anc, kids, done, x) && x in c.Keys()
  {
  }

  /** With all parents gathered, the transaction is done. */
  lemma GatherDone(c: Candidates, anc0: Relatives, kids0: Relatives, done0: set<Txid>, anc: Relatives, kids: Relatives, done: set<Txid>,
                   tx: Txid, rank: map<Txid, nat>)
    requires Gathering(c, anc0, kids0, done0, anc, kids, done, tx, rank) && c.Parents(tx) <= Of(anc, tx)
    ensures Built(c, anc, kids, done + {tx}) && Kept(anc0, kids0, done0, anc, kids, done + {tx}, {}) && done0 <= done
    ensures forall y | y in done + {tx} - done0 :: y in rank && rank[y] <= rank[tx]
  {
    hide AllSettled, Rising, Kept, Of, Candidates.Parents, KidsKnown, Candidates.Ranked;
    RankKnown(c, rank);
    DoneSettled(c, anc, kids, done, tx);
    DoneKept(anc0, kids0, done0, anc, kids, done, tx);
  }

  lemma RankKnown(c: Candidates, rank: map<Txid, nat>)
    requires c.Ranked(rank)
    ensures forall x | x in c.Keys() :: x in rank
  {
  }

  lemma DoneSettled(c: Candidates, anc: Relatives, kids: Relatives, done: set<Txid>, tx: Txid)
    requires AllSettled(c, anc, kids, done) && tx in c.Keys() && Rising(c, anc, kids, done, tx) && c.Parents(tx) <= Of(anc, tx)
    ensures AllSettled(c, anc, kids, done + {tx}) && done <= c.Keys()
  {
    hide Rising, Of;
    forall x | x in done + {tx} ensures Settled(c, anc, kids, done + {tx}, x) {
      if x != tx {
        SettledRising(c, anc, kids, done, x);
      }
      SettledSame(c, anc, kids, done, anc, kids, done + {tx}, x);
    }
  }

  lemma DoneKept(anc0: Relatives, kids0: Relatives, done0: set<Txid>, anc: Relatives, kids: Relatives, done: set<Txid>, tx: Txid)
    requires done0 <= done && tx !in done && Kept(anc0, kids0, done0, anc, kids, done, {tx})
    ensures Kept(anc0, kids0, done0, anc, kids, done + {tx}, {})
  {
    hide SameFor;
  }

  /** One kind of total is exact for the ancestors known so far. */
  ghost predicate Totalled(m: map<Txid, int>, anc: Relatives, total: map<Txid, int>, done: set<Txid>) {
    done <= total.Keys && forall x | x in done :: total[x] == TotalOf(m, anc, x)
  }

  ghost predicate TotalsRight(c: Candidates, anc: Relatives, fee: map<Txid, int>, size: map<Txid, int>, sigops: map<Txid, int>, done: set<Txid>) {
    Totalled(c.fee, anc, fee, done) && Totalled(c.size, anc, size, done) && Totalled(c.sigops, anc, sigops, done)
  }

  lemma TotalsSame(c: Candidates, anc: Relatives, anc': Relatives, fee: map<Txid, int>, size: map<Txid, int>, sigops: map<Txid, int>, done: set<Txid>)
    requires TotalsRight(c, anc, fee, size, sigops, done) && forall x | x in done :: Of(anc', x) == Of(anc, x)
    ensures TotalsRight(c, anc', fee, size, sigops, done)
  {
  }

  // ---------- taking a placed transaction out

  /** All recorded relatives, once every transaction is settled. */
  ghost predicate Family(c: Candidates, anc: Relatives, kids: Relatives) {
    Built(c, anc, kids, c.Keys()) && Ancestry(c, anc) && exists rank :: c.Ranked(rank)
  }

  ghost function Below(anc: Relatives, root: Txid): set<Txid> {
    set y | y in anc && root in anc[y]
  }

  /** The ancestors that are left when `removed` were taken out. */
  ghost predicate Remaining(anc0: Relatives, removed: set<Txid>, anc: Relatives) {
    anc.Keys == anc0.Keys && forall x | x in anc :: anc[x] == anc0[x] - removed
  }

  /** Children come with what they descend from. */
  lemma KidsBelow(c: Candidates, anc: Relatives, kids: Relatives, rank: map<Txid, nat>, root: Txid, z: Txid)
    requires Family(c, anc, kids) && c.Ranked(rank) && z in c.Keys() && (z == root || z in Below(anc, root))
    ensures Of(kids, z) <= Below(anc, root) && root !in Below(anc, root)
  {
    hide Ancestry;
    forall y | y in Of(kids, z) ensures y in Below(anc, root) {
      KidIn(c, anc, kids, z, y);
      AncestorsNest(c, anc, rank, y, z);
    }
    if root in Below(anc, root) {
      AncestorsNest(c, anc, rank, root, root);
    }
  }

  lemma KidIn(c: Candidates, anc: Relatives, kids: Relatives, z: Txid, y: Txid)
    requires Family(c, anc, kids) && z in c.Keys() && y in Of(kids, z)
    ensures y in c.Keys() && y in anc && z in anc[y]
  {
    KidKnown(c, anc, kids, z, y);
    SettledIn(c, anc, kids, c.Keys(), y);
  }

  /** Children sets hold candidates only. */
  lemma KidKnown(c: Candidates, anc: Relatives, kids: Relatives, z: Txid, y: Txid)
    requires Family(c, anc, kids) && y in Of(kids, z)
    ensures y in c.Keys()
  {
  }

  /** A set that holds the root's children and those of its members holds all descendants. */
  lemma {:induction false} ReachesAll(c: Candidates, anc: Relatives, kids: Relatives, rank: map<Txid, nat>, root: Txid, seen: set<Txid>, y: Txid)
    requires Family(c, anc, kids) && c.Ranked(rank) && root in c.Keys() && y in Below(anc, root)
    requires Of(kids, root) <= seen && forall z | z in seen :: Of(kids, z) <= seen
    ensures y in seen
    decreases if y in rank then rank[y] else 0
  {
    hide Ancestry;
    var z := RecordedAbove(c, anc, kids, y, root);
    RankKeys(c, rank);
    if z != root {
      ParentBelow(c, y, z, rank);
      ReachesAll(c, anc, kids, rank, root, seen, z);
    }
  }

  lemma RecordedAbove(c: Candidates, anc: Relatives, kids: Relatives, y: Txid, root: Txid) returns (z: Txid)
    requires Family(c, anc, kids) && y in Below(anc, root)
    ensures y in c.Keys() && z in c.Parents(y) && y in Of(kids, z) && (z == root || z in Below(anc, root))
  {
    SettledIn(c, anc, kids, c.Keys(), y);
    z := RisingAt(c, anc, kids, c.Keys(), y, root);
    RisingRecorded(c, anc, kids, c.Keys(), y, z);
  }

  lemma FamilyRank(c: Candidates, anc: Relatives, kids: Relatives) returns (rank: map<Txid, nat>)
    requires Family(c, anc, kids)
    ensures c.Ranked(rank)
  {
    rank :| c.Ranked(rank);
  }

  lemma FamilyKeys(c: Candidates, anc: Relatives, kids: Relatives)
    requires Family(c, anc, kids)
    ensures c.WellFormed() && anc.Keys == kids.Keys == c.Keys() && forall root :: Below(anc, root) <= c.Keys()
  {
  }

  lemma OfIs(m: Relatives, x: Txid)
    ensures x in m ==> Of(m, x) == m[x]
  {
  }

  lemma TakeLast(s: seq<Txid>)
    requires s != [] && Distinct(s)
    ensures var n := |s| - 1; Distinct(s[..n]) && s[n] !in Elems(s[..n]) && Elems(s) == Elems(s[..n]) + {s[n]}
  {
    assert s == s[..|s| - 1] + [s[|s| - 1]];
  }

  /** Partway through the descendants of `root`: `seen` were updated. */
  ghost predicate Visited(anc0: Relatives, removed: set<Txid>, root: Txid, seen: set<Txid>, anc: Relatives,
                          queued0: set<Txid>, queued: set<Txid>, added: seq<Txid>) {
    && anc.Keys == anc0.Keys && (forall x | x in anc :: anc[x] == anc0[x] - removed - if x in seen then {root} else {})
    && queued == queued0 + seen && Distinct(added) && Elems(added) == seen - queued0
  }

  lemma VisitStart(anc0: Relatives, removed: set<Txid>, root: Txid, anc: Relatives, queued: set<Txid>)
    requires Remaining(anc0, removed, anc)
    ensures Visited(anc0, removed, root, {}, anc, queued, queued, [])
  {
  }

  lemma VisitAt(anc0: Relatives, removed: set<Txid>, root: Txid, seen: set<Txid>, anc: Relatives,
                queued0: set<Txid>, queued: set<Txid>, added: seq<Txid>, tx: Txid)
    requires Visited(anc0, removed, root, seen, anc, queued0, queued, added) && tx in Below(anc0, root) && root !in removed && tx !in seen
    ensures tx in anc && root in anc[tx] && anc.Keys == anc0.Keys
  {
  }

  lemma VisitNext(anc0: Relatives, removed: set<Txid>, root: Txid, seen: set<Txid>, anc: Relatives,
                  queued0: set<Txid>, queued: set<Txid>, added: seq<Txid>, tx: Txid)
    requires Visited(anc0, removed, root, seen, anc, queued0, queued, added) && tx in anc && tx !in seen
    ensures tx in queued ==> Visited(anc0, removed, root, seen + {tx}, anc[tx := anc[tx] - {root}], queued0, queued, added)
    ensures tx !in queued ==> Visited(anc0, removed, root, seen + {tx}, anc[tx := anc[tx] - {root}], queued0, queued + {tx}, added + [tx])
  {
    ElemsConcat(added, [tx]);
    assert Elems([tx]) == {tx};
    if tx !in queued {
      DistinctConcat(added, [tx]);
    }
    hide Distinct;
  }

  lemma VisitEnd(anc0: Relatives, removed: set<Txid>, root: Txid, anc: Relatives, queued0: set<Txid>, queued: set<Txid>, added: seq<Txid>)
    requires Visited(anc0, removed, root, Below(anc0, root), anc, queued0, queued, added)
    ensures Remaining(anc0, removed + {root}, anc) && queued == queued0 + Below(anc0, root)
    ensures Distinct(added) && Elems(added) == Below(anc0, root) - queued0
  {
  }

  lemma TotalsVisit(m: map<Txid, int>, anc: Relatives, total: map<Txid, int>, done: set<Txid>, tx: Txid, root: Txid)
    requires Totalled(m, anc, total, done) && tx in done && root in m && tx in anc && root in anc[tx]
    ensures tx in total && Totalled(m, anc[tx := anc[tx] - {root}], total[tx := total[tx] - m[root]], done)
  {
    TotalWithout(m, anc, tx, root);
    hide SumSet;
    var anc' := anc[tx := anc[tx] - {root}];
    forall x | x in done && x != tx ensures TotalOf(m, anc', x) == TotalOf(m, anc, x) {
      assert Of(anc', x) == Of(anc, x);
    }
  }

  /** The search below `root`: `seen` were visited, `stack` waits, and no child was missed. */
  ghost predicate Searching(anc0: Relatives, kids: Relatives, root: Txid, seen: set<Txid>, stack: seq<Txid>, found: set<Txid>) {
    && Distinct(stack) && Elems(stack) !! seen && found == seen + Elems(stack) && found <= Below(anc0, root)
    && Of(kids, root) <= found && forall z | z in seen :: Of(kids, z) <= found
  }

  lemma SearchStart(anc0: Relatives, kids: Relatives, root: Txid, stack: seq<Txid>)
    requires Distinct(stack) && Elems(stack) == Of(kids, root) <= Below(anc0, root)
    ensures Searching(anc0, kids, root, {}, stack, Of(kids, root))
  {
  }

  lemma SearchTop(anc0: Relatives, kids: Relatives, root: Txid, seen: set<Txid>, stack: seq<Txid>, found: set<Txid>)
    requires Searching(anc0, kids, root, seen, stack, found) && stack != []
    ensures stack[|stack| - 1] in Below(anc0, root) && stack[|stack| - 1] !in seen
  {
    TakeLast(stack);
  }

  lemma SearchNext(anc0: Relatives, kids: Relatives, root: Txid, seen: set<Txid>, stack: seq<Txid>, found: set<Txid>, more: seq<Txid>)
    requires Searching(anc0, kids, root, seen, stack, found) && stack != []
    requires var tx := stack[|stack| - 1]; Distinct(more) && Elems(more) == Of(kids, tx) - found && Of(kids, tx) <= Below(anc0, root)
    ensures var n := |stack| - 1; Searching(anc0, kids, root, seen + {stack[n]}, stack[..n] + more, found + (Of(kids, stack[n]) - found))
  {
    hide Of, Below;
    var n := |stack| - 1;
    TakeLast(stack);
    DistinctConcat(stack[..n], more);
    ElemsConcat(stack[..n], more);
    hide Distinct;
    assert Elems(stack[..n]) <= found;
  }

  lemma SearchEnd(c: Candidates, anc0: Relatives, kids: Relatives, rank: map<Txid, nat>, root: Txid, seen: set<Txid>, found: set<Txid>)
    requires Family(c, anc0, kids) && c.Ranked(rank) && root in c.Keys() && Searching(anc0, kids, root, seen, [], found)
    ensures seen == Below(anc0, root)
  {
    hide Family, Candidates.Ranked, Of, Below;
    forall y | y in Below(anc0, root) ensures y in seen {
      ReachesAll(c, anc0, kids, rank, root, seen, y);
    }
  }

  lemma NothingVisited()
    ensures Distinct<Txid>([]) && Elems<Txid>([]) == {}
  {
  }

  lemma OneMoreVisited(visited: seq<Txid>, tx: Txid)
    requires Distinct(visited) && tx !in Elems(visited)
    ensures Distinct(visited + [tx]) && Elems(visited + [tx]) == Elems(visited) + {tx}
  {
    ElemsConcat(visited, [tx]);
    DistinctConcat(visited, [tx]);
  }

  // ---------- the pool

  /** The candidates of a template, with what is known of their relatives. */
  class AuditPool {
    const c: Candidates
    var relativesSet: set<Txid>
    var ancestorMap: Relatives
    var children: Relatives
    var ancestorFee: map<Txid, int>
    var ancestorSize: map<Txid, int>
    var ancestorSigops: map<Txid, int>
    /** Transactions that wait for a second look since an ancestor was placed. */
    var queued: set<Txid>

    constructor (c: Candidates)
      requires c.WellFormed()
      ensures this.c == c && Building() && relativesSet == {} && queued == {}
      ensures forall x | x in c.Keys() :: Untouched(ancestorMap, children, x)
    {
      this.c := c;
      relativesSet := {};
      ancestorMap := map x | x in c.fee :: {};
      children := map x | x in c.fee :: {};
      ancestorFee, ancestorSize, ancestorSigops := c.fee, c.size, c.sigops;
      queued := {};
    }

    ghost predicate Building()
      reads this
    {
      Built(c, ancestorMap, children, relativesSet) && TotalsRight(c, ancestorMap, ancestorFee, ancestorSize, ancestorSigops, relativesSet)
    }

    /** Gathers the ancestors of one transaction, and of those it depends on first. */
    method SetRelatives(tx: Txid, ghost rank: map<Txid, nat>)
      requires Building() && c.Ranked(rank) && tx in c.Keys() && tx !in relativesSet && tx in rank
      requires AllUntouched(c, ancestorMap, children, relativesSet, rank, rank[tx])
      modifies this`relativesSet, this`ancestorMap, this`children, this`ancestorFee, this`ancestorSize, this`ancestorSigops
      ensures Building() && old(relativesSet) + {tx} <= relativesSet
      ensures forall y | y in relativesSet - old(relativesSet) :: y in rank && rank[y] <= rank[tx]
      ensures Kept(old(ancestorMap), old(children), old(relativesSet), ancestorMap, children, relativesSet, {})
      decreases rank[tx], 1
    {
      hide AllSettled, Untouched, TotalsRight, Kept, Gathering, AllUntouched, Of, Candidates.Parents, Built, Candidates.Ranked;
      ghost var anc, kids, done := ancestorMap, children, relativesSet;
      BuiltKeys(c, anc, kids, done);
      UntouchedAt(c, anc, kids, done, rank, tx);
      GatherStart(c, anc, kids, done, tx, rank);
      for i := 0 to |c.inputs[tx]|
        invariant Gathering(c, anc, kids, done, ancestorMap, children, relativesSet, tx, rank) && Building() && tx !in relativesSet
        invariant tx in ancestorMap && forall j | 0 <= j < i && c.inputs[tx][j] in c.fee :: c.inputs[tx][j] in ancestorMap[tx]
      {
        var parent := c.inputs[tx][i];
        if parent in c.fee && parent !in ancestorMap[tx] {
          IsParent(c, tx, i);
          TakeParent(tx, parent, anc, kids, done, rank);
        }
      }
      ParentsIn(c, ancestorMap, tx);
      GatherDone(c, anc, kids, done, ancestorMap, children, relativesSet, tx, rank);
      SetTotals(tx);
      relativesSet := relativesSet + {tx};
    }

    /** Records a parent that is not an ancestor yet, and takes over its ancestors. */
    method TakeParent(tx: Txid, parent: Txid, ghost anc: Relatives, ghost kids: Relatives, ghost done: set<Txid>, ghost rank: map<Txid, nat>)
      requires Gathering(c, anc, kids, done, ancestorMap, children, relativesSet, tx, rank) && Building() && parent in c.Parents(tx)
      requires tx in rank && AllUntouched(c, anc, kids, done, rank, rank[tx])
      modifies this`relativesSet, this`ancestorMap, this`children, this`ancestorFee, this`ancestorSize, this`ancestorSigops
      ensures Gathering(c, anc, kids, done, ancestorMap, children, relativesSet, tx, rank) && Building() && tx !in relativesSet
      ensures tx in ancestorMap && tx in old(ancestorMap) && ancestorMap[tx] >= old(ancestorMap)[tx] + {parent}
      decreases rank[tx], 0
    {
      hide AllSettled, Untouched, TotalsRight, Kept, Gathering, AllUntouched, Candidates.Parents, Candidates.Ranked, Built, Candidates.WellFormed, Candidates.Keys;
      GatheringParts(c, anc, kids, done, ancestorMap, children, relativesSet, tx, rank);
      BuiltKeys(c, ancestorMap, children, relativesSet);
      ParentBelow(c, tx, parent, rank);
      ghost var anc0, kids0, done0 := ancestorMap, children, relativesSet;
      GatherRecorded(c, anc, kids, done, anc0, kids0, done0, tx, parent, rank);
      TotalsSame(c, anc0, With(anc0, tx, {parent}), ancestorFee, ancestorSize, ancestorSigops, done0);
      ancestorMap := ancestorMap[tx := ancestorMap[tx] + {parent}];
      children := children[parent := children[parent] + {tx}];
      if parent !in relativesSet {
        SetRelatives(parent, rank);
      } else {
        KeptSelf(ancestorMap, children, relativesSet);
      }
      BuiltKeys(c, ancestorMap, children, relativesSet);
      GatherTaken(c, anc, kids, done, anc0, kids0, done0, ancestorMap, children, relativesSet, tx, parent, rank);
      TotalsSame(c, ancestorMap, With(ancestorMap, tx, Of(ancestorMap, parent)), ancestorFee, ancestorSize, ancestorSigops, relativesSet);
      ancestorMap := ancestorMap[tx := ancestorMap[tx] + ancestorMap[parent]];
      GatheringParts(c, anc, kids, done, ancestorMap, children, relativesSet, tx, rank);
    }

    /** Adds up a transaction and its ancestors. */
    method SetTotals(tx: Txid)
      requires Building() && tx in c.Keys() && tx !in relativesSet
      modifies this`ancestorFee, this`ancestorSize, this`ancestorSigops
      ensures TotalsRight(c, ancestorMap, ancestorFee, ancestorSize, ancestorSigops, relativesSet + {tx})
    {
      var fee := AddUp(c.fee, ancestorMap[tx]);
      var size := AddUp(c.size, ancestorMap[tx]);
      var sigops := AddUp(c.sigops, ancestorMap[tx]);
      ancestorFee := ancestorFee[tx := c.fee[tx] + fee];
      ancestorSize := ancestorSize[tx := c.size[tx] + size];
      ancestorSigops := ancestorSigops[tx := c.sigops[tx] + sigops];
    }

    /** Relatives and totals without the `removed` transactions; `anc0` are all ancestors. */
    ghost predicate Left(anc0: Relatives, removed: set<Txid>)
      reads this`children, this`ancestorMap, this`ancestorFee, this`ancestorSize, this`ancestorSigops
    {
      && Family(c, anc0, children) && Remaining(anc0, removed, ancestorMap)
      && TotalsRight(c, ancestorMap, ancestorFee, ancestorSize, ancestorSigops, c.Keys())
    }

    /** Takes a placed transaction out of the ancestors of all its descendants, which are returned in
        the order of the visit, with those among them that were not queued before. */
    method UpdateDescendants(root: Txid, ghost anc0: Relatives, ghost removed: set<Txid>) returns (added: seq<Txid>, visited: seq<Txid>)
      requires Left(anc0, removed) && root in c.Keys() && root !in removed
      modifies this`ancestorMap, this`ancestorFee, this`ancestorSize, this`ancestorSigops, this`queued
      ensures Left(anc0, removed + {root})
      ensures Distinct(added) && Elems(added) == Below(anc0, root) - old(queued) && queued == old(queued) + Below(anc0, root)
      ensures Distinct(visited) && Elems(visited) == Below(anc0, root)
    {
      hide Ancestry, Built, TotalsRight, Family, Distinct, Visited, Below, Of, Remaining, Searching, Elems;
      ghost var rank := FamilyRank(c, anc0, children);
      KidsBelow(c, anc0, children, rank, root, root);
      FamilyKeys(c, anc0, children);
      OfIs(children, root);
      added, visited := [], [];
      NothingVisited();
      var descendantSet := children[root];
      var descendants := AnyOrder(children[root]);
      ghost var seen: set<Txid> := {};
      VisitStart(anc0, removed, root, ancestorMap, queued);
      SearchStart(anc0, children, root, descendants);
      while descendants != []
        invariant Visited(anc0, removed, root, seen, ancestorMap, old(queued), queued, added)
        invariant TotalsRight(c, ancestorMap, ancestorFee, ancestorSize, ancestorSigops, c.Keys())
        invariant Searching(anc0, children, root, seen, descendants, descendantSet) && seen <= Below(anc0, root)
        invariant Distinct(visited) && Elems(visited) == seen
        decreases Below(anc0, root) - seen
      {
        ghost var stack := descendants;
        SearchTop(anc0, children, root, seen, stack, descendantSet);
        var tx := descendants[|descendants| - 1];
        descendants := descendants[..|descendants| - 1];
        var found;
        added, found := VisitOne(tx, root, added, anc0, removed, seen, old(queued));
        if found {
          KidsBelow(c, anc0, children, rank, root, tx);
          OfIs(children, tx);
          var more := AnyOrder(children[tx] - descendantSet);
          SearchNext(anc0, children, root, seen, stack, descendantSet, more);
          descendants := descendants + more;
          descendantSet := descendantSet + (children[tx] - descendantSet);
          OneMoreVisited(visited, tx);
          seen := seen + {tx};
          visited := visited + [tx];
        }
      }
      SearchEnd(c, anc0, children, rank, root, seen, descendantSet);
      VisitEnd(anc0, removed, root, ancestorMap, old(queued), queued, added);
    }

    /** Updates one descendant, unless it was updated before. */
    method VisitOne(tx: Txid, root: Txid, added0: seq<Txid>, ghost anc0: Relatives, ghost removed: set<Txid>, ghost seen: set<Txid>, ghost queued0: set<Txid>)
      returns (added: seq<Txid>, found: bool)
      requires Visited(anc0, removed, root, seen, ancestorMap, queued0, queued, added0) && tx in Below(anc0, root) && tx !in seen && root !in removed
      requires c.WellFormed() && anc0.Keys == c.Keys() && root in c.Keys()
      requires TotalsRight(c, ancestorMap, ancestorFee, ancestorSize, ancestorSigops, c.Keys())
      modifies this`ancestorMap, this`ancestorFee, this`ancestorSize, this`ancestorSigops, this`queued
      ensures found && tx in c.Keys()
      ensures Visited(anc0, removed, root, seen + {tx}, ancestorMap, queued0, queued, added)
      ensures TotalsRight(c, ancestorMap, ancestorFee, ancestorSize, ancestorSigops, c.Keys())
    {
      hide TotalsRight, Visited, Below;
      added, found := added0, false;
      VisitAt(anc0, removed, root, seen, ancestorMap, queued0, queued, added, tx);
      if root in ancestorMap[tx] {
        found := true;
        VisitNext(anc0, removed, root, seen, ancestorMap, queued0, queued, added, tx);
        TakeOut(tx, root);
        if tx !in queued {
          queued := queued + {tx};
          added := added + [tx];
        }
      }
    }

    /** Removes one ancestor of a transaction and its share of the totals. */
    method TakeOut(tx: Txid, root: Txid)
      requires c.WellFormed() && TotalsRight(c, ancestorMap, ancestorFee, ancestorSize, ancestorSigops, c.Keys())
      requires tx in c.Keys() && root in c.Keys() && tx in ancestorMap && root in ancestorMap[tx]
      modifies this`ancestorMap, this`ancestorFee, this`ancestorSize, this`ancestorSigops
      ensures ancestorMap == old(ancestorMap)[tx := old(ancestorMap)[tx] - {root}]
      ensures TotalsRight(c, ancestorMap, ancestorFee, ancestorSize, ancestorSigops, c.Keys())
    {
      hide Totalled;
      TotalsVisit(c.fee, ancestorMap, ancestorFee, c.Keys(), tx, root);
      TotalsVisit(c.size, ancestorMap, ancestorSize, c.Keys(), tx, root);
      TotalsVisit(c.sigops, ancestorMap, ancestorSigops, c.Keys(), tx, root);
      ancestorMap := ancestorMap[tx := ancestorMap[tx] - {root}];
      ancestorFee := ancestorFee[tx := ancestorFee[tx] - c.fee[root]];
      ancestorSize := ancestorSize[tx := ancestorSize[tx] - c.size[root]];
      ancestorSigops := ancestorSigops[tx := ancestorSigops[tx] - c.sigops[root]];
    }

    /** Gathers the ancestors of all candidates. */
    method SetAllRelatives(mempoolArray: seq<Txid>, ghost rank: map<Txid, nat>)
      requires Building() && relativesSet == {} && c.Ranked(rank) && Elems(mempoolArray) == c.Keys()
      requires forall x | x in c.Keys() :: Untouched(ancestorMap, children, x)
      modifies this`relativesSet, this`ancestorMap, this`children, this`ancestorFee, this`ancestorSize, this`ancestorSigops
      ensures Building() && relativesSet == c.Keys() && Ancestry(c, ancestorMap)
    {
      hide Built, TotalsRight, Untouched, Candidates.Ranked, Kept, Ancestry;
      for i := 0 to |mempoolArray|
        invariant Building() && Elems(mempoolArray[..i]) <= relativesSet <= c.Keys()
        invariant forall x | x in c.Keys() && x !in relativesSet :: Untouched(ancestorMap, children, x)
      {
        var tx := mempoolArray[i];
        assert mempoolArray[..i + 1] == mempoolArray[..i] + [tx];
        assert tx in Elems(mempoolArray);
        if tx !in relativesSet {
          ghost var anc, kids, done := ancestorMap, children, relativesSet;
          RankKeys(c, rank);
          SetRelatives(tx, rank);
          BuiltKeys(c, ancestorMap, children, relativesSet);
          forall x | x in c.Keys() && x !in relativesSet ensures Untouched(ancestorMap, children, x) {
            StillUntouched(anc, kids, done, ancestorMap, children, relativesSet, {}, x);
          }
        }
      }
      assert mempoolArray[..|mempoolArray|] == mempoolArray;
      assert relativesSet == c.Keys();
      BuiltAll(c, ancestorMap, children);
    }
  }

  lemma RankKeys(c: Candidates, rank: map<Txid, nat>)
    requires c.Ranked(rank)
    ensures rank.Keys == c.Keys()
  {
  }

  lemma BuiltAll(c: Candidates, anc: Relatives, kids: Relatives)
    requires Built(c, anc, kids, c.Keys())
    ensures Ancestry(c, anc)
  {
    SettledAncestry(c, anc, kids);
  }

  lemma BuiltKeys(c: Candidates, anc: Relatives, kids: Relatives, done: set<Txid>)
    requires Built(c, anc, kids, done)
    ensures c.WellFormed() && anc.Keys == kids.Keys == c.Keys() && done <= c.Keys()
  {
  }

  lemma GatheringParts(c: Candidates, anc0: Relatives, kids0: Relatives, done0: set<Txid>, anc: Relatives, kids: Relatives, done: set<Txid>,
                       tx: Txid, rank: map<Txid, nat>)
    requires Gathering(c, anc0, kids0, done0, anc, kids, done, tx, rank)
    ensures Built(c, anc, kids, done) && c.Ranked(rank) && tx in c.Keys() && tx !in done && done0 <= done && rank.Keys == c.Keys()
  {
  }

  lemma UntouchedAt(c: Candidates, anc: Relatives, kids: Relatives, done: set<Txid>, rank: map<Txid, nat>, tx: Txid)
    requires tx in c.Keys() && tx !in done && tx in rank && AllUntouched(c, anc, kids, done, rank, rank[tx])
    ensures Untouched(anc, kids, tx)
  {
  }

  lemma IsParent(c: Candidates, tx: Txid, i: nat)
    requires tx in c.inputs && i < |c.inputs[tx]| && c.inputs[tx][i] in c.fee
    ensures c.inputs[tx][i] in c.Parents(tx)
  {
  }

  lemma ParentsIn(c: Candidates, anc: Relatives, tx: Txid)
    requires tx in c.inputs && tx in anc
    requires forall j | 0 <= j < |c.inputs[tx]| && c.inputs[tx][j] in c.fee :: c.inputs[tx][j] in anc[tx]
    ensures c.Parents(tx) <= Of(anc, tx)
  {
  }

  lemma KeptSelf(anc: Relatives, kids: Relatives, done: set<Txid>)
    ensures Kept(anc, kids, done, anc, kids, done, {})
  {
  }
}
