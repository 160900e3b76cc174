/** `dag.py`: the lexicographically stable topological order and the level cut. */
module Dag {
  import opened Names
  import opened Graphs

  /** A result, or one of the two errors `topo_sort` and `levels` raise. */
  datatype Outcome<T> =
    | Ok(value: T)
    | MissingDeps(missing: map<Name, seq<Name>>)
    | Cyclic(stuck: seq<Name>)

  /** The nodes with unknown dependencies, each with the sorted unknown ones. */
  function MissingOf(g: Graph): map<Name, seq<Name>> {
    map n | n in g && exists d :: d in g[n] && d !in g :: Sorted(DepSet(g, n) - g.Keys)
  }

  /** Reported are exactly the nodes with a dependency that is no node, each with exactly those, sorted. */
  lemma {:induction false} MissingIsExact(g: Graph, n: Name, d: Name)
    ensures n in MissingOf(g) <==> n in g && exists x :: x in g[n] && x !in g
    ensures n in MissingOf(g) ==> Increasing(MissingOf(g)[n]) && (d in MissingOf(g)[n] <==> d in g[n] && d !in g)
  {
    if n in MissingOf(g) {
      var listed := MissingOf(g)[n];
      assert d in listed <==> d in Elements(listed);
      assert d in g[n] <==> d in DepSet(g, n);
    }
  }

  // ---------- Building in-degrees ----------

  function OutOf(out: map<Name, set<Name>>, u: Name): set<Name> {
    if u in out then out[u] else {}
  }

  predicate HasEdge(out: map<Name, set<Name>>, u: Name, v: Name) {
    v in OutOf(out, u)
  }

  lemma {:induction false} AddedEdge(out: map<Name, set<Name>>, d: Name, n: Name)
    ensures forall u, v :: HasEdge(out[d := OutOf(out, d) + {n}], u, v) <==> HasEdge(out, u, v) || (u == d && v == n)
  {
    var next := out[d := OutOf(out, d) + {n}];
    forall u, v ensures HasEdge(next, u, v) <==> HasEdge(out, u, v) || (u == d && v == n) {
      assert OutOf(next, u) == if u == d then OutOf(out, d) + {n} else OutOf(out, u);
    }
  }

  /** `out'` is `out` with an edge to `n` from each of `ds`. */
  ghost predicate EdgesAdded(out: map<Name, set<Name>>, out': map<Name, set<Name>>, n: Name, ds: set<Name>) {
    forall u, v :: HasEdge(out', u, v) <==> HasEdge(out, u, v) || (v == n && u in ds)
  }

  lemma {:induction false} OneMoreEdge(out: map<Name, set<Name>>, out': map<Name, set<Name>>, n: Name, ds: set<Name>,
                                       d: Name)
    requires EdgesAdded(out, out', n, ds)
    ensures EdgesAdded(out, out'[d := OutOf(out', d) + {n}], n, ds + {d})
  {
    var next := out'[d := OutOf(out', d) + {n}];
    AddedEdge(out', d, n);
    forall u, v ensures HasEdge(next, u, v) <==> HasEdge(out, u, v) || (v == n && u in ds + {d}) {
      assert HasEdge(next, u, v) <==> HasEdge(out', u, v) || (u == d && v == n);
    }
  }

  /** The edges of one node: its in-degree rises once per distinct dependency. */
  method AddEdges(n: Name, deps: set<Name>, indeg: map<Name, int>, out: map<Name, set<Name>>)
    returns (indeg': map<Name, int>, out': map<Name, set<Name>>)
    requires n in indeg
    ensures indeg'.Keys == indeg.Keys && indeg'[n] == indeg[n] + |deps|
    ensures forall m | m in indeg && m != n :: indeg'[m] == indeg[m]
    ensures EdgesAdded(out, out', n, deps)
  {
    indeg', out' := indeg, out;
    var todo := deps;
    while todo != {}
      invariant todo <= deps
      invariant indeg'.Keys == indeg.Keys && indeg'[n] == indeg[n] + |deps| - |todo|
      invariant forall m | m in indeg && m != n :: indeg'[m] == indeg[m]
      invariant EdgesAdded(out, out', n, deps - todo)
    {
      var d :| d in todo;
      OneMoreEdge(out, out', n, deps - todo, d);
      assert deps - (todo - {d}) == (deps - todo) + {d};
      out' := out'[d := OutOf(out', d) + {n}];
      indeg' := indeg'[n := indeg'[n] + 1];
      todo := todo - {d};
    }
    assert deps - {} == deps;
  }

  method Degrees(g: Graph) returns (indeg: map<Name, int>, out: map<Name, set<Name>>)
    ensures indeg.Keys == g.Keys && forall n | n in g :: indeg[n] == |DepSet(g, n)|
    ensures forall u :: OutOf(out, u) == Dependents(g, u)
  {
    indeg := map n | n in g :: 0;
    out := map[];
    var todo := g.Keys;
    while todo != {}
      invariant todo <= g.Keys == indeg.Keys
      invariant forall m | m in g :: indeg[m] == if m in todo then 0 else |DepSet(g, m)|
      invariant forall u, v :: HasEdge(out, u, v) <==> v in g && v !in todo && u in DepSet(g, v)
    {
      var n :| n in todo;
      indeg, out := AddEdges(n, DepSet(g, n), indeg, out);
      todo := todo - {n};
    }
    forall u ensures OutOf(out, u) == Dependents(g, u) {
      forall v ensures v in OutOf(out, u) <==> v in Dependents(g, u) {
        assert HasEdge(out, u, v) <==> v in OutOf(out, u);
      }
    }
  }

  // ---------- Releasing the dependents of a finished node ----------

  /** How many dependencies of `n` are not done. */
  function Pending(g: Graph, done: set<Name>, n: Name): nat
    requires n in g
  {
    |DepSet(g, n) - done|
  }

  ghost predicate Counts(g: Graph, done: set<Name>, indeg: map<Name, int>) {
    indeg.Keys == g.Keys && forall n {:trigger Pending(g, done, n)} | n in g :: indeg[n] == Pending(g, done, n)
  }

  lemma {:induction false} ReadyIffZero(g: Graph, done: set<Name>, n: Name)
    requires n in g
    ensures Pending(g, done, n) == 0 <==> DepSet(g, n) <= done
  {
    if Pending(g, done, n) == 0 {
      forall d | d in DepSet(g, n) ensures d in done { assert d !in DepSet(g, n) - done; }
    } else {
      var d :| d in DepSet(g, n) - done;
    }
  }

  method Decrement(g: Graph, ghost done: set<Name>, ghost u: Name, ghost seen: set<Name>, v: Name,
                   indeg: map<Name, int>, frontier: set<Name>)
    returns (indeg': map<Name, int>, frontier': set<Name>)
    requires PartCounts(g, done, seen, indeg) && v !in seen && v in Dependents(g, u) && u !in done
    ensures PartCounts(g, done, seen + {v}, indeg')
    ensures frontier' == frontier + if DepSet(g, v) <= done + {u} then {v} else {}
  {
    Loses(g, done, u, v);
    ReadyIffZero(g, done + {u}, v);
    indeg', frontier' := indeg[v := indeg[v] - 1], frontier;
    if indeg'[v] == 0 { frontier' := frontier' + {v}; }
  }

  /** One pass over the dependents of `u`: the ones that became ready join the frontier. */
  method Release(g: Graph, ghost done: set<Name>, u: Name, out: map<Name, set<Name>>,
                 indeg: map<Name, int>, frontier: set<Name>)
    returns (indeg': map<Name, int>, frontier': set<Name>)
    requires Counts(g, done, indeg) && u !in done && OutOf(out, u) == Dependents(g, u)
    ensures Counts(g, done + {u}, indeg')
    ensures frontier' == frontier + FreedBy(g, done + {u}, Dependents(g, u))
  {
    indeg', frontier' := indeg, frontier;
    var vs := Sorted(OutOf(out, u));
    ghost var seen: set<Name> := {};
    ReleaseStarts(g, done, u, vs, indeg, frontier);
    for i := 0 to |vs|
      invariant seen == Elements(vs[..i]) && Releasing(g, done, u, seen, indeg', frontier, frontier')
    {
      NextDependent(g, u, vs, i);
      indeg', frontier' := Decrement(g, done, u, seen, vs[i], indeg', frontier');
      FreedByOneMore(g, done + {u}, seen, vs[i], frontier);
      seen := seen + {vs[i]};
    }
    AllSeen(g, u, vs);
    AllCounted(g, done, u, indeg');
  }

  /** The dependents in `seen` have been decremented, and those of them that became ready are in the frontier. */
  ghost predicate Releasing(g: Graph, done: set<Name>, u: Name, seen: set<Name>, indeg: map<Name, int>,
                            frontier: set<Name>, frontier': set<Name>) {
    PartCounts(g, done, seen, indeg) && frontier' == frontier + FreedBy(g, done + {u}, seen)
  }

  lemma {:induction false} ReleaseStarts(g: Graph, done: set<Name>, u: Name, vs: seq<Name>, indeg: map<Name, int>,
                                         frontier: set<Name>)
    requires Counts(g, done, indeg)
    ensures Elements(vs[..0]) == {} && Releasing(g, done, u, {}, indeg, frontier, frontier)
  {
    assert FreedBy(g, done + {u}, {}) == {};
  }

  lemma {:induction false} AllSeen(g: Graph, u: Name, vs: seq<Name>)
    requires vs == Sorted(Dependents(g, u))
    ensures Elements(vs[..|vs|]) == Dependents(g, u)
  {
    assert vs[..|vs|] == vs;
  }

  lemma {:induction false} NextDependent(g: Graph, u: Name, vs: seq<Name>, i: nat)
    requires vs == Sorted(Dependents(g, u)) && i < |vs|
    ensures vs[i] in Dependents(g, u) && vs[i] !in Elements(vs[..i])
    ensures Elements(vs[..i + 1]) == Elements(vs[..i]) + {vs[i]}
  {
    IncreasingIsDistinct(vs);
    NextSeen(vs, i);
  }

  /** In-degrees when the dependents in `seen` have been decremented. */
  ghost predicate PartCounts(g: Graph, done: set<Name>, seen: set<Name>, indeg: map<Name, int>) {
    indeg.Keys == g.Keys &&
    forall v {:trigger Pending(g, done, v)} | v in g :: indeg[v] == Pending(g, done, v) - if v in seen then 1 else 0
  }

  lemma {:induction false} AllCounted(g: Graph, done: set<Name>, u: Name, indeg: map<Name, int>)
    requires PartCounts(g, done, Dependents(g, u), indeg) && u !in done
    ensures Counts(g, done + {u}, indeg)
  {
    forall v | v in g ensures indeg[v] == Pending(g, done + {u}, v) { Loses(g, done, u, v); }
  }

  /** A dependency-closed set of known nodes. */
  ghost predicate DoneClosed(g: Graph, done: set<Name>) {
    done <= g.Keys && forall n | n in done :: DepSet(g, n) <= done
  }

  function FreedBy(g: Graph, done: set<Name>, vs: set<Name>): set<Name> {
    set v | v in vs && v in g && DepSet(g, v) <= done
  }

  lemma {:induction false} FreedByOneMore(g: Graph, done: set<Name>, vs: set<Name>, v: Name, frontier: set<Name>)
    requires v in g
    ensures frontier + FreedBy(g, done, vs + {v}) ==
            frontier + FreedBy(g, done, vs) + if DepSet(g, v) <= done then {v} else {}
  {
  }

  lemma {:induction false} NextSeen(vs: seq<Name>, i: nat)
    requires i < |vs| && Distinct(vs)
    ensures vs[i] in Elements(vs)
    ensures vs[i] !in Elements(vs[..i]) && Elements(vs[..i + 1]) == Elements(vs[..i]) + {vs[i]}
  {
    assert vs[..i + 1] == vs[..i] + [vs[i]];
  }

  lemma {:induction false} Loses(g: Graph, done: set<Name>, u: Name, v: Name)
    requires v in g && u !in done
    ensures Pending(g, done + {u}, v) == Pending(g, done, v) - if v in Dependents(g, u) then 1 else 0
  {
    if v in Dependents(g, u) {
      assert DepSet(g, v) - done == (DepSet(g, v) - (done + {u})) + {u};
    } else {
      assert DepSet(g, v) - (done + {u}) == DepSet(g, v) - done;
    }
  }

  // ---------- topo_sort ----------

  /** Every dependency comes before its dependent. */
  ghost predicate DepsFirst(g: Graph, order: seq<Name>) {
    forall i | 0 <= i < |order| :: order[i] in g && DepSet(g, order[i]) <= Elements(order[..i])
  }

  /** A duplicate-free listing of all nodes with dependencies first. */
  ghost predicate LinearExtension(g: Graph, order: seq<Name>) {
    Distinct(order) && Elements(order) == g.Keys && DepsFirst(g, order)
  }

  /** `a` equals `b` or is smaller at the first place where they differ. */
  ghost predicate LexLe(a: seq<Name>, b: seq<Name>) {
    a == b || exists i :: 0 <= i < |a| && i < |b| && a[..i] == b[..i] && Lt(a[i], b[i])
  }

  ghost predicate LexLeast(g: Graph, order: seq<Name>) {
    forall q | LinearExtension(g, q) :: LexLe(order, q)
  }

  /** Each element is the least one available when it is chosen. */
  ghost predicate Greedy(g: Graph, order: seq<Name>) {
    forall i | 0 <= i < |order| :: IsLeast(order[i], Ready(g, Elements(order[..i])))
  }

  ghost predicate IsStuckList(g: Graph, stuck: seq<Name>) {
    stuck != [] && Increasing(stuck) && forall n :: n in stuck <==> n in g && BelowCycle(g, n)
  }

  /** What holds of the order built so far. */
  ghost predicate Partial(g: Graph, order: seq<Name>) {
    Distinct(order) && DepsFirst(g, order) && Greedy(g, order)
  }

  /** What the loop keeps: the in-degrees count what is missing from `order`, the heap holds what may come next. */
  ghost predicate Sorting(g: Graph, order: seq<Name>, indeg: map<Name, int>, heap: set<Name>) {
    Counts(g, Elements(order), indeg) && heap == Ready(g, Elements(order)) && Partial(g, order)
  }

  method TopoSort(g: Graph) returns (r: Outcome<seq<Name>>)
    ensures r.MissingDeps? <==> !Closed(g)
    ensures r.MissingDeps? ==> r.missing == MissingOf(g)
    ensures Closed(g) ==> (r.Cyclic? <==> !Acyclic(g))
    ensures r.Cyclic? ==> IsStuckList(g, r.stuck)
    ensures r.Ok? ==> LinearExtension(g, r.value) && LexLeast(g, r.value)
  {
    var missing := MissingOf(g);
    MissingIffOpen(g);
    if missing != map[] {
      return MissingDeps(missing);
    }
    var indeg, out := Degrees(g);
    CountsAtStart(g, indeg);
    var heap := Zeroes(indeg);
    var order: seq<Name> := [];
    SortingStarts(g, indeg);
    while heap != {}
      invariant Sorting(g, order, indeg, heap)
      decreases g.Keys - Elements(order)
    {
      var u := Least(heap);
      OrderStep(g, order, u);
      indeg, heap := Release(g, Elements(order), u, out, indeg, heap - {u});
      order := order + [u];
    }
    if |order| != |g| {
      var left := Positives(indeg);
      OrderFailed(g, order, indeg, left);
      return Cyclic(Sorted(left));
    }
    OrderDone(g, order);
    return Ok(order);
  }

  lemma {:induction false} MissingIffOpen(g: Graph)
    ensures MissingOf(g) == map[] <==> Closed(g)
  {
    forall n, d | n in g && d in g[n] && d !in g ensures n in MissingOf(g) { }
    if MissingOf(g) != map[] { var n :| n in MissingOf(g); }
  }

  /** `[k for k, deg in indeg.items() if deg == 0]` */
  function Zeroes(indeg: map<Name, int>): set<Name> {
    set k | k in indeg && indeg[k] == 0
  }

  /** `[k for k, deg in indeg.items() if deg > 0]` */
  function Positives(indeg: map<Name, int>): set<Name> {
    set k | k in indeg && indeg[k] > 0
  }

  lemma {:induction false} CountsAtStart(g: Graph, indeg: map<Name, int>)
    requires indeg.Keys == g.Keys && forall n | n in g :: indeg[n] == |DepSet(g, n)|
    ensures Counts(g, {}, indeg) && Zeroes(indeg) == Ready(g, {})
  {
    forall n | n in g ensures indeg[n] == Pending(g, {}, n) { assert DepSet(g, n) - {} == DepSet(g, n); }
    ZeroesAreReady(g, {}, indeg);
  }

  lemma {:induction false} SortingStarts(g: Graph, indeg: map<Name, int>)
    requires Counts(g, {}, indeg) && Zeroes(indeg) == Ready(g, {})
    ensures Sorting(g, [], indeg, Zeroes(indeg))
  {
    assert Elements([]) == {};
  }

  lemma {:induction false} ZeroesAreReady(g: Graph, done: set<Name>, indeg: map<Name, int>)
    requires Counts(g, done, indeg)
    ensures Zeroes(indeg) - done == Ready(g, done)
  {
    forall n ensures n in Zeroes(indeg) - done <==> n in Ready(g, done) {
      if n in g { ReadyIffZero(g, done, n); }
    }
  }

  lemma {:induction false} OrderStep(g: Graph, order: seq<Name>, u: Name)
    requires Partial(g, order) && IsLeast(u, Ready(g, Elements(order)))
    ensures Partial(g, order + [u]) && Elements(order + [u]) == Elements(order) + {u}
    ensures var done := Elements(order);
            u in g && u !in done &&
            Ready(g, done + {u}) == Ready(g, done) - {u} + FreedBy(g, done + {u}, Dependents(g, u))
  {
    ExtendOrder(g, order, u);
    ReadyAfter(g, Elements(order), u) by { DoneIsClosed(g, order); }
  }

  lemma {:induction false} SameSizeIsAll(a: set<Name>, b: set<Name>)
    requires a <= b && |a| == |b|
    ensures a == b
  {
    assert b == a + (b - a);
  }

  lemma {:induction false} ExtendOrder(g: Graph, order: seq<Name>, u: Name)
    requires Distinct(order) && DepsFirst(g, order) && Greedy(g, order)
    requires IsLeast(u, Ready(g, Elements(order)))
    ensures Elements(order + [u]) == Elements(order) + {u}
    ensures Distinct(order + [u]) && DepsFirst(g, order + [u]) && Greedy(g, order + [u])
  {
    var next := order + [u];
    forall i | 0 <= i < |order| ensures order[i] != u { assert order[i] in Elements(order); }
    forall i | 0 <= i < |next|
      ensures next[i] in g && DepSet(g, next[i]) <= Elements(next[..i])
      ensures IsLeast(next[i], Ready(g, Elements(next[..i])))
    {
      assert next[..i] == order[..i] && order[..|order|] == order;
    }
  }

  lemma {:induction false} ReadyAfter(g: Graph, done: set<Name>, u: Name)
    requires DoneClosed(g, done)
    requires u in Ready(g, done)
    ensures Ready(g, done + {u}) == Ready(g, done) - {u} + FreedBy(g, done + {u}, Dependents(g, u))
  {
    forall v | v in g && u in g[v] ensures v !in done + {u} {
      assert u in DepSet(g, v);
    }
    forall v | v in g && u !in g[v] && DepSet(g, v) <= done + {u} ensures DepSet(g, v) <= done {
      assert u !in DepSet(g, v);
    }
  }

  lemma {:induction false} DoneIsClosed(g: Graph, order: seq<Name>)
    requires DepsFirst(g, order)
    ensures DoneClosed(g, Elements(order))
  {
    forall n | n in Elements(order) ensures n in g && DepSet(g, n) <= Elements(order) {
      var i :| 0 <= i < |order| && order[i] == n;
      assert Elements(order[..i]) <= Elements(order);
    }
  }

  function PositionRank(order: seq<Name>): (rank: map<Name, nat>)
    ensures rank.Keys == Elements(order)
    decreases |order|
  {
    if order == [] then map[]
    else
      var rest := order[..|order| - 1];
      assert Elements(order) == Elements(rest) + {order[|order| - 1]};
      PositionRank(rest)[order[|order| - 1] := |rest|]
  }

  lemma {:induction false} OrderIsRanked(g: Graph, order: seq<Name>)
    requires Distinct(order) && DepsFirst(g, order)
    ensures Ranked(g, PositionRank(order))
    ensures forall n | n in PositionRank(order) :: PositionRank(order)[n] < |order|
  {
    if order != [] {
      var rest, u := order[..|order| - 1], order[|order| - 1];
      assert forall i | 0 <= i <= |rest| :: rest[..i] == order[..i];
      OrderIsRanked(g, rest);
      assert u !in rest;
      assert u !in Elements(rest);
      forall d | d in g[u] ensures d in Elements(rest) { assert d in DepSet(g, u); }
    }
  }

  lemma {:induction false} RankedGraphIsAcyclic(g: Graph, rank: map<Name, nat>)
    requires Ranked(g, rank) && rank.Keys == g.Keys
    ensures Acyclic(g)
  {
    forall c ensures !IsCycle(g, c) {
      if IsCycle(g, c) { RankDropsOnPath(g, rank, c); }
    }
  }

  /** When nothing is ready, every node left has a dependency that is left. */
  lemma {:induction false} LeftoverIsStuck(g: Graph, done: set<Name>)
    requires Closed(g) && Ready(g, done) == {}
    ensures Stuck(g, g.Keys - done)
  {
    var rest := g.Keys - done;
    forall m | m in rest ensures DepSet(g, m) * rest != {} {
      assert m !in Ready(g, done);
      var d :| d in DepSet(g, m) && d !in done;
      assert d in g[m];
      assert d in DepSet(g, m) * rest;
    }
  }

  lemma {:induction false} BelowCycleHasCycle(g: Graph, n: Name)
    requires BelowCycle(g, n)
    ensures !Acyclic(g)
  {
    var p, c :| IsCycle(g, c) && Leads(g, n, p, c[0]);
  }

  /** Outside `done` are exactly the nodes on or below a cycle. */
  ghost predicate Leftover(g: Graph, done: set<Name>) {
    forall n | n in g :: BelowCycle(g, n) <==> n !in done
  }

  /** Once nothing is ready, the nodes outside a closed `done` are those below a cycle. */
  lemma {:induction false} LeftoverIsBelowCycle(g: Graph, done: set<Name>, rank: map<Name, nat>)
    requires Closed(g) && Ready(g, done) == {} && Ranked(g, rank) && rank.Keys == done
    ensures done <= g.Keys
    ensures Leftover(g, done)
    ensures done != g.Keys ==> !Acyclic(g)
  {
    assert done <= g.Keys by {
      forall n | n in done ensures n in g { assert n in rank; }
    }
    LeftoverIsStuck(g, done);
    forall n | n in g ensures BelowCycle(g, n) <==> n !in done {
      if n in done { RankedIsOffCycle(g, rank, n); } else { StuckIsBelowCycle(g, g.Keys - done, n); }
    }
    if n :| n in g && n !in done { BelowCycleHasCycle(g, n); }
  }

  lemma {:induction false} StuckListed(g: Graph, done: set<Name>, indeg: map<Name, int>, left: set<Name>)
    requires Closed(g) && Ready(g, done) == {} && Counts(g, done, indeg)
    requires DoneClosed(g, done) && done != g.Keys
    requires Leftover(g, done)
    requires left == Positives(indeg)
    ensures IsStuckList(g, Sorted(left))
  {
    var stuck := Sorted(left);
    forall n ensures n in stuck <==> n in g && BelowCycle(g, n) {
      assert n in stuck <==> n in Elements(stuck);
      if n in g {
        ReadyIffZero(g, done, n);
        assert n !in Ready(g, done);
      }
    }
    var n :| n in g && n !in done;
    assert n in stuck;
  }

  /** When nothing is ready and something is left, there is a cycle and the list of leftovers is right. */
  lemma {:induction false} LeftoverFails(g: Graph, done: set<Name>, rank: map<Name, nat>, indeg: map<Name, int>)
    requires Closed(g) && Ready(g, done) == {} && Ranked(g, rank) && rank.Keys == done
    requires Counts(g, done, indeg) && DoneClosed(g, done) && done != g.Keys
    ensures !Acyclic(g) && IsStuckList(g, Sorted(Positives(indeg)))
  {
    assert !Acyclic(g) by { LeftoverIsBelowCycle(g, done, rank); }
    assert IsStuckList(g, Sorted(Positives(indeg))) by { LeftoverIsListed(g, done, rank, indeg); }
  }

  lemma {:induction false} LeftoverIsListed(g: Graph, done: set<Name>, rank: map<Name, nat>, indeg: map<Name, int>)
    requires Closed(g) && Ready(g, done) == {} && Ranked(g, rank) && rank.Keys == done
    requires Counts(g, done, indeg) && DoneClosed(g, done) && done != g.Keys
    ensures IsStuckList(g, Sorted(Positives(indeg)))
  {
    LeftoverIsBelowCycle(g, done, rank);
    StuckListed(g, done, indeg, Positives(indeg));
  }

  lemma {:induction false} OrderFailed(g: Graph, order: seq<Name>, indeg: map<Name, int>, left: set<Name>)
    requires Closed(g) && Partial(g, order) && Ready(g, Elements(order)) == {}
    requires Counts(g, Elements(order), indeg) && |order| != |g|
    requires left == Positives(indeg)
    ensures !Acyclic(g) && IsStuckList(g, Sorted(left))
  {
    var done := Elements(order);
    OrderIsRanked(g, order);
    assert done != g.Keys by { DistinctSize(order); }
    DoneIsClosed(g, order);
    LeftoverFails(g, done, PositionRank(order), indeg);
  }

  lemma {:induction false} OrderDone(g: Graph, order: seq<Name>)
    requires Partial(g, order) && |order| == |g|
    ensures LinearExtension(g, order) && LexLeast(g, order) && Acyclic(g)
  {
    DistinctSize(order);
    DoneIsClosed(g, order);
    SameSizeIsAll(Elements(order), g.Keys);
    forall q | LinearExtension(g, q) ensures LexLe(order, q) { GreedyIsLeast(g, order, q); }
    OrderIsRanked(g, order);
    RankedGraphIsAcyclic(g, PositionRank(order));
  }

  /** A greedy order is below every linear extension at their first difference. */
  lemma {:induction false} GreedyIsLeast(g: Graph, order: seq<Name>, q: seq<Name>)
    requires LinearExtension(g, order) && Greedy(g, order) && LinearExtension(g, q)
    ensures LexLe(order, q)
  {
    DistinctSize(order);
    DistinctSize(q);
    if order != q {
      var i := FirstDifference(order, q);
      assert q[i] in Ready(g, Elements(order[..i]));
    }
  }

  lemma {:induction false} FirstDifference(a: seq<Name>, b: seq<Name>) returns (i: nat)
    requires |a| == |b| && a != b
    ensures i < |a| && a[..i] == b[..i] && a[i] != b[i]
  {
    if a[0] != b[0] {
      i := 0;
    } else {
      assert a == [a[0]] + a[1..] && b == [b[0]] + b[1..];
      i := FirstDifference(a[1..], b[1..]);
      assert a[..i + 1] == [a[0]] + a[1..][..i] && b[..i + 1] == [b[0]] + b[1..][..i];
      i := i + 1;
    }
  }

  // ---------- levels ----------

  /** There is a dependency chain with `k` edges starting at `n`. */
  ghost predicate HasChain(g: Graph, n: Name, k: nat) {
    exists p :: IsPath(g, p) && p[0] == n && |p| == k + 1
  }

  ghost predicate LongestChain(g: Graph, n: Name, k: nat) {
    HasChain(g, n, k) && !HasChain(g, n, k + 1)
  }

  /** What the rank of a finished cut satisfies: it drops along dependencies, by one along some. */
  ghost predicate Tight(g: Graph, rank: map<Name, nat>) {
    Ranked(g, rank) && forall n {:trigger TightAt(g, rank, n)} | n in rank && rank[n] > 0 :: TightAt(g, rank, n)
  }

  ghost predicate TightAt(g: Graph, rank: map<Name, nat>, n: Name) {
    n in g && exists d :: d in g[n] && d in rank && n in rank && rank[d] + 1 == rank[n]
  }

  ghost predicate Lists(lvls: seq<seq<Name>>, rank: map<Name, nat>) {
    (forall n | n in rank :: rank[n] < |lvls|) &&
    forall i, n | 0 <= i < |lvls| :: n in lvls[i] <==> n in rank && rank[n] == i
  }

  ghost predicate Tidy(lvls: seq<seq<Name>>) {
    forall i | 0 <= i < |lvls| :: lvls[i] != [] && Increasing(lvls[i])
  }

  method Levels(g: Graph) returns (r: Outcome<seq<seq<Name>>>)
    ensures r.MissingDeps? <==> !Closed(g)
    ensures r.MissingDeps? ==> r.missing == MissingOf(g)
    ensures Closed(g) ==> (r.Cyclic? <==> !Acyclic(g))
    ensures r.Cyclic? ==> IsStuckList(g, r.stuck)
    ensures r.Ok? ==> Tidy(r.value) && ByLongestChain(g, r.value)
  {
    var missing := MissingOf(g);
    MissingIffOpen(g);
    if missing != map[] {
      return MissingDeps(missing);
    }
    var indeg, out := Degrees(g);
    CountsAtStart(g, indeg);
    var lvls, seenCount;
    ghost var rank;
    lvls, seenCount, indeg, rank := CutAll(g, indeg, out);
    NothingReady(g, rank.Keys);
    if seenCount != |g| {
      LevelsFailed(g, rank, indeg);
      return Cyclic(Sorted(Positives(indeg)));
    }
    LevelsDone(g, rank);
    CutIsByLongestChain(g, lvls, rank);
    return Ok(lvls);
  }

  /** Every node sits in the one level numbered by its longest dependency chain. */
  ghost predicate ByLongestChain(g: Graph, lvls: seq<seq<Name>>) {
    (forall i: nat, n {:trigger At(lvls, i, n)} | i < |lvls| :: At(lvls, i, n) <==> n in g && LongestChain(g, n, i)) &&
    forall n {:trigger Placed(lvls, n)} | n in g :: Placed(lvls, n)
  }

  ghost predicate At(ls: seq<seq<Name>>, i: int, n: Name) {
    0 <= i < |ls| && n in ls[i]
  }

  ghost predicate Placed(ls: seq<seq<Name>>, n: Name) {
    exists i :: At(ls, i, n)
  }

  /** What the loop keeps: the in-degrees count what is missing from the levels, `current` comes next. */
  ghost predicate Cutting(g: Graph, lvls: seq<seq<Name>>, rank: map<Name, nat>, indeg: map<Name, int>,
                          current: seq<Name>) {
    Counts(g, rank.Keys, indeg) && current == Sorted(Ready(g, rank.Keys)) && CutSoFar(g, lvls, rank)
  }

  /** The loop of `levels`: each level is what the levels before it have freed. */
  method CutAll(g: Graph, indeg: map<Name, int>, out: map<Name, set<Name>>)
    returns (lvls: seq<seq<Name>>, seenCount: nat, indeg': map<Name, int>, ghost rank: map<Name, nat>)
    requires Counts(g, {}, indeg) && Zeroes(indeg) == Ready(g, {})
    requires forall u :: OutOf(out, u) == Dependents(g, u)
    ensures Tidy(lvls) && Cutting(g, lvls, rank, indeg', []) && seenCount == |rank.Keys|
  {
    indeg' := indeg;
    var current := Sorted(Zeroes(indeg));
    lvls, seenCount, rank := [], 0, map[];
    CuttingStarts(g, indeg);
    while current != []
      invariant Cutting(g, lvls, rank, indeg', current) && seenCount == |rank.Keys|
      decreases g.Keys - rank.Keys
    {
      var next;
      ghost var rank';
      indeg', next, rank' := CutOne(g, lvls, current, indeg', out, rank);
      seenCount := seenCount + |current|;
      lvls, current, rank := lvls + [current], next, rank';
    }
  }

  /** One turn of that loop. */
  method CutOne(g: Graph, ghost lvls: seq<seq<Name>>, current: seq<Name>, indeg: map<Name, int>, out: map<Name,
                set<Name>>,
                ghost rank: map<Name, nat>)
    returns (indeg': map<Name, int>, next: seq<Name>, ghost rank': map<Name, nat>)
    requires Cutting(g, lvls, rank, indeg, current) && current != []
    requires forall u :: OutOf(out, u) == Dependents(g, u)
    ensures Increasing(next) && Cutting(g, lvls + [current], rank', indeg', next)
    ensures |rank'.Keys| == |rank.Keys| + |current| && g.Keys - rank'.Keys < g.Keys - rank.Keys
  {
    rank' := CutStep(g, lvls, rank, current);
    indeg', next := Advance(g, rank.Keys, current, out, indeg);
  }

  lemma {:induction false} CuttingStarts(g: Graph, indeg: map<Name, int>)
    requires Counts(g, {}, indeg) && Zeroes(indeg) == Ready(g, {})
    ensures Cutting(g, [], map[], indeg, Sorted(Zeroes(indeg)))
  {
    var rank: map<Name, nat> := map[];
    assert rank.Keys == {};
  }

  /** The levels built so far, and the reason why the next nodes were not in the last of them. */
  ghost predicate CutSoFar(g: Graph, lvls: seq<seq<Name>>, rank: map<Name, nat>) {
    Tidy(lvls) && Lists(lvls, rank) && Tight(g, rank) &&
    (|lvls| > 0 ==> AllDependOn(g, rank, Ready(g, rank.Keys), |lvls| - 1))
  }

  ghost predicate AllDependOn(g: Graph, rank: map<Name, nat>, ns: set<Name>, i: nat) {
    forall n | n in ns :: DependsOnLevel(g, rank, n, i)
  }

  ghost predicate DependsOnLevel(g: Graph, rank: map<Name, nat>, n: Name, i: nat) {
    n in g && exists d :: d in g[n] && d in rank && rank[d] == i
  }

  /** One level of `levels`: every node of `current` releases its dependents. */
  method Advance(g: Graph, ghost done: set<Name>, current: seq<Name>,
                 out: map<Name, set<Name>>, indeg: map<Name, int>)
    returns (indeg': map<Name, int>, next: seq<Name>)
    requires Counts(g, done, indeg) && current == Sorted(Ready(g, done))
    requires DoneClosed(g, done)
    requires forall u :: OutOf(out, u) == Dependents(g, u)
    ensures Counts(g, done + Elements(current), indeg')
    ensures next == Sorted(Ready(g, done + Elements(current)))
  {
    indeg' := indeg;
    var nextZero: set<Name> := {};
    ghost var now := done;
    AdvanceStart(g, done, current);
    for i := 0 to |current|
      invariant now == done + Elements(current[..i]) && Counts(g, now, indeg')
      invariant DoneClosed(g, now)
      invariant Elements(current[i..]) <= Ready(g, now)
      invariant nextZero == Ready(g, now) - Elements(current[i..])
    {
      Visit(done, current, i);
      ReadyRest(g, now, current, i);
      indeg', nextZero := Release(g, now, current[i], out, indeg', nextZero);
      now := now + {current[i]};
    }
    AdvanceEnd(g, now, current);
    next := Sorted(nextZero);
  }

  lemma {:induction false} AdvanceStart(g: Graph, done: set<Name>, current: seq<Name>)
    requires current == Sorted(Ready(g, done))
    ensures Distinct(current) && Elements(current[0..]) <= Ready(g, done)
    ensures done + Elements(current[..0]) == done && Ready(g, done) - Elements(current[0..]) == {}
  {
    assert current[0..] == current;
    IncreasingIsDistinct(current);
  }

  lemma {:induction false} AdvanceEnd(g: Graph, now: set<Name>, current: seq<Name>)
    ensures current[..|current|] == current
    ensures Ready(g, now) - Elements(current[|current|..]) == Ready(g, now)
  {
    assert Elements(current[|current|..]) == {};
  }

  lemma {:induction false} Visit(done: set<Name>, current: seq<Name>, i: nat)
    requires i < |current| && Distinct(current)
    ensures done + Elements(current[..i + 1]) == done + Elements(current[..i]) + {current[i]}
  {
    NextSeen(current, i);
  }

  lemma {:induction false} ReadyRest(g: Graph, now: set<Name>, current: seq<Name>, i: nat)
    requires i < |current| && Distinct(current) && Elements(current[i..]) <= Ready(g, now)
    requires DoneClosed(g, now)
    ensures var u := current[i]; var freed := FreedBy(g, now + {u}, Dependents(g, u));
            u in g && u !in now && DoneClosed(g, now + {u}) &&
            Elements(current[i + 1..]) <= Ready(g, now + {u}) &&
            Ready(g, now) - Elements(current[i..]) + freed == Ready(g, now + {u}) - Elements(current[i + 1..])
  {
    var u, rest := current[i], current[i + 1..];
    assert current[i..] == [u] + rest;
    assert u in Elements(current[i..]);
    assert Elements(current[i..]) == {u} + Elements(rest);
    assert u !in Elements(rest);
    ReadyAfter(g, now, u);
    forall m | m in Elements(rest) ensures m in Ready(g, now + {u}) && m !in Dependents(g, u) {
      assert m in Ready(g, now);
      assert DepSet(g, m) <= now;
    }
  }

  lemma {:induction false} TidyStep(lvls: seq<seq<Name>>, current: seq<Name>)
    requires Tidy(lvls) && current != [] && Increasing(current)
    ensures Tidy(lvls + [current])
  {
  }

  lemma {:induction false} CurrentFacts(g: Graph, rank: map<Name, nat>, current: seq<Name>)
    requires current == Sorted(Ready(g, rank.Keys)) && current != [] && Ranked(g, rank)
    ensures Increasing(current) && Elements(current) == Ready(g, rank.Keys)
    ensures DoneClosed(g, rank.Keys)
    ensures |rank.Keys + Elements(current)| == |rank.Keys| + |current|
    ensures g.Keys - (rank.Keys + Elements(current)) < g.Keys - rank.Keys
  {
    RankKeysClosed(g, rank);
    IncreasingIsDistinct(current);
    DistinctSize(current);
    assert current[0] in Elements(current);
  }

  ghost function Assign(rank: map<Name, nat>, ns: set<Name>, i: nat): (r: map<Name, nat>)
    ensures r.Keys == rank.Keys + ns
    ensures forall n | n in r :: r[n] == if n in ns then i else rank[n]
  {
    rank + map n | n in ns :: i
  }

  lemma {:induction false} CutStep(g: Graph, lvls: seq<seq<Name>>, rank: map<Name, nat>, current: seq<Name>)
    returns (next: map<Name, nat>)
    requires CutSoFar(g, lvls, rank) && current == Sorted(Ready(g, rank.Keys)) && current != []
    ensures CutSoFar(g, lvls + [current], next) && DoneClosed(g, rank.Keys)
    ensures next.Keys == rank.Keys + Elements(current) && |next.Keys| == |rank.Keys| + |current|
    ensures g.Keys - next.Keys < g.Keys - rank.Keys
  {
    CurrentFacts(g, rank, current);
    next := Assign(rank, Elements(current), |lvls|);
    TidyStep(lvls, current);
    assert Tight(g, next) by { RankStep(g, rank, Elements(current), |lvls|); }
    assert Lists(lvls + [current], next) by { ListsStep(lvls, rank, current); }
    NextDependsOnLevel(g, rank, Elements(current), |lvls|);
  }

  lemma {:induction false} NextDependsOnLevel(g: Graph, rank: map<Name, nat>, added: set<Name>, i: nat)
    requires added == Ready(g, rank.Keys)
    ensures AllDependOn(g, Assign(rank, added, i), Ready(g, rank.Keys + added), i)
  {
    forall n | n in Ready(g, rank.Keys + added) ensures DependsOnLevel(g, Assign(rank, added, i), n, i) {
      assert n !in added;
      var d :| d in DepSet(g, n) && d !in rank.Keys;
      assert d in added;
    }
  }

  lemma {:induction false} RankKeysClosed(g: Graph, rank: map<Name, nat>)
    requires Ranked(g, rank)
    ensures DoneClosed(g, rank.Keys)
  {
    forall n | n in rank.Keys ensures n in g && DepSet(g, n) <= rank.Keys {
      assert n in rank;
    }
  }

  lemma {:induction false} RankStep(g: Graph, rank: map<Name, nat>, added: set<Name>, i: nat)
    requires Tight(g, rank) && added == Ready(g, rank.Keys)
    requires forall n | n in rank :: rank[n] < i
    requires i > 0 ==> AllDependOn(g, rank, added, i - 1)
    ensures Tight(g, Assign(rank, added, i))
  {
    var rank' := Assign(rank, added, i);
    forall n | n in rank'
      ensures n in g && (forall d | d in g[n] :: d in rank' && rank'[d] < rank'[n])
      ensures rank'[n] > 0 ==> TightAt(g, rank', n)
    {
      if n in added {
        forall d | d in g[n] ensures d in rank { assert d in DepSet(g, n); }
        if i > 0 { assert DependsOnLevel(g, rank, n, i - 1); }
      } else {
        assert n in rank;
        if rank[n] > 0 { assert TightAt(g, rank, n); }
      }
    }
  }

  lemma {:induction false} ListsStep(lvls: seq<seq<Name>>, rank: map<Name, nat>, current: seq<Name>)
    requires Lists(lvls, rank) && Elements(current) !! rank.Keys
    ensures Lists(lvls + [current], Assign(rank, Elements(current), |lvls|))
  {
    var next := lvls + [current];
    var rank' := Assign(rank, Elements(current), |lvls|);
    forall i, n | 0 <= i < |next| ensures n in next[i] <==> n in rank' && rank'[n] == i {
      if i < |lvls| { assert n in lvls[i] <==> n in rank && rank[n] == i; }
      assert n in current <==> n in Elements(current);
    }
  }

  lemma {:induction false} NothingReady(g: Graph, done: set<Name>)
    requires Sorted(Ready(g, done)) == []
    ensures Ready(g, done) == {}
  {
    assert Elements(Sorted(Ready(g, done))) == {};
  }

  lemma {:induction false} LevelsDone(g: Graph, rank: map<Name, nat>)
    requires Ranked(g, rank) && |rank.Keys| == |g|
    ensures rank.Keys == g.Keys && Acyclic(g)
  {
    forall n | n in rank.Keys ensures n in g { assert n in rank; }
    SameSizeIsAll(rank.Keys, g.Keys);
    RankedGraphIsAcyclic(g, rank);
  }

  lemma {:induction false} LevelsFailed(g: Graph, rank: map<Name, nat>, indeg: map<Name, int>)
    requires Closed(g) && Counts(g, rank.Keys, indeg) && Ranked(g, rank)
    requires Ready(g, rank.Keys) == {} && |rank.Keys| != |g|
    ensures !Acyclic(g) && IsStuckList(g, Sorted(Positives(indeg)))
  {
    RankKeysClosed(g, rank);
    LeftoverFails(g, rank.Keys, rank, indeg);
  }

  lemma {:induction false} TightHasChain(g: Graph, rank: map<Name, nat>, n: Name)
    requires Tight(g, rank) && n in rank
    ensures HasChain(g, n, rank[n])
    decreases rank[n]
  {
    if rank[n] == 0 {
      assert IsPath(g, [n]);
    } else {
      assert TightAt(g, rank, n);
      var d :| d in g[n] && d in rank && rank[d] + 1 == rank[n];
      TightHasChain(g, rank, d);
      var p :| IsPath(g, p) && p[0] == d && |p| == rank[d] + 1;
      var q := [n] + p;
      assert q[1..] == p && q[0] == n && q[1] == d;
      assert IsPath(g, q);
    }
  }

  lemma {:induction false} ChainShortens(g: Graph, n: Name, k: nat, m: nat)
    requires HasChain(g, n, k) && m <= k
    ensures HasChain(g, n, m)
  {
    var p :| IsPath(g, p) && p[0] == n && |p| == k + 1;
    PathSlice(g, p, 0, m + 1);
    assert p[0..m + 1][0] == n;
  }

  /** A tight rank is the length of the longest dependency chain. */
  lemma {:induction false} TightIsLongest(g: Graph, rank: map<Name, nat>, n: Name, k: nat)
    requires Tight(g, rank) && n in rank
    ensures LongestChain(g, n, k) <==> k == rank[n]
  {
    TightHasChain(g, rank, n);
    if HasChain(g, n, rank[n] + 1) {
      var p :| IsPath(g, p) && p[0] == n && |p| == rank[n] + 1 + 1;
      RankDropsOnPath(g, rank, p);
      assert false;
    }
    if LongestChain(g, n, k) && k < rank[n] { ChainShortens(g, n, rank[n], k + 1); }
    if LongestChain(g, n, k) && k > rank[n] { ChainShortens(g, n, k, rank[n] + 1); }
  }

  lemma {:induction false} CutIsByLongestChain(g: Graph, lvls: seq<seq<Name>>, rank: map<Name, nat>)
    requires Tight(g, rank) && Lists(lvls, rank) && rank.Keys == g.Keys
    ensures ByLongestChain(g, lvls)
  {
    forall i: nat, n | i < |lvls| ensures At(lvls, i, n) <==> n in g && LongestChain(g, n, i) {
      if n in g { TightIsLongest(g, rank, n, i); }
      assert n in lvls[i] <==> n in rank && rank[n] == i;
    }
    forall n | n in g ensures Placed(lvls, n) {
      assert At(lvls, rank[n], n);
    }
  }

  // ---------- What the cut is good for ----------

  /** A schedule by levels that respects the dependencies: all nodes, each after its dependencies. */
  ghost predicate Stratified(g: Graph, ls: seq<seq<Name>>) {
    (forall n {:trigger Placed(ls, n)} | n in g :: Placed(ls, n)) &&
    forall j, n | At(ls, j, n) && n in g :: forall d | d in g[n] :: Before(ls, j, d)
  }

  ghost predicate Before(ls: seq<seq<Name>>, j: int, d: Name) {
    exists i :: i < j && At(ls, i, d)
  }

  lemma {:induction false} LongestChainUnique(g: Graph, n: Name, i: nat, j: nat)
    requires LongestChain(g, n, i) && LongestChain(g, n, j)
    ensures i == j
  {
    if i < j { ChainShortens(g, n, j, i + 1); }
    if j < i { ChainShortens(g, n, i, j + 1); }
  }

  lemma {:induction false} ChainOfDependent(g: Graph, n: Name, d: Name, k: nat)
    requires n in g && d in g[n] && HasChain(g, d, k)
    ensures HasChain(g, n, k + 1)
  {
    var p :| IsPath(g, p) && p[0] == d && |p| == k + 1;
    assert ([n] + p)[1..] == p;
    assert IsPath(g, [n] + p);
  }

  /** Dependencies sit in strictly earlier levels. */
  lemma {:induction false} DependencyIsLower(g: Graph, lvls: seq<seq<Name>>, i: nat, n: Name, d: Name) returns (j: nat)
    requires Closed(g) && ByLongestChain(g, lvls) && At(lvls, i, n) && d in g[n]
    ensures j < i && At(lvls, j, d)
  {
    assert n in g && LongestChain(g, n, i) && d in g;
    assert Placed(lvls, d);
    j :| At(lvls, j, d);
    assert LongestChain(g, d, j);
    ChainOfDependent(g, n, d, j);
    if j >= i { ChainShortens(g, n, j + 1, i + 1); }
  }

  /** Beyond the first level every node has a dependency in the level just before. */
  lemma {:induction false} HasDependencyJustBelow(g: Graph, lvls: seq<seq<Name>>, i: nat, n: Name) returns (d: Name)
    requires Closed(g) && ByLongestChain(g, lvls) && At(lvls, i, n) && i > 0
    ensures d in g[n] && At(lvls, i - 1, d)
  {
    assert LongestChain(g, n, i);
    var p :| IsPath(g, p) && p[0] == n && |p| == i + 1;
    d := p[1];
    assert HasChain(g, d, i - 1) by { assert IsPath(g, p[1..]) && p[1..][0] == d; }
    var j := DependencyIsLower(g, lvls, i, n, d);
    assert LongestChain(g, d, j);
    if j < i - 1 { ChainShortens(g, d, i - 1, j + 1); }
  }

  lemma {:induction false} CutIsStratified(g: Graph, lvls: seq<seq<Name>>)
    requires Closed(g) && ByLongestChain(g, lvls)
    ensures Stratified(g, lvls)
    ensures forall i, j, n | At(lvls, i, n) && At(lvls, j, n) :: i == j
  {
    forall j, n, d | At(lvls, j, n) && n in g && d in g[n] ensures Before(lvls, j, d) {
      var i := DependencyIsLower(g, lvls, j, n, d);
    }
    forall i, j, n | At(lvls, i, n) && At(lvls, j, n) ensures i == j {
      LongestChainUnique(g, n, i, j);
    }
  }

  lemma {:induction false} PathDropsLevels(g: Graph, lvls: seq<seq<Name>>, p: seq<Name>, i: nat) returns (j: nat)
    requires Closed(g) && ByLongestChain(g, lvls) && IsPath(g, p) && At(lvls, i, p[0])
    ensures j + |p| <= i + 1 && At(lvls, j, p[|p| - 1])
  {
    if |p| == 1 {
      j := i;
    } else {
      var k := DependencyIsLower(g, lvls, i, p[0], p[1]);
      j := PathDropsLevels(g, lvls, p[1..], k);
    }
  }

  /** Nodes of one level are mutually independent. */
  lemma {:induction false} LevelIsAntichain(g: Graph, lvls: seq<seq<Name>>, i: nat, a: Name, b: Name)
    requires Closed(g) && ByLongestChain(g, lvls) && At(lvls, i, a) && At(lvls, i, b) && Reaches(g, a, b)
    ensures a == b
  {
    var p :| Leads(g, a, p, b);
    var j := PathDropsLevels(g, lvls, p, i);
    CutIsStratified(g, lvls);
    assert i == j;
  }

  lemma {:induction false} PathNeedsLevels(g: Graph, ls: seq<seq<Name>>, p: seq<Name>, j: nat)
    requires Stratified(g, ls) && IsPath(g, p) && At(ls, j, p[0])
    ensures |p| <= j + 1
  {
    if |p| > 1 {
      assert Before(ls, j, p[1]);
      var i :| i < j && At(ls, i, p[1]);
      PathNeedsLevels(g, ls, p[1..], i);
    }
  }

  /** No schedule by levels places a node earlier, so none uses fewer levels. */
  lemma {:induction false} LevelsAreOptimal(g: Graph, lvls: seq<seq<Name>>, ls: seq<seq<Name>>)
    requires Tidy(lvls) && ByLongestChain(g, lvls) && Stratified(g, ls)
    ensures |lvls| <= |ls|
    ensures forall i, j, n | At(lvls, i, n) && At(ls, j, n) :: i <= j
  {
    forall i, j, n | At(lvls, i, n) && At(ls, j, n) ensures i <= j {
      assert LongestChain(g, n, i);
      var p :| IsPath(g, p) && p[0] == n && |p| == i + 1;
      PathNeedsLevels(g, ls, p, j);
    }
    if lvls != [] {
      var i := |lvls| - 1;
      var n := lvls[i][0];
      assert At(lvls, i, n) && n in g;
      assert Placed(ls, n);
      var j :| At(ls, j, n);
    }
  }
}
