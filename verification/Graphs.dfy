/** Dependency graphs: each node name maps to the list of names it depends on.
    (The registry stores every node under its own name, so key and name coincide.) */
module Graphs {
  import opened Names

  type Graph = map<Name, seq<Name>>

  function DepSet(g: Graph, n: Name): set<Name>
    requires n in g
  {
    Elements(g[n])
  }

  predicate Closed(g: Graph) {
    forall n, d | n in g && d in g[n] :: d in g
  }

  function Dependents(g: Graph, d: Name): set<Name> {
    set n | n in g && d in g[n]
  }

  /** Nodes outside `done` whose dependencies all lie in `done`. */
  function Ready(g: Graph, done: set<Name>): set<Name> {
    set n | n in g && n !in done && DepSet(g, n) <= done
  }

  // ---------- Paths and cycles ----------

  /** A chain of nodes, each depending on the next. */
  ghost predicate IsPath(g: Graph, p: seq<Name>) {
    p != [] && p[0] in g && (|p| > 1 ==> p[1] in g[p[0]] && IsPath(g, p[1..]))
  }

  ghost predicate Leads(g: Graph, a: Name, p: seq<Name>, b: Name) {
    IsPath(g, p) && p[0] == a && p[|p| - 1] == b
  }

  /** `b` is `a` itself or one of its transitive dependencies. */
  ghost predicate Reaches(g: Graph, a: Name, b: Name) {
    exists p :: Leads(g, a, p, b)
  }

  ghost predicate IsCycle(g: Graph, c: seq<Name>) {
    IsPath(g, c) && |c| > 1 && c[0] == c[|c| - 1]
  }

  ghost predicate Acyclic(g: Graph) {
    forall c :: !IsCycle(g, c)
  }

  /** `n` lies on a cycle or transitively depends on one. */
  ghost predicate BelowCycle(g: Graph, n: Name) {
    exists p, c :: IsCycle(g, c) && Leads(g, n, p, c[0])
  }

  lemma {:induction false} PathSlice(g: Graph, p: seq<Name>, i: nat, j: nat)
    requires IsPath(g, p) && i < j <= |p|
    ensures IsPath(g, p[i..j])
    decreases |p|
  {
    if i > 0 {
      assert p[1..][i - 1..j - 1] == p[i..j];
      PathSlice(g, p[1..], i - 1, j - 1);
    } else if j > 1 {
      PathSlice(g, p[1..], 0, j - 1);
      assert p[..j][1..] == p[1..][..j - 1];
    }
  }

  lemma {:induction false} PathJoin(g: Graph, p: seq<Name>, q: seq<Name>)
    requires IsPath(g, p) && IsPath(g, q)
    requires p[|p| - 1] in g && q[0] in g[p[|p| - 1]]
    ensures IsPath(g, p + q)
  {
    if |p| > 1 { PathJoin(g, p[1..], q); }
    assert (p + q)[1..] == p[1..] + q;
  }

  lemma {:induction false} PathNodes(g: Graph, p: seq<Name>)
    requires IsPath(g, p)
    ensures forall i | 0 <= i < |p| :: p[i] in g
    ensures forall i | 0 < i < |p| :: p[i] in g[p[i - 1]]
  {
    if |p| > 1 {
      PathNodes(g, p[1..]);
      forall i | 0 < i < |p| ensures p[i] in g && p[i] in g[p[i - 1]] {
        assert p[i] == p[1..][i - 1];
        if i > 1 { assert p[i - 1] == p[1..][i - 2]; }
      }
    }
  }

  lemma {:induction false} ReachesRefl(g: Graph, a: Name)
    requires a in g
    ensures Reaches(g, a, a)
  {
    assert Leads(g, a, [a], a);
  }

  lemma {:induction false} ReachesStep(g: Graph, a: Name, b: Name, c: Name)
    requires Reaches(g, a, b) && b in g && c in g && c in g[b]
    ensures Reaches(g, a, c)
  {
    var p :| Leads(g, a, p, b);
    PathJoin(g, p, [c]);
    assert Leads(g, a, p + [c], c);
  }

  lemma {:induction false} ReachesTransitive(g: Graph, a: Name, b: Name, c: Name)
    requires Reaches(g, a, b) && Reaches(g, b, c)
    ensures Reaches(g, a, c)
  {
    var p :| Leads(g, a, p, b);
    var q :| Leads(g, b, q, c);
    if |q| > 1 {
      PathNodes(g, p);
      PathJoin(g, p, q[1..]);
      assert Leads(g, a, p + q[1..], c);
    }
  }

  /** A set closed under dependencies holds everything its members reach. */
  lemma {:induction false} ClosedHoldsPath(g: Graph, s: set<Name>, p: seq<Name>)
    requires IsPath(g, p) && p[0] in s
    requires forall n, d | n in s && n in g && d in g[n] && d in g :: d in s
    ensures p[|p| - 1] in s
  {
    if |p| > 1 { ClosedHoldsPath(g, s, p[1..]); }
  }

  // ---------- Ranks ----------

  /** A rank that drops along every dependency of the nodes it covers. */
  ghost predicate Ranked(g: Graph, rank: map<Name, nat>) {
    forall n | n in rank :: n in g && forall d | d in g[n] :: d in rank && rank[d] < rank[n]
  }

  lemma {:induction false} RankDropsOnPath(g: Graph, rank: map<Name, nat>, p: seq<Name>)
    requires Ranked(g, rank) && IsPath(g, p) && p[0] in rank
    ensures p[|p| - 1] in rank && rank[p[|p| - 1]] + |p| <= rank[p[0]] + 1
  {
    if |p| > 1 { RankDropsOnPath(g, rank, p[1..]); }
  }

  lemma {:induction false} RankedIsOffCycle(g: Graph, rank: map<Name, nat>, n: Name)
    requires Ranked(g, rank) && n in rank
    ensures !BelowCycle(g, n)
  {
    forall p, c | IsCycle(g, c) && Leads(g, n, p, c[0]) ensures false {
      RankDropsOnPath(g, rank, p);
      RankDropsOnPath(g, rank, c);
    }
  }

  /** Every node of `rest` has a dependency inside `rest`. */
  ghost predicate Stuck(g: Graph, rest: set<Name>) {
    forall m | m in rest :: m in g && DepSet(g, m) * rest != {}
  }

  /** A walk of `k` steps that never leaves `rest`. */
  lemma {:induction false} WalkIn(g: Graph, rest: set<Name>, n: Name, k: nat) returns (p: seq<Name>)
    requires Stuck(g, rest)
    requires n in rest
    ensures IsPath(g, p) && p[0] == n && |p| == k + 1 && Elements(p) <= rest
    decreases k
  {
    if k == 0 {
      p := [n];
    } else {
      var d :| d in DepSet(g, n) * rest;
      var q := WalkIn(g, rest, d, k - 1);
      p := [n] + q;
      assert p[1..] == q;
      assert Elements(p) == {n} + Elements(q);
    }
  }

  lemma {:induction false} Repeat(p: seq<Name>, rest: set<Name>) returns (i: nat, j: nat)
    requires Elements(p) <= rest && |p| > |rest|
    ensures i < j < |p| && p[i] == p[j]
  {
    if Distinct(p) {
      DistinctSize(p);
      SubsetSize(Elements(p), rest);
      assert false;
    }
    i, j :| 0 <= i < j < |p| && p[i] == p[j];
  }

  /** If every node of `rest` depends on a node of `rest`, all of `rest` is below a cycle. */
  lemma {:induction false} StuckIsBelowCycle(g: Graph, rest: set<Name>, n: Name)
    requires Stuck(g, rest)
    requires n in rest
    ensures BelowCycle(g, n)
  {
    var p := WalkIn(g, rest, n, |rest|);
    var i, j := Repeat(p, rest);
    PathSlice(g, p, i, j + 1);
    PathSlice(g, p, 0, i + 1);
    var c := p[i..j + 1];
    assert c[|c| - 1] == p[j] == c[0] && IsCycle(g, c);
    assert p[0..i + 1] == p[..i + 1];
    assert Leads(g, n, p[..i + 1], c[0]);
  }

  lemma {:induction false} SubsetSize<T>(a: set<T>, b: set<T>)
    requires a <= b
    ensures |a| <= |b|
  {
    if a != {} {
      var x :| x in a;
      SubsetSize(a - {x}, b - {x});
    }
  }

  lemma {:induction false} RankExtends(g: Graph, rank: map<Name, nat>, m: Name, bound: nat)
    returns (next: map<Name, nat>)
    requires Ranked(g, rank) && m in g && m !in rank && DepSet(g, m) <= rank.Keys
    requires forall n | n in rank :: rank[n] < bound
    ensures Ranked(g, next) && next.Keys == rank.Keys + {m}
    ensures forall n | n in next :: next[n] < bound + 1
  {
    next := rank[m := bound];
    forall n | n in next
      ensures n in g && forall d | d in g[n] :: d in next && next[d] < next[n]
    {
      assert n != m ==> n in rank;
      forall d | d in g[n] ensures d in next && next[d] < next[n] {
        assert n == m ==> d in DepSet(g, m);
      }
    }
  }

  lemma {:induction false} RankGrows(g: Graph, rank: map<Name, nat>, bound: nat) returns (full: map<Name, nat>)
    requires Closed(g) && Acyclic(g) && Ranked(g, rank)
    requires forall n | n in rank :: rank[n] < bound
    ensures Ranked(g, full) && full.Keys == g.Keys
    decreases g.Keys - rank.Keys
  {
    var rest := g.Keys - rank.Keys;
    if rest == {} {
      forall n | n in g ensures n in rank { assert n !in rest; }
      full := rank;
    } else {
      var m := Unstuck(g, rest);
      assert DepSet(g, m) <= rank.Keys by {
        forall d | d in DepSet(g, m) ensures d in rank { assert d !in DepSet(g, m) * rest; }
      }
      var next := RankExtends(g, rank, m, bound);
      full := RankGrows(g, next, bound + 1);
    }
  }

  lemma {:induction false} Unstuck(g: Graph, rest: set<Name>) returns (m: Name)
    requires Acyclic(g) && rest != {} && rest <= g.Keys
    ensures m in rest && DepSet(g, m) * rest == {}
  {
    if Stuck(g, rest) {
      var n :| n in rest;
      StuckIsBelowCycle(g, rest, n);
      assert false;
    }
    m :| m in rest && DepSet(g, m) * rest == {};
  }

  /** A rank of the whole graph; recursion over a valid graph decreases along it. */
  ghost function RankOf(g: Graph): (rank: map<Name, nat>)
    requires Closed(g) && Acyclic(g)
    ensures Ranked(g, rank) && rank.Keys == g.Keys
  {
    RankExists(g);
    var rank: map<Name, nat> :| Ranked(g, rank) && rank.Keys == g.Keys;
    rank
  }

  lemma {:induction false} RankExists(g: Graph)
    requires Closed(g) && Acyclic(g)
    ensures exists rank: map<Name, nat> :: Ranked(g, rank) && rank.Keys == g.Keys
  {
    var _ := RankGrows(g, map[], 0);
  }
}
