/** `selectors.py` and `changed_since.py`: which nodes a command works on. */
module Selection {
  import opened Names
  import opened Graphs

  type Adjacency = map<Name, set<Name>>

  function Next(adj: Adjacency, n: Name): set<Name> {
    if n in adj then adj[n] else {}
  }

  function Deps(g: Graph): Adjacency {
    map n | n in g :: set d | d in g[n] && d in g
  }

  function Reverse(g: Graph): Adjacency {
    map d | d in g :: Dependents(g, d)
  }

  // ---------- The worklist loop ----------

  /** A walk along `adj` that avoids `wall` after its first node. */
  ghost predicate Route(adj: Adjacency, wall: set<Name>, p: seq<Name>) {
    p != [] &&
    (|p| > 1 ==> var q := p[..|p| - 1];
                 Route(adj, wall, q) && p[|p| - 1] in Next(adj, q[|q| - 1]) && p[|p| - 1] !in wall)
  }

  ghost predicate Found(adj: Adjacency, wall: set<Name>, start: set<Name>, n: Name) {
    exists p :: Route(adj, wall, p) && p[0] in start && p[|p| - 1] == n
  }

  lemma {:induction false} FoundStart(adj: Adjacency, wall: set<Name>, start: set<Name>, n: Name)
    requires n in start
    ensures Found(adj, wall, start, n)
  {
    assert Route(adj, wall, [n]);
  }

  lemma {:induction false} FoundNext(adj: Adjacency, wall: set<Name>, start: set<Name>, n: Name, m: Name)
    requires Found(adj, wall, start, n) && m in Next(adj, n) && m !in wall
    ensures Found(adj, wall, start, m)
  {
    var p :| Route(adj, wall, p) && p[0] in start && p[|p| - 1] == n;
    assert (p + [m])[..|p|] == p;
    assert Route(adj, wall, p + [m]);
  }

  /** A set that holds `start` and all unwalled neighbours of its members holds every found node. */
  lemma {:induction false} FoundInside(adj: Adjacency, wall: set<Name>, s: set<Name>, p: seq<Name>)
    requires Route(adj, wall, p) && p[0] in s
    requires forall n | n in s :: Next(adj, n) - wall <= s
    ensures p[|p| - 1] in s
  {
    if |p| > 1 { FoundInside(adj, wall, s, p[..|p| - 1]); }
  }

  ghost predicate Explored(adj: Adjacency, wall: set<Name>, start: set<Name>, seen: set<Name>, stack: seq<Name>) {
    wall <= seen &&
    (forall n | n in seen - wall :: Found(adj, wall, start, n)) &&
    (forall n | n in stack :: n in start || n in seen - wall) &&
    forall n | n in start || n in seen - wall :: n in stack || Next(adj, n) <= seen
  }

  function Range(adj: Adjacency): set<Name> {
    set n, m | n in adj && m in adj[n] :: m
  }

  /** `for v in adj.get(cur, ()): if v not in seen: seen.add(v); stack.append(v)` */
  method Visit(adj: Adjacency, ghost wall: set<Name>, ghost start: set<Name>, cur: Name,
               seen: set<Name>, stack: seq<Name>)
    returns (seen': set<Name>, stack': seq<Name>)
    requires Explored(adj, wall, start, seen, stack + [cur])
    ensures Explored(adj, wall, start, seen', stack')
    ensures seen <= seen' <= seen + Range(adj)
    ensures seen' == seen ==> stack' == stack
  {
    seen', stack' := seen, stack;
    var todo := Next(adj, cur);
    while todo != {}
      invariant todo <= Next(adj, cur) && Next(adj, cur) - todo <= seen'
      invariant seen <= seen' <= seen + Range(adj)
      invariant seen' == seen ==> stack' == stack
      invariant wall <= seen' && forall n | n in seen' - wall :: Found(adj, wall, start, n)
      invariant forall n | n in stack' :: n in start || n in seen' - wall
      invariant forall n | n in start || n in seen' - wall :: n in stack' + [cur] || Next(adj, n) <= seen'
    {
      var v :| v in todo;
      if v !in seen' {
        assert cur in stack + [cur];
        if cur in start { FoundStart(adj, wall, start, cur); }
        FoundNext(adj, wall, start, cur, v);
        seen', stack' := seen' + {v}, stack' + [v];
      }
      todo := todo - {v};
    }
  }

  lemma {:induction false} Popped(stack: seq<Name>)
    requires stack != []
    ensures stack == stack[..|stack| - 1] + [stack[|stack| - 1]]
  {
  }

  /** The loop all the closures share: pop a node, add its unseen neighbours, push them. */
  method Spread(adj: Adjacency, wall: set<Name>, start: set<Name>) returns (seen: set<Name>)
    requires start <= wall
    ensures wall <= seen
    ensures forall n :: n in seen <==> n in wall || Found(adj, wall, start, n)
  {
    seen := wall;
    var stack := Sorted(start);
    assert forall n :: n in stack <==> n in Elements(stack);
    while stack != []
      invariant Explored(adj, wall, start, seen, stack) && seen <= wall + Range(adj)
      decreases wall + Range(adj) - seen, |stack|
    {
      var rest, cur := stack[..|stack| - 1], stack[|stack| - 1];
      Popped(stack);
      seen, stack := Visit(adj, wall, start, cur, seen, rest);
    }
    ExploredAll(adj, wall, start, seen);
  }

  lemma {:induction false} ExploredAll(adj: Adjacency, wall: set<Name>, start: set<Name>, seen: set<Name>)
    requires start <= wall && Explored(adj, wall, start, seen, [])
    ensures forall n :: n in seen <==> n in wall || Found(adj, wall, start, n)
  {
    forall n | Found(adj, wall, start, n) ensures n in seen {
      var p :| Route(adj, wall, p) && p[0] in start && p[|p| - 1] == n;
      FoundInside(adj, wall, start + (seen - wall), p);
    }
  }

  // ---------- Up and down the dependency graph ----------

  /** `n` is one of `ns` or a transitive dependency of one. */
  ghost predicate Upstream(g: Graph, ns: set<Name>, n: Name) {
    exists s :: s in ns && Reaches(g, s, n)
  }

  /** `n` is one of `ns` or transitively depends on one. */
  ghost predicate Downstream(g: Graph, ns: set<Name>, n: Name) {
    exists s :: s in ns && Reaches(g, n, s)
  }

  lemma {:induction false} RouteIsUpstream(g: Graph, wall: set<Name>, p: seq<Name>)
    requires Route(Deps(g), wall, p) && p[0] in g
    ensures Reaches(g, p[0], p[|p| - 1]) && p[|p| - 1] in g
  {
    if |p| == 1 {
      ReachesRefl(g, p[0]);
    } else {
      var q := p[..|p| - 1];
      RouteIsUpstream(g, wall, q);
      ReachesStep(g, p[0], q[|q| - 1], p[|p| - 1]);
    }
  }

  lemma {:induction false} ReachesFrom(g: Graph, a: Name, b: Name, c: Name)
    requires a in g && b in g[a] && Reaches(g, b, c)
    ensures Reaches(g, a, c)
  {
    var p :| Leads(g, b, p, c);
    assert ([a] + p)[1..] == p;
    assert Leads(g, a, [a] + p, c);
  }

  lemma {:induction false} RouteIsDownstream(g: Graph, wall: set<Name>, p: seq<Name>)
    requires Route(Reverse(g), wall, p) && p[0] in g
    ensures Reaches(g, p[|p| - 1], p[0]) && p[|p| - 1] in g
  {
    if |p| == 1 {
      ReachesRefl(g, p[0]);
    } else {
      var q := p[..|p| - 1];
      RouteIsDownstream(g, wall, q);
      ReachesFrom(g, p[|p| - 1], q[|q| - 1], p[0]);
    }
  }

  /** What is closed under the edges of `g` towards dependents holds everything downstream. */
  lemma {:induction false} ClosedDownstream(g: Graph, s: set<Name>, p: seq<Name>)
    requires IsPath(g, p) && p[|p| - 1] in s
    requires forall n, m | n in s && m in g && n in g[m] :: m in s
    ensures p[0] in s
  {
    if |p| > 1 { ClosedDownstream(g, s, p[1..]); }
  }

  /** `s` holds every dependent of its members. */
  ghost predicate DependentClosed(g: Graph, s: set<Name>) {
    forall n, m | n in s && m in g && n in g[m] :: m in s
  }

  /** `s` holds every known dependency of its members. */
  ghost predicate DependencyClosed(g: Graph, s: set<Name>) {
    forall n, d | n in s && n in g && d in g[n] && d in g :: d in s
  }

  /** `_downstream_closure`: the least set with the names that is closed under dependents. */
  method DownstreamClosure(g: Graph, names: set<Name>) returns (out: set<Name>)
    requires names <= g.Keys
    ensures forall n :: n in out <==> n in g && Downstream(g, names, n)
    ensures names <= out && DependentClosed(g, out)
    ensures forall s | names <= s && DependentClosed(g, s) :: out <= s
  {
    out := Spread(Reverse(g), names, names);
    SpreadDown(g, names, out);
  }

  lemma {:induction false} SpreadDown(g: Graph, names: set<Name>, out: set<Name>)
    requires names <= g.Keys
    requires forall n :: n in out <==> n in names || Found(Reverse(g), names, names, n)
    ensures forall n :: n in out <==> n in g && Downstream(g, names, n)
    ensures DependentClosed(g, out)
    ensures forall s | names <= s && DependentClosed(g, s) :: out <= s
  {
    forall n | n in out ensures n in g && Downstream(g, names, n) { FoundIsDownstream(g, names, n); }
    forall n, m | n in out && m in g && n in g[m] ensures m in out {
      if n in names { FoundStart(Reverse(g), names, names, n); }
      if m !in names { FoundNext(Reverse(g), names, names, n, m); }
    }
    forall n | n in g && Downstream(g, names, n) ensures n in out { DownstreamInside(g, names, out, n); }
    forall s | names <= s && DependentClosed(g, s) ensures out <= s {
      forall n | n in out ensures n in s { DownstreamInside(g, names, s, n); }
    }
  }

  lemma {:induction false} FoundIsDownstream(g: Graph, names: set<Name>, n: Name)
    requires names <= g.Keys && (n in names || Found(Reverse(g), names, names, n))
    ensures n in g && Downstream(g, names, n)
  {
    if n in names {
      ReachesRefl(g, n);
    } else {
      var p :| Route(Reverse(g), names, p) && p[0] in names && p[|p| - 1] == n;
      RouteIsDownstream(g, names, p);
    }
  }

  lemma {:induction false} DownstreamInside(g: Graph, names: set<Name>, s: set<Name>, n: Name)
    requires names <= s && DependentClosed(g, s) && Downstream(g, names, n)
    ensures n in s
  {
    var a :| a in names && Reaches(g, n, a);
    var p :| Leads(g, n, p, a);
    ClosedDownstream(g, s, p);
  }

  // ---------- _selected_subgraph_names ----------

  /** A seed survives iff neither it nor anything it depends on is excluded. */
  ghost predicate Survives(g: Graph, excluded: set<Name>, n: Name) {
    n in g && !Downstream(g, excluded, n)
  }

  ghost predicate Wanted(g: Graph, seeds: set<Name>, excluded: set<Name>, n: Name) {
    exists s :: s in seeds && Survives(g, excluded, s) && Reaches(g, s, n)
  }

  ghost predicate Pulled(g: Graph, remaining: set<Name>, seeds: set<Name>, result: set<Name>, stack: seq<Name>) {
    result <= remaining &&
    (forall n | n in result || n in stack :: n in g && Upstream(g, seeds, n)) &&
    (forall s | s in seeds :: s in result || s in stack) &&
    forall n | n in result :: forall d | d in Next(Deps(g), n) && d in remaining :: d in result || d in stack
  }

  /** Nodes are taken from the stack unless already taken or removed; then their dependencies are pushed. */
  method PullDependencies(g: Graph, remaining: set<Name>, seeds: set<Name>) returns (result: set<Name>)
    requires seeds <= remaining <= g.Keys
    ensures Pulled(g, remaining, seeds, result, [])
  {
    result := {};
    var stack := Sorted(seeds);
    PullStart(g, remaining, seeds);
    while stack != []
      invariant Pulled(g, remaining, seeds, result, stack)
      decreases remaining - result, |stack|
    {
      var cur, rest := stack[|stack| - 1], stack[..|stack| - 1];
      Popped(stack);
      if cur in result || cur !in remaining {
        PullSkip(g, remaining, seeds, result, rest, cur);
        stack := rest;
      } else {
        var pushed := Sorted(Next(Deps(g), cur) * remaining);
        PullStep(g, remaining, seeds, result, rest, cur, pushed);
        result, stack := result + {cur}, rest + pushed;
      }
    }
  }

  lemma {:induction false} PullStart(g: Graph, remaining: set<Name>, seeds: set<Name>)
    requires seeds <= remaining <= g.Keys
    ensures Pulled(g, remaining, seeds, {}, Sorted(seeds))
  {
    var stack := Sorted(seeds);
    forall n ensures n in stack <==> n in seeds { assert n in stack <==> n in Elements(stack); }
    forall n | n in stack ensures n in g && Upstream(g, seeds, n) { ReachesRefl(g, n); }
  }

  lemma {:induction false} PullSkip(g: Graph, remaining: set<Name>, seeds: set<Name>, result: set<Name>,
                                    rest: seq<Name>, cur: Name)
    requires Pulled(g, remaining, seeds, result, rest + [cur]) && seeds <= remaining
    requires cur in result || cur !in remaining
    ensures Pulled(g, remaining, seeds, result, rest)
  {
    assert forall n :: n in rest + [cur] <==> n in rest || n == cur;
  }

  lemma {:induction false} PullStep(g: Graph, remaining: set<Name>, seeds: set<Name>, result: set<Name>,
                                    rest: seq<Name>,
                                    cur: Name, pushed: seq<Name>)
    requires Pulled(g, remaining, seeds, result, rest + [cur]) && cur in remaining
    requires Elements(pushed) == Next(Deps(g), cur) * remaining
    ensures Pulled(g, remaining, seeds, result + {cur}, rest + pushed)
  {
    assert cur in rest + [cur];
    assert forall n :: n in pushed <==> n in Elements(pushed);
    forall n | n in pushed ensures n in g && Upstream(g, seeds, n) {
      var s :| s in seeds && Reaches(g, s, cur);
      ReachesStep(g, s, cur, n);
    }
    forall n | n in result + {cur}
      ensures forall d | d in Next(Deps(g), n) && d in remaining :: d in result + {cur} || d in rest + pushed
    {
    }
  }

  method SelectedSubgraph(g: Graph, seedNames: set<Name>, excludedNames: set<Name>) returns (result: set<Name>)
    ensures forall n :: n in result <==> Wanted(g, seedNames, excludedNames * g.Keys, n)
  {
    var all, seeds, excluded := g.Keys, seedNames * g.Keys, excludedNames * g.Keys;
    if all == {} || seeds == {} {
      assert forall s | s in seedNames :: s !in seeds;
      return {};
    }
    var removed := {};
    if excluded != {} {
      removed := Spread(Reverse(g), excluded, excluded);
      SpreadDown(g, excluded, removed);
    }
    var remaining := all - removed;
    forall n | n in g ensures n in remaining <==> Survives(g, excluded, n) { }
    seeds := seeds - removed;
    if seeds == {} {
      assert forall s | s in seedNames :: s !in seeds;
      return {};
    }
    result := PullDependencies(g, remaining, seeds);
    PulledIsWanted(g, remaining, seedNames, excluded, result);
  }

  lemma {:induction false} PulledIsWanted(g: Graph, remaining: set<Name>, seedNames: set<Name>, excluded: set<Name>,
                                          result: set<Name>)
    requires remaining == set n | n in g && Survives(g, excluded, n)
    requires Pulled(g, remaining, seedNames * remaining, result, [])
    ensures forall n :: n in result <==> Wanted(g, seedNames, excluded, n)
  {
    forall n | Wanted(g, seedNames, excluded, n) ensures n in result {
      var s :| s in seedNames && Survives(g, excluded, s) && Reaches(g, s, n);
      var p :| Leads(g, s, p, n);
      forall m, d | m in result && m in g && d in g[m] && d in g ensures d in result {
        SurvivorsClosed(g, excluded, m, d);
        assert d in Next(Deps(g), m);
      }
      ClosedHoldsPath(g, result, p);
    }
  }

  /** The dependencies of a survivor survive. */
  lemma {:induction false} SurvivorsClosed(g: Graph, excluded: set<Name>, n: Name, d: Name)
    requires Survives(g, excluded, n) && n in g && d in g[n] && d in g
    ensures Survives(g, excluded, d)
  {
    if Downstream(g, excluded, d) {
      var e :| e in excluded && Reaches(g, d, e);
      ReachesFrom(g, n, d, e);
    }
  }

  /** The selection is the least dependency-closed set with the surviving seeds, and nothing in it is
      excluded or downstream of an exclusion. */
  lemma {:induction false} SelectionIsLeast(g: Graph, seeds: set<Name>, excluded: set<Name>, result: set<Name>,
                                            s: set<Name>)
    requires forall n :: n in result <==> Wanted(g, seeds, excluded, n)
    ensures DependencyClosed(g, result) && forall n | n in seeds && Survives(g, excluded, n) :: n in result
    ensures DependencyClosed(g, s) && (forall n | n in seeds && Survives(g, excluded, n) :: n in s) ==> result <= s
    ensures forall n | n in result :: Survives(g, excluded, n)
  {
    forall n, d | n in result && n in g && d in g[n] && d in g ensures d in result {
      var a :| a in seeds && Survives(g, excluded, a) && Reaches(g, a, n);
      ReachesStep(g, a, n, d);
    }
    forall n | n in seeds && Survives(g, excluded, n) ensures n in result { ReachesRefl(g, n); }
    forall n | n in result ensures Survives(g, excluded, n) { WantedSurvives(g, seeds, excluded, n); }
    if DependencyClosed(g, s) && (forall n | n in seeds && Survives(g, excluded, n) :: n in s) {
      forall n | n in result ensures n in s {
        var a :| a in seeds && Survives(g, excluded, a) && Reaches(g, a, n);
        var p :| Leads(g, a, p, n);
        ClosedHoldsPath(g, s, p);
      }
    }
  }

  lemma {:induction false} WantedSurvives(g: Graph, seeds: set<Name>, excluded: set<Name>, n: Name)
    requires Wanted(g, seeds, excluded, n)
    ensures Survives(g, excluded, n)
  {
    var a :| a in seeds && Survives(g, excluded, a) && Reaches(g, a, n);
    var p :| Leads(g, a, p, n);
    PathNodes(g, p);
    if Downstream(g, excluded, n) {
      var e :| e in excluded && Reaches(g, n, e);
      ReachesTransitive(g, a, n, e);
    }
  }

  // ---------- _levels_for_run ----------

  /** `{k: v for k, v in REGISTRY.nodes.items() if k in wanted}` */
  function Restrict(g: Graph, wanted: set<Name>): Graph {
    map n | n in g && n in wanted :: g[n]
  }

  lemma {:induction false} RestrictedPath(g: Graph, wanted: set<Name>, p: seq<Name>)
    requires IsPath(Restrict(g, wanted), p)
    ensures IsPath(g, p)
  {
    if |p| > 1 { RestrictedPath(g, wanted, p[1..]); }
  }

  /** Cutting a selection of a valid graph into levels never finds a cycle, and it finds a missing
      dependency iff the selection is not closed under dependencies. */
  lemma {:induction false} SelectionIsValid(g: Graph, wanted: set<Name>)
    requires Closed(g) && Acyclic(g)
    ensures Acyclic(Restrict(g, wanted))
    ensures Closed(Restrict(g, wanted)) <==> DependencyClosed(g, wanted)
  {
    var sub := Restrict(g, wanted);
    forall c | IsPath(sub, c) ensures !IsCycle(sub, c) {
      RestrictedPath(g, wanted, c);
      assert !IsCycle(g, c);
    }
    if Closed(sub) {
      forall n, d | n in wanted && n in g && d in g[n] && d in g ensures d in wanted {
        assert n in sub && sub[n] == g[n] && d in sub[n] && d in sub;
      }
    }
  }

  // ---------- compute_affected_models ----------

  /** Reached from a changed node along dependents, never through the upstream closure again. */
  ghost predicate DownOutside(g: Graph, changed: set<Name>, up: set<Name>, n: Name) {
    Found(Reverse(g), up, changed, n)
  }

  method ComputeAffected(g: Graph, changed: set<Name>) returns (affected: set<Name>)
    ensures forall n :: n in affected <==>
              n in changed || Upstream(g, changed, n) || DownOutside(g, changed, UpSet(g, changed), n)
  {
    if changed == {} {
      forall n ensures !DownOutside(g, changed, UpSet(g, changed), n) { }
      return {};
    }
    affected := Spread(Deps(g), changed, changed);
    SpreadUp(g, changed, affected);
    affected := Spread(Reverse(g), affected, changed);
  }

  /** Changed nodes and all their ancestors. */
  ghost function UpSet(g: Graph, changed: set<Name>): set<Name> {
    changed + set n | n in g && Upstream(g, changed, n)
  }

  lemma {:induction false} SpreadUp(g: Graph, changed: set<Name>, up: set<Name>)
    requires forall n :: n in up <==> n in changed || Found(Deps(g), changed, changed, n)
    ensures up == UpSet(g, changed)
    ensures forall n | Upstream(g, changed, n) :: n in g
  {
    forall n | Upstream(g, changed, n) ensures n in g {
      var s :| s in changed && Reaches(g, s, n);
      var p :| Leads(g, s, p, n);
      PathNodes(g, p);
    }
    forall n | n in up && n !in changed ensures n in g && Upstream(g, changed, n) {
      var p :| Route(Deps(g), changed, p) && p[0] in changed && p[|p| - 1] == n;
      RouteStartsInside(g, changed, p);
      RouteIsUpstream(g, changed, p);
    }
    forall m, d | m in up && m in g && d in g[m] && d in g ensures d in up {
      if m in changed { FoundStart(Deps(g), changed, changed, m); }
      if d !in changed { FoundNext(Deps(g), changed, changed, m, d); }
    }
    forall n | Upstream(g, changed, n) ensures n in up {
      var s :| s in changed && Reaches(g, s, n);
      var p :| Leads(g, s, p, n);
      ClosedHoldsPath(g, up, p);
    }
  }

  lemma {:induction false} RouteStartsInside(g: Graph, wall: set<Name>, p: seq<Name>)
    requires Route(Deps(g), wall, p) && |p| > 1
    ensures p[0] in g
  {
    var q := p[..|p| - 1];
    if |q| > 1 { RouteStartsInside(g, wall, q); }
  }

  /** What the documentation promises: changed models, all their ancestors, all their descendants. */
  ghost predicate Documented(g: Graph, changed: set<Name>, n: Name) {
    n in changed || Upstream(g, changed, n) || Downstream(g, changed, n)
  }

  ghost predicate Affected(g: Graph, changed: set<Name>, n: Name) {
    n in changed || Upstream(g, changed, n) || DownOutside(g, changed, UpSet(g, changed), n)
  }

  /** An unchanged model that lies between two changed ones. */
  ghost predicate Between(g: Graph, changed: set<Name>, b: Name) {
    b in g && b !in changed && Upstream(g, changed, b) && Downstream(g, changed, b)
  }

  /** `m` directly depends on a changed model, or on a descendant of one outside the upstream closure. */
  ghost predicate Anchored(g: Graph, changed: set<Name>, m: Name)
    requires m in g
  {
    exists d :: d in g[m] && d in g && (d in changed || (d !in UpSet(g, changed) && Downstream(g, changed, d)))
  }

  /** Outside the upstream closure, what depends on a model in between is anchored too. */
  ghost predicate BetweenAnchored(g: Graph, changed: set<Name>) {
    forall b, m | Between(g, changed, b) && m in g && b in g[m] && m !in UpSet(g, changed) :: Anchored(g, changed, m)
  }

  /** Nothing undocumented is ever affected. */
  lemma {:induction false} AffectedIsDocumented(g: Graph, changed: set<Name>, n: Name)
    requires Affected(g, changed, n)
    ensures Documented(g, changed, n)
  {
    if DownOutside(g, changed, UpSet(g, changed), n) {
      var p :| Route(Reverse(g), UpSet(g, changed), p) && p[0] in changed && p[|p| - 1] == n;
      if |p| > 1 {
        DownRouteStartsInside(g, UpSet(g, changed), p);
        RouteIsDownstream(g, UpSet(g, changed), p);
      }
    }
  }

  /** A changed name the project does not know leads nowhere. */
  lemma {:induction false} DownRouteStartsInside(g: Graph, wall: set<Name>, p: seq<Name>)
    requires Route(Reverse(g), wall, p) && |p| > 1
    ensures p[0] in g
  {
    var q := p[..|p| - 1];
    if |q| > 1 { DownRouteStartsInside(g, wall, q); }
  }

  /** The nearest step on the way from a descendant to a changed model, or the anchor that replaces it. */
  lemma {:induction false} NextDown(g: Graph, changed: set<Name>, m: Name) returns (d: Name)
    requires BetweenAnchored(g, changed)
    requires m in g && m !in UpSet(g, changed) && Downstream(g, changed, m)
    ensures d in g && d in g[m] && (d in changed || (d !in UpSet(g, changed) && Downstream(g, changed, d)))
  {
    var s :| s in changed && Reaches(g, m, s);
    var p :| Leads(g, m, p, s);
    PathNodes(g, p);
    d := p[1];
    assert Leads(g, d, p[1..], s);
    if d in UpSet(g, changed) && d !in changed {
      assert Between(g, changed, d);
      d :| d in g[m] && d in g && (d in changed || (d !in UpSet(g, changed) && Downstream(g, changed, d)));
    }
  }

  /** A path that can be extended by a node it holds already makes a cycle. */
  lemma {:induction false} PathAvoids(g: Graph, p: seq<Name>, d: Name)
    requires Acyclic(g) && IsPath(g, p) && p[|p| - 1] in g && d in g && d in g[p[|p| - 1]]
    ensures d !in Elements(p) && IsPath(g, p + [d])
  {
    PathJoin(g, p, [d]);
    if i :| 0 <= i < |p| && p[i] == d {
      PathSlice(g, p, i, |p|);
      var tail := p[i..|p|];
      PathJoin(g, tail, [d]);
      assert IsCycle(g, tail + [d]);
    }
  }

  /** By going down along the path `p` that ends in `m`: the descent cannot repeat a node. */
  lemma {:induction false} DescendantIsFound(g: Graph, changed: set<Name>, p: seq<Name>, m: Name)
    requires Acyclic(g) && BetweenAnchored(g, changed)
    requires m in g && m !in UpSet(g, changed) && Downstream(g, changed, m)
    requires IsPath(g, p) && p[|p| - 1] == m
    ensures Found(Reverse(g), UpSet(g, changed), changed, m)
    decreases g.Keys - Elements(p)
  {
    var up := UpSet(g, changed);
    var d := NextDown(g, changed, m);
    if d in changed {
      FoundStart(Reverse(g), up, changed, d);
    } else {
      PathAvoids(g, p, d);
      assert Elements(p + [d]) == Elements(p) + {d};
      DescendantIsFound(g, changed, p + [d], d);
    }
    FoundNext(Reverse(g), up, changed, d, m);
  }

  /** The last step of the loop's way to a node is an anchor. */
  lemma {:induction false} FoundIsAnchored(g: Graph, changed: set<Name>, m: Name)
    requires m in g && m !in UpSet(g, changed)
    requires Found(Reverse(g), UpSet(g, changed), changed, m)
    ensures Anchored(g, changed, m)
  {
    var up := UpSet(g, changed);
    var p :| Route(Reverse(g), up, p) && p[0] in changed && p[|p| - 1] == m;
    var q := p[..|p| - 1];
    var d := q[|q| - 1];
    DownRouteStartsInside(g, up, p);
    RouteIsDownstream(g, up, q);
    assert d in g[m];
  }

  /** The documented set is computed exactly when every model outside the upstream closure that depends
      on a model in between is anchored elsewhere too. */
  lemma {:induction false} DocumentedIff(g: Graph, changed: set<Name>)
    requires Acyclic(g)
    ensures (forall n :: Affected(g, changed, n) <==> Documented(g, changed, n)) <==> BetweenAnchored(g, changed)
  {
    forall n | Affected(g, changed, n) ensures Documented(g, changed, n) { AffectedIsDocumented(g, changed, n); }
    if BetweenAnchored(g, changed) {
      forall n | Documented(g, changed, n) ensures Affected(g, changed, n) {
        if Downstream(g, changed, n) && n !in UpSet(g, changed) {
          DownstreamIsKnown(g, changed, n);
          DescendantIsFound(g, changed, [n], n);
        }
      }
    }
    if forall n :: Affected(g, changed, n) <==> Documented(g, changed, n) {
      forall b, m | Between(g, changed, b) && m in g && b in g[m] && m !in UpSet(g, changed)
        ensures Anchored(g, changed, m)
      {
        var s :| s in changed && Reaches(g, b, s);
        ReachesFrom(g, m, b, s);
        assert Affected(g, changed, m);
        FoundIsAnchored(g, changed, m);
      }
    }
  }

  lemma {:induction false} DownstreamIsKnown(g: Graph, changed: set<Name>, n: Name)
    requires Downstream(g, changed, n)
    ensures n in g
  {
    var s :| s in changed && Reaches(g, n, s);
    var p :| Leads(g, n, p, s);
    PathNodes(g, p);
  }

  /** In particular when no changed model is downstream of another. */
  lemma {:induction false} IndependentChangesAreDocumented(g: Graph, changed: set<Name>)
    requires Acyclic(g)
    requires forall a, b | a in changed && b in changed && Reaches(g, a, b) :: a == b
    ensures forall n :: Affected(g, changed, n) <==> Documented(g, changed, n)
  {
    forall b ensures !Between(g, changed, b) {
      if b in g && b !in changed && Upstream(g, changed, b) && Downstream(g, changed, b) {
        var s :| s in changed && Reaches(g, s, b);
        var t :| t in changed && Reaches(g, b, t);
        ReachesTransitive(g, s, b, t);
        NoWayBack(g, s, b);
      }
    }
    DocumentedIff(g, changed);
  }

  /** `_apply_changed_since_filter`: the affected models, within the selection if there is one. */
  method ApplyChangedSince(g: Graph, wanted: set<Name>, narrowed: bool, changed: set<Name>) returns (r: set<Name>)
    ensures forall n :: n in r <==> Affected(g, changed, n) && (narrowed ==> n in wanted)
  {
    var affected := ComputeAffected(g, changed);
    if affected == {} {
      return {};
    }
    return if narrowed then wanted * affected else affected;
  }

  // ---------- Levels of what changed ----------

  /** A chain of dependencies from a model down to a changed one that meets the upstream closure only there. */
  ghost predicate OutsideChain(g: Graph, changed: set<Name>, p: seq<Name>) {
    IsPath(g, p) && |p| > 1 && p[|p| - 1] in changed && forall i | 0 <= i < |p| - 1 :: p[i] !in UpSet(g, changed)
  }

  ghost predicate BelowOutside(g: Graph, changed: set<Name>, m: Name) {
    exists p :: OutsideChain(g, changed, p) && p[0] == m
  }

  lemma {:induction false} ChainIsFound(g: Graph, changed: set<Name>, p: seq<Name>)
    requires OutsideChain(g, changed, p)
    ensures Found(Reverse(g), UpSet(g, changed), changed, p[0])
  {
    var up := UpSet(g, changed);
    PathNodes(g, p);
    if |p| == 2 {
      FoundStart(Reverse(g), up, changed, p[1]);
    } else {
      ChainIsFound(g, changed, p[1..]);
    }
    FoundNext(Reverse(g), up, changed, p[1], p[0]);
  }

  lemma {:induction false} RouteIsChain(g: Graph, changed: set<Name>, p: seq<Name>)
    requires Route(Reverse(g), UpSet(g, changed), p) && p[0] in changed && |p| > 1
    ensures BelowOutside(g, changed, p[|p| - 1])
  {
    var q, m := p[..|p| - 1], p[|p| - 1];
    var d := q[|q| - 1];
    DownRouteStartsInside(g, UpSet(g, changed), p);
    assert m in Dependents(g, d);
    if |q| == 1 {
      assert [m, d][1..] == [d];
      assert OutsideChain(g, changed, [m, d]);
    } else {
      RouteIsChain(g, changed, q);
      var c :| OutsideChain(g, changed, c) && c[0] == d;
      assert ([m] + c)[1..] == c;
      assert OutsideChain(g, changed, [m] + c);
    }
  }

  /** What is affected beyond the upstream closure is what such a chain connects to a change. */
  lemma {:induction false} AffectedIffBelowOutside(g: Graph, changed: set<Name>, m: Name)
    ensures Affected(g, changed, m) <==> m in UpSet(g, changed) || BelowOutside(g, changed, m)
  {
    if s :| s in changed && Reaches(g, s, m) {
      var p :| Leads(g, s, p, m);
      PathNodes(g, p);
    }
    if DownOutside(g, changed, UpSet(g, changed), m) {
      var p :| Route(Reverse(g), UpSet(g, changed), p) && p[0] in changed && p[|p| - 1] == m;
      if |p| > 1 { RouteIsChain(g, changed, p); }
    }
    if BelowOutside(g, changed, m) {
      var p :| OutsideChain(g, changed, p) && p[0] == m;
      ChainIsFound(g, changed, p);
    }
  }

  /** The affected models within a dependency-closed selection can be cut into levels iff every dependency
      of a selected model below a change is in the upstream closure or below a change itself; no other
      assumption about the graph is made. */
  lemma {:induction false} AffectedHasLevelsIff(g: Graph, changed: set<Name>, wanted: set<Name>, r: set<Name>)
    requires Closed(g) && Acyclic(g) && DependencyClosed(g, wanted)
    requires forall n | n in g :: n in r <==> n in wanted && Affected(g, changed, n)
    ensures Closed(Restrict(g, r)) <==>
            forall m, d | m in wanted && m in g && BelowOutside(g, changed, m) && d in g[m] ::
              d in UpSet(g, changed) || BelowOutside(g, changed, d)
  {
    SelectionIsValid(g, r);
    forall n | n in g ensures Affected(g, changed, n) <==> n in UpSet(g, changed) || BelowOutside(g, changed, n) {
      AffectedIffBelowOutside(g, changed, n);
    }
    forall m, d | m in g && d in g[m] && m in UpSet(g, changed) ensures d in UpSet(g, changed) {
      UpSetIsClosed(g, changed, m, d);
    }
    if DependencyClosed(g, r) {
      forall m, d | m in wanted && m in g && BelowOutside(g, changed, m) && d in g[m]
        ensures d in UpSet(g, changed) || BelowOutside(g, changed, d)
      {
        assert m in r && d in r;
      }
    }
  }

  lemma {:induction false} UpSetIsClosed(g: Graph, changed: set<Name>, m: Name, d: Name)
    requires m in g && d in g[m] && d in g && m in UpSet(g, changed)
    ensures d in UpSet(g, changed)
  {
    if m in changed { ReachesRefl(g, m); }
    var s :| s in changed && Reaches(g, s, m);
    ReachesStep(g, s, m, d);
  }

  /** Where the affected models are the documented ones, the dependencies of the selected descendants must
      be documented as well. */
  lemma {:induction false} DocumentedHasLevelsIff(g: Graph, changed: set<Name>, wanted: set<Name>, r: set<Name>)
    requires Closed(g) && Acyclic(g) && DependencyClosed(g, wanted) && BetweenAnchored(g, changed)
    requires forall n | n in g :: n in r <==> n in wanted && Affected(g, changed, n)
    ensures Closed(Restrict(g, r)) <==>
            forall m, d | m in wanted && m in g && Downstream(g, changed, m) && d in g[m] :: Documented(g, changed, d)
  {
    DocumentedIff(g, changed);
    AffectedHasLevelsIff(g, changed, wanted, r);
    forall n | n in g
      ensures Documented(g, changed, n) <==> n in UpSet(g, changed) || BelowOutside(g, changed, n)
      ensures BelowOutside(g, changed, n) ==> Downstream(g, changed, n)
      ensures Downstream(g, changed, n) ==> n in UpSet(g, changed) || BelowOutside(g, changed, n)
    {
      AffectedIffBelowOutside(g, changed, n);
      if p :| OutsideChain(g, changed, p) && p[0] == n { assert Leads(g, n, p, p[|p| - 1]); }
    }
    forall m, d | m in g && d in g[m] && m in UpSet(g, changed) ensures d in UpSet(g, changed) {
      UpSetIsClosed(g, changed, m, d);
    }
  }

  /** Without selectors the selection plays no part: it is the case of all models. */
  lemma {:induction false} AllAffectedHaveLevelsIff(g: Graph, changed: set<Name>, affected: set<Name>)
    requires Closed(g) && Acyclic(g) && forall n :: n in affected <==> Affected(g, changed, n)
    ensures Closed(Restrict(g, affected)) <==>
            forall m, d | m in g && BelowOutside(g, changed, m) && d in g[m] ::
              d in UpSet(g, changed) || BelowOutside(g, changed, d)
  {
    AffectedHasLevelsIff(g, changed, g.Keys, affected);
  }

  lemma {:induction false} NoWayBack(g: Graph, a: Name, b: Name)
    requires Acyclic(g) && Reaches(g, a, b) && Reaches(g, b, a)
    ensures a == b
  {
    var p :| Leads(g, a, p, b);
    var q :| Leads(g, b, q, a);
    if a != b {
      PathNodes(g, p);
      PathJoin(g, p, q[1..]) by { PathSlice(g, q, 1, |q|); }
      assert IsCycle(g, p + q[1..]);
    }
  }

  const A := Name("a")
  const B := Name("b")
  const D := Name("d")
  const E := Name("e")

  /** a before b, and d and e after b. */
  const DIAMOND: Graph := map[A := [], B := [A], D := [B], E := [B]]

  lemma {:induction false} DiamondNames()
    ensures A != B && A != D && A != E && B != D && B != E && D != E
  {
    assert A.text[0] == 'a' && B.text[0] == 'b' && D.text[0] == 'd' && E.text[0] == 'e';
  }

  lemma {:induction false} DiamondIsValid()
    ensures Closed(DIAMOND) && Acyclic(DIAMOND)
  {
    DiamondNames();
    var rank: map<Name, nat> := map[A := 0, B := 1, D := 2, E := 2];
    assert Ranked(DIAMOND, rank);
    forall c | IsPath(DIAMOND, c) && |c| > 1 ensures !IsCycle(DIAMOND, c) { RankDropsOnPath(DIAMOND, rank, c); }
  }

  lemma {:induction false} DiamondPaths()
    ensures Reaches(DIAMOND, E, A) && Reaches(DIAMOND, D, B)
  {
    DiamondNames();
    assert [E, B, A][1..] == [B, A] && [B, A][1..] == [A] && [D, B][1..] == [B];
    assert Leads(DIAMOND, E, [E, B, A], A) && Leads(DIAMOND, D, [D, B], B);
  }

  lemma {:induction false} DiamondMissesUpstream(s: Name)
    requires s == A || s == D
    ensures !Reaches(DIAMOND, s, E)
  {
    DiamondNames();
    forall p | IsPath(DIAMOND, p) && p[0] == s ensures p[|p| - 1] != E {
      ClosedHoldsPath(DIAMOND, {A, B, D}, p);
    }
  }

  /** Changing a and d leaves e out, although e is downstream of a. */
  lemma {:induction false} AffectedCanMissADescendant()
    ensures Closed(DIAMOND) && Acyclic(DIAMOND) && {A, D} <= DIAMOND.Keys
    ensures Downstream(DIAMOND, {A, D}, E) && !Affected(DIAMOND, {A, D}, E)
  {
    DiamondNames();
    DiamondIsValid();
    DiamondPaths();
    DiamondMissesUpstream(A);
    DiamondMissesUpstream(D);
    var up := UpSet(DIAMOND, {A, D});
    assert B in up by { assert Upstream(DIAMOND, {A, D}, B); }
    forall p | Route(Reverse(DIAMOND), up, p) && p[0] in {A, D} ensures p[|p| - 1] != E {
      assert Next(Reverse(DIAMOND), A) == {B} && Next(Reverse(DIAMOND), D) == {};
      FoundInside(Reverse(DIAMOND), up, {A, D}, p);
    }
  }

  const P := Name("p")
  const Q := Name("q")
  const R := Name("r")

  /** r depends on p and on q. */
  const FORK: Graph := map[P := [], Q := [], R := [P, Q]]

  lemma {:induction false} ForkFacts()
    ensures P != Q && P != R && Q != R && Closed(FORK) && Acyclic(FORK)
    ensures Reaches(FORK, R, P) && !Reaches(FORK, P, Q) && !Reaches(FORK, Q, P)
  {
    assert P.text[0] == 'p' && Q.text[0] == 'q' && R.text[0] == 'r';
    var rank: map<Name, nat> := map[P := 0, Q := 0, R := 1];
    assert Ranked(FORK, rank);
    forall c | IsPath(FORK, c) && |c| > 1 ensures !IsCycle(FORK, c) { RankDropsOnPath(FORK, rank, c); }
    assert [R, P][1..] == [P];
    assert Leads(FORK, R, [R, P], P);
    forall p | IsPath(FORK, p) && p[0] == P ensures p[|p| - 1] != Q { ClosedHoldsPath(FORK, {P}, p); }
    forall p | IsPath(FORK, p) && p[0] == Q ensures p[|p| - 1] != P { ClosedHoldsPath(FORK, {Q}, p); }
  }

  /** Changing p selects r without q, so the cut into levels reports a missing dependency. */
  lemma {:induction false} AffectedCanLackADependency(affected: set<Name>)
    requires forall n :: n in affected <==> Affected(FORK, {P}, n)
    ensures Closed(FORK) && Acyclic(FORK) && R in affected && Q !in affected
    ensures !Closed(Restrict(FORK, affected))
  {
    ForkFacts();
    forall b ensures !Between(FORK, {P}, b) {
      if Between(FORK, {P}, b) { NoWayBack(FORK, P, b); }
    }
    DocumentedIff(FORK, {P});
    assert Downstream(FORK, {P}, R) && Documented(FORK, {P}, R) && !Documented(FORK, {P}, Q);
    assert Q in FORK[R];
    SelectionIsValid(FORK, affected);
  }

  /** So it is with `--select r`: the selection of r is dependency-closed, what is left of it is not. */
  lemma {:induction false} SelectedCanLackADependency(r: set<Name>)
    requires forall n :: n in r <==> Affected(FORK, {P}, n) && n in {P, Q, R}
    ensures Closed(FORK) && Acyclic(FORK) && forall n :: n in {P, Q, R} <==> Wanted(FORK, {R}, {}, n)
    ensures r == {P, R} && !Closed(Restrict(FORK, r))
  {
    ForkFacts();
    var affected := set n | n in {P, Q, R} && Affected(FORK, {P}, n);
    forall n | Affected(FORK, {P}, n) ensures n in {P, Q, R} { AffectedIsKnown(FORK, {P}, n); }
    AffectedCanLackADependency(affected);
    assert r == affected;
    assert Affected(FORK, {P}, P);
    assert Survives(FORK, {}, R);
    forall n | n in {P, Q, R} ensures Reaches(FORK, R, n) {
      ReachesRefl(FORK, R);
      if n != R { ReachesStep(FORK, R, R, n); }
    }
    forall n | Wanted(FORK, {R}, {}, n) ensures n in {P, Q, R} {
      var p :| Leads(FORK, R, p, n);
      PathNodes(FORK, p);
    }
  }

  lemma {:induction false} AffectedIsKnown(g: Graph, changed: set<Name>, n: Name)
    requires changed <= g.Keys && Affected(g, changed, n)
    ensures n in g
  {
    AffectedIsDocumented(g, changed, n);
    if s :| s in changed && Reaches(g, s, n) {
      var p :| Leads(g, s, p, n);
      PathNodes(g, p);
    }
    if Downstream(g, changed, n) { DownstreamIsKnown(g, changed, n); }
  }
}
