/** `lineage.py`: column lineage through common table expressions. The direct lineage of each
    statement is an input; what is modelled is how edges to CTEs are replaced by base columns. */
module Lineage {
  /** An edge to a source column; an empty relation, column or confidence is a missing one. */
  datatype Item = Item(rel: string, col: string, transformed: bool, confidence: string)

  type LineageMap = map<string, seq<Item>>

  datatype Cte = Cte(name: string, direct: LineageMap)

  predicate Valid(e: Item) {
    e.rel != "" && e.col != ""
  }

  // ---------- _dedupe_items ----------

  /** First occurrences of the valid items that are not in `seen`, in order. */
  function Firsts(items: seq<Item>, seen: set<Item>): seq<Item> {
    if items == [] then []
    else if !Valid(items[0]) || items[0] in seen then Firsts(items[1..], seen)
    else [items[0]] + Firsts(items[1..], seen + {items[0]})
  }

  method DedupeItems(items: seq<Item>) returns (out: seq<Item>)
    ensures out == Firsts(items, {})
  {
    var seen: set<Item> := {};
    out := [];
    for i := 0 to |items|
      invariant out + Firsts(items[i..], seen) == Firsts(items, {})
    {
      var it := items[i];
      assert items[i..][0] == it && items[i..][1..] == items[i + 1..];
      if Valid(it) && it !in seen {
        assert out + ([it] + Firsts(items[i + 1..], seen + {it})) == out + [it] + Firsts(items[i + 1..], seen + {it});
        seen := seen + {it};
        out := out + [it];
      }
    }
  }

  lemma {:induction false} FirstsMembers(items: seq<Item>, seen: set<Item>, x: Item)
    ensures x in Firsts(items, seen) <==> x in items && x.rel != "" && x.col != "" && x !in seen
  {
    if items != [] {
      FirstsMembers(items[1..], seen, x);
      FirstsMembers(items[1..], seen + {items[0]}, x);
      assert x in items <==> x == items[0] || x in items[1..];
    }
  }

  lemma {:induction false} FirstsDistinct(items: seq<Item>, seen: set<Item>)
    ensures forall i, j | 0 <= i < j < |Firsts(items, seen)| :: Firsts(items, seen)[i] != Firsts(items, seen)[j]
  {
    if items != [] {
      FirstsDistinct(items[1..], seen);
      FirstsDistinct(items[1..], seen + {items[0]});
      FirstsMembers(items[1..], seen + {items[0]}, items[0]);
    }
  }

  /** Where `x` occurs first. */
  function FirstIndex(items: seq<Item>, x: Item): (i: nat)
    requires x in items
    ensures i < |items| && items[i] == x && forall k | 0 <= k < i :: items[k] != x
  {
    if items[0] == x then 0 else 1 + FirstIndex(items[1..], x)
  }

  ghost predicate Earlier(items: seq<Item>, x: Item, y: Item) {
    x in items && y in items && FirstIndex(items, x) < FirstIndex(items, y)
  }

  lemma {:induction false} EarlierInTail(items: seq<Item>, x: Item, y: Item)
    requires items != [] && x != items[0] && y != items[0] && Earlier(items[1..], x, y)
    ensures Earlier(items, x, y)
  {
    assert items == [items[0]] + items[1..];
  }

  lemma {:induction false} HeadIsEarlier(items: seq<Item>, y: Item)
    requires y in items && y != items[0]
    ensures Earlier(items, items[0], y)
  {
  }

  /** The items come in the order of their first occurrences. */
  lemma {:induction false} FirstsInOrder(items: seq<Item>, seen: set<Item>, i: nat, j: nat)
    requires i < j < |Firsts(items, seen)|
    ensures Earlier(items, Firsts(items, seen)[i], Firsts(items, seen)[j])
  {
    if Valid(items[0]) && items[0] !in seen {
      var rest := Firsts(items[1..], seen + {items[0]});
      if i > 0 { FirstsInOrder(items[1..], seen + {items[0]}, i - 1, j - 1); }
      HeadThenRest(items, seen, rest, i, j);
    } else {
      FirstsInOrder(items[1..], seen, i, j);
      SkippedHead(items, seen, i, j);
    }
  }

  lemma {:induction false} SkippedHead(items: seq<Item>, seen: set<Item>, i: nat, j: nat)
    requires items != [] && (!Valid(items[0]) || items[0] in seen) && i < j < |Firsts(items[1..], seen)|
    requires Earlier(items[1..], Firsts(items[1..], seen)[i], Firsts(items[1..], seen)[j])
    ensures Earlier(items, Firsts(items[1..], seen)[i], Firsts(items[1..], seen)[j])
  {
    var x, y := Firsts(items[1..], seen)[i], Firsts(items[1..], seen)[j];
    FirstsMembers(items[1..], seen, x);
    FirstsMembers(items[1..], seen, y);
    EarlierInTail(items, x, y);
  }

  lemma {:induction false} HeadThenRest(items: seq<Item>, seen: set<Item>, rest: seq<Item>, i: nat, j: nat)
    requires items != [] && rest == Firsts(items[1..], seen + {items[0]}) && i < j < |[items[0]] + rest|
    requires i > 0 ==> Earlier(items[1..], rest[i - 1], rest[j - 1])
    ensures Earlier(items, ([items[0]] + rest)[i], ([items[0]] + rest)[j])
  {
    var y := rest[j - 1];
    FirstsMembers(items[1..], seen + {items[0]}, y);
    if i == 0 {
      HeadIsEarlier(items, y);
    } else {
      FirstsMembers(items[1..], seen + {items[0]}, rest[i - 1]);
      EarlierInTail(items, rest[i - 1], y);
    }
  }

  // ---------- _expand_cte_edges ----------

  type Known = map<string, LineageMap>

  predicate Known?(known: Known, e: Item) {
    e.rel in known && e.col in known[e.rel]
  }

  /** The edge through `e` to where `y` comes from. */
  function Via(e: Item, y: Item): Item {
    Item(y.rel, y.col, e.transformed || y.transformed, "")
  }

  function Through(e: Item, subs: seq<Item>): seq<Item> {
    seq(|subs|, i requires 0 <= i < |subs| => Via(e, subs[i]))
  }

  function ExpandEdge(e: Item, known: Known): seq<Item> {
    if Known?(known, e) then Through(e, known[e.rel][e.col]) else [e]
  }

  function ExpandEdges(edges: seq<Item>, known: Known): seq<Item> {
    if edges == [] then [] else ExpandEdges(edges[..|edges| - 1], known) + ExpandEdge(edges[|edges| - 1], known)
  }

  function Expanded(edges: seq<Item>, known: Known): seq<Item> {
    Firsts(ExpandEdges(edges, known), {})
  }

  /** Edges are expanded one after the other, each in its place. */
  lemma {:induction false} ExpandEdgesConcat(a: seq<Item>, b: seq<Item>, known: Known)
    ensures ExpandEdges(a + b, known) == ExpandEdges(a, known) + ExpandEdges(b, known)
    decreases |b|
  {
    if b == [] {
      assert a + b == a;
    } else {
      assert (a + b)[..|a + b| - 1] == a + b[..|b| - 1] && (a + b)[|a + b| - 1] == b[|b| - 1];
      ExpandEdgesConcat(a, b[..|b| - 1], known);
    }
  }

  /** Columns whose expansion is empty disappear. */
  function ExpandMap(lin: LineageMap, known: Known): LineageMap {
    map c | c in lin && Expanded(lin[c], known) != [] :: Expanded(lin[c], known)
  }

  lemma {:induction false} FilteredFirsts(items: seq<Item>, kept: seq<Item>, seen: set<Item>)
    requires kept == OnlyValid(items)
    ensures Firsts(kept, seen) == Firsts(items, seen)
  {
    if items != [] {
      if Valid(items[0]) {
        assert kept[0] == items[0] && kept[1..] == OnlyValid(items[1..]);
        FilteredFirsts(items[1..], kept[1..], seen);
        FilteredFirsts(items[1..], kept[1..], seen + {items[0]});
      } else {
        FilteredFirsts(items[1..], kept, seen);
      }
    }
  }

  /** `[x for x in expanded if x.get("from_relation") and x.get("from_column")]` */
  function OnlyValid(items: seq<Item>): seq<Item> {
    if items == [] then []
    else if Valid(items[0]) then [items[0]] + OnlyValid(items[1..])
    else OnlyValid(items[1..])
  }

  lemma {:induction false} NothingValid(items: seq<Item>)
    ensures OnlyValid(items) == [] <==> Firsts(items, {}) == []
  {
    if items != [] { NothingValid(items[1..]); }
  }

  method ExpandCteEdges(lin: LineageMap, known: Known) returns (out: LineageMap)
    ensures out == ExpandMap(lin, known)
  {
    out := map[];
    var todo := lin.Keys;
    while todo != {}
      invariant todo <= lin.Keys
      invariant out == ExpandMap(lin - todo, known)
    {
      var c :| c in todo;
      var expanded := ExpandColumn(lin[c], known);
      var kept := OnlyValid(expanded);
      FilteredFirsts(expanded, kept, {});
      NothingValid(expanded);
      ExpandOneMore(lin, known, todo, c);
      if kept != [] {
        var items := DedupeItems(kept);
        out := out[c := items];
      }
      todo := todo - {c};
    }
    assert lin - {} == lin;
  }

  lemma {:induction false} ExpandOneMore(lin: LineageMap, known: Known, todo: set<string>, c: string)
    requires c in todo && todo <= lin.Keys
    ensures var before := ExpandMap(lin - todo, known);
            ExpandMap(lin - (todo - {c}), known) ==
            if Expanded(lin[c], known) != [] then before[c := Expanded(lin[c], known)] else before
  {
    assert lin - (todo - {c}) == (lin - todo)[c := lin[c]];
  }

  method ExpandColumn(edges: seq<Item>, known: Known) returns (expanded: seq<Item>)
    ensures expanded == ExpandEdges(edges, known)
  {
    expanded := [];
    for i := 0 to |edges|
      invariant expanded == ExpandEdges(edges[..i], known)
    {
      var e := edges[i];
      assert edges[..i + 1][..i] == edges[..i];
      if Known?(known, e) {
        var subs := known[e.rel][e.col];
        ghost var before := expanded;
        for k := 0 to |subs|
          invariant expanded == before + Through(e, subs)[..k]
        {
          expanded := expanded + [Via(e, subs[k])];
        }
        assert Through(e, subs)[..|subs|] == Through(e, subs);
      } else {
        expanded := expanded + [e];
      }
    }
    assert edges[..|edges|] == edges;
  }

  // ---------- The CTE loop ----------

  /** What is known after the first `i` CTEs; a later CTE of the same name replaces an earlier one. */
  function KnownAfter(ctes: seq<Cte>, i: nat): Known
    requires i <= |ctes|
  {
    if i == 0 then map[]
    else
      var known := KnownAfter(ctes, i - 1);
      known[ctes[i - 1].name := ExpandMap(ctes[i - 1].direct, known)]
  }

  method InferLineage(ctes: seq<Cte>, main: LineageMap) returns (out: LineageMap)
    ensures out == ExpandMap(main, KnownAfter(ctes, |ctes|))
    ensures forall c, x :: c in out && x in out[c] <==> c in main && TrailTo(ctes, |ctes|, main[c], x)
    ensures forall c | c in out :: out[c] != [] && forall i, j | 0 <= i < j < |out[c]| :: out[c][i] != out[c][j]
  {
    var known: Known := map[];
    for i := 0 to |ctes|
      invariant known == KnownAfter(ctes, i)
    {
      var cteMap := ExpandCteEdges(ctes[i].direct, known);
      known := known[ctes[i].name := cteMap];
    }
    out := ExpandCteEdges(main, known);
    forall c, x ensures c in out && x in out[c] <==> c in main && TrailTo(ctes, |ctes|, main[c], x) {
      if c in main { ExpansionIsTrails(ctes, |ctes|, main[c], x); }
    }
    forall c | c in out { FirstsDistinct(ExpandEdges(main[c], known), {}); }
  }

  // ---------- Trails ----------

  /** The CTE a relation name means when the first `i` are in scope: the latest of that name, or -1. */
  function Resolve(ctes: seq<Cte>, i: nat, name: string): (j: int)
    requires i <= |ctes|
    ensures -1 <= j < i && (j >= 0 ==> ctes[j].name == name)
    ensures forall k | j < k < i :: ctes[k].name != name
  {
    if i == 0 then -1 else if ctes[i - 1].name == name then i - 1 else Resolve(ctes, i - 1, name)
  }

  /** A path of edges: each one leads into a CTE in scope, the next is one of that CTE's direct edges
      for the column; the last one is a valid edge that leads into no CTE column. */
  ghost predicate Trail(ctes: seq<Cte>, i: nat, p: seq<Item>)
    requires i <= |ctes|
    decreases i, 0
  {
    p != [] &&
    var j := Resolve(ctes, i, p[0].rel);
    if j >= 0 && ColumnLive(ctes, j, p[0].col) then
      |p| > 1 && p[0].col in ctes[j].direct && p[1] in ctes[j].direct[p[0].col] && Trail(ctes, j, p[1..])
    else
      |p| == 1 && Valid(p[0])
  }

  /** CTE `j` has a column of this name that comes from somewhere. */
  ghost predicate ColumnLive(ctes: seq<Cte>, j: nat, col: string)
    requires j < |ctes|
    decreases j, 1
  {
    col in ctes[j].direct && exists q :: Trail(ctes, j, q) && q != [] && q[0] in ctes[j].direct[col]
  }

  function AnyTransformed(p: seq<Item>): bool {
    exists k :: 0 <= k < |p| && p[k].transformed
  }

  /** The end of a trail, transformed if any edge on the way is; following a CTE loses the confidence. */
  function EndOf(p: seq<Item>): Item
    requires p != []
  {
    Item(p[|p| - 1].rel, p[|p| - 1].col, AnyTransformed(p), if |p| == 1 then p[0].confidence else "")
  }

  ghost predicate TrailTo(ctes: seq<Cte>, i: nat, edges: seq<Item>, x: Item)
    requires i <= |ctes|
  {
    exists p :: Trail(ctes, i, p) && p != [] && p[0] in edges && EndOf(p) == x
  }

  lemma {:induction false} KnownIsResolved(ctes: seq<Cte>, i: nat, name: string)
    requires i <= |ctes|
    ensures var j := Resolve(ctes, i, name);
            if j >= 0 then name in KnownAfter(ctes, i) &&
                           KnownAfter(ctes, i)[name] == ExpandMap(ctes[j].direct, KnownAfter(ctes, j))
            else name !in KnownAfter(ctes, i)
  {
    if i > 0 { KnownIsResolved(ctes, i - 1, name); }
  }

  lemma {:induction false} ExpandEdgesMembers(edges: seq<Item>, known: Known, x: Item)
    ensures x in ExpandEdges(edges, known) <==> exists e :: e in edges && x in ExpandEdge(e, known)
  {
    if edges != [] {
      var rest, last := edges[..|edges| - 1], edges[|edges| - 1];
      assert edges == rest + [last];
      ExpandEdgesMembers(rest, known, x);
    }
  }

  /** The expansion of a list of edges holds exactly the ends of the trails that start with them. */
  lemma {:induction false} ExpansionIsTrails(ctes: seq<Cte>, i: nat, edges: seq<Item>, x: Item)
    requires i <= |ctes|
    ensures x in Expanded(edges, KnownAfter(ctes, i)) <==> TrailTo(ctes, i, edges, x)
    decreases i, 1
  {
    var known := KnownAfter(ctes, i);
    FirstsMembers(ExpandEdges(edges, known), {}, x);
    ExpandEdgesMembers(edges, known, x);
    forall e { EdgeIsTrails(ctes, i, e, x); }
    if TrailTo(ctes, i, edges, x) {
      var p :| Trail(ctes, i, p) && p != [] && p[0] in edges && EndOf(p) == x;
      assert TrailTo(ctes, i, [p[0]], x);
    }
    if e :| e in edges && TrailTo(ctes, i, [e], x) {
      var p :| Trail(ctes, i, p) && p != [] && p[0] in [e] && EndOf(p) == x;
      assert p[0] in edges;
    }
  }

  /** The same for one edge. */
  lemma {:induction false} EdgeIsTrails(ctes: seq<Cte>, i: nat, e: Item, x: Item)
    requires i <= |ctes|
    ensures x in ExpandEdge(e, KnownAfter(ctes, i)) && Valid(x) <==> TrailTo(ctes, i, [e], x)
    decreases i, 0
  {
    var known, j := KnownAfter(ctes, i), Resolve(ctes, i, e.rel);
    KnownIsResolved(ctes, i, e.rel);
    if j < 0 {
      LoneTrail(ctes, i, e, x);
    } else {
      var inner := KnownAfter(ctes, j);
      if e.col in ctes[j].direct {
        forall y { ExpansionIsTrails(ctes, j, ctes[j].direct[e.col], y); }
      }
      ColumnKnownIffLive(ctes, j, e.col);
      if ColumnLive(ctes, j, e.col) {
        LongTrail(ctes, i, e, x);
      } else {
        LoneTrail(ctes, i, e, x);
      }
    }
  }

  lemma {:induction false} ColumnKnownIffLive(ctes: seq<Cte>, j: nat, col: string)
    requires j < |ctes|
    requires col in ctes[j].direct ==>
               forall y :: y in Expanded(ctes[j].direct[col], KnownAfter(ctes, j)) <==>
                           TrailTo(ctes, j, ctes[j].direct[col], y)
    ensures col in ExpandMap(ctes[j].direct, KnownAfter(ctes, j)) <==> ColumnLive(ctes, j, col)
  {
    if col in ctes[j].direct {
      var edges := ctes[j].direct[col];
      var exp := Expanded(edges, KnownAfter(ctes, j));
      if exp != [] { assert TrailTo(ctes, j, edges, exp[0]); }
      if ColumnLive(ctes, j, col) {
        var q :| Trail(ctes, j, q) && q != [] && q[0] in edges;
        assert TrailTo(ctes, j, edges, EndOf(q));
      }
    }
  }

  /** An edge that leads into no CTE column is its own only trail. */
  lemma {:induction false} LoneTrail(ctes: seq<Cte>, i: nat, e: Item, x: Item)
    requires i <= |ctes|
    requires var j := Resolve(ctes, i, e.rel); j < 0 || !ColumnLive(ctes, j, e.col)
    ensures TrailTo(ctes, i, [e], x) <==> x == e && Valid(e)
  {
    assert EndOf([e]) == e by { assert [e][0] == e; }
    if Valid(e) { assert Trail(ctes, i, [e]); }
  }

  /** An edge into a CTE column is followed by the trails of that column. */
  lemma {:induction false} LongTrail(ctes: seq<Cte>, i: nat, e: Item, x: Item)
    requires i <= |ctes|
    requires var j := Resolve(ctes, i, e.rel);
             j >= 0 && ColumnLive(ctes, j, e.col) && Known?(KnownAfter(ctes, i), e) &&
             KnownAfter(ctes, i)[e.rel][e.col] == Expanded(ctes[j].direct[e.col], KnownAfter(ctes, j)) &&
             forall y :: y in Expanded(ctes[j].direct[e.col], KnownAfter(ctes, j)) <==>
                         TrailTo(ctes, j, ctes[j].direct[e.col], y)
    ensures x in ExpandEdge(e, KnownAfter(ctes, i)) && Valid(x) <==> TrailTo(ctes, i, [e], x)
  {
    var j := Resolve(ctes, i, e.rel);
    var edges := ctes[j].direct[e.col];
    var subs := Expanded(edges, KnownAfter(ctes, j));
    assert ExpandEdge(e, KnownAfter(ctes, i)) == Through(e, subs);
    if x in Through(e, subs) {
      var y := ThroughFrom(e, subs, x);
      ConsTrails(ctes, i, e, j, y);
    }
    if TrailTo(ctes, i, [e], x) {
      var q := TailTrail(ctes, i, e, x);
      assert EndOf(q) in subs;
      ThroughTo(e, subs, EndOf(q));
      FirstsMembers(ExpandEdges(edges, KnownAfter(ctes, j)), {}, EndOf(q));
    }
  }

  lemma {:induction false} ThroughFrom(e: Item, subs: seq<Item>, x: Item) returns (y: Item)
    requires x in Through(e, subs)
    ensures y in subs && x == Via(e, y)
  {
    var k :| 0 <= k < |subs| && Through(e, subs)[k] == x;
    y := subs[k];
  }

  lemma {:induction false} ThroughTo(e: Item, subs: seq<Item>, y: Item)
    requires y in subs
    ensures Via(e, y) in Through(e, subs)
  {
    var k :| 0 <= k < |subs| && subs[k] == y;
    assert Through(e, subs)[k] == Via(e, y);
  }

  lemma {:induction false} ConsTrails(ctes: seq<Cte>, i: nat, e: Item, j: nat, y: Item)
    requires i <= |ctes| && j == Resolve(ctes, i, e.rel) && ColumnLive(ctes, j, e.col)
    requires TrailTo(ctes, j, ctes[j].direct[e.col], y)
    ensures TrailTo(ctes, i, [e], Via(e, y))
  {
    var q :| Trail(ctes, j, q) && q != [] && q[0] in ctes[j].direct[e.col] && EndOf(q) == y;
    ConsTrail(ctes, i, e, q);
  }

  lemma {:induction false} TailTrail(ctes: seq<Cte>, i: nat, e: Item, x: Item) returns (q: seq<Item>)
    requires i <= |ctes| && TrailTo(ctes, i, [e], x)
    requires var j := Resolve(ctes, i, e.rel); j >= 0 && ColumnLive(ctes, j, e.col)
    ensures var j := Resolve(ctes, i, e.rel);
            q != [] && Trail(ctes, j, q) && q[0] in ctes[j].direct[e.col] &&
            TrailTo(ctes, j, ctes[j].direct[e.col], EndOf(q)) &&
            x == Via(e, EndOf(q))
  {
    var p :| Trail(ctes, i, p) && p != [] && p[0] in [e] && EndOf(p) == x;
    q := p[1..];
    assert p == [e] + q;
    EndOfCons(e, q);
  }

  lemma {:induction false} EndOfCons(e: Item, q: seq<Item>)
    requires q != []
    ensures EndOf([e] + q) == Via(e, EndOf(q))
  {
    var p := [e] + q;
    assert AnyTransformed(p) <==> e.transformed || AnyTransformed(q) by {
      if k :| 0 <= k < |p| && p[k].transformed { if k > 0 { assert q[k - 1].transformed; } }
      if e.transformed { assert p[0].transformed; }
      if k :| 0 <= k < |q| && q[k].transformed { assert p[k + 1].transformed; }
    }
  }

  lemma {:induction false} ConsTrail(ctes: seq<Cte>, i: nat, e: Item, q: seq<Item>)
    requires i <= |ctes|
    requires var j := Resolve(ctes, i, e.rel);
             j >= 0 && ColumnLive(ctes, j, e.col) && Trail(ctes, j, q) && q != [] && q[0] in ctes[j].direct[e.col]
    ensures Trail(ctes, i, [e] + q)
    ensures TrailTo(ctes, i, [e], Via(e, EndOf(q)))
  {
    assert ([e] + q)[1..] == q;
    EndOfCons(e, q);
    assert ([e] + q)[0] in [e];
  }
}
