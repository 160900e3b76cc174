/** What a run works on: a project of models, their fingerprints, and the tables they stand for. */
module RunModel {
  import opened Names
  import opened Graphs

  datatype Kind = Sql | Python

  /** The contents of one relation. */
  datatype Table = Table(rows: seq<string>)

  /** `relation_for`: the physical relation drops a trailing ".ff". */
  function RelationFor(n: Name): Name {
    var t := n.text;
    if |t| >= 3 && t[|t| - 3..] == ".ff" then Name(t[..|t| - 3]) else n
  }

  /** `a` is `b` followed by the suffix, and `b` carries none itself. */
  ghost predicate Suffixed(a: Name, b: Name) {
    a.text == b.text + ".ff" && forall s: string :: b.text != s + ".ff"
  }

  lemma {:induction false} RelationDropsSuffix(s: string)
    ensures RelationFor(Name(s + ".ff")) == Name(s)
  {
    var t := s + ".ff";
    assert t[|t| - 3..] == ".ff" && t[..|t| - 3] == s;
  }

  lemma {:induction false} RelationKeepsName(n: Name)
    requires forall s: string :: n.text != s + ".ff"
    ensures RelationFor(n) == n
  {
    var t := n.text;
    if |t| >= 3 && t[|t| - 3..] == ".ff" { assert t == t[..|t| - 3] + ".ff"; }
  }

  /** A name ends with the suffix or keeps its text. */
  lemma {:induction false} RelationCases(n: Name)
    ensures n.text == RelationFor(n).text + ".ff" || (RelationFor(n) == n && forall s: string :: n.text != s + ".ff")
  {
    if s: string :| n.text == s + ".ff" { RelationDropsSuffix(s); } else { RelationKeepsName(n); }
  }

  /** Two names share a relation iff one is the other with the suffix, and the shorter one carries none. */
  lemma {:induction false} SharedRelationIff(a: Name, b: Name)
    requires a != b
    ensures RelationFor(a) == RelationFor(b) <==> Suffixed(a, b) || Suffixed(b, a)
  {
    RelationCases(a);
    RelationCases(b);
    if Suffixed(a, b) { RelationDropsSuffix(b.text); }
    if Suffixed(b, a) { RelationDropsSuffix(a.text); }
  }

  /** What SHA-256 is applied to, kept as a tree: equal hashes are taken to mean equal trees.
      `NoFp` is the empty string that stands in for a dependency without any fingerprint. */
  datatype Fp =
    | NoFp
    | Fp(kind: Kind, node: Name, relation: Name, text: string, env: string, deps: map<Name, Fp>)

  /** How the engine computes a model: from its kind, its text, the environment and its inputs. */
  type Eval = (Kind, string, string, map<Name, Table>) -> Table

  /** The registry: dependency lists, kinds, rendered and normalized sources, environment. */
  datatype Project = Project(g: Graph, kind: Name -> Kind, text: Name -> string, env: string)

  ghost predicate ValidProject(p: Project) {
    Closed(p.g) && Acyclic(p.g)
  }

  /** The fingerprint of `n` when every dependency is fingerprinted first. */
  ghost function TrueFp(p: Project, n: Name): Fp
    requires ValidProject(p) && n in p.g
    decreases RankOf(p.g)[n]
  {
    Fp(p.kind(n), n, RelationFor(n), p.text(n), p.env, map d | d in p.g[n] :: TrueFp(p, d))
  }

  /** A build from scratch, dependencies first. */
  ghost function Rebuild(eval: Eval, p: Project, n: Name): Table
    requires ValidProject(p) && n in p.g
    decreases RankOf(p.g)[n]
  {
    eval(p.kind(n), p.text(n), p.env, map d | d in p.g[n] :: Rebuild(eval, p, d))
  }

  /** The table a fingerprint stands for. */
  ghost function Denote(eval: Eval, f: Fp): Table {
    match f
    case NoFp => Table([])
    case Fp(kind, _, _, text, env, deps) =>
      eval(kind, text, env, map d | d in deps :: Denote(eval, deps[d]))
  }

  /** The current fingerprint stands for the table a rebuild would produce. */
  lemma {:induction false} TrueFpDenotesRebuild(eval: Eval, p: Project, n: Name)
    requires ValidProject(p) && n in p.g
    ensures Denote(eval, TrueFp(p, n)) == Rebuild(eval, p, n)
    decreases RankOf(p.g)[n]
  {
    forall d | d in p.g[n] { TrueFpDenotesRebuild(eval, p, d); }
    var deps := map d | d in p.g[n] :: TrueFp(p, d);
    assert (map d | d in deps :: Denote(eval, deps[d])) == map d | d in p.g[n] :: Rebuild(eval, p, d);
  }

  /** The projects agree on `n` and on everything upstream of it; the order of dependencies does not matter. */
  ghost predicate SameSources(p1: Project, p2: Project, n: Name)
    requires ValidProject(p1)
    decreases if n in p1.g then RankOf(p1.g)[n] + 1 else 0
  {
    n in p1.g && n in p2.g && p1.kind(n) == p2.kind(n) && p1.text(n) == p2.text(n) && p1.env == p2.env &&
    DepSet(p1.g, n) == DepSet(p2.g, n) && forall d | d in p1.g[n] :: SameSources(p1, p2, d)
  }

  /** A model keeps its fingerprint exactly when nothing in it or upstream of it changed. */
  lemma {:induction false} TrueFpExact(p1: Project, p2: Project, n: Name)
    requires ValidProject(p1) && ValidProject(p2) && n in p1.g && n in p2.g
    ensures TrueFp(p1, n) == TrueFp(p2, n) <==> SameSources(p1, p2, n)
    decreases RankOf(p1.g)[n]
  {
    var deps1, deps2 := TrueFp(p1, n).deps, TrueFp(p2, n).deps;
    assert deps1.Keys == DepSet(p1.g, n) && deps2.Keys == DepSet(p2.g, n);
    forall d | d in DepSet(p1.g, n) && d in DepSet(p2.g, n)
      ensures deps1[d] == deps2[d] <==> SameSources(p1, p2, d)
    {
      TrueFpExact(p1, p2, d);
    }
    if SameSources(p1, p2, n) { assert deps1 == deps2; }
    if deps1 == deps2 { assert DepSet(p1.g, n) == DepSet(p2.g, n); }
  }
}
