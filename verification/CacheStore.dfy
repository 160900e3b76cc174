/** `cache.py`: the fingerprint store, the fingerprints of the current sources, and what changed. */
module CacheStore {
  import opened Names
  import opened Graphs
  import opened Dag
  import opened RunModel
  import Selection

  // ---------- The store ----------

  /** The cache file: absent, unreadable, or a version with its entries. */
  datatype Disk<F> = Absent | Corrupt | File(version: int, engine: string, profile: string, entries: map<Name, F>)

  class FingerprintCache<F(==)> {
    const version: int
    const engine: string
    const profile: string
    var entries: map<Name, F>
    var disk: Disk<F>

    constructor (engine: string, profile: string, disk: Disk<F>)
      ensures this.engine == engine && this.profile == profile && this.disk == disk && entries == map[] && version == 1
    {
      version := 1;
      this.engine, this.profile := engine, profile;
      entries := map[];
      this.disk := disk;
    }

    /** An absent or broken file empties the entries; another version leaves them as they are. The engine
        and the profile in the file are not compared: they are part of its path. */
    method Load()
      modifies this`entries
      ensures disk.File? && disk.version == version ==> entries == disk.entries
      ensures disk.File? && disk.version != version ==> entries == old(entries)
      ensures !disk.File? ==> entries == map[]
    {
      match disk {
        case File(v, _, _, e) => if v == version { entries := e; }
        case _ => entries := map[];
      }
    }

    method Save()
      modifies this`disk
      ensures disk == File(version, engine, profile, entries)
    {
      disk := File(version, engine, profile, entries);
    }

    method Set(n: Name, f: F)
      modifies this`entries
      ensures entries == old(entries)[n := f]
    {
      entries := entries[n := f];
    }

    method UpdateMany(fps: map<Name, F>)
      modifies this`entries
      ensures entries == old(entries) + fps
    {
      var todo := fps.Keys;
      while todo != {}
        invariant todo <= fps.Keys
        invariant entries == old(entries) + (fps - todo)
      {
        var n :| n in todo;
        entries := entries[n := fps[n]];
        todo := todo - {n};
      }
    }
  }

  /** What one engine saves another one loads. */
  method SaveThenLoad<F(==)>(saved: FingerprintCache<F>, fps: map<Name, F>) returns (loaded: FingerprintCache<F>)
    requires saved.version == 1
    modifies saved
    ensures fresh(loaded) && loaded.entries == saved.entries == old(saved.entries) + fps
  {
    saved.UpdateMany(fps);
    saved.Save();
    loaded := new FingerprintCache(saved.engine, saved.profile, saved.disk);
    loaded.Load();
  }

  // ---------- Fingerprints of the current sources ----------

  /** Registered nodes with rendered SQL or function source, and the environment blob. */
  datatype Registry = Registry(g: Graph, kind: Name -> Kind, source: Name -> string, envBlob: string)

  const NUL: string := "\0"

  function Tag(kind: Kind): string {
    match kind
    case Sql => "sql"
    case Python => "py"
  }

  function Parts(reg: Registry, n: Name, depFps: seq<string>): seq<string> {
    [Tag(reg.kind(n)), n.text, reg.source(n), reg.envBlob] + depFps
  }

  /** The bytes fed to the hash: every part followed by a NUL. */
  function Encode(parts: seq<string>): string {
    if parts == [] then "" else parts[0] + NUL + Encode(parts[1..])
  }

  ghost predicate NulFree(s: string) {
    forall i | 0 <= i < |s| :: s[i] != '\0'
  }

  ghost predicate AllNulFree(parts: seq<string>) {
    forall i | 0 <= i < |parts| :: NulFree(parts[i])
  }

  /** A hash without collisions whose digests hold no NUL. */
  ghost predicate GoodHash(hash: string -> string) {
    (forall a, b | hash(a) == hash(b) :: a == b) && forall a :: NulFree(hash(a))
  }

  ghost predicate ValidRegistry(reg: Registry) {
    Closed(reg.g) && Acyclic(reg.g) && NulFree(reg.envBlob) &&
    forall n | n in reg.g :: NulFree(n.text) && NulFree(reg.source(n))
  }

  ghost function CurrentFp(reg: Registry, hash: string -> string, n: Name): string
    requires Closed(reg.g) && Acyclic(reg.g) && n in reg.g
    decreases RankOf(reg.g)[n], 1
  {
    hash(Encode(Parts(reg, n, DepFps(reg, hash, n))))
  }

  /** In the order of the dependency list, repetitions included. */
  ghost function DepFps(reg: Registry, hash: string -> string, n: Name): seq<string>
    requires Closed(reg.g) && Acyclic(reg.g) && n in reg.g
    decreases RankOf(reg.g)[n], 0
  {
    seq(|reg.g[n]|, i requires 0 <= i < |reg.g[n]| => CurrentFp(reg, hash, reg.g[n][i]))
  }

  ghost predicate Agreeing(reg: Registry, hash: string -> string, current: map<Name, string>)
    requires Closed(reg.g) && Acyclic(reg.g)
  {
    forall n | n in current :: n in reg.g && current[n] == CurrentFp(reg, hash, n)
  }

  /** `[current[d] for d in node.deps if d in current]`: nothing is ever filtered out. */
  method CollectDepFps(reg: Registry, hash: string -> string, n: Name, current: map<Name, string>)
    returns (fps: seq<string>)
    requires Closed(reg.g) && Acyclic(reg.g) && n in reg.g
    requires Agreeing(reg, hash, current) && DepSet(reg.g, n) <= current.Keys
    ensures fps == DepFps(reg, hash, n)
  {
    fps := [];
    var deps := reg.g[n];
    for i := 0 to |deps|
      invariant fps == DepFps(reg, hash, n)[..i]
    {
      assert deps[i] in DepSet(reg.g, n);
      if deps[i] in current {
        fps := fps + [current[deps[i]]];
      }
    }
  }

  method HashInOrder(reg: Registry, hash: string -> string, order: seq<Name>) returns (current: map<Name, string>)
    requires Closed(reg.g) && Acyclic(reg.g) && DepsFirst(reg.g, order)
    ensures current.Keys == Elements(order) && Agreeing(reg, hash, current)
  {
    current := map[];
    for i := 0 to |order|
      invariant Hashed(reg, hash, order[..i], current)
    {
      var n := order[i];
      var fps := CollectDepFps(reg, hash, n, current);
      OneMoreHashed(reg, hash, order, i, current);
      current := current[n := hash(Encode(Parts(reg, n, fps)))];
    }
    assert order[..|order|] == order;
  }

  /** `current` holds the fingerprints of the nodes in `order`. */
  ghost predicate Hashed(reg: Registry, hash: string -> string, order: seq<Name>, current: map<Name, string>)
    requires Closed(reg.g) && Acyclic(reg.g)
  {
    current.Keys == Elements(order) && Agreeing(reg, hash, current)
  }

  lemma {:induction false} OneMoreHashed(reg: Registry, hash: string -> string, order: seq<Name>, i: nat,
                                         current: map<Name, string>)
    requires Closed(reg.g) && Acyclic(reg.g) && i < |order| && order[i] in reg.g
    requires Hashed(reg, hash, order[..i], current)
    ensures Hashed(reg, hash, order[..i + 1], current[order[i] := CurrentFp(reg, hash, order[i])])
  {
    assert order[..i + 1] == order[..i] + [order[i]];
    assert Elements(order[..i + 1]) == Elements(order[..i]) + {order[i]};
  }

  /** If `r` is an error, it is the one `topo_sort` raises: missing dependencies first, then cycles. */
  ghost predicate SortError<T>(g: Graph, r: Outcome<T>) {
    (r.MissingDeps? <==> !Closed(g)) && (r.MissingDeps? ==> r.missing == MissingOf(g)) &&
    (r.Cyclic? <==> Closed(g) && !Acyclic(g)) &&
    (r.Cyclic? ==> IsStuckList(g, r.stuck))
  }

  method ComputeCurrent(reg: Registry, hash: string -> string) returns (r: Outcome<map<Name, string>>)
    ensures r.Ok? <==> Closed(reg.g) && Acyclic(reg.g)
    ensures SortError(reg.g, r)
    ensures r.Ok? ==> r.value.Keys == reg.g.Keys && Agreeing(reg, hash, r.value)
  {
    var sorted := TopoSort(reg.g);
    match sorted
    case MissingDeps(missing) => return MissingDeps(missing);
    case Cyclic(stuck) => return Cyclic(stuck);
    case Ok(order) =>
      var current := HashInOrder(reg, hash, order);
      return Ok(current);
  }

  // ---------- The Merkle property ----------

  function FirstNul(s: string): nat {
    if s == "" || s[0] == '\0' then 0 else 1 + FirstNul(s[1..])
  }

  lemma {:induction false} FirstNulEndsPart(p: string, rest: string)
    requires NulFree(p)
    ensures FirstNul(p + NUL + rest) == |p|
  {
    var s := p + NUL + rest;
    if p == "" {
      assert s[0] == '\0';
    } else {
      assert s[0] == p[0] && s[1..] == p[1..] + NUL + rest;
      FirstNulEndsPart(p[1..], rest);
    }
  }

  lemma {:induction false} EncodeInjective(p: seq<string>, q: seq<string>)
    requires AllNulFree(p) && AllNulFree(q) && Encode(p) == Encode(q)
    ensures p == q
  {
    if p != [] && q != [] {
      var s := Encode(p);
      FirstNulEndsPart(p[0], Encode(p[1..]));
      FirstNulEndsPart(q[0], Encode(q[1..]));
      assert s[..|p[0]|] == p[0] && s[..|q[0]|] == q[0];
      assert s[|p[0]| + 1..] == Encode(p[1..]) && s[|q[0]| + 1..] == Encode(q[1..]);
      EncodeInjective(p[1..], q[1..]);
      assert p == [p[0]] + p[1..] && q == [q[0]] + q[1..];
    }
  }

  lemma {:induction false} EncodeConcat(p: seq<string>, q: seq<string>)
    ensures Encode(p + q) == Encode(p) + Encode(q)
  {
    if p == [] {
      assert p + q == q;
    } else {
      assert (p + q)[1..] == p[1..] + q;
      EncodeConcat(p[1..], q);
      assert p[0] + NUL + Encode(p[1..]) + Encode(q) == p[0] + NUL + (Encode(p[1..]) + Encode(q));
    }
  }

  /** The bytes that are hashed: tag, name, source, environment and the fingerprints of the dependencies in
      order, each ended by a NUL. */
  lemma {:induction false} HashedBytes(reg: Registry, hash: string -> string, n: Name)
    requires Closed(reg.g) && Acyclic(reg.g) && n in reg.g
    ensures var tag := if reg.kind(n).Sql? then "sql" else "py";
            CurrentFp(reg, hash, n) ==
            hash(tag + "\0" + n.text + "\0" + reg.source(n) + "\0" + reg.envBlob + "\0" +
                 Encode(DepFps(reg, hash, n)))
  {
    var tag := if reg.kind(n).Sql? then "sql" else "py";
    var head := [tag, n.text, reg.source(n), reg.envBlob];
    EncodeConcat(head, DepFps(reg, hash, n));
    EncodeFour(tag, n.text, reg.source(n), reg.envBlob);
    assert Parts(reg, n, DepFps(reg, hash, n)) == head + DepFps(reg, hash, n);
  }

  lemma {:induction false} EncodeFour(a: string, b: string, c: string, d: string)
    ensures Encode([a, b, c, d]) == a + "\0" + b + "\0" + c + "\0" + d + "\0"
  {
    assert [a, b, c, d][1..] == [b, c, d] && [b, c, d][1..] == [c, d] && [c, d][1..] == [d] && [d][1..] == [];
    assert Encode([d]) == d + "\0";
    assert Encode([c, d]) == c + "\0" + (d + "\0");
    assert Encode([b, c, d]) == b + "\0" + (c + "\0" + (d + "\0"));
    assert Encode([a, b, c, d]) == a + "\0" + (b + "\0" + (c + "\0" + (d + "\0")));
  }

  /** Two registries agree on `n` and on everything upstream of it. */
  ghost predicate SameUnfolding(r1: Registry, r2: Registry, n: Name)
    requires Closed(r1.g) && Acyclic(r1.g)
    decreases if n in r1.g then RankOf(r1.g)[n] + 1 else 0
  {
    n in r1.g && n in r2.g && r1.kind(n) == r2.kind(n) && r1.source(n) == r2.source(n) &&
    r1.envBlob == r2.envBlob && r1.g[n] == r2.g[n] &&
    forall d | d in r1.g[n] :: SameUnfolding(r1, r2, d)
  }

  lemma {:induction false} PartsNulFree(reg: Registry, hash: string -> string, n: Name)
    requires ValidRegistry(reg) && GoodHash(hash) && n in reg.g
    ensures AllNulFree(Parts(reg, n, DepFps(reg, hash, n)))
  {
    var fps := DepFps(reg, hash, n);
    forall i | 0 <= i < |fps| ensures NulFree(fps[i]) {
      assert fps[i] == CurrentFp(reg, hash, reg.g[n][i]);
    }
    assert NulFree("sql") && NulFree("py");
  }

  /** Equal fingerprints come from equal parts. */
  lemma {:induction false} SameFpSameParts(r1: Registry, r2: Registry, hash: string -> string, a: Name, b: Name)
    requires ValidRegistry(r1) && ValidRegistry(r2) && GoodHash(hash) && a in r1.g && b in r2.g
    requires CurrentFp(r1, hash, a) == CurrentFp(r2, hash, b)
    ensures a == b && r1.kind(a) == r2.kind(b) && r1.source(a) == r2.source(b) && r1.envBlob == r2.envBlob
    ensures DepFps(r1, hash, a) == DepFps(r2, hash, b)
  {
    var d1, d2 := DepFps(r1, hash, a), DepFps(r2, hash, b);
    var p, q := Parts(r1, a, d1), Parts(r2, b, d2);
    PartsNulFree(r1, hash, a);
    PartsNulFree(r2, hash, b);
    EncodeInjective(p, q);
    assert p[0] == q[0] && p[1] == q[1] && p[2] == q[2] && p[3] == q[3];
    assert "sql" != "py" by { assert |"sql"| == 3 && |"py"| == 2; }
    assert d1 == p[4..] && d2 == q[4..];
  }

  lemma {:induction false} SameFpSameUnfolding(r1: Registry, r2: Registry, hash: string -> string, a: Name, b: Name)
    requires ValidRegistry(r1) && ValidRegistry(r2) && GoodHash(hash) && a in r1.g && b in r2.g
    requires CurrentFp(r1, hash, a) == CurrentFp(r2, hash, b)
    ensures a == b && SameUnfolding(r1, r2, a)
    decreases RankOf(r1.g)[a]
  {
    SameFpSameParts(r1, r2, hash, a, b);
    var d1, d2 := DepFps(r1, hash, a), DepFps(r2, hash, b);
    forall i | 0 <= i < |r1.g[a]| ensures r1.g[a][i] == r2.g[b][i] && SameUnfolding(r1, r2, r1.g[a][i]) {
      assert d1[i] == d2[i];
      SameFpSameUnfolding(r1, r2, hash, r1.g[a][i], r2.g[b][i]);
    }
    assert |d1| == |d2|;
    assert r1.g[a] == r2.g[b];
  }

  lemma {:induction false} SameUnfoldingSameFp(r1: Registry, r2: Registry, hash: string -> string, n: Name)
    requires ValidRegistry(r1) && ValidRegistry(r2) && SameUnfolding(r1, r2, n)
    ensures CurrentFp(r1, hash, n) == CurrentFp(r2, hash, n)
    decreases RankOf(r1.g)[n]
  {
    var d1, d2 := DepFps(r1, hash, n), DepFps(r2, hash, n);
    forall i | 0 <= i < |r1.g[n]| ensures d1[i] == d2[i] {
      SameUnfoldingSameFp(r1, r2, hash, r1.g[n][i]);
    }
    assert d1 == d2;
  }

  /** A node keeps its fingerprint exactly when nothing in its upstream unfolding changed. */
  lemma {:induction false} MerkleExact(r1: Registry, r2: Registry, hash: string -> string, n: Name)
    requires ValidRegistry(r1) && ValidRegistry(r2) && GoodHash(hash) && n in r1.g && n in r2.g
    ensures CurrentFp(r1, hash, n) == CurrentFp(r2, hash, n) <==> SameUnfolding(r1, r2, n)
  {
    if CurrentFp(r1, hash, n) == CurrentFp(r2, hash, n) { SameFpSameUnfolding(r1, r2, hash, n, n); }
    if SameUnfolding(r1, r2, n) { SameUnfoldingSameFp(r1, r2, hash, n); }
  }

  // ---------- modified_set ----------

  function ModifiedAgainst(entries: map<Name, string>, current: map<Name, string>): set<Name> {
    set n | n in current && !(n in entries && entries[n] == current[n])
  }

  /** An empty store is loaded first; missing entries count as modified. */
  method ModifiedSet(cache: FingerprintCache<string>, reg: Registry, hash: string -> string)
    returns (r: Outcome<set<Name>>)
    modifies cache`entries
    ensures cache.entries == if old(cache.entries) != map[] then old(cache.entries)
                             else if cache.disk.File? && cache.disk.version == cache.version then cache.disk.entries
                             else map[]
    ensures SortError(reg.g, r)
    ensures r.Ok? <==> Closed(reg.g) && Acyclic(reg.g)
    ensures r.Ok? ==> forall n :: n in r.value <==>
              n in reg.g && !(n in cache.entries && cache.entries[n] == CurrentFp(reg, hash, n))
  {
    if cache.entries == map[] {
      cache.Load();
    }
    var current := ComputeCurrent(reg, hash);
    match current
    case MissingDeps(missing) => return MissingDeps(missing);
    case Cyclic(stuck) => return Cyclic(stuck);
    case Ok(fps) =>
      return Ok(ModifiedAgainst(cache.entries, fps));
  }

  /** Against entries saved from an earlier state `r0` of the project, the modified nodes are exactly
      the new ones and those whose upstream unfolding changed. */
  lemma {:induction false} ModifiedIsChanged(r0: Registry, r1: Registry, hash: string -> string,
                                             saved: map<Name, string>, current: map<Name, string>, n: Name)
    requires ValidRegistry(r0) && ValidRegistry(r1) && GoodHash(hash)
    requires saved.Keys == r0.g.Keys && Agreeing(r0, hash, saved)
    requires current.Keys == r1.g.Keys && Agreeing(r1, hash, current)
    ensures n in ModifiedAgainst(saved, current) <==> n in r1.g && !SameUnfolding(r0, r1, n)
  {
    if n in r0.g && n in r1.g { MerkleExact(r0, r1, hash, n); }
  }

  /** The modified set is closed downstream: dependents of a modified node are modified. */
  lemma {:induction false} ModifiedIsClosedDownstream(r0: Registry, r1: Registry, hash: string -> string,
                                   saved: map<Name, string>, current: map<Name, string>, d: Name, n: Name)
    requires ValidRegistry(r0) && ValidRegistry(r1) && GoodHash(hash)
    requires saved.Keys == r0.g.Keys && Agreeing(r0, hash, saved)
    requires current.Keys == r1.g.Keys && Agreeing(r1, hash, current)
    requires d in ModifiedAgainst(saved, current) && n in r1.g && d in r1.g[n]
    ensures n in ModifiedAgainst(saved, current)
  {
    ModifiedIsChanged(r0, r1, hash, saved, current, d);
    ModifiedIsChanged(r0, r1, hash, saved, current, n);
  }

  /** So `state:modified+` selects nothing beyond `state:modified`: the downstream closure adds nothing. */
  lemma {:induction false} ModifiedPlusAddsNothing(r0: Registry, r1: Registry, hash: string -> string,
                                                   saved: map<Name, string>, current: map<Name, string>,
                                                   closure: set<Name>)
    requires ValidRegistry(r0) && ValidRegistry(r1) && GoodHash(hash)
    requires saved.Keys == r0.g.Keys && Agreeing(r0, hash, saved)
    requires current.Keys == r1.g.Keys && Agreeing(r1, hash, current)
    requires var modified := ModifiedAgainst(saved, current);
             modified <= closure &&
             forall s | modified <= s && Selection.DependentClosed(r1.g, s) :: closure <= s
    ensures closure == ModifiedAgainst(saved, current)
  {
    var modified := ModifiedAgainst(saved, current);
    forall d, n | d in modified && n in r1.g && d in r1.g[n] ensures n in modified {
      ModifiedIsClosedDownstream(r0, r1, hash, saved, current, d, n);
    }
    assert Selection.DependentClosed(r1.g, modified);
  }
}
