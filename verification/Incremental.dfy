/** `incremental.py` with DuckDB's delete-then-insert merge: incremental models against full refreshes. */
module Incremental {
  import opened Common
  import opened Names

  datatype Value = Null | Val(v: int)

  type Column = string
  type Row = map<Column, Value>
  type Rows = seq<Row>
  type Database = map<Name, Rows>

  /** A rendered query: the rows it selects from the database it is run on. */
  type Query = Database -> Rows

  ghost predicate SameRows(a: Rows, b: Rows) {
    multiset(a) == multiset(b)
  }

  // ---------- Delete collisions, insert the delta ----------

  /** `t.k1=s.k1 AND ...`, false without keys and never true on NULL. */
  predicate Match(keys: seq<Column>, a: Row, b: Row) {
    keys != [] && forall k | k in keys :: k in a && k in b && a[k] == b[k] && a[k] != Null
  }

  predicate Hit(keys: seq<Column>, r: Row, delta: Rows) {
    exists i :: 0 <= i < |delta| && Match(keys, r, delta[i])
  }

  function Keep(keys: seq<Column>, t: Rows, delta: Rows): Rows {
    if t == [] then []
    else if Hit(keys, t[0], delta) then Keep(keys, t[1..], delta)
    else [t[0]] + Keep(keys, t[1..], delta)
  }

  function Merge(keys: seq<Column>, t: Rows, delta: Rows): Rows {
    Keep(keys, t, delta) + delta
  }

  lemma {:induction false} KeepCount(keys: seq<Column>, t: Rows, delta: Rows, r: Row)
    ensures multiset(Keep(keys, t, delta))[r] == if Hit(keys, r, delta) then 0 else multiset(t)[r]
  {
    if t != [] {
      KeepCount(keys, t[1..], delta, r);
      assert t == [t[0]] + t[1..];
    }
  }

  lemma {:induction false} MergeCount(keys: seq<Column>, t: Rows, delta: Rows, r: Row)
    ensures multiset(Merge(keys, t, delta))[r] ==
            multiset(delta)[r] + if Hit(keys, r, delta) then 0 else multiset(t)[r]
  {
    KeepCount(keys, t, delta, r);
  }

  /** The keys identify the rows: no row twice, no NULL in a key, no two rows with one key. */
  ghost predicate Keyed(keys: seq<Column>, t: Rows) {
    (forall r | r in t :: multiset(t)[r] == 1 && Match(keys, r, r)) &&
    forall a, b | a in t && b in t && Match(keys, a, b) :: a == b
  }

  /** The delta holds rows of the new state only, each once. */
  ghost predicate DeltaOf(delta: Rows, rows: Rows) {
    multiset(delta) <= multiset(rows)
  }

  /** Every new or changed row is in the delta, and every row that is gone shares a key with it. */
  ghost predicate Covers(keys: seq<Column>, delta: Rows, prior: Rows, rows: Rows) {
    (forall r | r in rows && r !in prior :: r in delta) &&
    forall r | r in prior && r !in rows :: Hit(keys, r, delta)
  }

  lemma {:induction false} MergeCountOfNew(keys: seq<Column>, prior: Rows, delta: Rows, rows: Rows, r: Row)
    requires Keyed(keys, prior) && Keyed(keys, rows) && DeltaOf(delta, rows) && r in rows
    ensures multiset(Merge(keys, prior, delta))[r] == if r in prior || r in delta then 1 else 0
  {
    MergeCount(keys, prior, delta, r);
    if r in delta {
      assert multiset(delta)[r] <= multiset(rows)[r] == 1;
      var i :| 0 <= i < |delta| && delta[i] == r;
      assert Match(keys, r, delta[i]);
    } else {
      forall i | 0 <= i < |delta| ensures !Match(keys, r, delta[i]) {
        assert delta[i] in multiset(delta) && delta[i] in multiset(rows);
      }
    }
  }

  lemma {:induction false} MergeCountOfGone(keys: seq<Column>, prior: Rows, delta: Rows, rows: Rows, r: Row)
    requires Keyed(keys, prior) && DeltaOf(delta, rows) && r !in rows
    ensures multiset(Merge(keys, prior, delta))[r] == if r in prior && !Hit(keys, r, delta) then 1 else 0
  {
    MergeCount(keys, prior, delta, r);
    assert multiset(delta)[r] <= multiset(rows)[r] == 0;
  }

  /** Merging a delta gives exactly the new state iff the delta holds rows of the new state only and
      covers the difference. */
  lemma {:induction false} MergeIsRefreshIff(keys: seq<Column>, prior: Rows, delta: Rows, rows: Rows)
    requires Keyed(keys, prior) && Keyed(keys, rows)
    ensures SameRows(Merge(keys, prior, delta), rows) <==> DeltaOf(delta, rows) && Covers(keys, delta, prior, rows)
  {
    var m := Merge(keys, prior, delta);
    if SameRows(m, rows) {
      forall r ensures multiset(delta)[r] <= multiset(rows)[r] { MergeCount(keys, prior, delta, r); }
    }
    if DeltaOf(delta, rows) {
      forall r | r in rows { MergeCountOfNew(keys, prior, delta, rows, r); }
      forall r | r !in rows { MergeCountOfGone(keys, prior, delta, rows, r); }
      if Covers(keys, delta, prior, rows) {
        forall r ensures multiset(m)[r] == multiset(rows)[r] { }
      }
    }
  }

  /** A source that only inserts and updates never loses a key, so covering the changed rows is enough. */
  lemma {:induction false} InsertsAndUpdatesAreCovered(keys: seq<Column>, prior: Rows, delta: Rows, rows: Rows)
    requires Keyed(keys, prior) && Keyed(keys, rows)
    requires forall r | r in rows && r !in prior :: r in delta
    requires forall r | r in prior :: Hit(keys, r, rows)
    ensures Covers(keys, delta, prior, rows)
  {
    forall r | r in prior && r !in rows ensures Hit(keys, r, delta) {
      var i :| 0 <= i < |rows| && Match(keys, r, rows[i]);
      if rows[i] !in prior {
        var j :| 0 <= j < |delta| && delta[j] == rows[i];
        assert Match(keys, r, delta[j]);
      }
    }
  }

  /** A row of the delta collides with the delta iff its key is complete. */
  lemma {:induction false} HitsItselfIff(keys: seq<Column>, delta: Rows, r: Row)
    requires r in delta
    ensures Hit(keys, r, delta) <==> Match(keys, r, r)
  {
    var i :| 0 <= i < |delta| && delta[i] == r;
    if Match(keys, r, r) { assert Match(keys, r, delta[i]); }
  }

  /** Merging the same delta again changes nothing iff all its keys are complete. */
  lemma {:induction false} MergeIsIdempotentIff(keys: seq<Column>, t: Rows, delta: Rows)
    ensures SameRows(Merge(keys, Merge(keys, t, delta), delta), Merge(keys, t, delta))
            <==> forall r | r in delta :: Match(keys, r, r)
  {
    var once := Merge(keys, t, delta);
    var twice := Merge(keys, once, delta);
    forall r ensures multiset(twice)[r] == multiset(once)[r] <==> (r in delta ==> Match(keys, r, r)) {
      MergeCount(keys, t, delta, r);
      MergeCount(keys, once, delta, r);
      if r in delta { HitsItselfIff(keys, delta, r); }
    }
  }

  // ---------- The merge over key tuples ----------

  /** Every key column is there and not NULL. */
  ghost predicate Complete(keys: seq<Column>, r: Row) {
    forall k | k in keys :: k in r && r[k] != Null
  }

  /** The values of the key columns. */
  function KeyOf(keys: seq<Column>, r: Row): Row {
    map k | k in keys && k in r :: r[k]
  }

  /** The rows have complete keys, all different. */
  ghost predicate Identified(keys: seq<Column>, t: Rows) {
    (t == [] || keys != []) && (forall r | r in t :: Complete(keys, r)) &&
    forall i, j | 0 <= i < j < |t| :: KeyOf(keys, t[i]) != KeyOf(keys, t[j])
  }

  /** `delta` has a row with the key of `r`. */
  ghost predicate SharesKey(keys: seq<Column>, r: Row, delta: Rows) {
    keys != [] && Complete(keys, r) &&
    exists i :: 0 <= i < |delta| && Complete(keys, delta[i]) && KeyOf(keys, delta[i]) == KeyOf(keys, r)
  }

  lemma {:induction false} MatchIff(keys: seq<Column>, a: Row, b: Row)
    ensures Match(keys, a, b) <==>
            keys != [] && Complete(keys, a) && Complete(keys, b) && KeyOf(keys, a) == KeyOf(keys, b)
  {
    if Match(keys, a, b) {
      assert KeyOf(keys, a) == KeyOf(keys, b);
    }
    if Complete(keys, a) && Complete(keys, b) && KeyOf(keys, a) == KeyOf(keys, b) {
      forall k | k in keys ensures a[k] == b[k] { assert KeyOf(keys, a)[k] == KeyOf(keys, b)[k]; }
    }
  }

  /** A stored row collides with the delta iff some row of the delta has its key. */
  lemma {:induction false} HitIff(keys: seq<Column>, r: Row, delta: Rows)
    ensures Hit(keys, r, delta) <==> SharesKey(keys, r, delta)
  {
    forall i | 0 <= i < |delta| { MatchIff(keys, r, delta[i]); }
  }

  /** A stored row survives the deletion iff against every row of the delta some key column is missing, is
      NULL or differs; without key columns nothing is deleted. */
  lemma {:induction false} SurvivesIff(keys: seq<Column>, t: Rows, delta: Rows, r: Row)
    ensures r in Keep(keys, t, delta) <==>
            r in t && (keys == [] || forall x | x in delta ::
              exists k :: k in keys && (k !in r || k !in x || r[k] == Null || r[k] != x[k]))
    ensures r in Keep(keys, t, delta) ==> multiset(Keep(keys, t, delta))[r] == multiset(t)[r]
  {
    var kept := Keep(keys, t, delta);
    KeepCount(keys, t, delta, r);
    assert r in kept <==> multiset(kept)[r] > 0;
    assert r in t <==> multiset(t)[r] > 0;
    if Hit(keys, r, delta) {
      var i :| 0 <= i < |delta| && Match(keys, r, delta[i]);
      assert delta[i] in delta;
    } else {
      forall x | x in delta && keys != []
        ensures exists k :: k in keys && (k !in r || k !in x || r[k] == Null || r[k] != x[k])
      {
        var i :| 0 <= i < |delta| && delta[i] == x;
        assert !Match(keys, r, delta[i]);
      }
    }
  }

  lemma {:induction false} CountsOnce(t: Rows)
    ensures (forall r | r in t :: multiset(t)[r] == 1) <==> forall i, j | 0 <= i < j < |t| :: t[i] != t[j]
  {
    if i: nat, j: nat :| i < j < |t| && t[i] == t[j] {
      CountsTwice(t, i, j);
    } else {
      forall r | r in t ensures multiset(t)[r] == 1 {
        var i: nat :| i < |t| && t[i] == r;
        CountsOneAt(t, i);
      }
    }
  }

  lemma {:induction false} CountsTwice(t: Rows, i: nat, j: nat)
    requires i < j < |t| && t[i] == t[j]
    ensures multiset(t)[t[i]] >= 2
  {
    assert t == t[..j] + t[j..] && t[i] in t[..j] && t[j] in t[j..];
    assert t[i] in multiset(t[..j]) && t[i] in multiset(t[j..]);
  }

  lemma {:induction false} CountsOneAt(t: Rows, i: nat)
    requires i < |t| && forall j | 0 <= j < |t| && j != i :: t[j] != t[i]
    ensures multiset(t)[t[i]] == 1
  {
    assert t == t[..i] + [t[i]] + t[i + 1..];
    assert t[i] !in t[..i] && t[i] !in t[i + 1..];
    assert multiset(t[..i])[t[i]] == 0 && multiset(t[i + 1..])[t[i]] == 0;
  }

  /** The keys identify the rows iff all key tuples are complete and pairwise different. */
  lemma {:induction false} KeyedIff(keys: seq<Column>, t: Rows)
    ensures Keyed(keys, t) <==> Identified(keys, t)
  {
    CountsOnce(t);
    forall a, b { MatchIff(keys, a, b); }
    if Keyed(keys, t) {
      forall i, j | 0 <= i < j < |t| ensures KeyOf(keys, t[i]) != KeyOf(keys, t[j]) {
        assert t[i] != t[j] && !Match(keys, t[i], t[j]);
      }
    }
    if Identified(keys, t) {
      forall a, b | a in t && b in t && Match(keys, a, b) ensures a == b {
        var i, j :| 0 <= i < |t| && 0 <= j < |t| && t[i] == a && t[j] == b;
      }
    }
  }

  /** The rows by their key tuples. */
  ghost function ByKey(keys: seq<Column>, t: Rows): (m: map<Row, Row>)
    requires Identified(keys, t)
    ensures forall x | x in t :: KeyOf(keys, x) in m && m[KeyOf(keys, x)] == x
    ensures forall q | q in m :: m[q] in t && KeyOf(keys, m[q]) == q
  {
    assert forall a, b | a in t && b in t && KeyOf(keys, a) == KeyOf(keys, b) :: a == b;
    map x | x in t :: KeyOf(keys, x) := x
  }

  lemma {:induction false} MergeMembers(keys: seq<Column>, t: Rows, delta: Rows, r: Row)
    ensures r in Merge(keys, t, delta) <==> r in delta || (r in t && !SharesKey(keys, r, delta))
  {
    HitIff(keys, r, delta);
    KeepCount(keys, t, delta, r);
    assert r in Keep(keys, t, delta) <==> multiset(Keep(keys, t, delta))[r] > 0;
    assert r in t <==> multiset(t)[r] > 0;
  }

  lemma {:induction false} MergedOnce(keys: seq<Column>, t: Rows, delta: Rows, r: Row)
    requires Keyed(keys, t) && Keyed(keys, delta) && r in Merge(keys, t, delta)
    ensures multiset(Merge(keys, t, delta))[r] == 1 && Match(keys, r, r)
  {
    MergeMembers(keys, t, delta, r);
    MergeCount(keys, t, delta, r);
    HitIff(keys, r, delta);
    if r in delta { HitsItselfIff(keys, delta, r); } else { assert multiset(delta)[r] == 0; }
  }

  lemma {:induction false} MergedOncePerKey(keys: seq<Column>, t: Rows, delta: Rows, a: Row, b: Row)
    requires Keyed(keys, t) && Keyed(keys, delta) && Match(keys, a, b)
    requires a in Merge(keys, t, delta) && b in Merge(keys, t, delta)
    ensures a == b
  {
    MergeMembers(keys, t, delta, a);
    MergeMembers(keys, t, delta, b);
    MatchIff(keys, a, b);
    if a !in delta && b in delta { assert false; }
    if a in delta && b !in delta { assert false; }
  }

  lemma {:induction false} MergeStaysKeyed(keys: seq<Column>, t: Rows, delta: Rows)
    requires Keyed(keys, t) && Keyed(keys, delta)
    ensures Keyed(keys, Merge(keys, t, delta))
  {
    var m := Merge(keys, t, delta);
    forall r | r in m ensures multiset(m)[r] == 1 && Match(keys, r, r) { MergedOnce(keys, t, delta, r); }
    forall a, b | a in m && b in m && Match(keys, a, b) ensures a == b { MergedOncePerKey(keys, t, delta, a, b); }
  }

  lemma {:induction false} UpsertAt(keys: seq<Column>, t: Rows, delta: Rows, m: Rows, q: Row)
    requires Identified(keys, t) && Identified(keys, delta) && Identified(keys, m)
    requires forall x :: x in m <==> x in delta || (x in t && !SharesKey(keys, x, delta))
    ensures var merged, upserted := ByKey(keys, m), ByKey(keys, t) + ByKey(keys, delta);
            (q in merged <==> q in upserted) && (q in merged ==> merged[q] == upserted[q])
  {
    var merged, stored, added := ByKey(keys, m), ByKey(keys, t), ByKey(keys, delta);
    if q in added {
      assert added[q] in m;
    } else if q in stored {
      assert !SharesKey(keys, stored[q], delta);
      assert stored[q] in m;
    }
    if q in merged && q !in added { assert merged[q] in t; }
  }

  /** The merge is an upsert: by key, the rows of the delta override the stored ones. */
  lemma {:induction false} MergeIsUpsert(keys: seq<Column>, t: Rows, delta: Rows)
    requires Identified(keys, t) && Identified(keys, delta)
    ensures Identified(keys, Merge(keys, t, delta))
    ensures ByKey(keys, Merge(keys, t, delta)) == ByKey(keys, t) + ByKey(keys, delta)
  {
    var m := Merge(keys, t, delta);
    MergeIsIdentified(keys, t, delta);
    forall x ensures x in m <==> x in delta || (x in t && !SharesKey(keys, x, delta)) {
      MergeMembers(keys, t, delta, x);
    }
    UpsertFromMembers(keys, t, delta, m);
  }

  lemma {:induction false} MergeIsIdentified(keys: seq<Column>, t: Rows, delta: Rows)
    requires Identified(keys, t) && Identified(keys, delta)
    ensures Identified(keys, Merge(keys, t, delta))
  {
    KeyedIff(keys, t);
    KeyedIff(keys, delta);
    KeyedIff(keys, Merge(keys, t, delta));
    MergeStaysKeyed(keys, t, delta);
  }

  lemma {:induction false} UpsertFromMembers(keys: seq<Column>, t: Rows, delta: Rows, m: Rows)
    requires Identified(keys, t) && Identified(keys, delta) && Identified(keys, m)
    requires forall x :: x in m <==> x in delta || (x in t && !SharesKey(keys, x, delta))
    ensures ByKey(keys, m) == ByKey(keys, t) + ByKey(keys, delta)
  {
    var merged, upserted := ByKey(keys, m), ByKey(keys, t) + ByKey(keys, delta);
    forall q ensures (q in merged <==> q in upserted) && (q in merged ==> merged[q] == upserted[q]) {
      UpsertAt(keys, t, delta, m, q);
    }
  }

  const VISITS: seq<Column> := ["id", "day"]

  function Visit(id: int, day: int): Row {
    map["id" := Val(id), "day" := Val(day)]
  }

  /** With two key columns, rows that differ in the second one do not collide. */
  lemma {:induction false} SecondColumnCounts()
    ensures Merge(VISITS, [Visit(1, 1)], [Visit(1, 2)]) == [Visit(1, 1), Visit(1, 2)]
    ensures Identified(VISITS, [Visit(1, 1), Visit(1, 2)])
  {
    assert "day" in VISITS && "id" != "day" by { assert VISITS[1] == "day" && "id"[0] == 'i' && "day"[0] == 'd'; }
    assert KeyOf(VISITS, Visit(1, 1))["day"] == Val(1) && KeyOf(VISITS, Visit(1, 2))["day"] == Val(2);
    assert !Hit(VISITS, Visit(1, 1), [Visit(1, 2)]) by { HitIff(VISITS, Visit(1, 1), [Visit(1, 2)]); }
    assert Keep(VISITS, [Visit(1, 1)], [Visit(1, 2)]) == [Visit(1, 1)];
  }

  // ---------- A delta that reads the table it is merged into ----------

  /** The table between the deletion and the insertion. */
  function Purged(db: Database, r: Name, keys: seq<Column>, q: Query): Database
    requires r in db
  {
    db[r := Keep(keys, db[r], q(db))]
  }

  /** The table after a merge: the query is evaluated a second time, on the purged table. */
  function MergedTwice(db: Database, r: Name, keys: seq<Column>, q: Query): Rows
    requires r in db
  {
    var purged := Purged(db, r, keys, q);
    purged[r] + q(purged)
  }

  /** The deletion takes `first`, the insertion adds `second`: every outdated row is hit, only current rows
      are added, and a current row is added iff it was not stored or was deleted. */
  ghost predicate Replaces(keys: seq<Column>, prior: Rows, first: Rows, second: Rows, rows: Rows) {
    DeltaOf(second, rows) &&
    (forall x | x in rows :: x in second <==> x !in prior || Hit(keys, x, first)) &&
    forall x | x in prior && x !in rows :: Hit(keys, x, first)
  }

  lemma {:induction false} KeptCounts(keys: seq<Column>, prior: Rows, first: Rows, x: Row)
    requires Keyed(keys, prior)
    ensures multiset(Keep(keys, prior, first))[x] == if x in prior && !Hit(keys, x, first) then 1 else 0
  {
    KeepCount(keys, prior, first, x);
    assert x in prior <==> multiset(prior)[x] > 0;
  }

  /** Whatever the query reads, the two evaluations together refresh the table iff they replace each other. */
  lemma {:induction false} MergedTwiceIsRefreshIff(db: Database, r: Name, keys: seq<Column>, q: Query, rows: Rows)
    requires r in db && Keyed(keys, db[r]) && Keyed(keys, rows)
    ensures SameRows(MergedTwice(db, r, keys, q), rows)
            <==> Replaces(keys, db[r], q(db), q(Purged(db, r, keys, q)), rows)
  {
    KeptPlusIsRefreshIff(keys, db[r], q(db), q(Purged(db, r, keys, q)), rows);
  }

  lemma {:induction false} KeptPlusIsRefreshIff(keys: seq<Column>, prior: Rows, first: Rows, second: Rows, rows: Rows)
    requires Keyed(keys, prior) && Keyed(keys, rows)
    ensures SameRows(Keep(keys, prior, first) + second, rows) <==> Replaces(keys, prior, first, second, rows)
  {
    var result := Keep(keys, prior, first) + second;
    forall x
      ensures multiset(result)[x] == multiset(second)[x] + if x in prior && !Hit(keys, x, first) then 1 else 0
    {
      KeptCounts(keys, prior, first, x);
    }
    if SameRows(result, rows) { ReplacesFromCounts(keys, prior, first, second, rows); }
    if Replaces(keys, prior, first, second, rows) {
      forall x ensures multiset(result)[x] == multiset(rows)[x] {
        CountsFromReplaces(keys, prior, first, second, rows, x);
      }
    }
  }

  lemma {:induction false} ReplacesFromCounts(keys: seq<Column>, prior: Rows, first: Rows, second: Rows, rows: Rows)
    requires Keyed(keys, rows)
    requires forall x :: multiset(rows)[x] ==
                         multiset(second)[x] + if x in prior && !Hit(keys, x, first) then 1 else 0
    ensures Replaces(keys, prior, first, second, rows)
  {
    forall x ensures multiset(second)[x] <= multiset(rows)[x] { }
    forall x | x in rows ensures x in second <==> x !in prior || Hit(keys, x, first) {
      assert multiset(rows)[x] == 1;
      assert x in second <==> multiset(second)[x] > 0;
    }
    forall x | x in prior && x !in rows ensures Hit(keys, x, first) { assert multiset(rows)[x] == 0; }
  }

  lemma {:induction false} CountsFromReplaces(keys: seq<Column>, prior: Rows, first: Rows, second: Rows, rows: Rows,
                                              x: Row)
    requires Keyed(keys, rows) && Replaces(keys, prior, first, second, rows)
    ensures multiset(rows)[x] == multiset(second)[x] + if x in prior && !Hit(keys, x, first) then 1 else 0
  {
    assert multiset(second)[x] <= multiset(rows)[x];
    assert x in second <==> multiset(second)[x] > 0;
    if x in rows { assert multiset(rows)[x] == 1; } else { assert multiset(rows)[x] == 0; }
  }

  /** `coalesce(max(updated_at), floor)` */
  function Mark(mark: Row -> int, t: Rows, floor: int): int {
    if t == [] then floor
    else if |t| == 1 then mark(t[0])
    else Max(mark(t[0]), Mark(mark, t[1..], floor))
  }

  /** `where updated_at > m` */
  function Above(mark: Row -> int, s: Rows, m: int): Rows {
    if s == [] then []
    else if mark(s[0]) > m then [s[0]] + Above(mark, s[1..], m)
    else Above(mark, s[1..], m)
  }

  /** `q` selects the rows of `source` that are newer than anything in relation `r`. */
  ghost predicate SelectsNewer(q: Query, r: Name, source: Query, mark: Row -> int, floor: int) {
    Ignores(source, r) && forall db: Database | r in db :: q(db) == Above(mark, source(db), Mark(mark, db[r], floor))
  }

  lemma {:induction false} MarkIsGreatest(mark: Row -> int, t: Rows, floor: int)
    ensures forall x | x in t :: mark(x) <= Mark(mark, t, floor)
    ensures t != [] ==> exists x :: x in t && mark(x) == Mark(mark, t, floor)
    ensures t == [] ==> Mark(mark, t, floor) == floor
  {
    if |t| > 1 {
      MarkIsGreatest(mark, t[1..], floor);
      var y :| y in t[1..] && mark(y) == Mark(mark, t[1..], floor);
      assert t == [t[0]] + t[1..];
      assert t[0] in t && y in t;
    } else if |t| == 1 {
      assert t[0] in t;
    }
  }

  lemma {:induction false} AboveCount(mark: Row -> int, s: Rows, m: int, x: Row)
    ensures multiset(Above(mark, s, m))[x] == if mark(x) > m then multiset(s)[x] else 0
  {
    if s != [] {
      AboveCount(mark, s[1..], m, x);
      assert s == [s[0]] + s[1..];
    }
  }

  /** The stored rows that are still in the source. */
  function Current(t: Rows, s: Rows): Rows {
    if t == [] then []
    else if t[0] in s then [t[0]] + Current(t[1..], s)
    else Current(t[1..], s)
  }

  lemma {:induction false} CurrentMembers(t: Rows, s: Rows, x: Row)
    ensures x in Current(t, s) <==> x in t && x in s
  {
    if t != [] {
      CurrentMembers(t[1..], s, x);
      assert x in t <==> x == t[0] || x in t[1..];
    }
  }

  lemma {:induction false} AboveMembers(mark: Row -> int, s: Rows, m: int, x: Row)
    ensures x in Above(mark, s, m) <==> x in s && mark(x) > m
  {
    AboveCount(mark, s, m, x);
    assert x in Above(mark, s, m) <==> multiset(Above(mark, s, m))[x] > 0;
    assert x in s <==> multiset(s)[x] > 0;
  }

  /** Deleting what the newer rows collide with leaves exactly the current rows, if every outdated row collides. */
  lemma {:induction false} KeepIsCurrent(keys: seq<Column>, t: Rows, s: Rows, delta: Rows)
    requires forall x | x in t :: Hit(keys, x, delta) <==> x !in s
    ensures Keep(keys, t, delta) == Current(t, s)
  {
    if t != [] {
      assert t[0] in t;
      assert forall x | x in t[1..] :: x in t;
      KeepIsCurrent(keys, t[1..], s, delta);
    }
  }

  /** A current row is never deleted: what collides with it in the source is the row itself, which is not newer. */
  lemma {:induction false} CurrentIsUnhit(keys: seq<Column>, t: Rows, s: Rows, mark: Row -> int, floor: int, x: Row)
    requires Keyed(keys, s) && x in t && x in s
    ensures !Hit(keys, x, Above(mark, s, Mark(mark, t, floor)))
  {
    var delta := Above(mark, s, Mark(mark, t, floor));
    MarkIsGreatest(mark, t, floor);
    forall i | 0 <= i < |delta| ensures !Match(keys, x, delta[i]) {
      assert delta[i] in delta;
      AboveMembers(mark, s, Mark(mark, t, floor), delta[i]);
    }
  }

  /** Every stored row that is not in the source any more shares its key with a row newer than the table, and
      every row of the source that is not newer than the current stored rows is stored. */
  ghost predicate Punctual(keys: seq<Column>, t: Rows, s: Rows, mark: Row -> int, floor: int) {
    (forall x | x in t && x !in s :: Hit(keys, x, Above(mark, s, Mark(mark, t, floor)))) &&
    forall y | y in s && mark(y) <= Mark(mark, Current(t, s), floor) :: y in t
  }

  /** Merging the newer rows refreshes the table iff stored rows and source are punctual, although the query
      reads the table that the deletion has changed in between. */
  lemma {:induction false} NewerRowsRefreshIff(db: Database, r: Name, keys: seq<Column>, q: Query, source: Query,
                                               mark: Row -> int, floor: int)
    requires r in db && SelectsNewer(q, r, source, mark, floor)
    requires Keyed(keys, db[r]) && Keyed(keys, source(db))
    ensures SameRows(MergedTwice(db, r, keys, q), source(db)) <==> Punctual(keys, db[r], source(db), mark, floor)
  {
    var t, s := db[r], source(db);
    var purged := Purged(db, r, keys, q);
    assert q(purged) == Above(mark, s, Mark(mark, purged[r], floor)) by { assert purged - {r} == db - {r}; }
    MergedTwiceIsRefreshIff(db, r, keys, q, s);
    if forall x | x in t && x !in s :: Hit(keys, x, q(db)) {
      forall x | x in t ensures Hit(keys, x, q(db)) <==> x !in s {
        if x in s { CurrentIsUnhit(keys, t, s, mark, floor, x); }
      }
      KeepIsCurrent(keys, t, s, q(db));
      PunctualIffReplaces(keys, t, s, mark, floor);
    }
  }

  /** When the outdated rows are hit, the rest of the two conditions is the same. */
  lemma {:induction false} PunctualIffReplaces(keys: seq<Column>, t: Rows, s: Rows, mark: Row -> int, floor: int)
    requires Keyed(keys, s)
    requires var first := Above(mark, s, Mark(mark, t, floor)); forall x | x in t :: Hit(keys, x, first) <==> x !in s
    ensures var first, second := Above(mark, s, Mark(mark, t, floor)), Above(mark, s, Mark(mark, Current(t, s), floor));
            Replaces(keys, t, first, second, s) <==> Punctual(keys, t, s, mark, floor)
  {
    var m := Mark(mark, Current(t, s), floor);
    var second := Above(mark, s, m);
    assert DeltaOf(second, s) by {
      forall x ensures multiset(second)[x] <= multiset(s)[x] { AboveCount(mark, s, m, x); }
    }
    MarkIsGreatest(mark, Current(t, s), floor);
    forall x | x in s ensures (x in second <==> x !in t) <==> (mark(x) <= m ==> x in t) {
      AboveMembers(mark, s, m, x);
      CurrentMembers(t, s, x);
    }
  }

  /** Rows arrive in the order of their marks and keys never vanish: what is not newer than the table
      is in the table, and every row of the table still has its key in the source. */
  ghost predicate InOrder(keys: seq<Column>, t: Rows, s: Rows, mark: Row -> int, floor: int) {
    (forall x | x in s :: floor < mark(x)) &&
    (forall x | x in s && mark(x) <= Mark(mark, t, floor) :: x in t) &&
    forall x | x in t :: Hit(keys, x, s)
  }

  lemma {:induction false} InOrderIsPunctual(keys: seq<Column>, t: Rows, s: Rows, mark: Row -> int, floor: int)
    requires Keyed(keys, t) && InOrder(keys, t, s, mark, floor)
    ensures Punctual(keys, t, s, mark, floor)
  {
    var m, current := Mark(mark, t, floor), Current(t, s);
    forall x | x in t && x !in s ensures Hit(keys, x, Above(mark, s, m)) {
      var i :| 0 <= i < |s| && Match(keys, x, s[i]);
      assert s[i] in s;
      AboveMembers(mark, s, m, s[i]);
      var j :| 0 <= j < |Above(mark, s, m)| && Above(mark, s, m)[j] == s[i];
    }
    MarkIsGreatest(mark, current, floor);
    MarkIsGreatest(mark, t, floor);
    forall y | y in s && mark(y) <= Mark(mark, current, floor) ensures y in t {
      var x :| x in current && mark(x) == Mark(mark, current, floor);
      CurrentMembers(t, s, x);
    }
  }

  /** So when rows arrive in order, merging the newer rows is a refresh. */
  lemma {:induction false} NewerRowsRefresh(db: Database, r: Name, keys: seq<Column>, q: Query, source: Query,
                                            mark: Row -> int, floor: int)
    requires r in db && SelectsNewer(q, r, source, mark, floor)
    requires Keyed(keys, db[r]) && Keyed(keys, source(db)) && InOrder(keys, db[r], source(db), mark, floor)
    ensures SameRows(MergedTwice(db, r, keys, q), source(db))
  {
    InOrderIsPunctual(keys, db[r], source(db), mark, floor);
    NewerRowsRefreshIff(db, r, keys, q, source, mark, floor);
  }

  /** Events 1 and 2 are stored and have changed in the source since; the change of event 2 is older
      than the newest stored row. */
  const EVENTS := Name("events")

  function Event(id: int, at: int): Row {
    map["id" := Val(id), "at" := Val(at)]
  }

  function At(x: Row): int {
    if "at" in x && x["at"].Val? then x["at"].v else 0
  }

  const STORED: Rows := [Event(1, 5), Event(2, 3)]
  const CHANGED: Rows := [Event(1, 7), Event(2, 4)]

  function NewerThanStored(): Query {
    db => if EVENTS in db then Above(At, CHANGED, Mark(At, db[EVENTS], 0)) else []
  }

  lemma {:induction false} EventsDiffer()
    ensures Event(1, 5) != Event(1, 7) && Event(2, 3) != Event(2, 4) && Event(2, 3) != Event(1, 7)
    ensures At(Event(1, 5)) == 5 && At(Event(2, 3)) == 3 && At(Event(1, 7)) == 7 && At(Event(2, 4)) == 4
    ensures Match(["id"], Event(1, 5), Event(1, 7)) && !Match(["id"], Event(2, 3), Event(1, 7))
    ensures Match(["id"], Event(2, 3), Event(2, 4))
  {
    assert Event(1, 5)["at"] != Event(1, 7)["at"] && Event(2, 3)["at"] != Event(2, 4)["at"];
    assert Event(2, 3)["id"] != Event(1, 7)["id"];
    assert "id" in ["id"];
    assert "id" != "at" by { assert "id"[0] == 'i' && "at"[0] == 'a'; }
  }

  /** A late update is not picked up by the first evaluation but by the second: its key is there twice. */
  lemma {:induction false} LateUpdateIsDuplicated()
    ensures SelectsNewer(NewerThanStored(), EVENTS, _ => CHANGED, At, 0)
    ensures var result := MergedTwice(map[EVENTS := STORED], EVENTS, ["id"], NewerThanStored());
            SameRows(result, [Event(2, 3), Event(1, 7), Event(2, 4)]) && !Keyed(["id"], result)
  {
    EventsDiffer();
    var db: Database := map[EVENTS := STORED];
    var q := NewerThanStored();
    var delta := q(db);
    assert STORED[1..] == [Event(2, 3)] && CHANGED[1..] == [Event(2, 4)];
    assert Mark(At, STORED, 0) == 5;
    assert Above(At, [Event(2, 4)], 5) == [];
    assert delta == [Event(1, 7)];
    assert Hit(["id"], Event(1, 5), delta) by { assert Match(["id"], Event(1, 5), delta[0]); }
    assert !Hit(["id"], Event(2, 3), delta);
    assert Keep(["id"], [Event(2, 3)], delta) == [Event(2, 3)];
    assert Keep(["id"], STORED, delta) == [Event(2, 3)];
    var purged := Purged(db, EVENTS, ["id"], q);
    assert Above(At, [Event(2, 4)], 3) == [Event(2, 4)];
    assert q(purged) == [Event(1, 7), Event(2, 4)];
    var result := MergedTwice(db, EVENTS, ["id"], q);
    assert result == [Event(2, 3), Event(1, 7), Event(2, 4)];
    assert result[0] in result && result[2] in result;
  }

  // ---------- The executor ----------

  /** What becomes of a merge; `HalfDone` fails between the deletion and the insertion. */
  datatype MergeSupport = Supported | NotSupported | Broken | HalfDone

  /** The executor's own `full_readdedtable`, if it has one: overwriting, or dropping and then creating. */
  datatype OwnRefresh = NoOwn | Overwriting(fails: bool) | DropThenCreate(fails: bool)

  /** Which statements and checks fail, whatever the data. */
  datatype Faults = Faults(merge: MergeSupport, insert: bool, create: bool, replace: bool, own: OwnRefresh,
                           contract: bool)

  /** How a build ends: a contract check may still raise over the finished table. */
  datatype Outcome = Built | Raised | ContractRaised

  datatype IncrCfg = Absent | Flag(on: bool) | Dict(enabled: bool) | Odd

  /** The part of a model's metadata that decides about incremental building. */
  datatype Meta = Meta(materialized: string, incremental: IncrCfg)

  /** `materialized` is "" when it is not set. */
  predicate IsIncremental(m: Meta): (b: bool)
    ensures m.materialized != "incremental" && m.materialized != "" ==> !b
    ensures m.incremental.Flag? && (m.materialized == "incremental" || m.materialized == "") ==> b == m.incremental.on
    ensures m.incremental.Dict? && (m.materialized == "incremental" || m.materialized == "") ==>
              b == m.incremental.enabled
    ensures m.incremental.Absent? ==> b == (m.materialized == "incremental")
    ensures m.incremental.Odd? ==> !b
  {
    var enabled := match m.incremental
                   case Flag(on) => on
                   case Dict(enabled) => enabled
                   case _ => false;
    if m.materialized == "incremental" then m.incremental.Absent? || enabled
    else m.materialized == "" && enabled
  }

  /** The query an existing table is updated with: the explicit delta, else the incremental rendering. */
  function DeltaQuery(render: bool -> Query, deltaSql: Option<Query>): (q: Query)
    ensures deltaSql == None ==> q == render(true)
    ensures forall given | deltaSql == Some(given) :: q == given
  {
    if deltaSql.Some? then deltaSql.value else render(true)
  }

  /** The query never looks at relation `r`. */
  ghost predicate Ignores(q: Query, r: Name) {
    forall a: Database, b: Database | a - {r} == b - {r} :: q(a) == q(b)
  }

  /** What the promise rests on: keys that identify rows, a delta that does not read the target and holds
      current rows only, among them every new or changed one and one with the key of every row that is gone. */
  ghost predicate Sound(db: Database, r: Name, keys: seq<Column>, delta: Query, full: Query)
    requires r in db
  {
    keys != [] && Ignores(delta, r) && Identified(keys, db[r]) && Identified(keys, full(db)) &&
    DeltaOf(delta(db), full(db)) &&
    (forall x | x in full(db) && x !in db[r] :: x in delta(db)) &&
    forall x | x in db[r] && x !in full(db) :: SharesKey(keys, x, delta(db))
  }

  lemma {:induction false} MergedTwiceIsMerge(db: Database, r: Name, keys: seq<Column>, q: Query)
    requires r in db && Ignores(q, r)
    ensures MergedTwice(db, r, keys, q) == Merge(keys, db[r], q(db))
  {
    assert Purged(db, r, keys, q) - {r} == db - {r};
  }

  lemma {:induction false} SoundMergeIsRefresh(db: Database, r: Name, keys: seq<Column>, delta: Query, full: Query)
    requires r in db && Sound(db, r, keys, delta, full)
    ensures SameRows(MergedTwice(db, r, keys, delta), full(db))
  {
    KeyedIff(keys, db[r]);
    KeyedIff(keys, full(db));
    forall x { HitIff(keys, x, delta(db)); }
    MergeIsRefreshIff(keys, db[r], delta(db), full(db));
    MergedTwiceIsMerge(db, r, keys, delta);
  }

  class Executor {
    const faults: Faults
    var tables: Database

    constructor (faults: Faults, tables: Database)
      ensures this.faults == faults && this.tables == tables
    {
      this.faults, this.tables := faults, tables;
    }

    /** `create table r as ...`: fails when the relation exists. */
    method CreateTableAs(r: Name, q: Query) returns (ok: bool)
      modifies this`tables
      ensures ok <==> r !in old(tables) && !faults.create
      ensures tables == if ok then old(tables)[r := q(old(tables))] else old(tables)
    {
      ok := r !in tables && !faults.create;
      if ok { tables := tables[r := q(tables)]; }
    }

    /** The database a full refresh evaluates its query on. */
    function RefreshBase(db: Database, r: Name): (base: Database)
      ensures base - {r} == db - {r}
      ensures r in base <==> r in db && !faults.own.DropThenCreate?
      ensures r in base ==> base == db
    {
      if faults.own.DropThenCreate? then db - {r} else db
    }

    /** The executor's own refresh does not fail; without one, the table can be replaced, or created because it
        does not exist. */
    predicate CanRefresh(db: Database, r: Name) {
      match faults.own
      case NoOwn => !faults.replace || (r !in db && !faults.create)
      case Overwriting(fails) => !fails
      case DropThenCreate(fails) => !fails
    }

    /** The executor's own refresh if it has one; otherwise create, and on failure
        `create or replace table r as ...`. */
    method FullRefresh(r: Name, q: Query) returns (ok: bool)
      modifies this`tables
      ensures ok ==> tables == old(tables)[r := q(RefreshBase(old(tables), r))]
      ensures !ok ==> tables == RefreshBase(old(tables), r)
      ensures ok == CanRefresh(old(tables), r)
    {
      match faults.own
      case Overwriting(fails) =>
        ok := !fails;
        if ok { tables := tables[r := q(tables)]; }
      case DropThenCreate(fails) =>
        tables := tables - {r};
        ok := !fails;
        if ok {
          tables := tables[r := q(tables)];
          assert tables == old(tables)[r := tables[r]];
        }
      case NoOwn =>
        ok := CreateTableAs(r, q);
        if !ok {
          ok := !faults.replace;
          if ok { tables := tables[r := q(tables)]; }
        }
    }

    /** The select runs twice: for the deletion, and again, after it, for the insertion. If it does not read
        the table, the rows it selects override the stored ones by key. */
    method IncrementalMerge(r: Name, q: Query, keys: seq<Column>) returns (answer: MergeSupport)
      requires r in tables
      modifies this`tables
      ensures answer == faults.merge
      ensures tables == match answer
                        case Supported => old(tables)[r := MergedTwice(old(tables), r, keys, q)]
                        case HalfDone => Purged(old(tables), r, keys, q)
                        case _ => old(tables)
      ensures answer == Supported && Ignores(q, r) && Identified(keys, old(tables)[r]) &&
              Identified(keys, q(old(tables))) ==>
                Identified(keys, tables[r]) &&
                ByKey(keys, tables[r]) == ByKey(keys, old(tables)[r]) + ByKey(keys, q(old(tables)))
    {
      if Ignores(q, r) && Identified(keys, tables[r]) && Identified(keys, q(tables)) {
        MergedTwiceIsMerge(tables, r, keys, q);
        MergeIsUpsert(keys, tables[r], q(tables));
      }
      answer := faults.merge;
      if answer == Supported || answer == HalfDone {
        tables := tables[r := Keep(keys, tables[r], q(tables))];
      }
      if answer == Supported {
        tables := tables[r := tables[r] + q(tables)];
      }
    }

    method IncrementalInsert(r: Name, q: Query) returns (ok: bool)
      requires r in tables
      modifies this`tables
      ensures ok <==> !faults.insert
      ensures tables == if ok then old(tables)[r := old(tables)[r] + q(old(tables))] else old(tables)
    {
      ok := !faults.insert;
      if ok { tables := tables[r := tables[r] + q(tables)]; }
    }

    /** Only "merge not supported" falls back to a full refresh; a failing insert always does. */
    method MergeOrInsertWithFallback(r: Name, q: Query, keys: seq<Column>, fallback: Query) returns (ok: bool)
      requires r in tables
      modifies this`tables
      ensures keys != [] ==>
                (ok <==> faults.merge == Supported || (faults.merge == NotSupported && CanRefresh(old(tables), r)))
      ensures keys == [] ==> (ok <==> !faults.insert || CanRefresh(old(tables), r))
      ensures ok && keys != [] && faults.merge == NotSupported ==>
                tables == old(tables)[r := fallback(RefreshBase(old(tables), r))]
      ensures ok && keys != [] && faults.merge == Supported ==>
                tables == old(tables)[r := MergedTwice(old(tables), r, keys, q)]
      ensures ok && keys == [] ==>
                tables == old(tables)[r := if faults.insert then fallback(RefreshBase(old(tables), r))
                                           else old(tables)[r] + q(old(tables))]
      ensures !ok ==> tables == if keys != [] && faults.merge == HalfDone then Purged(old(tables), r, keys, q)
                                else if keys != [] && faults.merge == Broken then old(tables)
                                else RefreshBase(old(tables), r)
    {
      if keys != [] {
        var answer := IncrementalMerge(r, q, keys);
        match answer {
          case Supported => ok := true;
          case NotSupported => ok := FullRefresh(r, fallback);
          case _ => ok := false;
        }
        return;
      }
      ok := IncrementalInsert(r, q);
      if !ok { ok := FullRefresh(r, fallback); }
    }

    /** What an incremental model's table holds when its build does not raise. */
    ghost predicate Refreshed(db: Database, r: Name, render: bool -> Query, delta: Query, keys: seq<Column>,
                              rows: Rows)
    {
      if r !in db || (if keys == [] then faults.insert else faults.merge == NotSupported) then
        rows == render(false)(RefreshBase(db, r))
      else if keys == [] then
        rows == db[r] + delta(db)
      else
        faults.merge == Supported && rows == MergedTwice(db, r, keys, delta)
    }

    /** `render(b)` is the model's query with `is_incremental()` answering `b`; `deltaSql` the optional
        delta query of the metadata. Whatever path is taken, when the build does not raise, the table holds
        what `Refreshed` says, under the premises of `Sound` the rows of the full query, and no other table
        has changed. The contract check comes last and may raise over that table. */
    method RunOrDispatch(r: Name, meta: Meta, render: bool -> Query, deltaSql: Option<Query>, keys: seq<Column>)
      returns (outcome: Outcome)
      modifies this`tables
      ensures tables - {r} == old(tables) - {r}
      ensures outcome == Raised <==>
              if !IsIncremental(meta) || r !in old(tables) then !CanRefresh(old(tables), r)
              else if keys == [] then faults.insert && !CanRefresh(old(tables), r)
              else faults.merge != Supported && (faults.merge == NotSupported ==> !CanRefresh(old(tables), r))
      ensures outcome != Raised ==> (outcome == ContractRaised <==> IsIncremental(meta) && faults.contract)
      ensures outcome != Raised && !IsIncremental(meta) ==>
                r in tables && tables[r] == render(false)(RefreshBase(old(tables), r))
      ensures outcome != Raised && IsIncremental(meta) ==>
                r in tables && Refreshed(old(tables), r, render, DeltaQuery(render, deltaSql), keys, tables[r])
      ensures outcome != Raised && r in old(tables) &&
              (faults.own.DropThenCreate? ==> Ignores(render(false), r)) &&
              Sound(old(tables), r, keys, DeltaQuery(render, deltaSql), render(false)) ==>
                SameRows(tables[r], render(false)(old(tables)))
      ensures outcome == Raised ==>
                tables == old(tables) || tables == RefreshBase(old(tables), r) ||
                (r in old(tables) && tables == Purged(old(tables), r, keys, DeltaQuery(render, deltaSql)))
    {
      var ok: bool;
      var q := DeltaQuery(render, deltaSql);
      if r in tables && Sound(tables, r, keys, q, render(false)) {
        SoundMergeIsRefresh(tables, r, keys, q, render(false));
        assert RefreshBase(tables, r) - {r} == tables - {r};
      }
      if !IsIncremental(meta) {
        ok := FullRefresh(r, render(false));
        OnlyChanges(old(tables), tables, r);
        return if ok then Built else Raised;
      }
      if r !in tables {
        ok := FullRefresh(r, render(false));
      } else {
        ok := MergeOrInsertWithFallback(r, q, keys, render(false));
      }
      OnlyChanges(old(tables), tables, r);
      outcome := if !ok then Raised else if faults.contract then ContractRaised else Built;
    }
  }

  lemma {:induction false} OnlyChanges(db: Database, db': Database, r: Name)
    requires (r in db' && db' == db[r := db'[r]]) || db' == db || db' == db - {r}
    ensures db' - {r} == db - {r}
  {
  }
}
