/** `_python_incremental_merge_default`: concatenate, sort by key and update columns, keep the last
    row of every key. The sort is any sort: rows equal in key and update columns may come out in
    either order. */
module PythonMerge {
  /** A row: its unique key, the tuple of its update columns, and the remaining columns. */
  datatype Row = Row(key: seq<int>, upd: seq<int>, rest: string)

  type Frame = seq<Row>

  // ---------- Tuple order ----------

  predicate TupleLe(a: seq<int>, b: seq<int>) {
    a == [] || (b != [] && (a[0] < b[0] || (a[0] == b[0] && TupleLe(a[1..], b[1..]))))
  }

  lemma {:induction false} TupleLeTotal(a: seq<int>, b: seq<int>)
    ensures TupleLe(a, b) || TupleLe(b, a)
  {
    if a != [] && b != [] && a[0] == b[0] { TupleLeTotal(a[1..], b[1..]); }
  }

  lemma {:induction false} TupleLeTransitive(a: seq<int>, b: seq<int>, c: seq<int>)
    requires TupleLe(a, b) && TupleLe(b, c)
    ensures TupleLe(a, c)
  {
    if a != [] && a[0] == b[0] == c[0] { TupleLeTransitive(a[1..], b[1..], c[1..]); }
  }

  lemma {:induction false} TupleLeAntisymmetric(a: seq<int>, b: seq<int>)
    requires TupleLe(a, b) && TupleLe(b, a)
    ensures a == b
  {
    if a != [] {
      TupleLeAntisymmetric(a[1..], b[1..]);
      assert a == [a[0]] + a[1..] && b == [b[0]] + b[1..];
    }
  }

  /** Tuples compare at the first place where they differ; a prefix comes first. */
  lemma {:induction false} TupleLeIff(a: seq<int>, b: seq<int>)
    ensures TupleLe(a, b) <==>
            a <= b || exists i :: 0 <= i < |a| && i < |b| && a[..i] == b[..i] && a[i] < b[i]
  {
    if a != [] && b != [] && a[0] == b[0] {
      TupleLeIff(a[1..], b[1..]);
      assert a <= b <==> a[1..] <= b[1..];
      if i :| 0 <= i < |a[1..]| && i < |b[1..]| && a[1..][..i] == b[1..][..i] && a[1..][i] < b[1..][i] {
        assert a[..i + 1] == [a[0]] + a[1..][..i] && b[..i + 1] == [b[0]] + b[1..][..i];
        assert a[i + 1] < b[i + 1];
      }
      if i :| 0 <= i < |a| && i < |b| && a[..i] == b[..i] && a[i] < b[i] {
        assert a[1..][..i - 1] == a[..i][1..] && b[1..][..i - 1] == b[..i][1..];
        assert a[1..][i - 1] < b[1..][i - 1];
      }
    } else if a != [] && b != [] {
      assert a[..0] == b[..0];
    }
  }

  /** `sort_values(unique_key + update_cols)`: by key, then by the update tuple. */
  predicate RowLe(a: Row, b: Row) {
    if a.key == b.key then TupleLe(a.upd, b.upd) else TupleLe(a.key, b.key)
  }

  ghost predicate SortedFrame(s: Frame) {
    forall i, j | 0 <= i < j < |s| :: RowLe(s[i], s[j])
  }

  // ---------- The merge ----------

  ghost predicate HasKey(s: Frame, key: seq<int>) {
    exists i :: 0 <= i < |s| && s[i].key == key
  }

  /** `drop_duplicates(subset=unique_key, keep="last")` */
  function KeepLast(s: Frame): Frame {
    if s == [] then []
    else if exists i :: 1 <= i < |s| && s[i].key == s[0].key then KeepLast(s[1..])
    else [s[0]] + KeepLast(s[1..])
  }

  /** `r` is a possible result of merging `df_new` into `df_old`; an empty side returns the other one as it is. */
  ghost predicate IsMerge(df_old: Frame, df_new: Frame, r: Frame) {
    if df_old == [] then r == df_new
    else if df_new == [] then r == df_old
    else exists s :: SortedFrame(s) && multiset(s) == multiset(df_old + df_new) && r == KeepLast(s)
  }

  lemma {:induction false} RowLeTransitive(a: Row, b: Row, c: Row)
    requires RowLe(a, b) && RowLe(b, c)
    ensures RowLe(a, c)
  {
    if a.key == b.key == c.key {
      TupleLeTransitive(a.upd, b.upd, c.upd);
    } else {
      TupleLeTotal(b.key, b.key);
      TupleLeTransitive(a.key, b.key, c.key);
      if a.key == c.key { TupleLeAntisymmetric(a.key, b.key); }
    }
  }

  lemma {:induction false} RowLeTotal(a: Row, b: Row)
    ensures RowLe(a, b) || RowLe(b, a)
  {
    TupleLeTotal(a.upd, b.upd);
    TupleLeTotal(a.key, b.key);
  }

  /** A row put into a sorted frame. */
  lemma {:induction false} InsertSorted(s: Frame, x: Row) returns (t: Frame)
    requires SortedFrame(s)
    ensures SortedFrame(t) && multiset(t) == multiset(s) + multiset{x}
    ensures t != [] && (t[0] == x || (s != [] && t[0] == s[0]))
  {
    if s == [] {
      t := [x];
    } else if RowLe(x, s[0]) {
      t := [x] + s;
      forall j | 0 <= j < |s| ensures RowLe(x, s[j]) {
        if j > 0 { RowLeTransitive(x, s[0], s[j]); }
      }
    } else {
      RowLeTotal(x, s[0]);
      var rest := InsertSorted(s[1..], x);
      t := [s[0]] + rest;
      assert s == [s[0]] + s[1..];
      forall j | 0 <= j < |rest| ensures RowLe(s[0], rest[j]) {
        assert rest[j] in multiset(rest);
        if rest[j] != x {
          assert rest[j] in multiset(s[1..]);
          var k :| 0 <= k < |s[1..]| && s[1..][k] == rest[j];
          assert s[1..][k] == s[k + 1];
        }
      }
    }
  }

  lemma {:induction false} SortExists(s: Frame) returns (t: Frame)
    ensures SortedFrame(t) && multiset(t) == multiset(s)
  {
    if s == [] {
      t := [];
    } else {
      t := SortExists(s[1..]);
      t := InsertSorted(t, s[0]);
      assert s == [s[0]] + s[1..];
    }
  }

  /** Any two frames can be merged. */
  lemma {:induction false} MergeExists(df_old: Frame, df_new: Frame) returns (r: Frame)
    ensures IsMerge(df_old, df_new, r)
  {
    if df_old == [] {
      r := df_new;
    } else if df_new == [] {
      r := df_old;
    } else {
      var s := SortExists(df_old + df_new);
      r := KeepLast(s);
    }
  }

  // ---------- One row per key ----------

  ghost predicate UniqueKeys(s: Frame) {
    forall i, j | 0 <= i < j < |s| :: s[i].key != s[j].key
  }

  lemma {:induction false} KeepLastIsFrom(s: Frame)
    ensures forall i | 0 <= i < |KeepLast(s)| :: KeepLast(s)[i] in s
  {
    if s != [] { KeepLastIsFrom(s[1..]); }
  }

  lemma {:induction false} KeepLastIsUnique(s: Frame)
    ensures UniqueKeys(KeepLast(s))
  {
    if s != [] {
      KeepLastIsUnique(s[1..]);
      KeepLastIsFrom(s[1..]);
      forall i | 0 <= i < |KeepLast(s[1..])| ensures exists j :: 1 <= j < |s| && s[j].key == KeepLast(s[1..])[i].key {
        var j :| 0 <= j < |s[1..]| && s[1..][j] == KeepLast(s[1..])[i];
        assert s[j + 1].key == KeepLast(s[1..])[i].key;
      }
    }
  }

  /** What is kept is the last row of its key. */
  lemma {:induction false} KeepLastIff(s: Frame, x: Row)
    ensures x in KeepLast(s) <==>
            exists i :: 0 <= i < |s| && s[i] == x && forall j | i < j < |s| :: s[j].key != x.key
  {
    if s != [] {
      var rest := s[1..];
      KeepLastIff(rest, x);
      if i :| 0 <= i < |rest| && rest[i] == x && forall j | i < j < |rest| :: rest[j].key != x.key {
        assert s[i + 1] == x;
        forall j | i + 1 < j < |s| ensures s[j].key != x.key { assert s[j] == rest[j - 1]; }
      }
      if i :| 0 <= i < |s| && s[i] == x && forall j | i < j < |s| :: s[j].key != x.key {
        if i > 0 {
          assert rest[i - 1] == x;
          forall j | i - 1 < j < |rest| ensures rest[j].key != x.key { assert rest[j] == s[j + 1]; }
        }
      }
    }
  }

  lemma {:induction false} KeepLastStaysSorted(s: Frame)
    requires SortedFrame(s)
    ensures SortedFrame(KeepLast(s))
  {
    if s != [] {
      KeepLastStaysSorted(s[1..]);
      KeepLastIsFrom(s[1..]);
      var kept := KeepLast(s[1..]);
      forall i | 0 <= i < |kept| ensures RowLe(s[0], kept[i]) {
        var j :| 0 <= j < |s[1..]| && s[1..][j] == kept[i];
        assert s[j + 1] == kept[i];
      }
    }
  }

  /** The rows of a merge are rows of the two frames, unchanged; with rows on both sides they come in the
      order of their keys. */
  lemma {:induction false} MergedRows(df_old: Frame, df_new: Frame, r: Frame)
    requires IsMerge(df_old, df_new, r)
    ensures forall x | x in r :: x in df_old || x in df_new
    ensures df_old != [] && df_new != [] ==>
              forall i, j | 0 <= i < j < |r| :: r[i].key != r[j].key && TupleLe(r[i].key, r[j].key)
  {
    if df_old != [] && df_new != [] {
      var s :| SortedFrame(s) && multiset(s) == multiset(df_old + df_new) && r == KeepLast(s);
      KeepLastIsFrom(s);
      forall x | x in r ensures x in df_old || x in df_new {
        assert x in multiset(s);
        assert x in df_old + df_new;
      }
      KeepLastIsUnique(s);
      KeepLastStaysSorted(s);
    }
  }

  /** The merge leaves one row per key exactly when both sides have rows or the only side already does. */
  lemma {:induction false} OneRowPerKeyIff(df_old: Frame, df_new: Frame, r: Frame)
    requires IsMerge(df_old, df_new, r)
    ensures UniqueKeys(r) <==> (df_old != [] && df_new != []) || UniqueKeys(df_old + df_new)
  {
    assert df_old == [] ==> df_old + df_new == df_new;
    assert df_new == [] ==> df_old + df_new == df_old;
    if df_old != [] && df_new != [] {
      var s :| SortedFrame(s) && multiset(s) == multiset(df_old + df_new) && r == KeepLast(s);
      KeepLastIsUnique(s);
    }
  }

  // ---------- The greatest update of every key ----------

  /** `u` is the greatest update tuple among the rows of `s` with this key. */
  ghost predicate Greatest(s: Frame, key: seq<int>, u: seq<int>) {
    (exists i :: 0 <= i < |s| && s[i].key == key && s[i].upd == u) &&
    forall i | 0 <= i < |s| && s[i].key == key :: TupleLe(s[i].upd, u)
  }

  lemma {:induction false} GreatestIsUnique(s: Frame, key: seq<int>, u: seq<int>, v: seq<int>)
    requires Greatest(s, key, u) && Greatest(s, key, v)
    ensures u == v
  {
    TupleLeAntisymmetric(u, v);
  }

  lemma {:induction false} GreatestExists(s: Frame, key: seq<int>)
    requires HasKey(s, key)
    ensures exists u :: Greatest(s, key, u)
  {
    var rest := s[1..];
    TupleLeTotal(s[0].upd, s[0].upd);
    if HasKey(rest, key) {
      GreatestExists(rest, key);
      var u :| Greatest(rest, key, u);
      GreatestOfCons(s, key, u);
    } else {
      forall i | 1 <= i < |s| ensures s[i].key != key { assert s[i] == rest[i - 1]; }
      assert Greatest(s, key, s[0].upd);
    }
  }

  lemma {:induction false} GreatestOfCons(s: Frame, key: seq<int>, u: seq<int>)
    requires s != [] && Greatest(s[1..], key, u)
    ensures Greatest(s, key, if s[0].key == key && TupleLe(u, s[0].upd) then s[0].upd else u)
  {
    var w := if s[0].key == key && TupleLe(u, s[0].upd) then s[0].upd else u;
    TupleLeTotal(u, s[0].upd);
    TupleLeTotal(s[0].upd, s[0].upd);
    var j :| 0 <= j < |s[1..]| && s[1..][j].key == key && s[1..][j].upd == u;
    assert s[j + 1].key == key && s[j + 1].upd == u;
    forall i | 0 <= i < |s| && s[i].key == key ensures TupleLe(s[i].upd, w) {
      if i > 0 {
        assert s[i] == s[1..][i - 1];
        if w != u { TupleLeTransitive(s[i].upd, u, w); }
      }
    }
  }

  /** The greatest update does not depend on the order of the rows. */
  lemma {:induction false} GreatestPermutes(a: Frame, b: Frame, key: seq<int>, u: seq<int>)
    requires multiset(a) == multiset(b) && Greatest(a, key, u)
    ensures Greatest(b, key, u)
  {
    var i :| 0 <= i < |a| && a[i].key == key && a[i].upd == u;
    assert a[i] in multiset(b);
    var j :| 0 <= j < |b| && b[j] == a[i];
    forall k | 0 <= k < |b| && b[k].key == key ensures TupleLe(b[k].upd, u) {
      assert b[k] in multiset(a);
      var m :| 0 <= m < |a| && a[m] == b[k];
    }
  }

  /** Dropping all but the last row of every key keeps the greatest update of every key. */
  lemma {:induction false} KeepLastKeepsGreatest(s: Frame, key: seq<int>, u: seq<int>)
    requires SortedFrame(s)
    ensures Greatest(s, key, u) <==> Greatest(KeepLast(s), key, u)
  {
    if s != [] {
      var rest := s[1..];
      forall v { KeepLastKeepsGreatest(rest, key, v); }
      if i :| 1 <= i < |s| && s[i].key == s[0].key {
        DominatedHead(s, i, key, u);
      } else {
        ConsGreatest(s[0], rest, KeepLast(rest), key, u);
        assert [s[0]] + rest == s;
      }
    }
  }

  /** A head that a later row of its key dominates does not matter. */
  lemma {:induction false} DominatedHead(s: Frame, i: nat, key: seq<int>, u: seq<int>)
    requires SortedFrame(s) && 1 <= i < |s| && s[i].key == s[0].key
    ensures Greatest(s, key, u) <==> Greatest(s[1..], key, u)
  {
    var rest := s[1..];
    assert forall k | 1 <= k < |s| :: s[k] == rest[k - 1];
    assert RowLe(s[0], s[i]);
    if Greatest(rest, key, u) {
      GreatestOfCons(s, key, u);
      if s[0].key == key && TupleLe(u, s[0].upd) {
        TupleLeTransitive(u, s[0].upd, s[i].upd);
        assert TupleLe(rest[i - 1].upd, u);
        TupleLeTransitive(s[0].upd, s[i].upd, u);
        TupleLeAntisymmetric(u, s[0].upd);
      }
    }
    if Greatest(s, key, u) {
      var k :| 0 <= k < |s| && s[k].key == key && s[k].upd == u;
      if k == 0 { TupleLeAntisymmetric(s[i].upd, u); }
      var m := if k == 0 then i else k;
      assert rest[m - 1].key == key && rest[m - 1].upd == u;
    }
  }

  ghost predicate SameGreatest(a: Frame, b: Frame, key: seq<int>) {
    forall u :: Greatest(a, key, u) <==> Greatest(b, key, u)
  }

  lemma {:induction false} SameGreatestSameKeys(a: Frame, b: Frame, key: seq<int>)
    requires SameGreatest(a, b, key)
    ensures HasKey(a, key) <==> HasKey(b, key)
  {
    if HasKey(a, key) { GreatestExists(a, key); }
    if HasKey(b, key) { GreatestExists(b, key); }
  }

  lemma {:induction false} ConsGreatest(head: Row, a: Frame, b: Frame, key: seq<int>, u: seq<int>)
    requires SameGreatest(a, b, key)
    ensures Greatest([head] + a, key, u) <==> Greatest([head] + b, key, u)
  {
    SameGreatestSameKeys(a, b, key);
    ConsGreatestOneWay(head, a, b, key, u);
    ConsGreatestOneWay(head, b, a, key, u);
  }

  lemma {:induction false} ConsGreatestOneWay(head: Row, a: Frame, b: Frame, key: seq<int>, u: seq<int>)
    requires SameGreatest(a, b, key) && (HasKey(a, key) <==> HasKey(b, key))
    ensures Greatest([head] + a, key, u) ==> Greatest([head] + b, key, u)
  {
    var x, y := [head] + a, [head] + b;
    assert x[1..] == a && y[1..] == b;
    if Greatest(x, key, u) {
      if HasKey(a, key) {
        GreatestExists(a, key);
        var v :| Greatest(a, key, v);
        GreatestOfCons(x, key, v);
        GreatestOfCons(y, key, v);
        GreatestIsUnique(x, key, u, if head.key == key && TupleLe(v, head.upd) then head.upd else v);
      } else {
        forall i | 1 <= i < |x| ensures x[i].key != key { assert x[i] == a[i - 1]; }
        forall i | 1 <= i < |y| ensures y[i].key != key { assert y[i] == b[i - 1]; }
        assert y[0] == head;
      }
    }
  }

  lemma {:induction false} ConcatGreatest(c: Frame, a: Frame, b: Frame, key: seq<int>)
    requires SameGreatest(a, b, key)
    ensures SameGreatest(c + a, c + b, key)
  {
    if c == [] {
      assert c + a == a && c + b == b;
    } else {
      ConcatGreatest(c[1..], a, b, key);
      forall u { ConsGreatest(c[0], c[1..] + a, c[1..] + b, key, u); }
      assert [c[0]] + (c[1..] + a) == c + a && [c[0]] + (c[1..] + b) == c + b;
    }
  }

  lemma {:induction false} PermutedSameGreatest(a: Frame, b: Frame, key: seq<int>)
    requires multiset(a) == multiset(b)
    ensures SameGreatest(a, b, key)
  {
    forall u ensures Greatest(a, key, u) <==> Greatest(b, key, u) {
      if Greatest(a, key, u) { GreatestPermutes(a, b, key, u); }
      if Greatest(b, key, u) { GreatestPermutes(b, a, key, u); }
    }
  }

  lemma {:induction false} SameGreatestTransitive(a: Frame, b: Frame, c: Frame, key: seq<int>)
    requires SameGreatest(a, b, key) && SameGreatest(b, c, key)
    ensures SameGreatest(a, c, key)
  {
  }

  /** Every merge, also one with an empty side, keeps the keys and the greatest update of every key. */
  lemma {:induction false} MergeKeepsGreatest(df_old: Frame, df_new: Frame, r: Frame, key: seq<int>)
    requires IsMerge(df_old, df_new, r)
    ensures SameGreatest(r, df_old + df_new, key)
    ensures HasKey(r, key) <==> HasKey(df_old + df_new, key)
  {
    assert df_old == [] ==> df_old + df_new == df_new;
    assert df_new == [] ==> df_old + df_new == df_old;
    if df_old != [] && df_new != [] {
      var s :| SortedFrame(s) && multiset(s) == multiset(df_old + df_new) && r == KeepLast(s);
      forall u ensures Greatest(r, key, u) <==> Greatest(s, key, u) { KeepLastKeepsGreatest(s, key, u); }
      PermutedSameGreatest(s, df_old + df_new, key);
    }
    SameGreatestSameKeys(r, df_old + df_new, key);
  }

  // ---------- Folding deltas one at a time ----------

  /** `r` is a possible result of merging the deltas into `df` one after the other. */
  ghost predicate IsFold(df: Frame, deltas: seq<Frame>, r: Frame)
    decreases |deltas|
  {
    if deltas == [] then r == df
    else exists m :: IsMerge(df, deltas[0], m) && IsFold(m, deltas[1..], r)
  }

  /** Any deltas can be merged one after the other. */
  lemma {:induction false} FoldExists(df: Frame, deltas: seq<Frame>) returns (r: Frame)
    ensures IsFold(df, deltas, r)
    decreases |deltas|
  {
    if deltas == [] {
      r := df;
    } else {
      var m := MergeExists(df, deltas[0]);
      r := FoldExists(m, deltas[1..]);
    }
  }

  function Concat(frames: seq<Frame>): Frame {
    if frames == [] then [] else frames[0] + Concat(frames[1..])
  }

  /** One delta at a time gives the same key-to-update map as all rows at once. */
  lemma {:induction false} FoldKeepsGreatest(df: Frame, deltas: seq<Frame>, r: Frame, key: seq<int>)
    requires IsFold(df, deltas, r)
    ensures SameGreatest(r, df + Concat(deltas), key)
    decreases |deltas|
  {
    if deltas == [] {
      assert df + Concat(deltas) == df;
    } else {
      var m :| IsMerge(df, deltas[0], m) && IsFold(m, deltas[1..], r);
      var rest := Concat(deltas[1..]);
      FoldKeepsGreatest(m, deltas[1..], r, key);
      MergeKeepsGreatest(df, deltas[0], m, key);
      ConcatGreatest(rest, m, df + deltas[0], key);
      PermutedSameGreatest(m + rest, rest + m, key);
      PermutedSameGreatest(rest + (df + deltas[0]), df + Concat(deltas), key);
      SameGreatestTransitive(r, m + rest, rest + m, key);
      SameGreatestTransitive(r, rest + m, rest + (df + deltas[0]), key);
      SameGreatestTransitive(r, rest + (df + deltas[0]), df + Concat(deltas), key);
    }
  }

  /** So the order of the deltas, and how the rows are cut into deltas, does not matter. */
  lemma {:induction false} FoldOrderIrrelevant(df1: Frame, deltas1: seq<Frame>, r1: Frame, df2: Frame,
                                               deltas2: seq<Frame>, r2: Frame,
                                               key: seq<int>)
    requires IsFold(df1, deltas1, r1) && IsFold(df2, deltas2, r2)
    requires multiset(df1 + Concat(deltas1)) == multiset(df2 + Concat(deltas2))
    ensures SameGreatest(r1, r2, key) && (HasKey(r1, key) <==> HasKey(r2, key))
  {
    FoldKeepsGreatest(df1, deltas1, r1, key);
    FoldKeepsGreatest(df2, deltas2, r2, key);
    PermutedSameGreatest(df1 + Concat(deltas1), df2 + Concat(deltas2), key);
    SameGreatestTransitive(r1, df1 + Concat(deltas1), df2 + Concat(deltas2), key);
    SameGreatestTransitive(r1, df2 + Concat(deltas2), r2, key);
    SameGreatestSameKeys(r1, r2, key);
  }
}
