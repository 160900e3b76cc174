/** `run_executor.py`: worker counts and the partition of a level into batches. */
module Packing {
  import opened Common
  import opened Names

  // ---------- _resolve_jobs ----------

  /** The `jobs` setting after reading the text form: a number, "auto", or neither. */
  datatype Jobs = Count(n: int) | Auto | Unreadable

  datatype Engine = BQ | SPK | DUCK | PG | SNOW | Other

  /** How many workers an engine is given at most: what the machine offers, up to a fixed number if any. */
  function Ceiling(engine: Engine, cpu: nat): nat {
    match engine
    case BQ => Min(cpu, 4)
    case SPK => Min(cpu * 2, 16)
    case DUCK => Min(cpu, 8)
    case PG => Min(cpu, 8)
    case SNOW => Min(cpu, 8)
    case Other => cpu
  }

  /** Effective worker count; `cpu` is what the machine reports. */
  function ResolveJobs(jobs: Jobs, levelSize: int, engine: Engine, cpu: nat): (k: int)
    ensures levelSize <= 0 ==> k == 0
    ensures levelSize > 0 ==> 1 <= k <= levelSize
    ensures levelSize > 0 && jobs.Count? && jobs.n > 0 ==> k <= jobs.n && (k < jobs.n ==> k == levelSize)
    ensures levelSize > 0 && (jobs.Unreadable? || (jobs.Count? && jobs.n <= 0)) ==> k == 1
    ensures levelSize > 0 && jobs.Auto? && engine == BQ && k < cpu && k < 4 ==> k == levelSize
    ensures levelSize > 0 && jobs.Auto? && engine == SPK && k < 2 * cpu && k < 16 ==> k == levelSize
    ensures levelSize > 0 && jobs.Auto? && engine in {DUCK, PG, SNOW} && k < cpu && k < 8 ==> k == levelSize
    ensures levelSize > 0 && jobs.Auto? && engine == Other && k < cpu ==> k == levelSize
    ensures levelSize > 0 && jobs.Auto? && engine == BQ ==> k <= 4
    ensures levelSize > 0 && jobs.Auto? && engine == SPK ==> k <= 16
    ensures levelSize > 0 && jobs.Auto? && engine in {DUCK, PG, SNOW} ==> k <= 8
    ensures levelSize > 0 && jobs.Auto? ==> k <= Max(1, if engine == SPK then 2 * cpu else cpu)
  {
    if levelSize <= 0 then 0
    else
      match jobs
      case Count(n) => if n <= 0 then 1 else Min(n, levelSize)
      case Unreadable => 1
      case Auto =>
        Max(1, Min(Ceiling(engine, cpu), levelSize))
  }

  // ---------- Weights and loads ----------

  type Durations = map<Name, real>

  /** `durations_s.get(name, 0.0)` */
  function Dur(d: Durations, n: Name): real {
    if n in d then d[n] else 0.0
  }

  /** Total of `w` over a batch; used for durations and for the weights of the proof below. */
  function Load(w: Name -> real, s: seq<Name>): real {
    if s == [] then 0.0 else w(s[0]) + Load(w, s[1..])
  }

  function Flatten(groups: seq<seq<Name>>): seq<Name> {
    if groups == [] then [] else groups[0] + Flatten(groups[1..])
  }

  /** The batches hold exactly the given names. */
  ghost predicate Splits(groups: seq<seq<Name>>, names: seq<Name>) {
    multiset(Flatten(groups)) == multiset(names)
  }

  ghost predicate AtMost(w: Name -> real, groups: seq<seq<Name>>, bound: real) {
    forall i | 0 <= i < |groups| :: Load(w, groups[i]) <= bound
  }

  ghost predicate AtLeast(w: Name -> real, groups: seq<seq<Name>>, bound: real) {
    forall i | 0 <= i < |groups| :: Load(w, groups[i]) >= bound
  }

  lemma {:induction false} LoadConcat(w: Name -> real, a: seq<Name>, b: seq<Name>)
    ensures Load(w, a + b) == Load(w, a) + Load(w, b)
  {
    if a == [] {
      assert a + b == b;
    } else {
      LoadConcat(w, a[1..], b);
      assert (a + b)[1..] == a[1..] + b;
    }
  }

  lemma {:induction false} Without(b: seq<Name>, i: nat)
    requires i < |b|
    ensures multiset(b[..i] + b[i + 1..]) == multiset(b) - multiset{b[i]}
  {
    assert b == b[..i] + [b[i]] + b[i + 1..];
  }

  lemma {:induction false} LoadWithout(w: Name -> real, b: seq<Name>, i: nat)
    requires i < |b|
    ensures Load(w, b) == w(b[i]) + Load(w, b[..i] + b[i + 1..])
  {
    LoadConcat(w, b[..i], b[i..]);
    LoadConcat(w, b[..i], b[i + 1..]);
    assert b == b[..i] + b[i..] && b[i..][1..] == b[i + 1..];
  }

  lemma {:induction false} SameRest(a: seq<Name>, b: seq<Name>) returns (i: nat)
    requires a != [] && multiset(a) == multiset(b)
    ensures i < |b| && b[i] == a[0] && multiset(a[1..]) == multiset(b[..i] + b[i + 1..])
  {
    assert a[0] in multiset(b);
    i :| 0 <= i < |b| && b[i] == a[0];
    Without(b, i);
    assert a == [a[0]] + a[1..];
  }

  lemma {:induction false} LoadPermutes(w: Name -> real, a: seq<Name>, b: seq<Name>)
    requires multiset(a) == multiset(b)
    ensures Load(w, a) == Load(w, b)
  {
    if a == [] {
      assert |multiset(b)| == 0;
    } else {
      var i := SameRest(a, b);
      LoadPermutes(w, a[1..], b[..i] + b[i + 1..]);
      LoadWithout(w, b, i);
    }
  }

  function Times(n: nat, x: real): real {
    if n == 0 then 0.0 else x + Times(n - 1, x)
  }

  lemma {:induction false} TimesIsProduct(n: nat, x: real)
    ensures Times(n, x) == n as real * x
  {
    if n > 0 {
      TimesIsProduct(n - 1, x);
      assert ((n - 1) as real + 1.0) * x == (n - 1) as real * x + x;
    }
  }

  /** If every batch weighs at most `bound`, together they weigh at most that many times `bound`. */
  lemma {:induction false} TotalAtMost(w: Name -> real, groups: seq<seq<Name>>, bound: real)
    requires AtMost(w, groups, bound)
    ensures Load(w, Flatten(groups)) <= Times(|groups|, bound)
  {
    if groups != [] {
      assert Load(w, groups[0]) <= bound;
      TotalAtMost(w, groups[1..], bound);
      LoadConcat(w, groups[0], Flatten(groups[1..]));
    }
  }

  lemma {:induction false} TotalAtLeast(w: Name -> real, groups: seq<seq<Name>>, bound: real)
    requires AtLeast(w, groups, bound)
    ensures Load(w, Flatten(groups)) >= Times(|groups|, bound)
  {
    if groups != [] {
      assert Load(w, groups[0]) >= bound;
      TotalAtLeast(w, groups[1..], bound);
      LoadConcat(w, groups[0], Flatten(groups[1..]));
    }
  }

  lemma {:induction false} LoadNonNegative(w: Name -> real, s: seq<Name>)
    requires forall n | n in s :: w(n) >= 0.0
    ensures Load(w, s) >= 0.0
  {
    if s != [] { LoadNonNegative(w, s[1..]); }
  }

  lemma {:induction false} FlattenAppend(groups: seq<seq<Name>>, j: nat, n: Name)
    requires j < |groups|
    ensures multiset(Flatten(groups[j := groups[j] + [n]])) == multiset(Flatten(groups)) + multiset{n}
  {
    var next := groups[j := groups[j] + [n]];
    if j == 0 {
      assert next[1..] == groups[1..];
    } else {
      FlattenAppend(groups[1..], j - 1, n);
      assert next[1..] == groups[1..][j - 1 := groups[j] + [n]];
    }
  }

  // ---------- sorted(..., reverse=True) ----------

  ghost predicate Descending(d: Durations, s: seq<Name>) {
    forall i, j | 0 <= i < j < |s| :: Dur(d, s[i]) >= Dur(d, s[j])
  }

  /** Python's sort is stable, also under `reverse=True`: a name stays ahead of its equals. */
  function Insert(d: Durations, n: Name, s: seq<Name>): (r: seq<Name>)
    requires Descending(d, s)
    ensures Descending(d, r) && multiset(r) == multiset(s) + multiset{n}
  {
    if s == [] || Dur(d, n) >= Dur(d, s[0]) then [n] + s
    else
      var r := Insert(d, n, s[1..]);
      InsertTail(d, n, s, r);
      [s[0]] + r
  }

  lemma {:induction false} InsertTail(d: Durations, n: Name, s: seq<Name>, r: seq<Name>)
    requires s != [] && Descending(d, s) && Dur(d, n) < Dur(d, s[0])
    requires Descending(d, r) && multiset(r) == multiset(s[1..]) + multiset{n}
    ensures Descending(d, [s[0]] + r) && multiset([s[0]] + r) == multiset(s) + multiset{n}
  {
    assert s == [s[0]] + s[1..];
    forall x | x in r ensures Dur(d, s[0]) >= Dur(d, x) {
      assert x in multiset(r);
      assert x == n || x in multiset(s[1..]);
    }
  }

  function SortDescending(d: Durations, s: seq<Name>): (r: seq<Name>)
    ensures Descending(d, r) && multiset(r) == multiset(s)
  {
    if s == [] then [] else
      assert s == [s[0]] + s[1..];
      Insert(d, s[0], SortDescending(d, s[1..]))
  }

  function OfDuration(d: Durations, s: seq<Name>, v: real): seq<Name> {
    if s == [] then []
    else if Dur(d, s[0]) == v then [s[0]] + OfDuration(d, s[1..], v)
    else OfDuration(d, s[1..], v)
  }

  lemma {:induction false} InsertIsStable(d: Durations, n: Name, s: seq<Name>, v: real)
    requires Descending(d, s)
    ensures OfDuration(d, Insert(d, n, s), v) == (if Dur(d, n) == v then [n] else []) + OfDuration(d, s, v)
  {
    if s == [] || Dur(d, n) >= Dur(d, s[0]) {
      assert ([n] + s)[1..] == s;
    } else {
      InsertIsStable(d, n, s[1..], v);
      var r := Insert(d, n, s[1..]);
      assert ([s[0]] + r)[1..] == r;
    }
  }

  /** Names of equal duration keep their order. */
  lemma {:induction false} SortIsStable(d: Durations, s: seq<Name>, v: real)
    ensures OfDuration(d, SortDescending(d, s), v) == OfDuration(d, s, v)
  {
    if s != [] {
      SortIsStable(d, s[1..], v);
      InsertIsStable(d, s[0], SortDescending(d, s[1..]), v);
    }
  }

  // ---------- The bound of longest-first packing ----------

  function Weigh(d: Durations): Name -> real {
    n => Dur(d, n)
  }

  /** What a batch weighs: its known durations; a name without one weighs nothing. */
  lemma {:induction false} UnknownNamesWeighNothing(d: Durations, s: seq<Name>, n: Name)
    ensures Load(Weigh(d), [n] + s) == (if n in d then d[n] else 0.0) + Load(Weigh(d), s)
    ensures (forall m | m in s :: m !in d) ==> Load(Weigh(d), s) == 0.0
  {
    assert ([n] + s)[1..] == s;
    if s != [] {
      UnknownNamesWeighNothing(d, s[1..], s[0]);
      assert [s[0]] + s[1..] == s;
    }
  }

  ghost predicate NonNegative(d: Durations) {
    forall n | n in d :: d[n] >= 0.0
  }

  /** (4/3 - 1/(3k)) * t */
  function Bound(k: nat, t: real): real
    requires k > 0
  {
    (4.0 / 3.0 - 1.0 / (3.0 * k as real)) * t
  }

  /** A split of `names` into `k` batches, none of them longer than `t`. */
  ghost predicate Rival(d: Durations, names: seq<Name>, k: nat, other: seq<seq<Name>>, t: real) {
    |other| == k && Splits(other, names) && AtMost(Weigh(d), other, t)
  }

  ghost predicate NearOptimal(d: Durations, names: seq<Name>, groups: seq<seq<Name>>) {
    |groups| > 0 &&
    forall other, t | Rival(d, names, |groups|, other, t) :: AtMost(Weigh(d), groups, Bound(|groups|, t))
  }

  /** Weight of a name against the next duration `p`: 2 if it cannot share a batch of length `t`
      with anything as long as `p`, 1 if it is as long as `p`, 0 if it is shorter. */
  function Bulk(d: Durations, p: real, t: real): Name -> real {
    n => if Dur(d, n) < p then 0.0 else if Dur(d, n) + p > t then 2.0 else 1.0
  }

  lemma {:induction false} ShortHasNoBulk(d: Durations, p: real, t: real, s: seq<Name>)
    requires NonNegative(d) && Load(Weigh(d), s) < p
    ensures Load(Bulk(d, p, t), s) == 0.0
  {
    if s != [] {
      LoadNonNegative(Weigh(d), s[1..]);
      ShortHasNoBulk(d, p, t, s[1..]);
    }
  }

  lemma {:induction false} RestHasBulkOne(d: Durations, p: real, t: real, s: seq<Name>)
    requires NonNegative(d) && p > t / 3.0 && Load(Weigh(d), s) <= t - p
    ensures Load(Bulk(d, p, t), s) <= 1.0
  {
    if s != [] {
      LoadNonNegative(Weigh(d), s[1..]);
      if Dur(d, s[0]) < p { RestHasBulkOne(d, p, t, s[1..]); } else { ShortHasNoBulk(d, p, t, s[1..]); }
    }
  }

  /** A batch of length at most `t` has bulk at most 2. */
  lemma {:induction false} BatchHasBulkTwo(d: Durations, p: real, t: real, s: seq<Name>)
    requires NonNegative(d) && p > t / 3.0 && Load(Weigh(d), s) <= t
    ensures Load(Bulk(d, p, t), s) <= 2.0
  {
    if s != [] {
      LoadNonNegative(Weigh(d), s[1..]);
      if Dur(d, s[0]) < p { BatchHasBulkTwo(d, p, t, s[1..]); }
      else if Dur(d, s[0]) + p > t { ShortHasNoBulk(d, p, t, s[1..]); }
      else { RestHasBulkOne(d, p, t, s[1..]); }
    }
  }

  /** A batch of long names that has no room left for `p` has bulk at least 2. */
  lemma {:induction false} FullBatchHasBulkTwo(d: Durations, p: real, t: real, s: seq<Name>)
    requires NonNegative(d) && p <= t && Load(Weigh(d), s) + p > t
    requires forall n | n in s :: Dur(d, n) >= p
    ensures Load(Bulk(d, p, t), s) >= 2.0
  {
    var b := Bulk(d, p, t);
    assert s != [];
    assert Load(b, s) == b(s[0]) + Load(b, s[1..]);
    if |s| > 1 {
      assert s[1..][0] == s[1] && s[1] in s;
      assert Load(b, s[1..]) == b(s[1]) + Load(b, s[1..][1..]);
      LoadNonNegative(b, s[1..][1..]);
    }
  }

  lemma {:induction false} MemberWeighs(w: Name -> real, s: seq<Name>, n: Name)
    requires n in s && forall m | m in s :: w(m) >= 0.0
    ensures w(n) <= Load(w, s)
  {
    LoadNonNegative(w, s[1..]);
    if n != s[0] { MemberWeighs(w, s[1..], n); }
  }

  lemma {:induction false} MemberOfGroup(groups: seq<seq<Name>>, n: Name) returns (i: nat)
    requires n in Flatten(groups)
    ensures i < |groups| && n in groups[i]
  {
    if n in groups[0] {
      i := 0;
    } else {
      i := MemberOfGroup(groups[1..], n);
      i := i + 1;
    }
  }

  lemma {:induction false} NameFits(d: Durations, names: seq<Name>, k: nat, other: seq<seq<Name>>, t: real, n: Name)
    requires NonNegative(d) && Rival(d, names, k, other, t) && n in names
    ensures 0.0 <= Dur(d, n) <= t
  {
    assert n in multiset(names);
    assert n in multiset(Flatten(other));
    var i := MemberOfGroup(other, n);
    MemberWeighs(Weigh(d), other[i], n);
    assert Load(Weigh(d), other[i]) <= t;
  }

  /** The hard case: when only names longer than a third of `t` are around, packing the next one
      on the least loaded batch never exceeds `t`. Otherwise every batch has bulk 2 and the new
      name adds more, while the rival split holds bulk 2 per batch at most. */
  lemma {:induction false} LongNamesFit(d: Durations, names: seq<Name>, groups: seq<seq<Name>>, rest: seq<Name>,
                                        p: real,
                                        other: seq<seq<Name>>, t: real, least: real)
    requires NonNegative(d) && |groups| > 0 && Rival(d, names, |groups|, other, t)
    requires multiset(names) == multiset(Flatten(groups)) + multiset(rest)
    requires rest != [] && Dur(d, rest[0]) == p && p > t / 3.0
    requires forall n | n in Flatten(groups) :: Dur(d, n) >= p
    requires AtLeast(Weigh(d), groups, least)
    ensures least + p <= t
  {
    if least + p > t {
      var b, k := Bulk(d, p, t), |groups|;
      assert rest[0] in multiset(names);
      NameFits(d, names, k, other, t, rest[0]);
      forall i | 0 <= i < k ensures Load(b, groups[i]) >= 2.0 {
        forall n | n in groups[i] ensures Dur(d, n) >= p { GroupMember(groups, i, n); }
        assert Load(Weigh(d), groups[i]) >= least;
        FullBatchHasBulkTwo(d, p, t, groups[i]);
      }
      TotalAtLeast(b, groups, 2.0);
      forall i | 0 <= i < k ensures Load(b, other[i]) <= 2.0 {
        assert Load(Weigh(d), other[i]) <= t;
        BatchHasBulkTwo(d, p, t, other[i]);
      }
      TotalAtMost(b, other, 2.0);
      LoadPermutes(b, Flatten(other), Flatten(groups) + rest);
      LoadConcat(b, Flatten(groups), rest);
      LoadNonNegative(b, rest[1..]);
      assert false;
    }
  }

  lemma {:induction false} GroupMember(groups: seq<seq<Name>>, i: nat, n: Name)
    requires i < |groups| && n in groups[i]
    ensures n in Flatten(groups)
  {
    if i > 0 {
      assert groups[i] == groups[1..][i - 1];
      GroupMember(groups[1..], i - 1, n);
    }
  }

  lemma {:induction false} AverageRoom(d: Durations, names: seq<Name>, groups: seq<seq<Name>>, rest: seq<Name>,
                                       other: seq<seq<Name>>, t: real, least: real)
    requires NonNegative(d) && Rival(d, names, |groups|, other, t)
    requires multiset(names) == multiset(Flatten(groups)) + multiset(rest) && rest != []
    requires AtLeast(Weigh(d), groups, least)
    ensures Times(|groups|, least) + Dur(d, rest[0]) <= Times(|groups|, t)
  {
    var w := Weigh(d);
    TotalAtLeast(w, groups, least);
    TotalAtMost(w, other, t);
    LoadPermutes(w, Flatten(other), Flatten(groups) + rest);
    LoadConcat(w, Flatten(groups), rest);
    LoadNonNegative(w, rest[1..]);
  }

  /** The easy case: the least loaded batch is below average, and the new name is short. */
  lemma {:induction false} AverageFits(k: nat, least: real, p: real, t: real)
    requires k > 0 && Times(k, least) + p <= Times(k, t) && 0.0 <= p <= t / 3.0
    ensures least + p <= Bound(k, t)
  {
    TimesIsProduct(k, least);
    TimesIsProduct(k, t);
    BoundArithmetic(k as real, least, p, t);
  }

  lemma {:induction false} BoundArithmetic(k: real, least: real, p: real, t: real)
    requires k >= 1.0 && k * least + p <= k * t && 0.0 <= p <= t / 3.0
    ensures least + p <= (4.0 / 3.0 - 1.0 / (3.0 * k)) * t
  {
    var x := 1.0 / k;
    assert x * k == 1.0 && 0.0 < x <= 1.0;
    assert x * (k * least + p) <= x * (k * t);
    assert x * (k * least) == least && x * (k * t) == t;
    assert 1.0 / (3.0 * k) == x / 3.0;
    assert (1.0 - x) * p <= (1.0 - x) * (t / 3.0);
  }

  // ---------- _partition_groups ----------

  /** `loads.index(min(loads))` */
  function ArgMin(loads: seq<real>): (j: nat)
    requires loads != []
    ensures j < |loads| && forall i | 0 <= i < |loads| :: loads[j] <= loads[i]
    ensures forall i | 0 <= i < j :: loads[j] < loads[i]
  {
    if |loads| == 1 then 0
    else
      var j := ArgMin(loads[1..]);
      if loads[0] <= loads[1..][j] then 0 else j + 1
  }

  /** What holds after packing the first names of a descending list, against every rival. */
  ghost predicate Packed(d: Durations, names: seq<Name>, sorted: seq<Name>, i: nat, groups: seq<seq<Name>>) {
    |groups| > 0 && i <= |sorted| &&
    forall other, t | Rival(d, names, |groups|, other, t) ::
      AtMost(Weigh(d), groups, Bound(|groups|, t)) &&
      (i > 0 && Dur(d, sorted[i - 1]) > t / 3.0 ==> AtMost(Weigh(d), groups, t))
  }

  lemma {:induction false} PackStepAgainst(d: Durations, names: seq<Name>, sorted: seq<Name>, i: nat,
                                           groups: seq<seq<Name>>, j: nat,
                                           other: seq<seq<Name>>, t: real)
    requires NonNegative(d) && Descending(d, sorted) && multiset(sorted) == multiset(names)
    requires i < |sorted| && |groups| > 0 && Rival(d, names, |groups|, other, t)
    requires multiset(Flatten(groups)) == multiset(sorted[..i])
    requires j < |groups| && AtLeast(Weigh(d), groups, Load(Weigh(d), groups[j]))
    requires AtMost(Weigh(d), groups, Bound(|groups|, t))
    requires i > 0 && Dur(d, sorted[i - 1]) > t / 3.0 ==> AtMost(Weigh(d), groups, t)
    requires i == 0 ==> AtMost(Weigh(d), groups, 0.0)
    ensures var next := groups[j := groups[j] + [sorted[i]]];
            AtMost(Weigh(d), next, Bound(|groups|, t)) &&
            (Dur(d, sorted[i]) > t / 3.0 ==> AtMost(Weigh(d), next, t))
  {
    var w, p, least := Weigh(d), Dur(d, sorted[i]), Load(Weigh(d), groups[j]);
    assert sorted == sorted[..i] + sorted[i..];
    assert sorted[i] in multiset(names) by { assert sorted[i] in multiset(sorted); }
    NameFits(d, names, |groups|, other, t, sorted[i]);
    if p > t / 3.0 {
      forall n | n in Flatten(groups) ensures Dur(d, n) >= p {
        assert n in multiset(Flatten(groups));
        assert n in sorted[..i];
      }
      LongNamesFit(d, names, groups, sorted[i..], p, other, t, least);
      assert AtMost(w, groups, t);
      BoundAbove(|groups|, t);
      GrownAtMost(w, groups, j, sorted[i], t);
    } else {
      AverageRoom(d, names, groups, sorted[i..], other, t, least);
      AverageFits(|groups|, least, p, t);
    }
    GrownAtMost(w, groups, j, sorted[i], Bound(|groups|, t));
  }

  lemma {:induction false} GrownAtMost(w: Name -> real, groups: seq<seq<Name>>, j: nat, n: Name, bound: real)
    requires j < |groups| && AtMost(w, groups, bound) && Load(w, groups[j]) + w(n) <= bound
    ensures AtMost(w, groups[j := groups[j] + [n]], bound)
  {
    LoadConcat(w, groups[j], [n]);
    assert Load(w, [n]) == w(n);
  }

  lemma {:induction false} BoundAbove(k: nat, t: real)
    requires k > 0 && t >= 0.0
    ensures t <= Bound(k, t)
  {
    assert 1.0 / (3.0 * k as real) <= 1.0 / 3.0;
  }

  /** Batches differ in length by at most `longest`. */
  ghost predicate Balanced(w: Name -> real, groups: seq<seq<Name>>, longest: real) {
    forall i, j | 0 <= i < |groups| && 0 <= j < |groups| :: Load(w, groups[i]) <= Load(w, groups[j]) + longest
  }

  ghost predicate Longest(d: Durations, names: seq<Name>, longest: real) {
    forall n | n in names :: Dur(d, n) <= longest
  }

  ghost predicate Track(d: Durations, groups: seq<seq<Name>>, loads: seq<real>) {
    |loads| == |groups| && forall i | 0 <= i < |groups| :: loads[i] == Load(Weigh(d), groups[i])
  }

  /** The loop state of the greedy packing after `i` names. */
  ghost predicate PackedSoFar(d: Durations, names: seq<Name>, sorted: seq<Name>, i: nat, groups: seq<seq<Name>>,
                              loads: seq<real>, longest: real) {
    i <= |sorted| && Descending(d, sorted) && multiset(sorted) == multiset(names) && Track(d, groups, loads) &&
    multiset(Flatten(groups)) == multiset(sorted[..i]) &&
    (i == 0 ==> AtMost(Weigh(d), groups, 0.0)) &&
    (NonNegative(d) ==> Longest(d, names, longest) && Packed(d, names, sorted, i, groups) &&
                        Balanced(Weigh(d), groups, longest))
  }

  lemma {:induction false} PackStep(d: Durations, names: seq<Name>, sorted: seq<Name>, i: nat, groups: seq<seq<Name>>,
                                    loads: seq<real>, j: nat, longest: real)
    requires PackedSoFar(d, names, sorted, i, groups, loads, longest) && i < |sorted|
    requires j < |groups| && forall m | 0 <= m < |groups| :: loads[j] <= loads[m]
    ensures PackedSoFar(d, names, sorted, i + 1, groups[j := groups[j] + [sorted[i]]],
                        loads[j := loads[j] + Dur(d, sorted[i])], longest)
  {
    var next := groups[j := groups[j] + [sorted[i]]];
    assert multiset(Flatten(next)) == multiset(sorted[..i + 1]) by {
      FlattenAppend(groups, j, sorted[i]);
      assert sorted[..i + 1] == sorted[..i] + [sorted[i]];
    }
    assert Track(d, next, loads[j := loads[j] + Dur(d, sorted[i])]) by {
      LoadConcat(Weigh(d), groups[j], [sorted[i]]);
      assert Load(Weigh(d), [sorted[i]]) == Dur(d, sorted[i]);
    }
    if NonNegative(d) { PackStepBounds(d, names, sorted, i, groups, j, longest); }
  }

  lemma {:induction false} PackStepBounds(d: Durations, names: seq<Name>, sorted: seq<Name>, i: nat,
                                          groups: seq<seq<Name>>,
                                          j: nat, longest: real)
    requires NonNegative(d) && Descending(d, sorted) && multiset(sorted) == multiset(names) && i < |sorted|
    requires multiset(Flatten(groups)) == multiset(sorted[..i])
    requires i == 0 ==> AtMost(Weigh(d), groups, 0.0)
    requires Longest(d, names, longest) && Packed(d, names, sorted, i, groups) && Balanced(Weigh(d), groups, longest)
    requires j < |groups| && AtLeast(Weigh(d), groups, Load(Weigh(d), groups[j]))
    ensures var next := groups[j := groups[j] + [sorted[i]]];
            Packed(d, names, sorted, i + 1, next) && Balanced(Weigh(d), next, longest)
  {
    var w, next := Weigh(d), groups[j := groups[j] + [sorted[i]]];
    forall other, t | Rival(d, names, |next|, other, t)
      ensures AtMost(w, next, Bound(|next|, t)) && (Dur(d, sorted[i]) > t / 3.0 ==> AtMost(w, next, t))
    {
      PackStepAgainst(d, names, sorted, i, groups, j, other, t);
    }
    assert sorted[i] in multiset(sorted);
    BalancedStep(w, groups, j, sorted[i], longest);
  }

  lemma {:induction false} BalancedStep(w: Name -> real, groups: seq<seq<Name>>, j: nat, n: Name, longest: real)
    requires Balanced(w, groups, longest) && j < |groups| && 0.0 <= w(n) <= longest
    requires AtLeast(w, groups, Load(w, groups[j]))
    ensures Balanced(w, groups[j := groups[j] + [n]], longest)
  {
    LoadConcat(w, groups[j], [n]);
    assert Load(w, [n]) == w(n);
  }

  lemma {:induction false} EmptyGroups(d: Durations, groups: seq<seq<Name>>)
    requires forall i | 0 <= i < |groups| :: groups[i] == []
    ensures Flatten(groups) == [] && AtMost(Weigh(d), groups, 0.0) && AtLeast(Weigh(d), groups, 0.0)
  {
    if groups != [] { EmptyGroups(d, groups[1..]); }
  }

  lemma {:induction false} PackStart(d: Durations, names: seq<Name>, sorted: seq<Name>, groups: seq<seq<Name>>,
                                     loads: seq<real>,
                                     longest: real)
    requires names != [] && groups != [] && |loads| == |groups|
    requires forall i | 0 <= i < |groups| :: groups[i] == [] && loads[i] == 0.0
    requires Descending(d, sorted) && multiset(sorted) == multiset(names)
    requires NonNegative(d) ==> 0.0 <= longest && Longest(d, names, longest)
    ensures PackedSoFar(d, names, sorted, 0, groups, loads, longest)
  {
    EmptyGroups(d, groups);
    if NonNegative(d) {
      forall other, t | Rival(d, names, |groups|, other, t) ensures AtMost(Weigh(d), groups, Bound(|groups|, t)) {
        NameFits(d, names, |groups|, other, t, names[0]);
        BoundAbove(|groups|, t);
      }
    }
  }

  lemma {:induction false} PackEnd(d: Durations, names: seq<Name>, sorted: seq<Name>, groups: seq<seq<Name>>,
                                   loads: seq<real>,
                                   longest: real)
    requires groups != [] && PackedSoFar(d, names, sorted, |sorted|, groups, loads, longest)
    ensures Splits(groups, names)
    ensures NonNegative(d) ==> NearOptimal(d, names, groups) && Balanced(Weigh(d), groups, longest)
  {
    assert sorted[..|sorted|] == sorted;
  }

  function Loads(d: Durations, groups: seq<seq<Name>>): (loads: seq<real>)
    ensures |loads| == |groups| && forall j | 0 <= j < |groups| :: loads[j] == Load(Weigh(d), groups[j])
  {
    seq(|groups|, j requires 0 <= j < |groups| => Load(Weigh(d), groups[j]))
  }

  /** One name after the other, each put at the end of the first of the least loaded batches. */
  function Greedily(d: Durations, sorted: seq<Name>, k: nat): (groups: seq<seq<Name>>)
    requires 0 < k
    ensures |groups| == k
  {
    if sorted == [] then seq(k, _ => [])
    else
      var groups := Greedily(d, sorted[..|sorted| - 1], k);
      var j := ArgMin(Loads(d, groups));
      groups[j := groups[j] + [sorted[|sorted| - 1]]]
  }

  lemma {:induction false} OneMorePacked(d: Durations, sorted: seq<Name>, k: nat, i: nat, groups: seq<seq<Name>>,
                                         loads: seq<real>)
    requires 0 < k == |groups| && i < |sorted| && Track(d, groups, loads) && groups == Greedily(d, sorted[..i], k)
    ensures var j := ArgMin(loads);
            var next := groups[j := groups[j] + [sorted[i]]];
            Greedily(d, sorted[..i + 1], k) == next && Track(d, next, loads[j := loads[j] + Dur(d, sorted[i])])
  {
    var j := ArgMin(loads);
    assert loads == Loads(d, groups);
    assert sorted[..i + 1][..i] == sorted[..i];
    LoadConcat(Weigh(d), groups[j], [sorted[i]]);
    assert Load(Weigh(d), [sorted[i]]) == Dur(d, sorted[i]);
  }

  lemma {:induction false} GreedyStart(d: Durations, names: seq<Name>, sorted: seq<Name>, k: nat, longest: real)
    returns (groups: seq<seq<Name>>)
    requires 0 < k && names != [] && Descending(d, sorted) && multiset(sorted) == multiset(names)
    requires NonNegative(d) ==> 0.0 <= longest && Longest(d, names, longest)
    ensures groups == Greedily(d, sorted[..0], k)
    ensures PackedSoFar(d, names, sorted, 0, groups, Loads(d, groups), longest)
  {
    groups := Greedily(d, sorted[..0], k);
    PackStart(d, names, sorted, groups, Loads(d, groups), longest);
  }

  lemma {:induction false} GreedyStep(d: Durations, names: seq<Name>, sorted: seq<Name>, k: nat, i: nat,
                                      groups: seq<seq<Name>>, longest: real)
    returns (next: seq<seq<Name>>)
    requires 0 < k && i < |sorted| && groups == Greedily(d, sorted[..i], k)
    requires PackedSoFar(d, names, sorted, i, groups, Loads(d, groups), longest)
    ensures next == Greedily(d, sorted[..i + 1], k)
    ensures PackedSoFar(d, names, sorted, i + 1, next, Loads(d, next), longest)
  {
    var loads := Loads(d, groups);
    var j := ArgMin(loads);
    next := groups[j := groups[j] + [sorted[i]]];
    PackStep(d, names, sorted, i, groups, loads, j, longest);
    OneMorePacked(d, sorted, k, i, groups, loads);
    TrackedLoads(d, next, loads[j := loads[j] + Dur(d, sorted[i])]);
  }

  /** What is known of the batches once all names are packed. */
  lemma {:induction false} GreedyPacked(d: Durations, names: seq<Name>, sorted: seq<Name>, k: nat, longest: real)
    returns (groups: seq<seq<Name>>)
    requires 0 < k && names != [] && Descending(d, sorted) && multiset(sorted) == multiset(names)
    requires NonNegative(d) ==> 0.0 <= longest && Longest(d, names, longest)
    ensures groups == Greedily(d, sorted[..|sorted|], k)
    ensures PackedSoFar(d, names, sorted, |sorted|, groups, Loads(d, groups), longest)
  {
    groups := GreedyStart(d, names, sorted, k, longest);
    for i := 0 to |sorted|
      invariant groups == Greedily(d, sorted[..i], k)
      invariant PackedSoFar(d, names, sorted, i, groups, Loads(d, groups), longest)
    {
      groups := GreedyStep(d, names, sorted, k, i, groups, longest);
    }
  }

  lemma {:induction false} TrackedLoads(d: Durations, groups: seq<seq<Name>>, loads: seq<real>)
    requires Track(d, groups, loads)
    ensures loads == Loads(d, groups)
  {
  }

  /** Greedy packing, longest first: the bound and the balance. */
  lemma {:induction false} GreedyIsNearOptimal(d: Durations, names: seq<Name>, k: nat, longest: real)
    requires 0 < k && names != [] && (NonNegative(d) ==> 0.0 <= longest && Longest(d, names, longest))
    ensures var groups := Greedily(d, SortDescending(d, names), k);
            Splits(groups, names) &&
            (NonNegative(d) ==> NearOptimal(d, names, groups) && Balanced(Weigh(d), groups, longest))
  {
    var sorted := SortDescending(d, names);
    assert sorted[..|sorted|] == sorted;
    var groups := GreedyPacked(d, names, sorted, k, longest);
    PackEnd(d, names, sorted, groups, Loads(d, groups), longest);
  }

  method PackGreedily(names: seq<Name>, k: nat, d: Durations, ghost longest: real)
    returns (groups: seq<seq<Name>>)
    requires 0 < k && names != [] && (NonNegative(d) ==> 0.0 <= longest && Longest(d, names, longest))
    ensures groups == Greedily(d, SortDescending(d, names), k)
    ensures |groups| == k && Splits(groups, names)
    ensures NonNegative(d) ==> NearOptimal(d, names, groups) && Balanced(Weigh(d), groups, longest)
  {
    var sorted := SortDescending(d, names);
    groups := seq(k, _ => []);
    var loads := seq(k, _ => 0.0);
    assert groups == Greedily(d, sorted[..0], k);
    for i := 0 to |sorted|
      invariant |groups| == k && Track(d, groups, loads) && groups == Greedily(d, sorted[..i], k)
    {
      var j := ArgMin(loads);
      OneMorePacked(d, sorted, k, i, groups, loads);
      groups := groups[j := groups[j] + [sorted[i]]];
      loads := loads[j := loads[j] + Dur(d, sorted[i])];
    }
    assert sorted[..|sorted|] == sorted;
    GreedyIsNearOptimal(d, names, k, longest);
  }

  function Nth(j: nat, i: nat, k: nat): nat {
    j + i * k
  }

  /** `groups` after dealing the first `r + q * k` names: batch `j` holds every k-th from the j-th on. */
  ghost predicate Dealing(names: seq<Name>, k: nat, groups: seq<seq<Name>>, q: nat, r: nat) {
    |groups| == k && r < k && Nth(r, q, k) <= |names| &&
    (forall j | 0 <= j < k :: |groups[j]| == if j < r then q + 1 else q) &&
    forall j, i | 0 <= j < k && 0 <= i < |groups[j]| ::
      Nth(j, i, k) < Nth(r, q, k) && groups[j][i] == names[Nth(j, i, k)]
  }

  ghost predicate Dealt(names: seq<Name>, k: nat, groups: seq<seq<Name>>) {
    exists q: nat, r: nat :: Nth(r, q, k) == |names| && Dealing(names, k, groups, q, r)
  }

  lemma {:induction false} NonNegativeProduct(a: int, b: int)
    requires a >= 0 && b >= 0
    ensures a * b >= 0
  {
  }

  lemma {:induction false} OnlyMultiple(z: int, k: int)
    requires 0 - k < z * k < k
    ensures z == 0
  {
    if z >= 1 {
      NonNegativeProduct(z - 1, k);
    } else if z <= -1 {
      NonNegativeProduct(-z - 1, k);
    }
  }

  lemma {:induction false} DealMod(k: nat, q: nat, r: nat)
    requires r < k
    ensures Nth(r, q, k) % k == r
  {
    var idx := Nth(r, q, k);
    var e, m := idx / k, idx % k;
    assert e * k - q * k == r - m;
    assert (e - q) * k == e * k - q * k;
    OnlyMultiple(e - q, k);
  }

  ghost predicate DealtSoFar(names: seq<Name>, k: nat, groups: seq<seq<Name>>, idx: nat) {
    idx <= |names| && multiset(Flatten(groups)) == multiset(names[..idx]) &&
    exists q: nat, r: nat :: Nth(r, q, k) == idx && Dealing(names, k, groups, q, r)
  }

  lemma {:induction false} DealHolds(names: seq<Name>, groups: seq<seq<Name>>, r: nat, idx: nat)
    requires r < |groups| && idx < |names| && multiset(Flatten(groups)) == multiset(names[..idx])
    ensures multiset(Flatten(groups[r := groups[r] + [names[idx]]])) == multiset(names[..idx + 1])
  {
    FlattenAppend(groups, r, names[idx]);
    assert names[..idx + 1] == names[..idx] + [names[idx]];
  }

  lemma {:induction false} DealStep(names: seq<Name>, k: nat, groups: seq<seq<Name>>, idx: nat)
    requires 0 < k && DealtSoFar(names, k, groups, idx) && idx < |names|
    ensures |groups| == k
    ensures DealtSoFar(names, k, groups[idx % k := groups[idx % k] + [names[idx]]], idx + 1)
  {
    var q: nat, r: nat :| Nth(r, q, k) == idx && Dealing(names, k, groups, q, r);
    DealMod(k, q, r);
    DealHolds(names, groups, r, idx);
    DealNext(names, k, groups, q, r);
  }

  lemma {:induction false} DealNext(names: seq<Name>, k: nat, groups: seq<seq<Name>>, q: nat, r: nat)
    requires Dealing(names, k, groups, q, r) && Nth(r, q, k) < |names|
    ensures var next := groups[r := groups[r] + [names[Nth(r, q, k)]]];
            exists q': nat, r': nat :: Nth(r', q', k) == Nth(r, q, k) + 1 && Dealing(names, k, next, q', r')
  {
    var next := groups[r := groups[r] + [names[Nth(r, q, k)]]];
    if r + 1 == k {
      assert (q + 1) * k == q * k + k;
      assert Dealing(names, k, next, q + 1, 0);
    } else {
      assert Dealing(names, k, next, q, r + 1);
    }
  }

  /** Name number `idx` is in batch `idx % k`, as its number `idx / k`. */
  ghost predicate InTurnAt(names: seq<Name>, k: nat, groups: seq<seq<Name>>, idx: nat)
    requires 0 < k == |groups| && idx < |names|
  {
    var j, i := idx % k, idx / k;
    i < |groups[j]| && groups[j][i] == names[idx]
  }

  ghost predicate InTurn(names: seq<Name>, k: nat, groups: seq<seq<Name>>)
    requires 0 < k == |groups|
  {
    forall idx: nat | idx < |names| :: InTurnAt(names, k, groups, idx)
  }

  lemma {:induction false} NthBelow(j: nat, i: nat, r: nat, q: nat, k: nat)
    requires j < k && r < k && Nth(j, i, k) < Nth(r, q, k)
    ensures i < q || (i == q && j < r)
  {
    Distributes(i, q, k);
    if i > q { NonNegativeProduct(i - q - 1, k); }
  }

  lemma {:induction false} Distributes(i: int, q: int, k: int)
    ensures (i - q - 1) * k == i * k - q * k - k
  {
  }

  lemma {:induction false} DealtAt(names: seq<Name>, k: nat, groups: seq<seq<Name>>, q: nat, r: nat, j: nat, i: nat)
    requires Dealing(names, k, groups, q, r) && Nth(r, q, k) == |names| && j < k && Nth(j, i, k) < |names|
    ensures i < |groups[j]| && groups[j][i] == names[Nth(j, i, k)]
  {
    NthBelow(j, i, r, q, k);
  }

  lemma {:induction false} NthOfIndex(idx: nat, k: nat)
    requires 0 < k
    ensures Nth(idx % k, idx / k, k) == idx
  {
  }

  lemma {:induction false} DealtInTurn(names: seq<Name>, k: nat, groups: seq<seq<Name>>)
    requires 0 < k == |groups| && Dealt(names, k, groups)
    ensures InTurn(names, k, groups)
  {
    var q: nat, r: nat :| Nth(r, q, k) == |names| && Dealing(names, k, groups, q, r);
    forall idx: nat | idx < |names| ensures InTurnAt(names, k, groups, idx) {
      DealtAtIndex(names, k, groups, q, r, idx);
    }
  }

  lemma {:induction false} DealtAtIndex(names: seq<Name>, k: nat, groups: seq<seq<Name>>, q: nat, r: nat, idx: nat)
    requires Dealing(names, k, groups, q, r) && Nth(r, q, k) == |names| && idx < |names|
    ensures InTurnAt(names, k, groups, idx)
  {
    NthOfIndex(idx, k);
    DealtAt(names, k, groups, q, r, idx % k, idx / k);
  }

  method DealRoundRobin(names: seq<Name>, k: nat) returns (groups: seq<seq<Name>>)
    requires 0 < k
    ensures |groups| == k && Splits(groups, names) && Dealt(names, k, groups)
    ensures InTurn(names, k, groups)
  {
    groups := seq(k, _ => []);
    EmptyGroups(map[], groups);
    assert Nth(0, 0, k) == 0 && Dealing(names, k, groups, 0, 0);
    for idx := 0 to |names|
      invariant |groups| == k && DealtSoFar(names, k, groups, idx)
    {
      DealStep(names, k, groups, idx);
      groups := groups[idx % k := groups[idx % k] + [names[idx]]];
    }
    assert names[..|names|] == names;
    DealtInTurn(names, k, groups);
  }

  /** No known durations is the empty map: Python tests `not durations_s`. */
  method PartitionGroups(names: seq<Name>, maxWorkers: int, d: Durations, ghost longest: real)
    returns (groups: seq<seq<Name>>)
    requires NonNegative(d) ==> 0.0 <= longest && Longest(d, names, longest)
    ensures Splits(groups, names)
    ensures |groups| == if names == [] then 0 else Max(1, Min(maxWorkers, |names|))
    ensures |groups| == 1 ==> groups == [names]
    ensures |groups| > 1 && d == map[] ==> InTurn(names, |groups|, groups)
    ensures |groups| > 1 && d != map[] ==> groups == Greedily(d, SortDescending(d, names), |groups|)
    ensures |groups| > 0 && d != map[] && NonNegative(d) ==> NearOptimal(d, names, groups)
    ensures |groups| > 1 && d != map[] && NonNegative(d) ==> Balanced(Weigh(d), groups, longest)
  {
    var n := |names|;
    if n == 0 {
      return [];
    }
    if maxWorkers <= 1 || n == 1 {
      OneGroup(d, names);
      return [names];
    }
    var k := Min(maxWorkers, n);
    if d == map[] {
      groups := DealRoundRobin(names, k);
    } else {
      groups := PackGreedily(names, k, d, longest);
    }
  }

  lemma {:induction false} OneGroup(d: Durations, names: seq<Name>)
    requires names != []
    ensures Splits([names], names)
    ensures NonNegative(d) ==> NearOptimal(d, names, [names])
  {
    assert Flatten([names]) == names + Flatten([]) == names;
    if NonNegative(d) {
      forall other, t | Rival(d, names, 1, other, t) ensures AtMost(Weigh(d), [names], Bound(1, t)) {
        assert other == [other[0]] && Flatten(other) == other[0] + Flatten(other[1..]) == other[0];
        LoadPermutes(Weigh(d), names, other[0]);
      }
    }
  }
}
