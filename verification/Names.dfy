/** Node names and the order Python gives them: strings compare code point by code point. */
module Names {
  datatype Name = Name(text: string)

  predicate TextLt(a: string, b: string) {
    b != [] && (a == [] || a[0] < b[0] || (a[0] == b[0] && TextLt(a[1..], b[1..])))
  }

  predicate Lt(a: Name, b: Name) {
    TextLt(a.text, b.text)
  }

  predicate Le(a: Name, b: Name) {
    a == b || Lt(a, b)
  }

  lemma {:induction false} TextLtIrreflexive(a: string)
    ensures !TextLt(a, a)
  {
    if a != [] { TextLtIrreflexive(a[1..]); }
  }

  lemma {:induction false} TextLtTransitive(a: string, b: string, c: string)
    requires TextLt(a, b) && TextLt(b, c)
    ensures TextLt(a, c)
  {
    if a != [] && a[0] == b[0] == c[0] { TextLtTransitive(a[1..], b[1..], c[1..]); }
  }

  lemma {:induction false} TextLtTotal(a: string, b: string)
    ensures a == b || TextLt(a, b) || TextLt(b, a)
  {
    if a != [] && b != [] && a[0] == b[0] {
      TextLtTotal(a[1..], b[1..]);
      assert a == [a[0]] + a[1..] && b == [b[0]] + b[1..];
    }
  }

  /** `b` comes after its proper prefixes; otherwise the first place where the texts differ decides. */
  lemma {:induction false} TextLtIff(a: string, b: string)
    ensures TextLt(a, b) <==>
            exists i: nat :: i <= |a| && i < |b| && a[..i] == b[..i] && (i == |a| || a[i] < b[i])
  {
    if TextLt(a, b) { var i := FirstDecides(a, b); }
    if i: nat :| i <= |a| && i < |b| && a[..i] == b[..i] && (i == |a| || a[i] < b[i]) { DecidedIsLt(a, b, i); }
  }

  lemma {:induction false} FirstDecides(a: string, b: string) returns (i: nat)
    requires TextLt(a, b)
    ensures i <= |a| && i < |b| && a[..i] == b[..i] && (i == |a| || a[i] < b[i])
  {
    i := 0;
    if a != [] && a[0] == b[0] {
      i := FirstDecides(a[1..], b[1..]);
      i := i + 1;
      assert a[..i] == [a[0]] + a[1..][..i - 1] && b[..i] == [b[0]] + b[1..][..i - 1];
    }
  }

  lemma {:induction false} DecidedIsLt(a: string, b: string, i: nat)
    requires i <= |a| && i < |b| && a[..i] == b[..i] && (i == |a| || a[i] < b[i])
    ensures TextLt(a, b)
  {
    if i > 0 {
      assert a[0] == a[..i][0] == b[..i][0] == b[0];
      assert a[1..][..i - 1] == a[..i][1..] == b[..i][1..] == b[1..][..i - 1];
      DecidedIsLt(a[1..], b[1..], i - 1);
    }
  }

  lemma {:induction false} LtOrder()
    ensures forall a :: !Lt(a, a)
    ensures forall a, b, c | Lt(a, b) && Lt(b, c) :: Lt(a, c)
    ensures forall a, b :: a == b || Lt(a, b) || Lt(b, a)
  {
    forall a: Name ensures !Lt(a, a) { TextLtIrreflexive(a.text); }
    forall a, b, c | Lt(a, b) && Lt(b, c) ensures Lt(a, c) { TextLtTransitive(a.text, b.text, c.text); }
    forall a: Name, b: Name ensures a == b || Lt(a, b) || Lt(b, a) { TextLtTotal(a.text, b.text); }
  }

  ghost predicate IsLeast(m: Name, s: set<Name>) {
    m in s && forall x | x in s :: Le(m, x)
  }

  lemma {:induction false} LeastExists(s: set<Name>)
    requires s != {}
    ensures exists m :: IsLeast(m, s)
    decreases |s|
  {
    LtOrder();
    var x :| x in s;
    if s == {x} {
      assert IsLeast(x, s);
    } else {
      LeastExists(s - {x});
      var m :| IsLeast(m, s - {x});
      assert s == {x} + (s - {x});
      if Lt(x, m) { assert IsLeast(x, s); } else { assert IsLeast(m, s); }
    }
  }

  /** What `heapq.heappop` and the head of `sorted` deliver. */
  function Least(s: set<Name>): (m: Name)
    requires s != {}
    ensures IsLeast(m, s)
  {
    LeastExists(s);
    LtOrder();
    var m :| m in s && forall x | x in s :: Le(m, x);
    m
  }

  ghost predicate Increasing(s: seq<Name>) {
    forall i, j | 0 <= i < j < |s| :: Lt(s[i], s[j])
  }

  function Elements(s: seq<Name>): set<Name> {
    set x | x in s
  }

  /** `sorted` on a set. */
  function Sorted(s: set<Name>): (r: seq<Name>)
    ensures Increasing(r) && Elements(r) == s && |r| == |s|
    decreases |s|
  {
    if s == {} then []
    else
      var m := Least(s);
      var rest := Sorted(s - {m});
      SortedCons(s, m, rest);
      [m] + rest
  }

  lemma {:induction false} SortedCons(s: set<Name>, m: Name, rest: seq<Name>)
    requires IsLeast(m, s) && Increasing(rest) && Elements(rest) == s - {m}
    ensures Increasing([m] + rest) && Elements([m] + rest) == s
  {
    forall x | x in rest ensures Lt(m, x) { assert x in Elements(rest); }
    assert Elements([m] + rest) == {m} + Elements(rest);
  }

  ghost predicate Distinct(s: seq<Name>) {
    forall i, j | 0 <= i < j < |s| :: s[i] != s[j]
  }

  lemma {:induction false} IncreasingIsDistinct(s: seq<Name>)
    requires Increasing(s)
    ensures Distinct(s)
  {
    LtOrder();
  }

  lemma {:induction false} DistinctSize(s: seq<Name>)
    requires Distinct(s)
    ensures |Elements(s)| == |s|
  {
    if s != [] {
      var rest := s[..|s| - 1];
      DistinctSize(rest);
      assert Elements(s) == Elements(rest) + {s[|s| - 1]};
    }
  }
}
