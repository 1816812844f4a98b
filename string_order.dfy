// The order Python's `sorted` puts strings in: lexicographic by code point,
// a proper prefix first. Sorting a set of keys (a dictionary's items) and
// sorting a list of strings are both defined here.
module StringOrder {

  /** `a <= b` on Python strings. */
  predicate LessEq(a: string, b: string)
    decreases |a|
  {
    a == [] || (b != [] && (a[0] < b[0] || (a[0] == b[0] && LessEq(a[1..], b[1..]))))
  }

  lemma {:induction false} LessEqReflexive(a: string)
    ensures LessEq(a, a)
    decreases |a|
  {
    if a != [] {
      LessEqReflexive(a[1..]);
    }
  }

  lemma {:induction false} LessEqTotal(a: string, b: string)
    ensures LessEq(a, b) || LessEq(b, a)
    decreases |a|
  {
    if a != [] && b != [] && a[0] == b[0] {
      LessEqTotal(a[1..], b[1..]);
    }
  }

  lemma {:induction false} LessEqAntisymmetric(a: string, b: string)
    requires LessEq(a, b) && LessEq(b, a)
    ensures a == b
    decreases |a|
  {
    if a != [] && b != [] {
      LessEqAntisymmetric(a[1..], b[1..]);
      assert a == [a[0]] + a[1..] && b == [b[0]] + b[1..];
    }
  }

  lemma {:induction false} LessEqTransitive(a: string, b: string, c: string)
    requires LessEq(a, b) && LessEq(b, c)
    ensures LessEq(a, c)
    decreases |a|
  {
    if a != [] && b != [] && c != [] && a[0] == b[0] && b[0] == c[0] {
      LessEqTransitive(a[1..], b[1..], c[1..]);
    }
  }

  /** A prefix comes before the strings it begins. */
  lemma {:induction false} PrefixFirst(a: string, b: string)
    requires |a| <= |b| && b[..|a|] == a
    ensures LessEq(a, b)
    decreases |a|
  {
    if a != [] {
      assert b[1..][..|a| - 1] == a[1..];
      PrefixFirst(a[1..], b[1..]);
    }
  }

  predicate Sorted(xs: seq<string>) {
    forall i, j :: 0 <= i < j < |xs| ==> LessEq(xs[i], xs[j])
  }

  /** Strictly increasing: sorted with no repetition, as the keys of a dictionary come. */
  predicate Increasing(xs: seq<string>) {
    forall i, j :: 0 <= i < j < |xs| ==> LessEq(xs[i], xs[j]) && xs[i] != xs[j]
  }

  /** The least element of a finite non-empty set of strings. */
  function Min(s: set<string>): (m: string)
    requires s != {}
    ensures m in s && forall x :: x in s ==> LessEq(m, x)
  {
    MinExists(s);
    var m :| m in s && forall x :: x in s ==> LessEq(m, x);
    MinUnique(s, m);
    m
  }

  lemma MinUnique(s: set<string>, m: string)
    requires m in s && forall x :: x in s ==> LessEq(m, x)
    ensures forall m' :: m' in s && (forall x :: x in s ==> LessEq(m', x)) ==> m' == m
  {
    forall m' | m' in s && (forall x :: x in s ==> LessEq(m', x))
      ensures m' == m
    {
      LessEqAntisymmetric(m, m');
    }
  }

  lemma MinExists(s: set<string>)
    requires s != {}
    ensures exists m :: m in s && forall x :: x in s ==> LessEq(m, x)
  {
    var m := LeastElement(s);
  }

  lemma {:induction false} LeastElement(s: set<string>) returns (m: string)
    requires s != {}
    ensures m in s && forall x :: x in s ==> LessEq(m, x)
    decreases |s|
  {
    var y :| y in s;
    if s == {y} {
      LessEqReflexive(y);
      m := y;
    } else {
      var least := LeastElement(s - {y});
      LessEqTotal(least, y);
      if LessEq(least, y) {
        m := least;
      } else {
        LeastBelow(s, y, least);
        m := y;
      }
    }
  }

  /** An element below the least of the others is the least of all. */
  lemma LeastBelow(s: set<string>, y: string, least: string)
    requires y in s && least in s - {y} && forall x :: x in s - {y} ==> LessEq(least, x)
    requires LessEq(y, least)
    ensures forall x :: x in s ==> LessEq(y, x)
  {
    forall x | x in s ensures LessEq(y, x) {
      if x == y {
        LessEqReflexive(y);
      } else {
        LessEqTransitive(y, least, x);
      }
    }
  }

  /** The elements of a set in increasing order: `sorted` over a dictionary's keys. */
  function SortedKeys(s: set<string>): (r: seq<string>)
    ensures |r| == |s|
    ensures forall x :: x in s <==> x in r
    ensures Increasing(r)
    decreases |s|
  {
    if s == {} then []
    else
      var m := Min(s);
      var rest := SortedKeys(s - {m});
      LeastFirst(s, m, rest);
      [m] + rest
  }

  /** The least element put before the increasing list of the others gives an increasing list. */
  lemma LeastFirst(s: set<string>, m: string, rest: seq<string>)
    requires m in s && forall x :: x in s ==> LessEq(m, x)
    requires (forall x :: x in s - {m} <==> x in rest) && Increasing(rest)
    ensures Increasing([m] + rest)
  {
    forall j | 0 <= j < |rest| ensures LessEq(m, rest[j]) && m != rest[j] {
      assert rest[j] in s - {m};
    }
    var r := [m] + rest;
    forall i, j | 0 <= i < j < |r| ensures LessEq(r[i], r[j]) && r[i] != r[j] {
      assert r[j] == rest[j - 1];
      if i > 0 {
        assert r[i] == rest[i - 1];
      }
    }
  }

  /** Inserting into a sorted list before the first element it does not exceed. */
  function Insert(x: string, xs: seq<string>): (r: seq<string>)
    requires Sorted(xs)
    ensures Sorted(r)
    ensures multiset(r) == multiset(xs) + multiset{x}
    decreases |xs|
  {
    if xs == [] then [x]
    else if LessEq(x, xs[0]) then
      assert forall j :: 0 <= j < |xs| ==> LessEq(x, xs[j]) by {
        forall j | 0 <= j < |xs| ensures LessEq(x, xs[j]) {
          if j > 0 {
            LessEqTransitive(x, xs[0], xs[j]);
          }
        }
      }
      [x] + xs
    else
      LessEqTotal(x, xs[0]);
      var rest := Insert(x, xs[1..]);
      assert multiset(rest) == multiset(xs[1..]) + multiset{x};
      assert forall j :: 0 <= j < |rest| ==> LessEq(xs[0], rest[j]) by {
        forall j | 0 <= j < |rest| ensures LessEq(xs[0], rest[j]) {
          assert rest[j] in multiset(rest);
          if rest[j] != x {
            assert rest[j] in multiset(xs[1..]);
            var k :| 0 <= k < |xs[1..]| && xs[1..][k] == rest[j];
            assert xs[k + 1] == rest[j];
          }
        }
      }
      assert xs == [xs[0]] + xs[1..];
      [xs[0]] + rest
  }

  /** `sorted(xs)`: a sorted permutation of the list. */
  function Sort(xs: seq<string>): (r: seq<string>)
    ensures Sorted(r)
    ensures multiset(r) == multiset(xs)
    ensures |r| == |xs|
  {
    if xs == [] then []
    else
      var rest := Sort(xs[1..]);
      assert xs == [xs[0]] + xs[1..];
      var r := Insert(xs[0], rest);
      assert |r| == |multiset(r)|;
      r
  }

  /** The sorted permutation of a list is unique, so sorting a sorted list changes nothing. */
  lemma {:induction false} SortSorted(xs: seq<string>)
    requires Sorted(xs)
    ensures Sort(xs) == xs
  {
    SortedUnique(Sort(xs), xs);
  }

  lemma {:induction false} SortedUnique(a: seq<string>, b: seq<string>)
    requires Sorted(a) && Sorted(b) && multiset(a) == multiset(b)
    ensures a == b
    decreases |a|
  {
    assert |a| == |multiset(a)| == |multiset(b)| == |b|;
    if a != [] {
      SameLeast(a, b);
      SameRest(a, b);
      SortedTail(a);
      SortedTail(b);
      SortedUnique(a[1..], b[1..]);
      assert a == [a[0]] + a[1..] && b == [b[0]] + b[1..];
    }
  }

  /** Two sorted lists with the same elements begin with the same element. */
  lemma SameLeast(a: seq<string>, b: seq<string>)
    requires a != [] && b != []
    requires Sorted(a) && Sorted(b) && multiset(a) == multiset(b)
    ensures a[0] == b[0]
  {
    assert a[0] in multiset(b) && b[0] in multiset(a);
    var i :| 0 <= i < |b| && b[i] == a[0];
    var j :| 0 <= j < |a| && a[j] == b[0];
    if i != 0 { assert LessEq(b[0], b[i]); } else { LessEqReflexive(b[0]); }
    if j != 0 { assert LessEq(a[0], a[j]); } else { LessEqReflexive(a[0]); }
    LessEqAntisymmetric(a[0], b[0]);
  }

  /** Removing the same first element from two lists with the same elements leaves the same elements. */
  lemma SameRest(a: seq<string>, b: seq<string>)
    requires a != [] && b != [] && a[0] == b[0] && multiset(a) == multiset(b)
    ensures multiset(a[1..]) == multiset(b[1..])
  {
    assert a == [a[0]] + a[1..] && b == [b[0]] + b[1..];
    assert multiset(a) == multiset{a[0]} + multiset(a[1..]);
    assert multiset(b) == multiset{b[0]} + multiset(b[1..]);
    assert multiset(a[1..]) == multiset(a) - multiset{a[0]};
    assert multiset(b[1..]) == multiset(b) - multiset{b[0]};
  }

  lemma SortedTail(a: seq<string>)
    requires a != [] && Sorted(a)
    ensures Sorted(a[1..])
  {
    forall i, j | 0 <= i < j < |a| - 1 ensures LessEq(a[1..][i], a[1..][j]) {
      assert a[1..][i] == a[i + 1] && a[1..][j] == a[j + 1];
    }
  }
}
