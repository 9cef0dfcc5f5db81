/**
 Sorting by a comparison: what sort.Slice and sort.SliceStable promise, and the fact that a strictly
 sorted sequence is determined by its elements (so map iteration order cannot show).
 */
module Ordering {

  /** A comparison that compares a key: irreflexive, transitive, ties form classes. */
  ghost predicate WeakOrder<T(!new)>(less: (T, T) -> bool) {
    && (forall x :: !less(x, x))
    && (forall x, y, z {:trigger less(x, y), less(y, z)} :: less(x, y) && less(y, z) ==> less(x, z))
    && (forall x, y, z {:trigger less(x, z), less(x, y)} {:trigger less(x, z), less(y, z)} :: less(x, z) ==>
        less(x, y) || less(y, z))
  }

  ghost predicate Sorted<T>(less: (T, T) -> bool, s: seq<T>) {
    forall i, j | 0 <= i < j < |s| :: !less(s[j], s[i])
  }

  ghost predicate StrictlySorted<T>(less: (T, T) -> bool, s: seq<T>) {
    forall i, j | 0 <= i < j < |s| :: less(s[i], s[j])
  }

  function Insert<T>(less: (T, T) -> bool, x: T, s: seq<T>): (r: seq<T>)
    ensures multiset(r) == multiset{x} + multiset(s)
    ensures |r| == |s| + 1
  {
    if s == [] || !less(s[0], x) then [x] + s
    else
      assert s == [s[0]] + s[1..];
      [s[0]] + Insert(less, x, s[1..])
  }

  /** A stable insertion sort. */
  function Sort<T>(less: (T, T) -> bool, s: seq<T>): (r: seq<T>)
    ensures multiset(r) == multiset(s)
    ensures |r| == |s|
  {
    if s == [] then []
    else
      assert s == [s[0]] + s[1..];
      Insert(less, s[0], Sort(less, s[1..]))
  }

  lemma InsertSorts<T(!new)>(less: (T, T) -> bool, x: T, s: seq<T>)
    requires WeakOrder(less) && Sorted(less, s)
    ensures Sorted(less, Insert(less, x, s))
  {
    if s != [] && less(s[0], x) {
      var rest := Insert(less, x, s[1..]);
      InsertSorts(less, x, s[1..]);
      forall j | 0 <= j < |rest| ensures !less(rest[j], s[0]) {
        assert rest[j] in multiset(rest);
        assert rest[j] == x || rest[j] in s[1..];
      }
    } else if s != [] {
      assert forall j | 0 <= j < |s| :: less(s[j], x) ==> less(s[j], s[0]) || less(s[0], x);
    }
  }

  /** Sorting sorts, and loses and invents nothing. */
  lemma {:induction false} SortSorts<T(!new)>(less: (T, T) -> bool, s: seq<T>)
    requires WeakOrder(less)
    ensures Sorted(less, Sort(less, s))
    ensures forall x :: x in Sort(less, s) <==> x in s
  {
    if s != [] {
      SortSorts(less, s[1..]);
      InsertSorts(less, s[0], Sort(less, s[1..]));
    }
    forall x ensures x in Sort(less, s) <==> x in s {
      assert x in Sort(less, s) <==> x in multiset(Sort(less, s));
      assert x in s <==> x in multiset(s);
    }
  }

  ghost predicate Distinct<T>(s: seq<T>) {
    forall i, j | 0 <= i < j < |s| :: s[i] != s[j]
  }

  lemma DistinctOfCons<T>(x: T, t: seq<T>)
    ensures Distinct([x] + t) <==> x !in t && Distinct(t)
  {
    var s := [x] + t;
    assert forall k | 0 <= k < |t| :: s[k + 1] == t[k];
    if Distinct(s) {
      assert forall k | 0 <= k < |t| :: t[k] == s[k + 1] != s[0];
      assert forall i, j | 0 <= i < j < |t| :: t[i] == s[i + 1] && t[j] == s[j + 1] && t[i] != t[j];
    }
  }

  lemma {:induction false} DistinctIsAMultisetMatter<T>(s: seq<T>)
    ensures Distinct(s) <==> forall x | x in multiset(s) :: multiset(s)[x] == 1
  {
    if s != [] {
      var x, t := s[0], s[1..];
      assert s == [x] + t;
      DistinctIsAMultisetMatter(t);
      DistinctOfCons(x, t);
      var m := multiset(t);
      assert multiset(s) == multiset{x} + m;
      assert x in t <==> x in m;
      if forall y | y in multiset(s) :: multiset(s)[y] == 1 {
        assert x in multiset(s);
        forall y | y in m ensures m[y] == 1 { assert y in multiset(s); }
      }
      if x !in t && forall y | y in m :: m[y] == 1 {
        forall y | y in multiset(s) ensures multiset(s)[y] == 1 { assert y != x ==> y in m; }
      }
    }
  }

  /** When distinct elements never tie, the sorted sequence is strictly sorted. */
  lemma SortIsStrict<T(!new)>(less: (T, T) -> bool, s: seq<T>)
    requires WeakOrder(less) && Distinct(s)
    requires forall x, y | x in s && y in s && x != y :: less(x, y) || less(y, x)
    ensures StrictlySorted(less, Sort(less, s))
  {
    SortSorts(less, s);
    var r := Sort(less, s);
    DistinctIsAMultisetMatter(s);
    DistinctIsAMultisetMatter(r);
    forall i, j | 0 <= i < j < |r| ensures less(r[i], r[j]) {
      assert r[i] != r[j] && r[i] in r && r[j] in r;
    }
  }

  /** The strictly sorted enumeration of a set of elements is unique. */
  lemma {:induction false} StrictlySortedUnique<T(!new)>(less: (T, T) -> bool, a: seq<T>, b: seq<T>)
    requires WeakOrder(less) && StrictlySorted(less, a) && StrictlySorted(less, b)
    requires forall x :: x in a <==> x in b
    ensures a == b
  {
    assert b != [] ==> b[0] in a;
    if a != [] {
      assert a[0] in b && b[0] in a;
      var k :| 0 <= k < |b| && b[k] == a[0];
      var m :| 0 <= m < |a| && a[m] == b[0];
      assert k == 0 && m == 0;
      var a', b' := a[1..], b[1..];
      forall x ensures x in a' <==> x in b' {
        if x in a' { var i :| 0 <= i < |a'| && a'[i] == x; assert less(a[0], a[i + 1]) && a[i + 1] in b; }
        if x in b' { var i :| 0 <= i < |b'| && b'[i] == x; assert less(b[0], b[i + 1]) && b[i + 1] in a; }
      }
      StrictlySortedUnique(less, a', b');
      assert a == [a[0]] + a' && b == [b[0]] + b';
    }
  }

  function Keep<T>(p: T -> bool, s: seq<T>): seq<T> {
    if s == [] then [] else (if p(s[0]) then [s[0]] else []) + Keep(p, s[1..])
  }

  function Take<T>(s: seq<T>, limit: nat): seq<T> {
    if |s| > limit then s[..limit] else s
  }

  /** The first n of two sequences in a row. */
  lemma TakeOfBoth<T>(a: seq<T>, b: seq<T>, n: nat)
    ensures |a| >= n ==> Take(a + b, n) == a[..n]
    ensures |a| < n ==> Take(a + b, n) == a + Take(b, n - |a|)
  {
  }

  /** An element taken that is not in the first sequence leaves none of that behind; one that is, none before it. */
  lemma TakenInOrder<T(!new)>(less: (T, T) -> bool, a: seq<T>, b: seq<T>, n: nat, x: T, y: T)
    requires WeakOrder(less) && StrictlySorted(less, a)
    requires x in Take(a + b, n) && y in a && (x in a ==> less(y, x))
    ensures y in Take(a + b, n)
  {
    var dealt := Take(a + b, n);
    var k :| 0 <= k < |dealt| && dealt[k] == x;
    var m :| 0 <= m < |a| && a[m] == y;
    assert k < |a| ==> a[k] == x;
    assert !(less(x, y) && less(y, x)) || less(x, x);
    assert m < k;
    assert dealt[m] == y;
  }

  lemma {:induction false} KeepIsAFilter<T>(p: T -> bool, s: seq<T>)
    ensures forall x :: x in Keep(p, s) <==> x in s && p(x)
    ensures |Keep(p, s)| <= |s|
  {
    if s != [] { KeepIsAFilter(p, s[1..]); }
  }

  lemma {:induction false} KeepAll<T(!new)>(p: T -> bool, s: seq<T>)
    requires forall x :: p(x)
    ensures Keep(p, s) == s
  {
    if s != [] { KeepAll(p, s[1..]); }
  }

  /** Position i holds the first of the least elements. */
  ghost predicate FirstLeast<T>(less: (T, T) -> bool, s: seq<T>, i: nat)
    requires i < |s|
  {
    && (forall j | 0 <= j < |s| :: !less(s[j], s[i]))
    && (forall j | 0 <= j < i :: less(s[i], s[j]))
  }

  lemma FirstLeastOfCons<T(!new)>(less: (T, T) -> bool, x: T, s: seq<T>, k: nat)
    requires WeakOrder(less) && k < |s| && FirstLeast(less, s, k)
    ensures less(s[k], x) ==> FirstLeast(less, [x] + s, k + 1)
    ensures !less(s[k], x) ==> FirstLeast(less, [x] + s, 0)
  {
    var t := [x] + s;
    assert forall j | 0 < j < |t| :: t[j] == s[j - 1];
    var least := s[k];
    assert !(less(least, x) && less(x, least)) || less(least, least);
    assert forall j | 0 <= j < |s| :: less(s[j], x) ==> less(s[j], least) || less(least, x);
  }

  /** The head of a stable sort is the first of the least elements. */
  lemma {:induction false} SortHead<T(!new)>(less: (T, T) -> bool, s: seq<T>) returns (i: nat)
    requires WeakOrder(less) && s != []
    ensures i < |s| && Sort(less, s)[0] == s[i]
    ensures FirstLeast(less, s, i)
  {
    if |s| == 1 {
      assert Sort(less, s[1..]) == [];
      i := 0;
    } else {
      var k := SortHead(less, s[1..]);
      assert s == [s[0]] + s[1..];
      FirstLeastOfCons(less, s[0], s[1..], k);
      i := if less(s[1..][k], s[0]) then k + 1 else 0;
    }
  }

  /** The distinct elements of a sequence are at most as many as its positions, and as many only without repeats. */
  lemma {:induction false} DistinctCount<T>(s: seq<T>)
    ensures |set x | x in s| <= |s|
    ensures |set x | x in s| == |s| <==> Distinct(s)
  {
    if s == [] {
      assert (set x | x in s) == {};
    } else {
      var n := |s| - 1;
      var rest, last := s[..n], s[n];
      DistinctCount(rest);
      assert s == rest + [last];
      var few := set x | x in rest;
      assert (set x | x in s) == few + {last};
      if last in few {
        assert few + {last} == few;
        var k :| 0 <= k < n && rest[k] == last;
        assert s[k] == s[n];
      } else {
        assert Distinct(s) <==> Distinct(rest) by {
          assert forall i, j | 0 <= i < j < n :: s[i] == rest[i] && s[j] == rest[j];
          assert forall i | 0 <= i < n :: s[i] in rest;
        }
      }
    }
  }
}
