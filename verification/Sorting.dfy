/**
 Stable sorting by a total preorder, the contract of `Array.prototype.sort`. A stable sorted
 rearrangement is unique (`StableSortIsUnique`), so the function stands for the library's sort.
 */
module Sorting {

  ghost predicate Preorder<T(!new)>(leq: (T, T) -> bool) {
    && (forall x, y :: leq(x, y) || leq(y, x))
    && (forall x, y, z :: leq(x, y) && leq(y, z) ==> leq(x, z))
  }

  type Collation = (string, string) -> int

  /** What `localeCompare` promises: signs that form a total preorder. */
  ghost predicate IsCollation(lc: Collation) {
    && (forall x, y :: lc(x, y) <= 0 <==> 0 <= lc(y, x))
    && (forall x, y, z :: lc(x, y) <= 0 && lc(y, z) <= 0 ==> lc(x, z) <= 0)
  }

  function Insert<T>(leq: (T, T) -> bool, x: T, s: seq<T>): seq<T> {
    if s == [] then [x]
    else if leq(x, s[0]) then [x] + s
    else [s[0]] + Insert(leq, x, s[1..])
  }

  function Sort<T>(leq: (T, T) -> bool, s: seq<T>): seq<T> {
    if s == [] then [] else Insert(leq, s[0], Sort(leq, s[1..]))
  }

  function Filter<T>(p: T -> bool, s: seq<T>): seq<T> {
    if s == [] then []
    else if p(s[0]) then [s[0]] + Filter(p, s[1..])
    else Filter(p, s[1..])
  }

  function Map<T, U>(f: T -> U, s: seq<T>): (r: seq<U>)
    ensures |r| == |s| && forall i :: 0 <= i < |s| ==> r[i] == f(s[i])
  {
    seq(|s|, i requires 0 <= i < |s| => f(s[i]))
  }

  /** The first element is below all others, and so on down the sequence. */
  ghost predicate Sorted<T>(leq: (T, T) -> bool, s: seq<T>) {
    s == [] || ((forall x :: x in s ==> leq(s[0], x)) && Sorted(leq, s[1..]))
  }

  lemma {:induction false} SortedAt<T(!new)>(leq: (T, T) -> bool, s: seq<T>, i: nat, j: nat)
    requires Sorted(leq, s) && i < j < |s|
    ensures leq(s[i], s[j])
  {
    if i != 0 { SortedAt(leq, s[1..], i - 1, j - 1); }
  }

  lemma {:induction false} InsertLaws<T(!new)>(leq: (T, T) -> bool, x: T, s: seq<T>)
    requires Preorder(leq) && Sorted(leq, s)
    ensures Sorted(leq, Insert(leq, x, s))
    ensures multiset(Insert(leq, x, s)) == multiset(s) + multiset{x}
    ensures forall y :: y in Insert(leq, x, s) <==> y == x || y in s
  {
    if s == [] {
    } else if leq(x, s[0]) {
      assert ([x] + s)[1..] == s;
    } else {
      InsertLaws(leq, x, s[1..]);
      assert s == [s[0]] + s[1..];
      var r := Insert(leq, x, s[1..]);
      assert ([s[0]] + r)[1..] == r;
    }
  }

  /** The result is sorted and a permutation of the input. */
  lemma {:induction false} SortLaws<T(!new)>(leq: (T, T) -> bool, s: seq<T>)
    requires Preorder(leq)
    ensures Sorted(leq, Sort(leq, s))
    ensures multiset(Sort(leq, s)) == multiset(s)
  {
    if s != [] {
      SortLaws(leq, s[1..]);
      InsertLaws(leq, s[0], Sort(leq, s[1..]));
      assert s == [s[0]] + s[1..];
    }
  }

  lemma {:induction false} SortOfSorted<T(!new)>(leq: (T, T) -> bool, s: seq<T>)
    requires Preorder(leq) && Sorted(leq, s)
    ensures Sort(leq, s) == s
  {
    if s != [] {
      SortOfSorted(leq, s[1..]);
      if s[1..] != [] { assert s[1] in s; }
    }
  }

  lemma {:induction false} FilterMembers<T(!new)>(p: T -> bool, s: seq<T>)
    ensures forall x :: x in Filter(p, s) <==> x in s && p(x)
  {
    if s != [] {
      FilterMembers(p, s[1..]);
      assert s == [s[0]] + s[1..];
    }
  }

  lemma {:induction false} FilterInsert<T(!new)>(leq: (T, T) -> bool, p: T -> bool, x: T, s: seq<T>)
    requires Preorder(leq) && Sorted(leq, s)
    ensures Filter(p, Insert(leq, x, s)) == if p(x) then Insert(leq, x, Filter(p, s)) else Filter(p, s)
  {
    if s == [] {
      assert [x][1..] == [];
    } else if leq(x, s[0]) {
      assert ([x] + s)[1..] == s;
      FilterMembers(p, s);
      var f := Filter(p, s);
      if p(x) && f != [] {
        assert f[0] in f;
        assert leq(x, f[0]);
      }
    } else {
      FilterInsert(leq, p, x, s[1..]);
      var r := Insert(leq, x, s[1..]);
      assert ([s[0]] + r)[1..] == r;
      var f := Filter(p, s[1..]);
      if p(s[0]) { assert ([s[0]] + f)[1..] == f; }
    }
  }

  lemma SortCons<T>(leq: (T, T) -> bool, x: T, s: seq<T>)
    ensures Sort(leq, [x] + s) == Insert(leq, x, Sort(leq, s))
  {
    assert ([x] + s)[1..] == s;
  }

  /** Leaving elements out before or after sorting is the same. */
  lemma {:induction false} FilterSort<T(!new)>(leq: (T, T) -> bool, p: T -> bool, s: seq<T>)
    requires Preorder(leq)
    ensures Filter(p, Sort(leq, s)) == Sort(leq, Filter(p, s))
  {
    if s != [] {
      FilterSort(leq, p, s[1..]);
      SortLaws(leq, s[1..]);
      FilterInsert(leq, p, s[0], Sort(leq, s[1..]));
      if p(s[0]) { SortCons(leq, s[0], Filter(p, s[1..])); }
    }
  }

  lemma {:induction false} MapInsert<T, U>(leq: (T, T) -> bool, leq': (U, U) -> bool, f: T -> U, x: T, s: seq<T>)
    requires forall a, b :: a in [x] + s && b in [x] + s ==> (leq(a, b) <==> leq'(f(a), f(b)))
    ensures Map(f, Insert(leq, x, s)) == Insert(leq', f(x), Map(f, s))
  {
    if s != [] {
      MapInsert(leq, leq', f, x, s[1..]);
      assert Map(f, s)[1..] == Map(f, s[1..]);
      assert x in [x] + s && s[0] in [x] + s;
    }
  }

  /** Sorting looks at its elements through the comparison only. */
  lemma {:induction false} MapSort<T(!new), U>(leq: (T, T) -> bool, leq': (U, U) -> bool, f: T -> U, s: seq<T>)
    requires Preorder(leq)
    requires forall a, b :: leq(a, b) <==> leq'(f(a), f(b))
    ensures Map(f, Sort(leq, s)) == Sort(leq', Map(f, s))
  {
    if s != [] {
      MapSort(leq, leq', f, s[1..]);
      MapInsert(leq, leq', f, s[0], Sort(leq, s[1..]));
      assert Map(f, s)[1..] == Map(f, s[1..]);
    }
  }

  function Like<T>(leq: (T, T) -> bool, x: T): T -> bool {
    y => leq(x, y) && leq(y, x)
  }

  lemma {:induction false} LikeFilterSort<T(!new)>(leq: (T, T) -> bool, x: T, s: seq<T>)
    requires Preorder(leq)
    ensures Filter(Like(leq, x), Sort(leq, s)) == Filter(Like(leq, x), s)
  {
    var p := Like(leq, x);
    FilterSort(leq, p, s);
    FilterMembers(p, s);
    AllLikeIsSorted(leq, Filter(p, s), x);
    SortOfSorted(leq, Filter(p, s));
  }

  lemma {:induction false} AllLikeIsSorted<T(!new)>(leq: (T, T) -> bool, s: seq<T>, x: T)
    requires Preorder(leq) && forall y :: y in s ==> Like(leq, x)(y)
    ensures Sorted(leq, s)
  {
    if s != [] {
      AllLikeIsSorted(leq, s[1..], x);
      forall y | y in s
        ensures leq(s[0], y)
      {
        assert Like(leq, x)(s[0]) && Like(leq, x)(y);
      }
    }
  }

  /** Two sorted sequences with the same elements in the same order within each class are equal. */
  lemma {:induction false} SortedByClasses<T(!new)>(leq: (T, T) -> bool, t: seq<T>, u: seq<T>)
    requires Preorder(leq) && Sorted(leq, t) && Sorted(leq, u)
    requires forall x :: Filter(Like(leq, x), t) == Filter(Like(leq, x), u)
    ensures t == u
  {
    if t == [] {
      forall x | x in u
        ensures false
      {
        FilterMembers(Like(leq, x), u);
      }
    } else if u == [] {
      FilterMembers(Like(leq, t[0]), t);
    } else {
      FilterMembers(Like(leq, t[0]), t);
      FilterMembers(Like(leq, t[0]), u);
      FilterMembers(Like(leq, u[0]), t);
      FilterMembers(Like(leq, u[0]), u);
      assert t[0] in Filter(Like(leq, t[0]), u);
      assert u[0] in Filter(Like(leq, u[0]), t);
      assert leq(t[0], u[0]) && leq(u[0], t[0]);
      assert Filter(Like(leq, t[0]), t)[0] == t[0];
      assert Filter(Like(leq, t[0]), u)[0] == u[0];
      forall x
        ensures Filter(Like(leq, x), t[1..]) == Filter(Like(leq, x), u[1..])
      {
        var p := Like(leq, x);
        var n := if p(t[0]) then 1 else 0;
        assert Filter(p, t)[n..] == Filter(p, t[1..]) && Filter(p, u)[n..] == Filter(p, u[1..]);
      }
      SortedByClasses(leq, t[1..], u[1..]);
    }
  }

  /** Any sorted rearrangement that keeps equivalent elements in order is `Sort`. */
  lemma StableSortIsUnique<T(!new)>(leq: (T, T) -> bool, s: seq<T>, t: seq<T>)
    requires Preorder(leq)
    ensures t == Sort(leq, s) <==>
            Sorted(leq, t) && forall x :: Filter(Like(leq, x), t) == Filter(Like(leq, x), s)
  {
    SortLaws(leq, s);
    forall x
      ensures Filter(Like(leq, x), Sort(leq, s)) == Filter(Like(leq, x), s)
    {
      LikeFilterSort(leq, x, s);
    }
    if Sorted(leq, t) && forall x :: Filter(Like(leq, x), t) == Filter(Like(leq, x), s) {
      SortedByClasses(leq, t, Sort(leq, s));
    }
  }

  lemma MultisetTail<T>(s: seq<T>)
    requires s != []
    ensures multiset(s) == multiset{s[0]} + multiset(s[1..])
  {
    assert s == [s[0]] + s[1..];
  }

  /** Where no two elements tie, there is only one sorted order. */
  lemma {:induction false} SortedOnce<T(!new)>(leq: (T, T) -> bool, s: seq<T>, t: seq<T>)
    requires Preorder(leq) && Sorted(leq, s) && Sorted(leq, t) && multiset(s) == multiset(t)
    requires forall a, b :: a in s && b in s && leq(a, b) && leq(b, a) ==> a == b
    ensures s == t
  {
    assert |s| == |multiset(s)| == |multiset(t)| == |t|;
    if s != [] {
      assert t[0] in multiset(s) && s[0] in multiset(t);
      assert t[0] in s && s[0] in t && leq(s[0], s[0]) && leq(t[0], t[0]);
      assert leq(s[0], t[0]) && leq(t[0], s[0]);
      MultisetTail(s);
      MultisetTail(t);
      assert multiset(s[1..]) == multiset(s) - multiset{s[0]} == multiset(t[1..]);
      SortedOnce(leq, s[1..], t[1..]);
    }
  }

  ghost predicate DistinctBy<T, K>(key: T -> K, s: seq<T>) {
    forall i, j :: 0 <= i < j < |s| ==> key(s[i]) != key(s[j])
  }

  lemma TwiceIsTwice<T>(s: seq<T>, i: nat, j: nat)
    requires i < j < |s| && s[i] == s[j]
    ensures multiset(s)[s[i]] >= 2
  {
    var rest := s[i + 1..j] + [s[j]] + s[j + 1..];
    assert s == s[..i] + [s[i]] + rest;
    assert multiset(s) == multiset(s[..i]) + multiset{s[i]} + multiset(rest);
    assert s[j] in rest;
  }

  lemma {:induction false} OnceIsOnce<T, K>(key: T -> K, s: seq<T>, x: T)
    requires DistinctBy(key, s)
    ensures multiset(s)[x] <= 1
  {
    if s != [] {
      OnceIsOnce(key, s[1..], x);
      MultisetTail(s);
      if s[0] == x { assert x !in s[1..]; }
    }
  }

  /** Distinct keys stay distinct in any order. */
  lemma DistinctInAnyOrder<T, K>(key: T -> K, s: seq<T>, t: seq<T>)
    requires DistinctBy(key, s) && multiset(t) == multiset(s)
    ensures DistinctBy(key, t)
  {
    forall i, j | 0 <= i < j < |t|
      ensures key(t[i]) != key(t[j])
    {
      if key(t[i]) == key(t[j]) {
        assert t[i] in multiset(s) && t[j] in multiset(s);
        assert t[i] == t[j];
        TwiceIsTwice(t, i, j);
        OnceIsOnce(key, s, t[i]);
      }
    }
  }
}
