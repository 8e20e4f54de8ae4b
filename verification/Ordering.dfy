/** Sorting by an arbitrary order, as the specification of the `sorted` calls of the
    program, and the code-point order on strings. */
module Ordering {

  /** `le` is a total preorder on the elements of `s`. */
  ghost predicate OrderOn<T(!new)>(s: seq<T>, le: (T, T) -> bool) {
    && (forall x, y | x in s && y in s :: le(x, y) || le(y, x))
    && (forall x, y, z | x in s && y in s && z in s :: le(x, y) && le(y, z) ==> le(x, z))
  }

  /** No two different elements of `s` are tied. */
  ghost predicate NoTies<T(!new)>(s: seq<T>, le: (T, T) -> bool) {
    forall x, y | x in s && y in s :: le(x, y) && le(y, x) ==> x == y
  }

  ghost predicate Sorted<T>(s: seq<T>, le: (T, T) -> bool) {
    forall i, j | 0 <= i < j < |s| :: le(s[i], s[j])
  }

  ghost predicate Distinct<T>(s: seq<T>) {
    forall i, j | 0 <= i < j < |s| :: s[i] != s[j]
  }

  function Insert<T>(x: T, s: seq<T>, le: (T, T) -> bool): (r: seq<T>)
    ensures multiset(r) == multiset([x]) + multiset(s)
    ensures |r| == |s| + 1
  {
    if s == [] || le(x, s[0]) then
      [x] + s
    else
      assert s == [s[0]] + s[1..];
      [s[0]] + Insert(x, s[1..], le)
  }

  /** Stable insertion sort. */
  function Sort<T>(s: seq<T>, le: (T, T) -> bool): (r: seq<T>)
    ensures multiset(r) == multiset(s)
    ensures |r| == |s|
  {
    if s == [] then []
    else
      assert s == [s[0]] + s[1..];
      Insert(s[0], Sort(s[1..], le), le)
  }

  /** The elements of `s` that tie with `x`, in order. */
  function Tied<T>(s: seq<T>, x: T, le: (T, T) -> bool): seq<T> {
    if s == [] then []
    else (if le(s[0], x) && le(x, s[0]) then [s[0]] else []) + Tied(s[1..], x, le)
  }

  lemma {:induction false} InsertStable<T(!new)>(y: T, s: seq<T>, x: T, le: (T, T) -> bool)
    requires OrderOn([x, y] + s, le)
    ensures Tied(Insert(y, s, le), x, le) == Tied([y] + s, x, le)
  {
    assert x in [x, y] + s && y in [x, y] + s;
    if s != [] && !le(y, s[0]) {
      var rest := s[1..];
      assert s[0] in [x, y] + s;
      assert forall z | z in [x, y] + rest :: z in [x, y] + s;
      InsertStable(y, rest, x, le);
      assert ([y] + s)[1..] == s && ([y] + rest)[1..] == rest;
    }
  }

  /** Sorting keeps the order of elements that tie. */
  lemma {:induction false} SortStable<T(!new)>(s: seq<T>, x: T, le: (T, T) -> bool)
    requires OrderOn([x] + s, le)
    ensures Tied(Sort(s, le), x, le) == Tied(s, x, le)
  {
    if s != [] {
      var rest := s[1..];
      assert forall z | z in [x] + rest :: z in [x] + s;
      SortStable(rest, x, le);
      SameElements(Sort(rest, le), rest);
      forall z | z in [x, s[0]] + Sort(rest, le)
        ensures z in [x] + s
      {
      }
      InsertStable(s[0], Sort(rest, le), x, le);
      assert ([s[0]] + Sort(rest, le))[1..] == Sort(rest, le);
    }
  }

  lemma SameElements<T>(a: seq<T>, b: seq<T>)
    requires multiset(a) == multiset(b)
    ensures forall x :: x in a <==> x in b
    ensures |a| == |b|
  {
    forall x
      ensures x in a <==> x in b
    {
      assert x in a <==> x in multiset(a);
      assert x in b <==> x in multiset(b);
    }
    assert |multiset(a)| == |a| && |multiset(b)| == |b|;
  }

  lemma {:induction false} InsertSorted<T(!new)>(x: T, s: seq<T>, le: (T, T) -> bool)
    requires OrderOn([x] + s, le) && Sorted(s, le)
    ensures Sorted(Insert(x, s, le), le)
  {
    if s == [] || le(x, s[0]) {
      assert forall j | 0 <= j < |s| :: le(x, s[j]) by {
        if s != [] {
          assert x in [x] + s && s[0] in [x] + s;
          assert forall j | 0 <= j < |s| :: s[j] in [x] + s;
        }
      }
    } else {
      var rest := s[1..];
      assert forall y | y in [x] + rest :: y in [x] + s;
      InsertSorted(x, rest, le);
      var r := Insert(x, rest, le);
      SameElements(r, [x] + rest);
      forall j | 0 <= j < |r|
        ensures le(s[0], r[j])
      {
        assert r[j] in [x] + rest;
        assert x in [x] + s && s[0] in [x] + s;
      }
    }
  }

  lemma {:induction false} SortSorts<T(!new)>(s: seq<T>, le: (T, T) -> bool)
    requires OrderOn(s, le)
    ensures Sorted(Sort(s, le), le)
  {
    if s != [] {
      SortSorts(s[1..], le);
      var r := Sort(s[1..], le);
      SameElements(r, s[1..]);
      assert forall y | y in [s[0]] + r :: y in s;
      InsertSorted(s[0], r, le);
    }
  }

  lemma MultisetTail<T>(s: seq<T>)
    requires s != []
    ensures multiset(s) == multiset{s[0]} + multiset(s[1..])
    ensures multiset(s[1..]) == multiset(s) - multiset{s[0]}
  {
    assert s == [s[0]] + s[1..];
  }

  lemma MultisetWithout<T>(s: seq<T>, i: nat)
    requires i < |s|
    ensures multiset(s[..i] + s[i + 1..]) == multiset(s) - multiset{s[i]}
  {
    assert s == s[..i] + [s[i]] + s[i + 1..];
  }

  lemma SortedHead<T(!new)>(a: seq<T>, b: seq<T>, le: (T, T) -> bool)
    requires multiset(a) == multiset(b) && OrderOn(a, le) && NoTies(a, le) && a != []
    requires Sorted(a, le) && Sorted(b, le)
    ensures b != [] && a[0] == b[0]
  {
    SameElements(a, b);
    assert a[0] in b && b[0] in a;
    assert le(a[0], a[0]) && le(b[0], b[0]);
  }

  lemma OrderTail<T(!new)>(s: seq<T>, le: (T, T) -> bool)
    requires s != [] && OrderOn(s, le) && NoTies(s, le) && Sorted(s, le)
    ensures OrderOn(s[1..], le) && NoTies(s[1..], le) && Sorted(s[1..], le)
  {
    assert forall x | x in s[1..] :: x in s;
  }

  lemma SortedTail<T>(s: seq<T>, le: (T, T) -> bool)
    requires s != [] && Sorted(s, le)
    ensures Sorted(s[1..], le)
  {
  }

  /** Two sorted arrangements of the same elements are equal when nothing ties. */
  lemma {:induction false} SortedUnique<T(!new)>(a: seq<T>, b: seq<T>, le: (T, T) -> bool)
    requires multiset(a) == multiset(b) && OrderOn(a, le) && NoTies(a, le)
    requires Sorted(a, le) && Sorted(b, le)
    ensures a == b
  {
    hide OrderOn, NoTies, Sorted;
    if a == [] {
      assert |multiset(b)| == |multiset(a)| == 0;
    } else {
      SortedHead(a, b, le);
      MultisetTail(a);
      MultisetTail(b);
      OrderTail(a, le);
      SortedTail(b, le);
      SortedUnique(a[1..], b[1..], le);
      assert a == [a[0]] + a[1..] && b == [b[0]] + b[1..];
    }
  }

  /** Sorting forgets the input order. */
  lemma SortCanonical<T(!new)>(a: seq<T>, b: seq<T>, le: (T, T) -> bool)
    requires multiset(a) == multiset(b) && OrderOn(a, le) && NoTies(a, le)
    ensures Sort(a, le) == Sort(b, le)
  {
    SameElements(a, b);
    SameElements(Sort(a, le), a);
    SortSorts(a, le);
    SortSorts(b, le);
    SortedUnique(Sort(a, le), Sort(b, le), le);
  }

  lemma DistinctIffSimple<T>(s: seq<T>)
    ensures Distinct(s) <==> forall x :: multiset(s)[x] <= 1
  {
    if Distinct(s) {
      forall x
        ensures multiset(s)[x] <= 1
      {
        DistinctCount(s, x);
      }
    } else {
      var i, j :| 0 <= i < j < |s| && s[i] == s[j];
      assert s == s[..j] + s[j..];
      assert s[i] in s[..j] && s[j] in s[j..];
      assert s[i] == s[..j][i] && s[j] == s[j..][0];
      assert multiset(s)[s[i]] == multiset(s[..j])[s[i]] + multiset(s[j..])[s[i]];
      assert multiset(s)[s[i]] >= 2;
    }
  }

  lemma {:induction false} DistinctCount<T>(s: seq<T>, x: T)
    requires Distinct(s)
    ensures multiset(s)[x] == if x in s then 1 else 0
  {
    if s != [] {
      DistinctCount(s[1..], x);
      assert s == [s[0]] + s[1..];
      assert multiset(s)[x] == multiset([s[0]])[x] + multiset(s[1..])[x];
    }
  }

  lemma PermutationDistinct<T>(a: seq<T>, b: seq<T>)
    requires multiset(a) == multiset(b) && Distinct(a)
    ensures Distinct(b)
  {
    DistinctIffSimple(a);
    DistinctIffSimple(b);
  }

  /** Python's order on `str`: by code point, a proper prefix first. */
  predicate StringLe(a: string, b: string) {
    if a == [] then true
    else if b == [] then false
    else if a[0] == b[0] then StringLe(a[1..], b[1..])
    else a[0] < b[0]
  }

  /** The order is lexicographic: the first character that differs decides, and without one the
      shorter text comes first. */
  lemma {:induction false} StringLeIff(a: string, b: string)
    ensures StringLe(a, b) <==>
      a <= b || exists i :: 0 <= i < |a| && i < |b| && a[i] < b[i] && a[..i] == b[..i]
  {
    if a != [] && b != [] && a[0] == b[0] {
      StringLeIff(a[1..], b[1..]);
      assert a == [a[0]] + a[1..] && b == [b[0]] + b[1..];
      if i :| 0 <= i < |a| && i < |b| && a[i] < b[i] && a[..i] == b[..i] {
        assert i > 0 && a[1..][i - 1] == a[i] && b[1..][i - 1] == b[i];
        assert a[1..][..i - 1] == a[..i][1..] && b[1..][..i - 1] == b[..i][1..];
      }
      if i :| 0 <= i < |a[1..]| && i < |b[1..]| && a[1..][i] < b[1..][i] && a[1..][..i] == b[1..][..i] {
        assert a[..i + 1] == [a[0]] + a[1..][..i] && b[..i + 1] == [b[0]] + b[1..][..i];
      }
    } else if a != [] && b != [] {
      assert a[..0] == b[..0];
      assert forall i | 0 < i < |a| && i < |b| :: a[..i][0] == a[0] && b[..i][0] == b[0];
    }
  }

  lemma {:induction false} StringLeTotal(a: string, b: string)
    ensures StringLe(a, b) || StringLe(b, a)
    ensures StringLe(a, b) && StringLe(b, a) ==> a == b
  {
    if a != [] && b != [] && a[0] == b[0] {
      StringLeTotal(a[1..], b[1..]);
      assert a == [a[0]] + a[1..] && b == [b[0]] + b[1..];
    }
  }

  lemma {:induction false} StringLeTransitive(a: string, b: string, c: string)
    requires StringLe(a, b) && StringLe(b, c)
    ensures StringLe(a, c)
  {
    if a != [] && b != [] && c != [] && a[0] == b[0] && b[0] == c[0] {
      StringLeTransitive(a[1..], b[1..], c[1..]);
    }
  }

  lemma StringOrder(s: seq<string>)
    ensures OrderOn(s, StringLe) && NoTies(s, StringLe)
  {
    forall x, y
      ensures (StringLe(x, y) || StringLe(y, x)) && (StringLe(x, y) && StringLe(y, x) ==> x == y)
    {
      StringLeTotal(x, y);
    }
    forall x, y, z | StringLe(x, y) && StringLe(y, z)
      ensures StringLe(x, z)
    {
      StringLeTransitive(x, y, z);
    }
  }
}
