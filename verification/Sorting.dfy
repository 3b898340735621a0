/**
 Go's `slices.SortStableFunc` and `slices.SortFunc`: what a stable sort by a
 comparison is, that there is only one, and an in-place insertion sort that is it.
 */
module Sorting {

  ghost predicate TotalPreorder<T(!new)>(leq: (T, T) -> bool) {
    && (forall x, y :: leq(x, y) || leq(y, x))
    && (forall x, y, z :: leq(x, y) && leq(y, z) ==> leq(x, z))
  }

  predicate Sorted<T>(leq: (T, T) -> bool, s: seq<T>) {
    forall i, j :: 0 <= i < j < |s| ==> leq(s[i], s[j])
  }

  /** `x` goes behind everything it does not have to precede. */
  function Insert<T>(leq: (T, T) -> bool, s: seq<T>, x: T): (r: seq<T>)
    ensures |r| == |s| + 1
  {
    if s == [] || leq(s[|s| - 1], x) then s + [x]
    else Insert(leq, s[..|s| - 1], x) + [s[|s| - 1]]
  }

  function Sort<T>(leq: (T, T) -> bool, s: seq<T>): (r: seq<T>)
    ensures |r| == |s|
  {
    if s == [] then [] else Insert(leq, Sort(leq, s[..|s| - 1]), s[|s| - 1])
  }

  // ---------------------------------------------------- sorted and a permutation

  lemma {:induction false} InsertMultiset<T>(leq: (T, T) -> bool, s: seq<T>, x: T)
    ensures multiset(Insert(leq, s, x)) == multiset(s) + multiset{x}
  {
    if s != [] && !leq(s[|s| - 1], x) {
      InsertMultiset(leq, s[..|s| - 1], x);
      assert s == s[..|s| - 1] + [s[|s| - 1]];
    }
  }

  lemma {:induction false} InsertSorted<T(!new)>(leq: (T, T) -> bool, s: seq<T>, x: T)
    requires TotalPreorder(leq) && Sorted(leq, s)
    ensures Sorted(leq, Insert(leq, s, x))
    ensures forall y :: y in Insert(leq, s, x) ==> y in s || y == x
  {
    if s != [] {
      var last := s[|s| - 1];
      if leq(last, x) {
        forall i | 0 <= i < |s| ensures leq(s[i], x) {
          assert i < |s| - 1 ==> leq(s[i], last);
        }
      } else {
        InsertSorted(leq, s[..|s| - 1], x);
        var front := Insert(leq, s[..|s| - 1], x);
        forall i | 0 <= i < |front| ensures leq(front[i], last) {
          assert front[i] in front;
        }
      }
    }
  }

  lemma {:induction false} SortSorts<T(!new)>(leq: (T, T) -> bool, s: seq<T>)
    requires TotalPreorder(leq)
    ensures Sorted(leq, Sort(leq, s)) && multiset(Sort(leq, s)) == multiset(s)
  {
    if s != [] {
      var front, last := s[..|s| - 1], s[|s| - 1];
      SortSorts(leq, front);
      InsertSorted(leq, Sort(leq, front), last);
      InsertMultiset(leq, Sort(leq, front), last);
      assert s == front + [last];
    }
  }

  // -------------------------------------------------------------------- stability

  /** The elements of `s` that compare equal to `x`, in their order. */
  function Class<T>(leq: (T, T) -> bool, s: seq<T>, x: T): seq<T> {
    if s == [] then []
    else
      var front, y := Class(leq, s[..|s| - 1], x), s[|s| - 1];
      if leq(x, y) && leq(y, x) then front + [y] else front
  }

  /** Elements that compare equal keep their order. */
  ghost predicate SameClasses<T(!new)>(leq: (T, T) -> bool, s: seq<T>, t: seq<T>) {
    forall x :: Class(leq, s, x) == Class(leq, t, x)
  }

  lemma {:induction false} InsertClass<T(!new)>(leq: (T, T) -> bool, s: seq<T>, y: T, x: T)
    requires TotalPreorder(leq)
    ensures Class(leq, Insert(leq, s, y), x) == Class(leq, s + [y], x)
  {
    assert (s + [y])[..|s|] == s;
    if s != [] && !leq(s[|s| - 1], y) {
      var front, last := s[..|s| - 1], s[|s| - 1];
      InsertClass(leq, front, y, x);
      assert (front + [y])[..|front|] == front;
      assert Insert(leq, s, y)[..|s|] == Insert(leq, front, y);
      // `last` comes strictly after `y`, so they are not in one class.
      assert !(leq(x, y) && leq(y, x) && leq(x, last) && leq(last, x));
    }
  }

  lemma {:induction false} SortStable<T(!new)>(leq: (T, T) -> bool, s: seq<T>)
    requires TotalPreorder(leq)
    ensures SameClasses(leq, Sort(leq, s), s)
  {
    if s != [] {
      var front, last := s[..|s| - 1], s[|s| - 1];
      SortStable(leq, front);
      assert s == front + [last];
      forall x ensures Class(leq, Sort(leq, s), x) == Class(leq, s, x) {
        InsertClass(leq, Sort(leq, front), last, x);
        assert (Sort(leq, front) + [last])[..|front|] == Sort(leq, front);
        assert Class(leq, Sort(leq, front), x) == Class(leq, front, x);
      }
    }
  }

  lemma {:induction false} ClassMember<T>(leq: (T, T) -> bool, s: seq<T>, x: T)
    ensures forall y :: y in Class(leq, s, x) <==> y in s && leq(x, y) && leq(y, x)
  {
    if s != [] {
      ClassMember(leq, s[..|s| - 1], x);
      assert s == s[..|s| - 1] + [s[|s| - 1]];
    }
  }

  /** A sorted sequence ends with the last element of its greatest class. */
  lemma SortedEnd<T(!new)>(leq: (T, T) -> bool, s: seq<T>, t: seq<T>)
    requires TotalPreorder(leq) && Sorted(leq, s) && Sorted(leq, t) && SameClasses(leq, s, t)
    requires s != []
    ensures t != [] && t[|t| - 1] == s[|s| - 1]
  {
    var x := s[|s| - 1];
    ClassMember(leq, s, x);
    ClassMember(leq, t, x);
    assert x in Class(leq, t, x);
    var z := t[|t| - 1];
    ClassMember(leq, s, z);
    ClassMember(leq, t, z);
    assert z in Class(leq, s, z);
    var i :| 0 <= i < |s| && s[i] == z;
    assert leq(z, x);
    var k :| 0 <= k < |t| && t[k] == x;
    assert leq(x, z);
    assert Class(leq, s, x)[|Class(leq, s, x)| - 1] == x;
    assert Class(leq, t, x)[|Class(leq, t, x)| - 1] == z;
  }

  lemma SameClassesFront<T(!new)>(leq: (T, T) -> bool, s: seq<T>, t: seq<T>)
    requires SameClasses(leq, s, t) && s != [] && t != [] && s[|s| - 1] == t[|t| - 1]
    ensures SameClasses(leq, s[..|s| - 1], t[..|t| - 1])
  {
    var s', t', y := s[..|s| - 1], t[..|t| - 1], s[|s| - 1];
    forall x ensures Class(leq, s', x) == Class(leq, t', x) {
      assert Class(leq, s, x) == Class(leq, t, x);
      if leq(x, y) && leq(y, x) {
        assert Class(leq, s', x) == Class(leq, s, x)[..|Class(leq, s, x)| - 1];
        assert Class(leq, t', x) == Class(leq, t, x)[..|Class(leq, t, x)| - 1];
      }
    }
  }

  /** There is only one stable sort: sorted order plus unchanged classes fix the sequence. */
  lemma {:induction false} StableSortUnique<T(!new)>(leq: (T, T) -> bool, s: seq<T>, t: seq<T>)
    requires TotalPreorder(leq) && Sorted(leq, s) && Sorted(leq, t) && SameClasses(leq, s, t)
    ensures s == t
  {
    if s == [] && t == [] {
    } else if s == [] {
      SortedEnd(leq, t, s);
    } else {
      SortedEnd(leq, s, t);
      SameClassesFront(leq, s, t);
      StableSortUnique(leq, s[..|s| - 1], t[..|t| - 1]);
      assert s == s[..|s| - 1] + [s[|s| - 1]] && t == t[..|t| - 1] + [t[|t| - 1]];
    }
  }

  lemma SameLast<T(!new)>(leq: (T, T) -> bool, s: seq<T>, t: seq<T>)
    requires Sorted(leq, s) && Sorted(leq, t) && multiset(s) == multiset(t) && s != []
    requires forall x :: leq(x, x)
    ensures t != [] && leq(t[|t| - 1], s[|s| - 1]) && leq(s[|s| - 1], t[|t| - 1])
    ensures t[|t| - 1] in s
  {
    var x := s[|s| - 1];
    assert x in multiset(t);
    var z := t[|t| - 1];
    assert z in multiset(s);
    var i :| 0 <= i < |s| && s[i] == z;
    var k :| 0 <= k < |t| && t[k] == x;
  }

  lemma MultisetFront<T>(s: seq<T>)
    requires s != []
    ensures multiset(s[..|s| - 1]) == multiset(s) - multiset{s[|s| - 1]}
  {
    assert s == s[..|s| - 1] + [s[|s| - 1]];
  }

  /** Elements that compare equal are equal. */
  ghost predicate Decided<T(!new)>(leq: (T, T) -> bool, s: seq<T>) {
    forall x, y :: x in s && y in s && leq(x, y) && leq(y, x) ==> x == y
  }

  lemma FrontStays<T(!new)>(leq: (T, T) -> bool, s: seq<T>)
    requires s != [] && Sorted(leq, s)
    ensures Sorted(leq, s[..|s| - 1])
    ensures Decided(leq, s) ==> Decided(leq, s[..|s| - 1])
  {
  }

  lemma LastAgrees<T(!new)>(leq: (T, T) -> bool, s: seq<T>, t: seq<T>)
    requires Sorted(leq, s) && Sorted(leq, t) && multiset(s) == multiset(t) && s != []
    requires Decided(leq, s) && forall x :: leq(x, x)
    ensures t != [] && t[|t| - 1] == s[|s| - 1]
    ensures multiset(s[..|s| - 1]) == multiset(t[..|t| - 1])
  {
    SameLast(leq, s, t);
    MultisetFront(s);
    MultisetFront(t);
  }

  lemma {:induction false} SortedUniqueBy<T(!new)>(leq: (T, T) -> bool, s: seq<T>, t: seq<T>)
    requires Sorted(leq, s) && Sorted(leq, t) && multiset(s) == multiset(t)
    requires Decided(leq, s) && forall x :: leq(x, x)
    ensures s == t
  {
    if s == [] {
      assert |multiset(t)| == 0;
    } else {
      LastAgrees(leq, s, t);
      FrontStays(leq, s);
      FrontStays(leq, t);
      SortedUniqueBy(leq, s[..|s| - 1], t[..|t| - 1]);
      assert s == s[..|s| - 1] + [s[|s| - 1]] && t == t[..|t| - 1] + [t[|t| - 1]];
    }
  }

  /** When only equal elements compare equal, any sorted permutation is the same. */
  lemma SortedUnique<T(!new)>(leq: (T, T) -> bool, s: seq<T>, t: seq<T>)
    requires TotalPreorder(leq) && Sorted(leq, s) && Sorted(leq, t) && multiset(s) == multiset(t)
    requires Decided(leq, s)
    ensures s == t
  {
    SortedUniqueBy(leq, s, t);
  }

  // --------------------------------------------------------------------- programs

  lemma InsertShift<T>(leq: (T, T) -> bool, s: seq<T>, k: nat, x: T)
    requires 0 < k <= |s| && !leq(s[k - 1], x)
    ensures Insert(leq, s[..k], x) + s[k..] == Insert(leq, s[..k - 1], x) + s[k - 1..]
  {
    assert s[..k][..k - 1] == s[..k - 1];
    assert [s[k - 1]] + s[k..] == s[k - 1..];
  }

  /** Moves `a[n]` down into the sorted part before it. */
  method InsertInPlace<T>(a: array<T>, n: nat, leq: (T, T) -> bool)
    requires n < a.Length
    modifies a
    ensures a[..n + 1] == Insert(leq, old(a[..n]), old(a[n]))
    ensures a[n + 1..] == old(a[n + 1..])
  {
    var x := a[n];
    ghost var done := a[..n];
    var k := n;
    assert done[..n] == done && Insert(leq, done, x) + done[n..] == Insert(leq, done, x);
    while k > 0 && !leq(a[k - 1], x)
      invariant 0 <= k <= n
      invariant forall j :: 0 <= j < k ==> a[j] == done[j]
      invariant forall j :: k < j <= n ==> a[j] == done[j - 1]
      invariant a[n + 1..] == old(a[n + 1..])
      invariant Insert(leq, done, x) == Insert(leq, done[..k], x) + done[k..]
    {
      InsertShift(leq, done, k, x);
      a[k] := a[k - 1];
      k := k - 1;
    }
    a[k] := x;
    assert Insert(leq, done[..k], x) == done[..k] + [x];
    assert a[..n + 1] == done[..k] + [x] + done[k..];
  }

  /** `slices.SortStableFunc`, in place. */
  method SortStableFunc<T>(a: array<T>, leq: (T, T) -> bool)
    modifies a
    ensures a[..] == Sort(leq, old(a[..]))
  {
    ghost var was := a[..];
    for i := 0 to a.Length
      invariant a[..i] == Sort(leq, was[..i]) && a[i..] == was[i..]
    {
      assert was[..i + 1][..i] == was[..i];
      assert a[i] == a[i..][0] == was[i];
      assert a[i + 1..] == a[i..][1..] && was[i + 1..] == was[i..][1..];
      InsertInPlace(a, i, leq);
    }
    assert a[..a.Length] == a[..] && was[..a.Length] == was;
  }

  /** `slices.SortFunc`: sorted, but elements that compare equal may swap. */
  method SortFunc<T(!new)>(s: seq<T>, leq: (T, T) -> bool) returns (r: seq<T>)
    requires TotalPreorder(leq)
    ensures Sorted(leq, r) && multiset(r) == multiset(s)
  {
    SortSorts(leq, s);
    r := Sort(leq, s);
  }

  // ------------------------------------------------------------------------- sums

  function SumOver<T>(g: T -> int, s: seq<T>): int {
    if s == [] then 0 else SumOver(g, s[..|s| - 1]) + g(s[|s| - 1])
  }

  lemma {:induction false} SumConcat<T>(g: T -> int, s: seq<T>, t: seq<T>)
    ensures SumOver(g, s + t) == SumOver(g, s) + SumOver(g, t)
  {
    if t == [] {
      assert s + t == s;
    } else {
      assert (s + t)[..|s + t| - 1] == s + t[..|t| - 1];
      SumConcat(g, s, t[..|t| - 1]);
    }
  }

  /** An element can be lifted out of the sequence that holds it. */
  lemma TakeOut<T>(t: seq<T>, x: T) returns (a: seq<T>, b: seq<T>)
    requires x in multiset(t)
    ensures t == a + ([x] + b) && multiset(a + b) == multiset(t) - multiset{x}
  {
    var i :| 0 <= i < |t| && t[i] == x;
    a, b := t[..i], t[i + 1..];
    assert t == a + ([x] + b);
  }

  /** A sum does not depend on the order of its terms. */
  lemma {:induction false} SumPermutation<T>(g: T -> int, s: seq<T>, t: seq<T>)
    requires multiset(s) == multiset(t)
    ensures SumOver(g, s) == SumOver(g, t)
  {
    if s == [] {
      assert |multiset(t)| == 0;
    } else {
      var front, x := s[..|s| - 1], s[|s| - 1];
      assert s == front + [x];
      assert x in multiset(s);
      var a, b := TakeOut(t, x);
      SumPermutation(g, front, a + b);
      SumConcat(g, a, [x] + b);
      SumConcat(g, [x], b);
      SumConcat(g, a, b);
    }
  }

  // ------------------------------------------------------------------------- maps

  function Map<T, U>(g: T -> U, s: seq<T>): (r: seq<U>)
    ensures |r| == |s| && forall i :: 0 <= i < |s| ==> r[i] == g(s[i])
  {
    seq(|s|, i requires 0 <= i < |s| => g(s[i]))
  }

  lemma MapConcat<T, U>(g: T -> U, s: seq<T>, t: seq<T>)
    ensures Map(g, s + t) == Map(g, s) + Map(g, t)
  {
  }

  lemma {:induction false} MapPermutation<T, U>(g: T -> U, s: seq<T>, t: seq<T>)
    requires multiset(s) == multiset(t)
    ensures multiset(Map(g, s)) == multiset(Map(g, t))
  {
    if s == [] {
      assert |multiset(t)| == 0;
    } else {
      var front, x := s[..|s| - 1], s[|s| - 1];
      assert s == front + [x];
      assert x in multiset(s);
      var a, b := TakeOut(t, x);
      MapPermutation(g, front, a + b);
      MapConcat(g, front, [x]);
      MapConcat(g, a, b);
      MapConcat(g, a, [x] + b);
      MapConcat(g, [x], b);
    }
  }
}
