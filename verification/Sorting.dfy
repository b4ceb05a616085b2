/** The stable sort the Go sources call (`sort.SliceStable`, `sort.Strings`, `sort.Ints`),
    and the fact that makes its result independent of the input order. */
module Sorting {

  ghost predicate Irreflexive<T(!new)>(less: (T, T) -> bool) {
    forall x :: !less(x, x)
  }

  ghost predicate Transitive<T(!new)>(less: (T, T) -> bool) {
    forall x, y, z :: less(x, y) && less(y, z) ==> less(x, z)
  }

  /** Whatever is below z is also below y, or y is below z: being apart is seen from anywhere. */
  ghost predicate NegTransitive<T(!new)>(less: (T, T) -> bool) {
    forall x, y, z :: !less(x, y) && !less(y, z) ==> !less(x, z)
  }

  /** What sort.SliceStable expects of its `less`. */
  ghost predicate WeakOrder<T(!new)>(less: (T, T) -> bool) {
    Irreflexive(less) && Transitive(less) && NegTransitive(less)
  }

  ghost predicate Sorted<T>(s: seq<T>, less: (T, T) -> bool) {
    forall i, j :: 0 <= i < j < |s| ==> !less(s[j], s[i])
  }

  /** Puts `x` before every element that is not strictly below it. */
  function Insert<T>(x: T, s: seq<T>, less: (T, T) -> bool): seq<T> {
    if s != [] && less(s[0], x) then [s[0]] + Insert(x, s[1..], less) else [x] + s
  }

  function Sort<T>(s: seq<T>, less: (T, T) -> bool): seq<T> {
    if s == [] then [] else Insert(s[0], Sort(s[1..], less), less)
  }

  /** Where an insertion lands: after the elements in front that are strictly below. */
  lemma {:induction false} InsertAt<T>(x: T, s: seq<T>, less: (T, T) -> bool, p: nat)
    requires p <= |s| && forall k :: 0 <= k < p ==> less(s[k], x)
    requires p < |s| ==> !less(s[p], x)
    ensures Insert(x, s, less) == s[..p] + [x] + s[p..]
    decreases p
  {
    if p > 0 {
      InsertAt(x, s[1..], less, p - 1);
      assert s[..p] == [s[0]] + s[1..][..p - 1];
      assert s[p..] == s[1..][p - 1..];
    }
  }

  lemma {:induction false} InsertPermutes<T>(x: T, s: seq<T>, less: (T, T) -> bool)
    ensures multiset(Insert(x, s, less)) == multiset{x} + multiset(s)
    decreases |s|
  {
    if s != [] && less(s[0], x) {
      InsertPermutes(x, s[1..], less);
      assert s == [s[0]] + s[1..];
    }
  }

  lemma {:induction false} SortPermutes<T>(s: seq<T>, less: (T, T) -> bool)
    ensures multiset(Sort(s, less)) == multiset(s)
    ensures |Sort(s, less)| == |s|
    ensures forall x :: x in Sort(s, less) <==> x in s
    decreases |s|
  {
    if s != [] {
      SortPermutes(s[1..], less);
      InsertPermutes(s[0], Sort(s[1..], less), less);
      assert s == [s[0]] + s[1..];
    }
    assert |Sort(s, less)| == |multiset(Sort(s, less))| == |multiset(s)| == |s|;
    forall x ensures x in Sort(s, less) <==> x in s {
      assert x in Sort(s, less) <==> x in multiset(Sort(s, less));
      assert x in s <==> x in multiset(s);
    }
  }

  lemma {:induction false} InsertSorted<T(!new)>(x: T, s: seq<T>, less: (T, T) -> bool)
    requires WeakOrder(less) && Sorted(s, less)
    ensures Sorted(Insert(x, s, less), less)
    decreases |s|
  {
    var r := Insert(x, s, less);
    if s != [] && less(s[0], x) {
      InsertSorted(x, s[1..], less);
      var t := Insert(x, s[1..], less);
      InsertPermutes(x, s[1..], less);
      forall j | 0 < j < |r| ensures !less(r[j], s[0]) {
        assert r[j] == t[j - 1];
        assert t[j - 1] in multiset(t);
        if t[j - 1] != x {
          assert t[j - 1] in multiset(s[1..]);
        }
      }
    } else if s != [] {
      forall j | 0 < j < |r| ensures !less(r[j], x) {
        assert r[j] == s[j - 1];
        if j > 1 { assert !less(s[j - 1], s[0]); }
      }
    }
  }

  lemma {:induction false} SortSorted<T(!new)>(s: seq<T>, less: (T, T) -> bool)
    requires WeakOrder(less)
    ensures Sorted(Sort(s, less), less)
    decreases |s|
  {
    if s != [] {
      SortSorted(s[1..], less);
      InsertSorted(s[0], Sort(s[1..], less), less);
    }
  }

  /** Elements that `less` cannot tell apart keep their input order: what remains of the
      result after keeping one class is what remains of the input. */
  ghost function Class<T>(s: seq<T>, x: T, less: (T, T) -> bool): seq<T> {
    if s == [] then []
    else if !less(s[0], x) && !less(x, s[0]) then [s[0]] + Class(s[1..], x, less)
    else Class(s[1..], x, less)
  }

  lemma {:induction false} InsertStable<T(!new)>(y: T, s: seq<T>, x: T, less: (T, T) -> bool)
    requires WeakOrder(less)
    ensures Class(Insert(y, s, less), x, less) == Class([y] + s, x, less)
    decreases |s|
  {
    assert ([y] + s)[1..] == s;
    if s != [] && less(s[0], y) {
      InsertStable(y, s[1..], x, less);
      var t := Insert(y, s[1..], less);
      assert ([s[0]] + t)[1..] == t;
      assert ([y] + s[1..])[1..] == s[1..];
    }
  }

  lemma {:induction false} SortStable<T(!new)>(s: seq<T>, x: T, less: (T, T) -> bool)
    requires WeakOrder(less)
    ensures Class(Sort(s, less), x, less) == Class(s, x, less)
    decreases |s|
  {
    if s != [] {
      SortStable(s[1..], x, less);
      var t := Sort(s[1..], less);
      InsertStable(s[0], t, x, less);
      assert ([s[0]] + t)[1..] == t;
    }
  }

  ghost predicate TotalOn<T>(s: seq<T>, less: (T, T) -> bool) {
    forall x, y :: x in s && y in s && x != y ==> less(x, y) || less(y, x)
  }

  /** When `less` tells all elements apart, sorting forgets the input order. */
  lemma {:induction false} SortCanonical<T(!new)>(a: seq<T>, b: seq<T>, less: (T, T) -> bool)
    requires WeakOrder(less) && TotalOn(a, less)
    requires multiset(a) == multiset(b)
    ensures Sort(a, less) == Sort(b, less)
  {
    SortSorted(a, less);
    SortSorted(b, less);
    SortPermutes(a, less);
    SortPermutes(b, less);
    SortedUnique(Sort(a, less), Sort(b, less), less);
  }

  /** Nothing sorts strictly before the head. */
  lemma HeadLeast<T>(s: seq<T>, less: (T, T) -> bool, x: T)
    requires Sorted(s, less) && x in s
    ensures x == s[0] || !less(x, s[0])
  {
  }

  lemma MultisetTail<T>(s: seq<T>)
    requires s != []
    ensures multiset(s) == multiset{s[0]} + multiset(s[1..])
  {
    assert s == [s[0]] + s[1..];
  }

  lemma {:induction false} SortedUnique<T(!new)>(a: seq<T>, b: seq<T>, less: (T, T) -> bool)
    requires WeakOrder(less) && TotalOn(a, less)
    requires Sorted(a, less) && Sorted(b, less)
    requires multiset(a) == multiset(b)
    ensures a == b
    decreases |a|
  {
    hide WeakOrder, Sorted;
    assert |a| == |multiset(a)| == |multiset(b)| == |b|;
    if a != [] {
      var x, y := a[0], b[0];
      assert x in multiset(a) && y in multiset(b);
      HeadLeast(a, less, y);
      HeadLeast(b, less, x);
      MultisetTail(a);
      MultisetTail(b);
      SortedTail(a, less);
      SortedTail(b, less);
      assert x == y;
      assert multiset(a[1..]) == multiset(a) - multiset{x};
      assert multiset(b[1..]) == multiset(b) - multiset{x};
      SortedUnique(a[1..], b[1..], less);
    }
  }

  lemma SortedTail<T>(s: seq<T>, less: (T, T) -> bool)
    requires s != [] && Sorted(s, less)
    ensures Sorted(s[1..], less)
  {
  }
}
