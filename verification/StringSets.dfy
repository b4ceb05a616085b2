/** Sets of strings listed in Go's string order, as the sources do with a map and sort.Strings. */
module StringSets {
  import opened Text
  import opened Sorting

  /** Strictly ascending in Go's string order, hence without duplicates. */
  ghost predicate Ascending(s: seq<string>) {
    forall i, j :: 0 <= i < j < |s| ==> Less(s[i], s[j])
  }

  /** An ordered list without duplicates, extended by one element. */
  function AddSorted(s: seq<string>, x: string): seq<string> {
    if s == [] then [x]
    else if s[0] == x then s
    else if Less(s[0], x) then [s[0]] + AddSorted(s[1..], x)
    else [x] + s
  }

  lemma {:induction false} AddSortedFacts(s: seq<string>, x: string)
    requires Ascending(s)
    ensures Ascending(AddSorted(s, x))
    ensures forall y :: y in AddSorted(s, x) <==> y in s || y == x
    decreases |s|
  {
    if s != [] {
      assert s == [s[0]] + s[1..];
      AddSortedFacts(s[1..], x);
      var r := AddSorted(s, x);
      if s[0] == x {
      } else if Less(s[0], x) {
        var t := AddSorted(s[1..], x);
        forall j | 0 < j < |r| ensures Less(r[0], r[j]) {
          assert r[j] == t[j - 1] && t[j - 1] in t;
          if r[j] != x {
            var k :| 0 <= k < |s[1..]| && s[1..][k] == r[j];
            assert s[k + 1] == r[j];
          }
        }
      } else {
        LessTotal(s[0], x);
        forall j | 0 < j < |r| ensures Less(r[0], r[j]) {
          assert r[j] == s[j - 1];
          if j > 1 { LessTransitive(x, s[0], s[j - 1]); }
        }
      }
    }
  }

  lemma NoElements(s: seq<string>)
    ensures (forall x :: x !in s) ==> s == []
  {
    if s != [] { assert s[0] in s; }
  }

  /** An ascending list is determined by its elements. */
  lemma {:induction false} AscendingUnique(a: seq<string>, b: seq<string>)
    requires Ascending(a) && Ascending(b)
    requires forall x :: x in a <==> x in b
    ensures a == b
    decreases |a|
  {
    if a == [] {
      NoElements(b);
    } else {
      assert a[0] in b && a[0] in a;
      assert b[0] in a && b[0] in b;
      var i :| 0 <= i < |b| && b[i] == a[0];
      var j :| 0 <= j < |a| && a[j] == b[0];
      if i > 0 && j > 0 {
        LessTransitive(a[0], b[0], a[0]);
      }
      LessIrreflexive(a[0]);
      assert a[0] == b[0];
      TailElements(a);
      TailElements(b);
      AscendingUnique(a[1..], b[1..]);
      assert a == [a[0]] + a[1..] && b == [b[0]] + b[1..];
    }
  }

  lemma TailElements(a: seq<string>)
    requires a != [] && Ascending(a)
    ensures forall x :: x in a[1..] <==> x in a && x != a[0]
  {
    LessIrreflexive(a[0]);
    forall x ensures x in a[1..] <==> x in a && x != a[0] {
      if x in a && x != a[0] {
        var k :| 0 <= k < |a| && a[k] == x;
        assert a[1..][k - 1] == x;
      }
    }
  }

  /** sort.Strings on distinct strings. */
  method SortDistinct(s: seq<string>) returns (r: seq<string>)
    requires forall i, j :: 0 <= i < j < |s| ==> s[i] != s[j]
    ensures Ascending(r)
    ensures forall x :: x in r <==> x in s
  {
    r := Sort(s, Less);
    StringOrder();
    SortSorted(s, Less);
    SortPermutes(s, Less);
    Distinct(s, r);
    forall i, j | 0 <= i < j < |r| ensures Less(r[i], r[j]) {
      LessTotal(r[i], r[j]);
    }
  }

  lemma StringOrder()
    ensures WeakOrder(Less)
  {
    forall x ensures !Less(x, x) { LessIrreflexive(x); }
    forall x, y, z | Less(x, y) && Less(y, z) ensures Less(x, z) { LessTransitive(x, y, z); }
    forall x, y, z | !Less(x, y) && !Less(y, z) ensures !Less(x, z) {
      if x != y { LessTotal(x, y); }
      if y != z { LessTotal(y, z); }
      if Less(x, z) && x != y && y != z { LessTransitive(z, y, x); LessTransitive(x, z, x); LessIrreflexive(x); }
    }
  }

  lemma Distinct(s: seq<string>, r: seq<string>)
    requires multiset(r) == multiset(s) && |r| == |s|
    requires forall i, j :: 0 <= i < j < |s| ==> s[i] != s[j]
    ensures forall i, j :: 0 <= i < j < |r| ==> r[i] != r[j]
  {
    forall i, j | 0 <= i < j < |r| ensures r[i] != r[j] {
      if r[i] == r[j] {
        assert multiset(r)[r[i]] >= 2 by {
          assert r == r[..j] + [r[j]] + r[j + 1..];
          assert r[i] == r[..j][i];
          assert r[i] in multiset(r[..j]);
        }
        OnceEach(s, r[i]);
      }
    }
  }

  lemma {:induction false} OnceEach(s: seq<string>, x: string)
    requires forall i, j :: 0 <= i < j < |s| ==> s[i] != s[j]
    ensures multiset(s)[x] <= 1
    decreases |s|
  {
    if s != [] {
      OnceEach(s[1..], x);
      assert s == [s[0]] + s[1..];
      if s[0] == x {
        assert x !in s[1..] by {
          forall k | 0 <= k < |s[1..]| ensures s[1..][k] != x {
            assert s[1..][k] == s[k + 1];
          }
        }
        assert multiset(s[1..])[x] == 0 by { assert x !in multiset(s[1..]); }
      }
    }
  }

  /** Ranging over a set in any order, then sorting. */
  method SortedElements(found: set<string>) returns (out: seq<string>)
    ensures Ascending(out)
    ensures forall x :: x in out <==> x in found
  {
    hide Less;
    out := [];
    var left := found;
    while left != {}
      invariant left <= found
      invariant forall x :: x in out <==> x in found && x !in left
      invariant forall i, j :: 0 <= i < j < |out| ==> out[i] != out[j]
      decreases |left|
    {
      var x :| x in left;
      out := out + [x];
      left := left - {x};
    }
    out := SortDistinct(out);
  }

  lemma {:induction false} ListedExists(s: set<string>) returns (r: seq<string>)
    ensures Ascending(r) && forall x :: x in r <==> x in s
    decreases |s|
  {
    hide Less, AddSorted;
    if s == {} {
      r := [];
    } else {
      var x :| x in s;
      r := ListedExists(s - {x});
      AddSortedFacts(r, x);
      r := AddSorted(r, x);
    }
  }

  /** A finite set of strings in order. */
  ghost function Listed(s: set<string>): (r: seq<string>)
    ensures Ascending(r) && forall x :: x in r <==> x in s
  {
    assert exists r :: Ascending(r) && forall x :: x in r <==> x in s by {
      var r := ListedExists(s);
    }
    var r :| Ascending(r) && forall x :: x in r <==> x in s;
    r
  }
}
