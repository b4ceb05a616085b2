/** One pass over a list of keys that rewrites, adds or drops one map entry per key. */
module KeyedFold {
  import opened Text

  function Get<K, V>(m: map<K, V>, k: K): Option<V> {
    if k in m then Some(m[k]) else None
  }

  /** The map with `v` at `k`, or without `k`. */
  function Put<K, V>(m: map<K, V>, k: K, v: Option<V>): map<K, V> {
    match v
    case Some(x) => m[k := x]
    case None => m - {k}
  }

  /** The entries of some keys only. */
  function Only<K, V>(m: map<K, V>, keys: seq<K>): map<K, V> {
    map k | k in m && k in keys :: m[k]
  }

  lemma Minus<K, V>(m: map<K, V>, gone: set<K>, k: K)
    ensures (m - gone) - {k} == m - (gone + {k})
  {
  }

  lemma OnlyIsMinus<K, V>(m: map<K, V>, keys: seq<K>)
    ensures Only(m, keys) == m - (m.Keys - set k | k in keys)
  {
  }

  /** The map after the first `n` keys; `after(i, v)` is what the i-th key turns entry `v` into. */
  function Fold<K, V>(m: map<K, V>, keys: seq<K>, after: (nat, Option<V>) -> Option<V>, n: nat): map<K, V>
    requires n <= |keys|
  {
    if n == 0 then m
    else
      var before := Fold(m, keys, after, n - 1);
      Put(before, keys[n - 1], after(n - 1, Get(before, keys[n - 1])))
  }

  lemma FoldNone<K, V>(m: map<K, V>, keys: seq<K>, after: (nat, Option<V>) -> Option<V>)
    ensures Fold(m, keys, after, 0) == m
  {
  }

  lemma FoldStep<K, V>(m: map<K, V>, keys: seq<K>, after: (nat, Option<V>) -> Option<V>, n: nat)
    requires n < |keys|
    ensures var before := Fold(m, keys, after, n);
      Fold(m, keys, after, n + 1) == Put(before, keys[n], after(n, Get(before, keys[n])))
  {
  }

  ghost predicate Distinct<K(!new)>(keys: seq<K>) {
    forall i, j :: 0 <= i < j < |keys| ==> keys[i] != keys[j]
  }

  /** A key that the pass does not name keeps its entry. */
  lemma {:induction false} FoldElsewhere<K, V>(m: map<K, V>, keys: seq<K>, after: (nat, Option<V>) -> Option<V>, n: nat, k: K)
    requires n <= |keys| && forall i :: 0 <= i < n ==> keys[i] != k
    ensures Get(Fold(m, keys, after, n), k) == Get(m, k)
  {
    if n > 0 { FoldElsewhere(m, keys, after, n - 1, k); }
  }

  /** With distinct keys each entry depends on its own earlier entry only. */
  lemma {:induction false} FoldAt<K(!new), V>(m: map<K, V>, keys: seq<K>, after: (nat, Option<V>) -> Option<V>, n: nat, i: nat)
    requires Distinct(keys) && i < n <= |keys|
    ensures Get(Fold(m, keys, after, n), keys[i]) == after(i, Get(m, keys[i]))
  {
    if i == n - 1 {
      FoldElsewhere(m, keys, after, n - 1, keys[i]);
    } else {
      FoldAt(m, keys, after, n - 1, i);
    }
  }

  /** Maps that agree at every key are equal. */
  lemma SameEverywhere<K(!new), V>(a: map<K, V>, b: map<K, V>)
    requires forall k :: Get(a, k) == Get(b, k)
    ensures a == b
  {
    forall k ensures (k in a <==> k in b) && (k in a ==> a[k] == b[k]) {
      assert Get(a, k) == Get(b, k);
    }
  }

  /** Only what the pass asks of `after` matters. */
  lemma {:induction false} FoldSame<K, V(!new)>(m: map<K, V>, keys: seq<K>, f: (nat, Option<V>) -> Option<V>,
                                          g: (nat, Option<V>) -> Option<V>, n: nat)
    requires n <= |keys| && forall i: nat, v :: i < n ==> f(i, v) == g(i, v)
    ensures Fold(m, keys, f, n) == Fold(m, keys, g, n)
  {
    if n > 0 { FoldSame(m, keys, f, g, n - 1); }
  }
}
