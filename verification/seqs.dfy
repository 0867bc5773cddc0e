/** Sequence notions used by more than one part of the model: duplicate
    freedom, first-occurrence lookup, filtering out one value, and the
    subsequence order that filtering keeps. */
module Seqs {

  /** No value occurs twice in `s`. */
  ghost predicate NoDuplicates<T>(s: seq<T>) {
    forall a, b :: 0 <= a < b < |s| ==> s[a] != s[b]
  }

  /** `a` is obtained from `b` by deleting elements, keeping the order of the
      rest. */
  ghost predicate SubsequenceOf<T>(a: seq<T>, b: seq<T>)
    decreases |b|
  {
    |a| == 0 ||
    (|b| > 0 &&
     ((a[0] == b[0] && SubsequenceOf(a[1..], b[1..])) || SubsequenceOf(a, b[1..])))
  }

  /** Position of the first occurrence of `k` in `ks`, or `|ks|` when `k` does
      not occur; this is the lookup behind a JavaScript `Map`'s `has`/`get`
      over its insertion-ordered keys. */
  function IndexOf<K(==)>(ks: seq<K>, k: K): (i: nat)
    ensures i <= |ks|
    ensures i < |ks| <==> k in ks
    ensures i < |ks| ==> ks[i] == k
    ensures forall j :: 0 <= j < i ==> ks[j] != k
    decreases |ks|
  {
    if |ks| == 0 then 0
    else if ks[0] == k then 0
    else 1 + IndexOf(ks[1..], k)
  }

  /** Appending an element never moves the first occurrence of a key that was
      already present, and a fresh key is found at the new last position. */
  lemma IndexOfSnoc<K>(ks: seq<K>, x: K, k: K)
    ensures k in ks ==> IndexOf(ks + [x], k) == IndexOf(ks, k)
    ensures k !in ks && k == x ==> IndexOf(ks + [x], k) == |ks|
  {
    var i := IndexOf(ks, k);
    var i' := IndexOf(ks + [x], k);
    if k in ks {
      assert (ks + [x])[i] == k;
    } else if k == x {
      assert (ks + [x])[|ks|] == k;
    }
  }

  /** `xs` with every occurrence of `c` removed (JavaScript's
      `xs.filter(x => x !== c)`). */
  function Without<T(==)>(xs: seq<T>, c: T): (r: seq<T>)
    ensures c !in r
    ensures |r| <= |xs|
    ensures multiset(r) == multiset(xs)[c := 0]
    ensures SubsequenceOf(r, xs)
    decreases |xs|
  {
    if |xs| == 0 then []
    else
      assert xs == [xs[0]] + xs[1..];
      var rest := Without(xs[1..], c);
      if xs[0] == c then rest else [xs[0]] + rest
  }

  /** Removing a value that is absent changes nothing. */
  lemma {:induction false} WithoutAbsent<T>(xs: seq<T>, c: T)
    requires c !in xs
    ensures Without(xs, c) == xs
    decreases |xs|
  {
    if |xs| > 0 {
      WithoutAbsent(xs[1..], c);
    }
  }

  /** Membership after removal: everything but `c` keeps its membership. */
  lemma WithoutMembership<T>(xs: seq<T>, c: T, x: T)
    ensures x in Without(xs, c) <==> x in xs && x != c
  {
    var r := Without(xs, c);
    assert x in r <==> multiset(r)[x] > 0;
    assert x in xs <==> multiset(xs)[x] > 0;
  }

  /** Removing a value twice is the same as removing it once. */
  lemma WithoutIdempotent<T>(xs: seq<T>, c: T)
    ensures Without(Without(xs, c), c) == Without(xs, c)
  {
    WithoutAbsent(Without(xs, c), c);
  }

  /** The tail of a duplicate-free sequence is duplicate-free and lacks the
      head. */
  lemma NoDuplicatesTail<T>(xs: seq<T>)
    requires |xs| > 0 && NoDuplicates(xs)
    ensures NoDuplicates(xs[1..]) && xs[0] !in xs[1..]
  {
    var t := xs[1..];
    forall a, b | 0 <= a < b < |t| ensures t[a] != t[b] {
      assert t[a] == xs[a + 1] && t[b] == xs[b + 1];
    }
    forall j | 0 <= j < |t| ensures t[j] != xs[0] {
      assert t[j] == xs[j + 1];
    }
  }

  /** Putting a fresh value in front keeps a sequence duplicate-free. */
  lemma ConsFreshNoDuplicates<T>(x: T, xs: seq<T>)
    requires NoDuplicates(xs) && x !in xs
    ensures NoDuplicates([x] + xs)
  {
    var r := [x] + xs;
    forall a, b | 0 <= a < b < |r| ensures r[a] != r[b] {
      assert r[b] == xs[b - 1];
    }
  }

  /** Filtering keeps a duplicate-free sequence duplicate-free. */
  lemma {:induction false} WithoutNoDuplicates<T>(xs: seq<T>, c: T)
    requires NoDuplicates(xs)
    ensures NoDuplicates(Without(xs, c))
    decreases |xs|
  {
    if |xs| > 0 {
      var t := xs[1..];
      NoDuplicatesTail(xs);
      WithoutNoDuplicates(t, c);
      if xs[0] != c {
        WithoutMembership(t, c, xs[0]);
        ConsFreshNoDuplicates(xs[0], Without(t, c));
      }
    }
  }

  /** Appending a value that is absent keeps a sequence duplicate-free. */
  lemma AppendFreshNoDuplicates<T>(xs: seq<T>, x: T)
    requires NoDuplicates(xs)
    requires x !in xs
    ensures NoDuplicates(xs + [x])
  {
    var r := xs + [x];
    forall a, b | 0 <= a < b < |r| ensures r[a] != r[b] {
      assert r[a] == xs[a];
    }
  }

  // ---------------------------------------------------------------------
  // First-seen order: the key order of an insertion-ordered map

  /** `keys` lists the distinct values of `all`, each once, in the order of
      their first occurrence in `all`. */
  ghost predicate FirstSeenOrder<T>(all: seq<T>, keys: seq<T>) {
    && NoDuplicates(keys)
    && (forall j :: 0 <= j < |all| ==> all[j] in keys)
    && (forall i :: 0 <= i < |keys| ==> keys[i] in all)
    && (forall a, b :: 0 <= a < b < |keys| ==> IndexOf(all, keys[a]) < IndexOf(all, keys[b]))
  }

  /** A sequence all of whose elements lie in an empty sequence is empty. */
  lemma NothingIsInEmpty<T>(keys: seq<T>, all: seq<T>)
    ensures |all| == 0 && (forall i :: 0 <= i < |keys| ==> keys[i] in all) ==> keys == []
  {
    if |keys| > 0 && |all| == 0 {
      assert keys[0] !in all;
    }
  }

  /** An occurrence of a value already listed leaves the key order as it
      was. */
  lemma {:induction false} FirstSeenOrderSnocKnown<T>(all: seq<T>, x: T, keys: seq<T>)
    requires x in all
    requires FirstSeenOrder(all, keys)
    ensures FirstSeenOrder(all + [x], keys)
  {
    var all' := all + [x];
    forall i | 0 <= i < |keys| ensures keys[i] in all' && IndexOf(all', keys[i]) == IndexOf(all, keys[i]) {
      IndexOfSnoc(all, x, keys[i]);
    }
    forall j | 0 <= j < |all'| ensures all'[j] in keys {
      if j < |all| {
        assert all'[j] == all[j];
      }
    }
    assert x in keys;
  }

  /** Conversely, dropping a final occurrence of a value seen before keeps
      the key order. */
  lemma {:induction false} FirstSeenOrderDropKnown<T>(all: seq<T>, x: T, keys: seq<T>)
    requires x in all
    requires FirstSeenOrder(all + [x], keys)
    ensures FirstSeenOrder(all, keys)
  {
    var all' := all + [x];
    forall i | 0 <= i < |keys| ensures keys[i] in all && IndexOf(all', keys[i]) == IndexOf(all, keys[i]) {
      assert keys[i] in all';
      IndexOfSnoc(all, x, keys[i]);
    }
    forall j | 0 <= j < |all| ensures all[j] in keys {
      assert all'[j] == all[j];
    }
    assert forall a, b :: 0 <= a < b < |keys| ==> IndexOf(all, keys[a]) < IndexOf(all, keys[b]);
  }

  /** A value never seen before is appended to the key order. */
  lemma {:induction false} FirstSeenOrderSnocFresh<T>(all: seq<T>, x: T, keys: seq<T>)
    requires x !in all
    requires FirstSeenOrder(all, keys)
    ensures FirstSeenOrder(all + [x], keys + [x])
  {
    var all', keys' := all + [x], keys + [x];
    assert x !in keys;
    IndexOfSnoc(all, x, x);
    assert keys'[|keys|] == x && IndexOf(all', x) == |all|;
    forall i | 0 <= i < |keys|
      ensures keys'[i] == keys[i] && keys[i] in all' && IndexOf(all', keys[i]) == IndexOf(all, keys[i]) < |all|
    {
      IndexOfSnoc(all, x, keys[i]);
    }
    forall a, b | 0 <= a < b < |keys'|
      ensures keys'[a] != keys'[b] && IndexOf(all', keys'[a]) < IndexOf(all', keys'[b])
    {
      if b < |keys| {
        assert keys[a] != keys[b] && IndexOf(all, keys[a]) < IndexOf(all, keys[b]);
      }
    }
    forall j | 0 <= j < |all'| ensures all'[j] in keys' {
      if j < |all| {
        assert all'[j] == all[j] && all[j] in keys;
      }
    }
  }

  /** In a strictly increasing sequence, an element above all others is
      the last one. */
  lemma MaximumOfIncreasingIsLast(r: seq<int>, t: int)
    requires 0 <= t < |r|
    requires forall a, b :: 0 <= a < b < |r| ==> r[a] < r[b]
    requires forall a :: 0 <= a < |r| && a != t ==> r[a] < r[t]
    ensures t == |r| - 1
  {
    var last := |r| - 1;
    var top, end := r[t], r[last];
    assert t < last ==> top < end;
    assert t != last ==> end < top;
  }

  /** Conversely, when the last value is new, the key order ends with it. */
  lemma {:induction false} FirstSeenOrderFreshIsLast<T>(all: seq<T>, x: T, keys: seq<T>)
    requires x !in all
    requires FirstSeenOrder(all + [x], keys)
    ensures |keys| > 0 && keys[|keys| - 1] == x
  {
    var all' := all + [x];
    IndexOfSnoc(all, x, x);
    assert all'[|all|] == x;
    var t := IndexOf(keys, x);
    forall a | 0 <= a < |keys| && a != t
      ensures IndexOf(all', keys[a]) < |all|
    {
      assert keys[a] != x && keys[a] in all';
      IndexOfSnoc(all, x, keys[a]);
    }
    var ranks := seq(|keys|, a requires 0 <= a < |keys| => IndexOf(all', keys[a]));
    MaximumOfIncreasingIsLast(ranks, t);
  }

  /** What precedes that new last value is the key order of the rest. */
  lemma {:induction false} FirstSeenOrderDropFresh<T>(all: seq<T>, x: T, keys: seq<T>)
    requires x !in all
    requires FirstSeenOrder(all + [x], keys)
    requires |keys| > 0 && keys[|keys| - 1] == x
    ensures FirstSeenOrder(all, keys[..|keys| - 1])
  {
    var all' := all + [x];
    var rest := keys[..|keys| - 1];
    forall a | 0 <= a < |rest|
      ensures rest[a] == keys[a] && keys[a] in all && IndexOf(all', keys[a]) == IndexOf(all, keys[a])
    {
      assert keys[a] != x && keys[a] in all';
      IndexOfSnoc(all, x, keys[a]);
    }
    forall a, b | 0 <= a < b < |rest|
      ensures rest[a] != rest[b] && IndexOf(all, rest[a]) < IndexOf(all, rest[b])
    {
      assert keys[a] != keys[b] && IndexOf(all', keys[a]) < IndexOf(all', keys[b]);
    }
    forall j | 0 <= j < |all| ensures all[j] in rest {
      assert all'[j] == all[j] && all[j] != x;
      assert all[j] in keys;
    }
  }

  /** The key order of a sequence is unique. */
  lemma {:induction false} FirstSeenOrderUnique<T>(all: seq<T>, keys1: seq<T>, keys2: seq<T>)
    requires FirstSeenOrder(all, keys1)
    requires FirstSeenOrder(all, keys2)
    ensures keys1 == keys2
    decreases |all|
  {
    if |all| == 0 {
      NothingIsInEmpty(keys1, all);
      NothingIsInEmpty(keys2, all);
    } else {
      var init, x := all[..|all| - 1], all[|all| - 1];
      assert all == init + [x];
      if x in init {
        FirstSeenOrderDropKnown(init, x, keys1);
        FirstSeenOrderDropKnown(init, x, keys2);
        FirstSeenOrderUnique(init, keys1, keys2);
      } else {
        FirstSeenOrderFreshIsLast(init, x, keys1);
        FirstSeenOrderFreshIsLast(init, x, keys2);
        FirstSeenOrderDropFresh(init, x, keys1);
        FirstSeenOrderDropFresh(init, x, keys2);
        FirstSeenOrderUnique(init, keys1[..|keys1| - 1], keys2[..|keys2| - 1]);
        assert keys1 == keys1[..|keys1| - 1] + [x];
        assert keys2 == keys2[..|keys2| - 1] + [x];
      }
    }
  }
}
