/** Grouping a sequence by a key, as the merger's Go maps do, but with the keys
    listed in order of first occurrence (an insertion-ordered map).

    `Keys` and `Group` carry no quantified postconditions; their properties
    are lemmas, called where they are needed, so that the key function's own
    definition is not unfolded for every element in sight. */
module Keyed {

  /** The distinct keys of `xs`, each listed where it first occurs. */
  function Keys<T, K(==)>(xs: seq<T>, key: T -> K): (ks: seq<K>)
    ensures |ks| <= |xs|
  {
    if xs == [] then []
    else
      var ks := Keys(xs[..|xs| - 1], key);
      var k := key(xs[|xs| - 1]);
      if k in ks then ks else ks + [k]
  }

  /** The elements of `xs` whose key is `k`, in their original order. */
  function Group<T, K(==)>(xs: seq<T>, key: T -> K, k: K): (g: seq<T>)
    ensures |g| <= |xs|
  {
    if xs == [] then []
    else
      var last := xs[|xs| - 1];
      Group(xs[..|xs| - 1], key, k) + (if key(last) == k then [last] else [])
  }

  /** No two elements of `xs` share a key. */
  predicate KeysDistinct<T, K(==)>(xs: seq<T>, key: T -> K) {
    forall i, j :: 0 <= i < j < |xs| ==> key(xs[i]) != key(xs[j])
  }

  /** The keys are pairwise distinct. */
  lemma {:induction false} KeysUnique<T, K>(xs: seq<T>, key: T -> K)
    ensures forall i, j :: 0 <= i < j < |Keys(xs, key)| ==> Keys(xs, key)[i] != Keys(xs, key)[j]
  {
    if xs != [] {
      KeysUnique(xs[..|xs| - 1], key);
    }
  }

  /** The key of every element is listed. */
  lemma {:induction false} KeyListed<T, K>(xs: seq<T>, key: T -> K, i: nat)
    requires i < |xs|
    ensures key(xs[i]) in Keys(xs, key)
  {
    if i < |xs| - 1 {
      KeyListed(xs[..|xs| - 1], key, i);
    }
  }

  /** Every listed key is the key of some element; `i` is one. */
  lemma {:induction false} KeyOccurs<T, K>(xs: seq<T>, key: T -> K, k: K) returns (i: nat)
    requires k in Keys(xs, key)
    ensures i < |xs| && key(xs[i]) == k
  {
    var init := xs[..|xs| - 1];
    if k in Keys(init, key) {
      i := KeyOccurs(init, key, k);
    } else {
      i := |xs| - 1;
    }
  }

  /** An element is in the group of `k` exactly when it occurs in `xs` with
      key `k`. */
  lemma {:induction false} GroupSpec<T, K>(xs: seq<T>, key: T -> K, k: K)
    ensures forall x :: x in Group(xs, key, k) <==> x in xs && key(x) == k
  {
    if xs != [] {
      var init := xs[..|xs| - 1];
      GroupSpec(init, key, k);
      assert xs == init + [xs[|xs| - 1]];
    }
  }

  /** Every listed key has a non-empty group. */
  lemma GroupNonEmpty<T, K>(xs: seq<T>, key: T -> K, k: K)
    requires k in Keys(xs, key)
    ensures |Group(xs, key, k)| > 0
  {
    var i := KeyOccurs(xs, key, k);
    GroupSpec(xs, key, k);
    assert xs[i] in Group(xs, key, k);
  }

  /** The first element with a given key heads that key's group. */
  lemma {:induction false} GroupHead<T, K>(xs: seq<T>, key: T -> K, i: nat)
    requires i < |xs|
    requires forall j :: 0 <= j < i ==> key(xs[j]) != key(xs[i])
    ensures |Group(xs, key, key(xs[i]))| > 0
    ensures Group(xs, key, key(xs[i]))[0] == xs[i]
  {
    var k := key(xs[i]);
    var init := xs[..|xs| - 1];
    if i == |xs| - 1 {
      GroupEmpty(init, key, k);
    } else {
      GroupHead(init, key, i);
    }
  }

  lemma {:induction false} GroupEmpty<T, K>(xs: seq<T>, key: T -> K, k: K)
    requires forall j :: 0 <= j < |xs| ==> key(xs[j]) != k
    ensures Group(xs, key, k) == []
  {
    if xs != [] {
      GroupEmpty(xs[..|xs| - 1], key, k);
    }
  }

  /** When no two elements share a key, grouping changes nothing: the keys are
      the elements' keys and every group is a single element. */
  lemma {:induction false} DistinctKeysGroups<T, K>(xs: seq<T>, key: T -> K)
    requires KeysDistinct(xs, key)
    ensures |Keys(xs, key)| == |xs|
    ensures forall i :: 0 <= i < |xs| ==> Keys(xs, key)[i] == key(xs[i])
    ensures forall i :: 0 <= i < |xs| ==> Group(xs, key, key(xs[i])) == [xs[i]]
  {
    if xs != [] {
      var init := xs[..|xs| - 1];
      var last := xs[|xs| - 1];
      DistinctKeysGroups(init, key);
      var ks := Keys(init, key);
      forall j | 0 <= j < |ks|
        ensures ks[j] != key(last)
      {
        assert ks[j] == key(init[j]);
      }
      forall i | 0 <= i < |xs|
        ensures Group(xs, key, key(xs[i])) == [xs[i]]
      {
        if i < |xs| - 1 {
          assert key(last) != key(xs[i]);
          assert Group(init, key, key(init[i])) == [xs[i]];
        } else {
          GroupEmpty(init, key, key(last));
        }
      }
    }
  }
}
