/**
 * The list operations the admin screens apply to their in-memory records:
 * `filter`, the ids of a list, and pairwise-distinct ids.
 */
module Listing {
  import Ids

  /** `xs.filter(keep)`: the elements that pass, in their original order. */
  function Filter<T>(xs: seq<T>, keep: T -> bool): (r: seq<T>)
    ensures |r| <= |xs|
  {
    if xs == [] then []
    else (if keep(xs[0]) then [xs[0]] else []) + Filter(xs[1..], keep)
  }

  /** An element is kept exactly when it is in the list and passes. */
  lemma {:induction false} FilterMembers<T>(xs: seq<T>, keep: T -> bool, x: T)
    ensures x in Filter(xs, keep) <==> x in xs && keep(x)
  {
    if xs != [] {
      FilterMembers(xs[1..], keep, x);
      assert xs == [xs[0]] + xs[1..];
    }
  }

  /** Filtering a concatenation filters each part and keeps them in order. */
  lemma {:induction false} FilterConcat<T>(a: seq<T>, b: seq<T>, keep: T -> bool)
    ensures Filter(a + b, keep) == Filter(a, keep) + Filter(b, keep)
  {
    if a == [] {
      assert a + b == b;
    } else {
      var head := if keep(a[0]) then [a[0]] else [];
      assert (a + b)[0] == a[0] && (a + b)[1..] == a[1..] + b;
      assert Filter(a + b, keep) == head + Filter(a[1..] + b, keep);
      FilterConcat(a[1..], b, keep);
      assert Filter(a, keep) == head + Filter(a[1..], keep);
    }
  }

  /** When every element passes, nothing is removed. */
  lemma {:induction false} FilterKeepsAll<T>(xs: seq<T>, keep: T -> bool)
    requires forall i :: 0 <= i < |xs| ==> keep(xs[i])
    ensures Filter(xs, keep) == xs
  {
    if xs != [] {
      FilterKeepsAll(xs[1..], keep);
      assert xs == [xs[0]] + xs[1..];
    }
  }

  /** Every element is kept or dropped: the two filters together hold each element exactly as often as the list. */
  lemma {:induction false} FilterSplits<T>(xs: seq<T>, keep: T -> bool, drop: T -> bool)
    requires forall x :: drop(x) == !keep(x)
    ensures multiset(Filter(xs, keep)) + multiset(Filter(xs, drop)) == multiset(xs)
  {
    if xs != [] {
      var rest := xs[1..];
      FilterSplits(rest, keep, drop);
      assert xs == [xs[0]] + rest;
      var kept := if keep(xs[0]) then [xs[0]] else [];
      var dropped := if drop(xs[0]) then [xs[0]] else [];
      assert Filter(xs, keep) == kept + Filter(rest, keep);
      assert Filter(xs, drop) == dropped + Filter(rest, drop);
      assert multiset(kept) + multiset(dropped) == multiset{xs[0]};
      assert multiset(Filter(xs, keep)) == multiset(kept) + multiset(Filter(rest, keep));
      assert multiset(Filter(xs, drop)) == multiset(dropped) + multiset(Filter(rest, drop));
    }
  }

  /** The ids of a list, position by position. */
  function Keys<T>(xs: seq<T>, key: T -> int): (ks: seq<int>)
    ensures |ks| == |xs|
    ensures forall i :: 0 <= i < |xs| ==> ks[i] == key(xs[i])
  {
    seq(|xs|, i requires 0 <= i < |xs| => key(xs[i]))
  }

  /** No two positions carry the same id. */
  predicate DistinctBy<T>(xs: seq<T>, key: T -> int) {
    forall i, j :: 0 <= i < j < |xs| ==> key(xs[i]) != key(xs[j])
  }

  /** Removing elements keeps ids distinct. */
  lemma {:induction false} FilterDistinct<T>(xs: seq<T>, key: T -> int, keep: T -> bool)
    requires DistinctBy(xs, key)
    ensures DistinctBy(Filter(xs, keep), key)
  {
    if xs != [] {
      var tail := xs[1..];
      assert DistinctBy(tail, key) by {
        forall i, j | 0 <= i < j < |tail| ensures key(tail[i]) != key(tail[j]) {
          assert tail[i] == xs[i + 1] && tail[j] == xs[j + 1];
        }
      }
      FilterDistinct(tail, key, keep);
      var rest := Filter(tail, keep);
      forall k | 0 <= k < |rest| ensures key(rest[k]) != key(xs[0]) {
        FilterMembers(tail, keep, rest[k]);
        assert rest[k] in tail;
        var m :| 0 <= m < |tail| && tail[m] == rest[k];
        assert xs[m + 1] == rest[k];
      }
    }
  }

  /** Appending an element whose id is above every existing id keeps ids distinct. */
  lemma AppendAboveDistinct<T>(xs: seq<T>, key: T -> int, y: T)
    requires DistinctBy(xs, key)
    requires forall i :: 0 <= i < |xs| ==> key(xs[i]) < key(y)
    ensures DistinctBy(xs + [y], key)
  {
  }

  /** Appending an element under the next id keeps ids distinct. */
  lemma AppendFreshDistinct<T>(xs: seq<T>, key: T -> int, y: T)
    requires DistinctBy(xs, key)
    requires key(y) == Ids.NextId(Keys(xs, key))
    ensures DistinctBy(xs + [y], key)
  {
    var ks := Keys(xs, key);
    forall i | 0 <= i < |xs| ensures key(xs[i]) < key(y) {
      assert ks[i] == key(xs[i]);
    }
    AppendAboveDistinct(xs, key, y);
  }

  /** A list whose ids are strictly increasing has distinct ids. */
  lemma IncreasingDistinct<T>(xs: seq<T>, key: T -> int)
    requires forall i :: 0 <= i < |xs| - 1 ==> key(xs[i]) < key(xs[i + 1])
    ensures DistinctBy(xs, key)
  {
    forall i, j | 0 <= i < j < |xs| ensures key(xs[i]) < key(xs[j]) {
      IncreasingBetween(xs, key, i, j);
    }
  }

  lemma {:induction false} IncreasingBetween<T>(xs: seq<T>, key: T -> int, i: int, j: int)
    requires forall k :: 0 <= k < |xs| - 1 ==> key(xs[k]) < key(xs[k + 1])
    requires 0 <= i < j < |xs|
    ensures key(xs[i]) < key(xs[j])
    decreases j - i
  {
    if j > i + 1 {
      IncreasingBetween(xs, key, i, j - 1);
    }
  }
}
