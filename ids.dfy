/** Id allocation shared by the admin screens: `Math.max(...ids, 0) + 1`. */
module Ids {

  /** `Math.max(...ids, 0)`: the largest id, or 0 when there is none larger. */
  function MaxOrZero(ids: seq<int>): (m: int)
    ensures m >= 0
    ensures forall i :: 0 <= i < |ids| ==> ids[i] <= m
    ensures m == 0 || m in ids
  {
    if |ids| == 0 then 0
    else
      var rest := MaxOrZero(ids[1..]);
      if ids[0] > rest then ids[0] else rest
  }

  /** The id a new entry receives: strictly above every existing id, and positive. */
  function NextId(ids: seq<int>): (r: int)
    ensures r >= 1
    ensures forall i :: 0 <= i < |ids| ==> ids[i] < r
    ensures r !in ids
  {
    MaxOrZero(ids) + 1
  }

  /** Pairwise distinct ids. */
  predicate Distinct(ids: seq<int>) {
    forall i, j :: 0 <= i < j < |ids| ==> ids[i] != ids[j]
  }

  /** Appending a fresh id keeps ids distinct. */
  lemma DistinctAppendFresh(ids: seq<int>)
    requires Distinct(ids)
    ensures Distinct(ids + [NextId(ids)])
  {
    var n := NextId(ids);
    var s := ids + [n];
    forall i, j | 0 <= i < j < |s| ensures s[i] != s[j] {
      if j == |ids| { assert s[i] == ids[i]; }
    }
  }
}
