/**
 * Order-preserving filtering (Python's `[x for x in s if p(x)]` and the
 * append-if loops that build the same list) and concatenation of a list of
 * lists.
 */
module Seqs {

  /** The elements of `s` that satisfy `p`, in their original order. */
  function Filter<T>(s: seq<T>, p: T -> bool): (kept: seq<T>)
  {
    if s == [] then []
    else Filter(s[..|s| - 1], p) + (if p(s[|s| - 1]) then [s[|s| - 1]] else [])
  }

  /**
   * The positions of `s` that `Filter` keeps: strictly increasing, exactly
   * the positions whose element satisfies `p`, and `Filter(s, p)[k]` is the
   * element at the k-th kept position. Together these pin `Filter` down
   * completely, duplicates included.
   */
  function KeptIndices<T>(s: seq<T>, p: T -> bool): (idx: seq<nat>)
    ensures |idx| == |Filter(s, p)|
    ensures forall k :: 0 <= k < |idx| ==> idx[k] < |s| && Filter(s, p)[k] == s[idx[k]]
    ensures forall j, k :: 0 <= j < k < |idx| ==> idx[j] < idx[k]
    ensures forall i :: 0 <= i < |s| ==> (p(s[i]) <==> i in idx)
  {
    if s == [] then []
    else
      var front, last := s[..|s| - 1], |s| - 1;
      var rest := KeptIndices(front, p);
      assert forall i :: 0 <= i < |front| ==> s[i] == front[i];
      assert Filter(s, p) == Filter(front, p) + (if p(s[last]) then [s[last]] else []);
      assert forall k :: 0 <= k < |rest| ==> rest[k] < last;
      if p(s[last]) then rest + [last] else rest
  }

  /** `Filter` never lengthens its input and keeps only satisfying elements. */
  lemma FilterBounds<T>(s: seq<T>, p: T -> bool)
    ensures |Filter(s, p)| <= |s|
    ensures forall k :: 0 <= k < |Filter(s, p)| ==> p(Filter(s, p)[k])
  {
    var idx := KeptIndices(s, p);
    forall k | 0 <= k < |idx| ensures idx[k] >= k {
      IncreasingAtLeast(idx, k);
    }
  }

  lemma {:induction false} IncreasingAtLeast(idx: seq<nat>, k: nat)
    requires k < |idx|
    requires forall j, m :: 0 <= j < m < |idx| ==> idx[j] < idx[m]
    ensures idx[k] >= k
  {
    if k > 0 {
      IncreasingAtLeast(idx, k - 1);
    }
  }

  /** `Filter` keeps something exactly when some element satisfies `p`. */
  lemma FilterEmptyIff<T>(s: seq<T>, p: T -> bool)
    ensures Filter(s, p) == [] <==> forall i :: 0 <= i < |s| ==> !p(s[i])
  {
    var idx := KeptIndices(s, p);
    if i :| 0 <= i < |s| && p(s[i]) {
      assert i in idx;
    }
  }

  /** Concatenation of a list of lists (`for batch in batches: out.extend(batch)`). */
  function Flatten<T>(ss: seq<seq<T>>): (flat: seq<T>)
  {
    if ss == [] then [] else Flatten(ss[..|ss| - 1]) + ss[|ss| - 1]
  }

  function Min(a: int, b: int): (m: int) {
    if a <= b then a else b
  }
}
