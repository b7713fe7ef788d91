/**
 * Positions of a sequence picked out by a predicate. The counting
 * functions of the other modules state their result as the size of such
 * a set; the step lemma here keeps the classifying predicate folded.
 */
module Filtering {
  /** The positions of `s` whose element satisfies `p`. */
  function Positions<T>(s: seq<T>, p: T -> bool): set<nat> {
    set k | 0 <= k < |s| && p(s[k])
  }

  /** One more element adds its own position exactly when it satisfies `p`. */
  lemma PositionsSnoc<T>(s: seq<T>, p: T -> bool)
    requires |s| > 0
    ensures Positions(s, p) == Positions(s[..|s| - 1], p) + (if p(s[|s| - 1]) then {|s| - 1} else {})
  {
    var n := |s| - 1;
    assert forall k :: 0 <= k < n ==> s[..n][k] == s[k];
  }

  /**
   * A filter extended by one element: when `r0` holds exactly the elements
   * of `s` but its last that satisfy `p`, appending that last element when
   * it satisfies `p` gives exactly the elements of `s` that do.
   */
  lemma FilterSnoc<T>(r0: seq<T>, s: seq<T>, p: T -> bool)
    requires |s| > 0
    requires forall x :: x in r0 <==> x in s[..|s| - 1] && p(x)
    ensures forall x :: x in r0 + (if p(s[|s| - 1]) then [s[|s| - 1]] else []) <==> x in s && p(x)
  {
    assert s == s[..|s| - 1] + [s[|s| - 1]];
  }
}
