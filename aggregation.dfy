/**
 * The one evaluation shared by every bulk query and enforcing check of a
 * Subject: apply a single yes/no check to each element of a request, combine
 * the answers with "and", or find the first element that fails.
 */
module Aggregation {
  import opened Wrappers

  /** Bulk answer: entry i answers exactly xs[i], duplicates and order kept. */
  function Each<T>(check: T -> bool, xs: seq<T>): (r: seq<bool>)
    ensures |r| == |xs|
    ensures forall i :: 0 <= i < |xs| ==> r[i] == check(xs[i])
  {
    if xs == [] then [] else [check(xs[0])] + Each(check, xs[1..])
  }

  /** Conjunction of the single checks; vacuously true for an empty request. */
  function All<T>(check: T -> bool, xs: seq<T>): (r: bool)
    ensures r <==> forall i :: 0 <= i < |xs| ==> check(xs[i])
  {
    xs == [] || (check(xs[0]) && All(check, xs[1..]))
  }

  /**
   * Fail-fast enforcement: the index of the first element whose check fails,
   * or nothing when every check passes.
   */
  function FirstFailing<T>(check: T -> bool, xs: seq<T>): (r: Option<nat>)
    ensures r.None? <==> forall i :: 0 <= i < |xs| ==> check(xs[i])
    ensures r.Some? ==> r.value < |xs| && !check(xs[r.value])
    ensures r.Some? ==> forall j :: 0 <= j < r.value ==> check(xs[j])
  {
    if xs == [] then None
    else if !check(xs[0]) then Some(0)
    else match FirstFailing(check, xs[1..])
      case None => None
      case Some(k) => Some(k + 1)
  }

  /** "All" holds exactly when the bulk answer holds no `false`. */
  lemma AllIffNoneDenied<T>(check: T -> bool, xs: seq<T>)
    ensures All(check, xs) <==> false !in Each(check, xs)
  {
  }

  /**
   * "All" looks only at which elements are asked for: reordering the request
   * or repeating an element does not change the answer.
   */
  lemma AllDependsOnlyOnMembers<T>(check: T -> bool, xs: seq<T>, ys: seq<T>)
    requires forall x :: x in xs <==> x in ys
    ensures All(check, xs) == All(check, ys)
  {
    if !All(check, xs) {
      var i :| 0 <= i < |xs| && !check(xs[i]);
      assert xs[i] in ys;
      var j :| 0 <= j < |ys| && ys[j] == xs[i];
    } else {
      forall j | 0 <= j < |ys| ensures check(ys[j]) {
        assert ys[j] in xs;
        var i :| 0 <= i < |xs| && xs[i] == ys[j];
      }
    }
  }
}
