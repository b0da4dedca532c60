/** The search the store performs with `Array.prototype.find`: the first
    element, from the front, that satisfies a predicate. */
module Lookup {
  import opened Entities

  /** Index of the first element satisfying `p`, or None when there is none. */
  function FindIndex<T>(xs: seq<T>, p: T -> bool): (r: Option<nat>)
    ensures r.Some? ==> r.value < |xs| && p(xs[r.value])
    ensures r.Some? ==> forall j :: 0 <= j < r.value ==> !p(xs[j])
    ensures r.None? <==> forall j :: 0 <= j < |xs| ==> !p(xs[j])
  {
    if |xs| == 0 then None
    else if p(xs[0]) then Some(0)
    else match FindIndex(xs[1..], p)
      case None => None
      case Some(k) => Some(k + 1)
  }

  /** The first element satisfying `p`, as `find` returns it. */
  function Find<T>(xs: seq<T>, p: T -> bool): (r: Option<T>)
    ensures r.None? <==> forall j :: 0 <= j < |xs| ==> !p(xs[j])
    ensures r.Some? ==> r.value in xs && p(r.value)
    ensures r.Some? ==>
      exists i :: 0 <= i < |xs| && xs[i] == r.value && p(xs[i]) && forall j :: 0 <= j < i ==> !p(xs[j])
  {
    match FindIndex(xs, p)
    case None => None
    case Some(i) => Some(xs[i])
  }

  /** Two sequences of the same length whose elements satisfy `p` at the
      same positions have the same first match index. */
  lemma {:induction false} FindIndexSameHits<T>(xs: seq<T>, ys: seq<T>, p: T -> bool)
    requires |xs| == |ys|
    requires forall j :: 0 <= j < |xs| ==> (p(xs[j]) <==> p(ys[j]))
    ensures FindIndex(xs, p) == FindIndex(ys, p)
  {
    if |xs| > 0 && !p(xs[0]) {
      FindIndexSameHits(xs[1..], ys[1..], p);
    }
  }

  /** Appending an element never changes an existing first match, and a
      match appended to a sequence without one is found at the end. */
  lemma {:induction false} FindIndexAppend<T>(xs: seq<T>, x: T, p: T -> bool)
    ensures FindIndex(xs, p).Some? ==> FindIndex(xs + [x], p) == FindIndex(xs, p)
    ensures FindIndex(xs, p).None? && p(x) ==> FindIndex(xs + [x], p) == Some(|xs|)
  {
    if |xs| > 0 && !p(xs[0]) {
      assert (xs + [x])[1..] == xs[1..] + [x];
      FindIndexAppend(xs[1..], x, p);
    }
  }
}
