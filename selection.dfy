/**
 * Order-preserving selection from a sequence: the shape of a Python list
 * comprehension `[x for x in xs if p(x)]` and of a loop that appends only the
 * elements that pass a test.
 */
module Selection {

  /** The elements of `xs` that satisfy `p`, in their original order. */
  function Filter<T>(p: T -> bool, xs: seq<T>): (r: seq<T>)
    ensures |r| <= |xs|
    ensures forall k :: 0 <= k < |r| ==> p(r[k])
  {
    if xs == [] then []
    else
      var init := Filter(p, xs[..|xs| - 1]);
      if p(xs[|xs| - 1]) then init + [xs[|xs| - 1]] else init
  }

  /**
   * The positions of `xs` whose elements satisfy `p`, strictly ascending:
   * every listed position passes the test and every passing position is listed.
   */
  function Picked<T>(p: T -> bool, xs: seq<T>): (idx: seq<nat>)
    ensures forall k :: 0 <= k < |idx| ==> idx[k] < |xs| && p(xs[idx[k]])
    ensures forall k, l :: 0 <= k < l < |idx| ==> idx[k] < idx[l]
    ensures forall i :: 0 <= i < |xs| && p(xs[i]) ==> i in idx
  {
    if xs == [] then []
    else
      var init := Picked(p, xs[..|xs| - 1]);
      if p(xs[|xs| - 1]) then init + [|xs| - 1] else init
  }

  /** Appending one element extends the filtered sequence by it exactly when it passes. */
  lemma FilterSnoc<T>(p: T -> bool, xs: seq<T>, x: T)
    ensures Filter(p, xs + [x]) == if p(x) then Filter(p, xs) + [x] else Filter(p, xs)
  {
    assert (xs + [x])[..|xs|] == xs;
  }

  /**
   * `Filter` keeps exactly the elements at the positions `Picked` lists, in that
   * order: nothing that passes is dropped, nothing that fails is kept, and the
   * survivors keep their relative order.
   */
  lemma {:induction false} FilterIsPicked<T>(p: T -> bool, xs: seq<T>)
    ensures |Filter(p, xs)| == |Picked(p, xs)|
    ensures forall k :: 0 <= k < |Picked(p, xs)| ==> Filter(p, xs)[k] == xs[Picked(p, xs)[k]]
  {
    if xs != [] {
      var init := xs[..|xs| - 1];
      FilterIsPicked(p, init);
      assert forall i :: 0 <= i < |init| ==> init[i] == xs[i];
    }
  }

  /** A position is listed by `Picked` exactly when its element passes the test. */
  lemma PickedExactly<T>(p: T -> bool, xs: seq<T>, i: nat)
    requires i < |xs|
    ensures i in Picked(p, xs) <==> p(xs[i])
  {
    var idx := Picked(p, xs);
    if i in idx {
      var k :| 0 <= k < |idx| && idx[k] == i;
    }
  }
}
