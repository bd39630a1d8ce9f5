/** Sequence helpers shared by the streaming loops. */
module Sequences {
  /** `f` applied to every element, in order. */
  function Map<A, B>(xs: seq<A>, f: A -> B): (ys: seq<B>)
    ensures |ys| == |xs|
    ensures forall i :: 0 <= i < |xs| ==> ys[i] == f(xs[i])
  {
    if xs == [] then [] else Map(xs[..|xs| - 1], f) + [f(xs[|xs| - 1])]
  }

  /** Mapping one more element appends its image. */
  lemma MapSnoc<A, B>(xs: seq<A>, x: A, f: A -> B)
    ensures Map(xs + [x], f) == Map(xs, f) + [f(x)]
  {
    assert (xs + [x])[..|xs|] == xs;
  }

  /** Mapping a longer prefix appends the image of the next element. */
  lemma MapPrefixStep<A, B>(xs: seq<A>, k: nat, f: A -> B)
    requires k < |xs|
    ensures Map(xs[..k + 1], f) == Map(xs[..k], f) + [f(xs[k])]
  {
    assert xs[..k + 1] == xs[..k] + [xs[k]];
    MapSnoc(xs[..k], xs[k], f);
  }
}
