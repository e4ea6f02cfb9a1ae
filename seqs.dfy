/** Generic sequence helpers shared by the enrichers. */
module Seqs {
  /** The images under `f` of the elements whose image satisfies `keep`, in order. */
  function FilterMap<A, B(!new)>(xs: seq<A>, f: A -> B, keep: B -> bool): (r: seq<B>)
    ensures |r| <= |xs|
    ensures forall y :: y in r <==> exists i :: 0 <= i < |xs| && y == f(xs[i]) && keep(y)
  {
    if xs == [] then []
    else
      var rest := FilterMap(xs[..|xs| - 1], f, keep);
      assert forall i :: 0 <= i < |xs| - 1 ==> xs[..|xs| - 1][i] == xs[i];
      if keep(f(xs[|xs| - 1])) then rest + [f(xs[|xs| - 1])] else rest
  }

  /** The union of the sets `f` gives the elements. */
  function UnionMap<A, B>(xs: seq<A>, f: A -> set<B>): set<B> {
    if xs == [] then {} else UnionMap(xs[..|xs| - 1], f) + f(xs[|xs| - 1])
  }

  /** Something is in the union exactly when it is in the set of one of the elements. */
  lemma {:induction false} UnionMapMembers<A, B>(xs: seq<A>, f: A -> set<B>)
    ensures forall y :: y in UnionMap(xs, f) <==> exists i :: 0 <= i < |xs| && y in f(xs[i])
  {
    if xs != [] {
      var init := xs[..|xs| - 1];
      UnionMapMembers(init, f);
      assert forall i :: 0 <= i < |init| ==> init[i] == xs[i];
    }
  }

  /** A loop adding each element's set to an accumulator. */
  method AddAll<A, B>(acc: set<B>, xs: seq<A>, f: A -> set<B>) returns (acc': set<B>)
    ensures acc' == acc + UnionMap(xs, f)
  {
    acc' := acc;
    for i := 0 to |xs|
      invariant acc' == acc + UnionMap(xs[..i], f)
    {
      assert xs[..i + 1][..i] == xs[..i];
      acc' := acc' + f(xs[i]);
    }
    assert xs[..|xs|] == xs;
  }

  /** When every element's set lies within `bound`, so does the union. */
  lemma {:induction false} UnionMapWithin<A, B>(xs: seq<A>, f: A -> set<B>, bound: set<B>)
    requires forall i :: 0 <= i < |xs| ==> f(xs[i]) <= bound
    ensures UnionMap(xs, f) <= bound
  {
    if xs != [] {
      UnionMapWithin(xs[..|xs| - 1], f, bound);
    }
  }
}
