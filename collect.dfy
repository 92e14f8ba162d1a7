/**
  Both scrapers walk a list of candidates and append an entry for every
  candidate whose reads succeed, skipping the others (`except Exception:
  continue`). With the per-candidate outcome written as an `Option`, that
  loop computes `Somes`: the values of the `Some` entries, in order.
 */
module Collect {
  import opened Wrappers

  /** The values of the `Some` entries of `xs`, in their order in `xs`. */
  function Somes<T>(xs: seq<Option<T>>): (r: seq<T>)
    ensures |r| <= |xs|
  {
    if xs == [] then []
    else Somes(xs[..|xs| - 1]) + (if xs[|xs| - 1].Some? then [xs[|xs| - 1].value] else [])
  }

  /** The positions of the `Some` entries of `xs`, in increasing order. */
  function SomeIndices<T>(xs: seq<Option<T>>): seq<nat>
  {
    if xs == [] then []
    else SomeIndices(xs[..|xs| - 1]) + (if xs[|xs| - 1].Some? then [|xs| - 1] else [])
  }

  /** The loop over candidates is a homomorphism: candidates kept from `xs + ys`
      are those kept from `xs` followed by those kept from `ys`. */
  lemma {:induction false} SomesAppend<T>(xs: seq<Option<T>>, ys: seq<Option<T>>)
    ensures Somes(xs + ys) == Somes(xs) + Somes(ys)
  {
    if ys == [] {
      assert xs + ys == xs;
    } else {
      var ys' := ys[..|ys| - 1];
      assert (xs + ys)[..|xs + ys| - 1] == xs + ys';
      SomesAppend(xs, ys');
    }
  }

  /** Every kept value comes from a distinct candidate position, the positions
      increase (the output keeps the input order), and a position is used
      exactly when its candidate succeeded. */
  lemma {:induction false} SomesIndexed<T>(xs: seq<Option<T>>)
    ensures |SomeIndices(xs)| == |Somes(xs)|
    ensures forall k :: 0 <= k < |SomeIndices(xs)| ==>
              SomeIndices(xs)[k] < |xs| && xs[SomeIndices(xs)[k]] == Some(Somes(xs)[k])
    ensures forall k, l :: 0 <= k < l < |SomeIndices(xs)| ==> SomeIndices(xs)[k] < SomeIndices(xs)[l]
    ensures forall i :: 0 <= i < |xs| ==> (xs[i].Some? <==> i in SomeIndices(xs))
  {
    if xs != [] {
      var xs' := xs[..|xs| - 1];
      SomesIndexed(xs');
      assert forall i :: 0 <= i < |xs'| ==> xs'[i] == xs[i];
    }
  }

  /** A candidate that fails is skipped and nothing else is lost: the output is
      the output of the candidates before it followed by that of the ones after. */
  lemma {:induction false} SomesSkip<T>(xs: seq<Option<T>>, i: nat)
    requires i < |xs| && xs[i].None?
    ensures Somes(xs) == Somes(xs[..i]) + Somes(xs[i + 1..])
  {
    var before, after := xs[..i], xs[i + 1..];
    assert xs == (before + [xs[i]]) + after;
    SomesAppend(before + [xs[i]], after);
    assert (before + [xs[i]])[..|before|] == before;
    assert Somes(before + [xs[i]]) == Somes(before);
  }

  /** The output is the output of the candidates before i, then that of
      candidate i, then that of the ones after it; and when candidate i fails
      instead, only its own entry is lost. */
  lemma SomesAround<T>(xs: seq<Option<T>>, i: nat)
    requires i < |xs|
    ensures Somes(xs) == Somes(xs[..i]) + Somes([xs[i]]) + Somes(xs[i + 1..])
    ensures Somes(xs[i := None]) == Somes(xs[..i]) + Somes(xs[i + 1..])
  {
    var broken := xs[i := None];
    assert xs == xs[..i] + [xs[i]] + xs[i + 1..];
    SomesAppend(xs[..i] + [xs[i]], xs[i + 1..]);
    SomesAppend(xs[..i], [xs[i]]);
    assert broken[..i] == xs[..i] && broken[i + 1..] == xs[i + 1..];
    SomesSkip(broken, i);
  }
}
