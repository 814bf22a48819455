/** Mapping a fallible function over a sequence in order, as a LINQ
    `Select(...).ToList()` does when the selector can throw: the first
    element whose image fails fails the whole list with that failure. */
module Traversal {
  import opened Wrappers

  function MapResults<A, B, E>(f: A -> Result<B, E>, xs: seq<A>): (r: Result<seq<B>, E>)
    ensures r.Success? ==> |r.value| == |xs|
    decreases |xs|
  {
    if xs == [] then
      Success([])
    else
      var prefix := MapResults(f, xs[..|xs| - 1]);
      if prefix.Failure? then
        Failure(prefix.error)
      else
        var last := f(xs[|xs| - 1]);
        if last.Failure? then Failure(last.error) else Success(prefix.value + [last.value])
  }

  /** The list is built exactly when every element maps, and then it holds
      the images in order. */
  lemma {:induction false} MapResultsMeaning<A, B, E>(f: A -> Result<B, E>, xs: seq<A>)
    ensures MapResults(f, xs).Success? <==> forall i :: 0 <= i < |xs| ==> f(xs[i]).Success?
    ensures MapResults(f, xs).Success? ==>
      forall i :: 0 <= i < |xs| ==> MapResults(f, xs).value[i] == f(xs[i]).value
    decreases |xs|
  {
    if xs != [] {
      var init := xs[..|xs| - 1];
      MapResultsMeaning(f, init);
      assert forall i :: 0 <= i < |init| ==> xs[i] == init[i];
      if MapResults(f, init).Failure? {
        var k :| 0 <= k < |init| && f(init[k]).Failure?;
        assert f(xs[k]).Failure?;
      }
    }
  }

  /** Once a prefix fails, the whole list fails the same way. */
  lemma {:induction false} MapResultsPrefixFailure<A, B, E>(f: A -> Result<B, E>, xs: seq<A>, n: nat)
    requires n <= |xs| && MapResults(f, xs[..n]).Failure?
    ensures MapResults(f, xs) == MapResults(f, xs[..n])
    decreases |xs| - n
  {
    if n < |xs| {
      assert xs[..n + 1][..n] == xs[..n];
      MapResultsPrefixFailure(f, xs, n + 1);
    } else {
      assert xs[..n] == xs;
    }
  }

  /** Mapping one more element after a prefix that mapped extends the
      prefix's images, or fails the whole list with that element's failure. */
  lemma MapResultsStep<A, B, E>(f: A -> Result<B, E>, xs: seq<A>, i: nat)
    requires i < |xs| && MapResults(f, xs[..i]).Success?
    ensures f(xs[i]).Success? ==>
      MapResults(f, xs[..i + 1]) == Success(MapResults(f, xs[..i]).value + [f(xs[i]).value])
    ensures f(xs[i]).Failure? ==> MapResults(f, xs) == Failure(f(xs[i]).error)
  {
    assert xs[..i + 1][..i] == xs[..i];
    if f(xs[i]).Failure? {
      MapResultsPrefixFailure(f, xs, i + 1);
    }
  }

  /** The failure of a list is the failure of its first failing element. */
  lemma MapResultsFirstFailure<A, B, E>(f: A -> Result<B, E>, xs: seq<A>, k: nat)
    requires k < |xs| && f(xs[k]).Failure?
    requires forall j :: 0 <= j < k ==> f(xs[j]).Success?
    ensures MapResults(f, xs) == Failure(f(xs[k]).error)
  {
    MapResultsMeaning(f, xs[..k]);
    assert forall j :: 0 <= j < k ==> xs[..k][j] == xs[j];
    MapResultsStep(f, xs, k);
  }
}
