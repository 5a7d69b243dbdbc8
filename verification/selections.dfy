/** In-order selections from a sequence: the shape of every filtering loop in the operator. */
module Selections {

  function Pick<T>(xs: seq<T>, keep: T -> bool): seq<T> {
    if xs == [] then []
    else
      var before, last := Pick(xs[..|xs| - 1], keep), xs[|xs| - 1];
      if keep(last) then before + [last] else before
  }

  /** The step of a loop that has looked at `i` elements. */
  lemma PickStep<T>(xs: seq<T>, i: nat, keep: T -> bool)
    requires i < |xs|
    ensures Pick(xs[..i + 1], keep) == if keep(xs[i]) then Pick(xs[..i], keep) + [xs[i]] else Pick(xs[..i], keep)
  {
    assert xs[..i + 1][..i] == xs[..i];
  }

  lemma PickWhole<T>(xs: seq<T>, keep: T -> bool)
    ensures Pick(xs[..|xs|], keep) == Pick(xs, keep)
  {
    assert xs[..|xs|] == xs;
  }

  /** The positions `Pick` takes its elements from. */
  function Positions<T>(xs: seq<T>, keep: T -> bool): seq<nat> {
    if xs == [] then []
    else
      var n := |xs| - 1;
      var before := Positions(xs[..n], keep);
      if keep(xs[n]) then before + [n] else before
  }

  lemma {:induction false} PositionsAreBounded<T>(xs: seq<T>, keep: T -> bool)
    ensures forall p :: p in Positions(xs, keep) ==> p < |xs|
  {
    if xs != [] {
      PositionsAreBounded(xs[..|xs| - 1], keep);
    }
  }

  /** `Pick` keeps the order of the sequence ... */
  lemma {:induction false} PositionsAscend<T>(xs: seq<T>, keep: T -> bool)
    ensures forall i, j :: 0 <= i < j < |Positions(xs, keep)| ==> Positions(xs, keep)[i] < Positions(xs, keep)[j]
  {
    if xs != [] {
      var before := Positions(xs[..|xs| - 1], keep);
      PositionsAscend(xs[..|xs| - 1], keep);
      PositionsAreBounded(xs[..|xs| - 1], keep);
      assert forall i :: 0 <= i < |before| ==> before[i] in before;
    }
  }

  /** ... takes exactly the elements that satisfy the predicate ... */
  lemma {:induction false} PositionsAreExact<T>(xs: seq<T>, keep: T -> bool, p: nat)
    requires p < |xs|
    ensures p in Positions(xs, keep) <==> keep(xs[p])
  {
    var n := |xs| - 1;
    PositionsAreBounded(xs[..n], keep);
    if p < n {
      PositionsAreExact(xs[..n], keep, p);
    }
  }

  /** ... and nothing else. */
  lemma {:induction false} PickAtPositions<T>(xs: seq<T>, keep: T -> bool, i: nat)
    requires i < |Pick(xs, keep)|
    ensures |Positions(xs, keep)| == |Pick(xs, keep)|
    ensures Positions(xs, keep)[i] < |xs| && Pick(xs, keep)[i] == xs[Positions(xs, keep)[i]]
  {
    var n := |xs| - 1;
    PositionsCount(xs[..n], keep);
    if i < |Pick(xs[..n], keep)| {
      PickAtPositions(xs[..n], keep, i);
    }
  }

  lemma {:induction false} PositionsCount<T>(xs: seq<T>, keep: T -> bool)
    ensures |Positions(xs, keep)| == |Pick(xs, keep)|
  {
    if xs != [] {
      PositionsCount(xs[..|xs| - 1], keep);
    }
  }

  lemma {:induction false} PickMembers<T>(xs: seq<T>, keep: T -> bool)
    ensures forall x :: x in Pick(xs, keep) <==> x in xs && keep(x)
    ensures |Pick(xs, keep)| <= |xs|
    ensures |Pick(xs, keep)| == |xs| <==> forall x :: x in xs ==> keep(x)
    ensures |Pick(xs, keep)| == |xs| ==> Pick(xs, keep) == xs
  {
    if xs != [] {
      var before, last := xs[..|xs| - 1], xs[|xs| - 1];
      PickMembers(before, keep);
      assert xs == before + [last];
      assert forall x :: x in xs <==> x in before || x == last;
    }
  }

  /** Predicates that agree on the elements select the same. */
  lemma {:induction false} PickSame<T>(xs: seq<T>, p: T -> bool, q: T -> bool)
    requires forall x :: x in xs ==> p(x) == q(x)
    ensures Pick(xs, p) == Pick(xs, q)
  {
    if xs != [] {
      assert forall x :: x in xs[..|xs| - 1] ==> x in xs;
      PickSame(xs[..|xs| - 1], p, q);
    }
  }

  lemma {:induction false} PickConcat<T>(xs: seq<T>, ys: seq<T>, keep: T -> bool)
    ensures Pick(xs + ys, keep) == Pick(xs, keep) + Pick(ys, keep)
  {
    if ys == [] {
      assert xs + ys == xs;
    } else {
      var n := |ys| - 1;
      assert (xs + ys)[..|xs + ys| - 1] == xs + ys[..n];
      PickConcat(xs, ys[..n], keep);
    }
  }

  /** What is picked from a prefix is picked from the whole. */
  lemma PickPrefix<T>(xs: seq<T>, i: nat, keep: T -> bool)
    requires i <= |xs|
    ensures Pick(xs[..i], keep) <= Pick(xs, keep)
  {
    assert xs == xs[..i] + xs[i..];
    PickConcat(xs[..i], xs[i..], keep);
  }
}
