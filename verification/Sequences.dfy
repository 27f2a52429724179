/** Order-preserving selection from a sequence. */
module Sequences {

  /** The elements of `xs` that belong to `keep`, in their order in `xs`. */
  function Restrict<T(==, !new)>(xs: seq<T>, keep: set<T>): (ys: seq<T>)
    ensures |ys| <= |xs|
    ensures forall y :: y in ys <==> y in xs && y in keep
  {
    if xs == [] then []
    else (if xs[0] in keep then [xs[0]] else []) + Restrict(xs[1..], keep)
  }

  predicate Distinct<T(==)>(xs: seq<T>) {
    forall i, j :: 0 <= i < j < |xs| ==> xs[i] != xs[j]
  }

  /** Whatever precedes in the selection precedes in the original. */
  lemma {:induction false} RestrictKeepsOrder<T(!new)>(xs: seq<T>, keep: set<T>, i: nat, j: nat) returns (a: nat, b: nat)
    requires i < j < |Restrict(xs, keep)|
    ensures a < b < |xs| && xs[a] == Restrict(xs, keep)[i] && xs[b] == Restrict(xs, keep)[j]
  {
    var tail := Restrict(xs[1..], keep);
    if xs[0] in keep && i == 0 {
      var y := tail[j - 1];
      assert y in tail;
      assert y in xs[1..];
      b :| 0 < b < |xs| && xs[b] == y;
      a := 0;
    } else {
      var d := if xs[0] in keep then 1 else 0;
      a, b := RestrictKeepsOrder(xs[1..], keep, i - d, j - d);
      a, b := a + 1, b + 1;
    }
  }

  lemma RestrictDistinct<T(!new)>(xs: seq<T>, keep: set<T>)
    requires Distinct(xs)
    ensures Distinct(Restrict(xs, keep))
  {
    var ys := Restrict(xs, keep);
    forall i, j | 0 <= i < j < |ys| ensures ys[i] != ys[j] {
      var a, b := RestrictKeepsOrder(xs, keep, i, j);
    }
  }

  lemma {:induction false} RestrictAppend<T(!new)>(xs: seq<T>, ys: seq<T>, keep: set<T>)
    ensures Restrict(xs + ys, keep) == Restrict(xs, keep) + Restrict(ys, keep)
  {
    if xs == [] {
      assert xs + ys == ys;
    } else {
      var head := if xs[0] in keep then [xs[0]] else [];
      calc {
        Restrict(xs + ys, keep);
        { assert (xs + ys)[0] == xs[0] && (xs + ys)[1..] == xs[1..] + ys; }
        head + Restrict(xs[1..] + ys, keep);
        { RestrictAppend(xs[1..], ys, keep); }
        head + (Restrict(xs[1..], keep) + Restrict(ys, keep));
        (head + Restrict(xs[1..], keep)) + Restrict(ys, keep);
        Restrict(xs, keep) + Restrict(ys, keep);
      }
    }
  }

  /** Selecting twice is selecting the common elements once. */
  lemma {:induction false} RestrictTwice<T(!new)>(xs: seq<T>, keep: set<T>, also: set<T>)
    ensures Restrict(Restrict(xs, keep), also) == Restrict(xs, keep * also)
  {
    if xs != [] {
      RestrictTwice(xs[1..], keep, also);
      var head := if xs[0] in keep then [xs[0]] else [];
      RestrictAppend(head, Restrict(xs[1..], keep), also);
    }
  }

  lemma {:induction false} RestrictSame<T(!new)>(xs: seq<T>, keep: set<T>, other: set<T>)
    requires forall x :: x in xs ==> (x in keep <==> x in other)
    ensures Restrict(xs, keep) == Restrict(xs, other)
  {
    if xs != [] {
      RestrictSame(xs[1..], keep, other);
    }
  }

  lemma {:induction false} DistinctCount<T(!new)>(xs: seq<T>, elements: set<T>)
    requires Distinct(xs) && forall x :: x in xs <==> x in elements
    ensures |xs| == |elements|
  {
    if xs == [] {
      assert elements == {};
    } else {
      assert xs[0] in elements;
      forall x | x in elements && x != xs[0] ensures x in xs[1..] {
        assert x in xs;
      }
      DistinctCount(xs[1..], elements - {xs[0]});
    }
  }
}
