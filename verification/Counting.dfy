/** Sums over sequences and how one update changes them, and filters. */
module Counting {

  function SumBy<T>(xs: seq<T>, weight: T -> nat): (total: nat)
  {
    if xs == [] then 0 else weight(xs[0]) + SumBy(xs[1..], weight)
  }

  lemma {:induction false} SumUpdate<T>(xs: seq<T>, i: nat, x: T, weight: T -> nat)
    requires i < |xs|
    ensures SumBy(xs[i := x], weight) + weight(xs[i]) == SumBy(xs, weight) + weight(x)
  {
    if i == 0 {
      assert xs[i := x][1..] == xs[1..];
    } else {
      SumUpdate(xs[1..], i - 1, x, weight);
      assert xs[i := x][1..] == xs[1..][i - 1 := x];
    }
  }

  lemma {:induction false} SumMember<T>(xs: seq<T>, i: nat, weight: T -> nat)
    requires i < |xs|
    ensures weight(xs[i]) <= SumBy(xs, weight)
  {
    if i > 0 {
      SumMember(xs[1..], i - 1, weight);
    }
  }

  lemma {:induction false} SumZero<T>(xs: seq<T>, weight: T -> nat)
    requires forall i :: 0 <= i < |xs| ==> weight(xs[i]) == 0
    ensures SumBy(xs, weight) == 0
  {
    if xs != [] {
      SumZero(xs[1..], weight);
    }
  }

  lemma {:induction false} SumPositive<T>(xs: seq<T>, weight: T -> nat) returns (i: nat)
    requires SumBy(xs, weight) > 0
    ensures i < |xs| && weight(xs[i]) > 0
  {
    if weight(xs[0]) > 0 {
      i := 0;
    } else {
      i := SumPositive(xs[1..], weight);
      i := i + 1;
    }
  }

  function Filter<T>(xs: seq<T>, keep: T -> bool): seq<T> {
    if xs == [] then [] else (if keep(xs[0]) then [xs[0]] else []) + Filter(xs[1..], keep)
  }

  lemma Associate<T>(x: seq<T>, y: seq<T>, z: seq<T>)
    ensures (x + y) + z == x + (y + z)
  {
  }

  lemma {:induction false} FilterConcat<T>(xs: seq<T>, ys: seq<T>, keep: T -> bool)
    ensures Filter(xs + ys, keep) == Filter(xs, keep) + Filter(ys, keep)
  {
    if xs == [] {
      assert xs + ys == ys;
    } else {
      var head := if keep(xs[0]) then [xs[0]] else [];
      calc {
        Filter(xs + ys, keep);
        { assert (xs + ys)[1..] == xs[1..] + ys; }
        head + Filter(xs[1..] + ys, keep);
        { FilterConcat(xs[1..], ys, keep); }
        head + (Filter(xs[1..], keep) + Filter(ys, keep));
        { Associate(head, Filter(xs[1..], keep), Filter(ys, keep)); }
        Filter(xs, keep) + Filter(ys, keep);
      }
    }
  }

  lemma {:induction false} FilterAll<T>(xs: seq<T>, keep: T -> bool, kept: bool)
    requires forall i :: 0 <= i < |xs| ==> keep(xs[i]) == kept
    ensures Filter(xs, keep) == if kept then xs else []
  {
    if xs != [] {
      FilterAll(xs[1..], keep, kept);
      assert xs == [xs[0]] + xs[1..];
    }
  }

  lemma {:induction false} FilterIsPart<T>(xs: seq<T>, keep: T -> bool)
    ensures forall x :: x in Filter(xs, keep) <==> x in xs && keep(x)
  {
    if xs != [] {
      FilterIsPart(xs[1..], keep);
      assert xs == [xs[0]] + xs[1..];
    }
  }
}
