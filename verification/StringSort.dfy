/** Go's order on strings and the insertion sort that the commands use for stable output. */
module StringSort {

  /** a < b for Go strings: by code points, a proper prefix first. */
  predicate Less(a: string, b: string) {
    b != "" && (a == "" || a[0] < b[0] || (a[0] == b[0] && Less(a[1..], b[1..])))
  }

  /** Neighbours are in order among the first `n`. */
  predicate Ascending(s: seq<string>, n: nat)
    requires n <= |s|
  {
    forall q :: 0 < q < n ==> !Less(s[q], s[q - 1])
  }

  lemma {:induction false} LessOneWay(a: string, b: string)
    requires Less(a, b)
    ensures !Less(b, a)
  {
    if a != "" && a[0] == b[0] {
      LessOneWay(a[1..], b[1..]);
    }
  }

  lemma {:induction false} LessTotal(a: string, b: string)
    ensures a == b || Less(a, b) || Less(b, a)
  {
    if a != "" && b != "" && a[0] == b[0] {
      LessTotal(a[1..], b[1..]);
      assert a == [a[0]] + a[1..] && b == [b[0]] + b[1..];
    }
  }

  lemma {:induction false} LessTransitive(a: string, b: string, c: string)
    requires Less(a, b) && Less(b, c)
    ensures Less(a, c)
  {
    if a != "" && a[0] == b[0] == c[0] {
      LessTransitive(a[1..], b[1..], c[1..]);
    }
  }

  lemma NotLessTransitive(a: string, b: string, c: string)
    requires !Less(b, a) && !Less(c, b)
    ensures !Less(c, a)
  {
    LessTotal(a, b);
    LessTotal(b, c);
    if Less(c, a) {
      if a != b {
        LessTransitive(c, a, b);
      }
    }
  }

  lemma {:induction false} AscendingFar(s: seq<string>, i: nat, j: nat)
    requires Ascending(s, |s|) && i <= j < |s|
    ensures !Less(s[j], s[i])
  {
    if i < j {
      AscendingFar(s, i, j - 1);
      NotLessTransitive(s[i], s[j - 1], s[j]);
    } else {
      if Less(s[i], s[i]) {
        LessOneWay(s[i], s[i]);
      }
    }
  }

  /** The order of the output is settled by its contents. */
  lemma {:induction false} AscendingOnlyOneWay(a: seq<string>, b: seq<string>)
    requires Ascending(a, |a|) && Ascending(b, |b|) && multiset(a) == multiset(b)
    ensures a == b
    decreases |a|
  {
    assert |multiset(a)| == |a| && |multiset(b)| == |b|;
    if a != [] {
      var n := |a| - 1;
      SameLast(a, b);
      DropLast(a);
      DropLast(b);
      AscendingOnlyOneWay(a[..n], b[..n]);
    }
  }

  lemma DropLast(s: seq<string>)
    requires s != []
    ensures multiset(s[..|s| - 1]) == multiset(s) - multiset{s[|s| - 1]}
    ensures s == s[..|s| - 1] + [s[|s| - 1]]
  {
    assert s == s[..|s| - 1] + [s[|s| - 1]];
  }

  lemma SameLast(a: seq<string>, b: seq<string>)
    requires Ascending(a, |a|) && Ascending(b, |b|) && multiset(a) == multiset(b) && |a| == |b| && a != []
    ensures a[|a| - 1] == b[|b| - 1]
  {
    var n := |a| - 1;
    assert a[n] in multiset(b) && b[n] in multiset(a);
    var i :| 0 <= i < |b| && b[i] == a[n];
    var j :| 0 <= j < |a| && a[j] == b[n];
    AscendingFar(b, i, n);
    AscendingFar(a, j, n);
    LessTotal(a[n], b[n]);
  }

  lemma SwapKeepsContents(s: seq<string>, j: nat)
    requires 0 < j < |s|
    ensures multiset(s[j := s[j - 1]][j - 1 := s[j]]) == multiset(s)
  {
  }

  /** In order among the first `n`, were it not for the element at `j`. */
  predicate AscendingBut(s: seq<string>, n: nat, j: nat)
    requires j < n <= |s|
  {
    && (forall q :: 0 < q < n && q != j ==> !Less(s[q], s[q - 1]))
    && (0 < j && j + 1 < n ==> !Less(s[j + 1], s[j - 1]))
  }

  lemma SwapMovesDown(s: seq<string>, n: nat, j: nat)
    requires 0 < j < n <= |s| && AscendingBut(s, n, j) && Less(s[j], s[j - 1])
    ensures AscendingBut(s[j := s[j - 1]][j - 1 := s[j]], n, j - 1)
  {
    LessOneWay(s[j], s[j - 1]);
  }

  /** Takes element `i` down to its place among those before it, by neighbour swaps. */
  method Sink(a: array<string>, i: nat)
    requires i < a.Length && Ascending(a[..], i)
    modifies a
    ensures Ascending(a[..], i + 1) && multiset(a[..]) == multiset(old(a[..]))
  {
    var j := i;
    while j > 0 && Less(a[j], a[j - 1])
      invariant 0 <= j <= i && AscendingBut(a[..], i + 1, j)
      invariant multiset(a[..]) == multiset(old(a[..]))
    {
      ghost var s := a[..];
      SwapKeepsContents(s, j);
      SwapMovesDown(s, i + 1, j);
      a[j], a[j - 1] := a[j - 1], a[j];
      assert a[..] == s[j := s[j - 1]][j - 1 := s[j]];
      j := j - 1;
    }
  }

  /** Insertion sort by neighbour swaps. */
  method SortInPlace(a: array<string>)
    modifies a
    ensures Ascending(a[..], a.Length) && multiset(a[..]) == multiset(old(a[..]))
  {
    var i := 1;
    while i < a.Length
      invariant 1 <= i && (i <= a.Length || a.Length == 0)
      invariant Ascending(a[..], if i <= a.Length then i else 0)
      invariant multiset(a[..]) == multiset(old(a[..]))
    {
      Sink(a, i);
      i := i + 1;
    }
  }

  /** The elements of a set, in order, whatever order they are taken from it. */
  method SortSet(elements: set<string>) returns (sorted: seq<string>)
    ensures IsOrdering(sorted, elements)
  {
    var a := new string[|elements|];
    var left, n := elements, 0;
    while left != {}
      invariant left <= elements && n == |elements| - |left| && n >= 0
      invariant multiset(a[..n]) + multiset(left) == multiset(elements)
      decreases |left|
    {
      var x :| x in left;
      a[n] := x;
      assert a[..n + 1] == a[..n] + [x];
      assert multiset(left) == multiset(left - {x}) + multiset{x};
      left, n := left - {x}, n + 1;
    }
    assert a[..n] == a[..];
    SortInPlace(a);
    return a[..];
  }

  predicate IsOrdering(s: seq<string>, elements: set<string>) {
    Ascending(s, |s|) && multiset(s) == multiset(elements)
  }

  lemma OrderingMembers(s: seq<string>, elements: set<string>)
    requires IsOrdering(s, elements)
    ensures |s| == |elements| && forall x :: x in s <==> x in elements
  {
    assert |multiset(s)| == |s| && |multiset(elements)| == |elements|;
    assert forall x :: x in s <==> x in multiset(s);
  }

  /** In order of their keys. */
  predicate SortedBy<T>(xs: seq<T>, key: T -> string) {
    forall q :: 0 < q < |xs| ==> !Less(key(xs[q]), key(xs[q - 1]))
  }

  /** Any sorting by a key; which of several elements with one key comes first is not settled. */
  method SortBy<T>(xs: seq<T>, key: T -> string) returns (sorted: seq<T>)
    ensures SortedBy(sorted, key) && multiset(sorted) == multiset(xs)
  {
    sorted := [];
    for i := 0 to |xs|
      invariant SortedBy(sorted, key) && multiset(sorted) == multiset(xs[..i])
    {
      sorted := Insert(sorted, xs[i], key);
      assert xs[..i + 1] == xs[..i] + [xs[i]];
    }
    assert xs[..|xs|] == xs;
  }

  method Insert<T>(xs: seq<T>, x: T, key: T -> string) returns (more: seq<T>)
    requires SortedBy(xs, key)
    ensures SortedBy(more, key) && multiset(more) == multiset(xs) + multiset{x}
  {
    var j: nat := |xs|;
    while j > 0 && Less(key(x), key(xs[j - 1]))
      invariant j <= |xs| && (j < |xs| ==> Less(key(x), key(xs[j])))
    {
      j := j - 1;
    }
    more := xs[..j] + [x] + xs[j..];
    InsertedInOrder(xs, x, key, j);
    assert xs == xs[..j] + xs[j..];
  }

  lemma InsertedInOrder<T>(xs: seq<T>, x: T, key: T -> string, j: nat)
    requires SortedBy(xs, key) && j <= |xs|
    requires j > 0 ==> !Less(key(x), key(xs[j - 1]))
    requires j < |xs| ==> Less(key(x), key(xs[j]))
    ensures SortedBy(xs[..j] + [x] + xs[j..], key)
  {
    if j < |xs| {
      LessOneWay(key(x), key(xs[j]));
    }
  }

  lemma SameMembers<T>(a: seq<T>, b: seq<T>)
    requires multiset(a) == multiset(b)
    ensures forall x :: x in a <==> x in b
  {
    assert forall x :: x in a <==> x in multiset(a);
    assert forall x :: x in b <==> x in multiset(b);
  }
}
