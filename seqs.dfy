/** List operations shared by the three programs: a list comprehension
    with a filter, and "truncate or pad to a fixed length". */
module Seqs {

  function Min(a: int, b: int): int {
    if a <= b then a else b
  }

  /** xs can be obtained from ys by deleting elements (order kept). */
  ghost predicate IsSubsequence<T>(xs: seq<T>, ys: seq<T>)
    decreases |ys|
  {
    xs == [] ||
    (ys != [] &&
     ((xs[0] == ys[0] && IsSubsequence(xs[1..], ys[1..])) || IsSubsequence(xs, ys[1..])))
  }

  /** `[x for x in s if p(x)]`. */
  function Keep<T(==,!new)>(s: seq<T>, p: T -> bool): (r: seq<T>)
    ensures |r| <= |s|
    ensures forall x :: x in r <==> x in s && p(x)
    ensures forall x :: multiset(r)[x] == if p(x) then multiset(s)[x] else 0
    ensures IsSubsequence(r, s)
  {
    if s == [] then []
    else
      assert s == [s[0]] + s[1..];
      if p(s[0]) then [s[0]] + Keep(s[1..], p) else Keep(s[1..], p)
  }

  /** The first n elements of xs, followed by as many copies of filler as
      it takes to reach exactly n elements. */
  function TruncatePad<T>(xs: seq<T>, n: nat, filler: T): (r: seq<T>)
    ensures |r| == n
    ensures forall k :: 0 <= k < Min(n, |xs|) ==> r[k] == xs[k]
    ensures forall k :: Min(n, |xs|) <= k < n ==> r[k] == filler
  {
    xs[..Min(n, |xs|)] + seq(n - Min(n, |xs|), _ => filler)
  }
}
