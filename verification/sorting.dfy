/**
 * `Array.prototype.sort` with a "newest/largest first" comparator
 * `(a, b) => rank(b) - rank(a)`. The standard requires a stable sort, and
 * for a consistent comparator every stable sort gives the same order, so a
 * stable insertion sort stands for it. A rank of `None` is a number that
 * coerces to NaN: such a comparison never reports "less", so the element
 * never moves ahead of its neighbour (the standard leaves that order to the
 * engine).
 */
module Sorting {
  import opened Wrappers

  /** `a` must come before `b`: both ranks are numbers and `a`'s is larger. */
  predicate Before<T>(rank: T -> Option<real>, a: T, b: T) {
    rank(a).Some? && rank(b).Some? && rank(a).value > rank(b).value
  }

  /** Every element has a numeric rank. */
  predicate Ranked<T>(rank: T -> Option<real>, s: seq<T>) {
    forall i :: 0 <= i < |s| ==> rank(s[i]).Some?
  }

  /** Ranks never increase along the sequence. */
  predicate NonIncreasing<T>(rank: T -> Option<real>, s: seq<T>)
    requires Ranked(rank, s)
  {
    forall i, j :: 0 <= i < j < |s| ==> rank(s[i]).value >= rank(s[j]).value
  }

  /** No element ranks above `bound`. */
  predicate AtMost<T>(rank: T -> Option<real>, s: seq<T>, bound: real)
    requires Ranked(rank, s)
  {
    forall i :: 0 <= i < |s| ==> rank(s[i]).value <= bound
  }

  /** Puts `x` just before the first element it must precede. */
  function Insert<T>(rank: T -> Option<real>, ys: seq<T>, x: T): (r: seq<T>)
    ensures multiset(r) == multiset(ys) + multiset{x}
    ensures |r| == |ys| + 1
    decreases |ys|
  {
    if |ys| == 0 then [x]
    else if Before(rank, x, ys[0]) then [x] + ys
    else
      assert ys == [ys[0]] + ys[1..];
      [ys[0]] + Insert(rank, ys[1..], x)
  }

  /** Inserting a ranked element keeps a ranked sequence ranked and bounded. */
  lemma {:induction false} InsertBounded<T>(rank: T -> Option<real>, ys: seq<T>, x: T, bound: real)
    requires Ranked(rank, ys) && rank(x).Some?
    ensures Ranked(rank, Insert(rank, ys, x))
    ensures AtMost(rank, ys, bound) && rank(x).value <= bound ==> AtMost(rank, Insert(rank, ys, x), bound)
    decreases |ys|
  {
    if |ys| > 0 && !Before(rank, x, ys[0]) {
      InsertBounded(rank, ys[1..], x, bound);
    }
  }

  /** Inserting into a non-increasing sequence keeps it non-increasing. */
  lemma {:induction false} InsertSorted<T>(rank: T -> Option<real>, ys: seq<T>, x: T)
    requires Ranked(rank, ys) && rank(x).Some? && NonIncreasing(rank, ys)
    ensures Ranked(rank, Insert(rank, ys, x)) && NonIncreasing(rank, Insert(rank, ys, x))
    decreases |ys|
  {
    InsertBounded(rank, ys, x, 0.0);
    if |ys| > 0 && !Before(rank, x, ys[0]) {
      var top := rank(ys[0]).value;
      InsertSorted(rank, ys[1..], x);
      InsertBounded(rank, ys[1..], x, top);
      var rest := Insert(rank, ys[1..], x);
      assert AtMost(rank, rest, top);
      assert Insert(rank, ys, x) == [ys[0]] + rest;
    }
  }

  /** The stable sort, largest rank first. */
  function SortBy<T>(rank: T -> Option<real>, xs: seq<T>): (r: seq<T>)
    ensures multiset(r) == multiset(xs)
    ensures |r| == |xs|
    ensures Ranked(rank, xs) ==> Ranked(rank, r) && NonIncreasing(rank, r)
    decreases |xs|
  {
    if |xs| == 0 then []
    else
      var init := xs[..|xs| - 1];
      assert xs == init + [xs[|xs| - 1]];
      assert Ranked(rank, xs) ==> Ranked(rank, init);
      var sorted := SortBy(rank, init);
      if Ranked(rank, xs) then
        InsertSorted(rank, sorted, xs[|xs| - 1]);
        Insert(rank, sorted, xs[|xs| - 1])
      else
        Insert(rank, sorted, xs[|xs| - 1])
  }
}
