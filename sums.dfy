/**
 * Sums over sets and sequences, for the iterator `sum`s of the puzzles (an
 * iterator over a hash set visits its items in no fixed order; the sum does
 * not depend on it).
 */
module Sums {

  /** The sum of `f` over the items of a set. */
  ghost function SetSum<T>(s: set<T>, f: T -> int): int
    decreases |s|
  {
    if s == {} then 0 else var x :| x in s; f(x) + SetSum(s - {x}, f)
  }

  /** Any item can be taken out first: the sum does not depend on the order. */
  lemma {:induction false} SetSumRemove<T>(s: set<T>, f: T -> int, y: T)
    requires y in s
    ensures SetSum(s, f) == f(y) + SetSum(s - {y}, f)
    decreases |s|
  {
    var x :| x in s && SetSum(s, f) == f(x) + SetSum(s - {x}, f);
    if x != y {
      SetSumRemove(s - {x}, f, y);
      SetSumRemove(s - {y}, f, x);
      assert s - {x} - {y} == s - {y} - {x};
    }
  }

  /** An upper bound on each item bounds the sum. */
  lemma {:induction false} SetSumUpper<T>(s: set<T>, f: T -> int, hi: int)
    requires forall x :: x in s ==> f(x) <= hi
    ensures SetSum(s, f) <= hi * |s|
    decreases |s|
  {
    if s != {} {
      var x :| x in s && SetSum(s, f) == f(x) + SetSum(s - {x}, f);
      var rest := s - {x};
      SetSumUpper(rest, f, hi);
      assert |s| == |rest| + 1;
      MulSucc(hi, |rest|);
    }
  }

  /** A lower bound on each item bounds the sum. */
  lemma {:induction false} SetSumLower<T>(s: set<T>, f: T -> int, lo: int)
    requires forall x :: x in s ==> lo <= f(x)
    ensures lo * |s| <= SetSum(s, f)
    decreases |s|
  {
    if s != {} {
      var x :| x in s && SetSum(s, f) == f(x) + SetSum(s - {x}, f);
      var rest := s - {x};
      SetSumLower(rest, f, lo);
      assert |s| == |rest| + 1;
      MulSucc(lo, |rest|);
    }
  }

  /** Sums of functions that agree on the set are equal. */
  lemma {:induction false} SetSumSame<T>(s: set<T>, f: T -> int, g: T -> int)
    requires forall x :: x in s ==> f(x) == g(x)
    ensures SetSum(s, f) == SetSum(s, g)
    decreases |s|
  {
    if s != {} {
      var x :| x in s && SetSum(s, f) == f(x) + SetSum(s - {x}, f);
      SetSumRemove(s, g, x);
      SetSumSame(s - {x}, f, g);
    }
  }

  lemma MulSucc(c: int, n: nat)
    ensures c * (n + 1) == c * n + c
  {
  }

  /** The sum of a sequence, left to right. */
  function SeqSum(s: seq<int>): int {
    if |s| == 0 then 0 else SeqSum(s[..|s| - 1]) + s[|s| - 1]
  }

  lemma {:induction false} SeqSumAppend(a: seq<int>, b: seq<int>)
    ensures SeqSum(a + b) == SeqSum(a) + SeqSum(b)
    decreases |b|
  {
    if |b| == 0 {
      assert a + b == a;
    } else {
      SeqSumAppend(a, b[..|b| - 1]);
      assert (a + b)[..|a + b| - 1] == a + b[..|b| - 1];
    }
  }
}
