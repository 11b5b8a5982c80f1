/**
 * Ascending sorts of integer lists, as Rust's `sort` and Python's `sorted`
 * produce them: the in-place array sort, the value it is specified by, and
 * the fact that a sorted permutation is unique.
 */
module Sorting {

  predicate Sorted(s: seq<int>) {
    forall p, q :: 0 <= p < q < |s| ==> s[p] <= s[q]
  }

  /** Inserting `x` into a sorted list at the first place where it fits. */
  function Insert(s: seq<int>, x: int): (r: seq<int>)
    requires Sorted(s)
    ensures Sorted(r) && multiset(r) == multiset(s) + multiset{x} && |r| == |s| + 1
    decreases |s|
  {
    if |s| == 0 then [x]
    else if x <= s[0] then [x] + s
    else
      var rest := Insert(s[1..], x);
      InsertFront(s, x, rest);
      [s[0]] + rest
  }

  /** Putting the head back in front of the rest with `x` inserted. */
  lemma InsertFront(s: seq<int>, x: int, rest: seq<int>)
    requires Sorted(s) && |s| > 0 && s[0] < x
    requires Sorted(rest) && multiset(rest) == multiset(s[1..]) + multiset{x}
    ensures Sorted([s[0]] + rest) && multiset([s[0]] + rest) == multiset(s) + multiset{x}
  {
    assert multiset(s) == multiset{s[0]} + multiset(s[1..]) by {
      assert s == [s[0]] + s[1..];
    }
    forall k | 0 <= k < |rest|
      ensures s[0] <= rest[k]
    {
      assert rest[k] in multiset(s[1..]) + multiset{x};
    }
  }

  /** The ascending arrangement of `s`, by insertion. */
  function Sort(s: seq<int>): (r: seq<int>)
    ensures Sorted(r) && multiset(r) == multiset(s) && |r| == |s|
    decreases |s|
  {
    if |s| == 0 then []
    else
      assert s == s[..|s| - 1] + [s[|s| - 1]];
      Insert(Sort(s[..|s| - 1]), s[|s| - 1])
  }

  /** Two sorted lists holding the same elements are the same list, so every
      correct sort of a list gives the same result. */
  lemma {:induction false} SortedUnique(a: seq<int>, b: seq<int>)
    requires Sorted(a) && Sorted(b) && multiset(a) == multiset(b)
    ensures a == b
    decreases |a|
  {
    if |a| > 0 {
      assert |b| == |a| by {
        assert |b| == |multiset(b)| == |multiset(a)| == |a|;
      }
      assert a[0] == b[0] by {
        assert a[0] in multiset(b) && b[0] in multiset(a);
        var i :| 0 <= i < |b| && b[i] == a[0];
        var j :| 0 <= j < |a| && a[j] == b[0];
        assert b[0] <= b[i] && a[0] <= a[j];
      }
      assert multiset(a[1..]) == multiset(b[1..]) by {
        assert a == [a[0]] + a[1..] && b == [b[0]] + b[1..];
        assert multiset(a[1..]) == multiset(a) - multiset{a[0]};
        assert multiset(b[1..]) == multiset(b) - multiset{b[0]};
      }
      assert a[1..] == b[1..] by {
        SortedTail(a);
        SortedTail(b);
        SortedUnique(a[1..], b[1..]);
      }
      assert a == [a[0]] + a[1..] && b == [b[0]] + b[1..];
    } else {
      assert |b| == |multiset(b)| == 0;
    }
  }

  lemma SortedTail(s: seq<int>)
    requires |s| > 0 && Sorted(s)
    ensures Sorted(s[1..])
  {
    forall p, q | 0 <= p < q < |s| - 1
      ensures s[1..][p] <= s[1..][q]
    {
      assert s[1..][p] == s[p + 1] && s[1..][q] == s[q + 1];
    }
  }

  /** Sorting depends only on the elements, not on their order. */
  lemma SortPermutationInvariant(a: seq<int>, b: seq<int>)
    requires multiset(a) == multiset(b)
    ensures Sort(a) == Sort(b)
  {
    SortedUnique(Sort(a), Sort(b));
  }

  /** Rust's `slice::sort` on an `i64` vector: ascending, in place, a permutation
      of what was there (insertion by adjacent swaps). */
  method SortInPlace(a: array<int>)
    modifies a
    ensures a[..] == Sort(old(a[..]))
  {
    var i := 0;
    while i < a.Length
      invariant 0 <= i <= a.Length
      invariant Sorted(a[..i])
      invariant multiset(a[..]) == multiset(old(a[..]))
    {
      SinkLast(a, i);
      i := i + 1;
    }
    assert a[..] == a[..a.Length];
    SortedUnique(a[..], Sort(old(a[..])));
  }

  /** One insertion step: `a[i]` sinks into the sorted prefix `a[..i]`. */
  method SinkLast(a: array<int>, i: nat)
    requires i < a.Length && Sorted(a[..i])
    modifies a
    ensures Sorted(a[..i + 1])
    ensures multiset(a[..]) == multiset(old(a[..]))
    ensures a[i + 1..] == old(a[i + 1..])
  {
    var j := i;
    SinkingStart(a[..], i);
    while j > 0 && a[j - 1] > a[j]
      invariant 0 <= j <= i
      invariant multiset(a[..]) == multiset(old(a[..]))
      invariant a[i + 1..] == old(a[i + 1..])
      invariant Sinking(a[..], i, j)
    {
      SinkingStep(a[..], i, j);
      a[j - 1], a[j] := a[j], a[j - 1];
      j := j - 1;
    }
    SinkingDone(a[..], i, j);
  }

  /** While `a[i]` sinks, the prefix up to `i` is in order except around the
      hole at `j`, and the neighbours of the hole are in order. */
  ghost predicate Sinking(s: seq<int>, i: nat, j: nat)
    requires j <= i < |s|
  {
    (forall p, q :: 0 <= p < q <= i && q != j ==> s[p] <= s[q]) &&
    (0 < j < i ==> s[j - 1] <= s[j + 1])
  }

  lemma SinkingStart(s: seq<int>, i: nat)
    requires i < |s| && Sorted(s[..i])
    ensures Sinking(s, i, i)
  {
    forall p, q | 0 <= p < q <= i && q != i
      ensures s[p] <= s[q]
    {
      assert s[..i][p] <= s[..i][q];
    }
  }

  lemma SinkingStep(s: seq<int>, i: nat, j: nat)
    requires 0 < j <= i < |s| && Sinking(s, i, j) && s[j - 1] > s[j]
    ensures Sinking(s[j - 1 := s[j]][j := s[j - 1]], i, j - 1)
    ensures multiset(s[j - 1 := s[j]][j := s[j - 1]]) == multiset(s)
    ensures s[j - 1 := s[j]][j := s[j - 1]][i + 1..] == s[i + 1..]
  {
    var t := s[j - 1 := s[j]][j := s[j - 1]];
    forall p, q | 0 <= p < q <= i && q != j - 1
      ensures t[p] <= t[q]
    {
      if q == j {
        if p < j - 1 {
          assert s[p] <= s[j - 1];
        }
      } else if p == j - 1 {
        assert s[j] < s[j - 1] <= s[q];
      } else if p == j {
        assert s[j - 1] <= s[q];
      }
    }
    if 1 < j {
      assert t[j - 2] == s[j - 2] <= s[j - 1] == t[j];
    }
  }

  lemma SinkingDone(s: seq<int>, i: nat, j: nat)
    requires j <= i < |s| && Sinking(s, i, j) && (j == 0 || s[j - 1] <= s[j])
    ensures Sorted(s[..i + 1])
  {
    forall p, q | 0 <= p < q <= i
      ensures s[p] <= s[q]
    {
      if q == j {
        if p < j - 1 {
          assert s[p] <= s[j - 1];
        }
      }
    }
  }
}
