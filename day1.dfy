/**
 * 2024 day 1, Historian Hysteria: two columns of location ids. Part 1 pairs the
 * smallest with the smallest, the second smallest with the second smallest and
 * so on, and adds up the distances; part 2 weighs every left id by how often it
 * occurs in the right column.
 */
module Day1 {
  import opened Wrappers
  import opened Text
  import opened Sorting
  import GridIndex

  /** `parse_line`: two integers separated by three spaces. An empty line, a
      missing second value or an unparsable value is an error; anything after a
      second separator is ignored. */
  function ParseLine(line: string): (r: Result<(int, int), string>)
    ensures line == [] ==> r.Err?
  {
    if line == [] then Err("Empty line")
    else
      var parts := SplitOn(line, "   ");
      match ParseInt(parts[0])
      case None => Err("invalid digit found in string")
      case Some(left) =>
        if |parts| < 2 then Err("Missing right value")
        else
          match ParseInt(parts[1])
          case None => Err("invalid digit found in string")
          case Some(right) => Ok((left, right))
  }

  /** Printing two ids three spaces apart and parsing the line gives the ids back. */
  lemma ParseLineRoundTrip(left: int, right: int)
    ensures ParseLine(IntString(left) + "   " + IntString(right)) == Ok((left, right))
  {
    var a, b := IntString(left), IntString(right);
    SplitOnAfter(a, "   ", b);
    FindAbsent(b, "   ");
    IntRoundTrip(left);
    IntRoundTrip(right);
  }

  /** The unit-test cases of `parse_line`: "", "1" and "   2" are rejected, "1   2" is (1, 2). */
  lemma ParseLineRejects()
    ensures ParseLine("").Err?
    ensures ParseLine("1").Err?
    ensures ParseLine("   2").Err?
  {
    FindAbsent("1", "   ");
    assert SplitOn("1", "   ") == ["1"];
    SplitOnAfter("", "   ", "2");
    assert ParseNat("") == None;
  }

  lemma ParseLineAccepts()
    ensures ParseLine("1   2") == Ok((1, 2))
  {
    SplitOnAfter("1", "   ", "2");
    FindAbsent("2", "   ");
    assert "1   2" == "1" + "   " + "2";
    assert SplitOn("1   2", "   ") == ["1", "2"];
    assert DecimalValue("1") == 1 && DecimalValue("2") == 2;
    assert ParseInt("1") == Some(1) && ParseInt("2") == Some(2);
  }

  /** The lines that parse, in order; the others are logged and dropped. */
  function Pairs(lines: seq<string>): (r: seq<(int, int)>)
    ensures |r| <= |lines|
    ensures (forall i :: 0 <= i < |lines| ==> ParseLine(lines[i]).Ok?) ==>
              |r| == |lines| && forall i :: 0 <= i < |lines| ==> r[i] == ParseLine(lines[i]).value
  {
    if |lines| == 0 then []
    else
      var rest := Pairs(lines[..|lines| - 1]);
      match ParseLine(lines[|lines| - 1])
      case Ok(p) => rest + [p]
      case Err(_) => rest
  }

  /** `unzip`: the left column and the right column, as long as each other. */
  function Unzip(pairs: seq<(int, int)>): (r: (seq<int>, seq<int>))
    ensures |r.0| == |r.1| == |pairs|
    ensures forall i :: 0 <= i < |pairs| ==> pairs[i] == (r.0[i], r.1[i])
  {
    if |pairs| == 0 then ([], [])
    else
      var (l, rr) := Unzip(pairs[..|pairs| - 1]);
      (l + [pairs[|pairs| - 1].0], rr + [pairs[|pairs| - 1].1])
  }

  /** `parse_file`: the two columns of the lines that parse. */
  function ParseFile(input: string): (r: (seq<int>, seq<int>))
    ensures |r.0| == |r.1| <= |Lines(input)|
  {
    Unzip(Pairs(Lines(input)))
  }

  /** The total distance between two lists paired position by position
      (`zip` stops at the shorter one). */
  function Distance(left: seq<int>, right: seq<int>): (d: int)
    ensures d >= 0
  {
    var n := if |left| < |right| then |left| else |right|;
    if n == 0 then 0
    else Distance(left[..n - 1], right[..n - 1]) + GridIndex.Abs(right[n - 1] - left[n - 1])
  }

  /** Which column is called left does not matter. */
  lemma {:induction false} DistanceSymmetric(left: seq<int>, right: seq<int>)
    ensures Distance(left, right) == Distance(right, left)
    decreases |left|
  {
    var n := if |left| < |right| then |left| else |right|;
    if n > 0 {
      DistanceSymmetric(left[..n - 1], right[..n - 1]);
      assert GridIndex.Abs(right[n - 1] - left[n - 1]) == GridIndex.Abs(left[n - 1] - right[n - 1]);
    }
  }

  /** The part 1 answer is fixed by which ids each column holds, whatever their order. */
  lemma Part1OrderFree(l1: seq<int>, r1: seq<int>, l2: seq<int>, r2: seq<int>)
    requires multiset(l1) == multiset(l2) && multiset(r1) == multiset(r2)
    ensures Distance(Sort(l1), Sort(r1)) == Distance(Sort(l2), Sort(r2))
  {
    SortPermutationInvariant(l1, l2);
    SortPermutationInvariant(r1, r2);
  }

  /** `part1`: both lists are sorted in place and the distances of the pairs added. */
  method Part1(input: string) returns (total: int)
    ensures total == Distance(Sort(ParseFile(input).0), Sort(ParseFile(input).1))
  {
    var lists := ParseFile(input);
    var left := SortedCopy(lists.0);
    var right := SortedCopy(lists.1);
    total := SumDistances(left, right);
  }

  /** The distances of the pairs, added up in a loop. */
  method SumDistances(left: seq<int>, right: seq<int>) returns (total: int)
    requires |left| == |right|
    ensures total == Distance(left, right)
  {
    total := 0;
    var k := 0;
    while k < |left|
      invariant 0 <= k <= |left|
      invariant total == Distance(left[..k], right[..k])
    {
      DistanceSnoc(left, right, k);
      total := total + GridIndex.Abs(right[k] - left[k]);
      k := k + 1;
    }
    assert left[..k] == left && right[..k] == right;
  }

  /** One more pair adds its distance. */
  lemma DistanceSnoc(left: seq<int>, right: seq<int>, k: nat)
    requires k < |left| == |right|
    ensures Distance(left[..k + 1], right[..k + 1]) == Distance(left[..k], right[..k]) + GridIndex.Abs(right[k] - left[k])
  {
    assert left[..k + 1][..k] == left[..k] && right[..k + 1][..k] == right[..k];
  }

  /** A list copied into a vector and sorted there. */
  method SortedCopy(list: seq<int>) returns (r: seq<int>)
    ensures r == Sort(list)
  {
    var a := new int[|list|](i requires 0 <= i < |list| => list[i]);
    assert a[..] == list;
    SortInPlace(a);
    r := a[..];
  }

  /** How many times each id occurs (the `HashMap` built by the fold). */
  method CountIds(ids: seq<int>) returns (counts: map<int, nat>)
    ensures forall v :: Occurrences(counts, v) == multiset(ids)[v]
  {
    counts := map[];
    var k := 0;
    while k < |ids|
      invariant 0 <= k <= |ids|
      invariant forall v :: Occurrences(counts, v) == multiset(ids[..k])[v]
    {
      assert ids[..k + 1] == ids[..k] + [ids[k]];
      counts := counts[ids[k] := Occurrences(counts, ids[k]) + 1];
      k := k + 1;
    }
    assert ids[..k] == ids;
  }

  /** `get(value).unwrap_or(&0)`. */
  function Occurrences(counts: map<int, nat>, v: int): nat {
    if v in counts then counts[v] else 0
  }

  /** The similarity score: each left id times the number of times it occurs on the right. */
  function Similarity(left: seq<int>, right: seq<int>): int {
    if |left| == 0 then 0
    else Similarity(left[..|left| - 1], right) + left[|left| - 1] * multiset(right)[left[|left| - 1]]
  }

  /** One more id on the right adds that id once for every time it occurs on the left. */
  lemma {:induction false} SimilarityAppendRight(left: seq<int>, right: seq<int>, x: int)
    ensures Similarity(left, right + [x]) == Similarity(left, right) + x * multiset(left)[x]
    decreases |left|
  {
    if |left| > 0 {
      var init, y := left[..|left| - 1], left[|left| - 1];
      SimilarityAppendRight(init, right, x);
      assert left == init + [y];
      var hit := if y == x then 1 else 0;
      var m, mi := multiset(right)[y], multiset(init)[x];
      assert multiset(right + [x])[y] == m + hit;
      assert multiset(left)[x] == mi + hit;
      assert Similarity(left, right + [x]) == Similarity(init, right + [x]) + y * (m + hit);
      assert Similarity(left, right) == Similarity(init, right) + y * m;
      ShiftHit(x, y, m, mi, hit);
    }
  }

  lemma ShiftHit(x: int, y: int, m: int, mi: int, hit: int)
    requires hit == if y == x then 1 else 0
    ensures x * mi + y * (m + hit) == y * m + x * (mi + hit)
  {
    if y == x {
      assert y * (m + 1) == y * m + y;
      assert x * (mi + 1) == x * mi + x;
    }
  }

  /** The score is symmetric: every pair of equal left and right ids contributes
      that id once, whichever side is counted. */
  lemma {:induction false} SimilaritySymmetric(left: seq<int>, right: seq<int>)
    ensures Similarity(left, right) == Similarity(right, left)
    decreases |left|
  {
    if |left| == 0 {
      SimilarityOfEmpty(right);
    } else {
      var init, x := left[..|left| - 1], left[|left| - 1];
      SimilaritySymmetric(init, right);
      SimilarityAppendRight(right, init, x);
      assert left == init + [x];
    }
  }

  lemma {:induction false} SimilarityOfEmpty(ids: seq<int>)
    ensures Similarity(ids, []) == 0
    decreases |ids|
  {
    if |ids| > 0 {
      SimilarityOfEmpty(ids[..|ids| - 1]);
    }
  }

  /** `part2`: the similarity score of the two columns. */
  method Part2(input: string) returns (total: int)
    ensures total == Similarity(ParseFile(input).0, ParseFile(input).1)
  {
    var (left, right) := ParseFile(input);
    var counts := CountIds(right);
    total := 0;
    var k := 0;
    while k < |left|
      invariant 0 <= k <= |left|
      invariant total == Similarity(left[..k], right)
    {
      assert left[..k + 1][..k] == left[..k];
      total := total + left[k] * Occurrences(counts, left[k]);
      k := k + 1;
    }
    assert left[..k] == left;
  }
}
