/**
 * 2024 day 2, Red-Nosed Reports: a report is a line of levels. It is safe when
 * the levels only go up or only go down, each step by 1 to 3; part 2's problem
 * dampener also accepts a report that becomes safe once one level is removed.
 */
module Day2 {
  import opened Wrappers
  import opened Text
  import GridIndex

  datatype ReportStatus = Safe | Unsafe

  /** `parse_line`: an empty line is an error, and so is any piece between single
      spaces that is not an integer. */
  function ParseLine(line: string): (r: Result<seq<int>, string>)
    ensures line == [] ==> r.Err?
  {
    if line == [] then Err("Empty line")
    else
      match ParseInts(Split(line, ' '))
      case Some(levels) => Ok(levels)
      case None => Err("invalid digit found in string")
  }

  /** The levels printed with single spaces between them. */
  function Spaced(levels: seq<int>): (line: string)
    ensures levels != [] ==> line != []
  {
    if |levels| == 0 then [] else Join(IntStrings(levels), " ")
  }

  /** A non-empty report printed with single spaces parses back to itself. */
  lemma ParseLineRoundTrip(levels: seq<int>)
    requires |levels| > 0
    ensures ParseLine(Spaced(levels)) == Ok(levels)
  {
    var parts := IntStrings(levels);
    assert forall i :: 0 <= i < |parts| ==> ' ' !in parts[i];
    SplitJoin(parts, ' ');
    IntsRoundTrip(levels);
  }

  /** Every adjacent pair strictly rising (`windows(2)`). */
  predicate AllIncreasing(report: seq<int>) {
    forall i :: 0 <= i < |report| - 1 ==> report[i] < report[i + 1]
  }

  predicate AllDecreasing(report: seq<int>) {
    forall i :: 0 <= i < |report| - 1 ==> report[i] > report[i + 1]
  }

  /** Every adjacent difference, in absolute value, within `[min, max]`. */
  predicate DifferenceTolerance(report: seq<int>, min: int, max: int) {
    forall i :: 0 <= i < |report| - 1 ==>
      min <= GridIndex.Abs(report[i] - report[i + 1]) <= max
  }

  function Status(report: seq<int>): ReportStatus {
    if (AllIncreasing(report) || AllDecreasing(report)) && DifferenceTolerance(report, 1, 3)
    then Safe else Unsafe
  }

  /** Reports of at most one level pass every window check. */
  lemma ShortReportsSafe(report: seq<int>)
    requires |report| <= 1
    ensures AllIncreasing(report) && AllDecreasing(report) && Status(report) == Safe
  {
  }

  /** Rising over adjacent pairs means rising over any two positions. */
  lemma {:induction false} IncreasingIsStrict(report: seq<int>, i: nat, j: nat)
    requires AllIncreasing(report) && i < j < |report|
    ensures report[i] < report[j]
    decreases j - i
  {
    if i + 1 < j {
      IncreasingIsStrict(report, i + 1, j);
    }
  }

  function Reverse(s: seq<int>): (r: seq<int>)
    ensures |r| == |s| && forall i :: 0 <= i < |s| ==> r[i] == s[|s| - 1 - i]
  {
    seq(|s|, i requires 0 <= i < |s| => s[|s| - 1 - i])
  }

  /** Reading a report backwards turns a falling report into a rising one,
      a rising one into a falling one, and keeps it exactly as safe. */
  lemma ReverseStatus(report: seq<int>)
    ensures AllDecreasing(report) <==> AllIncreasing(Reverse(report))
    ensures AllIncreasing(report) <==> AllDecreasing(Reverse(report))
    ensures Status(Reverse(report)) == Status(report)
  {
    ReverseDirection(report);
    ReverseDirection(Reverse(report));
    assert Reverse(Reverse(report)) == report;
    ReverseTolerance(report);
    ReverseTolerance(Reverse(report));
  }

  lemma ReverseDirection(report: seq<int>)
    ensures AllIncreasing(Reverse(report)) ==> AllDecreasing(report)
    ensures AllDecreasing(Reverse(report)) ==> AllIncreasing(report)
  {
    var r, n := Reverse(report), |report|;
    if AllIncreasing(r) {
      forall i | 0 <= i < n - 1 ensures report[i] > report[i + 1] {
        assert r[n - 2 - i] < r[n - 1 - i];
      }
    }
    if AllDecreasing(r) {
      forall i | 0 <= i < n - 1 ensures report[i] < report[i + 1] {
        assert r[n - 2 - i] > r[n - 1 - i];
      }
    }
  }

  lemma ReverseTolerance(report: seq<int>)
    ensures DifferenceTolerance(Reverse(report), 1, 3) ==> DifferenceTolerance(report, 1, 3)
  {
    var r, n := Reverse(report), |report|;
    if DifferenceTolerance(r, 1, 3) {
      forall i | 0 <= i < n - 1 ensures 1 <= GridIndex.Abs(report[i] - report[i + 1]) <= 3 {
        assert 1 <= GridIndex.Abs(r[n - 2 - i] - r[n - 1 - i]) <= 3;
      }
    }
  }

  /** `Vec::remove`: the report without the level at `k`. */
  function Remove(report: seq<int>, k: nat): (r: seq<int>)
    requires k < |report|
    ensures |r| == |report| - 1
    ensures forall i :: 0 <= i < |r| ==> r[i] == if i < k then report[i] else report[i + 1]
  {
    report[..k] + report[k + 1..]
  }

  /** What the problem dampener accepts: a safe report, or one that is safe
      with some single level removed. */
  predicate Dampened(report: seq<int>) {
    Status(report) == Safe || exists k :: 0 <= k < |report| && Status(Remove(report, k)) == Safe
  }

  /** `report_status_with_problem_dampener`: try the report, then each copy with
      one level removed, in order. */
  method StatusWithProblemDampener(report: seq<int>) returns (status: ReportStatus)
    ensures status == Safe <==> Dampened(report)
  {
    if Status(report) == Safe {
      return Safe;
    }
    for removeLevel := 0 to |report|
      invariant forall k :: 0 <= k < removeLevel ==> Status(Remove(report, k)) == Unsafe
    {
      var modifiedReport := Remove(report, removeLevel);
      if Status(modifiedReport) == Safe {
        return Safe;
      }
    }
    Undampened(report);
    return Unsafe;
  }

  /** A report that stays unsafe whichever level is removed is not dampened. */
  lemma Undampened(report: seq<int>)
    requires Status(report) == Unsafe
    requires forall k :: 0 <= k < |report| ==> Status(Remove(report, k)) == Unsafe
    ensures !Dampened(report)
  {
  }

  /** Dropping the first or the last level keeps a safe report safe. */
  lemma DropEndKeepsSafe(report: seq<int>)
    requires |report| > 0 && Status(report) == Safe
    ensures Status(report[1..]) == Safe && Status(report[..|report| - 1]) == Safe
  {
    var tail, init := report[1..], report[..|report| - 1];
    assert forall i :: 0 <= i < |tail| ==> tail[i] == report[i + 1];
    assert forall i :: 0 <= i < |init| ==> init[i] == report[i];
  }

  /** With at most two levels the dampener accepts every report: removing one
      leaves at most one level. */
  lemma ShortReportsDampened(report: seq<int>)
    requires |report| <= 2
    ensures Dampened(report)
  {
    if |report| > 0 {
      ShortReportsSafe(Remove(report, 0));
    }
  }

  /** The reports of the lines that parse, in order. */
  function Reports(lines: seq<string>): (r: seq<seq<int>>)
    ensures |r| <= |lines|
  {
    if |lines| == 0 then []
    else
      var rest := Reports(lines[..|lines| - 1]);
      match ParseLine(lines[|lines| - 1])
      case Ok(report) => rest + [report]
      case Err(_) => rest
  }

  /** The number of safe reports. */
  function CountSafe(reports: seq<seq<int>>): (n: nat)
    ensures n <= |reports|
  {
    if |reports| == 0 then 0
    else CountSafe(reports[..|reports| - 1]) + (if Status(reports[|reports| - 1]) == Safe then 1 else 0)
  }

  function CountDampened(reports: seq<seq<int>>): (n: nat)
    ensures n <= |reports|
  {
    if |reports| == 0 then 0
    else CountDampened(reports[..|reports| - 1]) + (if Dampened(reports[|reports| - 1]) then 1 else 0)
  }

  /** `part1`: the number of safe reports among the lines that parse. */
  function Part1(input: string): (n: nat)
    ensures n <= |Lines(input)|
  {
    CountSafe(Reports(Lines(input)))
  }

  /** `part2`: each parsed report goes through the dampener, and the safe ones are counted. */
  method Part2(input: string) returns (n: nat)
    ensures n == CountDampened(Reports(Lines(input)))
  {
    var reports := Reports(Lines(input));
    n := 0;
    for k := 0 to |reports|
      invariant n == CountDampened(reports[..k])
    {
      assert reports[..k + 1][..k] == reports[..k];
      var status := StatusWithProblemDampener(reports[k]);
      if status == Safe {
        n := n + 1;
      }
    }
    assert reports[..|reports|] == reports;
  }

  /** The dampener never rejects a report that was already safe, so part 2
      counts at least as many reports as part 1. */
  lemma {:induction false} DampenerOnlyAdds(reports: seq<seq<int>>)
    ensures CountSafe(reports) <= CountDampened(reports)
    decreases |reports|
  {
    if |reports| > 0 {
      DampenerOnlyAdds(reports[..|reports| - 1]);
    }
  }

  lemma Part1AtMostPart2(input: string, n: nat)
    requires n == CountDampened(Reports(Lines(input)))
    ensures Part1(input) <= n
  {
    DampenerOnlyAdds(Reports(Lines(input)));
  }

  /** The example reports: only the first and the last are safe as they stand;
      the dampener also accepts the fourth and the fifth. */
  lemma ExampleSafe()
    ensures Status([7, 6, 4, 2, 1]) == Safe
    ensures Status([1, 3, 6, 7, 9]) == Safe
  {
  }

  lemma ExampleUnsafe()
    ensures Status([1, 2, 7, 8, 9]) == Unsafe
    ensures Status([9, 7, 6, 2, 1]) == Unsafe
  {
    var c: seq<int> := [1, 2, 7, 8, 9];
    assert GridIndex.Abs(c[1] - c[2]) == 5;
    var d: seq<int> := [9, 7, 6, 2, 1];
    assert GridIndex.Abs(d[2] - d[3]) == 4;
  }

  lemma ExampleDampenedByRemovingSecond()
    ensures Status([1, 3, 2, 4, 5]) == Unsafe && Dampened([1, 3, 2, 4, 5])
  {
    var a: seq<int> := [1, 3, 2, 4, 5];
    assert a[1] > a[2] && a[0] < a[1];
    var fixed: seq<int> := [1, 2, 4, 5];
    assert Remove(a, 1) == fixed;
    assert Status(fixed) == Safe;
  }

  lemma ExampleDampenedByRemovingThird()
    ensures Status([8, 6, 4, 4, 1]) == Unsafe && Dampened([8, 6, 4, 4, 1])
  {
    var b: seq<int> := [8, 6, 4, 4, 1];
    assert b[2] == b[3];
    var fixed: seq<int> := [8, 6, 4, 1];
    assert Remove(b, 2) == fixed;
    assert Status(fixed) == Safe;
  }
}
