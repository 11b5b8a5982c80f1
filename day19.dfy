/**
 * 2024 day 19, Linen Layout: towels come in striped patterns (strings of
 * colour letters), and a design is a string to be laid out as a row of towels.
 * Part 1 counts the designs that can be made at all; part 2 adds up the number
 * of different ways each design can be made.
 */
module Day19 {
  import opened Wrappers
  import opened Text

  predicate NonEmptyPatterns(patterns: seq<string>) {
    forall i :: 0 <= i < |patterns| ==> |patterns[i]| > 0
  }

  /** `str::starts_with`. */
  predicate StartsWith(design: string, pattern: string) {
    |pattern| <= |design| && design[..|pattern|] == pattern
  }

  /** `count_ways_to_make_design`: one way to make the empty design; otherwise
      the sum, over the patterns the design starts with, of the ways to make
      what follows. An empty pattern would make the source recurse forever. */
  function CountWays(design: string, patterns: seq<string>): nat
    requires NonEmptyPatterns(patterns)
    decreases |design|, 1, 0
  {
    if |design| == 0 then 1 else SumFrom(design, patterns, 0)
  }

  /** The sum over `patterns[k..]` of the ways each prefix pattern leaves. */
  function SumFrom(design: string, patterns: seq<string>, k: nat): nat
    requires NonEmptyPatterns(patterns) && |design| > 0
    decreases |design|, 0, |patterns| - k
  {
    if k >= |patterns| then 0
    else
      (if StartsWith(design, patterns[k]) then CountWays(design[|patterns[k]|..], patterns) else 0)
        + SumFrom(design, patterns, k + 1)
  }

  /** The towels `patterns[ks[0]]`, `patterns[ks[1]]`, ... laid side by side. */
  function Concat(patterns: seq<string>, ks: seq<nat>): string
    requires forall j :: 0 <= j < |ks| ==> ks[j] < |patterns|
  {
    if |ks| == 0 then [] else patterns[ks[0]] + Concat(patterns, ks[1..])
  }

  predicate Indices(ks: seq<nat>, patterns: seq<string>) {
    forall j :: 0 <= j < |ks| ==> ks[j] < |patterns|
  }

  /** The design is a row of available towels (none at all for the empty design). */
  ghost predicate Composable(design: string, patterns: seq<string>) {
    exists ks :: Indices(ks, patterns) && Concat(patterns, ks) == design
  }

  /** What part 1's `^(p1|p2|...)+$` matches, with every pattern read literally:
      one or more towels laid side by side. */
  ghost predicate RegexMatch(design: string, patterns: seq<string>) {
    exists ks :: |ks| >= 1 && Indices(ks, patterns) && Concat(patterns, ks) == design
  }

  /** The sum is positive exactly when some pattern from `k` on starts the design
      and leaves a makeable rest. */
  lemma {:induction false} SumPositive(design: string, patterns: seq<string>, k: nat)
    requires NonEmptyPatterns(patterns) && |design| > 0
    ensures SumFrom(design, patterns, k) > 0 <==>
      exists i :: k <= i < |patterns| && StartsWith(design, patterns[i]) &&
        CountWays(design[|patterns[i]|..], patterns) > 0
    decreases |patterns| - k
  {
    if k < |patterns| {
      SumPositive(design, patterns, k + 1);
    }
  }

  /** A design can be counted at least once exactly when it can be made. */
  lemma {:induction false} CountPositiveIffComposable(design: string, patterns: seq<string>)
    requires NonEmptyPatterns(patterns)
    ensures CountWays(design, patterns) > 0 <==> Composable(design, patterns)
    decreases |design|
  {
    if |design| == 0 {
      var none: seq<nat> := [];
      assert Indices(none, patterns) && Concat(patterns, none) == design;
    } else {
      if CountWays(design, patterns) > 0 {
        SumPositive(design, patterns, 0);
        var i :| 0 <= i < |patterns| && StartsWith(design, patterns[i]) &&
          CountWays(design[|patterns[i]|..], patterns) > 0;
        var rest := design[|patterns[i]|..];
        CountPositiveIffComposable(rest, patterns);
        var ks :| Indices(ks, patterns) && Concat(patterns, ks) == rest;
        var all := [i] + ks;
        assert all[1..] == ks;
        assert Concat(patterns, all) == patterns[i] + rest == design;
      }
      if Composable(design, patterns) {
        var ks :| Indices(ks, patterns) && Concat(patterns, ks) == design;
        assert |ks| > 0;
        var i := ks[0];
        var rest := Concat(patterns, ks[1..]);
        assert design == patterns[i] + rest;
        assert StartsWith(design, patterns[i]) && design[|patterns[i]|..] == rest;
        assert Indices(ks[1..], patterns);
        CountPositiveIffComposable(rest, patterns);
        SumPositive(design, patterns, 0);
      }
    }
  }

  /** With no empty pattern, the regex matches exactly the non-empty designs that
      can be counted at least once: part 1 agrees with part 2's counts. */
  lemma RegexMatchIffCounted(design: string, patterns: seq<string>)
    requires NonEmptyPatterns(patterns)
    ensures RegexMatch(design, patterns) <==> |design| > 0 && CountWays(design, patterns) > 0
  {
    CountPositiveIffComposable(design, patterns);
    if RegexMatch(design, patterns) {
      var ks :| |ks| >= 1 && Indices(ks, patterns) && Concat(patterns, ks) == design;
      assert |patterns[ks[0]]| > 0;
    }
    if |design| > 0 && Composable(design, patterns) {
      var ks :| Indices(ks, patterns) && Concat(patterns, ks) == design;
      assert |ks| >= 1;
    }
  }

  /** `parse_input_file`: the patterns are the first line split at ", ", the
      designs every line from the third on. No line at all is a panic. */
  function ParseInput(input: string): (r: Option<(seq<string>, seq<string>)>)
    ensures r.Some? <==> |Lines(input)| > 0
    ensures r.Some? ==> r.value.1 == (if |Lines(input)| >= 2 then Lines(input)[2..] else [])
  {
    var lines := Lines(input);
    if |lines| == 0 then None
    else Some((SplitOn(lines[0], ", "), if |lines| >= 2 then lines[2..] else []))
  }

  /** The number of designs the regex matches. */
  ghost function MatchCount(designs: seq<string>, patterns: seq<string>): (n: nat)
    ensures n <= |designs|
  {
    if |designs| == 0 then 0
    else MatchCount(designs[..|designs| - 1], patterns) + (if RegexMatch(designs[|designs| - 1], patterns) then 1 else 0)
  }

  /** The number of designs with at least one way, as part 2 counts them. */
  function CountedDesigns(designs: seq<string>, patterns: seq<string>): (n: nat)
    requires NonEmptyPatterns(patterns)
    ensures n <= |designs|
  {
    if |designs| == 0 then 0
    else
      var d := designs[|designs| - 1];
      CountedDesigns(designs[..|designs| - 1], patterns) + (if |d| > 0 && CountWays(d, patterns) > 0 then 1 else 0)
  }

  lemma {:induction false} MatchCountIsCounted(designs: seq<string>, patterns: seq<string>)
    requires NonEmptyPatterns(patterns)
    ensures MatchCount(designs, patterns) == CountedDesigns(designs, patterns)
    decreases |designs|
  {
    if |designs| > 0 {
      MatchCountIsCounted(designs[..|designs| - 1], patterns);
      RegexMatchIffCounted(designs[|designs| - 1], patterns);
    }
  }

  /** `part1`: the number of designs the pattern regex matches. */
  ghost function Part1(input: string): (r: Option<string>)
    ensures r.Some? <==> |Lines(input)| > 0
  {
    match ParseInput(input)
    case None => None
    case Some((patterns, designs)) => Some(DecimalString(MatchCount(designs, patterns)))
  }

  /** The ways summed over all designs. */
  function TotalWays(designs: seq<string>, patterns: seq<string>): nat
    requires NonEmptyPatterns(patterns)
  {
    if |designs| == 0 then 0
    else TotalWays(designs[..|designs| - 1], patterns) + CountWays(designs[|designs| - 1], patterns)
  }

  /** Part 2 never counts fewer ways than part 1 counts possible designs. */
  lemma {:induction false} CountedAtMostWays(designs: seq<string>, patterns: seq<string>)
    requires NonEmptyPatterns(patterns)
    ensures CountedDesigns(designs, patterns) <= TotalWays(designs, patterns)
    decreases |designs|
  {
    if |designs| > 0 {
      CountedAtMostWays(designs[..|designs| - 1], patterns);
    }
  }

  /** `part2`: the total number of ways. With an empty pattern and a design to
      make, the source recurses without end: None. */
  function Part2(input: string): (r: Option<string>)
    ensures r.Some? ==> |Lines(input)| > 0
  {
    match ParseInput(input)
    case None => None
    case Some((patterns, designs)) =>
      if NonEmptyPatterns(patterns) then Some(DecimalString(TotalWays(designs, patterns)))
      else if |designs| == 0 then Some("0")
      else None
  }

  /** Patterns that do not start the design add nothing to the sum. */
  lemma {:induction false} SkipPatterns(design: string, patterns: seq<string>, k: nat, m: nat)
    requires NonEmptyPatterns(patterns) && |design| > 0 && k <= m <= |patterns|
    requires forall i :: k <= i < m ==> !StartsWith(design, patterns[i])
    ensures SumFrom(design, patterns, k) == SumFrom(design, patterns, m)
    decreases m - k
  {
    if k < m {
      SkipPatterns(design, patterns, k + 1, m);
    }
  }

  /** A pattern that differs from the design in its first or second letter
      does not start it. */
  predicate DiffersEarly(design: string, pattern: string) {
    |design| > 0 && |pattern| > 0 &&
    (|pattern| > |design| || pattern[0] != design[0] || (|pattern| > 1 && |design| > 1 && pattern[1] != design[1]))
  }

  lemma Mismatch(design: string, pattern: string)
    requires DiffersEarly(design, pattern)
    ensures !StartsWith(design, pattern)
  {
    if |pattern| <= |design| {
      assert |pattern| > 1 ==> |design| > 1;
      var j := if pattern[0] != design[0] then 0 else 1;
      assert design[..|pattern|][j] != pattern[j];
    }
  }

  /** None of `patterns[k..m]` starts the design. */
  lemma NoneBetween(design: string, patterns: seq<string>, k: nat, m: nat)
    requires NonEmptyPatterns(patterns) && |design| > 0 && k <= m <= |patterns|
    requires forall i :: k <= i < m ==> DiffersEarly(design, patterns[i])
    ensures SumFrom(design, patterns, k) == SumFrom(design, patterns, m)
  {
    forall i | k <= i < m ensures !StartsWith(design, patterns[i]) {
      Mismatch(design, patterns[i]);
    }
    SkipPatterns(design, patterns, k, m);
  }

  function ExamplePatterns(): (p: seq<string>)
    ensures NonEmptyPatterns(p)
  {
    ["r", "wr", "b", "g", "bwu", "rb", "gb", "br"]
  }

  /** From the puzzle's example towels: "brwrr" can be made two ways (br wr r
      and b r wr r), and "ubwu" cannot be made at all. */
  lemma Example()
    ensures CountWays("brwrr", ExamplePatterns()) == 2
    ensures CountWays("ubwu", ExamplePatterns()) == 0
  {
    ExampleBrwrr();
    NoneBetween("ubwu", ExamplePatterns(), 0, 8);
  }

  lemma ExampleBrwrr()
    ensures CountWays("brwrr", ExamplePatterns()) == 2
  {
    ExampleRwrr();
    ExampleWrr();
    NoneBetween("brwrr", ExamplePatterns(), 3, 7);
    assert "brwrr"[1..] == "rwrr" && "brwrr"[2..] == "wrr";
  }

  lemma ExampleR()
    ensures CountWays("r", ExamplePatterns()) == 1
  {
    NoneBetween("r", ExamplePatterns(), 1, 8);
    assert "r"[1..] == [];
  }

  lemma ExampleWrr()
    ensures CountWays("wrr", ExamplePatterns()) == 1
  {
    ExampleRr();
    NoneBetween("wrr", ExamplePatterns(), 2, 8);
    assert "wrr"[2..] == "r";
    ExampleR();
  }

  lemma ExampleRr()
    ensures CountWays("rr", ExamplePatterns()) == 1
  {
    ExampleR();
    NoneBetween("rr", ExamplePatterns(), 1, 8);
    assert "rr"[1..] == "r";
  }

  lemma ExampleRwrr()
    ensures CountWays("rwrr", ExamplePatterns()) == 1
  {
    ExampleWrr();
    NoneBetween("rwrr", ExamplePatterns(), 1, 8);
    assert "rwrr"[1..] == "wrr";
  }
}
