# Advent of Code solutions, modelled and proved in Dafny

This project models a set of Advent of Code solutions and proves properties of
the models. It covers two years of puzzles:

- the 2024 days written in Rust (`2024/rust/src/day1.rs` to `day25.rs`, all but
  days 3 and 13, with their shared grid, direction and parsing helpers);
- the 2023 puzzles written in Python (days 1, 2, 4, 5, 6 and 9), in Swift
  (days 7 and 8, with the shared `math.swift` for prime factors and least
  common multiples) and in Rust (day 3).

Each day is one Dafny module. Parsing is modelled on strings, with `None` or an
error value wherever the source panics, calls `fatalError`, raises or fails an
`assert`. The puzzle logic is modelled by functions. Where the source loops or
updates objects in place, the model uses methods and classes proved against
those functions. Lemmas state what each puzzle promises: round trips,
invariants, both directions of each if-and-only-if, and the answers to the
examples in the source's own tests. Reading files, printing and timing are
left out, and the input text is a parameter.

Each row of the table below names a member whose contract states something
about the source, and cites the lines that member models. Two kinds of member
have no row of their own:

- a function that only computes and carries no contract: its properties are
  stated by the lemmas and methods about it, whose rows cite the same source
  lines;
- arithmetic and bookkeeping lemmas that only serve other proofs (for example
  `Bits.DivUnique` or `Day14.ModStep`).

The source's entry points and parsers of the first kind, with the rows that
state what they compute:

- Day9.Checksum: Day9.ChecksumUpdate, Day9.ChecksumMoveLeft, Day9.Part1.
- Day10.Part1: Day10.MapTrails, Day10.HikePeaksExactly, Day10.Part2.
- Day14.SafetyFactor: Day14.SafetyFactorPositive, Day14.SafetyFactorOccupied,
  Day14.CalculateSafetyFactor.
- Day17.Solve and Day17.SolveFrom: Day17.SolveFromSound,
  Day17.SolveFromAtLeast, Day17.RegisterASolver, Day17.Part2.
- Day18.ParseInput: Day18.ParseLines, Day18.ParseLine, Day18.FormatParses.
- Day19.CountWays and Day19.TotalWays: Day19.CountPositiveIffComposable,
  Day19.SkipPatterns, Day19.Mismatch, Day19.CountedAtMostWays, Day19.Part2.
- Day20.GetOffsets: Day20.GetOffsetsMember, Day20.AsWrittenSameCheats.
- Day20.NextPosition: Day20.NextPositionStep, Day20.MapCourse.
- Day21.NumericMoves and Day21.DPadMoves: Day21.KeypadMoves,
  Day21.KeypadMovesWalk, Day21.NumericMovesAvoidGap, Day21.DPadMovesAvoidGap.
- Day22.SecretSum: Day22.SecretSumBound, Day22.Part1.
- Day22.Bananas: Day22.BananasBound, Day22.FirstOccurrenceSale,
  Day22.NoOccurrenceNoSale, Day22.FindMaximumBananas.
- Day24.ParseOperation, Day24.ParseWire and Day24.ParseGate:
  Day24.OperationRoundTrip, Day24.CollectWires, Day24.ParseGateRoundTrip,
  Day24.CollectGates.
- Day24.Process: Day24.ProcessGates, Day24.ProcessEvaluates,
  Day24.ProcessStuck, Day24.ProcessNeverFinishes.
- Day5.ParseSpec: Day5.ParseInput, Day5.RulesOfNonePersists,
  Day5.UpdatesOfNonePersists.
- Year2023Day2.ParseCubeSet, Part1 and Part2: Year2023Day2.ParseCubeSets,
  Year2023Day2.PlayableGamesExactly, Year2023Day2.SumPlayableStep,
  Year2023Day2.SmallestIsLeast, Year2023Day2.ExamplePart1,
  Year2023Day2.ExamplePart2.
- Year2023Day3.GetPartNumbers and Part1: Year2023Day3.PartNumbersOf,
  Year2023Day3.PartNumbersSound, Year2023Day3.PartNumbersComplete,
  Year2023Day3.Values.
- Year2023Day4.Part1: Year2023Day4.Points, Year2023Day4.PointsDouble,
  Year2023Day4.ExamplePart1.
- Year2023Day6.ParseRaces, ParseRace, Part1 and Part2: Year2023Day6.Zip,
  Year2023Day6.AllWaysToWin, Year2023Day6.Product, Year2023Day6.WaysInterval,
  Year2023Day6.ExamplePart1, Year2023Day6.ExamplePart2.
- Year2023Day7.ParseHand, ParseLines and ParseHands:
  Year2023Day7.ParseHandRoundTrip, Year2023Day7.ParseLinesEach,
  Year2023Day7.ParseHandsRoundTrip.
- Year2023Day7.Winnings and TotalWinnings: Year2023Day7.WinningsRanks,
  Year2023Day7.WinningsAnyOrder, Year2023Day7.TotalWinningsRanked.
- Year2023Day8.ParseNodes and ParseInput: Year2023Day8.ParseNode,
  Year2023Day8.ParseNodeRoundTrip, Year2023Day8.BuildNetwork.
- Year2023Day9.ParseHistories, NextValues and PreviousValues:
  Year2023Day9.PredictNextValues, Year2023Day9.PredictPreviousValues,
  Year2023Day9.ValuesStep, Year2023Day9.Part1, Year2023Day9.Part2.

## Model

| member | source | states |
|---|---|---|
| Sorting.Sort | 2024/rust/src/day1.rs:48-49 | the result is ascending and holds exactly the elements of the input (a permutation) |
| Sorting.SortedUnique | 2024/rust/src/day1.rs:48-49 | two ascending lists with the same elements are equal, so the sorted order of a list is unique |
| Sorting.SortPermutationInvariant | 2024/rust/src/day1.rs:48-49 | lists holding the same elements in any order sort to the same list |
| Sorting.SortInPlace | 2024/rust/src/day1.rs:48-49 | the in-place sort leaves the array holding the ascending permutation of its old contents |
| Day1.ParseLine | 2024/rust/src/day1.rs:15-29 | an empty line is an error |
| Day1.ParseLineRoundTrip | 2024/rust/src/day1.rs:15-29 | two integers printed three spaces apart parse back to the same pair |
| Day1.ParseLineRejects | 2024/rust/src/day1.rs:87-91 | "", "1" and "   2" are rejected |
| Day1.ParseLineAccepts | 2024/rust/src/day1.rs:92 | "1   2" parses to (1, 2) |
| Day1.Pairs | 2024/rust/src/day1.rs:31-39 | unparsable lines are dropped; when every line parses, there is one pair per line, in order |
| Day1.Unzip | 2024/rust/src/day1.rs:38 | the two columns are as long as the list of pairs and pair up position by position |
| Day1.ParseFile | 2024/rust/src/day1.rs:31-39 | both columns have the same length, at most the number of lines |
| Day1.Distance | 2024/rust/src/day1.rs:52-54 | the total distance is never negative |
| Day1.DistanceSymmetric | 2024/rust/src/day1.rs:52-54 | swapping the two columns does not change the total distance |
| Day1.Part1OrderFree | 2024/rust/src/day1.rs:45-55 | the part 1 answer depends only on which ids each column holds, not on their order |
| Day1.Part1 | 2024/rust/src/day1.rs:45-55 | the answer is the distance between the sorted left column and the sorted right column |
| Day1.SortedCopy | 2024/rust/src/day1.rs:46-49 | sorting a copied column in place yields the sorted column |
| Day1.CountIds | 2024/rust/src/day1.rs:65-69 | the count map gives, for every id, the number of times it occurs in the right column (absent ids count 0) |
| Day1.SimilarityAppendRight | 2024/rust/src/day1.rs:71-74 | one more right id x raises the score by x times the number of left occurrences of x |
| Day1.SimilaritySymmetric | 2024/rust/src/day1.rs:61-75 | the similarity score is the same when the columns are swapped |
| Day1.Part2 | 2024/rust/src/day1.rs:61-75 | the answer is the sum over left ids of the id times its number of occurrences on the right |
| Text.ParseInts | 2024/rust/src/day2.rs:19-21 | the pieces parse as a whole exactly when every piece is an integer, and then the levels are the pieces' values in order |
| Day2.ParseLine | 2024/rust/src/day2.rs:14-22 | an empty line is an error |
| Day2.ParseLineRoundTrip | 2024/rust/src/day2.rs:14-22 | a non-empty report printed with single spaces parses back to the same levels |
| Day2.ShortReportsSafe | 2024/rust/src/day2.rs:38-44 | reports of at most one level are both all-increasing and all-decreasing, hence safe |
| Day2.IncreasingIsStrict | 2024/rust/src/day2.rs:38-40 | rising over every adjacent pair means rising between any two positions |
| Day2.ReverseStatus | 2024/rust/src/day2.rs:38-61 | a reversed report is increasing iff the original is decreasing (and vice versa), and has the same status |
| Day2.Remove | 2024/rust/src/day2.rs:89-90 | removing the level at k shifts every later level down by one and keeps the earlier ones |
| Day2.StatusWithProblemDampener | 2024/rust/src/day2.rs:82-98 | Safe exactly when the report is safe or safe with some single level removed |
| Day2.DropEndKeepsSafe | 2024/rust/src/day2.rs:53-61 | removing the first or the last level of a safe report leaves it safe |
| Day2.ShortReportsDampened | 2024/rust/src/day2.rs:82-98 | the dampener accepts every report of at most two levels |
| Day2.Reports | 2024/rust/src/day2.rs:64-69 | at most one report per line |
| Day2.CountSafe | 2024/rust/src/day2.rs:70-75 | the count of safe reports is at most the number of reports |
| Day2.Part1 | 2024/rust/src/day2.rs:63-76 | the answer is at most the number of lines |
| Day2.Part2 | 2024/rust/src/day2.rs:100-113 | the answer is the number of parsed reports the dampener accepts |
| Day2.DampenerOnlyAdds | 2024/rust/src/day2.rs:82-85 | the dampener accepts every safe report, so it counts at least as many reports as part 1 |
| Day2.Part1AtMostPart2 | 2024/rust/src/day2.rs:63-113 | the part 1 answer never exceeds the part 2 answer |
| Day2.ExampleSafe | 2024/rust/src/day2.rs:129-134 | the example reports 7 6 4 2 1 and 1 3 6 7 9 are safe |
| Day2.ExampleUnsafe | 2024/rust/src/day2.rs:130-131 | the example reports 1 2 7 8 9 and 9 7 6 2 1 are unsafe |
| Day2.ExampleDampenedByRemovingSecond | 2024/rust/src/day2.rs:132 | 1 3 2 4 5 is unsafe but accepted by the dampener |
| Day2.ExampleDampenedByRemovingThird | 2024/rust/src/day2.rs:133 | 8 6 4 4 1 is unsafe but accepted by the dampener |
| Day7.Concat | 2024/rust/src/day7.rs:90-97 | with no accumulator the result is the term; otherwise the accumulator times ten to the number of digits of the term, plus the term |
| Day7.Apply | 2024/rust/src/day7.rs:82-97 | each operator with no accumulator gives the term itself, and non-negative inputs give a non-negative value |
| Day7.ValidateIffSolvable | 2024/rust/src/day7.rs:61-76 | the recursive validation succeeds exactly when some left-to-right choice of the allowed operators evaluates the terms to the result |
| Day7.MoreOperators | 2024/rust/src/day7.rs:12-34 | an equation valid with some operators stays valid when more are allowed |
| Day7.Example190 | 2024/rust/src/day7.rs:61-88 | 190: 10 19 is valid with + and * |
| Day7.Example156 | 2024/rust/src/day7.rs:61-97 | 156: 15 6 is valid once concatenation is allowed, and not before |
| Day7.ParseEquation | 2024/rust/src/day7.rs:48-53 | the test value is the first piece of the line split at ':' and ' ' |
| Day7.ParseEquationRoundTrip | 2024/rust/src/day7.rs:48-53 | a line "R: t1 t2 ..." parses to (R, [t1, t2, ...]) |
| Day7.ParseInput | 2024/rust/src/day7.rs:44-55 | all lines parse or the input is rejected; then there is one equation per line, in order |
| Day7.Part1 | 2024/rust/src/day7.rs:12-19 | an answer exists only when every line parses |
| Day7.Part2 | 2024/rust/src/day7.rs:25-34 | part 2 answers only inputs part 1 answers too |
| Day7.ConcatenationOnlyAdds | 2024/rust/src/day7.rs:12-34 | with non-negative test values the part 1 sum is at most the part 2 sum |
| Day7.Part1AtMostPart2 | 2024/rust/src/day7.rs:12-34 | for an input with non-negative test values, part 1 answers and its answer is at most part 2's |
| Day25.Height | 2024/rust/src/day25.rs:53-64 | a column count is at most the number of body rows |
| Day25.Heights | 2024/rust/src/day25.rs:53-64 | a schematic has five columns, each the number of '#' in that column of the body rows |
| Day25.KindOf | 2024/rust/src/day25.rs:46-51 | "#####" starts a lock and "....." a key; any other first line is rejected |
| Day25.Block | 2024/rust/src/day25.rs:45-77 | a parsed schematic needs seven lines and a valid first line, and each of its five column values lies in 0..5 |
| Day25.Schematics | 2024/rust/src/day25.rs:37-83 | every parsed lock and key has five columns, each at most 5 |
| Day25.ParseInputFile | 2024/rust/src/day25.rs:37-83 | the cursor loop returns exactly the locks and keys of the block-by-block reading, or fails where it fails |
| Day25.ReadSchematic | 2024/rust/src/day25.rs:46-77 | reading one block into the five-element buffer gives that block's kind and column heights, or fails on a bad first, body or end line |
| Day25.ThenNothing | 2024/rust/src/day25.rs:39-40 | starting from empty lists adds nothing |
| Day25.ThenPush | 2024/rust/src/day25.rs:67-77 | pushing a schematic and then reading the rest gives the same lists as reading the schematic with the rest |
| Day25.BlockBadRow | 2024/rust/src/day25.rs:56-62 | a body row that is not five '#'/'.' characters makes the whole input fail |
| Day25.AddRow | 2024/rust/src/day25.rs:56-63 | a valid row adds one to exactly the columns holding '#'; an invalid row is reported |
| Day25.FitsIffNoOverlap | 2024/rust/src/day25.rs:17 | l + k <= 5 in every column exactly when no body row of any column is filled by both the lock's pin and the key's tooth |
| Day25.FittingKeys | 2024/rust/src/day25.rs:14-18 | at most every key fits a lock |
| Day25.FittingPairs | 2024/rust/src/day25.rs:14-18 | the number of fitting pairs is at most locks times keys |
| Day25.Part1 | 2024/rust/src/day25.rs:11-20 | an answer exists exactly when the input parses |
| Day25.ExampleFittingPairs | 2024/rust/src/day25.rs:100-104 | the example's two locks and three keys give three fitting pairs |
| Day19.SumPositive | 2024/rust/src/day19.rs:66-76 | the sum over the patterns is positive exactly when some pattern starts the design and leaves a rest that can be made |
| Day19.CountPositiveIffComposable | 2024/rust/src/day19.rs:59-77 | `count_ways_to_make_design` is positive exactly when the design is a concatenation of available patterns (the empty design counting once) |
| Day19.RegexMatchIffCounted | 2024/rust/src/day19.rs:13-18 | with no empty pattern, the anchored alternation of all the patterns, repeated, matches a design exactly when it is non-empty and has at least one way, so parts 1 and 2 agree on which designs are possible |
| Day19.MatchCountIsCounted | 2024/rust/src/day19.rs:15-18 | the number of regex-matching designs equals the number of non-empty designs with a positive count |
| Day19.CountedAtMostWays | 2024/rust/src/day19.rs:23-31 | the total number of ways is at least the number of designs that can be made |
| Day19.ParseInput | 2024/rust/src/day19.rs:43-57 | no line at all is a panic; otherwise the designs are exactly the lines from the third on |
| Day19.Part1 | 2024/rust/src/day19.rs:10-21 | part 1 answers exactly when the input has a line |
| Day19.Part2 | 2024/rust/src/day19.rs:23-31 | part 2 answers only when the input has a line |
| Day19.SkipPatterns | 2024/rust/src/day19.rs:67-76 | patterns that do not start the design add nothing to the sum |
| Day19.Mismatch | 2024/rust/src/day19.rs:70 | a pattern longer than the design or differing in its first two letters does not start it |
| Day19.Example | 2024/rust/src/day19.rs:59-77 | with the example towels, "brwrr" has two ways and "ubwu" none |
| Day22.Evolve | 2024/rust/src/day22.rs:50-54 | mixing by XOR after ×64, ÷32 and ×2048, each pruned modulo 16777216, leaves a secret below 2^24 |
| Day22.EvolveTimes | 2024/rust/src/day22.rs:16-20 | the loop returns the secret after exactly `n` evolutions |
| Day22.SecretSumBound | 2024/rust/src/day22.rs:13-22 | each 2000th secret is below 2^24, so part 1's sum is below 2^24 per buyer (plus one) |
| Day22.ParseSecrets | 2024/rust/src/day22.rs:46-48 | every line must parse as a `u64`, else the parse fails; the secrets are the lines' values in order |
| Day22.Secret64 | 2024/rust/src/day22.rs:47 | `parse::<u64>` accepts exactly the unsigned decimals below 2^64 and gives their value |
| Day22.Part1 | 2024/rust/src/day22.rs:10-25 | a failed parse gives no answer; otherwise the answer is the sum of the buyers' 2000th secrets |
| Day22.Prices | 2024/rust/src/day22.rs:63-67 | a buyer has 2000 prices, each the last digit of a secret, so in [0, 9] |
| Day22.ChangesInRange | 2024/rust/src/day22.rs:70-76 | every change in a window of five prices lies in [-9, 9], so it fits an `i8` |
| Day22.NoOccurrenceNoSale | 2024/rust/src/day22.rs:78-84 | a run of changes that never occurs for a buyer buys nothing from that buyer |
| Day22.FirstOccurrenceSale | 2024/rust/src/day22.rs:78-84 | a buyer sells at the price ending the first window with the run of changes, never a later one |
| Day22.FirstSaleExtend | 2024/rust/src/day22.rs:80-84 | one more window adds its price only when its changes have not been seen from this buyer before |
| Day22.SeenStep | 2024/rust/src/day22.rs:83 | the runs seen after one more window are the earlier ones plus that window's |
| Day22.FirstSaleBound | 2024/rust/src/day22.rs:82 | a single-digit price list yields a sale in [0, 9] |
| Day22.BananasBound | 2024/rust/src/day22.rs:78-88 | each buyer adds at most 9 bananas to a run, since it sells at most once per run |
| Day22.UnseenBuysNothing | 2024/rust/src/day22.rs:78-88 | a run that no buyer shows buys no bananas |
| Day22.FillPrices | 2024/rust/src/day22.rs:63-67 | the buffer is overwritten in place with the buyer's 2000 prices |
| Day22.AddBuyer | 2024/rust/src/day22.rs:69-88 | after one buyer, each run's total grows by that buyer's first-occurrence price, and the map's keys gain exactly the runs the buyer shows; the per-buyer set starts empty |
| Day22.MaxValue | 2024/rust/src/day22.rs:91 | `values().max()` is None exactly for an empty map, and otherwise a value of the map at least every value |
| Day22.FindMaximumBananas | 2024/rust/src/day22.rs:56-92 | with no buyer it panics (None); otherwise the result is the banana total of some run and at least that of every run |
| Day22.Part2 | 2024/rust/src/day22.rs:27-32 | an answer exactly when every line parses and there is a buyer, and it is the best run's banana total |
| Day11.Transform | 2024/rust/src/day11.rs:113-123 | a stone always becomes one or two stones |
| Day11.TransformSplitsDigits | 2024/rust/src/day11.rs:117-119 | a stone with an even number of digits splits into two halves that, put back side by side, give the stone; the right half (leading zeros dropped) is below 10^half |
| Day11.TransformOddDigits | 2024/rust/src/day11.rs:120-122 | a non-zero stone with an odd number of digits is multiplied by 2024 |
| Day11.ExampleTransform | 2024/rust/src/day11.rs:113-123 | 0 → [1], 1 → [2024], 10 → [1, 0], 99 → [9, 9], 999 → [2021976] |
| Day11.StepAppend | 2024/rust/src/day11.rs:56-59 | a blink changes each stone independently, so a line blinks as its two halves side by side |
| Day11.StepNAppend | 2024/rust/src/day11.rs:56-59 | the same holds after any number of blinks |
| Day11.StepLength | 2024/rust/src/day11.rs:113-123 | a blink never removes a stone and at most doubles the line |
| Day11.BlinkCountsStones | 2024/rust/src/day11.rs:91-100 | the uncached `recursive_blink(s, n)` is the number of stones `s` has become after n + 1 blinks of the whole line |
| Day11.SumBlinksCountStones | 2024/rust/src/day11.rs:97-100 | the sum of those counts over a line is the length of the line after n + 1 blinks |
| Day11.BlinkPositive | 2024/rust/src/day11.rs:91-100 | every stone leaves at least one stone |
| Day11.Cache.constructor | 2024/rust/src/day11.rs:72-77 | both memos start empty |
| Day11.Cache.RecursiveBlink | 2024/rust/src/day11.rs:79-106 | with a memo whose entries equal the uncached definitions, the result equals the uncached count, and the memo stays correct |
| Day11.Cache.CachedTransform | 2024/rust/src/day11.rs:85-89 | the stone memo gives `transform`'s stones and gains at most that entry |
| Day11.Cache.SumRecursiveBlinks | 2024/rust/src/day11.rs:97-100 | the memoised sum over the new stones equals the uncached sum |
| Day11.Blinks | 2024/rust/src/day11.rs:54-60 | with `count >= 1`, the total is the length of the line after `count` blinks, and at least the number of stones |
| Day11.ParseEach | 2024/rust/src/day11.rs:45-47 | every piece must parse as a `u64`, else the parse fails; the stones are the pieces' values in order |
| Day11.ParseStones | 2024/rust/src/day11.rs:39-48 | the stones come from the first line split at single spaces |
| Day11.Part1 | 2024/rust/src/day11.rs:13-16 | the number of stones after 25 blinks |
| Day11.Part2 | 2024/rust/src/day11.rs:22-25 | the number of stones after 75 blinks |
| Day5.OrderingRules.constructor | 2024/rust/src/day5.rs:25-29 | the rules start empty |
| Day5.OrderingRules.Insert | 2024/rust/src/day5.rs:31-33 | `less_than` joins the pages `page` must precede, and no other page's entry changes |
| Day5.Compare | 2024/rust/src/day5.rs:35-44 | Less exactly when a rule puts `a` before `b`; never Greater |
| Day5.InsertTail | 2024/rust/src/day5.rs:50-54 | inserting a page adds one element, and the last element is the page or the prefix's last page |
| Day5.InsertTailPermutation | 2024/rust/src/day5.rs:52 | insertion adds exactly the page to the multiset |
| Day5.SortPagesPermutation | 2024/rust/src/day5.rs:50-54 | `sort_pages` returns a permutation of its input, whatever the rules |
| Day5.InsertTailOrdered | 2024/rust/src/day5.rs:52 | with rules never given both ways round, insertion keeps a prefix free of adjacent inversions |
| Day5.SortPagesOrdered | 2024/rust/src/day5.rs:50-54 | with such rules, no page of the sorted copy is directly followed by a page a rule puts before it |
| Day5.SortKeepsOrdered | 2024/rust/src/day5.rs:50-54 | an update with no adjacent inversion is left unchanged by the sort |
| Day5.ValidIffLocallyOrdered | 2024/rust/src/day5.rs:108-111 | with rules never given both ways round, `validate_page_order` holds exactly when no page is directly followed by one a rule puts before it |
| Day5.CorrectedUpdate | 2024/rust/src/day5.rs:132-139 | None exactly for a valid update; otherwise a permutation of the update that differs from it |
| Day5.PartsSplitUpdates | 2024/rust/src/day5.rs:93-126 | every update counts in exactly one part: the two sums add up to the middle pages of all updates once sorted |
| Day5.ParsePage | 2024/rust/src/day5.rs:72-73 | `parse::<u8>` accepts exactly the unsigned decimals below 256 |
| Day5.ParseRule | 2024/rust/src/day5.rs:70-74 | a rule line needs a vertical bar, with a page on each side of it |
| Day5.ParseUpdate | 2024/rust/src/day5.rs:79-82 | an update is one page per comma-separated piece, so it is never empty |
| Day5.ParsePages | 2024/rust/src/day5.rs:81 | all pieces parse, or the line fails; the pages are the pieces' values in order |
| Day5.UpdatesOf | 2024/rust/src/day5.rs:78-84 | one non-empty update per line |
| Day5.FirstEmpty | 2024/rust/src/day5.rs:65-68 | the rule section ends at the first empty line, or runs to the end |
| Day5.ParseInput | 2024/rust/src/day5.rs:60-87 | the parse is the rules of the lines before the first empty line and the updates of the lines after it |
| Day5.ReadRules | 2024/rust/src/day5.rs:64-75 | the first loop inserts the rules of the lines before the first empty line, in order |
| Day5.ReadUpdates | 2024/rust/src/day5.rs:77-84 | the second loop parses one update per remaining line |
| Day5.RulesOfNonePersists | 2024/rust/src/day5.rs:71-73 | a bad rule line anywhere makes the parse fail |
| Day5.UpdatesOfNonePersists | 2024/rust/src/day5.rs:81 | a bad update line anywhere makes the parse fail |
| Day5.Part1 | 2024/rust/src/day5.rs:93-102 | the sum of the middle pages of the valid updates |
| Day5.Part2 | 2024/rust/src/day5.rs:117-126 | the sum of the middle pages of the corrected updates |
| Day5.ExampleCorrection | 2024/rust/src/day5.rs:50-54 | with the rule that 97 comes before 75, the update 75,97,47,61,53 sorts to 97,75,47,61,53 |
| Day8.RowCellsMember | 2024/rust/src/day8.rs:62-69 | a cell of one row is recorded under frequency `f` exactly when its character is `f` and not `.` |
| Day8.CellsMember | 2024/rust/src/day8.rs:61-70 | over the first `n` rows, a coordinate is recorded under `f` exactly when that cell holds `f` and `f` is not `.` |
| Day8.AntennasOfMember | 2024/rust/src/day8.rs:57-70 | the parsed table records every non-`.` cell under its own character and nothing else |
| Day8.RowCellsIncreasing | 2024/rust/src/day8.rs:62-69 | one row's antennas are pushed left to right |
| Day8.CellsIncreasing | 2024/rust/src/day8.rs:61-70 | each frequency's antennas are listed in reading order (row, then column) |
| Day8.AntennasOfWellFormed | 2024/rust/src/day8.rs:61-70 | no antenna is listed twice, and no antenna under two frequencies |
| Day8.TableKey | 2024/rust/src/day8.rs:63-67 | `entry(..).or_default()` creates a frequency's entry exactly when that frequency occurs |
| Day8.TableIsAntennasOf | 2024/rust/src/day8.rs:60-70 | the table the loops build equals the antenna table of the lines |
| Day8.ParseInput | 2024/rust/src/day8.rs:54-77 | None (the `unwrap` panic) exactly for an input without lines; otherwise rows = line count, columns = first line's length, antennas = the antenna table |
| Day8.ParseRow | 2024/rust/src/day8.rs:62-69 | after one row, each frequency's list is the old list followed by that row's cells of that frequency, left to right |
| Day8.CombinationsMember | 2024/rust/src/day8.rs:97-99 | the combinations of a list are exactly the pairs `(cs[i], cs[j])` with `i < j` |
| Day8.CombinationsLength | 2024/rust/src/day8.rs:97-99 | `n` antennas give `n(n-1)/2` pairs |
| Day8.CombinationsDistinct | 2024/rust/src/day8.rs:97-99 | distinct antennas give each unordered pair exactly once |
| Day8.AntennaPairDistinct | 2024/rust/src/day8.rs:93-103 | the two antennas of a pair from a well-formed table differ, so the resonant loop ends |
| Day8.GetAntennaPairs | 2024/rust/src/day8.rs:93-103 | the pairs are exactly the same-frequency combinations, whatever the order the frequencies are visited in, and none repeats when the table is well formed |
| Day8.ProjectAntiNodes | 2024/rust/src/day8.rs:105-114 | each antinode lies on the antennas' line, twice as far from the far antenna as from the near one |
| Day8.ResonantLineMultiples | 2024/rust/src/day8.rs:119-125 | the positions stepped back from `a` and forward from `b` are exactly `a + t·(b − a)` for every integer `t` |
| Day8.OffMapBeyond | 2024/rust/src/day8.rs:123-143 | for a non-zero step, every position beyond a bound is off the map, so the loop ends when `a != b` |
| Day8.OnMapBetween | 2024/rust/src/day8.rs:148-152 | the map is convex along a line: between two on-map positions every step is on the map |
| Day8.ResonantComplete | 2024/rust/src/day8.rs:138-140 | stopping once both steps are off the map loses no on-map position when both antennas are on the map |
| Day8.ProjectResonantAntiNodes | 2024/rust/src/day8.rs:116-146 | for `a != b`, every position kept is on the map and on the resonant line; when both antennas are on the map every such position is kept, the antennas themselves included |
| Day8.AntennasOnMap | 2024/rust/src/day8.rs:57-58 | when every line is as long as the first, every antenna lies on the map |
| Day8.CollectAntiNodes | 2024/rust/src/day8.rs:17-21 | the collected set holds exactly the on-map positions that are one of the two antinodes of some pair |
| Day8.CollectResonantAntiNodes | 2024/rust/src/day8.rs:33-37 | every collected position is an on-map resonant antinode of the parsed map, and when every line is as long as the first every such antinode is collected |
| Day8.Part1 | 2024/rust/src/day8.rs:14-24 | the answer is the number of distinct on-map antinodes of all same-frequency pairs |
| Day8.Part2 | 2024/rust/src/day8.rs:30-40 | the answer counts only on-map resonant antinodes, and counts all of them when every line is as long as the first |
| Day14.QuadrantCorners | 2024/rust/src/day14.rs:139-164 | each quadrant of a new lobby is the corner strictly left or right of the middle column and strictly above or below the middle row: half-open boxes that leave the middle row and column out |
| Day14.NoQuadrantOnMiddle | 2024/rust/src/day14.rs:150-158 | inside the lobby, `quadrant` is None exactly on the middle column or the middle row |
| Day14.WrapInRange | 2024/rust/src/day14.rs:102-118 | for `0 <= x < size` and a speed of at most `size`, the wrapped coordinate lies in `[0, size)` and equals `x + v` modulo `size` |
| Day14.AfterIsModular | 2024/rust/src/day14.rs:95-121 | under the same bounds, `n` moves put a robot at its start plus `n` velocities, modulo the lobby's size |
| Day14.Robot.Move | 2024/rust/src/day14.rs:95-121 | the new position is the old one moved by the velocity and wrapped at each edge |
| Day14.Robot.constructor | 2024/rust/src/day14.rs:91-93 | a robot starts at the given position with the given velocity |
| Day14.MoveAll | 2024/rust/src/day14.rs:15 | every robot of the list moves once, each by its own velocity |
| Day14.CountsPartition | 2024/rust/src/day14.rs:70-75 | every robot is counted exactly once, in its one quadrant or as outside every quadrant |
| Day14.SafetyFactorPositive | 2024/rust/src/day14.rs:77 | an empty quadrant has no entry, so it leaves the product alone and the safety factor is at least 1 |
| Day14.SafetyFactorOccupied | 2024/rust/src/day14.rs:67-78 | with every quadrant occupied, the safety factor is the product of the four counts |
| Day14.CountQuadrants | 2024/rust/src/day14.rs:68-75 | a quadrant has an entry exactly when it holds a robot, and the entry is its number of robots |
| Day14.CalculateSafetyFactor | 2024/rust/src/day14.rs:67-78 | the result is the product of the robot counts of the occupied quadrants |
| Day14.NewRobots | 2024/rust/src/day14.rs:56-64 | one new, distinct robot per position and velocity, in order |
| Day14.Part1 | 2024/rust/src/day14.rs:10-21 | the answer is the safety factor of the robots after 100 moves in the given lobby, and it is at least 1 |
| Day14.FirstTreeSecond | 2024/rust/src/day14.rs:29-33 | 7051 meets the stopping condition, and no earlier second does |
| Day14.Part2 | 2024/rust/src/day14.rs:23-43 | the answer is the least second past 47 on both cycles, 7051, and the robots have moved that many times |
| Day10.Get | 2024/rust/src/day10.rs:139-146 | `Map::get` gives a height exactly for locations inside the map, the grid's cell there, and that height is a digit |
| Day10.ProjectLocation | 2024/rust/src/day10.rs:148-165 | a step gives a location exactly when both shifted coordinates stay within `[0, rows)` and `[0, columns)`, and then it is the shifted location |
| Day10.TrailheadsMember | 2024/rust/src/day10.rs:119-137 | the trailheads are exactly the in-map cells of height 0 |
| Day10.TrailheadsIncreasing | 2024/rust/src/day10.rs:119-137 | the trailheads come in reading order (by row, then column), so none is repeated |
| Day10.AvailableDirections | 2024/rust/src/day10.rs:190-208 | a direction is offered exactly when its neighbour is on the map and exactly one higher |
| Day10.Climb | 2024/rust/src/day10.rs:210-212 | a climbable step lands on the map, one higher than where it started |
| Day10.Hiker.Move | 2024/rust/src/day10.rs:210-212 | the hiker's new position is the projected location of the old one |
| Day10.Hiker.constructor | 2024/rust/src/day10.rs:183-188 | a new hiker stands at the given position |
| Day10.HikeTrails | 2024/rust/src/day10.rs:69-93 | the recursive hike with cloned, moved hikers returns the trail count and peak set of the recursive definition `Hike` |
| Day10.HikeDirections | 2024/rust/src/day10.rs:84-92 | folding the hikes of the climbable directions gives the summed trail count and the union of peaks of the definition `HikeAll` |
| Day10.HikeDirection | 2024/rust/src/day10.rs:86-89 | a hiker cloned at the location and moved one step up returns the hike from the neighbour it climbs to |
| Day10.HikeAllPeaks | 2024/rust/src/day10.rs:84-92 | the fold's peak set is the union of the peaks of each direction's hike |
| Day10.HikePeaksReached | 2024/rust/src/day10.rs:69-93 | every peak the hike returns is a height-9 cell reached from the start by a trail of steps climbing one at a time |
| Day10.ReachedPeaksHiked | 2024/rust/src/day10.rs:69-93 | every height-9 end of a trail is among the peaks the hike from the trail's start returns |
| Day10.HikePeaksExactly | 2024/rust/src/day10.rs:69-93 | the hike's peaks are exactly the peaks reachable by a trail |
| Day10.TrailHeights | 2024/rust/src/day10.rs:190-208 | along a trail the height rises by one per step |
| Day10.CountAtLeastPeaks | 2024/rust/src/day10.rs:69-93 | a hike counts at least as many trails as distinct peaks |
| Day10.TrailsAtLeastPeaks | 2024/rust/src/day10.rs:52-63 | summed over trailheads, the trail count is at least the peak count |
| Day10.MapTrails | 2024/rust/src/day10.rs:52-63 | no result exactly when there is no trailhead (the `reduce(..).unwrap()` panic); otherwise the trail sum is at least the peak sum |
| Day10.ParseMap | 2024/rust/src/day10.rs:38-46 | a map exactly for a non-empty rectangular grid of digits; it is valid and each cell is the digit's value |
| Day10.Part2 | 2024/rust/src/day10.rs:14-28 | part 2 answers exactly when part 1 does, with at least part 1's answer |
| Day4.GetLetter | 2024/rust/src/day4.rs:61-67 | a letter exactly for cells inside the puzzle, the puzzle's letter there |
| Day4.Project | 2024/rust/src/day4.rs:69-86 | a shifted coordinate exactly when both shifted components lie in `[0, rows)` and `[0, columns)`, and then the shifted coordinate |
| Day4.ProjectAll | 2024/rust/src/day4.rs:88-100 | all-or-nothing: a result exactly when every offset projects into the puzzle, and then every projection in order |
| Day4.ProjectOffsets | 2024/rust/src/day4.rs:88-100 | the push loop with early `?` return computes `ProjectAll` |
| Day4.WordSearchIterator.constructor | 2024/rust/src/day4.rs:114-120 | a new cursor starts at the top-left cell, having yielded nothing |
| Day4.WordSearchIterator.Next | 2024/rust/src/day4.rs:126-140 | on a cell it yields that cell's letter and coordinate and moves right, wrapping to the next row; off the puzzle it yields None, moves no further and has yielded every cell |
| Day4.Enumerate | 2024/rust/src/day4.rs:123-141 | driving the cursor until None yields exactly `Cells`, the puzzle's cells in reading order |
| Day4.CellsMember | 2024/rust/src/day4.rs:123-141 | the enumerated cells are exactly the in-puzzle coordinates with their letters |
| Day4.CellsInOrder | 2024/rust/src/day4.rs:123-141 | the enumeration is strictly increasing in reading order, so no cell is repeated |
| Day4.WordOf | 2024/rust/src/day4.rs:153-184 | the word's eight offset lists each have one entry per letter, entry `k` being `k` times the direction's unit shift |
| Day4.NewWord | 2024/rust/src/day4.rs:153-184 | the push loop builds `WordOf(word)` |
| Day4.FindWord | 2024/rust/src/day4.rs:191-198 | `find_word` is at most 8 |
| Day4.FindWordCounts | 2024/rust/src/day4.rs:191-208 | `find_word` equals the number of directions in which the word's letters lie, in order, in the puzzle |
| Day4.FoundIff | 2024/rust/src/day4.rs:191-208 | one direction passes the projection and `check_word` exactly when the word is spelled along it inside the puzzle |
| Day4.FindWordFirstLetter | 2024/rust/src/day4.rs:14-17 | from a cell without the first letter nothing is found, so filtering on `X` loses no occurrence |
| Day4.XmasCountSpelled | 2024/rust/src/day4.rs:14-17 | the `X`-filtered sum of `find_word` equals the number of ways "XMAS" is spelled from every cell |
| Day4.FindXMas | 2024/rust/src/day4.rs:238-255 | `find_x_mas` only ever gives 1 or None |
| Day4.FindXMasIff | 2024/rust/src/day4.rs:219-255 | the four accepted patterns hold exactly at an `A` whose two diagonals, all inside the puzzle, each read "MAS" one way or the other |
| Day4.CrossCountCentres | 2024/rust/src/day4.rs:28-31 | the `A`-filtered sum of `find_x_mas` equals the number of crossed-"MAS" centres |
| Day4.ParsePuzzle | 2024/rust/src/day4.rs:11-12 | a puzzle exactly for a non-empty list of equally long lines, holding those lines |
| Day4.Part1 | 2024/rust/src/day4.rs:8-20 | the answer is the number of (cell, direction) pairs spelling "XMAS"; None exactly when there is no puzzle |
| Day4.Part2 | 2024/rust/src/day4.rs:22-34 | the answer is the number of crossed-"MAS" centres; None exactly when there is no puzzle |
| Day20.FindInRow | 2024/rust/src/day20.rs:77-78 | the column found holds the character and none before it in the row does; None only when no column from the start does |
| Day20.FindFirst | 2024/rust/src/day20.rs:77-78 | the cell found for 'S' or 'E' holds the character and no cell before it in reading order does; None only when no cell holds it |
| Day20.FirstStepCandidate | 2024/rust/src/day20.rs:96-106 | the first direction tried that leads to an on-map track cell other than the excluded one is a neighbour; None exactly when no direction qualifies |
| Day20.NextPositionStep | 2024/rust/src/day20.rs:89-108 | the next position is an on-map track neighbour of the last position and not the position before it; None (the panic) exactly when no neighbour qualifies |
| Day20.NextPositionAsWrittenStepsBack | 2024/rust/src/day20.rs:91-95 | on a straight track, the code as written steps from the second position back to 'S' and then has nowhere to go, while the corrected rule moves on |
| Day20.MapCourse | 2024/rust/src/day20.rs:76-87 | the loop computes the walk from 'S' to 'E' defined by `CourseOf`, None when 'S' or 'E' is missing or the walk gets stuck |
| Day20.StepsExtend | 2024/rust/src/day20.rs:83-84 | pushing the next position keeps the course on the track, one step at a time, never turning straight back |
| Day20.WalkSteps | 2024/rust/src/day20.rs:82-86 | the walk keeps the positions so far, continues from the current one, stays in shape and ends at the goal |
| Day20.CourseShape | 2024/rust/src/day20.rs:76-87 | the course starts at 'S', ends at 'E', lies on the track and moves one step at a time without stepping back |
| Day20.CourseIndexShape | 2024/rust/src/day20.rs:42-46 | the index holds exactly the course positions, each at a time the course is there, the last such time |
| Day20.CourseIndexTimes | 2024/rust/src/day20.rs:42-46 | on a course that visits no position twice, each position's index is its time on the course |
| Day20.BallMember | 2024/rust/src/day20.rs:143-150 | the grid of offsets filtered by length holds exactly the offsets of length at most the duration, each with its length |
| Day20.Without | 2024/rust/src/day20.rs:151 | the filter keeps exactly the entries whose offset is not the excluded one |
| Day20.GetOffsetsAsWrittenKeepsCentre | 2024/rust/src/day20.rs:142-151 | as written, for a duration of 1 or more the centre filter removes nothing and the zero offset stays |
| Day20.GetOffsetsMember | 2024/rust/src/day20.rs:139-153 | the corrected offsets are exactly the non-zero offsets of length at most the duration, each with its length |
| Day20.Reachable | 2024/rust/src/day20.rs:155-163 | every reachable position is on the map and track |
| Day20.ReachableMember | 2024/rust/src/day20.rs:155-163 | a position is reachable with a time exactly when it is on-map track and its offset from the start is listed with that time |
| Day20.ReachableWithin | 2024/rust/src/day20.rs:155-163 | with the corrected offsets, exactly the on-map track cells at distance 1 to the duration are reached, each in its distance |
| Day20.FindCheatsMember | 2024/rust/src/day20.rs:118-137 | a cheat is found exactly when some reachable end is reached before the course gets there, saving the difference |
| Day20.CheatsMember | 2024/rust/src/day20.rs:118-137 | the cheats from a position are exactly the cheats of at most the duration that start there |
| Day20.CentreGivesNoCheat | 2024/rust/src/day20.rs:126-135 | offsets of length zero never give a cheat, so dropping them leaves the cheats unchanged |
| Day20.AsWrittenSameCheats | 2024/rust/src/day20.rs:139-153 | the offsets as written and the corrected offsets give the same cheats |
| Day20.AllCheatsMember | 2024/rust/src/day20.rs:48-51 | the cheats of the course are exactly the cheats of at most the duration starting at a course position |
| Day20.Histogram | 2024/rust/src/day20.rs:53-60 | the histogram's keys are exactly the savings that occur, each with a positive count |
| Day20.HistogramCounts | 2024/rust/src/day20.rs:53-69 | summing the histogram counts of savings at least the minimum gives the number of cheats saving at least the minimum |
| Day20.SumSelected | 2024/rust/src/day20.rs:66-69 | the loop over the histogram's keys sums the counts of savings at least the minimum |
| Day20.CountCheatsThatSaveTime | 2024/rust/src/day20.rs:35-70 | the answer is the number of cheats on the course saving at least the minimum; None when the course or a course index is missing |
| Day20.ParseMap | 2024/rust/src/day20.rs:31-33 | a map exactly when there is a line and all lines have the same length, and then it is the lines |
| Day20.Part1 | 2024/rust/src/day20.rs:13-16 | the number of cheats of up to 2 picoseconds saving at least 100 |
| Day20.Part2 | 2024/rust/src/day20.rs:18-22 | the number of cheats of up to 20 picoseconds saving at least 100 |
| Day9.ParseDigit | 2024/rust/src/day9.rs:87-101 | a value exactly for the characters '0' to '9', namely the digit's value; None (the panic) for any other character |
| Day9.Digits | 2024/rust/src/day9.rs:56-62 | the line's digit values, one per character, exactly when every character is a digit |
| Day9.AllocationsAt | 2024/rust/src/day9.rs:64-79 | one allocation per digit, alternately a file and free space, the files numbered consecutively from 0 with their digit as size |
| Day9.ParseInput | 2024/rust/src/day9.rs:48-85 | the loop builds the allocations of the first line and the block count as their digit sum; None when there is no line or a non-digit |
| Day9.Blocks | 2024/rust/src/day9.rs:113-130 | the nested loops give each allocation's blocks in order: the file's number as often as its size, or that many free blocks |
| Day9.BlockCount | 2024/rust/src/day9.rs:56-62 | the number of blocks equals the block count, the sum of the digits |
| Day9.FileBlockCount | 2024/rust/src/day9.rs:113-131 | file `x` fills exactly as many blocks as its digit, and no other number appears |
| Day9.BlocksLayout | 2024/rust/src/day9.rs:115-128 | each allocation's blocks lie together, right after the blocks of the allocations before it |
| Day9.BlocksOfAppend | 2024/rust/src/day9.rs:115-128 | the blocks of two runs of allocations are the blocks of the first followed by those of the second |
| Day9.ChecksumUpdate | 2024/rust/src/day9.rs:292-299 | changing one block changes the checksum by that block's old and new weight only |
| Day9.ChecksumMoveLeft | 2024/rust/src/day9.rs:175 | swapping file block `x` at `r` with the free block at `l < r` lowers the checksum by `(r - l) * x` |
| Day9.NextFreeFirst | 2024/rust/src/day9.rs:161-164 | the left cursor stops at the first free block from where it was, every block passed being occupied |
| Day9.LastUsedLast | 2024/rust/src/day9.rs:166-169 | the right cursor stops at the last occupied block up to where it was, every block passed being free |
| Day9.FragmentsFromStep | 2024/rust/src/day9.rs:160-176 | after a swap the compaction continues from the cursors where they stopped |
| Day9.FragmentsInvariantStep | 2024/rust/src/day9.rs:160-176 | a swap keeps the blocks before the left cursor occupied, those after the right cursor free, the blocks still in place unmoved, and the blocks a permutation |
| Day9.FragmentsInvariantDone | 2024/rust/src/day9.rs:171-173 | when the cursors meet, no free block comes before an occupied one |
| Day9.FragmentsFromCompacts | 2024/rust/src/day9.rs:160-176 | the swapping from any state keeping the invariant ends compacted, permuted, with no occupied block moved that stays occupied |
| Day9.FragmentsFromDefined | 2024/rust/src/day9.rs:160-176 | with a free block right of the left cursor and an occupied block left of the right cursor, the cursors never run off the disk |
| Day9.CompactFragmentsSpec | 2024/rust/src/day9.rs:156-177 | the part 1 compaction succeeds exactly when the disk has a free and an occupied block, and then permutes the blocks with no free block before an occupied one, leaving unmoved every block that stays occupied |
| Day9.CompactFileFragments | 2024/rust/src/day9.rs:156-177 | the two-cursor loop over the array computes the part 1 compaction; false exactly when it panics |
| Day9.SeekFrom | 2024/rust/src/day9.rs:225-255 | the cursor only moves down and strictly unless it reaches block 0; a file found starts right after the new cursor and fits on the disk |
| Day9.SeekFileFound | 2024/rust/src/day9.rs:225-255 | a file found has all its blocks numbered alike, only free blocks above it up to the cursor, and a number below the last one handled, which becomes the last one; otherwise a number not below the last one was passed over and the last number is kept |
| Day9.SeekFile | 2024/rust/src/day9.rs:225-255 | the two loops walking the cursor down compute `SeekFrom` |
| Day9.FirstFreeSpan | 2024/rust/src/day9.rs:207-218 | the start found begins a run of free blocks of the file's length, and no earlier start tried does; None when no start tried does |
| Day9.SwappedSpansPermutation | 2024/rust/src/day9.rs:213-215 | exchanging the free span and the file span permutes the blocks |
| Day9.MoveFile | 2024/rust/src/day9.rs:199-218 | trying to move a file keeps the disk's length and its blocks as a multiset |
| Day9.MoveFileTarget | 2024/rust/src/day9.rs:203-218 | a file moves only into the leftmost run of free blocks wholly to its left; as written that run never ends right before the file |
| Day9.WholeFromPermutation | 2024/rust/src/day9.rs:187-219 | the whole-file compaction from any cursor permutes the blocks |
| Day9.CompactWholePermutation | 2024/rust/src/day9.rs:183-220 | the part 2 compaction permutes the blocks |
| Day9.WholeFilesMissesAdjacentSpan | 2024/rust/src/day9.rs:208 | on blocks `0 . 1`, as written file 1 stays where it is and the checksum is 2 |
| Day9.AdjacentSpanIntended | 2024/rust/src/day9.rs:208 | on blocks `0 . 1`, with the search as intended file 1 moves into the free block before it and the checksum is 1 |
| Day9.SwapSpans | 2024/rust/src/day9.rs:213-215 | the element-by-element loop exchanges the two spans |
| Day9.MoveFileLeft | 2024/rust/src/day9.rs:207-218 | the search loop and the swap compute `MoveFile` with the span before the file tried too |
| Day9.CompactWholeFiles | 2024/rust/src/day9.rs:183-220 | the loop over the array computes the part 2 compaction; false exactly when it panics |
| Day9.Part1 | 2024/rust/src/day9.rs:13-18 | the checksum after the part 1 compaction; None when the source panics |
| Day9.Part2 | 2024/rust/src/day9.rs:24-38 | the checksum after the part 2 compaction; None when the source panics |
| Bits.XorInvolution | 2024/rust/src/day17.rs:198-203 | exclusive or with the same number twice gives the first number back |
| Bits.XorCommutes | 2024/rust/src/day17.rs:222-226 | exclusive or gives the same result with its operands swapped |
| Bits.XorBelow | 2024/rust/src/day17.rs:198-203 | the exclusive or of two numbers below 2^k is below 2^k |
| Bits.ShiftRightDivides | 2024/rust/src/day17.rs:190-196 | shifting right by k binary digits is dividing by 2^k, and the result is at most the number shifted |
| Day17.Executed | 2024/rust/src/day17.rs:154-188 | an instruction panics exactly when the opcode is above 7, or a `bxl`/`jnz` operand is above 7, or a combo operand of `adv`/`bst`/`out`/`bdv`/`cdv` is above 6 |
| Day17.ExecutedPointer | 2024/rust/src/day17.rs:131-133 | every instruction moves the pointer on by 2, except `jnz` with A ≠ 0, which sets it to its literal operand |
| Day17.ExecutedOutput | 2024/rust/src/day17.rs:228-235 | only `out` changes the output, and it appends the combo operand modulo 8 |
| Day17.ExecutedDivision | 2024/rust/src/day17.rs:190-196 | `adv`, `bdv` and `cdv` store A divided by 2 to the power of the combo operand into A, B and C, leaving the other registers as they were |
| Day17.XorInstructionsUndo | 2024/rust/src/day17.rs:198-203 | running `bxl` twice with the same operand, or `bxc` twice, restores every register |
| Day17.ExecutedKeepsA | 2024/rust/src/day17.rs:190-196 | no instruction makes register A larger |
| Day17.ExecutedKeepsBOctal | 2024/rust/src/day17.rs:198-210 | `bxl`, `bst` and `bxc` keep B below 8 when B and C are below 8 |
| Day17.RunStopsPastEnd | 2024/rust/src/day17.rs:142-148 | a run ends halted exactly when its final pointer is at or past the end of the program |
| Day17.RunOutputOctal | 2024/rust/src/day17.rs:228-235 | a run only appends to the output, and every value it appends is below 8 |
| Day17.OutputOfOctal | 2024/rust/src/day17.rs:228-235 | a halted run from fresh registers has output only values below 8 |
| Day17.RunKeepsA | 2024/rust/src/day17.rs:142-148 | register A at the end of a run is at most its value at the start |
| Day17.RunMoreFuel | 2024/rust/src/day17.rs:142-148 | a run that halts within some number of instructions halts in the same state when allowed more |
| Day17.QuineExample | 2024/rust/src/day17.rs:190-235 | the program 0,3,5,4,3,0 started with A = 117440 outputs itself |
| Day17.QuineRound | 2024/rust/src/day17.rs:190-235 | one pass of that program divides A by 8, outputs the new A modulo 8 and jumps back unless A is 0 |
| Day17.Computer.constructor | 2024/rust/src/day17.rs:118-129 | a new computer holds the given registers and program, with the pointer at 0 and no output |
| Day17.Computer.IncrementInstructionPointer | 2024/rust/src/day17.rs:131-133 | the pointer grows by 2 and nothing else changes |
| Day17.Computer.Adv | 2024/rust/src/day17.rs:190-196 | the computer's new state is the `adv` transition of its old one, or it is unchanged where `adv` panics |
| Day17.Computer.Bxl | 2024/rust/src/day17.rs:198-203 | the computer's new state is the `bxl` transition of its old one, or it is unchanged where `bxl` panics |
| Day17.Computer.Bst | 2024/rust/src/day17.rs:205-210 | the computer's new state is the `bst` transition of its old one, or it is unchanged where `bst` panics |
| Day17.Computer.Jnz | 2024/rust/src/day17.rs:212-220 | the computer's new state is the `jnz` transition of its old one, or it is unchanged where `jnz` panics |
| Day17.Computer.Bxc | 2024/rust/src/day17.rs:222-226 | the computer's new state is the `bxc` transition of its old one, which never panics |
| Day17.Computer.Out | 2024/rust/src/day17.rs:228-235 | the computer's new state is the `out` transition of its old one, or it is unchanged where `out` panics |
| Day17.Computer.Bdv | 2024/rust/src/day17.rs:237-243 | the computer's new state is the `bdv` transition of its old one, or it is unchanged where `bdv` panics |
| Day17.Computer.Cdv | 2024/rust/src/day17.rs:245-251 | the computer's new state is the `cdv` transition of its old one, or it is unchanged where `cdv` panics |
| Day17.Computer.Execute | 2024/rust/src/day17.rs:176-188 | the computer's new state is the transition of the decoded instruction, and the result says whether the source panics |
| Day17.Computer.Run | 2024/rust/src/day17.rs:142-148 | the computer ends in the state the bounded run reaches, and the outcome says whether it halted, panicked or ran out of instructions |
| Day17.SolveFromSound | 2024/rust/src/day17.rs:71-100 | any register A the search returns makes the program output exactly itself |
| Day17.SolveFromAtLeast | 2024/rust/src/day17.rs:78-79 | the search returns at least 8·A + k, the first candidate it may try |
| Day17.RunFresh | 2024/rust/src/day17.rs:81-82 | a fresh computer's run gives the output of the bounded run from those registers |
| Day17.RegisterASolver | 2024/rust/src/day17.rs:71-100 | the loop and recursion return what the search over candidates (A << 3) + k, k from 0 to 62, returns |
| Day17.Part1 | 2024/rust/src/day17.rs:11-17 | the answer is the formatted output of the program when it halts |
| Day17.Part2 | 2024/rust/src/day17.rs:19-26 | the answer is exactly the decimal form of what the octal-digit search from A = 0 finds (none on an empty program, where the source panics), and that register A makes the program output itself with the given B and C |
| Day17.FormatOutputRoundTrip | 2024/rust/src/day17.rs:135-140 | the formatted output splits on commas into one piece per value, and each piece parses back to its value |
| Day21.MoveCharRoundTrip | 2024/rust/src/day21.rs:218-241 | converting a move to its character and back gives the same move |
| Day21.CharMoveRoundTrip | 2024/rust/src/day21.rs:218-241 | a character converts to a move exactly when it is one of `^ v < > A` (any other is a panic), and converting that move back gives the same character |
| Day21.Chars | 2024/rust/src/day21.rs:145-153 | the moves become one character each, every one a key of the directional keypad |
| Day21.LeftUpDownRight | 2024/rust/src/day21.rs:275-298 | the loop returns the left-first moves from start to end, ending in Activate |
| Day21.LeftFirstPathShape | 2024/rust/src/day21.rs:279-293 | before Activate come all the Lefts, then only Ups or only Downs, then all the Rights, as many of each as the column and row differences |
| Day21.LeftFirstWalk | 2024/rust/src/day21.rs:275-298 | the left-first moves lead from start to end and number the row difference plus the column difference plus one |
| Day21.LeftFirstAvoids | 2024/rust/src/day21.rs:275-298 | when the gap is on none of the three legs (along the row to the end column, along that column to the end row, along the end row) the moves never pass over it |
| Day21.RightDownUpLeft | 2024/rust/src/day21.rs:300-323 | the loop returns the right-first moves from start to end, ending in Activate |
| Day21.RightFirstPathShape | 2024/rust/src/day21.rs:304-318 | before Activate come all the Rights, then only Downs or only Ups, then all the Lefts, as many of each as the column and row differences |
| Day21.RightFirstWalk | 2024/rust/src/day21.rs:300-323 | the right-first moves lead from start to end and number the row difference plus the column difference plus one |
| Day21.RightFirstAvoids | 2024/rust/src/day21.rs:300-323 | when the gap is on none of the three legs the right-first moves never pass over it |
| Day21.KeypadMoves | 2024/rust/src/day21.rs:166-188 | the moves between two keys of either keypad are never empty and end with Activate |
| Day21.KeypadMovesWalk | 2024/rust/src/day21.rs:94-130 | the moves lead the robot from the current key's position to the next key's position |
| Day21.NumericMovesAvoidGap | 2024/rust/src/day21.rs:94-114 | with right-first between {0, A} and {1, 4, 7} and left-first otherwise, the robot never passes the numeric keypad's gap at (3, 0) |
| Day21.DPadMovesAvoidGap | 2024/rust/src/day21.rs:116-130 | with right-first when either end is '<' and left-first otherwise, the robot never passes the directional keypad's gap at (0, 0) |
| Day21.MovesForAppend | 2024/rust/src/day21.rs:145-153 | pressing `a` then `b` gives the moves for `a` followed by the moves for `b` from the last button of `a` |
| Day21.MovesForEndsAtA | 2024/rust/src/day21.rs:143-155 | whatever a keypad presses, the moves end with Activate, so the robot typing them finishes on 'A' |
| Day21.ExpandAppend | 2024/rust/src/day21.rs:143-155 | through a whole chain, pressing `a` then `b` gives the far-end moves for `a` followed by those for `b` |
| Day21.ExpandSnoc | 2024/rust/src/day21.rs:146-154 | one more directional keypad on a chain types, from 'A', the characters of the moves the chain needs |
| Day21.ExpandEndsAtA | 2024/rust/src/day21.rs:143-164 | every robot of a chain that types moves finishes on 'A' |
| Day21.ExpandOne | 2024/rust/src/day21.rs:184-199 | one button pressed through a chain takes as many far-end moves as the recursive count of `count_moves` gives |
| Day21.ExpandCost | 2024/rust/src/day21.rs:177-206 | the number of far-end moves for a sequence of buttons equals the sum of the per-pair counts, which is why caching a count by (from, to) pair is sound |
| Day21.TypedExpands | 2024/rust/src/day21.rs:143-164 | `enter_code` on `k` directional keypads at 'A' above the numeric keypad returns exactly the chain's far-end moves for the code |
| Day21.TypedEndsAtA | 2024/rust/src/day21.rs:143-175 | after `enter_code` every directional robot is back on 'A' and the numeric robot points at the code's last button |
| Day21.TypedCount | 2024/rust/src/day21.rs:18-47 | the length of the moves `enter_code` returns (part 1) equals the sum of `count_moves` over the code (part 2) |
| Day21.ComplexityOfCode | 2024/rust/src/day21.rs:329-332 | a code made of a number `n` and one more character has complexity `n` times the move count |
| Day21.TotalFromStep | 2024/rust/src/day21.rs:18-49 | a panic on the first code leaves no answer; otherwise the sum is the first code's complexity plus the sum over the rest, typed from where the first left the robot |
| Day21.Keypad.constructor | 2024/rust/src/day21.rs:133-141 | a new keypad points at 'A', has an empty cache and sits on top of the keypad it is connected to |
| Day21.Keypad.MoveTo | 2024/rust/src/day21.rs:166-175 | the moves are this keypad's moves from the old key to `to`, and the robot now points at `to` |
| Day21.Keypad.CountMoves | 2024/rust/src/day21.rs:177-206 | the count, cached or not, is the chain's true count for the pair, the robot now points at `to`, and every cache entry down the chain stays equal to the true count |
| Day21.Keypad.CountUncached | 2024/rust/src/day21.rs:184-199 | without a connected keypad the count is the number of moves; otherwise it is the sum of the connected keypad's counts for their characters |
| Day21.Keypad.CountAll | 2024/rust/src/day21.rs:43-46 | summing `count_moves` over the buttons gives the chain's count for the sequence and leaves the robot on the last button |
| Day21.Keypad.PressAll | 2024/rust/src/day21.rs:145-153 | the concatenated `move_to` moves are this keypad's moves for the buttons, and the robot ends on the last one |
| Day21.Keypad.EnterCode | 2024/rust/src/day21.rs:143-164 | the moves are those the chain's specification gives for the robots' old positions, and the robots end where that specification says |
| Day21.Part1 | 2024/rust/src/day21.rs:11-24 | the answer is the sum of the complexities through two directional keypads on the numeric one, or none where the source panics |
| Day21.TypeCodes | 2024/rust/src/day21.rs:18-22 | typing the codes one after the other with `enter_code` gives that sum |
| Day21.TypeCode | 2024/rust/src/day21.rs:20-21 | one code's complexity from the length of the moves `enter_code` returns is that code's score |
| Day21.Part2 | 2024/rust/src/day21.rs:26-51 | the answer is the same sum through 25 directional keypads |
| Day21.DPadChain | 2024/rust/src/day21.rs:29-36 | the loop builds a chain of `count` new directional keypads, every robot on 'A' |
| Day21.CountCodes | 2024/rust/src/day21.rs:40-49 | counting the codes one after the other with `count_moves` gives that sum |
| Day21.CountCode | 2024/rust/src/day21.rs:42-48 | one code's complexity from the sum of `count_moves` is that code's score |
| Direction.GridOffset | 2024/rust/src/shared/direction.rs:30-39 | every grid direction moves exactly one cell, one row or one column (up is row -1, left column -1) |
| Direction.TryFromChar | 2024/rust/src/shared/direction.rs:47-59 | conversion succeeds exactly on the characters `^ v < >` and is an error for every other character |
| Direction.CompassOffset | 2024/rust/src/shared/direction.rs:104-113 | every compass direction moves exactly one cell |
| Direction.CharRoundTrip | 2024/rust/src/shared/direction.rs:47-70 | converting a direction to its character and back gives the direction; every accepted character converts back to itself |
| Direction.TurnCycle | 2024/rust/src/shared/direction.rs:84-102 | a left turn undoes a right turn and vice versa, four turns either way are the identity, one or two right turns change the direction, and two right turns reverse the offset |
| Direction.CompassMatchesGrid | 2024/rust/src/shared/direction.rs:104-113 | North, South, East and West have the offsets of Up, Down, Right and Left |
| Direction.TurnRightRotatesOffset | 2024/rust/src/shared/direction.rs:94-113 | a right turn rotates the offset (r, c) to (c, -r) |
| GridDirections.TurnRight | 2024/rust/src/shared/grid_directions.rs:53-56 | turning right is turning clockwise |
| GridDirections.TurnLeft | 2024/rust/src/shared/grid_directions.rs:58-61 | turning left is turning counterclockwise |
| GridDirections.Offset | 2024/rust/src/shared/grid_directions.rs:68-77 | every direction moves exactly one cell |
| GridDirections.TryFromChar | 2024/rust/src/shared/grid_directions.rs:93-105 | conversion succeeds exactly on `^ v < >` |
| GridDirections.ClockwiseCycle | 2024/rust/src/shared/grid_directions.rs:35-51 | four clockwise or four counterclockwise turns are the identity, and one to three clockwise turns are not |
| GridDirections.CounterclockwiseIsInverse | 2024/rust/src/shared/grid_directions.rs:35-51 | a counterclockwise turn undoes a clockwise turn, on both sides |
| GridDirections.OffsetGeometry | 2024/rust/src/shared/grid_directions.rs:35-77 | the opposite direction has the negated offset; a clockwise turn rotates (r, c) to (c, -r) and a counterclockwise one to (-c, r) |
| GridDirections.CharRoundTrip | 2024/rust/src/shared/grid_directions.rs:93-116 | direction to character to direction is the identity, and so is character to direction to character on accepted characters |
| GridDirections.OffsetInjective | 2024/rust/src/shared/grid_directions.rs:68-77 | different directions have different offsets |
| GridIndex.Abs | 2024/rust/src/shared/grid_index.rs:100-106 | the absolute value is the number or its negation, and never negative |
| GridIndex.TruncDivRem | 2024/rust/src/shared/grid_index.rs:36-82 | the integer `/` and `%` the operators use truncate toward zero: quotient times divisor plus remainder gives the dividend, the remainder is smaller than the divisor and has the dividend's sign |
| GridIndex.New | 2024/rust/src/shared/grid_index.rs:16-20 | the new index has the given row and column |
| GridIndex.FromPair | 2024/rust/src/shared/grid_index.rs:26-30 | converting a pair gives the index `new` builds from its two parts |
| GridIndex.AbsIndex | 2024/rust/src/shared/grid_index.rs:100-106 | `abs` has no negative part and is the index with some of its parts negated |
| GridIndex.ScalarIsPairwise | 2024/rust/src/shared/grid_index.rs:36-82 | each operator with a scalar is the pairwise operator against (s, s) |
| GridIndex.AddSubInverse | 2024/rust/src/shared/grid_index.rs:36-82 | subtracting what was added gives the index back, and subtracting is adding the negation |
| GridIndex.NegInvolutive | 2024/rust/src/shared/grid_index.rs:84-94 | negating twice is the identity and negation distributes over addition |
| GridIndex.ScalarDivRem | 2024/rust/src/shared/grid_index.rs:36-82 | for a non-zero scalar, (a / s) * s + a % s gives a back |
| GridIndex.AbsOfNeg | 2024/rust/src/shared/grid_index.rs:84-106 | a negated index has the same `abs` |
| GridIndex.PositiveNegativeExclusive | 2024/rust/src/shared/grid_index.rs:108-114 | no index is both positive and negative; (0, 0) is neither; positive means both parts above zero, negative means some part below zero |
| GridIndex.LessIsStrictTotalOrder | 2024/rust/src/shared/grid_index.rs:10-14 | the derived ordering (row first, then column) is irreflexive, transitive, total and asymmetric |
| GridIndex.Examples | 2024/rust/src/shared/grid_index.rs:125-248 | the unit tests' values for add, sub, mul, div, rem, neg, abs, is_positive and is_negative, plus truncation on a negative row |
| GridIndex.IndexVar.AssignPairwise | 2024/rust/src/shared/grid_index.rs:50-55 | `op=` with an index changes the index to the pairwise result |
| GridIndex.IndexVar.AssignScalar | 2024/rust/src/shared/grid_index.rs:69-74 | `op=` with a scalar changes the index to the scalar result |
| GridMap.ChunksOfFlatten | 2024/rust/src/shared/map.rs:71-73 | cutting the cells of rectangular rows into chunks of the row width gives the rows back |
| GridMap.FlattenOfChunks | 2024/rust/src/shared/map.rs:71-73 | laying the chunks end to end gives the cells back |
| GridMap.ChunksShape | 2024/rust/src/shared/map.rs:71-73 | `rows * columns` cells make `rows` chunks, each a full row |
| GridMap.Construct | 2024/rust/src/shared/map.rs:246-273 | construction succeeds exactly when the cell count is the row count times the first row's length; then the cells are the rows laid end to end and the bounds are (rows, first row's length) |
| GridMap.RectangularAccepted | 2024/rust/src/shared/map.rs:246-273 | rectangular, non-empty rows never panic |
| GridMap.RaggedExamples | 2024/rust/src/shared/map.rs:268-270 | the length check only compares counts: ragged rows with a matching count are accepted; a short count or no rows at all panics |
| GridMap.Map.New | 2024/rust/src/shared/map.rs:32-39 | `rows * columns` copies of the default, with those bounds |
| GridMap.Map.FromRows | 2024/rust/src/shared/map.rs:246-273 | the map holds what construction produces |
| GridMap.Map.IsInBounds | 2024/rust/src/shared/map.rs:83-90 | the index comes back exactly when it is within the bounds |
| GridMap.Map.InternalIndex | 2024/rust/src/shared/map.rs:123-128 | there is a position exactly for in-bounds indices, and it is inside the data |
| GridMap.Map.GridIndexOf | 2024/rust/src/shared/map.rs:130-140 | there is an index exactly for positions inside the data, and it is in bounds and maps back to the position |
| GridMap.Map.IndexRoundTrip | 2024/rust/src/shared/map.rs:123-140 | `internal_index` and `grid_index` are inverse bijections between in-bounds indices and data positions |
| GridMap.Map.Get | 2024/rust/src/shared/map.rs:92-95 | a cell comes back exactly for in-bounds indices, and it is the cell at the index's position |
| GridMap.Map.Set | 2024/rust/src/shared/map.rs:102-108 | out of bounds it is an error and nothing changes; in bounds exactly that cell takes the value |
| GridMap.Map.GetMut | 2024/rust/src/shared/map.rs:97-100 | in bounds exactly that cell is rewritten from its old value; out of bounds nothing changes |
| GridMap.Map.ProjectOffset | 2024/rust/src/shared/map.rs:110-117 | the sum of index and offset comes back exactly when it is in bounds |
| GridMap.Map.ProjectDirectionReversible | 2024/rust/src/shared/map.rs:149-156 | a projected step lands one cell away, and the opposite step from there comes back |
| GridMap.Map.Find | 2024/rust/src/shared/map.rs:75-81 | the first cell in storage order that satisfies the predicate, or none exactly when no cell does |
| GridMap.Map.Enumerate | 2024/rust/src/shared/map.rs:61-69 | one pair per cell, in storage order, each cell with its grid index |
| GridMap.Map.EnumerateIsRowMajor | 2024/rust/src/shared/map.rs:61-69 | the enumerated indices increase in row-then-column order and every in-bounds index appears at its position |
| GridMap.Position | 2024/rust/src/shared/map.rs:79 | the first position whose item satisfies the predicate, or the length when none does |
| GridMap.Overlaid | 2024/rust/src/shared/map.rs:216-232 | each cell shows the overlay's character where the overlay has the index, and the map's cell otherwise |
| GridMap.DisplayWithActor | 2024/rust/src/shared/map.rs:187-207 | showing an actor is the overlay with the actor's one cell |
| GridMap.RenderIdentity | 2024/rust/src/shared/map.rs:337-342 | rendering characters as themselves gives the rows unchanged |
| GridMap.TextRoundTrip | 2024/rust/src/shared/map.rs:282-342 | a rectangular text read into a map prints back unchanged, both as a string and with an empty overlay |
| Sums.SetSumRemove | 2024/rust/src/day12.rs:80-92 | a sum over a hash set (the per-plot perimeter sum) does not depend on the order the set is visited in: any item can be taken out first |
| Sums.SetSumUpper | 2024/rust/src/day12.rs:80-92 | a bound on every item bounds the sum by the bound times the count |
| Sums.SetSumLower | 2024/rust/src/day12.rs:80-92 | a lower bound on every item bounds the sum from below by the bound times the count |
| Sums.SetSumSame | 2024/rust/src/day12.rs:80-92 | summing two functions that agree on the set gives the same sum |
| Sums.SeqSumAppend | 2024/rust/src/day15.rs:92-102 | the sum of an iterator over two runs is the sum of the runs' sums |
| PyText.StripLeft | 2023/day-2/part1.py:50 | `lstrip` removes exactly the leading white space: the result is a suffix of the input, and every removed character is white space |
| PyText.StripRight | 2023/day-2/part1.py:50 | `rstrip` removes exactly the trailing white space: the result is a prefix, and every removed character is white space |
| PyText.StripKeeps | 2023/day-2/part1.py:50 | a string with no white space at either end is its own strip |
| PyText.PyWords | 2023/day-4/part1.py:31-32 | `split()` gives only non-empty words |
| PyText.PyIntDigits | 2023/day-4/part1.py:30-32 | `int()` on a run of decimal digits is its decimal value |
| PyText.PyInts | 2023/day-9/part1.py:12 | the list comprehension of `int()` gives, when it succeeds, one value per word |
| PyText.PyIntsSome | 2023/day-9/part1.py:12 | the list comprehension of `int()` succeeds exactly when every word converts |
| PyText.PyIntsValues | 2023/day-9/part1.py:12 | a successful list comprehension of `int()` holds each word's value at that word's position |
| PyText.PyIntRoundTrip | 2023/day-9/part1.py:12 | printing an integer and converting it back with `int()` gives the integer |
| Text.IndexOf | 2024/rust/src/day2.rs:19 | the first position of the separator, or the length when it does not occur: every earlier character differs from it |
| Text.IndexOfAfter | 2024/rust/src/day2.rs:19 | in `a + [c] + b` with no `c` in `a`, the first `c` is right after `a` |
| Text.IndexOfAbsent | 2024/rust/src/day2.rs:19 | a character that does not occur is found at the end |
| Text.SplitJoin | 2024/rust/src/day2.rs:19 | `split(c)` of pieces joined by `c`, none holding `c`, gives the pieces back |
| Text.Find | 2024/rust/src/day1.rs:19 | the first occurrence of a separator string, or the length: the separator sits at the position found |
| Text.FindAfter | 2024/rust/src/day1.rs:19 | a separator whose first character is not in `a` is first found right after `a` |
| Text.FindAbsent | 2024/rust/src/day1.rs:19 | a separator whose first character does not occur is found at the end |
| Text.SplitOnAfter | 2024/rust/src/day1.rs:19 | splitting `a + sep + b` on `sep` gives `a` and then the pieces of `b` |
| Text.DigitValue | 2024/rust/src/day1.rs:21-27 | a digit's value is below ten |
| Text.DigitChar | 2024/rust/src/day7.rs:92-96 | the character of a value below ten is a digit with that value |
| Text.DecimalString | 2024/rust/src/day7.rs:92-96 | `to_string` of a number is a non-empty run of digits |
| Text.ParseNat | 2024/rust/src/day5.rs:72-73 | an unsigned decimal parses exactly when the text is one or more digits |
| Text.ParseInt | 2024/rust/src/day1.rs:21-27 | `parse::<i64>` of a run of digits is its decimal value |
| Text.ParseUnsigned | 2024/rust/src/day11.rs:45-46 | `parse` into an unsigned type succeeds on digits, or a '+' followed by digits, and agrees with the plain parse on digits |
| Text.DecimalRoundTrip | 2024/rust/src/day7.rs:92-96 | printing a number and reading it back, plainly or as an unsigned parse, gives the number |
| Text.IntString | 2024/rust/src/day2.rs:19-21 | the decimal text of an integer is non-empty, has no space or newline, and holds only digits and '-' |
| Text.IntRoundTrip | 2024/rust/src/day2.rs:19-21 | parsing the decimal text of an integer gives the integer |
| Text.DecimalValueAppend | 2024/rust/src/day7.rs:92-96 | writing the digits of `b` after those of `a` gives `a` times ten per digit of `b` plus `b`, as the concatenation operator of day 7 relies on |
| Text.IndexOfAny | 2024/rust/src/day7.rs:49 | the first position holding any of the separators, or the length |
| Text.SplitAny | 2024/rust/src/day7.rs:49 | `split(&[':', ' '])` always gives at least one piece |
| Text.SplitAnyAfter | 2024/rust/src/day7.rs:49 | splitting `a + [c] + b` on a set holding `c`, with no separator in `a`, gives `a` and then the pieces of `b` |
| Text.SplitAnyJoin | 2024/rust/src/day7.rs:49 | pieces joined by one separator from the set, none holding any separator, split back into the pieces |
| Text.IntStrings | 2024/rust/src/day2.rs:19-21 | each integer printed in decimal, in order |
| Text.IntsRoundTrip | 2024/rust/src/day2.rs:19-21 | parsing the printed integers gives them back |
| Text.NonEmpty | 2024/rust/src/day24.rs:90 | the non-empty pieces, in order, never more than there were |
| Text.Words | 2024/rust/src/day24.rs:90 | `split_whitespace` gives only non-empty words |
| Text.NonEmptyKeeps | 2024/rust/src/day24.rs:90 | pieces that are all non-empty are kept whole |
| Text.WordsJoin | 2024/rust/src/day24.rs:90 | non-empty words without white space, joined by single spaces, split back into the words |
| Text.StrLessIrreflexive | 2024/rust/src/day23.rs:101 | no string is less than itself under the string ordering the sort uses |
| Text.StrLessTotal | 2024/rust/src/day23.rs:101 | of two different strings exactly one is the lesser |
| Text.StrLessTransitive | 2024/rust/src/day23.rs:101 | the string ordering is transitive |
| Text.InsertAscending | 2024/rust/src/day24.rs:25 | inserting into a `BTreeSet` keeps it ascending and adds exactly the new string |
| Text.AscendingSet | 2024/rust/src/day24.rs:25-27 | collecting into a `BTreeSet` and reading it back gives the strings once each, in ascending order |
| Text.AscendingUnique | 2024/rust/src/day24.rs:25-27 | only one ascending sequence holds a given set of strings, so the joined answer does not depend on the collection order |
| Day6.Project | 2024/rust/src/day6.rs:107-130 | the neighbouring coordinate in a direction comes back exactly when it is at or above zero and below the row and column counts |
| Day6.Start | 2024/rust/src/day6.rs:145-154 | a new guard's route holds just its starting state |
| Day6.StepBehaviour | 2024/rust/src/day6.rs:156-200 | one step exits exactly when the cell ahead is off the map and then changes nothing; an obstruction turns the guard right in place; any other cell moves it one cell ahead; it loops exactly when the new state was already on the route, and otherwise the new state is added |
| Day6.StepProgress | 2024/rust/src/day6.rs:156-200 | a step keeps the guard on the map, and a turn or move adds a state not yet on the route, so the walk always ends |
| Day6.Patrol | 2024/rust/src/day6.rs:19 | the walk ends in Exit or Loop and the route only grows |
| Day6.Obstruct | 2024/rust/src/day6.rs:43-44 | writing an obstruction keeps the map's shape |
| Day6.PatrolStaysOnMap | 2024/rust/src/day6.rs:156-200 | every state on the walk's route lies on the map |
| Day6.Lab.New | 2024/rust/src/day6.rs:93-97 | the lab holds the grid, with its row count and first row's length |
| Day6.Lab.Get | 2024/rust/src/day6.rs:99-105 | a cell comes back exactly when the coordinate is below the row and column counts, and it is the grid's cell |
| Day6.Guard.New | 2024/rust/src/day6.rs:145-154 | the guard's state is the start state |
| Day6.Guard.Turn | 2024/rust/src/day6.rs:171-185 | the guard turns right, reports Loop when that state was visited, and otherwise records it and reports Turn |
| Day6.Guard.MoveTo | 2024/rust/src/day6.rs:187-196 | the guard moves, reports Loop when that state was visited, and otherwise records it and reports Move |
| Day6.Guard.Next | 2024/rust/src/day6.rs:156-169 | the in-place step does what the step function says of the old state |
| Day6.FindGuardStart | 2024/rust/src/day6.rs:203-213 | the first '^' in row-major order, or none exactly when there is no '^' (the source panics) |
| Day6.Walk | 2024/rust/src/day6.rs:17-19 | a fresh guard walked until Exit or Loop ends where the walk function says |
| Day6.FirstCaretFrom | 2024/rust/src/day6.rs:203-213 | the first '^' at or after a cell in row-major order: it holds '^' and no earlier cell from there does |
| Day6.FirstCaret | 2024/rust/src/day6.rs:203-213 | the first '^' of the map, or none exactly when there is no '^' |
| Day6.FirstCaretUnique | 2024/rust/src/day6.rs:203-213 | only one cell is the first '^' |
| Day6.Part1 | 2024/rust/src/day6.rs:13-24 | the number of distinct positions on the route of a walk from the first '^' facing north that leaves the map; none when there is no '^' (the source panics) and none when the walk loops (the source never returns then) |
| Day6.TryObstructions | 2024/rust/src/day6.rs:42-59 | the positions of the candidates where an obstruction makes the guard loop; the map is restored afterwards |
| Day6.Part2 | 2024/rust/src/day6.rs:30-62 | the number of route positions other than the start state where an obstruction makes the guard loop; the map ends unchanged |
| Day12.ShiftOpposite | 2024/rust/src/day12.rs:46 | every neighbour offset has an opposite offset that undoes it |
| Day12.ProjectIndexOffset | 2024/rust/src/day12.rs:260-264 | the neighbouring plot comes back exactly when it lies on the map, and it is the shifted position |
| Day12.ClosedAttracts | 2024/rust/src/day12.rs:260-264 | a region closed under same-plant neighbours contains every same-plant plot next to one of its plots |
| Day12.ComplementClosed | 2024/rust/src/day12.rs:236-265 | the plots outside a set closed under same-plant neighbours form a closed set too |
| Day12.ComponentIsRegion | 2024/rust/src/day12.rs:236-265 | the connected component of a plot is a region: non-empty, one plant, closed, and contained in every closed set it meets |
| Day12.RegionIsComponent | 2024/rust/src/day12.rs:236-265 | a region is the connected component of each of its plots |
| Day12.RegionsMeetEqual | 2024/rust/src/day12.rs:236-265 | two regions that share a plot are equal |
| Day12.ReachStep | 2024/rust/src/day12.rs:260-264 | flooding on from a same-plant neighbour stays within every closed set that holds the plot being flooded |
| Day12.RegionsDisjoint | 2024/rust/src/day12.rs:198-205 | when each plot records one region id, two different regions share no plot |
| Day12.CoveredIsAssigned | 2024/rust/src/day12.rs:198-205 | the plots covered by the regions are exactly the plots with a recorded region id |
| Day12.AddRegion | 2024/rust/src/day12.rs:227-234 | inserting a freshly grown, uniform, closed region under the next id keeps the regions a partition of the plots seen so far |
| Day12.Regions.New | 2024/rust/src/day12.rs:208-215 | a new region map holds the grid, no regions, no plots and next id 0 |
| Day12.Regions.PlotRegion | 2024/rust/src/day12.rs:236-265 | flooding from a plot stops at a plot already in the region and otherwise adds it; the grown region is one plant, contains the start, stays clear of other regions, and every new plot records the region id; no other plot changes; every plot added lies in each same-plant-closed set that holds the start and the old region, so nothing is added beyond what the start reaches |
| Day12.Regions.CreateRegion | 2024/rust/src/day12.rs:227-234 | the next id is used and incremented, and the region stored under it is exactly the connected component of the start: it holds the start, is closed under same-plant neighbours, and lies inside every such closed set holding the start; each of its plots records the id |
| Day12.Regions.MapRegions | 2024/rust/src/day12.rs:217-225 | after the scan every plot of the map belongs to a region, and the regions stay a partition into closed one-plant regions |
| Day12.Regions.MapRow | 2024/rust/src/day12.rs:218-224 | after one row of the scan, every plot up to the end of that row is assigned |
| Day12.Regions.Visit | 2024/rust/src/day12.rs:219-223 | a plot already assigned is skipped, otherwise a region is created from it; either way it is assigned afterwards and no assignment is lost |
| Day12.Regions.PlotsOnMap | 2024/rust/src/day12.rs:217-225 | once every row was scanned, the assigned plots are exactly the map's plots |
| Day12.Area | 2024/rust/src/day12.rs:76-78 | the area is the number of plots, zero exactly for the empty region |
| Day12.InRegionNeighboursFrom | 2024/rust/src/day12.rs:83-87 | the count of the remaining offsets whose neighbour is on the map and in the region is at most the number of offsets left |
| Day12.InRegionNeighbours | 2024/rust/src/day12.rs:83-87 | a plot has at most four neighbours in its region |
| Day12.NeighboursAllIn | 2024/rust/src/day12.rs:97-104 | the count reaches its maximum exactly when every remaining neighbour is on the map and in the region |
| Day12.PerimeterBounds | 2024/rust/src/day12.rs:80-92 | the perimeter is between zero and four times the area |
| Day12.SinglePlotPerimeter | 2024/rust/src/day12.rs:80-92 | a one-plot region has perimeter four |
| Day12.FenceAdjacency | 2024/rust/src/day12.rs:175-192 | fence adjacency is symmetric, irreflexive, and holds exactly when the inside plots are one step apart and the outside plots are shifted by the same step |
| Day12.BoundaryPlots | 2024/rust/src/day12.rs:95-106 | the boundary plots are the region's plots with fewer than four in-region neighbours |
| Day12.FencesOfAllPlots | 2024/rust/src/day12.rs:108-123 | taking fences from every plot of the region gives the same fences as taking them from the boundary plots only |
| Day12.AdjacencyMap | 2024/rust/src/day12.rs:125-145 | the adjacency map has exactly the fences as keys, each mapped to the other fences adjacent to it |
| Day12.AdjacencyMapUndirected | 2024/rust/src/day12.rs:125-145 | the adjacency map is symmetric and has no self-loops |
| Day12.FindSide | 2024/rust/src/day12.rs:153-167 | the depth-first search from a fence removes exactly one side: a set closed under adjacency and connected to the seed, and the other fences keep their entries |
| Day12.IdentifyAndCountSides | 2024/rust/src/day12.rs:149-173 | the sides found are the connected components of the adjacency map: non-empty, pairwise disjoint, closed, connected and covering every fence; the count is their number |
| Day12.ComponentsAtMostFences | 2024/rust/src/day12.rs:149-173 | there are no more sides than fences |
| Day12.RegionSides | 2024/rust/src/day12.rs:94-147 | the side count is the number of connected components of the region's fences under adjacency, and at most the number of fences |
| Day12.RegionPerimeter | 2024/rust/src/day12.rs:80-92 | the perimeter is the sum over plots of four minus the in-region neighbours |
| Day12.PriceSumPart1NonNegative | 2024/rust/src/day12.rs:52-62 | the part-one price is never negative |
| Day12.FencingCostPart1 | 2024/rust/src/day12.rs:52-62 | the cost is the sum over regions of area times perimeter, and it is not negative |
| Day12.AddPricePart2 | 2024/rust/src/day12.rs:64-74 | adding one region adds its area times its component count to the cost |
| Day12.FencingCostPart2 | 2024/rust/src/day12.rs:64-74 | the cost is the sum over regions of area times number of sides, each side count being the number of fence components |
| Day12.MapAll | 2024/rust/src/day12.rs:22-24 | the grid is partitioned into pairwise disjoint, one-plant, closed and connected regions that cover every plot |
| Day12.MappedRegionsIncluded | 2024/rust/src/day12.rs:217-225 | every region of one mapping of a grid is a region of any other mapping of it |
| Day12.MappedRegionsUnique | 2024/rust/src/day12.rs:217-225 | any two mappings of the same grid hold the same set of regions, whatever ids they carry |
| Day12.PriceSumPart1Regions | 2024/rust/src/day12.rs:52-62 | the part-one sum by id equals the sum of area times perimeter over the set of regions |
| Day12.PriceSumPart1Determined | 2024/rust/src/day12.rs:11-19 | the part-one price depends on the grid alone: any two mappings of it give the same price |
| Day12.Part1 | 2024/rust/src/day12.rs:11-19 | the answer is the part-one price of the grid's partition into connected one-plant regions, a partition that is unique (MappedRegionsUnique) so the answer is fixed by the grid (PriceSumPart1Determined) |
| Day12.Part2 | 2024/rust/src/day12.rs:21-29 | the answer is the part-two price of the grid's unique partition into connected one-plant regions, each weighted by its number of sides |
| Day15.ItemFromChar | 2024/rust/src/day15.rs:118-130 | a character parses exactly when it is '#', '.', 'O' or '@' |
| Day15.ItemCharRoundTrip | 2024/rust/src/day15.rs:118-147 | printing a parsed item gives back its character, parsing a printed item other than a big-box half gives it back, and distinct items print differently |
| Day15.Slot | 2024/rust/src/day15.rs:59-74 | a position inside the bounds has a row-major slot below the cell count |
| Day15.SlotInjective | 2024/rust/src/day15.rs:59-74 | distinct positions inside the bounds have distinct slots |
| Day15.Get | 2024/rust/src/day15.rs:179 | a cell comes back exactly when the position is inside the bounds |
| Day15.Project | 2024/rust/src/day15.rs:165-166 | the neighbour in a direction comes back exactly when it is inside the bounds, and it is the shifted position |
| Day15.BigBoxPositions | 2024/rust/src/day15.rs:277-302 | a big-box half gives its two positions exactly when the position holds a half and its partner cell is inside the bounds; both positions are inside |
| Day15.NextPositions | 2024/rust/src/day15.rs:251-275 | a robot or box pushes the single cell ahead, a big box the cells ahead of both halves (or of the leading half sideways), an empty cell nothing, and a wall is refused; every pushed cell is strictly nearer the edge in that direction |
| Day15.AfterMapMove | 2024/rust/src/day15.rs:304-309 | moving an item succeeds exactly when both positions are inside and the target is empty; the target then holds the moved item, the source is empty, and nothing else changes |
| Day15.AfterMoveSingle | 2024/rust/src/day15.rs:217-227 | moving one item keeps the warehouse's size and its items as a multiset |
| Day15.AfterMoveBigBox | 2024/rust/src/day15.rs:229-249 | moving a big box keeps the warehouse's size and its items as a multiset |
| Day15.AfterMove | 2024/rust/src/day15.rs:196-215 | moving an item and everything it pushes keeps the warehouse's size and its items as a multiset |
| Day15.AfterMoveAll | 2024/rust/src/day15.rs:207-209 | moving every pushed position in turn keeps the warehouse's size and its items as a multiset |
| Day15.Attempt | 2024/rust/src/day15.rs:159-167 | one robot move keeps the warehouse's size and its items as a multiset |
| Day15.Simulate | 2024/rust/src/day15.rs:20-22 | a whole run of moves keeps the warehouse's size and its items as a multiset |
| Day15.Interior | 2024/rust/src/day15.rs:59-74 | in a warehouse bordered by walls, every non-wall cell is strictly inside the border |
| Day15.NextDefined | 2024/rust/src/day15.rs:251-275 | in a bordered warehouse with paired big boxes, the pushed positions of any non-wall cell exist (no panic) |
| Day15.BigBoxRoom | 2024/rust/src/day15.rs:277-302 | in a bordered warehouse with paired big boxes, a half has its partner and both have a neighbour inside in every direction |
| Day15.BigBoxNext | 2024/rust/src/day15.rs:262-272 | a big box whose halves both have neighbours inside has its pushed positions |
| Day15.AllDefined | 2024/rust/src/day15.rs:192-193 | when every pushed position can be decided, so can all of them together |
| Day15.CanMoveDefined | 2024/rust/src/day15.rs:176-194 | in a bordered warehouse with paired big boxes, whether an item can move is always decided (no panic) |
| Day15.PushUnfolds | 2024/rust/src/day15.rs:196-227 | a robot or box that can move has a cell ahead that can move, and moving it is moving the cell ahead then this item |
| Day15.PushCanMove | 2024/rust/src/day15.rs:176-194 | a robot or box that can move pushes exactly the cell ahead, and that cell can move |
| Day15.PushAfterMove | 2024/rust/src/day15.rs:196-227 | moving a robot or box is moving the cell ahead and then the item into it |
| Day15.StepFacts | 2024/rust/src/day15.rs:304-309 | after the cell ahead was cleared, the final move succeeds, keeps the walls and no big boxes, and changes only the ray from the item |
| Day15.PushSingle | 2024/rust/src/day15.rs:196-227 | without big boxes, a move that can happen succeeds, keeps walls, leaves the item's cell empty with the item one step ahead, and changes nothing off its ray |
| Day15.AttemptSingle | 2024/rust/src/day15.rs:159-167 | a part-one move never panics, keeps the robot under its position and the border walls, stays put when blocked and advances one step otherwise |
| Day15.SimulateSingle | 2024/rust/src/day15.rs:20-22 | a whole part-one run never panics and keeps the robot, the border walls and the absence of big boxes |
| Day15.MoveUnfolds | 2024/rust/src/day15.rs:196-215 | once the pushed cells are cleared, moving an item is moving that item on the cleared warehouse |
| Day15.MapMove | 2024/rust/src/day15.rs:304-309 | the in-place move succeeds exactly when the move function does and leaves its result; a failed move changes nothing |
| Day15.ProjectAgrees | 2024/rust/src/day15.rs:165-166 | the grid map's projection agrees with the neighbour function |
| Day15.MoveSingleItem | 2024/rust/src/day15.rs:217-227 | the in-place single move succeeds exactly when the move function does and leaves its result |
| Day15.MoveBigBox | 2024/rust/src/day15.rs:229-249 | the in-place big-box move succeeds exactly when the move function does and leaves its result |
| Day15.MoveItem | 2024/rust/src/day15.rs:196-215 | the in-place recursive move succeeds exactly when the move function does and leaves its result |
| Day15.MoveAll | 2024/rust/src/day15.rs:204-206 | moving every pushed cell in place, in order, succeeds exactly when the threaded move function does and leaves its result |
| Day15.Robot.constructor | 2024/rust/src/day15.rs:155-157 | the robot starts at the given position |
| Day15.Robot.AttemptMove | 2024/rust/src/day15.rs:159-167 | the in-place move agrees with one attempted move; a blocked robot changes nothing, a moving one ends one step ahead |
| Day15.Run | 2024/rust/src/day15.rs:20-22 | running the moves in place agrees with the simulation of the whole run |
| Day15.Widen | 2024/rust/src/day15.rs:81-85 | each item becomes two cells |
| Day15.WidenRow | 2024/rust/src/day15.rs:76-90 | a widened row is twice as long |
| Day15.WidenRowAt | 2024/rust/src/day15.rs:76-90 | columns 2j and 2j+1 of a widened row are the two halves of the widened item j |
| Day15.WidenRowAppend | 2024/rust/src/day15.rs:76-90 | widening distributes over concatenation |
| Day15.FlattenWidened | 2024/rust/src/day15.rs:76-90 | widening each row and then joining the rows is widening the joined rows |
| Day15.ModifyWarehouse | 2024/rust/src/day15.rs:76-90 | a non-empty warehouse becomes one with twice the columns whose cells are the widened items; an empty one is refused (the map cannot be built) |
| Day15.WidenCell | 2024/rust/src/day15.rs:76-90 | cell (r, 2c) and (r, 2c+1) of the wide warehouse hold the halves of the widened cell (r, c) |
| Day15.WideCell | 2024/rust/src/day15.rs:76-90 | each cell of the wide warehouse is the matching half of the widened cell at half its column |
| Day15.WideNeighbours | 2024/rust/src/day15.rs:76-90 | in a widened warehouse a left half has its right half to the right and the reverse, and walls stay walls |
| Day15.WidenedPaired | 2024/rust/src/day15.rs:76-90 | widening a warehouse without big boxes pairs every big box and keeps the border walls |
| Day15.GpsOfIsSetSum | 2024/rust/src/day15.rs:92-103 | over cells with distinct positions, the GPS total is the sum of the GPS value over the counted positions |
| Day15.EnumeratedBoxes | 2024/rust/src/day15.rs:92-103 | the enumeration lists each position once and its counted positions are exactly the boxes and left box halves |
| Day15.GpsIsBoxSum | 2024/rust/src/day15.rs:92-103 | the GPS sum is the sum of 100 times the row plus the column over the boxes and left box halves, and is not negative |
| Day15.ParseRow | 2024/rust/src/day15.rs:66-67 | a line parses exactly when every character is an item character, and each cell is its character's item |
| Day15.ParseRows | 2024/rust/src/day15.rs:66-67 | the lines parse exactly when each does, row by row |
| Day15.ParseMoves | 2024/rust/src/day15.rs:69-73 | the moves parse exactly when every character is a direction character, one move per character |
| Day15.MovesRoundTrip | 2024/rust/src/day15.rs:69-73 | printing moves and parsing them back gives the same moves |
| Day15.ParseInput | 2024/rust/src/day15.rs:59-74 | the input is split at the first blank line: the map is the lines up to and including its first newline, the moves are the remaining lines joined |
| Day15.NoBigBoxesFlatten | 2024/rust/src/day15.rs:66-67 | rows without big boxes join into a warehouse without big boxes |
| Day15.ParsedNoBigBoxes | 2024/rust/src/day15.rs:118-130 | a parsed warehouse has no big boxes |
| Day15.Walk | 2024/rust/src/day15.rs:14-25 | finding the robot, running the moves and summing the GPS values gives the specified outcome, which is not negative |
| Day15.Part1 | 2024/rust/src/day15.rs:11-27 | the answer exists exactly when the specified part-one outcome does, and it is that outcome in decimal |
| Day15.Part2 | 2024/rust/src/day15.rs:29-47 | the answer exists exactly when the specified part-two outcome on the widened warehouse does, and it is that outcome in decimal |
| Day15.Part1Succeeds | 2024/rust/src/day15.rs:11-27 | a warehouse that parses, is bordered by walls and holds a robot always has a part-one answer |
| Day16.FreeIsInterior | 2024/rust/src/day16.rs:123-146 | in a maze bordered by walls, every free cell has all four neighbours on the map |
| Day16.FindFrom | 2024/rust/src/day16.rs:39-40 | the first cell holding the character at or after a position in row-major order: it holds it and no earlier such cell does; none exactly when no such cell holds it |
| Day16.NextStates | 2024/rust/src/day16.rs:123-154 | three candidates (forward at cost 1, turn right and turn left at cost 1000), each present only when the cell ahead in its direction is clear; every legal move is listed |
| Day16.MoveFromPredecessor | 2024/rust/src/day16.rs:123-154 | the source of every legal move is among the candidate predecessors of its target |
| Day16.Pop | 2024/rust/src/day16.rs:156-171 | the popped state comes out of the heap, the rest is the heap without it, and no state in the heap comes before it in the reversed score order |
| Day16.Relax | 2024/rust/src/day16.rs:73-87 | a strictly better score replaces the distance and makes the current key the only predecessor; an equal score adds it as a further predecessor; both push the successor; a worse one changes nothing; the search invariant and the path certificates are kept, no distance gets worse, the expanded keys keep theirs, and the successor is recorded with at most its score |
| Day16.Improved | 2024/rust/src/day16.rs:77-81 | a strictly better score with the current key as sole predecessor keeps the search invariant |
| Day16.ImprovedCertified | 2024/rust/src/day16.rs:77-81 | the path to the current key extended by the move certifies the better score; the expanded keys keep their scores; the successor waits in the heap with it |
| Day16.Tied | 2024/rust/src/day16.rs:82-85 | an equal score adds the current key to the predecessor set and keeps the search invariant |
| Day16.RelaxListed | 2024/rust/src/day16.rs:72-88 | one listed successor relaxed: it is recorded afterwards, the heap gains only states scoring more than the current one |
| Day16.RecordedKept | 2024/rust/src/day16.rs:72-88 | successors already recorded stay recorded while distances only fall |
| Day16.RelaxAll | 2024/rust/src/day16.rs:72-88 | after the loop over the listed successors every one of them is recorded with at most its score |
| Day16.Expand | 2024/rust/src/day16.rs:72-88 | expanding a state keeps the search invariant and the certificates; no distance gets worse; with its key counted as expanded, the expanded keys keep their distances and every move out of them leads to a key recorded with at most the sum of scores |
| Day16.ClosedKept | 2024/rust/src/day16.rs:72-88 | distances that only fall, with the expanded keys fixed, keep every move out of an expanded key recorded |
| Day16.ExpandCloses | 2024/rust/src/day16.rs:72-88 | once all successors of the expanded state are recorded, every move out of its key is recorded with at most the sum of scores |
| Day16.PopTracked | 2024/rust/src/day16.rs:59-70 | after a pop every recorded key not expanded still waits in the heap with its distance, the popped key counting as expanded when the popped state carried its distance |
| Day16.PrefixRecorded | 2024/rust/src/day16.rs:72-88 | along a path from the start whose first keys are all expanded, the next key is recorded with at most the score of the path up to it |
| Day16.GoalBound | 2024/rust/src/day16.rs:59-66 | every path to the goal scoring below the maximum passes a key waiting in the heap, so the heap is not empty and the path scores at least every state in it |
| Day16.GoalsBound | 2024/rust/src/day16.rs:59-66 | the same bound for all paths to the goal at once |
| Day16.PopAbove | 2024/rust/src/day16.rs:59 | the popped state scores least in the heap and at least the current level |
| Day16.PopInvariant | 2024/rust/src/day16.rs:59-61 | a pop keeps the search invariant and the popped state scores at least its key's distance |
| Day16.PopSkipped | 2024/rust/src/day16.rs:68-70 | dropping a stale state or one scoring at least the best score keeps what the search knows about the best score |
| Day16.PopGoal | 2024/rust/src/day16.rs:63-66 | the first goal state popped scores the least of every path to the goal, and its key's certificate is such a path |
| Day16.PopExpanded | 2024/rust/src/day16.rs:59-72 | a state that passes both checks is off the goal, carries its key's distance and is expanded before any goal state is popped |
| Day16.ExpandedFrontier | 2024/rust/src/day16.rs:72-89 | after an expansion the expanded keys are closed and settled at the new level and the heap scores at least that level |
| Day16.Search | 2024/rust/src/day16.rs:42-89 | when the heap empties within the fuel, the distances and predecessors satisfy the search invariant, the start facing east has distance 0, and the best score is the least score of a path of legal moves from the start facing east to the goal, witnessed by such a path, or the maximum score when no path scores less |
| Day16.Pow4 | 2024/rust/src/day16.rs:93-104 | powers of four used to weigh the stack are at least 1 |
| Day16.Pow4Monotone | 2024/rust/src/day16.rs:93-104 | powers of four grow with the exponent |
| Day16.PushAll | 2024/rust/src/day16.rs:102-104 | pushing a set of predecessors adds exactly those keys to the stack and adds at most their bound each to its weight |
| Day16.PopLighter | 2024/rust/src/day16.rs:99-105 | a pop that pushes at most three lighter keys leaves a lighter stack, so the tile walk ends |
| Day16.WalkStart | 2024/rust/src/day16.rs:93-98 | the walk starts from the goal facing each of the four directions with nothing visited |
| Day16.WalkStep | 2024/rust/src/day16.rs:99-105 | a popped key with predecessors is visited and its predecessors pushed; a key without is dropped; the walk invariant is kept |
| Day16.WalkEnd | 2024/rust/src/day16.rs:99-105 | when the stack is empty the visited keys are the least set holding the goal keys and closed under predecessors |
| Day16.PushPredecessors | 2024/rust/src/day16.rs:101-104 | a popped key's predecessors are pushed and the stack weighs less than before the pop |
| Day16.Tiles | 2024/rust/src/day16.rs:93-108 | the visited keys are the least set holding the goal keys with predecessors and closed under predecessors, and the tiles are their positions |
| Day16.Race | 2024/rust/src/day16.rs:38-109 | from the first 'S' facing east to the first 'E': the best score is the least score of a path of legal moves to the goal (the maximum score when none scores less), and the tile count is the number of positions on the backward closure of the goal keys' predecessors |
| Day18.AdjacentShifts | 2024/rust/src/day18.rs:112-126 | the adjacent cells are exactly the four one-step shifts |
| Day18.NextStates | 2024/rust/src/day18.rs:112-126 | four candidates, each a neighbour on the map that is not '#' with one more step, and every free adjacent cell is listed |
| Day18.WalkStaysIn | 2024/rust/src/day18.rs:64-101 | a set holding the start and closed under moves to free adjacent cells holds the end of every walk from the start |
| Day18.Pop | 2024/rust/src/day18.rs:133-147 | the popped state comes out of the heap, the rest is the heap without it, and no state in the heap has fewer steps |
| Day18.DistDrop | 2024/rust/src/day18.rs:91-95 | lowering a recorded step count lowers the sum of the counts, which bounds the number of heap pushes |
| Day18.DistSumNonNegative | 2024/rust/src/day18.rs:91-95 | the sum of the step counts is never negative |
| Day18.CellCount | 2024/rust/src/day18.rs:64-101 | a map has rows times columns cells |
| Day18.RecordBounded | 2024/rust/src/day18.rs:91-95 | recording one more step than a recorded count keeps every count bounded |
| Day18.StepsBounded | 2024/rust/src/day18.rs:120-123 | on a map with fewer cells than `Steps::MAX`, a recorded count plus one stays below it, so `steps + 1` cannot overflow |
| Day18.ExtendWalk | 2024/rust/src/day18.rs:112-126 | a walk to a cell extended by a free adjacent cell is a walk to that cell |
| Day18.RecordCertified | 2024/rust/src/day18.rs:91-95 | recording a neighbour keeps every recorded count certified by a walk of that length |
| Day18.RecordTracked | 2024/rust/src/day18.rs:91-95 | pushing a recorded state keeps every heap state recorded and every cell not yet settled tracked by a heap state |
| Day18.RecordPrev | 2024/rust/src/day18.rs:91-95 | recording a predecessor keeps every predecessor an adjacent recorded cell |
| Day18.RecordKeeps | 2024/rust/src/day18.rs:91-95 | recording a better neighbour keeps the search invariant and lowers the sum of the step counts |
| Day18.Relax | 2024/rust/src/day18.rs:89-96 | a strictly smaller count is recorded with the current cell as predecessor and the state pushed, otherwise nothing changes; the invariant is kept, no recorded count grows, the successor ends up recorded with at most its steps, and the counts of expanded cells (all at most the current count) stay fixed |
| Day18.Expand | 2024/rust/src/day18.rs:89-96 | relaxing every successor keeps the invariant, adds the cell to the expanded ones with each free neighbour recorded at most one step further, leaves the counts of expanded cells alone, pushes only states one step further than the current one, and either changes nothing or lowers the sum of the step counts |
| Day18.RelaxListed | 2024/rust/src/day18.rs:89-96 | one turn of the successor loop keeps the invariant and leaves every successor listed so far recorded with at most its steps |
| Day18.RecordedKept | 2024/rust/src/day18.rs:91-95 | a successor recorded with at most its steps stays so when no count grows |
| Day18.ExpandCloses | 2024/rust/src/day18.rs:89-96 | once every listed successor is recorded with at most its steps, the cell's free neighbours are all recorded at most one step further than the cell |
| Day18.PopTracked | 2024/rust/src/day18.rs:78-87 | a popped state was recorded with at most its steps; a state with its cell's recorded count settles that cell, any other is stale and skipped |
| Day18.EscapeRoute | 2024/rust/src/day18.rs:64-101 | a result is the length of a real walk from the top-left to the bottom-right corner through cells that are not '#', and no such walk is shorter; no result means no such walk exists |
| Day18.PrefixRecorded | 2024/rust/src/day18.rs:89-96 | along a walk from the start whose first cells are all expanded, the next cell is recorded with at most its position on the walk |
| Day18.ShortestAtPop | 2024/rust/src/day18.rs:78-81 | when a never-expanded cell leaves the heap with the least count and is recorded with at most that count, no walk from the start reaches it in fewer steps |
| Day18.ParseLine | 2024/rust/src/day18.rs:51-62 | a line parses exactly when its first two comma-separated pieces are numbers, giving the position as (y, x) |
| Day18.ParseLines | 2024/rust/src/day18.rs:51-62 | the lines parse exactly when each one does, in order |
| Day18.FormatParses | 2024/rust/src/day18.rs:51-62 | printing a position as "x,y" and parsing it back gives the position |
| Day18.SetCell | 2024/rust/src/day18.rs:15 | writing a cell changes that cell only and keeps the map's shape; an index off the map changes nothing |
| Day18.Blank | 2024/rust/src/day18.rs:13 | the blank map is 71 by 71 and every cell is '.' |
| Day18.Corrupted | 2024/rust/src/day18.rs:14-16 | after the bytes fall a cell is '#' exactly when some byte hit it, and otherwise keeps its character |
| Day18.CorruptFirst | 2024/rust/src/day18.rs:14-16 | the loop over the first n bytes leaves the map corrupted by those bytes |
| Day18.Part1 | 2024/rust/src/day18.rs:11-21 | after the first 1024 bytes, no answer exactly when the exit cannot be reached, and otherwise the length of a shortest walk to the exit in decimal |
| Day18.CorruptNext | 2024/rust/src/day18.rs:34 | one more byte leaves the map corrupted by the bytes up to and including it |
| Day18.DeathBlock | 2024/rust/src/day18.rs:33-39 | the first byte after the first 1024 after which the exit cannot be reached, every earlier later byte still leaving a way out; (0, 0) when there is none |
| Day18.Part2 | 2024/rust/src/day18.rs:23-43 | the death block printed as "x,y" |
| Day23.GetOrInsert | 2024/rust/src/day23.rs:62-70 | the name comes back interned and the set grows by that name alone, not at all when it was already there |
| Day23.ParseLine | 2024/rust/src/day23.rs:49-55 | a line parses exactly when it has a second piece after '-', giving the first two pieces |
| Day23.ParseLineRoundTrip | 2024/rust/src/day23.rs:49-55 | two names without '-' written "a-b" parse back to the pair |
| Day23.ParseConnections | 2024/rust/src/day23.rs:46-57 | one connection per line |
| Day23.ParseInput | 2024/rust/src/day23.rs:43-60 | the connections are the lines' connections in order and the name set is exactly the names they mention; none exactly when a line does not parse |
| Day23.NoneStaysNone | 2024/rust/src/day23.rs:46-57 | once a line fails to parse the whole input fails |
| Day23.BuildNodeGraph | 2024/rust/src/day23.rs:76-88 | the loop builds the connection map, which is symmetric and keyed by exactly the named computers |
| Day23.GraphAdjacent | 2024/rust/src/day23.rs:76-88 | the map lists one computer for another exactly when a connection joins them |
| Day23.GraphSymmetric | 2024/rust/src/day23.rs:76-88 | the map is symmetric |
| Day23.GraphKeys | 2024/rust/src/day23.rs:76-88 | the map's keys are exactly the computers named in the connections |
| Day23.Sort3 | 2024/rust/src/day23.rs:101-102 | the three names in order, as one of their six arrangements |
| Day23.Sort3Ordered | 2024/rust/src/day23.rs:101-102 | sorting names already in order leaves them in place |
| Day23.TriplesExactly | 2024/rust/src/day23.rs:94-109 | on a symmetric map the triples are exactly the ordered triples of pairwise connected computers, so each group of three appears once |
| Day23.IdentifyTriples | 2024/rust/src/day23.rs:94-109 | the three nested loops collect exactly the triples of the map |
| Day23.TriplesThrough | 2024/rust/src/day23.rs:97-106 | the loop over the neighbours of the first computer collects the triples through it |
| Day23.TriplesClosing | 2024/rust/src/day23.rs:98-105 | the loop over the neighbours of the second computer collects the triples it closes |
| Day23.CountChiefTriples | 2024/rust/src/day23.rs:15-18 | the number of triples with a name starting with 't' is at most the number of triples |
| Day23.FindLargestNetwork | 2024/rust/src/day23.rs:115-157 | the result is a sorted list of mutually connected computers and no set of mutually connected computers is larger |
| Day23.SearchFrom | 2024/rust/src/day23.rs:119-154 | the search from one start marks the start network seen, keeps every extension of a seen network seen, and keeps the longest seen network |
| Day23.SkipSeen | 2024/rust/src/day23.rs:123-125 | popping a network already seen keeps every extension accounted for |
| Day23.MarkSeen | 2024/rust/src/day23.rs:149-153 | marking a popped network seen after pushing its extensions keeps every extension accounted for and leaves fewer name sets unseen, so the search ends |
| Day23.NewGroup | 2024/rust/src/day23.rs:149-153 | a clique not yet seen adds a name set not yet seen |
| Day23.CandidateConnected | 2024/rust/src/day23.rs:127-131 | a computer extends a clique holding the start exactly when it is a remaining neighbour of the start connected to every member |
| Day23.PushExtensions | 2024/rust/src/day23.rs:129-141 | every remaining neighbour connected to the whole network is pushed with the sorted network it makes, and nothing already pushed is lost |
| Day23.ExtendClique | 2024/rust/src/day23.rs:131-137 | a clique grown by a computer connected to all its members is a clique |
| Day23.FullIntersection | 2024/rust/src/day23.rs:131 | the test that the intersection is as large as the network holds exactly when the network is contained in the neighbours |
| Day23.AscendingCard | 2024/rust/src/day23.rs:139-140 | a sorted list without repeats holds as many names as it is long |
| Day23.CliqueExplored | 2024/rust/src/day23.rs:115-157 | once every start was searched, every non-empty clique has been seen as a sorted list |
| Day23.ExtensionExplored | 2024/rust/src/day23.rs:127-141 | a seen network's extension by a connected computer has been seen |
| Day23.Part1 | 2024/rust/src/day23.rs:11-21 | the count of triples with a name starting with 't' in the connection map; none exactly when a line does not parse |
| Day23.Part2 | 2024/rust/src/day23.rs:23-30 | the names of a largest clique, sorted and joined by commas; none exactly when a line does not parse |
| Day24.ApplyIsBitwise | 2024/rust/src/day24.rs:351-359 | each gate function, applied bit by bit, is the bitwise AND, OR or XOR of whole numbers |
| Day24.OperationRoundTrip | 2024/rust/src/day24.rs:361-388 | displaying an operation and parsing its name gives it back, and only the three displayed names parse |
| Day24.SortedInputs | 2024/rust/src/day24.rs:292-298 | the two wires, in ascending order |
| Day24.SortedInputsSymmetric | 2024/rust/src/day24.rs:292-298 | the order the wires are given in does not matter |
| Day24.SortedUnique | 2024/rust/src/day24.rs:292-298 | two ascending pairs of the same wires are equal |
| Day24.NewRole | 2024/rust/src/day24.rs:390-408 | the role belongs to the operation, and it is an input-level XOR or AND exactly when the inputs start with 'x' and 'y' and the operation is not OR |
| Day24.GateFrom | 2024/rust/src/day24.rs:325-333 | the gate keeps the inputs and operation, with a role of that operation |
| Day24.NewGate | 2024/rust/src/day24.rs:313-323 | a gate exactly when the operation name parses, with the inputs in ascending order and the named operation |
| Day24.NewGateSymmetric | 2024/rust/src/day24.rs:313-323 | building a gate from the inputs in either order gives the same gate |
| Day24.WellFormedUnique | 2024/rust/src/day24.rs:313-333 | two well-formed gates with the same inputs in either order and the same operation are equal, so the map lookups agree |
| Day24.ParseGateRoundTrip | 2024/rust/src/day24.rs:82-94 | a gate line "a OP b -> out" parses back to that gate and output wire |
| Day24.CollectWires | 2024/rust/src/day24.rs:71-85 | the wire lines parse exactly when each does, and the map's keys are exactly the wires named |
| Day24.CollectWiresLastWins | 2024/rust/src/day24.rs:71-85 | a wire's value is the one on the last line naming it |
| Day24.CollectGates | 2024/rust/src/day24.rs:87-98 | the gate lines parse exactly when each does, and every collected gate is well formed with a non-empty output wire |
| Day24.FirstEmpty | 2024/rust/src/day24.rs:69 | the index of the first empty line, or the line count when there is none |
| Day24.ParseInput | 2024/rust/src/day24.rs:66-101 | the wires before the first empty line and the gates after it, every gate well formed |
| Day24.ProcessGates | 2024/rust/src/day24.rs:103-118 | the worklist loop, started from the gates in some order, ends with what the worklist function gives |
| Day24.ProcessEvaluatesFrom | 2024/rust/src/day24.rs:109-117 | while no queued gate drives a wire that has a value, values once set never change, and every gate evaluated so far stays evaluated |
| Day24.ProcessEvaluates | 2024/rust/src/day24.rs:103-118 | when processing finishes on a circuit where each wire has at most one driver and no gate drives an initial wire, the initial wires keep their values and every gate's output is its operation applied to its inputs |
| Day24.ProcessStuck | 2024/rust/src/day24.rs:109-117 | a gate waiting for a wire with no value that no queued gate drives stays queued for ever |
| Day24.ProcessNeverFinishes | 2024/rust/src/day24.rs:103-118 | processing never finishes when a gate needs a wire that has no initial value and no driver |
| Day24.WireName | 2024/rust/src/day24.rs:151-153 | a wire name is its letter followed by the number with at least two digits |
| Day24.WireBitOfName | 2024/rust/src/day24.rs:304-306 | reading the bit number back from a wire name gives the number it was named with |
| Day24.CombineBits | 2024/rust/src/day24.rs:120-132 | the number whose bit k is set exactly when a selected wire numbered k is true |
| Day24.CombinedUnique | 2024/rust/src/day24.rs:120-132 | only one number has those bits, so the iteration order does not matter |
| Day24.Part1 | 2024/rust/src/day24.rs:15-19 | after processing the gates, the number the 'z' wires spell; none when the input does not parse or processing does not finish |
| Day24.FindGate | 2024/rust/src/day24.rs:269-286 | the first gate searched with the operation and the wire as an input, with its other input and its output wire |
| Day24.FindGateSearches | 2024/rust/src/day24.rs:269-286 | nothing is found exactly when no gate searched has the operation and the wire as an input |
| Day24.FindGateNone | 2024/rust/src/day24.rs:269-286 | searching the whole map finds nothing exactly when no gate of the map has the operation and the wire |
| Day24.GetGate | 2024/rust/src/day24.rs:236-267 | a gate in the map comes back with its output and no crossed pair; otherwise a gate of the same operation on the first, then the second, input, with the crossed pair |
| Day24.GetGateNone | 2024/rust/src/day24.rs:236-267 | the lookup panics exactly when the map has neither the gate nor a gate of its operation on one of its inputs |
| Day24.GetGateCrossedDistinct | 2024/rust/src/day24.rs:242-264 | a crossed pair reported for a well-formed gate names two different wires |
| Day24.Misrouted | 2024/rust/src/day24.rs:185-187 | the pair [out, z] is reported only when the sum gate drives out rather than z, so its wires differ |
| Day24.Expect | 2024/rust/src/day24.rs:155-162 | a lookup of the gate on these inputs gives a non-empty output wire, and no crossed pair when the gate is in the map |
| Day24.BitCrossings | 2024/rust/src/day24.rs:150-224 | one middle bit reports pairs of distinct wires and a non-empty carry out |
| Day24.MiddleBits | 2024/rust/src/day24.rs:150-224 | the middle bits keep every reported pair a pair of distinct wires |
| Day24.CrossedWires | 2024/rust/src/day24.rs:134-234 | every reported pair names two different wires |
| Day24.LastBit | 2024/rust/src/day24.rs:226-230 | the carry out of bit 44 should be z45, and the pairs stay distinct |
| Day24.FindCrossedWires | 2024/rust/src/day24.rs:134-234 | the loop reports what the crossed-wire function gives |
| Day24.BitStep | 2024/rust/src/day24.rs:151-223 | the loop body over one bit gives the pairs and carry of that bit |
| Day24.ExpectGate | 2024/rust/src/day24.rs:155-162 | one lookup with the push of its crossed pair gives the output wire and the pairs to push |
| Day24.MiddleBitsOfAdder | 2024/rust/src/day24.rs:150-224 | on a correct ripple-carry adder the middle bits report nothing new and end with the carry into bit 45 |
| Day24.AdderHasNoCrossedWires | 2024/rust/src/day24.rs:134-234 | a circuit that is a correct ripple-carry adder has no crossed wires |
| Day24.Flatten | 2024/rust/src/day24.rs:25 | the wires of the pairs, pair by pair |
| Day24.Part2 | 2024/rust/src/day24.rs:21-28 | the crossed wires without repeats, in ascending order, joined by commas; none when the input does not parse or a lookup panics |
| Year2023Day1.Digits | 2023/day-1/solution_part1.py:15 | the values of the line's ASCII digit characters '0' to '9', each below ten, no more of them than characters |
| Year2023Day1.CalibrationValue | 2023/day-1/solution_part1.py:12-21 | a value exactly when the line holds an ASCII digit '0' to '9', and it is below 100 |
| Year2023Day1.DigitsExist | 2023/day-1/solution_part1.py:15-17 | the digit list is non-empty exactly when the line holds a digit character |
| Year2023Day1.DigitsFirst | 2023/day-1/solution_part1.py:16 | the first digit value is that of the first digit character |
| Year2023Day1.DigitsLast | 2023/day-1/solution_part1.py:17 | the last digit value is that of the last digit character |
| Year2023Day1.NoDigits | 2023/day-1/solution_part1.py:15-16 | a line without digit characters gives no digit values, so `digits[0]` raises |
| Year2023Day1.CalibrationFirstLast | 2023/day-1/solution_part1.py:12-18 | the calibration value is ten times the first digit character's value plus the last one's |
| Year2023Day1.ExampleEnds | 2023/day-1/tests/test_part1.py:8 | "1abc2" gives 12 |
| Year2023Day1.ExampleInside | 2023/day-1/tests/test_part1.py:9 | "pqr3stu8vwx" gives 38 |
| Year2023Day1.ExampleMany | 2023/day-1/tests/test_part1.py:10 | "a1b2c3d4e5f" gives 15 |
| Year2023Day1.ExampleSingle | 2023/day-1/tests/test_part1.py:11 | "treb7uchet" gives 77 |
| Year2023Day1.SumValues | 2023/day-1/solution_part1.py:28-35 | a sum exactly when every line has a digit (otherwise the uncaught IndexError ends the program), at most 99 per line |
| Year2023Day2.ParseCounts | 2023/day-2/part1.py:40-44 | the colour counts of one handful, later pieces for a colour replacing earlier ones, with no more colours than pieces |
| Year2023Day2.ToCubeSet | 2023/day-2/part1.py:11-15 | a cube set exactly when only red, green and blue are named, and a colour not named is 0 |
| Year2023Day2.ParseCubeSets | 2023/day-2/part1.py:38-47 | the handfuls parse exactly when each does, one cube set per handful in order |
| Year2023Day2.ParseGame | 2023/day-2/part1.py:36-51 | a game comes from a stripped line that splits at ": " into two parts, with one cube set per "; "-separated handful |
| Year2023Day2.ParseGames | 2023/day-2/part1.py:33-52 | one game per line |
| Year2023Day2.MissingColoursAreZero | 2023/day-2/part1.py:11-15 | a handful that does not name a colour has 0 of it |
| Year2023Day2.LessEqPreorder | 2023/day-2/part1.py:17-24 | the colour-wise order on cube sets is reflexive and transitive |
| Year2023Day2.PlayableGames | 2023/day-2/part1.py:55-60 | the filter keeps at most the games it is given |
| Year2023Day2.PlayableGamesExactly | 2023/day-2/part1.py:55-60 | the filter keeps exactly the games whose every handful fits in the bag |
| Year2023Day2.SmallestIsLeast | 2023/day-2/part2.py:35-41 | the smallest bag holds every handful and is below every bag that holds them all |
| Year2023Day2.MinCubeSet | 2023/day-2/part2.py:35-41 | the loop from (0, 0, 0) raising each colour to each handful's count gives the smallest bag |
| Year2023Day2.PowerNonNegative | 2023/day-2/part2.py:26-27 | the power of a smallest bag is not negative |
| Year2023Day2.PlayableIffSmallestFits | 2023/day-2/part2.py:35-41 | a game is playable with a bag exactly when its smallest bag fits in that bag |
| Year2023Day2.SumPlayableStep | 2023/day-2/part1.py:71-74 | each game adds its id to the sum exactly when it is playable |
| Year2023Day2.ExamplePart1 | 2023/day-2/part1.py:63-77 | on the puzzle's example, games 1, 2 and 5 are possible and the ids sum to 8 |
| Year2023Day2.ExamplePlayability | 2023/day-2/part1.py:55-60 | on the example, games 3 and 4 do not fit the bag of 12 red, 13 green and 14 blue, the others do |
| Year2023Day2.PlayableFits | 2023/day-2/part1.py:59 | a game whose every handful fits in the bag is playable |
| Year2023Day2.SmallestOfTwo | 2023/day-2/part2.py:35-41 | the smallest bag of two handfuls takes the larger count of each colour |
| Year2023Day2.SmallestOfThree | 2023/day-2/part2.py:35-41 | the smallest bag of three handfuls takes the largest count of each colour |
| Year2023Day2.ExamplePart2 | 2023/day-2/part2.py:66-76 | on the example, the smallest bags' powers sum to 2286 |
| Year2023Day4.NumberSet | 2023/day-4/part1.py:31-32 | the set of the words' integers, exactly when every word is an integer, with no more members than words |
| Year2023Day4.SetOf | 2023/day-4/part1.py:31-32 | the distinct members of a list, no more than its length |
| Year2023Day4.FromLine | 2023/day-4/part1.py:24-33 | a card comes from a line split once at ": " whose identifier has a second word, the card number, and whose numbers split once at the vertical bar between spaces |
| Year2023Day4.ParseCards | 2023/day-4/part1.py:48-53 | one card per line |
| Year2023Day4.Matches | 2023/day-4/part2.py:35-40 | the number of your numbers that win is at most the number of winning numbers and of your numbers |
| Year2023Day4.Points | 2023/day-4/part1.py:39-45 | a card scores nothing exactly when it has no match |
| Year2023Day4.PointsDouble | 2023/day-4/part1.py:39-45 | one more match doubles the points of a card that already scores |
| Year2023Day4.PointsBound | 2023/day-4/part1.py:39-45 | twice a card's points are at most 2 to the number of winning numbers |
| Year2023Day4.ExampleMatches | 2023/day-4/tests/test_part1.py:15-21 | the example cards have 4, 2, 2, 1, 0 and 0 matching numbers |
| Year2023Day4.ExamplePart1 | 2023/day-4/tests/test_part1.py:24-26 | the example cards score 13 points in all |
| Year2023Day4.ByNumber | 2023/day-4/part2.py:53 | the dictionary by card number, a later card with the same number replacing an earlier one, has no more entries than cards |
| Year2023Day4.ByNumberKeys | 2023/day-4/part2.py:53 | the dictionary files each card under its own number and holds every card's number |
| Year2023Day4.ByNumberOnly | 2023/day-4/part2.py:53 | the dictionary holds no number that is not some card's |
| Year2023Day4.NumbersOf | 2023/day-4/part2.py:53 | the cards' numbers, in order |
| Year2023Day4.Order | 2023/day-4/part2.py:65 | the dictionary's key order, each number where it first appears, no longer than the cards |
| Year2023Day4.OrderKeys | 2023/day-4/part2.py:65 | the key order lists each key of the dictionary exactly once |
| Year2023Day4.Values | 2023/day-4/part2.py:65 | the dictionary's values in key order |
| Year2023Day4.AboveShrinks | 2023/day-4/part2.py:54-63 | fewer cards lie above a later number, so the counting recursion ends |
| Year2023Day4.WonFrom | 2023/day-4/part2.py:54-63 | the copies card n wins are the existing cards numbered n + 1 up to n plus its match count, each filed under its number |
| Year2023Day4.Count | 2023/day-4/part2.py:65-70 | one card amounts to at least itself |
| Year2023Day4.SumCounts | 2023/day-4/part2.py:65-70 | a list amounts to at least as many cards as it holds |
| Year2023Day4.SumCountsAppend | 2023/day-4/part2.py:69 | counts add up over concatenation |
| Year2023Day4.WonCount | 2023/day-4/part2.py:54-63 | the copies a card wins amount to every card it leads to except itself |
| Year2023Day4.TotalAtLeastDistinct | 2023/day-4/part2.py:51-75 | every distinct card is counted at least once |
| Year2023Day4.WalkStep | 2023/day-4/part2.py:67-70 | one turn of the walk replaces the current card, in what is left to walk, by the copies it wins, keeping the position plus what is left equal to the total |
| Year2023Day4.CountCardsWon | 2023/day-4/part2.py:51-75 | the walk over the growing list ends with as many cards as the original cards amount to |
| Year2023Day4.Part2 | 2023/day-4/part2.py:51-75 | the count of cards won, exactly when every line parses |
| Year2023Day4.OrderDistinct | 2023/day-4/part2.py:53 | with distinct card numbers the dictionary lists the numbers in input order |
| Year2023Day4.ByNumberDistinct | 2023/day-4/part2.py:53 | with distinct card numbers the dictionary keeps every card |
| Year2023Day4.DistinctNumbers | 2023/day-4/part2.py:65 | with distinct card numbers the walk starts from the cards as given |
| Year2023Day4.TotalDistinct | 2023/day-4/part2.py:51-75 | with distinct card numbers the total is the sum of each card's count |
| Year2023Day4.ExampleCounts | 2023/day-4/tests/test_part2.py:10-12 | in the example cards 1 to 6 amount to 15, 7, 4, 2, 1 and 1 cards |
| Year2023Day4.ExampleTotal | 2023/day-4/tests/test_part2.py:10-12 | six cards numbered 1 to 6 with 4, 2, 2, 1, 0 and 0 matches amount to 30 |
| Year2023Day4.ExamplePart2 | 2023/day-4/tests/test_part2.py:10-12 | the example's cards amount to 30 cards |
| Year2023Day4.ExampleNumbers | 2023/day-4/tests/test_part1.py:15-18 | the example cards are numbered 1 to 6 in order |
| Year2023Day5.ApplyRule | 2023/day-5/part1.py:56-74 | a number gets an image exactly when it lies in the rule's source range, shifted by the same amount as the range |
| Year2023Day5.ApplyRulesFirst | 2023/day-5/part1.py:113-119 | the first range map that covers a number decides its image, and the default map keeps a number no range map covers |
| Year2023Day5.Rules | 2023/day-5/part1.py:88-108 | one range map per line, read forwards by part 1 and backwards by part 2 |
| Year2023Day5.BackwardUndoesForward | 2023/day-5/part2.py:82-102 | reading a line backwards undoes reading it forwards on its range |
| Year2023Day5.ReverseUndoesSection | 2023/day-5/part2.py:116-136 | when a section's destination ranges do not overlap, the reverse maps send every number a range map moved back where it came from |
| Year2023Day5.Walk | 2023/day-5/part1.py:111-121 | a walk that ends is in a category without maps |
| Year2023Day5.WalkNone | 2023/day-5/part1.py:111-121 | a cut-off walk fails exactly when every category it passes has maps, whatever the numbers |
| Year2023Day5.WalkMore | 2023/day-5/part1.py:111-121 | a walk that has ended gives the same item with more passes allowed |
| Year2023Day5.CycleStays | 2023/day-5/part1.py:113 | once a category comes round again with maps all the way, the walk stays among categories with maps |
| Year2023Day5.Pigeonhole | 2023/day-5/part1.py:113 | a list longer than its set of values repeats a value |
| Year2023Day5.WalkDiverges | 2023/day-5/part1.py:111-121 | still walking after as many passes as there are categories with maps means `map_item` never returns |
| Year2023Day5.WalkEnough | 2023/day-5/part1.py:111-121 | a walk that ends at all ends within that many passes |
| Year2023Day5.WalkNoneSameCategory | 2023/day-5/part1.py:111-121 | whether the walk ends depends only on the category |
| Year2023Day5.ApplyStage | 2023/day-5/part1.py:114-119 | the inner loop takes the first range map that applies, else the default map |
| Year2023Day5.MapItem | 2023/day-5/part1.py:111-121 | the loop gives the walk's result, and no result means the source's loop never ends |
| Year2023Day5.SeedRun | 2023/day-5/part1.py:15 | the longest prefix of digits and spaces, as the seed pattern matches |
| Year2023Day5.TripleRun | 2023/day-5/part1.py:16-19 | how many lines from a point on are lines of three numbers |
| Year2023Day5.Triples | 2023/day-5/part1.py:98-101 | one number triple per line of numbers |
| Year2023Day5.SectionsFrom | 2023/day-5/part1.py:16-19 | each map section is a header line followed by at least one line of numbers |
| Year2023Day5.BuildMaps | 2023/day-5/part1.py:88-108 | the dictionary holds one entry per section's source (forwards) or destination (backwards) category |
| Year2023Day5.BuildMapsLast | 2023/day-5/part1.py:88-108 | each category's maps come from the last section listed under it |
| Year2023Day5.MinNumber | 2023/day-5/part1.py:129 | the smallest number of a non-empty list, and none (the ValueError) for an empty one |
| Year2023Day5.Walks | 2023/day-5/part1.py:128 | the walk of every seed, in order |
| Year2023Day5.MapAll | 2023/day-5/part1.py:128 | the loop over the seeds gives every seed's walk, or none when one never ends |
| Year2023Day5.Part1 | 2023/day-5/part1.py:124-132 | the lowest location any seed walks to |
| Year2023Day5.SeedRanges | 2023/day-5/part2.py:46-51 | half as many half-open ranges as numbers, (start, start + length), exactly when the count is even |
| Year2023Day5.ValidSeedPairs | 2023/day-5/part2.py:152-158 | a seed is valid exactly when it lies below some start plus its length and at or above that start |
| Year2023Day5.InsertPair | 2023/day-5/part2.py:61-69 | inserting a pair into a sorted list keeps it sorted and adds exactly that pair |
| Year2023Day5.SortPairs | 2023/day-5/part2.py:61-69 | `sorted` gives a sorted permutation of the pairs |
| Year2023Day5.FirstTo | 2023/day-5/part2.py:55-59 | the first section leading to the category, or none (the IndexError) when no section does |
| Year2023Day5.DestinationRanges | 2023/day-5/part2.py:62-68 | the destination ranges (start, start + length), one per line |
| Year2023Day5.LocationRanges | 2023/day-5/part2.py:54-74 | the sorted destination ranges of the first section leading to location, with (0, first start - 1) put in front when the first does not start at 0 |
| Year2023Day5.ScanFirst | 2023/day-5/part2.py:205-209 | the scan finds the first location of its range with a valid seed, or reports that none has one |
| Year2023Day5.ClosestFound | 2023/day-5/part2.py:188-209 | a found location has a valid seed and lies in one of the ranges, and no earlier range starts at a location with a valid seed |
| Year2023Day5.ClosestExhausted | 2023/day-5/part2.py:188-209 | when nothing is found no range starts at a location with a valid seed (the source returns None) |
| Year2023Day5.ClosestLoopsAt | 2023/day-5/part2.py:188-209 | a search that loops has met a location whose walk back does not end |
| Year2023Day5.ClosestLoops | 2023/day-5/part2.py:188-209 | that location's walk back never ends with any number of passes |
| Year2023Day5.ScanLoops | 2023/day-5/part2.py:205-209 | a scan that loops met a location in its range whose walk back does not end |
| Year2023Day5.GetClosestLocation | 2023/day-5/part2.py:188-209 | the loops give what the search function says |
| Year2023Day5.Part2 | 2023/day-5/part2.py:217-228 | the closest location the search finds in the reversed almanac |
| Year2023Day5.FindMinimumSeed | 2023/day-5/part2.py:161-185 | a returned location has a valid seed, the location before it does not, and it lies between the bounds |
| Year2023Day5.WalkStepVia | 2023/day-5/part1.py:113-117 | one pass through a stage whose range map k is the first to cover the number moves the item to the next category with that map's image |
| Year2023Day5.WalkStepPast | 2023/day-5/part1.py:113-119 | one pass through a stage where no range map covers the number keeps its value |
| Year2023Day5.ExampleSeed79 | 2023/day-5/tests/test_part1.py:28-37 | seed 79 reaches location 82 |
| Year2023Day5.ExampleSeed14 | 2023/day-5/tests/test_part1.py:28-37 | seed 14 reaches location 43 |
| Year2023Day5.ExampleSeed55 | 2023/day-5/tests/test_part1.py:28-37 | seed 55 reaches location 86 |
| Year2023Day5.ExampleSeed13 | 2023/day-5/tests/test_part1.py:28-37 | seed 13 reaches location 35 |
| Year2023Day5.ExamplePart1 | 2023/day-5/tests/test_part1.py:28-37 | the example seeds reach 82, 43, 86 and 35, the lowest being 35 |
| Year2023Day5.ExampleLocation46 | 2023/day-5/tests/test_part2.py:17-19 | location 46 walks back to seed 82 |
| Year2023Day5.ExampleLocation45 | 2023/day-5/tests/test_part2.py:17-19 | location 45 walks back to seed 53 |
| Year2023Day5.ExamplePart2 | 2023/day-5/tests/test_part2.py:17-19 | with seed ranges 79 to 92 and 55 to 67, location 46 has a valid seed and location 45 does not |
| Year2023Day6.RaceResults | 2023/day-6/part1.py:38-41 | one result per hold time from 1 to time - 1, whose speed is the hold time and whose distance is the rest of the race at that speed |
| Year2023Day6.CountBeating | 2023/day-6/part1.py:46-53 | the count of results beating the record is at most the number of results |
| Year2023Day6.AllWaysToWin | 2023/day-6/part1.py:44-56 | one count of ways to win per race, in order |
| Year2023Day6.DistanceSymmetric | 2023/day-6/part1.py:41 | holding for h or for the rest of the race goes the same distance |
| Year2023Day6.WaysBound | 2023/day-6/part1.py:38-56 | a race of at most 1 ms cannot be won, and a longer one has at most time - 1 ways to win |
| Year2023Day6.DistanceChange | 2023/day-6/part1.py:41 | moving the hold from a to b changes the distance by (b - a)(time - a - b) |
| Year2023Day6.MulNonNegative | 2023/day-6/part1.py:41 | a product of non-negative factors is non-negative, as every distance with a hold inside the race is |
| Year2023Day6.CountStretch | 2023/day-6/part1.py:46-53 | a stretch of results that all beat the record adds its length to the count, one that all miss adds nothing |
| Year2023Day6.LosesBefore | 2023/day-6/part1.py:41 | before the middle of the race a shorter hold goes no further |
| Year2023Day6.WinsBetween | 2023/day-6/part1.py:41 | every hold between lo and time - lo goes at least as far as hold lo |
| Year2023Day6.CountBefore | 2023/day-6/part1.py:44-56 | when hold lo - 1 does not beat the record, none of the holds before lo does |
| Year2023Day6.CountBetween | 2023/day-6/part1.py:44-56 | when hold lo beats the record, all time - 2 lo + 1 holds from lo to time - lo do |
| Year2023Day6.CountAfter | 2023/day-6/part1.py:44-56 | when hold lo - 1 does not beat the record, none of the holds after time - lo does |
| Year2023Day6.WaysInterval | 2023/day-6/part1.py:44-56 | when lo is the first winning hold the race has exactly time - 2 lo + 1 ways to win |
| Year2023Day6.WinnersContiguous | 2023/day-6/part1.py:41 | a hold between two holds that beat the record beats it too, so the winning holds have no gap |
| Year2023Day6.Zip | 2023/day-6/part1.py:35 | as many races as the shorter list, pairing the i-th time with the i-th distance |
| Year2023Day6.Product | 2023/day-6/part1.py:66 | a product exists exactly when there is at least one race (reduce without an initial value fails on none) |
| Year2023Day6.ProductZero | 2023/day-6/part1.py:66 | the product is zero exactly when some race cannot be won |
| Year2023Day6.ExamplePart1 | 2023/day-6/tests/test_part1.py:10-12 | the example's three races multiply to 288 ways to win |
| Year2023Day6.ExamplePart2 | 2023/day-6/tests/test_part2.py:10-12 | the example read as one race of 71530 ms and record 940200 mm has 71503 ways to win |
| Year2023Day9.Differences | 2023/day-9/part1.py:21-24 | a row one shorter whose i-th entry is the step from reading i to reading i + 1 |
| Year2023Day9.NextExtends | 2023/day-9/part1.py:27-33 | appending the next value keeps the table reducible and appends the differences' own next value to the differences |
| Year2023Day9.PreviousExtends | 2023/day-9/part2.py:27-33 | prepending the previous value keeps the table reducible and prepends the differences' own previous value |
| Year2023Day9.ConstantHistory | 2023/day-9/part1.py:15-33 | a constant non-zero history of two or more readings is continued by the same value on both ends |
| Year2023Day9.LinearHistory | 2023/day-9/part1.py:15-33 | an arithmetic history a + b i of three or more readings continues with a + b n and is preceded by a - b |
| Year2023Day9.Reverse | 2023/day-9/part2.py:15-33 | the readings in the opposite order |
| Year2023Day9.Negate | 2023/day-9/part2.py:15-33 | every reading with its sign changed |
| Year2023Day9.NegateNext | 2023/day-9/part1.py:15-33 | negating the readings negates the predicted next value |
| Year2023Day9.ReverseDifferences | 2023/day-9/part1.py:21-24 | the differences of the reversed row are the reversed differences, negated |
| Year2023Day9.PreviousIsNextReversed | 2023/day-9/part2.py:15-33 | the value before a history is the value after the reversed history |
| Year2023Day9.History.constructor | 2023/day-9/part1.py:10-12 | a history list holds the readings it was built from |
| Year2023Day9.DifferenceTable | 2023/day-9/part1.py:16-25 | the loop ends with the difference table exactly when differencing reaches zeros before a single reading (else the assert fails) |
| Year2023Day9.PredictNextValue | 2023/day-9/part1.py:15-33 | the next value of the history, which the history list gains at its end, and failure (the asserts) exactly when the history is not predictable, the list then unchanged |
| Year2023Day9.PredictPreviousValue | 2023/day-9/part2.py:15-33 | the previous value of the history, which the history list gains at its front, and failure exactly when the history is not predictable |
| Year2023Day9.PredictNextValues | 2023/day-9/part1.py:38 | every history's next value in order, exactly when all are predictable |
| Year2023Day9.PredictPreviousValues | 2023/day-9/part2.py:38 | every history's previous value in order, exactly when all are predictable |
| Year2023Day9.ValuesStep | 2023/day-9/part1.py:38 | one more predictable history adds its next and previous values at the end |
| Year2023Day9.Part1 | 2023/day-9/part1.py:36-43 | the sum of the next values, exactly when the input parses and every history is predictable |
| Year2023Day9.Part2 | 2023/day-9/part2.py:36-43 | the sum of the previous values, exactly when the input parses and every history is predictable |
| Year2023Day9.ExampleFirst | 2023/day-9/tests/test_part1.py:11-15 | 0 3 6 9 12 15 continues with 18 and is preceded by -3 |
| Year2023Day9.ExampleSecond | 2023/day-9/tests/test_part1.py:11-15 | 1 3 6 10 15 21 continues with 28 and is preceded by 0 |
| Year2023Day9.ExampleThird | 2023/day-9/tests/test_part1.py:11-15 | 10 13 16 21 30 45 continues with 68 and is preceded by 5 |
| Year2023Day9.ExamplePredictable | 2023/day-9/tests/test_part1.py:11-15 | the example's three histories can all be extrapolated |
| Year2023Day9.ExamplePart1 | 2023/day-9/tests/test_part1.py:18-20 | the example's next values sum to 114 |
| Year2023Day9.ExamplePart2 | 2023/day-9/tests/test_part2.py:20-22 | the example's previous values sum to 2 |
| Year2023Day9.SumOfThree | 2023/day-9/part1.py:40 | the sum of three values is their total |
| Year2023Day3.NewBounds | 2023/day-3/src/main.rs:185-189 | as many rows as lines and as many columns as the first line has characters, which is its byte count on an ASCII schematic, and none for an empty schematic (where the source indexes out of range) |
| Year2023Day3.BoundsExample | 2023/day-3/src/main.rs:234-258 | three lines of three give bounds 3 by 3, holding (0, 0) and (2, 2) and not (3, 0) or (0, 3) |
| Year2023Day3.RowCellsSpec | 2023/day-3/src/main.rs:200-220 | the cells of one row from a column up to a stop are exactly the in-bounds ones, in increasing column order |
| Year2023Day3.BoxRowsSpec | 2023/day-3/src/main.rs:200-220 | the cells of a band of rows and columns are exactly the in-bounds ones, in row-major order |
| Year2023Day3.RowMajorAppend | 2023/day-3/src/main.rs:205-217 | two row-major runs, the first wholly before the second, make one run |
| Year2023Day3.BoxCoordinatesSpec | 2023/day-3/src/main.rs:200-220 | the box lists exactly the in-bounds cells from the row above to the row below and from the column before the number to the column after it, in row-major order |
| Year2023Day3.BoxCoordinatesExample | 2023/day-3/src/main.rs:261-285 | a box in the middle of a 3 by 3 grid has all nine cells from (0, 0) to (2, 2), one in the corner of a 2 by 2 grid has four from (0, 0) to (1, 1) |
| Year2023Day3.AdjacentSymbols | 2023/day-3/src/main.rs:100-113 | the symbols of the box are exactly its cells holding a symbol, none more than cells, and failure exactly when a cell is off its line (the unwrap panics) |
| Year2023Day3.PartNumbersOf | 2023/day-3/src/main.rs:80-121 | at most one part number per match, each with at least one symbol next to it |
| Year2023Day3.SymbolsAroundSpec | 2023/day-3/src/main.rs:96-117 | a match has symbols around it exactly when a cell of its box holds a symbol |
| Year2023Day3.PartNumbersSound | 2023/day-3/src/main.rs:80-121 | every part number kept comes from a match next to a symbol, with that match's value and symbols |
| Year2023Day3.PartNumbersComplete | 2023/day-3/src/main.rs:80-121 | every match next to a symbol is kept as a part number of the same value |
| Year2023Day3.Values | 2023/day-3/src/main.rs:24-36 | the values of the part numbers, in order |
| Year2023Day3.OccurrencesIn | 2023/day-3/src/main.rs:45-51 | a symbol is counted in a list exactly when it is listed there |
| Year2023Day3.AddPartSpec | 2023/day-3/src/main.rs:45-51 | the inner loop adds the part once per listing under each listed `*`, creating the entry when missing, and leaves every other entry alone |
| Year2023Day3.StarKeys | 2023/day-3/src/main.rs:46-50 | a `*` symbol's entry is created or kept, and the other entries stay |
| Year2023Day3.StarLists | 2023/day-3/src/main.rs:46-50 | a `*` symbol's list gains the part at its end |
| Year2023Day3.OtherStep | 2023/day-3/src/main.rs:46 | a symbol other than `*` changes nothing |
| Year2023Day3.Repeat | 2023/day-3/src/main.rs:45-51 | n copies of the part number |
| Year2023Day3.MentionsNone | 2023/day-3/src/main.rs:43-53 | a symbol no part number lists is counted nowhere |
| Year2023Day3.RepeatSucc | 2023/day-3/src/main.rs:45-51 | one more copy goes at the end |
| Year2023Day3.PossibleGearsSpec | 2023/day-3/src/main.rs:43-53 | the possible gears are exactly the `*` symbols next to some part number, each listed with one entry per mention, all of which list it |
| Year2023Day3.Ratio | 2023/day-3/src/main.rs:165-169 | the product of the two values: zero exactly when one is zero, otherwise at least each factor |
| Year2023Day3.PossibleGears | 2023/day-3/src/main.rs:42-53 | the nested loops build the dictionary of possible gears |
| Year2023Day3.Gears | 2023/day-3/src/main.rs:55-69 | every gear kept is a `*` with exactly two part numbers next to it, and the sum of ratios is the same whatever order the dictionary is visited in |
| Year2023Day3.Ratios | 2023/day-3/src/main.rs:69 | one ratio per gear |
| Year2023Day3.RatiosAppend | 2023/day-3/src/main.rs:69 | one more gear adds its ratio to the sum |
| Year2023Day3.Part2 | 2023/day-3/src/main.rs:38-74 | the sum of the ratios of the `*` symbols with exactly two part numbers next to them, or failure where reading the part numbers fails |
| Year2023Day3.IdentifySymbolsSpec | 2023/day-3/src/main.rs:133-141 | every symbol that makes a part number is identified, and nothing identified is a dot or a digit |
| Year2023Day8.DirectionsIterator.constructor | 2023/swift/Sources/day8/day8.swift:68-71 | the iterator starts at the first instruction |
| Year2023Day8.DirectionsIterator.Next | 2023/swift/Sources/day8/day8.swift:73-82 | returns the instruction at the index and moves the index on, back to the start after the last |
| Year2023Day8.NextIndex | 2023/swift/Sources/day8/day8.swift:73-82 | moving on from the index after k calls gives the index after k + 1 calls |
| Year2023Day8.ModUnique | 2023/swift/Sources/day8/day8.swift:73-82 | the remainder is the one number below n that differs from a by a multiple of n |
| Year2023Day8.ExampleDirections | 2023/swift/Sources/day8/day8.swift:183 | the instructions LLR repeat as LLRLLRLLR |
| Year2023Day8.Step | 2023/swift/Sources/day8/day8.swift:99-108 | a step lands somewhere only from a node of the network and only for L or R |
| Year2023Day8.LinkedSpec | 2023/swift/Sources/day8/day8.swift:123-136 | after adding a node it goes left and right to the given labels, all three are in the network, other nodes keep their links, new nodes are unlinked, and a network whose links stay inside keeps that property |
| Year2023Day8.LinkLeftStep | 2023/swift/Sources/day8/day8.swift:127-129 | setting the left link and then storing the left node builds the same dictionary as creating the left node first |
| Year2023Day8.LinkRightStep | 2023/swift/Sources/day8/day8.swift:131-133 | the same for the right link |
| Year2023Day8.Network.constructor | 2023/swift/Sources/day8/day8.swift:120-121 | a new network has no nodes |
| Year2023Day8.Network.AddNode | 2023/swift/Sources/day8/day8.swift:123-136 | the dictionary becomes the old one with the node linked left and right |
| Year2023Day8.ParseNode | 2023/swift/Sources/day8/day8.swift:148-154 | a node line that matches gives three labels of three capitals or digits |
| Year2023Day8.ParseNodeRoundTrip | 2023/swift/Sources/day8/day8.swift:148-159 | a node line written from three labels is read back as those labels |
| Year2023Day8.LinkAllClosed | 2023/swift/Sources/day8/day8.swift:143-167 | after adding every node line to an empty network, every link points at a node of the network |
| Year2023Day8.BuildNetwork | 2023/swift/Sources/day8/day8.swift:146-164 | the network holds the node lines added in order |
| Year2023Day8.WalkInside | 2023/swift/Sources/day8/day8.swift:183-195 | a walk from a node of a closed network stays inside it |
| Year2023Day8.Part1 | 2023/swift/Sources/day8/day8.swift:173-199 | the step count is the first step that lands on ZZZ, none before it having done so, and a fatal error is a step with nowhere to go (or no instructions) |
| Year2023Day8.PeriodUnique | 2023/swift/Sources/day8/day8.swift:205-216 | a node has at most one period |
| Year2023Day8.Period | 2023/swift/Sources/day8/day8.swift:205-216 | the step count is the node's period, the first whole number of passes that reaches a label ending in Z, or a fatal error at a step with nowhere to go |
| Year2023Day8.StartingPeriods | 2023/swift/Sources/day8/day8.swift:225-230 | either some starting node's walk fails and that failure (never an arrival, and only with a starting node) is returned, or one period per starting node is collected, each the period of a starting node, every starting node covered, and none when there are no starting nodes |
| Year2023Day8.PeriodsLcm | 2023/swift/Sources/day8/day8.swift:232 | the least common multiple of the collected periods is positive, a multiple of each starting node's period, and divides every common multiple of those periods |
| Year2023Day8.Part2 | 2023/swift/Sources/day8/day8.swift:218-236 | the answer is the least common multiple of the periods of the nodes whose label ends in A: a positive multiple of each period that divides every other common multiple of them, and 1 when there is no such node |
| Year2023Math.ModDivides | 2023/swift/Sources/math.swift:16 | for a positive divisor the remainder is zero exactly when the divisor divides the number |
| Year2023Math.DividesTransitive | 2023/swift/Sources/math.swift:40-53 | a divisor of a divisor divides the number |
| Year2023Math.DividesProduct | 2023/swift/Sources/math.swift:49-51 | divisors of two numbers multiply to a divisor of their product |
| Year2023Math.DividesMultiple | 2023/swift/Sources/math.swift:49-51 | a divisor of a number divides its multiples |
| Year2023Math.SmallestDivisorPrime | 2023/swift/Sources/math.swift:15-19 | a divisor of n with no divisor of n below it is prime, so every factor the inner loop takes out is prime |
| Year2023Math.NoSmallDivisorPrime | 2023/swift/Sources/math.swift:21-22 | once the divisor's square passes n and nothing below it divides n, an n above one is prime, so the last factor appended is prime |
| Year2023Math.QuotientDivisor | 2023/swift/Sources/math.swift:16-18 | a divisor of the quotient divides the number |
| Year2023Math.PowerAdd | 2023/swift/Sources/math.swift:49-51 | powers of one base multiply by adding exponents |
| Year2023Math.PowerPositive | 2023/swift/Sources/math.swift:49-51 | a power of a positive base is positive |
| Year2023Math.PowerDivides | 2023/swift/Sources/math.swift:45 | a lower power of a number divides a higher one |
| Year2023Math.MapProductRemove | 2023/swift/Sources/math.swift:49-51 | the product of prime powers does not depend on the order the dictionary is visited in |
| Year2023Math.MapProductPositive | 2023/swift/Sources/math.swift:49-51 | a product of powers of positive numbers is positive |
| Year2023Math.DominatedDivides | 2023/swift/Sources/math.swift:40-53 | a product of prime powers divides one whose powers are at least as large |
| Year2023Math.CountsKeys | 2023/swift/Sources/math.swift:28-31 | the counted keys are exactly the factors, each counted at least once |
| Year2023Math.CountsStep | 2023/swift/Sources/math.swift:30 | counting one more factor multiplies the product of powers by it |
| Year2023Math.CountsProduct | 2023/swift/Sources/math.swift:27-31 | the product of the counted powers is the product of the factors |
| Year2023Math.TrialDivision | 2023/swift/Sources/math.swift:12-25 | the factors are primes whose product is n, and none for n at most one |
| Year2023Math.DivideOnce | 2023/swift/Sources/math.swift:16-19 | taking the divisor out of n keeps the product of factors and quotient, appends a prime and leaves no smaller divisor |
| Year2023Math.CountFactors | 2023/swift/Sources/math.swift:27-31 | the loop counts how many times each factor appears |
| Year2023Math.PrimeFactors | 2023/swift/Sources/math.swift:11-34 | the prime factorization of n, each prime with its exponent |
| Year2023Math.LargestPowers | 2023/swift/Sources/math.swift:41-47 | for every prime the largest power any input has, and only primes some input has |
| Year2023Math.MultiplyOut | 2023/swift/Sources/math.swift:49-51 | the product of the prime powers |
| Year2023Math.Lcm | 2023/swift/Sources/math.swift:40-53 | the least common multiple of the positive inputs: a positive multiple of each that divides every common multiple of them, and 1 for no inputs |
| Year2023Math.LcmUnique | 2023/swift/Sources/math.swift:40-53 | the least common multiple is unique and at most every positive common multiple |
| Year2023Math.LcmExamples | 2023/swift/Tests/math.swift:19-20 | lcm of 10 and 15 is 30 and lcm of 24, 10 and 15 is 120 |
| Year2023Math.LcmTenFifteen | 2023/swift/Tests/math.swift:19 | 30 is the least common multiple of 10 and 15 |
| Year2023Math.LcmTwentyFourTenFifteen | 2023/swift/Tests/math.swift:20 | 120 is the least common multiple of 24, 10 and 15 |
| Year2023Math.LargestPowersLeast | 2023/swift/Sources/math.swift:41-51 | the product of the largest prime powers divides every common multiple of the inputs |
| Year2023Math.FactorDivides | 2023/swift/Sources/math.swift:11-34 | each prime power of a factorization divides the number |
| Year2023Math.ProductDividesMultiple | 2023/swift/Sources/math.swift:49-51 | powers of distinct primes that each divide a number multiply to a divisor of it |
| Year2023Math.PowerDividesCofactor | 2023/swift/Sources/math.swift:49-51 | a prime power dividing a product whose other factor the prime does not divide divides the cofactor |
| Year2023Math.PrimeNotDividesProduct | 2023/swift/Sources/math.swift:49-51 | a prime divides no product of powers of other primes |
| Year2023Math.PrimeNotDividesPower | 2023/swift/Sources/math.swift:49-51 | a prime divides no power of another prime |
| Year2023Math.EuclidLemma | 2023/swift/Sources/math.swift:49-51 | a prime dividing a product divides one of the factors |
| Year2023Math.GcdCombination | 2023/swift/Sources/math.swift:49-51 | the greatest common divisor is an integer combination of the two numbers |
| Year2023Math.GcdDivides | 2023/swift/Sources/math.swift:49-51 | the greatest common divisor divides both numbers |
| Year2023Math.DivisorAtMost | 2023/swift/Sources/math.swift:40-53 | a positive divisor of a positive number is at most the number |
| Year2023Math.MulCancel | 2023/swift/Sources/math.swift:49-51 | a positive factor cancels from both sides |
| Year2023Math.PrimeNotDividesOne | 2023/swift/Sources/math.swift:49-51 | a prime does not divide one |
| Year2023Math.FiveIsPrime | 2023/swift/Tests/math.swift:20 | five is prime |
| Year2023Day7.CardValueLabels | 2023/swift/Sources/day7/part1.swift:9-45 | without jokers exactly the thirteen labels are cards, read one to one onto 2 to 14 in order from 2 to A |
| Year2023Day7.JokerWeakest | 2023/swift/Sources/day7/part2.swift:8-44 | with jokers only J changes, to 1, below every other card |
| Year2023Day7.Cards | 2023/swift/Sources/day7/part1.swift:76-78 | one value per character, exactly when every character is a card (else the fatal error) |
| Year2023Day7.Occurrences | 2023/swift/Sources/day7/part1.swift:76-80 | a card occurs at most as often as there are cards |
| Year2023Day7.DistinctCards | 2023/swift/Sources/day7/part1.swift:76-80 | every card of the hand is listed once among the different cards |
| Year2023Day7.DistinctOnce | 2023/swift/Sources/day7/part1.swift:76-80 | no card is listed twice among the different cards |
| Year2023Day7.CounterKeys | 2023/swift/Sources/day7/part1.swift:74-80 | the counter's keys are the cards of the hand |
| Year2023Day7.CounterPositive | 2023/swift/Sources/day7/part1.swift:74-80 | every count is at least one |
| Year2023Day7.CounterCounts | 2023/swift/Sources/day7/part1.swift:74-80 | the counter holds how often each card occurs, and a card that is not a key does not occur |
| Year2023Day7.Values | 2023/swift/Sources/day7/part1.swift:84 | every value listed is a value of the dictionary |
| Year2023Day7.InsertDescending | 2023/swift/Sources/day7/part1.swift:84 | inserting a count into a descending list keeps it descending, adds exactly that count and adds it to the sum |
| Year2023Day7.SortDescending | 2023/swift/Sources/day7/part1.swift:84 | `sorted(by: >)` gives the counts from largest to smallest, as a permutation with the same sum |
| Year2023Day7.Rank | 2023/swift/Sources/day7/part1.swift:57-59 | the raw value of a hand type is at most 6 |
| Year2023Day7.CounterAppend | 2023/swift/Sources/day7/part1.swift:79 | one more card adds one to its count, creating it at one |
| Year2023Day7.ValuesAppend | 2023/swift/Sources/day7/part1.swift:84 | one more key listed adds its value at the end when it is in the dictionary |
| Year2023Day7.ValuesBump | 2023/swift/Sources/day7/part1.swift:79 | raising one key's count by one raises the sum of the listed counts by one when that key is listed once |
| Year2023Day7.ValuesFresh | 2023/swift/Sources/day7/part1.swift:79 | a key that is not listed does not change the listed counts |
| Year2023Day7.DistinctAppend | 2023/swift/Sources/day7/part1.swift:76-80 | one more card is listed among the different cards only when it is new |
| Year2023Day7.CounterWithoutAppend | 2023/swift/Sources/day7/part2.swift:83 | the counter without the joker key after one more card |
| Year2023Day7.CountStepDropped | 2023/swift/Sources/day7/part2.swift:83-84 | one more joker keeps the count of the other cards and adds one to the jokers |
| Year2023Day7.CountStepSeen | 2023/swift/Sources/day7/part2.swift:83-84 | one more card seen before adds one to the count of the other cards |
| Year2023Day7.CountStepNew | 2023/swift/Sources/day7/part2.swift:83-84 | one more new card adds a count of one for the other cards |
| Year2023Day7.CountValues | 2023/swift/Sources/day7/part2.swift:83-84 | the counts of the cards other than the jokers plus the joker count add up to the number of cards |
| Year2023Day7.CountsOfHand | 2023/swift/Sources/day7/part1.swift:84 | the counts of a whole hand add up to its size |
| Year2023Day7.ValuesPositive | 2023/swift/Sources/day7/part1.swift:84 | the listed counts of a counter are all at least one |
| Year2023Day7.PositiveCounts | 2023/swift/Sources/day7/part2.swift:84 | the sorted counts of the cards other than the jokers are all at least one |
| Year2023Day7.Shapes | 2023/swift/Sources/day7/part1.swift:85-102 | the descending positive splits of up to five cards are exactly the ones listed for each total |
| Year2023Day7.PlainTable | 2023/swift/Sources/day7/part1.swift:85-102 | part 1's table gives a type exactly when the counts add up to five |
| Year2023Day7.JokerTable | 2023/swift/Sources/day7/part2.swift:85-102 | part 2's table gives a type exactly when the counts and the jokers add up to five, and it is part 1's type of the counts with the jokers joining the largest group |
| Year2023Day7.JokerShapes | 2023/swift/Sources/day7/part2.swift:85-102 | every split of five cards with jokers is in part 2's table, with the type the jokers make by joining the largest group |
| Year2023Day7.ClassifyTotal | 2023/swift/Sources/day7/part1.swift:84-102 | a hand gets a type, in either part, exactly when it has five cards (else the fatal error) |
| Year2023Day7.JokersJoinLargest | 2023/swift/Sources/day7/part2.swift:83-102 | in part 2 a hand's type is part 1's type of its counts once the jokers join the largest group of other cards |
| Year2023Day7.HandOfTotal | 2023/swift/Sources/day7/part1.swift:68-103 | a hand is built exactly when it has five cards that are all valid |
| Year2023Day7.ReadCards | 2023/swift/Sources/day7/part1.swift:73-80 | the loop reads the cards in order and counts each one, failing as the card lookup does |
| Year2023Day7.NewHand | 2023/swift/Sources/day7/part1.swift:68-103 | the hand built from its cards and the type its counts give, failing as the source's fatal errors do |
| Year2023Day7.CardsBeforeTransitive | 2023/swift/Sources/day7/part1.swift:117 | `lexicographicallyPrecedes` is transitive |
| Year2023Day7.CardsBeforeTotal | 2023/swift/Sources/day7/part1.swift:117 | of two different card lists exactly one comes first |
| Year2023Day7.HandTypeRankInjective | 2023/swift/Sources/day7/part1.swift:57-59 | two types share a raw value only when they are the same type |
| Year2023Day7.WeakerOrder | 2023/swift/Sources/day7/part1.swift:112-119 | `<` on hands is a strict order, and hands that differ in type or cards are ordered one way or the other |
| Year2023Day7.InsertHand | 2023/swift/Sources/day7/part1.swift:143 | inserting a hand into a ranked list keeps it ranked and adds exactly that hand |
| Year2023Day7.WeakerThanFirst | 2023/swift/Sources/day7/part1.swift:112-119 | a hand weaker than the first of a ranked list is weaker than every hand of it |
| Year2023Day7.NotWeakerPermutation | 2023/swift/Sources/day7/part1.swift:143 | the rest of a ranked list together with a hand not weaker than its first has no hand weaker than that first |
| Year2023Day7.SortHands | 2023/swift/Sources/day7/part1.swift:143 | `sort(by: <)` gives a ranked permutation of the hands |
| Year2023Day7.DifferentCardsNoTies | 2023/swift/Sources/day7/part1.swift:112-119 | hands with pairwise different cards never tie |
| Year2023Day7.RankedFirst | 2023/swift/Sources/day7/part1.swift:143 | no hand of a ranked list is weaker than its first |
| Year2023Day7.RankedHeads | 2023/swift/Sources/day7/part1.swift:143 | two ranked arrangements of the same hands, none tying, start with the same hand |
| Year2023Day7.RankedTail | 2023/swift/Sources/day7/part1.swift:143 | the rest of a ranked list without ties is ranked without ties |
| Year2023Day7.RankedUnique | 2023/swift/Sources/day7/part1.swift:143 | when no two hands tie there is only one ranked order of them, so whatever the sort does with its freedom gives the same list |
| Year2023Day7.WinningsAnyOrder | 2023/swift/Sources/day7/part1.swift:142-148 | when no two hands tie every ranked order earns the same winnings |
| Year2023Day7.WinningsRanks | 2023/swift/Sources/day7/part1.swift:146-148 | the winnings are the sum of each hand's bid times its rank, counted from one at the weakest hand |
| Year2023Day7.WinningsSplit | 2023/swift/Sources/day7/part1.swift:146-148 | counting ranks from a later start adds that offset times the sum of the bids |
| Year2023Day7.WinningsLast | 2023/swift/Sources/day7/part1.swift:146-148 | the last hand of the list is counted at the highest rank |
| Year2023Day7.WinningsFive | 2023/swift/Sources/day7/part1.swift:146-148 | five hands earn their bids times the ranks one to five |
| Year2023Day7.ParseHandRoundTrip | 2023/swift/Sources/day7/part1.swift:127-130 | a line made of a hand, a space and a bid reads back as that hand with that bid |
| Year2023Day7.ParseLinesEach | 2023/swift/Sources/day7/part1.swift:126-131 | the lines are read exactly when each one is a hand, and then give the hand of each line in order |
| Year2023Day7.ParseHandsRoundTrip | 2023/swift/Sources/day7/part1.swift:125-132 | the input written for a list of hands, one line each, reads back as those hands |
| Year2023Day7.LinesReadBack | 2023/swift/Sources/day7/part1.swift:127-130 | each written line has no newline and reads back as its hand |
| Year2023Day7.TotalWinningsRanked | 2023/swift/Sources/day7/part1.swift:138-153 | the answer is the winnings of any ranked arrangement of the parsed hands when no two tie |
| Year2023Day7.ChainRanked | 2023/swift/Sources/day7/part1.swift:143 | a list whose every hand is weaker than the next is ranked |
| Year2023Day7.ExampleOrder | 2023/swift/Sources/day7/part1.swift:142-148 | a ranked arrangement of five hands with different cards earns what the sorted list earns |
| Year2023Day7.ExamplePlainChain | 2023/swift/Sources/day7/part1.swift:112-119 | in the puzzle example 32T3K, KTJJT, KK677, T55J5, QQQJA are each weaker than the next without jokers |
| Year2023Day7.ExampleJokerChain | 2023/swift/Sources/day7/part2.swift:112-119 | in the puzzle example 32T3K, KK677, T55J5, QQQJA, KTJJT are each weaker than the next with jokers |
| Year2023Day7.ExamplePlainPermutation | 2023/swift/Sources/day7/part1.swift:143 | part 1's order of the example holds each hand once |
| Year2023Day7.ExampleJokerPermutation | 2023/swift/Sources/day7/part2.swift:142 | part 2's order of the example holds each hand once |
| Year2023Day7.ExamplePlainWinnings | 2023/swift/Sources/day7/part1.swift:138-153 | the puzzle example's hands sorted without jokers earn 6440 |
| Year2023Day7.ExampleJokerWinnings | 2023/swift/Sources/day7/part2.swift:138-155 | the puzzle example's hands sorted with jokers earn 5905 |
| Day7.ValidateSolvable | 2024/rust/src/day7.rs:61-76 | a successful search yields a left-to-right choice of operators that evaluates the terms to the result |
| Day7.SolvableValidate | 2024/rust/src/day7.rs:61-76 | every choice of operators that evaluates the terms to the result is found by the search |
| Day1.SumDistances | 2024/rust/src/day1.rs:52-54 | the loop adds up the distances of the paired ids |
| Day14.Simulate | 2024/rust/src/day14.rs:14-16 | one position per robot of the input after n moves |
| Day10.Climbable | 2024/rust/src/day10.rs:190-208 | the directions kept are exactly those of the candidates in which the hiker can climb |
| Day19.CountedDesigns | 2024/rust/src/day19.rs:23-31 | at most one count per design |
| Day2.CountDampened | 2024/rust/src/day2.rs:100-113 | the number of reports the dampener accepts is at most the number of reports |
| Day2.ReverseTolerance | 2024/rust/src/day2.rs:46-51 | when the reversed report keeps every step between 1 and 3, so does the report |
| Day4.CountFound | 2024/rust/src/day4.rs:191-208 | at most one find per direction tried |
| Day5.SortPages | 2024/rust/src/day5.rs:50-54 | the sorted update has as many pages as the update |
| Day8.TableEntries | 2024/rust/src/day8.rs:57-70 | a table with exactly the frequencies of the map, each listing its cells in reading order, is the parsed table |
| Day11.StepNLength | 2024/rust/src/day11.rs:113-123 | blinking never shortens the line of stones |

## Left out
- Fixed-width integers: every day computes with unbounded integers; the source's i64/u64/usize overflow (a panic in debug builds, wrap-around in release builds) is not modelled.
- Day7.Part2: an equation with a negative number is treated as a panic. The source panics only when it actually tries `||` on a negative number.
- Day7.Validate: the source's `any` stops at the first operator that succeeds. The model states the same truth value without fixing the order of evaluation.
- Day25 part 2 is `unimplemented!()` in the source and has no model.
- Day19.Part1: the regex engine is not modelled; the regex is characterised by what it matches with every pattern read literally (one or more patterns side by side). Patterns holding regex metacharacters are not modelled.
- Day19.CountWays: the `#[cached]` memo only speeds the recursion up and is left out; with an empty pattern and a non-empty design the source recurses without end (an empty design answers 1 before any pattern is tried), so CountWays requires non-empty patterns and Day19.Part2 answers None when a pattern is empty and there is at least one design, even where every design is empty and the source would answer.
- Day22.Evolve: `secret * 64` on a `u64` panics on overflow in a debug build; the model wraps as an optimised build does. Only a parsed secret of 2^58 or more can overflow, since every evolved secret is below 2^24.
- Day22: the puzzle's numeric example (123 evolves to 15887950) is not restated. The model's bitwise XOR is a recursive function the verifier does not evaluate that far.
- Day11.Transform: `stone * 2024` on a `u64` can overflow for stones above about 9·10^15. The model multiplies without bound; the `as i64` of the answers is not modelled either.
- Day11.Blinks: `count - 1` on a `u8` needs `count >= 1`, so the model requires it (both callers pass 25 or 75).
- Day5.SortPages: `sort_by` is modelled as the stable insertion sort that Rust's standard library uses for short slices. For longer slices the library merges runs, and with a comparator that is not a total order its result may differ. The permutation property holds either way; the characterisation by adjacent pairs relies on the insertion sort.
- Day8.Part2: with lines of unequal length an antenna can lie off the map (columns come from the first line); the resonant loop then stops early, so only "at most" is stated for that case.
- Day8: coordinates are unbounded integers rather than `i32`; an input large enough to overflow `i32` is not modelled.
- Day8.GetAntennaPairs: the frequencies are visited in an arbitrary order, standing in for `HashMap` iteration order; only the set of pairs and their distinctness are stated.
- Day14: `parse_input` is a regular-expression scan; the model takes the positions and velocities it produces.
- Day14: `Lobby::print` and the `visualize` flag are output only.
- Day14.Robot.Move: a lobby of zero or negative size is excluded (the far-edge branch panics on `% 0`); the wrap-around is stated only for speeds of at most one lobby size, because larger speeds can leave the lobby.
- Day10.ParseMap: a ragged grid gives None; the source takes the width from the first row and would index past a short row (a panic) or ignore a long row's tail.
- Day10.ParseMap: a non-digit character is an `unwrap` panic in the source, modelled as None.
- Day10.Hiker.constructor: the route set the source builds and drops is not modelled.
- Day10.HikeTrails: the trail count is related to the peaks (at least as many) but not proved equal to the number of distinct trails.
- Day4.ParsePuzzle: a ragged puzzle gives None; the source takes the width from the first row and would index past a short row (a panic) or ignore a long row's tail. An empty input leaves `WordSearch::new` no first row, a panic, also modelled as None.
- Day4.Project: coordinates are unbounded integers; the `i32` casts of the source are not modelled.
- Day4.Part1: the answer is a number; its conversion to a `String` is not modelled.
- Day20.MapCourse: the source loops until it reaches 'E'; the model allows as many steps as the map has cells and answers None after that, which a course that visits no cell twice never needs.
- Day20.MapCourse: the walk steps with the corrected `NextPosition` (see Findings). On a start whose neighbour comes before the way on in the direction order, the source's walk steps back to 'S' and then panics; the model walks on instead.
- Day20: `Direction4C` is not part of this model; its directions are taken in the order north, south, east, west. Only which neighbour is found first depends on this.
- Day20.ParseMap: a ragged map gives None; how `Map<char>` is built from text is not part of this model beyond one row per line.
- Day20.CountCheatsThatSaveTime: the `log::debug!` lines and the `#[cached]` memo on `get_offsets` are left out.
- Day20.CourseIndexTimes: stated only for a course that visits no position twice; the corrected walk may revisit a cell only on a map whose track branches, which the puzzle excludes.
- Day9.Part2: the `println!`, `print_disk_map` and `write_disk_to_file` output is left out, and so are the `println!` calls inside `parse_input_file`, `seek_file` and `compact_whole_files`.
- Day9.SeekFrom: when file 0 has a single block at position 0, `file_end - file_start` computes `0 - 1` on a `usize`, a panic in a debug build; the model takes the release build's wrap-around, which gives length 0, and the caller stops at cursor 0 before using it.
- Day9.CompactFileFragments: a panic part-way through leaves the array in some state the model does not state; only a panic before the first swap can occur, so false also means the blocks are unchanged, which is not stated.
- Day9.CompactWholeFiles: the method implements the corrected search, which also tries the free span ending right before the file; the source's search is modelled by `MoveFile` with `inclusive` false and compared in `WholeFilesMissesAdjacentSpan`.
- Day17: `parse_input_file` is a regular-expression scan; the model takes the registers and the program it produces.
- Day17.Computer.Run: the source loops until the pointer leaves the program, which may never happen; the model runs at most a given number of instructions and reports when that bound is reached. Part 1 and part 2 take the bound as a parameter.
- Day17.SolveFrom: a candidate whose run panics makes the source's whole program panic; the model treats it, like a run that exceeds the instruction bound, as a candidate that does not match.
- Day17.Executed: registers are unbounded; `2.pow(v)` overflowing a `u64` for a combo value of 64 or more, the `u32::try_from` of a huge combo value and `register_a << 3` losing its top bits are not modelled.
- Day17: the `log::debug!` trace in `log_execution` is output only.
- Day21: the `#[cached]` memos on `numeric_moves` and `dpad_moves` and the `OnceLock` key tables only save work; they are plain functions and constant maps here.
- Day21.Keypad: the boxed chain is modelled as references with a ghost footprint of the keypads below; the `name` field is kept but only used by the `log::debug!` line, which is left out.
- Day21.CharMove: any character other than `^ v < > A` is a panic in the source and None here; `count_moves` only converts characters produced from moves, so that case is not reached.
- Day21.Score: a button the keypad lacks (the `unwrap` on the key table), an empty code (`code.len() - 1` on a `usize`) and a code whose prefix is not a number are panics in the source; the model answers None for that code and for the whole input.
- Day21: 'X' is a key of both tables in the source (it marks the gap), so a code holding 'X' is typed like any other; the gap lemmas are stated for the other keys.
- Day21.Part1: the file read is replaced by the input text; its lines are taken as `str::lines` gives them.
- Day15.Part2: that a part-two run on a widened, walled warehouse never panics, keeps its walls and keeps each big box's two halves side by side is not proved, so there is no part-two counterpart of Day15.Part1Succeeds. A vertical push clears the cells ahead depth first, and between the two half-steps of a big box the warehouse holds an unpaired half, so the proof needs a frame for every cell each push may touch; it was not carried out. The model answers None wherever a modelled move would panic, so an answer it does give is the one the source computes.
- Day15.Attempt: for moves involving big boxes only the warehouse's size and its items as a multiset are stated; the walls and the border are proved kept only for part one, whose warehouse has no big boxes (Day15.AttemptSingle), and the pairing of halves is not proved kept.
- 2024 day 3 is not part of this model: its answer is whatever a regular-expression scan of the memory finds, and the regex engine is not modelled.
- 2024 day 13 is not part of this model: it solves each claw machine in floating point with an LU decomposition and a tolerance.
- Day12.Part2: the set of regions is proved unique, but that the side counts (numbers of fence components) are fixed by each region is not proved; the part-two price is stated per mapping.
- Day12.Part1: takes the parsed grid and requires it non-empty and rectangular; turning the text into the shared `Map` is not modelled. The same holds for Day12.Part2.
- Day6.Part1: when the walk from the start loops, `while guard.next(&map) != Action::Exit {}` never ends, because `Guard::next` keeps answering Loop; the model answers None instead of running forever. The same holds for Day6.Part2.
- Day16.Race: requires a non-empty rectangular maze with a wall border, an 'S' and an 'E'. Without 'S' or 'E' the source's `unwrap` panics. Off the map `map.get` is not '#', so the source could walk off a maze without a border. The Dijkstra loop stops after `fuel` pops, and then the answer is None.
- Day16.Race: the tile count is proved to count the positions of the least set of keys that holds the goal keys and is closed under recorded predecessors. That this set is exactly the keys lying on some best path is not proved: it would need every recorded predecessor of such a key to lie on a best path too, an invariant about equal-score ties that the model does not carry.
- Day16.Search: the best score is compared only with paths scoring below `Score::MAX`, the width of the source's `u64` score; longer paths are beyond what the source can score.
- Day18.Part1: requires the input to parse. A line without two numbers is an `unwrap` panic in the source. The same holds for Day18.Part2.
- Day24.Part1: the worklist of gates is bounded by `fuel`. On gates whose inputs never get a value the source loops forever; the model answers None there.
- Year2023Day3: `get_part_numbers` finds the numbers with a regular expression; the model takes its matches (row, start column, the column one past the last digit, value) as data.
- Year2023Day3.NewBounds: the model counts columns in characters and reads cells by character. The source counts columns in UTF-8 bytes (`len()`, main.rs:187) and takes match offsets in bytes, but reads cells with `chars().nth`; the model agrees with it only on ASCII schematics. On `["é"]` the source has 2 columns and the model 1, and the schematic "é.1" over "..*" panics in the source where the model finds part number 1.
- Year2023Day3.Gears: the dictionary is visited in some order the model does not fix. The sum is proved the same for every order, but the order of the gear list is not stated.
- PyText.PyInt: only an optional sign and the ASCII digits '0' to '9' are read, between white space. Python's `int()` also accepts underscores between digits (`int("1_000")` is 1000) and other Unicode decimal digits; the model answers None for both.
- Year2023Day1.Digits: only the ASCII digits '0' to '9' are digits. The source's `\d` on a `str` also matches other Unicode decimal digits, which `int()` reads, so "a٣b" gives 33 in the source and None in the model. The same holds for Year2023Day1.CalibrationValue.
- Year2023Day1.SumDocument: the document is cut into lines at '\n' only. The source iterates `for line in file` on a text-mode file, whose universal newlines also end a line at a lone '\r' (and read "\r\n" as one break), so "1a\r2b\n" sums to 33 in the source and 12 in the model. The model agrees with the source on text whose lines end in '\n' alone.
- Year2023Day2.Part1: the text is cut into lines at '\n' only, where the source's `for line in file` also breaks at a lone '\r'; the model agrees with it on text whose lines end in '\n' alone. The same holds for Year2023Day2.Part2.
- Year2023Day4.Part2: the text is cut into lines at '\n' only, where the source's `for line in file_handle` also breaks at a lone '\r'; the model agrees with it on text whose lines end in '\n' alone. The same holds for Year2023Day4.Part1.
- Year2023Day5: the seed and map patterns are read on ASCII digits and spaces. Python's `\d` also matches other Unicode digits. A carriage return at a line end is not modelled.
- Year2023Day5.MapItem: when the categories lead round in a circle the source loops forever; the model answers None and proves that no number of passes ends the walk.
- Year2023Day5.FindMinimumSeed: when its bounds stop changing the source calls itself with the same arguments until the recursion limit is hit; the model answers None there. `main` never calls it.
- Year2023Day5.Part2: the `tqdm` progress bar and the `print` calls are output only. When the search finds nothing, `main` fails on `None.number`; the model answers None.
- Year2023Day6: reading the file with `readlines` and the `print` calls are left out; the text is a parameter.
- Year2023Day9: reading the file and the `print` calls are left out; the text is a parameter.
- Year2023Day7.SortHands: Swift's `sort(by:)` is not stable, and the model sorts by a stable insertion. WinningsAnyOrder proves that the order does not matter when no two hands tie. Two lines with the same hand can tie, and then the source's winnings depend on an order it does not fix.
- Year2023Day7.ExamplePlainWinnings: the example's hands are written out as values, each with the type and cards the puzzle gives it; that `Hand.init` builds exactly those values from the example's lines is not proved, as evaluating the counter on concrete cards is beyond the verifier's resource limit. The same holds for Year2023Day7.ExampleJokerWinnings. TotalWinningsRanked and ParseHandsRoundTrip carry the parsing part for all inputs.
- Year2023Day7: `day-7/Sources/part1/main.swift` and `part2/main.swift` hold the same logic as `swift/Sources/day7/part1.swift` and `part2.swift`; the rows cite the latter.
- Year2023Day8: `day-8/Sources/main.swift` holds the same logic as `swift/Sources/day8/day8.swift` and `swift/Sources/math.swift`, with its own copies of `calculatePrimeFactors` and `lcm`; the rows cite the latter.
- Year2023Day8.Part1: the source's loop may run forever (a walk that never reaches ZZZ); the model stops after `limit` steps and answers GaveUp. The same holds for Year2023Day8.Period and Year2023Day8.Part2.
- Year2023Day8.DirectionsIterator.Next: an empty instruction line crashes the source's iterator on its first call; the walks answer Fatal(0) for it. A missing AAA or a step to `nil` is `fatalError` in the source and Fatal in the model.
- Year2023Math.Lcm: the product is formed in `Decimal` and converted back with `intValue`; a result beyond `Int` is not modelled.

## Findings

| source | as written | input that shows it | evidently intended | confidence | as-written member | corrected member |
|---|---|---|---|---|---|---|
| 2024/rust/src/day20.rs:91 | the position before the current one is excluded only when the course holds more than 2 positions | the map `###`/`#S#`/`#.#`/`#E#`/`###`: from the course [S, (2,1)] the north neighbour S is taken again, and from S every way on is then excluded, a panic | exclude the previous position as soon as there is one (`course.len() >= 2`) | not executed; only a start whose neighbour comes before the way on in the direction order triggers it | Day20.NextPositionAsWrittenStepsBack | Day20.NextPositionStep |
| 2024/rust/src/day20.rs:151 | the filter compares the shifted offset with the unshifted centre `(d, d)`, which lies outside the ball, so nothing is removed | any duration of 1 or more: the zero offset `((0, 0), 0)` stays in the list | remove the zero offset | not executed; the zero offset never yields a cheat, so the answers are unaffected | Day20.GetOffsetsAsWrittenKeepsCentre | Day20.GetOffsetsMember |
| 2024/rust/src/day9.rs:208 | the search for free space runs `0..(left.len() - file_length)`, so the span ending right before the file is never tried | blocks `0 . 1` (disk map "111"), in a release build (a debug build first panics on the `usize` underflow at day9.rs:253, see Left out): file 1 is not moved into the free block before it, checksum 2 | try every start up to `left.len() - file_length` inclusive, moving file 1 left, checksum 1 | not executed | Day9.WholeFilesMissesAdjacentSpan | Day9.MoveFileLeft |
