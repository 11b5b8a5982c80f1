/**
 * 2024 day 7, Bridge Repair: each calibration equation is a test value and a
 * list of numbers. It can be true when some choice of operators, evaluated
 * strictly left to right, turns the numbers into the test value. Part 1 allows
 * `+` and `*`; part 2 also allows `||`, which writes the digits of the right
 * number after those of the left one.
 */
module Day7 {
  import opened Wrappers
  import opened Text

  datatype Operator = Add | Multiply | Concatenate

  /** What `||` may be applied to: a term (and an accumulator, if any) that
      prints as plain digits; a '-' in the middle of the digits would make the
      source's `parse().unwrap()` panic. */
  predicate Applicable(op: Operator, acc: Option<int>, term: int) {
    op == Concatenate ==> term >= 0 && (acc.Some? ==> acc.value >= 0)
  }

  /** `||`: the decimal digits of the accumulator (none when there is none)
      followed by those of the term, read back as a number. */
  function Concat(acc: Option<int>, term: int): (r: int)
    requires Applicable(Concatenate, acc, term)
    ensures acc.None? ==> r == term
    ensures acc.Some? ==> r == acc.value * Pow10(|DecimalString(term)|) + term
  {
    DecimalRoundTrip(term);
    match acc
    case None =>
      assert "" + DecimalString(term) == DecimalString(term);
      DecimalValue("" + DecimalString(term))
    case Some(a) =>
      DecimalValueAppend(DecimalString(a), DecimalString(term));
      DecimalRoundTrip(a);
      DecimalValue(DecimalString(a) + DecimalString(term))
  }

  /** The operators `add`, `multiply` and `concatenate`; with no accumulator
      yet, each gives the term itself. */
  function Apply(op: Operator, acc: Option<int>, term: int): (r: int)
    requires Applicable(op, acc, term)
    ensures acc.None? ==> r == term
    ensures term >= 0 && (acc.Some? ==> acc.value >= 0) ==> r >= 0
  {
    match op
    case Add => (if acc.Some? then acc.value else 0) + term
    case Multiply => (if acc.Some? then acc.value else 1) * term
    case Concatenate => Concat(acc, term)
  }

  /** The operators may be applied all the way along: `||` only over
      non-negative numbers. */
  predicate Admissible(terms: seq<int>, acc: Option<int>, ops: seq<Operator>) {
    Concatenate in ops ==> (forall i :: 0 <= i < |terms| ==> terms[i] >= 0) && (acc.Some? ==> acc.value >= 0)
  }

  /** `validate_equation`: with no terms left the accumulator must equal the
      result (the source unwraps it, so it must exist); otherwise one of the
      operators, applied to the first term, must lead to a valid rest. */
  predicate Validate(result: int, terms: seq<int>, acc: Option<int>, ops: seq<Operator>)
    requires acc.Some? || |terms| > 0
    requires Admissible(terms, acc, ops)
    decreases |terms|
  {
    if |terms| == 0 then result == acc.value
    else
      exists k :: 0 <= k < |ops| &&
        Validate(result, terms[1..], Some(Apply(ops[k], acc, terms[0])), ops)
  }

  /** The value of the terms under a given choice of operators, left to right. */
  function Evaluate(acc: Option<int>, terms: seq<int>, choice: seq<Operator>): int
    requires acc.Some? || |terms| > 0
    requires |choice| == |terms|
    requires Admissible(terms, acc, choice)
    decreases |terms|
  {
    if |terms| == 0 then acc.value
    else Evaluate(Some(Apply(choice[0], acc, terms[0])), terms[1..], choice[1..])
  }

  predicate Drawn(choice: seq<Operator>, ops: seq<Operator>) {
    forall i :: 0 <= i < |choice| ==> choice[i] in ops
  }

  /** Some choice of the allowed operators makes the equation true. */
  ghost predicate Solvable(result: int, terms: seq<int>, acc: Option<int>, ops: seq<Operator>)
    requires acc.Some? || |terms| > 0
    requires Admissible(terms, acc, ops)
  {
    exists choice :: |choice| == |terms| && Drawn(choice, ops) &&
      Evaluate(acc, terms, choice) == result
  }

  /** The recursive search finds an operator choice exactly when there is one. */
  lemma ValidateIffSolvable(result: int, terms: seq<int>, acc: Option<int>, ops: seq<Operator>)
    requires acc.Some? || |terms| > 0
    requires Admissible(terms, acc, ops)
    ensures Validate(result, terms, acc, ops) <==> Solvable(result, terms, acc, ops)
  {
    if Validate(result, terms, acc, ops) {
      ValidateSolvable(result, terms, acc, ops);
    }
    if Solvable(result, terms, acc, ops) {
      var choice :| |choice| == |terms| && Drawn(choice, ops) && Evaluate(acc, terms, choice) == result;
      SolvableValidate(result, terms, acc, ops, choice);
    }
  }

  /** A successful search yields an operator choice. */
  lemma {:induction false} ValidateSolvable(result: int, terms: seq<int>, acc: Option<int>, ops: seq<Operator>)
    requires acc.Some? || |terms| > 0
    requires Admissible(terms, acc, ops)
    requires Validate(result, terms, acc, ops)
    ensures Solvable(result, terms, acc, ops)
    decreases |terms|
  {
    if |terms| == 0 {
      var none: seq<Operator> := [];
      assert Evaluate(acc, terms, none) == acc.value;
    } else {
      var k :| 0 <= k < |ops| && Validate(result, terms[1..], Some(Apply(ops[k], acc, terms[0])), ops);
      var next := Some(Apply(ops[k], acc, terms[0]));
      ValidateSolvable(result, terms[1..], next, ops);
      var rest :| |rest| == |terms| - 1 && Drawn(rest, ops) && Evaluate(next, terms[1..], rest) == result;
      var choice := [ops[k]] + rest;
      assert choice[1..] == rest;
      assert Evaluate(acc, terms, choice) == result;
    }
  }

  /** Every operator choice that works is found by the search. */
  lemma {:induction false} SolvableValidate(result: int, terms: seq<int>, acc: Option<int>, ops: seq<Operator>, choice: seq<Operator>)
    requires acc.Some? || |terms| > 0
    requires Admissible(terms, acc, ops)
    requires |choice| == |terms| && Drawn(choice, ops) && Evaluate(acc, terms, choice) == result
    ensures Validate(result, terms, acc, ops)
    decreases |terms|
  {
    if |terms| > 0 {
      var k :| 0 <= k < |ops| && ops[k] == choice[0];
      var next := Some(Apply(ops[k], acc, terms[0]));
      assert Drawn(choice[1..], ops);
      assert Evaluate(next, terms[1..], choice[1..]) == result;
      SolvableValidate(result, terms[1..], next, ops, choice[1..]);
    }
  }

  /** More operators never invalidate an equation. */
  lemma MoreOperators(result: int, terms: seq<int>, acc: Option<int>, ops: seq<Operator>, more: seq<Operator>)
    requires acc.Some? || |terms| > 0
    requires Admissible(terms, acc, ops) && Admissible(terms, acc, more)
    requires forall op :: op in ops ==> op in more
    requires Validate(result, terms, acc, ops)
    ensures Validate(result, terms, acc, more)
  {
    ValidateIffSolvable(result, terms, acc, ops);
    var choice :| |choice| == |terms| && Drawn(choice, ops) && Evaluate(acc, terms, choice) == result;
    assert Drawn(choice, more);
    ValidateIffSolvable(result, terms, acc, more);
  }

  /** The part 1 example that needs no `||`: 190 = 10 * 19. */
  lemma Example190()
    ensures Validate(190, [10, 19], None, [Add, Multiply])
  {
    var ops := [Add, Multiply];
    var last: seq<int> := [19];
    assert last[1..] == [];
    assert Validate(190, last[1..], Some(Apply(ops[1], Some(10), 19)), ops);
    assert Validate(190, last, Some(10), ops);
    var both: seq<int> := [10, 19];
    assert both[1..] == last;
    assert Validate(190, both[1..], Some(Apply(ops[0], None, 10)), ops);
  }

  /** The part 2 example 156 = 15 || 6, which `+` and `*` cannot reach. */
  lemma Example156()
    ensures Validate(156, [15, 6], None, [Add, Multiply, Concatenate])
    ensures !Validate(156, [15, 6], None, [Add, Multiply])
  {
    assert DecimalString(6) == "6";
    assert Apply(Concatenate, Some(15), 6) == 156;
    assert Validate(156, [], Some(156), [Add, Multiply, Concatenate]);
    assert Validate(156, [6], Some(15), [Add, Multiply, Concatenate]);
    assert !Validate(156, [6], Some(15), [Add, Multiply]);
  }

  /** `parse_input_file` for one line: the pieces between ':' and ' ' are the
      test value, an empty piece (after the colon) that is skipped, and the
      numbers. A value that does not parse makes the source panic: None. */
  function ParseEquation(line: string): (r: Option<(int, seq<int>)>)
    ensures r.Some? ==> Some(r.value.0) == ParseInt(SplitAny(line, {':', ' '})[0])
  {
    var parts := SplitAny(line, {':', ' '});
    match ParseInt(parts[0])
    case None => None
    case Some(result) =>
      match ParseInts(if |parts| < 2 then [] else parts[2..])
      case None => None
      case Some(terms) => Some((result, terms))
  }

  /** An equation printed as "R: t1 t2 ..." parses back to itself. */
  lemma ParseEquationRoundTrip(result: int, terms: seq<int>)
    requires |terms| > 0
    ensures ParseEquation(IntString(result) + ": " + Join(IntStrings(terms), " ")) == Some((result, terms))
  {
    var parts := IntStrings(terms);
    var line := IntString(result) + ": " + Join(parts, " ");
    assert SplitAny(line, {':', ' '}) == [IntString(result), []] + parts by {
      PrintedChars(terms);
      SplitEquation(IntString(result), parts);
    }
    assert ParseInt(IntString(result)) == Some(result) by {
      IntRoundTrip(result);
    }
    assert ParseInts(parts) == Some(terms) by {
      IntsRoundTrip(terms);
    }
    assert ([IntString(result), []] + parts)[2..] == parts;
  }

  lemma PrintedChars(values: seq<int>)
    ensures forall i, j :: 0 <= i < |values| && 0 <= j < |IntStrings(values)[i]| ==>
      IntStrings(values)[i][j] == '-' || IsDigit(IntStrings(values)[i][j])
  {
    var parts := IntStrings(values);
    forall i, j | 0 <= i < |parts| && 0 <= j < |parts[i]|
      ensures parts[i][j] == '-' || IsDigit(parts[i][j])
    {
      assert parts[i] == IntString(values[i]);
    }
  }

  lemma SplitEquation(head: string, parts: seq<string>)
    requires |parts| > 0
    requires forall j :: 0 <= j < |head| ==> head[j] == '-' || IsDigit(head[j])
    requires forall i, j :: 0 <= i < |parts| && 0 <= j < |parts[i]| ==> parts[i][j] == '-' || IsDigit(parts[i][j])
    ensures SplitAny(head + ": " + Join(parts, " "), {':', ' '}) == [head, []] + parts
  {
    var body := Join(parts, " ");
    SplitAfterHead(head, body);
    SplitAfterBlank(parts);
    assert [head] + ([[]] + parts) == [head, []] + parts;
  }

  lemma SplitAfterHead(head: string, body: string)
    requires forall j :: 0 <= j < |head| ==> head[j] == '-' || IsDigit(head[j])
    ensures SplitAny(head + ": " + body, {':', ' '}) == [head] + SplitAny([' '] + body, {':', ' '})
  {
    var rest := [' '] + body;
    assert head + ": " + body == head + [':'] + rest by {
      assert ": " == [':'] + [' '];
    }
    assert SplitAny(head + [':'] + rest, {':', ' '}) == [head] + SplitAny(rest, {':', ' '}) by {
      NumberNoSeparator(head);
      SplitAnyAfter(head, ':', rest, {':', ' '});
    }
  }

  lemma SplitAfterBlank(parts: seq<string>)
    requires |parts| > 0
    requires forall i, j :: 0 <= i < |parts| && 0 <= j < |parts[i]| ==> parts[i][j] == '-' || IsDigit(parts[i][j])
    ensures SplitAny([' '] + Join(parts, " "), {':', ' '}) == [[]] + parts
  {
    var body := Join(parts, " ");
    assert [] + [' '] + body == [' '] + body;
    SplitAnyAfter([], ' ', body, {':', ' '});
    NumbersNoSeparator(parts);
    SplitAnyJoin(parts, ' ', {':', ' '});
  }

  /** A printed number holds neither ':' nor ' '. */
  lemma NumberNoSeparator(s: string)
    requires forall j :: 0 <= j < |s| ==> s[j] == '-' || IsDigit(s[j])
    ensures forall j :: 0 <= j < |s| ==> s[j] !in {':', ' '}
  {
    forall j | 0 <= j < |s| ensures s[j] !in {':', ' '} {
      assert s[j] == '-' || IsDigit(s[j]);
    }
  }

  lemma NumbersNoSeparator(parts: seq<string>)
    requires forall i, j :: 0 <= i < |parts| && 0 <= j < |parts[i]| ==> parts[i][j] == '-' || IsDigit(parts[i][j])
    ensures forall i, j :: 0 <= i < |parts| && 0 <= j < |parts[i]| ==> parts[i][j] !in {':', ' '}
  {
    forall i, j | 0 <= i < |parts| && 0 <= j < |parts[i]| ensures parts[i][j] !in {':', ' '} {
      assert parts[i][j] == '-' || IsDigit(parts[i][j]);
    }
  }

  /** Every line parsed, or None when one of them fails to. */
  function ParseInput(lines: seq<string>): (r: Option<seq<(int, seq<int>)>>)
    ensures r.Some? ==> |r.value| == |lines|
    ensures r.Some? <==> forall i :: 0 <= i < |lines| ==> ParseEquation(lines[i]).Some?
    ensures r.Some? ==> forall i :: 0 <= i < |lines| ==> r.value[i] == ParseEquation(lines[i]).value
  {
    if |lines| == 0 then Some([])
    else
      match (ParseInput(lines[..|lines| - 1]), ParseEquation(lines[|lines| - 1]))
      case (Some(rest), Some(e)) => Some(rest + [e])
      case _ => None
  }

  /** Every equation has a number to start from and may take these operators. */
  predicate Checkable(equations: seq<(int, seq<int>)>, ops: seq<Operator>) {
    forall i :: 0 <= i < |equations| ==> |equations[i].1| > 0 && Admissible(equations[i].1, None, ops)
  }

  /** The sum of the test values of the equations that can be made true. */
  function CalibrationSum(equations: seq<(int, seq<int>)>, ops: seq<Operator>): int
    requires Checkable(equations, ops)
  {
    if |equations| == 0 then 0
    else
      var (result, terms) := equations[|equations| - 1];
      CalibrationSum(equations[..|equations| - 1], ops) +
        (if Validate(result, terms, None, ops) then result else 0)
  }

  /** `part1`: None when a line does not parse or has no numbers (the source panics). */
  function Part1(input: string): (r: Option<int>)
    ensures r.Some? ==> ParseInput(Lines(input)).Some?
  {
    match ParseInput(Lines(input))
    case None => None
    case Some(equations) =>
      if Checkable(equations, [Add, Multiply]) then Some(CalibrationSum(equations, [Add, Multiply]))
      else None
  }

  /** `part2`: as part 1 with `||` allowed as well; an equation with a negative
      number is treated as a panic. */
  function Part2(input: string): (r: Option<int>)
    ensures r.Some? ==> Part1(input).Some?
  {
    match ParseInput(Lines(input))
    case None => None
    case Some(equations) =>
      if Checkable(equations, [Add, Multiply, Concatenate]) then
        Some(CalibrationSum(equations, [Add, Multiply, Concatenate]))
      else None
  }

  /** With non-negative test values, allowing `||` can only add to the sum. */
  lemma {:induction false} ConcatenationOnlyAdds(equations: seq<(int, seq<int>)>)
    requires Checkable(equations, [Add, Multiply, Concatenate])
    requires forall i :: 0 <= i < |equations| ==> equations[i].0 >= 0
    ensures Checkable(equations, [Add, Multiply])
    ensures CalibrationSum(equations, [Add, Multiply]) <= CalibrationSum(equations, [Add, Multiply, Concatenate])
    decreases |equations|
  {
    if |equations| > 0 {
      var init := equations[..|equations| - 1];
      ConcatenationOnlyAdds(init);
      var (result, terms) := equations[|equations| - 1];
      if Validate(result, terms, None, [Add, Multiply]) {
        MoreOperators(result, terms, None, [Add, Multiply], [Add, Multiply, Concatenate]);
      }
    }
  }

  lemma Part1AtMostPart2(input: string)
    requires Part2(input).Some?
    requires forall i :: 0 <= i < |ParseInput(Lines(input)).value| ==> ParseInput(Lines(input)).value[i].0 >= 0
    ensures Part1(input).Some? && Part1(input).value <= Part2(input).value
  {
    ConcatenationOnlyAdds(ParseInput(Lines(input)).value);
  }
}
