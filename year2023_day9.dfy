/**
 * Day 9 of 2023, "Mirage Maintenance": each history of readings is extended
 * by one value, forwards in part 1 and backwards in part 2, by building the
 * table of successive differences down to a row of zeros and filling it back
 * up.
 */
module Year2023Day9 {
  import opened Wrappers
  import opened Text
  import opened PyText
  import opened Sums

  /*------------------------------------------------------------------------
    The difference table
  ------------------------------------------------------------------------*/

  /** The successive differences of a row, one shorter than the row. */
  function Differences(s: seq<int>): (d: seq<int>)
    requires |s| >= 1
    ensures |d| == |s| - 1
    ensures forall i {:trigger d[i]} :: 0 <= i < |d| ==> d[i] == s[i + 1] - s[i]
  {
    seq(|s| - 1, i requires 0 <= i < |s| - 1 => s[i + 1] - s[i])
  }

  predicate AllZero(s: seq<int>) {
    forall i :: 0 <= i < |s| ==> s[i] == 0
  }

  /** Differencing reaches a row of zeros without first shrinking to a single
      non-zero value, where the source's `assert len(previous_layer) > 1`
      fails. */
  predicate Reducible(s: seq<int>)
    decreases |s|
  {
    AllZero(s) || (|s| > 1 && Reducible(Differences(s)))
  }

  /** The histories the source extrapolates: reducible and not already all
      zero, which its `assert len(layers) > 1` rejects. */
  predicate Predictable(s: seq<int>) {
    Reducible(s) && !AllZero(s)
  }

  /** The value that continues a row: nothing follows a row of zeros but
      zero, and otherwise the last value plus the value continuing the
      differences. */
  function Next(s: seq<int>): int
    requires Reducible(s)
    decreases |s|
  {
    if AllZero(s) then 0 else s[|s| - 1] + Next(Differences(s))
  }

  /** The value that comes before a row, by the same table read at the front. */
  function Previous(s: seq<int>): int
    requires Reducible(s)
    decreases |s|
  {
    if AllZero(s) then 0 else s[0] - Previous(Differences(s))
  }

  /*------------------------------------------------------------------------
    What the extrapolation means
  ------------------------------------------------------------------------*/

  /** Extending a row by its next value extends its differences by theirs, and
      the longer row can be extended again: the new value is the one that
      keeps the whole table consistent. */
  lemma {:induction false} NextExtends(s: seq<int>)
    requires Reducible(s)
    ensures Reducible(s + [Next(s)])
    ensures |s| >= 1 && !AllZero(s) ==> Differences(s + [Next(s)]) == Differences(s) + [Next(Differences(s))]
    decreases |s|
  {
    var t := s + [Next(s)];
    if AllZero(s) {
      assert AllZero(t);
    } else {
      var d := Differences(s);
      assert Differences(t) == d + [Next(d)];
      NextExtends(d);
    }
  }

  /** Prepending the previous value prepends the differences' previous value. */
  lemma {:induction false} PreviousExtends(s: seq<int>)
    requires Reducible(s)
    ensures Reducible([Previous(s)] + s)
    ensures |s| >= 1 && !AllZero(s) ==> Differences([Previous(s)] + s) == [Previous(Differences(s))] + Differences(s)
    decreases |s|
  {
    var t := [Previous(s)] + s;
    if AllZero(s) {
      assert AllZero(t);
    } else {
      var d := Differences(s);
      assert Differences(t) == [Previous(d)] + d;
      PreviousExtends(d);
    }
  }

  /** A constant history of at least two non-zero readings continues with the
      same constant in both directions. */
  lemma {:induction false} ConstantHistory(s: seq<int>, c: int)
    requires |s| >= 2 && c != 0 && forall i :: 0 <= i < |s| ==> s[i] == c
    ensures Predictable(s) && Next(s) == c && Previous(s) == c
  {
    assert s[0] != 0;
    var d := Differences(s);
    assert AllZero(d);
  }

  /** A history that grows by a non-zero step `b` continues with the next term
      of the arithmetic progression, and is preceded by the one before. */
  lemma {:induction false} LinearHistory(s: seq<int>, a: int, b: int)
    requires |s| >= 3 && b != 0 && forall i :: 0 <= i < |s| ==> s[i] == a + b * i
    ensures Predictable(s) && Next(s) == a + b * |s| && Previous(s) == a - b
  {
    var d := Differences(s);
    forall i | 0 <= i < |d| ensures d[i] == b {
      assert s[i + 1] - s[i] == a + b * (i + 1) - (a + b * i) == b;
    }
    ConstantHistory(d, b);
    assert s[1] - s[0] == b;
    assert !AllZero(s);
  }

  /*------------------------------------------------------------------------
    Part 2 is part 1 read backwards
  ------------------------------------------------------------------------*/

  function Reverse(s: seq<int>): (r: seq<int>)
    ensures |r| == |s| && forall i {:trigger r[i]} :: 0 <= i < |s| ==> r[i] == s[|s| - 1 - i]
  {
    seq(|s|, i requires 0 <= i < |s| => s[|s| - 1 - i])
  }

  function Negate(s: seq<int>): (r: seq<int>)
    ensures |r| == |s| && forall i :: 0 <= i < |s| ==> r[i] == -s[i]
  {
    seq(|s|, i requires 0 <= i < |s| => -s[i])
  }

  /** Negating the readings negates the whole table and its extrapolation. */
  lemma {:induction false} NegateNext(s: seq<int>)
    requires Reducible(s)
    ensures Reducible(Negate(s)) && Next(Negate(s)) == -Next(s)
    decreases |s|
  {
    var n := Negate(s);
    if AllZero(s) {
      assert AllZero(n);
    } else {
      assert n[0] == -s[0];
      var d := Differences(s);
      NegateNext(d);
      assert Differences(n) == Negate(d);
    }
  }

  /** Reversing a row reverses and negates its differences. */
  lemma ReverseDifferences(s: seq<int>)
    requires |s| >= 1
    ensures Differences(Reverse(s)) == Negate(Reverse(Differences(s)))
  {
    var d := Differences(s);
    var rd := Differences(Reverse(s));
    forall i | 0 <= i < |rd| ensures rd[i] == Negate(Reverse(d))[i] {
      assert Reverse(d)[i] == d[|d| - 1 - i] == s[|s| - 1 - i] - s[|s| - 2 - i];
    }
  }

  /** The value before a history is the value after the history reversed:
      the backward extrapolation of part 2 is the forward one of part 1. */
  lemma {:induction false} PreviousIsNextReversed(s: seq<int>)
    requires Reducible(s)
    ensures Reducible(Reverse(s)) && Previous(s) == Next(Reverse(s))
    decreases |s|
  {
    var r := Reverse(s);
    if AllZero(s) {
      assert AllZero(r);
    } else {
      assert r[0] == s[|s| - 1];
      var d := Differences(s);
      PreviousIsNextReversed(d);
      ReverseDifferences(s);
      NegateNext(Reverse(d));
      assert r[|r| - 1] == s[0];
    }
  }

  /*------------------------------------------------------------------------
    The source's procedures
  ------------------------------------------------------------------------*/

  /** A history as the source passes it: a Python list that the prediction
      extends in place. */
  class History {
    var values: seq<int>

    constructor(values: seq<int>)
      ensures this.values == values
    {
      this.values := values;
    }
  }

  /** The first loop of `predict_next_value` and `predict_previous_value`:
      the rows of differences down to the first row of zeros. None is the
      failed `assert len(previous_layer) > 1`. */
  method DifferenceTable(history: seq<int>) returns (layers: Option<seq<seq<int>>>)
    ensures layers.Some? <==> Reducible(history)
    ensures layers.Some? ==> Table(history, layers.value)
  {
    var rows: seq<seq<int>> := [history];
    while !AllZero(rows[|rows| - 1])
      invariant |rows| >= 1 && rows[0] == history
      invariant forall k :: 0 <= k < |rows| - 1 ==> |rows[k]| >= 1 && !AllZero(rows[k]) && rows[k + 1] == Differences(rows[k])
      invariant forall k :: 0 <= k < |rows| ==> (Reducible(rows[k]) <==> Reducible(rows[|rows| - 1]))
      decreases |rows[|rows| - 1]|
    {
      var previousLayer := rows[|rows| - 1];
      if |previousLayer| <= 1 {
        return None;
      }
      rows := rows + [Differences(previousLayer)];
    }
    return Some(rows);
  }

  /** `layers` is the difference table of `history`: it starts with the
      history, each row is the differences of the one above, and only the
      last row is all zero. */
  ghost predicate Table(history: seq<int>, layers: seq<seq<int>>) {
    |layers| >= 1 && layers[0] == history && AllZero(layers[|layers| - 1]) &&
    (forall k :: 0 <= k < |layers| ==> Reducible(layers[k])) &&
    forall k :: 0 <= k < |layers| - 1 ==> |layers[k]| >= 1 && !AllZero(layers[k]) && layers[k + 1] == Differences(layers[k])
  }

  /** `predict_next_value`: the history gains its next value, which is
      returned. None is the source's AssertionError, which leaves the history
      as it was. */
  method PredictNextValue(history: History) returns (r: Option<int>)
    modifies history
    ensures r.Some? <==> Predictable(old(history.values))
    ensures r.Some? ==> r.value == Next(old(history.values)) && history.values == old(history.values) + [r.value]
    ensures r.None? ==> history.values == old(history.values)
  {
    var table := DifferenceTable(history.values);
    if table.None? || |table.value| <= 1 {
      return None;
    }
    ghost var rows := table.value;
    var layers := table.value;
    layers := layers[|layers| - 1 := layers[|layers| - 1] + [0]];
    var nextValue := 0;
    var i := |layers| - 1;
    while i > 0
      invariant 0 <= i < |layers| == |rows|
      invariant forall k :: 0 <= k < i ==> layers[k] == rows[k]
      invariant forall k :: i <= k < |rows| ==> layers[k] == rows[k] + [Next(rows[k])]
      invariant nextValue == Next(rows[i])
    {
      nextValue := layers[i - 1][|layers[i - 1]| - 1] + layers[i][|layers[i]| - 1];
      layers := layers[i - 1 := layers[i - 1] + [nextValue]];
      i := i - 1;
    }
    history.values := layers[0];
    return Some(nextValue);
  }

  /** `predict_previous_value`: the history gains the value before its first,
      which is returned. None is the source's AssertionError. */
  method PredictPreviousValue(history: History) returns (r: Option<int>)
    modifies history
    ensures r.Some? <==> Predictable(old(history.values))
    ensures r.Some? ==> r.value == Previous(old(history.values)) && history.values == [r.value] + old(history.values)
    ensures r.None? ==> history.values == old(history.values)
  {
    var table := DifferenceTable(history.values);
    if table.None? || |table.value| <= 1 {
      return None;
    }
    ghost var rows := table.value;
    var layers := table.value;
    layers := layers[|layers| - 1 := [0] + layers[|layers| - 1]];
    var previousValue := 0;
    var i := |layers| - 1;
    while i > 0
      invariant 0 <= i < |layers| == |rows|
      invariant forall k :: 0 <= k < i ==> layers[k] == rows[k]
      invariant forall k :: i <= k < |rows| ==> layers[k] == [Previous(rows[k])] + rows[k]
      invariant previousValue == Previous(rows[i])
    {
      previousValue := layers[i - 1][0] - layers[i][0];
      layers := layers[i - 1 := [previousValue] + layers[i - 1]];
      i := i - 1;
    }
    history.values := layers[0];
    return Some(previousValue);
  }

  /*------------------------------------------------------------------------
    Parsing and the two parts
  ------------------------------------------------------------------------*/

  /** `get_input`: the integers of each line, split at white space. */
  function ParseHistories(text: string): Option<seq<seq<int>>> {
    var lines := Lines(text);
    Collect(seq(|lines|, i requires 0 <= i < |lines| => PyInts(PyWords(lines[i]))))
  }

  predicate AllPredictable(histories: seq<seq<int>>) {
    forall i :: 0 <= i < |histories| ==> Predictable(histories[i])
  }

  function NextValues(histories: seq<seq<int>>): (r: seq<int>)
    requires AllPredictable(histories)
  {
    seq(|histories|, i requires 0 <= i < |histories| => Next(histories[i]))
  }

  function PreviousValues(histories: seq<seq<int>>): (r: seq<int>)
    requires AllPredictable(histories)
  {
    seq(|histories|, i requires 0 <= i < |histories| => Previous(histories[i]))
  }

  /** The list comprehension of part 1 `main`: each history's next value,
      each history extended in a list of its own. None is the first history
      the source's assertions reject. */
  method PredictNextValues(histories: seq<seq<int>>) returns (r: Option<seq<int>>)
    ensures r.Some? <==> AllPredictable(histories)
    ensures r.Some? ==> r.value == NextValues(histories)
  {
    var nextValues: seq<int> := [];
    for i := 0 to |histories|
      invariant AllPredictable(histories[..i])
      invariant nextValues == NextValues(histories[..i])
    {
      var history := new History(histories[i]);
      var value := PredictNextValue(history);
      if value.None? {
        assert !AllPredictable(histories) by {
          assert !Predictable(histories[i]);
        }
        return None;
      }
      ValuesStep(histories, i);
      nextValues := nextValues + [value.value];
    }
    assert histories[..|histories|] == histories;
    return Some(nextValues);
  }

  /** The same for part 2's previous values. */
  method PredictPreviousValues(histories: seq<seq<int>>) returns (r: Option<seq<int>>)
    ensures r.Some? <==> AllPredictable(histories)
    ensures r.Some? ==> r.value == PreviousValues(histories)
  {
    var previousValues: seq<int> := [];
    for i := 0 to |histories|
      invariant AllPredictable(histories[..i])
      invariant previousValues == PreviousValues(histories[..i])
    {
      var history := new History(histories[i]);
      var value := PredictPreviousValue(history);
      if value.None? {
        assert !AllPredictable(histories) by {
          assert !Predictable(histories[i]);
        }
        return None;
      }
      ValuesStep(histories, i);
      previousValues := previousValues + [value.value];
    }
    assert histories[..|histories|] == histories;
    return Some(previousValues);
  }

  /** One more predictable history adds its values at the end. */
  lemma {:induction false} ValuesStep(histories: seq<seq<int>>, i: nat)
    requires i < |histories| && AllPredictable(histories[..i]) && Predictable(histories[i])
    ensures AllPredictable(histories[..i + 1])
    ensures NextValues(histories[..i + 1]) == NextValues(histories[..i]) + [Next(histories[i])]
    ensures PreviousValues(histories[..i + 1]) == PreviousValues(histories[..i]) + [Previous(histories[i])]
  {
    assert histories[..i + 1] == histories[..i] + [histories[i]];
  }

  /** Part 1 `main`: the sum of the predicted next values. None is a line that
      does not parse or a history the source's assertions reject. */
  method Part1(text: string) returns (r: Option<int>)
    ensures r.Some? <==> ParseHistories(text).Some? && AllPredictable(ParseHistories(text).value)
    ensures r.Some? ==> r.value == SeqSum(NextValues(ParseHistories(text).value))
  {
    var parsed := ParseHistories(text);
    if parsed.None? {
      return None;
    }
    var nextValues := PredictNextValues(parsed.value);
    if nextValues.None? {
      return None;
    }
    return Some(SeqSum(nextValues.value));
  }

  /** Part 2 `main`: the sum of the predicted previous values. */
  method Part2(text: string) returns (r: Option<int>)
    ensures r.Some? <==> ParseHistories(text).Some? && AllPredictable(ParseHistories(text).value)
    ensures r.Some? ==> r.value == SeqSum(PreviousValues(ParseHistories(text).value))
  {
    var parsed := ParseHistories(text);
    if parsed.None? {
      return None;
    }
    var previousValues := PredictPreviousValues(parsed.value);
    if previousValues.None? {
      return None;
    }
    return Some(SeqSum(previousValues.value));
  }

  /*------------------------------------------------------------------------
    The puzzle's example
  ------------------------------------------------------------------------*/

  /** The example's first history, 0 3 6 9 12 15, is arithmetic: 18 comes
      next and -3 before. */
  lemma {:induction false} ExampleFirst()
    ensures Predictable([0, 3, 6, 9, 12, 15])
    ensures Next([0, 3, 6, 9, 12, 15]) == 18 && Previous([0, 3, 6, 9, 12, 15]) == -3
  {
    var s := [0, 3, 6, 9, 12, 15];
    LinearHistory(s, 0, 3);
  }

  /** 1 3 6 10 15 21 has differences 2 3 4 5 6: 28 comes next and 0 before. */
  lemma {:induction false} ExampleSecond()
    ensures Predictable([1, 3, 6, 10, 15, 21])
    ensures Next([1, 3, 6, 10, 15, 21]) == 28 && Previous([1, 3, 6, 10, 15, 21]) == 0
  {
    var s := [1, 3, 6, 10, 15, 21];
    var d := Differences(s);
    assert d == [2, 3, 4, 5, 6];
    LinearHistory(d, 2, 1);
    assert s[0] != 0;
  }

  /** 10 13 16 21 30 45 has differences 3 3 5 9 15, then 0 2 4 6: 68 comes
      next and 5 before. */
  lemma {:induction false} ExampleThird()
    ensures Predictable([10, 13, 16, 21, 30, 45])
    ensures Next([10, 13, 16, 21, 30, 45]) == 68 && Previous([10, 13, 16, 21, 30, 45]) == 5
  {
    var s := [10, 13, 16, 21, 30, 45];
    var d := Differences(s);
    assert d == [3, 3, 5, 9, 15];
    var dd := Differences(d);
    assert dd == [0, 2, 4, 6];
    LinearHistory(dd, 0, 2);
    assert s[0] != 0 && d[0] != 0;
  }

  /** The example's three histories can all be extrapolated. */
  lemma {:induction false} ExamplePredictable(h: seq<seq<int>>)
    requires h == [[0, 3, 6, 9, 12, 15], [1, 3, 6, 10, 15, 21], [10, 13, 16, 21, 30, 45]]
    ensures AllPredictable(h)
  {
    forall i | 0 <= i < |h| ensures Predictable(h[i]) {
      if i == 0 {
        ExampleFirst();
      } else if i == 1 {
        ExampleSecond();
      } else {
        ExampleThird();
      }
    }
  }

  /** Their next values 18, 28 and 68 sum to 114. */
  lemma {:induction false} ExamplePart1(h: seq<seq<int>>)
    requires h == [[0, 3, 6, 9, 12, 15], [1, 3, 6, 10, 15, 21], [10, 13, 16, 21, 30, 45]]
    ensures AllPredictable(h) && SeqSum(NextValues(h)) == 114
  {
    ExamplePredictable(h);
    ExampleFirst();
    ExampleSecond();
    ExampleThird();
    var n := NextValues(h);
    assert n[0] == 18 && n[1] == 28 && n[2] == 68;
    SumOfThree(n);
  }

  /** Their previous values -3, 0 and 5 sum to 2. */
  lemma {:induction false} ExamplePart2(h: seq<seq<int>>)
    requires h == [[0, 3, 6, 9, 12, 15], [1, 3, 6, 10, 15, 21], [10, 13, 16, 21, 30, 45]]
    ensures AllPredictable(h) && SeqSum(PreviousValues(h)) == 2
  {
    ExamplePredictable(h);
    ExampleFirst();
    ExampleSecond();
    ExampleThird();
    var p := PreviousValues(h);
    assert p[0] == -3 && p[1] == 0 && p[2] == 5;
    SumOfThree(p);
  }

  lemma SumOfThree(s: seq<int>)
    requires |s| == 3
    ensures SeqSum(s) == s[0] + s[1] + s[2]
  {
    var two := s[..2];
    var one := two[..1];
    assert one[..0] == [];
    assert SeqSum(one) == s[0];
    assert SeqSum(two) == s[0] + s[1];
    assert s[..|s| - 1] == two;
  }
}
