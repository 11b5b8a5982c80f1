/**
 * Day 1 of 2023, "Trebuchet?!", part 1: each line of the calibration document
 * hides a two-digit value made of its first and its last digit; the answer is
 * the sum of those values.
 */
module Year2023Day1 {
  import opened Wrappers
  import opened Text

  /** `regex_digits.findall`: the values of the line's ASCII digits '0' to '9',
      in order. */
  function Digits(text: string): (ds: seq<nat>)
    ensures forall i :: 0 <= i < |ds| ==> ds[i] < 10
    ensures |ds| <= |text|
  {
    if text == [] then []
    else (if IsDigit(text[0]) then [DigitValue(text[0])] else []) + Digits(text[1..])
  }

  /** `get_calibration_value`: ten times the first digit plus the last one. None
      stands for the IndexError a line without digits raises; the AttributeError
      handler never runs, because `findall` always returns a list. */
  function CalibrationValue(text: string): (r: Option<nat>)
    ensures r.Some? <==> exists i :: 0 <= i < |text| && IsDigit(text[i])
    ensures r.Some? ==> r.value < 100
  {
    DigitsExist(text);
    var ds := Digits(text);
    if ds == [] then None else Some(10 * ds[0] + ds[|ds| - 1])
  }

  /** A line has a digit exactly when it yields a digit value. */
  lemma {:induction false} DigitsExist(text: string)
    ensures Digits(text) != [] <==> exists i :: 0 <= i < |text| && IsDigit(text[i])
  {
    if text != [] {
      DigitsExist(text[1..]);
      if exists i :: 0 <= i < |text[1..]| && IsDigit(text[1..][i]) {
        var i :| 0 <= i < |text[1..]| && IsDigit(text[1..][i]);
        assert IsDigit(text[i + 1]);
      }
      if exists i :: 0 <= i < |text| && IsDigit(text[i]) {
        var i :| 0 <= i < |text| && IsDigit(text[i]);
        if i > 0 {
          assert IsDigit(text[1..][i - 1]);
        }
      }
    }
  }

  /** The digit values of a line without digits before `i`, whose `i`-th
      character is a digit, start with that digit. */
  lemma {:induction false} DigitsFirst(text: string, i: nat)
    requires i < |text| && IsDigit(text[i])
    requires forall k :: 0 <= k < i ==> !IsDigit(text[k])
    ensures Digits(text) != [] && Digits(text)[0] == DigitValue(text[i])
  {
    if i > 0 {
      DigitsFirst(text[1..], i - 1);
    }
  }

  /** The digit values of a line with no digits after `j`, whose `j`-th
      character is a digit, end with that digit. */
  lemma {:induction false} DigitsLast(text: string, j: nat)
    requires j < |text| && IsDigit(text[j])
    requires forall k :: j < k < |text| ==> !IsDigit(text[k])
    ensures Digits(text) != [] && Digits(text)[|Digits(text)| - 1] == DigitValue(text[j])
  {
    if j > 0 {
      DigitsLast(text[1..], j - 1);
    } else {
      NoDigits(text[1..]);
    }
  }

  lemma {:induction false} NoDigits(text: string)
    requires forall k :: 0 <= k < |text| ==> !IsDigit(text[k])
    ensures Digits(text) == []
  {
    if text != [] {
      NoDigits(text[1..]);
    }
  }

  /** The calibration value is made of the first and the last digit character
      of the line: the same one twice when the line has a single digit. */
  lemma CalibrationFirstLast(text: string, i: nat, j: nat)
    requires i < |text| && IsDigit(text[i]) && forall k :: 0 <= k < i ==> !IsDigit(text[k])
    requires j < |text| && IsDigit(text[j]) && forall k :: j < k < |text| ==> !IsDigit(text[k])
    ensures CalibrationValue(text) == Some(10 * DigitValue(text[i]) + DigitValue(text[j]))
  {
    DigitsFirst(text, i);
    DigitsLast(text, j);
  }

  /** The puzzle's example lines: two digits at the ends, digits inside other
      characters, and a single digit used twice. */
  lemma ExampleEnds()
    ensures CalibrationValue("1abc2") == Some(12)
  {
    CalibrationFirstLast("1abc2", 0, 4);
  }

  lemma ExampleInside()
    ensures CalibrationValue("pqr3stu8vwx") == Some(38)
  {
    CalibrationFirstLast("pqr3stu8vwx", 3, 7);
  }

  lemma ExampleMany()
    ensures CalibrationValue("a1b2c3d4e5f") == Some(15)
  {
    CalibrationFirstLast("a1b2c3d4e5f", 1, 9);
  }

  lemma ExampleSingle()
    ensures CalibrationValue("treb7uchet") == Some(77)
  {
    CalibrationFirstLast("treb7uchet", 4, 4);
  }

  /** The sum over the lines, or None when a line has no digit (the uncaught
      IndexError ends the program). */
  function SumValues(lines: seq<string>): (r: Option<nat>)
    ensures r.Some? <==> forall k :: 0 <= k < |lines| ==> CalibrationValue(lines[k]).Some?
    ensures r.Some? ==> r.value <= 99 * |lines|
  {
    if lines == [] then Some(0)
    else
      match (CalibrationValue(lines[0]), SumValues(lines[1..]))
      case (Some(v), Some(rest)) => Some(v + rest)
      case _ => None
  }

  /** `main`: the sum of the calibration values of every line of the document. */
  function SumDocument(document: string): Option<nat> {
    SumValues(Lines(document))
  }
}
