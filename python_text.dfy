/**
 * The Python string operations the 2023 solutions parse their input with:
 * `str.strip()`, `str.split()` with no separator, and `int()` on a string.
 */
module PyText {
  import opened Wrappers
  import opened Text

  /** The characters `str.isspace` accepts: Rust's white space plus the four
      information separators U+001C to U+001F. */
  const PyWhitespace: set<char> := Whitespace + {'\U{001C}', '\U{001D}', '\U{001E}', '\U{001F}'}

  /** `str.lstrip()`. */
  function StripLeft(s: string): (r: string)
    ensures |r| <= |s| && r == s[|s| - |r|..]
    ensures |r| > 0 ==> r[0] !in PyWhitespace
    ensures forall i :: 0 <= i < |s| - |r| ==> s[i] in PyWhitespace
  {
    if |s| > 0 && s[0] in PyWhitespace then StripLeft(s[1..]) else s
  }

  /** `str.rstrip()`. */
  function StripRight(s: string): (r: string)
    ensures |r| <= |s| && r == s[..|r|]
    ensures |r| > 0 ==> r[|r| - 1] !in PyWhitespace
    ensures forall i :: |r| <= i < |s| ==> s[i] in PyWhitespace
  {
    if |s| > 0 && s[|s| - 1] in PyWhitespace then StripRight(s[..|s| - 1]) else s
  }

  /** `str.strip()`: white space removed from both ends. */
  function Strip(s: string): string {
    StripRight(StripLeft(s))
  }

  /** A string with no white space at either end is its own strip. */
  lemma StripKeeps(s: string)
    requires |s| > 0 ==> s[0] !in PyWhitespace && s[|s| - 1] !in PyWhitespace
    ensures Strip(s) == s
  {
  }

  /** `str.split()` with no separator: the non-empty runs between white space. */
  function PyWords(s: string): (r: seq<string>)
    ensures forall i :: 0 <= i < |r| ==> |r[i]| > 0
  {
    NonEmpty(SplitAny(s, PyWhitespace))
  }

  /** `int(s)` on a string of ASCII characters: surrounding white space is
      ignored, then an optional sign and at least one digit '0' to '9'. None
      stands for the ValueError. Underscores between digits and non-ASCII
      decimal digits, which `int` also accepts, give None here. */
  function PyInt(s: string): Option<int> {
    ParseInt(Strip(s))
  }

  /** A plain run of decimal digits reads as its decimal value. */
  lemma PyIntDigits(s: string)
    requires |s| > 0 && AllDigits(s)
    ensures PyInt(s) == Some(DecimalValue(s) as int)
  {
    assert s[0] !in PyWhitespace && s[|s| - 1] !in PyWhitespace by {
      assert IsDigit(s[0]) && IsDigit(s[|s| - 1]);
    }
    StripKeeps(s);
  }

  /** `[int(x) for x in words]`: all or nothing. */
  function PyInts(words: seq<string>): (r: Option<seq<int>>)
    ensures r.Some? ==> |r.value| == |words|
  {
    CollectMap(PyInt, words)
  }

  /** The list converts exactly when every word does. */
  lemma PyIntsSome(words: seq<string>)
    ensures PyInts(words).Some? <==> forall i :: 0 <= i < |words| ==> PyInt(words[i]).Some?
  {
    CollectMapSome(PyInt, words);
  }

  /** A converted list holds the conversion of each word at its position. */
  lemma PyIntsValues(words: seq<string>)
    requires PyInts(words).Some?
    ensures forall i :: 0 <= i < |words| ==> Some(PyInts(words).value[i]) == PyInt(words[i])
  {
    CollectMapValues(PyInt, words);
  }

  /** Printing an integer and reading it back with `int()` gives the integer. */
  lemma PyIntRoundTrip(x: int)
    ensures PyInt(IntString(x)) == Some(x)
  {
    var s := IntString(x);
    assert s[0] !in PyWhitespace && s[|s| - 1] !in PyWhitespace by {
      assert s[0] == '-' || IsDigit(s[0]);
      assert s[|s| - 1] == '-' || IsDigit(s[|s| - 1]);
    }
    StripKeeps(s);
    IntRoundTrip(x);
  }
}
