/**
 * The text helpers the puzzle parsers rely on: Rust's `str::lines`, splitting on
 * a separator, joining, and decimal digits.
 */
module Text {
  import opened Wrappers

  /** Position of the first `c` in `s`, or `|s|` when `c` does not occur. */
  function IndexOf(s: string, c: char): (k: nat)
    ensures k <= |s|
    ensures k < |s| ==> s[k] == c
    ensures forall j :: 0 <= j < k ==> s[j] != c
  {
    if |s| == 0 then 0
    else if s[0] == c then 0
    else 1 + IndexOf(s[1..], c)
  }

  function StripCarriageReturn(line: string): string {
    if |line| > 0 && line[|line| - 1] == '\r' then line[..|line| - 1] else line
  }

  /** Rust's `str::lines`: pieces ended by "\n" (or "\r\n"); a final piece with no
      newline is kept unless it is empty. */
  function Lines(s: string): seq<string>
    decreases |s|
  {
    if s == [] then []
    else
      var k := IndexOf(s, '\n');
      if k == |s| then [s]
      else [StripCarriageReturn(s[..k])] + Lines(s[k + 1..])
  }

  /** Splitting on a single-character separator (Rust `split(c)`): always
      one piece more than there are separators. */
  function Split(s: string, c: char): seq<string>
    decreases |s|
  {
    var k := IndexOf(s, c);
    if k == |s| then [s] else [s[..k]] + Split(s[k + 1..], c)
  }

  /** Position of the first occurrence of `sep` in `s`, or `|s|` when there is none. */
  function Find(s: string, sep: string): (k: nat)
    requires |sep| > 0
    ensures k <= |s|
    ensures k < |s| ==> k + |sep| <= |s| && s[k..k + |sep|] == sep
    decreases |s|
  {
    if |s| < |sep| then |s|
    else if s[..|sep|] == sep then 0
    else 1 + Find(s[1..], sep)
  }

  /** Splitting on a separator string (Rust `split(", ")`, Python `split(" | ")`). */
  function SplitOn(s: string, sep: string): seq<string>
    requires |sep| > 0
    decreases |s|
  {
    var k := Find(s, sep);
    if k == |s| then [s] else [s[..k]] + SplitOn(s[k + |sep|..], sep)
  }

  function Join(parts: seq<string>, sep: string): string {
    if |parts| == 0 then []
    else if |parts| == 1 then parts[0]
    else parts[0] + sep + Join(parts[1..], sep)
  }

  predicate IsDigit(c: char) {
    '0' <= c <= '9'
  }

  predicate AllDigits(s: string) {
    forall i :: 0 <= i < |s| ==> IsDigit(s[i])
  }

  function DigitValue(c: char): (d: nat)
    requires IsDigit(c)
    ensures d < 10
  {
    c as int - '0' as int
  }

  function DigitChar(d: nat): (c: char)
    requires d < 10
    ensures IsDigit(c) && DigitValue(c) == d
  {
    ('0' as int + d) as char
  }

  /** The number a string of decimal digits denotes, most significant first. */
  function DecimalValue(s: string): nat
    requires AllDigits(s)
  {
    if |s| == 0 then 0 else 10 * DecimalValue(s[..|s| - 1]) + DigitValue(s[|s| - 1])
  }

  /** The decimal representation of `n` without leading zeros (Rust `to_string`). */
  function DecimalString(n: nat): (s: string)
    ensures |s| > 0 && AllDigits(s)
  {
    if n < 10 then [DigitChar(n)] else DecimalString(n / 10) + [DigitChar(n % 10)]
  }

  /** Parsing an unsigned decimal number: at least one digit and nothing else. */
  function ParseNat(s: string): (r: Option<nat>)
    ensures r.Some? <==> |s| > 0 && AllDigits(s)
  {
    if |s| > 0 && AllDigits(s) then Some(DecimalValue(s)) else None
  }

  /** Parsing a signed decimal number as Rust's `str::parse::<i64>` does: an
      optional `+` or `-` followed by at least one digit. */
  function ParseInt(s: string): (r: Option<int>)
    ensures |s| > 0 && AllDigits(s) ==> r == Some(DecimalValue(s) as int)
  {
    if |s| > 0 && (s[0] == '-' || s[0] == '+') then
      match ParseNat(s[1..])
      case Some(n) => Some(if s[0] == '-' then -(n as int) else n as int)
      case None => None
    else
      match ParseNat(s)
      case Some(n) => Some(n)
      case None => None
  }

  /** Parsing an unsigned number as Rust's `str::parse::<usize>` does: an
      optional `+` followed by at least one digit. */
  function ParseUnsigned(s: string): (r: Option<nat>)
    ensures r.Some? <==> ParseNat(s).Some? || (|s| > 0 && s[0] == '+' && ParseNat(s[1..]).Some?)
    ensures ParseNat(s).Some? ==> r == ParseNat(s)
  {
    if |s| > 0 && s[0] == '+' then ParseNat(s[1..]) else ParseNat(s)
  }

  /** The first separator in `a + [c] + b` is the one after `a` when `a` has none. */
  lemma {:induction false} IndexOfAfter(a: string, c: char, b: string)
    requires c !in a
    ensures IndexOf(a + [c] + b, c) == |a|
    decreases |a|
  {
    if |a| > 0 {
      assert (a + [c] + b)[1..] == a[1..] + [c] + b;
      IndexOfAfter(a[1..], c, b);
    }
  }

  lemma {:induction false} IndexOfAbsent(s: string, c: char)
    requires c !in s
    ensures IndexOf(s, c) == |s|
    decreases |s|
  {
    if |s| > 0 {
      IndexOfAbsent(s[1..], c);
    }
  }

  /** Splitting pieces joined by a separator none of them contains gives the pieces back. */
  lemma {:induction false} SplitJoin(parts: seq<string>, c: char)
    requires |parts| > 0 && forall i :: 0 <= i < |parts| ==> c !in parts[i]
    ensures Split(Join(parts, [c]), c) == parts
    decreases |parts|
  {
    if |parts| == 1 {
      IndexOfAbsent(parts[0], c);
    } else {
      var rest := Join(parts[1..], [c]);
      assert Join(parts, [c]) == parts[0] + [c] + rest;
      IndexOfAfter(parts[0], c, rest);
      assert (parts[0] + [c] + rest)[..|parts[0]|] == parts[0];
      assert (parts[0] + [c] + rest)[|parts[0]| + 1..] == rest;
      SplitJoin(parts[1..], c);
    }
  }

  /** Printing a number and parsing it back gives the number. */
  lemma {:induction false} DecimalRoundTrip(n: nat)
    ensures DecimalValue(DecimalString(n)) == n
    ensures ParseNat(DecimalString(n)) == Some(n)
    ensures ParseUnsigned(DecimalString(n)) == Some(n)
  {
    if n >= 10 {
      DecimalRoundTrip(n / 10);
      var s := DecimalString(n);
      assert s[..|s| - 1] == DecimalString(n / 10);
    }
  }

  /** A separator whose first character is not in `a` is first found right after `a`. */
  lemma {:induction false} FindAfter(a: string, sep: string, b: string)
    requires |sep| > 0 && sep[0] !in a
    ensures Find(a + sep + b, sep) == |a|
    decreases |a|
  {
    var s := a + sep + b;
    if |a| == 0 {
      assert s[..|sep|] == sep;
    } else {
      assert s[..|sep|][0] == a[0] != sep[0];
      assert s[1..] == a[1..] + sep + b;
      FindAfter(a[1..], sep, b);
    }
  }

  lemma {:induction false} FindAbsent(s: string, sep: string)
    requires |sep| > 0 && sep[0] !in s
    ensures Find(s, sep) == |s|
    decreases |s|
  {
    if |s| >= |sep| {
      assert s[..|sep|][0] == s[0] != sep[0];
      FindAbsent(s[1..], sep);
    }
  }

  /** Splitting `a + sep + b` on `sep` peels `a` off the front. */
  lemma SplitOnAfter(a: string, sep: string, b: string)
    requires |sep| > 0 && sep[0] !in a
    ensures SplitOn(a + sep + b, sep) == [a] + SplitOn(b, sep)
  {
    var s := a + sep + b;
    FindAfter(a, sep, b);
    assert s[..|a|] == a;
    assert s[|a| + |sep|..] == b;
  }

  /** The decimal representation of an integer, with a leading '-' when negative. */
  function IntString(x: int): (s: string)
    ensures |s| > 0 && ' ' !in s && '\n' !in s
    ensures forall k :: 0 <= k < |s| ==> s[k] == '-' || IsDigit(s[k])
  {
    var digits := DecimalString(if x < 0 then -x else x);
    assert forall k :: 0 <= k < |digits| ==> IsDigit(digits[k]);
    if x < 0 then "-" + digits else digits
  }

  /** Printing an integer and parsing it back gives the integer. */
  lemma IntRoundTrip(x: int)
    ensures ParseInt(IntString(x)) == Some(x)
  {
    var n := if x < 0 then -x else x;
    DecimalRoundTrip(n);
    var digits := DecimalString(n);
    assert IsDigit(digits[0]);
    if x < 0 {
      assert IntString(x)[1..] == digits;
    }
  }

  function Pow10(k: nat): (p: nat)
    ensures p >= 1
  {
    if k == 0 then 1 else 10 * Pow10(k - 1)
  }

  lemma MulTen(x: nat, y: nat)
    ensures x * (10 * y) == 10 * (x * y)
  {
  }

  /** Writing the digits of `b` after those of `a` multiplies `a` by ten per digit of `b`. */
  lemma {:induction false} DecimalValueAppend(a: string, b: string)
    requires AllDigits(a) && AllDigits(b)
    ensures AllDigits(a + b)
    ensures DecimalValue(a + b) == DecimalValue(a) * Pow10(|b|) + DecimalValue(b)
    decreases |b|
  {
    if |b| > 0 {
      var init := b[..|b| - 1];
      DecimalValueAppend(a, init);
      assert (a + b)[..|a + b| - 1] == a + init;
      assert (a + b)[|a + b| - 1] == b[|b| - 1];
      var d := DigitValue(b[|b| - 1]);
      var va, p := DecimalValue(a), Pow10(|init|);
      assert DecimalValue(a + b) == 10 * DecimalValue(a + init) + d;
      assert DecimalValue(b) == 10 * DecimalValue(init) + d;
      assert Pow10(|b|) == 10 * p;
      MulTen(va, p);
    } else {
      assert a + b == a;
    }
  }

  /** Position of the first character of `s` in `seps`, or `|s|` when there is none. */
  function IndexOfAny(s: string, seps: set<char>): (k: nat)
    ensures k <= |s|
    ensures k < |s| ==> s[k] in seps
    ensures forall j :: 0 <= j < k ==> s[j] !in seps
  {
    if |s| == 0 then 0
    else if s[0] in seps then 0
    else 1 + IndexOfAny(s[1..], seps)
  }

  /** Splitting on any of several separator characters (Rust `split(&[':', ' '])`). */
  function SplitAny(s: string, seps: set<char>): (parts: seq<string>)
    ensures |parts| > 0
    decreases |s|
  {
    var k := IndexOfAny(s, seps);
    if k == |s| then [s] else [s[..k]] + SplitAny(s[k + 1..], seps)
  }

  lemma {:induction false} IndexOfAnyAfter(a: string, c: char, b: string, seps: set<char>)
    requires c in seps && forall j :: 0 <= j < |a| ==> a[j] !in seps
    ensures IndexOfAny(a + [c] + b, seps) == |a|
    decreases |a|
  {
    if |a| > 0 {
      assert (a + [c] + b)[1..] == a[1..] + [c] + b;
      IndexOfAnyAfter(a[1..], c, b, seps);
    }
  }

  lemma {:induction false} IndexOfAnyAbsent(s: string, seps: set<char>)
    requires forall j :: 0 <= j < |s| ==> s[j] !in seps
    ensures IndexOfAny(s, seps) == |s|
    decreases |s|
  {
    if |s| > 0 {
      IndexOfAnyAbsent(s[1..], seps);
    }
  }

  /** Splitting `a + [c] + b` on a set holding `c` peels `a` off the front. */
  lemma SplitAnyAfter(a: string, c: char, b: string, seps: set<char>)
    requires c in seps && forall j :: 0 <= j < |a| ==> a[j] !in seps
    ensures SplitAny(a + [c] + b, seps) == [a] + SplitAny(b, seps)
  {
    IndexOfAnyAfter(a, c, b, seps);
    assert (a + [c] + b)[..|a|] == a;
    assert (a + [c] + b)[|a| + 1..] == b;
  }

  /** Pieces joined by one separator from the set, none holding any of them,
      split back into the pieces. */
  lemma {:induction false} SplitAnyJoin(parts: seq<string>, c: char, seps: set<char>)
    requires |parts| > 0 && c in seps
    requires forall i, j :: 0 <= i < |parts| && 0 <= j < |parts[i]| ==> parts[i][j] !in seps
    ensures SplitAny(Join(parts, [c]), seps) == parts
    decreases |parts|
  {
    if |parts| == 1 {
      IndexOfAnyAbsent(parts[0], seps);
    } else {
      var rest := Join(parts[1..], [c]);
      assert Join(parts, [c]) == parts[0] + [c] + rest;
      assert forall j :: 0 <= j < |parts[0]| ==> parts[0][j] !in seps;
      SplitAnyAfter(parts[0], c, rest, seps);
      assert forall i :: 0 <= i < |parts| - 1 ==> parts[1..][i] == parts[i + 1];
      SplitAnyJoin(parts[1..], c, seps);
      assert parts == [parts[0]] + parts[1..];
    }
  }

  /** Every piece parsed as an integer, all or nothing (`collect` into a `Result`). */
  function ParseInts(parts: seq<string>): (r: Option<seq<int>>)
    ensures r.Some? <==> forall i :: 0 <= i < |parts| ==> ParseInt(parts[i]).Some?
    ensures r.Some? ==> (|r.value| == |parts| &&
              forall i :: 0 <= i < |parts| ==> Some(r.value[i]) == ParseInt(parts[i]))
  {
    if |parts| == 0 then Some([])
    else
      match (ParseInt(parts[0]), ParseInts(parts[1..]))
      case (Some(x), Some(rest)) => Some([x] + rest)
      case _ => None
  }

  /** Each integer printed in decimal. */
  function IntStrings(values: seq<int>): (parts: seq<string>)
    ensures |parts| == |values|
    ensures forall i :: 0 <= i < |values| ==> parts[i] == IntString(values[i])
  {
    if |values| == 0 then [] else [IntString(values[0])] + IntStrings(values[1..])
  }

  /** Parsing printed integers gives them back. */
  lemma IntsRoundTrip(values: seq<int>)
    ensures ParseInts(IntStrings(values)) == Some(values)
  {
    var parts := IntStrings(values);
    forall i | 0 <= i < |values|
      ensures ParseInt(parts[i]) == Some(values[i])
    {
      IntRoundTrip(values[i]);
    }
    var r := ParseInts(parts);
    assert r.Some? && r.value == values;
  }

  /** Rust's `str::starts_with`. */
  predicate StartsWith(s: string, prefix: string) {
    |prefix| <= |s| && s[..|prefix|] == prefix
  }

  /** The characters Rust's `char::is_whitespace` accepts (the Unicode White_Space property). */
  const Whitespace: set<char> := {
    ' ', '\t', '\n', '\r', '\U{000B}', '\U{000C}', '\U{0085}', '\U{00A0}', '\U{1680}',
    '\U{2000}', '\U{2001}', '\U{2002}', '\U{2003}', '\U{2004}', '\U{2005}', '\U{2006}',
    '\U{2007}', '\U{2008}', '\U{2009}', '\U{200A}', '\U{2028}', '\U{2029}', '\U{202F}',
    '\U{205F}', '\U{3000}'
  }

  /** The pieces that are not empty, in order. */
  function NonEmpty(parts: seq<string>): (r: seq<string>)
    ensures forall i :: 0 <= i < |r| ==> |r[i]| > 0
    ensures |r| <= |parts|
  {
    if parts == [] then []
    else (if |parts[0]| > 0 then [parts[0]] else []) + NonEmpty(parts[1..])
  }

  /** Rust's `str::split_whitespace`: the non-empty runs between whitespace. */
  function Words(s: string): (r: seq<string>)
    ensures forall i :: 0 <= i < |r| ==> |r[i]| > 0
  {
    NonEmpty(SplitAny(s, Whitespace))
  }

  /** Pieces with no empty piece are kept whole. */
  lemma {:induction false} NonEmptyKeeps(parts: seq<string>)
    requires forall i :: 0 <= i < |parts| ==> |parts[i]| > 0
    ensures NonEmpty(parts) == parts
  {
    if parts != [] {
      NonEmptyKeeps(parts[1..]);
    }
  }

  /** Non-empty words without whitespace, joined by one space, split back into the words. */
  lemma WordsJoin(words: seq<string>)
    requires |words| > 0
    requires forall i :: 0 <= i < |words| ==> |words[i]| > 0
    requires forall i, j :: 0 <= i < |words| && 0 <= j < |words[i]| ==> words[i][j] !in Whitespace
    ensures Words(Join(words, " ")) == words
  {
    SplitAnyJoin(words, ' ', Whitespace);
    NonEmptyKeeps(words);
  }

  /** Rust's `Ord` on strings: lexicographic by character (the same order as by UTF-8 bytes). */
  predicate StrLess(a: string, b: string)
    decreases |a|
  {
    if |a| == 0 then |b| > 0
    else if |b| == 0 then false
    else a[0] < b[0] || (a[0] == b[0] && StrLess(a[1..], b[1..]))
  }

  lemma {:induction false} StrLessIrreflexive(a: string)
    ensures !StrLess(a, a)
    decreases |a|
  {
    if |a| > 0 {
      StrLessIrreflexive(a[1..]);
    }
  }

  /** Of two different strings exactly one is less than the other. */
  lemma {:induction false} StrLessTotal(a: string, b: string)
    ensures a == b || StrLess(a, b) || StrLess(b, a)
    ensures !(StrLess(a, b) && StrLess(b, a))
    decreases |a|
  {
    if |a| > 0 && |b| > 0 {
      StrLessTotal(a[1..], b[1..]);
      if a[0] == b[0] && a[1..] == b[1..] {
        assert a == [a[0]] + a[1..] && b == [b[0]] + b[1..];
      }
    }
  }

  lemma {:induction false} StrLessTransitive(a: string, b: string, c: string)
    requires StrLess(a, b) && StrLess(b, c)
    ensures StrLess(a, c)
    decreases |a|
  {
    if |a| > 0 && a[0] == b[0] && b[0] == c[0] {
      StrLessTransitive(a[1..], b[1..], c[1..]);
    }
  }

  /** Strings in strictly ascending order, as a `BTreeSet<String>` iterates them. */
  predicate Ascending(ws: seq<string>) {
    forall i, j :: 0 <= i < j < |ws| ==> StrLess(ws[i], ws[j])
  }

  /** `BTreeSet::insert`: `w` added in its place, unless it is already there. */
  function InsertAscending(ws: seq<string>, w: string): (r: seq<string>)
    requires Ascending(ws)
    ensures Ascending(r)
    ensures forall x :: x in r <==> x in ws || x == w
  {
    if ws == [] then [w]
    else if w == ws[0] then ws
    else if StrLess(w, ws[0]) then
      assert forall j :: 0 < j < |ws| ==> StrLess(w, ws[j]) by {
        forall j | 0 < j < |ws|
          ensures StrLess(w, ws[j])
        {
          StrLessTransitive(w, ws[0], ws[j]);
        }
      }
      [w] + ws
    else
      StrLessTotal(w, ws[0]);
      var rest := InsertAscending(ws[1..], w);
      assert forall x :: x in rest ==> StrLess(ws[0], x);
      [ws[0]] + rest
  }

  /** The strings collected into a `BTreeSet` and read back in order. */
  function AscendingSet(ws: seq<string>): (r: seq<string>)
    ensures Ascending(r)
    ensures forall x :: x in r <==> x in ws
    decreases |ws|
  {
    if ws == [] then []
    else
      var r := InsertAscending(AscendingSet(ws[..|ws| - 1]), ws[|ws| - 1]);
      assert ws == ws[..|ws| - 1] + [ws[|ws| - 1]];
      r
  }

  /** Only one ascending sequence holds a given set of strings, so the order
      the strings were inserted in does not matter. */
  lemma {:induction false} AscendingUnique(a: seq<string>, b: seq<string>)
    requires Ascending(a) && Ascending(b)
    requires forall x :: x in a <==> x in b
    ensures a == b
    decreases |a|
  {
    assert a != [] <==> b != [] by {
      if a != [] {
        assert a[0] in a;
      }
      if b != [] {
        assert b[0] in b;
      }
    }
    if a != [] {
      if a[0] != b[0] {
        assert a[0] in a && b[0] in b;
        var i :| 0 <= i < |b| && b[i] == a[0];
        var j :| 0 <= j < |a| && a[j] == b[0];
        assert i > 0 && j > 0;
        StrLessTotal(a[0], b[0]);
        assert false;
      }
      forall x
        ensures x in a[1..] <==> x in b[1..]
      {
        if x in a[1..] {
          StrLessIrreflexive(a[0]);
          assert x in b && x != b[0];
        }
        if x in b[1..] {
          StrLessIrreflexive(b[0]);
          assert x in a && x != a[0];
        }
      }
      AscendingUnique(a[1..], b[1..]);
      assert a == [a[0]] + a[1..] && b == [b[0]] + b[1..];
    }
  }
}
