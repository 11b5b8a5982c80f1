/**
 * 2024 day 25, Code Chronicle: schematics of locks (pins hanging from a full
 * top row) and keys (teeth standing on a full bottom row), seven rows of five
 * columns each. A schematic is summarised by the height of each column; a key
 * fits a lock when no column's pin and tooth overlap.
 */
module Day25 {
  import opened Wrappers
  import opened Text

  datatype Kind = Lock | Key

  /** A schematic as column heights: five of them, each at most 5. */
  type Schematic = seq<nat>

  /** A row of the schematic's body: five characters, each '#' or '.'. */
  predicate ValidRow(line: string) {
    |line| == 5 && forall i :: 0 <= i < 5 ==> line[i] == '#' || line[i] == '.'
  }

  /** The number of '#' in column `column` of `rows`. */
  function Height(rows: seq<string>, column: nat): (h: nat)
    requires column < 5 && forall r :: 0 <= r < |rows| ==> |rows[r]| == 5
    ensures h <= |rows|
  {
    if |rows| == 0 then 0
    else Height(rows[..|rows| - 1], column) + (if rows[|rows| - 1][column] == '#' then 1 else 0)
  }

  function Heights(rows: seq<string>): (value: Schematic)
    requires forall r :: 0 <= r < |rows| ==> |rows[r]| == 5
    ensures |value| == 5 && forall i :: 0 <= i < 5 ==> value[i] == Height(rows, i) <= |rows|
  {
    seq(5, i requires 0 <= i < 5 => Height(rows, i))
  }

  /** The first line decides: "#####" starts a lock, "....." a key, anything
      else makes the source panic. */
  function KindOf(first: string): (r: Option<Kind>)
    ensures r == Some(Lock) <==> first == "#####"
    ensures r == Some(Key) <==> first == "....."
  {
    if first == "#####" then Some(Lock)
    else if first == "....." then Some(Key)
    else None
  }

  /** The line that must close a schematic of each kind. */
  function EndLine(kind: Kind): string {
    match kind
    case Lock => "....."
    case Key => "#####"
  }

  /** One schematic at the front of `lines`: a first line, five body rows and an
      end line. Missing lines, a bad row or a bad end line are panics: None. */
  function Block(lines: seq<string>): (r: Option<(Kind, Schematic)>)
    ensures r.Some? ==> |lines| >= 7 && KindOf(lines[0]) == Some(r.value.0)
    ensures r.Some? ==> |r.value.1| == 5 && forall i :: 0 <= i < 5 ==> r.value.1[i] <= 5
  {
    if |lines| < 7 then None
    else
      match KindOf(lines[0])
      case None => None
      case Some(kind) =>
        var rows := lines[1..6];
        if !(forall r :: 0 <= r < 5 ==> ValidRow(rows[r])) then None
        else if lines[6] != EndLine(kind) then None
        else Some((kind, Heights(rows)))
  }

  /** Adds a schematic to the list of its kind. */
  function Push(kind: Kind, value: Schematic, acc: (seq<Schematic>, seq<Schematic>)): (seq<Schematic>, seq<Schematic>) {
    match kind
    case Lock => (acc.0 + [value], acc.1)
    case Key => (acc.0, acc.1 + [value])
  }

  /** The locks and the keys already pushed, followed by those still to come. */
  function Then(acc: (seq<Schematic>, seq<Schematic>), rest: Option<(seq<Schematic>, seq<Schematic>)>): Option<(seq<Schematic>, seq<Schematic>)> {
    match rest
    case None => None
    case Some(r) => Some((acc.0 + r.0, acc.1 + r.1))
  }

  /** The schematics of a list of lines: blocks of seven lines, each followed
      by one line (normally blank) that is skipped. */
  function Schematics(lines: seq<string>): (r: Option<(seq<Schematic>, seq<Schematic>)>)
    ensures r.Some? ==> forall s :: s in r.value.0 + r.value.1 ==> |s| == 5 && forall i :: 0 <= i < 5 ==> s[i] <= 5
    decreases |lines|
  {
    if |lines| == 0 then Some(([], []))
    else
      match Block(lines)
      case None => None
      case Some((kind, value)) =>
        var next := if |lines| >= 8 then 8 else |lines|;
        Then(Push(kind, value, ([], [])), Schematics(lines[next..]))
  }

  /** `parse_input_file`: reads the lines with a cursor, one schematic at a
      time, pushing each to the locks or the keys and skipping the line after it. */
  method ParseInputFile(input: string) returns (r: Option<(seq<Schematic>, seq<Schematic>)>)
    ensures r == Schematics(Lines(input))
  {
    var lines := Lines(input);
    var locks: seq<Schematic>, keys: seq<Schematic> := [], [];
    var cursor := 0;
    ThenNothing(Schematics(lines));
    assert lines[cursor..] == lines;
    while cursor < |lines|
      invariant cursor <= |lines|
      invariant Schematics(lines) == Then((locks, keys), Schematics(lines[cursor..]))
      decreases |lines| - cursor
    {
      var block := lines[cursor..];
      var schematic := ReadSchematic(lines, cursor);
      if schematic.None? {
        return None;
      }
      var (kind, value) := schematic.value;
      cursor := cursor + 7;
      if cursor < |lines| {
        cursor := cursor + 1;
      }
      assert block[if |block| >= 8 then 8 else |block|..] == lines[cursor..];
      ThenPush(kind, value, (locks, keys), Schematics(lines[cursor..]));
      if kind == Lock {
        locks := locks + [value];
      } else {
        keys := keys + [value];
      }
    }
    assert Schematics(lines[cursor..]) == Some(([], []));
    assert locks + [] == locks && keys + [] == keys;
    r := Some((locks, keys));
  }

  /** One schematic read from `lines[start..]`: the kind from the first line, the
      five body rows added into a five-element buffer, then the end line. */
  method ReadSchematic(lines: seq<string>, start: nat) returns (r: Option<(Kind, Schematic)>)
    requires start < |lines|
    ensures r == Block(lines[start..])
  {
    var block := lines[start..];
    var cursor := start;
    var firstLine := lines[cursor];
    cursor := cursor + 1;
    var kind := KindOf(firstLine);
    if kind.None? {
      return None;
    }
    var value := new nat[5](_ => 0);
    var row := 0;
    while row < 5
      invariant 0 <= row <= 5 && cursor == start + 1 + row <= |lines|
      invariant forall k :: start + 1 <= k < cursor ==> ValidRow(lines[k])
      invariant forall k :: start + 1 <= k < cursor ==> |lines[k]| == 5
      invariant forall i :: 0 <= i < 5 ==> value[i] == Height(lines[start + 1..cursor], i)
    {
      if cursor >= |lines| {
        return None;
      }
      var line := lines[cursor];
      var ok := AddRow(value, line);
      if !ok {
        BlockBadRow(block, row);
        return None;
      }
      assert lines[start + 1..cursor + 1][..cursor - start - 1] == lines[start + 1..cursor];
      cursor := cursor + 1;
      row := row + 1;
    }
    if cursor >= |lines| {
      return None;
    }
    var endLine := lines[cursor];
    ghost var rows := block[1..6];
    assert rows == lines[start + 1..cursor];
    assert forall r :: 0 <= r < 5 ==> ValidRow(rows[r]) by {
      forall r | 0 <= r < 5
        ensures ValidRow(rows[r])
      {
        assert rows[r] == lines[start + 1 + r];
      }
    }
    assert Block(block) == if endLine != EndLine(kind.value) then None else Some((kind.value, Heights(rows)));
    if endLine != EndLine(kind.value) {
      return None;
    }
    assert value[..] == Heights(rows);
    return Some((kind.value, value[..]));
  }

  lemma ThenNothing(rest: Option<(seq<Schematic>, seq<Schematic>)>)
    ensures Then(([], []), rest) == rest
  {
    if rest.Some? {
      assert [] + rest.value.0 == rest.value.0 && [] + rest.value.1 == rest.value.1;
    }
  }

  lemma ThenPush(kind: Kind, value: Schematic, acc: (seq<Schematic>, seq<Schematic>), rest: Option<(seq<Schematic>, seq<Schematic>)>)
    ensures Then(acc, Then(Push(kind, value, ([], [])), rest)) == Then(Push(kind, value, acc), rest)
  {
    if rest.Some? {
      var (l, k) := rest.value;
      assert acc.0 + (([] + [value]) + l) == acc.0 + [value] + l;
      assert acc.1 + (([] + [value]) + k) == acc.1 + [value] + k;
      assert acc.0 + ([] + l) == acc.0 + l && acc.1 + ([] + k) == acc.1 + k;
    }
  }

  lemma BlockBadRow(lines: seq<string>, row: nat)
    requires row < 5 && 1 + row < |lines| && !ValidRow(lines[1 + row])
    ensures Schematics(lines) == None
  {
    if |lines| >= 7 {
      assert lines[1..6][row] == lines[1 + row];
    }
  }

  /** One body row added into the column counts, character by character; false
      (a panic in the source) when the row is not five '#'/'.' characters. */
  method AddRow(value: array<nat>, line: string) returns (ok: bool)
    requires value.Length == 5
    modifies value
    ensures ok <==> ValidRow(line)
    ensures ok ==> forall i :: 0 <= i < 5 ==> value[i] == old(value[i]) + (if line[i] == '#' then 1 else 0)
  {
    if |line| != 5 {
      return false;
    }
    for i := 0 to 5
      invariant forall j :: 0 <= j < i ==> line[j] == '#' || line[j] == '.'
      invariant forall j :: 0 <= j < 5 ==> value[j] == old(value[j]) + (if j < i && line[j] == '#' then 1 else 0)
    {
      if line[i] == '#' {
        value[i] := value[i] + 1;
      } else if line[i] != '.' {
        return false;
      }
    }
    return true;
  }

  /** A key fits a lock when no column's pin and tooth add up to more than the
      five rows between them. */
  predicate Fits(lock: Schematic, key: Schematic)
    requires |lock| == 5 && |key| == 5
  {
    forall i :: 0 <= i < 5 ==> lock[i] + key[i] <= 5
  }

  /** In the five body rows (0 at the top) a lock column of height h fills rows
      0..h-1 and a key column of height h fills rows 5-h..4: they fit exactly
      when no row of any column is filled by both. */
  lemma FitsIffNoOverlap(lock: Schematic, key: Schematic)
    requires |lock| == 5 && |key| == 5
    requires forall i :: 0 <= i < 5 ==> lock[i] <= 5 && key[i] <= 5
    ensures Fits(lock, key) <==>
      forall i, row :: 0 <= i < 5 && 0 <= row < 5 ==> !BothFill(lock, key, i, row)
  {
    if !Fits(lock, key) {
      var i :| 0 <= i < 5 && lock[i] + key[i] > 5;
      assert BothFill(lock, key, i, 5 - key[i]);
    }
  }

  /** Row `row` of column `column` is filled by the lock's pin and by the key's tooth. */
  predicate BothFill(lock: Schematic, key: Schematic, column: nat, row: nat)
    requires column < 5 && |lock| == 5 && |key| == 5
  {
    row < lock[column] && 5 - key[column] <= row
  }

  /** The number of keys that fit `lock`. */
  function FittingKeys(lock: Schematic, keys: seq<Schematic>): (n: nat)
    requires |lock| == 5 && forall k :: k in keys ==> |k| == 5
    ensures n <= |keys|
  {
    if |keys| == 0 then 0
    else FittingKeys(lock, keys[..|keys| - 1]) + (if Fits(lock, keys[|keys| - 1]) then 1 else 0)
  }

  /** The number of (lock, key) pairs that fit (`cartesian_product`, `filter`, `count`). */
  function FittingPairs(locks: seq<Schematic>, keys: seq<Schematic>): (n: nat)
    requires forall s :: s in locks + keys ==> |s| == 5
    ensures n <= |locks| * |keys|
  {
    if |locks| == 0 then 0
    else
      assert forall s :: s in locks[..|locks| - 1] + keys ==> s in locks + keys;
      var n := FittingPairs(locks[..|locks| - 1], keys) + FittingKeys(locks[|locks| - 1], keys);
      assert |locks| * |keys| == (|locks| - 1) * |keys| + |keys|;
      n
  }

  /** `part1`: the number of fitting pairs, as a string; None when the input
      does not parse (the source panics). */
  function Part1(input: string): (r: Option<string>)
    ensures r.Some? <==> Schematics(Lines(input)).Some?
  {
    match Schematics(Lines(input))
    case None => None
    case Some((locks, keys)) => Some(DecimalString(FittingPairs(locks, keys)))
  }

  /** The example's two locks and three keys, as the unit test lists them,
      give three fitting pairs. */
  lemma ExampleFittingPairs()
    ensures FittingPairs([[0, 5, 3, 4, 3], [1, 2, 0, 5, 3]],
                         [[5, 0, 2, 1, 3], [4, 3, 4, 0, 2], [3, 0, 2, 0, 1]]) == 3
  {
    var locks: seq<Schematic> := [[0, 5, 3, 4, 3], [1, 2, 0, 5, 3]];
    var keys: seq<Schematic> := [[5, 0, 2, 1, 3], [4, 3, 4, 0, 2], [3, 0, 2, 0, 1]];
    assert locks[0][4] + keys[0][4] == 6 && locks[0][1] + keys[1][1] == 8;
    assert locks[1][0] + keys[0][0] == 6;
    assert !Fits(locks[0], keys[0]) && !Fits(locks[0], keys[1]) && Fits(locks[0], keys[2]);
    assert !Fits(locks[1], keys[0]) && Fits(locks[1], keys[1]) && Fits(locks[1], keys[2]);
    assert keys[..2][..1] == keys[..1] && keys[..1][..0] == [] && keys[..3] == keys;
    assert FittingKeys(locks[0], keys) == 1;
    assert FittingKeys(locks[1], keys) == 2;
    assert locks[..1][..0] == [] && locks[..2] == locks;
  }
}
