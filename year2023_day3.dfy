/**
 * Day 3 of 2023 (Gear Ratios), in Rust: an engine schematic is a grid of
 * characters. A number is a part number when a symbol sits in the box of
 * cells around it; part 1 sums the part numbers. A gear is a `*` next to
 * exactly two part numbers; part 2 sums the products of those pairs.
 *
 * The numbers are found by a regular expression; the model takes what it
 * finds (row, start and end column, value) as data rather than modelling
 * the matching.
 */
module Year2023Day3 {
  import opened Wrappers
  import Sums
  import Year2023Math

  /** The characters that make a neighbouring number a part number. */
  const Symbols: string := "%-+*#/@=$&"

  /** The characters that are not symbols. */
  const NotSymbols: string := ".0123456789"

  /*------------------------------------------------------------------------
    Bounds and boxes
  ------------------------------------------------------------------------*/

  datatype Coordinates = Coordinates(row: nat, column: nat)

  datatype Bounds = Bounds(rows: nat, columns: nat)

  /** `ArrayBounds::new`: as many rows as lines and as many columns as the
      first line has bytes, which on an ASCII schematic is its number of
      characters; it panics on a schematic with no line. */
  function NewBounds(lines: seq<string>): (r: Option<Bounds>)
    ensures r.None? <==> lines == []
    ensures r.Some? ==> r.value.rows == |lines| && r.value.columns == |lines[0]|
  {
    if lines == [] then None else Some(Bounds(|lines|, |lines[0]|))
  }

  predicate InBounds(bounds: Bounds, row: nat, column: nat) {
    row < bounds.rows && column < bounds.columns
  }

  /** The unit tests of `ArrayBounds`: three lines of three characters. */
  lemma BoundsExample()
    ensures NewBounds(["abc", "def", "ghi"]) == Some(Bounds(3, 3))
    ensures InBounds(Bounds(3, 3), 0, 0) && InBounds(Bounds(3, 3), 2, 2)
    ensures !InBounds(Bounds(3, 3), 3, 0) && !InBounds(Bounds(3, 3), 0, 3)
  {
  }

  /** `saturating_sub(1)` on an unsigned index. */
  function Below(x: nat): nat {
    if x == 0 then 0 else x - 1
  }

  /** Row-major order: `a` comes before `b`. */
  predicate Before(a: Coordinates, b: Coordinates) {
    a.row < b.row || (a.row == b.row && a.column < b.column)
  }

  /** The coordinates are listed in strictly increasing row-major order, so
      no cell appears twice. */
  predicate RowMajor(cells: seq<Coordinates>) {
    forall i, j :: 0 <= i < j < |cells| ==> Before(cells[i], cells[j])
  }

  /** The in-bounds cells of `row` from column `column` up to, not
      including, `stop`. */
  function RowCells(bounds: Bounds, row: nat, column: nat, stop: nat): seq<Coordinates>
    decreases stop - column
  {
    if column >= stop then []
    else
      (if InBounds(bounds, row, column) then [Coordinates(row, column)] else []) +
      RowCells(bounds, row, column + 1, stop)
  }

  /** The in-bounds cells of rows `row` to `last`, each from `start` up to
      `stop`. */
  function BoxRows(bounds: Bounds, row: nat, last: nat, start: nat, stop: nat): seq<Coordinates>
    decreases last + 1 - row
  {
    if row > last then []
    else RowCells(bounds, row, start, stop) + BoxRows(bounds, row + 1, last, start, stop)
  }

  /** `box_coordinates`: the in-bounds cells of the rows around `row` and
      the columns from one before `start` to `end` (one past the number). */
  function BoxCoordinates(row: nat, start: nat, end: nat, bounds: Bounds): seq<Coordinates> {
    BoxRows(bounds, Below(row), row + 1, Below(start), end + 1)
  }

  /** The box is in the box's rows and columns. */
  predicate InBox(c: Coordinates, row: nat, start: nat, end: nat) {
    Below(row) <= c.row <= row + 1 && Below(start) <= c.column <= end
  }

  lemma {:induction false} RowCellsSpec(bounds: Bounds, row: nat, column: nat, stop: nat)
    ensures forall c :: c in RowCells(bounds, row, column, stop) <==>
      (InBounds(bounds, c.row, c.column) && c.row == row && column <= c.column < stop)
    ensures RowMajor(RowCells(bounds, row, column, stop))
    ensures forall i :: 0 <= i < |RowCells(bounds, row, column, stop)| ==>
      column <= RowCells(bounds, row, column, stop)[i].column
    decreases stop - column
  {
    if column < stop {
      RowCellsSpec(bounds, row, column + 1, stop);
    }
  }

  lemma {:induction false} BoxRowsSpec(bounds: Bounds, row: nat, last: nat, start: nat, stop: nat)
    ensures forall c :: c in BoxRows(bounds, row, last, start, stop) <==>
      (InBounds(bounds, c.row, c.column) && row <= c.row <= last && start <= c.column < stop)
    ensures RowMajor(BoxRows(bounds, row, last, start, stop))
    ensures forall i :: 0 <= i < |BoxRows(bounds, row, last, start, stop)| ==>
      row <= BoxRows(bounds, row, last, start, stop)[i].row
    decreases last + 1 - row
  {
    if row <= last {
      var here := RowCells(bounds, row, start, stop);
      var rest := BoxRows(bounds, row + 1, last, start, stop);
      RowCellsSpec(bounds, row, start, stop);
      BoxRowsSpec(bounds, row + 1, last, start, stop);
      assert forall i :: 0 <= i < |here| ==> here[i].row == row by {
        forall i | 0 <= i < |here| ensures here[i].row == row {
          assert here[i] in here;
        }
      }
      RowMajorAppend(here, rest);
    }
  }

  /** Two row-major runs, the first wholly before the second, make one. */
  lemma RowMajorAppend(a: seq<Coordinates>, b: seq<Coordinates>)
    requires RowMajor(a) && RowMajor(b)
    requires forall i, j :: 0 <= i < |a| && 0 <= j < |b| ==> Before(a[i], b[j])
    ensures RowMajor(a + b)
  {
    forall i, j | 0 <= i < j < |a + b|
      ensures Before((a + b)[i], (a + b)[j])
    {
      if j < |a| {
        assert (a + b)[i] == a[i] && (a + b)[j] == a[j];
      } else if i < |a| {
        assert (a + b)[i] == a[i] && (a + b)[j] == b[j - |a|];
      } else {
        assert (a + b)[i] == b[i - |a|] && (a + b)[j] == b[j - |a|];
      }
    }
  }

  /** `box_coordinates` gives exactly the in-bounds cells of the box, each
      once, in row-major order. */
  lemma BoxCoordinatesSpec(row: nat, start: nat, end: nat, bounds: Bounds)
    ensures forall c :: c in BoxCoordinates(row, start, end, bounds) <==>
      (InBounds(bounds, c.row, c.column) && InBox(c, row, start, end))
    ensures RowMajor(BoxCoordinates(row, start, end, bounds))
  {
    BoxRowsSpec(bounds, Below(row), row + 1, Below(start), end + 1);
  }

  /** The unit tests of `box_coordinates`: a full box of nine cells around
      the middle of a 3x3 grid, and a corner box cut down to the 2x2
      grid. */
  lemma BoxCoordinatesExample()
    ensures var full := BoxCoordinates(1, 1, 2, Bounds(3, 3));
      |full| == 9 && full[0] == Coordinates(0, 0) && full[8] == Coordinates(2, 2)
    ensures var corner := BoxCoordinates(0, 0, 1, Bounds(2, 2));
      |corner| == 4 && corner[0] == Coordinates(0, 0) && corner[3] == Coordinates(1, 1)
  {
    assert RowCells(Bounds(3, 3), 0, 0, 3) == [Coordinates(0, 0), Coordinates(0, 1), Coordinates(0, 2)];
    assert RowCells(Bounds(3, 3), 2, 0, 3) == [Coordinates(2, 0), Coordinates(2, 1), Coordinates(2, 2)];
    assert |RowCells(Bounds(3, 3), 1, 0, 3)| == 3;
    assert RowCells(Bounds(2, 2), 0, 0, 2) == [Coordinates(0, 0), Coordinates(0, 1)];
    assert RowCells(Bounds(2, 2), 1, 0, 2) == [Coordinates(1, 0), Coordinates(1, 1)];
  }

  /*------------------------------------------------------------------------
    Part numbers
  ------------------------------------------------------------------------*/

  datatype SchematicSymbol = SchematicSymbol(symbol: char, location: Coordinates)

  datatype PartNumber = PartNumber(value: nat, adjacentSymbols: seq<SchematicSymbol>)

  /** What one match of the number pattern gives: its row, the column of
      its first digit and the column just past its last, and its value. */
  datatype NumberMatch = NumberMatch(row: nat, start: nat, end: nat, value: nat)

  /** The character at `c`; `None` where `chars().nth(...).unwrap()`
      panics, on a line shorter than the first. */
  function CellAt(schematic: seq<string>, c: Coordinates): Option<char> {
    if c.row < |schematic| && c.column < |schematic[c.row]| then Some(schematic[c.row][c.column])
    else None
  }

  /** The symbols among `cells`, in their order; `None` when some cell
      cannot be read. */
  function AdjacentSymbols(schematic: seq<string>, cells: seq<Coordinates>): (r: Option<seq<SchematicSymbol>>)
    ensures r.Some? <==> forall i :: 0 <= i < |cells| ==> CellAt(schematic, cells[i]).Some?
    ensures r.Some? ==> |r.value| <= |cells|
    ensures r.Some? ==> forall s :: s in r.value <==>
      (s.location in cells && s.symbol in Symbols && CellAt(schematic, s.location) == Some(s.symbol))
  {
    if cells == [] then Some([])
    else
      var rest := AdjacentSymbols(schematic, cells[1..]);
      match CellAt(schematic, cells[0])
      case None => None
      case Some(ch) =>
        if rest.None? then None
        else if ch in Symbols then Some([SchematicSymbol(ch, cells[0])] + rest.value)
        else rest
  }

  /** The symbols around one match, within `bounds`. */
  function SymbolsAround(schematic: seq<string>, bounds: Bounds, m: NumberMatch): Option<seq<SchematicSymbol>> {
    AdjacentSymbols(schematic, BoxCoordinates(m.row, m.start, m.end, bounds))
  }

  /** The part numbers among `matches`, in their order. */
  function PartNumbersOf(schematic: seq<string>, bounds: Bounds, matches: seq<NumberMatch>): (r: Option<seq<PartNumber>>)
    ensures r.Some? ==> |r.value| <= |matches|
    ensures r.Some? ==> forall p :: p in r.value ==> |p.adjacentSymbols| > 0
  {
    if matches == [] then Some([])
    else
      match SymbolsAround(schematic, bounds, matches[0])
      case None => None
      case Some(adjacent) =>
        match PartNumbersOf(schematic, bounds, matches[1..])
        case None => None
        case Some(rest) =>
          if |adjacent| > 0 then Some([PartNumber(matches[0].value, adjacent)] + rest) else Some(rest)
  }

  /** `get_part_numbers`, over the matches the pattern finds row by row. */
  function GetPartNumbers(schematic: seq<string>, matches: seq<NumberMatch>): Option<seq<PartNumber>> {
    match NewBounds(schematic)
    case None => None
    case Some(bounds) => PartNumbersOf(schematic, bounds, matches)
  }

  /** A match is a part number when a cell of its box holds a symbol. */
  ghost predicate NextToSymbol(schematic: seq<string>, bounds: Bounds, m: NumberMatch) {
    exists c: Coordinates :: InBounds(bounds, c.row, c.column) && InBox(c, m.row, m.start, m.end) &&
      CellAt(schematic, c).Some? && CellAt(schematic, c).value in Symbols
  }

  lemma {:induction false} SymbolsAroundSpec(schematic: seq<string>, bounds: Bounds, m: NumberMatch)
    requires SymbolsAround(schematic, bounds, m).Some?
    ensures |SymbolsAround(schematic, bounds, m).value| > 0 <==> NextToSymbol(schematic, bounds, m)
  {
    var box := BoxCoordinates(m.row, m.start, m.end, bounds);
    var around := SymbolsAround(schematic, bounds, m).value;
    BoxCoordinatesSpec(m.row, m.start, m.end, bounds);
    if |around| > 0 {
      assert around[0] in around;
    }
    if NextToSymbol(schematic, bounds, m) {
      var c: Coordinates :| InBounds(bounds, c.row, c.column) && InBox(c, m.row, m.start, m.end) &&
        CellAt(schematic, c).Some? && CellAt(schematic, c).value in Symbols;
      assert SchematicSymbol(CellAt(schematic, c).value, c) in around;
    }
  }

  /** Part number `p` comes from one of `matches` that is next to a symbol:
      it has that match's value and the symbols of its box. */
  ghost predicate FromMatch(schematic: seq<string>, bounds: Bounds, matches: seq<NumberMatch>, p: PartNumber) {
    exists m :: m in matches && p.value == m.value && NextToSymbol(schematic, bounds, m) &&
      SymbolsAround(schematic, bounds, m) == Some(p.adjacentSymbols)
  }

  /** Every part number kept comes from a match next to a symbol. */
  lemma {:induction false} PartNumbersSound(schematic: seq<string>, bounds: Bounds, matches: seq<NumberMatch>)
    requires PartNumbersOf(schematic, bounds, matches).Some?
    ensures forall p :: p in PartNumbersOf(schematic, bounds, matches).value ==>
      FromMatch(schematic, bounds, matches, p)
    decreases |matches|
  {
    if matches != [] {
      var m := matches[0];
      var rest := PartNumbersOf(schematic, bounds, matches[1..]).value;
      PartNumbersSound(schematic, bounds, matches[1..]);
      SymbolsAroundSpec(schematic, bounds, m);
      forall p | p in PartNumbersOf(schematic, bounds, matches).value
        ensures FromMatch(schematic, bounds, matches, p)
      {
        if p in rest {
          var n :| n in matches[1..] && p.value == n.value && NextToSymbol(schematic, bounds, n) &&
            SymbolsAround(schematic, bounds, n) == Some(p.adjacentSymbols);
          assert n in matches;
        } else {
          assert m in matches;
        }
      }
    }
  }

  /** Every match next to a symbol is kept as a part number. */
  lemma {:induction false} PartNumbersComplete(schematic: seq<string>, bounds: Bounds, matches: seq<NumberMatch>)
    requires PartNumbersOf(schematic, bounds, matches).Some?
    ensures forall m :: m in matches && NextToSymbol(schematic, bounds, m) ==>
      exists p :: p in PartNumbersOf(schematic, bounds, matches).value && p.value == m.value
    decreases |matches|
  {
    if matches != [] {
      var head := matches[0];
      var parts := PartNumbersOf(schematic, bounds, matches).value;
      var rest := PartNumbersOf(schematic, bounds, matches[1..]).value;
      PartNumbersComplete(schematic, bounds, matches[1..]);
      SymbolsAroundSpec(schematic, bounds, head);
      assert forall q :: q in rest ==> q in parts;
      forall m | m in matches && NextToSymbol(schematic, bounds, m)
        ensures exists p :: p in parts && p.value == m.value
      {
        if m == head {
          assert parts[0] in parts;
        } else {
          assert m in matches[1..];
        }
      }
    }
  }

  /** Part 1: the sum of the part numbers. */
  function Part1(schematic: seq<string>, matches: seq<NumberMatch>): Option<int> {
    match GetPartNumbers(schematic, matches)
    case None => None
    case Some(parts) => Some(Sums.SeqSum(Values(parts)))
  }

  function Values(parts: seq<PartNumber>): (r: seq<int>)
    ensures |r| == |parts| && forall i :: 0 <= i < |parts| ==> r[i] == parts[i].value
  {
    if parts == [] then [] else [parts[0].value] + Values(parts[1..])
  }

  /*------------------------------------------------------------------------
    Gears
  ------------------------------------------------------------------------*/

  /** The `*` symbols of `symbols`, in order, each adding `part` to its list
      of neighbouring part numbers: the inner loop of part 2. */
  function AddPart(possible: map<SchematicSymbol, seq<PartNumber>>, part: PartNumber,
                   symbols: seq<SchematicSymbol>): map<SchematicSymbol, seq<PartNumber>>
  {
    if symbols == [] then possible
    else
      var before := AddPart(possible, part, symbols[..|symbols| - 1]);
      var s := symbols[|symbols| - 1];
      if s.symbol == '*' then before[s := (if s in before then before[s] else []) + [part]]
      else before
  }

  /** The dictionary of possible gears that part 2 builds: every `*` next to
      a part number, with the part numbers next to it in order. */
  function PossibleGearsOf(parts: seq<PartNumber>): map<SchematicSymbol, seq<PartNumber>> {
    if parts == [] then map[]
    else AddPart(PossibleGearsOf(parts[..|parts| - 1]), parts[|parts| - 1], parts[|parts| - 1].adjacentSymbols)
  }

  /** How many times `s` is listed next to a part number of `parts`. */
  function Mentions(parts: seq<PartNumber>, s: SchematicSymbol): nat {
    if parts == [] then 0
    else Mentions(parts[..|parts| - 1], s) + Occurrences(parts[|parts| - 1].adjacentSymbols, s)
  }

  /** How many times `s` is listed in `symbols`. */
  function Occurrences(symbols: seq<SchematicSymbol>, s: SchematicSymbol): nat {
    if symbols == [] then 0
    else Occurrences(symbols[..|symbols| - 1], s) + (if symbols[|symbols| - 1] == s then 1 else 0)
  }

  lemma {:induction false} OccurrencesIn(symbols: seq<SchematicSymbol>, s: SchematicSymbol)
    ensures Occurrences(symbols, s) > 0 <==> s in symbols
    decreases |symbols|
  {
    if symbols != [] {
      OccurrencesIn(symbols[..|symbols| - 1], s);
      assert symbols == symbols[..|symbols| - 1] + [symbols[|symbols| - 1]];
    }
  }

  /** Adding `part` under the `*` symbols of `symbols`: the symbols that
      gain an entry, each with `part` once per listing, and nothing else
      changed. */
  ghost predicate Added(possible: map<SchematicSymbol, seq<PartNumber>>, part: PartNumber,
                        symbols: seq<SchematicSymbol>, after: map<SchematicSymbol, seq<PartNumber>>) {
    AddedKeys(possible, symbols, after) && AddedStars(possible, part, symbols, after) &&
    AddedOthers(possible, after)
  }

  ghost predicate AddedKeys(possible: map<SchematicSymbol, seq<PartNumber>>,
                            symbols: seq<SchematicSymbol>, after: map<SchematicSymbol, seq<PartNumber>>) {
    forall s :: s in after <==> s in possible || (s.symbol == '*' && s in symbols)
  }

  ghost predicate AddedStars(possible: map<SchematicSymbol, seq<PartNumber>>, part: PartNumber,
                             symbols: seq<SchematicSymbol>, after: map<SchematicSymbol, seq<PartNumber>>) {
    forall s :: s in after && s.symbol == '*' ==>
      after[s] == (if s in possible then possible[s] else []) + Repeat(part, Occurrences(symbols, s))
  }

  ghost predicate AddedOthers(possible: map<SchematicSymbol, seq<PartNumber>>,
                              after: map<SchematicSymbol, seq<PartNumber>>) {
    forall s :: s in after && s.symbol != '*' ==> s in possible && after[s] == possible[s]
  }

  lemma {:induction false} AddPartSpec(possible: map<SchematicSymbol, seq<PartNumber>>, part: PartNumber,
                                       symbols: seq<SchematicSymbol>)
    ensures Added(possible, part, symbols, AddPart(possible, part, symbols))
    decreases |symbols|
  {
    if symbols != [] {
      var front := symbols[..|symbols| - 1];
      var last := symbols[|symbols| - 1];
      var before := AddPart(possible, part, front);
      var after := AddPart(possible, part, symbols);
      AddPartSpec(possible, part, front);
      assert symbols == front + [last];
      assert forall t :: t in symbols <==> t in front || t == last;
      if last.symbol == '*' {
        var listed := (if last in before then before[last] else []) + [part];
        assert after == before[last := listed];
        StarKeys(possible, before, front, last, listed);
        StarLists(possible, part, before, front, last);
      } else {
        assert after == before;
        OtherStep(possible, part, before, front, last);
      }
    }
  }

  lemma StarKeys(possible: map<SchematicSymbol, seq<PartNumber>>, before: map<SchematicSymbol, seq<PartNumber>>,
                 front: seq<SchematicSymbol>, last: SchematicSymbol, listed: seq<PartNumber>)
    requires last.symbol == '*'
    requires AddedKeys(possible, front, before) && AddedOthers(possible, before)
    ensures AddedKeys(possible, front + [last], before[last := listed])
    ensures AddedOthers(possible, before[last := listed])
  {
    assert forall t :: t in front + [last] <==> t in front || t == last;
  }

  lemma StarLists(possible: map<SchematicSymbol, seq<PartNumber>>, part: PartNumber,
                  before: map<SchematicSymbol, seq<PartNumber>>, front: seq<SchematicSymbol>, last: SchematicSymbol)
    requires last.symbol == '*'
    requires AddedKeys(possible, front, before) && AddedStars(possible, part, front, before)
    ensures AddedStars(possible, part, front + [last],
      before[last := (if last in before then before[last] else []) + [part]])
  {
    var symbols := front + [last];
    assert symbols[..|symbols| - 1] == front;
    var after := before[last := (if last in before then before[last] else []) + [part]];
    forall t | t in after && t.symbol == '*'
      ensures after[t] == (if t in possible then possible[t] else []) + Repeat(part, Occurrences(symbols, t))
    {
      assert Occurrences(symbols, t) == Occurrences(front, t) + (if t == last then 1 else 0);
      if t == last {
        RepeatSucc(part, Occurrences(front, t));
        OccurrencesIn(front, t);
      }
    }
  }

  lemma OtherStep(possible: map<SchematicSymbol, seq<PartNumber>>, part: PartNumber,
                  before: map<SchematicSymbol, seq<PartNumber>>, front: seq<SchematicSymbol>, last: SchematicSymbol)
    requires last.symbol != '*'
    requires Added(possible, part, front, before)
    ensures Added(possible, part, front + [last], before)
  {
    var symbols := front + [last];
    assert symbols[..|symbols| - 1] == front;
    assert forall t :: t in symbols <==> t in front || t == last;
    forall t | t in before && t.symbol == '*'
      ensures before[t] == (if t in possible then possible[t] else []) + Repeat(part, Occurrences(symbols, t))
    {
      assert Occurrences(symbols, t) == Occurrences(front, t);
    }
  }

  /** `n` copies of `part`. */
  function Repeat(part: PartNumber, n: nat): (r: seq<PartNumber>)
    ensures |r| == n && forall q :: q in r ==> q == part
  {
    if n == 0 then [] else Repeat(part, n - 1) + [part]
  }

  /** A symbol no part number lists is mentioned nowhere. */
  lemma {:induction false} MentionsNone(parts: seq<PartNumber>, s: SchematicSymbol)
    requires forall i :: 0 <= i < |parts| ==> s !in parts[i].adjacentSymbols
    ensures Mentions(parts, s) == 0
    decreases |parts|
  {
    if parts != [] {
      MentionsNone(parts[..|parts| - 1], s);
      OccurrencesIn(parts[|parts| - 1].adjacentSymbols, s);
    }
  }

  lemma RepeatSucc(part: PartNumber, n: nat)
    ensures Repeat(part, n + 1) == Repeat(part, n) + [part]
  {
  }

  /** The possible gears are exactly the `*` symbols next to some part
      number, and each is listed with as many part numbers as mention it,
      every one of them having it among its neighbours. */
  lemma {:induction false} PossibleGearsSpec(parts: seq<PartNumber>)
    ensures var possible := PossibleGearsOf(parts);
      (forall s :: s in possible <==>
        (s.symbol == '*' && exists i :: 0 <= i < |parts| && s in parts[i].adjacentSymbols)) &&
      (forall s :: s in possible ==>
        |possible[s]| == Mentions(parts, s) && forall p :: p in possible[s] ==> s in p.adjacentSymbols)
    decreases |parts|
  {
    if parts != [] {
      var front := parts[..|parts| - 1];
      var last := parts[|parts| - 1];
      PossibleGearsSpec(front);
      AddPartSpec(PossibleGearsOf(front), last, last.adjacentSymbols);
      forall s: SchematicSymbol
        ensures (s.symbol == '*' && exists i :: 0 <= i < |parts| && s in parts[i].adjacentSymbols) <==>
          (s in PossibleGearsOf(front) || (s.symbol == '*' && s in last.adjacentSymbols))
      {
        if s.symbol == '*' && s !in last.adjacentSymbols {
          if i :| 0 <= i < |parts| && s in parts[i].adjacentSymbols {
            assert i < |front| && s in front[i].adjacentSymbols;
          }
        }
        if j :| 0 <= j < |front| && s in front[j].adjacentSymbols {
          assert s in parts[j].adjacentSymbols;
        }
      }
      forall s | s in PossibleGearsOf(parts)
        ensures |PossibleGearsOf(parts)[s]| == Mentions(parts, s)
        ensures forall p :: p in PossibleGearsOf(parts)[s] ==> s in p.adjacentSymbols
      {
        var listed := if s in PossibleGearsOf(front) then PossibleGearsOf(front)[s] else [];
        var added := Repeat(last, Occurrences(last.adjacentSymbols, s));
        assert PossibleGearsOf(parts)[s] == listed + added;
        if s !in PossibleGearsOf(front) {
          MentionsNone(front, s);
        }
        OccurrencesIn(last.adjacentSymbols, s);
        assert forall p :: p in listed + added ==> p in listed || p in added;
      }
    }
  }

  datatype Gear = Gear(location: Coordinates, first: nat, second: nat)

  /** `Gear::ratio`: the product of the two neighbouring values. */
  function Ratio(g: Gear): (r: nat)
    ensures r == 0 <==> g.first == 0 || g.second == 0
    ensures g.first >= 1 ==> r >= g.second
    ensures g.second >= 1 ==> r >= g.first
  {
    if g.first >= 1 && g.second >= 1 then
      Year2023Math.MulAtLeast(g.second, g.first);
      Year2023Math.MulAtLeast(g.first, g.second);
      g.first * g.second
    else
      g.first * g.second
  }

  /** What a possible gear adds to the part 2 sum: its ratio when exactly
      two part numbers are next to it, nothing otherwise. */
  function GearValue(possible: map<SchematicSymbol, seq<PartNumber>>, s: SchematicSymbol): nat {
    if s in possible && |possible[s]| == 2
    then Ratio(Gear(s.location, possible[s][0].value, possible[s][1].value))
    else 0
  }

  /** The part 2 answer, which does not depend on the order the dictionary
      is visited in. */
  ghost function GearSum(possible: map<SchematicSymbol, seq<PartNumber>>): int {
    Sums.SetSum(possible.Keys, s => GearValue(possible, s))
  }

  /** The loop of part 2 that fills the dictionary of possible gears. */
  method PossibleGears(parts: seq<PartNumber>) returns (possible: map<SchematicSymbol, seq<PartNumber>>)
    ensures possible == PossibleGearsOf(parts)
  {
    possible := map[];
    for i := 0 to |parts|
      invariant possible == PossibleGearsOf(parts[..i])
    {
      var part := parts[i];
      ghost var before := possible;
      for j := 0 to |part.adjacentSymbols|
        invariant possible == AddPart(before, part, part.adjacentSymbols[..j])
      {
        var symbol := part.adjacentSymbols[j];
        assert part.adjacentSymbols[..j + 1][..j] == part.adjacentSymbols[..j];
        if symbol.symbol == '*' {
          var listed := if symbol in possible then possible[symbol] else [];
          possible := possible[symbol := listed + [part]];
        }
      }
      assert part.adjacentSymbols[..|part.adjacentSymbols|] == part.adjacentSymbols;
      assert parts[..i + 1][..i] == parts[..i];
    }
    assert parts[..|parts|] == parts;
  }

  /** `g` is a `*` with exactly two neighbouring part numbers. */
  ghost predicate IsGear(possible: map<SchematicSymbol, seq<PartNumber>>, g: Gear) {
    exists s :: s in possible && |possible[s]| == 2 &&
      g == Gear(s.location, possible[s][0].value, possible[s][1].value)
  }

  /** The gears among the possible ones, in the order the dictionary is
      visited (the model visits its keys in an arbitrary order), and the sum
      of their ratios. */
  method Gears(possible: map<SchematicSymbol, seq<PartNumber>>) returns (gears: seq<Gear>, sum: int)
    ensures forall g :: g in gears ==> IsGear(possible, g)
    ensures sum == Sums.SeqSum(Ratios(gears))
    ensures sum == GearSum(possible)
  {
    gears := [];
    sum := 0;
    var remaining := possible.Keys;
    var f := s => GearValue(possible, s);
    while remaining != {}
      invariant remaining <= possible.Keys
      invariant forall g :: g in gears ==> IsGear(possible, g)
      invariant sum == Sums.SeqSum(Ratios(gears))
      invariant sum + Sums.SetSum(remaining, f) == GearSum(possible)
      decreases |remaining|
    {
      Year2023Math.HasElement(remaining);
      var s :| s in remaining;
      Sums.SetSumRemove(remaining, f, s);
      if |possible[s]| == 2 {
        var gear := Gear(s.location, possible[s][0].value, possible[s][1].value);
        RatiosAppend(gears, gear);
        gears := gears + [gear];
        sum := sum + Ratio(gear);
      }
      remaining := remaining - {s};
    }
  }

  function Ratios(gears: seq<Gear>): (r: seq<int>)
    ensures |r| == |gears|
  {
    if gears == [] then [] else Ratios(gears[..|gears| - 1]) + [Ratio(gears[|gears| - 1])]
  }

  lemma RatiosAppend(gears: seq<Gear>, g: Gear)
    ensures Sums.SeqSum(Ratios(gears + [g])) == Sums.SeqSum(Ratios(gears)) + Ratio(g)
  {
    assert (gears + [g])[..|gears|] == gears;
  }

  /** Part 2: the sum of the gear ratios. */
  method Part2(schematic: seq<string>, matches: seq<NumberMatch>) returns (r: Option<int>)
    ensures GetPartNumbers(schematic, matches).None? ==> r.None?
    ensures GetPartNumbers(schematic, matches).Some? ==>
      r == Some(GearSum(PossibleGearsOf(GetPartNumbers(schematic, matches).value)))
  {
    var parts := GetPartNumbers(schematic, matches);
    if parts.None? {
      return None;
    }
    var possible := PossibleGears(parts.value);
    var gears, sum := Gears(possible);
    r := Some(sum);
  }

  /*------------------------------------------------------------------------
    Symbols
  ------------------------------------------------------------------------*/

  /** `identify_symbols`: the characters of the schematic that are neither
      a dot nor a digit. */
  function IdentifySymbols(schematic: seq<string>): set<char> {
    set i, k | 0 <= i < |schematic| && 0 <= k < |schematic[i]| && schematic[i][k] !in NotSymbols :: schematic[i][k]
  }

  /** Every symbol that makes a part number is among the identified ones,
      and nothing identified is a dot or a digit. */
  lemma IdentifySymbolsSpec(schematic: seq<string>)
    ensures forall i, k :: 0 <= i < |schematic| && 0 <= k < |schematic[i]| && schematic[i][k] in Symbols ==>
      schematic[i][k] in IdentifySymbols(schematic)
    ensures forall c :: c in IdentifySymbols(schematic) ==> c != '.' && !('0' <= c <= '9')
  {
  }
}
