/**
 * 2024 day 4, Ceres Search: a word search. Part 1 counts every way "XMAS" is
 * written from an `X` in any of the eight directions; part 2 counts the `A`s
 * at the centre of two crossed "MAS" diagonals (each read either way).
 */
module Day4 {
  import opened Wrappers
  import opened Text

  /** `(row, column)`, a `(usize, usize)` in the source. */
  type Coordinate = (nat, nat)

  /** `(row, column)` shift, an `(i32, i32)` in the source. */
  type Offset = (int, int)

  /** A letter with the cell it was read from. */
  type Cell = (char, Coordinate)

  datatype WordSearch = WordSearch(puzzle: seq<seq<char>>, rows: nat, columns: nat)

  /** A rectangular puzzle, which every query can index: as many rows as `rows`, each `columns`
      letters long. */
  predicate Rectangular(ws: WordSearch) {
    ws.rows == |ws.puzzle| && forall r :: 0 <= r < |ws.puzzle| ==> |ws.puzzle[r]| == ws.columns
  }

  /** Inside the puzzle, for a coordinate that may have left it. */
  predicate InGrid(ws: WordSearch, p: (int, int)) {
    0 <= p.0 < ws.rows && 0 <= p.1 < ws.columns
  }

  /** `WordSearch::get_letter`: the letter of a cell inside the puzzle, None
      outside. */
  function GetLetter(ws: WordSearch, row: nat, column: nat): (r: Option<char>)
    requires Rectangular(ws)
    ensures r.Some? <==> InGrid(ws, (row, column))
    ensures r.Some? ==> r.value == ws.puzzle[row][column]
  {
    if row < ws.rows && column < ws.columns then Some(ws.puzzle[row][column]) else None
  }

  /** `WordSearch::project`: a coordinate shifted by an offset, None when the
      shift leaves the puzzle on either side. */
  function Project(ws: WordSearch, coordinate: Coordinate, offset: Offset): (r: Option<Coordinate>)
    ensures r.Some? <==> InGrid(ws, (coordinate.0 + offset.0, coordinate.1 + offset.1))
    ensures r.Some? ==> r.value == (coordinate.0 + offset.0, coordinate.1 + offset.1)
  {
    var shifted := (coordinate.0 + offset.0, coordinate.1 + offset.1);
    if shifted.0 >= 0 && shifted.1 >= 0 then
      var next := (shifted.0 as nat, shifted.1 as nat);
      if next.0 < ws.rows && next.1 < ws.columns then Some(next) else None
    else None
  }

  /** What `project_offsets` computes: every offset projected from `start`, in
      order, or None as soon as one leaves the puzzle. */
  function ProjectAll(ws: WordSearch, start: Coordinate, offsets: seq<Offset>): (r: Option<seq<Coordinate>>)
    ensures r.Some? <==> forall i :: 0 <= i < |offsets| ==> Project(ws, start, offsets[i]).Some?
    ensures r.Some? ==> (|r.value| == |offsets| &&
      forall i :: 0 <= i < |offsets| ==> r.value[i] == Project(ws, start, offsets[i]).value)
  {
    if |offsets| == 0 then Some([])
    else
      match ProjectAll(ws, start, offsets[..|offsets| - 1])
      case None => None
      case Some(init) =>
        match Project(ws, start, offsets[|offsets| - 1])
        case None => None
        case Some(last) => Some(init + [last])
  }

  /** `WordSearch::project_offsets`: the loop that pushes each projection and
      gives up (`?`) at the first that leaves the puzzle. */
  method ProjectOffsets(ws: WordSearch, start: Coordinate, offsets: seq<Offset>) returns (r: Option<seq<Coordinate>>)
    ensures r == ProjectAll(ws, start, offsets)
  {
    var coordinates := [];
    for i := 0 to |offsets|
      invariant ProjectAll(ws, start, offsets[..i]) == Some(coordinates)
    {
      assert offsets[..i + 1][..i] == offsets[..i];
      var next := Project(ws, start, offsets[i]);
      if next.None? {
        return None;
      }
      coordinates := coordinates + [next.value];
    }
    assert offsets[..|offsets|] == offsets;
    return Some(coordinates);
  }

  /* ---------------------------------------------------------------------
     Reading the puzzle cell by cell
     --------------------------------------------------------------------- */

  /** The cells of row `r`, left to right. */
  function RowCells(ws: WordSearch, r: nat): seq<Cell>
    requires Rectangular(ws) && r < ws.rows
  {
    seq(ws.columns, c requires 0 <= c < ws.columns => (ws.puzzle[r][c], (r, c)))
  }

  /** The cells of the first `n` rows, in reading order. */
  function CellsUpTo(ws: WordSearch, n: nat): seq<Cell>
    requires Rectangular(ws) && n <= ws.rows
  {
    if n == 0 then [] else CellsUpTo(ws, n - 1) + RowCells(ws, n - 1)
  }

  /** Every cell of the puzzle in reading order. */
  function Cells(ws: WordSearch): seq<Cell>
    requires Rectangular(ws)
  {
    CellsUpTo(ws, ws.rows)
  }

  lemma {:induction false} CellsUpToMember(ws: WordSearch, n: nat, cell: Cell)
    requires Rectangular(ws) && n <= ws.rows
    ensures cell in CellsUpTo(ws, n) <==>
      cell.1.0 < n && cell.1.1 < ws.columns && cell.0 == ws.puzzle[cell.1.0][cell.1.1]
  {
    if n > 0 {
      CellsUpToMember(ws, n - 1, cell);
      if cell.1.0 == n - 1 && cell.1.1 < ws.columns && cell.0 == ws.puzzle[cell.1.0][cell.1.1] {
        assert RowCells(ws, n - 1)[cell.1.1] == cell;
      }
    }
  }

  /** The cells listed are exactly the puzzle's cells with their letters. */
  lemma CellsMember(ws: WordSearch, cell: Cell)
    requires Rectangular(ws)
    ensures cell in Cells(ws) <==> InGrid(ws, cell.1) && cell.0 == ws.puzzle[cell.1.0][cell.1.1]
  {
    CellsUpToMember(ws, ws.rows, cell);
  }

  /** Reading order: by row, then by column. */
  predicate Before(p: Coordinate, q: Coordinate) {
    p.0 < q.0 || (p.0 == q.0 && p.1 < q.1)
  }

  predicate InReadingOrder(cells: seq<Cell>) {
    forall i, j :: 0 <= i < j < |cells| ==> Before(cells[i].1, cells[j].1)
  }

  lemma {:induction false} CellsUpToInOrder(ws: WordSearch, n: nat)
    requires Rectangular(ws) && n <= ws.rows
    ensures InReadingOrder(CellsUpTo(ws, n))
  {
    if n > 0 {
      CellsUpToInOrder(ws, n - 1);
      var a: seq<Cell>, b: seq<Cell> := CellsUpTo(ws, n - 1), RowCells(ws, n - 1);
      forall i, j | 0 <= i < j < |a + b| ensures Before((a + b)[i].1, (a + b)[j].1) {
        if j < |a| {
          assert (a + b)[i] == a[i] && (a + b)[j] == a[j];
        } else if i >= |a| {
          assert (a + b)[i] == b[i - |a|] && (a + b)[j] == b[j - |a|];
        } else {
          assert (a + b)[i] == a[i] && (a + b)[j] == b[j - |a|];
          CellsUpToMember(ws, n - 1, a[i]);
        }
      }
    }
  }

  /** Each cell comes once, in reading order. */
  lemma CellsInOrder(ws: WordSearch)
    requires Rectangular(ws)
    ensures InReadingOrder(Cells(ws))
  {
    CellsUpToInOrder(ws, ws.rows);
  }

  lemma {:induction false} NoColumnsNoCells(ws: WordSearch, n: nat)
    requires Rectangular(ws) && ws.columns == 0 && n <= ws.rows
    ensures CellsUpTo(ws, n) == []
  {
    if n > 0 {
      NoColumnsNoCells(ws, n - 1);
    }
  }

  /** `WordSearchIterator`: a cursor over the puzzle in reading order. */
  class WordSearchIterator {
    const search: WordSearch
    var row: nat
    var column: nat

    /** The cursor is on a cell, or just past the last row, or the puzzle has
        no columns at all. */
    ghost predicate Valid()
      reads this
    {
      Rectangular(search) && row <= search.rows && (column < search.columns || column == 0) &&
      (row == search.rows ==> column == 0)
    }

    /** The cells `next` has already yielded. */
    ghost function Yielded(): seq<Cell>
      requires Valid()
      reads this
    {
      if row < search.rows then CellsUpTo(search, row) + RowCells(search, row)[..column]
      else CellsUpTo(search, search.rows)
    }

    /** `WordSearchIterator::new`: at the top-left cell. */
    constructor (search: WordSearch)
      requires Rectangular(search)
      ensures Valid() && this.search == search && row == 0 && column == 0 && Yielded() == []
    {
      this.search := search;
      row := 0;
      column := 0;
    }

    /** `WordSearchIterator::next`: the letter under the cursor and its cell,
        then the cursor moves right, wrapping to the start of the next row;
        None once the cursor has left the puzzle, when every cell has been
        yielded. */
    method Next() returns (r: Option<Cell>)
      requires Valid()
      modifies this
      ensures Valid()
      ensures old(row) < search.rows && old(column) < search.columns ==>
        r == Some((search.puzzle[old(row)][old(column)], (old(row), old(column)))) &&
        Yielded() == old(Yielded()) + [r.value] &&
        (row, column) == if old(column) + 1 == search.columns then (old(row) + 1, 0) else (old(row), old(column) + 1)
      ensures !(old(row) < search.rows && old(column) < search.columns) ==>
        r.None? && row == old(row) && column == old(column) && Yielded() == Cells(search)
    {
      var letter := GetLetter(search, row, column);
      if letter.None? {
        if row < search.rows {
          NoColumnsNoCells(search, row);
          NoColumnsNoCells(search, search.rows);
        }
        return None;
      }
      r := Some((letter.value, (row, column)));
      var line := RowCells(search, row);
      assert line[..column + 1] == line[..column] + [r.value];
      var nextColumn := column + 1;
      if nextColumn == search.columns {
        assert line[..column + 1] == line;
        row, column := row + 1, 0;
      } else {
        column := nextColumn;
      }
    }
  }

  /** The whole iteration: every cell of the puzzle in reading order. */
  method Enumerate(ws: WordSearch) returns (cells: seq<Cell>)
    requires Rectangular(ws)
    ensures cells == Cells(ws)
  {
    var cursor := new WordSearchIterator(ws);
    cells := [];
    while true
      invariant cursor.Valid() && cursor.search == ws && cells == cursor.Yielded()
      decreases ws.rows - cursor.row, ws.columns - cursor.column
    {
      var next := cursor.Next();
      if next.None? {
        return;
      }
      cells := cells + [next.value];
    }
  }

  /* ---------------------------------------------------------------------
     Part 1: a word in eight directions
     --------------------------------------------------------------------- */

  /** The unit shifts of north-west, north, north-east, east, south-east,
      south, south-west and west, in the order of `Word::offsets`. */
  const Units: seq<Offset> := [(-1, -1), (-1, 0), (-1, 1), (0, 1), (1, 1), (1, 0), (1, -1), (0, -1)]

  /** `n` steps along a unit shift, from 0. */
  function Ray(unit: Offset, n: nat): seq<Offset> {
    seq(n, i => (i * unit.0, i * unit.1))
  }

  datatype Word = Word(word: string, offsets: seq<seq<Offset>>)

  /** One offset list per direction, one offset per letter: entry `k` of
      direction `d` is `k` times that direction's unit shift. */
  predicate WellFormed(w: Word) {
    |w.offsets| == 8 &&
    forall d :: 0 <= d < 8 ==> (|w.offsets[d]| == |w.word| &&
      forall k :: 0 <= k < |w.word| ==> w.offsets[d][k] == (k * Units[d].0, k * Units[d].1))
  }

  /** The word `Word::new` builds. */
  function WordOf(word: string): (w: Word)
    ensures w.word == word && WellFormed(w)
  {
    Word(word, seq(8, d requires 0 <= d < 8 => Ray(Units[d], |word|)))
  }

  /** `Word::new`: eight offset lists filled letter by letter. */
  method NewWord(word: string) returns (w: Word)
    ensures w == WordOf(word)
  {
    var offsets := new seq<Offset>[8](_ => []);
    for index := 0 to |word|
      invariant forall d :: 0 <= d < 8 ==> offsets[d] == Ray(Units[d], index)
    {
      Push(offsets, 0, index, (-index, -index));
      Push(offsets, 1, index, (-index, 0));
      Push(offsets, 2, index, (-index, index));
      Push(offsets, 3, index, (0, index));
      Push(offsets, 4, index, (index, index));
      Push(offsets, 5, index, (index, 0));
      Push(offsets, 6, index, (index, -index));
      Push(offsets, 7, index, (0, -index));
    }
    w := Word(word, offsets[..]);
    assert w.offsets == WordOf(word).offsets;
  }

  /** One `push` onto direction `d`'s list: its next offset, `index` unit
      shifts away. */
  method Push(offsets: array<seq<Offset>>, d: nat, index: nat, offset: Offset)
    requires offsets.Length == 8 && d < 8
    requires offset == (index * Units[d].0, index * Units[d].1)
    requires forall e :: 0 <= e < 8 && e < d ==> offsets[e] == Ray(Units[e], index + 1)
    requires forall e :: 0 <= e < 8 && e >= d ==> offsets[e] == Ray(Units[e], index)
    modifies offsets
    ensures forall e :: 0 <= e < 8 && e <= d ==> offsets[e] == Ray(Units[e], index + 1)
    ensures forall e :: 0 <= e < 8 && e > d ==> offsets[e] == Ray(Units[e], index)
  {
    RayStep(Units[d], index);
    offsets[d] := offsets[d] + [offset];
  }

  lemma RayStep(unit: Offset, n: nat)
    ensures Ray(unit, n + 1) == Ray(unit, n) + [(n * unit.0, n * unit.1)]
  {
  }

  /** `WordSearch::check_word`: each coordinate holds the letter of the word at
      its position; the source asserts the lengths agree. */
  predicate CheckWord(ws: WordSearch, coordinates: seq<Coordinate>, word: string)
    requires Rectangular(ws) && |coordinates| == |word|
  {
    forall i :: 0 <= i < |coordinates| ==> GetLetter(ws, coordinates[i].0, coordinates[i].1) == Some(word[i])
  }

  /** Direction `d`'s offsets all stay in the puzzle and spell the word. */
  predicate Found(ws: WordSearch, start: Coordinate, w: Word, d: nat)
    requires Rectangular(ws) && WellFormed(w) && d < 8
  {
    match ProjectAll(ws, start, w.offsets[d])
    case None => false
    case Some(coordinates) => CheckWord(ws, coordinates, w.word)
  }

  /** The directions among the first `n` in which the word is found. */
  function CountFound(ws: WordSearch, start: Coordinate, w: Word, n: nat): (r: nat)
    requires Rectangular(ws) && WellFormed(w) && n <= 8
    ensures r <= n
  {
    if n == 0 then 0 else CountFound(ws, start, w, n - 1) + (if Found(ws, start, w, n - 1) then 1 else 0)
  }

  /** `WordSearch::find_word`: in how many of the eight directions the word is
      written from `start`. */
  function FindWord(ws: WordSearch, start: Coordinate, w: Word): (r: nat)
    requires Rectangular(ws) && WellFormed(w)
    ensures r <= 8
  {
    CountFound(ws, start, w, 8)
  }

  /** The cell `k` steps from `start` in direction `d`. */
  function Along(start: Coordinate, d: nat, k: int): (int, int)
    requires d < 8
  {
    (start.0 + k * Units[d].0, start.1 + k * Units[d].1)
  }

  /** The word is written from `start` in direction `d`: its `k`-th letter is
      in the puzzle `k` steps along. */
  predicate SpellsAlong(ws: WordSearch, start: Coordinate, word: string, d: nat)
    requires Rectangular(ws) && d < 8
  {
    forall k :: 0 <= k < |word| ==>
      InGrid(ws, Along(start, d, k)) && ws.puzzle[Along(start, d, k).0][Along(start, d, k).1] == word[k]
  }

  /** The directions in which the word is written from `start`. */
  function Spelled(ws: WordSearch, start: Coordinate, word: string): set<nat>
    requires Rectangular(ws)
  {
    set d: nat | d < 8 && SpellsAlong(ws, start, word, d)
  }

  lemma FoundIff(ws: WordSearch, start: Coordinate, w: Word, d: nat)
    requires Rectangular(ws) && WellFormed(w) && d < 8
    ensures Found(ws, start, w, d) <==> SpellsAlong(ws, start, w.word, d)
  {
    var offsets := w.offsets[d];
    var projected := ProjectAll(ws, start, offsets);
    forall k | 0 <= k < |offsets|
      ensures Project(ws, start, offsets[k]).Some? <==> InGrid(ws, Along(start, d, k))
      ensures Project(ws, start, offsets[k]).Some? ==> Project(ws, start, offsets[k]).value == Along(start, d, k)
    {
      assert offsets[k] == (k * Units[d].0, k * Units[d].1);
    }
    if SpellsAlong(ws, start, w.word, d) {
      assert projected.Some?;
      forall k | 0 <= k < |offsets|
        ensures GetLetter(ws, projected.value[k].0, projected.value[k].1) == Some(w.word[k])
      {
        assert projected.value[k] == Along(start, d, k);
      }
    }
    if Found(ws, start, w, d) {
      forall k | 0 <= k < |w.word|
        ensures InGrid(ws, Along(start, d, k)) && ws.puzzle[Along(start, d, k).0][Along(start, d, k).1] == w.word[k]
      {
        assert GetLetter(ws, projected.value[k].0, projected.value[k].1) == Some(w.word[k]);
      }
    }
  }

  lemma {:induction false} CountFoundSpelled(ws: WordSearch, start: Coordinate, w: Word, n: nat)
    requires Rectangular(ws) && WellFormed(w) && n <= 8
    ensures CountFound(ws, start, w, n) == |set d: nat | d in Spelled(ws, start, w.word) && d < n|
  {
    if n > 0 {
      CountFoundSpelled(ws, start, w, n - 1);
      FoundIff(ws, start, w, n - 1);
      BelowStep(Spelled(ws, start, w.word), n);
    }
  }

  /** Counting the members of `s` below `n` one candidate at a time. */
  lemma BelowStep(s: set<nat>, n: nat)
    requires n > 0
    ensures |set d: nat | d in s && d < n| == |set d: nat | d in s && d < n - 1| + (if n - 1 in s then 1 else 0)
  {
    var before := set d: nat | d in s && d < n - 1;
    var after := set d: nat | d in s && d < n;
    if n - 1 in s {
      assert after == before + {n - 1};
    } else {
      assert after == before;
    }
  }

  /** `find_word` counts exactly the directions in which the word is written. */
  lemma FindWordCounts(ws: WordSearch, start: Coordinate, w: Word)
    requires Rectangular(ws) && WellFormed(w)
    ensures FindWord(ws, start, w) == |Spelled(ws, start, w.word)|
  {
    CountFoundSpelled(ws, start, w, 8);
    var s := Spelled(ws, start, w.word);
    assert (set d: nat | d in s && d < 8) == s;
  }

  /** A word is never found from a cell that does not hold its first letter,
      so counting only from the `X`s loses nothing. */
  lemma FindWordFirstLetter(ws: WordSearch, start: Coordinate, w: Word)
    requires Rectangular(ws) && WellFormed(w) && |w.word| > 0
    requires GetLetter(ws, start.0, start.1) != Some(w.word[0])
    ensures FindWord(ws, start, w) == 0
  {
    FindWordCounts(ws, start, w);
    forall d: nat | d < 8 ensures !SpellsAlong(ws, start, w.word, d) {
      assert Along(start, d, 0) == (start.0, start.1);
    }
    assert Spelled(ws, start, w.word) == {};
  }

  /** The part 1 sum over the `X` cells of `cells`. */
  function XmasCount(ws: WordSearch, cells: seq<Cell>): nat
    requires Rectangular(ws)
  {
    if |cells| == 0 then 0
    else
      var cell := cells[|cells| - 1];
      XmasCount(ws, cells[..|cells| - 1]) + (if cell.0 == 'X' then FindWord(ws, cell.1, WordOf("XMAS")) else 0)
  }

  /** The number of ways "XMAS" is written from each cell, summed. */
  function SpelledCount(ws: WordSearch, cells: seq<Cell>): nat
    requires Rectangular(ws)
  {
    if |cells| == 0 then 0
    else SpelledCount(ws, cells[..|cells| - 1]) + |Spelled(ws, cells[|cells| - 1].1, "XMAS")|
  }

  /** Over cells that carry their own letters, part 1 counts every way
      "XMAS" is written, whatever the starting letter. */
  lemma {:induction false} XmasCountSpelled(ws: WordSearch, cells: seq<Cell>)
    requires Rectangular(ws)
    requires forall i :: 0 <= i < |cells| ==> GetLetter(ws, cells[i].1.0, cells[i].1.1) == Some(cells[i].0)
    ensures XmasCount(ws, cells) == SpelledCount(ws, cells)
  {
    if |cells| > 0 {
      var cell := cells[|cells| - 1];
      XmasCountSpelled(ws, cells[..|cells| - 1]);
      FindWordCounts(ws, cell.1, WordOf("XMAS"));
      if cell.0 != 'X' {
        FindWordFirstLetter(ws, cell.1, WordOf("XMAS"));
      }
    }
  }

  /* ---------------------------------------------------------------------
     Part 2: crossed "MAS"
     --------------------------------------------------------------------- */

  /** `Xmas::new`: north-west, north-east, centre, south-west, south-east. */
  const XmasOffsets: seq<Offset> := [(-1, -1), (-1, 1), (0, 0), (1, -1), (1, 1)]

  /** `WordSearch::find_x_mas`: 1 when the five letters around `start` match one
      of the four accepted patterns, None otherwise (also when a corner is
      off the puzzle). */
  function FindXMas(ws: WordSearch, start: Coordinate): (r: Option<nat>)
    requires Rectangular(ws)
    ensures r.Some? ==> r.value == 1
  {
    match ProjectAll(ws, start, XmasOffsets)
    case None => None
    case Some(coordinates) =>
      var letters := seq(5, i requires 0 <= i < 5 => GetLetter(ws, coordinates[i].0, coordinates[i].1).value);
      if letters in {"MMASS", "MSAMS", "SMASM", "SSAMM"} then Some(1) else None
  }

  /** A diagonal reads "MAS" one way or the other. */
  predicate MasEnds(a: char, b: char) {
    (a == 'M' && b == 'S') || (a == 'S' && b == 'M')
  }

  /** An `A` whose two diagonals both read "MAS", forwards or backwards. */
  predicate CrossedMas(ws: WordSearch, p: Coordinate)
    requires Rectangular(ws)
  {
    var (r, c) := p;
    1 <= r && r + 1 < ws.rows && 1 <= c && c + 1 < ws.columns &&
    ws.puzzle[r][c] == 'A' &&
    MasEnds(ws.puzzle[r - 1][c - 1], ws.puzzle[r + 1][c + 1]) &&
    MasEnds(ws.puzzle[r - 1][c + 1], ws.puzzle[r + 1][c - 1])
  }

  /** The four patterns are exactly the crossed "MAS" shapes. */
  lemma FindXMasIff(ws: WordSearch, p: Coordinate)
    requires Rectangular(ws)
    ensures FindXMas(ws, p).Some? <==> CrossedMas(ws, p)
  {
    var (r, c) := p;
    var projected := ProjectAll(ws, p, XmasOffsets);
    assert projected.Some? <==> 1 <= r && r + 1 < ws.rows && 1 <= c && c + 1 < ws.columns by {
      assert XmasOffsets[0] == (-1, -1) && XmasOffsets[4] == (1, 1);
      assert XmasOffsets[1] == (-1, 1) && XmasOffsets[3] == (1, -1) && XmasOffsets[2] == (0, 0);
    }
    if projected.Some? {
      var cs := projected.value;
      assert cs == [(r - 1, c - 1), (r - 1, c + 1), (r, c), (r + 1, c - 1), (r + 1, c + 1)];
      var letters := seq(5, i requires 0 <= i < 5 => GetLetter(ws, cs[i].0, cs[i].1).value);
      assert letters == [ws.puzzle[r - 1][c - 1], ws.puzzle[r - 1][c + 1], ws.puzzle[r][c],
        ws.puzzle[r + 1][c - 1], ws.puzzle[r + 1][c + 1]];
    }
  }

  /** The part 2 sum over the `A` cells of `cells`. */
  function CrossCount(ws: WordSearch, cells: seq<Cell>): nat
    requires Rectangular(ws)
  {
    if |cells| == 0 then 0
    else
      var cell := cells[|cells| - 1];
      var found := if cell.0 == 'A' then FindXMas(ws, cell.1) else None;
      CrossCount(ws, cells[..|cells| - 1]) + (if found.Some? then found.value else 0)
  }

  /** How many of the cells are centres of a crossed "MAS". */
  function CentreCount(ws: WordSearch, cells: seq<Cell>): nat
    requires Rectangular(ws)
  {
    if |cells| == 0 then 0
    else CentreCount(ws, cells[..|cells| - 1]) + (if CrossedMas(ws, cells[|cells| - 1].1) then 1 else 0)
  }

  /** Over cells that carry their own letters, part 2 counts the centres of
      crossed "MAS" shapes. */
  lemma {:induction false} CrossCountCentres(ws: WordSearch, cells: seq<Cell>)
    requires Rectangular(ws)
    requires forall i :: 0 <= i < |cells| ==> GetLetter(ws, cells[i].1.0, cells[i].1.1) == Some(cells[i].0)
    ensures CrossCount(ws, cells) == CentreCount(ws, cells)
  {
    if |cells| > 0 {
      CrossCountCentres(ws, cells[..|cells| - 1]);
      FindXMasIff(ws, cells[|cells| - 1].1);
    }
  }

  /* ---------------------------------------------------------------------
     Parts
     --------------------------------------------------------------------- */

  /** The puzzle, one row per line; no line leaves `WordSearch::new` no first
      row (a panic), and a ragged puzzle is rejected. */
  function ParsePuzzle(input: string): (r: Option<WordSearch>)
    ensures r.Some? <==> (|Lines(input)| > 0 &&
      forall i :: 0 <= i < |Lines(input)| ==> |Lines(input)[i]| == |Lines(input)[0]|)
    ensures r.Some? ==> Rectangular(r.value) && r.value.puzzle == Lines(input)
  {
    var lines := Lines(input);
    if |lines| == 0 || !(forall i :: 0 <= i < |lines| ==> |lines[i]| == |lines[0]|) then None
    else Some(WordSearch(lines, |lines|, |lines[0]|))
  }

  /** The cells of `Cells` carry their own letters. */
  lemma CellsCarryLetters(ws: WordSearch)
    requires Rectangular(ws)
    ensures forall i :: 0 <= i < |Cells(ws)| ==>
      GetLetter(ws, Cells(ws)[i].1.0, Cells(ws)[i].1.1) == Some(Cells(ws)[i].0)
  {
    forall i | 0 <= i < |Cells(ws)|
      ensures GetLetter(ws, Cells(ws)[i].1.0, Cells(ws)[i].1.1) == Some(Cells(ws)[i].0)
    {
      CellsMember(ws, Cells(ws)[i]);
    }
  }

  /** `part1`: how many times "XMAS" is written in the puzzle, in any of the
      eight directions. */
  method Part1(input: string) returns (r: Option<nat>)
    ensures r.None? <==> ParsePuzzle(input).None?
    ensures r.Some? ==> r.value == SpelledCount(ParsePuzzle(input).value, Cells(ParsePuzzle(input).value))
  {
    var parsed := ParsePuzzle(input);
    if parsed.None? {
      return None;
    }
    var ws := parsed.value;
    var word := NewWord("XMAS");
    var cells := Enumerate(ws);
    var total := 0;
    for i := 0 to |cells|
      invariant total == XmasCount(ws, cells[..i])
    {
      assert cells[..i + 1][..i] == cells[..i];
      if cells[i].0 == 'X' {
        total := total + FindWord(ws, cells[i].1, word);
      }
    }
    assert cells[..|cells|] == cells;
    CellsCarryLetters(ws);
    XmasCountSpelled(ws, cells);
    return Some(total);
  }

  /** `part2`: how many cells are the centre of a crossed "MAS". */
  method Part2(input: string) returns (r: Option<nat>)
    ensures r.None? <==> ParsePuzzle(input).None?
    ensures r.Some? ==> r.value == CentreCount(ParsePuzzle(input).value, Cells(ParsePuzzle(input).value))
  {
    var parsed := ParsePuzzle(input);
    if parsed.None? {
      return None;
    }
    var ws := parsed.value;
    var cells := Enumerate(ws);
    var total := 0;
    for i := 0 to |cells|
      invariant total == CrossCount(ws, cells[..i])
    {
      assert cells[..i + 1][..i] == cells[..i];
      if cells[i].0 == 'A' {
        var found := FindXMas(ws, cells[i].1);
        if found.Some? {
          total := total + found.value;
        }
      }
    }
    assert cells[..|cells|] == cells;
    CellsCarryLetters(ws);
    CrossCountCentres(ws, cells);
    return Some(total);
  }
}
