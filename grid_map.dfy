/**
 * `Map<I, T>` of the shared grid kit: a dense, row-major buffer of cells with
 * bounds `(rows, columns)`. Cells are read through bounds-checked grid
 * indices and written in place by `set` and `get_mut`.
 */
module GridMap {
  import opened Wrappers
  import opened GridIndex
  import opened Text
  import Direction

  /** The rows laid end to end, row-major. */
  function Flatten<T>(rows: seq<seq<T>>): seq<T> {
    if |rows| == 0 then [] else rows[0] + Flatten(rows[1..])
  }

  /** Rust's `chunks(columns)`: consecutive rows of `columns` cells, the last one possibly shorter. */
  function Chunks<T>(data: seq<T>, columns: nat): seq<seq<T>>
    requires columns > 0
    decreases |data|
  {
    if |data| == 0 then []
    else if |data| <= columns then [data]
    else [data[..columns]] + Chunks(data[columns..], columns)
  }

  predicate Rectangular<T>(rows: seq<seq<T>>, columns: nat) {
    forall i :: 0 <= i < |rows| ==> |rows[i]| == columns
  }

  /** Cutting flattened rectangular rows back into rows gives the rows again. */
  lemma {:induction false} ChunksOfFlatten<T>(rows: seq<seq<T>>, columns: nat)
    requires columns > 0 && Rectangular(rows, columns)
    ensures |Flatten(rows)| == |rows| * columns
    ensures Chunks(Flatten(rows), columns) == rows
  {
    if |rows| > 0 {
      ChunksOfFlatten(rows[1..], columns);
      var f := Flatten(rows);
      assert f == rows[0] + Flatten(rows[1..]);
      if |rows| == 1 {
        assert Flatten(rows[1..]) == [];
        assert f == rows[0];
      } else {
        assert f[..columns] == rows[0];
        assert f[columns..] == Flatten(rows[1..]);
        assert rows == [rows[0]] + rows[1..];
      }
    }
  }

  /** Cutting cells into rows and laying the rows end to end gives the cells back. */
  lemma {:induction false} FlattenOfChunks<T>(data: seq<T>, columns: nat)
    requires columns > 0
    ensures Flatten(Chunks(data, columns)) == data
    decreases |data|
  {
    if |data| > columns {
      FlattenOfChunks(data[columns..], columns);
      assert Chunks(data, columns)[1..] == Chunks(data[columns..], columns);
      assert data == data[..columns] + data[columns..];
    } else if |data| > 0 {
      assert Chunks(data, columns)[1..] == [];
    }
  }

  /** `rows * columns` cells make `rows` full rows. */
  lemma {:induction false} ChunksShape<T>(data: seq<T>, rows: nat, columns: nat)
    requires columns > 0 && |data| == rows * columns
    ensures |Chunks(data, columns)| == rows && Rectangular(Chunks(data, columns), columns)
    decreases rows
  {
    if rows > 1 {
      assert rows * columns == (rows - 1) * columns + columns;
      assert (rows - 1) * columns >= columns by {
        MulMonotone(1, rows - 1, columns);
      }
      ChunksShape(data[columns..], rows - 1, columns);
      assert Chunks(data, columns) == [data[..columns]] + Chunks(data[columns..], columns);
    } else if rows == 1 {
      assert Chunks(data, columns) == [data];
    }
  }

  /** What text or iterator construction produces: the flattened cells and the
      bounds (number of rows, length of the FIRST row). Construction panics when
      there is no row, or when the cell count differs from rows times that length. */
  function Construct<T>(rows: seq<seq<T>>): (r: Result<(seq<T>, Index), string>)
    ensures r.Ok? <==> |rows| > 0 && |Flatten(rows)| == |rows| * |rows[0]|
    ensures r.Ok? ==> r.value.0 == Flatten(rows) && r.value.1 == Index(|rows|, |rows[0]|)
  {
    if |rows| == 0 then Err("no rows")
    else if |Flatten(rows)| != |rows| * |rows[0]| then Err("All rows must have the same number of columns")
    else Ok((Flatten(rows), Index(|rows|, |rows[0]|)))
  }

  /** `Map::from(&str)`: one row per line, one cell per character. */
  function FromStr(s: string): Result<(seq<char>, Index), string> {
    Construct(Lines(s))
  }

  /** `Map::from_char_map`: as `FromStr`, with every character converted by `f`. */
  function FromCharMap<T>(s: string, f: char -> T): Result<(seq<T>, Index), string> {
    Construct(seq(|Lines(s)|, i requires 0 <= i < |Lines(s)| => seq(|Lines(s)[i]|, j requires 0 <= j < |Lines(s)[i]| => f(Lines(s)[i][j]))))
  }

  /** Rectangular rows are always accepted. */
  lemma RectangularAccepted<T>(rows: seq<seq<T>>)
    requires |rows| > 0 && |rows[0]| > 0 && Rectangular(rows, |rows[0]|)
    ensures Construct(rows).Ok?
  {
    ChunksOfFlatten(rows, |rows[0]|);
  }

  /** Ragged rows are accepted when the cell count happens to match; rectangular
      rows of the wrong shape are refused. */
  lemma RaggedExamples()
    ensures Construct([[1, 2], [3, 4, 5], [6]]) == Ok(([1, 2, 3, 4, 5, 6], Index(3, 2)))
    ensures Construct([[1, 2], [3]]).Err?
    ensures Construct<int>([]).Err?
  {
    assert Flatten([[1, 2], [3, 4, 5], [6]]) == [1, 2, 3, 4, 5, 6] by {
      assert Flatten([[6]]) == [6];
      assert Flatten([[3, 4, 5], [6]]) == [3, 4, 5, 6];
    }
    assert Flatten([[1, 2], [3]]) == [1, 2, 3] by {
      assert Flatten([[3]]) == [3];
    }
  }

  lemma RowMajorInRange(r: int, c: int, rows: int, columns: int)
    requires 0 <= r < rows && 0 <= c < columns
    ensures 0 <= r * columns + c < rows * columns
  {
    assert r * columns <= (rows - 1) * columns;
    assert (rows - 1) * columns + columns == rows * columns;
  }

  lemma MulMonotone(a: int, b: int, c: int)
    requires a <= b && c >= 0
    ensures a * c <= b * c
  {
    assert b * c - a * c == (b - a) * c;
  }

  lemma RowMajorDivMod(r: int, c: int, columns: int)
    requires 0 <= r && 0 <= c < columns
    ensures (r * columns + c) / columns == r
    ensures (r * columns + c) % columns == c
  {
    var x := r * columns + c;
    var q := x / columns;
    var m := x % columns;
    assert q * columns + m == x;
    if q > r {
      MulMonotone(r + 1, q, columns);
    } else if q < r {
      MulMonotone(q + 1, r, columns);
    }
  }

  lemma SplitInRange(k: int, rows: int, columns: int)
    requires 0 <= k < rows * columns && rows >= 0 && columns >= 0
    ensures columns > 0
    ensures 0 <= k / columns < rows && 0 <= k % columns < columns
    ensures (k / columns) * columns + k % columns == k
  {
    if columns > 0 && k / columns >= rows {
      MulMonotone(rows, k / columns, columns);
    }
  }

  /** Row-major position order is the lexicographic order on in-bounds indices. */
  lemma RowMajorLess(a: Index, b: Index, columns: int)
    requires 0 <= a.column < columns && 0 <= b.column < columns
    requires a.row * columns + a.column < b.row * columns + b.column
    ensures Less(a, b)
  {
    if a.row > b.row {
      MulMonotone(b.row + 1, a.row, columns);
    }
  }

  class Map<T> {
    var data: seq<T>
    var bounds: Index

    ghost predicate Valid()
      reads this
    {
      bounds.row >= 0 && bounds.column >= 0 && |data| == bounds.row * bounds.column
    }

    /** `Map::new`: `rows * columns` copies of `default`. */
    constructor New(rows: nat, columns: nat, default: T)
      ensures Valid() && bounds == Index(rows, columns)
      ensures |data| == rows * columns && forall k :: 0 <= k < |data| ==> data[k] == default
    {
      data := seq(rows * columns, _ => default);
      bounds := Index(rows, columns);
    }

    /** Text or iterator construction, on rows the source does not panic on. */
    constructor FromRows(rows: seq<seq<T>>)
      requires Construct(rows).Ok?
      ensures Valid()
      ensures (data, bounds) == Construct(rows).value
    {
      data := Flatten(rows);
      bounds := Index(|rows|, |rows[0]|);
    }

    function Rows(): int
      reads this
    {
      bounds.row
    }

    function Columns(): int
      reads this
    {
      bounds.column
    }

    function Len(): nat
      reads this
    {
      |data|
    }

    predicate CheckIsInBounds(i: Index)
      reads this
    {
      0 <= i.row < bounds.row && 0 <= i.column < bounds.column
    }

    function IsInBounds(i: Index): (r: Option<Index>)
      reads this
      ensures r.Some? <==> CheckIsInBounds(i)
      ensures r.Some? ==> r.value == i
    {
      if CheckIsInBounds(i) then Some(i) else None
    }

    /** Position in `data` of an in-bounds grid index. */
    function InternalIndex(i: Index): (r: Option<nat>)
      requires Valid()
      reads this
      ensures r.Some? <==> CheckIsInBounds(i)
      ensures r.Some? ==> r.value < |data|
    {
      if CheckIsInBounds(i) then
        RowMajorInRange(i.row, i.column, bounds.row, bounds.column);
        Some(i.row * bounds.column + i.column)
      else None
    }

    /** Grid index of a position in `data`: the inverse of `InternalIndex`. */
    function GridIndexOf(k: int): (r: Option<Index>)
      requires Valid()
      reads this
      ensures r.Some? <==> 0 <= k < |data|
      ensures r.Some? ==> CheckIsInBounds(r.value) && InternalIndex(r.value) == Some(k)
    {
      if 0 <= k < |data| then
        SplitInRange(k, bounds.row, bounds.column);
        Some(Index(k / bounds.column, k % bounds.column))
      else None
    }

    /** `internal_index` and `grid_index` are inverse bijections between the
        in-bounds grid indices and the positions of `data`. */
    lemma IndexRoundTrip(i: Index, k: int)
      requires Valid()
      ensures CheckIsInBounds(i) ==> GridIndexOf(InternalIndex(i).value) == Some(i)
      ensures 0 <= k < |data| ==> InternalIndex(GridIndexOf(k).value) == Some(k)
    {
      if CheckIsInBounds(i) {
        RowMajorDivMod(i.row, i.column, bounds.column);
      }
    }

    function Get(i: Index): (r: Option<T>)
      requires Valid()
      reads this
      ensures r.Some? <==> CheckIsInBounds(i)
      ensures r.Some? ==> r.value == data[InternalIndex(i).value]
    {
      match InternalIndex(i)
      case Some(k) => Some(data[k])
      case None => None
    }

    /** `set`: out of bounds it is an error and nothing changes; in bounds exactly one cell changes. */
    method Set(i: Index, value: T) returns (r: Result<(), string>)
      requires Valid()
      modifies this
      ensures Valid() && bounds == old(bounds)
      ensures r.Ok? <==> CheckIsInBounds(i)
      ensures r.Ok? ==> data == old(data)[InternalIndex(i).value := value]
      ensures r.Err? ==> data == old(data)
    {
      match InternalIndex(i)
      case Some(k) =>
        data := data[k := value];
        r := Ok(());
      case None =>
        r := Err("Index out of bounds");
    }

    /** `get_mut`: when in bounds, the caller rewrites the cell from its current value. */
    method GetMut(i: Index, update: T -> T) returns (found: bool)
      requires Valid()
      modifies this
      ensures Valid() && bounds == old(bounds)
      ensures found <==> CheckIsInBounds(i)
      ensures found ==> data == old(data)[InternalIndex(i).value := update(old(data)[InternalIndex(i).value])]
      ensures !found ==> data == old(data)
    {
      match InternalIndex(i)
      case Some(k) =>
        data := data[k := update(data[k])];
        found := true;
      case None =>
        found := false;
    }

    function ProjectOffset(i: Index, offset: Index): (r: Option<Index>)
      reads this
      ensures r.Some? <==> CheckIsInBounds(Pairwise(Add, i, offset))
      ensures r.Some? ==> r.value == Pairwise(Add, i, offset)
    {
      var j := Pairwise(Add, i, offset);
      if CheckIsInBounds(j) then Some(j) else None
    }

    function ProjectDirection(i: Index, d: Direction.CompassDirection): Option<Index>
      reads this
    {
      ProjectOffset(i, Direction.CompassOffset(d))
    }

    function ProjectGridDirection(i: Index, d: Direction.GridDirection): Option<Index>
      reads this
    {
      ProjectOffset(i, Direction.GridOffset(d))
    }

    /** A step in some direction is undone by a step in the opposite direction,
        and a projected index is one unit step away from its origin. */
    lemma ProjectDirectionReversible(i: Index, d: Direction.CompassDirection)
      requires CheckIsInBounds(i)
      ensures ProjectDirection(i, d).Some? ==>
        ProjectDirection(ProjectDirection(i, d).value, Direction.TurnRight(Direction.TurnRight(d))) == Some(i)
      ensures ProjectDirection(i, d).Some? ==>
        Abs(ProjectDirection(i, d).value.row - i.row) + Abs(ProjectDirection(i, d).value.column - i.column) == 1
    {
    }

    /** `find`: the first cell in row-major order that satisfies `p`. */
    function Find(p: T -> bool): (r: Option<Index>)
      requires Valid()
      reads this
      ensures r.Some? ==> CheckIsInBounds(r.value) && p(Get(r.value).value)
      ensures r.Some? ==> forall k :: 0 <= k < InternalIndex(r.value).value ==> !p(data[k])
      ensures r.None? <==> forall k :: 0 <= k < |data| ==> !p(data[k])
    {
      var k := Position(data, p);
      if k < |data| then GridIndexOf(k) else None
    }

    /** `enumerate`: every cell with its grid index, in storage order. */
    function Enumerate(): (r: seq<(Index, T)>)
      requires Valid()
      reads this
      ensures |r| == |data|
      ensures forall k :: 0 <= k < |r| ==> r[k].1 == data[k] && GridIndexOf(k) == Some(r[k].0)
    {
      if |data| == 0 then []
      else
        SplitInRange(0, bounds.row, bounds.column);
        var d, c := data, bounds.column;
        seq(|d|, k requires 0 <= k < |d| => (Index(k / c, k % c), d[k]))
    }

    /** Storage order is the lexicographic order on grid indices, and every
        in-bounds index is enumerated. */
    lemma EnumerateIsRowMajor(j: int, k: int, i: Index)
      requires Valid()
      ensures 0 <= j < k < |data| ==> Less(Enumerate()[j].0, Enumerate()[k].0)
      ensures CheckIsInBounds(i) ==> Enumerate()[InternalIndex(i).value].0 == i
    {
      var e := Enumerate();
      if 0 <= j < k < |data| {
        var a, b := e[j].0, e[k].0;
        assert InternalIndex(a) == Some(j) && InternalIndex(b) == Some(k);
        RowMajorLess(a, b, bounds.column);
      }
      if CheckIsInBounds(i) {
        IndexRoundTrip(i, 0);
      }
    }

    /** The rows of the map (Rust `rows_iter`). */
    function RowsIter(): seq<seq<T>>
      requires Valid() && bounds.column > 0
      reads this
    {
      Chunks(data, bounds.column)
    }
  }

  /** The first position whose item satisfies `p`, or `|s|` (Rust `position`). */
  function Position<T>(s: seq<T>, p: T -> bool): (k: nat)
    ensures k <= |s|
    ensures k < |s| ==> p(s[k])
    ensures forall j :: 0 <= j < k ==> !p(s[j])
  {
    if |s| == 0 then 0 else if p(s[0]) then 0 else 1 + Position(s[1..], p)
  }

  function Render<T>(rows: seq<seq<T>>, f: T -> char): seq<string> {
    seq(|rows|, i requires 0 <= i < |rows| => seq(|rows[i]|, j requires 0 <= j < |rows[i]| => f(rows[i][j])))
  }

  /** `String::from(map)`: the rows joined by newlines. */
  function MapToString<T>(m: Map<T>, f: T -> char): string
    requires m.Valid() && m.bounds.column > 0
    reads m
  {
    Join(Render(m.RowsIter(), f), "\n")
  }

  function EndLines(lines: seq<string>): string {
    if |lines| == 0 then [] else lines[0] + "\n" + EndLines(lines[1..])
  }

  /** `Display`: every row followed by a newline. */
  function Display<T>(m: Map<T>, f: T -> char): string
    requires m.Valid() && m.bounds.column > 0
    reads m
  {
    EndLines(Render(m.RowsIter(), f))
  }

  /** The cells of a character map with `overlay` written over them. */
  function Overlaid(m: Map<char>, overlay: map<Index, char>): (cells: seq<char>)
    requires m.Valid()
    reads m
    ensures |cells| == |m.data|
    ensures forall i :: m.CheckIsInBounds(i) ==>
      cells[m.InternalIndex(i).value] == if i in overlay then overlay[i] else m.Get(i).value
  {
    var e := m.Enumerate();
    var cells := seq(|e|, k requires 0 <= k < |e| => if e[k].0 in overlay then overlay[e[k].0] else e[k].1);
    assert forall i :: m.CheckIsInBounds(i) ==> m.GridIndexOf(m.InternalIndex(i).value) == Some(i) by {
      forall i | m.CheckIsInBounds(i)
        ensures m.GridIndexOf(m.InternalIndex(i).value) == Some(i)
      {
        m.IndexRoundTrip(i, 0);
      }
    }
    cells
  }

  /** `display_with_overlay`: rows joined by newlines, overlay characters shown in place of cells. */
  function DisplayWithOverlay(m: Map<char>, overlay: map<Index, char>): string
    requires m.Valid() && m.bounds.column > 0
    reads m
  {
    Join(Chunks(Overlaid(m, overlay), m.bounds.column), "\n")
  }

  /** `display_with_actor`: the actor's character shown at its index. */
  function DisplayWithActor(m: Map<char>, actor: char, at: Index): (s: string)
    requires m.Valid() && m.bounds.column > 0
    reads m
    ensures s == DisplayWithOverlay(m, map[at := actor])
  {
    Join(Chunks(Overlaid(m, map[at := actor]), m.bounds.column), "\n")
  }

  lemma RenderIdentity(rows: seq<string>)
    ensures Render(rows, c => c) == rows
  {
    var r := Render(rows, c => c);
    assert |r| == |rows|;
    forall i | 0 <= i < |rows|
      ensures r[i] == rows[i]
    {
    }
  }

  /** Text to map and back: a rectangular text read by `FromStr` is printed back unchanged. */
  lemma TextRoundTrip(lines: seq<string>, m: Map<char>)
    requires |lines| > 0 && |lines[0]| > 0 && Rectangular(lines, |lines[0]|)
    requires Construct(lines).Ok? && m.Valid() && (m.data, m.bounds) == Construct(lines).value
    ensures MapToString(m, c => c) == Join(lines, "\n")
    ensures DisplayWithOverlay(m, map[]) == Join(lines, "\n")
  {
    ChunksOfFlatten(lines, |lines[0]|);
    RenderIdentity(lines);
    assert Overlaid(m, map[]) == m.data by {
      forall k | 0 <= k < |m.data|
        ensures Overlaid(m, map[])[k] == m.data[k]
      {
        m.IndexRoundTrip(m.GridIndexOf(k).value, k);
      }
    }
  }
}
