/**
 * 2024 day 8, Resonant Collinearity: antennas on a map, each marked by its
 * frequency character. Every pair of antennas of one frequency projects
 * antinodes along the line through them: one step beyond each antenna
 * (part 1), or every whole step in both directions while still on the map
 * (part 2). The answers are the numbers of distinct antinodes on the map.
 */
module Day8 {
  import opened Wrappers
  import opened Text

  type Frequency = char

  /** `(row, column)`, an `(i32, i32)` in the source. */
  type Coordinate = (int, int)

  type Pair = (Coordinate, Coordinate)

  type Antennas = map<Frequency, seq<Coordinate>>

  datatype Map = Map(rows: int, columns: int, antennas: Antennas)

  /** `filter_off_map_coordinates`: the coordinate lies inside the map. */
  predicate OnMap(m: Map, c: Coordinate) {
    0 <= c.0 < m.rows && 0 <= c.1 < m.columns
  }

  /** The antennas of one frequency, none when the frequency has no entry. */
  function Get(antennas: Antennas, f: Frequency): seq<Coordinate> {
    if f in antennas then antennas[f] else []
  }

  /* ---------------------------------------------------------------------
     Parsing
     --------------------------------------------------------------------- */

  /** The antennas of frequency `f` among the first `k` cells of row `row`,
      left to right. */
  function RowCells(line: string, row: int, f: Frequency, k: nat): seq<Coordinate>
    requires k <= |line|
  {
    if k == 0 then []
    else RowCells(line, row, f, k - 1) + (if line[k - 1] == f && f != '.' then [(row, k - 1)] else [])
  }

  /** The antennas of frequency `f` in the first `n` rows, in reading order. */
  function Cells(lines: seq<string>, f: Frequency, n: nat): seq<Coordinate>
    requires n <= |lines|
  {
    if n == 0 then [] else Cells(lines, f, n - 1) + RowCells(lines[n - 1], n - 1, f, |lines[n - 1]|)
  }

  /** The characters other than `.` that occur on the map. */
  function Frequencies(lines: seq<string>): set<Frequency> {
    set r, c | 0 <= r < |lines| && 0 <= c < |lines[r]| && lines[r][c] != '.' :: lines[r][c]
  }

  /** The antenna table: each frequency on the map with its antennas. */
  function AntennasOf(lines: seq<string>): Antennas {
    map f | f in Frequencies(lines) :: Cells(lines, f, |lines|)
  }

  /** The map `parse_input_file` builds from a non-empty list of lines: as
      many rows as lines, as many columns as the first line has characters. */
  function Parsed(lines: seq<string>): Map
    requires |lines| > 0
  {
    Map(|lines|, |lines[0]|, AntennasOf(lines))
  }

  lemma {:induction false} RowCellsMember(line: string, row: int, f: Frequency, k: nat, c: Coordinate)
    requires k <= |line|
    ensures c in RowCells(line, row, f, k) <==> c.0 == row && 0 <= c.1 < k && line[c.1] == f && f != '.'
  {
    if k > 0 {
      RowCellsMember(line, row, f, k - 1, c);
    }
  }

  lemma {:induction false} CellsMember(lines: seq<string>, f: Frequency, n: nat, c: Coordinate)
    requires n <= |lines|
    ensures c in Cells(lines, f, n) <==>
      0 <= c.0 < n && 0 <= c.1 < |lines[c.0]| && lines[c.0][c.1] == f && f != '.'
  {
    if n > 0 {
      CellsMember(lines, f, n - 1, c);
      RowCellsMember(lines[n - 1], n - 1, f, |lines[n - 1]|, c);
    }
  }

  /** Parsing records every cell other than `.` under its character, and
      nothing else. */
  lemma AntennasOfMember(lines: seq<string>, f: Frequency, c: Coordinate)
    ensures c in Get(AntennasOf(lines), f) <==>
      0 <= c.0 < |lines| && 0 <= c.1 < |lines[c.0]| && lines[c.0][c.1] == f && f != '.'
  {
    CellsMember(lines, f, |lines|, c);
    if 0 <= c.0 < |lines| && 0 <= c.1 < |lines[c.0]| && lines[c.0][c.1] == f && f != '.' {
      assert f in Frequencies(lines);
    }
  }

  /** Reading order: by row, then by column. */
  predicate Before(p: Coordinate, q: Coordinate) {
    p.0 < q.0 || (p.0 == q.0 && p.1 < q.1)
  }

  predicate Increasing(cs: seq<Coordinate>) {
    forall i, j :: 0 <= i < j < |cs| ==> Before(cs[i], cs[j])
  }

  lemma IncreasingAppend(a: seq<Coordinate>, b: seq<Coordinate>)
    requires Increasing(a) && Increasing(b)
    requires forall p, q :: p in a && q in b ==> Before(p, q)
    ensures Increasing(a + b)
  {
    forall i, j | 0 <= i < j < |a + b| ensures Before((a + b)[i], (a + b)[j]) {
      if j < |a| {
      } else if i >= |a| {
        assert (a + b)[i] == b[i - |a|] && (a + b)[j] == b[j - |a|];
      } else {
        assert (a + b)[i] in a && (a + b)[j] in b;
      }
    }
  }

  lemma {:induction false} RowCellsIncreasing(line: string, row: int, f: Frequency, k: nat)
    requires k <= |line|
    ensures Increasing(RowCells(line, row, f, k))
  {
    if k > 0 {
      RowCellsIncreasing(line, row, f, k - 1);
      forall p | p in RowCells(line, row, f, k - 1) ensures p.0 == row && p.1 < k - 1 {
        RowCellsMember(line, row, f, k - 1, p);
      }
      IncreasingAppend(RowCells(line, row, f, k - 1),
        if line[k - 1] == f && f != '.' then [(row, k - 1)] else []);
    }
  }

  lemma {:induction false} CellsIncreasing(lines: seq<string>, f: Frequency, n: nat)
    requires n <= |lines|
    ensures Increasing(Cells(lines, f, n))
  {
    if n > 0 {
      CellsIncreasing(lines, f, n - 1);
      RowCellsIncreasing(lines[n - 1], n - 1, f, |lines[n - 1]|);
      forall p, q | p in Cells(lines, f, n - 1) && q in RowCells(lines[n - 1], n - 1, f, |lines[n - 1]|)
        ensures Before(p, q)
      {
        CellsMember(lines, f, n - 1, p);
        RowCellsMember(lines[n - 1], n - 1, f, |lines[n - 1]|, q);
      }
      IncreasingAppend(Cells(lines, f, n - 1), RowCells(lines[n - 1], n - 1, f, |lines[n - 1]|));
    }
  }

  predicate Distinct<T(==)>(s: seq<T>) {
    forall i, j :: 0 <= i < j < |s| ==> s[i] != s[j]
  }

  /** Every frequency's antennas are distinct, and no antenna is listed
      under two frequencies. */
  predicate WellFormed(antennas: Antennas) {
    (forall f :: f in antennas ==> Distinct(antennas[f])) &&
    (forall f, g, c :: f in antennas && g in antennas && f != g && c in antennas[f] ==> c !in antennas[g])
  }

  /** The parsed table lists each frequency's antennas in reading order, so
      without repeats, and an antenna under its own frequency only. */
  lemma AntennasOfWellFormed(lines: seq<string>)
    ensures WellFormed(AntennasOf(lines))
  {
    var antennas := AntennasOf(lines);
    forall f | f in antennas ensures Distinct(antennas[f]) {
      CellsIncreasing(lines, f, |lines|);
    }
    forall f, g, c | f in antennas && g in antennas && f != g && c in antennas[f]
      ensures c !in antennas[g]
    {
      CellsMember(lines, f, |lines|, c);
      CellsMember(lines, g, |lines|, c);
    }
  }

  /** A frequency has an entry in the loops' table exactly when it occurs. */
  lemma TableKey(lines: seq<string>, antennas: Antennas, f: Frequency)
    requires Get(antennas, f) == Cells(lines, f, |lines|)
    requires f in antennas ==> |antennas[f]| > 0
    ensures f in antennas <==> f in Frequencies(lines)
  {
    if f in antennas {
      CellsMember(lines, f, |lines|, antennas[f][0]);
    }
    if f in Frequencies(lines) {
      var r, c :| 0 <= r < |lines| && 0 <= c < |lines[r]| && lines[r][c] != '.' && lines[r][c] == f;
      CellsMember(lines, f, |lines|, (r, c));
    }
  }

  /** The table the nested loops build holds exactly the parsed antennas. */
  lemma TableIsAntennasOf(lines: seq<string>, antennas: Antennas)
    requires forall f :: Get(antennas, f) == Cells(lines, f, |lines|)
    requires forall f :: f in antennas ==> |antennas[f]| > 0
    ensures antennas == AntennasOf(lines)
  {
    forall f ensures f in antennas <==> f in Frequencies(lines) {
      TableKey(lines, antennas, f);
    }
    forall f | f in antennas ensures antennas[f] == Cells(lines, f, |lines|) {
      assert Get(antennas, f) == Cells(lines, f, |lines|);
    }
    TableEntries(lines, antennas);
  }

  lemma TableEntries(lines: seq<string>, antennas: Antennas)
    requires forall f :: f in antennas <==> f in Frequencies(lines)
    requires forall f :: f in antennas ==> antennas[f] == Cells(lines, f, |lines|)
    ensures antennas == AntennasOf(lines)
  {
  }

  /** `parse_input_file`: the map's size and its antenna table, filled cell by
      cell in reading order; an empty input has no first line (a panic). */
  method ParseInput(input: string) returns (r: Option<Map>)
    ensures r.None? <==> |Lines(input)| == 0
    ensures r.Some? ==> r.value == Parsed(Lines(input))
  {
    var lines := Lines(input);
    if |lines| == 0 {
      return None;
    }
    var antennas: Antennas := map[];
    for row := 0 to |lines|
      invariant forall f :: Get(antennas, f) == Cells(lines, f, row)
      invariant forall f :: f in antennas ==> |antennas[f]| > 0
    {
      antennas := ParseRow(antennas, lines[row], row);
    }
    TableIsAntennasOf(lines, antennas);
    return Some(Map(|lines|, |lines[0]|, antennas));
  }

  lemma RowStep(table: Antennas, before: Antennas, after: Antennas, line: string, row: nat, column: nat,
                f: Frequency)
    requires column < |line|
    requires Get(before, f) == Get(table, f) + RowCells(line, row, f, column)
    requires after == if line[column] != '.' then
      before[line[column] := Get(before, line[column]) + [(row, column)]] else before
    ensures Get(after, f) == Get(table, f) + RowCells(line, row, f, column + 1)
  {
    if f == line[column] && f != '.' {
      assert Get(after, f) == Get(before, f) + [(row, column)];
      assert RowCells(line, row, f, column + 1) == RowCells(line, row, f, column) + [(row, column)];
    } else {
      assert Get(after, f) == Get(before, f);
      assert RowCells(line, row, f, column + 1) == RowCells(line, row, f, column) + [];
    }
  }

  /** The inner loop of `parse_input_file`: each antenna of one row pushed
      onto its frequency's list. */
  method ParseRow(table: Antennas, line: string, row: nat) returns (antennas: Antennas)
    requires forall f :: f in table ==> |table[f]| > 0
    ensures forall f :: Get(antennas, f) == Get(table, f) + RowCells(line, row, f, |line|)
    ensures forall f :: f in antennas ==> |antennas[f]| > 0
  {
    antennas := table;
    for column := 0 to |line|
      invariant forall f :: Get(antennas, f) == Get(table, f) + RowCells(line, row, f, column)
      invariant forall f :: f in antennas ==> |antennas[f]| > 0
    {
      var frequency := line[column];
      ghost var before := antennas;
      if frequency != '.' {
        antennas := antennas[frequency := Get(antennas, frequency) + [(row, column)]];
      }
      RowStepAll(table, before, antennas, line, row, column);
    }
  }

  /** `RowStep` for every frequency, and no list becomes empty. */
  lemma RowStepAll(table: Antennas, before: Antennas, after: Antennas, line: string, row: nat, column: nat)
    requires column < |line|
    requires forall f :: Get(before, f) == Get(table, f) + RowCells(line, row, f, column)
    requires forall f :: f in before ==> |before[f]| > 0
    requires after == if line[column] != '.' then
      before[line[column] := Get(before, line[column]) + [(row, column)]] else before
    ensures forall f :: Get(after, f) == Get(table, f) + RowCells(line, row, f, column + 1)
    ensures forall f :: f in after ==> |after[f]| > 0
  {
    forall f ensures Get(after, f) == Get(table, f) + RowCells(line, row, f, column + 1) {
      RowStep(table, before, after, line, row, column, f);
    }
  }

  /* ---------------------------------------------------------------------
     Antenna pairs
     --------------------------------------------------------------------- */

  /** `a` paired with each of `rest`, in order. */
  function Heads(a: Coordinate, rest: seq<Coordinate>): seq<Pair> {
    seq(|rest|, k requires 0 <= k < |rest| => (a, rest[k]))
  }

  /** `tuple_combinations` over a list: every `(cs[i], cs[j])` with `i < j`,
      the first index varying slowest. */
  function Combinations(cs: seq<Coordinate>): seq<Pair>
    decreases |cs|
  {
    if |cs| == 0 then [] else Heads(cs[0], cs[1..]) + Combinations(cs[1..])
  }

  /** The combinations are exactly the pairs of an earlier and a later entry. */
  lemma {:induction false} CombinationsMember(cs: seq<Coordinate>, p: Pair)
    ensures p in Combinations(cs) <==> exists i, j :: 0 <= i < j < |cs| && p == (cs[i], cs[j])
    decreases |cs|
  {
    if |cs| > 0 {
      var tail := cs[1..];
      CombinationsMember(tail, p);
      if p in Heads(cs[0], tail) {
        var k :| 0 <= k < |tail| && Heads(cs[0], tail)[k] == p;
        assert p == (cs[0], cs[k + 1]);
      } else if p in Combinations(tail) {
        var i, j :| 0 <= i < j < |tail| && p == (tail[i], tail[j]);
        assert p == (cs[i + 1], cs[j + 1]);
      }
      if exists i, j :: 0 <= i < j < |cs| && p == (cs[i], cs[j]) {
        var i, j :| 0 <= i < j < |cs| && p == (cs[i], cs[j]);
        if i == 0 {
          assert Heads(cs[0], tail)[j - 1] == p;
        } else {
          assert p == (tail[i - 1], tail[j - 1]);
        }
      }
    }
  }

  lemma CombinationsEntries(cs: seq<Coordinate>, p: Pair)
    ensures p in Combinations(cs) ==> p.0 in cs && p.1 in cs
  {
    CombinationsMember(cs, p);
  }

  /** A list of `n` antennas has `n(n-1)/2` combinations. */
  lemma {:induction false} CombinationsLength(cs: seq<Coordinate>)
    ensures |Combinations(cs)| == |cs| * (|cs| - 1) / 2
    decreases |cs|
  {
    if |cs| > 0 {
      var n := |cs|;
      CombinationsLength(cs[1..]);
      assert (n - 1) * (n - 2) + 2 * (n - 1) == n * (n - 1);
    }
  }

  lemma DistinctAppend<T>(a: seq<T>, b: seq<T>)
    requires Distinct(a) && Distinct(b)
    requires forall x :: x in a ==> x !in b
    ensures Distinct(a + b)
  {
    forall i, j | 0 <= i < j < |a + b| ensures (a + b)[i] != (a + b)[j] {
      if i < |a| && j >= |a| {
        assert (a + b)[i] in a && (a + b)[j] == b[j - |a|];
      } else if i >= |a| {
        assert (a + b)[i] == b[i - |a|] && (a + b)[j] == b[j - |a|];
      }
    }
  }

  /** Distinct antennas give each unordered pair exactly once. */
  lemma {:induction false} CombinationsDistinct(cs: seq<Coordinate>)
    requires Distinct(cs)
    ensures Distinct(Combinations(cs))
    decreases |cs|
  {
    if |cs| > 0 {
      var tail := cs[1..];
      var heads := Heads(cs[0], tail);
      CombinationsDistinct(tail);
      assert Distinct(heads) by {
        forall i, j | 0 <= i < j < |heads| ensures heads[i] != heads[j] {
          assert cs[i + 1] != cs[j + 1];
        }
      }
      forall x | x in heads ensures x !in Combinations(tail) {
        var k :| 0 <= k < |tail| && heads[k] == x;
        CombinationsMember(tail, x);
        forall i, j | 0 <= i < j < |tail| ensures x != (tail[i], tail[j]) {
          assert cs[0] != cs[i + 1];
        }
      }
      DistinctAppend(heads, Combinations(tail));
    }
  }

  /** Two antennas of one frequency, listed as `tuple_combinations` does. */
  ghost predicate IsAntennaPair(antennas: Antennas, pair: Pair) {
    exists f :: f in antennas && pair in Combinations(antennas[f])
  }

  /** The two antennas of a pair from a well-formed table are distinct. */
  lemma AntennaPairDistinct(antennas: Antennas, pair: Pair)
    requires WellFormed(antennas) && IsAntennaPair(antennas, pair)
    ensures pair.0 != pair.1
  {
    var f :| f in antennas && pair in Combinations(antennas[f]);
    CombinationsMember(antennas[f], pair);
  }

  /** `get_antenna_pairs`: the combinations of every frequency's antennas,
      the frequencies in the table's own (unspecified) order. Each unordered
      pair of same-frequency antennas appears exactly once. */
  method GetAntennaPairs(antennas: Antennas) returns (pairs: seq<Pair>)
    ensures forall p :: p in pairs <==> IsAntennaPair(antennas, p)
    ensures WellFormed(antennas) ==> Distinct(pairs)
  {
    pairs := [];
    var remaining := antennas.Keys;
    while remaining != {}
      invariant remaining <= antennas.Keys
      invariant forall p :: p in pairs <==>
        exists g :: g in antennas && g !in remaining && p in Combinations(antennas[g])
      invariant WellFormed(antennas) ==> Distinct(pairs)
      decreases remaining
    {
      var f :| f in remaining;
      var more := Combinations(antennas[f]);
      if WellFormed(antennas) {
        CombinationsDistinct(antennas[f]);
        forall x | x in pairs ensures x !in more {
          var g :| g in antennas && g !in remaining && x in Combinations(antennas[g]);
          CombinationsEntries(antennas[g], x);
          CombinationsEntries(antennas[f], x);
        }
        DistinctAppend(pairs, more);
      }
      pairs := pairs + more;
      remaining := remaining - {f};
    }
  }

  /* ---------------------------------------------------------------------
     Projection
     --------------------------------------------------------------------- */

  /** `project_anti_nodes`: one antinode beyond each antenna, the antennas'
      distance away. Each antinode is on the line through the antennas, twice
      as far from the far antenna as from the near one. */
  function ProjectAntiNodes(pair: Pair): (r: Pair)
    ensures r.0.0 - pair.1.0 == 2 * (r.0.0 - pair.0.0) && r.0.1 - pair.1.1 == 2 * (r.0.1 - pair.0.1)
    ensures r.1.0 - pair.0.0 == 2 * (r.1.0 - pair.1.0) && r.1.1 - pair.0.1 == 2 * (r.1.1 - pair.1.1)
  {
    var (a, b) := pair;
    var difference := (b.0 - a.0, b.1 - a.1);
    ((a.0 - difference.0, a.1 - difference.1), (b.0 + difference.0, b.1 + difference.1))
  }

  /** The step from `from` to `to`. */
  function Diff(from: Coordinate, to: Coordinate): Coordinate {
    (to.0 - from.0, to.1 - from.1)
  }

  /** `x` moved `k` times by `d`. */
  function Along(x: Coordinate, d: Coordinate, k: int): Coordinate {
    (x.0 + k * d.0, x.1 + k * d.1)
  }

  /** `p` is a resonant antinode position of antennas `a` and `b`: a whole
      number of antenna distances away from `a` going back, or from `b` going
      forward. */
  ghost predicate OnResonantLine(a: Coordinate, b: Coordinate, p: Coordinate) {
    exists k: nat :: p == Along(a, Diff(b, a), k) || p == Along(b, Diff(a, b), k)
  }

  /** `p` is one of the positions the loop reaches in its first `node` rounds. */
  ghost predicate SteppedBefore(a: Coordinate, b: Coordinate, p: Coordinate, node: nat) {
    exists k: nat :: k < node && (p == Along(a, Diff(b, a), k) || p == Along(b, Diff(a, b), k))
  }

  /** Both rays together cover every whole multiple of the antennas'
      difference, measured from `a`. */
  lemma ResonantLineMultiples(a: Coordinate, b: Coordinate, p: Coordinate)
    ensures OnResonantLine(a, b, p) <==> exists t: int :: p == Along(a, Diff(a, b), t)
  {
    var back, forth := Diff(b, a), Diff(a, b);
    if OnResonantLine(a, b, p) {
      var k: nat :| p == Along(a, back, k) || p == Along(b, forth, k);
      AlongBack(a, b, k);
      AlongForth(a, b, k);
    }
    if exists t: int :: p == Along(a, forth, t) {
      var t :| p == Along(a, forth, t);
      if t <= 0 {
        var k: nat := -t;
        AlongBack(a, b, k);
        assert p == Along(a, back, k);
      } else {
        var k: nat := t - 1;
        AlongForth(a, b, k);
        assert p == Along(b, forth, k);
      }
    }
  }

  /** `k` steps back from `a` are `-k` steps forward. */
  lemma AlongBack(a: Coordinate, b: Coordinate, k: nat)
    ensures Along(a, Diff(b, a), k) == Along(a, Diff(a, b), -(k as int))
  {
    var t: int := -(k as int);
    assert k * (a.0 - b.0) == t * (b.0 - a.0);
    assert k * (a.1 - b.1) == t * (b.1 - a.1);
  }

  /** `k` steps forward from `b` are `k + 1` steps forward from `a`. */
  lemma AlongForth(a: Coordinate, b: Coordinate, k: nat)
    ensures Along(b, Diff(a, b), k) == Along(a, Diff(a, b), k + 1)
  {
    assert (k + 1) * (b.0 - a.0) == k * (b.0 - a.0) + (b.0 - a.0);
    assert (k + 1) * (b.1 - a.1) == k * (b.1 - a.1) + (b.1 - a.1);
  }

  lemma MulAtLeast(k: int, c: int)
    requires k >= 0
    ensures c >= 1 ==> k * c >= k
    ensures c <= -1 ==> k * c <= -k
  {
  }

  lemma MulBetween(j: nat, k: nat, c: int)
    requires j <= k
    ensures c >= 0 ==> 0 <= j * c <= k * c
    ensures c < 0 ==> k * c <= j * c <= 0
  {
  }

  /** A bound beyond which every step away from `x` by a non-zero `d` is off
      the map. */
  function FarBound(m: Map, x: Coordinate): nat {
    var r := if x.0 < 0 then -x.0 else x.0;
    var c := if x.1 < 0 then -x.1 else x.1;
    var rows := if m.rows < 0 then -m.rows else m.rows;
    var columns := if m.columns < 0 then -m.columns else m.columns;
    r + c + rows + columns + 1
  }

  lemma OffMapBeyond(m: Map, x: Coordinate, d: Coordinate, k: nat)
    requires d != (0, 0) && k >= FarBound(m, x)
    ensures !OnMap(m, Along(x, d, k))
  {
    MulAtLeast(k, d.0);
    MulAtLeast(k, d.1);
  }

  /** The map is convex: a step count between two on-map ones is on the map. */
  lemma OnMapBetween(m: Map, x: Coordinate, d: Coordinate, j: nat, k: nat)
    requires j <= k && OnMap(m, x) && OnMap(m, Along(x, d, k))
    ensures OnMap(m, Along(x, d, j))
  {
    MulBetween(j, k, d.0);
    MulBetween(j, k, d.1);
  }

  /** `project_resonant_anti_nodes`: step outwards from both antennas at once,
      keeping the on-map positions, until both steps are off the map. With
      distinct antennas this ends; the positions kept are resonant antinode
      positions on the map and, when both antennas are on the map, every such
      position, the antennas themselves among them. */
  method ProjectResonantAntiNodes(pair: Pair, m: Map) returns (nodes: seq<Coordinate>)
    requires pair.0 != pair.1
    ensures forall p :: p in nodes ==> OnMap(m, p) && OnResonantLine(pair.0, pair.1, p)
    ensures OnMap(m, pair.0) && OnMap(m, pair.1) ==>
      forall p :: OnMap(m, p) && OnResonantLine(pair.0, pair.1, p) ==> p in nodes
    ensures OnMap(m, pair.0) ==> pair.0 in nodes
    ensures OnMap(m, pair.1) ==> pair.1 in nodes
  {
    var (a, b) := pair;
    var back, forth := Diff(b, a), Diff(a, b);
    var bound := if FarBound(m, a) < FarBound(m, b) then FarBound(m, b) else FarBound(m, a);
    var node: nat := 0;
    nodes := [];
    while true
      invariant node <= bound
      invariant forall p :: p in nodes <==> OnMap(m, p) && SteppedBefore(a, b, p, node)
      decreases bound - node
    {
      var aAntiNode := Along(a, back, node);
      var bAntiNode := Along(b, forth, node);
      var keepA := OnMap(m, aAntiNode);
      var keepB := OnMap(m, bAntiNode);
      if keepA {
        nodes := nodes + [aAntiNode];
      }
      if keepB {
        nodes := nodes + [bAntiNode];
      }
      if !keepA && !keepB {
        break;
      }
      if node == bound {
        OffMapBeyond(m, a, back, node);
        OffMapBeyond(m, b, forth, node);
      }
      node := node + 1;
    }
    assert !OnMap(m, Along(a, back, node)) && !OnMap(m, Along(b, forth, node));
    ResonantComplete(m, a, b, node, nodes);
    assert a == Along(a, back, 0) && b == Along(b, forth, 0);
  }

  /** After the loop: once both steps are off the map no later step is on it,
      as long as the antennas are. */
  lemma ResonantComplete(m: Map, a: Coordinate, b: Coordinate, node: nat, nodes: seq<Coordinate>)
    requires !OnMap(m, Along(a, Diff(b, a), node))
    requires !OnMap(m, Along(b, Diff(a, b), node))
    requires forall p :: p in nodes <==> OnMap(m, p) && SteppedBefore(a, b, p, node)
    ensures forall p :: p in nodes ==> OnMap(m, p) && OnResonantLine(a, b, p)
    ensures OnMap(m, a) && OnMap(m, b) ==>
      forall p :: OnMap(m, p) && OnResonantLine(a, b, p) ==> p in nodes
  {
    var back, forth := Diff(b, a), Diff(a, b);
    if OnMap(m, a) && OnMap(m, b) {
      forall p | OnMap(m, p) && OnResonantLine(a, b, p) ensures p in nodes {
        var k: nat :| p == Along(a, back, k) || p == Along(b, forth, k);
        if k >= node {
          if p == Along(a, back, k) {
            assert a == Along(a, back, 0);
            OnMapBetween(m, a, back, node, k);
          } else {
            assert b == Along(b, forth, 0);
            OnMapBetween(m, b, forth, node, k);
          }
        }
      }
    }
  }

  /* ---------------------------------------------------------------------
     Answers
     --------------------------------------------------------------------- */

  function MapCells(m: Map): set<Coordinate> {
    set r, c | 0 <= r < m.rows && 0 <= c < m.columns :: (r, c)
  }

  lemma MapCellsOnMap(m: Map, p: Coordinate)
    ensures p in MapCells(m) <==> OnMap(m, p)
  {
    if OnMap(m, p) {
      assert p == (p.0, p.1);
    }
  }

  /** An on-map position one of the map's antenna pairs projects in part 1. */
  ghost predicate IsAntiNode(m: Map, p: Coordinate) {
    OnMap(m, p) && exists pair :: (IsAntennaPair(m.antennas, pair) &&
      (p == ProjectAntiNodes(pair).0 || p == ProjectAntiNodes(pair).1))
  }

  ghost function AntiNodes(m: Map): set<Coordinate> {
    set p | p in MapCells(m) && IsAntiNode(m, p)
  }

  /** An on-map resonant antinode position of one of the map's antenna pairs. */
  ghost predicate IsResonantAntiNode(m: Map, p: Coordinate) {
    OnMap(m, p) && exists pair :: IsAntennaPair(m.antennas, pair) && OnResonantLine(pair.0, pair.1, p)
  }

  ghost function ResonantAntiNodes(m: Map): set<Coordinate> {
    set p | p in MapCells(m) && IsResonantAntiNode(m, p)
  }

  /** Every line as long as the first, so every antenna is on the map. */
  predicate Rectangular(lines: seq<string>) {
    forall r :: 0 <= r < |lines| ==> |lines[r]| == |lines[0]|
  }

  lemma AntennasOnMap(lines: seq<string>, pair: Pair)
    requires |lines| > 0 && Rectangular(lines) && IsAntennaPair(AntennasOf(lines), pair)
    ensures OnMap(Parsed(lines), pair.0) && OnMap(Parsed(lines), pair.1)
  {
    var antennas := AntennasOf(lines);
    var f :| f in antennas && pair in Combinations(antennas[f]);
    CombinationsMember(antennas[f], pair);
    AntennasOfMember(lines, f, pair.0);
    AntennasOfMember(lines, f, pair.1);
  }

  /** `part1`: the number of distinct on-map antinodes over all pairs. */
  method Part1(input: string) returns (r: Option<nat>)
    ensures r.None? <==> |Lines(input)| == 0
    ensures r.Some? ==> r.value == |AntiNodes(Parsed(Lines(input)))|
  {
    var parsed := ParseInput(input);
    if parsed.None? {
      return None;
    }
    var m := parsed.value;
    var pairs := GetAntennaPairs(m.antennas);
    var antiNodes := CollectAntiNodes(m, pairs);
    assert antiNodes == AntiNodes(m) by {
      forall p ensures p in antiNodes <==> p in AntiNodes(m) {
        MapCellsOnMap(m, p);
      }
    }
    r := Some(|antiNodes|);
  }

  /** The loop of `part1`: the on-map antinodes of every pair, collected into
      one set. */
  method CollectAntiNodes(m: Map, pairs: seq<Pair>) returns (antiNodes: set<Coordinate>)
    ensures forall p :: p in antiNodes <==> OnMap(m, p) && exists j :: (0 <= j < |pairs| &&
      (p == ProjectAntiNodes(pairs[j]).0 || p == ProjectAntiNodes(pairs[j]).1))
  {
    antiNodes := {};
    for i := 0 to |pairs|
      invariant forall p :: p in antiNodes <==> OnMap(m, p) && exists j :: (0 <= j < i &&
        (p == ProjectAntiNodes(pairs[j]).0 || p == ProjectAntiNodes(pairs[j]).1))
    {
      var nodes := ProjectAntiNodes(pairs[i]);
      if OnMap(m, nodes.0) {
        antiNodes := antiNodes + {nodes.0};
      }
      if OnMap(m, nodes.1) {
        antiNodes := antiNodes + {nodes.1};
      }
    }
  }

  /** `part2`: the number of distinct on-map resonant antinodes over all
      pairs. Every position counted is one; when every line is as long as the
      first, every one is counted. */
  method Part2(input: string) returns (r: Option<nat>)
    ensures r.None? <==> |Lines(input)| == 0
    ensures r.Some? ==> r.value <= |ResonantAntiNodes(Parsed(Lines(input)))|
    ensures r.Some? && Rectangular(Lines(input)) ==> r.value == |ResonantAntiNodes(Parsed(Lines(input)))|
  {
    var parsed := ParseInput(input);
    if parsed.None? {
      return None;
    }
    var m := parsed.value;
    var lines := Lines(input);
    var pairs := GetAntennaPairs(m.antennas);
    var antiNodes := CollectResonantAntiNodes(lines, pairs);
    assert antiNodes <= ResonantAntiNodes(m) by {
      forall p | p in antiNodes ensures p in ResonantAntiNodes(m) {
        MapCellsOnMap(m, p);
      }
    }
    SubsetCardinality(antiNodes, ResonantAntiNodes(m));
    if Rectangular(lines) {
      assert antiNodes == ResonantAntiNodes(m);
    }
    r := Some(|antiNodes|);
  }

  /** The loop of `part2`: the resonant antinodes of every pair, collected
      into one set. */
  method CollectResonantAntiNodes(lines: seq<string>, pairs: seq<Pair>) returns (antiNodes: set<Coordinate>)
    requires |lines| > 0
    requires forall p :: p in pairs <==> IsAntennaPair(AntennasOf(lines), p)
    ensures forall p :: p in antiNodes ==> IsResonantAntiNode(Parsed(lines), p)
    ensures Rectangular(lines) ==> forall p :: IsResonantAntiNode(Parsed(lines), p) ==> p in antiNodes
  {
    var m := Parsed(lines);
    AntennasOfWellFormed(lines);
    antiNodes := {};
    for i := 0 to |pairs|
      invariant forall p :: p in antiNodes ==> IsResonantAntiNode(m, p)
      invariant Rectangular(lines) ==> forall p :: IsResonantAntiNode(m, p) ==>
        p in antiNodes || exists j :: i <= j < |pairs| && OnResonantLine(pairs[j].0, pairs[j].1, p)
    {
      assert pairs[i] in pairs;
      AntennaPairDistinct(m.antennas, pairs[i]);
      var nodes := ProjectResonantAntiNodes(pairs[i], m);
      if Rectangular(lines) {
        AntennasOnMap(lines, pairs[i]);
      }
      antiNodes := antiNodes + set p | p in nodes;
    }
  }

  lemma SubsetCardinality(s: set<Coordinate>, t: set<Coordinate>)
    requires s <= t
    ensures |s| <= |t|
  {
    assert t == s + (t - s);
  }
}
