/**
 * 2024 day 18, RAM Run: bytes fall onto a 71 x 71 memory grid and corrupt
 * cells ('#'); `escape_route` runs Dijkstra's algorithm with unit steps
 * from the top-left corner to the bottom-right one. Part 1 corrupts the
 * first 1024 bytes; part 2 keeps corrupting until the exit is cut off.
 *
 * Map indices are (row, column) pairs; the input lists "x,y", that is
 * column first.
 */
module Day18 {
  import opened Wrappers
  import opened Text
  import opened Sums

  type Pos = (int, int)

  datatype State = State(position: Pos, steps: nat)

  /** `Steps::MAX`, the value of an absent `dist` entry. */
  const StepsMax: nat := 0xFFFF_FFFF_FFFF_FFFF

  /** The memory space is `70 + 1` cells wide and high. */
  const Size: nat := 71

  /** Part 1 lets this many bytes fall before searching. */
  const FirstBytes: nat := 1024

  /** North, South, East, West, in the order `next_states` tries them. */
  const Offsets: seq<(int, int)> := [(-1, 0), (1, 0), (0, 1), (0, -1)]

  function Shift(p: Pos, k: nat): Pos
    requires k < 4
  {
    (p.0 + Offsets[k].0, p.1 + Offsets[k].1)
  }

  predicate WellFormed(grid: seq<seq<char>>) {
    |grid| > 0 && |grid[0]| > 0 && forall r :: 0 <= r < |grid| ==> |grid[r]| == |grid[0]|
  }

  predicate InBounds(grid: seq<seq<char>>, p: Pos)
    requires WellFormed(grid)
  {
    0 <= p.0 < |grid| && 0 <= p.1 < |grid[0]|
  }

  function Cell(grid: seq<seq<char>>, p: Pos): char
    requires WellFormed(grid) && InBounds(grid, p)
  {
    grid[p.0][p.1]
  }

  /** An on-map cell that is not corrupted. */
  predicate Free(grid: seq<seq<char>>, p: Pos)
    requires WellFormed(grid)
  {
    InBounds(grid, p) && Cell(grid, p) != '#'
  }

  function AllCells(grid: seq<seq<char>>): set<Pos>
    requires WellFormed(grid)
  {
    set r, c | 0 <= r < |grid| && 0 <= c < |grid[0]| :: (r, c)
  }

  function Start(): Pos {
    (0, 0)
  }

  function Goal(grid: seq<seq<char>>): Pos
    requires WellFormed(grid)
  {
    (|grid| - 1, |grid[0]| - 1)
  }

  /* ---------------------------------------------------------------------------
     Moves and walks
     ------------------------------------------------------------------------- */

  function Abs(x: int): nat {
    if x < 0 then -x else x
  }

  /** Two cells one step apart: Manhattan distance 1. */
  predicate Adjacent(p: Pos, q: Pos) {
    Abs(p.0 - q.0) + Abs(p.1 - q.1) == 1
  }

  /** The adjacent cells are exactly the four shifts. */
  lemma AdjacentShifts(p: Pos)
    ensures forall q :: Adjacent(p, q) ==> q == Shift(p, 0) || q == Shift(p, 1) || q == Shift(p, 2) || q == Shift(p, 3)
  {
  }

  /** `position_is_clear`: the cell is not '#'. */
  predicate PositionIsClear(grid: seq<seq<char>>, p: Pos)
    requires WellFormed(grid) && InBounds(grid, p)
  {
    Cell(grid, p) != '#'
  }

  /** `State::next_states`: the four neighbours that are on the map and clear,
      one step further. Every listed state is a step to a free adjacent cell,
      and every free adjacent cell is listed. */
  function NextStates(grid: seq<seq<char>>, s: State): (r: seq<Option<State>>)
    requires WellFormed(grid)
    ensures |r| == 4
    ensures forall i :: 0 <= i < 4 && r[i].Some? ==>
              r[i].value.steps == s.steps + 1 && Adjacent(s.position, r[i].value.position) && Free(grid, r[i].value.position)
    ensures forall q :: Adjacent(s.position, q) && Free(grid, q) ==> Some(State(q, s.steps + 1)) in r
  {
    AdjacentShifts(s.position);
    [NextState(grid, s, 0), NextState(grid, s, 1), NextState(grid, s, 2), NextState(grid, s, 3)]
  }

  /** The state one step in direction `k`, if that cell is on the map and clear. */
  function NextState(grid: seq<seq<char>>, s: State, k: nat): Option<State>
    requires WellFormed(grid) && k < 4
  {
    var q := Shift(s.position, k);
    if InBounds(grid, q) && PositionIsClear(grid, q) then Some(State(q, s.steps + 1)) else None
  }

  /** A walk over the memory: consecutive cells adjacent, every cell entered free. */
  predicate IsWalk(grid: seq<seq<char>>, w: seq<Pos>)
    requires WellFormed(grid)
  {
    && |w| > 0
    && (forall i :: 0 < i < |w| ==> Adjacent(w[i - 1], w[i]) && Free(grid, w[i]))
  }

  /** A walk from the start to `p`. */
  predicate WalkTo(grid: seq<seq<char>>, w: seq<Pos>, p: Pos)
    requires WellFormed(grid)
  {
    IsWalk(grid, w) && w[0] == Start() && w[|w| - 1] == p
  }

  /** Every free cell adjacent to a cell of `s` is in `s`. */
  ghost predicate StepClosed(grid: seq<seq<char>>, s: set<Pos>)
    requires WellFormed(grid)
  {
    forall p, q :: p in s && Adjacent(p, q) && Free(grid, q) ==> q in s
  }

  /** A set holding the start and closed under steps holds the end of every walk from the start. */
  lemma {:induction false} WalkStaysIn(grid: seq<seq<char>>, s: set<Pos>, w: seq<Pos>)
    requires WellFormed(grid) && StepClosed(grid, s) && IsWalk(grid, w) && w[0] in s
    ensures w[|w| - 1] in s
    decreases |w|
  {
    if |w| > 1 {
      var v := w[..|w| - 1];
      assert IsWalk(grid, v) && v[0] == w[0];
      WalkStaysIn(grid, s, v);
      assert Adjacent(w[|w| - 2], w[|w| - 1]);
    }
  }

  /* ---------------------------------------------------------------------------
     The heap
     ------------------------------------------------------------------------- */

  predicate PosLess(p: Pos, q: Pos) {
    p.0 < q.0 || (p.0 == q.0 && p.1 < q.1)
  }

  /** `a` leaves the heap before `b`: fewer steps first, then the greater position. */
  predicate PopsBefore(a: State, b: State) {
    a.steps < b.steps || (a.steps == b.steps && PosLess(b.position, a.position))
  }

  /** `BinaryHeap::pop`: removes a state no other state in the heap pops before. */
  method Pop(heap: seq<State>) returns (s: State, rest: seq<State>)
    requires |heap| > 0
    ensures multiset(heap) == multiset(rest) + multiset{s} && |rest| == |heap| - 1
    ensures forall t :: t in heap ==> !PopsBefore(t, s)
  {
    var b := 0;
    var i := 1;
    while i < |heap|
      invariant 0 <= b < i <= |heap|
      invariant forall j :: 0 <= j < i ==> !PopsBefore(heap[j], heap[b])
    {
      if PopsBefore(heap[i], heap[b]) {
        b := i;
      }
      i := i + 1;
    }
    s := heap[b];
    rest := heap[..b] + heap[b + 1..];
    assert heap == heap[..b] + [s] + heap[b + 1..];
  }

  /** What `Pop` leaves behind: every other state of the heap. */
  lemma PopKeeps(heap: seq<State>, rest: seq<State>, s: State)
    requires multiset(heap) == multiset(rest) + multiset{s}
    ensures s in heap
    ensures forall x :: x in rest ==> x in heap
    ensures forall x :: x in heap && x != s ==> x in rest
  {
    assert multiset(heap)[s] == multiset(rest)[s] + 1;
    forall x | x in rest
      ensures x in heap
    {
      assert multiset(heap)[x] == multiset(rest)[x] + multiset{s}[x];
    }
    forall x | x in heap && x != s
      ensures x in rest
    {
      assert x in multiset(heap);
    }
  }

  /* ---------------------------------------------------------------------------
     The search
     ------------------------------------------------------------------------- */

  /** `dist.get(position).unwrap_or(&Steps::MAX)`. */
  function Dist(dist: map<Pos, nat>, p: Pos): nat {
    if p in dist then dist[p] else StepsMax
  }

  /** The recorded step counts summed over the map, absent ones counting as
      `Steps::MAX`: every improvement lowers it, which ends the search. */
  ghost function DistSum(grid: seq<seq<char>>, dist: map<Pos, nat>): int
    requires WellFormed(grid)
  {
    SetSum(AllCells(grid), p => Dist(dist, p))
  }

  lemma DistDrop(grid: seq<seq<char>>, dist: map<Pos, nat>, p: Pos, v: nat)
    requires WellFormed(grid) && InBounds(grid, p) && v < Dist(dist, p)
    ensures DistSum(grid, dist[p := v]) < DistSum(grid, dist)
  {
    var cells := AllCells(grid);
    var f := (q: Pos) => Dist(dist, q);
    var g := (q: Pos) => Dist(dist[p := v], q);
    assert p in cells;
    SetSumRemove(cells, f, p);
    SetSumRemove(cells, g, p);
    SetSumSame(cells - {p}, g, f);
  }

  lemma DistSumNonNegative(grid: seq<seq<char>>, dist: map<Pos, nat>)
    requires WellFormed(grid)
    ensures DistSum(grid, dist) >= 0
  {
    SetSumLower(AllCells(grid), p => Dist(dist, p), 0);
  }

  /** The cells of the first `rows` rows. */
  ghost function CellsBelow(rows: nat, columns: nat): set<Pos> {
    set r, c | 0 <= r < rows && 0 <= c < columns :: (r, c)
  }

  ghost function RowCells(row: nat, columns: nat): set<Pos> {
    set c | 0 <= c < columns :: (row, c)
  }

  lemma {:induction false} RowCount(row: nat, columns: nat)
    ensures |RowCells(row, columns)| == columns
  {
    if columns > 0 {
      RowCount(row, columns - 1);
      assert RowCells(row, columns) == RowCells(row, columns - 1) + {(row, columns - 1)};
    } else {
      assert RowCells(row, columns) == {};
    }
  }

  lemma {:induction false} CellsCount(rows: nat, columns: nat)
    ensures |CellsBelow(rows, columns)| == rows * columns
  {
    if rows > 0 {
      var above, row := CellsBelow(rows - 1, columns), RowCells(rows - 1, columns);
      CellsCount(rows - 1, columns);
      RowCount(rows - 1, columns);
      assert |CellsBelow(rows, columns)| == |above| + |row| by {
        assert CellsBelow(rows, columns) == above + row;
        assert above * row == {};
      }
      assert rows * columns == (rows - 1) * columns + columns by {
        MulSucc(columns, rows - 1);
      }
    } else {
      assert CellsBelow(rows, columns) == {};
    }
  }

  /** A map has `rows * columns` cells. */
  lemma CellCount(grid: seq<seq<char>>)
    requires WellFormed(grid)
    ensures |AllCells(grid)| == |grid| * |grid[0]|
  {
    CellsCount(|grid|, |grid[0]|);
    assert AllCells(grid) == CellsBelow(|grid|, |grid[0]|);
  }

  /** Every recorded cell is on the map, has a certificate walk of its
      recorded length, and its count is below the number of recorded cells
      (each count was once one more than a count recorded before it). */
  ghost predicate DistCertified(grid: seq<seq<char>>, dist: map<Pos, nat>, walks: map<Pos, seq<Pos>>)
    requires WellFormed(grid)
  {
    && Start() in dist && dist[Start()] == 0
    && (forall p {:trigger p in dist} :: p in dist ==> InBounds(grid, p) && p in walks && WalkTo(grid, walks[p], p) && |walks[p]| == dist[p] + 1)
    && CountsBounded(dist)
  }

  ghost predicate CountsBounded(dist: map<Pos, nat>) {
    forall p {:trigger p in dist} :: p in dist ==> dist[p] < |dist|
  }

  lemma RecordBounded(dist: map<Pos, nat>, current: Pos, next: State)
    requires CountsBounded(dist) && current in dist && next.steps == dist[current] + 1 && next.steps < Dist(dist, next.position)
    ensures CountsBounded(dist[next.position := next.steps])
  {
    var n := next.position;
    var dist' := dist[n := next.steps];
    assert |dist'| == if n in dist then |dist| else |dist| + 1;
  }

  /** Every recorded predecessor is an adjacent recorded cell. */
  ghost predicate PrevAdjacent(dist: map<Pos, nat>, prev: map<Pos, Pos>) {
    forall p :: p in prev ==> p in dist && prev[p] in dist && Adjacent(prev[p], p)
  }

  /** Every state in the heap is recorded with at most its steps. */
  ghost predicate HeapRecorded(dist: map<Pos, nat>, heap: seq<State>) {
    forall s {:trigger s in heap} :: s in heap ==> s.position in dist && dist[s.position] <= s.steps
  }

  /** Every recorded cell is settled or waits in the heap with its recorded steps. */
  ghost predicate Tracked(dist: map<Pos, nat>, heap: seq<State>, settled: set<Pos>) {
    && settled <= dist.Keys
    && (forall p {:trigger p in dist} :: p in dist ==> p in settled || State(p, dist[p]) in heap)
  }

  /** Every free neighbour of an expanded cell is recorded, at most one step
      further than the expanded cell. */
  ghost predicate ExpandedClosed(grid: seq<seq<char>>, dist: map<Pos, nat>, expanded: set<Pos>)
    requires WellFormed(grid)
  {
    forall p, q {:trigger Adjacent(p, q)} :: p in expanded && Adjacent(p, q) && Free(grid, q) ==> p in dist && q in dist && dist[q] <= dist[p] + 1
  }

  /** What the search keeps true between heap pops; while a popped cell is
      being expanded it counts as settled but not yet as expanded. */
  ghost predicate Invariant(grid: seq<seq<char>>, dist: map<Pos, nat>, prev: map<Pos, Pos>, heap: seq<State>,
                            walks: map<Pos, seq<Pos>>, settled: set<Pos>, expanded: set<Pos>)
    requires WellFormed(grid)
  {
    && DistCertified(grid, dist, walks)
    && PrevAdjacent(dist, prev)
    && HeapRecorded(dist, heap)
    && Tracked(dist, heap, settled)
    && ExpandedClosed(grid, dist, expanded)
  }

  /** With fewer cells than `Steps::MAX`, a recorded count plus one stays below it. */
  lemma StepsBounded(grid: seq<seq<char>>, dist: map<Pos, nat>, walks: map<Pos, seq<Pos>>, p: Pos)
    requires WellFormed(grid) && |grid| * |grid[0]| < StepsMax
    requires DistCertified(grid, dist, walks) && p in dist
    ensures dist[p] + 1 < StepsMax
  {
    assert dist.Keys <= AllCells(grid);
    CellCount(grid);
    SubsetCardinality(dist.Keys, AllCells(grid));
  }

  lemma SubsetCardinality<T>(a: set<T>, b: set<T>)
    requires a <= b
    ensures |a| <= |b|
  {
    assert b == a + (b - a);
  }

  /** A walk to `p` extended by a free adjacent cell is a walk to that cell. */
  lemma ExtendWalk(grid: seq<seq<char>>, w: seq<Pos>, p: Pos, q: Pos)
    requires WellFormed(grid) && WalkTo(grid, w, p) && Adjacent(p, q) && Free(grid, q)
    ensures WalkTo(grid, w + [q], q)
  {
    var v := w + [q];
    forall i | 0 < i < |v|
      ensures Adjacent(v[i - 1], v[i]) && Free(grid, v[i])
    {
      if i < |w| {
        assert v[i - 1] == w[i - 1] && v[i] == w[i];
      }
    }
  }

  lemma RecordCertified(grid: seq<seq<char>>, dist: map<Pos, nat>, walks: map<Pos, seq<Pos>>, current: Pos, next: State)
    requires WellFormed(grid) && DistCertified(grid, dist, walks)
    requires current in dist && next.steps == dist[current] + 1 && next.steps < Dist(dist, next.position)
    requires Adjacent(current, next.position) && Free(grid, next.position)
    ensures DistCertified(grid, dist[next.position := next.steps], walks[next.position := walks[current] + [next.position]])
  {
    var n := next.position;
    var dist', walks' := dist[n := next.steps], walks[n := walks[current] + [n]];
    ExtendWalk(grid, walks[current], current, n);
    RecordBounded(dist, current, next);
  }

  lemma RecordTracked(dist: map<Pos, nat>, heap: seq<State>, settled: set<Pos>, next: State)
    requires HeapRecorded(dist, heap) && Tracked(dist, heap, settled) && next.steps < Dist(dist, next.position)
    ensures HeapRecorded(dist[next.position := next.steps], heap + [next])
    ensures Tracked(dist[next.position := next.steps], heap + [next], settled)
  {
    var dist' := dist[next.position := next.steps];
    forall s | s in heap + [next]
      ensures s.position in dist' && dist'[s.position] <= s.steps
    {
      if s != next {
        assert s in heap;
      }
    }
    forall p | p in dist'
      ensures p in settled || State(p, dist'[p]) in heap + [next]
    {
      if p != next.position {
        assert p in settled || State(p, dist[p]) in heap;
      }
    }
  }

  lemma RecordPrev(dist: map<Pos, nat>, prev: map<Pos, Pos>, current: Pos, next: Pos, steps: nat)
    requires PrevAdjacent(dist, prev) && current in dist && Adjacent(current, next)
    ensures PrevAdjacent(dist[next := steps], prev[next := current])
  {
  }

  /** Recording `next` with `current` as its predecessor keeps the invariant
      and lowers the sum of the step counts. */
  lemma RecordKeeps(grid: seq<seq<char>>, dist: map<Pos, nat>, prev: map<Pos, Pos>, heap: seq<State>,
                    walks: map<Pos, seq<Pos>>, settled: set<Pos>, expanded: set<Pos>, current: State, next: State)
    requires WellFormed(grid) && Invariant(grid, dist, prev, heap, walks, settled, expanded)
    requires current.position in dist && dist[current.position] == current.steps && next.steps < Dist(dist, next.position)
    requires Adjacent(current.position, next.position) && Free(grid, next.position) && next.steps == current.steps + 1
    requires next.position !in expanded
    ensures Invariant(grid, dist[next.position := next.steps], prev[next.position := current.position], heap + [next],
                      walks[next.position := walks[current.position] + [next.position]], settled, expanded)
    ensures DistSum(grid, dist[next.position := next.steps]) < DistSum(grid, dist)
  {
    var n := next.position;
    var dist' := dist[n := next.steps];
    DistDrop(grid, dist, n, next.steps);
    RecordCertified(grid, dist, walks, current.position, next);
    RecordTracked(dist, heap, settled, next);
    RecordPrev(dist, prev, current.position, n, next.steps);
    assert ExpandedClosed(grid, dist', expanded) by {
      forall p, q | p in expanded && Adjacent(p, q) && Free(grid, q)
        ensures p in dist' && q in dist' && dist'[q] <= dist'[p] + 1
      {
        assert p != n && dist'[p] == dist[p];
      }
    }
  }

  /** One successor of the `for next` loop: a strictly smaller step count is
      recorded with `current` as predecessor, and the successor is pushed. */
  method Relax(ghost grid: seq<seq<char>>, dist: map<Pos, nat>, prev: map<Pos, Pos>, heap: seq<State>,
               ghost walks: map<Pos, seq<Pos>>, ghost settled: set<Pos>, ghost expanded: set<Pos>,
               current: State, next: State)
    returns (dist': map<Pos, nat>, prev': map<Pos, Pos>, heap': seq<State>, ghost walks': map<Pos, seq<Pos>>)
    requires WellFormed(grid) && Invariant(grid, dist, prev, heap, walks, settled, expanded)
    requires current.position in dist && dist[current.position] == current.steps && next.steps < StepsMax
    requires Adjacent(current.position, next.position) && Free(grid, next.position) && next.steps == current.steps + 1
    requires forall p {:trigger p in expanded} :: p in expanded ==> p in dist && dist[p] <= current.steps
    ensures Invariant(grid, dist', prev', heap', walks', settled, expanded)
    ensures dist.Keys <= dist'.Keys && Recorded(dist', Some(next)) && NoWorse(dist, dist')
    ensures forall p {:trigger p in expanded} :: p in expanded ==> p in dist' && dist'[p] == dist[p]
    ensures forall t :: t in heap' ==> t in heap || t == next
    ensures current.position in dist' && dist'[current.position] == current.steps
    ensures next.steps < Dist(dist, next.position) ==>
              dist' == dist[next.position := next.steps] && prev' == prev[next.position := current.position]
              && heap' == heap + [next] && DistSum(grid, dist') < DistSum(grid, dist)
    ensures next.steps >= Dist(dist, next.position) ==> dist' == dist && prev' == prev && heap' == heap
  {
    var known := if next.position in dist then dist[next.position] else StepsMax;
    if next.steps < known {
      assert next.position !in expanded;
      RecordKeeps(grid, dist, prev, heap, walks, settled, expanded, current, next);
      dist' := dist[next.position := next.steps];
      prev' := prev[next.position := current.position];
      heap' := heap + [next];
      walks' := walks[next.position := walks[current.position] + [next.position]];
    } else {
      assert next.position in dist;
      dist', prev', heap', walks' := dist, prev, heap, walks;
    }
  }

  /** The `for next in current.next_states(map)` loop: afterwards every free
      neighbour of `current` is recorded, so `current` counts as expanded; the
      step counts either all stay or their sum drops. */
  method Expand(grid: seq<seq<char>>, dist: map<Pos, nat>, prev: map<Pos, Pos>, heap: seq<State>,
                ghost walks: map<Pos, seq<Pos>>, ghost settled: set<Pos>, ghost expanded: set<Pos>, current: State)
    returns (dist': map<Pos, nat>, prev': map<Pos, Pos>, heap': seq<State>, ghost walks': map<Pos, seq<Pos>>)
    requires WellFormed(grid) && Invariant(grid, dist, prev, heap, walks, settled, expanded)
    requires current.position in dist && dist[current.position] == current.steps && current.steps + 1 < StepsMax
    requires forall p {:trigger p in expanded} :: p in expanded ==> p in dist && dist[p] <= current.steps
    ensures Invariant(grid, dist', prev', heap', walks', settled, expanded + {current.position})
    ensures (dist' == dist && heap' == heap) || DistSum(grid, dist') < DistSum(grid, dist)
    ensures forall p {:trigger p in expanded} :: p in expanded ==> p in dist' && dist'[p] == dist[p]
    ensures current.position in dist' && dist'[current.position] == current.steps
    ensures forall t {:trigger t in heap'} :: t in heap' ==> t in heap || t.steps == current.steps + 1
  {
    var next := NextStates(grid, current);
    dist', prev', heap', walks' := dist, prev, heap, walks;
    var i := 0;
    while i < 4
      invariant 0 <= i <= 4
      invariant Invariant(grid, dist', prev', heap', walks', settled, expanded)
      invariant current.position in dist' && dist'[current.position] == current.steps
      invariant forall j :: 0 <= j < i ==> Recorded(dist', next[j])
      invariant (dist' == dist && heap' == heap) || DistSum(grid, dist') < DistSum(grid, dist)
      invariant forall p {:trigger p in expanded} :: p in expanded ==> p in dist' && dist'[p] == dist[p]
      invariant forall t {:trigger t in heap'} :: t in heap' ==> t in heap || t.steps == current.steps + 1
    {
      dist', prev', heap', walks' := RelaxListed(grid, dist', prev', heap', walks', settled, expanded, current, next, i);
      i := i + 1;
    }
    ExpandCloses(grid, dist', expanded, current, next);
  }

  /** One turn of the `for next` loop: the `i`-th listed successor, if any, is
      relaxed, and every successor listed up to it is recorded afterwards. */
  method RelaxListed(ghost grid: seq<seq<char>>, dist: map<Pos, nat>, prev: map<Pos, Pos>, heap: seq<State>,
                     ghost walks: map<Pos, seq<Pos>>, ghost settled: set<Pos>, ghost expanded: set<Pos>,
                     current: State, next: seq<Option<State>>, i: nat)
    returns (dist': map<Pos, nat>, prev': map<Pos, Pos>, heap': seq<State>, ghost walks': map<Pos, seq<Pos>>)
    requires WellFormed(grid) && Invariant(grid, dist, prev, heap, walks, settled, expanded)
    requires current.position in dist && dist[current.position] == current.steps && current.steps + 1 < StepsMax
    requires forall p {:trigger p in expanded} :: p in expanded ==> p in dist && dist[p] <= current.steps
    requires next == NextStates(grid, current) && i < 4
    requires forall j :: 0 <= j < i ==> Recorded(dist, next[j])
    ensures Invariant(grid, dist', prev', heap', walks', settled, expanded)
    ensures current.position in dist' && dist'[current.position] == current.steps
    ensures forall j :: 0 <= j <= i ==> Recorded(dist', next[j])
    ensures (dist' == dist && heap' == heap) || DistSum(grid, dist') < DistSum(grid, dist)
    ensures forall p {:trigger p in expanded} :: p in expanded ==> p in dist' && dist'[p] == dist[p]
    ensures forall t {:trigger t in heap'} :: t in heap' ==> t in heap || t.steps == current.steps + 1
  {
    dist', prev', heap', walks' := dist, prev, heap, walks;
    if next[i].Some? {
      dist', prev', heap', walks' := Relax(grid, dist, prev, heap, walks, settled, expanded, current, next[i].value);
      forall j | 0 <= j <= i
        ensures Recorded(dist', next[j])
      {
        if j < i {
          RecordedKept(dist, dist', next[j]);
        }
      }
    }
  }

  /** Every count of `dist` is recorded in `dist'`, no larger. */
  ghost predicate NoWorse(dist: map<Pos, nat>, dist': map<Pos, nat>) {
    forall q {:trigger q in dist} :: q in dist ==> q in dist' && dist'[q] <= dist[q]
  }

  lemma RecordedKept(dist: map<Pos, nat>, dist': map<Pos, nat>, next: Option<State>)
    requires NoWorse(dist, dist') && Recorded(dist, next)
    ensures Recorded(dist', next)
  {
  }

  /** A listed successor is recorded, with at most its steps. */
  predicate Recorded(dist: map<Pos, nat>, next: Option<State>) {
    next.Some? ==> next.value.position in dist && dist[next.value.position] <= next.value.steps
  }

  /** Once every listed successor of `current` is recorded, `current` joins the expanded cells. */
  lemma ExpandCloses(grid: seq<seq<char>>, dist: map<Pos, nat>, expanded: set<Pos>, current: State, next: seq<Option<State>>)
    requires WellFormed(grid) && ExpandedClosed(grid, dist, expanded) && next == NextStates(grid, current)
    requires current.position in dist && dist[current.position] == current.steps
    requires Recorded(dist, next[0]) && Recorded(dist, next[1]) && Recorded(dist, next[2]) && Recorded(dist, next[3])
    ensures ExpandedClosed(grid, dist, expanded + {current.position})
  {
    forall p, q | p in expanded + {current.position} && Adjacent(p, q) && Free(grid, q)
      ensures p in dist && q in dist && dist[q] <= dist[p] + 1
    {
      if p == current.position {
        assert Some(State(q, current.steps + 1)) in next;
      }
    }
  }

  /** What a pop leaves tracked: a state carrying its cell's recorded count
      moves that cell to the settled ones, any other state is stale. */
  lemma PopTracked(dist: map<Pos, nat>, heap: seq<State>, rest: seq<State>, current: State, settled: set<Pos>)
    requires Tracked(dist, heap, settled) && HeapRecorded(dist, heap)
    requires multiset(heap) == multiset(rest) + multiset{current}
    ensures current.position in dist && current.steps >= dist[current.position]
    ensures HeapRecorded(dist, rest)
    ensures current.steps > dist[current.position] ==> Tracked(dist, rest, settled)
    ensures current.steps == dist[current.position] ==> Tracked(dist, rest, settled + {current.position})
  {
    PopKeeps(heap, rest, current);
    assert multiset(heap)[current] == multiset(rest)[current] + 1;
    assert current in heap;
  }

  /** Along a walk from the start whose first `i` cells are expanded, the
      `i`-th cell is recorded with at most `i` steps. */
  lemma {:induction false} PrefixRecorded(grid: seq<seq<char>>, dist: map<Pos, nat>, expanded: set<Pos>, w: seq<Pos>, i: nat)
    requires WellFormed(grid) && ExpandedClosed(grid, dist, expanded) && Start() in dist && dist[Start()] == 0
    requires IsWalk(grid, w) && w[0] == Start() && i < |w|
    requires forall k :: 0 <= k < i ==> w[k] in expanded
    ensures w[i] in dist && dist[w[i]] <= i
  {
    if i > 0 {
      PrefixRecorded(grid, dist, expanded, w, i - 1);
      assert Adjacent(w[i - 1], w[i]) && Free(grid, w[i]);
    }
  }

  /** When a cell that was never expanded leaves the heap with `c` steps and is
      recorded with at most `c`, no walk from the start reaches it in fewer
      steps: such a walk leaves the expanded cells at some cell that waits in
      the heap with no more steps than its position on the walk. */
  lemma ShortestAtPop(grid: seq<seq<char>>, dist: map<Pos, nat>, expanded: set<Pos>, heap: seq<State>, c: nat, w: seq<Pos>)
    requires WellFormed(grid) && ExpandedClosed(grid, dist, expanded) && Start() in dist && dist[Start()] == 0
    requires Tracked(dist, heap, expanded) && forall t {:trigger t in heap} :: t in heap ==> t.steps >= c
    requires IsWalk(grid, w) && w[0] == Start()
    requires w[|w| - 1] !in expanded && w[|w| - 1] in dist && dist[w[|w| - 1]] <= c
    ensures dist[w[|w| - 1]] < |w|
  {
    var j := 0;
    while w[j] in expanded
      invariant 0 <= j < |w| && forall k :: 0 <= k < j ==> w[k] in expanded
      decreases |w| - j
    {
      j := j + 1;
    }
    PrefixRecorded(grid, dist, expanded, w, j);
    assert State(w[j], dist[w[j]]) in heap;
  }

  /** `escape_route`: the number of steps Dijkstra's algorithm records for the
      goal when it is popped or the heap runs dry. A result is the length of a
      genuine walk from the start (`walk`) and no walk is shorter; no result
      means that no walk reaches the goal. The map has fewer cells than
      `Steps::MAX`. */
  method EscapeRoute(grid: seq<seq<char>>) returns (r: Option<nat>, ghost walk: seq<Pos>)
    requires WellFormed(grid) && |grid| * |grid[0]| < StepsMax
    ensures r.Some? ==> WalkTo(grid, walk, Goal(grid)) && |walk| == r.value + 1
    ensures r.Some? ==> forall w :: WalkTo(grid, w, Goal(grid)) ==> r.value < |w|
    ensures r.None? ==> forall w :: !WalkTo(grid, w, Goal(grid))
  {
    var goal := Goal(grid);
    var dist: map<Pos, nat> := map[Start() := 0];
    var prev: map<Pos, Pos> := map[];
    var heap := [State(Start(), 0)];
    ghost var walks: map<Pos, seq<Pos>> := map[Start() := [Start()]];
    ghost var expanded: set<Pos> := {};
    ghost var reachedGoal := false;
    ghost var level: nat := 0;
    while heap != []
      invariant Invariant(grid, dist, prev, heap, walks, expanded, expanded)
      invariant !reachedGoal
      invariant forall t {:trigger t in heap} :: t in heap ==> t.steps >= level
      invariant forall p {:trigger p in expanded} :: p in expanded ==> p in dist && dist[p] <= level
      invariant goal !in expanded
      decreases DistSum(grid, dist), |heap|
    {
      DistSumNonNegative(grid, dist);
      var current, rest := Pop(heap);
      PopTracked(dist, heap, rest, current, expanded);
      PopKeeps(heap, rest, current);
      if current.position == goal {
        forall w | WalkTo(grid, w, goal)
          ensures dist[goal] < |w|
        {
          ShortestAtPop(grid, dist, expanded, heap, current.steps, w);
        }
        reachedGoal := true;
        break;
      }
      heap := rest;
      var best := if current.position in dist then dist[current.position] else StepsMax;
      if current.steps > best {
        continue;
      }
      StepsBounded(grid, dist, walks, current.position);
      assert current.steps >= level;
      forall p | p in expanded
        ensures p in dist && dist[p] <= current.steps
      {
      }
      dist, prev, heap, walks := Expand(grid, dist, prev, heap, walks, expanded + {current.position}, expanded, current);
      forall p | p in expanded + {current.position}
        ensures p in dist && dist[p] <= current.steps
      {
      }
      expanded := expanded + {current.position};
      level := current.steps;
    }
    if !reachedGoal {
      assert StepClosed(grid, dist.Keys);
      forall w | WalkTo(grid, w, goal)
        ensures goal in dist
      {
        WalkStaysIn(grid, dist.Keys, w);
      }
    }
    if goal in dist {
      r, walk := Some(dist[goal]), walks[goal];
    } else {
      r, walk := None, [];
    }
  }

  /* ---------------------------------------------------------------------------
     Input, output and the two parts
     ------------------------------------------------------------------------- */

  /** One input line "x,y": the first two comma-separated pieces parsed as
      unsigned numbers, giving the map index (y, x). A missing piece or a piece
      that does not parse makes `unwrap` panic, modelled as `None`. */
  function ParseLine(line: string): (r: Option<Pos>)
    ensures r.Some? ==> r.value.0 >= 0 && r.value.1 >= 0
    ensures r.Some? <==> |Split(line, ',')| >= 2 && ParseUnsigned(Split(line, ',')[0]).Some?
                                                && ParseUnsigned(Split(line, ',')[1]).Some?
  {
    var pieces := Split(line, ',');
    if |pieces| < 2 then None
    else
      match (ParseUnsigned(pieces[0]), ParseUnsigned(pieces[1]))
      case (Some(x), Some(y)) => Some((y, x))
      case _ => None
  }

  /** `parse_input`: every line parsed; any line that fails makes the whole parse fail. */
  function ParseInput(input: string): Option<seq<Pos>> {
    ParseLines(Lines(input))
  }

  /** The lines parse exactly when each one does, and then in order. */
  function {:induction false} ParseLines(lines: seq<string>): (r: Option<seq<Pos>>)
    ensures r.Some? <==> forall i :: 0 <= i < |lines| ==> ParseLine(lines[i]).Some?
    ensures r.Some? ==> |r.value| == |lines| && forall i :: 0 <= i < |r.value| ==> ParseLine(lines[i]) == Some(r.value[i])
  {
    if |lines| == 0 then Some([])
    else
      match (ParseLine(lines[0]), ParseLines(lines[1..]))
      case (Some(p), Some(ps)) => Some([p] + ps)
      case (None, _) => None
      case (_, None) => None
  }

  /** "x,y" for the map index (row, column) = (y, x), as part 2 prints it and
      as the input lists the bytes. */
  function FormatPos(p: Pos): string
    requires p.0 >= 0 && p.1 >= 0
  {
    Join([DecimalString(p.1), DecimalString(p.0)], [','])
  }

  /** Printing a map index and parsing the line back gives the index. */
  lemma FormatParses(p: Pos)
    requires p.0 >= 0 && p.1 >= 0
    ensures ParseLine(FormatPos(p)) == Some(p)
  {
    var x, y := DecimalString(p.1), DecimalString(p.0);
    forall i | 0 <= i < |[x, y]|
      ensures ',' !in [x, y][i]
    {
      assert AllDigits([x, y][i]);
    }
    SplitJoin([x, y], ',');
    DecimalRoundTrip(p.1);
    DecimalRoundTrip(p.0);
  }

  /** `Map::set`: writes `c` at `p`; an index off the map is ignored, as the
      source drops the `Err` that `set` returns. */
  function SetCell(grid: seq<seq<char>>, p: Pos, c: char): (r: seq<seq<char>>)
    requires WellFormed(grid)
    ensures WellFormed(r) && |r| == |grid| && |r[0]| == |grid[0]|
    ensures forall q :: InBounds(grid, q) ==> Cell(r, q) == if q == p then c else Cell(grid, q)
  {
    if InBounds(grid, p) then grid[p.0 := grid[p.0][p.1 := c]] else grid
  }

  /** `Map::new(70 + 1, 70 + 1, '.')`. */
  function Blank(): (r: seq<seq<char>>)
    ensures WellFormed(r) && |r| == Size && |r[0]| == Size
    ensures forall q :: InBounds(r, q) ==> Cell(r, q) == '.'
  {
    seq(Size, _ => seq(Size, _ => '.'))
  }

  /** The map after the bytes have fallen in order: a cell is corrupted exactly
      when some byte hit it or it was corrupted before. */
  function {:induction false} Corrupted(grid: seq<seq<char>>, bytes: seq<Pos>): (r: seq<seq<char>>)
    requires WellFormed(grid)
    ensures WellFormed(r) && |r| == |grid| && |r[0]| == |grid[0]|
    ensures forall q :: InBounds(grid, q) ==> Cell(r, q) == if q in bytes then '#' else Cell(grid, q)
    decreases |bytes|
  {
    if |bytes| == 0 then grid
    else SetCell(Corrupted(grid, bytes[..|bytes| - 1]), bytes[|bytes| - 1], '#')
  }

  /** The `for position in ... { map.set(*position, '#') }` loop over the first `n` bytes. */
  method CorruptFirst(grid: seq<seq<char>>, bytes: seq<Pos>, n: nat) returns (g: seq<seq<char>>)
    requires WellFormed(grid)
    ensures g == Corrupted(grid, bytes[..if n < |bytes| then n else |bytes|])
  {
    var count := if n < |bytes| then n else |bytes|;
    g := grid;
    var i := 0;
    while i < count
      invariant 0 <= i <= count
      invariant g == Corrupted(grid, bytes[..i])
    {
      assert bytes[..i + 1][..i] == bytes[..i];
      g := SetCell(g, bytes[i], '#');
      i := i + 1;
    }
  }

  /** Some walk from the start reaches the exit. */
  ghost predicate Escapable(grid: seq<seq<char>>)
    requires WellFormed(grid)
  {
    exists w :: WalkTo(grid, w, Goal(grid))
  }

  /** The exit can still be reached once byte `j` has fallen. */
  ghost predicate EscapableAfter(bytes: seq<Pos>, j: nat)
    requires j < |bytes|
  {
    Escapable(Corrupted(Blank(), bytes[..j + 1]))
  }

  /** `part1`: the steps of a shortest walk to the exit after the first 1024
      bytes, printed; `None` exactly when the exit cannot be reached. */
  method Part1(input: string) returns (r: Option<string>, ghost walk: seq<Pos>)
    requires ParseInput(input).Some?
    ensures var grid := Corrupted(Blank(), ParseInput(input).value[..Min(FirstBytes, |ParseInput(input).value|)]);
            && (r.None? <==> !Escapable(grid))
            && (r.Some? ==> WalkTo(grid, walk, Goal(grid)) && r.value == DecimalString(|walk| - 1))
            && (r.Some? ==> forall w :: WalkTo(grid, w, Goal(grid)) ==> |walk| <= |w|)
  {
    var bytes := ParseInput(input).value;
    var grid := CorruptFirst(Blank(), bytes, FirstBytes);
    var steps;
    steps, walk := EscapeRoute(grid);
    if steps.Some? {
      r := Some(DecimalString(steps.value));
    } else {
      r := None;
    }
  }

  function Min(a: nat, b: nat): nat {
    if a < b then a else b
  }

  /** One more byte falls on a blank map corrupted by the bytes before it. */
  function CorruptNext(grid: seq<seq<char>>, bytes: seq<Pos>, i: nat): (r: seq<seq<char>>)
    requires i < |bytes| && grid == Corrupted(Blank(), bytes[..i])
    ensures r == Corrupted(Blank(), bytes[..i + 1])
    ensures WellFormed(r) && |r| * |r[0]| < StepsMax
  {
    assert bytes[..i + 1][..i] == bytes[..i];
    SetCell(grid, bytes[i], '#')
  }

  /** A walk to the exit once byte `i` has fallen shows the exit can be reached. */
  lemma WalkEscapes(bytes: seq<Pos>, i: nat, grid: seq<seq<char>>, walk: seq<Pos>)
    requires i < |bytes| && grid == Corrupted(Blank(), bytes[..i + 1]) && WellFormed(grid)
    requires WalkTo(grid, walk, Goal(grid))
    ensures EscapableAfter(bytes, i)
  {
  }

  /** The loop of `part2`: keeps corrupting after the first 1024 bytes and
      stops at the first byte after which the exit cannot be reached (`cut`),
      leaving `death_block` at (0, 0) when every later byte still leaves a way out. */
  method DeathBlock(bytes: seq<Pos>) returns (deathBlock: Pos, ghost cut: Option<nat>)
    ensures forall j :: FirstBytes <= j < |bytes| && (cut.None? || j < cut.value) ==> EscapableAfter(bytes, j)
    ensures cut.Some? ==> FirstBytes <= cut.value < |bytes| && !EscapableAfter(bytes, cut.value)
                          && deathBlock == bytes[cut.value]
    ensures cut.None? ==> deathBlock == (0, 0)
  {
    var grid := CorruptFirst(Blank(), bytes, FirstBytes);
    deathBlock, cut := (0, 0), None;
    var i := Min(FirstBytes, |bytes|);
    while i < |bytes|
      invariant Min(FirstBytes, |bytes|) <= i <= |bytes|
      invariant grid == Corrupted(Blank(), bytes[..i])
      invariant forall j :: FirstBytes <= j < i ==> EscapableAfter(bytes, j)
    {
      grid := CorruptNext(grid, bytes, i);
      var route, walk := EscapeRoute(grid);
      if route.None? {
        deathBlock, cut := bytes[i], Some(i);
        break;
      }
      WalkEscapes(bytes, i, grid, walk);
      i := i + 1;
    }
  }

  /** `part2`: the death block printed as "x,y". */
  method Part2(input: string) returns (r: string, ghost cut: Option<nat>)
    requires ParseInput(input).Some?
    ensures var bytes := ParseInput(input).value;
            && (forall j :: FirstBytes <= j < |bytes| && (cut.None? || j < cut.value) ==> EscapableAfter(bytes, j))
            && (cut.Some? ==> FirstBytes <= cut.value < |bytes| && !EscapableAfter(bytes, cut.value)
                              && r == FormatPos(bytes[cut.value]))
            && (cut.None? ==> r == FormatPos((0, 0)))
  {
    var bytes := ParseInput(input).value;
    var deathBlock;
    deathBlock, cut := DeathBlock(bytes);
    r := FormatPos(deathBlock);
  }
}
