/**
 * 2024 day 20, Race Condition: a race track of '.' cells between walls '#'
 * runs from 'S' to 'E'. A cheat passes through walls for up to `d`
 * picoseconds (2 in part 1, 20 in part 2), jumping from a course position to
 * any track cell within Manhattan distance `d`; it saves the time the normal
 * course would have spent beyond the jump. The answer counts the cheats that
 * save at least 100 picoseconds.
 *
 * Positions are (row, column) pairs. The directions are tried north, south,
 * east, west.
 */
module Day20 {
  import opened Wrappers
  import opened Text
  import opened Sums
  import GridIndex

  type Pos = (int, int)
  type Offset = (int, int)

  /** `Time`, a `usize` in the source. */
  type Time = nat

  /** North, south, east, west. */
  const Offsets: seq<Offset> := [(-1, 0), (1, 0), (0, 1), (0, -1)]

  function Shift(p: Pos, o: Offset): Pos {
    (p.0 + o.0, p.1 + o.1)
  }

  function Manhattan(a: Pos, b: Pos): nat {
    GridIndex.Abs(a.0 - b.0) + GridIndex.Abs(a.1 - b.1)
  }

  /** A rectangular map with at least one row. */
  predicate WellFormed(grid: seq<seq<char>>) {
    |grid| > 0 && forall r :: 0 <= r < |grid| ==> |grid[r]| == |grid[0]|
  }

  predicate InBounds(grid: seq<seq<char>>, p: Pos)
    requires WellFormed(grid)
  {
    0 <= p.0 < |grid| && 0 <= p.1 < |grid[0]|
  }

  predicate Holds(grid: seq<seq<char>>, p: Pos, c: char)
    requires WellFormed(grid)
  {
    InBounds(grid, p) && grid[p.0][p.1] == c
  }

  /** `position_is_track`: `Map::get` is not a wall; off the map `get` gives
      None, which is not a wall either. */
  predicate IsTrack(grid: seq<seq<char>>, p: Pos)
    requires WellFormed(grid)
  {
    !Holds(grid, p, '#')
  }

  /* ---------------------------------------------------------------------
     Finding 'S' and 'E'
     --------------------------------------------------------------------- */

  /** Reading order: by row, then by column. */
  predicate Before(p: Pos, q: Pos) {
    p.0 < q.0 || (p.0 == q.0 && p.1 < q.1)
  }

  /** The first column from `j` on holding `c`. */
  function FindInRow(line: seq<char>, c: char, j: nat): (r: Option<nat>)
    decreases |line| - j
    ensures r.Some? ==> (j <= r.value < |line| && line[r.value] == c &&
      forall k :: j <= k < r.value ==> line[k] != c)
    ensures r.None? ==> forall k :: j <= k < |line| ==> line[k] != c
  {
    if j >= |line| then None else if line[j] == c then Some(j) else FindInRow(line, c, j + 1)
  }

  /** The first cell from row `row` on holding `c`, in reading order. */
  function FindFrom(grid: seq<seq<char>>, c: char, row: nat): Option<Pos>
    requires WellFormed(grid)
    decreases |grid| - row
  {
    if row >= |grid| then None
    else
      match FindInRow(grid[row], c, 0)
      case Some(column) => Some((row, column))
      case None => FindFrom(grid, c, row + 1)
  }

  lemma {:induction false} FindFromFirst(grid: seq<seq<char>>, c: char, row: nat)
    requires WellFormed(grid)
    decreases |grid| - row
    ensures var r := FindFrom(grid, c, row);
      r.Some? ==> (row <= r.value.0 && Holds(grid, r.value, c) &&
        forall p: Pos :: row <= p.0 && Before(p, r.value) ==> !Holds(grid, p, c))
    ensures FindFrom(grid, c, row).None? ==> forall p: Pos :: row <= p.0 ==> !Holds(grid, p, c)
  {
    if row < |grid| && FindInRow(grid[row], c, 0).None? {
      FindFromFirst(grid, c, row + 1);
    }
  }

  /** `Map::find`: the first cell holding `c` in reading order, if any. */
  function Find(grid: seq<seq<char>>, c: char): Option<Pos>
    requires WellFormed(grid)
  {
    FindFrom(grid, c, 0)
  }

  /** `Find` gives the first cell holding `c` in reading order, and None only
      when no cell holds it. */
  lemma FindFirst(grid: seq<seq<char>>, c: char)
    requires WellFormed(grid)
    ensures var r := Find(grid, c);
      r.Some? ==> Holds(grid, r.value, c) && forall p :: Before(p, r.value) ==> !Holds(grid, p, c)
    ensures Find(grid, c).None? ==> forall p :: !Holds(grid, p, c)
  {
    FindFromFirst(grid, c, 0);
  }

  /* ---------------------------------------------------------------------
     The course
     --------------------------------------------------------------------- */

  /** A position one may move to: on the map, not the excluded previous
      position, and track. */
  predicate Candidate(grid: seq<seq<char>>, p: Pos, previous: Pos)
    requires WellFormed(grid)
  {
    InBounds(grid, p) && p != previous && IsTrack(grid, p)
  }

  lemma UnitStep(p: Pos, k: nat)
    requires k < 4
    ensures Manhattan(p, Shift(p, Offsets[k])) == 1
  {
  }

  /** The first candidate among the directions from the `k`-th on. */
  function FirstStep(grid: seq<seq<char>>, current: Pos, previous: Pos, k: nat): Option<Pos>
    requires WellFormed(grid) && k <= 4
    decreases 4 - k
  {
    if k == 4 then None
    else
      var p := Shift(current, Offsets[k]);
      if Candidate(grid, p, previous) then Some(p) else FirstStep(grid, current, previous, k + 1)
  }

  lemma {:induction false} FirstStepCandidate(grid: seq<seq<char>>, current: Pos, previous: Pos, k: nat)
    requires WellFormed(grid) && k <= 4
    decreases 4 - k
    ensures var r := FirstStep(grid, current, previous, k);
      r.Some? ==> Manhattan(current, r.value) == 1 && Candidate(grid, r.value, previous)
    ensures FirstStep(grid, current, previous, k).None? <==>
      forall j :: k <= j < 4 ==> !Candidate(grid, Shift(current, Offsets[j]), previous)
  {
    if k < 4 {
      UnitStep(current, k);
      FirstStepCandidate(grid, current, previous, k + 1);
    }
  }

  /** `next_position` as written: the position before the current one is
      excluded only once the course is longer than 2, so on a course of
      exactly two positions the walk may step back to the start. None is the
      panic when no direction leads on. */
  function NextPositionAsWritten(grid: seq<seq<char>>, course: seq<Pos>): Option<Pos>
    requires WellFormed(grid) && |course| > 0
  {
    var current := course[|course| - 1];
    var previous := if |course| > 2 then course[|course| - 2] else current;
    FirstStep(grid, current, previous, 0)
  }

  /** `next_position` as intended: the position before the current one is
      excluded as soon as there is one. */
  function NextPosition(grid: seq<seq<char>>, course: seq<Pos>): Option<Pos>
    requires WellFormed(grid) && |course| > 0
  {
    var current := course[|course| - 1];
    var previous := if |course| >= 2 then course[|course| - 2] else current;
    FirstStep(grid, current, previous, 0)
  }

  /** The next position is a neighbour on the track that is not the position
      before; there is none only when no neighbour qualifies. */
  lemma NextPositionStep(grid: seq<seq<char>>, course: seq<Pos>)
    requires WellFormed(grid) && |course| > 0
    ensures var r := NextPosition(grid, course);
      r.Some? ==> (Manhattan(course[|course| - 1], r.value) == 1 && InBounds(grid, r.value) &&
        IsTrack(grid, r.value) && (|course| >= 2 ==> r.value != course[|course| - 2]))
    ensures NextPosition(grid, course).None? <==> forall j :: 0 <= j < 4 ==>
      !Candidate(grid, Shift(course[|course| - 1], Offsets[j]), if |course| >= 2 then course[|course| - 2] else course[|course| - 1])
  {
    var current := course[|course| - 1];
    FirstStepCandidate(grid, current, if |course| >= 2 then course[|course| - 2] else current, 0);
  }

  /** A straight track three cells long, entered from the top. */
  const StraightTrack: seq<seq<char>> := ["###", "#S#", "#.#", "#E#", "###"]

  /** On `StraightTrack` the north neighbour of the second position is the
      start, which the source does not exclude: the walk steps back, and
      from the start again every way on is excluded (a panic). */
  lemma NextPositionAsWrittenStepsBack()
    ensures WellFormed(StraightTrack)
    ensures NextPositionAsWritten(StraightTrack, [(1, 1), (2, 1)]) == Some((1, 1))
    ensures NextPositionAsWritten(StraightTrack, [(1, 1), (2, 1), (1, 1)]).None?
    ensures NextPosition(StraightTrack, [(1, 1), (2, 1)]) == Some((3, 1))
  {
    var g := StraightTrack;
    assert g[1][1] == 'S' && g[2][1] == '.' && g[3][1] == 'E' && g[0][1] == '#';
    assert g[1][0] == '#' && g[1][2] == '#' && g[2][0] == '#' && g[2][2] == '#';
  }

  /** The course walk from `position`, `course` holding the positions before
      it; `fuel` bounds the number of steps. */
  function Walk(grid: seq<seq<char>>, goal: Pos, course: seq<Pos>, position: Pos, fuel: nat): Option<seq<Pos>>
    requires WellFormed(grid)
    decreases fuel
  {
    if position == goal then Some(course + [goal])
    else if fuel == 0 then None
    else
      match NextPosition(grid, course + [position])
      case None => None
      case Some(next) => Walk(grid, goal, course + [position], next, fuel - 1)
  }

  /** The course of the map: None when 'S' or 'E' is missing (a panic), when
      the walk gets stuck (a panic), or when it has not reached 'E' after as
      many steps as the map has cells. */
  function CourseOf(grid: seq<seq<char>>): Option<seq<Pos>>
    requires WellFormed(grid)
  {
    match (Find(grid, 'S'), Find(grid, 'E'))
    case (Some(start), Some(goal)) => Walk(grid, goal, [], start, |grid| * |grid[0]|)
    case _ => None
  }

  /** `map_course`: from 'S', push the position and move on until 'E'. */
  method MapCourse(grid: seq<seq<char>>) returns (r: Option<seq<Pos>>)
    requires WellFormed(grid)
    ensures r == CourseOf(grid)
  {
    var start := Find(grid, 'S');
    var goal := Find(grid, 'E');
    if start.None? || goal.None? {
      return None;
    }
    var position := start.value;
    var course := [];
    var fuel: nat := |grid| * |grid[0]|;
    while position != goal.value
      invariant Walk(grid, goal.value, course, position, fuel) == CourseOf(grid)
      decreases fuel
    {
      if fuel == 0 {
        return None;
      }
      course := course + [position];
      var next := NextPosition(grid, course);
      if next.None? {
        return None;
      }
      position, fuel := next.value, fuel - 1;
    }
    course := course + [goal.value];
    return Some(course);
  }

  /** On the map and track throughout, one step at a time, never straight
      back to the position before. */
  predicate Steps(grid: seq<seq<char>>, course: seq<Pos>)
    requires WellFormed(grid)
  {
    (forall i :: 0 <= i < |course| ==> InBounds(grid, course[i]) && IsTrack(grid, course[i])) &&
    (forall i :: 0 <= i < |course| - 1 ==> Manhattan(course[i], course[i + 1]) == 1) &&
    (forall i :: 0 <= i < |course| - 2 ==> course[i + 2] != course[i])
  }

  /** A step `NextPosition` takes keeps the course in shape. */
  lemma StepsExtend(grid: seq<seq<char>>, course: seq<Pos>, next: Pos)
    requires WellFormed(grid) && |course| > 0 && Steps(grid, course)
    requires NextPosition(grid, course) == Some(next)
    ensures Steps(grid, course + [next])
  {
    NextPositionStep(grid, course);
    var extended := course + [next];
    forall i | 0 <= i < |extended| - 2 ensures extended[i + 2] != extended[i] {
      if i + 2 < |course| {
        assert extended[i + 2] == course[i + 2] && extended[i] == course[i];
      }
    }
    forall i | 0 <= i < |extended| - 1 ensures Manhattan(extended[i], extended[i + 1]) == 1 {
      if i + 1 < |course| {
        assert extended[i + 1] == course[i + 1] && extended[i] == course[i];
      }
    }
  }

  /** `result` is a course that extends `course` by `position` and ends at `goal`. */
  predicate WalkedFrom(grid: seq<seq<char>>, result: seq<Pos>, course: seq<Pos>, position: Pos, goal: Pos)
    requires WellFormed(grid)
  {
    Steps(grid, result) && |result| > |course| && result[|course|] == position &&
    (forall i :: 0 <= i < |course| ==> result[i] == course[i]) && result[|result| - 1] == goal
  }

  lemma {:induction false} WalkSteps(grid: seq<seq<char>>, goal: Pos, course: seq<Pos>, position: Pos, fuel: nat)
    requires WellFormed(grid) && Steps(grid, course + [position])
    requires Walk(grid, goal, course, position, fuel).Some?
    ensures WalkedFrom(grid, Walk(grid, goal, course, position, fuel).value, course, position, goal)
    decreases fuel
  {
    var longer := course + [position];
    if position == goal {
      assert Walk(grid, goal, course, position, fuel).value == longer;
    } else {
      var next := NextPosition(grid, longer).value;
      StepsExtend(grid, longer, next);
      assert Walk(grid, goal, course, position, fuel) == Walk(grid, goal, longer, next, fuel - 1);
      var result := Walk(grid, goal, longer, next, fuel - 1).value;
      WalkSteps(grid, goal, longer, next, fuel - 1);
      forall i | 0 <= i < |course| ensures result[i] == course[i] {
        assert result[i] == longer[i];
      }
      assert result[|course|] == longer[|course|];
    }
  }

  /** The course starts at 'S', ends at 'E' and moves one step at a time
      along the track without turning straight back. */
  lemma CourseShape(grid: seq<seq<char>>)
    requires WellFormed(grid) && CourseOf(grid).Some?
    ensures var course := CourseOf(grid).value;
      |course| > 0 && Steps(grid, course) && course[0] == Find(grid, 'S').value &&
      course[|course| - 1] == Find(grid, 'E').value
  {
    FindFirst(grid, 'S');
    var start := Find(grid, 'S').value;
    assert [] + [start] == [start];
    WalkSteps(grid, Find(grid, 'E').value, [], start, |grid| * |grid[0]|);
  }

  /** The map from course positions to their times: `course_index`. A
      position met twice keeps its last time. */
  function CourseIndex(course: seq<Pos>): map<Pos, Time> {
    if |course| == 0 then map[]
    else CourseIndex(course[..|course| - 1])[course[|course| - 1] := |course| - 1]
  }

  /** The index holds every course position, at a time the course is there,
      and at its last such time. */
  lemma {:induction false} CourseIndexShape(course: seq<Pos>)
    ensures CourseIndex(course).Keys == set p | p in course
    ensures forall p :: p in CourseIndex(course) ==> CourseIndex(course)[p] < |course| && course[CourseIndex(course)[p]] == p
    ensures forall t :: 0 <= t < |course| ==> t <= CourseIndex(course)[course[t]]
  {
    if |course| > 0 {
      var init, last := course[..|course| - 1], course[|course| - 1];
      CourseIndexShape(init);
      var index, index' := CourseIndex(init), CourseIndex(course);
      assert forall t :: 0 <= t < |init| ==> init[t] == course[t];
      assert course == init + [last];
      forall t | 0 <= t < |course| ensures t <= index'[course[t]] {
        if course[t] != last {
          assert course[t] == init[t];
        }
      }
    }
  }

  predicate Distinct(course: seq<Pos>) {
    forall i, j :: 0 <= i < j < |course| ==> course[i] != course[j]
  }

  /** On a course that visits no position twice, `course_index[course[t]]` is
      `t`. */
  lemma CourseIndexTimes(course: seq<Pos>)
    requires Distinct(course)
    ensures forall t :: 0 <= t < |course| ==> course[t] in CourseIndex(course) && CourseIndex(course)[course[t]] == t
  {
    var index := CourseIndex(course);
    CourseIndexShape(course);
    forall t | 0 <= t < |course| ensures index[course[t]] == t {
      assert course[index[course[t]]] == course[t];
    }
  }

  /* ---------------------------------------------------------------------
     Cheat offsets
     --------------------------------------------------------------------- */

  /** The offsets of row `i` of the `(2d + 1)`-square, columns below `j`,
      that lie within distance `d`, with their lengths. */
  function OffsetsRow(d: nat, i: nat, j: nat): seq<(Offset, Time)>
    requires j <= 2 * d + 1
  {
    if j == 0 then []
    else
      var o := (i - d, j - 1 - d);
      var length := GridIndex.Abs(o.0) + GridIndex.Abs(o.1);
      OffsetsRow(d, i, j - 1) + (if length <= d then [(o, length)] else [])
  }

  /** The same over the rows below `i`. */
  function OffsetsUpTo(d: nat, i: nat): seq<(Offset, Time)> {
    if i == 0 then [] else OffsetsUpTo(d, i - 1) + OffsetsRow(d, i - 1, 2 * d + 1)
  }

  /** Every offset of length at most `d`, with its length, row by row: the
      `cartesian_product` and the `filter_map` of `get_offsets`. */
  function Ball(d: nat): seq<(Offset, Time)> {
    OffsetsUpTo(d, 2 * d + 1)
  }

  lemma {:induction false} OffsetsRowMember(d: nat, i: nat, j: nat, e: (Offset, Time))
    requires j <= 2 * d + 1
    ensures e in OffsetsRow(d, i, j) <==> (e.0.0 == i - d && 0 <= e.0.1 + d < j &&
      e.1 == Manhattan(e.0, (0, 0)) <= d)
  {
    if j > 0 {
      OffsetsRowMember(d, i, j - 1, e);
    }
  }

  lemma {:induction false} OffsetsUpToMember(d: nat, i: nat, e: (Offset, Time))
    ensures e in OffsetsUpTo(d, i) <==> (0 <= e.0.0 + d < i && -(d as int) <= e.0.1 <= d &&
      e.1 == Manhattan(e.0, (0, 0)) <= d)
  {
    if i > 0 {
      OffsetsUpToMember(d, i - 1, e);
      OffsetsRowMember(d, i - 1, 2 * d + 1, e);
    }
  }

  /** The ball holds exactly the offsets of length at most `d`, each with its
      length; the zero offset is among them. */
  lemma BallMember(d: nat, e: (Offset, Time))
    ensures e in Ball(d) <==> e.1 == Manhattan(e.0, (0, 0)) <= d
  {
    OffsetsUpToMember(d, 2 * d + 1, e);
  }

  /** The entries of `offsets` whose offset is not `excluded`, in order. */
  function Without(offsets: seq<(Offset, Time)>, excluded: Offset): (r: seq<(Offset, Time)>)
    ensures forall e :: e in r <==> e in offsets && e.0 != excluded
  {
    if |offsets| == 0 then []
    else
      var last := offsets[|offsets| - 1];
      Without(offsets[..|offsets| - 1], excluded) + (if last.0 != excluded then [last] else [])
  }

  lemma {:induction false} WithoutAbsent(offsets: seq<(Offset, Time)>, excluded: Offset)
    requires forall i :: 0 <= i < |offsets| ==> offsets[i].0 != excluded
    ensures Without(offsets, excluded) == offsets
  {
    if |offsets| > 0 {
      var init := offsets[..|offsets| - 1];
      assert forall i :: 0 <= i < |init| ==> init[i] == offsets[i];
      WithoutAbsent(init, excluded);
      assert offsets == init + [offsets[|offsets| - 1]];
    }
  }

  /** `get_offsets` as written: the centre it filters out is the unshifted
      `(d, d)`, which for `d >= 1` is never within distance `d`, so nothing is
      filtered and the zero offset stays. */
  function GetOffsetsAsWritten(d: nat): seq<(Offset, Time)> {
    Without(Ball(d), (d, d))
  }

  /** For `d >= 1` the source keeps the zero offset, of length 0, and keeps
      the whole ball. */
  lemma GetOffsetsAsWrittenKeepsCentre(d: nat)
    requires d >= 1
    ensures ((0, 0), 0) in GetOffsetsAsWritten(d)
    ensures GetOffsetsAsWritten(d) == Ball(d)
  {
    BallMember(d, ((0, 0), 0));
    forall e | e in Ball(d) ensures e.0 != (d, d) {
      BallMember(d, e);
    }
    WithoutAbsent(Ball(d), (d, d));
  }

  /** `get_offsets` as intended: the ball without its centre. */
  function GetOffsets(d: nat): seq<(Offset, Time)> {
    Without(Ball(d), (0, 0))
  }

  /** Exactly the non-zero offsets within distance `d`, each with its length. */
  lemma GetOffsetsMember(d: nat, e: (Offset, Time))
    ensures e in GetOffsets(d) <==> e.1 == Manhattan(e.0, (0, 0)) && 0 < e.1 <= d
  {
    BallMember(d, e);
  }

  /* ---------------------------------------------------------------------
     Cheats
     --------------------------------------------------------------------- */

  /** `reachable_positions`: the on-map track cells the offsets lead to from
      `start`, with the offsets' lengths. */
  function Reachable(grid: seq<seq<char>>, start: Pos, offsets: seq<(Offset, Time)>): (r: seq<(Pos, Time)>)
    requires WellFormed(grid)
    ensures forall e :: e in r ==> InBounds(grid, e.0) && IsTrack(grid, e.0)
  {
    if |offsets| == 0 then []
    else
      var last := offsets[|offsets| - 1];
      var p := Shift(start, last.0);
      Reachable(grid, start, offsets[..|offsets| - 1]) + (if InBounds(grid, p) && IsTrack(grid, p) then [(p, last.1)] else [])
  }

  lemma {:induction false} ReachableMember(grid: seq<seq<char>>, start: Pos, offsets: seq<(Offset, Time)>, e: (Pos, Time))
    requires WellFormed(grid)
    ensures e in Reachable(grid, start, offsets) <==>
      InBounds(grid, e.0) && IsTrack(grid, e.0) && ((e.0.0 - start.0, e.0.1 - start.1), e.1) in offsets
  {
    if |offsets| > 0 {
      ReachableMember(grid, start, offsets[..|offsets| - 1], e);
      assert offsets == offsets[..|offsets| - 1] + [offsets[|offsets| - 1]];
    }
  }

  datatype Cheat = Cheat(start: Pos, end: Pos, saves: Time)

  /** Every reachable end is on the course, or `course_index[end]` panics. */
  predicate EndsIndexed(index: map<Pos, Time>, reachable: seq<(Pos, Time)>) {
    forall e :: e in reachable ==> e.0 in index
  }

  /** `find_cheats` over the reachable positions: a jump that arrives
      strictly before the course would is a cheat saving the difference. */
  function FindCheats(index: map<Pos, Time>, start: Pos, reachable: seq<(Pos, Time)>): seq<Cheat>
    requires start in index && EndsIndexed(index, reachable)
  {
    if |reachable| == 0 then []
    else
      var (end, duration) := reachable[|reachable| - 1];
      var cheatEndTime := index[start] + duration;
      FindCheats(index, start, reachable[..|reachable| - 1]) +
        (if cheatEndTime < index[end] then [Cheat(start, end, index[end] - cheatEndTime)] else [])
  }

  lemma {:induction false} FindCheatsMember(index: map<Pos, Time>, start: Pos, reachable: seq<(Pos, Time)>, c: Cheat)
    requires start in index && EndsIndexed(index, reachable)
    ensures c in FindCheats(index, start, reachable) <==>
      c.start == start &&
      exists t :: (c.end, t) in reachable && index[start] + t < index[c.end] && c.saves == index[c.end] - index[start] - t
  {
    if |reachable| > 0 {
      FindCheatsMember(index, start, reachable[..|reachable| - 1], c);
      assert reachable == reachable[..|reachable| - 1] + [reachable[|reachable| - 1]];
    }
  }

  lemma ManhattanOffset(start: Pos, end: Pos)
    ensures Manhattan((end.0 - start.0, end.1 - start.1), (0, 0)) == Manhattan(start, end)
  {
    var a, b := end.0 - start.0, end.1 - start.1;
    assert GridIndex.Abs(a - 0) == GridIndex.Abs(start.0 - end.0) by {
      if a >= 0 {} else {}
    }
    assert GridIndex.Abs(b - 0) == GridIndex.Abs(start.1 - end.1) by {
      if b >= 0 {} else {}
    }
  }

  /** From `start` the corrected offsets reach exactly the on-map track
      cells at distance `0 < m <= d`, each in `m` picoseconds. */
  lemma ReachableWithin(grid: seq<seq<char>>, start: Pos, d: nat, end: Pos, t: Time)
    requires WellFormed(grid)
    ensures (end, t) in Reachable(grid, start, GetOffsets(d)) <==>
      InBounds(grid, end) && IsTrack(grid, end) && t == Manhattan(start, end) && 0 < t <= d
  {
    var o := (end.0 - start.0, end.1 - start.1);
    var offsets := GetOffsets(d);
    var e := (end, t);
    ReachableMember(grid, start, offsets, e);
    assert ((e.0.0 - start.0, e.0.1 - start.1), e.1) == (o, t);
    ManhattanOffset(start, end);
    GetOffsetsMember(d, (o, t));
  }

  /** A cheat of at most `d` picoseconds: from a course position to an
      on-map track cell at distance `0 < m <= d` that the course reaches more
      than `m` picoseconds later, saving the difference. */
  predicate IsCheat(grid: seq<seq<char>>, index: map<Pos, Time>, d: nat, c: Cheat)
    requires WellFormed(grid)
  {
    var m := Manhattan(c.start, c.end);
    InBounds(grid, c.end) && IsTrack(grid, c.end) && 0 < m <= d &&
    c.start in index && c.end in index && index[c.start] + m < index[c.end] &&
    c.saves == index[c.end] - index[c.start] - m
  }

  /** The cheats from one course position: to any on-map track cell at
      distance `0 < m <= d` reached `m` picoseconds after leaving, when the
      course reaches it later than that, saving the difference. */
  lemma CheatsMember(grid: seq<seq<char>>, index: map<Pos, Time>, start: Pos, d: nat, c: Cheat)
    requires WellFormed(grid) && start in index
    requires EndsIndexed(index, Reachable(grid, start, GetOffsets(d)))
    ensures c in FindCheats(index, start, Reachable(grid, start, GetOffsets(d))) <==>
      c.start == start && IsCheat(grid, index, d, c)
  {
    var reachable := Reachable(grid, start, GetOffsets(d));
    FindCheatsMember(index, start, reachable, c);
    var m := Manhattan(start, c.end);
    ReachableWithin(grid, start, d, c.end, m);
    if c in FindCheats(index, start, reachable) {
      var t: Time :| (c.end, t) in reachable && index[start] + t < index[c.end] &&
        c.saves == index[c.end] - index[start] - t;
      ReachableWithin(grid, start, d, c.end, t);
    }
  }

  lemma {:induction false} FindCheatsAppend(index: map<Pos, Time>, start: Pos, a: seq<(Pos, Time)>, b: seq<(Pos, Time)>)
    requires start in index && EndsIndexed(index, a) && EndsIndexed(index, b)
    ensures EndsIndexed(index, a + b)
    ensures FindCheats(index, start, a + b) == FindCheats(index, start, a) + FindCheats(index, start, b)
    decreases |b|
  {
    if |b| == 0 {
      assert a + b == a;
    } else {
      FindCheatsAppend(index, start, a, b[..|b| - 1]);
      assert (a + b)[..|a + b| - 1] == a + b[..|b| - 1];
    }
  }

  /** The zero offset the source keeps never gives a cheat: the jump to the
      start itself arrives no earlier than the course does. Its cheats are the
      intended ones. */
  lemma {:induction false} CentreGivesNoCheat(grid: seq<seq<char>>, index: map<Pos, Time>, start: Pos, offsets: seq<(Offset, Time)>)
    requires WellFormed(grid) && start in index
    requires forall e :: e in offsets && e.0 == (0, 0) ==> e.1 == 0
    requires EndsIndexed(index, Reachable(grid, start, offsets))
    ensures EndsIndexed(index, Reachable(grid, start, Without(offsets, (0, 0))))
    ensures FindCheats(index, start, Reachable(grid, start, offsets)) ==
      FindCheats(index, start, Reachable(grid, start, Without(offsets, (0, 0))))
  {
    if |offsets| > 0 {
      var init, last := offsets[..|offsets| - 1], offsets[|offsets| - 1];
      var p := Shift(start, last.0);
      var tail := if InBounds(grid, p) && IsTrack(grid, p) then [(p, last.1)] else [];
      var reached, before := Reachable(grid, start, offsets), Reachable(grid, start, init);
      assert reached == before + tail;
      assert EndsIndexed(index, before) && EndsIndexed(index, tail) by {
        forall e: (Pos, Time) | e in before + tail ensures e.0 in index {
          assert e in reached;
        }
      }
      assert FindCheats(index, start, reached) == FindCheats(index, start, before) + FindCheats(index, start, tail) by {
        FindCheatsAppend(index, start, before, tail);
      }
      var kept := Without(init, (0, 0));
      var keptReached := Reachable(grid, start, kept);
      assert EndsIndexed(index, keptReached) && FindCheats(index, start, before) == FindCheats(index, start, keptReached) by {
        assert forall e :: e in init && e.0 == (0, 0) ==> e.1 == 0 by {
          forall e | e in init && e.0 == (0, 0) ensures e.1 == 0 {
            assert e in offsets;
          }
        }
        CentreGivesNoCheat(grid, index, start, init);
      }
      var dropped := Reachable(grid, start, Without(offsets, (0, 0)));
      assert EndsIndexed(index, dropped) &&
        FindCheats(index, start, dropped) == FindCheats(index, start, keptReached) + FindCheats(index, start, tail)
      by {
        if last.0 != (0, 0) {
          assert dropped == keptReached + tail by {
            assert Without(offsets, (0, 0)) == kept + [last];
            assert (kept + [last])[..|kept|] == kept;
          }
          FindCheatsAppend(index, start, keptReached, tail);
        } else {
          assert Without(offsets, (0, 0)) == kept;
          assert FindCheats(index, start, tail) == [] by {
            if tail != [] {
              assert tail[..0] == [];
            }
          }
        }
      }
    }
  }

  /** The cheats of the whole course, start by start: None when some reachable
      end is off the course (the `course_index[end]` panic). */
  function AllCheats(grid: seq<seq<char>>, index: map<Pos, Time>, course: seq<Pos>, d: nat): Option<seq<Cheat>>
    requires WellFormed(grid) && forall p :: p in course ==> p in index
  {
    if |course| == 0 then Some([])
    else
      var start := course[|course| - 1];
      var reachable := Reachable(grid, start, GetOffsets(d));
      match AllCheats(grid, index, course[..|course| - 1], d)
      case None => None
      case Some(init) =>
        if EndsIndexed(index, reachable) then Some(init + FindCheats(index, start, reachable)) else None
  }

  /** The cheats of the whole course are the cheats from its positions. */
  lemma {:induction false} AllCheatsMember(grid: seq<seq<char>>, index: map<Pos, Time>, course: seq<Pos>, d: nat, c: Cheat)
    requires WellFormed(grid) && forall p :: p in course ==> p in index
    requires AllCheats(grid, index, course, d).Some?
    ensures c in AllCheats(grid, index, course, d).value <==> c.start in course && IsCheat(grid, index, d, c)
  {
    if |course| > 0 {
      var init, start := course[..|course| - 1], course[|course| - 1];
      assert course == init + [start];
      AllCheatsMember(grid, index, init, d, c);
      CheatsMember(grid, index, start, d, c);
    }
  }

  /** The offsets as written give the same cheats as the intended ones: the
      zero offset they keep never saves time. */
  lemma AsWrittenSameCheats(grid: seq<seq<char>>, index: map<Pos, Time>, start: Pos, d: nat)
    requires WellFormed(grid) && start in index
    requires EndsIndexed(index, Reachable(grid, start, GetOffsetsAsWritten(d)))
    ensures EndsIndexed(index, Reachable(grid, start, GetOffsets(d)))
    ensures FindCheats(index, start, Reachable(grid, start, GetOffsetsAsWritten(d))) ==
      FindCheats(index, start, Reachable(grid, start, GetOffsets(d)))
  {
    var ball := Ball(d);
    if d == 0 {
      assert GetOffsetsAsWritten(d) == GetOffsets(d);
    } else {
      GetOffsetsAsWrittenKeepsCentre(d);
      assert GetOffsetsAsWritten(d) == ball;
      forall e | e in ball && e.0 == (0, 0) ensures e.1 == 0 {
        BallMember(d, e);
      }
      CentreGivesNoCheat(grid, index, start, ball);
      assert GetOffsets(d) == Without(ball, (0, 0));
    }
  }

  /* ---------------------------------------------------------------------
     Counting the savings
     --------------------------------------------------------------------- */

  function SavesOf(cheats: seq<Cheat>): seq<Time> {
    seq(|cheats|, i requires 0 <= i < |cheats| => cheats[i].saves)
  }

  /** How many savings are at least `minimum`. */
  function CountAtLeast(saves: seq<Time>, minimum: Time): nat {
    if |saves| == 0 then 0
    else CountAtLeast(saves[..|saves| - 1], minimum) + (if saves[|saves| - 1] >= minimum then 1 else 0)
  }

  /** The `savings` `BTreeMap`: how many cheats save each time. */
  function Histogram(saves: seq<Time>): (h: map<Time, nat>)
    ensures forall s :: s in h ==> h[s] > 0
    ensures h.Keys == set s | s in saves
  {
    if |saves| == 0 then map[]
    else
      var h := Histogram(saves[..|saves| - 1]);
      var s := saves[|saves| - 1];
      assert forall x :: x in saves[..|saves| - 1] ==> x in saves;
      h[s := (if s in h then h[s] else 0) + 1]
  }

  /** The count of one saving when it is at least `minimum`, else 0. */
  function Selected(h: map<Time, nat>, minimum: Time, s: Time): int {
    if s in h && s >= minimum then h[s] else 0
  }

  /** The `filter_map(..).sum()` over the histogram. */
  ghost function SelectedSum(h: map<Time, nat>, minimum: Time): int {
    SetSum(h.Keys, s => Selected(h, minimum, s))
  }

  /** Summing the histogram's selected counts gives the number of savings of
      at least `minimum`. */
  lemma {:induction false} HistogramCounts(saves: seq<Time>, minimum: Time)
    ensures SelectedSum(Histogram(saves), minimum) == CountAtLeast(saves, minimum)
  {
    if |saves| > 0 {
      var init, s := saves[..|saves| - 1], saves[|saves| - 1];
      HistogramCounts(init, minimum);
      var h, h' := Histogram(init), Histogram(saves);
      var f, f' := x => Selected(h, minimum, x), x => Selected(h', minimum, x);
      SetSumRemove(h'.Keys, f', s);
      SetSumSame(h'.Keys - {s}, f', f);
      if s in h {
        SetSumRemove(h.Keys, f, s);
        assert h'.Keys - {s} == h.Keys - {s};
      } else {
        assert h'.Keys - {s} == h.Keys;
      }
    }
  }

  /** Summing the selected counts over the histogram's keys, in any order. */
  method SumSelected(h: map<Time, nat>, minimum: Time) returns (total: nat)
    ensures total == SelectedSum(h, minimum)
  {
    total := 0;
    var keys := h.Keys;
    var f := s => Selected(h, minimum, s);
    SetSumLower(keys, f, 0);
    while keys != {}
      invariant keys <= h.Keys
      invariant total + SetSum(keys, f) == SelectedSum(h, minimum)
      decreases |keys|
    {
      var s :| s in keys;
      SetSumRemove(keys, f, s);
      total := total + Selected(h, minimum, s);
      keys := keys - {s};
    }
  }

  /** The answer: the number of cheats saving at least `minSavings`; None when
      the source panics or the course is not found. */
  function CheatCount(grid: seq<seq<char>>, cheatMaxTime: nat, minSavings: Time): Option<nat>
    requires WellFormed(grid)
  {
    match CourseOf(grid)
    case None => None
    case Some(course) =>
      CourseIndexShape(course);
      match AllCheats(grid, CourseIndex(course), course, cheatMaxTime)
      case None => None
      case Some(cheats) => Some(CountAtLeast(SavesOf(cheats), minSavings))
  }

  /** `count_cheats_that_save_time`. */
  method CountCheatsThatSaveTime(grid: seq<seq<char>>, cheatMaxTime: nat, minSavings: Time) returns (r: Option<nat>)
    requires WellFormed(grid)
    ensures r == CheatCount(grid, cheatMaxTime, minSavings)
  {
    var course := MapCourse(grid);
    if course.None? {
      return None;
    }
    var index := CourseIndex(course.value);
    CourseIndexShape(course.value);
    var cheats := AllCheats(grid, index, course.value, cheatMaxTime);
    if cheats.None? {
      return None;
    }
    var savings := Histogram(SavesOf(cheats.value));
    var total := SumSelected(savings, minSavings);
    HistogramCounts(SavesOf(cheats.value), minSavings);
    return Some(total);
  }

  /** The map, one row per line; no line or a ragged map gives None. */
  function ParseMap(input: string): (r: Option<seq<seq<char>>>)
    ensures r.Some? <==> (|Lines(input)| > 0 &&
      forall i :: 0 <= i < |Lines(input)| ==> |Lines(input)[i]| == |Lines(input)[0]|)
    ensures r.Some? ==> WellFormed(r.value) && r.value == Lines(input)
  {
    var lines := Lines(input);
    if |lines| == 0 || !(forall i :: 0 <= i < |lines| ==> |lines[i]| == |lines[0]|) then None else Some(lines)
  }

  /** `part1`: cheats of up to 2 picoseconds saving at least 100. */
  method Part1(input: string) returns (r: Option<nat>)
    ensures ParseMap(input).None? ==> r.None?
    ensures ParseMap(input).Some? ==> r == CheatCount(ParseMap(input).value, 2, 100)
  {
    var grid := ParseMap(input);
    if grid.None? {
      return None;
    }
    r := CountCheatsThatSaveTime(grid.value, 2, 100);
  }

  /** `part2`: cheats of up to 20 picoseconds saving at least 100. */
  method Part2(input: string) returns (r: Option<nat>)
    ensures ParseMap(input).None? ==> r.None?
    ensures ParseMap(input).Some? ==> r == CheatCount(ParseMap(input).value, 20, 100)
  {
    var grid := ParseMap(input);
    if grid.None? {
      return None;
    }
    r := CountCheatsThatSaveTime(grid.value, 20, 100);
  }
}
