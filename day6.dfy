/**
 * 2024 day 6, Guard Gallivant: a guard walks a lab map, turning right at every
 * obstruction, until it leaves the map or returns to a (position, direction)
 * state it has already been in.
 */
module Day6 {
  import opened Wrappers

  datatype Direction = North | South | East | West

  datatype Action = Turn | Move | Exit | Loop

  type Position = (nat, nat)

  type GuardKey = (Position, Direction)

  function Offset(d: Direction): (int, int) {
    match d
    case North => (-1, 0)
    case South => (1, 0)
    case East => (0, 1)
    case West => (0, -1)
  }

  /** The turn the guard makes at an obstruction: North, East, South, West, North. */
  function TurnRight(d: Direction): Direction {
    match d
    case North => East
    case East => South
    case South => West
    case West => North
  }

  /** A lab map the source can index: at least one row, every row as long as the first. */
  predicate WellFormed(grid: seq<seq<char>>) {
    |grid| > 0 && forall r :: 0 <= r < |grid| ==> |grid[r]| == |grid[0]|
  }

  predicate InBounds(grid: seq<seq<char>>, p: Position)
    requires WellFormed(grid)
  {
    p.0 < |grid| && p.1 < |grid[0]|
  }

  /** `Map::project`: the neighbouring coordinate in direction `d`, unless it is
      negative or beyond the last row or column. */
  function Project(rows: nat, columns: nat, c: Position, d: Direction): (r: Option<Position>)
    ensures r.Some? <==> 0 <= c.0 + Offset(d).0 < rows && 0 <= c.1 + Offset(d).1 < columns
    ensures r.Some? ==> r.value == (c.0 + Offset(d).0, c.1 + Offset(d).1)
  {
    var row, column := c.0 + Offset(d).0, c.1 + Offset(d).1;
    if row >= 0 && column >= 0 then
      if row < rows && column < columns then Some((row, column)) else None
    else None
  }

  /** The guard's state: where it stands, where it faces, and the states visited so far. */
  datatype GuardState = GuardState(position: Position, direction: Direction, route: set<GuardKey>) {
    function Key(): GuardKey {
      (position, direction)
    }
  }

  /** `Guard::new`: the route holds just the starting state. */
  function Start(position: Position, direction: Direction): (s: GuardState)
    ensures s.route == {(position, direction)} && s.Key() == (position, direction)
  {
    GuardState(position, direction, {(position, direction)})
  }

  /** `in_loop` after the state change: Loop when the new state was visited
      before, otherwise the new state joins the route. */
  function Record(s: GuardState, a: Action): (Action, GuardState) {
    if s.Key() in s.route then (Loop, s) else (a, s.(route := s.route + {s.Key()}))
  }

  /** `turn`: face right without moving. */
  function TurnStep(s: GuardState): (Action, GuardState) {
    Record(s.(direction := TurnRight(s.direction)), Turn)
  }

  /** `move_to`: step onto `p` keeping the direction. */
  function MoveStep(s: GuardState, p: Position): (Action, GuardState) {
    Record(s.(position := p), Move)
  }

  /** `Guard::next`. */
  function Step(grid: seq<seq<char>>, s: GuardState): (Action, GuardState)
    requires WellFormed(grid)
  {
    match Project(|grid|, |grid[0]|, s.position, s.direction)
    case None => (Exit, s)
    case Some(p) => if grid[p.0][p.1] == '#' then TurnStep(s) else MoveStep(s, p)
  }

  /** The behaviour of one step: Exit exactly when the cell ahead is off the map,
      and then nothing changes; an obstruction turns the guard in place, any other
      cell moves it one cell ahead; Loop exactly when the new state was already
      on the route; otherwise the new state is added, so the route only grows. */
  lemma StepBehaviour(grid: seq<seq<char>>, s: GuardState)
    requires WellFormed(grid)
    ensures var (a, t) := Step(grid, s);
      var ahead := Project(|grid|, |grid[0]|, s.position, s.direction);
      && (a == Exit <==> ahead.None?)
      && (a == Exit ==> t == s)
      && (ahead.Some? && grid[ahead.value.0][ahead.value.1] == '#' ==>
            t.position == s.position && t.direction == TurnRight(s.direction) && a != Move)
      && (ahead.Some? && grid[ahead.value.0][ahead.value.1] != '#' ==>
            t.position == ahead.value && t.direction == s.direction && a != Turn)
      && (a == Loop <==> ahead.Some? && t.Key() in s.route)
      && (a == Loop ==> t.route == s.route)
      && (a == Turn || a == Move ==> t.route == s.route + {t.Key()} && t.Key() !in s.route)
      && s.route <= t.route
  {
  }

  const AllDirections: set<Direction> := {North, South, East, West}

  /** Every state a guard can be in on a map of this size. */
  function AllStates(rows: nat, columns: nat): set<GuardKey> {
    set r: nat, c: nat, d | r < rows && c < columns && d in AllDirections :: ((r, c), d)
  }

  predicate OnMap(grid: seq<seq<char>>, s: GuardState)
    requires WellFormed(grid)
  {
    InBounds(grid, s.position)
  }

  /** A step that neither exits nor loops adds a new on-map state to the route,
      so the unvisited part of `AllStates` shrinks: the walk always ends. */
  lemma StepProgress(grid: seq<seq<char>>, s: GuardState)
    requires WellFormed(grid) && OnMap(grid, s)
    ensures OnMap(grid, Step(grid, s).1)
    ensures Step(grid, s).0 in {Turn, Move} ==>
      AllStates(|grid|, |grid[0]|) - Step(grid, s).1.route < AllStates(|grid|, |grid[0]|) - s.route
  {
    var (a, t) := Step(grid, s);
    if a == Turn || a == Move {
      var k := t.Key();
      assert k in AllStates(|grid|, |grid[0]|) by {
        assert k.1 in AllDirections;
      }
      assert k in AllStates(|grid|, |grid[0]|) - s.route;
      assert k !in AllStates(|grid|, |grid[0]|) - t.route;
    }
  }

  /** The guard's walk until it exits the map or loops. */
  function Patrol(grid: seq<seq<char>>, s: GuardState): (r: (Action, GuardState))
    requires WellFormed(grid) && OnMap(grid, s)
    ensures r.0 == Exit || r.0 == Loop
    ensures s.route <= r.1.route
    decreases AllStates(|grid|, |grid[0]|) - s.route
  {
    StepBehaviour(grid, s);
    StepProgress(grid, s);
    var (a, t) := Step(grid, s);
    if a == Exit || a == Loop then (a, t) else Patrol(grid, t)
  }

  function Positions(route: set<GuardKey>): set<Position> {
    set k | k in route :: k.0
  }

  /** Part 1: the number of distinct positions on the route of a walk that leaves
      the map. The source's loop only stops at Exit, so a looping walk has no answer. */
  function Part1Answer(grid: seq<seq<char>>, start: Position): Option<nat>
    requires WellFormed(grid) && InBounds(grid, start)
  {
    var (a, t) := Patrol(grid, Start(start, North));
    if a == Exit then Some(|Positions(t.route)|) else None
  }

  function Obstruct(grid: seq<seq<char>>, p: Position): (g: seq<seq<char>>)
    requires WellFormed(grid) && InBounds(grid, p)
    ensures WellFormed(g) && |g| == |grid| && |g[0]| == |grid[0]|
  {
    grid[p.0 := grid[p.0][p.1 := '#']]
  }

  /** Part 2: the candidate positions are those of every route state except the
      starting (start, North) one; a candidate counts when an obstruction there
      makes the guard loop. */
  function LoopObstructions(grid: seq<seq<char>>, start: Position, route: set<GuardKey>): set<Position>
    requires WellFormed(grid) && InBounds(grid, start)
    requires forall k :: k in route ==> InBounds(grid, k.0)
  {
    set k | k in route - {(start, North)} && CausesLoop(grid, start, k.0) :: k.0
  }

  function Part2Answer(grid: seq<seq<char>>, start: Position): Option<nat>
    requires WellFormed(grid) && InBounds(grid, start)
  {
    PatrolStaysOnMap(grid, Start(start, North));
    var (a, t) := Patrol(grid, Start(start, North));
    if a == Exit then Some(|LoopObstructions(grid, start, t.route)|) else None
  }

  predicate RouteOnMap(grid: seq<seq<char>>, s: GuardState)
    requires WellFormed(grid)
  {
    OnMap(grid, s) && forall k :: k in s.route ==> InBounds(grid, k.0)
  }

  /** Every state the walk records lies on the map. */
  lemma {:induction false} PatrolStaysOnMap(grid: seq<seq<char>>, s: GuardState)
    requires WellFormed(grid) && RouteOnMap(grid, s)
    ensures RouteOnMap(grid, Patrol(grid, s).1)
    decreases AllStates(|grid|, |grid[0]|) - s.route
  {
    StepBehaviour(grid, s);
    StepProgress(grid, s);
    var (a, t) := Step(grid, s);
    assert RouteOnMap(grid, t);
    if !(a == Exit || a == Loop) {
      PatrolStaysOnMap(grid, t);
    }
  }

  /** The lab map; part 2 writes obstructions into it and restores them. */
  class Lab {
    var tiles: seq<seq<char>>

    ghost predicate Valid()
      reads this
    {
      WellFormed(tiles)
    }

    /** `Map::new`: rows and columns are taken from the row count and the first row. */
    constructor New(grid: seq<seq<char>>)
      requires WellFormed(grid)
      ensures Valid() && this.tiles == grid
    {
      this.tiles := grid;
    }

    function Rows(): nat
      requires Valid()
      reads this
    {
      |tiles|
    }

    function Columns(): nat
      requires Valid()
      reads this
    {
      |tiles[0]|
    }

    /** `Map::get`: the cell, when the coordinate is below the row and column counts. */
    function Get(row: nat, column: nat): (r: Option<char>)
      requires Valid()
      reads this
      ensures r.Some? <==> row < Rows() && column < Columns()
      ensures r.Some? ==> r.value == tiles[row][column]
    {
      if row < Rows() && column < Columns() then Some(tiles[row][column]) else None
    }
  }

  /** The guard, whose position, direction and route change in place. */
  class Guard {
    var position: Position
    var direction: Direction
    var route: set<GuardKey>

    function State(): GuardState
      reads this
    {
      GuardState(position, direction, route)
    }

    constructor New(position: Position, direction: Direction)
      ensures State() == Start(position, direction)
    {
      this.position := position;
      this.direction := direction;
      this.route := {(position, direction)};
    }

    predicate InLoop()
      reads this
    {
      (position, direction) in route
    }

    method Turn() returns (a: Action)
      modifies this
      ensures (a, State()) == TurnStep(old(State()))
    {
      direction := TurnRight(direction);
      if InLoop() {
        return Loop;
      }
      route := route + {(position, direction)};
      a := Action.Turn;
    }

    method MoveTo(p: Position) returns (a: Action)
      modifies this
      ensures (a, State()) == MoveStep(old(State()), p)
    {
      position := p;
      if InLoop() {
        return Loop;
      }
      route := route + {(position, direction)};
      a := Move;
    }

    method Next(lab: Lab) returns (a: Action)
      requires lab.Valid()
      modifies this
      ensures (a, State()) == Step(lab.tiles, old(State()))
    {
      var ahead := Project(lab.Rows(), lab.Columns(), position, direction);
      if ahead.None? {
        return Exit;
      }
      var p := ahead.value;
      var contents := lab.Get(p.0, p.1).value;
      if contents == '#' {
        a := Turn();
      } else {
        a := MoveTo(p);
      }
    }
  }

  /** `find_guard_start_position`: the first '^' in row-major order; the source
      panics when there is none. */
  method FindGuardStart(lab: Lab) returns (r: Option<Position>)
    requires lab.Valid()
    ensures r.Some? ==> InBounds(lab.tiles, r.value) && lab.tiles[r.value.0][r.value.1] == '^'
    ensures r.Some? ==> forall row, column ::
      (0 <= row < |lab.tiles| && 0 <= column < |lab.tiles[0]| &&
       (row < r.value.0 || (row == r.value.0 && column < r.value.1))) ==> lab.tiles[row][column] != '^'
    ensures r.None? <==> forall row, column :: 0 <= row < |lab.tiles| && 0 <= column < |lab.tiles[0]| ==> lab.tiles[row][column] != '^'
  {
    var row := 0;
    while row < lab.Rows()
      invariant 0 <= row <= |lab.tiles|
      invariant forall i, j :: 0 <= i < row && 0 <= j < |lab.tiles[0]| ==> lab.tiles[i][j] != '^'
    {
      var column := 0;
      while column < lab.Columns()
        invariant 0 <= column <= |lab.tiles[0]|
        invariant forall j :: 0 <= j < column ==> lab.tiles[row][j] != '^'
      {
        if lab.Get(row, column).value == '^' {
          return Some((row, column));
        }
        column := column + 1;
      }
      row := row + 1;
    }
    return None;
  }

  /** Walks a fresh guard until it exits or loops. */
  method Walk(lab: Lab, start: Position) returns (a: Action, guard: Guard)
    requires lab.Valid() && InBounds(lab.tiles, start)
    ensures fresh(guard)
    ensures (a, guard.State()) == Patrol(lab.tiles, Start(start, North))
  {
    guard := new Guard.New(start, North);
    a := guard.Next(lab);
    while a != Exit && a != Loop
      invariant OnMap(lab.tiles, guard.State())
      invariant a in {Turn, Move, Exit, Loop}
      invariant a == Exit || a == Loop ==> (a, guard.State()) == Patrol(lab.tiles, Start(start, North))
      invariant a != Exit && a != Loop ==> Patrol(lab.tiles, guard.State()) == Patrol(lab.tiles, Start(start, North))
      decreases AllStates(lab.Rows(), lab.Columns()) - guard.route, if a == Exit || a == Loop then 0 else 1
    {
      StepProgress(lab.tiles, guard.State());
      a := guard.Next(lab);
    }
  }

  predicate IsFirstCaret(grid: seq<seq<char>>, p: Position)
    requires WellFormed(grid)
  {
    && InBounds(grid, p) && grid[p.0][p.1] == '^'
    && forall row, column ::
         (0 <= row < |grid| && 0 <= column < |grid[0]| && (row < p.0 || (row == p.0 && column < p.1)))
         ==> grid[row][column] != '^'
  }

  /** The first '^' at or after (row, column) in row-major order. */
  function FirstCaretFrom(grid: seq<seq<char>>, row: nat, column: nat): (r: Option<Position>)
    requires WellFormed(grid) && column <= |grid[0]|
    ensures r.Some? ==> InBounds(grid, r.value) && grid[r.value.0][r.value.1] == '^'
    ensures r.Some? ==> r.value.0 > row || (r.value.0 == row && r.value.1 >= column)
    ensures forall i, j :: (row <= i < |grid| && 0 <= j < |grid[0]| && (i > row || j >= column) &&
      (r.None? || i < r.value.0 || (i == r.value.0 && j < r.value.1))) ==> grid[i][j] != '^'
    decreases |grid| - row, |grid[0]| - column
  {
    if row >= |grid| then None
    else if column == |grid[0]| then FirstCaretFrom(grid, row + 1, 0)
    else if grid[row][column] == '^' then Some((row, column))
    else FirstCaretFrom(grid, row, column + 1)
  }

  /** The guard's starting position: the first '^' in row-major order, if any. */
  function FirstCaret(grid: seq<seq<char>>): (r: Option<Position>)
    requires WellFormed(grid)
    ensures r.Some? ==> IsFirstCaret(grid, r.value)
    ensures r.None? <==> forall row, column :: 0 <= row < |grid| && 0 <= column < |grid[0]| ==> grid[row][column] != '^'
  {
    FirstCaretFrom(grid, 0, 0)
  }

  lemma FirstCaretUnique(grid: seq<seq<char>>, p: Position, q: Position)
    requires WellFormed(grid) && IsFirstCaret(grid, p) && IsFirstCaret(grid, q)
    ensures p == q
  {
  }

  /** Part 1, from the lab map. */
  method Part1(lab: Lab) returns (r: Option<nat>)
    requires lab.Valid()
    ensures FirstCaret(lab.tiles).None? ==> r.None?
    ensures FirstCaret(lab.tiles).Some? ==> r == Part1Answer(lab.tiles, FirstCaret(lab.tiles).value)
  {
    var start := FindGuardStart(lab);
    if start.None? {
      return None;
    }
    FirstCaretUnique(lab.tiles, start.value, FirstCaret(lab.tiles).value);
    var a, guard := Walk(lab, start.value);
    if a != Exit {
      return None;
    }
    r := Some(|Positions(guard.route)|);
  }

  /** Whether an obstruction at `p` makes the guard starting at `start` loop. */
  predicate CausesLoop(grid: seq<seq<char>>, start: Position, p: Position)
    requires WellFormed(grid) && InBounds(grid, start) && InBounds(grid, p)
  {
    Patrol(Obstruct(grid, p), Start(start, North)).0 == Loop
  }

  /** The trial loop of part 2: each candidate obstruction is written into the
      map, the walk is simulated, and the saved tile is written back. */
  method TryObstructions(lab: Lab, start: Position, candidates: set<GuardKey>) returns (found: set<Position>)
    requires lab.Valid() && InBounds(lab.tiles, start)
    requires forall k :: k in candidates ==> InBounds(lab.tiles, k.0)
    modifies lab
    ensures lab.tiles == old(lab.tiles)
    ensures found == set k | k in candidates && CausesLoop(lab.tiles, start, k.0) :: k.0
  {
    ghost var grid := lab.tiles;
    var possible := candidates;
    ghost var done: set<GuardKey> := {};
    found := {};
    while possible != {}
      invariant lab.tiles == grid && lab.Valid()
      invariant possible + done == candidates && possible !! done
      invariant found == set k | k in done && CausesLoop(grid, start, k.0) :: k.0
      decreases possible
    {
      var k :| k in possible;
      var p := k.0;
      var saved := lab.Get(p.0, p.1).value;
      lab.tiles := lab.tiles[p.0 := lab.tiles[p.0][p.1 := '#']];
      assert lab.tiles == Obstruct(grid, p);
      var outcome, simulated := Walk(lab, start);
      if outcome == Loop {
        found := found + {p};
      }
      lab.tiles := lab.tiles[p.0 := lab.tiles[p.0][p.1 := saved]];
      assert lab.tiles[p.0] == grid[p.0];
      possible := possible - {k};
      done := done + {k};
    }
  }

  /** Part 2: the walk of part 1, then every candidate obstruction tried in turn;
      the map ends unchanged. */
  method Part2(lab: Lab) returns (r: Option<nat>)
    requires lab.Valid()
    modifies lab
    ensures lab.tiles == old(lab.tiles)
    ensures FirstCaret(lab.tiles).None? ==> r.None?
    ensures FirstCaret(lab.tiles).Some? ==> r == Part2Answer(lab.tiles, FirstCaret(lab.tiles).value)
  {
    var start := FindGuardStart(lab);
    if start.None? {
      return None;
    }
    FirstCaretUnique(lab.tiles, start.value, FirstCaret(lab.tiles).value);
    var s := start.value;
    ghost var grid := lab.tiles;
    var a, guard := Walk(lab, s);
    if a != Exit {
      return None;
    }
    PatrolStaysOnMap(grid, Start(s, North));
    var found := TryObstructions(lab, s, guard.route - {(s, North)});
    assert found == LoopObstructions(grid, s, guard.route);
    r := Some(|found|);
  }
}
