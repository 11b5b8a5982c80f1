/**
 * 2024 day 10, Hoof It: a topographic map of digit heights. A hiking trail
 * starts at height 0 and climbs by exactly 1 at every step north, south, east
 * or west until it reaches height 9. Part 1 adds up, over the trailheads, how
 * many peaks each reaches; part 2 adds up how many trails start at each.
 */
module Day10 {
  import opened Wrappers
  import opened Text

  /** `(row, column)`, a `(usize, usize)` in the source. */
  type Location = (nat, nat)

  /** A digit: `to_digit(10)` on the input. */
  type Height = nat

  datatype Direction = North | South | East | West

  /** `Direction::offset`. */
  function Offset(d: Direction): (int, int) {
    match d
    case North => (-1, 0)
    case South => (1, 0)
    case East => (0, 1)
    case West => (0, -1)
  }

  datatype Map = Map(grid: seq<seq<Height>>, rows: nat, columns: nat)

  /** `Map::new`: as many rows as the grid has, as many columns as its first
      row; an empty grid has no first row (a panic). */
  function NewMap(grid: seq<seq<Height>>): Map
    requires |grid| > 0
  {
    Map(grid, |grid|, |grid[0]|)
  }

  /** A map every query can index: every row as long as the first, every
      height a digit. */
  predicate Valid(m: Map) {
    m.rows == |m.grid| && (forall r :: 0 <= r < |m.grid| ==> |m.grid[r]| == m.columns) &&
    forall r, c :: 0 <= r < |m.grid| && 0 <= c < |m.grid[r]| ==> m.grid[r][c] <= 9
  }

  predicate InBounds(m: Map, location: Location) {
    location.0 < m.rows && location.1 < m.columns
  }

  /** `Map::get`: the height at a location inside the map, None outside. */
  function Get(m: Map, location: Location): (r: Option<Height>)
    requires Valid(m)
    ensures r.Some? <==> InBounds(m, location)
    ensures r.Some? ==> r.value == m.grid[location.0][location.1] && r.value <= 9
  {
    var (row, column) := location;
    if row < m.rows && column < m.columns then Some(m.grid[row][column]) else None
  }

  /** `Map::project_location`: one step from a location, None when the step
      leaves the map on either side. */
  function ProjectLocation(m: Map, location: Location, d: Direction): (r: Option<Location>)
    ensures r.Some? <==> 0 <= location.0 + Offset(d).0 < m.rows && 0 <= location.1 + Offset(d).1 < m.columns
    ensures r.Some? ==> r.value == (location.0 + Offset(d).0, location.1 + Offset(d).1)
  {
    var (rowShift, columnShift) := Offset(d);
    var (newRow, newColumn) := (location.0 + rowShift, location.1 + columnShift);
    if newRow >= 0 && newColumn >= 0 then
      var newLocation := (newRow as nat, newColumn as nat);
      if newLocation.0 < m.rows && newLocation.1 < m.columns then Some(newLocation) else None
    else None
  }

  /** `Map::get_projected_value`. */
  function ProjectedValue(m: Map, location: Location, d: Direction): Option<Height>
    requires Valid(m)
  {
    match ProjectLocation(m, location, d)
    case Some(next) => Get(m, next)
    case None => None
  }

  /** The height at a location known to be on the map. */
  function HeightAt(m: Map, location: Location): Height
    requires Valid(m) && InBounds(m, location)
  {
    m.grid[location.0][location.1]
  }

  /* ---------------------------------------------------------------------
     Trailheads
     --------------------------------------------------------------------- */

  /** The height-0 cells among the first `k` cells of row `row`, left to right. */
  function RowTrailheads(line: seq<Height>, row: nat, k: nat): seq<Location>
    requires k <= |line|
  {
    if k == 0 then [] else RowTrailheads(line, row, k - 1) + (if line[k - 1] == 0 then [(row, k - 1)] else [])
  }

  /** `get_trailheads` over the first `n` rows. */
  function TrailheadsUpTo(grid: seq<seq<Height>>, n: nat): seq<Location>
    requires n <= |grid|
  {
    if n == 0 then [] else TrailheadsUpTo(grid, n - 1) + RowTrailheads(grid[n - 1], n - 1, |grid[n - 1]|)
  }

  /** `Map::get_trailheads`: every height-0 cell, in reading order. */
  function Trailheads(m: Map): seq<Location> {
    TrailheadsUpTo(m.grid, |m.grid|)
  }

  lemma {:induction false} RowTrailheadsMember(line: seq<Height>, row: nat, k: nat, l: Location)
    requires k <= |line|
    ensures l in RowTrailheads(line, row, k) <==> l.0 == row && l.1 < k && line[l.1] == 0
  {
    if k > 0 {
      RowTrailheadsMember(line, row, k - 1, l);
    }
  }

  lemma {:induction false} TrailheadsUpToMember(grid: seq<seq<Height>>, n: nat, l: Location)
    requires n <= |grid|
    ensures l in TrailheadsUpTo(grid, n) <==> l.0 < n && l.1 < |grid[l.0]| && grid[l.0][l.1] == 0
  {
    if n > 0 {
      assert l in TrailheadsUpTo(grid, n - 1) <==> l.0 < n - 1 && l.1 < |grid[l.0]| && grid[l.0][l.1] == 0 by {
        TrailheadsUpToMember(grid, n - 1, l);
      }
      assert l in RowTrailheads(grid[n - 1], n - 1, |grid[n - 1]|) <==>
        l.0 == n - 1 && l.1 < |grid[n - 1]| && grid[n - 1][l.1] == 0 by {
        RowTrailheadsMember(grid[n - 1], n - 1, |grid[n - 1]|, l);
      }
    }
  }

  /** The trailheads are exactly the height-0 cells of the map. */
  lemma TrailheadsMember(m: Map, l: Location)
    requires Valid(m)
    ensures l in Trailheads(m) <==> InBounds(m, l) && HeightAt(m, l) == 0
  {
    TrailheadsUpToMember(m.grid, |m.grid|, l);
  }

  /** Reading order: by row, then by column. */
  predicate Before(p: Location, q: Location) {
    p.0 < q.0 || (p.0 == q.0 && p.1 < q.1)
  }

  predicate Increasing(ls: seq<Location>) {
    forall i, j :: 0 <= i < j < |ls| ==> Before(ls[i], ls[j])
  }

  lemma IncreasingAppend(a: seq<Location>, b: seq<Location>)
    requires Increasing(a) && Increasing(b)
    requires forall p, q :: p in a && q in b ==> Before(p, q)
    ensures Increasing(a + b)
  {
    forall i, j | 0 <= i < j < |a + b| ensures Before((a + b)[i], (a + b)[j]) {
      if j < |a| {
      } else if i >= |a| {
        assert (a + b)[i] == b[i - |a|] && (a + b)[j] == b[j - |a|];
      } else {
        assert (a + b)[i] in a && (a + b)[j] in b;
      }
    }
  }

  lemma {:induction false} RowTrailheadsIncreasing(line: seq<Height>, row: nat, k: nat)
    requires k <= |line|
    ensures Increasing(RowTrailheads(line, row, k))
  {
    if k > 0 {
      RowTrailheadsIncreasing(line, row, k - 1);
      forall p | p in RowTrailheads(line, row, k - 1) ensures p.0 == row && p.1 < k - 1 {
        RowTrailheadsMember(line, row, k - 1, p);
      }
      IncreasingAppend(RowTrailheads(line, row, k - 1), if line[k - 1] == 0 then [(row, k - 1)] else []);
    }
  }

  /** The trailheads come in reading order, each once. */
  lemma {:induction false} TrailheadsIncreasing(grid: seq<seq<Height>>, n: nat)
    requires n <= |grid|
    ensures Increasing(TrailheadsUpTo(grid, n))
  {
    if n > 0 {
      TrailheadsIncreasing(grid, n - 1);
      var row := RowTrailheads(grid[n - 1], n - 1, |grid[n - 1]|);
      RowTrailheadsIncreasing(grid[n - 1], n - 1, |grid[n - 1]|);
      forall p, q | p in TrailheadsUpTo(grid, n - 1) && q in row ensures Before(p, q) {
        TrailheadsUpToMember(grid, n - 1, p);
        RowTrailheadsMember(grid[n - 1], n - 1, |grid[n - 1]|, q);
      }
      IncreasingAppend(TrailheadsUpTo(grid, n - 1), row);
    }
  }

  /* ---------------------------------------------------------------------
     Hiking
     --------------------------------------------------------------------- */

  /** One step in direction `d` climbs by exactly 1. */
  predicate CanClimb(m: Map, location: Location, d: Direction)
    requires Valid(m) && InBounds(m, location)
  {
    ProjectedValue(m, location, d) == Some(HeightAt(m, location) + 1)
  }

  /** The directions of `candidates` one can climb in, in their order. */
  function Climbable(m: Map, location: Location, candidates: seq<Direction>): (r: seq<Direction>)
    requires Valid(m) && InBounds(m, location)
    ensures forall d :: d in r <==> d in candidates && CanClimb(m, location, d)
  {
    if |candidates| == 0 then []
    else
      var rest := Climbable(m, location, candidates[1..]);
      if CanClimb(m, location, candidates[0]) then [candidates[0]] + rest else rest
  }

  /** `Hiker::available_directions`: north, south, east and west, keeping the
      in-bounds neighbours exactly one higher. */
  function AvailableDirections(m: Map, location: Location): (r: seq<Direction>)
    requires Valid(m) && InBounds(m, location)
    ensures forall d :: d in r <==> CanClimb(m, location, d)
  {
    Climbable(m, location, [North, South, East, West])
  }

  /** The location a climbable step leads to, one higher. */
  function Climb(m: Map, location: Location, d: Direction): (next: Location)
    requires Valid(m) && InBounds(m, location) && CanClimb(m, location, d)
    ensures InBounds(m, next) && HeightAt(m, next) == HeightAt(m, location) + 1
  {
    ProjectLocation(m, location, d).value
  }

  /** `hike_trails` from a location: at height 9 one trail and its peak; else
      the trails and peaks of every climbable neighbour, summed and unioned
      (none when there is no neighbour to climb to). */
  function Hike(m: Map, location: Location): (nat, set<Location>)
    requires Valid(m) && InBounds(m, location)
    decreases 10 - HeightAt(m, location), 1, 0
  {
    if HeightAt(m, location) == 9 then (1, {location})
    else
      var directions := AvailableDirections(m, location);
      if |directions| == 0 then (0, {}) else HikeAll(m, location, directions)
  }

  /** The `fold` over the directions. */
  function HikeAll(m: Map, location: Location, directions: seq<Direction>): (nat, set<Location>)
    requires Valid(m) && InBounds(m, location) && HeightAt(m, location) < 9
    requires forall d :: d in directions ==> CanClimb(m, location, d)
    decreases 10 - HeightAt(m, location), 0, |directions|
  {
    if |directions| == 0 then (0, {})
    else
      var acc := HikeAll(m, location, directions[..|directions| - 1]);
      var here := Hike(m, Climb(m, location, directions[|directions| - 1]));
      (acc.0 + here.0, acc.1 + here.1)
  }

  /** A climbable step in direction `d` leads from `a` to `b`. */
  predicate ClimbsTo(m: Map, a: Location, d: Direction, b: Location)
    requires Valid(m)
  {
    InBounds(m, a) && CanClimb(m, a, d) && Climb(m, a, d) == b
  }

  /** Some climbable step leads from `a` to `b`. */
  predicate StepsTo(m: Map, a: Location, b: Location)
    requires Valid(m)
  {
    ClimbsTo(m, a, North, b) || ClimbsTo(m, a, South, b) || ClimbsTo(m, a, East, b) || ClimbsTo(m, a, West, b)
  }

  /** A hiking trail: consecutive locations a step apart, each one higher
      than the one before. */
  ghost predicate IsTrail(m: Map, path: seq<Location>)
    requires Valid(m)
  {
    |path| >= 1 && (forall i :: 0 <= i < |path| ==> InBounds(m, path[i])) &&
    forall i :: 0 <= i < |path| - 1 ==> StepsTo(m, path[i], path[i + 1])
  }

  /** A trail from `start` ends at the peak `peak`. */
  ghost predicate Reaches(m: Map, start: Location, peak: Location)
    requires Valid(m)
  {
    exists path :: IsTrail(m, path) && path[0] == start && path[|path| - 1] == peak &&
      InBounds(m, peak) && HeightAt(m, peak) == 9
  }

  /** Along a trail the height goes up by one per step. */
  lemma {:induction false} TrailHeights(m: Map, path: seq<Location>, i: nat)
    requires Valid(m) && IsTrail(m, path) && i < |path|
    ensures HeightAt(m, path[i]) == HeightAt(m, path[0]) + i
  {
    if i > 0 {
      TrailHeights(m, path, i - 1);
      var d :| ClimbsTo(m, path[i - 1], d, path[i]);
    }
  }

  /** What the fold collects: the sum of the counts and the union of the
      peaks over the directions. */
  lemma {:induction false} HikeAllPeaks(m: Map, location: Location, directions: seq<Direction>, p: Location)
    requires Valid(m) && InBounds(m, location) && HeightAt(m, location) < 9
    requires forall d :: d in directions ==> CanClimb(m, location, d)
    ensures p in HikeAll(m, location, directions).1 <==>
      exists d :: d in directions && p in Hike(m, Climb(m, location, d)).1
    decreases |directions|
  {
    if |directions| > 0 {
      var init := directions[..|directions| - 1];
      HikeAllPeaks(m, location, init, p);
      forall d | d in directions ensures d in init || d == directions[|directions| - 1] {
        var k :| 0 <= k < |directions| && directions[k] == d;
        if k < |directions| - 1 {
          assert init[k] == d;
        }
      }
    }
  }

  /** Every peak `hike_trails` returns is reached by a trail from the start,
      and has height 9. */
  lemma {:induction false} HikePeaksReached(m: Map, location: Location, p: Location)
    requires Valid(m) && InBounds(m, location)
    requires p in Hike(m, location).1
    ensures Reaches(m, location, p)
    decreases 10 - HeightAt(m, location)
  {
    if HeightAt(m, location) == 9 {
      assert IsTrail(m, [location]);
    } else {
      var d := PeakDirection(m, location, p);
      var next := Climb(m, location, d);
      HikePeaksReached(m, next, p);
      var path :| IsTrail(m, path) && path[0] == next && path[|path| - 1] == p &&
        InBounds(m, p) && HeightAt(m, p) == 9;
      TrailPrepend(m, location, d, path);
      assert ([location] + path)[|path|] == p;
    }
  }

  /** Below the peaks, a peak `hike_trails` returns comes from one climbable
      neighbour. */
  lemma PeakDirection(m: Map, location: Location, p: Location) returns (d: Direction)
    requires Valid(m) && InBounds(m, location) && HeightAt(m, location) < 9
    requires p in Hike(m, location).1
    ensures CanClimb(m, location, d) && p in Hike(m, Climb(m, location, d)).1
  {
    var directions := AvailableDirections(m, location);
    HikeAllPeaks(m, location, directions, p);
    d :| d in directions && p in Hike(m, Climb(m, location, d)).1;
  }

  /** A climbable step in front of a trail gives a trail. */
  lemma TrailPrepend(m: Map, location: Location, d: Direction, path: seq<Location>)
    requires Valid(m) && InBounds(m, location) && CanClimb(m, location, d)
    requires IsTrail(m, path) && path[0] == Climb(m, location, d)
    ensures IsTrail(m, [location] + path)
  {
    var longer := [location] + path;
    assert ClimbsTo(m, location, d, path[0]);
    forall i | 0 <= i < |longer| - 1 ensures StepsTo(m, longer[i], longer[i + 1]) {
      if i > 0 {
        assert longer[i] == path[i - 1] && longer[i + 1] == path[i];
      }
    }
  }

  /** Every peak a trail from the start reaches is among the peaks
      `hike_trails` returns. */
  lemma {:induction false} ReachedPeaksHiked(m: Map, path: seq<Location>)
    requires Valid(m) && IsTrail(m, path)
    requires HeightAt(m, path[|path| - 1]) == 9
    ensures path[|path| - 1] in Hike(m, path[0]).1
    decreases |path|
  {
    var p := path[|path| - 1];
    TrailHeights(m, path, |path| - 1);
    if |path| > 1 {
      var location := path[0];
      var d :| ClimbsTo(m, location, d, path[1]);
      ReachedPeaksHiked(m, path[1..]);
      var directions := AvailableDirections(m, location);
      HikeAllPeaks(m, location, directions, p);
    }
  }

  /** The peaks of `hike_trails` are exactly the peaks reachable by a trail. */
  lemma HikePeaksExactly(m: Map, location: Location, p: Location)
    requires Valid(m) && InBounds(m, location)
    ensures p in Hike(m, location).1 <==> Reaches(m, location, p)
  {
    if p in Hike(m, location).1 {
      HikePeaksReached(m, location, p);
    }
    if Reaches(m, location, p) {
      var path :| IsTrail(m, path) && path[0] == location && path[|path| - 1] == p &&
        InBounds(m, p) && HeightAt(m, p) == 9;
      ReachedPeaksHiked(m, path);
    }
  }

  lemma UnionBound<T>(a: set<T>, b: set<T>)
    ensures |a + b| <= |a| + |b|
  {
    assert a + b == a + (b - a);
    assert |b - a| <= |b| by {
      assert b == (b - a) + (b * a);
    }
  }

  /** Each peak is the end of at least one trail. */
  lemma {:induction false} CountAtLeastPeaks(m: Map, location: Location)
    requires Valid(m) && InBounds(m, location)
    ensures Hike(m, location).0 >= |Hike(m, location).1|
    decreases 10 - HeightAt(m, location), 1, 0
  {
    if HeightAt(m, location) < 9 {
      var directions := AvailableDirections(m, location);
      if |directions| > 0 {
        CountAtLeastPeaksAll(m, location, directions);
      }
    }
  }

  lemma {:induction false} CountAtLeastPeaksAll(m: Map, location: Location, directions: seq<Direction>)
    requires Valid(m) && InBounds(m, location) && HeightAt(m, location) < 9
    requires forall d :: d in directions ==> CanClimb(m, location, d)
    ensures HikeAll(m, location, directions).0 >= |HikeAll(m, location, directions).1|
    decreases 10 - HeightAt(m, location), 0, |directions|
  {
    if |directions| > 0 {
      var init := directions[..|directions| - 1];
      var next := Climb(m, location, directions[|directions| - 1]);
      CountAtLeastPeaksAll(m, location, init);
      CountAtLeastPeaks(m, next);
      UnionBound(HikeAll(m, location, init).1, Hike(m, next).1);
    }
  }

  /** `Hiker`: a position that moves. */
  class Hiker {
    var position: Location

    /** `Hiker::new`. */
    constructor (position: Location)
      ensures this.position == position
    {
      this.position := position;
    }

    /** `Hiker::move`: one step; the step must stay on the map (`unwrap`). */
    method Move(m: Map, d: Direction)
      requires ProjectLocation(m, position, d).Some?
      modifies this
      ensures position == ProjectLocation(m, old(position), d).value
    {
      position := ProjectLocation(m, position, d).value;
    }
  }

  /** `hike_trails` as the source runs it: a cloned hiker moved one step per
      climbable direction, the results folded together. */
  method HikeTrails(m: Map, hiker: Hiker) returns (count: nat, peaks: set<Location>)
    requires Valid(m) && InBounds(m, hiker.position)
    ensures (count, peaks) == Hike(m, hiker.position)
    decreases 10 - HeightAt(m, hiker.position), 2
  {
    var location := hiker.position;
    if Get(m, location).value == 9 {
      return 1, {location};
    }
    var directions := AvailableDirections(m, location);
    if |directions| == 0 {
      return 0, {};
    }
    count, peaks := HikeDirections(m, location, directions);
  }

  /** The `fold` over the climbable directions of `hike_trails`. */
  method HikeDirections(m: Map, location: Location, directions: seq<Direction>) returns (count: nat, peaks: set<Location>)
    requires Valid(m) && InBounds(m, location) && HeightAt(m, location) < 9
    requires forall d :: d in directions ==> CanClimb(m, location, d)
    ensures (count, peaks) == HikeAll(m, location, directions)
    decreases 10 - HeightAt(m, location), 1
  {
    count, peaks := 0, {};
    for i := 0 to |directions|
      invariant (count, peaks) == HikeAll(m, location, directions[..i])
    {
      HikeAllStep(m, location, directions, i);
      var trails, reached := HikeDirection(m, location, directions[i]);
      count, peaks := count + trails, peaks + reached;
    }
    assert directions[..|directions|] == directions;
  }

  /** One iteration of the fold: a hiker cloned at `location`, moved one
      step in direction `d` and sent on. */
  method HikeDirection(m: Map, location: Location, d: Direction) returns (count: nat, peaks: set<Location>)
    requires Valid(m) && InBounds(m, location) && CanClimb(m, location, d)
    ensures (count, peaks) == Hike(m, Climb(m, location, d))
    decreases 10 - HeightAt(m, location), 0
  {
    var next := new Hiker(location);
    next.Move(m, d);
    count, peaks := HikeTrails(m, next);
  }

  /** One more direction of the fold adds the hike from where it leads. */
  lemma {:induction false} HikeAllStep(m: Map, location: Location, directions: seq<Direction>, i: nat)
    requires Valid(m) && InBounds(m, location) && HeightAt(m, location) < 9
    requires forall d :: d in directions ==> CanClimb(m, location, d)
    requires i < |directions|
    ensures CanClimb(m, location, directions[i])
    ensures var here := Hike(m, Climb(m, location, directions[i]));
      HikeAll(m, location, directions[..i + 1]) ==
        (HikeAll(m, location, directions[..i]).0 + here.0, HikeAll(m, location, directions[..i]).1 + here.1)
  {
    assert directions[..i + 1][..i] == directions[..i];
    assert directions[i] in directions;
  }

  /** The per-trailhead counts summed: trails (part 2) and reached peaks
      (part 1). */
  function SumTrails(m: Map, heads: seq<Location>): (nat, nat)
    requires Valid(m) && forall l :: l in heads ==> InBounds(m, l)
  {
    if |heads| == 0 then (0, 0)
    else
      var acc := SumTrails(m, heads[..|heads| - 1]);
      var hike := Hike(m, heads[|heads| - 1]);
      (acc.0 + hike.0, acc.1 + |hike.1|)
  }

  /** Summed over trailheads, there are at least as many trails as reached
      peaks. */
  lemma {:induction false} TrailsAtLeastPeaks(m: Map, heads: seq<Location>)
    requires Valid(m) && forall l :: l in heads ==> InBounds(m, l)
    ensures SumTrails(m, heads).0 >= SumTrails(m, heads).1
  {
    if |heads| > 0 {
      TrailsAtLeastPeaks(m, heads[..|heads| - 1]);
      CountAtLeastPeaks(m, heads[|heads| - 1]);
    }
  }

  /** `map_trails`: the sums over the trailheads; with no trailhead the
      `reduce` has nothing to start from (a panic). */
  function MapTrails(m: Map): (r: Option<(nat, nat)>)
    requires Valid(m)
    ensures r.None? <==> |Trailheads(m)| == 0
    ensures r.Some? ==> r.value.0 >= r.value.1
  {
    var heads := Trailheads(m);
    forall l | l in heads ensures InBounds(m, l) {
      TrailheadsMember(m, l);
    }
    TrailsAtLeastPeaks(m, heads);
    if |heads| == 0 then None else Some(SumTrails(m, heads))
  }

  /** `parse_input_file`: one digit per character, one row per line; no line,
      a non-digit or a row of another length than the first gives None. */
  function ParseMap(input: string): (r: Option<Map>)
    ensures r.Some? <==> |Lines(input)| > 0 && forall i :: 0 <= i < |Lines(input)| ==>
      AllDigits(Lines(input)[i]) && |Lines(input)[i]| == |Lines(input)[0]|
    ensures r.Some? ==> Valid(r.value) && |r.value.grid| == |Lines(input)|
    ensures r.Some? ==> forall i, j :: 0 <= i < |Lines(input)| && 0 <= j < |Lines(input)[i]| ==>
      j < |r.value.grid[i]| && r.value.grid[i][j] == DigitValue(Lines(input)[i][j])
  {
    var lines := Lines(input);
    if |lines| == 0 then None
    else if !(forall i :: 0 <= i < |lines| ==> AllDigits(lines[i]) && |lines[i]| == |lines[0]|) then None
    else
      var grid := seq(|lines|, i requires 0 <= i < |lines| =>
        seq(|lines[i]|, j requires 0 <= j < |lines[i]| => DigitValue(lines[i][j])));
      Some(NewMap(grid))
  }

  /** `part1`: the number of peaks reached, summed over the trailheads. */
  function Part1(input: string): Option<nat> {
    match ParseMap(input)
    case None => None
    case Some(m) =>
      match MapTrails(m)
      case None => None
      case Some(counts) => Some(counts.1)
  }

  /** `part2`: the number of trails, summed over the trailheads; never below
      part 1's answer. */
  function Part2(input: string): (r: Option<nat>)
    ensures r.Some? <==> Part1(input).Some?
    ensures r.Some? ==> r.value >= Part1(input).value
  {
    match ParseMap(input)
    case None => None
    case Some(m) =>
      match MapTrails(m)
      case None => None
      case Some(counts) => Some(counts.0)
  }
}
