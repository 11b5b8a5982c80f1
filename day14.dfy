/**
 * 2024 day 14, Restroom Redoubt: robots move through a lobby whose edges wrap
 * around. Part 1 moves every robot 100 times and multiplies the numbers of
 * robots in the four quadrants; part 2 is the first second at which the
 * robots' two periodic clusterings coincide.
 */
module Day14 {
  import opened Wrappers
  import opened GridIndex

  /** `(x, y)`, an `(isize, isize)` in the source. */
  type Position = (int, int)

  type Velocity = (int, int)

  /** A half-open box: from its `low` corner inclusive to its `high` corner
      exclusive. */
  datatype Box = Box(low: Position, high: Position)

  datatype Quadrant = Q1 | Q2 | Q3 | Q4

  datatype Lobby = Lobby(width: int, height: int, q1: Box, q2: Box, q3: Box, q4: Box)

  /** `Lobby::new`: the four quadrants around the middle row and column,
      halving with Rust's truncating division. */
  function NewLobby(width: int, height: int): Lobby {
    var midX, midY := TruncDiv(width, 2), TruncDiv(height, 2);
    Lobby(width, height,
      Box((0, 0), (midX, midY)),
      Box((midX + 1, 0), (width, midY)),
      Box((0, midY + 1), (midX, height)),
      Box((midX + 1, midY + 1), (width, height)))
  }

  /** `is_in_quadrant`. */
  predicate InBox(position: Position, box: Box) {
    var ((x1, y1), (x2, y2)) := (box.low, box.high);
    x1 <= position.0 < x2 && y1 <= position.1 < y2
  }

  /** `Lobby::quadrant`: the first quadrant that holds the position. */
  function QuadrantOf(lobby: Lobby, position: Position): Option<Quadrant> {
    if InBox(position, lobby.q1) then Some(Q1)
    else if InBox(position, lobby.q2) then Some(Q2)
    else if InBox(position, lobby.q3) then Some(Q3)
    else if InBox(position, lobby.q4) then Some(Q4)
    else None
  }

  /** The quadrants of a new lobby are the four corners strictly left or right
      of the middle column and strictly above or below the middle row. */
  lemma QuadrantCorners(width: int, height: int, position: Position)
    requires width > 0 && height > 0
    ensures var (x, y) := position;
      var q := QuadrantOf(NewLobby(width, height), position);
      (q == Some(Q1) <==> 0 <= x < width / 2 && 0 <= y < height / 2) &&
      (q == Some(Q2) <==> width / 2 < x < width && 0 <= y < height / 2) &&
      (q == Some(Q3) <==> 0 <= x < width / 2 && height / 2 < y < height) &&
      (q == Some(Q4) <==> width / 2 < x < width && height / 2 < y < height)
  {
    assert TruncDiv(width, 2) == width / 2 && TruncDiv(height, 2) == height / 2;
  }

  /** Inside the lobby, a robot is in no quadrant exactly when it stands on
      the middle column or the middle row. */
  lemma NoQuadrantOnMiddle(width: int, height: int, position: Position)
    requires width > 0 && height > 0
    requires 0 <= position.0 < width && 0 <= position.1 < height
    ensures QuadrantOf(NewLobby(width, height), position).None? <==>
      position.0 == width / 2 || position.1 == height / 2
  {
    QuadrantCorners(width, height, position);
  }

  /** One coordinate after a move: back in from the near edge when below 0,
      reduced modulo the size when past the far edge. */
  function Wrap(next: int, size: int): int
    requires size > 0
  {
    if next < 0 then size + next
    else if next >= size then next % size
    else next
  }

  /** For a coordinate inside the lobby and a speed of at most one lobby
      width, the wrapped coordinate is inside the lobby and agrees with the
      unwrapped one modulo the size. */
  lemma WrapInRange(x: int, v: int, size: int)
    requires size > 0 && 0 <= x < size && -size <= v <= size
    ensures 0 <= Wrap(x + v, size) < size
    ensures Wrap(x + v, size) == (x + v) % size
  {
    var n := x + v;
    if n < 0 {
      assert n + size == n % size by {
        assert n == size * (-1) + (n + size);
      }
    } else if n >= size {
    } else {
    }
  }

  /** The position after one `Robot::move`. */
  function Next(position: Position, velocity: Velocity, lobby: Lobby): Position
    requires lobby.width > 0 && lobby.height > 0
  {
    (Wrap(position.0 + velocity.0, lobby.width), Wrap(position.1 + velocity.1, lobby.height))
  }

  /** The position after `n` moves. */
  function After(position: Position, velocity: Velocity, lobby: Lobby, n: nat): Position
    requires lobby.width > 0 && lobby.height > 0
  {
    if n == 0 then position else Next(After(position, velocity, lobby, n - 1), velocity, lobby)
  }

  /** A robot that starts inside the lobby with a speed of at most the lobby's
      size in each direction is, after `n` moves, where `n` unwrapped steps
      land modulo the lobby's size. */
  lemma {:induction false} AfterIsModular(position: Position, velocity: Velocity, lobby: Lobby, n: nat)
    requires lobby.width > 0 && lobby.height > 0
    requires 0 <= position.0 < lobby.width && 0 <= position.1 < lobby.height
    requires -lobby.width <= velocity.0 <= lobby.width && -lobby.height <= velocity.1 <= lobby.height
    ensures After(position, velocity, lobby, n) ==
      ((position.0 + n * velocity.0) % lobby.width, (position.1 + n * velocity.1) % lobby.height)
  {
    if n > 0 {
      AfterIsModular(position, velocity, lobby, n - 1);
      var p := After(position, velocity, lobby, n - 1);
      WrapInRange(p.0, velocity.0, lobby.width);
      WrapInRange(p.1, velocity.1, lobby.height);
      ModStep(position.0, velocity.0, n, lobby.width);
      ModStep(position.1, velocity.1, n, lobby.height);
    }
  }

  /** Reducing before the last step does not change the result modulo `m`. */
  lemma ModStep(x: int, v: int, n: nat, m: int)
    requires m > 0 && n > 0
    ensures ((x + (n - 1) * v) % m + v) % m == (x + n * v) % m
  {
    var a := x + (n - 1) * v;
    assert a + v == x + n * v;
    var q, r := a / m, a % m;
    var q2, r2 := (r + v) / m, (r + v) % m;
    assert a == m * q + r;
    assert r + v == m * q2 + r2;
    assert a + v == m * (q + q2) + r2;
    ModUnique(a + v, m, q + q2, r2);
  }

  /** Euclidean division is unique. */
  lemma ModUnique(n: int, m: int, q: int, r: int)
    requires m > 0 && n == m * q + r && 0 <= r < m
    ensures n % m == r
  {
    var d := q - n / m;
    assert n == m * (n / m) + n % m;
    assert m * d == n % m - r;
    MulBound(m, d);
  }

  lemma MulBound(m: int, d: int)
    requires m > 0
    ensures d >= 1 ==> m * d >= m
    ensures d <= -1 ==> m * d <= -m
  {
  }

  /** `Robot`: a position the moves overwrite and a fixed velocity. */
  class Robot {
    var position: Position
    const velocity: Velocity

    /** `Robot::new`. */
    constructor (position: Position, velocity: Velocity)
      ensures this.position == position && this.velocity == velocity
    {
      this.position := position;
      this.velocity := velocity;
    }

    /** `Robot::move`: one step by the velocity, wrapped at the edges. */
    method Move(lobby: Lobby)
      requires lobby.width > 0 && lobby.height > 0
      modifies this
      ensures position == Next(old(position), velocity, lobby)
    {
      var (x, y) := position;
      var (vx, vy) := velocity;
      var nextX := x + vx;
      nextX := if nextX < 0 then lobby.width + nextX
        else if nextX >= lobby.width then nextX % lobby.width
        else nextX;
      var nextY := y + vy;
      nextY := if nextY < 0 then lobby.height + nextY
        else if nextY >= lobby.height then nextY % lobby.height
        else nextY;
      position := (nextX, nextY);
    }
  }

  /** No robot occurs twice in the list (a `Vec` owns its robots). */
  predicate Distinct(robots: seq<Robot>) {
    forall i, j :: 0 <= i < j < |robots| ==> robots[i] != robots[j]
  }

  /** `robots.iter_mut().for_each(|robot| robot.move(&lobby))`. */
  method MoveAll(robots: seq<Robot>, lobby: Lobby)
    requires lobby.width > 0 && lobby.height > 0
    requires Distinct(robots)
    modifies set robot | robot in robots
    ensures forall i :: 0 <= i < |robots| ==>
      robots[i].position == Next(old(robots[i].position), robots[i].velocity, lobby)
  {
    for k := 0 to |robots|
      invariant forall i :: 0 <= i < k ==>
        robots[i].position == Next(old(robots[i].position), robots[i].velocity, lobby)
      invariant forall i :: k <= i < |robots| ==> robots[i].position == old(robots[i].position)
    {
      robots[k].Move(lobby);
    }
  }

  /** Where each robot of the puzzle input is after `n` moves. */
  function Simulate(data: seq<(Position, Velocity)>, lobby: Lobby, n: nat): (r: seq<Position>)
    requires lobby.width > 0 && lobby.height > 0
    ensures |r| == |data|
  {
    seq(|data|, i requires 0 <= i < |data| => After(data[i].0, data[i].1, lobby, n))
  }

  /** The number of positions in quadrant `q`. */
  function Count(positions: seq<Position>, lobby: Lobby, q: Quadrant): nat {
    if |positions| == 0 then 0
    else
      var last := if QuadrantOf(lobby, positions[|positions| - 1]) == Some(q) then 1 else 0;
      Count(positions[..|positions| - 1], lobby, q) + last
  }

  /** The number of positions in no quadrant. */
  function Outside(positions: seq<Position>, lobby: Lobby): nat {
    if |positions| == 0 then 0
    else
      var last := if QuadrantOf(lobby, positions[|positions| - 1]).None? then 1 else 0;
      Outside(positions[..|positions| - 1], lobby) + last
  }

  /** Every robot is counted once: in its one quadrant or as outside. */
  lemma {:induction false} CountsPartition(positions: seq<Position>, lobby: Lobby)
    ensures Count(positions, lobby, Q1) + Count(positions, lobby, Q2) +
      Count(positions, lobby, Q3) + Count(positions, lobby, Q4) + Outside(positions, lobby) == |positions|
  {
    if |positions| > 0 {
      CountsPartition(positions[..|positions| - 1], lobby);
    }
  }

  /** A quadrant's factor: its robot count, or 1 when it has no robot (it has
      no entry in the counts then). */
  function Factor(positions: seq<Position>, lobby: Lobby, q: Quadrant): nat {
    var n := Count(positions, lobby, q);
    if n == 0 then 1 else n
  }

  /** The safety factor: the product of the occupied quadrants' counts. */
  function SafetyFactor(positions: seq<Position>, lobby: Lobby): nat {
    Factor(positions, lobby, Q1) * Factor(positions, lobby, Q2) *
    Factor(positions, lobby, Q3) * Factor(positions, lobby, Q4)
  }

  /** An empty quadrant leaves the product alone instead of making it 0. */
  lemma SafetyFactorPositive(positions: seq<Position>, lobby: Lobby)
    ensures SafetyFactor(positions, lobby) >= 1
  {
    var a, b := Factor(positions, lobby, Q1), Factor(positions, lobby, Q2);
    var c, d := Factor(positions, lobby, Q3), Factor(positions, lobby, Q4);
    assert a * b >= 1;
    assert a * b * c >= 1;
  }

  /** With every quadrant occupied, the safety factor is the product of the
      four counts. */
  lemma SafetyFactorOccupied(positions: seq<Position>, lobby: Lobby)
    requires forall q :: Count(positions, lobby, q) > 0
    ensures SafetyFactor(positions, lobby) ==
      Count(positions, lobby, Q1) * Count(positions, lobby, Q2) *
      Count(positions, lobby, Q3) * Count(positions, lobby, Q4)
  {
    assert Count(positions, lobby, Q1) > 0 && Count(positions, lobby, Q2) > 0;
    assert Count(positions, lobby, Q3) > 0 && Count(positions, lobby, Q4) > 0;
  }

  /** The product of the counts whose quadrants are in `keys`. */
  function Product(counts: map<Quadrant, nat>, keys: set<Quadrant>): nat {
    Entry(counts, keys, Q1) * Entry(counts, keys, Q2) * Entry(counts, keys, Q3) * Entry(counts, keys, Q4)
  }

  function Entry(counts: map<Quadrant, nat>, keys: set<Quadrant>, q: Quadrant): nat {
    if q in keys && q in counts then counts[q] else 1
  }

  /** Multiplying the entries in any order gives the same product. */
  lemma ProductRemove(counts: map<Quadrant, nat>, keys: set<Quadrant>, q: Quadrant)
    requires q in keys && q in counts
    ensures Product(counts, keys) == counts[q] * Product(counts, keys - {q})
  {
    var rest := keys - {q};
    var e1, e2 := Entry(counts, keys, Q1), Entry(counts, keys, Q2);
    var e3, e4 := Entry(counts, keys, Q3), Entry(counts, keys, Q4);
    var r1, r2 := Entry(counts, rest, Q1), Entry(counts, rest, Q2);
    var r3, r4 := Entry(counts, rest, Q3), Entry(counts, rest, Q4);
    assert Product(counts, keys) == e1 * e2 * e3 * e4;
    assert Product(counts, rest) == r1 * r2 * r3 * r4;
    MulTakeOut(e1, e2, e3, e4, r1, r2, r3, r4, counts[q],
      if q == Q1 then 1 else if q == Q2 then 2 else if q == Q3 then 3 else 4);
  }

  /** Four factors of which one, at `j`, is `n` in the first product and 1 in
      the second, the others equal. */
  lemma MulTakeOut(e1: int, e2: int, e3: int, e4: int, r1: int, r2: int, r3: int, r4: int, n: int, j: int)
    requires 1 <= j <= 4
    requires (if j == 1 then e1 == n && r1 == 1 else e1 == r1) && (if j == 2 then e2 == n && r2 == 1 else e2 == r2)
    requires (if j == 3 then e3 == n && r3 == 1 else e3 == r3) && (if j == 4 then e4 == n && r4 == 1 else e4 == r4)
    ensures e1 * e2 * e3 * e4 == n * (r1 * r2 * r3 * r4)
  {
    if j == 1 {
      MulAssoc3(n, r2, r3, r4);
    } else if j == 2 {
      assert e1 * n == n * e1;
      MulAssoc3(n, r1, r3, r4);
    } else if j == 3 {
      assert e1 * e2 * n == n * (e1 * e2);
      MulAssoc2(n, e1 * e2, r4);
    } else {
      assert e1 * e2 * e3 * n == n * (e1 * e2 * e3);
    }
  }

  lemma MulAssoc2(a: int, b: int, c: int)
    ensures a * b * c == a * (b * c)
  {
  }

  lemma MulAssoc3(a: int, b: int, c: int, d: int)
    ensures a * b * c * d == a * (b * c * d)
  {
    MulAssoc2(a, b, c);
    MulAssoc2(a, b * c, d);
  }

  /** `calculate_safety_factor`: count the robots per quadrant in a map, then
      multiply the map's values in whatever order it yields them. */
  method CalculateSafetyFactor(positions: seq<Position>, lobby: Lobby) returns (factor: nat)
    ensures factor == SafetyFactor(positions, lobby)
  {
    var counts := CountQuadrants(positions, lobby);
    factor := 1;
    var remaining := counts.Keys;
    while remaining != {}
      invariant remaining <= counts.Keys
      invariant factor * Product(counts, remaining) == Product(counts, counts.Keys)
      decreases remaining
    {
      var q :| q in remaining;
      ProductRemove(counts, remaining, q);
      MulAssoc2(factor, counts[q], Product(counts, remaining - {q}));
      factor := factor * counts[q];
      remaining := remaining - {q};
    }
    assert Product(counts, {}) == 1;
    assert Product(counts, counts.Keys) == SafetyFactor(positions, lobby) by {
      assert Entry(counts, counts.Keys, Q1) == Factor(positions, lobby, Q1);
      assert Entry(counts, counts.Keys, Q2) == Factor(positions, lobby, Q2);
      assert Entry(counts, counts.Keys, Q3) == Factor(positions, lobby, Q3);
      assert Entry(counts, counts.Keys, Q4) == Factor(positions, lobby, Q4);
    }
  }

  /** The first loop of `calculate_safety_factor`: each robot in a quadrant
      adds one to that quadrant's entry, created at 0. */
  method CountQuadrants(positions: seq<Position>, lobby: Lobby) returns (counts: map<Quadrant, nat>)
    ensures forall q :: q in counts <==> Count(positions, lobby, q) > 0
    ensures forall q :: q in counts ==> counts[q] == Count(positions, lobby, q)
  {
    counts := map[];
    for i := 0 to |positions|
      invariant forall q :: q in counts <==> Count(positions[..i], lobby, q) > 0
      invariant forall q :: q in counts ==> counts[q] == Count(positions[..i], lobby, q)
    {
      assert positions[..i + 1][..i] == positions[..i];
      match QuadrantOf(lobby, positions[i])
      case Some(q) =>
        counts := counts[q := (if q in counts then counts[q] else 0) + 1];
      case None =>
    }
    assert positions[..|positions|] == positions;
  }

  /** `part1`: the robots of the input moved 100 times in a lobby of the given
      size, and the safety factor of where they end up. */
  method Part1(data: seq<(Position, Velocity)>, width: int, height: int) returns (factor: nat)
    requires width > 0 && height > 0
    ensures factor == SafetyFactor(Simulate(data, NewLobby(width, height), 100), NewLobby(width, height))
    ensures factor >= 1
  {
    var lobby := NewLobby(width, height);
    var robots := NewRobots(data);
    for step := 0 to 100
      invariant forall i :: 0 <= i < |robots| ==> fresh(robots[i])
      invariant forall i :: 0 <= i < |robots| ==>
        robots[i].position == After(data[i].0, data[i].1, lobby, step)
    {
      MoveAll(robots, lobby);
    }
    var positions := PositionsOf(robots);
    assert positions == Simulate(data, lobby, 100);
    factor := CalculateSafetyFactor(positions, lobby);
    SafetyFactorPositive(positions, lobby);
  }

  /** `parse_input`'s `Robot::new` for each position and velocity. */
  method NewRobots(data: seq<(Position, Velocity)>) returns (robots: seq<Robot>)
    ensures |robots| == |data| && Distinct(robots)
    ensures forall i :: 0 <= i < |robots| ==> fresh(robots[i])
    ensures forall i :: 0 <= i < |robots| ==>
      robots[i].position == data[i].0 && robots[i].velocity == data[i].1
  {
    robots := [];
    for i := 0 to |data|
      invariant |robots| == i && Distinct(robots)
      invariant forall j :: 0 <= j < i ==> fresh(robots[j])
      invariant forall j :: 0 <= j < i ==>
        robots[j].position == data[j].0 && robots[j].velocity == data[j].1
    {
      var robot := new Robot(data[i].0, data[i].1);
      robots := robots + [robot];
    }
  }

  method PositionsOf(robots: seq<Robot>) returns (positions: seq<Position>)
    ensures |positions| == |robots|
    ensures forall i :: 0 <= i < |robots| ==> positions[i] == robots[i].position
  {
    positions := [];
    for i := 0 to |robots|
      invariant |positions| == i
      invariant forall j :: 0 <= j < i ==> positions[j] == robots[j].position
    {
      positions := positions + [robots[i].position];
    }
  }

  /** The condition `part2` stops at: past second 47, on the 103-second
      cycle from 47 and on the 101-second cycle from 82. */
  predicate TreeSecond(second: nat) {
    second > 47 && (second - 47) % 103 == 0 && (second - 82) % 101 == 0
  }

  /** The two cycles first meet at second 7051, and every second they meet
      at is at least that. */
  lemma FirstTreeSecond(second: nat)
    ensures TreeSecond(7051)
    ensures TreeSecond(second) ==> second >= 7051
  {
    if TreeSecond(second) {
      var a: int := (second - 47) / 103;
      var b: int := (second - 82) / 101;
      var n: int := second - 7051;
      assert n == 103 * (a - 68);
      assert n == 101 * (b - 69);
      var k := a - 68;
      assert 2 * k == 101 * (b - 69 - k);
      var u := HalfOfOddMultiple(k, b - 69 - k);
      assert n == 10403 * u;
    }
  }

  /** `2k = 101t` makes `t` even, so `k` is a multiple of 101. */
  lemma HalfOfOddMultiple(k: int, t: int) returns (u: int)
    requires 2 * k == 101 * t
    ensures k == 101 * u
  {
    var q, r := t / 2, t % 2;
    assert t == 2 * q + r;
    assert 101 * r == 2 * (k - 101 * q);
    assert r == 0;
    u := q;
  }

  /** `part2`: the robots move once a second until the first second at which
      both cycles meet, which is returned; the robots are left there for the
      picture. */
  method Part2(data: seq<(Position, Velocity)>) returns (second: nat)
    ensures TreeSecond(second) && forall s: nat :: TreeSecond(s) ==> s >= second
    ensures second == 7051
  {
    var lobby := NewLobby(101, 103);
    var robots := NewRobots(data);
    second := 0;
    FirstTreeSecond(0);
    while !TreeSecond(second)
      invariant second <= 7051
      invariant forall s: nat :: s < second ==> !TreeSecond(s)
      invariant forall i :: 0 <= i < |robots| ==> fresh(robots[i])
      invariant forall i :: 0 <= i < |robots| ==>
        robots[i].position == After(data[i].0, data[i].1, lobby, second)
      decreases 7051 - second
    {
      MoveAll(robots, lobby);
      second := second + 1;
    }
    forall s: nat | TreeSecond(s) ensures s >= second {
      FirstTreeSecond(s);
    }
  }
}
