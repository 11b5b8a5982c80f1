/**
 * 2024 day 15, Warehouse Woes: a robot walks a warehouse and pushes boxes.
 * A push moves the whole chain of items in front of the robot when the chain
 * ends in an empty cell. Part 2 first doubles the width of the warehouse,
 * turning every box into a two-cell box that pushes both halves together.
 *
 * The warehouse is the shared `Map` of the grid kit, changed in place. Every
 * `unwrap` and `assert` of the source that can fail is modelled as a failure
 * result (`None` or `false`), never as a precondition.
 */
module Day15 {
  import opened Wrappers
  import opened GridIndex
  import opened Direction
  import opened GridMap
  import opened Text
  import Sums

  datatype Item = Wall | Empty | Box | BigBoxLeft | BigBoxRight | Robot

  /** `WarehouseItem::try_from(char)`: the four characters of the puzzle input. */
  function ItemFromChar(c: char): (r: Option<Item>)
    ensures r.Some? <==> c in {'#', '.', 'O', '@'}
  {
    match c
    case '#' => Some(Wall)
    case '.' => Some(Empty)
    case 'O' => Some(Box)
    case '@' => Some(Robot)
    case _ => None
  }

  /** `char::from(WarehouseItem)`. */
  function ItemChar(item: Item): char {
    match item
    case Wall => '#'
    case Empty => '.'
    case Box => 'O'
    case BigBoxLeft => '['
    case BigBoxRight => ']'
    case Robot => '@'
  }

  /** Reading a character and printing the item gives the character back; the
      four input items survive printing and reading; printing is injective. */
  lemma ItemCharRoundTrip(c: char, item: Item, other: Item)
    ensures ItemFromChar(c).Some? ==> ItemChar(ItemFromChar(c).value) == c
    ensures item !in {BigBoxLeft, BigBoxRight} ==> ItemFromChar(ItemChar(item)) == Some(item)
    ensures item != other ==> ItemChar(item) != ItemChar(other)
  {
  }

  /* ---------------------------------------------------------------------------
     Cells of the warehouse
     ------------------------------------------------------------------------- */

  predicate Inside(bounds: Index, i: Index) {
    0 <= i.row < bounds.row && 0 <= i.column < bounds.column
  }

  predicate Fits(data: seq<Item>, bounds: Index) {
    bounds.row >= 0 && bounds.column >= 0 && |data| == bounds.row * bounds.column
  }

  /** The storage position of an in-bounds index (`internal_index`). */
  function Slot(bounds: Index, i: Index): (k: nat)
    requires Inside(bounds, i)
    ensures k < bounds.row * bounds.column
  {
    RowMajorInRange(i.row, i.column, bounds.row, bounds.column);
    i.row * bounds.column + i.column
  }

  lemma SlotInjective(bounds: Index, i: Index, j: Index)
    requires Inside(bounds, i) && Inside(bounds, j)
    ensures i != j ==> Slot(bounds, i) != Slot(bounds, j)
  {
    var c := bounds.column;
    if i.row < j.row {
      MulMonotone(i.row + 1, j.row, c);
      assert (i.row + 1) * c == i.row * c + c;
    } else if j.row < i.row {
      MulMonotone(j.row + 1, i.row, c);
      assert (j.row + 1) * c == j.row * c + c;
    }
  }

  /** The item at an in-bounds index. */
  function Cell(data: seq<Item>, bounds: Index, i: Index): Item
    requires Fits(data, bounds) && Inside(bounds, i)
  {
    data[Slot(bounds, i)]
  }

  /** `warehouse.get(i)`. */
  function Get(data: seq<Item>, bounds: Index, i: Index): (r: Option<Item>)
    requires Fits(data, bounds)
    ensures r.Some? <==> Inside(bounds, i)
  {
    if Inside(bounds, i) then Some(Cell(data, bounds, i)) else None
  }

  /** One step from `i` in direction `d`. */
  function Step(i: Index, d: GridDirection): Index {
    Index(i.row + GridOffset(d).row, i.column + GridOffset(d).column)
  }

  /** `project_offset(i, d.offset())`: the step, when it stays on the map. */
  function Project(bounds: Index, i: Index, d: GridDirection): (r: Option<Index>)
    ensures r.Some? <==> Inside(bounds, Step(i, d))
    ensures r.Some? ==> r.value == Step(i, d)
  {
    if Inside(bounds, Step(i, d)) then Some(Step(i, d)) else None
  }

  /** How far an in-bounds index is from the edge the direction points to
      (0 off the map); every push goes strictly down in this measure. */
  function Measure(bounds: Index, i: Index, d: GridDirection): nat {
    if !Inside(bounds, i) then 0
    else
      match d
      case Up => i.row
      case Down => bounds.row - 1 - i.row
      case Left => i.column
      case Right => bounds.column - 1 - i.column
  }

  /** The cells from `p` onwards in direction `d`: the only cells a part 1 push touches. */
  predicate OnRay(p: Index, i: Index, d: GridDirection) {
    match d
    case Up => i.column == p.column && i.row <= p.row
    case Down => i.column == p.column && i.row >= p.row
    case Left => i.row == p.row && i.column <= p.column
    case Right => i.row == p.row && i.column >= p.column
  }

  /* ---------------------------------------------------------------------------
     What a push involves
     ------------------------------------------------------------------------- */

  /** `big_box_positions`: the two halves of the big box at `p`, found by
      looking one step right of a left half or one step left of a right half
      (the other cell is not inspected). `None` where the source panics. */
  function BigBoxPositions(data: seq<Item>, bounds: Index, p: Index): (r: Option<(Index, Index)>)
    requires Fits(data, bounds)
    ensures r.Some? <==> Inside(bounds, p) &&
                         ((Cell(data, bounds, p) == BigBoxLeft && p.column + 1 < bounds.column)
                          || (Cell(data, bounds, p) == BigBoxRight && p.column >= 1))
    ensures r.Some? ==> Inside(bounds, r.value.0) && Inside(bounds, r.value.1)
                        && r.value.0.row == p.row == r.value.1.row && r.value.1.column == r.value.0.column + 1
                        && (p == r.value.0 || p == r.value.1)
  {
    match Get(data, bounds, p)
    case Some(BigBoxLeft) => (match Project(bounds, p, Right) case Some(q) => Some((p, q)) case None => None)
    case Some(BigBoxRight) => (match Project(bounds, p, Left) case Some(q) => Some((q, p)) case None => None)
    case _ => None
  }

  function Both(bounds: Index, l: Index, r: Index, d: GridDirection): Option<seq<Index>> {
    match (Project(bounds, l, d), Project(bounds, r, d))
    case (Some(a), Some(b)) => Some([a, b])
    case _ => None
  }

  /** `next_positions`: the cells the item at `p` is pushed into. An empty cell
      pushes nothing; a robot or a box pushes the cell ahead; a big box pushes
      the cells ahead of both halves when moving vertically and the cell ahead
      of its leading half when moving sideways. `None` where the source panics
      (a wall, or a step off the map). Every pushed cell is closer to the edge. */
  function NextPositions(data: seq<Item>, bounds: Index, p: Index, d: GridDirection): (r: Option<seq<Index>>)
    requires Fits(data, bounds)
    ensures r.Some? ==> Inside(bounds, p)
    ensures r.Some? ==> forall q :: q in r.value ==> Inside(bounds, q) && Measure(bounds, q, d) < Measure(bounds, p, d)
    ensures Inside(bounds, p) && Cell(data, bounds, p) in {Robot, Box} ==>
              r == (if Inside(bounds, Step(p, d)) then Some([Step(p, d)]) else None)
    ensures Inside(bounds, p) && Cell(data, bounds, p) == Empty ==> r == Some([])
    ensures Inside(bounds, p) && Cell(data, bounds, p) == Wall ==> r.None?
  {
    match Get(data, bounds, p)
    case None => None
    case Some(Empty) => Some([])
    case Some(Robot) => (match Project(bounds, p, d) case Some(q) => Some([q]) case None => None)
    case Some(Box) => (match Project(bounds, p, d) case Some(q) => Some([q]) case None => None)
    case Some(Wall) => None
    case Some(_) =>
      match BigBoxPositions(data, bounds, p)
      case None => None
      case Some((l, r)) =>
        match d
        case Up => Both(bounds, l, r, d)
        case Down => Both(bounds, l, r, d)
        case Left => (match Project(bounds, l, d) case Some(q) => Some([q]) case None => None)
        case Right => (match Project(bounds, r, d) case Some(q) => Some([q]) case None => None)
  }

  /** `item_at_position_can_move`: a wall cannot move, an empty cell can, and
      anything else can when everything it pushes can (checked in order, the
      first failure deciding). `None` where the source panics. */
  function CanMove(data: seq<Item>, bounds: Index, p: Index, d: GridDirection): Option<bool>
    requires Fits(data, bounds)
    decreases Measure(bounds, p, d), 1, 0
  {
    match Get(data, bounds, p)
    case None => None
    case Some(Wall) => Some(false)
    case Some(Empty) => Some(true)
    case Some(_) =>
      match NextPositions(data, bounds, p, d)
      case None => None
      case Some(next) => AllCanMove(data, bounds, next, d, Measure(bounds, p, d))
  }

  /** `.iter().all(can_move)`, stopping at the first cell that cannot move. */
  function AllCanMove(data: seq<Item>, bounds: Index, next: seq<Index>, d: GridDirection, bound: nat): Option<bool>
    requires Fits(data, bounds)
    requires forall q :: q in next ==> Measure(bounds, q, d) < bound
    decreases bound, 0, |next|
  {
    if |next| == 0 then Some(true)
    else
      match CanMove(data, bounds, next[0], d)
      case None => None
      case Some(false) => Some(false)
      case Some(true) => AllCanMove(data, bounds, next[1..], d, bound)
  }

  /* ---------------------------------------------------------------------------
     Moving items, as functions of the cells: `None` where the source panics
     ------------------------------------------------------------------------- */

  /** `map_move`: the destination must be empty; afterwards `from` is empty,
      `to` holds the moved item and no other cell has changed. */
  function AfterMapMove(data: seq<Item>, bounds: Index, from: Index, to: Index): (r: Option<seq<Item>>)
    requires Fits(data, bounds)
    ensures r.Some? <==> Inside(bounds, from) && Inside(bounds, to) && Cell(data, bounds, to) == Empty
    ensures r.Some? ==> |r.value| == |data| && multiset(r.value) == multiset(data)
    ensures r.Some? ==> Cell(r.value, bounds, to) == Cell(data, bounds, from)
                        && (from != to ==> Cell(r.value, bounds, from) == Empty)
    ensures r.Some? ==> forall i :: Inside(bounds, i) && i != from && i != to ==> Cell(r.value, bounds, i) == Cell(data, bounds, i)
  {
    if Get(data, bounds, to) != Some(Empty) || Get(data, bounds, from).None? then None
    else
      var item := Cell(data, bounds, from);
      var r := data[Slot(bounds, from) := Empty][Slot(bounds, to) := item];
      assert Fits(r, bounds);
      assert forall i :: Inside(bounds, i) && i != from && i != to ==> Cell(r, bounds, i) == Cell(data, bounds, i) by {
        forall i | Inside(bounds, i) && i != from && i != to
          ensures Cell(r, bounds, i) == Cell(data, bounds, i)
        {
          SlotInjective(bounds, i, from);
          SlotInjective(bounds, i, to);
        }
      }
      SlotInjective(bounds, from, to);
      Some(r)
  }

  /** `move_single_item`: the item at `p` takes one step into an empty cell. */
  function AfterMoveSingle(data: seq<Item>, bounds: Index, p: Index, d: GridDirection): (r: Option<seq<Item>>)
    requires Fits(data, bounds)
    ensures r.Some? ==> |r.value| == |data| && multiset(r.value) == multiset(data)
  {
    match Project(bounds, p, d)
    case None => None
    case Some(q) => AfterMapMove(data, bounds, p, q)
  }

  /** `move_big_box`: both halves take a step, the half in front first when
      moving right and the left half first otherwise. */
  function AfterMoveBigBox(data: seq<Item>, bounds: Index, p: Index, d: GridDirection): (r: Option<seq<Item>>)
    requires Fits(data, bounds)
    ensures r.Some? ==> |r.value| == |data| && multiset(r.value) == multiset(data)
  {
    match BigBoxPositions(data, bounds, p)
    case None => None
    case Some((l, r)) =>
      var (first, second) := if d == Right then (r, l) else (l, r);
      match AfterMoveSingle(data, bounds, first, d)
      case None => None
      case Some(data') => AfterMoveSingle(data', bounds, second, d)
  }

  /** `move_item`: clear the way by moving every pushed cell (in order), then
      move the item that was at `p` before, as a big box or a single item.
      Every item only ever trades places with an empty cell, so the warehouse
      holds the same items afterwards. */
  function AfterMove(data: seq<Item>, bounds: Index, p: Index, d: GridDirection): (r: Option<seq<Item>>)
    requires Fits(data, bounds)
    ensures r.Some? ==> |r.value| == |data| && multiset(r.value) == multiset(data)
    decreases Measure(bounds, p, d), 1, 0
  {
    match Get(data, bounds, p)
    case None => None
    case Some(item) =>
      if item == Empty then Some(data)
      else
        match NextPositions(data, bounds, p, d)
        case None => None
        case Some(next) =>
          match AfterMoveAll(data, bounds, next, d, Measure(bounds, p, d))
          case None => None
          case Some(cleared) =>
            if item == BigBoxLeft || item == BigBoxRight then AfterMoveBigBox(cleared, bounds, p, d)
            else AfterMoveSingle(cleared, bounds, p, d)
  }

  /** The `for_each(move_item)` over the pushed cells, threading the warehouse. */
  function AfterMoveAll(data: seq<Item>, bounds: Index, next: seq<Index>, d: GridDirection, bound: nat): (r: Option<seq<Item>>)
    requires Fits(data, bounds)
    requires forall q :: q in next ==> Measure(bounds, q, d) < bound
    ensures r.Some? ==> |r.value| == |data| && multiset(r.value) == multiset(data)
    decreases bound, 0, |next|
  {
    if |next| == 0 then Some(data)
    else
      match AfterMove(data, bounds, next[0], d)
      case None => None
      case Some(data') => AfterMoveAll(data', bounds, next[1..], d, bound)
  }

  /** `Robot::attempt_move`: the new cells and robot position, or `None` where
      the source panics. A blocked robot leaves everything as it was. */
  function Attempt(data: seq<Item>, bounds: Index, p: Index, d: GridDirection): (r: Option<(seq<Item>, Index)>)
    requires Fits(data, bounds)
    ensures r.Some? ==> |r.value.0| == |data| && multiset(r.value.0) == multiset(data)
  {
    match CanMove(data, bounds, p, d)
    case None => None
    case Some(false) => Some((data, p))
    case Some(true) =>
      match AfterMove(data, bounds, p, d)
      case None => None
      case Some(data') =>
        match Project(bounds, p, d)
        case None => None
        case Some(q) => Some((data', q))
  }

  /** The robot's attempts, one per direction, in order. */
  function Simulate(data: seq<Item>, bounds: Index, p: Index, directions: seq<GridDirection>): (r: Option<(seq<Item>, Index)>)
    requires Fits(data, bounds)
    ensures r.Some? ==> |r.value.0| == |data| && multiset(r.value.0) == multiset(data)
    decreases |directions|
  {
    if |directions| == 0 then Some((data, p))
    else
      match Attempt(data, bounds, p, directions[0])
      case None => None
      case Some((data', q)) => Simulate(data', bounds, q, directions[1..])
  }

  /* ---------------------------------------------------------------------------
     Part 1: warehouses of single boxes inside a wall
     ------------------------------------------------------------------------- */

  /** No two-cell boxes: the warehouse of part 1. */
  predicate NoBigBoxes(data: seq<Item>) {
    forall k :: 0 <= k < |data| ==> data[k] != BigBoxLeft && data[k] != BigBoxRight
  }

  /** The outer ring of the warehouse is wall. */
  ghost predicate Bordered(data: seq<Item>, bounds: Index)
    requires Fits(data, bounds)
  {
    forall i :: Inside(bounds, i) && (i.row == 0 || i.row == bounds.row - 1 || i.column == 0 || i.column == bounds.column - 1)
      ==> Cell(data, bounds, i) == Wall
  }

  /** Every wall of `data` is still a wall in `data'`. */
  ghost predicate WallsKept(data: seq<Item>, data': seq<Item>, bounds: Index)
    requires Fits(data, bounds) && Fits(data', bounds)
  {
    forall i :: Inside(bounds, i) && Cell(data, bounds, i) == Wall ==> Cell(data', bounds, i) == Wall
  }

  /** Anything but a wall in a walled warehouse lies strictly inside it. */
  lemma Interior(data: seq<Item>, bounds: Index, p: Index)
    requires Fits(data, bounds) && Inside(bounds, p) && Bordered(data, bounds) && Cell(data, bounds, p) != Wall
    ensures 0 < p.row < bounds.row - 1 && 0 < p.column < bounds.column - 1
  {
  }

  /** Every half of a big box sits next to its other half. */
  ghost predicate Paired(data: seq<Item>, bounds: Index)
    requires Fits(data, bounds)
  {
    && (forall i :: Inside(bounds, i) && Cell(data, bounds, i) == BigBoxLeft ==>
          Inside(bounds, Step(i, Right)) && Cell(data, bounds, Step(i, Right)) == BigBoxRight)
    && (forall i :: Inside(bounds, i) && Cell(data, bounds, i) == BigBoxRight ==>
          Inside(bounds, Step(i, Left)) && Cell(data, bounds, Step(i, Left)) == BigBoxLeft)
  }

  /** Anything but a wall in a walled warehouse of paired boxes has a
      well-defined set of pushed cells. */
  lemma NextDefined(data: seq<Item>, bounds: Index, p: Index, d: GridDirection)
    requires Fits(data, bounds) && Inside(bounds, p) && Bordered(data, bounds) && Paired(data, bounds)
    requires Cell(data, bounds, p) != Wall
    ensures NextPositions(data, bounds, p, d).Some?
  {
    var item := Cell(data, bounds, p);
    if item == BigBoxLeft || item == BigBoxRight {
      var l, r := BigBoxRoom(data, bounds, p, d);
      BigBoxNext(data, bounds, p, d, l, r);
    } else if item != Empty {
      Interior(data, bounds, p);
    }
  }

  /** Both halves of a paired big box inside the wall have room to step. */
  lemma BigBoxRoom(data: seq<Item>, bounds: Index, p: Index, d: GridDirection) returns (l: Index, r: Index)
    requires Fits(data, bounds) && Inside(bounds, p) && Bordered(data, bounds) && Paired(data, bounds)
    requires Cell(data, bounds, p) in {BigBoxLeft, BigBoxRight}
    ensures BigBoxPositions(data, bounds, p) == Some((l, r))
    ensures Inside(bounds, Step(l, d)) && Inside(bounds, Step(r, d))
  {
    if Cell(data, bounds, p) == BigBoxLeft {
      l, r := LeftHalfPair(data, bounds, p);
    } else {
      l, r := RightHalfPair(data, bounds, p);
    }
    RoomToStep(data, bounds, l, d);
    RoomToStep(data, bounds, r, d);
  }

  /** The left half of a paired big box finds its right half. */
  lemma LeftHalfPair(data: seq<Item>, bounds: Index, p: Index) returns (l: Index, r: Index)
    requires Fits(data, bounds) && Inside(bounds, p) && Paired(data, bounds)
    requires Cell(data, bounds, p) == BigBoxLeft
    ensures BigBoxPositions(data, bounds, p) == Some((l, r))
    ensures Inside(bounds, l) && Cell(data, bounds, l) == BigBoxLeft
    ensures Inside(bounds, r) && Cell(data, bounds, r) == BigBoxRight
  {
    l, r := p, Step(p, Right);
    assert Inside(bounds, r) && Cell(data, bounds, r) == BigBoxRight;
  }

  /** The right half of a paired big box finds its left half. */
  lemma RightHalfPair(data: seq<Item>, bounds: Index, p: Index) returns (l: Index, r: Index)
    requires Fits(data, bounds) && Inside(bounds, p) && Paired(data, bounds)
    requires Cell(data, bounds, p) == BigBoxRight
    ensures BigBoxPositions(data, bounds, p) == Some((l, r))
    ensures Inside(bounds, l) && Cell(data, bounds, l) == BigBoxLeft
    ensures Inside(bounds, r) && Cell(data, bounds, r) == BigBoxRight
  {
    l, r := Step(p, Left), p;
    assert Inside(bounds, l) && Cell(data, bounds, l) == BigBoxLeft;
  }

  /** Anything but a wall in a walled warehouse can step in any direction
      without leaving the grid. */
  lemma RoomToStep(data: seq<Item>, bounds: Index, q: Index, d: GridDirection)
    requires Fits(data, bounds) && Inside(bounds, q) && Bordered(data, bounds) && Cell(data, bounds, q) != Wall
    ensures Inside(bounds, Step(q, d))
  {
    Interior(data, bounds, q);
  }

  /** A big box whose halves both have room to step has pushed cells. */
  lemma BigBoxNext(data: seq<Item>, bounds: Index, p: Index, d: GridDirection, l: Index, r: Index)
    requires Fits(data, bounds) && BigBoxPositions(data, bounds, p) == Some((l, r))
    requires Inside(bounds, Step(l, d)) && Inside(bounds, Step(r, d))
    ensures NextPositions(data, bounds, p, d).Some?
  {
  }

  /** The `all` over cells whose own checks are defined is defined. */
  lemma {:induction false} AllDefined(data: seq<Item>, bounds: Index, next: seq<Index>, d: GridDirection, bound: nat)
    requires Fits(data, bounds)
    requires forall q :: q in next ==> Measure(bounds, q, d) < bound && CanMove(data, bounds, q, d).Some?
    ensures AllCanMove(data, bounds, next, d, bound).Some?
    decreases |next|
  {
    if |next| > 0 {
      assert next[0] in next;
      AllDefined(data, bounds, next[1..], d, bound);
    }
  }

  /** In a walled warehouse whose big boxes are paired the can-move check
      never panics (part 1 has no big boxes at all). */
  lemma {:induction false} CanMoveDefined(data: seq<Item>, bounds: Index, p: Index, d: GridDirection)
    requires Fits(data, bounds) && Inside(bounds, p) && Bordered(data, bounds) && Paired(data, bounds)
    ensures CanMove(data, bounds, p, d).Some?
    decreases Measure(bounds, p, d)
  {
    var item := Cell(data, bounds, p);
    if item != Wall && item != Empty {
      NextDefined(data, bounds, p, d);
      var next := NextPositions(data, bounds, p, d).value;
      forall q | q in next
        ensures CanMove(data, bounds, q, d).Some?
      {
        CanMoveDefined(data, bounds, q, d);
      }
      AllDefined(data, bounds, next, d, Measure(bounds, p, d));
    }
  }

  /** A robot or box that can move pushes the cell ahead, which can move too,
      and its push is that cell's push followed by its own step. */
  lemma PushUnfolds(data: seq<Item>, bounds: Index, p: Index, d: GridDirection)
    requires Fits(data, bounds) && Inside(bounds, p) && Cell(data, bounds, p) in {Robot, Box}
    requires CanMove(data, bounds, p, d) == Some(true)
    ensures Inside(bounds, Step(p, d)) && CanMove(data, bounds, Step(p, d), d) == Some(true)
    ensures AfterMove(data, bounds, Step(p, d), d).Some? ==>
              AfterMove(data, bounds, p, d) == AfterMapMove(AfterMove(data, bounds, Step(p, d), d).value, bounds, p, Step(p, d))
  {
    PushCanMove(data, bounds, p, d);
    if AfterMove(data, bounds, Step(p, d), d).Some? {
      PushAfterMove(data, bounds, p, d);
    }
  }

  lemma PushCanMove(data: seq<Item>, bounds: Index, p: Index, d: GridDirection)
    requires Fits(data, bounds) && Inside(bounds, p) && Cell(data, bounds, p) in {Robot, Box}
    requires CanMove(data, bounds, p, d) == Some(true)
    ensures Inside(bounds, Step(p, d)) && NextPositions(data, bounds, p, d) == Some([Step(p, d)])
    ensures CanMove(data, bounds, Step(p, d), d) == Some(true)
  {
    var q := Step(p, d);
    var bound := Measure(bounds, p, d);
    assert NextPositions(data, bounds, p, d).Some?;
    assert NextPositions(data, bounds, p, d) == Some([q]);
    assert CanMove(data, bounds, p, d) == AllCanMove(data, bounds, [q], d, bound);
    assert [q][1..] == [];
  }

  lemma PushAfterMove(data: seq<Item>, bounds: Index, p: Index, d: GridDirection)
    requires Fits(data, bounds) && Inside(bounds, p) && Cell(data, bounds, p) in {Robot, Box}
    requires Inside(bounds, Step(p, d)) && NextPositions(data, bounds, p, d) == Some([Step(p, d)])
    requires AfterMove(data, bounds, Step(p, d), d).Some?
    ensures AfterMove(data, bounds, p, d) == AfterMapMove(AfterMove(data, bounds, Step(p, d), d).value, bounds, p, Step(p, d))
  {
    var q := Step(p, d);
    var bound := Measure(bounds, p, d);
    var r1 := AfterMove(data, bounds, q, d).value;
    assert AfterMoveAll(data, bounds, [q], d, bound) == Some(r1) by {
      assert [q][1..] == [];
      assert AfterMoveAll(r1, bounds, [q][1..], d, bound) == Some(r1);
    }
    assert AfterMove(data, bounds, p, d) == AfterMoveSingle(r1, bounds, p, d);
  }

  /** Stepping the item at `p` into the emptied cell `q` ahead of it, after the
      push from `q` has kept the walls, brought no big box and changed nothing
      off its own ray. */
  lemma StepFacts(data: seq<Item>, r1: seq<Item>, bounds: Index, p: Index, d: GridDirection)
    requires Fits(data, bounds) && Fits(r1, bounds) && Inside(bounds, p) && Inside(bounds, Step(p, d))
    requires Cell(data, bounds, p) in {Robot, Box}
    requires NoBigBoxes(r1) && WallsKept(data, r1, bounds) && Cell(r1, bounds, Step(p, d)) == Empty
    requires forall i :: Inside(bounds, i) && !OnRay(Step(p, d), i, d) ==> Cell(r1, bounds, i) == Cell(data, bounds, i)
    ensures AfterMapMove(r1, bounds, p, Step(p, d)).Some?
    ensures var r := AfterMapMove(r1, bounds, p, Step(p, d)).value;
      && NoBigBoxes(r)
      && WallsKept(data, r, bounds)
      && Cell(r, bounds, p) == Empty && Cell(r, bounds, Step(p, d)) == Cell(data, bounds, p)
      && (forall i :: Inside(bounds, i) && !OnRay(p, i, d) ==> Cell(r, bounds, i) == Cell(data, bounds, i))
  {
    var q := Step(p, d);
    assert !OnRay(q, p, d);
    var r := AfterMapMove(r1, bounds, p, q).value;
    assert NoBigBoxes(r) by {
      forall k | 0 <= k < |r|
        ensures r[k] != BigBoxLeft && r[k] != BigBoxRight
      {
        if k != Slot(bounds, p) && k != Slot(bounds, q) {
          assert r[k] == r1[k];
        }
      }
    }
    assert WallsKept(data, r, bounds) by {
      forall i | Inside(bounds, i) && Cell(data, bounds, i) == Wall
        ensures Cell(r, bounds, i) == Wall
      {
        assert Cell(r1, bounds, i) == Wall;
      }
    }
    forall i | Inside(bounds, i) && !OnRay(p, i, d)
      ensures Cell(r, bounds, i) == Cell(data, bounds, i)
    {
      assert !OnRay(q, i, d) && i != p && i != q;
    }
  }

  /** A part 1 push that the check allows succeeds and shifts the chain of
      items ahead of `p` one step: `p` empties, the next cell receives its
      item, walls stay, no big box appears and nothing off the ray changes. */
  lemma {:induction false} PushSingle(data: seq<Item>, bounds: Index, p: Index, d: GridDirection)
    requires Fits(data, bounds) && Inside(bounds, p) && NoBigBoxes(data)
    requires CanMove(data, bounds, p, d) == Some(true)
    ensures AfterMove(data, bounds, p, d).Some?
    ensures var r := AfterMove(data, bounds, p, d).value;
      && NoBigBoxes(r)
      && WallsKept(data, r, bounds)
      && (Cell(data, bounds, p) == Empty ==> r == data)
      && (Cell(data, bounds, p) != Empty ==>
            Inside(bounds, Step(p, d)) && Cell(r, bounds, p) == Empty && Cell(r, bounds, Step(p, d)) == Cell(data, bounds, p))
      && (forall i :: Inside(bounds, i) && !OnRay(p, i, d) ==> Cell(r, bounds, i) == Cell(data, bounds, i))
    decreases Measure(bounds, p, d)
  {
    var item := Cell(data, bounds, p);
    assert item != BigBoxLeft && item != BigBoxRight;
    if item != Empty {
      assert item in {Robot, Box};
      var q := Step(p, d);
      PushUnfolds(data, bounds, p, d);
      PushSingle(data, bounds, q, d);
      StepFacts(data, AfterMove(data, bounds, q, d).value, bounds, p, d);
    }
  }

  /** The robot is at `p`. */
  predicate RobotAt(data: seq<Item>, bounds: Index, p: Index)
    requires Fits(data, bounds)
  {
    Inside(bounds, p) && Cell(data, bounds, p) == Robot
  }

  /** One part 1 move never panics, keeps the robot under its own position,
      advances it exactly when the move is possible, and keeps the walls and
      the absence of big boxes. */
  lemma AttemptSingle(data: seq<Item>, bounds: Index, p: Index, d: GridDirection)
    requires Fits(data, bounds) && RobotAt(data, bounds, p) && Bordered(data, bounds) && NoBigBoxes(data)
    ensures Attempt(data, bounds, p, d).Some?
    ensures var (r, q) := Attempt(data, bounds, p, d).value;
      && Fits(r, bounds) && RobotAt(r, bounds, q) && Bordered(r, bounds) && NoBigBoxes(r) && WallsKept(data, r, bounds)
      && (CanMove(data, bounds, p, d) == Some(false) ==> r == data && q == p)
      && (CanMove(data, bounds, p, d) == Some(true) ==> q == Step(p, d))
  {
    CanMoveDefined(data, bounds, p, d);
    if CanMove(data, bounds, p, d) == Some(true) {
      PushSingle(data, bounds, p, d);
      Interior(data, bounds, p);
      var r := AfterMove(data, bounds, p, d).value;
      assert Bordered(r, bounds) by {
        forall i | Inside(bounds, i) && (i.row == 0 || i.row == bounds.row - 1 || i.column == 0 || i.column == bounds.column - 1)
          ensures Cell(r, bounds, i) == Wall
        {
          assert Cell(data, bounds, i) == Wall;
        }
      }
    }
  }

  /** A whole part 1 run never panics and keeps the warehouse's walls, its
      items and the absence of big boxes. */
  lemma {:induction false} SimulateSingle(data: seq<Item>, bounds: Index, p: Index, directions: seq<GridDirection>)
    requires Fits(data, bounds) && RobotAt(data, bounds, p) && Bordered(data, bounds) && NoBigBoxes(data)
    ensures Simulate(data, bounds, p, directions).Some?
    ensures var (r, q) := Simulate(data, bounds, p, directions).value;
      RobotAt(r, bounds, q) && Bordered(r, bounds) && NoBigBoxes(r) && WallsKept(data, r, bounds)
    decreases |directions|
  {
    if |directions| > 0 {
      AttemptSingle(data, bounds, p, directions[0]);
      var (data', q) := Attempt(data, bounds, p, directions[0]).value;
      SimulateSingle(data', bounds, q, directions[1..]);
    }
  }

  /* ---------------------------------------------------------------------------
     The warehouse changed in place
     ------------------------------------------------------------------------- */

  /** One unfolding of `AfterMove` once the pushed cells have been cleared. */
  lemma MoveUnfolds(data: seq<Item>, bounds: Index, p: Index, d: GridDirection, ns: seq<Index>, cleared: seq<Item>)
    requires Fits(data, bounds) && Inside(bounds, p) && Cell(data, bounds, p) != Empty
    requires NextPositions(data, bounds, p, d) == Some(ns)
    requires AfterMoveAll(data, bounds, ns, d, Measure(bounds, p, d)) == Some(cleared)
    ensures Fits(cleared, bounds)
    ensures AfterMove(data, bounds, p, d)
            == if Cell(data, bounds, p) in {BigBoxLeft, BigBoxRight} then AfterMoveBigBox(cleared, bounds, p, d)
               else AfterMoveSingle(cleared, bounds, p, d)
  {
  }

  /** `map_move` on the warehouse; `false` where the source panics (then nothing changed). */
  method MapMove(w: Map<Item>, from: Index, to: Index) returns (ok: bool)
    requires w.Valid()
    modifies w
    ensures w.Valid() && w.bounds == old(w.bounds)
    ensures ok <==> AfterMapMove(old(w.data), w.bounds, from, to).Some?
    ensures ok ==> w.data == AfterMapMove(old(w.data), w.bounds, from, to).value
    ensures !ok ==> w.data == old(w.data)
  {
    var target := w.Get(to);
    var item := w.Get(from);
    if target != Some(Empty) || item.None? {
      return false;
    }
    var _ := w.Set(from, Empty);
    var _ := w.Set(to, item.value);
    ok := true;
  }

  /** The map's own projection is the one the functions use. */
  lemma ProjectAgrees(w: Map<Item>, i: Index, d: GridDirection)
    ensures w.ProjectGridDirection(i, d) == Project(w.bounds, i, d)
  {
  }

  /** `move_single_item` on the warehouse. */
  method MoveSingleItem(w: Map<Item>, p: Index, d: GridDirection) returns (ok: bool)
    requires w.Valid()
    modifies w
    ensures w.Valid() && w.bounds == old(w.bounds)
    ensures ok <==> AfterMoveSingle(old(w.data), w.bounds, p, d).Some?
    ensures ok ==> w.data == AfterMoveSingle(old(w.data), w.bounds, p, d).value
  {
    var next := w.ProjectGridDirection(p, d);
    ProjectAgrees(w, p, d);
    if next.None? {
      return false;
    }
    assert AfterMoveSingle(w.data, w.bounds, p, d) == AfterMapMove(w.data, w.bounds, p, next.value);
    ok := MapMove(w, p, next.value);
  }

  /** `move_big_box` on the warehouse. */
  method MoveBigBox(w: Map<Item>, p: Index, d: GridDirection) returns (ok: bool)
    requires w.Valid()
    modifies w
    ensures w.Valid() && w.bounds == old(w.bounds)
    ensures ok <==> AfterMoveBigBox(old(w.data), w.bounds, p, d).Some?
    ensures ok ==> w.data == AfterMoveBigBox(old(w.data), w.bounds, p, d).value
  {
    var halves := BigBoxPositions(w.data, w.bounds, p);
    if halves.None? {
      return false;
    }
    var (l, r) := halves.value;
    if d == Right {
      ok := MoveSingleItem(w, r, d);
      if ok {
        ok := MoveSingleItem(w, l, d);
      }
    } else {
      ok := MoveSingleItem(w, l, d);
      if ok {
        ok := MoveSingleItem(w, r, d);
      }
    }
  }

  /** `move_item` on the warehouse, recursing into every pushed cell first. */
  method MoveItem(w: Map<Item>, p: Index, d: GridDirection) returns (ok: bool)
    requires w.Valid()
    modifies w
    ensures w.Valid() && w.bounds == old(w.bounds)
    ensures ok <==> AfterMove(old(w.data), w.bounds, p, d).Some?
    ensures ok ==> w.data == AfterMove(old(w.data), w.bounds, p, d).value
    decreases Measure(w.bounds, p, d), 1
  {
    var item := w.Get(p);
    if item.None? {
      return false;
    }
    if item.value == Empty {
      return true;
    }
    var next := NextPositions(w.data, w.bounds, p, d);
    if next.None? {
      return false;
    }
    var ns := next.value;
    ghost var data0 := w.data;
    ok := MoveAll(w, ns, d, Measure(w.bounds, p, d));
    if !ok {
      return;
    }
    ghost var cleared := w.data;
    MoveUnfolds(data0, w.bounds, p, d, ns, cleared);
    if item.value == BigBoxLeft || item.value == BigBoxRight {
      ok := MoveBigBox(w, p, d);
    } else {
      ok := MoveSingleItem(w, p, d);
    }
  }

  /** The `for_each(move_item)` over the pushed cells, stopping at the first failure. */
  method MoveAll(w: Map<Item>, ns: seq<Index>, d: GridDirection, bound: nat) returns (ok: bool)
    requires w.Valid()
    requires forall q :: q in ns ==> Measure(w.bounds, q, d) < bound
    modifies w
    ensures w.Valid() && w.bounds == old(w.bounds)
    ensures ok <==> AfterMoveAll(old(w.data), w.bounds, ns, d, bound).Some?
    ensures ok ==> w.data == AfterMoveAll(old(w.data), w.bounds, ns, d, bound).value
    decreases bound, 0
  {
    ghost var data0 := w.data;
    ok := true;
    var i := 0;
    while i < |ns|
      invariant 0 <= i <= |ns|
      invariant w.Valid() && w.bounds == old(w.bounds)
      invariant AfterMoveAll(data0, w.bounds, ns, d, bound) == AfterMoveAll(w.data, w.bounds, ns[i..], d, bound)
    {
      assert ns[i..][0] == ns[i] && ns[i..][1..] == ns[i + 1..];
      assert ns[i] in ns;
      ok := MoveItem(w, ns[i], d);
      if !ok {
        return;
      }
      i := i + 1;
    }
    assert ns[i..] == [];
  }

  class Robot {
    var position: Index

    constructor (position: Index)
      ensures this.position == position
    {
      this.position := position;
    }

    /** `attempt_move`: push when the check allows it, then step forward. */
    method AttemptMove(w: Map<Item>, d: GridDirection) returns (ok: bool)
      requires w.Valid()
      modifies this, w
      ensures w.Valid() && w.bounds == old(w.bounds)
      ensures ok <==> Attempt(old(w.data), w.bounds, old(position), d).Some?
      ensures ok ==> (w.data, position) == Attempt(old(w.data), w.bounds, old(position), d).value
      ensures old(CanMove(w.data, w.bounds, position, d)) == Some(false) ==> ok && w.data == old(w.data) && position == old(position)
      ensures ok && old(CanMove(w.data, w.bounds, position, d)) == Some(true) ==> position == Step(old(position), d)
    {
      ghost var data0, p0 := w.data, position;
      var can := CanMove(w.data, w.bounds, position, d);
      if can.None? {
        return false;
      }
      if !can.value {
        return true;
      }
      ok := MoveItem(w, position, d);
      if !ok {
        return;
      }
      ghost var moved := w.data;
      assert Attempt(data0, w.bounds, p0, d) ==
        (match Project(w.bounds, p0, d) case None => None case Some(q) => Some((moved, q)));
      var next := w.ProjectGridDirection(position, d);
      ProjectAgrees(w, position, d);
      if next.None? {
        return false;
      }
      position := next.value;
    }
  }

  /** The `for direction in directions` loop of both parts. */
  method Run(w: Map<Item>, robot: Robot, directions: seq<GridDirection>) returns (ok: bool)
    requires w.Valid()
    modifies w, robot
    ensures w.Valid() && w.bounds == old(w.bounds)
    ensures ok <==> Simulate(old(w.data), w.bounds, old(robot.position), directions).Some?
    ensures ok ==> (w.data, robot.position) == Simulate(old(w.data), w.bounds, old(robot.position), directions).value
  {
    var i := 0;
    while i < |directions|
      invariant 0 <= i <= |directions|
      invariant w.Valid() && w.bounds == old(w.bounds)
      invariant Simulate(old(w.data), w.bounds, old(robot.position), directions)
             == Simulate(w.data, w.bounds, robot.position, directions[i..])
    {
      assert directions[i..][0] == directions[i] && directions[i..][1..] == directions[i + 1..];
      ok := robot.AttemptMove(w, directions[i]);
      if !ok {
        return;
      }
      i := i + 1;
    }
    assert directions[i..] == [];
    ok := true;
  }

  /* ---------------------------------------------------------------------------
     Part 2: the doubled warehouse
     ------------------------------------------------------------------------- */

  /** The two cells one warehouse cell becomes in part 2. */
  function Widen(item: Item): (r: seq<Item>)
    ensures |r| == 2
  {
    match item
    case Robot => [Robot, Empty]
    case Box => [BigBoxLeft, BigBoxRight]
    case _ => [item, item]
  }

  /** A run of cells with every cell widened, laid end to end. */
  function WidenRow(row: seq<Item>): (r: seq<Item>)
    ensures |r| == 2 * |row|
  {
    if |row| == 0 then [] else Widen(row[0]) + WidenRow(row[1..])
  }

  /** Cell `j` of a run becomes cells `2j` and `2j + 1` of the widened run. */
  lemma {:induction false} WidenRowAt(row: seq<Item>, j: nat)
    requires j < |row|
    ensures WidenRow(row)[2 * j] == Widen(row[j])[0] && WidenRow(row)[2 * j + 1] == Widen(row[j])[1]
  {
    if j > 0 {
      WidenRowAt(row[1..], j - 1);
      assert WidenRow(row) == Widen(row[0]) + WidenRow(row[1..]);
    }
  }

  lemma {:induction false} WidenRowAppend(a: seq<Item>, b: seq<Item>)
    ensures WidenRow(a + b) == WidenRow(a) + WidenRow(b)
    decreases |a|
  {
    if |a| > 0 {
      WidenRowAppend(a[1..], b);
      assert (a + b)[1..] == a[1..] + b;
      calc {
        WidenRow(a + b);
        Widen(a[0]) + WidenRow(a[1..] + b);
        Widen(a[0]) + (WidenRow(a[1..]) + WidenRow(b));
        (Widen(a[0]) + WidenRow(a[1..])) + WidenRow(b);
      }
    } else {
      assert a + b == b;
    }
  }

  /** Widening every row and joining the rows widens the joined cells. */
  lemma {:induction false} FlattenWidened(rows: seq<seq<Item>>)
    ensures Flatten(seq(|rows|, i requires 0 <= i < |rows| => WidenRow(rows[i]))) == WidenRow(Flatten(rows))
    decreases |rows|
  {
    var widened := seq(|rows|, i requires 0 <= i < |rows| => WidenRow(rows[i]));
    if |rows| > 0 {
      FlattenWidened(rows[1..]);
      assert widened[1..] == seq(|rows[1..]|, i requires 0 <= i < |rows[1..]| => WidenRow(rows[1..][i]));
      WidenRowAppend(rows[0], Flatten(rows[1..]));
    }
  }

  /** `modify_warehouse`: every row widened, collected into a new map of twice
      the width. `None` where the source panics: a map without columns cannot
      be cut into rows, and one without rows cannot be collected. */
  method ModifyWarehouse(w: Map<Item>) returns (r: Option<Map<Item>>)
    requires w.Valid()
    ensures r.Some? <==> w.bounds.row > 0 && w.bounds.column > 0
    ensures r.Some? ==> fresh(r.value) && r.value.Valid()
    ensures r.Some? ==> r.value.bounds == Index(w.bounds.row, 2 * w.bounds.column) && r.value.data == WidenRow(w.data)
  {
    if w.bounds.column == 0 {
      return None;
    }
    var rows := w.RowsIter();
    ChunksShape(w.data, w.bounds.row, w.bounds.column);
    if |rows| == 0 {
      return None;
    }
    FlattenOfChunks(w.data, w.bounds.column);
    var widened := seq(|rows|, i requires 0 <= i < |rows| => WidenRow(rows[i]));
    FlattenWidened(rows);
    assert |widened[0]| == 2 * w.bounds.column;
    assert |Flatten(widened)| == |widened| * |widened[0]| by {
      assert |Flatten(widened)| == 2 * (w.bounds.row * w.bounds.column);
    }
    var m := new Map.FromRows(widened);
    r := Some(m);
  }

  /** The bounds of the widened warehouse. */
  function Wide(bounds: Index): Index {
    Index(bounds.row, 2 * bounds.column)
  }

  /** Cell `(r, c)` becomes cells `(r, 2c)` and `(r, 2c + 1)`. */
  lemma WidenCell(data: seq<Item>, bounds: Index, i: Index)
    requires Fits(data, bounds) && Inside(bounds, i)
    ensures Fits(WidenRow(data), Wide(bounds))
    ensures Inside(Wide(bounds), Index(i.row, 2 * i.column)) && Inside(Wide(bounds), Index(i.row, 2 * i.column + 1))
    ensures Cell(WidenRow(data), Wide(bounds), Index(i.row, 2 * i.column)) == Widen(Cell(data, bounds, i))[0]
    ensures Cell(WidenRow(data), Wide(bounds), Index(i.row, 2 * i.column + 1)) == Widen(Cell(data, bounds, i))[1]
  {
    Twice(bounds.row, bounds.column);
    Twice(i.row, bounds.column);
    var k := Slot(bounds, i);
    assert Slot(Wide(bounds), Index(i.row, 2 * i.column)) == 2 * k;
    assert Slot(Wide(bounds), Index(i.row, 2 * i.column + 1)) == 2 * k + 1;
    WidenRowAt(data, k);
  }

  lemma Twice(a: int, b: int)
    ensures a * (2 * b) == 2 * (a * b)
  {
  }

  /** Every cell of the widened warehouse comes from the cell at half its column. */
  lemma WideCell(data: seq<Item>, bounds: Index, j: Index)
    requires Fits(data, bounds) && Inside(Wide(bounds), j)
    ensures Fits(WidenRow(data), Wide(bounds)) && Inside(bounds, Index(j.row, j.column / 2))
    ensures Cell(WidenRow(data), Wide(bounds), j) == Widen(Cell(data, bounds, Index(j.row, j.column / 2)))[j.column % 2]
  {
    var i := Index(j.row, j.column / 2);
    WidenCell(data, bounds, i);
    assert j == Index(i.row, 2 * i.column) || j == Index(i.row, 2 * i.column + 1);
  }

  /** In a widened warehouse of single boxes a left half has its right half
      beside it and a right half its left half; a border cell comes from a
      border cell. */
  lemma WideNeighbours(data: seq<Item>, bounds: Index, j: Index)
    requires Fits(data, bounds) && NoBigBoxes(data) && Inside(Wide(bounds), j)
    ensures Fits(WidenRow(data), Wide(bounds))
    ensures Cell(WidenRow(data), Wide(bounds), j) == BigBoxLeft ==>
              Inside(Wide(bounds), Step(j, Right)) && Cell(WidenRow(data), Wide(bounds), Step(j, Right)) == BigBoxRight
    ensures Cell(WidenRow(data), Wide(bounds), j) == BigBoxRight ==>
              Inside(Wide(bounds), Step(j, Left)) && Cell(WidenRow(data), Wide(bounds), Step(j, Left)) == BigBoxLeft
    ensures Cell(data, bounds, Index(j.row, j.column / 2)) == Wall ==> Cell(WidenRow(data), Wide(bounds), j) == Wall
  {
    var i := Index(j.row, j.column / 2);
    WideCell(data, bounds, j);
    WidenCell(data, bounds, i);
    assert Cell(data, bounds, i) == data[Slot(bounds, i)];
  }

  /** Widening a walled warehouse of single boxes gives a walled warehouse
      whose big boxes are all paired, as `big_box_positions` relies on. */
  lemma WidenedPaired(data: seq<Item>, bounds: Index)
    requires Fits(data, bounds) && NoBigBoxes(data)
    ensures Fits(WidenRow(data), Wide(bounds)) && Paired(WidenRow(data), Wide(bounds))
    ensures Bordered(data, bounds) ==> Bordered(WidenRow(data), Wide(bounds))
  {
    var wide, wb := WidenRow(data), Wide(bounds);
    assert bounds.row * (2 * bounds.column) == 2 * (bounds.row * bounds.column);
    forall j | Inside(wb, j)
      ensures Cell(wide, wb, j) == BigBoxLeft ==> Inside(wb, Step(j, Right)) && Cell(wide, wb, Step(j, Right)) == BigBoxRight
      ensures Cell(wide, wb, j) == BigBoxRight ==> Inside(wb, Step(j, Left)) && Cell(wide, wb, Step(j, Left)) == BigBoxLeft
    {
      WideNeighbours(data, bounds, j);
    }
    if Bordered(data, bounds) {
      forall j | Inside(wb, j) && (j.row == 0 || j.row == wb.row - 1 || j.column == 0 || j.column == wb.column - 1)
        ensures Cell(wide, wb, j) == Wall
      {
        WideNeighbours(data, bounds, j);
        var i := Index(j.row, j.column / 2);
        assert Inside(bounds, i) && (i.row == 0 || i.row == bounds.row - 1 || i.column == 0 || i.column == bounds.column - 1);
      }
    }
  }

  /* ---------------------------------------------------------------------------
     GPS coordinates
     ------------------------------------------------------------------------- */

  /** The GPS coordinate of a cell. */
  function Gps(i: Index): int {
    100 * i.row + i.column
  }

  /** The cells the sum counts: a box, or the left half of a big box. */
  predicate Counted(item: Item) {
    item == Box || item == BigBoxLeft
  }

  /** The filtered sum over enumerated cells. */
  function GpsOf(cells: seq<(Index, Item)>): int {
    if |cells| == 0 then 0
    else (if Counted(cells[0].1) then Gps(cells[0].0) else 0) + GpsOf(cells[1..])
  }

  /** `calculate_gps_coordinates_sum`. */
  function CalculateGpsSum(w: Map<Item>): int
    requires w.Valid()
    reads w
  {
    GpsOf(w.Enumerate())
  }

  /** The indices holding counted items. */
  ghost function BoxCells(data: seq<Item>, bounds: Index): set<Index>
    requires Fits(data, bounds)
  {
    set r, c | 0 <= r < bounds.row && 0 <= c < bounds.column && Counted(Cell(data, bounds, Index(r, c))) :: Index(r, c)
  }

  ghost function CountedIndices(cells: seq<(Index, Item)>): set<Index> {
    set k | 0 <= k < |cells| && Counted(cells[k].1) :: cells[k].0
  }

  /** Over cells with distinct indices the filtered sum is the sum over the counted indices. */
  lemma {:induction false} GpsOfIsSetSum(cells: seq<(Index, Item)>)
    requires forall j, k :: 0 <= j < k < |cells| ==> cells[j].0 != cells[k].0
    ensures GpsOf(cells) == Sums.SetSum(CountedIndices(cells), Gps)
    decreases |cells|
  {
    if |cells| > 0 {
      var rest := cells[1..];
      GpsOfIsSetSum(rest);
      var s, t := CountedIndices(cells), CountedIndices(rest);
      assert t == s - {cells[0].0} by {
        forall x | x in t ensures x in s && x != cells[0].0 {
          var k :| 0 <= k < |rest| && Counted(rest[k].1) && x == rest[k].0;
          assert cells[k + 1] == rest[k];
        }
        forall x | x in s && x != cells[0].0 ensures x in t {
          var k :| 0 <= k < |cells| && Counted(cells[k].1) && x == cells[k].0;
          assert rest[k - 1] == cells[k];
        }
      }
      if Counted(cells[0].1) {
        Sums.SetSumRemove(s, Gps, cells[0].0);
      } else {
        assert s == t;
      }
    }
  }

  /** The enumerated indices are distinct and the counted ones are the box cells. */
  lemma EnumeratedBoxes(w: Map<Item>)
    requires w.Valid()
    ensures Fits(w.data, w.bounds)
    ensures forall j, k :: 0 <= j < k < |w.Enumerate()| ==> w.Enumerate()[j].0 != w.Enumerate()[k].0
    ensures CountedIndices(w.Enumerate()) == BoxCells(w.data, w.bounds)
  {
    EnumeratedDistinct(w);
    CountedAreBoxes(w);
    BoxesAreCounted(w);
  }

  /** No index is enumerated twice. */
  lemma EnumeratedDistinct(w: Map<Item>)
    requires w.Valid()
    ensures forall j, k :: 0 <= j < k < |w.Enumerate()| ==> w.Enumerate()[j].0 != w.Enumerate()[k].0
  {
    var e := w.Enumerate();
    forall j, k | 0 <= j < k < |e|
      ensures e[j].0 != e[k].0
    {
      assert w.InternalIndex(e[j].0) == Some(j) && w.InternalIndex(e[k].0) == Some(k);
    }
  }

  /** The enumeration pairs each in-bounds index with its cell. */
  lemma EnumeratedCell(w: Map<Item>, k: int)
    requires w.Valid() && 0 <= k < |w.data|
    ensures Fits(w.data, w.bounds)
    ensures Inside(w.bounds, w.Enumerate()[k].0)
    ensures Cell(w.data, w.bounds, w.Enumerate()[k].0) == w.Enumerate()[k].1
  {
    var x := w.Enumerate()[k].0;
    assert w.InternalIndex(x) == Some(k);
  }

  /** Every counted enumerated index is a box cell. */
  lemma CountedAreBoxes(w: Map<Item>)
    requires w.Valid()
    ensures Fits(w.data, w.bounds)
    ensures CountedIndices(w.Enumerate()) <= BoxCells(w.data, w.bounds)
  {
    var e := w.Enumerate();
    forall x | x in CountedIndices(e)
      ensures x in BoxCells(w.data, w.bounds)
    {
      var k :| 0 <= k < |e| && Counted(e[k].1) && x == e[k].0;
      EnumeratedCell(w, k);
      assert x == Index(x.row, x.column);
    }
  }

  /** Every box cell is enumerated and counted. */
  lemma BoxesAreCounted(w: Map<Item>)
    requires w.Valid()
    ensures Fits(w.data, w.bounds)
    ensures BoxCells(w.data, w.bounds) <= CountedIndices(w.Enumerate())
  {
    var e := w.Enumerate();
    forall x | x in BoxCells(w.data, w.bounds)
      ensures x in CountedIndices(e)
    {
      w.EnumerateIsRowMajor(0, 0, x);
      var k := w.InternalIndex(x).value;
      EnumeratedCell(w, k);
      assert e[k].0 == x && Counted(e[k].1);
    }
  }

  /** The GPS sum is the sum of `100 * row + column` over the cells holding a
      box or the left half of a big box, and it is never negative. */
  lemma GpsIsBoxSum(w: Map<Item>)
    requires w.Valid()
    ensures Fits(w.data, w.bounds)
    ensures CalculateGpsSum(w) == Sums.SetSum(BoxCells(w.data, w.bounds), Gps)
    ensures CalculateGpsSum(w) >= 0
  {
    EnumeratedBoxes(w);
    GpsOfIsSetSum(w.Enumerate());
    Sums.SetSumLower(BoxCells(w.data, w.bounds), Gps, 0);
  }

  /* ---------------------------------------------------------------------------
     Reading the puzzle input
     ------------------------------------------------------------------------- */

  /** One map line, every character through `try_from(..).unwrap()`. */
  function ParseRow(line: string): (r: Option<seq<Item>>)
    ensures r.Some? <==> forall j :: 0 <= j < |line| ==> ItemFromChar(line[j]).Some?
    ensures r.Some? ==> |r.value| == |line| && forall j :: 0 <= j < |line| ==> ItemFromChar(line[j]) == Some(r.value[j])
  {
    if |line| == 0 then Some([])
    else
      match (ItemFromChar(line[0]), ParseRow(line[1..]))
      case (Some(x), Some(rest)) => Some([x] + rest)
      case _ => None
  }

  function ParseRows(lines: seq<string>): (r: Option<seq<seq<Item>>>)
    ensures r.Some? <==> forall i :: 0 <= i < |lines| ==> ParseRow(lines[i]).Some?
    ensures r.Some? ==> |r.value| == |lines| && forall i :: 0 <= i < |lines| ==> Some(r.value[i]) == ParseRow(lines[i])
  {
    if |lines| == 0 then Some([])
    else
      match (ParseRow(lines[0]), ParseRows(lines[1..]))
      case (Some(x), Some(rest)) => Some([x] + rest)
      case _ => None
  }

  /** The move characters, every one through `GridDirection::try_from(..).unwrap()`. */
  function ParseMoves(s: string): (r: Option<seq<GridDirection>>)
    ensures r.Some? <==> forall j :: 0 <= j < |s| ==> TryFromChar(s[j]).Ok?
    ensures r.Some? ==> |r.value| == |s| && forall j :: 0 <= j < |s| ==> TryFromChar(s[j]) == Ok(r.value[j])
  {
    if |s| == 0 then Some([])
    else
      match (TryFromChar(s[0]), ParseMoves(s[1..]))
      case (Ok(x), Some(rest)) => Some([x] + rest)
      case _ => None
  }

  /** Printed moves read back as the same moves. */
  lemma MovesRoundTrip(moves: seq<GridDirection>)
    ensures ParseMoves(seq(|moves|, j requires 0 <= j < |moves| => ToChar(moves[j]))) == Some(moves)
  {
    var s := seq(|moves|, j requires 0 <= j < |moves| => ToChar(moves[j]));
    forall j | 0 <= j < |s|
      ensures TryFromChar(s[j]) == Ok(moves[j])
    {
      CharRoundTrip(moves[j], s[j]);
    }
    var r := ParseMoves(s).value;
    assert forall j :: 0 <= j < |s| ==> r[j] == moves[j] by {
      forall j | 0 <= j < |s|
        ensures r[j] == moves[j]
      {
        assert TryFromChar(s[j]) == Ok(r[j]);
      }
    }
    assert |r| == |moves|;
    assert r == moves;
  }

  /** `parse_input`: the map is the text up to and including the first newline
      of the first blank line, the moves are the characters of every line after
      it. `None` where the source panics (no blank line, an unknown character). */
  function ParseInput(input: string): (r: Option<(seq<seq<Item>>, seq<GridDirection>)>)
    ensures r.Some? ==> Find(input, "\n\n") < |input|
    ensures r.Some? ==> Some(r.value.0) == ParseRows(Lines(input[..Find(input, "\n\n") + 1]))
    ensures r.Some? ==> Some(r.value.1) == ParseMoves(Flatten(Lines(input[Find(input, "\n\n") + 2..])))
  {
    var k := Find(input, "\n\n");
    if k == |input| then None
    else
      match (ParseRows(Lines(input[..k + 1])), ParseMoves(Flatten(Lines(input[k + 2..]))))
      case (Some(rows), Some(moves)) => Some((rows, moves))
      case _ => None
  }

  lemma {:induction false} NoBigBoxesFlatten(rows: seq<seq<Item>>)
    requires forall i :: 0 <= i < |rows| ==> NoBigBoxes(rows[i])
    ensures NoBigBoxes(Flatten(rows))
    decreases |rows|
  {
    if |rows| > 0 {
      NoBigBoxesFlatten(rows[1..]);
      assert NoBigBoxes(rows[0]);
    }
  }

  /** The input characters never make a big box. */
  lemma ParsedNoBigBoxes(lines: seq<string>)
    requires ParseRows(lines).Some?
    ensures NoBigBoxes(Flatten(ParseRows(lines).value))
  {
    var rows := ParseRows(lines).value;
    forall i | 0 <= i < |rows|
      ensures NoBigBoxes(rows[i])
    {
      var row := ParseRow(lines[i]).value;
      assert forall j :: 0 <= j < |row| ==> ItemFromChar(lines[i][j]) == Some(row[j]);
    }
    NoBigBoxesFlatten(rows);
  }

  /* ---------------------------------------------------------------------------
     The two parts
     ------------------------------------------------------------------------- */

  predicate IsRobot(item: Item) {
    item == Robot
  }

  /** What both parts compute once the warehouse is built: find the robot,
      run every move, sum the GPS coordinates. `None` where the source panics. */
  ghost function Outcome(data: seq<Item>, bounds: Index, moves: seq<GridDirection>): Option<int>
    requires Fits(data, bounds)
  {
    var k := Position(data, IsRobot);
    if k == |data| then None
    else
      SplitInRange(k, bounds.row, bounds.column);
      match Simulate(data, bounds, Index(k / bounds.column, k % bounds.column), moves)
      case None => None
      case Some((final, _)) => Some(Sums.SetSum(BoxCells(final, bounds), Gps))
  }

  /** The shared body of `part1` and `part2` on a built warehouse. */
  method Walk(w: Map<Item>, moves: seq<GridDirection>) returns (r: Option<int>)
    requires w.Valid()
    modifies w
    ensures r == Outcome(old(w.data), old(w.bounds), moves)
    ensures r.Some? ==> r.value >= 0
  {
    var start := w.Find(IsRobot);
    if start.None? {
      return None;
    }
    var robot := new Robot(start.value);
    var ok := Run(w, robot, moves);
    if !ok {
      return None;
    }
    GpsIsBoxSum(w);
    r := Some(CalculateGpsSum(w));
  }

  ghost function Part1Answer(input: string): Option<int> {
    match ParseInput(input)
    case None => None
    case Some((rows, moves)) =>
      match Construct(rows)
      case Err(_) => None
      case Ok((data, bounds)) => Outcome(data, bounds, moves)
  }

  ghost function Part2Answer(input: string): Option<int> {
    match ParseInput(input)
    case None => None
    case Some((rows, moves)) =>
      match Construct(rows)
      case Err(_) => None
      case Ok((data, bounds)) =>
        if bounds.row == 0 || bounds.column == 0 then None
        else
          WidenCell(data, bounds, Index(0, 0));
          Outcome(WidenRow(data), Wide(bounds), moves)
  }

  /** `part1`: the GPS sum after the robot's moves, as text. */
  method Part1(input: string) returns (r: Option<string>)
    ensures r.Some? <==> Part1Answer(input).Some?
    ensures r.Some? ==> Part1Answer(input).value >= 0 && r.value == DecimalString(Part1Answer(input).value)
  {
    var parsed := ParseInput(input);
    if parsed.None? {
      return None;
    }
    var (rows, moves) := parsed.value;
    if Construct(rows).Err? {
      return None;
    }
    var w := new Map.FromRows(rows);
    var total := Walk(w, moves);
    if total.None? {
      return None;
    }
    r := Some(DecimalString(total.value));
  }

  /** `part2`: the same on the doubled warehouse. */
  method Part2(input: string) returns (r: Option<string>)
    ensures r.Some? <==> Part2Answer(input).Some?
    ensures r.Some? ==> Part2Answer(input).value >= 0 && r.value == DecimalString(Part2Answer(input).value)
  {
    var parsed := ParseInput(input);
    if parsed.None? {
      return None;
    }
    var (rows, moves) := parsed.value;
    if Construct(rows).Err? {
      return None;
    }
    var narrow := new Map.FromRows(rows);
    var wide := ModifyWarehouse(narrow);
    if wide.None? {
      return None;
    }
    var total := Walk(wide.value, moves);
    if total.None? {
      return None;
    }
    r := Some(DecimalString(total.value));
  }

  /** Part 1 never panics on a walled warehouse that holds a robot: every
      move succeeds whatever the moves are. */
  lemma Part1Succeeds(input: string)
    requires ParseInput(input).Some? && Construct(ParseInput(input).value.0).Ok?
    requires var (data, bounds) := Construct(ParseInput(input).value.0).value;
      Fits(data, bounds) && Bordered(data, bounds) && Robot in data
    ensures Part1Answer(input).Some?
  {
    var (rows, moves) := ParseInput(input).value;
    var (data, bounds) := Construct(rows).value;
    var k := Find(input, "\n\n");
    ParsedNoBigBoxes(Lines(input[..k + 1]));
    var i := Position(data, IsRobot);
    SplitInRange(i, bounds.row, bounds.column);
    var start := Index(i / bounds.column, i % bounds.column);
    assert Slot(bounds, start) == i;
    SimulateSingle(data, bounds, start, moves);
  }
}
