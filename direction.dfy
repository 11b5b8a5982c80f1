/**
 * The second direction module of the shared kit: a `GridDirection` with offsets
 * and character conversions, and the `CompassDirection` used by the grid
 * puzzles, with left and right turns.
 */
module Direction {
  import opened Wrappers
  import opened GridIndex

  datatype GridDirection = Up | Down | Left | Right

  datatype CompassDirection = North | East | South | West

  function GridOffset(d: GridDirection): (o: Index)
    ensures Abs(o.row) + Abs(o.column) == 1
  {
    match d
    case Up => Index(-1, 0)
    case Down => Index(1, 0)
    case Left => Index(0, -1)
    case Right => Index(0, 1)
  }

  function TryFromChar(c: char): (r: Result<GridDirection, string>)
    ensures r.Ok? <==> c in {'^', 'v', '<', '>'}
  {
    match c
    case '^' => Ok(Up)
    case 'v' => Ok(Down)
    case '<' => Ok(Left)
    case '>' => Ok(Right)
    case _ => Err("Invalid GridDirection character")
  }

  function ToChar(d: GridDirection): char {
    match d
    case Up => '^'
    case Down => 'v'
    case Left => '<'
    case Right => '>'
  }

  function TurnLeft(d: CompassDirection): CompassDirection {
    match d
    case North => West
    case West => South
    case South => East
    case East => North
  }

  function TurnRight(d: CompassDirection): CompassDirection {
    match d
    case North => East
    case East => South
    case South => West
    case West => North
  }

  function CompassOffset(d: CompassDirection): (o: Index)
    ensures Abs(o.row) + Abs(o.column) == 1
  {
    match d
    case North => Index(-1, 0)
    case South => Index(1, 0)
    case East => Index(0, 1)
    case West => Index(0, -1)
  }

  /** The grid direction pointing the same way as a compass direction. */
  function AsGrid(d: CompassDirection): GridDirection {
    match d
    case North => Up
    case South => Down
    case East => Right
    case West => Left
  }

  /** The character conversions round-trip over `^ v < >`. */
  lemma CharRoundTrip(d: GridDirection, c: char)
    ensures TryFromChar(ToChar(d)) == Ok(d)
    ensures TryFromChar(c).Ok? ==> ToChar(TryFromChar(c).value) == c
  {
  }

  /** Left and right turns undo each other, four of either is the identity,
      and two of either reverse the offset. */
  lemma TurnCycle(d: CompassDirection)
    ensures TurnLeft(TurnRight(d)) == d && TurnRight(TurnLeft(d)) == d
    ensures TurnRight(TurnRight(TurnRight(TurnRight(d)))) == d
    ensures TurnLeft(TurnLeft(TurnLeft(TurnLeft(d)))) == d
    ensures TurnRight(d) != d && TurnRight(TurnRight(d)) != d
    ensures CompassOffset(TurnRight(TurnRight(d))) == Neg(CompassOffset(d))
  {
  }

  /** Compass offsets coincide with grid offsets: North is Up, South Down, East Right, West Left. */
  lemma CompassMatchesGrid(d: CompassDirection)
    ensures CompassOffset(d) == GridOffset(AsGrid(d))
  {
  }

  /** A right turn rotates the offset (r, c) to (c, -r). */
  lemma TurnRightRotatesOffset(d: CompassDirection)
    ensures CompassOffset(TurnRight(d)) == Index(CompassOffset(d).column, -CompassOffset(d).row)
  {
  }
}
