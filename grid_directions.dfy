/**
 * The four grid directions of the shared grid kit: rotation, unit offsets and
 * the `^ v < >` character conversions.
 */
module GridDirections {
  import opened Wrappers
  import opened GridIndex

  datatype GridDirection = Up | Down | Left | Right

  function TurnClockwise(d: GridDirection): GridDirection {
    match d
    case Up => Right
    case Right => Down
    case Down => Left
    case Left => Up
  }

  function TurnCounterclockwise(d: GridDirection): GridDirection {
    match d
    case Up => Left
    case Left => Down
    case Down => Right
    case Right => Up
  }

  function TurnRight(d: GridDirection): (r: GridDirection)
    ensures r == TurnClockwise(d)
  {
    TurnClockwise(d)
  }

  function TurnLeft(d: GridDirection): (r: GridDirection)
    ensures r == TurnCounterclockwise(d)
  {
    TurnCounterclockwise(d)
  }

  /** The `AnyDirection::offset` of a grid direction. */
  function Offset(d: GridDirection): (o: Index)
    ensures Abs(o.row) + Abs(o.column) == 1
  {
    match d
    case Up => Index(-1, 0)
    case Down => Index(1, 0)
    case Left => Index(0, -1)
    case Right => Index(0, 1)
  }

  function Opposite(d: GridDirection): GridDirection {
    TurnClockwise(TurnClockwise(d))
  }

  function TryFromChar(c: char): (r: Result<GridDirection, string>)
    ensures r.Ok? <==> c in {'^', 'v', '<', '>'}
  {
    match c
    case '^' => Ok(Up)
    case 'v' => Ok(Down)
    case '<' => Ok(Left)
    case '>' => Ok(Right)
    case _ => Err("Invalid GridDirection character")
  }

  function ToChar(d: GridDirection): char {
    match d
    case Up => '^'
    case Down => 'v'
    case Left => '<'
    case Right => '>'
  }

  function Repeat(f: GridDirection -> GridDirection, n: nat, d: GridDirection): GridDirection {
    if n == 0 then d else f(Repeat(f, n - 1, d))
  }

  /** Turning clockwise cycles Up, Right, Down, Left; four turns are the identity,
      and no fewer turns are. */
  lemma ClockwiseCycle(d: GridDirection)
    ensures Repeat(TurnClockwise, 4, d) == d
    ensures Repeat(TurnCounterclockwise, 4, d) == d
    ensures forall n :: 1 <= n < 4 ==> Repeat(TurnClockwise, n, d) != d
  {
    assert Repeat(TurnClockwise, 1, d) == TurnClockwise(d);
    assert Repeat(TurnClockwise, 2, d) == TurnClockwise(TurnClockwise(d));
    assert Repeat(TurnClockwise, 3, d) == TurnClockwise(TurnClockwise(TurnClockwise(d)));
  }

  /** Counterclockwise is the inverse of clockwise, on both sides. */
  lemma CounterclockwiseIsInverse(d: GridDirection)
    ensures TurnCounterclockwise(TurnClockwise(d)) == d
    ensures TurnClockwise(TurnCounterclockwise(d)) == d
  {
  }

  /** Opposite directions have negated offsets, and a clockwise turn rotates the
      offset (r, c) to (c, -r). */
  lemma OffsetGeometry(d: GridDirection)
    ensures Offset(Opposite(d)) == Neg(Offset(d))
    ensures Offset(TurnClockwise(d)) == Index(Offset(d).column, -Offset(d).row)
    ensures Offset(TurnCounterclockwise(d)) == Index(-Offset(d).column, Offset(d).row)
  {
  }

  /** The character conversions are inverse to each other. */
  lemma CharRoundTrip(d: GridDirection, c: char)
    ensures TryFromChar(ToChar(d)) == Ok(d)
    ensures TryFromChar(c).Ok? ==> ToChar(TryFromChar(c).value) == c
  {
  }

  /** Distinct directions have distinct offsets. */
  lemma OffsetInjective(d: GridDirection, e: GridDirection)
    ensures Offset(d) == Offset(e) ==> d == e
  {
  }
}
