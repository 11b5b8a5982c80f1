/**
 * 2024 day 21, Keypad Conundrum: a code is typed on a numeric keypad by a
 * robot, which is steered from a directional keypad by another robot, and so
 * on up a chain of keypads. Each keypad turns the buttons it must press into
 * the arrow-and-activate moves its robot makes. The complexity of a code is
 * its numeric part times the number of moves at the top of the chain; part 1
 * builds the moves through two directional keypads, part 2 only counts them
 * through twenty-five, caching the count per pair of buttons.
 */
module Day21 {
  import opened Wrappers
  import opened Text

  /** (row, column) on a keypad, rows counted downwards. */
  type Position = (int, int)
  type Button = char

  datatype KeypadType = NumPad | DPad

  datatype Move = Up | Down | Left | Right | Activate

  /** `numeric_keys`: 7 8 9 / 4 5 6 / 1 2 3 / gap 0 A, the gap listed as 'X'. */
  const NumericKeys: map<Button, Position> := map[
    '7' := (0, 0), '8' := (0, 1), '9' := (0, 2),
    '4' := (1, 0), '5' := (1, 1), '6' := (1, 2),
    '1' := (2, 0), '2' := (2, 1), '3' := (2, 2),
    'X' := (3, 0), '0' := (3, 1), 'A' := (3, 2)]

  /** `dpad_keys`: gap ^ A / < v >, the gap listed as 'X'. */
  const DPadKeys: map<Button, Position> := map[
    'X' := (0, 0), '^' := (0, 1), 'A' := (0, 2),
    '<' := (1, 0), 'v' := (1, 1), '>' := (1, 2)]

  const NumericGap: Position := (3, 0)
  const DPadGap: Position := (0, 0)

  function Keys(keypad: KeypadType): map<Button, Position> {
    if keypad == NumPad then NumericKeys else DPadKeys
  }

  /*------------------------------------------------------------------------
    Moves and their characters
  ------------------------------------------------------------------------*/

  /** `char::from(Move)`. */
  function MoveChar(m: Move): (c: char)
    ensures c in DPadKeys
  {
    match m
    case Up => '^'
    case Down => 'v'
    case Left => '<'
    case Right => '>'
    case Activate => 'A'
  }

  /** `Move::from(char)`; None where the source panics. */
  function CharMove(c: char): Option<Move> {
    if c == '^' then Some(Up)
    else if c == 'v' then Some(Down)
    else if c == '<' then Some(Left)
    else if c == '>' then Some(Right)
    else if c == 'A' then Some(Activate)
    else None
  }

  /** Every move survives the trip to a character and back. */
  lemma MoveCharRoundTrip(m: Move)
    ensures CharMove(MoveChar(m)) == Some(m)
  {
  }

  /** A character converts to a move exactly when it is a directional key other than
      the gap, and the move converts back to the same character. */
  lemma CharMoveRoundTrip(c: char)
    ensures CharMove(c).Some? <==> c in DPadKeys && c != 'X'
    ensures CharMove(c).Some? ==> MoveChar(CharMove(c).value) == c
  {
  }

  function Chars(moves: seq<Move>): (s: seq<char>)
    ensures |s| == |moves|
    ensures forall i :: 0 <= i < |s| ==> s[i] in DPadKeys
  {
    seq(|moves|, i requires 0 <= i < |moves| => MoveChar(moves[i]))
  }

  /** The robot's arm after one move; activating does not move it. */
  function Shift(p: Position, m: Move): Position {
    match m
    case Up => (p.0 - 1, p.1)
    case Down => (p.0 + 1, p.1)
    case Left => (p.0, p.1 - 1)
    case Right => (p.0, p.1 + 1)
    case Activate => p
  }

  /** Where the arm ends after a sequence of moves. */
  function Walk(p: Position, moves: seq<Move>): Position
    decreases |moves|
  {
    if moves == [] then p else Walk(Shift(p, moves[0]), moves[1..])
  }

  /** The arm never points at `gap` while making the moves, from `p` on. */
  predicate Avoids(p: Position, moves: seq<Move>, gap: Position)
    decreases |moves|
  {
    p != gap && (moves == [] || Avoids(Shift(p, moves[0]), moves[1..], gap))
  }

  /** `n` copies of a move (none when `n` is not positive). */
  function Repeat(m: Move, n: int): (r: seq<Move>)
    ensures |r| == if n > 0 then n else 0
    decreases n
  {
    if n <= 0 then [] else [m] + Repeat(m, n - 1)
  }

  /** `g` lies in the axis-aligned box spanned by `a` and `b`; for two points
      in a row or a column, on the segment between them. */
  predicate OnSegment(a: Position, b: Position, g: Position) {
    (if a.0 <= b.0 then a.0 <= g.0 <= b.0 else b.0 <= g.0 <= a.0) &&
    (if a.1 <= b.1 then a.1 <= g.1 <= b.1 else b.1 <= g.1 <= a.1)
  }

  function Min(a: int, b: int): int { if a <= b then a else b }
  function Max(a: int, b: int): int { if a >= b then a else b }
  function Abs(a: int): nat { if a >= 0 then a else -a }

  /*------------------------------------------------------------------------
    The two move strategies
  ------------------------------------------------------------------------*/

  /** The move `left_up_down_right` makes from `c` towards `e`. */
  function LeftStep(c: Position, e: Position): Move {
    if c.1 > e.1 then Left else if c.0 > e.0 then Up else if c.0 < e.0 then Down else Right
  }

  /** The move `right_down_up_left` makes from `c` towards `e`. */
  function RightStep(c: Position, e: Position): Move {
    if c.1 < e.1 then Right else if c.0 < e.0 then Down else if c.0 > e.0 then Up else Left
  }

  /** The moves `left_up_down_right`'s loop makes, without the final Activate. */
  function LeftFirstPath(c: Position, e: Position): seq<Move>
    decreases Abs(c.0 - e.0) + Abs(c.1 - e.1)
  {
    if c == e then [] else [LeftStep(c, e)] + LeftFirstPath(Shift(c, LeftStep(c, e)), e)
  }

  /** The moves `right_down_up_left`'s loop makes, without the final Activate. */
  function RightFirstPath(c: Position, e: Position): seq<Move>
    decreases Abs(c.0 - e.0) + Abs(c.1 - e.1)
  {
    if c == e then [] else [RightStep(c, e)] + RightFirstPath(Shift(c, RightStep(c, e)), e)
  }

  /** What `left_up_down_right` returns. */
  function LeftFirst(s: Position, e: Position): (r: seq<Move>)
    ensures |r| > 0 && r[|r| - 1] == Activate
  {
    LeftFirstPath(s, e) + [Activate]
  }

  /** What `right_down_up_left` returns. */
  function RightFirst(s: Position, e: Position): (r: seq<Move>)
    ensures |r| > 0 && r[|r| - 1] == Activate
  {
    RightFirstPath(s, e) + [Activate]
  }

  lemma RepeatStep(m: Move, n: int)
    requires n > 0
    ensures Repeat(m, n) == [m] + Repeat(m, n - 1)
  {
  }

  /** The Up or Down moves from one row to another. */
  function Vertical(from: int, to: int): seq<Move> {
    if from > to then Repeat(Up, from - to) else Repeat(Down, to - from)
  }

  lemma VerticalStep(from: int, to: int)
    requires from != to
    ensures Vertical(from, to) == [if from > to then Up else Down] + Vertical(if from > to then from - 1 else from + 1, to)
  {
    if from > to {
      RepeatStep(Up, from - to);
    } else {
      RepeatStep(Down, to - from);
    }
  }

  /** Left of the end column, the left-first moves start with all the Left moves. */
  lemma {:induction false} LeftFirstPathLefts(c: Position, e: Position)
    requires c.1 >= e.1
    ensures LeftFirstPath(c, e) == Repeat(Left, c.1 - e.1) + LeftFirstPath((c.0, e.1), e)
    decreases c.1 - e.1
  {
    if c.1 > e.1 {
      RepeatStep(Left, c.1 - e.1);
      LeftFirstPathLefts((c.0, c.1 - 1), e);
      ConcatAssociates([Left], Repeat(Left, c.1 - 1 - e.1), LeftFirstPath((c.0, e.1), e));
    }
  }

  /** Not right of the end column, the left-first moves go on with the Up or Down moves. */
  lemma {:induction false} LeftFirstPathVerticals(c: Position, e: Position)
    requires c.1 <= e.1
    ensures LeftFirstPath(c, e) == Vertical(c.0, e.0) + LeftFirstPath((e.0, c.1), e)
    decreases Abs(c.0 - e.0)
  {
    if c.0 != e.0 {
      VerticalStep(c.0, e.0);
      var next := (if c.0 > e.0 then c.0 - 1 else c.0 + 1, c.1);
      LeftFirstPathVerticals(next, e);
      ConcatAssociates([LeftStep(c, e)], Vertical(next.0, e.0), LeftFirstPath((e.0, c.1), e));
    }
  }

  /** On the end row, not right of the end, the left-first moves end with all the Right moves. */
  lemma {:induction false} LeftFirstPathRights(c: Position, e: Position)
    requires c.0 == e.0 && c.1 <= e.1
    ensures LeftFirstPath(c, e) == Repeat(Right, e.1 - c.1)
    decreases e.1 - c.1
  {
    if c.1 < e.1 {
      RepeatStep(Right, e.1 - c.1);
      LeftFirstPathRights((c.0, c.1 + 1), e);
    }
  }

  /** The left-first moves are all the Left moves, then the Up or Down
      moves, then all the Right moves. */
  lemma LeftFirstPathShape(c: Position, e: Position)
    ensures LeftFirstPath(c, e) ==
      Repeat(Left, c.1 - e.1) + Vertical(c.0, e.0) + Repeat(Right, e.1 - c.1)
  {
    var v := Vertical(c.0, e.0);
    if c.1 > e.1 {
      LeftFirstPathLefts(c, e);
      LeftFirstPathVerticals((c.0, e.1), e);
      assert LeftFirstPath((e.0, e.1), e) == [] && Repeat(Right, e.1 - c.1) == [];
      assert v + [] == v;
    } else {
      LeftFirstPathVerticals(c, e);
      LeftFirstPathRights((e.0, c.1), e);
      assert Repeat(Left, c.1 - e.1) == [];
      assert [] + v == v;
    }
  }

  /** Right of the end column, the right-first moves start with all the Right moves. */
  lemma {:induction false} RightFirstPathRights(c: Position, e: Position)
    requires c.1 <= e.1
    ensures RightFirstPath(c, e) == Repeat(Right, e.1 - c.1) + RightFirstPath((c.0, e.1), e)
    decreases e.1 - c.1
  {
    if c.1 < e.1 {
      RepeatStep(Right, e.1 - c.1);
      RightFirstPathRights((c.0, c.1 + 1), e);
      ConcatAssociates([Right], Repeat(Right, e.1 - c.1 - 1), RightFirstPath((c.0, e.1), e));
    }
  }

  /** Not left of the end column, the right-first moves go on with the Down or Up moves. */
  lemma {:induction false} RightFirstPathVerticals(c: Position, e: Position)
    requires c.1 >= e.1
    ensures RightFirstPath(c, e) == Vertical(c.0, e.0) + RightFirstPath((e.0, c.1), e)
    decreases Abs(c.0 - e.0)
  {
    if c.0 != e.0 {
      VerticalStep(c.0, e.0);
      var next := (if c.0 > e.0 then c.0 - 1 else c.0 + 1, c.1);
      RightFirstPathVerticals(next, e);
      ConcatAssociates([RightStep(c, e)], Vertical(next.0, e.0), RightFirstPath((e.0, c.1), e));
    }
  }

  /** On the end row, not left of the end, the right-first moves end with all the Left moves. */
  lemma {:induction false} RightFirstPathLefts(c: Position, e: Position)
    requires c.0 == e.0 && c.1 >= e.1
    ensures RightFirstPath(c, e) == Repeat(Left, c.1 - e.1)
    decreases c.1 - e.1
  {
    if c.1 > e.1 {
      RepeatStep(Left, c.1 - e.1);
      RightFirstPathLefts((c.0, c.1 - 1), e);
    }
  }

  /** The right-first moves are all the Right moves, then the Down or Up
      moves, then all the Left moves. */
  lemma RightFirstPathShape(c: Position, e: Position)
    ensures RightFirstPath(c, e) ==
      Repeat(Right, e.1 - c.1) + Vertical(c.0, e.0) + Repeat(Left, c.1 - e.1)
  {
    var v := Vertical(c.0, e.0);
    if c.1 < e.1 {
      RightFirstPathRights(c, e);
      RightFirstPathVerticals((c.0, e.1), e);
      assert RightFirstPath((e.0, e.1), e) == [] && Repeat(Left, c.1 - e.1) == [];
      assert v + [] == v;
    } else {
      RightFirstPathVerticals(c, e);
      RightFirstPathLefts((e.0, c.1), e);
      assert Repeat(Right, e.1 - c.1) == [];
      assert [] + v == v;
    }
  }

  lemma ConcatAssociates<T>(a: seq<T>, b: seq<T>, c: seq<T>)
    ensures a + (b + c) == (a + b) + c
  {
  }

  /** `left_up_down_right`: step towards the end, preferring Left, then Up,
      then Down, then Right, and press Activate on arrival. */
  method LeftUpDownRight(start: Position, end: Position) returns (moves: seq<Move>)
    ensures moves == LeftFirst(start, end)
  {
    moves := [];
    var current := start;
    while current != end
      invariant moves + LeftFirstPath(current, end) == LeftFirstPath(start, end)
      decreases Abs(current.0 - end.0) + Abs(current.1 - end.1)
    {
      ghost var rest, previous, step := moves, current, LeftStep(current, end);
      if current.1 > end.1 {
        moves := moves + [Left];
        current := (current.0, current.1 - 1);
      } else if current.0 > end.0 {
        moves := moves + [Up];
        current := (current.0 - 1, current.1);
      } else if current.0 < end.0 {
        moves := moves + [Down];
        current := (current.0 + 1, current.1);
      } else {
        moves := moves + [Right];
        current := (current.0, current.1 + 1);
      }
      assert moves == rest + [step] && current == Shift(previous, step);
      assert LeftFirstPath(previous, end) == [step] + LeftFirstPath(current, end);
      ConcatAssociates(rest, [step], LeftFirstPath(current, end));
    }
    assert LeftFirstPath(end, end) == [];
    moves := moves + [Activate];
  }

  /** `right_down_up_left`: step towards the end, preferring Right, then Down,
      then Up, then Left, and press Activate on arrival. */
  method RightDownUpLeft(start: Position, end: Position) returns (moves: seq<Move>)
    ensures moves == RightFirst(start, end)
  {
    moves := [];
    var current := start;
    while current != end
      invariant moves + RightFirstPath(current, end) == RightFirstPath(start, end)
      decreases Abs(current.0 - end.0) + Abs(current.1 - end.1)
    {
      ghost var rest, previous, step := moves, current, RightStep(current, end);
      if current.1 < end.1 {
        moves := moves + [Right];
        current := (current.0, current.1 + 1);
      } else if current.0 < end.0 {
        moves := moves + [Down];
        current := (current.0 + 1, current.1);
      } else if current.0 > end.0 {
        moves := moves + [Up];
        current := (current.0 - 1, current.1);
      } else {
        moves := moves + [Left];
        current := (current.0, current.1 - 1);
      }
      assert moves == rest + [step] && current == Shift(previous, step);
      assert RightFirstPath(previous, end) == [step] + RightFirstPath(current, end);
      ConcatAssociates(rest, [step], RightFirstPath(current, end));
    }
    assert RightFirstPath(end, end) == [];
    moves := moves + [Activate];
  }

  /*------------------------------------------------------------------------
    Where the strategies lead, and what they avoid
  ------------------------------------------------------------------------*/

  lemma {:induction false} WalkAppend(p: Position, a: seq<Move>, b: seq<Move>)
    ensures Walk(p, a + b) == Walk(Walk(p, a), b)
    decreases |a|
  {
    if a != [] {
      assert (a + b)[1..] == a[1..] + b;
      WalkAppend(Shift(p, a[0]), a[1..], b);
    } else {
      assert a + b == b;
    }
  }

  lemma {:induction false} AvoidsAppend(p: Position, a: seq<Move>, b: seq<Move>, gap: Position)
    requires Avoids(p, a, gap) && Avoids(Walk(p, a), b, gap)
    ensures Avoids(p, a + b, gap)
    decreases |a|
  {
    if a != [] {
      assert (a + b)[1..] == a[1..] + b;
      AvoidsAppend(Shift(p, a[0]), a[1..], b, gap);
    } else {
      assert a + b == b;
    }
  }

  /** The left-first moves lead from start to end, one move per row and
      column crossed. */
  lemma {:induction false} LeftFirstPathWalk(c: Position, e: Position)
    ensures Walk(c, LeftFirstPath(c, e)) == e
    ensures |LeftFirstPath(c, e)| == Abs(c.0 - e.0) + Abs(c.1 - e.1)
    decreases Abs(c.0 - e.0) + Abs(c.1 - e.1)
  {
    if c != e {
      LeftFirstPathWalk(Shift(c, LeftStep(c, e)), e);
    }
  }

  /** The right-first moves lead from start to end, one move per row and
      column crossed. */
  lemma {:induction false} RightFirstPathWalk(c: Position, e: Position)
    ensures Walk(c, RightFirstPath(c, e)) == e
    ensures |RightFirstPath(c, e)| == Abs(c.0 - e.0) + Abs(c.1 - e.1)
    decreases Abs(c.0 - e.0) + Abs(c.1 - e.1)
  {
    if c != e {
      RightFirstPathWalk(Shift(c, RightStep(c, e)), e);
    }
  }

  /** The left-first moves, Activate included, lead from start to end, one
      move per row and column crossed plus the Activate. */
  lemma LeftFirstWalk(s: Position, e: Position)
    ensures Walk(s, LeftFirst(s, e)) == e
    ensures |LeftFirst(s, e)| == Abs(s.0 - e.0) + Abs(s.1 - e.1) + 1
  {
    LeftFirstPathWalk(s, e);
    WalkAppend(s, LeftFirstPath(s, e), [Activate]);
  }

  /** The right-first moves, Activate included, lead from start to end, one
      move per row and column crossed plus the Activate. */
  lemma RightFirstWalk(s: Position, e: Position)
    ensures Walk(s, RightFirst(s, e)) == e
    ensures |RightFirst(s, e)| == Abs(s.0 - e.0) + Abs(s.1 - e.1) + 1
  {
    RightFirstPathWalk(s, e);
    WalkAppend(s, RightFirstPath(s, e), [Activate]);
  }

  /** The gap lies off the three segments the left-first moves cover: along
      the start row to the smaller column, along that column to the end row,
      and along the end row to the end. */
  predicate LeftFirstClear(s: Position, e: Position, gap: Position) {
    var c1, c2 := (s.0, Min(s.1, e.1)), (e.0, Min(s.1, e.1));
    !OnSegment(s, c1, gap) && !OnSegment(c1, c2, gap) && !OnSegment(c2, e, gap)
  }

  /** The gap lies off the three segments the right-first moves cover: along
      the start row to the larger column, along that column to the end row,
      and along the end row to the end. */
  predicate RightFirstClear(s: Position, e: Position, gap: Position) {
    var c1, c2 := (s.0, Max(s.1, e.1)), (e.0, Max(s.1, e.1));
    !OnSegment(s, c1, gap) && !OnSegment(c1, c2, gap) && !OnSegment(c2, e, gap)
  }

  /** Off those segments, the left-first moves never reach the gap. */
  lemma {:induction false} LeftFirstPathAvoids(c: Position, e: Position, gap: Position)
    requires LeftFirstClear(c, e, gap)
    ensures Avoids(c, LeftFirstPath(c, e), gap)
    decreases Abs(c.0 - e.0) + Abs(c.1 - e.1)
  {
    if c != e {
      var next := Shift(c, LeftStep(c, e));
      assert LeftFirstClear(next, e, gap);
      LeftFirstPathAvoids(next, e, gap);
    }
  }

  /** Off those segments, the right-first moves never reach the gap. */
  lemma {:induction false} RightFirstPathAvoids(c: Position, e: Position, gap: Position)
    requires RightFirstClear(c, e, gap)
    ensures Avoids(c, RightFirstPath(c, e), gap)
    decreases Abs(c.0 - e.0) + Abs(c.1 - e.1)
  {
    if c != e {
      var next := Shift(c, RightStep(c, e));
      assert RightFirstClear(next, e, gap);
      RightFirstPathAvoids(next, e, gap);
    }
  }

  /** The left-first moves, Activate included, never point at a gap that
      lies off the segments they cover. */
  lemma LeftFirstAvoids(s: Position, e: Position, gap: Position)
    requires LeftFirstClear(s, e, gap)
    ensures Avoids(s, LeftFirst(s, e), gap)
  {
    LeftFirstPathAvoids(s, e, gap);
    LeftFirstPathWalk(s, e);
    AvoidsAppend(s, LeftFirstPath(s, e), [Activate], gap);
  }

  /** The right-first moves, Activate included, never point at a gap that
      lies off the segments they cover. */
  lemma RightFirstAvoids(s: Position, e: Position, gap: Position)
    requires RightFirstClear(s, e, gap)
    ensures Avoids(s, RightFirst(s, e), gap)
  {
    RightFirstPathAvoids(s, e, gap);
    RightFirstPathWalk(s, e);
    AvoidsAppend(s, RightFirstPath(s, e), [Activate], gap);
  }

  /*------------------------------------------------------------------------
    The moves of each keypad
  ------------------------------------------------------------------------*/

  /** `numeric_moves`: right first between {0, A} and {1, 4, 7}, left first otherwise. */
  function NumericMoves(current: Button, next: Button): seq<Move>
    requires current in NumericKeys && next in NumericKeys
  {
    var start, end := NumericKeys[current], NumericKeys[next];
    if (current in {'0', 'A'} && next in {'1', '4', '7'}) || (current in {'1', '4', '7'} && next in {'0', 'A'})
    then RightFirst(start, end)
    else LeftFirst(start, end)
  }

  /** `dpad_moves`: right first when either end is '<', left first otherwise. */
  function DPadMoves(current: Button, next: Button): seq<Move>
    requires current in DPadKeys && next in DPadKeys
  {
    var start, end := DPadKeys[current], DPadKeys[next];
    if current == '<' || next == '<' then RightFirst(start, end) else LeftFirst(start, end)
  }

  function KeypadMoves(keypad: KeypadType, current: Button, next: Button): (r: seq<Move>)
    requires current in Keys(keypad) && next in Keys(keypad)
    ensures |r| > 0 && r[|r| - 1] == Activate
  {
    if keypad == NumPad then NumericMoves(current, next) else DPadMoves(current, next)
  }

  /** The moves of either keypad lead from the current key to the next one. */
  lemma KeypadMovesWalk(keypad: KeypadType, current: Button, next: Button)
    requires current in Keys(keypad) && next in Keys(keypad)
    ensures Walk(Keys(keypad)[current], KeypadMoves(keypad, current, next)) == Keys(keypad)[next]
  {
    var s, e := Keys(keypad)[current], Keys(keypad)[next];
    LeftFirstWalk(s, e);
    RightFirstWalk(s, e);
  }

  /** Between two real keys, the numeric keypad's moves never point at its gap. */
  lemma NumericMovesAvoidGap(current: Button, next: Button)
    requires current in NumericKeys && next in NumericKeys && current != 'X' && next != 'X'
    ensures Avoids(NumericKeys[current], NumericMoves(current, next), NumericGap)
  {
    var s, e := NumericKeys[current], NumericKeys[next];
    assert 0 <= s.0 <= 3 && 0 <= s.1 <= 2 && s != NumericGap;
    assert 0 <= e.0 <= 3 && 0 <= e.1 <= 2 && e != NumericGap;
    assert current in {'0', 'A'} <==> s.0 == 3;
    assert current in {'1', '4', '7'} <==> s.1 == 0;
    assert next in {'0', 'A'} <==> e.0 == 3;
    assert next in {'1', '4', '7'} <==> e.1 == 0;
    if (s.0 == 3 && e.1 == 0) || (s.1 == 0 && e.0 == 3) {
      RightFirstAvoids(s, e, NumericGap);
    } else {
      LeftFirstAvoids(s, e, NumericGap);
    }
  }

  /** Between two real keys, the directional keypad's moves never point at its gap. */
  lemma DPadMovesAvoidGap(current: Button, next: Button)
    requires current in DPadKeys && next in DPadKeys && current != 'X' && next != 'X'
    ensures Avoids(DPadKeys[current], DPadMoves(current, next), DPadGap)
  {
    var s, e := DPadKeys[current], DPadKeys[next];
    assert 0 <= s.0 <= 1 && 0 <= s.1 <= 2 && s != DPadGap;
    assert 0 <= e.0 <= 1 && 0 <= e.1 <= 2 && e != DPadGap;
    assert current == '<' <==> s.1 == 0;
    assert next == '<' <==> e.1 == 0;
    if current == '<' || next == '<' {
      RightFirstAvoids(s, e, DPadGap);
    } else {
      LeftFirstAvoids(s, e, DPadGap);
    }
  }

  /*------------------------------------------------------------------------
    Chains of keypads
  ------------------------------------------------------------------------*/

  /** Every button can be pressed on the keypad, starting from `from`. */
  predicate Typable(keypad: KeypadType, from: Button, buttons: seq<Button>) {
    from in Keys(keypad) && forall i :: 0 <= i < |buttons| ==> buttons[i] in Keys(keypad)
  }

  /** The last button pressed, or `from` when none was. */
  function LastOr(from: Button, buttons: seq<Button>): Button {
    if buttons == [] then from else buttons[|buttons| - 1]
  }

  /** The moves that press the buttons one after the other, starting from `from`. */
  function MovesFor(keypad: KeypadType, from: Button, buttons: seq<Button>): seq<Move>
    requires Typable(keypad, from, buttons)
    decreases |buttons|
  {
    if buttons == [] then []
    else
      var init := buttons[..|buttons| - 1];
      MovesFor(keypad, from, init) + KeypadMoves(keypad, LastOr(from, init), buttons[|buttons| - 1])
  }

  /** A chain for counting: the first keypad presses the buttons, every keypad
      below it is directional. */
  predicate CountChain(kinds: seq<KeypadType>) {
    |kinds| > 0 && forall i :: 1 <= i < |kinds| ==> kinds[i] == DPad
  }

  /** The moves at the far end of the chain when its first keypad presses the
      buttons from `from` and every later keypad starts at 'A'. */
  function Expand(kinds: seq<KeypadType>, from: Button, buttons: seq<Button>): seq<Move>
    requires CountChain(kinds) && Typable(kinds[0], from, buttons)
    decreases |kinds|
  {
    var moves := MovesFor(kinds[0], from, buttons);
    if |kinds| == 1 then moves else Expand(kinds[1..], 'A', Chars(moves))
  }

  /** What `count_moves` computes from `from` to `to`: the number of moves of
      the first keypad when nothing is connected, otherwise the sum of the
      counts the rest of the chain needs for those moves, starting at 'A'. */
  function Cost(kinds: seq<KeypadType>, from: Button, to: Button): nat
    requires CountChain(kinds) && from in Keys(kinds[0]) && to in Keys(kinds[0])
    decreases |kinds|, 0
  {
    var moves := KeypadMoves(kinds[0], from, to);
    if |kinds| == 1 then |moves| else SeqCost(kinds[1..], 'A', Chars(moves))
  }

  /** The counts for pressing the buttons one after the other. */
  function SeqCost(kinds: seq<KeypadType>, from: Button, buttons: seq<Button>): nat
    requires CountChain(kinds) && Typable(kinds[0], from, buttons)
    decreases |kinds|, |buttons|
  {
    if buttons == [] then 0
    else
      var init := buttons[..|buttons| - 1];
      SeqCost(kinds, from, init) + Cost(kinds, LastOr(from, init), buttons[|buttons| - 1])
  }

  lemma {:induction false} MovesForAppend(keypad: KeypadType, from: Button, a: seq<Button>, b: seq<Button>)
    requires Typable(keypad, from, a + b)
    ensures Typable(keypad, from, a) && Typable(keypad, LastOr(from, a), b)
    ensures MovesFor(keypad, from, a + b) == MovesFor(keypad, from, a) + MovesFor(keypad, LastOr(from, a), b)
    decreases |b|
  {
    assert forall i :: 0 <= i < |a| ==> a[i] == (a + b)[i];
    assert forall i :: 0 <= i < |b| ==> b[i] == (a + b)[|a| + i];
    if b != [] {
      var init, last := b[..|b| - 1], b[|b| - 1];
      var p := LastOr(from, a);
      assert (a + b)[..|a + b| - 1] == a + init && (a + b)[|a + b| - 1] == last;
      assert Typable(keypad, from, a + init) by {
        assert forall i :: 0 <= i < |a + init| ==> (a + init)[i] == (a + b)[i];
      }
      MovesForAppend(keypad, from, a, init);
      assert LastOr(from, a + init) == LastOr(p, init);
      var step := KeypadMoves(keypad, LastOr(p, init), last);
      assert MovesFor(keypad, from, a + b) == MovesFor(keypad, from, a + init) + step;
      assert MovesFor(keypad, p, b) == MovesFor(keypad, p, init) + step;
      ConcatAssociates(MovesFor(keypad, from, a), MovesFor(keypad, p, init), step);
    } else {
      assert a + b == a;
    }
  }

  /** Moves for one or more buttons end with Activate, so the next keypad is back at 'A'. */
  lemma MovesForEndsAtA(keypad: KeypadType, from: Button, buttons: seq<Button>)
    requires Typable(keypad, from, buttons)
    ensures LastOr('A', Chars(MovesFor(keypad, from, buttons))) == 'A'
  {
  }

  lemma CharsPrefix(moves: seq<Move>, i: nat)
    requires i < |moves|
    ensures Chars(moves[..i + 1]) == Chars(moves[..i]) + [MoveChar(moves[i])]
  {
    assert moves[..i + 1] == moves[..i] + [moves[i]];
    CharsAppend(moves[..i], [moves[i]]);
  }

  lemma CharsAppend(a: seq<Move>, b: seq<Move>)
    ensures Chars(a + b) == Chars(a) + Chars(b)
  {
  }

  /** Expanding two runs of buttons one after the other expands each in turn. */
  lemma {:induction false} ExpandAppend(kinds: seq<KeypadType>, from: Button, a: seq<Button>, b: seq<Button>)
    requires CountChain(kinds) && Typable(kinds[0], from, a + b)
    ensures Typable(kinds[0], from, a) && Typable(kinds[0], LastOr(from, a), b)
    ensures Expand(kinds, from, a + b) == Expand(kinds, from, a) + Expand(kinds, LastOr(from, a), b)
    decreases |kinds|
  {
    MovesForAppend(kinds[0], from, a, b);
    if |kinds| > 1 {
      var ma, mb := MovesFor(kinds[0], from, a), MovesFor(kinds[0], LastOr(from, a), b);
      CharsAppend(ma, mb);
      MovesForEndsAtA(kinds[0], from, a);
      ExpandAppend(kinds[1..], 'A', Chars(ma), Chars(mb));
    }
  }

  /** Pressing no buttons makes no moves anywhere down the chain. */
  lemma {:induction false} ExpandNothing(kinds: seq<KeypadType>, from: Button)
    requires CountChain(kinds) && from in Keys(kinds[0])
    ensures Expand(kinds, from, []) == []
    decreases |kinds|
  {
    if |kinds| > 1 {
      assert Chars([]) == [];
      ExpandNothing(kinds[1..], 'A');
    }
  }

  /** Counting through the chain gives the number of moves at its far end:
      the cache-backed count of part 2 agrees with the moves part 1 builds. */
  lemma {:induction false} ExpandCost(kinds: seq<KeypadType>, from: Button, buttons: seq<Button>)
    requires CountChain(kinds) && Typable(kinds[0], from, buttons)
    ensures |Expand(kinds, from, buttons)| == SeqCost(kinds, from, buttons)
    decreases |kinds|, |buttons|
  {
    if buttons == [] {
      ExpandNothing(kinds, from);
    } else {
      var init, last := buttons[..|buttons| - 1], buttons[|buttons| - 1];
      assert buttons == init + [last];
      ExpandAppend(kinds, from, init, [last]);
      ExpandCost(kinds, from, init);
      ExpandOne(kinds, LastOr(from, init), last);
    }
  }

  /** One button pressed through the chain costs `Cost` moves. */
  lemma {:induction false} ExpandOne(kinds: seq<KeypadType>, from: Button, to: Button)
    requires CountChain(kinds) && from in Keys(kinds[0]) && to in Keys(kinds[0])
    ensures Typable(kinds[0], from, [to])
    ensures |Expand(kinds, from, [to])| == Cost(kinds, from, to)
    decreases |kinds|, 0
  {
    var moves := KeypadMoves(kinds[0], from, to);
    assert MovesFor(kinds[0], from, [to]) == moves by {
      assert [to][..0] == [];
    }
    if |kinds| > 1 {
      ExpandCost(kinds[1..], 'A', Chars(moves));
    }
  }

  /** Adding a directional keypad at the far end of the chain types the
      chain's moves on it, starting at 'A'. */
  lemma {:induction false} ExpandSnoc(kinds: seq<KeypadType>, from: Button, buttons: seq<Button>)
    requires CountChain(kinds) && Typable(kinds[0], from, buttons)
    ensures CountChain(kinds + [DPad])
    ensures Expand(kinds + [DPad], from, buttons) == MovesFor(DPad, 'A', Chars(Expand(kinds, from, buttons)))
    decreases |kinds|
  {
    var moves := MovesFor(kinds[0], from, buttons);
    assert (kinds + [DPad])[1..] == kinds[1..] + [DPad];
    if |kinds| > 1 {
      ExpandSnoc(kinds[1..], 'A', Chars(moves));
    }
  }

  /*------------------------------------------------------------------------
    Typing a code through a chain, as `enter_code` does
  ------------------------------------------------------------------------*/

  /** `enter_code` can run: a numeric keypad types the code itself, a
      directional keypad types what its connected keypad needs. */
  predicate EnterReady(kinds: seq<KeypadType>, robots: seq<Button>, code: seq<Button>)
    decreases |kinds|
  {
    |kinds| == |robots| > 0 &&
    (kinds[0] == NumPad ==> Typable(NumPad, robots[0], code)) &&
    (kinds[0] == DPad ==> robots[0] in DPadKeys && |kinds| > 1 && EnterReady(kinds[1..], robots[1..], code))
  }

  /** The moves `enter_code` returns, for robots pointing at `robots`. */
  function Typed(kinds: seq<KeypadType>, robots: seq<Button>, code: seq<Button>): seq<Move>
    requires EnterReady(kinds, robots, code)
    decreases |kinds|
  {
    if kinds[0] == NumPad then MovesFor(NumPad, robots[0], code)
    else MovesFor(DPad, robots[0], Chars(Typed(kinds[1..], robots[1..], code)))
  }

  /** Where the robots point after `enter_code`: each at the last button it pressed. */
  function AfterTyped(kinds: seq<KeypadType>, robots: seq<Button>, code: seq<Button>): (r: seq<Button>)
    requires EnterReady(kinds, robots, code)
    ensures |r| == |robots|
    decreases |kinds|
  {
    if kinds[0] == NumPad then [LastOr(robots[0], code)] + robots[1..]
    else [LastOr(robots[0], Chars(Typed(kinds[1..], robots[1..], code)))] + AfterTyped(kinds[1..], robots[1..], code)
  }

  /** `n` robots pointing at 'A'. */
  function Ats(n: nat): (r: seq<Button>)
    ensures |r| == n && forall i :: 0 <= i < n ==> r[i] == 'A'
  {
    seq(n, i => 'A')
  }

  /** A chain of `k > 0` robots at 'A' ahead of `x` is one at 'A' ahead of the rest. */
  lemma AtsPrepend(k: nat, x: Button)
    requires k > 0
    ensures Ats(k) + [x] == ['A'] + (Ats(k - 1) + [x])
  {
    var left, right := Ats(k) + [x], ['A'] + (Ats(k - 1) + [x]);
    assert |left| == |right|;
    forall i | 0 <= i < |left|
      ensures left[i] == right[i]
    {
      if 0 < i < k {
        assert right[i] == Ats(k - 1)[i - 1];
      }
    }
  }

  /** `k > 0` directional keypads are `k - 1` of them and one more. */
  lemma DPadsSnoc(k: nat)
    requires k > 0
    ensures DPads(k - 1) + [DPad] == DPads(k)
  {
    assert |DPads(k - 1) + [DPad]| == k;
  }

  /** The same for `k > 0` directional keypads ahead of another keypad. */
  lemma DPadsPrepend(k: nat, x: KeypadType)
    requires k > 0
    ensures DPads(k) + [x] == [DPad] + (DPads(k - 1) + [x])
  {
    var left, right := DPads(k) + [x], [DPad] + (DPads(k - 1) + [x]);
    assert |left| == |right|;
    forall i | 0 <= i < |left|
      ensures left[i] == right[i]
    {
      if 0 < i < k {
        assert right[i] == DPads(k - 1)[i - 1];
      }
    }
  }

  /** Whatever the chain presses, the keypad at its far end finishes on Activate. */
  lemma {:induction false} ExpandEndsAtA(kinds: seq<KeypadType>, from: Button, buttons: seq<Button>)
    requires CountChain(kinds) && Typable(kinds[0], from, buttons)
    ensures LastOr('A', Chars(Expand(kinds, from, buttons))) == 'A'
    decreases |kinds|
  {
    MovesForEndsAtA(kinds[0], from, buttons);
    if |kinds| > 1 {
      ExpandEndsAtA(kinds[1..], 'A', Chars(MovesFor(kinds[0], from, buttons)));
    }
  }

  /** A chain of `k` directional keypads on a numeric one, with the robots
      above it at 'A', can type any code the numeric keypad can. */
  lemma {:induction false} ChainReady(k: nat, p: Button, code: seq<Button>)
    requires Typable(NumPad, p, code)
    ensures CountChain([NumPad] + DPads(k))
    ensures EnterReady(DPads(k) + [NumPad], Ats(k) + [p], code)
    decreases k
  {
    var chain, robots := DPads(k) + [NumPad], Ats(k) + [p];
    if k == 0 {
      assert chain == [NumPad] && robots == [p];
    } else {
      ChainReady(k - 1, p, code);
      DPadsPrepend(k, NumPad);
      AtsPrepend(k, p);
      assert chain[0] == DPad && chain[1..] == DPads(k - 1) + [NumPad];
      assert robots[0] == 'A' && robots[1..] == Ats(k - 1) + [p];
    }
  }

  /** Such a chain types a code as the counting chain, read from the numeric
      keypad up, expands it. */
  lemma {:induction false} TypedExpands(k: nat, p: Button, code: seq<Button>)
    requires Typable(NumPad, p, code)
    ensures CountChain([NumPad] + DPads(k))
    ensures EnterReady(DPads(k) + [NumPad], Ats(k) + [p], code)
    ensures Typed(DPads(k) + [NumPad], Ats(k) + [p], code) == Expand([NumPad] + DPads(k), p, code)
    decreases k
  {
    ChainReady(k, p, code);
    var chain, robots := DPads(k) + [NumPad], Ats(k) + [p];
    if k == 0 {
      assert chain == [NumPad] == [NumPad] + DPads(k) && robots == [p];
      assert Expand([NumPad], p, code) == MovesFor(NumPad, p, code);
    } else {
      TypedExpands(k - 1, p, code);
      var shorter := [NumPad] + DPads(k - 1);
      DPadsPrepend(k, NumPad);
      AtsPrepend(k, p);
      assert chain[1..] == DPads(k - 1) + [NumPad] && robots[1..] == Ats(k - 1) + [p];
      ExpandSnoc(shorter, p, code);
      DPadsSnoc(k);
      ConcatAssociates([NumPad], DPads(k - 1), [DPad]);
      assert Typed(chain, robots, code) == MovesFor(DPad, 'A', Chars(Typed(chain[1..], robots[1..], code)));
    }
  }

  /** After typing a code, the directional robots of such a chain are back at
      'A' and the numeric one points at the code's last button. */
  lemma {:induction false} TypedEndsAtA(k: nat, p: Button, code: seq<Button>)
    requires Typable(NumPad, p, code)
    ensures EnterReady(DPads(k) + [NumPad], Ats(k) + [p], code)
    ensures AfterTyped(DPads(k) + [NumPad], Ats(k) + [p], code) == Ats(k) + [LastOr(p, code)]
    decreases k
  {
    ChainReady(k, p, code);
    var chain, robots := DPads(k) + [NumPad], Ats(k) + [p];
    if k == 0 {
      assert chain == [NumPad] && robots == [p];
      assert Ats(k) + [LastOr(p, code)] == [LastOr(p, code)];
    } else {
      var subChain, subRobots := DPads(k - 1) + [NumPad], Ats(k - 1) + [p];
      DPadsPrepend(k, NumPad);
      AtsPrepend(k, p);
      AtsPrepend(k, LastOr(p, code));
      assert chain[0] == DPad && chain[1..] == subChain;
      assert robots[0] == 'A' && robots[1..] == subRobots;
      TypedEndsAtA(k - 1, p, code);
      TypedExpands(k - 1, p, code);
      ExpandEndsAtA([NumPad] + DPads(k - 1), p, code);
      var below := Typed(subChain, subRobots, code);
      assert LastOr('A', Chars(below)) == 'A';
      assert AfterTyped(chain, robots, code) == ['A'] + AfterTyped(subChain, subRobots, code);
    }
  }


  /** The number of moves such a chain types for a code is the count of
      the counting chain. */
  lemma TypedCount(k: nat, p: Button, code: seq<Button>)
    requires Typable(NumPad, p, code)
    ensures CountChain([NumPad] + DPads(k))
    ensures EnterReady(DPads(k) + [NumPad], Ats(k) + [p], code)
    ensures |Typed(DPads(k) + [NumPad], Ats(k) + [p], code)| == SeqCost([NumPad] + DPads(k), p, code)
    ensures AfterTyped(DPads(k) + [NumPad], Ats(k) + [p], code) == Ats(k) + [LastOr(p, code)]
  {
    TypedExpands(k, p, code);
    TypedEndsAtA(k, p, code);
    ExpandCost([NumPad] + DPads(k), p, code);
  }

  /*------------------------------------------------------------------------
    Complexity and the totals
  ------------------------------------------------------------------------*/

  /** `calculate_complexity`: the code without its last character, as a
      number, times the move count; None where that does not parse (a panic). */
  function Complexity(code: string, moveCount: nat): Option<nat> {
    if |code| == 0 then None
    else
      match ParseUnsigned(code[..|code| - 1])
      case Some(value) => Some(Times(value, moveCount))
      case None => None
  }

  /** `a * b`, defined by repeated addition so that the totals below are
      linear arithmetic; `TimesIsProduct` ties it to `*`. */
  function Times(a: nat, b: nat): nat
    decreases b
  {
    if b == 0 then 0 else Times(a, b - 1) + a
  }

  lemma {:induction false} TimesIsProduct(a: nat, b: nat)
    ensures Times(a, b) == a * b
    decreases b
  {
    if b > 0 {
      TimesIsProduct(a, b - 1);
    }
  }

  /** A code made of a number and one more character has that number as its value. */
  lemma ComplexityOfCode(n: nat, last: char, moveCount: nat)
    ensures Complexity(DecimalString(n) + [last], moveCount) == Some(n * moveCount)
  {
    var code := DecimalString(n) + [last];
    assert code[..|code| - 1] == DecimalString(n);
    DecimalRoundTrip(n);
    TimesIsProduct(n, moveCount);
  }

  /** A complexity added to a total that may be missing. */
  function AddTo(total: nat, rest: Option<nat>): Option<nat> {
    match rest
    case Some(r) => Some(total + r)
    case None => None
  }

  /** The complexity of one code typed from `from`; None where the source
      panics: a button the first keypad lacks, or a code without a number. */
  function Score(kinds: seq<KeypadType>, from: Button, code: string): Option<nat>
    requires CountChain(kinds)
  {
    if Typable(kinds[0], from, code) then Complexity(code, SeqCost(kinds, from, code)) else None
  }

  /** The sum of the complexities of the codes, typed one after the other
      with the first keypad starting at `from`; None where the source panics. */
  function TotalFrom(kinds: seq<KeypadType>, from: Button, codes: seq<string>): Option<nat>
    requires CountChain(kinds)
    decreases |codes|
  {
    if codes == [] then Some(0)
    else
      match Score(kinds, from, codes[0])
      case None => None
      case Some(c) => AddTo(c, TotalFrom(kinds, LastOr(from, codes[0]), codes[1..]))
  }

  /** Adding in two steps is adding the sum. */
  lemma AddToTwice(a: nat, b: nat, rest: Option<nat>)
    ensures AddTo(a, AddTo(b, rest)) == AddTo(a + b, rest)
  {
  }

  /** The running total after one more code: grown by that code's
      complexity when there is one, missing otherwise. */
  lemma TotalFromStep(kinds: seq<KeypadType>, from: Button, codes: seq<string>, total: nat, c: Option<nat>, whole: Option<nat>)
    requires CountChain(kinds) && codes != []
    requires c == Score(kinds, from, codes[0])
    requires whole == AddTo(total, TotalFrom(kinds, from, codes))
    ensures c.None? ==> whole == None
    ensures c.Some? ==> whole == AddTo(total + c.value, TotalFrom(kinds, LastOr(from, codes[0]), codes[1..]))
  {
    var rest := TotalFrom(kinds, LastOr(from, codes[0]), codes[1..]);
    match c
    case None =>
      assert TotalFrom(kinds, from, codes) == None;
    case Some(v) =>
      assert TotalFrom(kinds, from, codes) == AddTo(v, rest);
      AddToTwice(total, v, rest);
  }


  function DPads(n: nat): (r: seq<KeypadType>)
    ensures |r| == n && forall i :: 0 <= i < n ==> r[i] == DPad
  {
    seq(n, i => DPad)
  }

  /*------------------------------------------------------------------------
    The keypad robots
  ------------------------------------------------------------------------*/

  class Keypad {
    const keypad: KeypadType
    const name: string
    const connected: Keypad?
    var robotPointingAt: Button
    var moveCountCache: map<(Button, Button), nat>

    /** The keypad types down the chain, this one first. */
    ghost const kinds: seq<KeypadType>
    /** The keypads connected below this one. */
    ghost const Below: set<Keypad>

    ghost predicate Valid()
      reads this, Below
      decreases Below
    {
      LocallyValid() && (connected != null ==> connected.Valid())
    }

    /** What `Valid` asks of this keypad's own fields: its place in the chain,
        a robot on a key, and a cache that agrees with `Cost`. */
    ghost predicate LocallyValid()
      reads this
    {
      this !in Below &&
      robotPointingAt in Keys(keypad) &&
      (connected == null ==> kinds == [keypad] && Below == {}) &&
      (connected != null ==>
        connected in Below && connected.Below <= Below && connected !in connected.Below &&
        Below == {connected} + connected.Below &&
        kinds == [keypad] + connected.kinds) &&
      (forall key :: key in moveCountCache ==>
        CountChain(kinds) && key.0 in Keys(keypad) && key.1 in Keys(keypad) &&
        moveCountCache[key] == Cost(kinds, key.0, key.1))
    }

    /** Where every robot down the chain points, this one first. */
    ghost function Robots(): (r: seq<Button>)
      reads this, Below
      requires Valid()
      ensures |r| == |kinds| && r[0] == robotPointingAt
      decreases Below
    {
      [robotPointingAt] + (if connected == null then [] else connected.Robots())
    }

    /** Every robot below this one points at 'A'. */
    ghost predicate LowerAtA()
      reads this, Below
      requires Valid()
      decreases Below
    {
      connected != null ==> connected.robotPointingAt == 'A' && connected.LowerAtA()
    }

    /** `Keypad::new`: the robot points at 'A' and the cache is empty. */
    constructor (keypad: KeypadType, name: string, connected: Keypad?)
      requires connected != null ==> connected.Valid()
      ensures Valid()
      ensures this.keypad == keypad && this.name == name && this.connected == connected
      ensures robotPointingAt == 'A' && moveCountCache == map[]
      ensures kinds == [keypad] + (if connected == null then [] else connected.kinds)
      ensures Below == if connected == null then {} else {connected} + connected.Below
    {
      this.keypad := keypad;
      this.name := name;
      this.connected := connected;
      robotPointingAt := 'A';
      moveCountCache := map[];
      kinds := [keypad] + (if connected == null then [] else connected.kinds);
      Below := if connected == null then {} else {connected} + connected.Below;
    }

    /** `move_to`: the moves to the button, and the robot now points at it. */
    method MoveTo(to: Button) returns (moves: seq<Move>)
      requires Valid() && to in Keys(keypad)
      modifies this
      ensures Valid()
      ensures moves == KeypadMoves(keypad, old(robotPointingAt), to)
      ensures robotPointingAt == to && moveCountCache == old(moveCountCache)
    {
      if keypad == NumPad {
        moves := NumericMoves(robotPointingAt, to);
      } else {
        moves := DPadMoves(robotPointingAt, to);
      }
      robotPointingAt := to;
    }

    /** `count_moves`: the number of moves at the end of the chain for moving
        this robot to `to` and pressing it, with every robot below at 'A'.
        A cached count is returned as it is; a new one is cached. */
    method CountMoves(to: Button) returns (count: nat)
      requires Valid() && LowerAtA() && CountChain(kinds) && to in Keys(keypad)
      modifies this, Below
      ensures Valid() && LowerAtA()
      ensures count == Cost(kinds, old(robotPointingAt), to)
      ensures robotPointingAt == to
      decreases Below, 2
    {
      var from := robotPointingAt;
      if (from, to) in moveCountCache {
        count := moveCountCache[(from, to)];
        robotPointingAt := to;
        return;
      }
      count := CountUncached(from, to);
      moveCountCache := moveCountCache[(from, to) := count];
      robotPointingAt := to;
    }

    /** The uncached branch of `count_moves`: the length of this keypad's
        moves when nothing is connected, otherwise the sum of the connected
        keypad's counts for those moves. Only the keypads below change. */
    method CountUncached(from: Button, to: Button) returns (count: nat)
      requires Valid() && LowerAtA() && CountChain(kinds) && from in Keys(keypad) && to in Keys(keypad)
      modifies Below
      ensures Valid() && LowerAtA()
      ensures count == Cost(kinds, from, to)
      decreases Below, 1
    {
      var moves := if keypad == NumPad then NumericMoves(from, to) else DPadMoves(from, to);
      assert moves == KeypadMoves(keypad, from, to);
      if connected == null {
        count := |moves|;
      } else {
        assert connected.kinds == kinds[1..] && connected.kinds[0] == connected.keypad;
        assert connected.keypad == DPad && CountChain(connected.kinds);
        assert connected.robotPointingAt == 'A' && connected.LowerAtA();
        assert Cost(kinds, from, to) == SeqCost(connected.kinds, 'A', Chars(moves));
        assert LocallyValid();
        count := connected.CountAll(Chars(moves));
      }
    }

    /** The sum of `count_moves` over the buttons, pressed one after the other. */
    method CountAll(buttons: seq<Button>) returns (count: nat)
      requires Valid() && LowerAtA() && CountChain(kinds) && Typable(keypad, robotPointingAt, buttons)
      modifies this, Below
      ensures Valid() && LowerAtA()
      ensures count == SeqCost(kinds, old(robotPointingAt), buttons)
      ensures robotPointingAt == LastOr(old(robotPointingAt), buttons)
      decreases Below, 3
    {
      var start := robotPointingAt;
      count := 0;
      for i := 0 to |buttons|
        invariant Valid() && LowerAtA()
        invariant robotPointingAt == LastOr(start, buttons[..i])
        invariant count == SeqCost(kinds, start, buttons[..i])
      {
        assert buttons[..i + 1][..i] == buttons[..i];
        var c := CountMoves(buttons[i]);
        count := count + c;
      }
      assert buttons[..|buttons|] == buttons;
    }

    /** The `flat_map` of `move_to` over the buttons: the moves that press
        them one after the other; the robot ends at the last one. */
    method PressAll(buttons: seq<Button>) returns (moves: seq<Move>)
      requires Valid() && Typable(keypad, robotPointingAt, buttons)
      modifies this
      ensures Valid()
      ensures moves == MovesFor(keypad, old(robotPointingAt), buttons)
      ensures robotPointingAt == LastOr(old(robotPointingAt), buttons)
      ensures moveCountCache == old(moveCountCache)
    {
      var start := robotPointingAt;
      moves := [];
      for i := 0 to |buttons|
        invariant Valid() && moveCountCache == old(moveCountCache)
        invariant moves == MovesFor(keypad, start, buttons[..i])
        invariant robotPointingAt == LastOr(start, buttons[..i])
      {
        assert buttons[..i + 1][..i] == buttons[..i];
        var m := MoveTo(buttons[i]);
        moves := moves + m;
      }
      assert buttons[..|buttons|] == buttons;
    }

    /** `enter_code`: the moves that make the numeric keypad at the end of the
        chain type the code; every robot ends at the last button it pressed. */
    method EnterCode(code: seq<Button>) returns (moves: seq<Move>)
      requires Valid() && EnterReady(kinds, Robots(), code)
      modifies this, Below
      ensures Valid()
      ensures moves == Typed(kinds, old(Robots()), code)
      ensures Robots() == AfterTyped(kinds, old(Robots()), code)
      decreases Below
    {
      ghost var robots := Robots();
      var buttons: seq<Button>;
      ghost var lower: seq<Button>;
      if keypad == NumPad {
        buttons := code;
        lower := robots[1..];
      } else {
        ghost var below := robots[1..];
        assert connected.Robots() == below && connected.kinds == kinds[1..];
        var sub := connected.EnterCode(code);
        buttons := Chars(sub);
        lower := connected.Robots();
        assert lower == AfterTyped(kinds[1..], below, code);
      }
      assert lower == if connected == null then [] else connected.Robots();
      label BeforePress:
      moves := PressAll(buttons);
      assert unchanged@BeforePress(Below);
      assert connected != null ==> connected.Robots() == lower;
      assert Robots() == [robotPointingAt] + lower;
    }
  }

  /*------------------------------------------------------------------------
    The two parts
  ------------------------------------------------------------------------*/

  predicate NumericCode(code: string) {
    forall i :: 0 <= i < |code| ==> code[i] in NumericKeys
  }

  /** Part 1: each code is typed through two directional keypads onto the
      numeric one, and its complexity uses the length of the moves. */
  method Part1(input: string) returns (r: Option<nat>)
    ensures CountChain([NumPad] + DPads(2))
    ensures r == TotalFrom([NumPad] + DPads(2), 'A', Lines(input))
  {
    var numpad := new Keypad(NumPad, "Robot0", null);
    var dpad1 := new Keypad(DPad, "Robot1", numpad);
    var dpad2 := new Keypad(DPad, "Robot2", dpad1);
    assert dpad2.kinds == DPads(2) + [NumPad];
    assert dpad2.Robots() == Ats(2) + ['A'];
    r := TypeCodes(dpad2, 2, Lines(input));
  }

  /** Part 1's sum over the codes: each is typed with `enter_code` on the top
      keypad of a chain of `k` directional keypads on a numeric one, and its
      complexity uses the number of moves that returns. */
  method TypeCodes(top: Keypad, ghost k: nat, codes: seq<string>) returns (r: Option<nat>)
    requires top.Valid() && top.kinds == DPads(k) + [NumPad] && top.Robots() == Ats(k) + ['A']
    modifies top, top.Below
    ensures CountChain([NumPad] + DPads(k))
    ensures r == TotalFrom([NumPad] + DPads(k), 'A', codes)
  {
    ghost var chain := [NumPad] + DPads(k);
    ghost var at: Button := 'A';
    var total: nat := 0;
    assert codes[0..] == codes;
    for i := 0 to |codes|
      invariant top.Valid() && top.kinds == DPads(k) + [NumPad]
      invariant top.Robots() == Ats(k) + [at] && at in NumericKeys
      invariant CountChain(chain) && chain[0] == NumPad
      invariant TotalFrom(chain, 'A', codes) == AddTo(total, TotalFrom(chain, at, codes[i..]))
    {
      assert codes[i..][0] == codes[i] && codes[i..][1..] == codes[i + 1..];
      var c := TypeCode(top, k, at, codes[i]);
      TotalFromStep(chain, at, codes[i..], total, c, TotalFrom(chain, 'A', codes));
      if c.None? {
        return None;
      }
      total := total + c.value;
      at := LastOr(at, codes[i]);
    }
    return Some(total);
  }

  /** One code of part 1: `enter_code` through the whole chain, then its complexity. */
  method TypeCode(top: Keypad, ghost k: nat, ghost at: Button, code: string) returns (c: Option<nat>)
    requires top.Valid() && top.kinds == DPads(k) + [NumPad]
    requires top.Robots() == Ats(k) + [at] && at in NumericKeys
    modifies top, top.Below
    ensures CountChain([NumPad] + DPads(k))
    ensures c == Score([NumPad] + DPads(k), at, code)
    ensures top.Valid()
    ensures c.Some? ==> top.Robots() == Ats(k) + [LastOr(at, code)] && LastOr(at, code) in NumericKeys
  {
    ghost var chain := [NumPad] + DPads(k);
    if !NumericCode(code) {
      return None;
    }
    TypedCount(k, at, code);
    var moves := top.EnterCode(code);
    c := Complexity(code, |moves|);
  }

  method Part2(input: string) returns (r: Option<nat>)
    ensures CountChain([NumPad] + DPads(25))
    ensures r == TotalFrom([NumPad] + DPads(25), 'A', Lines(input))
  {
    var previous := DPadChain(25);
    var finalKeypad := new Keypad(NumPad, "Robot", previous);
    r := CountCodes(finalKeypad, 25, Lines(input));
  }

  /** Part 2's chain: `count` directional keypads named "Robot{n}" for `n`
      from `count - 1` down to 0, each connected to the one made before it;
      null when `count` is 0. Every robot points at 'A'. */
  method DPadChain(count: nat) returns (top: Keypad?)
    ensures count == 0 <==> top == null
    ensures top != null ==>
      top.Valid() && top.kinds == DPads(count) && top.robotPointingAt == 'A' && top.LowerAtA() &&
      fresh(top) && fresh(top.Below)
  {
    top := null;
    var n := count;
    while n > 0
      invariant 0 <= n <= count
      invariant top == null <==> n == count
      invariant top != null ==>
        top.Valid() && top.kinds == DPads(count - n) && top.robotPointingAt == 'A' &&
        top.LowerAtA() && fresh(top) && fresh(top.Below)
    {
      n := n - 1;
      top := new Keypad(DPad, "Robot" + DecimalString(n), top);
      assert top.kinds == DPads(count - n);
    }
  }

  /** Part 2's sum over the codes: each code's move count is the sum of
      `count_moves` over its buttons on the numeric keypad on top of `k`
      directional ones. */
  method CountCodes(top: Keypad, ghost k: nat, codes: seq<string>) returns (r: Option<nat>)
    requires top.Valid() && top.LowerAtA() && top.kinds == [NumPad] + DPads(k) && top.robotPointingAt == 'A'
    modifies top, top.Below
    ensures CountChain([NumPad] + DPads(k))
    ensures r == TotalFrom([NumPad] + DPads(k), 'A', codes)
  {
    ghost var kinds := [NumPad] + DPads(k);
    ghost var at: Button := 'A';
    var total: nat := 0;
    assert codes[0..] == codes;
    for i := 0 to |codes|
      invariant top.Valid() && top.LowerAtA() && top.kinds == kinds
      invariant top.robotPointingAt == at && at in NumericKeys
      invariant CountChain(kinds) && kinds[0] == NumPad
      invariant TotalFrom(kinds, 'A', codes) == AddTo(total, TotalFrom(kinds, at, codes[i..]))
    {
      assert codes[i..][0] == codes[i] && codes[i..][1..] == codes[i + 1..];
      var c := CountCode(top, k, codes[i]);
      TotalFromStep(kinds, at, codes[i..], total, c, TotalFrom(kinds, 'A', codes));
      if c.None? {
        return None;
      }
      total := total + c.value;
      at := LastOr(at, codes[i]);
    }
    return Some(total);
  }

  /** One code of part 2: the memoised move count, then its complexity. */
  method CountCode(top: Keypad, ghost k: nat, code: string) returns (c: Option<nat>)
    requires top.Valid() && top.LowerAtA() && top.kinds == [NumPad] + DPads(k) && top.robotPointingAt in NumericKeys
    modifies top, top.Below
    ensures CountChain([NumPad] + DPads(k))
    ensures c == Score([NumPad] + DPads(k), old(top.robotPointingAt), code)
    ensures top.Valid() && top.LowerAtA()
    ensures c.Some? ==> top.robotPointingAt == LastOr(old(top.robotPointingAt), code) && top.robotPointingAt in NumericKeys
  {
    ghost var kinds := [NumPad] + DPads(k);
    if !NumericCode(code) {
      return None;
    }
    assert top.keypad == top.kinds[0] == NumPad;
    var moveCount := top.CountAll(code);
    c := Complexity(code, moveCount);
  }
}
