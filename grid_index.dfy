/**
 * `GridIndex`: a (row, column) pair with component-wise arithmetic.
 *
 * Rust's integer `/` and `%` truncate toward zero, unlike Dafny's Euclidean
 * operators, so the scalar and pairwise division and remainder are written out
 * with `TruncDiv` and `TruncRem`.
 */
module GridIndex {

  datatype Index = Index(row: int, column: int)

  /** The five arithmetic operators the source implements pairwise and by scalar. */
  datatype Op = Add | Sub | Mul | Div | Rem

  function Abs(x: int): (r: nat)
    ensures r == x || r == -x
  {
    if x < 0 then -x else x
  }

  /** Integer division truncating toward zero, as Rust's `/` does. */
  function TruncDiv(x: int, y: int): int
    requires y != 0
  {
    var q := Abs(x) / Abs(y);
    if (x < 0) == (y < 0) then q else -q
  }

  /** Integer remainder with the sign of the dividend, as Rust's `%` does. */
  function TruncRem(x: int, y: int): int
    requires y != 0
  {
    x - y * TruncDiv(x, y)
  }

  /** Truncating division and remainder: the quotient-remainder identity, the
      remainder is smaller than the divisor and carries the dividend's sign. */
  lemma TruncDivRem(x: int, y: int)
    requires y != 0
    ensures y * TruncDiv(x, y) + TruncRem(x, y) == x
    ensures Abs(TruncRem(x, y)) < Abs(y)
    ensures x >= 0 ==> TruncRem(x, y) >= 0
    ensures x <= 0 ==> TruncRem(x, y) <= 0
  {
    var m := Abs(x) % Abs(y);
    assert 0 <= m < Abs(y);
    assert TruncRem(x, y) == (if x < 0 then -m else m) by {
      TruncRemValue(x, y);
    }
  }

  /** The truncating remainder is the Euclidean remainder of the magnitudes,
      with the dividend's sign. */
  lemma TruncRemValue(x: int, y: int)
    requires y != 0
    ensures TruncRem(x, y) == (if x < 0 then -(Abs(x) % Abs(y)) else Abs(x) % Abs(y))
  {
    var a: int, b: int := Abs(x), Abs(y);
    var q: int, m: int := a / b, a % b;
    var p := b * q;
    assert p + m == a;
    var yd := y * TruncDiv(x, y);
    assert yd == (if x < 0 then -p else p) by {
      var d := TruncDiv(x, y);
      MulSigns(b, q);
      if y > 0 {
        assert y == b && d == (if x < 0 then -q else q);
      } else {
        assert y == -b && d == (if x < 0 then q else -q);
      }
    }
    assert TruncRem(x, y) == x - yd;
  }

  /** Multiplication by negated factors. */
  lemma MulSigns(b: int, q: int)
    ensures (-b) * q == -(b * q) && b * (-q) == -(b * q) && (-b) * (-q) == b * q
  {
  }

  /** Whether applying `op` to an integer right-hand side `y` is defined (Rust panics on division by zero). */
  predicate Defined(op: Op, y: int) {
    (op == Div || op == Rem) ==> y != 0
  }

  function ApplyInt(op: Op, x: int, y: int): int
    requires Defined(op, y)
  {
    match op
    case Add => x + y
    case Sub => x - y
    case Mul => x * y
    case Div => TruncDiv(x, y)
    case Rem => TruncRem(x, y)
  }

  function New(row: int, column: int): (i: Index)
    ensures i.row == row && i.column == column
  {
    Index(row, column)
  }

  /** The `From<(I, I)>` conversion. */
  function FromPair(p: (int, int)): (i: Index)
    ensures i == New(p.0, p.1)
  {
    Index(p.0, p.1)
  }

  /** `a op b` with a GridIndex right-hand side. */
  function Pairwise(op: Op, a: Index, b: Index): Index
    requires Defined(op, b.row) && Defined(op, b.column)
  {
    Index(ApplyInt(op, a.row, b.row), ApplyInt(op, a.column, b.column))
  }

  /** `a op s` with a scalar right-hand side. */
  function Scalar(op: Op, a: Index, s: int): Index
    requires Defined(op, s)
  {
    Index(ApplyInt(op, a.row, s), ApplyInt(op, a.column, s))
  }

  function Neg(a: Index): Index {
    Index(-a.row, -a.column)
  }

  function AbsIndex(a: Index): (r: Index)
    ensures r.row >= 0 && r.column >= 0
    ensures r == a || r == Index(-a.row, a.column) || r == Index(a.row, -a.column) || r == Neg(a)
  {
    Index(Abs(a.row), Abs(a.column))
  }

  predicate IsPositive(a: Index) {
    a.row > 0 && a.column > 0
  }

  predicate IsNegative(a: Index) {
    a.row < 0 || a.column < 0
  }

  /** The derived `Ord`: lexicographic, row first. */
  predicate Less(a: Index, b: Index) {
    a.row < b.row || (a.row == b.row && a.column < b.column)
  }

  /** A scalar operation is the pairwise operation against (s, s). */
  lemma ScalarIsPairwise(op: Op, a: Index, s: int)
    requires Defined(op, s)
    ensures Scalar(op, a, s) == Pairwise(op, a, Index(s, s))
  {
  }

  /** Subtraction undoes addition, and `a - b == a + (-b)`. */
  lemma AddSubInverse(a: Index, b: Index)
    ensures Pairwise(Sub, Pairwise(Add, a, b), b) == a
    ensures Pairwise(Sub, a, b) == Pairwise(Add, a, Neg(b))
  {
  }

  /** Negation is involutive and distributes over addition. */
  lemma NegInvolutive(a: Index, b: Index)
    ensures Neg(Neg(a)) == a
    ensures Neg(Pairwise(Add, a, b)) == Pairwise(Add, Neg(a), Neg(b))
  {
  }

  /** Scalar division and remainder recombine: s * (a / s) + a % s == a. */
  lemma ScalarDivRem(a: Index, s: int)
    requires s != 0
    ensures Pairwise(Add, Scalar(Mul, Scalar(Div, a, s), s), Scalar(Rem, a, s)) == a
  {
    TruncDivRem(a.row, s);
    TruncDivRem(a.column, s);
  }

  /** The `abs` of a negated index is the `abs` of the index. */
  lemma AbsOfNeg(a: Index)
    ensures AbsIndex(Neg(a)) == AbsIndex(a)
  {
  }

  /** `is_positive` and `is_negative` exclude each other and (0, 0) is neither. */
  lemma PositiveNegativeExclusive(a: Index)
    ensures !(IsPositive(a) && IsNegative(a))
    ensures a == Index(0, 0) ==> !IsPositive(a) && !IsNegative(a)
    ensures IsPositive(a) <==> a.row > 0 && a.column > 0
    ensures IsNegative(a) <==> !(a.row >= 0 && a.column >= 0)
  {
  }

  /** The derived ordering is a strict total order. */
  lemma LessIsStrictTotalOrder(a: Index, b: Index, c: Index)
    ensures !Less(a, a)
    ensures Less(a, b) && Less(b, c) ==> Less(a, c)
    ensures a == b || Less(a, b) || Less(b, a)
    ensures !(Less(a, b) && Less(b, a))
  {
  }

  /** The unit tests of the source, on the model. */
  lemma Examples()
    ensures Pairwise(Add, Index(1, 2), Index(3, 4)) == Index(4, 6)
    ensures Pairwise(Sub, Index(5, 7), Index(2, 3)) == Index(3, 4)
    ensures Scalar(Mul, Index(2, 3), 2) == Index(4, 6)
    ensures Scalar(Div, Index(6, 8), 2) == Index(3, 4)
    ensures Scalar(Rem, Index(5, 7), 3) == Index(2, 1)
    ensures Scalar(Div, Index(-7, 7), 2) == Index(-3, 3)
    ensures Scalar(Rem, Index(-7, 7), 2) == Index(-1, 1)
    ensures Neg(Index(3, -4)) == Index(-3, 4)
    ensures AbsIndex(Index(-3, -4)) == Index(3, 4)
    ensures IsPositive(Index(3, 4)) && !IsPositive(Index(-3, 4))
    ensures IsNegative(Index(-3, -4)) && IsNegative(Index(3, -4)) && !IsNegative(Index(3, 4))
  {
  }

  /** A mutable GridIndex, for the compound-assignment operators (`+=`, `-=`, `*=`, `/=`, `%=`). */
  class IndexVar {
    var row: int
    var column: int

    constructor (i: Index)
      ensures Value() == i
    {
      row := i.row;
      column := i.column;
    }

    function Value(): Index
      reads this
    {
      Index(row, column)
    }

    /** `self op= rhs` with a GridIndex right-hand side. */
    method AssignPairwise(op: Op, rhs: Index)
      requires Defined(op, rhs.row) && Defined(op, rhs.column)
      modifies this
      ensures Value() == Pairwise(op, old(Value()), rhs)
    {
      row := ApplyInt(op, row, rhs.row);
      column := ApplyInt(op, column, rhs.column);
    }

    /** `self op= rhs` with a scalar right-hand side. */
    method AssignScalar(op: Op, rhs: int)
      requires Defined(op, rhs)
      modifies this
      ensures Value() == Scalar(op, old(Value()), rhs)
    {
      row := ApplyInt(op, row, rhs);
      column := ApplyInt(op, column, rhs);
    }
  }
}
