/** Bitwise operations on unbounded naturals: exclusive or and powers of two. */
module Bits {

  /** Bitwise exclusive or of two naturals, one binary digit at a time. */
  function Xor(a: nat, b: nat): nat
    decreases a + b
  {
    if a == 0 then b
    else if b == 0 then a
    else 2 * Xor(a / 2, b / 2) + (if a % 2 == b % 2 then 0 else 1)
  }

  function Pow2(k: nat): (p: nat)
    ensures p >= 1
  {
    if k == 0 then 1 else 2 * Pow2(k - 1)
  }

  /** The lowest digit of `Xor(a, b)` differs exactly where the operands' lowest digits
      differ, and the remaining digits are the exclusive or of the remaining digits. */
  lemma XorDigits(a: nat, b: nat)
    ensures Xor(a, b) % 2 == (if a % 2 == b % 2 then 0 else 1)
    ensures Xor(a, b) / 2 == Xor(a / 2, b / 2)
  {
    if a == 0 {
      assert Xor(a, b) == b == Xor(a / 2, b / 2) * 2 + b % 2;
    } else if b == 0 {
      assert Xor(a, b) == a == Xor(a / 2, b / 2) * 2 + a % 2;
    } else {
      var low := if a % 2 == b % 2 then 0 else 1;
      assert Xor(a, b) == 2 * Xor(a / 2, b / 2) + low;
    }
  }

  /** Exclusive or with the same number twice gives the number back. */
  lemma {:induction false} XorInvolution(a: nat, b: nat)
    ensures Xor(Xor(a, b), b) == a
    decreases a + b
  {
    if a + b > 0 {
      var x := Xor(a, b);
      XorDigits(a, b);
      XorDigits(x, b);
      XorInvolution(a / 2, b / 2);
      assert Xor(x, b) / 2 == a / 2;
      assert Xor(x, b) % 2 == a % 2;
    }
  }

  /** Exclusive or does not care about the order of its operands. */
  lemma {:induction false} XorCommutes(a: nat, b: nat)
    ensures Xor(a, b) == Xor(b, a)
    decreases a + b
  {
    if a != 0 && b != 0 {
      XorCommutes(a / 2, b / 2);
    }
  }

  /** Exclusive or of two numbers below `2^k` is below `2^k`: it never sets a higher bit. */
  lemma {:induction false} XorBelow(a: nat, b: nat, k: nat)
    requires a < Pow2(k) && b < Pow2(k)
    ensures Xor(a, b) < Pow2(k)
    decreases k
  {
    if k > 0 {
      XorDigits(a, b);
      XorBelow(a / 2, b / 2, k - 1);
    }
  }

  /** `a` shifted right by `k` binary digits. */
  function ShiftRight(a: nat, k: nat): nat {
    if k == 0 then a else ShiftRight(a / 2, k - 1)
  }

  /** Division by `d` is the only quotient leaving a remainder below `d`. */
  lemma DivUnique(a: nat, d: nat, q: nat, r: nat)
    requires d >= 1 && a == q * d + r && r < d
    ensures a / d == q
  {
    var q0, r0 := a / d, a % d;
    assert a == q0 * d + r0 && 0 <= r0 < d;
    assert q * d < (q0 + 1) * d;
    MulCancel(q, q0 + 1, d);
    assert q0 * d < (q + 1) * d;
    MulCancel(q0, q + 1, d);
  }

  /** A product with the same positive factor is smaller only if the other factor is. */
  lemma MulCancel(x: nat, y: nat, d: nat)
    requires d >= 1 && x * d < y * d
    ensures x < y
  {
    assert x * d - y * d == (x - y) * d;
  }

  /** Halving and then dividing by `m` is dividing by `2m`. */
  lemma HalfThenDivide(a: nat, m: nat)
    requires m >= 1
    ensures a / (2 * m) == (a / 2) / m
  {
    var q, r2, r1 := (a / 2) / m, (a / 2) % m, a % 2;
    assert a / 2 == q * m + r2;
    assert a == q * (2 * m) + (2 * r2 + r1);
    DivUnique(a, 2 * m, q, 2 * r2 + r1);
  }

  /** Shifting right by `k` digits is dividing by `2^k`, and never gives more than `a`. */
  lemma {:induction false} ShiftRightDivides(a: nat, k: nat)
    ensures ShiftRight(a, k) == a / Pow2(k)
    ensures ShiftRight(a, k) <= a
    decreases k
  {
    if k > 0 {
      ShiftRightDivides(a / 2, k - 1);
      HalfThenDivide(a, Pow2(k - 1));
    }
  }

  /** Bitwise or, one binary digit at a time. */
  function Or(a: nat, b: nat): nat
    decreases a + b
  {
    if a == 0 then b
    else if b == 0 then a
    else 2 * Or(a / 2, b / 2) + (if a % 2 == 1 || b % 2 == 1 then 1 else 0)
  }

  /** Bitwise and, one binary digit at a time. */
  function And(a: nat, b: nat): nat
    decreases a + b
  {
    if a == 0 || b == 0 then 0
    else 2 * And(a / 2, b / 2) + (if a % 2 == 1 && b % 2 == 1 then 1 else 0)
  }

  /** Binary digit `k` of `a` is 1. */
  predicate TestBit(a: nat, k: nat) {
    ShiftRight(a, k) % 2 == 1
  }

  /** Digit `k + 1` of `a` is digit `k` of `a / 2`. */
  lemma TestBitHalf(a: nat, k: nat)
    ensures TestBit(a, k + 1) == TestBit(a / 2, k)
  {
  }

  lemma {:induction false} TestBitZero(k: nat)
    ensures !TestBit(0, k)
    decreases k
  {
    if k > 0 {
      TestBitZero(k - 1);
    }
  }

  /** `2^j` has exactly one digit 1, digit `j`. */
  lemma {:induction false} TestBitPow2(j: nat, k: nat)
    ensures TestBit(Pow2(j), k) <==> j == k
    decreases k
  {
    if k > 0 {
      TestBitHalf(Pow2(j), k - 1);
      if j == 0 {
        TestBitZero(k - 1);
      } else {
        TestBitPow2(j - 1, k - 1);
      }
    }
  }

  /** A digit of `Or(a, b)` is 1 exactly when it is 1 in `a` or in `b`. */
  lemma {:induction false} TestBitOr(a: nat, b: nat, k: nat)
    ensures TestBit(Or(a, b), k) <==> TestBit(a, k) || TestBit(b, k)
    decreases k
  {
    if k > 0 {
      TestBitHalf(Or(a, b), k - 1);
      TestBitHalf(a, k - 1);
      TestBitHalf(b, k - 1);
      if a == 0 {
        TestBitZero(k);
      } else if b == 0 {
        TestBitZero(k);
      } else {
        assert Or(a, b) / 2 == Or(a / 2, b / 2);
        TestBitOr(a / 2, b / 2, k - 1);
      }
    }
  }

  /** A digit of `And(a, b)` is 1 exactly when it is 1 in both. */
  lemma {:induction false} TestBitAnd(a: nat, b: nat, k: nat)
    ensures TestBit(And(a, b), k) <==> TestBit(a, k) && TestBit(b, k)
    decreases k
  {
    if a == 0 || b == 0 {
      TestBitZero(k);
    } else if k > 0 {
      TestBitHalf(And(a, b), k - 1);
      TestBitHalf(a, k - 1);
      TestBitHalf(b, k - 1);
      assert And(a, b) / 2 == And(a / 2, b / 2);
      TestBitAnd(a / 2, b / 2, k - 1);
    }
  }

  /** A digit of `Xor(a, b)` is 1 exactly when the digits of `a` and `b` differ. */
  lemma {:induction false} TestBitXor(a: nat, b: nat, k: nat)
    ensures TestBit(Xor(a, b), k) <==> TestBit(a, k) != TestBit(b, k)
    decreases k
  {
    XorDigits(a, b);
    if k > 0 {
      TestBitHalf(Xor(a, b), k - 1);
      TestBitHalf(a, k - 1);
      TestBitHalf(b, k - 1);
      TestBitXor(a / 2, b / 2, k - 1);
    }
  }

  /** Two numbers with the same binary digits are equal. */
  lemma {:induction false} BitsDetermine(a: nat, b: nat)
    requires forall k: nat :: TestBit(a, k) == TestBit(b, k)
    ensures a == b
    decreases a + b
  {
    if a + b > 0 {
      assert TestBit(a, 0) == TestBit(b, 0);
      forall k: nat
        ensures TestBit(a / 2, k) == TestBit(b / 2, k)
      {
        TestBitHalf(a, k);
        TestBitHalf(b, k);
        assert TestBit(a, k + 1) == TestBit(b, k + 1);
      }
      BitsDetermine(a / 2, b / 2);
    }
  }
}
