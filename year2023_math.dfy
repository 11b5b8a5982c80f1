/**
 * The arithmetic of the 2023 Swift solutions: prime factors by trial
 * division, and the least common multiple taken from them (the largest
 * power of each prime over the inputs).
 */
module Year2023Math {

  /*------------------------------------------------------------------------
    Divisibility and primes
  ------------------------------------------------------------------------*/

  function Mul(a: int, b: int): int { a * b }

  /** `d` divides `n`. */
  ghost predicate Divides(d: int, n: int) {
    exists k :: Mul(d, k) == n
  }

  /** No number from 2 up to `bound` (excluded) divides `n`. */
  ghost predicate NoDivisorBelow(n: int, bound: int) {
    forall d :: 2 <= d < bound ==> !Divides(d, n)
  }

  ghost predicate IsPrime(p: int) {
    p >= 2 && NoDivisorBelow(p, p)
  }

  lemma {:induction false} MulAtLeast(d: int, j: int)
    requires d >= 1 && j >= 1
    ensures d * j >= d
  {
    assert d * j == d + d * (j - 1);
  }

  lemma {:induction false} MulAssociative(a: int, b: int, c: int)
    ensures (a * b) * c == a * (b * c)
  {
  }

  lemma {:induction false} MulSwap(a: int, b: int, c: int)
    ensures a * (b * c) == b * (a * c)
  {
  }

  lemma {:induction false} MulMonotone(a: int, b: int, c: int, e: int)
    requires a >= c >= 0 && b >= e >= 0
    ensures a * b >= c * e
  {
    assert a * b - c * e == a * (b - e) + (a - c) * e;
  }

  /** `%` is zero exactly on the multiples (for a positive divisor). */
  lemma {:induction false} ModDivides(d: int, n: int)
    requires d >= 1
    ensures n % d == 0 <==> Divides(d, n)
  {
    if n % d == 0 {
      assert Mul(d, n / d) == n;
    }
    if Divides(d, n) {
      var k :| Mul(d, k) == n;
      var q := n / d;
      var r := n % d;
      assert d * k == d * q + r;
      assert r == d * (k - q);
      if k - q >= 1 {
        MulAtLeast(d, k - q);
      } else if k - q <= -1 {
        MulAtLeast(d, q - k);
        assert d * (k - q) == -(d * (q - k));
      }
    }
  }

  lemma {:induction false} DividesTransitive(a: int, b: int, c: int)
    requires Divides(a, b) && Divides(b, c)
    ensures Divides(a, c)
  {
    var k1 :| Mul(a, k1) == b;
    var k2 :| Mul(b, k2) == c;
    assert Mul(a, k1 * k2) == (a * k1) * k2;
  }

  lemma {:induction false} DividesProduct(a: int, b: int, c: int, d: int)
    requires Divides(a, b) && Divides(c, d)
    ensures Divides(a * c, b * d)
  {
    var k1 :| Mul(a, k1) == b;
    var k2 :| Mul(c, k2) == d;
    assert Mul(a * c, k1 * k2) == (a * k1) * (c * k2);
  }

  lemma {:induction false} DividesMultiple(a: int, b: int, c: int)
    requires Divides(a, b)
    ensures Divides(a, c * b)
  {
    var k :| Mul(a, k) == b;
    assert Mul(a, c * k) == c * (a * k);
  }

  /** A positive number's divisor that has no divisor of its own below it,
      and no divisor of the number below it, is prime. */
  lemma {:induction false} SmallestDivisorPrime(n: int, divisor: int)
    requires divisor >= 2 && Divides(divisor, n) && NoDivisorBelow(n, divisor)
    ensures IsPrime(divisor)
  {
    forall d | 2 <= d < divisor
      ensures !Divides(d, divisor)
    {
      if Divides(d, divisor) {
        DividesTransitive(d, divisor, n);
      }
    }
  }

  /** A number above one with no divisor below `divisor`, where
      `divisor * divisor` exceeds it, is prime. */
  lemma {:induction false} NoSmallDivisorPrime(n: int, divisor: int)
    requires n >= 2 && divisor >= 2 && NoDivisorBelow(n, divisor) && divisor * divisor > n
    ensures IsPrime(n)
  {
    forall d | 2 <= d < n
      ensures !Divides(d, n)
    {
      if d >= divisor && Divides(d, n) {
        var k :| Mul(d, k) == n;
        PositiveFactor(d, k);
        if k >= divisor {
          MulMonotone(d, k, divisor, divisor);
          assert false;
        } else if k >= 2 {
          assert Mul(k, d) == n;
          assert Divides(k, n);
          assert false;
        } else {
          assert false;
        }
      }
    }
  }

  /** A divisor of the quotient divides the number. */
  lemma {:induction false} QuotientDivisor(n: int, divisor: int, d: int)
    requires divisor >= 1 && n % divisor == 0 && Divides(d, n / divisor)
    ensures Divides(d, n)
  {
    assert Mul(n / divisor, divisor) == n;
    DividesTransitive(d, n / divisor, n);
  }

  /*------------------------------------------------------------------------
    Products
  ------------------------------------------------------------------------*/

  function Power(b: int, e: nat): int {
    if e == 0 then 1 else b * Power(b, e - 1)
  }

  lemma {:induction false} PowerAdd(b: int, e1: nat, e2: nat)
    ensures Power(b, e1 + e2) == Power(b, e1) * Power(b, e2)
  {
    if e2 > 0 {
      PowerAdd(b, e1, e2 - 1);
      assert Power(b, e1 + e2) == b * Power(b, e1 + e2 - 1);
    }
  }

  lemma {:induction false} PowerPositive(b: int, e: nat)
    requires b >= 1
    ensures Power(b, e) >= 1
  {
    if e > 0 {
      PowerPositive(b, e - 1);
      MulAtLeast(Power(b, e - 1), b);
    }
  }

  /** A lower power of a number divides a higher one. */
  lemma {:induction false} PowerDivides(b: int, e1: nat, e2: nat)
    requires e1 <= e2
    ensures Divides(Power(b, e1), Power(b, e2))
  {
    PowerAdd(b, e1, e2 - e1);
    assert Mul(Power(b, e1), Power(b, e2 - e1)) == Power(b, e2);
  }

  function SeqProduct(s: seq<int>): int {
    if s == [] then 1 else SeqProduct(s[..|s| - 1]) * s[|s| - 1]
  }

  /** Π p^k over a dictionary from primes to exponents. */
  ghost function MapProduct(m: map<int, nat>): int
    decreases |m|
  {
    if m.Keys == {} then 1
    else
      HasKey(m);
      var p :| p in m.Keys;
      RemoveSmaller(m, p);
      Power(p, m[p]) * MapProduct(m - {p})
  }

  lemma {:induction false} RemoveSmaller(m: map<int, nat>, p: int)
    requires p in m
    ensures |m - {p}| < |m|
  {
    assert m.Keys == (m - {p}).Keys + {p};
  }

  /** Any prime can be taken out first: the product does not depend on the
      order a dictionary is visited in. */
  lemma {:induction false} MapProductRemove(m: map<int, nat>, q: int)
    requires q in m
    ensures MapProduct(m) == Power(q, m[q]) * MapProduct(m - {q})
    decreases |m|
  {
    var p :| p in m.Keys && MapProduct(m) == Power(p, m[p]) * MapProduct(m - {p});
    if p != q {
      RemoveSmaller(m, p);
      MapProductRemove(m - {p}, q);
      RemoveSmaller(m, q);
      MapProductRemove(m - {q}, p);
      assert m - {p} - {q} == m - {q} - {p};
      MulSwap(Power(p, m[p]), Power(q, m[q]), MapProduct(m - {p} - {q}));
    }
  }

  lemma {:induction false} MapProductPositive(m: map<int, nat>)
    requires forall p :: p in m ==> p >= 1
    ensures MapProduct(m) >= 1
    decreases |m|
  {
    if m.Keys != {} {
      HasKey(m);
      var p :| p in m.Keys;
      MapProductRemove(m, p);
      RemoveSmaller(m, p);
      MapProductPositive(m - {p});
      PowerPositive(p, m[p]);
      MulAtLeast(Power(p, m[p]), MapProduct(m - {p}));
    }
  }

  /** Every prime of `m` appears in `largest` with at least its power. */
  ghost predicate Dominates(largest: map<int, nat>, m: map<int, nat>) {
    forall p :: p in m ==> p in largest && m[p] <= largest[p]
  }

  /** A product of prime powers divides one with larger powers. */
  lemma {:induction false} DominatedDivides(m: map<int, nat>, largest: map<int, nat>)
    requires Dominates(largest, m)
    ensures Divides(MapProduct(m), MapProduct(largest))
    decreases |largest|
  {
    if largest.Keys == {} {
      if m.Keys != {} {
        HasKey(m);
        assert false;
      }
      assert m == map[];
      assert Mul(1, 1) == 1;
    } else {
      HasKey(largest);
      var q :| q in largest.Keys;
      MapProductRemove(largest, q);
      RemoveSmaller(largest, q);
      if q in m {
        MapProductRemove(m, q);
        DominatedDivides(m - {q}, largest - {q});
        PowerDivides(q, m[q], largest[q]);
        DividesProduct(Power(q, m[q]), Power(q, largest[q]), MapProduct(m - {q}), MapProduct(largest - {q}));
      } else {
        DominatedDivides(m, largest - {q});
        DividesMultiple(MapProduct(m), MapProduct(largest - {q}), Power(q, largest[q]));
      }
    }
  }

  /*------------------------------------------------------------------------
    Euclid's lemma
  ------------------------------------------------------------------------*/

  /** A positive divisor of a positive number is at most the number. */
  lemma {:induction false} DivisorAtMost(d: int, n: int)
    requires d >= 1 && n >= 1 && Divides(d, n)
    ensures d <= n
  {
    var k :| Mul(d, k) == n;
    PositiveFactor(d, k);
    MulAtLeast(d, k);
  }

  /** A prime does not divide one. */
  lemma {:induction false} PrimeNotDividesOne(p: int)
    requires IsPrime(p)
    ensures !Divides(p, 1)
  {
    if Divides(p, 1) {
      DivisorAtMost(p, 1);
      assert false;
    }
  }

  /** A positive factor cancels from both sides of an equation. */
  lemma {:induction false} MulCancel(a: int, x: int, y: int)
    requires a >= 1 && a * x == a * y
    ensures x == y
  {
    assert a * (x - y) == 0;
  }

  /** Euclid's algorithm. */
  function Gcd(a: nat, b: nat): nat
    decreases b
  {
    if b == 0 then a else Gcd(b, a % b)
  }

  /** Bezout's identity: the greatest common divisor is an integer
      combination of the two numbers. */
  lemma {:induction false} GcdCombination(a: nat, b: nat) returns (x: int, y: int)
    ensures x * a + y * b == Gcd(a, b)
    decreases b
  {
    if b == 0 {
      x, y := 1, 0;
    } else {
      var x', y' := GcdCombination(b, a % b);
      var q := a / b;
      assert a % b == a - q * b;
      x, y := y', x' - y' * q;
      assert y' * (a - q * b) == y' * a - (y' * q) * b;
      assert (x' - y' * q) * b == x' * b - (y' * q) * b;
    }
  }

  /** The greatest common divisor divides both numbers. */
  lemma {:induction false} GcdDivides(a: nat, b: nat)
    ensures Divides(Gcd(a, b), a) && Divides(Gcd(a, b), b)
    decreases b
  {
    if b == 0 {
      assert Mul(a, 1) == a && Mul(a, 0) == 0;
    } else {
      GcdDivides(b, a % b);
      var g := Gcd(a, b);
      var k1 :| Mul(g, k1) == b;
      var k2 :| Mul(g, k2) == a % b;
      var q := a / b;
      assert a == q * b + a % b;
      assert g * (q * k1 + k2) == q * (g * k1) + g * k2;
      assert Mul(g, q * k1 + k2) == a;
    }
  }

  /** Euclid's lemma: a prime that divides a product divides one of its
      factors. */
  lemma {:induction false} EuclidLemma(p: int, a: int, b: int)
    requires IsPrime(p) && a >= 0 && Divides(p, a * b)
    ensures Divides(p, a) || Divides(p, b)
  {
    if !Divides(p, a) {
      var g := Gcd(p, a);
      GcdDivides(p, a);
      if g == 0 {
        assert false;
      }
      DivisorAtMost(g, p);
      if g == p {
        assert false;
      }
      assert !(2 <= g < p) ==> g == 1;
      var x, y := GcdCombination(p, a);
      var c :| Mul(p, c) == a * b;
      assert (x * p + y * a) * b == p * (x * b) + y * (a * b);
      assert Mul(p, x * b + y * c) == b;
    }
  }

  /** A prime does not divide a power of another prime. */
  lemma {:induction false} PrimeNotDividesPower(p: int, q: int, e: nat)
    requires IsPrime(p) && IsPrime(q) && p != q
    ensures !Divides(p, Power(q, e))
  {
    if e == 0 {
      PrimeNotDividesOne(p);
    } else {
      PrimeNotDividesPower(p, q, e - 1);
      if Divides(p, Power(q, e)) {
        EuclidLemma(p, q, Power(q, e - 1));
        DivisorAtMost(p, q);
        assert false;
      }
    }
  }

  /** A prime does not divide a product of powers of other primes. */
  lemma {:induction false} PrimeNotDividesProduct(p: int, m: map<int, nat>)
    requires IsPrime(p) && p !in m
    requires forall q :: q in m ==> IsPrime(q)
    ensures !Divides(p, MapProduct(m))
    decreases |m|
  {
    if m.Keys == {} {
      PrimeNotDividesOne(p);
    } else {
      HasKey(m);
      var q :| q in m;
      MapProductRemove(m, q);
      RemoveSmaller(m, q);
      PrimeNotDividesProduct(p, m - {q});
      PrimeNotDividesPower(p, q, m[q]);
      PowerPositive(q, m[q]);
      if Divides(p, MapProduct(m)) {
        EuclidLemma(p, Power(q, m[q]), MapProduct(m - {q}));
        assert false;
      }
    }
  }

  /** A power of a prime that divides `c * t`, where the prime does not
      divide `c`, divides `t`. */
  lemma {:induction false} PowerDividesCofactor(p: int, k: nat, c: int, t: int)
    requires IsPrime(p) && c >= 0 && !Divides(p, c) && Divides(Power(p, k), c * t)
    ensures Divides(Power(p, k), t)
  {
    if k == 0 {
      assert Mul(1, t) == t;
    } else {
      var below := Power(p, k - 1);
      assert Power(p, k) == p * below;
      var j :| Mul(p * below, j) == c * t;
      MulAssociative(p, below, j);
      assert Mul(p, below * j) == c * t;
      EuclidLemma(p, c, t);
      var s :| Mul(p, s) == t;
      MulSwap(c, p, s);
      MulCancel(p, below * j, c * s);
      assert Mul(below, j) == c * s;
      PowerDividesCofactor(p, k - 1, c, s);
      var i :| Mul(below, i) == s;
      MulAssociative(p, below, i);
      assert Mul(Power(p, k), i) == t;
    }
  }

  /** Powers of distinct primes that each divide `n` multiply to a divisor
      of `n`. */
  lemma {:induction false} ProductDividesMultiple(largest: map<int, nat>, n: int)
    requires forall p :: p in largest ==> IsPrime(p) && Divides(Power(p, largest[p]), n)
    ensures Divides(MapProduct(largest), n)
    decreases |largest|
  {
    if largest.Keys == {} {
      assert MapProduct(largest) == 1;
      assert Mul(1, n) == n;
    } else {
      HasKey(largest);
      var q :| q in largest;
      var rest := largest - {q};
      MapProductRemove(largest, q);
      RemoveSmaller(largest, q);
      var others := MapProduct(rest);
      var power := Power(q, largest[q]);
      ProductDividesMultiple(rest, n);
      var t :| Mul(others, t) == n;
      PrimeNotDividesProduct(q, rest);
      MapProductPositive(rest);
      PowerDividesCofactor(q, largest[q], others, t);
      var s :| Mul(power, s) == t;
      MulSwap(others, power, s);
      MulAssociative(power, others, s);
      assert Mul(MapProduct(largest), s) == n;
    }
  }

  /*------------------------------------------------------------------------
    Counting the factors
  ------------------------------------------------------------------------*/

  /** The `factorCounts` dictionary after the factors, each adding one to its
      own entry. */
  function Counts(factors: seq<int>): map<int, nat> {
    if factors == [] then map[]
    else
      var front := factors[..|factors| - 1];
      var last := factors[|factors| - 1];
      var before := Counts(front);
      before[last := (if last in before then before[last] else 0) + 1]
  }

  /** The keys are the factors and every count is at least one. */
  lemma {:induction false} CountsKeys(factors: seq<int>)
    ensures forall p :: p in Counts(factors) <==> p in factors
    ensures forall p :: p in Counts(factors) ==> Counts(factors)[p] >= 1
  {
    if factors != [] {
      var front := factors[..|factors| - 1];
      assert factors == front + [factors[|factors| - 1]];
      CountsKeys(front);
    }
  }

  /** Counting one more factor multiplies the product by it. */
  lemma {:induction false} CountsStep(before: map<int, nat>, last: int)
    ensures MapProduct(before[last := (if last in before then before[last] else 0) + 1]) ==
      last * MapProduct(before)
  {
    var c := if last in before then before[last] else 0;
    var after := before[last := c + 1];
    assert after - {last} == before - {last};
    MapProductRemove(after, last);
    if last in before {
      MapProductRemove(before, last);
    } else {
      assert before - {last} == before;
    }
    assert Power(last, c + 1) == last * Power(last, c);
    MulAssociative(last, Power(last, c), MapProduct(before - {last}));
  }

  /** Π p^k over the counts is the product of the factors. */
  lemma {:induction false} CountsProduct(factors: seq<int>)
    ensures MapProduct(Counts(factors)) == SeqProduct(factors)
  {
    if factors != [] {
      var front := factors[..|factors| - 1];
      var last := factors[|factors| - 1];
      var before := Counts(front);
      var m := MapProduct(before);
      var s := SeqProduct(front);
      assert MapProduct(Counts(factors)) == last * m by {
        assert Counts(factors) == before[last := (if last in before then before[last] else 0) + 1];
        CountsStep(before, last);
      }
      assert m == s by {
        CountsProduct(front);
      }
      assert SeqProduct(factors) == s * last;
      assert last * m == s * last;
    }
  }

  /*------------------------------------------------------------------------
    primeFactors and lcm
  ------------------------------------------------------------------------*/

  /** `m` holds the prime factorization of `n`: each prime with its
      exponent; nothing for a number below two. */
  ghost predicate Factorization(n: int, m: map<int, nat>) {
    (n <= 1 ==> m == map[]) &&
    (n >= 1 ==> MapProduct(m) == n) &&
    forall p :: p in m ==> IsPrime(p) && m[p] >= 1
  }

  /** The other factor of a positive product with a positive factor is
      positive. */
  lemma {:induction false} PositiveFactor(d: int, k: int)
    requires d >= 1 && d * k >= 1
    ensures k >= 1
  {
    if k <= 0 {
      MulMonotone(d, -k, 0, 0);
      assert false;
    }
  }

  /** The first loop of `primeFactors(of:)`: trial division by 2, 3, 4, ...
      until the divisor's square passes what is left, which is then a prime
      factor if above one. */
  method TrialDivision(n: int) returns (factors: seq<int>)
    ensures n <= 1 ==> factors == []
    ensures n >= 1 ==> SeqProduct(factors) == n
    ensures forall k :: 0 <= k < |factors| ==> IsPrime(factors[k])
  {
    var m := n;
    factors := [];
    var divisor := 2;
    while m > 1
      invariant n <= 1 ==> m == n && factors == []
      invariant n >= 1 ==> m >= 1 && SeqProduct(factors) * m == n
      invariant divisor >= 2 && (m <= 1 || divisor <= m)
      invariant NoDivisorBelow(m, divisor)
      invariant forall k :: 0 <= k < |factors| ==> IsPrime(factors[k])
      decreases m - divisor
    {
      ghost var before := m;
      while m % divisor == 0
        invariant 1 <= m <= before
        invariant SeqProduct(factors) * m == n
        invariant NoDivisorBelow(m, divisor)
        invariant forall k :: 0 <= k < |factors| ==> IsPrime(factors[k])
        decreases m
      {
        m, factors := DivideOnce(n, m, divisor, factors);
      }
      ModDivides(divisor, m);
      divisor := divisor + 1;
      if divisor * divisor > m {
        if m > 1 {
          NoSmallDivisorPrime(m, divisor);
          assert (factors + [m])[..|factors|] == factors;
          factors := factors + [m];
        }
        break;
      }
      MulAtLeast(divisor, divisor);
    }
  }

  /** One step of the inner loop: the divisor goes to the factors and out of
      what is left. */
  method DivideOnce(ghost n: int, m: int, divisor: int, factors: seq<int>) returns (q: int, factors': seq<int>)
    requires m >= 1 && divisor >= 2 && m % divisor == 0
    requires SeqProduct(factors) * m == n
    requires NoDivisorBelow(m, divisor)
    requires forall k :: 0 <= k < |factors| ==> IsPrime(factors[k])
    ensures 1 <= q < m && q == m / divisor && factors' == factors + [divisor]
    ensures SeqProduct(factors') * q == n
    ensures NoDivisorBelow(q, divisor)
    ensures forall k :: 0 <= k < |factors'| ==> IsPrime(factors'[k])
  {
    ModDivides(divisor, m);
    SmallestDivisorPrime(m, divisor);
    q := m / divisor;
    assert m == divisor * q;
    PositiveFactor(divisor, q);
    assert m == q + (divisor - 1) * q;
    MulAtLeast(divisor - 1, q);
    forall d | 2 <= d < divisor
      ensures !Divides(d, q)
    {
      if Divides(d, q) {
        QuotientDivisor(m, divisor, d);
      }
    }
    factors' := factors + [divisor];
    assert factors'[..|factors|] == factors;
    MulAssociative(SeqProduct(factors), divisor, q);
  }

  /** The second loop of `primeFactors(of:)`: counting each factor. */
  method CountFactors(factors: seq<int>) returns (factorCounts: map<int, nat>)
    ensures factorCounts == Counts(factors)
  {
    factorCounts := map[];
    for i := 0 to |factors|
      invariant factorCounts == Counts(factors[..i])
    {
      assert factors[..i + 1][..i] == factors[..i];
      var factor := factors[i];
      factorCounts := factorCounts[factor := (if factor in factorCounts then factorCounts[factor] else 0) + 1];
    }
    assert factors[..|factors|] == factors;
  }

  /** `primeFactors(of:)`: each prime factor of `n` with its exponent. */
  method PrimeFactors(n: int) returns (factorCounts: map<int, nat>)
    ensures Factorization(n, factorCounts)
  {
    var factors := TrialDivision(n);
    factorCounts := CountFactors(factors);
    CountsKeys(factors);
    CountsProduct(factors);
  }

  /** The loops of `lcm` over the factorizations: the largest power of each
      prime. */
  method LargestPowers(factorMaps: seq<map<int, nat>>) returns (largest: map<int, nat>)
    requires forall j :: 0 <= j < |factorMaps| ==> forall p :: p in factorMaps[j] ==> IsPrime(p)
    ensures forall j :: 0 <= j < |factorMaps| ==> Dominates(largest, factorMaps[j])
    ensures forall p :: p in largest ==> IsPrime(p)
    ensures forall p :: p in largest ==> exists j :: 0 <= j < |factorMaps| && p in factorMaps[j] && factorMaps[j][p] == largest[p]
  {
    largest := map[];
    for i := 0 to |factorMaps|
      invariant forall j :: 0 <= j < i ==> Dominates(largest, factorMaps[j])
      invariant forall p :: p in largest ==> IsPrime(p)
      invariant forall p :: p in largest ==> exists j :: 0 <= j < i && p in factorMaps[j] && factorMaps[j][p] == largest[p]
    {
      var f := factorMaps[i];
      var rest := f.Keys;
      while rest != {}
        invariant rest <= f.Keys
        invariant forall j :: 0 <= j < i ==> Dominates(largest, factorMaps[j])
        invariant forall p :: p in f && p !in rest ==> p in largest && f[p] <= largest[p]
        invariant forall p :: p in largest ==> IsPrime(p)
        invariant forall p :: p in largest ==> exists j :: 0 <= j <= i && p in factorMaps[j] && factorMaps[j][p] == largest[p]
        decreases rest
      {
        HasInt(rest);
        var prime :| prime in rest;
        var power := f[prime];
        largest := largest[prime := if prime in largest && largest[prime] > power then largest[prime] else power];
        rest := rest - {prime};
      }
    }
  }

  /** The `reduce` of `lcm`: the product of the prime powers, in whatever
      order the dictionary is visited. */
  method MultiplyOut(largest: map<int, nat>) returns (r: int)
    ensures r == MapProduct(largest)
  {
    r := 1;
    var remaining := largest;
    while remaining.Keys != {}
      invariant r * MapProduct(remaining) == MapProduct(largest)
      decreases |remaining|
    {
      HasKey(remaining);
      var prime :| prime in remaining;
      MapProductRemove(remaining, prime);
      RemoveSmaller(remaining, prime);
      MulAssociative(r, Power(prime, remaining[prime]), MapProduct(remaining - {prime}));
      r := r * Power(prime, remaining[prime]);
      remaining := remaining - {prime};
    }
    assert remaining == map[];
  }

  /** `r` is a multiple of every positive number of `numbers` (the others
      have no prime factors and play no part). */
  ghost predicate CommonMultiple(numbers: seq<int>, r: int) {
    forall i :: 0 <= i < |numbers| && numbers[i] >= 1 ==> Divides(numbers[i], r)
  }

  /** `r` is the least common multiple of the positive numbers of `numbers`:
      a positive common multiple that divides every common multiple. */
  ghost predicate IsLcm(numbers: seq<int>, r: int) {
    r >= 1 && CommonMultiple(numbers, r) &&
    forall m :: CommonMultiple(numbers, m) ==> Divides(r, m)
  }

  /** There is only one least common multiple, and it is at most every
      positive common multiple. */
  lemma {:induction false} LcmUnique(numbers: seq<int>, r: int, m: int)
    requires IsLcm(numbers, r) && m >= 1 && CommonMultiple(numbers, m)
    ensures r <= m
    ensures IsLcm(numbers, m) ==> r == m
  {
    DivisorAtMost(r, m);
    if IsLcm(numbers, m) {
      DivisorAtMost(m, r);
    }
  }

  /** Each prime power of a factorization divides the number. */
  lemma {:induction false} FactorDivides(n: int, f: map<int, nat>, p: int)
    requires Factorization(n, f) && p in f
    ensures Divides(Power(p, f[p]), n)
  {
    MapProductRemove(f, p);
    assert Mul(Power(p, f[p]), MapProduct(f - {p})) == n;
  }

  /** The product of the largest prime powers divides every common multiple
      of the numbers whose factorizations they dominate. */
  lemma {:induction false} LargestPowersLeast(numbers: seq<int>, factorMaps: seq<map<int, nat>>, largest: map<int, nat>, m: int)
    requires |factorMaps| == |numbers|
    requires forall j :: 0 <= j < |numbers| ==> Factorization(numbers[j], factorMaps[j])
    requires forall p :: p in largest ==> IsPrime(p)
    requires forall p :: p in largest ==> exists j :: 0 <= j < |factorMaps| && p in factorMaps[j] && factorMaps[j][p] == largest[p]
    requires CommonMultiple(numbers, m)
    ensures Divides(MapProduct(largest), m)
  {
    forall p | p in largest
      ensures Divides(Power(p, largest[p]), m)
    {
      var j :| 0 <= j < |factorMaps| && p in factorMaps[j] && factorMaps[j][p] == largest[p];
      FactorDivides(numbers[j], factorMaps[j], p);
      DividesTransitive(Power(p, largest[p]), numbers[j], m);
    }
    ProductDividesMultiple(largest, m);
  }

  /** `lcm`: the largest power of each prime over the inputs' factors,
      multiplied out, which is the least common multiple of the positive
      inputs (one for no inputs). */
  method Lcm(numbers: seq<int>) returns (r: int)
    ensures IsLcm(numbers, r)
    ensures numbers == [] ==> r == 1
  {
    var factorMaps: seq<map<int, nat>> := [];
    for i := 0 to |numbers|
      invariant |factorMaps| == i
      invariant forall j :: 0 <= j < i ==> Factorization(numbers[j], factorMaps[j])
    {
      var f := PrimeFactors(numbers[i]);
      factorMaps := factorMaps + [f];
    }
    var largest := LargestPowers(factorMaps);
    r := MultiplyOut(largest);
    forall p | p in largest
      ensures p >= 1
    {
    }
    MapProductPositive(largest);
    forall i | 0 <= i < |numbers| && numbers[i] >= 1
      ensures Divides(numbers[i], r)
    {
      DominatedDivides(factorMaps[i], largest);
    }
    forall m | CommonMultiple(numbers, m)
      ensures Divides(r, m)
    {
      LargestPowersLeast(numbers, factorMaps, largest, m);
    }
    if numbers == [] {
      assert CommonMultiple(numbers, 1);
      DivisorAtMost(r, 1);
    }
  }

  /** lcm(10, 15) is 30. */
  lemma LcmTenFifteen()
    ensures IsLcm([10, 15], 30)
  {
    var numbers := [10, 15];
    assert Mul(10, 3) == 30 && Mul(15, 2) == 30;
    forall m | CommonMultiple(numbers, m)
      ensures Divides(30, m)
    {
      assert numbers[0] == 10 && numbers[1] == 15;
      var a :| Mul(10, a) == m;
      var b :| Mul(15, b) == m;
      assert Mul(2, 5 * a) == 15 * b;
      assert !Divides(2, 15);
      EuclidLemma(2, 15, b);
      var c :| Mul(2, c) == b;
      assert Mul(30, c) == m;
    }
  }

  /** lcm(24, 10, 15) is 120. */
  lemma LcmTwentyFourTenFifteen()
    ensures IsLcm([24, 10, 15], 120)
  {
    var numbers := [24, 10, 15];
    assert Mul(24, 5) == 120 && Mul(10, 12) == 120 && Mul(15, 8) == 120;
    forall m | CommonMultiple(numbers, m)
      ensures Divides(120, m)
    {
      assert numbers[0] == 24 && numbers[2] == 15;
      var a :| Mul(24, a) == m;
      var b :| Mul(15, b) == m;
      assert Mul(5, 3 * b) == 24 * a;
      FiveIsPrime();
      assert !Divides(5, 24);
      EuclidLemma(5, 24, a);
      var c :| Mul(5, c) == a;
      assert Mul(120, c) == m;
    }
  }

  lemma FiveIsPrime()
    ensures IsPrime(5)
  {
    forall d | 2 <= d < 5
      ensures !Divides(d, 5)
    {
      if Divides(d, 5) {
        assert false;
      }
    }
  }

  /** `lcm` on the two examples of its documentation. */
  method LcmExamples() returns (a: int, b: int)
    ensures a == 30 && b == 120
  {
    a := Lcm([10, 15]);
    LcmTenFifteen();
    LcmUnique([10, 15], a, 30);
    LcmUnique([10, 15], 30, a);
    b := Lcm([24, 10, 15]);
    LcmTwentyFourTenFifteen();
    LcmUnique([24, 10, 15], b, 120);
    LcmUnique([24, 10, 15], 120, b);
  }

  /** A non-empty dictionary has a key. */
  lemma {:induction false} HasKey(m: map<int, nat>)
    requires m.Keys != {}
    ensures exists p :: p in m
  {
    if forall p :: p !in m {
      assert false;
    }
  }

  /** A non-empty set of numbers has an element. */
  lemma {:induction false} HasInt(s: set<int>)
    requires s != {}
    ensures exists p :: p in s
  {
    if forall p :: p !in s {
      assert false;
    }
  }

  /** A non-empty set has an element. */
  lemma {:induction false} HasElement<T>(s: set<T>)
    requires s != {}
    ensures exists p :: p in s
  {
    if forall p :: p !in s {
      assert false;
    }
  }
}
