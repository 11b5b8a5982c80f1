/**
 * 2024 day 22, Monkey Market: each buyer's secret number evolves by mixing
 * (XOR) and pruning (modulo 2^24). Part 1 adds up every buyer's 2000th secret;
 * part 2 reads the last digit of each secret as a price and picks the run of
 * four price changes that buys the most bananas when every buyer sells at the
 * first time that run appears.
 */
module Day22 {
  import opened Wrappers
  import opened Text
  import opened Bits

  /** A `u64` secret. */
  type Secret = nat

  /** Four consecutive price changes. */
  type Changes = (int, int, int, int)

  const PriceCount: nat := 2000
  /** `prices.windows(5)` over 2000 prices. */
  const WindowCount: nat := PriceCount - 4

  /** `wrapping_mul` on `u64`: the product modulo 2^64, as an optimised build computes it. */
  function WrappingMul(a: Secret, b: nat): Secret {
    (a * b) % 0x1_0000_0000_0000_0000
  }

  /** `evolve_secret`: multiply by 64, divide by 32, multiply by 2048, each step
      mixed into the secret with XOR and pruned modulo 2^24. */
  function Evolve(secret: Secret): (r: Secret)
    ensures r < 16777216
  {
    var a := Xor(WrappingMul(secret, 64), secret) % 16777216;
    var b := Xor(a / 32, a) % 16777216;
    Xor(WrappingMul(b, 2048), b) % 16777216
  }

  /** The secret after `n` evolutions. */
  function Iterate(secret: Secret, n: nat): Secret {
    if n == 0 then secret else Evolve(Iterate(secret, n - 1))
  }

  /** The `for _ in 0..2000` loop of `part1`. */
  method EvolveTimes(secret: Secret, n: nat) returns (r: Secret)
    ensures r == Iterate(secret, n)
  {
    r := secret;
    for i := 0 to n
      invariant r == Iterate(secret, i)
    {
      r := Evolve(r);
    }
  }

  /** The 2000th secrets of the buyers, added up. */
  function SecretSum(secrets: seq<Secret>): nat {
    if |secrets| == 0 then 0
    else SecretSum(secrets[..|secrets| - 1]) + Iterate(secrets[|secrets| - 1], PriceCount)
  }

  /** Every term of part 1's sum is below 2^24. */
  lemma {:induction false} SecretSumBound(secrets: seq<Secret>)
    ensures SecretSum(secrets) < 16777216 * (|secrets| + 1)
    decreases |secrets|
  {
    if |secrets| > 0 {
      SecretSumBound(secrets[..|secrets| - 1]);
    }
  }

  /** `parse_input`: one unsigned 64-bit secret per line; any other line is a panic. */
  function ParseSecrets(lines: seq<string>): (r: Option<seq<Secret>>)
    ensures r.Some? ==> |r.value| == |lines|
    ensures r.Some? <==> forall i :: 0 <= i < |lines| ==> Secret64(lines[i]).Some?
    ensures r.Some? ==> forall i :: 0 <= i < |lines| ==> Secret64(lines[i]) == Some(r.value[i])
  {
    if |lines| == 0 then Some([])
    else
      match ParseSecrets(lines[..|lines| - 1])
      case None => None
      case Some(init) =>
        match Secret64(lines[|lines| - 1])
        case None => None
        case Some(s) => Some(init + [s])
  }

  /** `str::parse::<u64>`. */
  function Secret64(line: string): (r: Option<Secret>)
    ensures r.Some? <==> ParseUnsigned(line).Some? && ParseUnsigned(line).value < 0x1_0000_0000_0000_0000
    ensures r.Some? ==> r.value == ParseUnsigned(line).value
  {
    match ParseUnsigned(line)
    case Some(n) => if n < 0x1_0000_0000_0000_0000 then Some(n) else None
    case None => None
  }

  /** `part1`: the sum of every buyer's 2000th secret. */
  method Part1(input: string) returns (r: Option<string>)
    ensures ParseSecrets(Lines(input)).None? ==> r.None?
    ensures ParseSecrets(Lines(input)).Some? ==> r == Some(DecimalString(SecretSum(ParseSecrets(Lines(input)).value)))
  {
    var parsed := ParseSecrets(Lines(input));
    if parsed.None? {
      return None;
    }
    var secrets := parsed.value;
    var total: nat := 0;
    for k := 0 to |secrets|
      invariant total == SecretSum(secrets[..k])
    {
      assert secrets[..k + 1][..k] == secrets[..k];
      var secret := EvolveTimes(secrets[k], PriceCount);
      total := total + secret;
    }
    assert secrets[..|secrets|] == secrets;
    r := Some(DecimalString(total));
  }

  /** A buyer's prices: the last digit of each of its first 2000 secrets. */
  function Prices(secret: Secret): (p: seq<int>)
    ensures |p| == PriceCount
    ensures forall i :: 0 <= i < |p| ==> 0 <= p[i] <= 9
  {
    seq(PriceCount, i requires 0 <= i < PriceCount => Iterate(secret, i) % 10)
  }

  /** The four changes leading up to the price at `j + 4`. */
  function ChangesAt(prices: seq<int>, j: nat): Changes
    requires j + 4 < |prices|
  {
    (prices[j + 1] - prices[j], prices[j + 2] - prices[j + 1],
     prices[j + 3] - prices[j + 2], prices[j + 4] - prices[j + 3])
  }

  /** Prices are single digits, so every change fits an `i8`: it lies in [-9, 9]. */
  lemma ChangesInRange(secret: Secret, j: nat)
    requires j < WindowCount
    ensures var c := ChangesAt(Prices(secret), j);
      -9 <= c.0 <= 9 && -9 <= c.1 <= 9 && -9 <= c.2 <= 9 && -9 <= c.3 <= 9
  {
  }

  /** The change runs of the first `w` windows. */
  function Seen(prices: seq<int>, w: nat): set<Changes>
    requires w + 4 <= |prices|
  {
    set j | 0 <= j < w :: ChangesAt(prices, j)
  }

  /** The price the buyer sells at when the monkey waits for `changes`: the price
      ending the first window from `j` (and before `w`) with those changes, or
      nothing when no such window exists. */
  function FirstSale(prices: seq<int>, changes: Changes, j: nat, w: nat): int
    requires w + 4 <= |prices|
    decreases w - j
  {
    if j >= w then 0
    else if ChangesAt(prices, j) == changes then prices[j + 4]
    else FirstSale(prices, changes, j + 1, w)
  }

  /** The sale is nothing when the changes never occur ... */
  lemma {:induction false} NoOccurrenceNoSale(prices: seq<int>, changes: Changes, j: nat, w: nat)
    requires w + 4 <= |prices| && j <= w
    requires forall i :: j <= i < w ==> ChangesAt(prices, i) != changes
    ensures FirstSale(prices, changes, j, w) == 0
    decreases w - j
  {
    if j < w {
      NoOccurrenceNoSale(prices, changes, j + 1, w);
    }
  }

  /** ... and otherwise the price that ends their first occurrence. */
  lemma {:induction false} FirstOccurrenceSale(prices: seq<int>, changes: Changes, j: nat, k: nat, w: nat)
    requires w + 4 <= |prices| && j <= k < w && ChangesAt(prices, k) == changes
    requires forall i :: j <= i < k ==> ChangesAt(prices, i) != changes
    ensures FirstSale(prices, changes, j, w) == prices[k + 4]
    decreases k - j
  {
    if j < k {
      FirstOccurrenceSale(prices, changes, j + 1, k, w);
    }
  }

  /** One more window adds its price only when its changes have not been seen. */
  lemma {:induction false} FirstSaleExtend(prices: seq<int>, changes: Changes, j: nat, w: nat)
    requires w + 5 <= |prices| && j <= w
    ensures FirstSale(prices, changes, j, w + 1) == FirstSale(prices, changes, j, w) +
      (if (forall i :: j <= i < w ==> ChangesAt(prices, i) != changes) && ChangesAt(prices, w) == changes
       then prices[w + 4] else 0)
    decreases w - j
  {
    if j < w {
      FirstSaleExtend(prices, changes, j + 1, w);
    }
  }

  lemma SeenStep(prices: seq<int>, w: nat)
    requires w + 5 <= |prices|
    ensures Seen(prices, w + 1) == Seen(prices, w) + {ChangesAt(prices, w)}
  {
  }

  /** `entry(..).or_insert(0)` read back: the bananas so far for a run. */
  function Get(m: map<Changes, nat>, changes: Changes): nat {
    if changes in m then m[changes] else 0
  }

  /** The bananas a run of changes buys from all these buyers. */
  function Bananas(secrets: seq<Secret>, changes: Changes): nat {
    if |secrets| == 0 then 0
    else
      var price := FirstSale(Prices(secrets[|secrets| - 1]), changes, 0, WindowCount);
      Bananas(secrets[..|secrets| - 1], changes) + (if price >= 0 then price else 0)
  }

  /** Every run whose changes some buyer shows. */
  function AllSeen(secrets: seq<Secret>): set<Changes> {
    if |secrets| == 0 then {}
    else AllSeen(secrets[..|secrets| - 1]) + Seen(Prices(secrets[|secrets| - 1]), WindowCount)
  }

  /** Each buyer sells at most once per run, for at most 9 bananas. */
  lemma {:induction false} BananasBound(secrets: seq<Secret>, changes: Changes)
    ensures Bananas(secrets, changes) <= 9 * |secrets|
    decreases |secrets|
  {
    if |secrets| > 0 {
      var p := Prices(secrets[|secrets| - 1]);
      FirstSaleBound(p, changes, 0, WindowCount);
      BananasBound(secrets[..|secrets| - 1], changes);
    }
  }

  lemma {:induction false} FirstSaleBound(prices: seq<int>, changes: Changes, j: nat, w: nat)
    requires w + 4 <= |prices| && forall i :: 0 <= i < |prices| ==> 0 <= prices[i] <= 9
    ensures 0 <= FirstSale(prices, changes, j, w) <= 9
    decreases w - j
  {
    if j < w {
      FirstSaleBound(prices, changes, j + 1, w);
    }
  }

  /** A run no buyer shows buys nothing. */
  lemma {:induction false} UnseenBuysNothing(secrets: seq<Secret>, changes: Changes)
    requires changes !in AllSeen(secrets)
    ensures Bananas(secrets, changes) == 0
    decreases |secrets|
  {
    if |secrets| > 0 {
      var p := Prices(secrets[|secrets| - 1]);
      NoOccurrenceNoSale(p, changes, 0, WindowCount);
      UnseenBuysNothing(secrets[..|secrets| - 1], changes);
    }
  }

  /** Fills the price buffer for one buyer (`prices.iter_mut()`). */
  method FillPrices(prices: array<int>, secret: Secret)
    requires prices.Length == PriceCount
    modifies prices
    ensures prices[..] == Prices(secret)
  {
    var s := secret;
    for i := 0 to prices.Length
      invariant s == Iterate(secret, i)
      invariant forall j :: 0 <= j < i ==> prices[j] == Prices(secret)[j]
    {
      prices[i] := s % 10;
      s := Evolve(s);
    }
  }

  /** The windows loop for one buyer: each run seen for the first time adds the
      price that ends its window. The set of runs seen starts empty for every
      buyer (`seller_sequences.clear()`). */
  method AddBuyer(bananasBySequence: map<Changes, nat>, prices: array<int>) returns (m: map<Changes, nat>)
    requires prices.Length == PriceCount
    requires forall i :: 0 <= i < prices.Length ==> 0 <= prices[i] <= 9
    ensures forall c :: Get(m, c) == Get(bananasBySequence, c) + FirstSale(prices[..], c, 0, WindowCount)
    ensures m.Keys == bananasBySequence.Keys + Seen(prices[..], WindowCount)
  {
    ghost var p := prices[..];
    m := bananasBySequence;
    var sellerSequences: set<Changes> := {};
    for w := 0 to WindowCount
      invariant sellerSequences == Seen(p, w)
      invariant forall c :: Get(m, c) == Get(bananasBySequence, c) + FirstSale(p, c, 0, w)
      invariant m.Keys == bananasBySequence.Keys + Seen(p, w)
    {
      var sequence := (prices[w + 1] - prices[w], prices[w + 2] - prices[w + 1],
                       prices[w + 3] - prices[w + 2], prices[w + 4] - prices[w + 3]);
      assert sequence == ChangesAt(p, w);
      forall c ensures FirstSale(p, c, 0, w + 1) == FirstSale(p, c, 0, w) +
        (if c !in Seen(p, w) && ChangesAt(p, w) == c then p[w + 4] else 0)
      {
        FirstSaleExtend(p, c, 0, w);
      }
      SeenStep(p, w);
      if sequence !in sellerSequences {
        m := m[sequence := Get(m, sequence) + prices[w + 4]];
        sellerSequences := sellerSequences + {sequence};
      }
    }
  }

  /** `values().max()`: the largest value, or None for an empty map. */
  method MaxValue(m: map<Changes, nat>) returns (r: Option<nat>)
    ensures r.None? <==> m == map[]
    ensures r.Some? ==> (exists c :: c in m && m[c] == r.value) && forall c :: c in m ==> m[c] <= r.value
  {
    var keys := m.Keys;
    r := None;
    while keys != {}
      invariant keys <= m.Keys
      invariant r.None? <==> keys == m.Keys
      invariant r.Some? ==> ((exists c :: c in m && m[c] == r.value) &&
        forall c :: c in m.Keys - keys ==> m[c] <= r.value)
      decreases |keys|
    {
      var c :| c in keys;
      if r.None? || m[c] > r.value {
        r := Some(m[c]);
      }
      keys := keys - {c};
    }
    if r.None? {
      assert m.Keys == {};
    }
  }

  /** `find_maximum_bananas`: the most bananas any run of four changes buys.
      With no buyer there is no run at all and `unwrap` panics: None. */
  method FindMaximumBananas(secrets: seq<Secret>) returns (r: Option<nat>)
    ensures r.None? <==> |secrets| == 0
    ensures r.Some? ==> ((exists c :: Bananas(secrets, c) == r.value) &&
      forall c :: Bananas(secrets, c) <= r.value)
  {
    var bananasBySequence: map<Changes, nat> := map[];
    var prices := new int[PriceCount](i => 0);
    for k := 0 to |secrets|
      invariant prices.Length == PriceCount
      invariant forall c :: Get(bananasBySequence, c) == Bananas(secrets[..k], c)
      invariant bananasBySequence.Keys == AllSeen(secrets[..k])
    {
      assert secrets[..k + 1][..k] == secrets[..k];
      FillPrices(prices, secrets[k]);
      forall c ensures 0 <= FirstSale(prices[..], c, 0, WindowCount) {
        FirstSaleBound(prices[..], c, 0, WindowCount);
      }
      bananasBySequence := AddBuyer(bananasBySequence, prices);
    }
    assert secrets[..|secrets|] == secrets;
    if |secrets| > 0 {
      var p := Prices(secrets[|secrets| - 1]);
      assert ChangesAt(p, 0) in AllSeen(secrets);
    }
    r := MaxValue(bananasBySequence);
    if r.Some? {
      forall c ensures Bananas(secrets, c) <= r.value {
        if c !in bananasBySequence {
          UnseenBuysNothing(secrets, c);
        } else {
          assert Get(bananasBySequence, c) == Bananas(secrets, c);
        }
      }
      var c :| c in bananasBySequence && bananasBySequence[c] == r.value;
      assert Get(bananasBySequence, c) == Bananas(secrets, c);
    }
  }

  /** `part2`: the most bananas, or None when a line does not parse or there is no buyer. */
  method Part2(input: string) returns (r: Option<string>)
    ensures r.Some? <==> ParseSecrets(Lines(input)).Some? && |Lines(input)| > 0
    ensures r.Some? ==> exists n: nat :: (r.value == DecimalString(n) &&
      (exists c :: Bananas(ParseSecrets(Lines(input)).value, c) == n) &&
      forall c :: Bananas(ParseSecrets(Lines(input)).value, c) <= n)
  {
    var parsed := ParseSecrets(Lines(input));
    if parsed.None? {
      return None;
    }
    var best := FindMaximumBananas(parsed.value);
    if best.None? {
      return None;
    }
    r := Some(DecimalString(best.value));
  }
}
