/**
 * 2024 day 11, Plutonian Pebbles: at every blink each stone changes at once.
 * A 0 becomes a 1, a stone with an even number of digits splits into its left
 * and right halves, and any other stone is multiplied by 2024. The answer is
 * the number of stones after 25 (part 1) or 75 (part 2) blinks, counted stone
 * by stone with a memo.
 */
module Day11 {
  import opened Wrappers
  import opened Text

  /** `u64`. */
  type Stone = nat

  /** `transform`: the stones one stone becomes at a blink. */
  function Transform(stone: Stone): (r: seq<Stone>)
    ensures 1 <= |r| <= 2
  {
    var text := DecimalString(stone);
    if stone == 0 then [1]
    else if |text| % 2 == 0 then
      var half := |text| / 2;
      [DecimalValue(text[..half]), DecimalValue(text[half..])]
    else [stone * 2024]
  }

  /** A split stone is its left half's digits followed by its right half's: the
      halves put back together give the stone, and the right half is below
      `10^half` (leading zeros are dropped from it). */
  lemma TransformSplitsDigits(stone: Stone)
    requires stone != 0 && |DecimalString(stone)| % 2 == 0
    ensures var half := |DecimalString(stone)| / 2;
      |Transform(stone)| == 2 &&
      Transform(stone)[0] * Pow10(half) + Transform(stone)[1] == stone &&
      Transform(stone)[1] < Pow10(half)
  {
    var text := DecimalString(stone);
    var half := |text| / 2;
    assert text == text[..half] + text[half..];
    DecimalValueAppend(text[..half], text[half..]);
    DecimalRoundTrip(stone);
    DecimalValueBelow(text[half..]);
  }

  /** A number of `k` digits is below `10^k`. */
  lemma {:induction false} DecimalValueBelow(s: string)
    requires AllDigits(s)
    ensures DecimalValue(s) < Pow10(|s|)
    decreases |s|
  {
    if |s| > 0 {
      DecimalValueBelow(s[..|s| - 1]);
    }
  }

  /** A stone that neither is 0 nor splits is multiplied by 2024. */
  lemma TransformOddDigits(stone: Stone)
    requires stone != 0 && |DecimalString(stone)| % 2 == 1
    ensures Transform(stone) == [stone * 2024]
  {
  }

  /** One blink of a whole line of stones, in order. */
  function Step(line: seq<Stone>): seq<Stone> {
    if |line| == 0 then [] else Step(line[..|line| - 1]) + Transform(line[|line| - 1])
  }

  /** The line after `n` blinks. */
  function StepN(line: seq<Stone>, n: nat): seq<Stone>
    decreases n
  {
    if n == 0 then line else StepN(Step(line), n - 1)
  }

  /** A blink changes each stone independently: a line split in two blinks into
      the two halves' results side by side. */
  lemma {:induction false} StepAppend(a: seq<Stone>, b: seq<Stone>)
    ensures Step(a + b) == Step(a) + Step(b)
    decreases |b|
  {
    if |b| == 0 {
      assert a + b == a;
    } else {
      var init, last := b[..|b| - 1], b[|b| - 1];
      StepAppend(a, init);
      assert (a + b)[..|a + b| - 1] == a + init && (a + b)[|a + b| - 1] == last;
      assert Step(a + b) == Step(a + init) + Transform(last);
      assert Step(b) == Step(init) + Transform(last);
    }
  }

  lemma {:induction false} StepNAppend(a: seq<Stone>, b: seq<Stone>, n: nat)
    ensures StepN(a + b, n) == StepN(a, n) + StepN(b, n)
    decreases n
  {
    if n > 0 {
      StepAppend(a, b);
      StepNAppend(Step(a), Step(b), n - 1);
    }
  }

  /** The stones `stone` has become after `blinks + 1` blinks, counted the way
      `recursive_blink` does without its memo. */
  function Blink(stone: Stone, blinks: nat): nat
    decreases blinks, 0
  {
    if blinks == 0 then |Transform(stone)| else SumBlinks(Transform(stone), blinks - 1)
  }

  /** `Blink` summed over a line of stones. */
  function SumBlinks(stones: seq<Stone>, blinks: nat): nat
    decreases blinks, 1, |stones|
  {
    if |stones| == 0 then 0
    else SumBlinks(stones[..|stones| - 1], blinks) + Blink(stones[|stones| - 1], blinks)
  }

  /** One more stone of the line adds its own count. */
  lemma SumBlinksSnoc(stones: seq<Stone>, k: nat, blinks: nat)
    requires k < |stones|
    ensures SumBlinks(stones[..k + 1], blinks) == SumBlinks(stones[..k], blinks) + Blink(stones[k], blinks)
  {
    assert stones[..k + 1][..k] == stones[..k];
  }

  /** `recursive_blink(s, n)` counts the stones after exactly `n + 1` blinks. */
  lemma {:induction false} BlinkCountsStones(stone: Stone, blinks: nat)
    ensures Blink(stone, blinks) == |StepN([stone], blinks + 1)|
    decreases blinks, 0
  {
    assert Step([stone]) == Transform(stone) by {
      assert [stone][..0] == [];
    }
    if blinks > 0 {
      SumBlinksCountStones(Transform(stone), blinks - 1);
    }
  }

  lemma {:induction false} SumBlinksCountStones(stones: seq<Stone>, blinks: nat)
    ensures SumBlinks(stones, blinks) == |StepN(stones, blinks + 1)|
    decreases blinks, 1, |stones|
  {
    if |stones| == 0 {
      StepNEmpty(blinks + 1);
    } else {
      var init, last := stones[..|stones| - 1], stones[|stones| - 1];
      assert SumBlinks(stones, blinks) == SumBlinks(init, blinks) + Blink(last, blinks);
      assert SumBlinks(init, blinks) == |StepN(init, blinks + 1)| by {
        SumBlinksCountStones(init, blinks);
      }
      assert Blink(last, blinks) == |StepN([last], blinks + 1)| by {
        BlinkCountsStones(last, blinks);
      }
      StepNCountLast(stones, blinks + 1);
    }
  }

  /** The stones after `n` blinks of a line are those of all but its last
      stone, then those of the last. */
  lemma {:induction false} StepNCountLast(stones: seq<Stone>, n: nat)
    requires |stones| > 0
    ensures |StepN(stones, n)| == |StepN(stones[..|stones| - 1], n)| + |StepN([stones[|stones| - 1]], n)|
  {
    assert stones == stones[..|stones| - 1] + [stones[|stones| - 1]];
    StepNAppend(stones[..|stones| - 1], [stones[|stones| - 1]], n);
  }

  lemma {:induction false} StepNEmpty(n: nat)
    ensures StepN([], n) == []
    decreases n
  {
    if n > 0 {
      StepNEmpty(n - 1);
    }
  }

  /** Every stone leaves at least one stone behind. */
  lemma {:induction false} BlinkPositive(stone: Stone, blinks: nat)
    ensures Blink(stone, blinks) >= 1
  {
    BlinkCountsStones(stone, blinks);
    StepNLength([stone], blinks + 1);
  }

  lemma {:induction false} StepNLength(line: seq<Stone>, n: nat)
    ensures |StepN(line, n)| >= |line|
    decreases n
  {
    if n > 0 {
      var next := Step(line);
      StepLength(line);
      StepNLength(next, n - 1);
      assert StepN(line, n) == StepN(next, n - 1);
    }
  }

  /** A blink never removes a stone and at most doubles the line. */
  lemma {:induction false} StepLength(line: seq<Stone>)
    ensures |line| <= |Step(line)| <= 2 * |line|
    decreases |line|
  {
    if |line| > 0 {
      StepLength(line[..|line| - 1]);
    }
  }

  /** `Cache`: the transforms and the counts worked out so far. */
  class Cache {
    var stoneCache: map<Stone, seq<Stone>>
    var resultsCache: map<(Stone, nat), nat>

    /** Every memo entry holds what it stands for. */
    ghost predicate Valid()
      reads this
    {
      (forall s :: s in stoneCache ==> stoneCache[s] == Transform(s)) &&
      (forall key :: key in resultsCache ==> resultsCache[key] == Blink(key.0, key.1))
    }

    constructor ()
      ensures Valid() && stoneCache == map[] && resultsCache == map[]
    {
      stoneCache := map[];
      resultsCache := map[];
    }

    /** `recursive_blink`: the count with the memo, which the memo never changes. */
    method RecursiveBlink(stone: Stone, blinks: nat) returns (result: nat)
      requires Valid()
      modifies this
      ensures Valid() && result == Blink(stone, blinks)
      decreases blinks, 0
    {
      if (stone, blinks) in resultsCache {
        return resultsCache[(stone, blinks)];
      }
      var newStones := CachedTransform(stone);
      if blinks == 0 {
        return |newStones|;
      }
      result := SumRecursiveBlinks(newStones, blinks - 1);
      resultsCache := resultsCache[(stone, blinks) := result];
    }

    /** `stone_cache.entry(..).or_insert_with(|| transform(stone))`. */
    method CachedTransform(stone: Stone) returns (newStones: seq<Stone>)
      requires Valid()
      modifies this
      ensures Valid() && newStones == Transform(stone)
      ensures stoneCache == old(stoneCache)[stone := newStones] && resultsCache == old(resultsCache)
    {
      if stone in stoneCache {
        newStones := stoneCache[stone];
      } else {
        newStones := Transform(stone);
      }
      stoneCache := stoneCache[stone := newStones];
    }

    /** The `map(recursive_blink).sum()` over a line of stones: the new stones
        of one stone, or the whole line in `blinks`. */
    method SumRecursiveBlinks(stones: seq<Stone>, blinks: nat) returns (result: nat)
      requires Valid()
      modifies this
      ensures Valid() && result == SumBlinks(stones, blinks)
      decreases blinks, 1
    {
      result := 0;
      for i := 0 to |stones|
        invariant Valid() && result == SumBlinks(stones[..i], blinks)
      {
        SumBlinksSnoc(stones, i, blinks);
        var count := RecursiveBlink(stones[i], blinks);
        result := result + count;
      }
      assert stones[..|stones|] == stones;
    }
  }

  /** `blinks`: the number of stones after `count` blinks, one fresh memo for the
      whole line. `count - 1` on a `u8` needs `count >= 1`. */
  method Blinks(stones: seq<Stone>, count: nat) returns (total: nat)
    requires count >= 1
    ensures total == |StepN(stones, count)|
    ensures total >= |stones|
  {
    var cache := new Cache();
    total := cache.SumRecursiveBlinks(stones, count - 1);
    assert total == |StepN(stones, count)| by {
      SumBlinksCountStones(stones, count - 1);
    }
    StepNLength(stones, count);
  }

  /** `parse_input_file`: the first line split at single spaces, each piece a
      `u64`; no line or a bad piece is a panic. */
  function ParseStones(input: string): (r: Option<seq<Stone>>)
    ensures r.Some? ==> |Lines(input)| > 0 && |r.value| == |Split(Lines(input)[0], ' ')|
    ensures r.Some? ==> forall i :: 0 <= i < |r.value| ==>
      ParseUnsigned(Split(Lines(input)[0], ' ')[i]) == Some(r.value[i])
  {
    var lines := Lines(input);
    if |lines| == 0 then None else ParseEach(Split(lines[0], ' '))
  }

  function ParseEach(parts: seq<string>): (r: Option<seq<Stone>>)
    ensures r.Some? <==> forall i :: 0 <= i < |parts| ==>
      ParseUnsigned(parts[i]).Some? && ParseUnsigned(parts[i]).value < 0x1_0000_0000_0000_0000
    ensures r.Some? ==> (|r.value| == |parts| &&
      forall i :: 0 <= i < |parts| ==> ParseUnsigned(parts[i]) == Some(r.value[i]))
  {
    if |parts| == 0 then Some([])
    else
      match ParseEach(parts[..|parts| - 1])
      case None => None
      case Some(init) =>
        match ParseUnsigned(parts[|parts| - 1])
        case Some(n) => if n < 0x1_0000_0000_0000_0000 then Some(init + [n]) else None
        case None => None
  }

  /** `part1`: the number of stones after 25 blinks. */
  method Part1(input: string) returns (r: Option<nat>)
    ensures r.Some? <==> ParseStones(input).Some?
    ensures r.Some? ==> r.value == |StepN(ParseStones(input).value, 25)|
  {
    var stones := ParseStones(input);
    if stones.None? {
      return None;
    }
    var n := Blinks(stones.value, 25);
    r := Some(n);
  }

  /** `part2`: the number of stones after 75 blinks. */
  method Part2(input: string) returns (r: Option<nat>)
    ensures r.Some? <==> ParseStones(input).Some?
    ensures r.Some? ==> r.value == |StepN(ParseStones(input).value, 75)|
  {
    var stones := ParseStones(input);
    if stones.None? {
      return None;
    }
    var n := Blinks(stones.value, 75);
    r := Some(n);
  }

  /** The puzzle's first example: 0 becomes 1, 1 becomes 2024, 10 splits into
      1 and 0, 99 into 9 and 9, and 999 becomes 2021976. */
  lemma ExampleTransform()
    ensures Transform(0) == [1] && Transform(1) == [2024]
    ensures Transform(10) == [1, 0] && Transform(99) == [9, 9]
    ensures Transform(999) == [2021976]
  {
    assert DecimalString(1) == "1";
    assert DecimalString(10) == "10";
    assert DecimalString(99) == "99";
    assert DecimalString(999) == "999";
  }
}
