/**
 * Day 6 of 2023, "Wait For It": holding a toy boat's button for h of a race's
 * t milliseconds makes it travel (t - h) * h millimetres. Part 1 multiplies,
 * over the races, the number of hold times that beat each race's record;
 * part 2 reads the digits of each line as one race.
 */
module Year2023Day6 {
  import opened Wrappers
  import opened Text
  import opened PyText

  /** `RaceData`: a race's time and the record distance. */
  datatype RaceData = RaceData(time: int, distance: int)

  /** `RaceResult`: one way to run the race. */
  datatype RaceResult = RaceResult(time: int, holdTime: int, speed: int, distance: int)

  /** How far the boat goes when the button is held for `hold` of `time`. */
  function Distance(time: int, hold: int): int {
    (time - hold) * hold
  }

  /** `generate_race_results`: every hold time from 1 to `time - 1`, the speed
      being the hold time. */
  function RaceResults(time: int): (results: seq<RaceResult>)
    ensures |results| == if time > 1 then time - 1 else 0
    ensures forall i :: 0 <= i < |results| ==> results[i] == RaceResult(time, i + 1, i + 1, Distance(time, i + 1))
  {
    seq(if time > 1 then time - 1 else 0, i requires 0 <= i < time - 1 => RaceResult(time, i + 1, i + 1, Distance(time, i + 1)))
  }

  /** The `reduce` that counts the results beating the record. */
  function CountBeating(results: seq<RaceResult>, record: int): (n: nat)
    ensures n <= |results|
  {
    if results == [] then 0
    else CountBeating(results[..|results| - 1], record) + (if results[|results| - 1].distance > record then 1 else 0)
  }

  /** The ways to win one race, as `calculate_ways_to_win` counts them. */
  function WaysToWin(race: RaceData): nat {
    CountBeating(RaceResults(race.time), race.distance)
  }

  /** `calculate_ways_to_win`. */
  function AllWaysToWin(races: seq<RaceData>): (ways: seq<nat>)
    ensures |ways| == |races| && forall i :: 0 <= i < |races| ==> ways[i] == WaysToWin(races[i])
  {
    seq(|races|, i requires 0 <= i < |races| => WaysToWin(races[i]))
  }

  /*------------------------------------------------------------------------
    The shape of the winning holds
  ------------------------------------------------------------------------*/

  /** Holding for h or for the rest of the race goes the same distance. */
  lemma DistanceSymmetric(time: int, hold: int)
    ensures Distance(time, hold) == Distance(time, time - hold)
  {
  }

  /** Never more ways to win than hold times. */
  lemma WaysBound(race: RaceData)
    ensures race.time <= 1 ==> WaysToWin(race) == 0
    ensures race.time > 1 ==> WaysToWin(race) <= race.time - 1
  {
  }

  /** The distance grows by (b - a)(t - a - b) from hold a to hold b. */
  lemma DistanceChange(time: int, a: int, b: int)
    ensures Distance(time, b) - Distance(time, a) == (b - a) * (time - a - b)
  {
  }

  lemma MulNonNegative(x: int, y: int)
    requires x >= 0 && y >= 0
    ensures x * y >= 0
  {
  }

  /** Counting a stretch of results that all beat, or all miss, the record. */
  lemma {:induction false} CountStretch(results: seq<RaceResult>, record: int, a: nat, b: nat, beat: bool)
    requires a <= b <= |results|
    requires forall i :: a <= i < b ==> (results[i].distance > record) == beat
    ensures CountBeating(results[..b], record) == CountBeating(results[..a], record) + (if beat then b - a else 0)
    decreases b - a
  {
    if a < b {
      CountStretch(results, record, a, b - 1, beat);
      assert results[..b][..b - 1] == results[..b - 1];
    }
  }

  /** A hold before `lo` goes no further than hold `lo - 1`. */
  lemma LosesBefore(time: int, lo: int, hold: int)
    requires 1 <= hold < lo && 2 * lo <= time
    ensures Distance(time, hold) <= Distance(time, lo - 1)
  {
    DistanceChange(time, hold, lo - 1);
    MulNonNegative(lo - 1 - hold, time - hold - (lo - 1));
  }

  /** A hold from `lo` to `time - lo` goes at least as far as hold `lo`. */
  lemma WinsBetween(time: int, lo: int, hold: int)
    requires lo <= hold <= time - lo
    ensures Distance(time, hold) >= Distance(time, lo)
  {
    DistanceChange(time, lo, hold);
    MulNonNegative(hold - lo, time - lo - hold);
  }

  /** The holds `1` to `lo - 1` all lose. */
  lemma CountBefore(race: RaceData, lo: int)
    requires 1 <= lo && 2 * lo <= race.time
    requires race.distance >= Distance(race.time, lo - 1)
    ensures CountBeating(RaceResults(race.time)[..lo - 1], race.distance) == 0
  {
    var results := RaceResults(race.time);
    forall i | 0 <= i < lo - 1 ensures (results[i].distance > race.distance) == false {
      LosesBefore(race.time, lo, i + 1);
    }
    CountStretch(results, race.distance, 0, lo - 1, false);
    assert results[..0] == [];
  }

  /** The holds `lo` to `time - lo` all win. */
  lemma CountBetween(race: RaceData, lo: int)
    requires 1 <= lo && 2 * lo <= race.time
    requires Distance(race.time, lo) > race.distance
    ensures CountBeating(RaceResults(race.time)[..race.time - lo], race.distance) ==
      CountBeating(RaceResults(race.time)[..lo - 1], race.distance) + (race.time - 2 * lo + 1)
  {
    var results := RaceResults(race.time);
    forall i | lo - 1 <= i < race.time - lo ensures (results[i].distance > race.distance) == true {
      WinsBetween(race.time, lo, i + 1);
    }
    CountStretch(results, race.distance, lo - 1, race.time - lo, true);
  }

  /** The holds `time - lo + 1` to `time - 1` all lose. */
  lemma CountAfter(race: RaceData, lo: int)
    requires 1 <= lo && 2 * lo <= race.time
    requires race.distance >= Distance(race.time, lo - 1)
    ensures CountBeating(RaceResults(race.time), race.distance) ==
      CountBeating(RaceResults(race.time)[..race.time - lo], race.distance)
  {
    var t := race.time;
    var results := RaceResults(t);
    forall i | t - lo <= i < t - 1 ensures (results[i].distance > race.distance) == false {
      DistanceSymmetric(t, i + 1);
      LosesBefore(t, lo, t - (i + 1));
    }
    CountStretch(results, race.distance, t - lo, t - 1, false);
    assert results[..t - 1] == results;
  }

  /** Where the first winning hold is `lo`, the winning holds are exactly
      `lo` to `time - lo`, so there are `time - 2 lo + 1` of them. */
  lemma WaysInterval(race: RaceData, lo: int)
    requires 1 <= lo && 2 * lo <= race.time
    requires Distance(race.time, lo) > race.distance >= Distance(race.time, lo - 1)
    ensures WaysToWin(race) == race.time - 2 * lo + 1
  {
    CountBefore(race, lo);
    CountBetween(race, lo);
    CountAfter(race, lo);
  }

  /** The winning holds never leave a gap: a hold between two winning holds
      wins too. */
  lemma WinnersContiguous(time: int, record: int, h1: int, h2: int, h3: int)
    requires h1 <= h2 <= h3
    requires Distance(time, h1) > record && Distance(time, h3) > record
    ensures Distance(time, h2) > record
  {
    if h1 + h2 <= time {
      DistanceChange(time, h1, h2);
      MulNonNegative(h2 - h1, time - h1 - h2);
    } else {
      DistanceChange(time, h3, h2);
      MulNonNegative(h3 - h2, h2 + h3 - time);
    }
  }

  /*------------------------------------------------------------------------
    Parsing and the two parts
  ------------------------------------------------------------------------*/

  /** The words after the first colon of a line (`line.split(":")[1].split()`);
      None is the IndexError of a line with no colon. */
  function WordsAfterColon(line: string): Option<seq<string>> {
    var pieces := Split(line, ':');
    if |pieces| < 2 then None else Some(PyWords(pieces[1]))
  }

  /** `zip(times, distances)`: as many races as the shorter list. */
  function Zip(times: seq<int>, distances: seq<int>): (races: seq<RaceData>)
    ensures |races| == if |times| <= |distances| then |times| else |distances|
    ensures forall i :: 0 <= i < |races| ==> races[i] == RaceData(times[i], distances[i])
  {
    seq(if |times| <= |distances| then |times| else |distances|,
        i requires 0 <= i < |times| && i < |distances| => RaceData(times[i], distances[i]))
  }

  /** Part 1 `get_input`: the integers after the colon on the first two lines,
      paired up. */
  function ParseRaces(text: string): Option<seq<RaceData>> {
    var lines := Lines(text);
    if |lines| < 2 then None
    else
      match (WordsAfterColon(lines[0]), WordsAfterColon(lines[1]))
      case (Some(t), Some(d)) =>
        (match (PyInts(t), PyInts(d))
         case (Some(times), Some(distances)) => Some(Zip(times, distances))
         case _ => None)
      case _ => None
  }

  /** Part 2 `get_input`: the words after the colon joined into one number,
      on each of the first two lines. */
  function ParseRace(text: string): Option<RaceData> {
    var lines := Lines(text);
    if |lines| < 2 then None
    else
      match (WordsAfterColon(lines[0]), WordsAfterColon(lines[1]))
      case (Some(t), Some(d)) =>
        (match (PyInt(Join(t, "")), PyInt(Join(d, "")))
         case (Some(time), Some(distance)) => Some(RaceData(time, distance))
         case _ => None)
      case _ => None
  }

  /** `reduce(lambda x, y: x * y, ways)` with no initial value: None is the
      TypeError on an empty list. */
  function Product(ways: seq<int>): (p: Option<int>)
    ensures p.Some? <==> |ways| > 0
  {
    if |ways| == 0 then None
    else if |ways| == 1 then Some(ways[0])
    else Some(Product(ways[..|ways| - 1]).value * ways[|ways| - 1])
  }

  /** The product is zero exactly when some race cannot be won. */
  lemma {:induction false} ProductZero(ways: seq<int>)
    requires |ways| > 0
    ensures Product(ways).value == 0 <==> exists i :: 0 <= i < |ways| && ways[i] == 0
  {
    if |ways| > 1 {
      var init := ways[..|ways| - 1];
      ProductZero(init);
      if exists i :: 0 <= i < |init| && init[i] == 0 {
        var i :| 0 <= i < |init| && init[i] == 0;
        assert ways[i] == 0;
      }
      if exists i :: 0 <= i < |ways| && ways[i] == 0 {
        var i :| 0 <= i < |ways| && ways[i] == 0;
        if i < |init| {
          assert init[i] == 0;
        }
      }
    }
  }

  /** Part 1 `main`: the product of the ways to win each race. */
  function Part1(text: string): Option<int> {
    match ParseRaces(text)
    case None => None
    case Some(races) => Product(AllWaysToWin(races))
  }

  /** Part 2 `main`: the ways to win the single race. */
  function Part2(text: string): Option<nat> {
    match ParseRace(text)
    case None => None
    case Some(race) => Some(AllWaysToWin([race])[0])
  }

  /*------------------------------------------------------------------------
    The puzzle's example
  ------------------------------------------------------------------------*/

  /** Races of 7, 15 and 30 ms with records 9, 40 and 200 mm can be won in 4,
      8 and 9 ways: 288 in all. */
  lemma {:induction false} ExamplePart1(races: seq<RaceData>)
    requires races == [RaceData(7, 9), RaceData(15, 40), RaceData(30, 200)]
    ensures Product(AllWaysToWin(races)) == Some(288)
  {
    WaysInterval(races[0], 2);
    WaysInterval(races[1], 4);
    WaysInterval(races[2], 11);
    var ways := AllWaysToWin(races);
    assert ways == [4, 8, 9];
    assert ways[..2] == [4, 8] && [4, 8][..1] == [4];
    assert Product([4, 8]) == Some(32);
  }

  /** Read as one race of 71530 ms with a record of 940200 mm, the first
      winning hold is 14 ms, which leaves 71503 ways. */
  lemma {:induction false} ExamplePart2()
    ensures WaysToWin(RaceData(71530, 940200)) == 71503
  {
    WaysInterval(RaceData(71530, 940200), 14);
  }
}
