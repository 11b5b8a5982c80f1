/**
 * Day 2 of 2023, "Cube Conundrum": each game shows several handfuls of red,
 * green and blue cubes drawn from a bag. Part 1 sums the ids of the games
 * possible with 12 red, 13 green and 14 blue cubes; part 2 sums the power of the
 * smallest bag each game needs.
 */
module Year2023Day2 {
  import opened Wrappers
  import opened Text
  import opened PyText

  /** `CubeSet`: a count per colour, each 0 unless given. */
  datatype CubeSet = CubeSet(red: int, green: int, blue: int)

  const Empty := CubeSet(0, 0, 0)

  datatype Game = Game(id: int, cubeSets: seq<CubeSet>)

  /*------------------------------------------------------------------------
    Parsing
  ------------------------------------------------------------------------*/

  /** `{color: int(count) ...}`: each "count color" piece in turn, a later piece
      for the same colour replacing an earlier one. None when a piece is not two
      words separated by one space or its count is not an integer. */
  function ParseCounts(pieces: seq<string>): (r: Option<map<string, int>>)
    ensures r.Some? ==> |r.value.Keys| <= |pieces|
  {
    if pieces == [] then Some(map[])
    else
      var last := pieces[|pieces| - 1];
      var words := SplitOn(last, " ");
      match ParseCounts(pieces[..|pieces| - 1])
      case None => None
      case Some(counts) =>
        if |words| != 2 then None
        else match PyInt(words[0])
          case None => None
          case Some(n) =>
            assert |counts[words[1] := n].Keys| <= |counts.Keys| + 1 by {
              assert counts[words[1] := n].Keys == counts.Keys + {words[1]};
            }
            Some(counts[words[1] := n])
  }

  /** `CubeSet(**counts)`: only the three colours are accepted (any other
      keyword is a TypeError), and a colour not given is 0. */
  function ToCubeSet(counts: map<string, int>): (r: Option<CubeSet>)
    ensures r.Some? <==> counts.Keys <= {"red", "green", "blue"}
    ensures r.Some? && "red" !in counts ==> r.value.red == 0
    ensures r.Some? && "green" !in counts ==> r.value.green == 0
    ensures r.Some? && "blue" !in counts ==> r.value.blue == 0
  {
    if counts.Keys <= {"red", "green", "blue"} then
      Some(CubeSet(
        if "red" in counts then counts["red"] else 0,
        if "green" in counts then counts["green"] else 0,
        if "blue" in counts then counts["blue"] else 0))
    else None
  }

  /** One handful, "3 blue, 4 red". */
  function ParseCubeSet(s: string): Option<CubeSet> {
    match ParseCounts(SplitOn(s, ", "))
    case None => None
    case Some(counts) => ToCubeSet(counts)
  }

  /** Every handful of a game, all or nothing. */
  function ParseCubeSets(handfuls: seq<string>): (r: Option<seq<CubeSet>>)
    ensures r.Some? <==> forall i :: 0 <= i < |handfuls| ==> ParseCubeSet(handfuls[i]).Some?
    ensures r.Some? ==> |r.value| == |handfuls|
    ensures r.Some? ==> forall i :: 0 <= i < |handfuls| ==> Some(r.value[i]) == ParseCubeSet(handfuls[i])
  {
    if handfuls == [] then Some([])
    else
      match (ParseCubeSet(handfuls[0]), ParseCubeSets(handfuls[1..]))
      case (Some(c), Some(rest)) => Some([c] + rest)
      case _ => None
  }

  /** One line, "Game 7: 3 blue, 4 red; 1 red, 2 green": stripped, split once at
      ": " and the heading once at " " (any other number of pieces fails to
      unpack), then the handfuls split at "; ". */
  function ParseGame(line: string): (r: Option<Game>)
    ensures r.Some? ==> |SplitOn(Strip(line), ": ")| == 2
    ensures r.Some? ==> |r.value.cubeSets| == |SplitOn(SplitOn(Strip(line), ": ")[1], "; ")|
  {
    var halves := SplitOn(Strip(line), ": ");
    if |halves| != 2 then None
    else
      var heading := SplitOn(halves[0], " ");
      if |heading| != 2 then None
      else match (PyInt(heading[1]), ParseCubeSets(SplitOn(halves[1], "; ")))
        case (Some(id), Some(sets)) => Some(Game(id, sets))
        case _ => None
  }

  /** `parse_game_data`: one game per line, all or nothing. */
  function ParseGames(lines: seq<string>): (r: Option<seq<Game>>)
    ensures r.Some? ==> |r.value| == |lines|
  {
    if lines == [] then Some([])
    else
      match (ParseGame(lines[0]), ParseGames(lines[1..]))
      case (Some(g), Some(rest)) => Some([g] + rest)
      case _ => None
  }

  /** A handful with only some colours leaves the others at 0. */
  lemma MissingColoursAreZero(s: string, c: CubeSet)
    requires ParseCubeSet(s) == Some(c)
    ensures "red" !in ParseCounts(SplitOn(s, ", ")).value ==> c.red == 0
    ensures "green" !in ParseCounts(SplitOn(s, ", ")).value ==> c.green == 0
    ensures "blue" !in ParseCounts(SplitOn(s, ", ")).value ==> c.blue == 0
  {
  }

  /*------------------------------------------------------------------------
    Part 1
  ------------------------------------------------------------------------*/

  /** `CubeSet.__le__`: no colour has more cubes. */
  predicate LessEq(a: CubeSet, b: CubeSet) {
    a.red <= b.red && a.green <= b.green && a.blue <= b.blue
  }

  /** The order is reflexive and transitive. */
  lemma LessEqPreorder(a: CubeSet, b: CubeSet, c: CubeSet)
    ensures LessEq(a, a)
    ensures LessEq(a, b) && LessEq(b, c) ==> LessEq(a, c)
  {
  }

  /** The game could have been played with the bag. */
  predicate Playable(game: Game, bag: CubeSet) {
    forall i :: 0 <= i < |game.cubeSets| ==> LessEq(game.cubeSets[i], bag)
  }

  /** `games_playable_with_cube_set`: the playable games, in order. */
  function PlayableGames(games: seq<Game>, bag: CubeSet): (r: seq<Game>)
    ensures |r| <= |games|
  {
    if games == [] then []
    else (if Playable(games[0], bag) then [games[0]] else []) + PlayableGames(games[1..], bag)
  }

  /** The filter keeps exactly the playable games. */
  lemma {:induction false} PlayableGamesExactly(games: seq<Game>, bag: CubeSet, g: Game)
    ensures g in PlayableGames(games, bag) <==> g in games && Playable(g, bag)
  {
    if games != [] {
      PlayableGamesExactly(games[1..], bag, g);
      assert g in games <==> g == games[0] || g in games[1..];
    }
  }

  function SumIds(games: seq<Game>): int {
    if games == [] then 0 else games[0].id + SumIds(games[1..])
  }

  /** The bag of part 1. */
  const Bag := CubeSet(12, 13, 14)

  /** Part 1 `main`: the sum of the ids of the games possible with the bag. */
  function Part1(text: string): Option<int> {
    match ParseGames(Lines(text))
    case None => None
    case Some(games) => Some(SumIds(PlayableGames(games, Bag)))
  }

  /*------------------------------------------------------------------------
    Part 2
  ------------------------------------------------------------------------*/

  /** The component-wise maximum of (0, 0, 0) and the handfuls. */
  function Smallest(sets: seq<CubeSet>): CubeSet {
    if sets == [] then Empty
    else
      var s := Smallest(sets[..|sets| - 1]);
      var c := sets[|sets| - 1];
      CubeSet(Max(s.red, c.red), Max(s.green, c.green), Max(s.blue, c.blue))
  }

  function Max(a: int, b: int): int {
    if a < b then b else a
  }

  /** The smallest bag holds every handful and at least nothing, and lies
      below every other such bag. */
  lemma {:induction false} SmallestIsLeast(sets: seq<CubeSet>, bag: CubeSet)
    ensures LessEq(Empty, Smallest(sets))
    ensures forall i :: 0 <= i < |sets| ==> LessEq(sets[i], Smallest(sets))
    ensures LessEq(Empty, bag) && (forall i :: 0 <= i < |sets| ==> LessEq(sets[i], bag)) ==>
      LessEq(Smallest(sets), bag)
  {
    if sets != [] {
      var init := sets[..|sets| - 1];
      SmallestIsLeast(init, bag);
      assert forall i :: 0 <= i < |init| ==> init[i] == sets[i];
    }
  }

  /** `Game.min_cube_set`: start from (0, 0, 0) and raise each colour to each
      handful's count in turn. */
  method MinCubeSet(game: Game) returns (r: CubeSet)
    ensures r == Smallest(game.cubeSets)
  {
    r := Empty;
    for i := 0 to |game.cubeSets|
      invariant r == Smallest(game.cubeSets[..i])
    {
      assert game.cubeSets[..i + 1][..i] == game.cubeSets[..i];
      var c := game.cubeSets[i];
      r := r.(red := Max(r.red, c.red));
      r := r.(green := Max(r.green, c.green));
      r := r.(blue := Max(r.blue, c.blue));
    }
    assert game.cubeSets[..|game.cubeSets|] == game.cubeSets;
  }

  /** `CubeSet.power`. */
  function Power(c: CubeSet): int {
    c.red * c.green * c.blue
  }

  /** The smallest bag of a game has a non-negative power. */
  lemma PowerNonNegative(sets: seq<CubeSet>)
    ensures Power(Smallest(sets)) >= 0
  {
    SmallestIsLeast(sets, Empty);
    var s := Smallest(sets);
    assert s.red * s.green >= 0;
  }

  function SumPowers(games: seq<Game>): int {
    if games == [] then 0 else Power(Smallest(games[0].cubeSets)) + SumPowers(games[1..])
  }

  /** Part 2 `main`: the sum of the powers of the games' smallest bags. */
  function Part2(text: string): Option<int> {
    match ParseGames(Lines(text))
    case None => None
    case Some(games) => Some(SumPowers(games))
  }

  /** The two parts agree: a game is playable with a bag holding nothing
      negative exactly when its smallest bag fits in it. */
  lemma PlayableIffSmallestFits(game: Game, bag: CubeSet)
    requires LessEq(Empty, bag)
    ensures Playable(game, bag) <==> LessEq(Smallest(game.cubeSets), bag)
  {
    SmallestIsLeast(game.cubeSets, bag);
    if LessEq(Smallest(game.cubeSets), bag) {
      forall i | 0 <= i < |game.cubeSets|
        ensures LessEq(game.cubeSets[i], bag)
      {
        LessEqPreorder(game.cubeSets[i], Smallest(game.cubeSets), bag);
      }
    }
  }

  /** The puzzle's example games. */
  const ExampleGames := [
    Game(1, [CubeSet(4, 0, 3), CubeSet(1, 2, 6), CubeSet(0, 2, 0)]),
    Game(2, [CubeSet(0, 2, 1), CubeSet(1, 3, 4), CubeSet(0, 1, 1)]),
    Game(3, [CubeSet(20, 8, 6), CubeSet(4, 13, 5), CubeSet(1, 5, 0)]),
    Game(4, [CubeSet(3, 1, 6), CubeSet(6, 3, 0), CubeSet(14, 3, 15)]),
    Game(5, [CubeSet(6, 3, 1), CubeSet(1, 2, 2)])]

  /** Each game adds its id to the part 1 sum exactly when it is playable. */
  lemma SumPlayableStep(games: seq<Game>, bag: CubeSet)
    requires games != []
    ensures SumIds(PlayableGames(games, bag)) ==
      (if Playable(games[0], bag) then games[0].id else 0) + SumIds(PlayableGames(games[1..], bag))
  {
    var rest := PlayableGames(games[1..], bag);
    if Playable(games[0], bag) {
      assert ([games[0]] + rest)[1..] == rest;
    } else {
      assert [] + rest == rest;
    }
  }

  /** Games 1, 2 and 5 of the example are possible: the ids sum to 8. */
  lemma ExamplePart1()
    ensures SumIds(PlayableGames(ExampleGames, Bag)) == 8
  {
    var g := ExampleGames;
    ExamplePlayability();
    SumPlayableStep(g, Bag);
    SumPlayableStep(g[1..], Bag);
    SumPlayableStep(g[2..], Bag);
    SumPlayableStep(g[3..], Bag);
    SumPlayableStep(g[4..], Bag);
    assert g[1..][1..] == g[2..] && g[2..][1..] == g[3..] && g[3..][1..] == g[4..] && g[4..][1..] == [];
  }

  /** Game 3 draws 20 red cubes and game 4 draws 15 blue ones; the others fit. */
  lemma ExamplePlayability()
    ensures Playable(ExampleGames[0], Bag) && Playable(ExampleGames[1], Bag) && Playable(ExampleGames[4], Bag)
    ensures !Playable(ExampleGames[2], Bag) && !Playable(ExampleGames[3], Bag)
  {
    PlayableFits(ExampleGames[0], Bag);
    PlayableFits(ExampleGames[1], Bag);
    PlayableFits(ExampleGames[4], Bag);
    assert !LessEq(ExampleGames[2].cubeSets[0], Bag);
    assert !LessEq(ExampleGames[3].cubeSets[2], Bag);
  }

  /** A game whose every handful fits the bag is playable. */
  lemma PlayableFits(game: Game, bag: CubeSet)
    requires forall c | c in game.cubeSets :: LessEq(c, bag)
    ensures Playable(game, bag)
  {
    forall i | 0 <= i < |game.cubeSets| ensures LessEq(game.cubeSets[i], bag) {
      assert game.cubeSets[i] in game.cubeSets;
    }
  }

  lemma SmallestOfTwo(a: CubeSet, b: CubeSet)
    ensures Smallest([a, b]) == CubeSet(Max(Max(0, a.red), b.red), Max(Max(0, a.green), b.green), Max(Max(0, a.blue), b.blue))
  {
    assert [a, b][..1] == [a];
    assert [a][..0] == [];
    assert Smallest([a]) == CubeSet(Max(0, a.red), Max(0, a.green), Max(0, a.blue));
  }

  lemma SmallestOfThree(a: CubeSet, b: CubeSet, c: CubeSet)
    ensures Smallest([a, b, c]) ==
      CubeSet(Max(Max(Max(0, a.red), b.red), c.red), Max(Max(Max(0, a.green), b.green), c.green),
              Max(Max(Max(0, a.blue), b.blue), c.blue))
  {
    assert [a, b, c][..2] == [a, b];
    SmallestOfTwo(a, b);
  }

  /** The example's smallest bags have powers 48, 12, 1560, 630 and 36: 2286 in all. */
  lemma ExamplePart2()
    ensures SumPowers(ExampleGames) == 2286
  {
    var g := ExampleGames;
    SmallestOfThree(CubeSet(4, 0, 3), CubeSet(1, 2, 6), CubeSet(0, 2, 0));
    SmallestOfThree(CubeSet(0, 2, 1), CubeSet(1, 3, 4), CubeSet(0, 1, 1));
    SmallestOfThree(CubeSet(20, 8, 6), CubeSet(4, 13, 5), CubeSet(1, 5, 0));
    SmallestOfThree(CubeSet(3, 1, 6), CubeSet(6, 3, 0), CubeSet(14, 3, 15));
    SmallestOfTwo(CubeSet(6, 3, 1), CubeSet(1, 2, 2));
    assert g[1..][1..][1..][1..][1..] == [];
  }
}
