/**
 * Day 4 of 2023, "Scratchcards": each card lists winning numbers and the
 * numbers you have. Part 1 scores a card 2^(m-1) points for m matches; in part 2
 * a card with m matches wins one copy of each of the next m cards, and the
 * answer is how many cards you end up with.
 */
module Year2023Day4 {
  import opened Wrappers
  import opened Text
  import opened PyText
  import opened Bits

  /** `Scratchcard`. */
  datatype Scratchcard = Scratchcard(number: int, winning: set<int>, yours: set<int>)

  /*------------------------------------------------------------------------
    Parsing
  ------------------------------------------------------------------------*/

  /** `set(int(x) for x in words)`: all or nothing. */
  function NumberSet(words: seq<string>): (r: Option<set<int>>)
    ensures r.Some? <==> PyInts(words).Some?
    ensures r.Some? ==> forall x :: x in r.value <==> x in PyInts(words).value
    ensures r.Some? ==> |r.value| <= |words|
  {
    match PyInts(words)
    case None => None
    case Some(xs) => Some(SetOf(xs))
  }

  /** The distinct members of a list. */
  function SetOf(xs: seq<int>): (r: set<int>)
    ensures forall x :: x in r <==> x in xs
    ensures |r| <= |xs|
  {
    if xs == [] then {}
    else
      assert forall x :: x in xs <==> x == xs[0] || x in xs[1..];
      {xs[0]} + SetOf(xs[1..])
  }

  /** `Scratchcard.from_line`: "Card 1: 41 48 | 83 86 6" splits once at ": "
      and once at " | " (any other number of pieces fails to unpack); the second
      word of the heading is the card's number (a missing one is an
      IndexError), and every other word must be an integer. */
  function FromLine(line: string): (r: Option<Scratchcard>)
    ensures r.Some? ==> |SplitOn(line, ": ")| == 2 && |PyWords(SplitOn(line, ": ")[0])| >= 2
    ensures r.Some? ==> Some(r.value.number) == PyInt(PyWords(SplitOn(line, ": ")[0])[1])
    ensures r.Some? ==> |SplitOn(SplitOn(line, ": ")[1], " | ")| == 2
  {
    var halves := SplitOn(line, ": ");
    if |halves| != 2 then None
    else
      var heading := PyWords(halves[0]);
      if |heading| < 2 then None
      else
        var sides := SplitOn(halves[1], " | ");
        if |sides| != 2 then None
        else
          match (PyInt(heading[1]), NumberSet(PyWords(sides[0])), NumberSet(PyWords(sides[1])))
          case (Some(n), Some(w), Some(y)) => Some(Scratchcard(n, w, y))
          case _ => None
  }

  /** `parse_cards`: one card per line of the file, all or nothing (see
      `Collect` and `CollectEach`). */
  function ParseCards(lines: seq<string>): (r: Option<seq<Scratchcard>>)
    ensures r.Some? ==> |r.value| == |lines|
  {
    Collect(seq(|lines|, i requires 0 <= i < |lines| => FromLine(lines[i])))
  }

  /*------------------------------------------------------------------------
    Part 1
  ------------------------------------------------------------------------*/

  /** `matches`: how many of your numbers win. */
  function Matches(card: Scratchcard): (m: nat)
    ensures m <= |card.winning| && m <= |card.yours|
  {
    SubsetCard(card.winning * card.yours, card.winning);
    SubsetCard(card.winning * card.yours, card.yours);
    |card.winning * card.yours|
  }

  lemma {:induction false} SubsetCard(a: set<int>, b: set<int>)
    requires a <= b
    ensures |a| <= |b|
  {
    assert b == a + (b - a);
  }

  /** `points`: nothing without a match, then 1 doubled for every further match. */
  function Points(card: Scratchcard): (p: nat)
    ensures p == 0 <==> Matches(card) == 0
  {
    if Matches(card) == 0 then 0 else Pow2(Matches(card) - 1)
  }

  /** One more match doubles the points of a card that already scores. */
  lemma {:induction false} PointsDouble(card: Scratchcard, more: Scratchcard)
    requires Matches(card) > 0 && Matches(more) == Matches(card) + 1
    ensures Points(more) == 2 * Points(card)
  {
  }

  /** A card never scores more than half of 2 to the number of winning numbers. */
  lemma {:induction false} PointsBound(card: Scratchcard)
    ensures 2 * Points(card) <= Pow2(|card.winning|)
  {
    if Matches(card) > 0 {
      Pow2Monotone(Matches(card), |card.winning|);
    }
  }

  lemma {:induction false} Pow2Monotone(j: nat, k: nat)
    requires j <= k
    ensures Pow2(j) <= Pow2(k)
  {
    if j < k {
      Pow2Monotone(j, k - 1);
    }
  }

  function TotalPoints(cards: seq<Scratchcard>): nat {
    if cards == [] then 0 else Points(cards[0]) + TotalPoints(cards[1..])
  }

  /** Part 1 `main`: the points of every card. */
  function Part1(text: string): Option<nat> {
    match ParseCards(Lines(text))
    case None => None
    case Some(cards) => Some(TotalPoints(cards))
  }

  /*------------------------------------------------------------------------
    Part 2
  ------------------------------------------------------------------------*/

  /** `{card.number: card for card in cards}`: a later card with the same number
      replaces an earlier one. */
  function ByNumber(cards: seq<Scratchcard>): (m: map<int, Scratchcard>)
    ensures |m| <= |cards|
  {
    if cards == [] then map[]
    else
      var c := cards[|cards| - 1];
      ByNumber(cards[..|cards| - 1])[c.number := c]
  }

  /** The dictionary files each card under its own number and holds every
      card's number. */
  lemma {:induction false} ByNumberKeys(cards: seq<Scratchcard>)
    ensures Keyed(ByNumber(cards))
    ensures forall i :: 0 <= i < |cards| ==> cards[i].number in ByNumber(cards)
  {
    if cards != [] {
      var init := cards[..|cards| - 1];
      ByNumberKeys(init);
      assert forall i :: 0 <= i < |init| ==> cards[i] == init[i];
    }
  }

  /** The dictionary holds no number that is not some card's. */
  lemma {:induction false} ByNumberOnly(cards: seq<Scratchcard>)
    ensures forall n :: n in ByNumber(cards) ==> exists i :: 0 <= i < |cards| && cards[i].number == n
  {
    if cards != [] {
      var c := cards[|cards| - 1];
      var init := cards[..|cards| - 1];
      ByNumberOnly(init);
      forall n | n in ByNumber(cards) ensures exists i :: 0 <= i < |cards| && cards[i].number == n {
        if n != c.number {
          assert n in ByNumber(init);
          var i :| 0 <= i < |init| && init[i].number == n;
          assert cards[i].number == n;
        } else {
          assert cards[|cards| - 1].number == n;
        }
      }
    }
  }

  /** The cards' numbers, in order. */
  function NumbersOf(cards: seq<Scratchcard>): (ns: seq<int>)
    ensures |ns| == |cards| && forall i :: 0 <= i < |cards| ==> ns[i] == cards[i].number
  {
    if cards == [] then [] else NumbersOf(cards[..|cards| - 1]) + [cards[|cards| - 1].number]
  }

  /** Every card of the map is filed under its own number. */
  ghost predicate Keyed(m: map<int, Scratchcard>) {
    forall n :: n in m ==> m[n].number == n
  }

  /** The dictionary's key order: each number where it first appears. */
  function Order(cards: seq<Scratchcard>): (ns: seq<int>)
    ensures |ns| <= |cards|
  {
    if cards == [] then []
    else
      var c := cards[|cards| - 1];
      var init := Order(cards[..|cards| - 1]);
      if c.number in init then init else init + [c.number]
  }

  /** The key order lists each key of the dictionary exactly once. */
  lemma {:induction false} OrderKeys(cards: seq<Scratchcard>)
    ensures Distinct(Order(cards))
    ensures forall i :: 0 <= i < |Order(cards)| ==> Order(cards)[i] in ByNumber(cards)
    ensures forall n :: n in ByNumber(cards) ==> n in Order(cards)
  {
    if cards != [] {
      var init := cards[..|cards| - 1];
      OrderKeys(init);
    }
  }

  predicate Distinct(ns: seq<int>) {
    forall i, j :: 0 <= i < j < |ns| ==> ns[i] != ns[j]
  }

  /** `list(original_cards_by_number.values())`. */
  function Values(m: map<int, Scratchcard>, ns: seq<int>): (cards: seq<Scratchcard>)
    requires forall i :: 0 <= i < |ns| ==> ns[i] in m
    ensures |cards| == |ns|
    ensures forall i :: 0 <= i < |ns| ==> cards[i] == m[ns[i]]
  {
    if ns == [] then [] else [m[ns[0]]] + Values(m, ns[1..])
  }

  /** The cards above `n`: every card a copy of card `n` can lead to. */
  function Above(m: map<int, Scratchcard>, n: int): set<int> {
    set k | k in m && k >= n
  }

  lemma {:induction false} AboveShrinks(m: map<int, Scratchcard>, n: int, k: int)
    requires n in m && k >= 1
    ensures |Above(m, n + k)| < |Above(m, n)|
  {
    var diff := Above(m, n) - Above(m, n + k);
    assert Above(m, n) == Above(m, n + k) + diff;
    assert n in diff;
  }

  /** `cards_won_by_number[n]` from offset `k` on: the cards numbered n + k,
      n + k + 1, ..., up to the card's match count, where such cards exist. */
  function WonFrom(m: map<int, Scratchcard>, n: int, k: nat): (won: seq<Scratchcard>)
    requires n in m && k >= 1
    ensures |won| <= Matches(m[n]) + 1 - k || k > Matches(m[n])
    ensures Keyed(m) ==> forall i :: 0 <= i < |won| ==>
      won[i].number in m && n + k <= won[i].number <= n + Matches(m[n]) && won[i] == m[won[i].number]
    decreases Matches(m[n]) + 1 - k
  {
    if k > Matches(m[n]) then []
    else (if n + k in m then [m[n + k]] else []) + WonFrom(m, n, k + 1)
  }

  /** `cards_won_by_number[n]`: the copies one card `n` wins. */
  function Won(m: map<int, Scratchcard>, n: int): seq<Scratchcard>
    requires n in m
  {
    WonFrom(m, n, 1)
  }

  /** How many cards one card `n` amounts to: itself plus everything its copies
      win, recursively. */
  function Count(m: map<int, Scratchcard>, n: int): (c: nat)
    requires n in m
    ensures c >= 1
    decreases |Above(m, n)|, 1, 0
  {
    1 + CountFrom(m, n, 1)
  }

  function CountFrom(m: map<int, Scratchcard>, n: int, k: nat): nat
    requires n in m && k >= 1
    decreases |Above(m, n)|, 0, Matches(m[n]) + 1 - k
  {
    if k > Matches(m[n]) then 0
    else
      (if n + k in m then AboveShrinks(m, n, k); Count(m, n + k) else 0) + CountFrom(m, n, k + 1)
  }

  /** The cards a list amounts to. */
  function SumCounts(m: map<int, Scratchcard>, cards: seq<Scratchcard>): (total: nat)
    requires forall i :: 0 <= i < |cards| ==> cards[i].number in m
    ensures total >= |cards|
  {
    if cards == [] then 0 else Count(m, cards[0].number) + SumCounts(m, cards[1..])
  }

  lemma {:induction false} SumCountsAppend(m: map<int, Scratchcard>, a: seq<Scratchcard>, b: seq<Scratchcard>)
    requires forall i :: 0 <= i < |a| ==> a[i].number in m
    requires forall i :: 0 <= i < |b| ==> b[i].number in m
    ensures SumCounts(m, a + b) == SumCounts(m, a) + SumCounts(m, b)
  {
    if a != [] {
      assert (a + b)[1..] == a[1..] + b;
      SumCountsAppend(m, a[1..], b);
    } else {
      assert a + b == b;
    }
  }

  /** The copies card `n` wins amount to every card it leads to but itself. */
  lemma {:induction false} WonCount(m: map<int, Scratchcard>, n: int, k: nat)
    requires n in m && k >= 1 && Keyed(m)
    ensures SumCounts(m, WonFrom(m, n, k)) == CountFrom(m, n, k)
    decreases Matches(m[n]) + 1 - k
  {
    if k <= Matches(m[n]) {
      WonCount(m, n, k + 1);
      var head := if n + k in m then [m[n + k]] else [];
      SumCountsAppend(m, head, WonFrom(m, n, k + 1));
      if n + k in m {
        assert head[1..] == [];
      }
    }
  }

  /** How many cards the scratchcards amount to. */
  function Total(cards: seq<Scratchcard>): nat {
    var m := ByNumber(cards);
    ByNumberKeys(cards);
    OrderKeys(cards);
    SumCounts(m, Values(m, Order(cards)))
  }

  /** Every distinct card is counted at least once. */
  lemma {:induction false} TotalAtLeastDistinct(cards: seq<Scratchcard>)
    ensures Total(cards) >= |ByNumber(cards)|
  {
    var ns := Order(cards);
    var m := ByNumber(cards);
    ByNumberKeys(cards);
    OrderKeys(cards);
    forall n ensures n in m.Keys <==> n in ns {
      if n in ns {
        var i :| 0 <= i < |ns| && ns[i] == n;
      }
    }
    assert m.Keys == set n | n in ns;
    DistinctCard(ns);
  }

  lemma {:induction false} DistinctCard(ns: seq<int>)
    requires Distinct(ns)
    ensures |set n | n in ns| == |ns|
  {
    if ns != [] {
      var init := ns[..|ns| - 1];
      DistinctCard(init);
      assert ns == init + [ns[|ns| - 1]];
      assert (set n | n in ns) == (set n | n in init) + {ns[|ns| - 1]};
    }
  }

  /** One turn of the walk: the card at `index` is replaced, in what is left to
      walk, by the copies it wins. */
  lemma {:induction false} WalkStep(m: map<int, Scratchcard>, cardsWon: seq<Scratchcard>, index: nat)
    requires Keyed(m) && index < |cardsWon|
    requires forall i :: 0 <= i < |cardsWon| ==> cardsWon[i].number in m
    ensures var next := cardsWon + Won(m, cardsWon[index].number);
      (forall i :: 0 <= i < |next| ==> next[i].number in m) &&
      SumCounts(m, next[index + 1..]) + 1 == SumCounts(m, cardsWon[index..])
  {
    var won := Won(m, cardsWon[index].number);
    WonCount(m, cardsWon[index].number, 1);
    SumCountsAppend(m, cardsWon[index + 1..], won);
    assert cardsWon[index..][1..] == cardsWon[index + 1..];
    assert (cardsWon + won)[index + 1..] == cardsWon[index + 1..] + won;
  }

  /** Part 2 `main`: start from the original cards, one per number, and walk the
      growing list, appending the copies each card wins; the answer is the
      list's final length. */
  method CountCardsWon(cards: seq<Scratchcard>) returns (count: nat)
    ensures count == Total(cards)
  {
    var byNumber := ByNumber(cards);
    ByNumberKeys(cards);
    OrderKeys(cards);
    var wonByNumber := map n | n in byNumber :: Won(byNumber, n);
    var cardsWon := Values(byNumber, Order(cards));
    var index := 0;
    while index < |cardsWon|
      invariant 0 <= index <= |cardsWon|
      invariant forall i :: 0 <= i < |cardsWon| ==> cardsWon[i].number in byNumber
      invariant index + SumCounts(byNumber, cardsWon[index..]) == Total(cards)
      decreases SumCounts(byNumber, cardsWon[index..])
    {
      var current := cardsWon[index];
      WalkStep(byNumber, cardsWon, index);
      cardsWon := cardsWon + wonByNumber[current.number];
      index := index + 1;
    }
    count := |cardsWon|;
  }

  /** Part 2 on the puzzle input. */
  method Part2(text: string) returns (r: Option<nat>)
    ensures r.Some? <==> ParseCards(Lines(text)).Some?
    ensures r.Some? ==> r.value == Total(ParseCards(Lines(text)).value)
  {
    match ParseCards(Lines(text)) {
      case None => r := None;
      case Some(cards) =>
        var count := CountCardsWon(cards);
        r := Some(count);
    }
  }

  /*------------------------------------------------------------------------
    The puzzle's example
  ------------------------------------------------------------------------*/

  const ExampleCards := [
    Scratchcard(1, {41, 48, 83, 86, 17}, {83, 86, 6, 31, 17, 9, 48, 53}),
    Scratchcard(2, {13, 32, 20, 16, 61}, {61, 30, 68, 82, 17, 32, 24, 19}),
    Scratchcard(3, {1, 21, 53, 59, 44}, {69, 82, 63, 72, 16, 21, 14, 1}),
    Scratchcard(4, {41, 92, 73, 84, 69}, {59, 84, 76, 51, 58, 5, 54, 83}),
    Scratchcard(5, {87, 83, 26, 28, 32}, {88, 30, 70, 12, 93, 22, 82, 36}),
    Scratchcard(6, {31, 18, 13, 56, 72}, {74, 77, 10, 23, 35, 67, 36, 11})]

  /** The example cards have 4, 2, 2, 1, 0 and 0 matching numbers. */
  lemma {:induction false} ExampleMatches()
    ensures Matches(ExampleCards[0]) == 4 && Matches(ExampleCards[1]) == 2
    ensures Matches(ExampleCards[2]) == 2 && Matches(ExampleCards[3]) == 1
    ensures Matches(ExampleCards[4]) == 0 && Matches(ExampleCards[5]) == 0
  {
    var c := ExampleCards;
    assert c[0].winning * c[0].yours == {48, 83, 86, 17};
    assert c[1].winning * c[1].yours == {32, 61};
    assert c[2].winning * c[2].yours == {1, 21};
    assert c[3].winning * c[3].yours == {84};
    assert c[4].winning * c[4].yours == {};
    assert c[5].winning * c[5].yours == {};
  }

  /** The example cards score 8, 2, 2, 1, 0 and 0 points: 13 in all. */
  lemma {:induction false} ExamplePart1()
    ensures TotalPoints(ExampleCards) == 13
  {
    var c := ExampleCards;
    ExampleMatches();
    assert Points(c[0]) == 8 && Points(c[1]) == 2 && Points(c[2]) == 2 && Points(c[3]) == 1;
    assert Points(c[4]) == 0 && Points(c[5]) == 0;
    assert c[1..][1..] == c[2..] && c[2..][1..] == c[3..] && c[3..][1..] == c[4..];
    assert c[4..][1..] == c[5..] && c[5..][1..] == [];
  }

  /** With every card numbered differently the dictionary lists the numbers
      in input order. */
  lemma {:induction false} OrderDistinct(cards: seq<Scratchcard>)
    requires Distinct(NumbersOf(cards))
    ensures Order(cards) == NumbersOf(cards)
  {
    if cards != [] {
      var init := cards[..|cards| - 1];
      var c := cards[|cards| - 1];
      assert NumbersOf(cards) == NumbersOf(init) + [c.number];
      OrderDistinct(init);
      assert c.number !in NumbersOf(init);
    }
  }

  /** With every card numbered differently the dictionary keeps every card. */
  lemma {:induction false} ByNumberDistinct(cards: seq<Scratchcard>)
    requires Distinct(NumbersOf(cards))
    ensures forall i :: 0 <= i < |cards| ==>
      cards[i].number in ByNumber(cards) && ByNumber(cards)[cards[i].number] == cards[i]
  {
    if cards != [] {
      var init := cards[..|cards| - 1];
      var c := cards[|cards| - 1];
      assert NumbersOf(cards) == NumbersOf(init) + [c.number];
      ByNumberDistinct(init);
      forall i | 0 <= i < |init| ensures init[i].number != c.number {
        assert NumbersOf(cards)[i] == init[i].number;
      }
    }
  }

  /** So the walk starts from the cards as given. */
  lemma {:induction false} DistinctNumbers(cards: seq<Scratchcard>)
    requires Distinct(NumbersOf(cards))
    ensures forall i :: 0 <= i < |Order(cards)| ==> Order(cards)[i] in ByNumber(cards)
    ensures Values(ByNumber(cards), Order(cards)) == cards
  {
    OrderKeys(cards);
    OrderDistinct(cards);
    ByNumberDistinct(cards);
  }

  /** With every card numbered differently the cards amount to the sum of
      their own counts. */
  lemma {:induction false} TotalDistinct(cards: seq<Scratchcard>)
    requires Distinct(NumbersOf(cards))
    ensures forall i :: 0 <= i < |cards| ==> cards[i].number in ByNumber(cards)
    ensures Total(cards) == SumCounts(ByNumber(cards), cards)
  {
    ByNumberKeys(cards);
    DistinctNumbers(cards);
    var m := ByNumber(cards);
    assert Total(cards) == SumCounts(m, Values(m, Order(cards)));
  }

  /** Cards 6 and 5 win nothing; card 4 wins card 5; card 3 wins 4 and 5; card 2
      wins 3 and 4; card 1 wins 2 to 5. */
  lemma {:induction false} ExampleCounts(m: map<int, Scratchcard>)
    requires forall n :: n in m <==> 1 <= n <= 6
    requires Matches(m[1]) == 4 && Matches(m[2]) == 2 && Matches(m[3]) == 2
    requires Matches(m[4]) == 1 && Matches(m[5]) == 0 && Matches(m[6]) == 0
    ensures Count(m, 1) == 15 && Count(m, 2) == 7 && Count(m, 3) == 4
    ensures Count(m, 4) == 2 && Count(m, 5) == 1 && Count(m, 6) == 1
  {
    assert Count(m, 6) == 1 && Count(m, 5) == 1;
    assert CountFrom(m, 4, 2) == 0;
    assert Count(m, 4) == 2;
    assert CountFrom(m, 3, 3) == 0;
    assert CountFrom(m, 3, 2) == 1;
    assert CountFrom(m, 3, 1) == 3;
    assert Count(m, 3) == 4;
    assert CountFrom(m, 2, 3) == 0;
    assert CountFrom(m, 2, 2) == 2;
    assert CountFrom(m, 2, 1) == 6;
    assert Count(m, 2) == 7;
    assert CountFrom(m, 1, 5) == 0;
    assert CountFrom(m, 1, 4) == 1;
    assert CountFrom(m, 1, 3) == 3;
    assert CountFrom(m, 1, 2) == 7;
    assert CountFrom(m, 1, 1) == 14;
    assert Count(m, 1) == 15;
  }

  /** Six cards numbered 1 to 6 with 4, 2, 2, 1, 0 and 0 matches amount to 30. */
  lemma {:induction false} ExampleTotal(cards: seq<Scratchcard>)
    requires NumbersOf(cards) == [1, 2, 3, 4, 5, 6]
    requires Matches(cards[0]) == 4 && Matches(cards[1]) == 2 && Matches(cards[2]) == 2
    requires Matches(cards[3]) == 1 && Matches(cards[4]) == 0 && Matches(cards[5]) == 0
    ensures Total(cards) == 30
  {
    TotalDistinct(cards);
    ExampleMapCounts(cards);
    ExampleSum(ByNumber(cards), cards);
  }

  lemma {:induction false} ExampleMapCounts(cards: seq<Scratchcard>)
    requires NumbersOf(cards) == [1, 2, 3, 4, 5, 6]
    requires Matches(cards[0]) == 4 && Matches(cards[1]) == 2 && Matches(cards[2]) == 2
    requires Matches(cards[3]) == 1 && Matches(cards[4]) == 0 && Matches(cards[5]) == 0
    ensures forall n :: n in ByNumber(cards) <==> 1 <= n <= 6
    ensures var m := ByNumber(cards);
      Count(m, 1) == 15 && Count(m, 2) == 7 && Count(m, 3) == 4 && Count(m, 4) == 2 &&
      Count(m, 5) == 1 && Count(m, 6) == 1
  {
    ExampleDictionary(cards);
    ExampleCounts(ByNumber(cards));
  }

  /** The dictionary of six cards numbered 1 to 6 files card i under i + 1. */
  lemma {:induction false} ExampleDictionary(cards: seq<Scratchcard>)
    requires NumbersOf(cards) == [1, 2, 3, 4, 5, 6]
    ensures forall n :: n in ByNumber(cards) <==> 1 <= n <= 6
    ensures forall i :: 0 <= i < 6 ==> ByNumber(cards)[i + 1] == cards[i]
  {
    ExampleKeys(cards);
    ByNumberDistinct(cards);
    forall i | 0 <= i < 6 ensures ByNumber(cards)[i + 1] == cards[i] {
      assert NumbersOf(cards)[i] == cards[i].number == i + 1;
    }
  }

  /** Its keys are 1 to 6. */
  lemma {:induction false} ExampleKeys(cards: seq<Scratchcard>)
    requires NumbersOf(cards) == [1, 2, 3, 4, 5, 6]
    ensures forall n :: n in ByNumber(cards) <==> 1 <= n <= 6
  {
    ByNumberKeys(cards);
    ByNumberOnly(cards);
    var ns := NumbersOf(cards);
    forall n ensures n in ByNumber(cards) <==> 1 <= n <= 6 {
      if 1 <= n <= 6 {
        assert ns[n - 1] == n;
      }
      if n in ByNumber(cards) {
        var i :| 0 <= i < |cards| && cards[i].number == n;
        assert ns[i] == n;
      }
    }
  }

  lemma {:induction false} ExampleSum(m: map<int, Scratchcard>, v: seq<Scratchcard>)
    requires |v| == 6 && forall i :: 0 <= i < 6 ==> v[i].number == i + 1
    requires forall n :: n in m <==> 1 <= n <= 6
    requires Count(m, 1) == 15 && Count(m, 2) == 7 && Count(m, 3) == 4
    requires Count(m, 4) == 2 && Count(m, 5) == 1 && Count(m, 6) == 1
    ensures SumCounts(m, v) == 30
  {
    assert v[5..][1..] == [];
    assert SumCounts(m, v[5..]) == 1;
    assert v[4..][1..] == v[5..];
    assert SumCounts(m, v[4..]) == 2;
    assert v[3..][1..] == v[4..];
    assert SumCounts(m, v[3..]) == 4;
    assert v[2..][1..] == v[3..];
    assert SumCounts(m, v[2..]) == 8;
    assert v[1..][1..] == v[2..];
    assert SumCounts(m, v[1..]) == 15;
  }

  /** The example's cards amount to 30 cards. */
  lemma {:induction false} ExamplePart2()
    ensures Total(ExampleCards) == 30
  {
    ExampleMatches();
    ExampleNumbers();
    ExampleTotal(ExampleCards);
  }

  /** The example cards are numbered 1 to 6 in order. */
  lemma {:induction false} ExampleNumbers()
    ensures NumbersOf(ExampleCards) == [1, 2, 3, 4, 5, 6]
  {
    var ns := NumbersOf(ExampleCards);
    assert |ns| == 6;
    assert ns[0] == 1 && ns[1] == 2 && ns[2] == 3 && ns[3] == 4 && ns[4] == 5 && ns[5] == 6;
  }
}
