/**
 * Day 7 of 2023, "Camel Cards": a hand of five cards is ranked first by its
 * type (five of a kind down to high card) and then card by card; each hand's
 * bid is multiplied by its rank among all hands. In part 2 `J` is a joker: the
 * weakest card on its own, but counted with whichever card makes the hand's
 * type strongest.
 */
module Year2023Day7 {
  import opened Wrappers
  import opened Text
  import opened Sums

  /*------------------------------------------------------------------------
    Cards
  ------------------------------------------------------------------------*/

  /** The labels from weakest to strongest, as part 1 ranks them. */
  const Labels: string := "23456789TJQKA"

  /** `Card.from` and the card's raw value: `2` to `A` are 2 to 14, except
      that with jokers `J` is 1. None is the fatal error on any other
      character. */
  function CardValue(c: char, jokers: bool): Option<int> {
    match c
    case '2' => Some(2)
    case '3' => Some(3)
    case '4' => Some(4)
    case '5' => Some(5)
    case '6' => Some(6)
    case '7' => Some(7)
    case '8' => Some(8)
    case '9' => Some(9)
    case 'T' => Some(10)
    case 'J' => if jokers then Some(1) else Some(11)
    case 'Q' => Some(12)
    case 'K' => Some(13)
    case 'A' => Some(14)
    case _ => None
  }

  /** Without jokers the labels are read one to one onto 2 to 14, in order,
      and every other character is refused. */
  lemma {:induction false} CardValueLabels(c: char)
    ensures CardValue(c, false).Some? <==> c in Labels
    ensures CardValue(c, false).Some? ==>
      2 <= CardValue(c, false).value <= 14 && Labels[CardValue(c, false).value - 2] == c
  {
  }

  /** With jokers only `J` changes, and it becomes the weakest card. */
  lemma {:induction false} JokerWeakest(c: char)
    ensures c != 'J' ==> CardValue(c, true) == CardValue(c, false)
    ensures CardValue('J', true) == Some(1)
    ensures c != 'J' && CardValue(c, true).Some? ==> CardValue(c, true).value > 1
  {
  }

  /** The cards of a hand, in order; None when a character is not a card. */
  function Cards(hand: string, jokers: bool): (r: Option<seq<int>>)
    ensures r.Some? <==> forall i :: 0 <= i < |hand| ==> CardValue(hand[i], jokers).Some?
    ensures r.Some? ==> |r.value| == |hand|
    ensures r.Some? ==> forall i :: 0 <= i < |hand| ==> r.value[i] == CardValue(hand[i], jokers).value
  {
    if hand == [] then Some([])
    else
      match (Cards(hand[..|hand| - 1], jokers), CardValue(hand[|hand| - 1], jokers))
      case (Some(front), Some(card)) => Some(front + [card])
      case _ => None
  }

  /*------------------------------------------------------------------------
    Counting the cards
  ------------------------------------------------------------------------*/

  function Occurrences(cards: seq<int>, v: int): (n: nat)
    ensures n <= |cards|
  {
    if cards == [] then 0
    else Occurrences(cards[..|cards| - 1], v) + (if cards[|cards| - 1] == v then 1 else 0)
  }

  /** The different cards, in the order they first appear. */
  function Distinct(cards: seq<int>): seq<int> {
    if cards == [] then []
    else
      var front := cards[..|cards| - 1];
      var last := cards[|cards| - 1];
      assert cards == front + [last];
      Distinct(front) + (if last in front then [] else [last])
  }

  /** Every card is listed. */
  lemma {:induction false} DistinctCards(cards: seq<int>, v: int)
    ensures v in Distinct(cards) <==> v in cards
  {
    if cards != [] {
      var front := cards[..|cards| - 1];
      assert cards == front + [cards[|cards| - 1]];
      DistinctCards(front, v);
    }
  }

  /** No card is listed twice. */
  lemma {:induction false} DistinctOnce(cards: seq<int>)
    ensures forall i, j :: 0 <= i < j < |Distinct(cards)| ==> Distinct(cards)[i] != Distinct(cards)[j]
  {
    if cards != [] {
      var front := cards[..|cards| - 1];
      var last := cards[|cards| - 1];
      assert cards == front + [last];
      DistinctOnce(front);
      DistinctCards(front, last);
      var d := Distinct(front);
      assert Distinct(cards) == d + (if last in front then [] else [last]);
      forall i, j | 0 <= i < j < |Distinct(cards)|
        ensures Distinct(cards)[i] != Distinct(cards)[j]
      {
        if j >= |d| {
          assert Distinct(cards)[j] == last && Distinct(cards)[i] == d[i];
        } else {
          assert Distinct(cards)[j] == d[j] && Distinct(cards)[i] == d[i];
        }
      }
    }
  }

  /** The `cardCounter` dictionary after the cards, each adding one to its
      own entry. */
  function Counter(cards: seq<int>): map<int, nat> {
    if cards == [] then map[]
    else
      var front := cards[..|cards| - 1];
      var last := cards[|cards| - 1];
      assert cards == front + [last];
      var before := Counter(front);
      before[last := (if last in before then before[last] else 0) + 1]
  }

  /** The counter's keys are the cards. */
  lemma {:induction false} CounterKeys(cards: seq<int>, v: int)
    ensures v in Counter(cards) <==> v in cards
  {
    if cards != [] {
      var front := cards[..|cards| - 1];
      assert cards == front + [cards[|cards| - 1]];
      CounterKeys(front, v);
    }
  }

  /** Every count is at least one. */
  lemma {:induction false} CounterPositive(cards: seq<int>)
    ensures forall v :: v in Counter(cards) ==> Counter(cards)[v] >= 1
  {
    if cards != [] {
      CounterPositive(cards[..|cards| - 1]);
    }
  }

  /** The counter holds how often each card occurs. */
  lemma {:induction false} CounterCounts(cards: seq<int>, v: int)
    ensures v in Counter(cards) ==> Counter(cards)[v] == Occurrences(cards, v)
    ensures v !in Counter(cards) ==> Occurrences(cards, v) == 0
  {
    if cards != [] {
      var front := cards[..|cards| - 1];
      var last := cards[|cards| - 1];
      CounterCounts(front, v);
      assert Occurrences(cards, v) == Occurrences(front, v) + (if last == v then 1 else 0);
      var before := Counter(front);
      assert Counter(cards) == before[last := (if last in before then before[last] else 0) + 1];
    }
  }

  /** A dictionary's values, listed in the order of the keys in `order`. */
  function Values(counter: map<int, nat>, order: seq<int>): (vs: seq<int>)
    ensures forall k :: 0 <= k < |vs| ==> vs[k] in counter.Values
  {
    if order == [] then []
    else
      var last := order[|order| - 1];
      Values(counter, order[..|order| - 1]) + (if last in counter then [counter[last]] else [])
  }

  predicate Descending(counts: seq<int>) {
    forall i, j :: 0 <= i < j < |counts| ==> counts[i] >= counts[j]
  }

  function InsertDescending(counts: seq<int>, x: int): (r: seq<int>)
    requires Descending(counts)
    ensures Descending(r) && multiset(r) == multiset(counts) + multiset{x}
    ensures SeqSum(r) == SeqSum(counts) + x
  {
    if counts == [] || x >= counts[0] then
      InsertFront(counts, x);
      [x] + counts
    else
      DescendingTail(counts);
      var rest := InsertDescending(counts[1..], x);
      InsertBehind(counts, x, rest);
      InsertBehindSum(counts, x, rest);
      [counts[0]] + rest
  }

  /** Putting a count no smaller than the first in front keeps the list
      descending. */
  lemma {:induction false} InsertFront(counts: seq<int>, x: int)
    requires Descending(counts) && (counts == [] || x >= counts[0])
    ensures Descending([x] + counts)
    ensures SeqSum([x] + counts) == SeqSum(counts) + x
  {
    var r := [x] + counts;
    assert SeqSum(r) == SeqSum(counts) + x by {
      SeqSumAppend([x], counts);
      assert SeqSum([x]) == x by {
        assert [x][..0] == [];
      }
    }
    forall i, j | 0 <= i < j < |r|
      ensures r[i] >= r[j]
    {
      assert r[j] == counts[j - 1];
      if i > 0 {
        assert r[i] == counts[i - 1];
      }
    }
  }

  lemma {:induction false} DescendingTail(counts: seq<int>)
    requires Descending(counts) && counts != []
    ensures Descending(counts[1..])
    ensures forall k :: 0 <= k < |counts[1..]| ==> counts[0] >= counts[1..][k]
  {
    forall i, j | 0 <= i < j < |counts[1..]|
      ensures counts[1..][i] >= counts[1..][j]
    {
      assert counts[1..][i] == counts[i + 1] && counts[1..][j] == counts[j + 1];
    }
    forall k | 0 <= k < |counts[1..]|
      ensures counts[0] >= counts[1..][k]
    {
      assert counts[1..][k] == counts[k + 1];
    }
  }

  /** Keeping the first count in front of the tail with `x` inserted keeps
      the list descending. */
  lemma {:induction false} InsertBehind(counts: seq<int>, x: int, rest: seq<int>)
    requires Descending(counts) && counts != [] && x < counts[0]
    requires Descending(rest) && multiset(rest) == multiset(counts[1..]) + multiset{x}
    ensures Descending([counts[0]] + rest)
  {
    var r := [counts[0]] + rest;
    DescendingTail(counts);
    BoundedPermutation(rest, counts[1..], x, counts[0]);
    forall i, j | 0 <= i < j < |r|
      ensures r[i] >= r[j]
    {
      assert r[j] == rest[j - 1];
      if i > 0 {
        assert r[i] == rest[i - 1];
      }
    }
  }

  /** ... and adds exactly `x` to the counts and to their sum. */
  lemma {:induction false} InsertBehindSum(counts: seq<int>, x: int, rest: seq<int>)
    requires counts != []
    requires multiset(rest) == multiset(counts[1..]) + multiset{x}
    requires SeqSum(rest) == SeqSum(counts[1..]) + x
    ensures multiset([counts[0]] + rest) == multiset(counts) + multiset{x}
    ensures SeqSum([counts[0]] + rest) == SeqSum(counts) + x
  {
    assert counts == [counts[0]] + counts[1..];
    SeqSumAppend([counts[0]], counts[1..]);
    SeqSumAppend([counts[0]], rest);
    assert SeqSum([counts[0]]) == counts[0] by {
      assert [counts[0]][..0] == [];
    }
  }

  /** A rearrangement of numbers below a bound, plus one more below it, stays
      below it. */
  lemma {:induction false} BoundedPermutation(r: seq<int>, counts: seq<int>, x: int, bound: int)
    requires multiset(r) == multiset(counts) + multiset{x}
    requires bound >= x && forall k :: 0 <= k < |counts| ==> bound >= counts[k]
    ensures forall k :: 0 <= k < |r| ==> bound >= r[k]
  {
    forall k | 0 <= k < |r|
      ensures bound >= r[k]
    {
      assert r[k] in multiset(counts) + multiset{x};
    }
  }

  /** `sorted(by: >)`: the counts from largest to smallest. */
  function SortDescending(counts: seq<int>): (r: seq<int>)
    ensures Descending(r) && multiset(r) == multiset(counts)
    ensures SeqSum(r) == SeqSum(counts)
  {
    if counts == [] then []
    else
      var front := counts[..|counts| - 1];
      assert counts == front + [counts[|counts| - 1]];
      InsertDescending(SortDescending(front), counts[|counts| - 1])
  }

  /*------------------------------------------------------------------------
    Hand types
  ------------------------------------------------------------------------*/

  datatype HandType = HighCard | OnePair | TwoPairs | ThreeOfAKind | FullHouse | FourOfAKind | FiveOfAKind
  {
    /** The raw value that orders the types. */
    function Rank(): (r: nat)
      ensures r <= 6
    {
      match this
      case HighCard => 0
      case OnePair => 1
      case TwoPairs => 2
      case ThreeOfAKind => 3
      case FullHouse => 4
      case FourOfAKind => 5
      case FiveOfAKind => 6
    }
  }

  /** Part 1's table from the descending counts to the type; None is the
      fatal error on any other list. */
  function PlainType(counts: seq<int>): Option<HandType> {
    if counts == [5] then Some(FiveOfAKind)
    else if counts == [4, 1] then Some(FourOfAKind)
    else if counts == [3, 2] then Some(FullHouse)
    else if counts == [3, 1, 1] then Some(ThreeOfAKind)
    else if counts == [2, 2, 1] then Some(TwoPairs)
    else if counts == [2, 1, 1, 1] then Some(OnePair)
    else if counts == [1, 1, 1, 1, 1] then Some(HighCard)
    else None
  }

  /** Part 2's table from the descending counts of the other cards and the
      number of jokers to the type; None is the fatal error. */
  function JokerType(counts: seq<int>, jokerCount: int): Option<HandType> {
    if (counts == [5] && jokerCount == 0) || (counts == [4] && jokerCount == 1) ||
       (counts == [3] && jokerCount == 2) || (counts == [2] && jokerCount == 3) ||
       (counts == [1] && jokerCount == 4) || (counts == [] && jokerCount == 5)
    then Some(FiveOfAKind)
    else if (counts == [4, 1] && jokerCount == 0) || (counts == [3, 1] && jokerCount == 1) ||
            (counts == [2, 1] && jokerCount == 2) || (counts == [1, 1] && jokerCount == 3)
    then Some(FourOfAKind)
    else if (counts == [3, 2] && jokerCount == 0) || (counts == [2, 2] && jokerCount == 1)
    then Some(FullHouse)
    else if (counts == [3, 1, 1] && jokerCount == 0) || (counts == [2, 1, 1] && jokerCount == 1) ||
            (counts == [1, 1, 1] && jokerCount == 2)
    then Some(ThreeOfAKind)
    else if counts == [2, 2, 1] && jokerCount == 0 then Some(TwoPairs)
    else if (counts == [2, 1, 1, 1] && jokerCount == 0) || (counts == [1, 1, 1, 1] && jokerCount == 1)
    then Some(OnePair)
    else if counts == [1, 1, 1, 1, 1] && jokerCount == 0 then Some(HighCard)
    else None
  }

  /** The hand's type from its cards: the counter's values sorted from
      largest to smallest, with the jokers taken out of the counter first in
      part 2. */
  function Classify(cards: seq<int>, jokers: bool): Option<HandType> {
    var counter := Counter(cards);
    if jokers then
      JokerType(SortDescending(Values(counter - {1}, Distinct(cards))), if 1 in counter then counter[1] else 0)
    else
      PlainType(SortDescending(Values(counter, Distinct(cards))))
  }

  /*------------------------------------------------------------------------
    Every hand of five cards has a type
  ------------------------------------------------------------------------*/

  lemma {:induction false} CounterAppend(cards: seq<int>, x: int)
    ensures Counter(cards + [x]) ==
      Counter(cards)[x := (if x in Counter(cards) then Counter(cards)[x] else 0) + 1]
  {
    var s := cards + [x];
    assert s[..|s| - 1] == cards;
  }

  lemma {:induction false} SeqSumSingle(v: int)
    ensures SeqSum([v]) == v
  {
    assert [v][..0] == [];
  }

  lemma {:induction false} ValuesAppend(counter: map<int, nat>, order: seq<int>, x: int)
    ensures Values(counter, order + [x]) == Values(counter, order) + (if x in counter then [counter[x]] else [])
  {
    assert (order + [x])[..|order|] == order;
  }

  /** Bumping one key's value raises the sum of the listed values by one,
      when the key is listed once. */
  lemma {:induction false} ValuesBump(counter: map<int, nat>, order: seq<int>, x: int)
    requires x in counter
    requires forall i, j :: 0 <= i < j < |order| ==> order[i] != order[j]
    ensures SeqSum(Values(counter[x := counter[x] + 1], order)) ==
      SeqSum(Values(counter, order)) + (if x in order then 1 else 0)
  {
    if order != [] {
      var front := order[..|order| - 1];
      var last := order[|order| - 1];
      assert order == front + [last];
      ValuesBump(counter, front, x);
      assert x in order <==> x in front || x == last;
      if x == last {
        assert x !in front;
      }
      var bumped := counter[x := counter[x] + 1];
      ValuesAppend(bumped, front, last);
      ValuesAppend(counter, front, last);
      SeqSumAppend(Values(bumped, front), if last in bumped then [bumped[last]] else []);
      SeqSumAppend(Values(counter, front), if last in counter then [counter[last]] else []);
      if last in counter {
        SeqSumSingle(bumped[last]);
        SeqSumSingle(counter[last]);
      }
    }
  }

  /** A key that is not listed does not change the listed values. */
  lemma {:induction false} ValuesFresh(counter: map<int, nat>, order: seq<int>, x: int, v: nat)
    requires x !in order
    ensures Values(counter[x := v], order) == Values(counter, order)
  {
    if order != [] {
      ValuesFresh(counter, order[..|order| - 1], x, v);
    }
  }

  lemma {:induction false} DistinctAppend(cards: seq<int>, x: int)
    ensures Distinct(cards + [x]) == Distinct(cards) + (if x in cards then [] else [x])
  {
    assert (cards + [x])[..|cards|] == cards;
  }

  /** The counter without key `j` after one more card `x`. */
  lemma {:induction false} CounterWithoutAppend(cards: seq<int>, x: int, j: int)
    ensures x == j ==> Counter(cards + [x]) - {j} == Counter(cards) - {j}
    ensures x != j && x in Counter(cards) ==>
      Counter(cards + [x]) - {j} == (Counter(cards) - {j})[x := Counter(cards)[x] + 1]
    ensures x != j && x !in Counter(cards) ==> Counter(cards + [x]) - {j} == (Counter(cards) - {j})[x := 1]
  {
    CounterAppend(cards, x);
  }

  /** The count sum of the cards other than `j` keeps up with one more `j`, ...  */
  lemma {:induction false} CountStepDropped(front: seq<int>, j: int)
    requires SeqSum(Values(Counter(front) - {j}, Distinct(front))) + Occurrences(front, j) == |front|
    ensures SeqSum(Values(Counter(front + [j]) - {j}, Distinct(front + [j]))) + Occurrences(front + [j], j) == |front| + 1
  {
    assert (front + [j])[..|front|] == front;
    assert Occurrences(front + [j], j) == Occurrences(front, j) + 1;
    CounterWithoutAppend(front, j, j);
    DistinctAppend(front, j);
    var before := Counter(front) - {j};
    if j !in front {
      ValuesAppend(before, Distinct(front), j);
      assert j !in before;
      assert Values(before, Distinct(front) + [j]) == Values(before, Distinct(front)) + [];
      assert Values(before, Distinct(front) + [j]) == Values(before, Distinct(front));
    } else {
      assert Distinct(front + [j]) == Distinct(front) + [];
      assert Distinct(front) + [] == Distinct(front);
    }
    assert Values(before, Distinct(front + [j])) == Values(before, Distinct(front));
  }

  /** ... grows by one with one more card seen before, ... */
  lemma {:induction false} CountStepSeen(front: seq<int>, x: int, j: int)
    requires x != j && x in front
    requires SeqSum(Values(Counter(front) - {j}, Distinct(front))) + Occurrences(front, j) == |front|
    ensures SeqSum(Values(Counter(front + [x]) - {j}, Distinct(front + [x]))) + Occurrences(front + [x], j) == |front| + 1
  {
    assert (front + [x])[..|front|] == front;
    assert Occurrences(front + [x], j) == Occurrences(front, j);
    CounterWithoutAppend(front, x, j);
    DistinctAppend(front, x);
    assert Distinct(front + [x]) == Distinct(front);
    DistinctOnce(front);
    DistinctCards(front, x);
    CounterKeys(front, x);
    var before := Counter(front) - {j};
    assert x in before;
    assert Counter(front + [x]) - {j} == before[x := before[x] + 1];
    ValuesBump(before, Distinct(front), x);
  }

  /** ... and with one more card not seen before. */
  lemma {:induction false} CountStepNew(front: seq<int>, x: int, j: int)
    requires x != j && x !in front
    requires SeqSum(Values(Counter(front) - {j}, Distinct(front))) + Occurrences(front, j) == |front|
    ensures SeqSum(Values(Counter(front + [x]) - {j}, Distinct(front + [x]))) + Occurrences(front + [x], j) == |front| + 1
  {
    assert (front + [x])[..|front|] == front;
    CounterKeys(front, x);
    CounterWithoutAppend(front, x, j);
    DistinctAppend(front, x);
    var before := Counter(front) - {j};
    var ds := Distinct(front);
    DistinctCards(front, x);
    ValuesFresh(before, ds, x, 1);
    ValuesAppend(before[x := 1], ds, x);
    SeqSumAppend(Values(before, ds), [1]);
    SeqSumSingle(1);
  }

  /** The counts of the cards other than `j` add up to the number of those
      cards. */
  lemma {:induction false} CountValues(cards: seq<int>, j: int)
    ensures SeqSum(Values(Counter(cards) - {j}, Distinct(cards))) + Occurrences(cards, j) == |cards|
  {
    if cards != [] {
      var front := cards[..|cards| - 1];
      var x := cards[|cards| - 1];
      assert cards == front + [x];
      CountValues(front, j);
      if x == j {
        CountStepDropped(front, j);
      } else if x in front {
        CountStepSeen(front, x, j);
      } else {
        CountStepNew(front, x, j);
      }
    }
  }

  /** A number larger than every card. */
  function Fresh(cards: seq<int>): (v: int)
    ensures forall i :: 0 <= i < |cards| ==> cards[i] < v
  {
    if cards == [] then 0
    else
      var f := Fresh(cards[1..]);
      assert forall i :: 1 <= i < |cards| ==> cards[i] == cards[1..][i - 1];
      if cards[0] >= f then cards[0] + 1 else f
  }

  /** The counts of a whole hand add up to its size, and each is at least one. */
  lemma {:induction false} CountsOfHand(cards: seq<int>)
    ensures SeqSum(Values(Counter(cards), Distinct(cards))) == |cards|
  {
    var j := Fresh(cards);
    CountValues(cards, j);
    CounterKeys(cards, j);
    assert j !in cards;
    CounterCounts(cards, j);
    assert Counter(cards) - {j} == Counter(cards);
  }

  lemma {:induction false} SeqSumAtLeastLength(counts: seq<int>)
    requires forall k :: 0 <= k < |counts| ==> counts[k] >= 1
    ensures SeqSum(counts) >= |counts|
  {
    if counts != [] {
      SeqSumAtLeastLength(counts[..|counts| - 1]);
    }
  }

  /** The sums of the lists of up to five counts, written out. */
  lemma {:induction false} SeqSumShort(counts: seq<int>)
    requires |counts| <= 5
    ensures |counts| == 0 ==> SeqSum(counts) == 0
    ensures |counts| == 1 ==> SeqSum(counts) == counts[0]
    ensures |counts| == 2 ==> SeqSum(counts) == counts[0] + counts[1]
    ensures |counts| == 3 ==> SeqSum(counts) == counts[0] + counts[1] + counts[2]
    ensures |counts| == 4 ==> SeqSum(counts) == counts[0] + counts[1] + counts[2] + counts[3]
    ensures |counts| == 5 ==> SeqSum(counts) == counts[0] + counts[1] + counts[2] + counts[3] + counts[4]
  {
    if |counts| > 0 {
      SeqSumShort(counts[..|counts| - 1]);
    }
  }

  predicate Positive(counts: seq<int>) {
    forall k :: 0 <= k < |counts| ==> counts[k] >= 1
  }

  /** Listing the values of a dictionary whose values are all at least one. */
  lemma {:induction false} ValuesPositive(counter: map<int, nat>, order: seq<int>)
    requires forall v :: v in counter ==> counter[v] >= 1
    ensures Positive(Values(counter, order))
  {
    if order != [] {
      var front := order[..|order| - 1];
      var last := order[|order| - 1];
      assert order == front + [last];
      ValuesPositive(counter, front);
      ValuesAppend(counter, front, last);
    }
  }

  /** Reordering keeps every count at least one. */
  lemma {:induction false} PositivePermutation(a: seq<int>, b: seq<int>)
    requires Positive(a) && multiset(a) == multiset(b)
    ensures Positive(b)
  {
    forall k | 0 <= k < |b|
      ensures b[k] >= 1
    {
      assert b[k] in multiset(a);
    }
  }

  /** The sorted counts of the cards other than `j` are all at least one. */
  lemma {:induction false} PositiveCounts(cards: seq<int>, j: int)
    ensures Positive(SortDescending(Values(Counter(cards) - {j}, Distinct(cards))))
  {
    var without := Counter(cards) - {j};
    var counts := Values(without, Distinct(cards));
    CounterPositive(cards);
    ValuesPositive(without, Distinct(cards));
    PositivePermutation(counts, SortDescending(counts));
  }

  /** The ways to split at most five cards into groups, largest first. */
  lemma {:induction false} Shapes(counts: seq<int>)
    requires Descending(counts) && Positive(counts) && SeqSum(counts) <= 5
    ensures SeqSum(counts) == 0 ==> counts == []
    ensures SeqSum(counts) == 1 ==> counts == [1]
    ensures SeqSum(counts) == 2 ==> counts == [2] || counts == [1, 1]
    ensures SeqSum(counts) == 3 ==> counts == [3] || counts == [2, 1] || counts == [1, 1, 1]
    ensures SeqSum(counts) == 4 ==>
      counts == [4] || counts == [3, 1] || counts == [2, 2] || counts == [2, 1, 1] || counts == [1, 1, 1, 1]
    ensures SeqSum(counts) == 5 ==>
      counts == [5] || counts == [4, 1] || counts == [3, 2] || counts == [3, 1, 1] ||
      counts == [2, 2, 1] || counts == [2, 1, 1, 1] || counts == [1, 1, 1, 1, 1]
  {
    SeqSumAtLeastLength(counts);
    SeqSumShort(counts);
    if |counts| == 1 {
      assert counts == [counts[0]];
    } else if |counts| == 2 {
      assert counts == [counts[0], counts[1]];
    } else if |counts| == 3 {
      assert counts == [counts[0], counts[1], counts[2]];
    } else if |counts| == 4 {
      assert counts == [counts[0], counts[1], counts[2], counts[3]];
    } else if |counts| == 5 {
      assert counts == [counts[0], counts[1], counts[2], counts[3], counts[4]];
    }
  }

  /** Part 1's table covers exactly the splits of five cards. */
  lemma {:induction false} PlainTable(counts: seq<int>)
    requires Descending(counts) && Positive(counts)
    ensures PlainType(counts).Some? <==> SeqSum(counts) == 5
  {
    if PlainType(counts).Some? {
      assert |counts| <= 5;
      SeqSumShort(counts);
    }
    if SeqSum(counts) == 5 {
      Shapes(counts);
    }
  }

  /** The jokers join the largest group (or make a group of their own). */
  function AddJokers(counts: seq<int>, jokerCount: int): seq<int> {
    if counts == [] then [jokerCount] else [counts[0] + jokerCount] + counts[1..]
  }

  /** Part 2's table covers exactly the splits of the other cards where,
      with the jokers, there are five cards; and on those it gives the type
      part 1's table gives once the jokers join the largest group. */
  lemma {:induction false} JokerTable(counts: seq<int>, jokerCount: nat)
    requires Descending(counts) && Positive(counts)
    ensures JokerType(counts, jokerCount).Some? <==> SeqSum(counts) + jokerCount == 5
    ensures SeqSum(counts) + jokerCount == 5 ==>
      JokerType(counts, jokerCount) == PlainType(AddJokers(counts, jokerCount))
  {
    if JokerType(counts, jokerCount).Some? {
      assert |counts| <= 5;
      SeqSumShort(counts);
    }
    if SeqSum(counts) + jokerCount == 5 {
      JokerShapes(counts, jokerCount);
    }
  }

  /** The splits of the other cards, by the number of jokers. */
  lemma {:induction false} JokerShapes(counts: seq<int>, jokerCount: nat)
    requires Descending(counts) && Positive(counts) && SeqSum(counts) + jokerCount == 5
    ensures JokerType(counts, jokerCount).Some?
    ensures JokerType(counts, jokerCount) == PlainType(AddJokers(counts, jokerCount))
  {
    SeqSumAtLeastLength(counts);
    Shapes(counts);
    if jokerCount == 0 {
      assert SeqSum(counts) == 5;
    } else if jokerCount == 1 {
      assert SeqSum(counts) == 4;
    } else if jokerCount == 2 {
      assert SeqSum(counts) == 3;
    } else if jokerCount == 3 {
      assert SeqSum(counts) == 2;
    } else if jokerCount == 4 {
      assert SeqSum(counts) == 1;
    } else {
      assert SeqSum(counts) == 0;
    }
  }

  /** A hand has a type exactly when it has five cards. */
  lemma {:induction false} ClassifyTotal(cards: seq<int>, jokers: bool)
    ensures Classify(cards, jokers).Some? <==> |cards| == 5
  {
    var counter := Counter(cards);
    if jokers {
      var counts := Values(counter - {1}, Distinct(cards));
      CountValues(cards, 1);
      CounterCounts(cards, 1);
      PositiveCounts(cards, 1);
      JokerTable(SortDescending(counts), Occurrences(cards, 1));
    } else {
      var counts := Values(counter, Distinct(cards));
      CountsOfHand(cards);
      PositiveCounts(cards, Fresh(cards));
      CounterKeys(cards, Fresh(cards));
      assert Fresh(cards) !in cards;
      assert counter - {Fresh(cards)} == counter;
      PlainTable(SortDescending(counts));
    }
  }

  /** In part 2 a hand of five cards gets the type part 1's table gives its
      other cards once the jokers join the largest group of them. */
  lemma {:induction false} JokersJoinLargest(cards: seq<int>)
    requires |cards| == 5
    ensures Classify(cards, true) ==
      PlainType(AddJokers(SortDescending(Values(Counter(cards) - {1}, Distinct(cards))), Occurrences(cards, 1)))
  {
    var counts := Values(Counter(cards) - {1}, Distinct(cards));
    CountValues(cards, 1);
    CounterCounts(cards, 1);
    PositiveCounts(cards, 1);
    JokerTable(SortDescending(counts), Occurrences(cards, 1));
  }

  /*------------------------------------------------------------------------
    Hands
  ------------------------------------------------------------------------*/

  datatype Hand = Hand(hand: string, bid: int, handType: HandType, cards: seq<int>)

  /** `Hand.init`: the hand's cards and type; None is a fatal error (a
      character that is not a card, or a hand the table has no type for). */
  function HandOf(hand: string, bid: int, jokers: bool): Option<Hand> {
    match Cards(hand, jokers)
    case None => None
    case Some(cards) =>
      match Classify(cards, jokers)
      case None => None
      case Some(t) => Some(Hand(hand, bid, t, cards))
  }

  /** `Hand.init` succeeds exactly on five valid cards. */
  lemma {:induction false} HandOfTotal(hand: string, bid: int, jokers: bool)
    ensures HandOf(hand, bid, jokers).Some? <==>
      |hand| == 5 && forall i :: 0 <= i < |hand| ==> CardValue(hand[i], jokers).Some?
  {
    if Cards(hand, jokers).Some? {
      ClassifyTotal(Cards(hand, jokers).value, jokers);
    }
  }

  /** The loop of `Hand.init`: reading the cards one by one into the list
      and the counter; None when a character is not a card. */
  method ReadCards(hand: string, jokers: bool) returns (cards: Option<seq<int>>, counter: map<int, nat>)
    ensures cards == Cards(hand, jokers)
    ensures cards.Some? ==> counter == Counter(cards.value)
  {
    var read: seq<int> := [];
    counter := map[];
    for i := 0 to |hand|
      invariant Cards(hand[..i], jokers) == Some(read)
      invariant counter == Counter(read)
    {
      CardsStep(hand, i, jokers);
      var card := CardValue(hand[i], jokers);
      if card.None? {
        assert Cards(hand, jokers).None?;
        return None, counter;
      }
      CounterAppend(read, card.value);
      read := read + [card.value];
      counter := counter[card.value := (if card.value in counter then counter[card.value] else 0) + 1];
    }
    assert hand[..|hand|] == hand;
    cards := Some(read);
  }

  /** Reading one more card: the prefix's cards with the card's value appended. */
  lemma CardsStep(hand: string, i: nat, jokers: bool)
    requires i < |hand|
    ensures Cards(hand[..i + 1], jokers) ==
      if Cards(hand[..i], jokers).Some? && CardValue(hand[i], jokers).Some?
      then Some(Cards(hand[..i], jokers).value + [CardValue(hand[i], jokers).value])
      else None
  {
    assert hand[..i + 1][..i] == hand[..i];
  }

  /** `Hand.init`: the cards, then the counts looked up in the table. */
  method NewHand(hand: string, bid: int, jokers: bool) returns (r: Option<Hand>)
    ensures r == HandOf(hand, bid, jokers)
  {
    var cards, counter := ReadCards(hand, jokers);
    if cards.None? {
      return None;
    }
    var handType: Option<HandType>;
    if jokers {
      var jokerCount := if 1 in counter then counter[1] else 0;
      handType := JokerType(SortDescending(Values(counter - {1}, Distinct(cards.value))), jokerCount);
    } else {
      handType := PlainType(SortDescending(Values(counter, Distinct(cards.value))));
    }
    if handType.None? {
      return None;
    }
    r := Some(Hand(hand, bid, handType.value, cards.value));
  }

  /*------------------------------------------------------------------------
    Ordering the hands
  ------------------------------------------------------------------------*/

  /** `lexicographicallyPrecedes` on card lists. */
  predicate CardsBefore(a: seq<int>, b: seq<int>)
    decreases |a|
  {
    if |a| == 0 then |b| > 0
    else if |b| == 0 then false
    else a[0] < b[0] || (a[0] == b[0] && CardsBefore(a[1..], b[1..]))
  }

  /** `<` on hands: the weaker type, or the same type and the cards first in
      lexicographic order. */
  predicate Weaker(a: Hand, b: Hand) {
    if a.handType != b.handType then a.handType.Rank() < b.handType.Rank()
    else CardsBefore(a.cards, b.cards)
  }

  lemma {:induction false} CardsBeforeTransitive(a: seq<int>, b: seq<int>, c: seq<int>)
    requires CardsBefore(a, b) && CardsBefore(b, c)
    ensures CardsBefore(a, c)
    decreases |a|
  {
    if |a| > 0 && a[0] == b[0] && b[0] == c[0] {
      CardsBeforeTransitive(a[1..], b[1..], c[1..]);
    }
  }

  /** Of two different card lists exactly one comes first. */
  lemma {:induction false} CardsBeforeTotal(a: seq<int>, b: seq<int>)
    ensures a == b || CardsBefore(a, b) || CardsBefore(b, a)
    ensures !(CardsBefore(a, b) && CardsBefore(b, a))
    decreases |a|
  {
    if |a| > 0 && |b| > 0 {
      CardsBeforeTotal(a[1..], b[1..]);
      if a[0] == b[0] && a[1..] == b[1..] {
        assert a == [a[0]] + a[1..] && b == [b[0]] + b[1..];
      }
    }
  }

  lemma {:induction false} HandTypeRankInjective(s: HandType, t: HandType)
    ensures s.Rank() == t.Rank() <==> s == t
  {
  }

  /** `<` on hands is a strict order, and two hands that differ in type or
      cards are always ordered one way or the other. */
  lemma {:induction false} WeakerOrder(a: Hand, b: Hand, c: Hand)
    ensures !Weaker(a, a)
    ensures Weaker(a, b) && Weaker(b, c) ==> Weaker(a, c)
    ensures !(Weaker(a, b) && Weaker(b, a))
    ensures a.handType != b.handType || a.cards != b.cards ==> Weaker(a, b) || Weaker(b, a)
  {
    CardsBeforeTotal(a.cards, a.cards);
    CardsBeforeTotal(a.cards, b.cards);
    HandTypeRankInjective(a.handType, b.handType);
    HandTypeRankInjective(b.handType, c.handType);
    HandTypeRankInjective(a.handType, c.handType);
    if Weaker(a, b) && Weaker(b, c) && a.handType == b.handType == c.handType {
      CardsBeforeTransitive(a.cards, b.cards, c.cards);
    }
  }

  /** A list in the order `sort(by: <)` leaves it: no hand is weaker than one
      before it. */
  predicate Ranked(hands: seq<Hand>) {
    forall i, j :: 0 <= i < j < |hands| ==> !Weaker(hands[j], hands[i])
  }

  function InsertHand(hands: seq<Hand>, h: Hand): (r: seq<Hand>)
    requires Ranked(hands)
    ensures Ranked(r) && multiset(r) == multiset(hands) + multiset{h}
  {
    if hands == [] then [h]
    else if Weaker(h, hands[0]) then
      WeakerThanFirst(hands, h);
      [h] + hands
    else
      var rest := InsertHand(hands[1..], h);
      assert hands == [hands[0]] + hands[1..];
      NotWeakerPermutation(rest, hands, h);
      [hands[0]] + rest
  }

  /** A hand weaker than the first of a ranked list is weaker than all. */
  lemma {:induction false} WeakerThanFirst(hands: seq<Hand>, h: Hand)
    requires Ranked(hands) && |hands| > 0 && Weaker(h, hands[0])
    ensures forall k :: 0 <= k < |hands| ==> !Weaker(hands[k], h)
  {
    forall k | 0 <= k < |hands|
      ensures !Weaker(hands[k], h)
    {
      WeakerOrder(hands[k], h, hands[0]);
      WeakerOrder(hands[0], hands[0], hands[0]);
    }
  }

  /** The rest of a ranked list with one hand not weaker than its first
      inserted has no hand weaker than that first. */
  lemma {:induction false} NotWeakerPermutation(rest: seq<Hand>, hands: seq<Hand>, h: Hand)
    requires Ranked(hands) && |hands| > 0 && !Weaker(h, hands[0])
    requires multiset(rest) == multiset(hands[1..]) + multiset{h}
    ensures forall k :: 0 <= k < |rest| ==> !Weaker(rest[k], hands[0])
  {
    forall k | 0 <= k < |rest|
      ensures !Weaker(rest[k], hands[0])
    {
      assert rest[k] in multiset(hands[1..]) + multiset{h};
      if rest[k] != h {
        assert rest[k] in hands[1..];
        var m :| 0 <= m < |hands[1..]| && hands[1..][m] == rest[k];
        assert hands[m + 1] == rest[k];
      }
    }
  }

  /** `sort(by: <)`, by insertion: hands that tie keep their input order. */
  function SortHands(hands: seq<Hand>): (r: seq<Hand>)
    ensures Ranked(r) && multiset(r) == multiset(hands)
  {
    if hands == [] then []
    else
      var front := hands[..|hands| - 1];
      assert hands == front + [hands[|hands| - 1]];
      InsertHand(SortHands(front), hands[|hands| - 1])
  }

  /** No two different hands of the list tie. */
  predicate NoTies(hands: seq<Hand>) {
    forall i, j :: 0 <= i < |hands| && 0 <= j < |hands| && hands[i] != hands[j] ==>
      Weaker(hands[i], hands[j]) || Weaker(hands[j], hands[i])
  }

  /** Hands with pairwise different cards never tie. */
  lemma {:induction false} DifferentCardsNoTies(hands: seq<Hand>)
    requires forall i, j :: 0 <= i < j < |hands| ==> hands[i].cards != hands[j].cards
    ensures NoTies(hands)
  {
    forall i, j | 0 <= i < |hands| && 0 <= j < |hands| && hands[i] != hands[j]
      ensures Weaker(hands[i], hands[j]) || Weaker(hands[j], hands[i])
    {
      WeakerOrder(hands[i], hands[j], hands[j]);
    }
  }

  /** No hand of a ranked list is weaker than its first. */
  lemma {:induction false} RankedFirst(hands: seq<Hand>, h: Hand)
    requires Ranked(hands) && h in hands
    ensures !Weaker(h, hands[0])
  {
    var i :| 0 <= i < |hands| && hands[i] == h;
    if i == 0 {
      WeakerOrder(h, h, h);
    }
  }

  /** Two ranked arrangements of the same hands, none tying, start alike. */
  lemma {:induction false} RankedHeads(a: seq<Hand>, b: seq<Hand>)
    requires Ranked(a) && Ranked(b) && multiset(a) == multiset(b) && NoTies(a) && |a| > 0
    ensures |b| > 0 && a[0] == b[0]
  {
    assert |a| == |multiset(a)| == |multiset(b)| == |b|;
    assert a[0] in multiset(b) && b[0] in multiset(a);
    RankedFirst(a, b[0]);
    RankedFirst(b, a[0]);
    var j :| 0 <= j < |a| && a[j] == b[0];
  }

  lemma {:induction false} RankedTail(a: seq<Hand>)
    requires Ranked(a) && NoTies(a) && |a| > 0
    ensures Ranked(a[1..]) && NoTies(a[1..])
  {
    forall i, j | 0 <= i < j < |a[1..]|
      ensures !Weaker(a[1..][j], a[1..][i])
    {
      assert a[1..][i] == a[i + 1] && a[1..][j] == a[j + 1];
    }
    forall i, j | 0 <= i < |a[1..]| && 0 <= j < |a[1..]| && a[1..][i] != a[1..][j]
      ensures Weaker(a[1..][i], a[1..][j]) || Weaker(a[1..][j], a[1..][i])
    {
      assert a[1..][i] == a[i + 1] && a[1..][j] == a[j + 1];
    }
  }

  lemma {:induction false} MultisetTail(a: seq<Hand>, b: seq<Hand>)
    requires multiset(a) == multiset(b) && |a| > 0 && |b| > 0 && a[0] == b[0]
    ensures multiset(a[1..]) == multiset(b[1..])
  {
    assert a == [a[0]] + a[1..] && b == [b[0]] + b[1..];
    assert multiset(a[1..]) == multiset(a) - multiset{a[0]};
    assert multiset(b[1..]) == multiset(b) - multiset{b[0]};
  }

  /** When no two hands tie there is only one ranked order of them, so any
      sorting algorithm, stable or not, gives the same list. */
  lemma {:induction false} RankedUnique(a: seq<Hand>, b: seq<Hand>)
    requires Ranked(a) && Ranked(b) && multiset(a) == multiset(b) && NoTies(a)
    ensures a == b
    decreases |a|
  {
    if |a| > 0 {
      RankedHeads(a, b);
      MultisetTail(a, b);
      RankedTail(a);
      RankedTail(b) by {
        assert NoTies(b) by {
          forall i, j | 0 <= i < |b| && 0 <= j < |b| && b[i] != b[j]
            ensures Weaker(b[i], b[j]) || Weaker(b[j], b[i])
          {
            assert b[i] in multiset(a) && b[j] in multiset(a);
          }
        }
      }
      RankedUnique(a[1..], b[1..]);
      assert a == [a[0]] + a[1..] && b == [b[0]] + b[1..];
    } else {
      assert |b| == |multiset(b)| == |multiset(a)| == 0;
    }
  }

  /*------------------------------------------------------------------------
    Winnings, parsing and the two parts
  ------------------------------------------------------------------------*/

  /** `enumerated().map { bid * (index + 1) }.reduce(0, +)`. */
  function Winnings(hands: seq<Hand>): int {
    if hands == [] then 0
    else Winnings(hands[..|hands| - 1]) + hands[|hands| - 1].bid * |hands|
  }

  /** When no two hands tie, every ranked arrangement of them earns the same:
      the answer does not depend on how the sort breaks ties. */
  lemma {:induction false} WinningsAnyOrder(ranked: seq<Hand>, hands: seq<Hand>)
    requires Ranked(ranked) && multiset(ranked) == multiset(hands) && NoTies(hands)
    ensures Winnings(ranked) == Winnings(SortHands(hands))
  {
    var sorted := SortHands(hands);
    assert NoTies(ranked) by {
      forall i, j | 0 <= i < |ranked| && 0 <= j < |ranked| && ranked[i] != ranked[j]
        ensures Weaker(ranked[i], ranked[j]) || Weaker(ranked[j], ranked[i])
      {
        assert ranked[i] in multiset(hands) && ranked[j] in multiset(hands);
        var p :| 0 <= p < |hands| && hands[p] == ranked[i];
        var q :| 0 <= q < |hands| && hands[q] == ranked[j];
      }
    }
    RankedUnique(ranked, sorted);
  }

  /** A line "hand bid": the first two words split on spaces. None is a
      fatal error: a missing bid, a bid that is not an integer, or a hand
      with no type. */
  function ParseHand(line: string, jokers: bool): Option<Hand> {
    var parts := NonEmpty(Split(line, ' '));
    if |parts| < 2 then None
    else
      match ParseInt(parts[1])
      case None => None
      case Some(bid) => HandOf(parts[0], bid, jokers)
  }

  /** The `map` of `parseInput`: a hand from each line, or None as soon as
      one line is not a hand. */
  function ParseLines(lines: seq<string>, jokers: bool): Option<seq<Hand>> {
    CollectMap(line => ParseHand(line, jokers), lines)
  }

  /** `parseInput`: a hand on each non-empty line. */
  function ParseHands(text: string, jokers: bool): Option<seq<Hand>> {
    ParseLines(NonEmpty(Split(text, '\n')), jokers)
  }

  /** `day7Part1` (without jokers) and `day7Part2` (with): the winnings of
      the hands once sorted. */
  function TotalWinnings(text: string, jokers: bool): Option<int> {
    match ParseHands(text, jokers)
    case None => None
    case Some(hands) => Some(Winnings(SortHands(hands)))
  }

  /** The line of a hand as the puzzle input writes it: the hand, a space
      and the bid. */
  function HandLine(hand: string, bid: int): (line: string)
    ensures '\n' !in hand ==> '\n' !in line
  {
    hand + " " + IntString(bid)
  }

  /** Reading a hand's line gives the hand back. */
  lemma {:induction false} ParseHandRoundTrip(hand: string, bid: int, jokers: bool)
    requires |hand| > 0 && ' ' !in hand
    ensures ParseHand(HandLine(hand, bid), jokers) == HandOf(hand, bid, jokers)
  {
    var parts := [hand, IntString(bid)];
    assert Join(parts, [' ']) == HandLine(hand, bid);
    SplitJoin(parts, ' ');
    NonEmptyKeeps(parts);
    IntRoundTrip(bid);
  }

  /** The lines are read exactly when every one is a hand, and then give
      the hands of the lines in order. */
  lemma {:induction false} ParseLinesEach(lines: seq<string>, jokers: bool)
    ensures ParseLines(lines, jokers).Some? <==> forall i :: 0 <= i < |lines| ==> ParseHand(lines[i], jokers).Some?
    ensures ParseLines(lines, jokers).Some? ==>
      |ParseLines(lines, jokers).value| == |lines| &&
      forall i :: 0 <= i < |lines| ==> Some(ParseLines(lines, jokers).value[i]) == ParseHand(lines[i], jokers)
  {
    var f := line => ParseHand(line, jokers);
    CollectMapSome(f, lines);
    if ParseLines(lines, jokers).Some? {
      CollectMapValues(f, lines);
    }
  }

  /** The puzzle input for a list of hands: their lines, one per line. */
  function HandsText(hands: seq<Hand>): string {
    Join(seq(|hands|, i requires 0 <= i < |hands| => HandLine(hands[i].hand, hands[i].bid)), "\n")
  }

  /** A hand whose text has no separator and reads back as itself. */
  predicate Printable(h: Hand, jokers: bool) {
    |h.hand| > 0 && ' ' !in h.hand && '\n' !in h.hand && HandOf(h.hand, h.bid, jokers) == Some(h)
  }

  /** Reading the input written for a list of hands gives the hands back. */
  lemma {:induction false} ParseHandsRoundTrip(hands: seq<Hand>, jokers: bool)
    requires forall i :: 0 <= i < |hands| ==> Printable(hands[i], jokers)
    ensures ParseHands(HandsText(hands), jokers) == Some(hands)
  {
    var text := HandsText(hands);
    var lines := seq(|hands|, i requires 0 <= i < |hands| => HandLine(hands[i].hand, hands[i].bid));
    assert text == Join(lines, "\n");
    if hands == [] {
      assert Split(text, '\n') == [[]];
    } else {
      LinesReadBack(hands, lines, jokers);
      SplitJoin(lines, '\n');
      NonEmptyKeeps(lines);
      assert ParseHands(text, jokers) == ParseLines(lines, jokers);
      CollectMapExact(line => ParseHand(line, jokers), lines, hands);
    }
  }

  /** Each written line has no newline and reads back as its hand. */
  lemma {:induction false} LinesReadBack(hands: seq<Hand>, lines: seq<string>, jokers: bool)
    requires forall i :: 0 <= i < |hands| ==> Printable(hands[i], jokers)
    requires lines == seq(|hands|, i requires 0 <= i < |hands| => HandLine(hands[i].hand, hands[i].bid))
    ensures forall i :: 0 <= i < |lines| ==> '\n' !in lines[i] && |lines[i]| > 0
    ensures forall i :: 0 <= i < |lines| ==> ParseHand(lines[i], jokers) == Some(hands[i])
  {
    forall i | 0 <= i < |lines|
      ensures '\n' !in lines[i] && |lines[i]| > 0
      ensures ParseHand(lines[i], jokers) == Some(hands[i])
    {
      assert lines[i] == HandLine(hands[i].hand, hands[i].bid);
      ParseHandRoundTrip(hands[i].hand, hands[i].bid, jokers);
    }
  }

  /** Whatever ranked arrangement of the parsed hands is taken, when no two
      of them tie, the answer is its winnings. */
  lemma {:induction false} TotalWinningsRanked(text: string, jokers: bool, hands: seq<Hand>, ranked: seq<Hand>)
    requires ParseHands(text, jokers) == Some(hands)
    requires Ranked(ranked) && multiset(ranked) == multiset(hands) && NoTies(hands)
    ensures TotalWinnings(text, jokers) == Some(Winnings(ranked))
  {
    WinningsAnyOrder(ranked, hands);
  }

  /** The winnings the way `enumerated().map` lists them: from the weakest
      hand, at rank `rank`, upward. */
  function WinningsFrom(hands: seq<Hand>, rank: int): int {
    if hands == [] then 0 else hands[0].bid * rank + WinningsFrom(hands[1..], rank + 1)
  }

  /** Summing from the strongest hand down gives the same total as summing
      each hand's bid times its rank from the weakest up. */
  lemma {:induction false} WinningsRanks(hands: seq<Hand>)
    ensures Winnings(hands) == WinningsFrom(hands, 1)
  {
    WinningsSplit(hands, 1);
  }

  lemma {:induction false} WinningsSplit(hands: seq<Hand>, rank: int)
    ensures WinningsFrom(hands, rank) == Winnings(hands) + (rank - 1) * BidSum(hands)
    decreases |hands|
  {
    if hands != [] {
      var n := |hands|;
      var front := hands[..n - 1];
      var last := hands[n - 1];
      WinningsLast(hands, rank);
      WinningsSplit(front, rank);
      var b, k := BidSum(front), rank - 1;
      assert BidSum(hands) == b + last.bid;
      assert Winnings(hands) == Winnings(front) + last.bid * n;
      assert k * (b + last.bid) == k * b + k * last.bid;
      assert last.bid * (rank + n - 1) == last.bid * n + k * last.bid;
    }
  }

  /** The bids added up. */
  function BidSum(hands: seq<Hand>): int {
    if hands == [] then 0 else BidSum(hands[..|hands| - 1]) + hands[|hands| - 1].bid
  }

  /** The last hand of the list is the one at rank `rank + |hands| - 1`. */
  lemma {:induction false} WinningsLast(hands: seq<Hand>, rank: int)
    requires |hands| > 0
    ensures WinningsFrom(hands, rank) ==
      WinningsFrom(hands[..|hands| - 1], rank) + hands[|hands| - 1].bid * (rank + |hands| - 1)
    decreases |hands|
  {
    if |hands| > 1 {
      var tail := hands[1..];
      WinningsLast(tail, rank + 1);
      assert tail[..|tail| - 1] == hands[..|hands| - 1][1..];
    }
  }

  /*------------------------------------------------------------------------
    The puzzle's example
  ------------------------------------------------------------------------*/

  const ExampleText: string := "32T3K 765\nT55J5 684\nKK677 28\nKTJJT 220\nQQQJA 483"

  /** The example's hands as part 1 reads them, in input order. */
  const PlainHands: seq<Hand> := [
    Hand("32T3K", 765, OnePair, [3, 2, 10, 3, 13]),
    Hand("T55J5", 684, ThreeOfAKind, [10, 5, 5, 11, 5]),
    Hand("KK677", 28, TwoPairs, [13, 13, 6, 7, 7]),
    Hand("KTJJT", 220, TwoPairs, [13, 10, 11, 11, 10]),
    Hand("QQQJA", 483, ThreeOfAKind, [12, 12, 12, 11, 14])]

  /** The example's hands as part 2 reads them, in input order. */
  const JokerHands: seq<Hand> := [
    Hand("32T3K", 765, OnePair, [3, 2, 10, 3, 13]),
    Hand("T55J5", 684, FourOfAKind, [10, 5, 5, 1, 5]),
    Hand("KK677", 28, TwoPairs, [13, 13, 6, 7, 7]),
    Hand("KTJJT", 220, FourOfAKind, [13, 10, 1, 1, 10]),
    Hand("QQQJA", 483, FourOfAKind, [12, 12, 12, 1, 14])]

  /** The example's hands in part 1's order: 32T3K (one pair), KTJJT and
      KK677 (two pairs, KT before KK), T55J5 and QQQJA (three of a kind). */
  const PlainRanked: seq<Hand> := [PlainHands[0], PlainHands[3], PlainHands[2], PlainHands[1], PlainHands[4]]

  /** The example's hands in part 2's order: 32T3K (one pair), KK677 (two
      pairs), then T55J5, QQQJA and KTJJT (four of a kind once the jokers
      join, ordered with J the weakest card). */
  const JokerRanked: seq<Hand> := [JokerHands[0], JokerHands[2], JokerHands[1], JokerHands[4], JokerHands[3]]

  /** Part 1 on the example: its hands sorted earn 6440. */
  lemma ExamplePlainWinnings()
    ensures Winnings(SortHands(PlainHands)) == 6440
  {
    var r := PlainRanked;
    ExamplePlainChain();
    ExamplePlainPermutation();
    ExampleOrder(r, PlainHands);
    WinningsFive(r[0], r[1], r[2], r[3], r[4]);
  }

  /** Part 2 on the example: its hands sorted earn 5905. */
  lemma ExampleJokerWinnings()
    ensures Winnings(SortHands(JokerHands)) == 5905
  {
    var r := JokerRanked;
    ExampleJokerChain();
    ExampleJokerPermutation();
    ExampleOrder(r, JokerHands);
    WinningsFive(r[0], r[1], r[2], r[3], r[4]);
  }

  /** In part 1's order each example hand is weaker than the next. */
  lemma ExamplePlainChain()
    ensures Weaker(PlainRanked[0], PlainRanked[1]) && Weaker(PlainRanked[1], PlainRanked[2])
    ensures Weaker(PlainRanked[2], PlainRanked[3]) && Weaker(PlainRanked[3], PlainRanked[4])
  {
  }

  /** Part 1's order holds each example hand once. */
  lemma ExamplePlainPermutation()
    ensures multiset(PlainRanked) == multiset(PlainHands)
  {
    var h := PlainHands;
    assert PlainHands == [h[0], h[1], h[2], h[3], h[4]];
  }

  /** In part 2's order each example hand is weaker than the next. */
  lemma ExampleJokerChain()
    ensures Weaker(JokerRanked[0], JokerRanked[1]) && Weaker(JokerRanked[1], JokerRanked[2])
    ensures Weaker(JokerRanked[2], JokerRanked[3]) && Weaker(JokerRanked[3], JokerRanked[4])
  {
  }

  /** Part 2's order holds each example hand once. */
  lemma ExampleJokerPermutation()
    ensures multiset(JokerRanked) == multiset(JokerHands)
  {
    var h := JokerHands;
    assert JokerHands == [h[0], h[1], h[2], h[3], h[4]];
  }

  /** Five hands earn their bids times ranks one to five. */
  lemma {:induction false} WinningsFive(a: Hand, b: Hand, c: Hand, d: Hand, e: Hand)
    ensures Winnings([a, b, c, d, e]) == a.bid + b.bid * 2 + c.bid * 3 + d.bid * 4 + e.bid * 5
  {
    assert [a, b, c, d, e][..4] == [a, b, c, d];
    assert [a, b, c, d][..3] == [a, b, c];
    assert [a, b, c][..2] == [a, b];
    assert [a, b][..1] == [a];
    assert [a][..0] == [];
    assert Winnings([a]) == a.bid;
    assert Winnings([a, b]) == a.bid + b.bid * 2;
    assert Winnings([a, b, c]) == a.bid + b.bid * 2 + c.bid * 3;
    assert Winnings([a, b, c, d]) == a.bid + b.bid * 2 + c.bid * 3 + d.bid * 4;
  }

  /** A list whose every hand is weaker than the next is ranked. */
  lemma {:induction false} ChainRanked(hands: seq<Hand>)
    requires forall i :: 0 <= i < |hands| - 1 ==> Weaker(hands[i], hands[i + 1])
    ensures Ranked(hands)
    ensures forall i, j :: 0 <= i < j < |hands| ==> Weaker(hands[i], hands[j])
    decreases |hands|
  {
    if |hands| > 1 {
      var front := hands[..|hands| - 1];
      ChainRanked(front);
      var n := |hands| - 1;
      forall i, j | 0 <= i < j < |hands|
        ensures Weaker(hands[i], hands[j]) && !Weaker(hands[j], hands[i])
      {
        if j < n {
          assert Weaker(front[i], front[j]);
        } else if i < n - 1 {
          assert Weaker(front[i], front[n - 1]);
          WeakerOrder(hands[i], hands[n - 1], hands[n]);
        }
        WeakerOrder(hands[i], hands[j], hands[i]);
      }
    }
  }

  /** A ranked arrangement of five hands with different cards is the one the
      sort gives. */
  lemma {:induction false} ExampleOrder(ranked: seq<Hand>, hands: seq<Hand>)
    requires |hands| == 5 && forall i, j :: 0 <= i < j < 5 ==> hands[i].cards != hands[j].cards
    requires |ranked| == 5
    requires Weaker(ranked[0], ranked[1]) && Weaker(ranked[1], ranked[2])
    requires Weaker(ranked[2], ranked[3]) && Weaker(ranked[3], ranked[4])
    requires multiset(ranked) == multiset(hands)
    ensures Winnings(SortHands(hands)) == Winnings(ranked)
  {
    ChainRanked(ranked);
    DifferentCardsNoTies(hands);
    WinningsAnyOrder(ranked, hands);
  }

}
