/**
 * Day 5 of 2023, "If You Give A Seed A Fertilizer": an almanac lists seeds and
 * a chain of range maps (seed to soil, soil to fertilizer, ... humidity to
 * location). Part 1 walks every seed forward through the maps and takes the
 * lowest location; part 2 walks locations backward through the same maps
 * until one lands in a seed range.
 */
module Year2023Day5 {
  import opened Wrappers
  import opened Text
  import opened PyText

  /** `Item`: a number in a category ("seed", "soil", ..., "location"). */
  datatype Item = Item(category: string, number: int)

  /** One line of a map section: destination start, source start, length. */
  datatype Triple = Triple(destinationStart: nat, sourceStart: nat, length: nat)

  /** One match of the section pattern: "source-to-destination map:" and its
      lines. */
  datatype Section = Section(source: string, destination: string, lines: seq<Triple>)

  /** A range map oriented the way the walk applies it: the numbers from
      `from` to `from + length - 1` go to `to` onwards. */
  datatype Rule = Rule(from: int, to: int, length: int)

  /** The maps listed under one category: its range maps in file order, then
      the default map; all of them lead to the category `next`. */
  datatype Stage = Stage(next: string, rules: seq<Rule>)

  type Maps = map<string, Stage>

  /*------------------------------------------------------------------------
    Range maps
  ------------------------------------------------------------------------*/

  predicate Covers(rule: Rule, n: int) {
    rule.from <= n < rule.from + rule.length
  }

  /** `item_map`: the image of `n` under one range map, None outside its range. */
  function ApplyRule(rule: Rule, n: int): (r: Option<int>)
    ensures r.Some? <==> Covers(rule, n)
    ensures r.Some? ==> r.value - rule.to == n - rule.from
  {
    if Covers(rule, n) then Some(n - rule.from + rule.to) else None
  }

  /** The first range map that covers `n` decides its image; the default map
      keeps a number no range map covers. */
  function ApplyRules(rules: seq<Rule>, n: int): int {
    if rules == [] then n
    else
      match ApplyRule(rules[0], n)
      case Some(m) => m
      case None => ApplyRules(rules[1..], n)
  }

  /** The image is given by the first covering range map, or is `n` itself. */
  lemma {:induction false} ApplyRulesFirst(rules: seq<Rule>, n: int, k: nat)
    requires k <= |rules| && forall i :: 0 <= i < k ==> !Covers(rules[i], n)
    requires k < |rules| ==> Covers(rules[k], n)
    ensures k < |rules| ==> ApplyRules(rules, n) == n - rules[k].from + rules[k].to
    ensures k == |rules| ==> ApplyRules(rules, n) == n
  {
    if k > 0 {
      assert !Covers(rules[0], n);
      ApplyRulesFirst(rules[1..], n, k - 1);
    }
  }

  /** Part 1's `create_item_map`: a line read from source to destination. */
  function Forward(t: Triple): Rule {
    Rule(t.sourceStart, t.destinationStart, t.length)
  }

  /** Part 2's `create_item_map`: the same line read from destination back to
      source. */
  function Backward(t: Triple): Rule {
    Rule(t.destinationStart, t.sourceStart, t.length)
  }

  function Rules(lines: seq<Triple>, backward: bool): (rules: seq<Rule>)
    ensures |rules| == |lines|
    ensures forall i :: 0 <= i < |lines| ==> rules[i] == if backward then Backward(lines[i]) else Forward(lines[i])
  {
    seq(|lines|, i requires 0 <= i < |lines| => if backward then Backward(lines[i]) else Forward(lines[i]))
  }

  /** Reading a line backwards undoes reading it forwards on its range. */
  lemma BackwardUndoesForward(t: Triple, n: int)
    requires Covers(Forward(t), n)
    ensures Covers(Backward(t), ApplyRule(Forward(t), n).value)
    ensures ApplyRule(Backward(t), ApplyRule(Forward(t), n).value) == Some(n)
  {
  }

  /** No two lines of a section share a destination number. */
  predicate DisjointDestinations(lines: seq<Triple>) {
    forall i, j :: 0 <= i < j < |lines| ==>
      lines[i].destinationStart + lines[i].length <= lines[j].destinationStart ||
      lines[j].destinationStart + lines[j].length <= lines[i].destinationStart
  }

  /** When the destination ranges of a section do not overlap, the reverse
      maps send every number a range map moved back where it came from. */
  lemma {:induction false} ReverseUndoesSection(lines: seq<Triple>, n: int, k: nat)
    requires DisjointDestinations(lines)
    requires k < |lines| && Covers(Forward(lines[k]), n)
    requires forall i :: 0 <= i < k ==> !Covers(Forward(lines[i]), n)
    ensures ApplyRules(Rules(lines, true), ApplyRules(Rules(lines, false), n)) == n
  {
    var forward, backward := Rules(lines, false), Rules(lines, true);
    ApplyRulesFirst(forward, n, k);
    var m := ApplyRules(forward, n);
    forall i | 0 <= i < k ensures !Covers(backward[i], m) {
      assert backward[i] == Backward(lines[i]);
    }
    ApplyRulesFirst(backward, m, k);
  }

  /*------------------------------------------------------------------------
    The walk through the maps
  ------------------------------------------------------------------------*/

  /** One pass of `map_item`'s loop: the first map of the item's category
      that applies. */
  function Step(item: Item, maps: Maps): Item
    requires item.category in maps
  {
    Item(maps[item.category].next, ApplyRules(maps[item.category].rules, item.number))
  }

  /** `map_item` cut off after `fuel` passes: None when the item is still in
      a category with maps by then. */
  function Walk(item: Item, maps: Maps, fuel: nat): (r: Option<Item>)
    ensures r.Some? ==> r.value.category !in maps
    decreases fuel
  {
    if item.category !in maps then Some(item)
    else if fuel == 0 then None
    else Walk(Step(item, maps), maps, fuel - 1)
  }

  /** The category after one pass; a category with no maps stays put. */
  function NextCategory(maps: Maps, c: string): string {
    if c in maps then maps[c].next else c
  }

  function CategoryAfter(maps: Maps, c: string, k: nat): string
    decreases k
  {
    if k == 0 then c else CategoryAfter(maps, NextCategory(maps, c), k - 1)
  }

  /** A cut-off walk fails exactly when every category it passes has maps:
      whether the walk ends does not depend on the numbers. */
  lemma {:induction false} WalkNone(item: Item, maps: Maps, fuel: nat)
    ensures Walk(item, maps, fuel).None? <==>
      forall m :: 0 <= m <= fuel ==> CategoryAfter(maps, item.category, m) in maps
    decreases fuel
  {
    var c := item.category;
    assert CategoryAfter(maps, c, 0) == c;
    if c in maps && fuel > 0 {
      var next := Step(item, maps);
      WalkNone(next, maps, fuel - 1);
      forall m | 1 <= m <= fuel
        ensures CategoryAfter(maps, c, m) == CategoryAfter(maps, next.category, m - 1)
      {
      }
      if Walk(item, maps, fuel).None? {
        forall m | 0 <= m <= fuel ensures CategoryAfter(maps, c, m) in maps {
          if m > 0 {
            assert CategoryAfter(maps, next.category, m - 1) in maps;
          }
        }
      } else {
        var m :| 0 <= m <= fuel - 1 && CategoryAfter(maps, next.category, m) !in maps;
        assert CategoryAfter(maps, c, m + 1) !in maps;
      }
    }
  }

  /** A walk that has ended gives the same item with more passes allowed. */
  lemma {:induction false} WalkMore(item: Item, maps: Maps, f: nat, g: nat)
    requires f <= g && Walk(item, maps, f).Some?
    ensures Walk(item, maps, g) == Walk(item, maps, f)
    decreases f
  {
    if item.category in maps {
      WalkMore(Step(item, maps), maps, f - 1, g - 1);
    }
  }

  lemma {:induction false} CategoryAfterAdd(maps: Maps, c: string, i: nat, m: nat)
    ensures CategoryAfter(maps, c, i + m) == CategoryAfter(maps, CategoryAfter(maps, c, i), m)
    decreases i
  {
    if i > 0 {
      CategoryAfterAdd(maps, NextCategory(maps, c), i - 1, m);
    }
  }

  /** Once a category comes round again with maps all the way, the walk
      stays among categories with maps for ever. */
  lemma {:induction false} CycleStays(maps: Maps, c: string, i: nat, j: nat, k: nat)
    requires i < j && CategoryAfter(maps, c, i) == CategoryAfter(maps, c, j)
    requires forall m :: 0 <= m <= j ==> CategoryAfter(maps, c, m) in maps
    ensures CategoryAfter(maps, c, k) in maps
    decreases k
  {
    if k > j {
      CategoryAfterAdd(maps, c, j, k - j);
      CategoryAfterAdd(maps, c, i, k - j);
      CycleStays(maps, c, i, j, i + (k - j));
    }
  }

  /** More entries than there are values: some value repeats. */
  lemma {:induction false} Pigeonhole<T>(s: seq<T>, values: set<T>)
    requires forall i :: 0 <= i < |s| ==> s[i] in values
    requires |s| > |values|
    ensures exists i, j :: 0 <= i < j < |s| && s[i] == s[j]
  {
    var x := s[|s| - 1];
    if exists i :: 0 <= i < |s| - 1 && s[i] == x {
      var i :| 0 <= i < |s| - 1 && s[i] == x;
      assert s[i] == s[|s| - 1];
    } else {
      var init := s[..|s| - 1];
      forall i | 0 <= i < |init| ensures init[i] in values - {x} {
        assert init[i] == s[i];
      }
      Pigeonhole(init, values - {x});
      var i, j :| 0 <= i < j < |init| && init[i] == init[j];
      assert s[i] == init[i] && s[j] == init[j];
    }
  }

  /** When the walk is still in a category with maps after as many passes as
      there are such categories, one of them has come round again, and the
      walk never ends: `map_item` loops for ever. */
  lemma {:induction false} WalkDiverges(item: Item, maps: Maps, fuel: nat)
    requires Walk(item, maps, |maps|).None?
    ensures Walk(item, maps, fuel).None?
  {
    var c := item.category;
    WalkNone(item, maps, |maps|);
    var categories := seq(|maps| + 1, m requires 0 <= m <= |maps| => CategoryAfter(maps, c, m));
    assert |maps.Keys| == |maps|;
    forall m | 0 <= m < |categories| ensures categories[m] in maps.Keys {
      assert 0 <= m <= |maps|;
      assert categories[m] == CategoryAfter(maps, c, m) && CategoryAfter(maps, c, m) in maps;
    }
    Pigeonhole(categories, maps.Keys);
    var i, j :| 0 <= i < j < |categories| && categories[i] == categories[j];
    forall m | 0 <= m <= fuel ensures CategoryAfter(maps, c, m) in maps {
      CycleStays(maps, c, i, j, m);
    }
    WalkNone(item, maps, fuel);
  }

  /** A walk that ends at all ends within as many passes as there are
      categories with maps. */
  lemma WalkEnough(item: Item, maps: Maps, fuel: nat)
    requires Walk(item, maps, fuel).Some?
    ensures Walk(item, maps, |maps|) == Walk(item, maps, fuel)
  {
    if Walk(item, maps, |maps|).None? {
      WalkDiverges(item, maps, fuel);
    } else if fuel <= |maps| {
      WalkMore(item, maps, fuel, |maps|);
    } else {
      WalkMore(item, maps, |maps|, fuel);
    }
  }

  /** Whether the walk ends depends only on the category. */
  lemma WalkNoneSameCategory(c: string, a: int, b: int, maps: Maps, fuel: nat)
    ensures Walk(Item(c, a), maps, fuel).None? == Walk(Item(c, b), maps, fuel).None?
  {
    WalkNone(Item(c, a), maps, fuel);
    WalkNone(Item(c, b), maps, fuel);
  }

  /** The inner `for` loop of `map_item`: the first range map that applies,
      else the default map. */
  method ApplyStage(stage: Stage, n: int) returns (m: int)
    ensures m == ApplyRules(stage.rules, n)
  {
    var i := 0;
    assert stage.rules[0..] == stage.rules;
    while i < |stage.rules|
      invariant 0 <= i <= |stage.rules|
      invariant ApplyRules(stage.rules[i..], n) == ApplyRules(stage.rules, n)
    {
      var rule := stage.rules[i];
      if rule.from <= n < rule.from + rule.length {
        return n - rule.from + rule.to;
      }
      assert stage.rules[i..][1..] == stage.rules[i + 1..];
      i := i + 1;
    }
    return n;
  }

  /** `map_item`: applies the first matching map of the item's category until
      the item reaches a category with no maps. None: the categories come
      round in a cycle, and the source's loop never ends. */
  method MapItem(item: Item, maps: Maps) returns (r: Option<Item>)
    ensures r == Walk(item, maps, |maps|)
    ensures r.None? ==> forall fuel: nat :: Walk(item, maps, fuel).None?
  {
    var current := item;
    var passes := 0;
    while current.category in maps
      invariant passes <= |maps|
      invariant Walk(current, maps, |maps| - passes) == Walk(item, maps, |maps|)
      decreases |maps| - passes
    {
      if passes == |maps| {
        forall fuel: nat ensures Walk(item, maps, fuel).None? {
          WalkDiverges(item, maps, fuel);
        }
        return None;
      }
      var stage := maps[current.category];
      var number := ApplyStage(stage, current.number);
      current := Item(stage.next, number);
      passes := passes + 1;
    }
    return Some(current);
  }

  /*------------------------------------------------------------------------
    Reading the almanac
  ------------------------------------------------------------------------*/

  predicate SeedChar(c: char) {
    IsDigit(c) || c == ' '
  }

  /** The longest prefix of `s` made of digits and spaces. */
  function SeedRun(s: string): (r: string)
    ensures |r| <= |s| && r == s[..|r|]
    ensures forall i :: 0 <= i < |r| ==> SeedChar(r[i])
    ensures |r| < |s| ==> !SeedChar(s[|r|])
  {
    if |s| > 0 && SeedChar(s[0]) then
      var rest := SeedRun(s[1..]);
      assert [s[0]] + rest == s[..|rest| + 1];
      [s[0]] + rest
    else []
  }

  /** The `seeds` group of the leftmost match of "seeds: " followed by digits
      and spaces; None when nothing matches. */
  function SeedsField(text: string): Option<string>
    decreases |text|
  {
    if |text| < 8 then None
    else if text[..7] == "seeds: " && SeedChar(text[7]) then Some(SeedRun(text[7..]))
    else SeedsField(text[1..])
  }

  /** `get_seeds`: the numbers of the seeds line; None is the AttributeError
      of an almanac without one. */
  function Seeds(text: string): Option<seq<int>> {
    match SeedsField(text)
    case None => None
    case Some(field) => PyInts(PyWords(field))
  }

  predicate LowerWord(s: string) {
    |s| > 0 && forall i :: 0 <= i < |s| ==> 'a' <= s[i] <= 'z'
  }

  /** A header line "source-to-destination map:" with lower-case names. */
  function Header(line: string): Option<(string, string)> {
    var k := IndexOf(line, '-');
    var rest := line[k..];
    if |rest| >= 9 && rest[..4] == "-to-" && rest[|rest| - 5..] == " map:"
       && LowerWord(line[..k]) && LowerWord(rest[4..|rest| - 5])
    then Some((line[..k], rest[4..|rest| - 5]))
    else None
  }

  /** A line of three decimal numbers separated by single spaces. */
  function TripleLine(line: string): Option<Triple> {
    var parts := Split(line, ' ');
    if |parts| == 3 && (forall k :: 0 <= k < 3 ==> |parts[k]| > 0 && AllDigits(parts[k]))
    then Some(Triple(DecimalValue(parts[0]), DecimalValue(parts[1]), DecimalValue(parts[2])))
    else None
  }

  /** How many lines from `i` on are lines of three numbers. */
  function TripleRun(lines: seq<string>, i: nat): (n: nat)
    requires i <= |lines|
    ensures i + n <= |lines|
    ensures forall k :: i <= k < i + n ==> TripleLine(lines[k]).Some?
    ensures i + n < |lines| ==> TripleLine(lines[i + n]).None?
    decreases |lines| - i
  {
    if i < |lines| && TripleLine(lines[i]).Some? then 1 + TripleRun(lines, i + 1) else 0
  }

  function Triples(lines: seq<string>): (ts: seq<Triple>)
    requires forall k :: 0 <= k < |lines| ==> TripleLine(lines[k]).Some?
    ensures |ts| == |lines|
  {
    if lines == [] then [] else [TripleLine(lines[0]).value] + Triples(lines[1..])
  }

  /** `maps_regex.finditer` from line `i` on: each header line followed by
      at least one line of numbers, with all the lines of numbers after it. */
  function SectionsFrom(lines: seq<string>, i: nat): (sections: seq<Section>)
    requires i <= |lines|
    ensures forall k :: 0 <= k < |sections| ==> |sections[k].lines| > 0
    decreases |lines| - i
  {
    if i == |lines| then []
    else
      match Header(lines[i])
      case Some((source, destination)) =>
        var n := TripleRun(lines, i + 1);
        if n > 0 then
          [Section(source, destination, Triples(lines[i + 1..i + 1 + n]))] + SectionsFrom(lines, i + 1 + n)
        else SectionsFrom(lines, i + 1)
      case None => SectionsFrom(lines, i + 1)
  }

  /** The map sections of an almanac. The pattern ends every line with a
      newline, so a last line without one never matches. */
  function Sections(text: string): seq<Section> {
    var pieces := Split(text, '\n');
    SectionsFrom(pieces[..|pieces| - 1], 0)
  }

  /** The category a section is listed under: its source for `build_maps`,
      its destination for `build_reverse_maps`. */
  function Key(section: Section, backward: bool): string {
    if backward then section.destination else section.source
  }

  function StageOf(section: Section, backward: bool): Stage {
    Stage(if backward then section.source else section.destination, Rules(section.lines, backward))
  }

  /** `build_maps` (forward) and `build_reverse_maps` (backward): every section
      under its category; as in a dict comprehension, a later section under
      the same category replaces an earlier one. */
  function BuildMaps(sections: seq<Section>, backward: bool): (maps: Maps)
    ensures maps.Keys == set i | 0 <= i < |sections| :: Key(sections[i], backward)
  {
    if sections == [] then map[]
    else
      var last := sections[|sections| - 1];
      var init := BuildMaps(sections[..|sections| - 1], backward);
      assert forall i :: 0 <= i < |sections| - 1 ==> sections[..|sections| - 1][i] == sections[i];
      init[Key(last, backward) := StageOf(last, backward)]
  }

  /** Each category's maps come from the last section listed under it. */
  lemma {:induction false} BuildMapsLast(sections: seq<Section>, backward: bool, k: nat)
    requires k < |sections|
    requires forall j :: k < j < |sections| ==> Key(sections[j], backward) != Key(sections[k], backward)
    ensures BuildMaps(sections, backward)[Key(sections[k], backward)] == StageOf(sections[k], backward)
  {
    if k < |sections| - 1 {
      var init := sections[..|sections| - 1];
      forall j | k < j < |init| ensures Key(init[j], backward) != Key(init[k], backward) {
        assert init[j] == sections[j];
      }
      BuildMapsLast(init, backward, k);
    }
  }

  /*------------------------------------------------------------------------
    Part 1
  ------------------------------------------------------------------------*/

  /** `min(locations, key=number)`; None is the ValueError of an empty list. */
  function MinNumber(items: seq<Item>): (r: Option<int>)
    ensures r.Some? <==> |items| > 0
    ensures r.Some? ==> exists i :: 0 <= i < |items| && items[i].number == r.value
    ensures r.Some? ==> forall i :: 0 <= i < |items| ==> r.value <= items[i].number
  {
    if |items| == 0 then None
    else if |items| == 1 then Some(items[0].number)
    else
      var rest := MinNumber(items[1..]).value;
      assert forall i :: 1 <= i < |items| ==> items[1..][i - 1] == items[i];
      Some(if items[0].number <= rest then items[0].number else rest)
  }

  /** Every number walked from `category`; None when some walk never ends. */
  function Walks(numbers: seq<int>, category: string, maps: Maps): (walks: seq<Option<Item>>)
    ensures |walks| == |numbers|
    ensures forall i :: 0 <= i < |numbers| ==> walks[i] == Walk(Item(category, numbers[i]), maps, |maps|)
  {
    seq(|numbers|, i requires 0 <= i < |numbers| => Walk(Item(category, numbers[i]), maps, |maps|))
  }

  function WalkAll(numbers: seq<int>, category: string, maps: Maps): Option<seq<Item>> {
    Collect(Walks(numbers, category, maps))
  }

  /** The list comprehension of part 1's `main`: `map_item` on every seed. */
  method MapAll(numbers: seq<int>, category: string, maps: Maps) returns (r: Option<seq<Item>>)
    ensures r == WalkAll(numbers, category, maps)
  {
    ghost var walks := Walks(numbers, category, maps);
    CollectEach(walks);
    var items: seq<Item> := [];
    for i := 0 to |numbers|
      invariant |items| == i
      invariant forall k :: 0 <= k < i ==> walks[k].Some? && items[k] == walks[k].value
    {
      var item := MapItem(Item(category, numbers[i]), maps);
      if item.None? {
        return None;
      }
      items := items + [item.value];
    }
    assert Collect(walks).value == items;
    return Some(items);
  }

  /** Part 1's answer: the lowest location of any seed. */
  function LowestLocation(text: string): Option<int> {
    match Seeds(text)
    case None => None
    case Some(seeds) =>
      match WalkAll(seeds, "seed", BuildMaps(Sections(text), false))
      case None => None
      case Some(locations) => MinNumber(locations)
  }

  /** Part 1 `main`. */
  method Part1(text: string) returns (r: Option<int>)
    ensures r == LowestLocation(text)
  {
    var seeds := Seeds(text);
    if seeds.None? {
      return None;
    }
    var maps := BuildMaps(Sections(text), false);
    var locations := MapAll(seeds.value, "seed", maps);
    if locations.None? {
      return None;
    }
    return MinNumber(locations.value);
  }

  /*------------------------------------------------------------------------
    Part 2
  ------------------------------------------------------------------------*/

  /** `get_seed_ranges`: pairs (start, start + length); None is the
      ValueError when the numbers do not pair up. */
  function SeedRanges(numbers: seq<int>): (r: Option<seq<(int, int)>>)
    ensures r.Some? <==> |numbers| % 2 == 0
    ensures r.Some? ==> |r.value| == |numbers| / 2
  {
    if |numbers| % 2 == 1 then None
    else Some(seq(|numbers| / 2, i requires 0 <= i < |numbers| / 2 => (numbers[2 * i], numbers[2 * i] + numbers[2 * i + 1])))
  }

  /** `seed_validator`: a seed inside one of the half-open seed ranges. */
  predicate ValidSeed(seedRanges: seq<(int, int)>, item: Item) {
    item.category == "seed" && exists i :: 0 <= i < |seedRanges| && seedRanges[i].0 <= item.number < seedRanges[i].1
  }

  /** A seed is valid exactly when it lies within `length` of a start. */
  lemma ValidSeedPairs(numbers: seq<int>, n: int)
    requires |numbers| % 2 == 0
    ensures ValidSeed(SeedRanges(numbers).value, Item("seed", n)) <==>
      exists k :: 0 <= k < |numbers| / 2 && numbers[2 * k] <= n < numbers[2 * k] + numbers[2 * k + 1]
  {
    var ranges := SeedRanges(numbers).value;
    if ValidSeed(ranges, Item("seed", n)) {
      var k :| 0 <= k < |ranges| && ranges[k].0 <= n < ranges[k].1;
      assert numbers[2 * k] <= n < numbers[2 * k] + numbers[2 * k + 1];
    }
    if exists k :: 0 <= k < |numbers| / 2 && numbers[2 * k] <= n < numbers[2 * k] + numbers[2 * k + 1] {
      var k :| 0 <= k < |numbers| / 2 && numbers[2 * k] <= n < numbers[2 * k] + numbers[2 * k + 1];
      assert ranges[k].0 <= n < ranges[k].1;
    }
  }

  predicate PairAtMost(a: (int, int), b: (int, int)) {
    a.0 < b.0 || (a.0 == b.0 && a.1 <= b.1)
  }

  /** Python's tuple order: by first component, then by second. */
  predicate PairsSorted(s: seq<(int, int)>) {
    forall p, q :: 0 <= p < q < |s| ==> PairAtMost(s[p], s[q])
  }

  function InsertPair(s: seq<(int, int)>, x: (int, int)): (r: seq<(int, int)>)
    requires PairsSorted(s)
    ensures PairsSorted(r) && multiset(r) == multiset(s) + multiset{x} && |r| == |s| + 1
    decreases |s|
  {
    if |s| == 0 then [x]
    else if PairAtMost(x, s[0]) then [x] + s
    else
      var rest := InsertPair(s[1..], x);
      assert multiset(s) == multiset{s[0]} + multiset(s[1..]) by {
        assert s == [s[0]] + s[1..];
      }
      assert forall k :: 0 <= k < |rest| ==> PairAtMost(s[0], rest[k]) by {
        forall k | 0 <= k < |rest|
          ensures PairAtMost(s[0], rest[k])
        {
          assert rest[k] in multiset(s[1..]) + multiset{x};
        }
      }
      [s[0]] + rest
  }

  /** `sorted` on a list of pairs. */
  function SortPairs(s: seq<(int, int)>): (r: seq<(int, int)>)
    ensures PairsSorted(r) && multiset(r) == multiset(s) && |r| == |s|
    decreases |s|
  {
    if |s| == 0 then []
    else
      assert s == s[..|s| - 1] + [s[|s| - 1]];
      InsertPair(SortPairs(s[..|s| - 1]), s[|s| - 1])
  }

  /** The first section leading to `destination`; None is the IndexError when
      there is none. */
  function FirstTo(sections: seq<Section>, destination: string): (r: Option<Section>)
    ensures r.Some? ==> r.value in sections && r.value.destination == destination
    ensures r.None? ==> forall i :: 0 <= i < |sections| ==> sections[i].destination != destination
  {
    if sections == [] then None
    else if sections[0].destination == destination then Some(sections[0])
    else FirstTo(sections[1..], destination)
  }

  /** The destination ranges (start, start + length) of a section's lines. */
  function DestinationRanges(lines: seq<Triple>): (r: seq<(int, int)>)
    ensures |r| == |lines|
    ensures forall i :: 0 <= i < |lines| ==> r[i] == (lines[i].destinationStart as int, lines[i].destinationStart + lines[i].length)
  {
    seq(|lines|, i requires 0 <= i < |lines| => (lines[i].destinationStart as int, lines[i].destinationStart + lines[i].length))
  }

  /** `get_location_ranges`: the location ranges of the first section leading
      to "location", sorted, behind a range (0, first start - 1) when the
      first does not start at 0. */
  function LocationRanges(sections: seq<Section>): (r: Option<seq<(int, int)>>)
    ensures r.Some? ==> |r.value| > 0 && r.value[0].0 == 0 && PairsSorted(r.value)
    ensures r.Some? ==> (FirstTo(sections, "location").Some? &&
      multiset(DestinationRanges(FirstTo(sections, "location").value.lines)) <= multiset(r.value))
  {
    match FirstTo(sections, "location")
    case None => None
    case Some(section) =>
      var ranges := DestinationRanges(section.lines);
      var sorted := SortPairs(ranges);
      if |sorted| == 0 then None
      else if sorted[0].0 != 0 then
        assert sorted[0] in multiset(ranges);
        assert forall q :: 0 < q < |sorted| ==> PairAtMost(sorted[0], sorted[q]);
        Some([(0, sorted[0].0 - 1)] + sorted)
      else Some(sorted)
  }

  /** What the search for the closest location comes to: a location, no
      location at all, or a walk that never ends. */
  datatype Search = Found(location: int) | Exhausted | Loops

  /** The seed a location walks back to. */
  function SeedOf(maps: Maps, location: int): Option<Item> {
    Walk(Item("location", location), maps, |maps|)
  }

  predicate ValidLocation(maps: Maps, seedRanges: seq<(int, int)>, location: int) {
    SeedOf(maps, location).Some? && ValidSeed(seedRanges, SeedOf(maps, location).value)
  }

  /** The locations from `lo` to `hi - 1` whose seed is not valid. */
  predicate AllInvalid(maps: Maps, seedRanges: seq<(int, int)>, lo: int, hi: int) {
    forall l :: lo <= l < hi ==> SeedOf(maps, l).Some? && !ValidSeed(seedRanges, SeedOf(maps, l).value)
  }

  /** `for location in range(lo, hi)`: the first location with a valid seed. */
  function Scan(maps: Maps, seedRanges: seq<(int, int)>, lo: int, hi: int): Search
    decreases hi - lo
  {
    if lo >= hi then Exhausted
    else
      match SeedOf(maps, lo)
      case None => Loops
      case Some(seed) => if ValidSeed(seedRanges, seed) then Found(lo) else Scan(maps, seedRanges, lo + 1, hi)
  }

  /** The scan finds the first location of its range with a valid seed. */
  lemma {:induction false} ScanFirst(maps: Maps, seedRanges: seq<(int, int)>, lo: int, hi: int)
    ensures Scan(maps, seedRanges, lo, hi).Found? ==>
      var l := Scan(maps, seedRanges, lo, hi).location;
      lo <= l < hi && ValidLocation(maps, seedRanges, l) && AllInvalid(maps, seedRanges, lo, l)
    ensures Scan(maps, seedRanges, lo, hi).Exhausted? ==> AllInvalid(maps, seedRanges, lo, hi)
    decreases hi - lo
  {
    if lo < hi && SeedOf(maps, lo).Some? && !ValidSeed(seedRanges, SeedOf(maps, lo).value) {
      ScanFirst(maps, seedRanges, lo + 1, hi);
    }
  }

  /** `get_closest_location`, range by range: the range's start if its seed
      is valid; otherwise, only when the seed of the range's end is valid, the
      first location of the range with a valid seed. */
  function Closest(ranges: seq<(int, int)>, maps: Maps, seedRanges: seq<(int, int)>): Search
    decreases |ranges|
  {
    if ranges == [] then Exhausted
    else
      var (start, end) := ranges[0];
      match SeedOf(maps, start)
      case None => Loops
      case Some(startSeed) =>
        if ValidSeed(seedRanges, startSeed) then Found(start)
        else
          match SeedOf(maps, end)
          case None => Loops
          case Some(endSeed) =>
            if !ValidSeed(seedRanges, endSeed) then Closest(ranges[1..], maps, seedRanges)
            else
              match Scan(maps, seedRanges, start, end)
              case Exhausted => Closest(ranges[1..], maps, seedRanges)
              case other => other
  }

  /** A found location has a valid seed, lies in one of the ranges, and no
      earlier range starts at a location with a valid seed. */
  lemma {:induction false} ClosestFound(ranges: seq<(int, int)>, maps: Maps, seedRanges: seq<(int, int)>)
    requires Closest(ranges, maps, seedRanges).Found?
    ensures ValidLocation(maps, seedRanges, Closest(ranges, maps, seedRanges).location)
    ensures exists i :: (0 <= i < |ranges| &&
      var l := Closest(ranges, maps, seedRanges).location;
      ranges[i].0 <= l && (l == ranges[i].0 || l < ranges[i].1) &&
      forall j :: 0 <= j < i ==> !ValidLocation(maps, seedRanges, ranges[j].0))
    decreases |ranges|
  {
    var l := Closest(ranges, maps, seedRanges).location;
    var (start, end) := ranges[0];
    if ValidSeed(seedRanges, SeedOf(maps, start).value) {
      assert ranges[0].0 <= l && l == ranges[0].0;
    } else if ValidSeed(seedRanges, SeedOf(maps, end).value) && Scan(maps, seedRanges, start, end).Found? {
      ScanFirst(maps, seedRanges, start, end);
      assert ranges[0].0 <= l < ranges[0].1;
    } else {
      ClosestFound(ranges[1..], maps, seedRanges);
      var i :| 0 <= i < |ranges[1..]| &&
        ranges[1..][i].0 <= l && (l == ranges[1..][i].0 || l < ranges[1..][i].1) &&
        forall j :: 0 <= j < i ==> !ValidLocation(maps, seedRanges, ranges[1..][j].0);
      assert ranges[i + 1] == ranges[1..][i];
      forall j | 0 <= j < i + 1 ensures !ValidLocation(maps, seedRanges, ranges[j].0) {
        if j > 0 {
          assert ranges[j] == ranges[1..][j - 1];
        }
      }
    }
  }

  /** Nothing found: no range starts at a location with a valid seed. */
  lemma {:induction false} ClosestExhausted(ranges: seq<(int, int)>, maps: Maps, seedRanges: seq<(int, int)>)
    requires Closest(ranges, maps, seedRanges).Exhausted?
    ensures forall i :: 0 <= i < |ranges| ==> SeedOf(maps, ranges[i].0).Some? && !ValidSeed(seedRanges, SeedOf(maps, ranges[i].0).value)
    decreases |ranges|
  {
    if ranges != [] {
      ClosestExhausted(ranges[1..], maps, seedRanges);
      forall i | 1 <= i < |ranges| ensures ranges[i] == ranges[1..][i - 1] {
      }
    }
  }

  /** A search that loops has met a location whose walk does not end. */
  lemma {:induction false} ClosestLoopsAt(ranges: seq<(int, int)>, maps: Maps, seedRanges: seq<(int, int)>)
    requires Closest(ranges, maps, seedRanges).Loops?
    ensures exists l :: SeedOf(maps, l).None?
    decreases |ranges|
  {
    var (start, end) := ranges[0];
    if SeedOf(maps, start).None? {
    } else if SeedOf(maps, end).None? {
    } else if !ValidSeed(seedRanges, SeedOf(maps, start).value)
      && (!ValidSeed(seedRanges, SeedOf(maps, end).value) || Scan(maps, seedRanges, start, end).Exhausted?) {
      ClosestLoopsAt(ranges[1..], maps, seedRanges);
    } else {
      ScanLoops(maps, seedRanges, start, end);
    }
  }

  /** A search that loops would loop from any location: the walk back from
      "location" never ends. */
  lemma ClosestLoops(ranges: seq<(int, int)>, maps: Maps, seedRanges: seq<(int, int)>, location: int)
    requires Closest(ranges, maps, seedRanges).Loops?
    ensures forall fuel: nat :: Walk(Item("location", location), maps, fuel).None?
  {
    ClosestLoopsAt(ranges, maps, seedRanges);
    var l :| SeedOf(maps, l).None?;
    WalkNoneSameCategory("location", l, location, maps, |maps|);
    forall fuel: nat ensures Walk(Item("location", location), maps, fuel).None? {
      WalkDiverges(Item("location", location), maps, fuel);
    }
  }

  lemma {:induction false} ScanLoops(maps: Maps, seedRanges: seq<(int, int)>, lo: int, hi: int)
    ensures Scan(maps, seedRanges, lo, hi).Loops? ==> exists l :: lo <= l < hi && SeedOf(maps, l).None?
    decreases hi - lo
  {
    if lo < hi && SeedOf(maps, lo).Some? && !ValidSeed(seedRanges, SeedOf(maps, lo).value) {
      ScanLoops(maps, seedRanges, lo + 1, hi);
    }
  }

  /** `get_closest_location`. */
  method GetClosestLocation(ranges: seq<(int, int)>, maps: Maps, seedRanges: seq<(int, int)>) returns (r: Search)
    ensures r == Closest(ranges, maps, seedRanges)
  {
    for i := 0 to |ranges|
      invariant Closest(ranges[i..], maps, seedRanges) == Closest(ranges, maps, seedRanges)
    {
      assert ranges[i..][0] == ranges[i] && ranges[i..][1..] == ranges[i + 1..];
      var start, end := ranges[i].0, ranges[i].1;
      var startSeed := MapItem(Item("location", start), maps);
      if startSeed.None? {
        return Loops;
      }
      if ValidSeed(seedRanges, startSeed.value) {
        return Found(start);
      }
      var endSeed := MapItem(Item("location", end), maps);
      if endSeed.None? {
        return Loops;
      }
      if ValidSeed(seedRanges, endSeed.value) {
        var location := start;
        while location < end
          invariant start <= location && (start <= end ==> location <= end)
          invariant Scan(maps, seedRanges, location, end) == Scan(maps, seedRanges, start, end)
          decreases end - location
        {
          var seed := MapItem(Item("location", location), maps);
          if seed.None? {
            return Loops;
          }
          if ValidSeed(seedRanges, seed.value) {
            return Found(location);
          }
          location := location + 1;
        }
      }
    }
    return Exhausted;
  }

  /** Part 2's answer. */
  function ClosestSeedLocation(text: string): Option<int> {
    var sections := Sections(text);
    match Seeds(text)
    case None => None
    case Some(numbers) =>
      match (SeedRanges(numbers), LocationRanges(sections))
      case (Some(seedRanges), Some(locationRanges)) =>
        (match Closest(locationRanges, BuildMaps(sections, true), seedRanges)
         case Found(location) => Some(location)
         case _ => None)
      case _ => None
  }

  /** Part 2 `main`: None when the almanac cannot be read, when no location is
      found (the AttributeError on the missing result), or when a walk never
      ends. */
  method Part2(text: string) returns (r: Option<int>)
    ensures r == ClosestSeedLocation(text)
  {
    var sections := Sections(text);
    var maps := BuildMaps(sections, true);
    var numbers := Seeds(text);
    if numbers.None? {
      return None;
    }
    var seedRanges := SeedRanges(numbers.value);
    var locationRanges := LocationRanges(sections);
    if seedRanges.None? || locationRanges.None? {
      return None;
    }
    var search := GetClosestLocation(locationRanges.value, maps, seedRanges.value);
    if search.Found? {
      return Some(search.location);
    }
    return None;
  }

  /** `find_minumum_seed`: a binary search for a location with a valid seed
      right after one without. None when a walk never ends, or when the
      search would call itself with the same bounds again and so never
      return. */
  function FindMinimumSeed(lo: int, hi: int, maps: Maps, seedRanges: seq<(int, int)>): (r: Option<int>)
    ensures r.Some? ==> ValidLocation(maps, seedRanges, r.value)
    ensures r.Some? ==> SeedOf(maps, r.value - 1).Some? && !ValidSeed(seedRanges, SeedOf(maps, r.value - 1).value)
    ensures r.Some? ==> (lo <= r.value <= hi || hi <= r.value <= lo)
    decreases if lo <= hi then hi - lo else lo - hi
  {
    var test := (lo + hi) / 2;
    match (SeedOf(maps, test), SeedOf(maps, test - 1))
    case (Some(testSeed), Some(beforeSeed)) =>
      if ValidSeed(seedRanges, testSeed) && !ValidSeed(seedRanges, beforeSeed) then Some(test)
      else if ValidSeed(seedRanges, testSeed) then
        if test == hi then None else FindMinimumSeed(lo, test, maps, seedRanges)
      else
        if test == lo then None else FindMinimumSeed(test, hi, maps, seedRanges)
    case _ => None
  }

  /*------------------------------------------------------------------------
    The puzzle's example
  ------------------------------------------------------------------------*/

  function ExampleSections(): seq<Section> {
    [ Section("seed", "soil", [Triple(50, 98, 2), Triple(52, 50, 48)]),
      Section("soil", "fertilizer", [Triple(0, 15, 37), Triple(37, 52, 2), Triple(39, 0, 15)]),
      Section("fertilizer", "water", [Triple(49, 53, 8), Triple(0, 11, 42), Triple(42, 0, 7), Triple(57, 7, 4)]),
      Section("water", "light", [Triple(88, 18, 7), Triple(18, 25, 70)]),
      Section("light", "temperature", [Triple(45, 77, 23), Triple(81, 45, 19), Triple(68, 64, 13)]),
      Section("temperature", "humidity", [Triple(0, 69, 1), Triple(1, 0, 69)]),
      Section("humidity", "location", [Triple(60, 56, 37), Triple(56, 93, 4)]) ]
  }

  /** One pass of the walk through `stage`, whose range map `k` is the first
      to cover the number. */
  lemma WalkStepVia(item: Item, maps: Maps, fuel: nat, stage: Stage, k: nat)
    requires item.category in maps && maps[item.category] == stage
    requires k < |stage.rules| && Covers(stage.rules[k], item.number)
    requires forall i :: 0 <= i < k ==> !Covers(stage.rules[i], item.number)
    ensures Walk(item, maps, fuel + 1) ==
      Walk(Item(stage.next, item.number - stage.rules[k].from + stage.rules[k].to), maps, fuel)
  {
    ApplyRulesFirst(stage.rules, item.number, k);
  }

  /** One pass of the walk through `stage` when no range map covers the
      number: it keeps its value. */
  lemma WalkStepPast(item: Item, maps: Maps, fuel: nat, stage: Stage)
    requires item.category in maps && maps[item.category] == stage
    requires forall i :: 0 <= i < |stage.rules| ==> !Covers(stage.rules[i], item.number)
    ensures Walk(item, maps, fuel + 1) == Walk(Item(stage.next, item.number), maps, fuel)
  {
    ApplyRulesFirst(stage.rules, item.number, |stage.rules|);
  }

  /** The example's stages as part 1 reads them, keyed by source category. */

  function ForwardSeed(): Stage {
    Stage("soil", [Rule(98, 50, 2), Rule(50, 52, 48)])
  }

  function ForwardSoil(): Stage {
    Stage("fertilizer", [Rule(15, 0, 37), Rule(52, 37, 2), Rule(0, 39, 15)])
  }

  function ForwardFertilizer(): Stage {
    Stage("water", [Rule(53, 49, 8), Rule(11, 0, 42), Rule(0, 42, 7), Rule(7, 57, 4)])
  }

  function ForwardWater(): Stage {
    Stage("light", [Rule(18, 88, 7), Rule(25, 18, 70)])
  }

  function ForwardLight(): Stage {
    Stage("temperature", [Rule(77, 45, 23), Rule(45, 81, 19), Rule(64, 68, 13)])
  }

  function ForwardTemperature(): Stage {
    Stage("humidity", [Rule(69, 0, 1), Rule(0, 1, 69)])
  }

  function ForwardHumidity(): Stage {
    Stage("location", [Rule(56, 60, 37), Rule(93, 56, 4)])
  }

  /** The example's stages as part 2 reads them, keyed by destination category. */

  function BackwardSoil(): Stage {
    Stage("seed", [Rule(50, 98, 2), Rule(52, 50, 48)])
  }

  function BackwardFertilizer(): Stage {
    Stage("soil", [Rule(0, 15, 37), Rule(37, 52, 2), Rule(39, 0, 15)])
  }

  function BackwardWater(): Stage {
    Stage("fertilizer", [Rule(49, 53, 8), Rule(0, 11, 42), Rule(42, 0, 7), Rule(57, 7, 4)])
  }

  function BackwardLight(): Stage {
    Stage("water", [Rule(88, 18, 7), Rule(18, 25, 70)])
  }

  function BackwardTemperature(): Stage {
    Stage("light", [Rule(45, 77, 23), Rule(81, 45, 19), Rule(68, 64, 13)])
  }

  function BackwardHumidity(): Stage {
    Stage("temperature", [Rule(0, 69, 1), Rule(1, 0, 69)])
  }

  function BackwardLocation(): Stage {
    Stage("humidity", [Rule(60, 56, 37), Rule(56, 93, 4)])
  }

  /** The example's maps as part 1 reads them. */
  function ExampleForwardMaps(): Maps {
    map[
        "seed" := ForwardSeed(),
        "soil" := ForwardSoil(),
        "fertilizer" := ForwardFertilizer(),
        "water" := ForwardWater(),
        "light" := ForwardLight(),
        "temperature" := ForwardTemperature(),
        "humidity" := ForwardHumidity()
    ]
  }

  /** The example's maps as part 2 reads them. */
  function ExampleBackwardMaps(): Maps {
    map[
        "soil" := BackwardSoil(),
        "fertilizer" := BackwardFertilizer(),
        "water" := BackwardWater(),
        "light" := BackwardLight(),
        "temperature" := BackwardTemperature(),
        "humidity" := BackwardHumidity(),
        "location" := BackwardLocation()
    ]
  }

  /** Every category of the forward example has its stage and the walk ends at location. */
  predicate ForwardShape(maps: Maps) {
    "seed" in maps && maps["seed"] == ForwardSeed() &&
    "soil" in maps && maps["soil"] == ForwardSoil() &&
    "fertilizer" in maps && maps["fertilizer"] == ForwardFertilizer() &&
    "water" in maps && maps["water"] == ForwardWater() &&
    "light" in maps && maps["light"] == ForwardLight() &&
    "temperature" in maps && maps["temperature"] == ForwardTemperature() &&
    "humidity" in maps && maps["humidity"] == ForwardHumidity() &&
    "location" !in maps
  }

  /** Every category of the backward example has its stage and the walk ends at seed. */
  predicate BackwardShape(maps: Maps) {
    "soil" in maps && maps["soil"] == BackwardSoil() &&
    "fertilizer" in maps && maps["fertilizer"] == BackwardFertilizer() &&
    "water" in maps && maps["water"] == BackwardWater() &&
    "light" in maps && maps["light"] == BackwardLight() &&
    "temperature" in maps && maps["temperature"] == BackwardTemperature() &&
    "humidity" in maps && maps["humidity"] == BackwardHumidity() &&
    "location" in maps && maps["location"] == BackwardLocation() &&
    "seed" !in maps
  }

  lemma ForwardMapsShape()
    ensures ForwardShape(ExampleForwardMaps())
  {
  }

  lemma BackwardMapsShape()
    ensures BackwardShape(ExampleBackwardMaps())
  {
  }

  /** Seed 79 reaches location 82. */
  lemma ExampleSeed79(maps: Maps)
    requires ForwardShape(maps)
    ensures Walk(Item("seed", 79), maps, |maps|) == Some(Item("location", 82))
  {
    WalkStepVia(Item("seed", 79), maps, 6, ForwardSeed(), 1);
    WalkStepPast(Item("soil", 81), maps, 5, ForwardSoil());
    WalkStepPast(Item("fertilizer", 81), maps, 4, ForwardFertilizer());
    WalkStepVia(Item("water", 81), maps, 3, ForwardWater(), 1);
    WalkStepVia(Item("light", 74), maps, 2, ForwardLight(), 2);
    WalkStepPast(Item("temperature", 78), maps, 1, ForwardTemperature());
    WalkStepVia(Item("humidity", 78), maps, 0, ForwardHumidity(), 0);
    WalkEnough(Item("seed", 79), maps, 7);
  }

  /** Water 49, seed 14's water, reaches location 43. */
  lemma ExampleWater49(maps: Maps)
    requires ForwardShape(maps)
    ensures Walk(Item("water", 49), maps, 4) == Some(Item("location", 43))
  {
    WalkStepVia(Item("water", 49), maps, 3, ForwardWater(), 1);
    WalkStepPast(Item("light", 42), maps, 2, ForwardLight());
    WalkStepVia(Item("temperature", 42), maps, 1, ForwardTemperature(), 1);
    WalkStepPast(Item("humidity", 43), maps, 0, ForwardHumidity());
  }

  /** Seed 14 reaches location 43. */
  lemma ExampleSeed14(maps: Maps)
    requires ForwardShape(maps)
    ensures Walk(Item("seed", 14), maps, |maps|) == Some(Item("location", 43))
  {
    WalkStepPast(Item("seed", 14), maps, 6, ForwardSeed());
    WalkStepVia(Item("soil", 14), maps, 5, ForwardSoil(), 2);
    WalkStepVia(Item("fertilizer", 53), maps, 4, ForwardFertilizer(), 0);
    ExampleWater49(maps);
    WalkEnough(Item("seed", 14), maps, 7);
  }

  /** Seed 55 reaches location 86. */
  lemma ExampleSeed55(maps: Maps)
    requires ForwardShape(maps)
    ensures Walk(Item("seed", 55), maps, |maps|) == Some(Item("location", 86))
  {
    WalkStepVia(Item("seed", 55), maps, 6, ForwardSeed(), 1);
    WalkStepPast(Item("soil", 57), maps, 5, ForwardSoil());
    WalkStepVia(Item("fertilizer", 57), maps, 4, ForwardFertilizer(), 0);
    WalkStepVia(Item("water", 53), maps, 3, ForwardWater(), 1);
    WalkStepVia(Item("light", 46), maps, 2, ForwardLight(), 1);
    WalkStepPast(Item("temperature", 82), maps, 1, ForwardTemperature());
    WalkStepVia(Item("humidity", 82), maps, 0, ForwardHumidity(), 0);
    WalkEnough(Item("seed", 55), maps, 7);
  }

  /** Seed 13 reaches location 35. */
  lemma ExampleSeed13(maps: Maps)
    requires ForwardShape(maps)
    ensures Walk(Item("seed", 13), maps, |maps|) == Some(Item("location", 35))
  {
    WalkStepPast(Item("seed", 13), maps, 6, ForwardSeed());
    WalkStepVia(Item("soil", 13), maps, 5, ForwardSoil(), 2);
    WalkStepVia(Item("fertilizer", 52), maps, 4, ForwardFertilizer(), 1);
    WalkStepVia(Item("water", 41), maps, 3, ForwardWater(), 1);
    WalkStepPast(Item("light", 34), maps, 2, ForwardLight());
    WalkStepVia(Item("temperature", 34), maps, 1, ForwardTemperature(), 1);
    WalkStepPast(Item("humidity", 35), maps, 0, ForwardHumidity());
    WalkEnough(Item("seed", 13), maps, 7);
  }

  /** Location 46 walks back to seed 82. */
  lemma ExampleLocation46(maps: Maps)
    requires BackwardShape(maps)
    ensures Walk(Item("location", 46), maps, |maps|) == Some(Item("seed", 82))
  {
    WalkStepPast(Item("location", 46), maps, 6, BackwardLocation());
    WalkStepVia(Item("humidity", 46), maps, 5, BackwardHumidity(), 1);
    WalkStepVia(Item("temperature", 45), maps, 4, BackwardTemperature(), 0);
    WalkStepVia(Item("light", 77), maps, 3, BackwardLight(), 1);
    WalkStepPast(Item("water", 84), maps, 2, BackwardWater());
    WalkStepPast(Item("fertilizer", 84), maps, 1, BackwardFertilizer());
    WalkStepVia(Item("soil", 84), maps, 0, BackwardSoil(), 1);
    WalkEnough(Item("location", 46), maps, 7);
  }

  /** Location 45 walks back to seed 53. */
  lemma ExampleLocation45(maps: Maps)
    requires BackwardShape(maps)
    ensures Walk(Item("location", 45), maps, |maps|) == Some(Item("seed", 53))
  {
    WalkStepPast(Item("location", 45), maps, 6, BackwardLocation());
    WalkStepVia(Item("humidity", 45), maps, 5, BackwardHumidity(), 1);
    WalkStepPast(Item("temperature", 44), maps, 4, BackwardTemperature());
    WalkStepVia(Item("light", 44), maps, 3, BackwardLight(), 1);
    WalkStepVia(Item("water", 51), maps, 2, BackwardWater(), 0);
    WalkStepPast(Item("fertilizer", 55), maps, 1, BackwardFertilizer());
    WalkStepVia(Item("soil", 55), maps, 0, BackwardSoil(), 1);
    WalkEnough(Item("location", 45), maps, 7);
  }

  /** Seeds 79, 14, 55 and 13 reach locations 82, 43, 86 and 35; the lowest
      is 35. */
  lemma ExamplePart1(maps: Maps)
    requires maps == ExampleForwardMaps()
    ensures WalkAll([79, 14, 55, 13], "seed", maps) ==
      Some([Item("location", 82), Item("location", 43), Item("location", 86), Item("location", 35)])
    ensures MinNumber(WalkAll([79, 14, 55, 13], "seed", maps).value) == Some(35)
  {
    ForwardMapsShape();
    ExampleSeed79(maps);
    ExampleSeed14(maps);
    ExampleSeed55(maps);
    ExampleSeed13(maps);
    var walks := Walks([79, 14, 55, 13], "seed", maps);
    CollectEach(walks);
    var locations := [Item("location", 82), Item("location", 43), Item("location", 86), Item("location", 35)];
    assert Collect(walks).value == locations;
    assert MinNumber(locations).value == 35 by {
      var m := MinNumber(locations).value;
      assert m <= locations[3].number;
    }
  }

  /** With the example's seed ranges 79 to 92 and 55 to 67, location 46 has a
      valid seed and location 45 does not: 46 is where part 2's search ends. */
  lemma ExamplePart2(maps: Maps)
    requires maps == ExampleBackwardMaps()
    ensures SeedRanges([79, 14, 55, 13]).value == [(79, 93), (55, 68)]
    ensures ValidLocation(maps, [(79, 93), (55, 68)], 46)
    ensures SeedOf(maps, 45).Some? && !ValidSeed([(79, 93), (55, 68)], SeedOf(maps, 45).value)
  {
    BackwardMapsShape();
    ExampleLocation46(maps);
    ExampleLocation45(maps);
    var ranges := [(79, 93), (55, 68)];
    assert ranges[0].0 <= 82 < ranges[0].1;
  }

}
