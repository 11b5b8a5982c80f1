/**
 * 2024 day 5, Print Queue: page-ordering rules `X|Y` say page X must be printed
 * before page Y. An update (a list of pages) is in the right order when sorting
 * it with the rules leaves it unchanged. Part 1 adds up the middle pages of the
 * updates already in order; part 2 sorts the others and adds up their middle
 * pages.
 */
module Day5 {
  import opened Wrappers
  import opened Text

  /** `u8` page numbers. */
  type Page = nat
  type Rules = map<Page, set<Page>>

  datatype Ordering = Less | Equal | Greater

  /** The pages a page must precede (`rules.get(..)`, empty when absent). */
  function Successors(rules: Rules, page: Page): set<Page> {
    if page in rules then rules[page] else {}
  }

  /** `OrderingRules`: for each page, the pages that must come after it. */
  class OrderingRules {
    var rules: Rules

    constructor ()
      ensures rules == map[]
    {
      rules := map[];
    }

    /** `insert`: `lessThan` joins the pages `page` must precede; nothing else changes. */
    method Insert(page: Page, lessThan: Page)
      modifies this
      ensures rules == old(rules)[page := Successors(old(rules), page) + {lessThan}]
    {
      rules := rules[page := Successors(rules, page) + {lessThan}];
    }
  }

  /** `less_than`: Less when a rule puts `a` before `b`, Equal otherwise. */
  function Compare(rules: Rules, a: Page, b: Page): (r: Ordering)
    ensures r == Less <==> a in rules && b in rules[a]
    ensures r != Greater
  {
    if a in rules && b in rules[a] then Less else Equal
  }

  /** The `is_less` test `sort_by` derives from the comparator. */
  predicate IsLess(rules: Rules, a: Page, b: Page) {
    Compare(rules, a, b) == Less
  }

  /** No rule is given both ways round, and no page is ruled before itself. */
  ghost predicate Antisymmetric(rules: Rules) {
    forall a, b :: IsLess(rules, a, b) ==> !IsLess(rules, b, a)
  }

  /** No page is followed by one that a rule puts before it. */
  predicate LocallyOrdered(rules: Rules, pages: seq<Page>) {
    forall i :: 0 <= i < |pages| - 1 ==> !IsLess(rules, pages[i + 1], pages[i])
  }

  /** Inserting the last page into a sorted prefix, moving it left past every
      page it must precede (the insertion step of `sort_by`). */
  function InsertTail(rules: Rules, sorted: seq<Page>, page: Page): (r: seq<Page>)
    ensures |r| == |sorted| + 1
    ensures r[|r| - 1] == page || (|sorted| > 0 && r[|r| - 1] == sorted[|sorted| - 1])
  {
    if |sorted| == 0 || !IsLess(rules, page, sorted[|sorted| - 1]) then sorted + [page]
    else InsertTail(rules, sorted[..|sorted| - 1], page) + [sorted[|sorted| - 1]]
  }

  /** `sort_pages`: a stable insertion sort of the pages by `is_less`. */
  function SortPages(rules: Rules, pages: seq<Page>): (r: seq<Page>)
    ensures |r| == |pages|
  {
    if |pages| == 0 then []
    else InsertTail(rules, SortPages(rules, pages[..|pages| - 1]), pages[|pages| - 1])
  }

  /** Insertion adds exactly the page. */
  lemma {:induction false} InsertTailPermutation(rules: Rules, sorted: seq<Page>, page: Page)
    ensures multiset(InsertTail(rules, sorted, page)) == multiset(sorted) + multiset{page}
    decreases |sorted|
  {
    if |sorted| > 0 && IsLess(rules, page, sorted[|sorted| - 1]) {
      var init := sorted[..|sorted| - 1];
      InsertTailPermutation(rules, init, page);
      assert sorted == init + [sorted[|sorted| - 1]];
    }
  }

  /** The sorted copy is a permutation of the update, whatever the rules. */
  lemma {:induction false} SortPagesPermutation(rules: Rules, pages: seq<Page>)
    ensures multiset(SortPages(rules, pages)) == multiset(pages)
    decreases |pages|
  {
    if |pages| > 0 {
      var init := pages[..|pages| - 1];
      SortPagesPermutation(rules, init);
      InsertTailPermutation(rules, SortPages(rules, init), pages[|pages| - 1]);
      assert pages == init + [pages[|pages| - 1]];
    }
  }

  /** With rules that are never given both ways round, insertion keeps a locally
      ordered prefix locally ordered. */
  lemma {:induction false} InsertTailOrdered(rules: Rules, sorted: seq<Page>, page: Page)
    requires Antisymmetric(rules) && LocallyOrdered(rules, sorted)
    ensures LocallyOrdered(rules, InsertTail(rules, sorted, page))
    decreases |sorted|
  {
    if |sorted| > 0 && IsLess(rules, page, sorted[|sorted| - 1]) {
      var init, last := sorted[..|sorted| - 1], sorted[|sorted| - 1];
      assert LocallyOrdered(rules, init) by {
        forall i | 0 <= i < |init| - 1 ensures !IsLess(rules, init[i + 1], init[i]) {
          assert init[i] == sorted[i] && init[i + 1] == sorted[i + 1];
        }
      }
      InsertTailOrdered(rules, init, page);
      var front := InsertTail(rules, init, page);
      var r := front + [last];
      forall i | 0 <= i < |r| - 1 ensures !IsLess(rules, r[i + 1], r[i]) {
        if i == |r| - 2 {
          if front[|front| - 1] == page {
            assert !IsLess(rules, last, page);
          } else {
            assert !IsLess(rules, sorted[|sorted| - 1], sorted[|sorted| - 2]);
          }
        } else {
          assert r[i] == front[i] && r[i + 1] == front[i + 1];
        }
      }
    }
  }

  /** With such rules the sorted pages have no page right after one it must precede. */
  lemma {:induction false} SortPagesOrdered(rules: Rules, pages: seq<Page>)
    requires Antisymmetric(rules)
    ensures LocallyOrdered(rules, SortPages(rules, pages))
    decreases |pages|
  {
    if |pages| > 0 {
      SortPagesOrdered(rules, pages[..|pages| - 1]);
      InsertTailOrdered(rules, SortPages(rules, pages[..|pages| - 1]), pages[|pages| - 1]);
    }
  }

  /** A locally ordered update is left unchanged by the sort (for any rules). */
  lemma {:induction false} SortKeepsOrdered(rules: Rules, pages: seq<Page>)
    requires LocallyOrdered(rules, pages)
    ensures SortPages(rules, pages) == pages
    decreases |pages|
  {
    if |pages| > 0 {
      var init := pages[..|pages| - 1];
      assert LocallyOrdered(rules, init) by {
        forall i | 0 <= i < |init| - 1 ensures !IsLess(rules, init[i + 1], init[i]) {
          assert init[i] == pages[i] && init[i + 1] == pages[i + 1];
        }
      }
      var last := pages[|pages| - 1];
      assert SortPages(rules, pages) == InsertTail(rules, init, last) by {
        SortKeepsOrdered(rules, init);
      }
      assert |init| > 0 ==> !IsLess(rules, last, init[|init| - 1]) by {
        if |init| > 0 {
          assert init[|init| - 1] == pages[|pages| - 2];
        }
      }
      assert InsertTail(rules, init, last) == init + [last];
      assert pages == init + [last];
    }
  }

  /** `validate_page_order`: the update equals its sorted copy. */
  predicate ValidatePageOrder(rules: Rules, update: seq<Page>) {
    update == SortPages(rules, update)
  }

  /** With rules never given both ways round, an update is valid exactly when no
      page is directly followed by a page a rule puts before it. */
  lemma ValidIffLocallyOrdered(rules: Rules, update: seq<Page>)
    requires Antisymmetric(rules)
    ensures ValidatePageOrder(rules, update) <==> LocallyOrdered(rules, update)
  {
    SortPagesOrdered(rules, update);
    if LocallyOrdered(rules, update) {
      SortKeepsOrdered(rules, update);
    }
  }

  /** `corrected_update`: None for a valid update, otherwise its sorted copy. */
  function CorrectedUpdate(rules: Rules, update: seq<Page>): (r: Option<seq<Page>>)
    ensures r.None? <==> ValidatePageOrder(rules, update)
    ensures r.Some? ==> |r.value| == |update| && multiset(r.value) == multiset(update) && r.value != update
  {
    SortPagesPermutation(rules, update);
    var sorted := SortPages(rules, update);
    if update == sorted then None else Some(sorted)
  }

  /** The middle page, `update[update.len() / 2]`. */
  function Middle(update: seq<Page>): Page
    requires |update| > 0
  {
    update[|update| / 2]
  }

  predicate AllNonEmpty(updates: seq<seq<Page>>) {
    forall i :: 0 <= i < |updates| ==> |updates[i]| > 0
  }

  /** Part 1's sum: the middle pages of the valid updates. */
  function ValidMiddleSum(rules: Rules, updates: seq<seq<Page>>): nat
    requires AllNonEmpty(updates)
  {
    if |updates| == 0 then 0
    else
      var u := updates[|updates| - 1];
      ValidMiddleSum(rules, updates[..|updates| - 1]) + (if ValidatePageOrder(rules, u) then Middle(u) else 0)
  }

  /** Part 2's sum: the middle pages of the corrected updates. */
  function CorrectedMiddleSum(rules: Rules, updates: seq<seq<Page>>): nat
    requires AllNonEmpty(updates)
  {
    if |updates| == 0 then 0
    else
      var u := updates[|updates| - 1];
      CorrectedMiddleSum(rules, updates[..|updates| - 1]) +
        match CorrectedUpdate(rules, u) case None => 0 case Some(c) => Middle(c)
  }

  /** The middle pages of every update once sorted. */
  function SortedMiddleSum(rules: Rules, updates: seq<seq<Page>>): nat
    requires AllNonEmpty(updates)
  {
    if |updates| == 0 then 0
    else
      var u := updates[|updates| - 1];
      SortedMiddleSum(rules, updates[..|updates| - 1]) + Middle(SortPages(rules, u))
  }

  /** Every update counts in exactly one part: the two answers together are the
      middle pages of all the updates once sorted. */
  lemma {:induction false} PartsSplitUpdates(rules: Rules, updates: seq<seq<Page>>)
    requires AllNonEmpty(updates)
    ensures ValidMiddleSum(rules, updates) + CorrectedMiddleSum(rules, updates) == SortedMiddleSum(rules, updates)
    decreases |updates|
  {
    if |updates| > 0 {
      PartsSplitUpdates(rules, updates[..|updates| - 1]);
    }
  }

  /** `u8::from_str`. */
  function ParsePage(s: string): (r: Option<Page>)
    ensures r.Some? <==> ParseUnsigned(s).Some? && ParseUnsigned(s).value < 256
    ensures r.Some? ==> r.value == ParseUnsigned(s).value
  {
    match ParseUnsigned(s)
    case Some(n) => if n < 256 then Some(n) else None
    case None => None
  }

  /** A rule line `X|Y`; a bad number or a missing `|` is a panic. */
  function ParseRule(line: string): (r: Option<(Page, Page)>)
    ensures r.Some? ==> (|Split(line, '|')| >= 2 &&
      ParsePage(Split(line, '|')[0]) == Some(r.value.0) && ParsePage(Split(line, '|')[1]) == Some(r.value.1))
  {
    var pages := Split(line, '|');
    match ParsePage(pages[0])
    case None => None
    case Some(a) =>
      if |pages| < 2 then None
      else
        match ParsePage(pages[1])
        case None => None
        case Some(b) => Some((a, b))
  }

  /** An update line: pages separated by commas; a bad number is a panic. */
  function ParseUpdate(line: string): (r: Option<seq<Page>>)
    ensures r.Some? ==> |r.value| == |Split(line, ',')| > 0
    ensures r.Some? ==> forall i :: 0 <= i < |r.value| ==> ParsePage(Split(line, ',')[i]) == Some(r.value[i])
  {
    ParsePages(Split(line, ','))
  }

  function ParsePages(parts: seq<string>): (r: Option<seq<Page>>)
    ensures r.Some? <==> forall i :: 0 <= i < |parts| ==> ParsePage(parts[i]).Some?
    ensures r.Some? ==> |r.value| == |parts| && forall i :: 0 <= i < |parts| ==> ParsePage(parts[i]) == Some(r.value[i])
  {
    if |parts| == 0 then Some([])
    else
      match ParsePages(parts[..|parts| - 1])
      case None => None
      case Some(init) =>
        match ParsePage(parts[|parts| - 1])
        case None => None
        case Some(p) => Some(init + [p])
  }

  /** The rules of the lines, inserted in order. */
  function RulesOf(lines: seq<string>): Option<Rules> {
    if |lines| == 0 then Some(map[])
    else
      match RulesOf(lines[..|lines| - 1])
      case None => None
      case Some(rules) =>
        match ParseRule(lines[|lines| - 1])
        case None => None
        case Some((a, b)) => Some(rules[a := Successors(rules, a) + {b}])
  }

  function UpdatesOf(lines: seq<string>): (r: Option<seq<seq<Page>>>)
    ensures r.Some? ==> |r.value| == |lines| && AllNonEmpty(r.value)
  {
    if |lines| == 0 then Some([])
    else
      match UpdatesOf(lines[..|lines| - 1])
      case None => None
      case Some(init) =>
        match ParseUpdate(lines[|lines| - 1])
        case None => None
        case Some(u) => Some(init + [u])
  }

  /** The index of the first empty line, or the number of lines. */
  function FirstEmpty(lines: seq<string>): (k: nat)
    ensures k <= |lines| && (k < |lines| ==> lines[k] == [])
    ensures forall i :: 0 <= i < k ==> lines[i] != []
  {
    if |lines| == 0 then 0 else if lines[0] == [] then 0 else 1 + FirstEmpty(lines[1..])
  }

  /** What `parse_input` produces: rules from the lines before the first empty
      line, updates from the lines after it. */
  function ParseSpec(lines: seq<string>): Option<(Rules, seq<seq<Page>>)> {
    var k := FirstEmpty(lines);
    match RulesOf(lines[..k])
    case None => None
    case Some(rules) =>
      match UpdatesOf(if k < |lines| then lines[k + 1..] else [])
      case None => None
      case Some(updates) => Some((rules, updates))
  }

  /** `parse_input`: two loops over the lines sharing one iterator. */
  method ParseInput(input: string) returns (r: Option<(Rules, seq<seq<Page>>)>)
    ensures r == ParseSpec(Lines(input))
  {
    var lines := Lines(input);
    var k := FirstEmpty(lines);
    var rules := ReadRules(lines, k);
    if rules.None? {
      return None;
    }
    var updates := ReadUpdates(if k < |lines| then lines[k + 1..] else []);
    if updates.None? {
      return None;
    }
    r := Some((rules.value, updates.value));
  }

  /** The first loop: a rule per line up to the first empty line, inserted into
      the ordering rules. */
  method ReadRules(lines: seq<string>, k: nat) returns (r: Option<Rules>)
    requires k == FirstEmpty(lines)
    ensures r == RulesOf(lines[..k])
  {
    var orderingRules := new OrderingRules();
    var i := 0;
    while i < |lines| && lines[i] != []
      invariant 0 <= i <= k
      invariant RulesOf(lines[..i]) == Some(orderingRules.rules)
    {
      var rule := ParseRule(lines[i]);
      RulesOfSnoc(lines, i, orderingRules.rules);
      if rule.None? {
        assert i < k && lines[..k][..i + 1] == lines[..i + 1];
        RulesOfNonePersists(lines[..k], i + 1);
        return None;
      }
      orderingRules.Insert(rule.value.0, rule.value.1);
      i := i + 1;
    }
    assert i == k;
    r := Some(orderingRules.rules);
  }

  /** One more rule line: parsed and inserted, or the end of parsing. */
  lemma RulesOfSnoc(lines: seq<string>, i: nat, rules: Rules)
    requires i < |lines| && RulesOf(lines[..i]) == Some(rules)
    ensures RulesOf(lines[..i + 1]) ==
      match ParseRule(lines[i])
      case None => None
      case Some((a, b)) => Some(rules[a := Successors(rules, a) + {b}])
  {
    assert lines[..i + 1][..i] == lines[..i];
  }

  /** The second loop: an update per remaining line. */
  method ReadUpdates(rest: seq<string>) returns (r: Option<seq<seq<Page>>>)
    ensures r == UpdatesOf(rest)
  {
    var updates: seq<seq<Page>> := [];
    var j := 0;
    while j < |rest|
      invariant 0 <= j <= |rest|
      invariant UpdatesOf(rest[..j]) == Some(updates)
    {
      assert rest[..j + 1][..j] == rest[..j];
      var pages := ParseUpdate(rest[j]);
      if pages.None? {
        UpdatesOfNonePersists(rest, j + 1);
        return None;
      }
      updates := updates + [pages.value];
      j := j + 1;
    }
    assert rest[..j] == rest;
    r := Some(updates);
  }

  /** A bad rule line anywhere makes the whole parse fail. */
  lemma {:induction false} RulesOfNonePersists(lines: seq<string>, i: nat)
    requires i <= |lines| && RulesOf(lines[..i]).None?
    ensures RulesOf(lines).None?
    decreases |lines| - i
  {
    if i < |lines| {
      assert lines[..i + 1][..i] == lines[..i];
      RulesOfNonePersists(lines, i + 1);
    } else {
      assert lines[..i] == lines;
    }
  }

  lemma {:induction false} UpdatesOfNonePersists(lines: seq<string>, i: nat)
    requires i <= |lines| && UpdatesOf(lines[..i]).None?
    ensures UpdatesOf(lines).None?
    decreases |lines| - i
  {
    if i < |lines| {
      assert lines[..i + 1][..i] == lines[..i];
      UpdatesOfNonePersists(lines, i + 1);
    } else {
      assert lines[..i] == lines;
    }
  }

  /** One more update adds its middle page to Part 1's sum when it is valid. */
  lemma {:induction false} ValidSumStep(rules: Rules, updates: seq<seq<Page>>, k: nat)
    requires AllNonEmpty(updates) && k < |updates|
    ensures AllNonEmpty(updates[..k]) && AllNonEmpty(updates[..k + 1]) && |updates[k]| > 0
    ensures ValidMiddleSum(rules, updates[..k + 1]) ==
      ValidMiddleSum(rules, updates[..k]) + (if ValidatePageOrder(rules, updates[k]) then Middle(updates[k]) else 0)
  {
    assert updates[..k + 1][..k] == updates[..k];
  }

  /** `part1`: the sum of the middle pages of the valid updates. */
  method Part1(input: string) returns (r: Option<nat>)
    ensures r.Some? <==> ParseSpec(Lines(input)).Some?
    ensures r.Some? ==> r.value == ValidMiddleSum(ParseSpec(Lines(input)).value.0, ParseSpec(Lines(input)).value.1)
  {
    var parsed := ParseInput(input);
    if parsed.None? {
      return None;
    }
    var (rules, updates) := parsed.value;
    var total := 0;
    assert AllNonEmpty(updates);
    for k := 0 to |updates|
      invariant total == ValidMiddleSum(rules, updates[..k])
    {
      ValidSumStep(rules, updates, k);
      if ValidatePageOrder(rules, updates[k]) {
        total := total + Middle(updates[k]);
      }
    }
    assert updates[..|updates|] == updates;
    r := Some(total);
  }

  /** `part2`: the sum of the middle pages of the corrected updates. */
  method Part2(input: string) returns (r: Option<nat>)
    ensures r.Some? <==> ParseSpec(Lines(input)).Some?
    ensures r.Some? ==> r.value == CorrectedMiddleSum(ParseSpec(Lines(input)).value.0, ParseSpec(Lines(input)).value.1)
  {
    var parsed := ParseInput(input);
    if parsed.None? {
      return None;
    }
    var (rules, updates) := parsed.value;
    var total := 0;
    for k := 0 to |updates|
      invariant total == CorrectedMiddleSum(rules, updates[..k])
    {
      assert updates[..k + 1][..k] == updates[..k];
      var corrected := CorrectedUpdate(rules, updates[k]);
      if corrected.Some? {
        total := total + Middle(corrected.value);
      }
    }
    assert updates[..|updates|] == updates;
    r := Some(total);
  }

  /** From the puzzle's example: with 97|75 the update 75,97,47,61,53 is out of
      order and sorts to 97,75,47,61,53. */
  lemma ExampleCorrection()
    ensures SortPages(map[97 := {75}], [75, 97, 47, 61, 53]) == [97, 75, 47, 61, 53]
  {
    var rules: Rules := map[97 := {75}];
    var u: seq<Page> := [75, 97, 47, 61, 53];
    ExampleFirstTwo();
    assert u[..2] == [75, 97];
    var three := InsertTail(rules, [97, 75], 47);
    assert three == [97, 75, 47];
    assert u[..3] == [75, 97, 47];
    assert u[..3][..2] == u[..2];
    assert SortPages(rules, u[..3]) == three;
    var four := InsertTail(rules, three, 61);
    assert four == [97, 75, 47, 61];
    assert u[..4] == [75, 97, 47, 61];
    assert u[..4][..3] == u[..3];
    assert SortPages(rules, u[..4]) == four;
    assert u[..4] == u[..|u| - 1];
    assert InsertTail(rules, four, 53) == [97, 75, 47, 61, 53];
  }

  lemma ExampleFirstTwo()
    ensures SortPages(map[97 := {75}], [75, 97]) == [97, 75]
  {
    var rules: Rules := map[97 := {75}];
    assert [75, 97][..1] == [75];
    assert SortPages(rules, [75]) == [75] by { assert [75][..0] == []; }
    assert IsLess(rules, 97, 75);
    assert InsertTail(rules, [75], 97) == [97, 75] by {
      assert [75][..0] == [];
    }
  }
}
