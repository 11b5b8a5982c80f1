/**
 * Day 8 of 2023 (Haunted Wasteland), in Swift: left/right instructions,
 * repeated forever, lead through a network of nodes labelled with three
 * characters. Part 1 counts the steps from AAA to ZZZ; part 2 takes, for
 * every node whose label ends in A, the first step count that is a whole
 * number of passes through the instructions and lands on a label ending in
 * Z, and answers the least common multiple of those periods.
 *
 * Each node object is reached through the network's dictionary, which holds
 * exactly one node per label, so a node is modelled by its label and a
 * node's `left`/`right` fields by the labels they point to.
 */
module Year2023Day8 {
  import opened Wrappers
  import opened Text
  import Year2023Math

  /*------------------------------------------------------------------------
    Directions
  ------------------------------------------------------------------------*/

  /** The `k`-th instruction when the instructions repeat forever. */
  function DirectionAt(directions: string, k: nat): char
    requires |directions| > 0
  {
    directions[k % |directions|]
  }

  /** `DirectionsIterator`: an index into the instructions that returns to
      the start after the last one. */
  class DirectionsIterator {
    const directions: string
    var index: nat

    ghost predicate Valid()
      reads this
    {
      index == 0 || index < |directions|
    }

    constructor(directions: string)
      ensures this.directions == directions && index == 0 && Valid()
    {
      this.directions := directions;
      index := 0;
    }

    /** `next()`: the instruction at the index, then the index moves on,
        wrapping around at the end. (On empty instructions `next()` reads
        past the end, a fatal error, so it is never called on them.) */
    method Next() returns (c: char)
      requires Valid() && |directions| > 0
      modifies this
      ensures Valid()
      ensures c == directions[old(index)]
      ensures index == (old(index) + 1) % |directions|
    {
      c := directions[index];
      index := index + 1;
      if index == |directions| {
        index := 0;
      }
    }
  }

  /** After `k` calls the iterator has returned the first `k` repeated
      instructions and stands at `k % n`. */
  lemma {:induction false} NextIndex(n: nat, k: nat)
    requires n > 0
    ensures ((k % n) + 1) % n == (k + 1) % n
  {
    var q := k / n;
    var r := k % n;
    assert k == q * n + r;
    if r + 1 == n {
      ModUnique(k + 1, n, q + 1, 0);
      ModUnique(r + 1, n, 1, 0);
    } else {
      ModUnique(k + 1, n, q, r + 1);
      ModUnique(r + 1, n, 0, r + 1);
    }
  }

  /** The remainder is the one below `n` in any `a == q * n + r`. */
  lemma {:induction false} ModUnique(a: int, n: int, q: int, r: int)
    requires n > 0 && 0 <= r < n && a == q * n + r
    ensures a % n == r
  {
    var q' := a / n;
    assert a == q' * n + a % n;
    assert (q - q') * n == a % n - r;
    if q - q' >= 1 {
      Year2023Math.MulAtLeast(n, q - q');
    } else if q' - q >= 1 {
      Year2023Math.MulAtLeast(n, q' - q);
    }
  }

  /** "LLR" repeats as LLRLLRLLR. */
  lemma ExampleDirections()
    ensures forall k :: 0 <= k < 9 ==> DirectionAt("LLR", k) == "LLRLLRLLR"[k]
  {
  }

  /*------------------------------------------------------------------------
    Nodes and the network
  ------------------------------------------------------------------------*/

  /** A node's `left` and `right`: the labels of the nodes they point to, or
      None while still nil. */
  datatype Links = Links(left: Option<string>, right: Option<string>)

  const NoLinks := Links(None, None)

  /** `navigate(direction:)`: "L" goes left, "R" goes right, and anything
      else (or a missing node, or a nil link) gives nil. */
  function Step(nodes: map<string, Links>, name: string, direction: char): (r: Option<string>)
    ensures r.Some? ==> name in nodes && (direction == 'L' || direction == 'R')
  {
    if name !in nodes then None
    else if direction == 'L' then nodes[name].left
    else if direction == 'R' then nodes[name].right
    else None
  }

  /** Every link points at a node of the network. */
  ghost predicate Closed(nodes: map<string, Links>) {
    forall v :: v in nodes ==>
      (nodes[v].left.Some? ==> nodes[v].left.value in nodes) &&
      (nodes[v].right.Some? ==> nodes[v].right.value in nodes)
  }

  /** A node for `label`, new and unlinked unless there is one already. */
  function Ensure(nodes: map<string, Links>, name: string): map<string, Links> {
    if name in nodes then nodes else nodes[name := NoLinks]
  }

  /** `addNode(value:left:right:)`: the node for `value`, then the left node
      (linked), then the right node (linked), each reused when the dictionary
      has one. */
  function Linked(nodes: map<string, Links>, value: string, leftValue: string, rightValue: string): map<string, Links> {
    var withNode := Ensure(nodes, value);
    var withLeft := Ensure(withNode, leftValue);
    var linkedLeft := withLeft[value := withLeft[value].(left := Some(leftValue))];
    var withRight := Ensure(linkedLeft, rightValue);
    withRight[value := withRight[value].(right := Some(rightValue))]
  }

  /** After `addNode` the node goes left to `leftValue` and right to
      `rightValue`, the three labels have nodes, every other node keeps its
      links, no other label gains a node, and the links still stay inside the
      network. */
  lemma {:induction false} LinkedSpec(nodes: map<string, Links>, value: string, leftValue: string, rightValue: string)
    ensures var after := Linked(nodes, value, leftValue, rightValue);
      Step(after, value, 'L') == Some(leftValue) && Step(after, value, 'R') == Some(rightValue) &&
      value in after && leftValue in after && rightValue in after &&
      (forall v :: v in nodes && v != value ==> v in after && after[v] == nodes[v]) &&
      (forall v :: v in after ==> v in nodes || v == value || v == leftValue || v == rightValue) &&
      (forall v :: v in after && v !in nodes && v != value ==> after[v] == NoLinks) &&
      (Closed(nodes) ==> Closed(after))
  {
  }

  /** The in-place left link of `addNode` builds the same dictionary as the
      `Ensure`-then-link step of `Linked`. */
  lemma LinkLeftStep(m: map<string, Links>, value: string, leftValue: string)
    requires value in m
    ensures var left := if leftValue in m then m[leftValue] else NoLinks;
      var linked := m[value := m[value].(left := Some(leftValue))];
      var withLeft := Ensure(m, leftValue);
      (if leftValue != value then linked[leftValue := left] else linked) ==
        withLeft[value := withLeft[value].(left := Some(leftValue))]
  {
  }

  /** The same for the right link. */
  lemma LinkRightStep(m: map<string, Links>, value: string, rightValue: string)
    requires value in m
    ensures var right := if rightValue in m then m[rightValue] else NoLinks;
      var linked := m[value := m[value].(right := Some(rightValue))];
      var withRight := Ensure(m, rightValue);
      (if rightValue != value then linked[rightValue := right] else linked) ==
        withRight[value := withRight[value].(right := Some(rightValue))]
  {
  }

  /** The `Network` class: the dictionary from labels to nodes. */
  class Network {
    var nodes: map<string, Links>

    constructor()
      ensures nodes == map[]
    {
      nodes := map[];
    }

    /** `addNode(value:left:right:)`, step by step. The node it returns is
        discarded by its callers. */
    method AddNode(value: string, leftValue: string, rightValue: string)
      modifies this
      ensures nodes == Linked(old(nodes), value, leftValue, rightValue)
    {
      var node := if value in nodes then nodes[value] else NoLinks;
      nodes := nodes[value := node];
      assert nodes == Ensure(old(nodes), value);
      ghost var withNode := nodes;

      var left := if leftValue in nodes then nodes[leftValue] else NoLinks;
      nodes := nodes[value := nodes[value].(left := Some(leftValue))];
      if leftValue != value {
        nodes := nodes[leftValue := left];
      }
      LinkLeftStep(withNode, value, leftValue);
      ghost var linkedLeft := nodes;

      var right := if rightValue in nodes then nodes[rightValue] else NoLinks;
      nodes := nodes[value := nodes[value].(right := Some(rightValue))];
      if rightValue != value {
        nodes := nodes[rightValue := right];
      }
      LinkRightStep(linkedLeft, value, rightValue);
    }
  }

  /*------------------------------------------------------------------------
    Parsing
  ------------------------------------------------------------------------*/

  predicate IsLabelChar(c: char) {
    ('A' <= c <= 'Z') || ('0' <= c <= '9')
  }

  predicate IsLabel(s: string) {
    |s| == 3 && IsLabelChar(s[0]) && IsLabelChar(s[1]) && IsLabelChar(s[2])
  }

  /** The whole-line match of `XXX = (YYY, ZZZ)`, each label three capital
      letters or digits; None is a fatal error. */
  function ParseNode(line: string): (r: Option<(string, string, string)>)
    ensures r.Some? ==> IsLabel(r.value.0) && IsLabel(r.value.1) && IsLabel(r.value.2)
  {
    if |line| == 16 && line[3..7] == " = (" && line[10..12] == ", " && line[15] == ')' &&
       IsLabel(line[..3]) && IsLabel(line[7..10]) && IsLabel(line[12..15])
    then Some((line[..3], line[7..10], line[12..15]))
    else None
  }

  /** A node line is read back from its parts. */
  lemma {:induction false} ParseNodeRoundTrip(value: string, leftValue: string, rightValue: string)
    requires IsLabel(value) && IsLabel(leftValue) && IsLabel(rightValue)
    ensures ParseNode(value + " = (" + leftValue + ", " + rightValue + ")") == Some((value, leftValue, rightValue))
  {
    var line := value + " = (" + leftValue + ", " + rightValue + ")";
    assert line[..3] == value;
    assert line[3..7] == " = (";
    assert line[7..10] == leftValue;
    assert line[10..12] == ", ";
    assert line[12..15] == rightValue;
  }

  /** The node lines after the blank second line, empty lines skipped. */
  function ParseNodes(lines: seq<string>): Option<seq<(string, string, string)>> {
    if lines == [] then Some([])
    else
      match ParseNodes(lines[..|lines| - 1])
      case None => None
      case Some(front) =>
        var line := lines[|lines| - 1];
        if |line| == 0 then Some(front)
        else
          match ParseNode(line)
          case None => None
          case Some(node) => Some(front + [node])
  }

  /** `parseInput`: the instructions on the first line and the node lines
      from the third on; None when there is no second line or a node line
      does not match. */
  function ParseInput(input: string): Option<(string, seq<(string, string, string)>)> {
    var lines := Split(input, '\n');
    if |lines| < 2 then None
    else
      match ParseNodes(lines[2..])
      case None => None
      case Some(nodeLines) => Some((lines[0], nodeLines))
  }

  /** The network after adding the node lines in order. */
  function LinkAll(nodes: map<string, Links>, nodeLines: seq<(string, string, string)>): map<string, Links> {
    if nodeLines == [] then nodes
    else
      var front := nodeLines[..|nodeLines| - 1];
      var last := nodeLines[|nodeLines| - 1];
      Linked(LinkAll(nodes, front), last.0, last.1, last.2)
  }

  /** Built from the empty dictionary, every link stays inside the network,
      and each line's node goes where its last line says. */
  lemma {:induction false} LinkAllClosed(nodeLines: seq<(string, string, string)>)
    ensures Closed(LinkAll(map[], nodeLines))
  {
    if nodeLines != [] {
      var front := nodeLines[..|nodeLines| - 1];
      var last := nodeLines[|nodeLines| - 1];
      LinkAllClosed(front);
      LinkedSpec(LinkAll(map[], front), last.0, last.1, last.2);
    }
  }

  /** The network of `parseInput`, built by `addNode` on each node line. */
  method BuildNetwork(nodeLines: seq<(string, string, string)>) returns (network: Network)
    ensures network.nodes == LinkAll(map[], nodeLines)
  {
    network := new Network();
    for i := 0 to |nodeLines|
      invariant network.nodes == LinkAll(map[], nodeLines[..i])
    {
      assert nodeLines[..i + 1][..i] == nodeLines[..i];
      var (value, leftValue, rightValue) := nodeLines[i];
      network.AddNode(value, leftValue, rightValue);
    }
    assert nodeLines[..|nodeLines|] == nodeLines;
  }

  /*------------------------------------------------------------------------
    Walking the network
  ------------------------------------------------------------------------*/

  /** The node after `k` steps from `start` (None once a step has no node). */
  function Walk(nodes: map<string, Links>, directions: string, start: Option<string>, k: nat): Option<string>
    requires |directions| > 0
  {
    if k == 0 then start
    else
      match Walk(nodes, directions, start, k - 1)
      case None => None
      case Some(name) => Step(nodes, name, DirectionAt(directions, k - 1))
  }

  /** In a closed network every node a walk from a node of it reaches is a
      node of it. */
  lemma {:induction false} WalkInside(nodes: map<string, Links>, directions: string, start: string, k: nat)
    requires |directions| > 0 && Closed(nodes) && start in nodes
    ensures Walk(nodes, directions, Some(start), k).Some? ==> Walk(nodes, directions, Some(start), k).value in nodes
  {
    if k > 0 {
      WalkInside(nodes, directions, start, k - 1);
    }
  }

  /** How a walk ended: at its goal after `steps` steps, at a fatal error on
      step `steps` (0 for empty instructions), or still going after the step
      limit. */
  datatype Walked = Arrived(steps: nat) | Fatal(steps: nat) | GaveUp

  /** `currentNode === endNode`, with `endNode` the dictionary's ZZZ (nil
      when there is none). */
  predicate AtEnd(nodes: map<string, Links>, name: string) {
    "ZZZ" in nodes && name == "ZZZ"
  }

  function StartOf(nodes: map<string, Links>): Option<string> {
    if "AAA" in nodes then Some("AAA") else None
  }

  /** Steps 1 to `s` (excluded) all land on a node other than the end. */
  predicate OnTheWay(nodes: map<string, Links>, directions: string, s: nat)
    requires |directions| > 0
  {
    forall k :: 1 <= k < s ==>
      Walk(nodes, directions, StartOf(nodes), k).Some? &&
      !AtEnd(nodes, Walk(nodes, directions, StartOf(nodes), k).value)
  }

  /** `part1`: the number of steps from AAA until the first step that lands
      on ZZZ (a first step is always taken); a fatal error when AAA is
      missing, a step has nowhere to go, or there are no instructions.
      The source loops forever when ZZZ is never reached; here the walk
      gives up after `limit` steps. */
  method Part1(network: Network, directions: string, limit: nat) returns (r: Walked)
    ensures r.Arrived? ==> (
      |directions| > 0 && 1 <= r.steps <= limit &&
      OnTheWay(network.nodes, directions, r.steps) &&
      Walk(network.nodes, directions, StartOf(network.nodes), r.steps).Some? &&
      AtEnd(network.nodes, Walk(network.nodes, directions, StartOf(network.nodes), r.steps).value))
    ensures r.Fatal? ==> (
      (|directions| == 0 && r.steps == 0) ||
      (|directions| > 0 && 1 <= r.steps <= limit && OnTheWay(network.nodes, directions, r.steps) &&
       Walk(network.nodes, directions, StartOf(network.nodes), r.steps).None?))
    ensures r.GaveUp? ==> |directions| > 0 && OnTheWay(network.nodes, directions, limit + 1)
  {
    if |directions| == 0 {
      return Fatal(0);
    }
    var nodes := network.nodes;
    var it := new DirectionsIterator(directions);
    var current := StartOf(nodes);
    var steps := 0;
    while steps < limit
      invariant steps <= limit
      invariant it.Valid() && it.directions == directions && it.index == steps % |directions|
      invariant current == Walk(nodes, directions, StartOf(nodes), steps)
      invariant OnTheWay(nodes, directions, steps + 1)
    {
      var direction := it.Next();
      NextIndex(|directions|, steps);
      steps := steps + 1;
      current := if current.Some? then Step(nodes, current.value, direction) else None;
      if current.None? {
        return Fatal(steps);
      }
      if AtEnd(nodes, current.value) {
        return Arrived(steps);
      }
    }
    return GaveUp;
  }

  /*------------------------------------------------------------------------
    Part 2
  ------------------------------------------------------------------------*/

  predicate EndsWith(name: string, c: char) {
    |name| > 0 && name[|name| - 1] == c
  }

  /** Stopping at step `k`: a whole number of passes and a label ending in Z. */
  predicate Stops(nodes: map<string, Links>, directions: string, start: string, k: nat)
    requires |directions| > 0
  {
    k % |directions| == 0 &&
    Walk(nodes, directions, Some(start), k).Some? &&
    EndsWith(Walk(nodes, directions, Some(start), k).value, 'Z')
  }

  /** Steps 0 to `s` (excluded) all land on a node and do not stop. */
  predicate Running(nodes: map<string, Links>, directions: string, start: string, s: nat)
    requires |directions| > 0
  {
    forall k :: 0 <= k < s ==>
      Walk(nodes, directions, Some(start), k).Some? && !Stops(nodes, directions, start, k)
  }

  /** `p` is the period of `start`: the first step count that stops. */
  predicate IsPeriod(nodes: map<string, Links>, directions: string, start: string, p: nat)
    requires |directions| > 0
  {
    Running(nodes, directions, start, p) && Stops(nodes, directions, start, p)
  }

  /** The period of a node is unique. */
  lemma {:induction false} PeriodUnique(nodes: map<string, Links>, directions: string, start: string, p: nat, q: nat)
    requires |directions| > 0
    requires IsPeriod(nodes, directions, start, p) && IsPeriod(nodes, directions, start, q)
    ensures p == q
  {
  }

  /** `getPeriod`: walks from `start` until a label ending in Z is reached
      after a whole number of passes through the instructions (checked
      before each step, so a start ending in Z has period 0); a fatal error
      when a step has nowhere to go or there are no instructions. The walk
      gives up after `limit` steps. */
  method Period(network: Network, start: string, directions: string, limit: nat) returns (r: Walked)
    ensures r.Arrived? ==> (
      |directions| > 0 && r.steps <= limit &&
      IsPeriod(network.nodes, directions, start, r.steps))
    ensures r.Fatal? ==> (
      (|directions| == 0 && r.steps == 0) ||
      (|directions| > 0 && 1 <= r.steps <= limit && Running(network.nodes, directions, start, r.steps) &&
       Walk(network.nodes, directions, Some(start), r.steps).None?))
    ensures r.GaveUp? ==> |directions| > 0 && Running(network.nodes, directions, start, limit + 1)
  {
    if |directions| == 0 {
      return Fatal(0);
    }
    var nodes := network.nodes;
    var it := new DirectionsIterator(directions);
    var current := start;
    var steps := 0;
    while true
      invariant steps <= limit
      invariant it.Valid() && it.directions == directions && it.index == steps % |directions|
      invariant Walk(nodes, directions, Some(start), steps) == Some(current)
      invariant Running(nodes, directions, start, steps)
      decreases limit - steps
    {
      var direction := it.Next();
      NextIndex(|directions|, steps);
      if EndsWith(current, 'Z') && steps % |directions| == 0 {
        return Arrived(steps);
      }
      if steps == limit {
        return GaveUp;
      }
      var next := Step(nodes, current, direction);
      steps := steps + 1;
      if next.None? {
        return Fatal(steps);
      }
      current := next.value;
    }
  }

  /** `m` is a multiple of the period of every node whose label ends in A. */
  ghost predicate CommonPeriodMultiple(nodes: map<string, Links>, directions: string, m: int) {
    |directions| > 0 &&
    forall name, p: nat :: name in nodes && EndsWith(name, 'A') && IsPeriod(nodes, directions, name, p) ==>
      Year2023Math.Divides(p, m)
  }

  /** `day8Part2`: the least common multiple of the periods of the nodes
      whose label ends in A, visited in whatever order the dictionary gives
      them. The answer is a multiple of every such period (each at least one,
      as a label ending in A does not end in Z) and divides every other
      common multiple of them; with no such node it is 1. */
  method Part2(network: Network, directions: string, limit: nat) returns (r: Walked)
    ensures r.Arrived? ==> (
      r.steps >= 1 &&
      forall name :: name in network.nodes && EndsWith(name, 'A') ==>
        exists p: nat :: |directions| > 0 && IsPeriod(network.nodes, directions, name, p) && Year2023Math.Divides(p, r.steps))
    ensures r.Arrived? ==> forall m :: CommonPeriodMultiple(network.nodes, directions, m) ==> Year2023Math.Divides(r.steps, m)
    ensures (forall name :: name in network.nodes ==> !EndsWith(name, 'A')) ==> r == Arrived(1)
  {
    var nodes := network.nodes;
    var startingNodes := set name | name in nodes && EndsWith(name, 'A');
    var failed, periods, names, at := StartingPeriods(network, startingNodes, directions, limit);
    if failed.Some? {
      return failed.value;
    }
    var steps := Year2023Math.Lcm(periods);
    r := Arrived(steps);
    PeriodsLcm(nodes, directions, startingNodes, periods, names, at, steps);
    if forall name :: name in nodes ==> !EndsWith(name, 'A') {
      assert startingNodes == {};
    }
  }

  /** The `for startingNode in startingNodes` loop of `day8Part2`: the period
      of each starting node, in whatever order the set gives them, or the
      first walk that does not arrive. `at` gives each node's place in
      `periods` and `names` each place's node. */
  method StartingPeriods(network: Network, startingNodes: set<string>, directions: string, limit: nat)
    returns (failed: Option<Walked>, periods: seq<int>, ghost names: seq<string>, ghost at: map<string, nat>)
    requires forall l :: l in startingNodes ==> l in network.nodes && EndsWith(l, 'A')
    ensures failed.Some? ==> !failed.value.Arrived? && startingNodes != {}
    ensures failed.None? ==> forall l :: l in startingNodes ==> (
      l in at && 0 <= at[l] < |periods| && periods[at[l]] >= 1 &&
      |directions| > 0 && IsPeriod(network.nodes, directions, l, periods[at[l]]))
    ensures failed.None? ==> |names| == |periods| && (startingNodes == {} ==> periods == [])
    ensures failed.None? ==> forall i :: 0 <= i < |names| ==>
      names[i] in startingNodes && |directions| > 0 && periods[i] >= 0 &&
      IsPeriod(network.nodes, directions, names[i], periods[i])
  {
    var nodes := network.nodes;
    periods := [];
    ghost var done: set<string> := {};
    at := map[];
    names := [];
    var rest := startingNodes;
    while rest != {}
      invariant rest <= startingNodes && done == startingNodes - rest
      invariant |directions| > 0 || done == {}
      invariant forall l :: l in done ==> (
        l in at && 0 <= at[l] < |periods| && periods[at[l]] >= 1 &&
        IsPeriod(nodes, directions, l, periods[at[l]]))
      invariant done == {} ==> periods == []
      invariant |names| == |periods|
      invariant forall i :: 0 <= i < |names| ==>
        names[i] in startingNodes && |directions| > 0 && periods[i] >= 0 &&
        IsPeriod(nodes, directions, names[i], periods[i])
      decreases rest
    {
      Year2023Math.HasElement(rest);
      var startingNode :| startingNode in rest;
      var period := Period(network, startingNode, directions, limit);
      if !period.Arrived? {
        return Some(period), periods, names, at;
      }
      at := at[startingNode := |periods|];
      periods := periods + [period.steps];
      names := names + [startingNode];
      done := done + {startingNode};
      rest := rest - {startingNode};
    }
    failed := None;
  }

  /** The least common multiple of the periods found for all starting nodes
      is a multiple of each of their periods and divides every common
      multiple of them. */
  lemma PeriodsLcm(nodes: map<string, Links>, directions: string, startingNodes: set<string>,
                   periods: seq<int>, names: seq<string>, at: map<string, nat>, steps: int)
    requires Year2023Math.IsLcm(periods, steps)
    requires forall name :: name in nodes && EndsWith(name, 'A') ==> name in startingNodes
    requires forall l :: l in startingNodes ==> (
      l in at && 0 <= at[l] < |periods| && periods[at[l]] >= 1 &&
      |directions| > 0 && IsPeriod(nodes, directions, l, periods[at[l]]))
    requires |names| == |periods|
    requires forall i :: 0 <= i < |names| ==>
      names[i] in nodes && EndsWith(names[i], 'A') && |directions| > 0 && periods[i] >= 0 &&
      IsPeriod(nodes, directions, names[i], periods[i])
    ensures steps >= 1
    ensures forall name :: name in nodes && EndsWith(name, 'A') ==>
      exists p: nat :: |directions| > 0 && IsPeriod(nodes, directions, name, p) && Year2023Math.Divides(p, steps)
    ensures forall m :: CommonPeriodMultiple(nodes, directions, m) ==> Year2023Math.Divides(steps, m)
  {
    forall name | name in nodes && EndsWith(name, 'A')
      ensures exists p: nat :: |directions| > 0 && IsPeriod(nodes, directions, name, p) && Year2023Math.Divides(p, steps)
    {
      var p: nat := periods[at[name]];
      assert Year2023Math.Divides(p, steps);
    }
    forall m | CommonPeriodMultiple(nodes, directions, m)
      ensures Year2023Math.Divides(steps, m)
    {
      forall i | 0 <= i < |periods| && periods[i] >= 1
        ensures Year2023Math.Divides(periods[i], m)
      {
        assert names[i] in nodes;
      }
      assert Year2023Math.CommonMultiple(periods, m);
    }
  }
}
