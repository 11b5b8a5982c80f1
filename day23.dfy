/**
 * Day 23 of 2024, "LAN Party": computers joined by undirected connections.
 * Part 1 counts the groups of three mutually connected computers with one
 * whose name starts with `t`; part 2 finds the largest group in which every
 * computer is connected to every other one (a clique) and joins its names,
 * in order, with commas.
 */
module Day23 {
  import opened Wrappers
  import opened Text

  type Node = string
  type Connection = (Node, Node)

  /** `NodeMap`: each computer and the computers it is connected to. */
  type NodeMap = map<Node, set<Node>>

  type Triple = (Node, Node, Node)

  /*------------------------------------------------------------------------
    Parsing
  ------------------------------------------------------------------------*/

  /** `git_or_insert`: the interned name, with the name set grown by at most that one name. */
  method GetOrInsert(nodes: set<Node>, name: string) returns (node: Node, after: set<Node>)
    ensures node == name && node in after
    ensures after == nodes + {name}
    ensures name in nodes ==> after == nodes
    ensures |after| <= |nodes| + 1
  {
    if name in nodes {
      node, after := name, nodes;
    } else {
      node, after := name, nodes + {name};
    }
  }

  /** One line "a-b": the first two pieces split at '-'; None when there is no
      second piece (an `unwrap` panic). */
  function ParseLine(line: string): (r: Option<Connection>)
    ensures r.Some? <==> |Split(line, '-')| >= 2
  {
    var parts := Split(line, '-');
    if |parts| < 2 then None else Some((parts[0], parts[1]))
  }

  /** Two names without '-' written "a-b" parse back to the pair. */
  lemma ParseLineRoundTrip(a: string, b: string)
    requires '-' !in a && '-' !in b
    ensures ParseLine(a + "-" + b) == Some((a, b))
  {
    assert forall i :: 0 <= i < |[a, b]| ==> '-' !in [a, b][i];
    SplitJoin([a, b], '-');
    assert Join([a, b], "-") == a + "-" + b;
  }

  /** The connections of all lines, or None when one of them does not parse. */
  function ParseConnections(lines: seq<string>): (r: Option<seq<Connection>>)
    ensures r.Some? ==> |r.value| == |lines|
  {
    if lines == [] then Some([])
    else
      match (ParseConnections(lines[..|lines| - 1]), ParseLine(lines[|lines| - 1]))
      case (Some(cs), Some(c)) => Some(cs + [c])
      case _ => None
  }

  /** Every computer named in the connections. */
  function NodesOf(conns: seq<Connection>): set<Node> {
    if conns == [] then {}
    else
      var c := conns[|conns| - 1];
      NodesOf(conns[..|conns| - 1]) + {c.0, c.1}
  }

  /** `parse_input_file`: the set of interned names and the connections, line by line. */
  method ParseInput(text: string) returns (r: Option<(set<Node>, seq<Connection>)>)
    ensures r.Some? <==> ParseConnections(Lines(text)).Some?
    ensures r.Some? ==> r.value.1 == ParseConnections(Lines(text)).value
    ensures r.Some? ==> r.value.0 == NodesOf(r.value.1)
  {
    var lines := Lines(text);
    var nodes: set<Node> := {};
    var connections: seq<Connection> := [];
    for i := 0 to |lines|
      invariant ParseConnections(lines[..i]) == Some(connections)
      invariant nodes == NodesOf(connections)
    {
      match ParseLine(lines[i]) {
        case None =>
          assert ParseConnections(lines[..i + 1]).None? by {
            assert lines[..i + 1][..i] == lines[..i];
            assert lines[..i + 1][i] == lines[i];
          }
          NoneStaysNone(lines, i + 1);
          assert lines[..|lines|] == lines;
          return None;
        case Some(c) =>
          assert ParseConnections(lines[..i + 1]) == Some(connections + [c]) by {
            assert lines[..i + 1][..i] == lines[..i];
            assert lines[..i + 1][i] == lines[i];
          }
          assert NodesOf(connections + [c]) == NodesOf(connections) + {c.0, c.1} by {
            assert (connections + [c])[..|connections|] == connections;
          }
          var n1, n2;
          n1, nodes := GetOrInsert(nodes, c.0);
          n2, nodes := GetOrInsert(nodes, c.1);
          connections := connections + [(n1, n2)];
      }
    }
    assert lines[..|lines|] == lines;
    return Some((nodes, connections));
  }

  /** Once a line fails to parse, the whole input fails. */
  lemma {:induction false} NoneStaysNone(lines: seq<string>, k: nat)
    requires 0 < k <= |lines|
    requires ParseConnections(lines[..k]).None?
    ensures ParseConnections(lines).None?
    decreases |lines| - k
  {
    if k < |lines| {
      assert lines[..k + 1][..k] == lines[..k];
      NoneStaysNone(lines, k + 1);
    } else {
      assert lines[..k] == lines;
    }
  }

  /*------------------------------------------------------------------------
    Build Node Graph
  ------------------------------------------------------------------------*/

  /** `node_map.entry(a).or_default().insert(b)`. */
  function Connect(m: NodeMap, a: Node, b: Node): NodeMap {
    m[a := (if a in m then m[a] else {}) + {b}]
  }

  /** The node map after the connections, one after the other. */
  function Graph(conns: seq<Connection>): NodeMap {
    if conns == [] then map[]
    else
      var c := conns[|conns| - 1];
      Connect(Connect(Graph(conns[..|conns| - 1]), c.0, c.1), c.1, c.0)
  }

  /** `build_node_graph`: the map built connection by connection. */
  method BuildNodeGraph(conns: seq<Connection>) returns (m: NodeMap)
    ensures m == Graph(conns)
    ensures Symmetric(m)
    ensures m.Keys == NodesOf(conns)
  {
    m := map[];
    for i := 0 to |conns|
      invariant m == Graph(conns[..i])
    {
      assert conns[..i + 1][..i] == conns[..i];
      var (n1, n2) := conns[i];
      m := m[n1 := (if n1 in m then m[n1] else {}) + {n2}];
      m := m[n2 := (if n2 in m then m[n2] else {}) + {n1}];
    }
    assert conns[..|conns|] == conns;
    GraphSymmetric(conns);
    GraphKeys(conns);
  }

  /** `a` and `b` are named together in one of the connections, in either order. */
  ghost predicate Joined(conns: seq<Connection>, a: Node, b: Node) {
    exists i :: 0 <= i < |conns| && (conns[i] == (a, b) || conns[i] == (b, a))
  }

  /** `b` is among the computers the map lists for `a`. */
  predicate Adjacent(m: NodeMap, a: Node, b: Node) {
    a in m && b in m[a]
  }

  /** Every listed neighbour is itself a key, and lists its neighbour back. */
  ghost predicate Symmetric(m: NodeMap) {
    forall a, b :: Adjacent(m, a, b) ==> Adjacent(m, b, a)
  }

  /** The map lists `b` for `a` exactly when a connection joins them. */
  lemma {:induction false} GraphAdjacent(conns: seq<Connection>, a: Node, b: Node)
    ensures Adjacent(Graph(conns), a, b) <==> Joined(conns, a, b)
  {
    if conns != [] {
      var init := conns[..|conns| - 1];
      var c := conns[|conns| - 1];
      GraphAdjacent(init, a, b);
      assert Joined(conns, a, b) <==> Joined(init, a, b) || c == (a, b) || c == (b, a) by {
        if Joined(init, a, b) {
          var i :| 0 <= i < |init| && (init[i] == (a, b) || init[i] == (b, a));
          assert conns[i] == init[i];
        }
        if Joined(conns, a, b) {
          var i :| 0 <= i < |conns| && (conns[i] == (a, b) || conns[i] == (b, a));
          if i < |init| {
            assert init[i] == conns[i];
          }
        }
        if c == (a, b) || c == (b, a) {
          assert conns[|conns| - 1] == c;
        }
      }
    }
  }

  /** The map is symmetric: `b` is listed for `a` exactly when `a` is listed for `b`. */
  lemma GraphSymmetric(conns: seq<Connection>)
    ensures Symmetric(Graph(conns))
  {
    forall a, b | Adjacent(Graph(conns), a, b)
      ensures Adjacent(Graph(conns), b, a)
    {
      GraphAdjacent(conns, a, b);
      GraphAdjacent(conns, b, a);
    }
  }

  /** The keys of the map are exactly the computers named in the connections. */
  lemma {:induction false} GraphKeys(conns: seq<Connection>)
    ensures Graph(conns).Keys == NodesOf(conns)
  {
    if conns != [] {
      GraphKeys(conns[..|conns| - 1]);
    }
  }

  /*------------------------------------------------------------------------
    Sets of Three Mutually Connected Nodes
  ------------------------------------------------------------------------*/

  /** `a` comes no later than `b` in Rust's string order. */
  predicate NoLater(a: string, b: string) {
    !StrLess(b, a)
  }

  predicate Ordered(t: Triple) {
    NoLater(t.0, t.1) && NoLater(t.1, t.2)
  }

  /** `[a, b, c].sort()`: the three names in order, as one of their six arrangements. */
  function Sort3(a: Node, b: Node, c: Node): (t: Triple)
    ensures Ordered(t)
    ensures t in {(a, b, c), (a, c, b), (b, a, c), (b, c, a), (c, a, b), (c, b, a)}
  {
    StrLessTotal(a, b);
    var (x, y) := if StrLess(b, a) then (b, a) else (a, b);
    StrLessTotal(c, x);
    StrLessTotal(c, y);
    if StrLess(c, x) then
      assert !StrLess(y, c) by {
        if StrLess(y, c) {
          StrLessTransitive(y, c, x);
          StrLessTotal(x, y);
        }
      }
      (c, x, y)
    else if StrLess(c, y) then (x, c, y)
    else (x, y, c)
  }

  /** Sorting names already in order leaves them where they are. */
  lemma Sort3Ordered(t: Triple)
    requires Ordered(t)
    ensures Sort3(t.0, t.1, t.2) == t
  {
    StrLessTotal(t.0, t.1);
    StrLessTotal(t.1, t.2);
    StrLessTotal(t.0, t.2);
    if StrLess(t.2, t.0) {
      if StrLess(t.0, t.1) {
        StrLessTransitive(t.2, t.0, t.1);
      }
    }
  }

  /** All three pairs of the triple are connected. */
  predicate Mutual(m: NodeMap, t: Triple) {
    Adjacent(m, t.0, t.1) && Adjacent(m, t.1, t.2) && Adjacent(m, t.0, t.2)
  }

  /** Every sorted triple the nested loops reach: `n2` a neighbour of `n1`, `n3`
      a neighbour of `n2`, and `n1` a neighbour of `n3`. */
  function Triples(m: NodeMap): set<Triple> {
    set n1, n2, n3 | n1 in m && n2 in m[n1] && n2 in m && n3 in m[n2] && n3 in m && n1 in m[n3]
      :: Sort3(n1, n2, n3)
  }

  /** The triples of a symmetric map are exactly the ordered triples whose three
      names are pairwise connected, so each group of three is reported once. */
  lemma TriplesExactly(m: NodeMap, t: Triple)
    requires Symmetric(m)
    ensures t in Triples(m) <==> Ordered(t) && Mutual(m, t)
  {
    if t in Triples(m) {
      var n1, n2, n3 :| n1 in m && n2 in m[n1] && n2 in m && n3 in m[n2] && n3 in m && n1 in m[n3]
        && t == Sort3(n1, n2, n3);
      assert Adjacent(m, n1, n2) && Adjacent(m, n2, n3) && Adjacent(m, n3, n1);
      assert Adjacent(m, n2, n1) && Adjacent(m, n3, n2) && Adjacent(m, n1, n3);
    }
    if Ordered(t) && Mutual(m, t) {
      Sort3Ordered(t);
      assert Adjacent(m, t.2, t.0);
      assert t == Sort3(t.0, t.1, t.2);
    }
  }

  /** The triples closed by the candidate third names `ends`. */
  function ClosingTriples(m: NodeMap, n1: Node, n2: Node, ends: set<Node>): set<Triple> {
    set n3 | n3 in ends && n3 in m && n1 in m[n3] :: Sort3(n1, n2, n3)
  }

  /** The triples through the second names `mids`. */
  function TriplesVia(m: NodeMap, n1: Node, mids: set<Node>): set<Triple> {
    set n2, n3 | n2 in mids && n2 in m && n3 in m[n2] && n3 in m && n1 in m[n3] :: Sort3(n1, n2, n3)
  }

  /** The triples from the first names `starts`. */
  function TriplesFrom(m: NodeMap, starts: set<Node>): set<Triple> {
    set n1, n2, n3 | n1 in starts && n1 in m && n2 in m[n1] && n2 in m && n3 in m[n2] && n3 in m && n1 in m[n3]
      :: Sort3(n1, n2, n3)
  }

  /** `identify_sets_of_three_connected_nodes`: three nested loops inserting every
      closed triple, sorted, into a set. */
  method IdentifyTriples(m: NodeMap) returns (triples: set<Triple>)
    requires Symmetric(m)
    ensures triples == Triples(m)
  {
    triples := {};
    var starts := m.Keys;
    while starts != {}
      invariant starts <= m.Keys
      invariant triples == TriplesFrom(m, m.Keys - starts)
      decreases |starts|
    {
      var n1 :| n1 in starts;
      var via := TriplesThrough(m, n1);
      FromStep(m, m.Keys - starts, n1);
      assert m.Keys - (starts - {n1}) == (m.Keys - starts) + {n1};
      triples := triples + via;
      starts := starts - {n1};
    }
    assert TriplesFrom(m, m.Keys) == Triples(m);
  }

  /** The loop over the neighbours of `n1`. */
  method TriplesThrough(m: NodeMap, n1: Node) returns (triples: set<Triple>)
    requires Symmetric(m) && n1 in m
    ensures triples == TriplesVia(m, n1, m[n1])
  {
    triples := {};
    var mids := m[n1];
    while mids != {}
      invariant mids <= m[n1]
      invariant triples == TriplesVia(m, n1, m[n1] - mids)
      decreases |mids|
    {
      var n2 :| n2 in mids;
      assert Adjacent(m, n1, n2);
      var closing := TriplesClosing(m, n1, n2);
      ViaStep(m, n1, m[n1] - mids, n2);
      assert m[n1] - (mids - {n2}) == (m[n1] - mids) + {n2};
      triples := triples + closing;
      mids := mids - {n2};
    }
  }

  /** The loop over the neighbours of `n2`. */
  method TriplesClosing(m: NodeMap, n1: Node, n2: Node) returns (triples: set<Triple>)
    requires Symmetric(m) && n2 in m
    ensures triples == ClosingTriples(m, n1, n2, m[n2])
  {
    triples := {};
    var ends := m[n2];
    while ends != {}
      invariant ends <= m[n2]
      invariant triples == ClosingTriples(m, n1, n2, m[n2] - ends)
      decreases |ends|
    {
      var n3 :| n3 in ends;
      assert Adjacent(m, n2, n3);
      ghost var done := m[n2] - ends;
      assert m[n2] - (ends - {n3}) == done + {n3};
      if n1 in m[n3] {
        triples := triples + {Sort3(n1, n2, n3)};
        assert ClosingTriples(m, n1, n2, done + {n3}) == ClosingTriples(m, n1, n2, done) + {Sort3(n1, n2, n3)};
      } else {
        assert ClosingTriples(m, n1, n2, done + {n3}) == ClosingTriples(m, n1, n2, done);
      }
      ends := ends - {n3};
    }
  }

  lemma ViaStep(m: NodeMap, n1: Node, mids: set<Node>, n2: Node)
    requires n2 in m
    ensures TriplesVia(m, n1, mids + {n2}) == TriplesVia(m, n1, mids) + ClosingTriples(m, n1, n2, m[n2])
  {
  }

  lemma FromStep(m: NodeMap, starts: set<Node>, n1: Node)
    requires n1 in m
    ensures TriplesFrom(m, starts + {n1}) == TriplesFrom(m, starts) + TriplesVia(m, n1, m[n1])
  {
  }

  /** Rust's `starts_with("t")` on one of the three names. */
  predicate HasChief(t: Triple) {
    StartsWith(t.0, "t") || StartsWith(t.1, "t") || StartsWith(t.2, "t")
  }

  /** The part 1 count: the triples with a name starting with `t`. */
  function CountChiefTriples(m: NodeMap): (n: nat)
    ensures n <= |Triples(m)|
  {
    var chosen := set t | t in Triples(m) && HasChief(t);
    SubsetCard(chosen, Triples(m));
    |chosen|
  }

  /*------------------------------------------------------------------------
    Largest Set of Mutually Connected Nodes
  ------------------------------------------------------------------------*/

  /** The names in a network. */
  function Members(ws: seq<Node>): set<Node> {
    set w | w in ws
  }

  /** Every member is a computer of the map, and every two members are connected. */
  ghost predicate Clique(m: NodeMap, s: set<Node>) {
    (forall a :: a in s ==> a in m) &&
    (forall a, b :: a in s && b in s && a != b ==> Adjacent(m, a, b))
  }

  /** `x` is connected to every member of `s` and can join it. */
  predicate Extends(m: NodeMap, s: set<Node>, x: Node) {
    x in m && x !in s && s <= m[x]
  }

  /** A network on the stack: sorted names, its name set, holding the start, a clique. */
  ghost predicate Entry(m: NodeMap, start: Node, e: (seq<Node>, set<Node>)) {
    Ascending(e.0) && Members(e.0) == e.1 && start in e.1 && Clique(m, e.1)
  }

  /** The networks on the stack. */
  function Tops(stack: seq<(seq<Node>, set<Node>)>): set<seq<Node>> {
    if stack == [] then {} else Tops(stack[..|stack| - 1]) + {stack[|stack| - 1].0}
  }

  /** Every sorted clique of one or more computers. */
  ghost predicate Explored(m: NodeMap, networks: set<seq<Node>>) {
    forall n :: n in networks ==> Ascending(n) && Clique(m, Members(n))
  }

  /** Every possible name set of computers: a finite universe for termination. */
  ghost function Groups(m: NodeMap): set<set<Node>> {
    set s: set<Node> | s <= m.Keys
  }

  ghost function MemberSets(networks: set<seq<Node>>): set<set<Node>> {
    set n | n in networks :: Members(n)
  }

  /** `find_largest_network`: a depth-first search from every computer over
      growing cliques, skipping networks already seen, keeping the longest. The
      result is a sorted clique, and no clique is larger. */
  method FindLargestNetwork(m: NodeMap) returns (largest: seq<Node>)
    requires Symmetric(m)
    ensures Ascending(largest) && Clique(m, Members(largest))
    ensures forall s :: Clique(m, s) ==> |s| <= |largest|
  {
    var networks: set<seq<Node>> := {};
    largest := [];
    var starts := m.Keys;
    while starts != {}
      invariant starts <= m.Keys
      invariant Explored(m, networks)
      invariant Longest(m, networks, largest)
      invariant forall s :: s in m && s !in starts ==> [s] in networks
      invariant Closed(m, networks, {})
      decreases |starts|
    {
      var start :| start in starts;
      networks, largest := SearchFrom(m, start, networks, largest);
      starts := starts - {start};
    }
    forall s | Clique(m, s)
      ensures |s| <= |largest|
    {
      if s != {} {
        var n := CliqueExplored(m, networks, s);
        AscendingCard(n);
      }
    }
  }

  /** Every extension of a seen network is seen or still waiting in `pending`. */
  ghost predicate Closed(m: NodeMap, networks: set<seq<Node>>, pending: set<seq<Node>>)
    requires Explored(m, networks)
  {
    forall n, x :: n in networks && Extends(m, Members(n), x) ==>
      InsertAscending(n, x) in networks || InsertAscending(n, x) in pending
  }

  /** The search loop for one start: pop a network, skip it if seen, otherwise
      push its extensions, keep it if it is the longest so far, and mark it seen. */
  method SearchFrom(m: NodeMap, start: Node, networks0: set<seq<Node>>, largest0: seq<Node>)
    returns (networks: set<seq<Node>>, largest: seq<Node>)
    requires Symmetric(m) && start in m
    requires Explored(m, networks0) && Closed(m, networks0, {})
    requires Longest(m, networks0, largest0)
    ensures networks0 <= networks && [start] in networks
    ensures Explored(m, networks) && Closed(m, networks, {})
    ensures Longest(m, networks, largest)
  {
    networks, largest := networks0, largest0;
    var connected := m[start];
    var stack: seq<(seq<Node>, set<Node>)> := [([start], {start})];
    assert Members([start]) == {start};
    while stack != []
      invariant networks0 <= networks
      invariant Explored(m, networks) && Closed(m, networks, Tops(stack))
      invariant Entries(m, start, stack)
      invariant [start] in networks || [start] in Tops(stack)
      invariant Longest(m, networks, largest)
      decreases |Groups(m) - MemberSets(networks)|, |stack|
    {
      var (current, currentNodes) := stack[|stack| - 1];
      assert Entry(m, start, stack[|stack| - 1]);
      ghost var rest := stack[..|stack| - 1];
      assert Tops(stack) == Tops(rest) + {current};
      stack := stack[..|stack| - 1];
      if current in networks {
        SkipSeen(m, networks, Tops(stack), current);
        continue;
      }
      var remaining := connected - currentNodes;
      ghost var pending := Tops(stack);
      stack := PushExtensions(m, start, current, currentNodes, remaining, stack);
      ghost var longest := largest;
      if |current| > |largest| {
        largest := current;
      }
      assert Longest(m, networks + {current}, largest) by {
        assert Longest(m, networks, longest);
      }
      MarkSeen(m, start, networks, current, currentNodes, pending, Tops(stack));
      networks := networks + {current};
    }
  }

  /** Every network on the stack is a sorted clique holding the start. */
  ghost predicate Entries(m: NodeMap, start: Node, stack: seq<(seq<Node>, set<Node>)>) {
    forall i :: 0 <= i < |stack| ==> Entry(m, start, stack[i])
  }

  /** `largest` is a sorted clique at least as long as every network seen. */
  ghost predicate Longest(m: NodeMap, networks: set<seq<Node>>, largest: seq<Node>) {
    Ascending(largest) && Clique(m, Members(largest)) && forall n :: n in networks ==> |n| <= |largest|
  }

  /** Popping a network already seen keeps every extension accounted for. */
  lemma SkipSeen(m: NodeMap, networks: set<seq<Node>>, pending: set<seq<Node>>, current: seq<Node>)
    requires Explored(m, networks) && Closed(m, networks, pending + {current})
    requires current in networks
    ensures Closed(m, networks, pending)
  {
  }

  /** Marking a popped network seen, once its extensions are pushed, keeps every
      extension accounted for and leaves fewer name sets unseen. */
  lemma MarkSeen(m: NodeMap, start: Node, networks: set<seq<Node>>, current: seq<Node>,
                 currentNodes: set<Node>, pending: set<seq<Node>>, pushed: set<seq<Node>>)
    requires Symmetric(m) && start in m
    requires Explored(m, networks) && Closed(m, networks, pending + {current})
    requires Entry(m, start, (current, currentNodes)) && current !in networks
    requires pending <= pushed
    requires forall x :: x in m[start] - currentNodes && x in m && currentNodes <= m[x] ==>
      InsertAscending(current, x) in pushed
    ensures Explored(m, networks + {current}) && Closed(m, networks + {current}, pushed)
    ensures |Groups(m) - MemberSets(networks + {current})| < |Groups(m) - MemberSets(networks)|
  {
    var after := networks + {current};
    assert Explored(m, after);
    forall n, x | n in after && Extends(m, Members(n), x)
      ensures InsertAscending(n, x) in after || InsertAscending(n, x) in pushed
    {
      if n == current {
        CandidateConnected(m, start, currentNodes, x);
      } else {
        assert n in networks;
      }
    }
    NewGroup(m, networks, current);
    assert MemberSets(after) == MemberSets(networks) + {currentNodes};
    assert Groups(m) - MemberSets(after) == (Groups(m) - MemberSets(networks)) - {currentNodes};
  }

  /** A clique not yet seen adds a name set not yet seen, of computers of the map. */
  lemma NewGroup(m: NodeMap, networks: set<seq<Node>>, current: seq<Node>)
    requires Explored(m, networks) && current !in networks
    requires Ascending(current) && Clique(m, Members(current))
    ensures Members(current) in Groups(m) && Members(current) !in MemberSets(networks)
  {
    if Members(current) in MemberSets(networks) {
      var n :| n in networks && Members(n) == Members(current);
      assert forall x :: x in n <==> x in current by {
        assert forall x :: x in n <==> x in Members(n);
        assert forall x :: x in current <==> x in Members(current);
      }
      AscendingUnique(n, current);
    }
  }

  /** Joining a clique that holds `start` is the same as being a neighbour of
      `start` outside the clique that is connected to every member. */
  lemma CandidateConnected(m: NodeMap, start: Node, s: set<Node>, x: Node)
    requires Symmetric(m) && start in m && start in s
    ensures Extends(m, s, x) <==> x in m[start] - s && x in m && s <= m[x]
  {
    if Extends(m, s, x) {
      assert Adjacent(m, x, start);
    }
    if x in m[start] - s && x in m && s <= m[x] {
      assert Adjacent(m, start, x);
    }
  }

  /** The inner `for next_node in remaining_nodes` loop: push every remaining
      name connected to the whole current network, with the network it makes. */
  method PushExtensions(m: NodeMap, start: Node, current: seq<Node>, currentNodes: set<Node>,
                        remaining: set<Node>, stack0: seq<(seq<Node>, set<Node>)>)
    returns (stack: seq<(seq<Node>, set<Node>)>)
    requires Symmetric(m) && start in m && remaining <= m[start] - currentNodes
    requires Entry(m, start, (current, currentNodes))
    requires Entries(m, start, stack0)
    ensures Entries(m, start, stack)
    ensures Tops(stack0) <= Tops(stack)
    ensures forall x :: x in remaining && x in m && currentNodes <= m[x] ==> InsertAscending(current, x) in Tops(stack)
  {
    stack := stack0;
    var todo := remaining;
    while todo != {}
      invariant todo <= remaining
      invariant Entries(m, start, stack)
      invariant Tops(stack0) <= Tops(stack)
      invariant forall x :: x in remaining - todo && x in m && currentNodes <= m[x] ==> InsertAscending(current, x) in Tops(stack)
      decreases |todo|
    {
      var next :| next in todo;
      assert Adjacent(m, start, next);
      if |m[next] * currentNodes| == |currentNodes| {
        FullIntersection(m[next], currentNodes);
        var nextNodes := currentNodes + {next};
        var nextNetwork := InsertAscending(current, next);
        assert Members(nextNetwork) == nextNodes;
        ExtendClique(m, currentNodes, next);
        assert Tops(stack + [(nextNetwork, nextNodes)]) == Tops(stack) + {nextNetwork};
        stack := stack + [(nextNetwork, nextNodes)];
      } else {
        FullIntersection(m[next], currentNodes);
      }
      todo := todo - {next};
    }
  }

  /** A clique grown by a computer connected to all its members is a clique. */
  lemma ExtendClique(m: NodeMap, s: set<Node>, x: Node)
    requires Symmetric(m) && Clique(m, s) && x in m && s <= m[x]
    ensures Clique(m, s + {x})
  {
    forall a, b | a in s + {x} && b in s + {x} && a != b
      ensures Adjacent(m, a, b)
    {
      if a == x {
        assert Adjacent(m, x, b);
      } else if b == x {
        assert Adjacent(m, x, a);
      }
    }
  }

  /** The source's test `|A ∩ S| == |S|` says that `S` is contained in `A`. */
  lemma FullIntersection(a: set<Node>, s: set<Node>)
    ensures |a * s| == |s| <==> s <= a
  {
    if !(s <= a) {
      var y :| y in s && y !in a;
      assert a * s <= s - {y};
      SubsetCard(a * s, s - {y});
    } else {
      assert a * s == s;
    }
  }

  lemma {:induction false} SubsetCard<T>(a: set<T>, b: set<T>)
    requires a <= b
    ensures |a| <= |b|
    decreases |b|
  {
    if a != {} {
      var x :| x in a;
      SubsetCard(a - {x}, b - {x});
    }
  }

  /** A strictly ascending list holds as many names as it is long. */
  lemma {:induction false} AscendingCard(ws: seq<Node>)
    requires Ascending(ws)
    ensures |Members(ws)| == |ws|
  {
    if ws != [] {
      var tail := ws[1..];
      AscendingCard(tail);
      assert Members(ws) == Members(tail) + {ws[0]};
      if ws[0] in Members(tail) {
        var j :| 0 <= j < |tail| && tail[j] == ws[0];
        assert StrLess(ws[0], ws[j + 1]);
        StrLessIrreflexive(ws[0]);
        assert false;
      }
    }
  }

  /** When every start was searched, every non-empty clique has been seen, sorted. */
  lemma {:induction false} CliqueExplored(m: NodeMap, networks: set<seq<Node>>, s: set<Node>)
    returns (n: seq<Node>)
    requires Explored(m, networks) && Closed(m, networks, {})
    requires forall x :: x in m ==> [x] in networks
    requires Clique(m, s) && s != {}
    ensures n in networks && Members(n) == s
    decreases |s|
  {
    var x :| x in s;
    if s == {x} {
      n := [x];
      assert Members(n) == {x};
    } else {
      var smaller := s - {x};
      assert Clique(m, smaller);
      var n0 := CliqueExplored(m, networks, smaller);
      assert Extends(m, Members(n0), x) by {
        forall a | a in smaller
          ensures a in m[x]
        {
          assert Adjacent(m, x, a);
        }
      }
      ExtensionExplored(m, networks, n0, x);
      n := InsertAscending(n0, x);
      assert Members(n) == s by {
        assert forall y :: y in n <==> y in n0 || y == x;
        assert forall y :: y in n0 <==> y in Members(n0);
      }
    }
  }

  lemma ExtensionExplored(m: NodeMap, networks: set<seq<Node>>, n: seq<Node>, x: Node)
    requires Explored(m, networks) && Closed(m, networks, {})
    requires n in networks && Extends(m, Members(n), x)
    ensures InsertAscending(n, x) in networks
  {
  }

  /*------------------------------------------------------------------------
    Parts
  ------------------------------------------------------------------------*/

  /** Part 1: the number of triples with a computer whose name starts with `t`. */
  method Part1(text: string) returns (r: Option<nat>)
    ensures r.Some? <==> ParseConnections(Lines(text)).Some?
    ensures r.Some? ==> r.value == CountChiefTriples(Graph(ParseConnections(Lines(text)).value))
  {
    var parsed := ParseInput(text);
    if parsed.None? {
      return None;
    }
    var m := BuildNodeGraph(parsed.value.1);
    var triples := IdentifyTriples(m);
    return Some(|set t | t in triples && HasChief(t)|);
  }

  /** Part 2: the names of a largest clique, in order, joined by commas. */
  method Part2(text: string) returns (r: Option<string>)
    ensures r.Some? <==> ParseConnections(Lines(text)).Some?
    ensures r.Some? ==>
      var m := Graph(ParseConnections(Lines(text)).value);
      exists n :: r.value == Join(n, ",") && Ascending(n) && Clique(m, Members(n)) &&
        forall s :: Clique(m, s) ==> |s| <= |n|
  {
    var parsed := ParseInput(text);
    if parsed.None? {
      return None;
    }
    var m := BuildNodeGraph(parsed.value.1);
    var largest := FindLargestNetwork(m);
    return Some(Join(largest, ","));
  }
}
