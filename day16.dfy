/**
 * 2024 day 16, Reindeer Maze: a reindeer starts on 'S' facing east and may
 * step forward (score 1) or turn 90 degrees in place (score 1000). `race`
 * runs Dijkstra's algorithm over (position, direction) states, remembering
 * every equally good predecessor, then walks those predecessors back from
 * the goal 'E' to collect the tiles lying on some best path.
 *
 * The heap, the `dist` and `prev` hash maps and the tile stack are local
 * variables of `race`; here they are a sequence, two maps and a sequence.
 */
module Day16 {
  import opened Wrappers

  datatype Dir = North | East | South | West

  type Pos = (int, int)

  /** A search state without its score: the key of `dist` and `prev`. */
  type Key = (Pos, Dir)

  datatype State = State(position: Pos, direction: Dir, score: nat)

  /** `Score::MAX`, the value of an absent `dist` entry and the initial best score. */
  const ScoreMax: nat := 0xFFFF_FFFF_FFFF_FFFF

  function Offset(d: Dir): (int, int) {
    match d
    case North => (-1, 0)
    case South => (1, 0)
    case East => (0, 1)
    case West => (0, -1)
  }

  function TurnRight(d: Dir): Dir {
    match d
    case North => East
    case East => South
    case South => West
    case West => North
  }

  function TurnLeft(d: Dir): Dir {
    match d
    case North => West
    case West => South
    case South => East
    case East => North
  }

  function Opposite(d: Dir): Dir {
    TurnRight(TurnRight(d))
  }

  function Shift(p: Pos, d: Dir): Pos {
    (p.0 + Offset(d).0, p.1 + Offset(d).1)
  }

  function KeyOf(s: State): Key {
    (s.position, s.direction)
  }

  predicate WellFormed(grid: seq<seq<char>>) {
    |grid| > 0 && forall r :: 0 <= r < |grid| ==> |grid[r]| == |grid[0]|
  }

  predicate InBounds(grid: seq<seq<char>>, p: Pos)
    requires WellFormed(grid)
  {
    0 <= p.0 < |grid| && 0 <= p.1 < |grid[0]|
  }

  function Cell(grid: seq<seq<char>>, p: Pos): char
    requires WellFormed(grid) && InBounds(grid, p)
  {
    grid[p.0][p.1]
  }

  /** The cell is on the map and is not a wall. */
  predicate Free(grid: seq<seq<char>>, p: Pos)
    requires WellFormed(grid)
  {
    InBounds(grid, p) && Cell(grid, p) != '#'
  }

  /** Every cell of the outer rows and columns is a wall: the maze `race` expects. */
  ghost predicate Bordered(grid: seq<seq<char>>)
    requires WellFormed(grid)
  {
    forall p :: InBounds(grid, p) && (p.0 == 0 || p.0 == |grid| - 1 || p.1 == 0 || p.1 == |grid[0]| - 1) ==> Cell(grid, p) == '#'
  }

  /** In a bordered maze every free cell has all four neighbours on the map,
      so the unwrapped projections of `next_states` never fail there. */
  lemma FreeIsInterior(grid: seq<seq<char>>, p: Pos, d: Dir)
    requires WellFormed(grid) && Bordered(grid) && Free(grid, p)
    ensures InBounds(grid, Shift(p, d))
  {
    assert !(p.0 == 0 || p.0 == |grid| - 1 || p.1 == 0 || p.1 == |grid[0]| - 1);
  }

  /* ---------------------------------------------------------------------------
     Finding the start and the goal
     ------------------------------------------------------------------------- */

  /** Row-major order on map indices: `p` comes before `q`. */
  predicate PosLess(p: Pos, q: Pos) {
    p.0 < q.0 || (p.0 == q.0 && p.1 < q.1)
  }

  /** `Map::find` from cell `(row, column)` on: the first cell in row-major
      order holding `c`. */
  function FindFrom(grid: seq<seq<char>>, c: char, row: nat, column: nat): (r: Option<Pos>)
    requires WellFormed(grid) && column <= |grid[0]|
    ensures r.Some? ==> InBounds(grid, r.value) && Cell(grid, r.value) == c && !PosLess(r.value, (row, column))
    ensures r.Some? ==> forall q :: InBounds(grid, q) && !PosLess(q, (row, column)) && PosLess(q, r.value) ==> Cell(grid, q) != c
    ensures r.None? ==> forall q :: InBounds(grid, q) && !PosLess(q, (row, column)) ==> Cell(grid, q) != c
    decreases |grid| - row, |grid[0]| - column
  {
    if row >= |grid| then None
    else if column == |grid[0]| then FindFrom(grid, c, row + 1, 0)
    else if grid[row][column] == c then Some((row, column))
    else FindFrom(grid, c, row, column + 1)
  }

  function Find(grid: seq<seq<char>>, c: char): Option<Pos>
    requires WellFormed(grid)
  {
    FindFrom(grid, c, 0, 0)
  }

  /* ---------------------------------------------------------------------------
     Moves
     ------------------------------------------------------------------------- */

  /** `direction_is_clear`: the cell ahead in direction `d` is not a wall. */
  predicate DirectionIsClear(grid: seq<seq<char>>, p: Pos, d: Dir)
    requires WellFormed(grid) && InBounds(grid, Shift(p, d))
  {
    Cell(grid, Shift(p, d)) != '#'
  }

  /** The score of a move: 1 to step forward, 1000 to turn. */
  function Cost(from: Key, to: Key): nat {
    if from.1 == to.1 then 1 else 1000
  }

  /** The moves of the puzzle, independently of how `next_states` lists them:
      one step forward, or a quarter turn in place; either way the cell
      ahead in the new direction must not be a wall. */
  predicate IsMove(grid: seq<seq<char>>, from: Key, to: Key)
    requires WellFormed(grid)
  {
    && ((to.1 == from.1 && to.0 == Shift(from.0, from.1))
        || (to.0 == from.0 && (to.1 == TurnRight(from.1) || to.1 == TurnLeft(from.1))))
    && Free(grid, Shift(from.0, to.1))
  }

  /** `State::next_states`: forward, turn right, turn left, each present only
      when its direction is clear. Every listed state is a move with its
      score, and every move is listed. */
  function NextStates(grid: seq<seq<char>>, s: State): (r: seq<Option<State>>)
    requires WellFormed(grid) && forall d :: InBounds(grid, Shift(s.position, d))
    ensures |r| == 3
    ensures forall i :: 0 <= i < 3 && r[i].Some? ==>
              IsMove(grid, KeyOf(s), KeyOf(r[i].value)) && r[i].value.score == s.score + Cost(KeyOf(s), KeyOf(r[i].value))
    ensures forall k :: IsMove(grid, KeyOf(s), k) ==> Some(State(k.0, k.1, s.score + Cost(KeyOf(s), k))) in r
  {
    var p, d := s.position, s.direction;
    assert InBounds(grid, Shift(p, d)) && InBounds(grid, Shift(p, TurnRight(d))) && InBounds(grid, Shift(p, TurnLeft(d)));
    [ if DirectionIsClear(grid, p, d) then Some(State(Shift(p, d), d, s.score + 1)) else None,
      if DirectionIsClear(grid, p, TurnRight(d)) then Some(State(p, TurnRight(d), s.score + 1000)) else None,
      if DirectionIsClear(grid, p, TurnLeft(d)) then Some(State(p, TurnLeft(d), s.score + 1000)) else None ]
  }

  /** `next` lists the successors of `s` as `next_states` does: each listed
      state is a move with its score, and every move is listed. */
  ghost predicate ListsMoves(grid: seq<seq<char>>, s: State, next: seq<Option<State>>)
    requires WellFormed(grid)
  {
    && |next| == 3
    && (forall i :: 0 <= i < 3 && next[i].Some? ==>
          IsMove(grid, KeyOf(s), KeyOf(next[i].value)) && next[i].value.score == s.score + Cost(KeyOf(s), KeyOf(next[i].value)))
    && (forall k :: IsMove(grid, KeyOf(s), k) ==> Some(State(k.0, k.1, s.score + Cost(KeyOf(s), k))) in next)
  }

  /** The at most three keys a move can come from. */
  function Predecessors(k: Key): set<Key> {
    {(Shift(k.0, Opposite(k.1)), k.1), (k.0, TurnLeft(k.1)), (k.0, TurnRight(k.1))}
  }

  lemma MoveFromPredecessor(grid: seq<seq<char>>, from: Key, to: Key)
    requires WellFormed(grid) && IsMove(grid, from, to)
    ensures from in Predecessors(to)
  {
  }

  /** A non-empty sequence of keys, each reached from the one before by a move. */
  ghost predicate IsPath(grid: seq<seq<char>>, keys: seq<Key>)
    requires WellFormed(grid)
  {
    |keys| > 0 && forall i :: 0 < i < |keys| ==> IsMove(grid, keys[i - 1], keys[i])
  }

  /** The score of a path: the costs of its moves added up. */
  function PathCost(keys: seq<Key>): nat {
    if |keys| <= 1 then 0 else PathCost(keys[..|keys| - 1]) + Cost(keys[|keys| - 2], keys[|keys| - 1])
  }

  /** A path from `from` to `to`. */
  ghost predicate PathBetween(grid: seq<seq<char>>, keys: seq<Key>, from: Key, to: Key)
    requires WellFormed(grid)
  {
    IsPath(grid, keys) && keys[0] == from && keys[|keys| - 1] == to
  }

  /** A path from the start facing east to the goal, facing any way. */
  ghost predicate ReachesGoal(grid: seq<seq<char>>, keys: seq<Key>, start: Pos, goal: Pos)
    requires WellFormed(grid)
  {
    IsPath(grid, keys) && keys[0] == (start, East) && keys[|keys| - 1].0 == goal
  }

  /** `best` is at most the score of every path to the goal scoring below
      `Score::MAX`; for `best == Score::MAX` there is no such path. */
  ghost predicate LeastCost(grid: seq<seq<char>>, start: Pos, goal: Pos, best: nat)
    requires WellFormed(grid)
  {
    forall w :: ReachesGoal(grid, w, start, goal) && PathCost(w) < ScoreMax ==> best <= PathCost(w)
  }

  /** A move appended to a path gives a path scoring the move's cost more. */
  lemma PathExtend(grid: seq<seq<char>>, keys: seq<Key>, k: Key)
    requires WellFormed(grid) && IsPath(grid, keys) && IsMove(grid, keys[|keys| - 1], k)
    ensures IsPath(grid, keys + [k]) && (keys + [k])[0] == keys[0]
    ensures PathCost(keys + [k]) == PathCost(keys) + Cost(keys[|keys| - 1], k)
  {
    var longer := keys + [k];
    forall i | 0 < i < |longer|
      ensures IsMove(grid, longer[i - 1], longer[i])
    {
      if i < |keys| {
        assert longer[i - 1] == keys[i - 1] && longer[i] == keys[i];
      }
    }
    assert longer[..|keys|] == keys;
  }

  /** A prefix of a path scores no more than the whole path. */
  lemma {:induction false} PathCostPrefix(keys: seq<Key>, j: nat)
    requires j < |keys|
    ensures PathCost(keys[..j + 1]) <= PathCost(keys)
    decreases |keys|
  {
    if j + 1 < |keys| {
      var init := keys[..|keys| - 1];
      PathCostPrefix(init, j);
      assert init[..j + 1] == keys[..j + 1];
    } else {
      assert keys[..j + 1] == keys;
    }
  }

  /* ---------------------------------------------------------------------------
     The heap
     ------------------------------------------------------------------------- */

  /** `a` leaves the heap before `b`: `State`'s reversed ordering makes the
      max-heap pop the lowest score first, then the greatest position. */
  predicate PopsBefore(a: State, b: State) {
    a.score < b.score || (a.score == b.score && PosLess(b.position, a.position))
  }

  /** `BinaryHeap::pop`: removes a state no other state in the heap pops before. */
  method Pop(heap: seq<State>) returns (s: State, rest: seq<State>)
    requires |heap| > 0
    ensures multiset(heap) == multiset(rest) + multiset{s}
    ensures s in heap && forall t :: t in rest ==> t in heap
    ensures forall t :: t in heap ==> !PopsBefore(t, s)
  {
    var b := 0;
    var i := 1;
    while i < |heap|
      invariant 0 <= b < i <= |heap|
      invariant forall j :: 0 <= j < i ==> !PopsBefore(heap[j], heap[b])
    {
      if PopsBefore(heap[i], heap[b]) {
        b := i;
      }
      i := i + 1;
    }
    s := heap[b];
    rest := heap[..b] + heap[b + 1..];
    assert heap == heap[..b] + [s] + heap[b + 1..];
  }

  /* ---------------------------------------------------------------------------
     The search
     ------------------------------------------------------------------------- */

  /** `dist.get(key).unwrap_or(&Score::MAX)`. */
  function Dist(dist: map<Key, nat>, k: Key): nat {
    if k in dist then dist[k] else ScoreMax
  }

  /** What the search keeps true between heap pops:
      - every recorded score is below `Score::MAX` and belongs to a free cell;
      - every state in the heap scores at least its key's recorded score;
      - every recorded predecessor is a move from a key with a recorded score,
        whose score plus the move's cost is at most the key's score. */
  ghost predicate SearchInvariant(grid: seq<seq<char>>, dist: map<Key, nat>, prev: map<Key, set<Key>>, heap: seq<State>)
    requires WellFormed(grid)
  {
    && dist.Keys <= prev.Keys
    && (forall k :: k in dist ==> dist[k] < ScoreMax && Free(grid, k.0))
    && (forall s :: s in heap ==> Dist(dist, KeyOf(s)) <= s.score && Free(grid, s.position))
    && (forall k, p :: k in prev && p in prev[k] ==>
          p in dist && IsMove(grid, p, k) && dist[p] + Cost(p, k) <= Dist(dist, k))
  }

  /** The scores recorded never rise. */
  ghost predicate NoWorse(dist: map<Key, nat>, dist': map<Key, nat>) {
    forall k {:trigger k in dist} :: k in dist ==> k in dist' && dist'[k] <= dist[k]
  }

  /** The scores of the keys in `keys` are the same in `dist'` as in `dist`. */
  ghost predicate Kept(dist: map<Key, nat>, dist': map<Key, nat>, keys: set<Key>) {
    forall p {:trigger p in keys} :: p in keys ==> p in dist && p in dist' && dist'[p] == dist[p]
  }

  /** Every recorded score is the score of a path from `from` to its key. */
  ghost predicate Certified(grid: seq<seq<char>>, dist: map<Key, nat>, walks: map<Key, seq<Key>>, from: Key)
    requires WellFormed(grid)
  {
    forall k {:trigger k in dist} :: k in dist ==>
      k in walks && PathBetween(grid, walks[k], from, k) && PathCost(walks[k]) == dist[k]
  }

  /** The expanded keys are recorded, at most at `level`. */
  ghost predicate Settled(dist: map<Key, nat>, expanded: set<Key>, level: nat) {
    forall p {:trigger p in expanded} :: p in expanded ==> p in dist && dist[p] <= level
  }

  /** Every move out of an expanded key that scores below `Score::MAX` leads
      to a key recorded with at most that score. */
  ghost predicate ExpandedClosed(grid: seq<seq<char>>, dist: map<Key, nat>, expanded: set<Key>)
    requires WellFormed(grid)
  {
    forall p, k {:trigger IsMove(grid, p, k), p in expanded} ::
      p in expanded && p in dist && IsMove(grid, p, k) && dist[p] + Cost(p, k) < ScoreMax ==>
        k in dist && dist[k] <= dist[p] + Cost(p, k)
  }

  /** Every recorded key not yet expanded waits in the heap with its recorded score. */
  ghost predicate Tracked(dist: map<Key, nat>, heap: seq<State>, expanded: set<Key>) {
    forall k {:trigger k in dist} :: k in dist ==> k in expanded || State(k.0, k.1, dist[k]) in heap
  }

  /** Every state in the heap scores at least `level`. */
  ghost predicate Above(heap: seq<State>, level: nat) {
    forall t {:trigger t in heap} :: t in heap ==> t.score >= level
  }

  /** A listed successor scoring below `Score::MAX` is recorded with at most its score. */
  ghost predicate Recorded(dist: map<Key, nat>, next: Option<State>) {
    next.Some? && next.value.score < ScoreMax ==> KeyOf(next.value) in dist && dist[KeyOf(next.value)] <= next.value.score
  }

  /** One successor of the `for next_state` loop of `race`: a strictly better score
      replaces the recorded one and makes `current` the only predecessor; an equal
      score adds `current` as a further predecessor; both push the successor.
      The ghost `walks` follow the recorded scores with paths from `from`. */
  method Relax(ghost grid: seq<seq<char>>, dist: map<Key, nat>, prev: map<Key, set<Key>>, heap: seq<State>,
               ghost walks: map<Key, seq<Key>>, ghost from: Key, ghost expanded: set<Key>,
               current: State, next: State)
    returns (dist': map<Key, nat>, prev': map<Key, set<Key>>, heap': seq<State>, ghost walks': map<Key, seq<Key>>)
    requires WellFormed(grid) && SearchInvariant(grid, dist, prev, heap) && Certified(grid, dist, walks, from)
    requires KeyOf(current) in dist && dist[KeyOf(current)] == current.score && Settled(dist, expanded, current.score)
    requires IsMove(grid, KeyOf(current), KeyOf(next)) && next.score == current.score + Cost(KeyOf(current), KeyOf(next))
    ensures SearchInvariant(grid, dist', prev', heap') && NoWorse(dist, dist') && Certified(grid, dist', walks', from)
    ensures next.score < Dist(dist, KeyOf(next)) ==>
              dist' == dist[KeyOf(next) := next.score] && prev' == prev[KeyOf(next) := {KeyOf(current)}] && heap' == heap + [next]
    ensures next.score == Dist(dist, KeyOf(next)) ==>
              dist' == dist && KeyOf(next) in prev' && prev'[KeyOf(next)] == (if KeyOf(next) in prev then prev[KeyOf(next)] else {}) + {KeyOf(current)}
              && (forall k :: k in prev && k != KeyOf(next) ==> k in prev' && prev'[k] == prev[k]) && heap' == heap + [next]
    ensures next.score > Dist(dist, KeyOf(next)) ==> dist' == dist && prev' == prev && heap' == heap
    ensures Kept(dist, dist', expanded) && Recorded(dist', Some(next))
    ensures Tracked(dist, heap, expanded) ==> Tracked(dist', heap', expanded)
    ensures forall t {:trigger t in heap'} :: t in heap' ==> t in heap || t == next
  {
    var ck, nk := KeyOf(current), KeyOf(next);
    var known := if nk in dist then dist[nk] else ScoreMax;
    walks' := walks;
    if next.score < known {
      dist' := dist[nk := next.score];
      prev' := prev[nk := {ck}];
      heap' := heap + [next];
      walks' := walks[nk := walks[ck] + [nk]];
      Improved(grid, dist, prev, heap, current, next);
      ImprovedCertified(grid, dist, heap, walks, from, expanded, current, next);
    } else if next.score == known {
      dist' := dist;
      var preds := if nk in prev then prev[nk] else {};
      prev' := prev[nk := preds + {ck}];
      heap' := heap + [next];
      Tied(grid, dist, prev, heap, current, next);
    } else {
      dist', prev', heap' := dist, prev, heap;
    }
  }

  /** A strictly better score for the successor's key, with `current` as its
      only predecessor, keeps the search invariant. */
  lemma Improved(grid: seq<seq<char>>, dist: map<Key, nat>, prev: map<Key, set<Key>>, heap: seq<State>,
                 current: State, next: State)
    requires WellFormed(grid) && SearchInvariant(grid, dist, prev, heap)
    requires KeyOf(current) in dist && dist[KeyOf(current)] == current.score
    requires IsMove(grid, KeyOf(current), KeyOf(next)) && next.score == current.score + Cost(KeyOf(current), KeyOf(next))
    requires next.score < Dist(dist, KeyOf(next))
    ensures var nk := KeyOf(next);
      SearchInvariant(grid, dist[nk := next.score], prev[nk := {KeyOf(current)}], heap + [next])
  {
    var ck, nk := KeyOf(current), KeyOf(next);
    var dist', prev' := dist[nk := next.score], prev[nk := {ck}];
    forall k, p | k in prev' && p in prev'[k]
      ensures p in dist' && IsMove(grid, p, k) && dist'[p] + Cost(p, k) <= Dist(dist', k)
    {
      if k != nk {
        assert p in prev[k];
      }
    }
  }

  /** The path to `current` extended by the move certifies the successor's
      better score; the expanded keys, which score at most `current`, keep
      their scores; the successor waits in the heap with its new score. */
  lemma ImprovedCertified(grid: seq<seq<char>>, dist: map<Key, nat>, heap: seq<State>,
                          walks: map<Key, seq<Key>>, from: Key, expanded: set<Key>, current: State, next: State)
    requires WellFormed(grid) && Certified(grid, dist, walks, from)
    requires KeyOf(current) in dist && dist[KeyOf(current)] == current.score && Settled(dist, expanded, current.score)
    requires IsMove(grid, KeyOf(current), KeyOf(next)) && next.score == current.score + Cost(KeyOf(current), KeyOf(next))
    requires next.score < Dist(dist, KeyOf(next))
    ensures var nk := KeyOf(next);
      && Certified(grid, dist[nk := next.score], walks[nk := walks[KeyOf(current)] + [nk]], from)
      && Kept(dist, dist[nk := next.score], expanded)
      && (Tracked(dist, heap, expanded) ==> Tracked(dist[nk := next.score], heap + [next], expanded))
  {
    var ck, nk := KeyOf(current), KeyOf(next);
    PathExtend(grid, walks[ck], nk);
    assert nk !in expanded;
  }

  /** An equal score for the successor's key adds `current` to its
      predecessors and keeps the search invariant. */
  lemma Tied(grid: seq<seq<char>>, dist: map<Key, nat>, prev: map<Key, set<Key>>, heap: seq<State>,
             current: State, next: State)
    requires WellFormed(grid) && SearchInvariant(grid, dist, prev, heap)
    requires KeyOf(current) in dist && dist[KeyOf(current)] == current.score
    requires IsMove(grid, KeyOf(current), KeyOf(next)) && next.score == current.score + Cost(KeyOf(current), KeyOf(next))
    requires next.score == Dist(dist, KeyOf(next))
    ensures var nk := KeyOf(next);
      SearchInvariant(grid, dist, prev[nk := (if nk in prev then prev[nk] else {}) + {KeyOf(current)}], heap + [next])
  {
    var ck, nk := KeyOf(current), KeyOf(next);
    var prev' := prev[nk := (if nk in prev then prev[nk] else {}) + {ck}];
    forall k, p | k in prev' && p in prev'[k]
      ensures p in dist && IsMove(grid, p, k) && dist[p] + Cost(p, k) <= Dist(dist, k)
    {
      if k != nk || p != ck {
        assert p in prev[k];
      }
    }
  }

  /** One turn of the `for next_state` loop: the `i`-th listed successor, if
      any, is relaxed, and it is recorded afterwards. */
  method RelaxListed(ghost grid: seq<seq<char>>, dist: map<Key, nat>, prev: map<Key, set<Key>>, heap: seq<State>,
                     ghost walks: map<Key, seq<Key>>, ghost from: Key, ghost expanded: set<Key>,
                     current: State, next: seq<Option<State>>, i: nat)
    returns (dist': map<Key, nat>, prev': map<Key, set<Key>>, heap': seq<State>, ghost walks': map<Key, seq<Key>>)
    requires WellFormed(grid) && SearchInvariant(grid, dist, prev, heap) && Certified(grid, dist, walks, from)
    requires KeyOf(current) in dist && dist[KeyOf(current)] == current.score && Settled(dist, expanded, current.score)
    requires ListsMoves(grid, current, next) && i < 3
    ensures SearchInvariant(grid, dist', prev', heap') && NoWorse(dist, dist') && Certified(grid, dist', walks', from)
    ensures Kept(dist, dist', expanded) && Recorded(dist', next[i])
    ensures Tracked(dist, heap, expanded) ==> Tracked(dist', heap', expanded)
    ensures forall t {:trigger t in heap'} :: t in heap' ==> t in heap || t.score > current.score
  {
    dist', prev', heap', walks' := dist, prev, heap, walks;
    if next[i].Some? {
      dist', prev', heap', walks' := Relax(grid, dist, prev, heap, walks, from, expanded, current, next[i].value);
      assert next[i].value.score > current.score;
      assert next[i] == Some(next[i].value);
    }
  }

  /** Successors recorded stay recorded while scores only fall, so with the
      `i`-th one recorded the first `i + 1` are. */
  lemma RecordedKept(dist: map<Key, nat>, dist': map<Key, nat>, next: seq<Option<State>>, i: nat)
    requires NoWorse(dist, dist') && i < |next| && forall j :: 0 <= j < i ==> Recorded(dist, next[j])
    requires Recorded(dist', next[i])
    ensures forall j :: 0 <= j < i + 1 ==> Recorded(dist', next[j])
  {
    forall j | 0 <= j < i + 1
      ensures Recorded(dist', next[j])
    {
      if j < i {
        assert Recorded(dist, next[j]);
      }
    }
  }

  /** The successors of an expanded state, relaxed one after the other. With
      its key counted as expanded, the expanded keys keep their scores and
      every move out of them is recorded. */
  method Expand(grid: seq<seq<char>>, dist: map<Key, nat>, prev: map<Key, set<Key>>, heap: seq<State>,
                ghost walks: map<Key, seq<Key>>, ghost from: Key, ghost expanded: set<Key>, current: State)
    returns (dist': map<Key, nat>, prev': map<Key, set<Key>>, heap': seq<State>, ghost walks': map<Key, seq<Key>>)
    requires WellFormed(grid) && Bordered(grid) && SearchInvariant(grid, dist, prev, heap) && Certified(grid, dist, walks, from)
    requires KeyOf(current) in dist && dist[KeyOf(current)] == current.score && Free(grid, current.position)
    requires Settled(dist, expanded, current.score) && ExpandedClosed(grid, dist, expanded)
    ensures SearchInvariant(grid, dist', prev', heap') && NoWorse(dist, dist') && Certified(grid, dist', walks', from)
    ensures Kept(dist, dist', expanded + {KeyOf(current)}) && ExpandedClosed(grid, dist', expanded + {KeyOf(current)})
    ensures Tracked(dist, heap, expanded + {KeyOf(current)}) ==> Tracked(dist', heap', expanded + {KeyOf(current)})
    ensures forall t {:trigger t in heap'} :: t in heap' ==> t in heap || t.score > current.score
  {
    forall d ensures InBounds(grid, Shift(current.position, d)) {
      FreeIsInterior(grid, current.position, d);
    }
    var next := NextStates(grid, current);
    assert ListsMoves(grid, current, next);
    ghost var done := expanded + {KeyOf(current)};
    SettledAdd(dist, expanded, KeyOf(current), current.score);
    dist', prev', heap', walks' := RelaxAll(grid, dist, prev, heap, walks, from, done, current, next);
    ClosedKept(grid, dist, dist', expanded);
    ExpandCloses(grid, dist', expanded, current, next);
  }

  lemma SettledAdd(dist: map<Key, nat>, expanded: set<Key>, k: Key, level: nat)
    requires Settled(dist, expanded, level) && k in dist && dist[k] <= level
    ensures Settled(dist, expanded + {k}, level) && k in expanded + {k}
  {
  }

  /** The `for next_state` loop of `race` over the three listed successors:
      afterwards every one of them is recorded. */
  method RelaxAll(ghost grid: seq<seq<char>>, dist: map<Key, nat>, prev: map<Key, set<Key>>, heap: seq<State>,
                  ghost walks: map<Key, seq<Key>>, ghost from: Key, ghost expanded: set<Key>,
                  current: State, next: seq<Option<State>>)
    returns (dist': map<Key, nat>, prev': map<Key, set<Key>>, heap': seq<State>, ghost walks': map<Key, seq<Key>>)
    requires WellFormed(grid) && SearchInvariant(grid, dist, prev, heap) && Certified(grid, dist, walks, from)
    requires KeyOf(current) in dist && dist[KeyOf(current)] == current.score && Settled(dist, expanded, current.score)
    requires ListsMoves(grid, current, next) && KeyOf(current) in expanded
    ensures SearchInvariant(grid, dist', prev', heap') && NoWorse(dist, dist') && Certified(grid, dist', walks', from)
    ensures Kept(dist, dist', expanded) && forall j :: 0 <= j < 3 ==> Recorded(dist', next[j])
    ensures Tracked(dist, heap, expanded) ==> Tracked(dist', heap', expanded)
    ensures forall t {:trigger t in heap'} :: t in heap' ==> t in heap || t.score > current.score
  {
    dist', prev', heap', walks' := dist, prev, heap, walks;
    var i := 0;
    while i < 3
      invariant 0 <= i <= 3
      invariant SearchInvariant(grid, dist', prev', heap') && NoWorse(dist, dist') && Certified(grid, dist', walks', from)
      invariant Kept(dist, dist', expanded) && forall j :: 0 <= j < i ==> Recorded(dist', next[j])
      invariant Tracked(dist, heap, expanded) ==> Tracked(dist', heap', expanded)
      invariant forall t {:trigger t in heap'} :: t in heap' ==> t in heap || t.score > current.score
    {
      ghost var before := dist';
      dist', prev', heap', walks' := RelaxListed(grid, dist', prev', heap', walks', from, expanded, current, next, i);
      RecordedKept(before, dist', next, i);
      i := i + 1;
    }
  }

  /** Scores that only fall, with the expanded keys' scores fixed, keep the
      expanded keys closed. */
  lemma ClosedKept(grid: seq<seq<char>>, dist: map<Key, nat>, dist': map<Key, nat>, expanded: set<Key>)
    requires WellFormed(grid) && ExpandedClosed(grid, dist, expanded) && NoWorse(dist, dist') && Kept(dist, dist', expanded)
    ensures ExpandedClosed(grid, dist', expanded)
  {
    forall p, k | p in expanded && p in dist' && IsMove(grid, p, k) && dist'[p] + Cost(p, k) < ScoreMax
      ensures k in dist' && dist'[k] <= dist'[p] + Cost(p, k)
    {
      assert p in dist && dist[p] == dist'[p];
      assert k in dist;
    }
  }

  /** With all its successors recorded, the expanded state's key joins the
      closed keys. */
  lemma ExpandCloses(grid: seq<seq<char>>, dist: map<Key, nat>, expanded: set<Key>, current: State, next: seq<Option<State>>)
    requires WellFormed(grid) && ExpandedClosed(grid, dist, expanded) && ListsMoves(grid, current, next)
    requires KeyOf(current) in dist && dist[KeyOf(current)] == current.score
    requires forall j :: 0 <= j < 3 ==> Recorded(dist, next[j])
    ensures ExpandedClosed(grid, dist, expanded + {KeyOf(current)})
  {
    var ck := KeyOf(current);
    forall k | IsMove(grid, ck, k) && current.score + Cost(ck, k) < ScoreMax
      ensures k in dist && dist[k] <= current.score + Cost(ck, k)
    {
      var s := State(k.0, k.1, current.score + Cost(ck, k));
      assert Some(s) in next;
      var j :| 0 <= j < 3 && next[j] == Some(s);
      assert Recorded(dist, next[j]);
    }
    forall p, k | p in expanded + {ck} && p in dist && IsMove(grid, p, k) && dist[p] + Cost(p, k) < ScoreMax
      ensures k in dist && dist[k] <= dist[p] + Cost(p, k)
    {
      if p != ck {
        assert p in expanded;
      }
    }
  }

  /** After a pop, the key of the popped state counts as expanded for what
      the heap tracks; a popped state that is not its key's recorded entry
      leaves every key tracked as before. */
  lemma PopTracked(dist: map<Key, nat>, heap: seq<State>, rest: seq<State>, current: State, expanded: set<Key>)
    requires Tracked(dist, heap, expanded) && multiset(heap) == multiset(rest) + multiset{current}
    ensures Tracked(dist, rest, expanded + {KeyOf(current)})
    ensures (KeyOf(current) in dist && dist[KeyOf(current)] == current.score) || Tracked(dist, rest, expanded)
  {
    forall k | k in dist && k !in expanded && State(k.0, k.1, dist[k]) != current
      ensures State(k.0, k.1, dist[k]) in rest
    {
      var s := State(k.0, k.1, dist[k]);
      assert s in multiset(heap);
      assert multiset(heap)[s] == multiset(rest)[s];
    }
  }

  /** Along a path from the start whose first `j` keys are expanded, the
      `j`-th key is recorded with at most the score of the path up to it. */
  lemma {:induction false} PrefixRecorded(grid: seq<seq<char>>, dist: map<Key, nat>, expanded: set<Key>, w: seq<Key>, j: nat)
    requires WellFormed(grid) && ExpandedClosed(grid, dist, expanded) && IsPath(grid, w)
    requires w[0] in dist && dist[w[0]] == 0
    requires j < |w| && (forall i :: 0 <= i < j ==> w[i] in expanded) && PathCost(w[..j + 1]) < ScoreMax
    ensures w[j] in dist && dist[w[j]] <= PathCost(w[..j + 1])
    decreases j
  {
    if j > 0 {
      var upTo := w[..j + 1];
      assert upTo[..j] == w[..j];
      PathCostPrefix(upTo, j - 1);
      PrefixRecorded(grid, dist, expanded, w, j - 1);
      assert IsMove(grid, w[j - 1], w[j]);
      assert w[j - 1] in expanded;
    }
  }

  /** Dijkstra's argument: while the start is recorded with 0, the expanded
      keys are closed and none lies on the goal, and the heap tracks every
      recorded key not expanded, every path to the goal scoring below
      `Score::MAX` passes a key waiting in the heap, so the heap is not empty
      and such a path scores at least what every state in the heap scores. */
  lemma GoalBound(grid: seq<seq<char>>, dist: map<Key, nat>, expanded: set<Key>, heap: seq<State>, c: nat,
                  start: Pos, goal: Pos, w: seq<Key>)
    requires WellFormed(grid) && ExpandedClosed(grid, dist, expanded) && Tracked(dist, heap, expanded) && Above(heap, c)
    requires (start, East) in dist && dist[(start, East)] == 0
    requires forall p {:trigger p in expanded} :: p in expanded ==> p.0 != goal
    requires ReachesGoal(grid, w, start, goal) && PathCost(w) < ScoreMax
    ensures heap != [] && c <= PathCost(w)
  {
    var j := 0;
    while w[j] in expanded
      invariant 0 <= j < |w| && forall i :: 0 <= i < j ==> w[i] in expanded
      decreases |w| - j
    {
      assert j != |w| - 1;
      j := j + 1;
    }
    PathCostPrefix(w, j);
    PrefixRecorded(grid, dist, expanded, w, j);
    assert State(w[j].0, w[j].1, dist[w[j]]) in heap;
  }

  /** `GoalBound` for every path to the goal at once. */
  lemma GoalsBound(grid: seq<seq<char>>, dist: map<Key, nat>, expanded: set<Key>, heap: seq<State>, c: nat,
                   start: Pos, goal: Pos)
    requires WellFormed(grid) && ExpandedClosed(grid, dist, expanded) && Tracked(dist, heap, expanded) && Above(heap, c)
    requires (start, East) in dist && dist[(start, East)] == 0
    requires forall p {:trigger p in expanded} :: p in expanded ==> p.0 != goal
    ensures forall w :: ReachesGoal(grid, w, start, goal) && PathCost(w) < ScoreMax ==> heap != [] && c <= PathCost(w)
  {
    forall w | ReachesGoal(grid, w, start, goal) && PathCost(w) < ScoreMax
      ensures heap != [] && c <= PathCost(w)
    {
      GoalBound(grid, dist, expanded, heap, c, start, goal, w);
    }
  }

  /** What the search keeps for the best score, besides `SearchInvariant`:
      recorded scores are certified by paths from the start facing east (which
      is recorded with 0); the heap scores at least `level`; the expanded keys,
      none of them on the goal, are recorded at most at `level` and closed
      under moves; until the goal is popped every recorded key not expanded
      waits in the heap; once it is, `best` is at most `level`, the least score
      of a path to the goal, and `bestWalk` is such a path. */
  ghost predicate Frontier(grid: seq<seq<char>>, start: Pos, goal: Pos, dist: map<Key, nat>, heap: seq<State>,
                           walks: map<Key, seq<Key>>, expanded: set<Key>, level: nat, best: nat, bestWalk: seq<Key>)
    requires WellFormed(grid)
  {
    && Certified(grid, dist, walks, (start, East))
    && (start, East) in dist && dist[(start, East)] == 0
    && Above(heap, level) && Settled(dist, expanded, level) && ExpandedClosed(grid, dist, expanded)
    && (forall p {:trigger p in expanded} :: p in expanded ==> p.0 != goal)
    && best <= ScoreMax && (best == ScoreMax ==> Tracked(dist, heap, expanded))
    && (best < ScoreMax ==>
          best <= level && LeastCost(grid, start, goal, best) && ReachesGoal(grid, bestWalk, start, goal) && PathCost(bestWalk) == best)
  }

  /** What `Pop` promises about `current` and `rest`. */
  ghost predicate Popped(heap: seq<State>, current: State, rest: seq<State>) {
    && multiset(heap) == multiset(rest) + multiset{current}
    && current in heap && (forall t :: t in rest ==> t in heap)
    && (forall t :: t in heap ==> !PopsBefore(t, current))
  }

  /** The heap left by a pop: every state in it, and in the heap before,
      scores at least the popped state, which scores at least `level`. */
  lemma PopAbove(heap: seq<State>, rest: seq<State>, current: State, level: nat)
    requires Above(heap, level) && Popped(heap, current, rest)
    ensures Above(heap, current.score) && Above(rest, current.score) && level <= current.score && Above(rest, level)
  {
  }

  /** A pop keeps the search invariant. */
  lemma PopInvariant(grid: seq<seq<char>>, dist: map<Key, nat>, prev: map<Key, set<Key>>, heap: seq<State>,
                     current: State, rest: seq<State>)
    requires WellFormed(grid) && SearchInvariant(grid, dist, prev, heap) && Popped(heap, current, rest)
    ensures SearchInvariant(grid, dist, prev, rest)
    ensures Dist(dist, KeyOf(current)) <= current.score && Free(grid, current.position)
    ensures KeyOf(current) in dist ==> dist[KeyOf(current)] < ScoreMax
  {
  }

  /** A popped state that is stale, or scores at least the best score, and is
      not a better goal state, is dropped: the frontier is kept. */
  lemma PopSkipped(grid: seq<seq<char>>, start: Pos, goal: Pos, dist: map<Key, nat>, heap: seq<State>,
                   walks: map<Key, seq<Key>>, expanded: set<Key>, level: nat, best: nat, bestWalk: seq<Key>,
                   current: State, rest: seq<State>)
    requires WellFormed(grid) && Frontier(grid, start, goal, dist, heap, walks, expanded, level, best, bestWalk)
    requires Popped(heap, current, rest) && (KeyOf(current) in dist ==> dist[KeyOf(current)] < ScoreMax)
    requires current.score > Dist(dist, KeyOf(current)) || current.score >= best
    ensures Frontier(grid, start, goal, dist, rest, walks, expanded, level, best, bestWalk)
  {
    PopAbove(heap, rest, current, level);
    if best == ScoreMax {
      PopTracked(dist, heap, rest, current, expanded);
    }
  }

  /** The first goal state popped scores the least of every path to the goal,
      and the path certifying its key's score is one such path. */
  lemma PopGoal(grid: seq<seq<char>>, start: Pos, goal: Pos, dist: map<Key, nat>, heap: seq<State>,
                walks: map<Key, seq<Key>>, expanded: set<Key>, level: nat, best: nat, bestWalk: seq<Key>,
                current: State, rest: seq<State>)
    returns (w: seq<Key>)
    requires WellFormed(grid) && Frontier(grid, start, goal, dist, heap, walks, expanded, level, best, bestWalk)
    requires Popped(heap, current, rest) && Dist(dist, KeyOf(current)) <= current.score
    requires current.position == goal && current.score < best
    ensures Frontier(grid, start, goal, dist, rest, walks, expanded, current.score, current.score, w)
  {
    PopAbove(heap, rest, current, level);
    assert best == ScoreMax;
    GoalsBound(grid, dist, expanded, heap, current.score, start, goal);
    var g := KeyOf(current);
    assert g in dist && ReachesGoal(grid, walks[g], start, goal);
    w := walks[g];
  }

  /** A popped state carrying its key's recorded score, below the best score
      and not on the goal, is expanded: what `Expand` needs holds, and its key
      counts as expanded for what the heap tracks. */
  lemma PopExpanded(grid: seq<seq<char>>, start: Pos, goal: Pos, dist: map<Key, nat>, heap: seq<State>,
                    walks: map<Key, seq<Key>>, expanded: set<Key>, level: nat, best: nat, bestWalk: seq<Key>,
                    current: State, rest: seq<State>)
    requires WellFormed(grid) && Frontier(grid, start, goal, dist, heap, walks, expanded, level, best, bestWalk)
    requires Popped(heap, current, rest) && Dist(dist, KeyOf(current)) <= current.score
    requires !(current.position == goal && current.score < best)
    requires current.score <= Dist(dist, KeyOf(current)) && current.score < best
    ensures best == ScoreMax && current.position != goal
    ensures KeyOf(current) in dist && dist[KeyOf(current)] == current.score
    ensures Settled(dist, expanded, current.score) && Above(rest, current.score)
    ensures Tracked(dist, rest, expanded + {KeyOf(current)})
  {
    PopAbove(heap, rest, current, level);
    PopTracked(dist, heap, rest, current, expanded);
  }

  /** After `Expand`, the frontier holds with the state's key expanded and its
      score as the new level. */
  lemma ExpandedFrontier(grid: seq<seq<char>>, start: Pos, goal: Pos, dist: map<Key, nat>, dist': map<Key, nat>,
                         rest: seq<State>, heap': seq<State>, walks': map<Key, seq<Key>>, expanded: set<Key>,
                         bestWalk: seq<Key>, current: State)
    requires WellFormed(grid) && (start, East) in dist && dist[(start, East)] == 0
    requires current.position != goal && forall p {:trigger p in expanded} :: p in expanded ==> p.0 != goal
    requires Settled(dist, expanded, current.score) && Above(rest, current.score)
    requires KeyOf(current) in dist && dist[KeyOf(current)] == current.score
    requires NoWorse(dist, dist') && Certified(grid, dist', walks', (start, East))
    requires Kept(dist, dist', expanded + {KeyOf(current)}) && ExpandedClosed(grid, dist', expanded + {KeyOf(current)})
    requires Tracked(dist', heap', expanded + {KeyOf(current)})
    requires forall t {:trigger t in heap'} :: t in heap' ==> t in rest || t.score > current.score
    ensures Frontier(grid, start, goal, dist', heap', walks', expanded + {KeyOf(current)}, current.score, ScoreMax, bestWalk)
  {
    assert (start, East) in dist';
  }

  /** The four goal keys the tile walk starts from. */
  function GoalKeys(goal: Pos): set<Key> {
    {(goal, North), (goal, South), (goal, East), (goal, West)}
  }

  /** The Dijkstra loop of `race`, stopped after `fuel` pops (None): the heap
      of the source eventually empties, which the model does not prove. The
      best score is the least score of a path from the start facing east to
      the goal, `bestWalk` being one such path, and `Score::MAX` when no path
      scores less. */
  method Search(grid: seq<seq<char>>, start: Pos, goal: Pos, fuel: nat)
    returns (r: Option<(nat, map<Key, nat>, map<Key, set<Key>>)>, ghost bestWalk: seq<Key>)
    requires WellFormed(grid) && Bordered(grid) && Free(grid, start)
    ensures r.Some? ==> var (best, dist, prev) := r.value;
      && SearchInvariant(grid, dist, prev, [])
      && (start, East) in dist && dist[(start, East)] == 0
      && best <= ScoreMax && LeastCost(grid, start, goal, best)
      && (best < ScoreMax ==> ReachesGoal(grid, bestWalk, start, goal) && PathCost(bestWalk) == best)
  {
    var dist: map<Key, nat> := map[(start, East) := 0];
    var prev: map<Key, set<Key>> := map[(start, East) := {}];
    var heap := [State(start, East, 0)];
    var best: nat := ScoreMax;
    ghost var walks := map[(start, East) := [(start, East)]];
    ghost var expanded: set<Key> := {};
    ghost var level := 0;
    bestWalk := [];
    var steps := fuel;
    while heap != []
      invariant SearchInvariant(grid, dist, prev, heap)
      invariant Frontier(grid, start, goal, dist, heap, walks, expanded, level, best, bestWalk)
      decreases steps
    {
      if steps == 0 {
        return None, bestWalk;
      }
      steps := steps - 1;
      var current, rest := Pop(heap);
      ghost var before := heap;
      assert Popped(before, current, rest);
      PopInvariant(grid, dist, prev, before, current, rest);
      heap := rest;
      var tileScore := Dist(dist, KeyOf(current));
      if current.position == goal && current.score < best {
        bestWalk := PopGoal(grid, start, goal, dist, before, walks, expanded, level, best, bestWalk, current, rest);
        level := current.score;
        best := current.score;
        continue;
      }
      if current.score > tileScore || current.score >= best {
        PopSkipped(grid, start, goal, dist, before, walks, expanded, level, best, bestWalk, current, rest);
        continue;
      }
      PopExpanded(grid, start, goal, dist, before, walks, expanded, level, best, bestWalk, current, rest);
      ghost var dist0 := dist;
      dist, prev, heap, walks := Expand(grid, dist, prev, heap, walks, (start, East), expanded, current);
      ExpandedFrontier(grid, start, goal, dist0, dist, rest, heap, walks, expanded, bestWalk, current);
      expanded := expanded + {KeyOf(current)};
      level := current.score;
    }
    if best == ScoreMax {
      GoalsBound(grid, dist, expanded, heap, best, start, goal);
    }
    r := Some((best, dist, prev));
  }

  /* ---------------------------------------------------------------------------
     Collecting the tiles of the best paths
     ------------------------------------------------------------------------- */

  /** Every key of `w` that has a predecessor set has all its predecessors in `w`. */
  ghost predicate ClosedUnder(prev: map<Key, set<Key>>, w: set<Key>) {
    forall k, p :: k in w && k in prev && p in prev[k] ==> p in w
  }

  /** `w` holds every goal key that has a predecessor set. */
  ghost predicate HoldsGoals(prev: map<Key, set<Key>>, goal: Pos, w: set<Key>) {
    forall g :: g in GoalKeys(goal) && g in prev ==> g in w
  }

  ghost function Pow4(n: nat): (r: nat)
    ensures r >= 1
  {
    if n == 0 then 1 else 4 * Pow4(n - 1)
  }

  lemma {:induction false} Pow4Monotone(m: nat, n: nat)
    requires m <= n
    ensures Pow4(m) <= Pow4(n)
    decreases n
  {
    if m < n {
      Pow4Monotone(m, n - 1);
    }
  }

  /** A key weighs four to the power of its score: its at most three
      predecessors, each scoring less, weigh less together. */
  ghost function Weight(dist: map<Key, nat>, k: Key): nat {
    Pow4(Dist(dist, k))
  }

  ghost function StackWeight(dist: map<Key, nat>, stack: seq<Key>): nat {
    if stack == [] then 0 else StackWeight(dist, stack[..|stack| - 1]) + Weight(dist, stack[|stack| - 1])
  }

  lemma {:induction false} SubsetCardinality<T>(a: set<T>, b: set<T>)
    requires a <= b
    ensures |a| <= |b|
    decreases |a|
  {
    if a != {} {
      var x :| x in a;
      SubsetCardinality(a - {x}, b - {x});
    }
  }

  /** The `for prev in prevs` loop: pushes every element of the set, in some order. */
  method PushAll(ghost dist: map<Key, nat>, stack: seq<Key>, prevs: set<Key>, ghost bound: nat) returns (stack': seq<Key>)
    requires forall p :: p in prevs ==> Weight(dist, p) <= bound
    ensures forall s :: s in stack' <==> s in stack || s in prevs
    ensures StackWeight(dist, stack') <= StackWeight(dist, stack) + bound * |prevs|
  {
    stack' := stack;
    var todo := prevs;
    while todo != {}
      invariant todo <= prevs && |todo| <= |prevs|
      invariant forall s :: s in stack' <==> s in stack || s in prevs - todo
      invariant StackWeight(dist, stack') <= StackWeight(dist, stack) + bound * (|prevs| - |todo|)
      decreases todo
    {
      var p :| p in todo;
      assert (stack' + [p])[..|stack'|] == stack';
      MulSucc(bound, |prevs| - |todo|);
      stack' := stack' + [p];
      todo := todo - {p};
    }
  }

  lemma MulSucc(c: int, n: nat)
    ensures c * (n + 1) == c * n + c
  {
  }

  /** The stack weighs less after a pop that pushes at most three keys of
      lower score. */
  lemma PopLighter(base: nat, after: nat, bound: nat, n: nat, d: nat)
    requires n <= 3 && after <= base + bound * n
    requires bound == if d == 0 then 0 else Pow4(d - 1)
    ensures after < base + Pow4(d)
  {
    assert bound * n <= bound * 3;
    if d > 0 {
      assert Pow4(d) == 4 * bound;
    }
  }

  /** Every predecessor has a predecessor set of its own. */
  ghost predicate PrevClosed(prev: map<Key, set<Key>>) {
    forall k, p :: k in prev && p in prev[k] ==> p in prev
  }

  /** What the tile walk keeps: the keys visited have predecessor sets; the
      predecessors of visited keys and the goal keys with predecessor sets are
      visited or still on the stack; and every set holding the goal keys and
      closed under predecessors holds the keys visited and those stacked. */
  ghost predicate WalkInvariant(prev: map<Key, set<Key>>, goal: Pos, stack: seq<Key>, visited: set<Key>) {
    && visited <= prev.Keys
    && (forall k, p :: k in visited && p in prev[k] ==> p in visited || p in stack)
    && (forall g :: g in GoalKeys(goal) && g in prev ==> g in visited || g in stack)
    && (forall w :: HoldsGoals(prev, goal, w) && ClosedUnder(prev, w) ==>
          visited <= w && forall s :: s in stack && s in prev ==> s in w)
  }

  lemma WalkStart(prev: map<Key, set<Key>>, goal: Pos)
    ensures WalkInvariant(prev, goal, [(goal, North), (goal, South), (goal, East), (goal, West)], {})
  {
  }

  lemma WalkStep(prev: map<Key, set<Key>>, goal: Pos, stack: seq<Key>, visited: set<Key>,
                 current: Key, rest: seq<Key>, stack': seq<Key>)
    requires PrevClosed(prev) && WalkInvariant(prev, goal, stack, visited) && stack == rest + [current]
    requires current in prev ==> forall s :: s in stack' <==> s in rest || s in prev[current]
    requires current !in prev ==> stack' == rest
    ensures WalkInvariant(prev, goal, stack', if current in prev then visited + {current} else visited)
  {
    assert forall s :: s in stack <==> s in rest || s == current;
  }

  lemma WalkEnd(prev: map<Key, set<Key>>, goal: Pos, visited: set<Key>)
    requires WalkInvariant(prev, goal, [], visited)
    ensures HoldsGoals(prev, goal, visited) && ClosedUnder(prev, visited)
    ensures forall w :: HoldsGoals(prev, goal, w) && ClosedUnder(prev, w) ==> visited <= w
  {
  }

  /** A popped key with a predecessor set: its predecessors are pushed, and the
      stack weighs less than before the pop. */
  method PushPredecessors(ghost grid: seq<seq<char>>, dist: map<Key, nat>, prev: map<Key, set<Key>>,
                          rest: seq<Key>, current: Key)
    returns (stack: seq<Key>)
    requires WellFormed(grid) && SearchInvariant(grid, dist, prev, []) && current in prev
    ensures forall s :: s in stack <==> s in rest || s in prev[current]
    ensures StackWeight(dist, stack) < StackWeight(dist, rest) + Weight(dist, current)
  {
    var prevs := prev[current];
    ghost var d := Dist(dist, current);
    ghost var bound := if d == 0 then 0 else Pow4(d - 1);
    forall p | p in prevs
      ensures p in Predecessors(current) && Weight(dist, p) <= bound
    {
      MoveFromPredecessor(grid, p, current);
      Pow4Monotone(dist[p], d - 1);
    }
    SubsetCardinality(prevs, Predecessors(current));
    stack := PushAll(dist, rest, prevs, bound);
    PopLighter(StackWeight(dist, rest), StackWeight(dist, stack), bound, |prevs|, d);
  }

  /** The tile walk of `race`: pops keys from a stack seeded with the four goal
      keys; a key with a predecessor set marks its tile and pushes its
      predecessors. The keys marked are exactly the least set holding the goal
      keys and closed under predecessors, and the tiles are their positions.
      The walk ends because predecessors score strictly less. */
  method Tiles(ghost grid: seq<seq<char>>, dist: map<Key, nat>, prev: map<Key, set<Key>>, goal: Pos)
    returns (tiles: set<Pos>, ghost visited: set<Key>)
    requires WellFormed(grid) && SearchInvariant(grid, dist, prev, [])
    ensures visited <= prev.Keys && HoldsGoals(prev, goal, visited) && ClosedUnder(prev, visited)
    ensures forall w :: HoldsGoals(prev, goal, w) && ClosedUnder(prev, w) ==> visited <= w
    ensures tiles == set k | k in visited :: k.0
  {
    assert PrevClosed(prev);
    var stack := [(goal, North), (goal, South), (goal, East), (goal, West)];
    tiles, visited := {}, {};
    WalkStart(prev, goal);
    while stack != []
      invariant WalkInvariant(prev, goal, stack, visited)
      invariant tiles == set k | k in visited :: k.0
      decreases StackWeight(dist, stack)
    {
      var current := stack[|stack| - 1];
      var rest := stack[..|stack| - 1];
      assert stack == rest + [current];
      assert StackWeight(dist, stack) == StackWeight(dist, rest) + Weight(dist, current);
      ghost var before := stack;
      stack := rest;
      if current in prev {
        tiles := tiles + {current.0};
        stack := PushPredecessors(grid, dist, prev, rest, current);
      }
      WalkStep(prev, goal, before, visited, current, rest, stack);
      if current in prev {
        visited := visited + {current};
      }
    }
    WalkEnd(prev, goal, visited);
  }

  /** `race`: the best score (`Score::MAX` when the goal is never reached) and
      the number of tiles on the backward closure of the goal's predecessors;
      None when `fuel` pops do not empty the heap. Start and goal are the first
      'S' and 'E' in row-major order. The best score is the least score of a
      path from the start facing east to the goal, `bestWalk` being one. */
  method Race(grid: seq<seq<char>>, fuel: nat)
    returns (r: Option<(nat, nat)>, ghost dist: map<Key, nat>, ghost prev: map<Key, set<Key>>,
             ghost visited: set<Key>, ghost bestWalk: seq<Key>)
    requires WellFormed(grid) && Bordered(grid) && Find(grid, 'S').Some? && Find(grid, 'E').Some?
    ensures r.Some? ==> var start, goal := Find(grid, 'S').value, Find(grid, 'E').value;
      && SearchInvariant(grid, dist, prev, [])
      && r.value.0 <= ScoreMax && LeastCost(grid, start, goal, r.value.0)
      && (r.value.0 < ScoreMax ==> ReachesGoal(grid, bestWalk, start, goal) && PathCost(bestWalk) == r.value.0)
      && (start, East) in dist && dist[(start, East)] == 0
      && visited <= prev.Keys && HoldsGoals(prev, goal, visited) && ClosedUnder(prev, visited)
      && (forall w :: HoldsGoals(prev, goal, w) && ClosedUnder(prev, w) ==> visited <= w)
      && r.value.1 == |set k | k in visited :: k.0|
  {
    var start := Find(grid, 'S').value;
    var goal := Find(grid, 'E').value;
    var search;
    search, bestWalk := Search(grid, start, goal, fuel);
    if search.None? {
      return None, map[], map[], {}, bestWalk;
    }
    var (best, d, p) := search.value;
    dist, prev := d, p;
    var tiles;
    tiles, visited := Tiles(grid, d, p, goal);
    r := Some((best, |tiles|));
  }
}
