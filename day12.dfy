/**
 * 2024 day 12, Garden Groups: the garden map is split into regions of
 * 4-connected plots growing the same plant; fencing costs are area times
 * perimeter (part 1) or area times number of straight sides (part 2).
 *
 * Positions are (row, column) pairs of integers: in-bounds ones are map
 * indices, the others are the off-map coordinates a fence can face.
 */
module Day12 {
  import opened Wrappers
  import opened Sums

  type Pos = (int, int)

  /** A fence segment: the plot inside the region and the coordinate outside it. */
  type Fence = (Pos, Pos)

  const NeighborOffsets: seq<(int, int)> := [(-1, 0), (1, 0), (0, -1), (0, 1)]

  /** The offset pointing back: up/down and left/right swap. */
  function Opposite(k: nat): nat
    requires k < 4
  {
    match k
    case 0 => 1
    case 1 => 0
    case 2 => 3
    case _ => 2
  }

  function Shift(p: Pos, k: nat): Pos
    requires k < 4
  {
    (p.0 + NeighborOffsets[k].0, p.1 + NeighborOffsets[k].1)
  }

  lemma ShiftOpposite(p: Pos, k: nat)
    requires k < 4
    ensures Opposite(k) < 4 && Shift(Shift(p, k), Opposite(k)) == p
  {
  }

  predicate WellFormed(grid: seq<seq<char>>) {
    |grid| > 0 && forall r :: 0 <= r < |grid| ==> |grid[r]| == |grid[0]|
  }

  predicate InBounds(grid: seq<seq<char>>, p: Pos)
    requires WellFormed(grid)
  {
    0 <= p.0 < |grid| && 0 <= p.1 < |grid[0]|
  }

  function PlantAt(grid: seq<seq<char>>, p: Pos): char
    requires WellFormed(grid) && InBounds(grid, p)
  {
    grid[p.0][p.1]
  }

  /** `project_index_offset`: the neighbouring map index, if it is on the map. */
  function ProjectIndexOffset(grid: seq<seq<char>>, p: Pos, k: nat): (r: Option<Pos>)
    requires WellFormed(grid) && k < 4
    ensures r.Some? <==> InBounds(grid, Shift(p, k))
    ensures r.Some? ==> r.value == Shift(p, k)
  {
    if InBounds(grid, Shift(p, k)) then Some(Shift(p, k)) else None
  }

  /** The k-th neighbour of `p` is on the map and grows the same plant. */
  predicate SamePlantNeighbour(grid: seq<seq<char>>, p: Pos, k: nat)
    requires WellFormed(grid) && InBounds(grid, p) && k < 4
  {
    InBounds(grid, Shift(p, k)) && PlantAt(grid, Shift(p, k)) == PlantAt(grid, p)
  }

  function AllCells(grid: seq<seq<char>>): set<Pos>
    requires WellFormed(grid)
  {
    set r, c | 0 <= r < |grid| && 0 <= c < |grid[0]| :: (r, c)
  }

  /** Every plot of the region is on the map and grows `plant`. */
  predicate Uniform(grid: seq<seq<char>>, region: set<Pos>, plant: char)
    requires WellFormed(grid)
  {
    forall p :: p in region ==> InBounds(grid, p) && PlantAt(grid, p) == plant
  }

  /** Every same-plant neighbour of a plot in `plots` lies in `region`. */
  predicate ClosedOn(grid: seq<seq<char>>, plots: set<Pos>, region: set<Pos>)
    requires WellFormed(grid)
  {
    forall p, k {:trigger SamePlantNeighbour(grid, p, k)} ::
      p in plots && InBounds(grid, p) && 0 <= k < 4 && SamePlantNeighbour(grid, p, k) ==> Shift(p, k) in region
  }

  /** `s` holds every same-plant neighbour of its plots. */
  ghost predicate SelfClosed(grid: seq<seq<char>>, s: set<Pos>)
    requires WellFormed(grid)
  {
    ClosedOn(grid, s, s)
  }

  /** The region is all of one piece: every set closed under same-plant
      adjacency that meets it contains it, so no part of it can be cut off
      from the rest. */
  ghost predicate OnePiece(grid: seq<seq<char>>, region: set<Pos>)
    requires WellFormed(grid)
  {
    forall s {:trigger SelfClosed(grid, s)} :: SelfClosed(grid, s) && !(s !! region) ==> region <= s
  }

  /** A finished region: non-empty, one plant, closed under same-plant
      adjacency and connected; that is, one connected component of the map's
      same-plant adjacency graph. */
  ghost predicate IsRegion(grid: seq<seq<char>>, region: set<Pos>)
    requires WellFormed(grid)
  {
    region != {} && (exists plant :: Uniform(grid, region, plant)) && ClosedOn(grid, region, region) &&
    OnePiece(grid, region)
  }

  /** `region` is the connected component of `start`: the least set that
      holds `start` and is closed under same-plant adjacency. */
  ghost predicate Component(grid: seq<seq<char>>, region: set<Pos>, start: Pos)
    requires WellFormed(grid)
  {
    start in region && ClosedOn(grid, region, region) &&
    forall s {:trigger SelfClosed(grid, s)} :: start in s && SelfClosed(grid, s) ==> region <= s
  }

  /** The plots of the map outside a closed set form a closed set too, as
      adjacency goes both ways. */
  lemma ComplementClosed(grid: seq<seq<char>>, s: set<Pos>)
    requires WellFormed(grid) && SelfClosed(grid, s)
    ensures SelfClosed(grid, AllCells(grid) - s)
  {
    forall p, k | p in AllCells(grid) - s && InBounds(grid, p) && 0 <= k < 4 && SamePlantNeighbour(grid, p, k)
      ensures Shift(p, k) in AllCells(grid) - s
    {
      var n := Shift(p, k);
      ShiftOpposite(p, k);
      assert n in AllCells(grid);
      if n in s {
        assert SamePlantNeighbour(grid, n, Opposite(k));
        assert false;
      }
    }
  }

  /** The component of a plot is a region. */
  lemma {:induction false} ComponentIsRegion(grid: seq<seq<char>>, region: set<Pos>, start: Pos)
    requires WellFormed(grid) && InBounds(grid, start)
    requires Component(grid, region, start) && Uniform(grid, region, PlantAt(grid, start))
    ensures IsRegion(grid, region)
  {
    forall s | SelfClosed(grid, s) && !(s !! region)
      ensures region <= s
    {
      if start !in s {
        ComplementClosed(grid, s);
        assert false;
      }
    }
  }

  /** Flooding on from a same-plant neighbour stays inside every closed set
      that holds the plot being flooded. */
  lemma ReachStep(grid: seq<seq<char>>, region: set<Pos>, index: Pos, k: nat, before: set<Pos>, grown: set<Pos>)
    requires WellFormed(grid) && InBounds(grid, index) && k < 4 && SamePlantNeighbour(grid, index, k)
    requires Confines(grid, index, region, before) && Confines(grid, Shift(index, k), before, grown)
    ensures Confines(grid, index, region, grown)
  {
  }

  /** Every closed set that holds `index` and all of `region` holds all of
      `grown`: the plots in `grown` are reached from there. */
  ghost predicate Confines(grid: seq<seq<char>>, index: Pos, region: set<Pos>, grown: set<Pos>)
    requires WellFormed(grid)
  {
    forall s {:trigger SelfClosed(grid, s)} :: index in s && region <= s && SelfClosed(grid, s) ==> grown <= s
  }

  /** Two regions that share a plot are the same region: the map's regions
      are determined by the map alone. */
  lemma {:induction false} RegionsMeetEqual(grid: seq<seq<char>>, region: set<Pos>, region': set<Pos>)
    requires WellFormed(grid) && IsRegion(grid, region) && IsRegion(grid, region') && !(region !! region')
    ensures region == region'
  {
    assert SelfClosed(grid, region) && SelfClosed(grid, region');
  }

  /** A region is the component of each of its plots. */
  lemma {:induction false} RegionIsComponent(grid: seq<seq<char>>, region: set<Pos>, p: Pos)
    requires WellFormed(grid) && IsRegion(grid, region) && p in region
    ensures Component(grid, region, p)
  {
    forall s | p in s && SelfClosed(grid, s)
      ensures region <= s
    {
      assert p in s * region;
    }
  }

  /** A plot next to a closed region with the region's plant belongs to the region. */
  lemma ClosedAttracts(grid: seq<seq<char>>, region: set<Pos>, plant: char, p: Pos, k: nat)
    requires WellFormed(grid) && Uniform(grid, region, plant) && ClosedOn(grid, region, region)
    requires InBounds(grid, p) && PlantAt(grid, p) == plant && k < 4 && Shift(p, k) in region
    ensures p in region
  {
    ShiftOpposite(p, k);
    assert SamePlantNeighbour(grid, Shift(p, k), Opposite(k));
  }

  ghost function Covered(regions: map<nat, set<Pos>>): set<Pos> {
    set id, p | id in regions && p in regions[id] :: p
  }

  /** Facts about the recorded regions: ids below the next id, each a genuine
      region, pairwise disjoint. */
  ghost predicate RegionsInvariant(grid: seq<seq<char>>, regions: map<nat, set<Pos>>, next: nat) {
    && WellFormed(grid)
    && (forall id :: id in regions ==> id < next)
    && (forall id :: id in regions ==> IsRegion(grid, regions[id]))
  }

  /** `plots` is the inverse of `regions`; since `plots` is a map, this also
      makes the regions pairwise disjoint (lemma RegionsDisjoint). */
  ghost predicate PlotsMatch(regions: map<nat, set<Pos>>, plots: map<Pos, nat>) {
    && (forall id, p :: id in regions && p in regions[id] ==> p in plots && plots[p] == id)
    && (forall p :: p in plots ==> plots[p] in regions && p in regions[plots[p]])
  }

  /** Between operations every id handed out names a region, and the regions with
      `plots` form a partition of the plots assigned so far. */
  ghost predicate Partition(grid: seq<seq<char>>, regions: map<nat, set<Pos>>, plots: map<Pos, nat>, next: nat) {
    RegionsInvariant(grid, regions, next) && PlotsMatch(regions, plots) && (forall id: nat :: id in regions <==> id < next)
  }

  lemma RegionsDisjoint(regions: map<nat, set<Pos>>, plots: map<Pos, nat>, id: nat, id': nat)
    requires PlotsMatch(regions, plots) && id in regions && id' in regions && id != id'
    ensures regions[id] !! regions[id']
  {
    forall p | p in regions[id]
      ensures p !in regions[id']
    {
      assert plots[p] == id;
    }
  }

  lemma CoveredIsAssigned(regions: map<nat, set<Pos>>, plots: map<Pos, nat>)
    requires PlotsMatch(regions, plots)
    ensures Covered(regions) == plots.Keys
  {
    forall p | p in plots
      ensures p in Covered(regions)
    {
      assert p in regions[plots[p]];
    }
  }

  /** Recording a finished flood fill under a fresh id keeps the partition. */
  lemma AddRegion(grid: seq<seq<char>>, regions: map<nat, set<Pos>>, plots: map<Pos, nat>, plots': map<Pos, nat>,
                  id: nat, start: Pos, grown: set<Pos>)
    requires Partition(grid, regions, plots, id)
    requires InBounds(grid, start) && start in grown
    requires Uniform(grid, grown, PlantAt(grid, start)) && IsRegion(grid, grown) && grown !! Covered(regions)
    requires plots'.Keys == plots.Keys + grown
    requires forall p :: p in grown ==> plots'[p] == id
    requires forall p :: p in plots && p !in grown ==> plots'[p] == plots[p]
    ensures Partition(grid, regions[id := grown], plots', id + 1)
  {
    var regions' := regions[id := grown];
    forall i, p | i in regions' && p in regions'[i]
      ensures p in plots' && plots'[p] == i
    {
      if i != id {
        assert p in Covered(regions);
      }
    }
  }

  /** The plot-to-region assignment of the source: `regions` and `plots` with `next_region_id`. */
  /** Every index before `(r, c)` in row-major order has been assigned a region. */
  ghost predicate VisitedUpTo(grid: seq<seq<char>>, plots: map<Pos, nat>, r: nat, c: nat)
    requires WellFormed(grid)
  {
    forall i, j :: 0 <= i && 0 <= j < |grid[0]| && (i < r || (i == r && j < c)) ==> (i, j) in plots
  }

  /** Assignments are never withdrawn. */
  ghost predicate Grows(before: map<Pos, nat>, after: map<Pos, nat>)
  {
    forall p :: p in before ==> p in after
  }

  lemma VisitNext(grid: seq<seq<char>>, before: map<Pos, nat>, after: map<Pos, nat>, r: nat, c: nat)
    requires WellFormed(grid) && VisitedUpTo(grid, before, r, c)
    requires Grows(before, after) && (r, c) in after
    ensures VisitedUpTo(grid, after, r, c + 1)
  {
  }

  lemma VisitRowDone(grid: seq<seq<char>>, plots: map<Pos, nat>, r: nat)
    requires WellFormed(grid) && VisitedUpTo(grid, plots, r, |grid[0]|)
    ensures VisitedUpTo(grid, plots, r + 1, 0)
  {
  }

  class Regions {
    const grid: seq<seq<char>>
    var regions: map<nat, set<Pos>>
    var plots: map<Pos, nat>
    var nextRegionId: nat

    ghost predicate RegionsOk()
      reads this
    {
      RegionsInvariant(grid, regions, nextRegionId)
    }

    ghost predicate Valid()
      reads this
    {
      Partition(grid, regions, plots, nextRegionId)
    }

    constructor New(grid: seq<seq<char>>)
      requires WellFormed(grid)
      ensures Valid() && this.grid == grid && regions == map[] && plots == map[] && nextRegionId == 0
    {
      this.grid := grid;
      regions := map[];
      plots := map[];
      nextRegionId := 0;
    }

    /** `plot_region`: flood fill of the plots growing `plant` that are 4-connected
        to `index`, added to the region under construction and recorded in `plots`. */
    method PlotRegion(id: nat, region: set<Pos>, plant: char, index: Pos) returns (grown: set<Pos>)
      requires RegionsOk() && id !in regions && id < nextRegionId
      requires InBounds(grid, index) && PlantAt(grid, index) == plant
      requires Uniform(grid, region, plant) && region !! Covered(regions) && index !in Covered(regions)
      modifies this
      ensures regions == old(regions) && nextRegionId == old(nextRegionId)
      ensures region + {index} <= grown
      ensures index in region ==> grown == region
      ensures Uniform(grid, grown, plant) && grown !! Covered(regions)
      ensures ClosedOn(grid, grown - region, grown)
      ensures plots.Keys == old(plots).Keys + (grown - region)
      ensures forall p :: p in grown - region ==> plots[p] == id
      ensures forall p :: p in old(plots) && p !in grown - region ==> plots[p] == old(plots)[p]
      ensures Confines(grid, index, region, grown)
      decreases AllCells(grid) - region
    {
      if index in region {
        return region;
      }
      grown := region + {index};
      plots := plots[index := id];
      var k := 0;
      while k < 4
        invariant 0 <= k <= 4
        invariant regions == old(regions) && nextRegionId == old(nextRegionId)
        invariant region + {index} <= grown
        invariant Uniform(grid, grown, plant) && grown !! Covered(regions)
        invariant ClosedOn(grid, grown - region - {index}, grown)
        invariant forall j :: 0 <= j < k && SamePlantNeighbour(grid, index, j) ==> Shift(index, j) in grown
        invariant plots.Keys == old(plots).Keys + (grown - region)
        invariant forall p :: p in grown - region ==> plots[p] == id
        invariant forall p :: p in old(plots) && p !in grown - region ==> plots[p] == old(plots)[p]
        invariant Confines(grid, index, region, grown)
      {
        var next := ProjectIndexOffset(grid, index, k);
        if next.Some? && PlantAt(grid, next.value) == plant {
          var n := next.value;
          if n in Covered(regions) {
            var rid, q :| rid in regions && q in regions[rid] && q == n;
            var plant' :| Uniform(grid, regions[rid], plant');
            ClosedAttracts(grid, regions[rid], plant', index, k);
            assert false;
          }
          assert index in AllCells(grid) - region;
          assert AllCells(grid) - grown < AllCells(grid) - region;
          ghost var before := grown;
          grown := PlotRegion(id, grown, plant, n);
          assert ClosedOn(grid, before - region - {index}, grown);
          ReachStep(grid, region, index, k, before, grown);
        }
        k := k + 1;
      }
    }

    /** `create_region`: a new region with the next id, flooded from `start`. */
    method CreateRegion(start: Pos)
      requires Valid() && InBounds(grid, start) && start !in plots
      modifies this
      ensures Valid()
      ensures nextRegionId == old(nextRegionId) + 1
      ensures regions == old(regions)[old(nextRegionId) := regions[old(nextRegionId)]]
      ensures Component(grid, regions[old(nextRegionId)], start)
      ensures plots.Keys == old(plots).Keys + regions[old(nextRegionId)]
    {
      var id := nextRegionId;
      nextRegionId := nextRegionId + 1;
      CoveredIsAssigned(regions, plots);
      var region := PlotRegion(id, {}, PlantAt(grid, start), start);
      assert Component(grid, region, start);
      ComponentIsRegion(grid, region, start);
      AddRegion(grid, regions, old(plots), plots, id, start, region);
      regions := regions[id := region];
    }

    /** `map_regions`: every map index, in row-major order, that no region holds yet
        starts a new region; afterwards the regions cover the map. */
    method MapRegions()
      requires Valid()
      modifies this
      ensures Valid()
      ensures plots.Keys == AllCells(grid)
    {
      var r := 0;
      while r < |grid|
        invariant 0 <= r <= |grid| && Valid()
        invariant VisitedUpTo(grid, plots, r, 0)
      {
        MapRow(r);
        r := r + 1;
      }
      PlotsOnMap();
    }

    /** One row of `map_regions`. */
    method MapRow(r: nat)
      requires Valid() && r < |grid| && VisitedUpTo(grid, plots, r, 0)
      modifies this
      ensures Valid() && VisitedUpTo(grid, plots, r + 1, 0)
    {
      var c := 0;
      while c < |grid[0]|
        invariant 0 <= c <= |grid[0]| && Valid()
        invariant VisitedUpTo(grid, plots, r, c)
      {
        ghost var before := plots;
        Visit((r, c));
        VisitNext(grid, before, plots, r, c);
        c := c + 1;
      }
      VisitRowDone(grid, plots, r);
    }

    /** The body of `map_regions`' loop: an index no region holds starts a new one. */
    method Visit(index: Pos)
      requires Valid() && InBounds(grid, index)
      modifies this
      ensures Valid() && index in plots && Grows(old(plots), plots)
    {
      if index !in plots {
        CreateRegion(index);
      }
    }

    /** The recorded plots are exactly the map's indices once every index is assigned. */
    lemma PlotsOnMap()
      requires Valid() && VisitedUpTo(grid, plots, |grid|, 0)
      ensures plots.Keys == AllCells(grid)
    {
      forall p | p in AllCells(grid)
        ensures p in plots
      {
        assert p.0 < |grid|;
      }
      forall p | p in plots
        ensures p in AllCells(grid)
      {
        var plant :| Uniform(grid, regions[plots[p]], plant);
      }
    }
  }

  /* ---------------------------------------------------------------------------
     Area and perimeter (part 1)
     ------------------------------------------------------------------------- */

  /** `calculate_region_area`. */
  function Area(region: set<Pos>): (a: nat)
    ensures a == 0 <==> region == {}
  {
    |region|
  }

  /** Whether the k-th map neighbour of `p` exists and lies in the region. */
  predicate NeighbourInRegion(grid: seq<seq<char>>, region: set<Pos>, p: Pos, k: nat)
    requires WellFormed(grid) && k < 4
  {
    var n := ProjectIndexOffset(grid, p, k); n.Some? && n.value in region
  }

  /** How many of the offsets k, k+1, .., 3 lead to an in-region map neighbour. */
  function InRegionNeighboursFrom(grid: seq<seq<char>>, region: set<Pos>, p: Pos, k: nat): (n: nat)
    requires WellFormed(grid) && k <= 4
    ensures n <= 4 - k
    decreases 4 - k
  {
    if k == 4 then 0
    else (if NeighbourInRegion(grid, region, p, k) then 1 else 0) + InRegionNeighboursFrom(grid, region, p, k + 1)
  }

  /** The number of in-region 4-neighbours of a plot. */
  function InRegionNeighbours(grid: seq<seq<char>>, region: set<Pos>, p: Pos): (n: nat)
    requires WellFormed(grid)
    ensures n <= 4
  {
    InRegionNeighboursFrom(grid, region, p, 0)
  }

  /** A plot counts four, an interior plot (all four neighbours in the region) zero. */
  lemma {:induction false} NeighboursAllIn(grid: seq<seq<char>>, region: set<Pos>, p: Pos, k: nat)
    requires WellFormed(grid) && k <= 4
    ensures InRegionNeighboursFrom(grid, region, p, k) == 4 - k <==>
            forall j :: k <= j < 4 ==> NeighbourInRegion(grid, region, p, j)
    decreases 4 - k
  {
    if k < 4 {
      NeighboursAllIn(grid, region, p, k + 1);
    }
  }

  /** `calculate_region_perimeter`: each plot contributes one unit of fence per side
      that does not touch a plot of the same region. */
  ghost function Perimeter(grid: seq<seq<char>>, region: set<Pos>): int
    requires WellFormed(grid)
  {
    SetSum(region, p => 4 - InRegionNeighbours(grid, region, p))
  }

  /** The perimeter is between 0 and four units per plot. */
  lemma PerimeterBounds(grid: seq<seq<char>>, region: set<Pos>)
    requires WellFormed(grid)
    ensures 0 <= Perimeter(grid, region) <= 4 * Area(region)
  {
    var f := p => 4 - InRegionNeighbours(grid, region, p);
    SetSumUpper(region, f, 4);
    SetSumLower(region, f, 0);
  }

  /** A region of a single plot needs four units of fence. */
  lemma SinglePlotPerimeter(grid: seq<seq<char>>, p: Pos)
    requires WellFormed(grid)
    ensures Perimeter(grid, {p}) == 4
  {
    var f := q => 4 - InRegionNeighbours(grid, {p}, q);
    SetSumRemove({p}, f, p);
    assert {p} - {p} == {};
    forall k | 0 <= k < 4
      ensures !NeighbourInRegion(grid, {p}, p, k)
    {
    }
    assert InRegionNeighboursFrom(grid, {p}, p, 3) == 0;
  }

  /* ---------------------------------------------------------------------------
     Fences and sides (part 2)
     ------------------------------------------------------------------------- */

  /** `fences_are_adjacent`: two fence segments continue each other when their
      inside plots are 4-neighbours and the outside coordinates are shifted alike. */
  predicate FencesAreAdjacent(fence0: Fence, fence1: Fence) {
    var insideShift := (fence0.0.0 - fence1.0.0, fence0.0.1 - fence1.0.1);
    var outsideShift := (fence0.1.0 - fence1.1.0, fence0.1.1 - fence1.1.1);
    var magnitude := (if insideShift.0 < 0 then -insideShift.0 else insideShift.0)
                   + (if insideShift.1 < 0 then -insideShift.1 else insideShift.1);
    magnitude == 1 && insideShift.0 == outsideShift.0 && insideShift.1 == outsideShift.1
  }

  /** Adjacency of fence segments is symmetric and irreflexive, and it holds
      exactly when both fences are the same segment moved one step along the side. */
  lemma FenceAdjacency(fence0: Fence, fence1: Fence)
    ensures FencesAreAdjacent(fence0, fence1) <==> FencesAreAdjacent(fence1, fence0)
    ensures !FencesAreAdjacent(fence0, fence0)
    ensures FencesAreAdjacent(fence0, fence1) <==>
            exists k :: 0 <= k < 4 && fence0.0 == Shift(fence1.0, k) && fence0.1 == Shift(fence1.1, k)
  {
    if FencesAreAdjacent(fence0, fence1) {
      var d := (fence0.0.0 - fence1.0.0, fence0.0.1 - fence1.0.1);
      var k := if d == (-1, 0) then 0 else if d == (1, 0) then 1 else if d == (0, -1) then 2 else 3;
      assert fence0.0 == Shift(fence1.0, k);
    }
  }

  /** The plots of the region with at least one 4-neighbour outside it. */
  function BoundaryPlots(grid: seq<seq<char>>, region: set<Pos>): (b: set<Pos>)
    requires WellFormed(grid)
    ensures b <= region
  {
    set p | p in region && InRegionNeighbours(grid, region, p) != 4
  }

  /** The coordinate outside a fence: off the map, or on it but in another region. */
  predicate OutsideRegion(grid: seq<seq<char>>, region: set<Pos>, n: Pos)
    requires WellFormed(grid)
  {
    !InBounds(grid, n) || n !in region
  }

  /** The fence segments of a region: for each boundary plot, one per neighbouring
      coordinate (possibly off the map) outside the region. */
  function Fences(grid: seq<seq<char>>, region: set<Pos>): set<Fence>
    requires WellFormed(grid)
  {
    set p, k | p in BoundaryPlots(grid, region) && 0 <= k < 4 && OutsideRegion(grid, region, Shift(p, k)) :: (p, Shift(p, k))
  }

  /** Interior plots give no fence, so filtering for boundary plots first changes
      nothing: the fences are every region plot's sides that face outside. */
  lemma FencesOfAllPlots(grid: seq<seq<char>>, region: set<Pos>)
    requires WellFormed(grid)
    ensures Fences(grid, region) ==
            set p, k | p in region && 0 <= k < 4 && OutsideRegion(grid, region, Shift(p, k)) :: (p, Shift(p, k))
  {
    forall p, k | p in region && 0 <= k < 4 && OutsideRegion(grid, region, Shift(p, k))
      ensures p in BoundaryPlots(grid, region)
    {
      NeighboursAllIn(grid, region, p, 0);
      assert !NeighbourInRegion(grid, region, p, k);
    }
  }

  /** The fence adjacency map: every fence is a key, mapped to the fences adjacent to it. */
  function AdjacencyMap(fences: set<Fence>): (adj: map<Fence, set<Fence>>)
    ensures adj.Keys == fences
  {
    map f | f in fences :: set g | g in fences && FencesAreAdjacent(f, g)
  }

  /** An undirected graph over its keys: values are keys, no self-loops, symmetric. */
  ghost predicate Undirected(adj: map<Fence, set<Fence>>) {
    && (forall f, g :: f in adj && g in adj[f] ==> g in adj && g != f)
    && (forall f, g :: f in adj && g in adj && g in adj[f] ==> f in adj[g])
  }

  lemma AdjacencyMapUndirected(fences: set<Fence>)
    ensures Undirected(AdjacencyMap(fences))
  {
    forall f, g | f in fences && g in fences
      ensures FencesAreAdjacent(f, g) <==> FencesAreAdjacent(g, f)
      ensures !FencesAreAdjacent(f, f)
    {
      FenceAdjacency(f, g);
    }
  }

  /** Every fence of `side` other than `seed` hangs from a parent fence in `side`
      that is adjacent to it and one level nearer the seed: a spanning tree, so the
      side is connected. */
  ghost predicate SpannedFrom(adj: map<Fence, set<Fence>>, side: set<Fence>, seed: Fence,
                              parent: map<Fence, Fence>, depth: map<Fence, nat>)
  {
    && seed in side && seed in depth && side <= adj.Keys
    && forall f :: f in side && f != seed ==>
         f in parent && f in depth && parent[f] in side && parent[f] in depth &&
         depth[parent[f]] < depth[f] && f in adj[parent[f]]
  }

  ghost predicate Connected(adj: map<Fence, set<Fence>>, side: set<Fence>) {
    exists seed, parent, depth :: SpannedFrom(adj, side, seed, parent, depth)
  }

  /** Nothing in `side` is adjacent to anything outside it. */
  ghost predicate Closed(adj: map<Fence, set<Fence>>, side: set<Fence>)
    requires side <= adj.Keys
  {
    forall f, g {:trigger g in adj[f]} :: f in side && g in adj[f] ==> g in side
  }

  ghost function Union(sides: seq<set<Fence>>): set<Fence> {
    if |sides| == 0 then {} else Union(sides[..|sides| - 1]) + sides[|sides| - 1]
  }

  /** `sides` are some of the connected components of the graph: non-empty,
      pairwise disjoint, closed and connected. */
  ghost predicate SomeComponents(adj: map<Fence, set<Fence>>, sides: seq<set<Fence>>) {
    && (forall i, j :: 0 <= i < j < |sides| ==> sides[i] !! sides[j])
    && (forall i :: 0 <= i < |sides| ==> sides[i] != {} && sides[i] <= adj.Keys)
    && (forall i :: 0 <= i < |sides| ==> Closed(adj, sides[i]) && Connected(adj, sides[i]))
  }

  /** `sides` are all the connected components: together they cover every fence. */
  ghost predicate Components(adj: map<Fence, set<Fence>>, sides: seq<set<Fence>>) {
    SomeComponents(adj, sides) && Union(sides) == adj.Keys
  }

  lemma {:induction false} UnionMember(sides: seq<set<Fence>>, i: nat)
    requires i < |sides|
    ensures sides[i] <= Union(sides)
    decreases |sides|
  {
    if i < |sides| - 1 {
      UnionMember(sides[..|sides| - 1], i);
    }
  }

  lemma {:induction false} UnionDisjoint(sides: seq<set<Fence>>, s: set<Fence>)
    requires forall i :: 0 <= i < |sides| ==> sides[i] !! s
    ensures Union(sides) !! s
    decreases |sides|
  {
    if |sides| > 0 {
      UnionDisjoint(sides[..|sides| - 1], s);
    }
  }

  function Elems(stack: seq<Fence>): set<Fence> {
    set f | f in stack
  }

  predicate Distinct(stack: seq<Fence>) {
    forall i, j :: 0 <= i < j < |stack| ==> stack[i] != stack[j]
  }

  /** Pushing a fence not yet on the stack keeps it free of repeats. */
  lemma ElemsAppend(stack: seq<Fence>, f: Fence)
    ensures Elems(stack + [f]) == Elems(stack) + {f}
    ensures Distinct(stack) && f !in Elems(stack) ==> Distinct(stack + [f])
  {
    assert forall g :: g in stack + [f] <==> g in stack || g == f;
  }

  /** The fences still to assign at a point of the stack search. */
  ghost predicate SearchState(adj: map<Fence, set<Fence>>, start: map<Fence, set<Fence>>, seed: Fence,
                              remaining: map<Fence, set<Fence>>, side: set<Fence>, stack: seq<Fence>,
                              parent: map<Fence, Fence>, depth: map<Fence, nat>)
  {
    && ((side == {} && stack == [seed]) || (SpannedFrom(adj, side, seed, parent, depth) && Elems(stack) <= side))
    && Distinct(stack)
    && Elems(stack) <= remaining.Keys
    && remaining.Keys == start.Keys - (side - Elems(stack))
    && side <= start.Keys
    && (forall f :: f in remaining ==> f in adj && remaining[f] == adj[f])
    && (forall f :: f in side && f in adj && f !in remaining ==> adj[f] <= side)
  }

  /** The search state while the adjacent fences of `fence` are being pushed:
      `fence` is on the side and out of `remaining`, but its neighbours may not all
      be on the side yet. */
  ghost predicate PushState(adj: map<Fence, set<Fence>>, start: map<Fence, set<Fence>>, seed: Fence,
                            remaining: map<Fence, set<Fence>>, fence: Fence,
                            side: set<Fence>, stack: seq<Fence>, parent: map<Fence, Fence>, depth: map<Fence, nat>)
  {
    && Undirected(adj) && fence in adj
    && (forall f :: f in start ==> f in adj && adj[f] <= start.Keys)
    && fence in side && fence !in remaining && fence in start
    && SpannedFrom(adj, side, seed, parent, depth) && Elems(stack) <= side
    && Distinct(stack)
    && Elems(stack) <= remaining.Keys
    && remaining.Keys == start.Keys - (side - Elems(stack))
    && side <= start.Keys
    && (forall f :: f in remaining ==> f in adj && remaining[f] == adj[f])
    && (forall f :: f in side && f in adj && f !in remaining && f != fence ==> adj[f] <= side)
  }

  /** One adjacent fence joins the side and the stack. */
  lemma PushOne(adj: map<Fence, set<Fence>>, start: map<Fence, set<Fence>>, seed: Fence,
                remaining: map<Fence, set<Fence>>, fence: Fence,
                side: set<Fence>, stack: seq<Fence>, parent: map<Fence, Fence>, depth: map<Fence, nat>, g: Fence)
    requires PushState(adj, start, seed, remaining, fence, side, stack, parent, depth)
    requires g in adj[fence] && g !in side
    ensures PushState(adj, start, seed, remaining, fence, side + {g}, stack + [g],
                      parent[g := fence], depth[g := depth[fence] + 1])
  {
    ElemsAppend(stack, g);
    assert g in start.Keys;
    SpannedAdd(adj, side, seed, parent, depth, fence, g);
  }

  /** A fence adjacent to one on the side joins it one step deeper. */
  lemma {:induction false} SpannedAdd(adj: map<Fence, set<Fence>>, side: set<Fence>, seed: Fence,
                                      parent: map<Fence, Fence>, depth: map<Fence, nat>, fence: Fence, g: Fence)
    requires SpannedFrom(adj, side, seed, parent, depth)
    requires fence in side && fence in depth && g in adj[fence] && g in adj && g !in side
    ensures SpannedFrom(adj, side + {g}, seed, parent[g := fence], depth[g := depth[fence] + 1])
  {
    var parent', depth' := parent[g := fence], depth[g := depth[fence] + 1];
    forall f | f in side + {g} && f != seed
      ensures f in parent' && f in depth' && parent'[f] in side + {g} && parent'[f] in depth'
      ensures depth'[parent'[f]] < depth'[f] && f in adj[parent'[f]]
    {
      if f != g {
        assert parent[f] != g;
      }
    }
  }

  /** Once every adjacent fence of `fence` is on the side, the search state holds again. */
  lemma PushDone(adj: map<Fence, set<Fence>>, start: map<Fence, set<Fence>>, seed: Fence,
                 remaining: map<Fence, set<Fence>>, fence: Fence,
                 side: set<Fence>, stack: seq<Fence>, parent: map<Fence, Fence>, depth: map<Fence, nat>)
    requires PushState(adj, start, seed, remaining, fence, side, stack, parent, depth)
    requires adj[fence] <= side
    ensures SearchState(adj, start, seed, remaining, side, stack, parent, depth)
  {
  }

  /** The inner `for` loop: adjacent fences not yet on the side join it and the stack. */
  method PushAdjacent(ghost adj: map<Fence, set<Fence>>, ghost start: map<Fence, set<Fence>>, ghost seed: Fence,
                      ghost remaining: map<Fence, set<Fence>>, fence: Fence, adjacentFences: set<Fence>,
                      side: set<Fence>, stack: seq<Fence>, ghost parent: map<Fence, Fence>, ghost depth: map<Fence, nat>)
    returns (side': set<Fence>, stack': seq<Fence>, ghost parent': map<Fence, Fence>, ghost depth': map<Fence, nat>)
    requires PushState(adj, start, seed, remaining, fence, side, stack, parent, depth)
    requires adjacentFences == adj[fence]
    ensures SearchState(adj, start, seed, remaining, side', stack', parent', depth')
    ensures side <= side' && (side' == side ==> stack' == stack)
  {
    side', stack', parent', depth' := side, stack, parent, depth;
    var todo := adjacentFences;
    while todo != {}
      invariant todo <= adjacentFences && side <= side' && (side' == side ==> stack' == stack)
      invariant adjacentFences - todo <= side'
      invariant PushState(adj, start, seed, remaining, fence, side', stack', parent', depth')
      decreases todo
    {
      var adjacentFence :| adjacentFence in todo;
      todo := todo - {adjacentFence};
      if adjacentFence !in side' {
        PushOne(adj, start, seed, remaining, fence, side', stack', parent', depth', adjacentFence);
        side' := side' + {adjacentFence};
        stack' := stack' + [adjacentFence];
        parent' := parent'[adjacentFence := fence];
        depth' := depth'[adjacentFence := depth'[fence] + 1];
      }
    }
    PushDone(adj, start, seed, remaining, fence, side', stack', parent', depth');
  }

  /** Taking the last fence off the stack puts it on the side and out of `remaining`. */
  lemma PopOne(adj: map<Fence, set<Fence>>, start: map<Fence, set<Fence>>, seed: Fence,
               remaining: map<Fence, set<Fence>>, side: set<Fence>, stack: seq<Fence>,
               parent: map<Fence, Fence>, depth: map<Fence, nat>)
    requires SearchState(adj, start, seed, remaining, side, stack, parent, depth)
    requires Undirected(adj) && forall f :: f in start ==> f in adj && adj[f] <= start.Keys
    requires |stack| > 0 && seed in depth
    ensures var fence := stack[|stack| - 1];
            fence in remaining &&
            PushState(adj, start, seed, remaining - {fence}, fence, side + {fence}, stack[..|stack| - 1], parent, depth)
  {
    var fence := stack[|stack| - 1];
    var rest := stack[..|stack| - 1];
    assert stack == rest + [fence];
    ElemsAppend(rest, fence);
    assert fence !in Elems(rest);
    assert Distinct(rest);
    assert fence in Elems(stack);
  }

  /** The `while let Some(fence) = stack.pop()` search from `seed`: it collects the
      connected component of `seed` and removes it from `remaining`. */
  method FindSide(ghost adj: map<Fence, set<Fence>>, start: map<Fence, set<Fence>>, seed: Fence)
    returns (side: set<Fence>, remaining: map<Fence, set<Fence>>, ghost parent: map<Fence, Fence>, ghost depth: map<Fence, nat>)
    requires Undirected(adj) && seed in start
    requires forall f :: f in start ==> f in adj && start[f] == adj[f] && adj[f] <= start.Keys
    ensures side <= start.Keys && remaining.Keys == start.Keys - side
    ensures forall f :: f in remaining ==> remaining[f] == start[f]
    ensures Closed(adj, side) && SpannedFrom(adj, side, seed, parent, depth)
  {
    side := {};
    var stack := [seed];
    remaining := start;
    parent, depth := map[], map[seed := 0];
    while |stack| > 0
      invariant SearchState(adj, start, seed, remaining, side, stack, parent, depth) && seed in depth
      decreases start.Keys - side, |stack|
    {
      PopOne(adj, start, seed, remaining, side, stack, parent, depth);
      var fence := stack[|stack| - 1];
      stack := stack[..|stack| - 1];
      side := side + {fence};
      var adjacentFences := remaining[fence];
      remaining := remaining - {fence};
      side, stack, parent, depth := PushAdjacent(adj, start, seed, remaining, fence, adjacentFences, side, stack, parent, depth);
    }
  }

  /** What is left after removing closed sides is closed too, the graph being undirected. */
  lemma RestClosed(adj: map<Fence, set<Fence>>, sides: seq<set<Fence>>, remaining: map<Fence, set<Fence>>)
    requires Undirected(adj) && Progress(adj, sides, remaining)
    ensures forall f :: f in remaining ==> f in adj && remaining[f] == adj[f] && adj[f] <= remaining.Keys
  {
    forall f, g | f in remaining && g in adj[f]
      ensures g in remaining
    {
      if g !in remaining {
        var i := FindIn(sides, g);
        UnionMember(sides, i);
      }
    }
  }

  lemma {:induction false} FindIn(sides: seq<set<Fence>>, f: Fence) returns (i: nat)
    requires f in Union(sides)
    ensures i < |sides| && f in sides[i]
    decreases |sides|
  {
    if f in sides[|sides| - 1] {
      i := |sides| - 1;
    } else {
      i := FindIn(sides[..|sides| - 1], f);
    }
  }

  /** The state of the outer loop of `identify_and_count_sides`: the sides found so
      far are components, and the map holds exactly the other fences, unchanged. */
  ghost predicate Progress(adj: map<Fence, set<Fence>>, sides: seq<set<Fence>>, remaining: map<Fence, set<Fence>>) {
    && SomeComponents(adj, sides)
    && remaining.Keys == adj.Keys - Union(sides)
    && Union(sides) <= adj.Keys
    && (forall f :: f in remaining ==> remaining[f] == adj[f])
  }

  /** A component found in what is left extends the list of components. */
  lemma AddSide(adj: map<Fence, set<Fence>>, sides: seq<set<Fence>>, remaining: map<Fence, set<Fence>>,
                side: set<Fence>, remaining': map<Fence, set<Fence>>, seed: Fence, parent: map<Fence, Fence>, depth: map<Fence, nat>)
    requires Progress(adj, sides, remaining)
    requires side <= remaining.Keys && remaining'.Keys == remaining.Keys - side
    requires forall f :: f in remaining' ==> remaining'[f] == remaining[f]
    requires Closed(adj, side) && SpannedFrom(adj, side, seed, parent, depth)
    ensures Progress(adj, sides + [side], remaining')
  {
    var sides' := sides + [side];
    assert sides'[..|sides'| - 1] == sides;
    forall i | 0 <= i < |sides|
      ensures sides[i] !! side
    {
      UnionMember(sides, i);
    }
    assert Connected(adj, side);
    forall i, j | 0 <= i < j < |sides'|
      ensures sides'[i] !! sides'[j]
    {
      if j == |sides| {
        assert sides'[i] == sides[i];
      }
    }
  }

  /** `identify_and_count_sides`: repeatedly take any fence still in the map and
      remove its whole side; the count is the number of connected components of
      the fence adjacency graph. */
  method IdentifyAndCountSides(fenceAdjacencyMap: map<Fence, set<Fence>>) returns (count: nat, sides: seq<set<Fence>>)
    requires Undirected(fenceAdjacencyMap)
    ensures Components(fenceAdjacencyMap, sides) && count == |sides|
  {
    var remaining := fenceAdjacencyMap;
    sides := [];
    while remaining != map[]
      invariant Progress(fenceAdjacencyMap, sides, remaining)
      decreases remaining.Keys
    {
      var fence :| fence in remaining;
      RestClosed(fenceAdjacencyMap, sides, remaining);
      var side, remaining', parent, depth := FindSide(fenceAdjacencyMap, remaining, fence);
      AddSide(fenceAdjacencyMap, sides, remaining, side, remaining', fence, parent, depth);
      sides := sides + [side];
      remaining := remaining';
    }
    assert forall f :: f in fenceAdjacencyMap ==> f in Union(sides) by {
      assert remaining.Keys == {};
    }
    count := |sides|;
  }

  /** There are no more components than fences. */
  lemma {:induction false} ComponentsAtMostFences(sides: seq<set<Fence>>)
    requires forall i, j :: 0 <= i < j < |sides| ==> sides[i] !! sides[j]
    requires forall i :: 0 <= i < |sides| ==> sides[i] != {}
    ensures |sides| <= |Union(sides)|
    decreases |sides|
  {
    if |sides| > 0 {
      var prefix := sides[..|sides| - 1];
      var last := sides[|sides| - 1];
      ComponentsAtMostFences(prefix);
      UnionDisjoint(prefix, last);

      assert |Union(prefix) + last| == |Union(prefix)| + |last|;
    }
  }

  /** `calculate_region_sides`: the number of straight sides is the number of
      connected components of the adjacency graph of the region's fences. */
  method RegionSides(grid: seq<seq<char>>, region: set<Pos>) returns (sides: nat, ghost components: seq<set<Fence>>)
    requires WellFormed(grid)
    ensures Components(AdjacencyMap(Fences(grid, region)), components) && sides == |components|
    ensures sides <= |Fences(grid, region)|
  {
    var fences := Fences(grid, region);
    var fenceAdjacencyMap := AdjacencyMap(fences);
    AdjacencyMapUndirected(fences);
    sides, components := IdentifyAndCountSides(fenceAdjacencyMap);
    ComponentsAtMostFences(components);
  }

  /** The contribution of one plot to the perimeter. */
  function PlotPerimeter(grid: seq<seq<char>>, region: set<Pos>): Pos -> int
    requires WellFormed(grid)
  {
    p => 4 - InRegionNeighbours(grid, region, p)
  }

  /** The perimeter, summed plot by plot in the iteration order of the region. */
  method RegionPerimeter(grid: seq<seq<char>>, region: set<Pos>) returns (perimeter: int)
    requires WellFormed(grid)
    ensures perimeter == Perimeter(grid, region)
  {
    perimeter := 0;
    var todo := region;
    while todo != {}
      invariant todo <= region
      invariant perimeter == SetSum(region - todo, PlotPerimeter(grid, region))
      decreases todo
    {
      var plot :| plot in todo;
      ghost var done := region - todo;
      ghost var f := PlotPerimeter(grid, region);
      SetSumRemove(done + {plot}, f, plot);
      assert done + {plot} - {plot} == done;
      assert f(plot) == 4 - InRegionNeighbours(grid, region, plot);
      perimeter := perimeter + (4 - InRegionNeighbours(grid, region, plot));
      todo := todo - {plot};
      assert region - todo == done + {plot};
    }
    assert region - todo == region;
  }

  /** The part 1 price of the regions with ids below `n`: area times perimeter. */
  ghost function PriceSumPart1(grid: seq<seq<char>>, regions: map<nat, set<Pos>>, n: nat): int
    requires WellFormed(grid) && forall id: nat :: id < n ==> id in regions
  {
    if n == 0 then 0 else PriceSumPart1(grid, regions, n - 1) + Area(regions[n - 1]) * Perimeter(grid, regions[n - 1])
  }

  lemma {:induction false} PriceSumPart1NonNegative(grid: seq<seq<char>>, regions: map<nat, set<Pos>>, n: nat)
    requires WellFormed(grid) && forall id: nat :: id < n ==> id in regions
    ensures PriceSumPart1(grid, regions, n) >= 0
  {
    if n > 0 {
      PriceSumPart1NonNegative(grid, regions, n - 1);
      PerimeterBounds(grid, regions[n - 1]);
    }
  }

  /** `calculate_fencing_cost_part1`: the sum over all regions of area times
      perimeter. The regions are visited by id; the sum does not depend on the order. */
  method FencingCostPart1(grid: seq<seq<char>>, regions: map<nat, set<Pos>>, regionCount: nat) returns (cost: int)
    requires WellFormed(grid) && forall id: nat :: id < regionCount ==> id in regions
    ensures cost == PriceSumPart1(grid, regions, regionCount)
    ensures cost >= 0
  {
    cost := 0;
    var id := 0;
    while id < regionCount
      invariant 0 <= id <= regionCount
      invariant cost == PriceSumPart1(grid, regions, id)
    {
      var region := regions[id];
      var perimeter := RegionPerimeter(grid, region);
      cost := cost + Area(region) * perimeter;
      id := id + 1;
    }
    PriceSumPart1NonNegative(grid, regions, regionCount);
  }

  /** The part 2 price of the regions with ids below `|sides|`, given their side counts. */
  function PriceSumPart2(regions: map<nat, set<Pos>>, sides: seq<nat>): int
    requires forall id: nat :: id < |sides| ==> id in regions
  {
    if |sides| == 0 then 0 else PriceSumPart2(regions, sides[..|sides| - 1]) + Area(regions[|sides| - 1]) * sides[|sides| - 1]
  }

  /** `sides[id]` is the number of components `components[id]` of the fence graph
      of region `id`, for every id below `|sides|`. */
  ghost predicate SideCounts(grid: seq<seq<char>>, regions: map<nat, set<Pos>>, sides: seq<nat>, components: seq<seq<set<Fence>>>)
    requires WellFormed(grid)
  {
    && |sides| == |components|
    && forall id :: 0 <= id < |sides| ==>
         id in regions && Components(AdjacencyMap(Fences(grid, regions[id])), components[id]) && sides[id] == |components[id]|
  }

  lemma SideCountsAppend(grid: seq<seq<char>>, regions: map<nat, set<Pos>>, sides: seq<nat>, components: seq<seq<set<Fence>>>,
                         count: nat, c: seq<set<Fence>>)
    requires WellFormed(grid) && SideCounts(grid, regions, sides, components)
    requires |sides| in regions && Components(AdjacencyMap(Fences(grid, regions[|sides|])), c) && count == |c|
    ensures SideCounts(grid, regions, sides + [count], components + [c])
  {
  }

  /** One step of the part 2 sum: the next region's area times its side count. */
  method AddPricePart2(grid: seq<seq<char>>, regions: map<nat, set<Pos>>, id: nat,
                       cost: int, ghost sides: seq<nat>, ghost components: seq<seq<set<Fence>>>)
    returns (cost': int, ghost sides': seq<nat>, ghost components': seq<seq<set<Fence>>>)
    requires WellFormed(grid) && id == |sides| && id in regions
    requires SideCounts(grid, regions, sides, components) && cost == PriceSumPart2(regions, sides)
    ensures |sides'| == |sides| + 1
    ensures SideCounts(grid, regions, sides', components') && cost' == PriceSumPart2(regions, sides')
  {
    var region := regions[id];
    var count, c := RegionSides(grid, region);
    cost' := cost + Area(region) * count;
    SideCountsAppend(grid, regions, sides, components, count, c);
    sides' := sides + [count];
    components' := components + [c];
    assert sides'[..|sides|] == sides;
  }

  /** `calculate_fencing_cost_part2`: the sum over all regions of area times number
      of sides, each side count being the number of components of the region's
      fence graph. */
  method FencingCostPart2(grid: seq<seq<char>>, regions: map<nat, set<Pos>>, regionCount: nat)
    returns (cost: int, ghost sides: seq<nat>, ghost components: seq<seq<set<Fence>>>)
    requires WellFormed(grid) && forall id: nat :: id < regionCount ==> id in regions
    ensures |sides| == |components| == regionCount
    ensures SideCounts(grid, regions, sides, components)
    ensures cost == PriceSumPart2(regions, sides)
  {
    cost := 0;
    sides := [];
    components := [];
    var id := 0;
    while id < regionCount
      invariant 0 <= id <= regionCount && |sides| == |components| == id
      invariant SideCounts(grid, regions, sides, components)
      invariant cost == PriceSumPart2(regions, sides)
    {
      cost, sides, components := AddPricePart2(grid, regions, id, cost, sides, components);
      id := id + 1;
    }
  }

  /** The regions `map_regions` leaves behind: a partition of the whole map into
      regions, numbered `0 .. n-1`. */
  ghost predicate MappedRegions(grid: seq<seq<char>>, regions: map<nat, set<Pos>>, n: nat) {
    && RegionsInvariant(grid, regions, n)
    && (forall id: nat :: id in regions <==> id < n)
    && (forall id, id' :: id in regions && id' in regions && id != id' ==> regions[id] !! regions[id'])
    && Covered(regions) == AllCells(grid)
  }

  /** Builds the regions of a parsed map, as `part1` and `part2` do. */
  method MapAll(grid: seq<seq<char>>) returns (regions: map<nat, set<Pos>>, n: nat)
    requires WellFormed(grid)
    ensures MappedRegions(grid, regions, n)
  {
    var r := new Regions.New(grid);
    r.MapRegions();
    regions, n := r.regions, r.nextRegionId;
    CoveredIsAssigned(regions, r.plots);
    forall id, id' | id in regions && id' in regions && id != id'
      ensures regions[id] !! regions[id']
    {
      RegionsDisjoint(regions, r.plots, id, id');
    }
  }

  /** `part1`: total price, area times perimeter, over the regions of the map. */
  method Part1(grid: seq<seq<char>>) returns (cost: int, ghost regions: map<nat, set<Pos>>, ghost n: nat)
    requires WellFormed(grid)
    ensures MappedRegions(grid, regions, n)
    ensures cost == PriceSumPart1(grid, regions, n) && cost >= 0
  {
    var rs, count := MapAll(grid);
    regions, n := rs, count;
    cost := FencingCostPart1(grid, rs, count);
  }

  /** `part2`: total price, area times number of sides, over the regions of the map. */
  method Part2(grid: seq<seq<char>>) returns (cost: int, ghost regions: map<nat, set<Pos>>, ghost n: nat, ghost sides: seq<nat>)
    requires WellFormed(grid)
    ensures MappedRegions(grid, regions, n) && |sides| == n
    ensures exists components :: SideCounts(grid, regions, sides, components)
    ensures cost == PriceSumPart2(regions, sides)
  {
    var rs, count := MapAll(grid);
    regions, n := rs, count;
    ghost var components;
    cost, sides, components := FencingCostPart2(grid, rs, count);
  }

  /** Every region of one mapping of a grid is a region of any other mapping of
      it: each region is the connected component of each of its plots,
      whatever id it got. */
  lemma MappedRegionsIncluded(grid: seq<seq<char>>, regions: map<nat, set<Pos>>, n: nat, regions': map<nat, set<Pos>>, n': nat)
    requires MappedRegions(grid, regions, n) && MappedRegions(grid, regions', n')
    ensures regions.Values <= regions'.Values
  {
    forall r | r in regions.Values
      ensures r in regions'.Values
    {
      var id :| id in regions && regions[id] == r;
      var p :| p in r;
      assert p in Covered(regions');
      var id', q :| id' in regions' && q in regions'[id'] && q == p;
      RegionsMeetEqual(grid, r, regions'[id']);
    }
  }

  /** Any two mappings of the same grid hold the same regions. */
  lemma MappedRegionsUnique(grid: seq<seq<char>>, regions: map<nat, set<Pos>>, n: nat, regions': map<nat, set<Pos>>, n': nat)
    requires MappedRegions(grid, regions, n) && MappedRegions(grid, regions', n')
    ensures regions.Values == regions'.Values
  {
    MappedRegionsIncluded(grid, regions, n, regions', n');
    MappedRegionsIncluded(grid, regions', n', regions, n);
  }

  /** Part-one price of one region. */
  ghost function Price1(grid: seq<seq<char>>): set<Pos> -> int {
    region => if WellFormed(grid) then Area(region) * Perimeter(grid, region) else 0
  }

  ghost function RegionsBelow(regions: map<nat, set<Pos>>, k: nat): set<set<Pos>>
    requires forall id: nat :: id < k ==> id in regions
  {
    set id: nat | id < k :: regions[id]
  }

  /** Summing by id is summing over the set of regions: ids name distinct regions. */
  lemma {:induction false} PriceSumPart1Regions(grid: seq<seq<char>>, regions: map<nat, set<Pos>>, k: nat)
    requires WellFormed(grid) && forall id: nat :: id < k ==> id in regions && regions[id] != {}
    requires forall id, id' :: id in regions && id' in regions && id != id' ==> regions[id] !! regions[id']
    ensures PriceSumPart1(grid, regions, k) == SetSum(RegionsBelow(regions, k), Price1(grid))
  {
    if k == 0 {
      assert RegionsBelow(regions, 0) == {};
    } else {
      PriceSumPart1Regions(grid, regions, k - 1);
      var last := regions[k - 1];
      var below, all := RegionsBelow(regions, k - 1), RegionsBelow(regions, k);
      assert last !in below;
      assert all - {last} == below;
      SetSumRemove(all, Price1(grid), last);
    }
  }

  /** The part-one answer depends on the grid alone: any two mappings of it
      have the same price. */
  lemma PriceSumPart1Determined(grid: seq<seq<char>>, regions: map<nat, set<Pos>>, n: nat, regions': map<nat, set<Pos>>, n': nat)
    requires MappedRegions(grid, regions, n) && MappedRegions(grid, regions', n')
    ensures PriceSumPart1(grid, regions, n) == PriceSumPart1(grid, regions', n')
  {
    PriceSumPart1Regions(grid, regions, n);
    PriceSumPart1Regions(grid, regions', n');
    MappedRegionsUnique(grid, regions, n, regions', n');
    RegionsBelowAll(regions, n);
    RegionsBelowAll(regions', n');
  }

  lemma RegionsBelowAll(regions: map<nat, set<Pos>>, n: nat)
    requires forall id: nat :: id in regions <==> id < n
    ensures RegionsBelow(regions, n) == regions.Values
  {
  }
}
