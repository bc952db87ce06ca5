/** Spawn placement: farthest-first traversal and its factor-2 guarantee. */
module MapGenerator {
  import opened Common
  import opened Hex
  import opened Terrain

  const SPAWN_BORDER_MARGIN := 2
  const INT_MAX := 0x7fff_ffff

  /** A passable tile away from the border. */
  predicate Allowed(grid: Grid, c: Coord) {
    && SPAWN_BORDER_MARGIN <= c.row < grid.height - SPAWN_BORDER_MARGIN
    && SPAWN_BORDER_MARGIN <= c.col < grid.width - SPAWN_BORDER_MARGIN
    && PropertiesOf(grid.At(c)).passable
  }

  function Chebyshev(a: Coord, b: Coord): nat {
    Max(Abs(a.row - b.row), Abs(a.col - b.col))
  }

  function DistToCentre(grid: Grid, c: Coord): int {
    var dr, dc := c.row - grid.height / 2, c.col - grid.width / 2;
    dr * dr + dc * dc
  }

  /** `c` is at least as far from its nearest earlier spawn as every allowed tile is from its own. */
  ghost predicate Farthest(grid: Grid, earlier: seq<Coord>, c: Coord) {
    forall t, k :: Allowed(grid, t) && 0 <= k < |earlier| ==> SomeoneWithin(earlier, t, Chebyshev(c, earlier[k]))
  }

  ghost predicate SomeoneWithin(spawns: seq<Coord>, t: Coord, d: nat) {
    exists i :: 0 <= i < |spawns| && Chebyshev(t, spawns[i]) <= d
  }

  /** Every spawn is allowed, the first is closest to the centre, and each later one is farthest. */
  ghost predicate FarthestFirst(grid: Grid, spawns: seq<Coord>) {
    && (forall j :: 0 <= j < |spawns| ==> Allowed(grid, spawns[j]))
    && (spawns != [] ==> forall t :: Allowed(grid, t) ==> DistToCentre(grid, spawns[0]) <= DistToCentre(grid, t))
    && (forall j :: 1 <= j < |spawns| ==> Farthest(grid, spawns[..j], spawns[j]))
  }

  /** Being within `d` means being in the square of half-width `d` around a tile. */
  lemma ChebyshevIsSquare(a: Coord, b: Coord, d: nat)
    ensures Chebyshev(a, b) <= d <==> a.row <= b.row + d && b.row <= a.row + d && a.col <= b.col + d && b.col <= a.col + d
  {
  }

  /** What closest to the centre means: no allowed tile is at most as far from it along either axis and nearer along
      one, and none has the smaller Euclidean distance.  Every spawn is passable and at least two tiles from each border. */
  lemma FirstSpawnIsCentral(grid: Grid, spawns: seq<Coord>, t: Coord)
    requires FarthestFirst(grid, spawns) && spawns != [] && Allowed(grid, t)
    ensures var s, r, c := spawns[0], grid.height / 2, grid.width / 2;
            && (s.row - r) * (s.row - r) + (s.col - c) * (s.col - c) <= (t.row - r) * (t.row - r) + (t.col - c) * (t.col - c)
            && !(Abs(t.row - r) < Abs(s.row - r) && Abs(t.col - c) <= Abs(s.col - c))
            && !(Abs(t.row - r) <= Abs(s.row - r) && Abs(t.col - c) < Abs(s.col - c))
    ensures forall j :: 0 <= j < |spawns| ==>
              && 2 <= spawns[j].row < grid.height - 2 && 2 <= spawns[j].col < grid.width - 2
              && grid.Has(spawns[j]) && PropertiesOf(grid.At(spawns[j])).passable
  {
    var s, r, c := spawns[0], grid.height / 2, grid.width / 2;
    SquaresGrow(t.row - r, s.row - r);
    SquaresGrow(t.col - c, s.col - c);
    SquaresGrow(s.row - r, t.row - r);
    SquaresGrow(s.col - c, t.col - c);
  }

  lemma SquaresGrow(x: int, y: int)
    ensures Abs(x) <= Abs(y) <==> x * x <= y * y
  {
    hide Abs;
    SquareOfAbs(x);
    SquareOfAbs(y);
    if Abs(x) <= Abs(y) {
      ProductsGrow(Abs(x), Abs(y));
    } else {
      ProductsGrow(Abs(y) + 1, Abs(x));
    }
  }

  lemma SquareOfAbs(x: int)
    ensures Abs(x) * Abs(x) == x * x
  {
  }

  lemma ProductsGrow(a: nat, b: nat)
    requires a <= b
    ensures a * a <= b * b
  {
    assert a * a <= a * b;
    assert a * b <= b * b;
  }

  ghost predicate PairwiseApart(points: seq<Coord>, d: int) {
    forall i, j :: 0 <= i < j < |points| ==> Chebyshev(points[i], points[j]) >= d
  }

  /** More values than there are slots below `n`: two are equal. */
  lemma {:induction false} Pigeonhole(f: seq<nat>, n: nat) returns (a: nat, b: nat)
    requires |f| > n && forall m :: 0 <= m < |f| ==> f[m] < n
    ensures a < b < |f| && f[a] == f[b]
    decreases n
  {
    var last := f[|f| - 1];
    if i :| 0 <= i < |f| - 1 && f[i] == last {
      a, b := i, |f| - 1;
    } else {
      // Nobody else uses the last slot: renumber the slots above it and drop it.
      var g := seq(|f| - 1, i requires 0 <= i < |f| - 1 => if f[i] > last then f[i] - 1 else f[i]);
      a, b := Pigeonhole(g, n - 1);
    }
  }

  lemma ChebyshevTriangle(a: Coord, b: Coord, c: Coord)
    ensures Chebyshev(a, b) <= Chebyshev(a, c) + Chebyshev(b, c)
  {
  }

  /** The factor-2 guarantee: if as many allowed tiles exist pairwise at least `d` apart, then the spawns are
      pairwise at least `d / 2` apart. */
  lemma SpawnsAreWithinFactorTwo(grid: Grid, spawns: seq<Coord>, rivals: seq<Coord>, d: int)
    requires FarthestFirst(grid, spawns)
    requires |rivals| == |spawns| && forall m :: 0 <= m < |rivals| ==> Allowed(grid, rivals[m])
    requires PairwiseApart(rivals, d)
    ensures forall i, j :: 0 <= i < j < |spawns| ==> 2 * Chebyshev(spawns[i], spawns[j]) >= d
  {
    forall i, j | 0 <= i < j < |spawns|
      ensures 2 * Chebyshev(spawns[i], spawns[j]) >= d
    {
      RivalsCrowd(grid, spawns, rivals, d, i, j);
    }
  }

  /** When spawn `j` was chosen every rival was close to one of the `j` spawns before it, so two rivals share one. */
  lemma RivalsCrowd(grid: Grid, spawns: seq<Coord>, rivals: seq<Coord>, d: int, i: nat, j: nat)
    requires FarthestFirst(grid, spawns) && i < j < |spawns|
    requires |rivals| == |spawns| && forall m :: 0 <= m < |rivals| ==> Allowed(grid, rivals[m])
    requires PairwiseApart(rivals, d)
    ensures 2 * Chebyshev(spawns[i], spawns[j]) >= d
  {
    hide Chebyshev, Allowed, DistToCentre, SomeoneWithin;
    var r := Chebyshev(spawns[j], spawns[i]);
    ChebyshevSymmetric(spawns[i], spawns[j]);
    var earlier := spawns[..j];
    assert Farthest(grid, earlier, spawns[j]);
    var crowd := rivals[..j + 1];
    forall m | 0 <= m < |crowd|
      ensures SomeoneWithin(earlier, crowd[m], r)
    {
      assert Allowed(grid, rivals[m]) && earlier[i] == spawns[i];
      assert SomeoneWithin(earlier, rivals[m], Chebyshev(spawns[j], earlier[i]));
    }
    var near := NearestSlots(earlier, crowd, r);
    var a, b := Pigeonhole(near, j);
    assert Chebyshev(rivals[a], rivals[b]) >= d;
    ChebyshevTriangle(rivals[a], rivals[b], earlier[near[a]]);
  }

  lemma ChebyshevSymmetric(a: Coord, b: Coord)
    ensures Chebyshev(a, b) == Chebyshev(b, a)
  {
  }

  lemma {:induction false} NearestSlots(earlier: seq<Coord>, points: seq<Coord>, r: nat) returns (slots: seq<nat>)
    requires forall m :: 0 <= m < |points| ==> SomeoneWithin(earlier, points[m], r)
    ensures |slots| == |points|
    ensures forall m :: 0 <= m < |slots| ==> slots[m] < |earlier| && Chebyshev(points[m], earlier[slots[m]]) <= r
  {
    if points == [] {
      slots := [];
    } else {
      var rest := NearestSlots(earlier, points[..|points| - 1], r);
      assert SomeoneWithin(earlier, points[|points| - 1], r);
      var k :| 0 <= k < |earlier| && Chebyshev(points[|points| - 1], earlier[k]) <= r;
      slots := rest + [k];
    }
  }

  /** With enough allowed tiles no two spawns coincide. */
  lemma SpawnsAreDistinct(grid: Grid, spawns: seq<Coord>, tiles: seq<Coord>)
    requires FarthestFirst(grid, spawns)
    requires |tiles| == |spawns| && NoDuplicates(tiles) && forall m :: 0 <= m < |tiles| ==> Allowed(grid, tiles[m])
    ensures NoDuplicates(spawns)
  {
    SpawnsAreWithinFactorTwo(grid, spawns, tiles, 1);
  }

  /** The tiles spawns are chosen from, row by row. */
  method CollectCandidates(map_: Map) returns (candidates: seq<Coord>)
    requires map_.Valid()
    ensures forall t :: t in candidates <==> Allowed(map_.View(), t)
  {
    candidates := [];
    var row := SPAWN_BORDER_MARGIN;
    while row < map_.height - SPAWN_BORDER_MARGIN
      invariant SPAWN_BORDER_MARGIN <= row
      invariant forall t :: t in candidates <==> Allowed(map_.View(), t) && t.row < row
    {
      var col := SPAWN_BORDER_MARGIN;
      while col < map_.width - SPAWN_BORDER_MARGIN
        invariant SPAWN_BORDER_MARGIN <= col
        invariant forall t :: t in candidates
                              <==> Allowed(map_.View(), t) && (t.row < row || (t.row == row && t.col < col))
      {
        var c := Coord(row, col);
        if PropertiesOf(map_.Tile(c)).passable {
          candidates := candidates + [c];
        }
        col := col + 1;
      }
      row := row + 1;
    }
  }

  /** `std::min_element` by distance to the centre: the first of the closest candidates. */
  method ClosestToCentre(candidates: seq<Coord>, ghost grid: Grid, centreRow: int, centreCol: int) returns (best: Coord)
    requires candidates != [] && centreRow == grid.height / 2 && centreCol == grid.width / 2
    ensures best in candidates
    ensures forall t :: t in candidates ==> DistToCentre(grid, best) <= DistToCentre(grid, t)
  {
    best := candidates[0];
    var bestDist := (best.row - centreRow) * (best.row - centreRow) + (best.col - centreCol) * (best.col - centreCol);
    for i := 1 to |candidates|
      invariant best in candidates && bestDist == DistToCentre(grid, best)
      invariant forall k :: 0 <= k < i ==> bestDist <= DistToCentre(grid, candidates[k])
    {
      var c := candidates[i];
      var dist := (c.row - centreRow) * (c.row - centreRow) + (c.col - centreCol) * (c.col - centreCol);
      if dist < bestDist {
        best, bestDist := c, dist;
      }
    }
  }

  /** The least distance from `candidate` to the spawns chosen so far. */
  method DistanceToSpawns(candidate: Coord, spawns: seq<Coord>) returns (minDist: int)
    requires spawns != []
    requires forall k :: 0 <= k < |spawns| ==> Chebyshev(candidate, spawns[k]) <= INT_MAX
    ensures 0 <= minDist && SomeoneWithin(spawns, candidate, minDist)
    ensures forall k :: 0 <= k < |spawns| ==> minDist <= Chebyshev(candidate, spawns[k])
  {
    minDist := INT_MAX;
    for i := 0 to |spawns|
      invariant 0 <= minDist && (i == 0 ==> minDist == INT_MAX) && (i > 0 ==> SomeoneWithin(spawns, candidate, minDist))
      invariant forall k :: 0 <= k < i ==> minDist <= Chebyshev(candidate, spawns[k])
    {
      var existing := spawns[i];
      var dist := Max(Abs(candidate.row - existing.row), Abs(candidate.col - existing.col));
      assert dist == Chebyshev(candidate, spawns[i]);
      minDist := Min(minDist, dist);
    }
  }

  /** The candidate farthest from its nearest existing spawn. */
  method FarthestCandidate(candidates: seq<Coord>, spawns: seq<Coord>, ghost grid: Grid) returns (best: Coord)
    requires candidates != [] && spawns != []
    requires forall t :: t in candidates <==> Allowed(grid, t)
    requires forall t, k :: t in candidates && 0 <= k < |spawns| ==> Chebyshev(t, spawns[k]) <= INT_MAX
    ensures best in candidates && Farthest(grid, spawns, best)
  {
    hide Chebyshev, Allowed;
    var bestMinDist := -1;
    best := candidates[0];
    for i := 0 to |candidates|
      invariant bestMinDist >= -1 && (i > 0 ==> bestMinDist >= 0) && best in candidates
      invariant bestMinDist >= 0 ==> forall k :: 0 <= k < |spawns| ==> bestMinDist <= Chebyshev(best, spawns[k])
      invariant forall m :: 0 <= m < i ==> bestMinDist >= 0 && SomeoneWithin(spawns, candidates[m], bestMinDist)
    {
      assert candidates[i] in candidates;
      var minDist := DistanceToSpawns(candidates[i], spawns);
      if minDist > bestMinDist {
        bestMinDist := minDist;
        best := candidates[i];
      }
    }
    forall t, k | Allowed(grid, t) && 0 <= k < |spawns|
      ensures SomeoneWithin(spawns, t, Chebyshev(best, spawns[k]))
    {
      var m :| 0 <= m < |candidates| && candidates[m] == t;
      assert SomeoneWithin(spawns, candidates[m], bestMinDist);
    }
  }

  lemma SpawnDistanceFits(grid: Grid, a: Coord, b: Coord)
    requires grid.height <= INT_MAX && grid.width <= INT_MAX && Allowed(grid, a) && Allowed(grid, b)
    ensures Chebyshev(a, b) <= INT_MAX
  {
  }

  /** Farthest-first spawn placement.  Its result carries the factor-2 guarantee above. */
  method FindSpawnPoints(map_: Map, factionCount: int) returns (spawns: seq<Coord>)
    requires map_.Valid() && map_.height <= INT_MAX && map_.width <= INT_MAX
    ensures FarthestFirst(map_.View(), spawns)
    ensures if factionCount > 0 && (exists t :: Allowed(map_.View(), t)) then |spawns| == factionCount else spawns == []
  {
    hide Chebyshev, Allowed, DistToCentre, Farthest;
    ghost var grid := map_.View();
    var candidates := CollectCandidates(map_);
    if candidates == [] || factionCount <= 0 {
      return [];
    }
    assert candidates[0] in candidates;
    var first := ClosestToCentre(candidates, grid, map_.height / 2, map_.width / 2);
    spawns := [first];
    for i := 1 to factionCount
      invariant |spawns| == i && FarthestFirst(grid, spawns)
    {
      forall t, k | t in candidates && 0 <= k < |spawns|
        ensures Chebyshev(t, spawns[k]) <= INT_MAX
      {
        SpawnDistanceFits(grid, t, spawns[k]);
      }
      var best := FarthestCandidate(candidates, spawns, grid);
      ghost var before := spawns;
      spawns := spawns + [best];
      forall j | 1 <= j < |spawns|
        ensures Farthest(grid, spawns[..j], spawns[j])
      {
        assert spawns[..j] == before[..j];
        assert before[..|before|] == before;
      }
    }
  }
}
