/** Terrain smoothing: each pass rewrites the map in place from a snapshot of it. */
module Smoothing {
  import opened Common
  import opened Hex
  import opened Terrain

  const SMOOTHING_THRESHOLD := 4

  /** The eight tiles around a tile, on the square grid. */
  const AROUND := [Offset(-1, -1), Offset(-1, 0), Offset(-1, 1), Offset(0, -1), Offset(0, 1), Offset(1, -1), Offset(1, 0), Offset(1, 1)]

  function Surroundings(g: Grid, c: Coord): seq<Coord> {
    ShiftedInMap(c, AROUND, g.height, g.width)
  }

  /** How many of the listed tiles have terrain `t`. */
  function Count(g: Grid, tiles: seq<Coord>, t: TerrainType): (n: nat)
    requires forall i :: 0 <= i < |tiles| ==> g.Has(tiles[i])
    ensures n <= |tiles|
    ensures n > 0 <==> exists i :: 0 <= i < |tiles| && g.At(tiles[i]) == t
  {
    if tiles == [] then 0
    else
      var init, last := tiles[..|tiles| - 1], tiles[|tiles| - 1];
      assert tiles == init + [last];
      Count(g, init, t) + if g.At(last) == t then 1 else 0
  }

  lemma SurroundingsInMap(g: Grid, c: Coord, i: nat)
    requires i < |Surroundings(g, c)|
    ensures g.Has(Surroundings(g, c)[i])
  {
    ShiftedInMapMembers(c, AROUND, g.height, g.width, Surroundings(g, c)[i]);
  }

  /** How many of the tiles around `c` have terrain `t`. */
  function CountAround(g: Grid, c: Coord, t: TerrainType): (n: nat)
    ensures n <= |Surroundings(g, c)|
  {
    assert forall i :: 0 <= i < |Surroundings(g, c)| ==> g.Has(Surroundings(g, c)[i]) by {
      forall i | 0 <= i < |Surroundings(g, c)| {
        SurroundingsInMap(g, c, i);
      }
    }
    Count(g, Surroundings(g, c), t)
  }

  /** The number of a terrain type in the enumeration. */
  function Ordinal(t: TerrainType): (k: nat)
    ensures k < |ALL_TERRAINS| && ALL_TERRAINS[k] == t
  {
    match t case Plains => 0 case Hills => 1 case Forest => 2 case Water => 3 case Mountain => 4 case Desert => 5 case Swamp => 6
  }

  lemma OrdinalIsOnlyNumber(k: nat)
    requires k < |ALL_TERRAINS|
    ensures Ordinal(ALL_TERRAINS[k]) == k
  {
  }

  /** No terrain is more frequent around `c`, and none as frequent comes earlier in the enumeration. */
  ghost predicate IsMostCommon(g: Grid, c: Coord, t: TerrainType) {
    forall u: TerrainType ::
      && CountAround(g, c, u) <= CountAround(g, c, t)
      && (Ordinal(u) < Ordinal(t) ==> CountAround(g, c, u) < CountAround(g, c, t))
  }

  ghost predicate IsSpeckle(g: Grid, c: Coord)
    requires g.Has(c)
  {
    CountAround(g, c, g.At(c)) < SMOOTHING_THRESHOLD && Surroundings(g, c) != []
  }

  /** What a pass over the grid `g` makes of tile `c`. */
  ghost predicate SmoothsTo(g: Grid, c: Coord, t: TerrainType)
    requires g.Has(c)
  {
    if IsSpeckle(g, c) then IsMostCommon(g, c, t) else t == g.At(c)
  }

  /** Every tile of `h` is what a pass makes of it from `g`: all tiles at once, none from an already smoothed one. */
  ghost predicate IsSmoothed(g: Grid, h: Grid) {
    h.height == g.height && h.width == g.width && forall c :: g.Has(c) ==> SmoothsTo(g, c, h.At(c))
  }

  ghost predicate IsSmoothedTimes(g: Grid, h: Grid, passes: nat)
    decreases passes
  {
    if passes == 0 then g == h else exists m :: IsSmoothedTimes(g, m, passes - 1) && IsSmoothed(m, h)
  }

  /** A pass over `g` in figures: the tiles around a tile are the up to eight others in the square around it; with at
      least four of its own terrain among them it stays, and with fewer it becomes what most of them are. */
  lemma SmoothingInFigures(g: Grid, c: Coord, t: TerrainType)
    requires g.Has(c) && SmoothsTo(g, c, t)
    ensures forall d :: d in Surroundings(g, c) <==> g.Has(d) && d != c && -1 <= d.row - c.row <= 1 && -1 <= d.col - c.col <= 1
    ensures |Alike(g, c, g.At(c))| >= 4 ==> t == g.At(c)
    ensures |Alike(g, c, g.At(c))| < 4 && Surroundings(g, c) != [] ==>
              forall u: TerrainType :: |Alike(g, c, u)| <= |Alike(g, c, t)|
  {
    hide CountAround;
    forall u: TerrainType
      ensures CountAround(g, c, u) == |Alike(g, c, u)|
    {
      CountIsNumber(g, c, u);
    }
    forall d
      ensures d in Surroundings(g, c) <==> g.Has(d) && d != c && -1 <= d.row - c.row <= 1 && -1 <= d.col - c.col <= 1
    {
      AroundIsSquare(g, c, d);
    }
  }

  lemma AroundIsSquare(g: Grid, c: Coord, d: Coord)
    ensures d in Surroundings(g, c) <==> g.Has(d) && d != c && -1 <= d.row - c.row <= 1 && -1 <= d.col - c.col <= 1
  {
    ShiftedInMapMembers(c, AROUND, g.height, g.width, d);
    AroundOffsets(Offset(d.row - c.row, d.col - c.col));
  }

  lemma AroundOffsets(o: Offset)
    ensures o in AROUND <==> o != Offset(0, 0) && -1 <= o.dr <= 1 && -1 <= o.dc <= 1
    ensures NoDuplicates(AROUND)
  {
  }

  /** The tiles around `c` with terrain `t`. */
  ghost function Alike(g: Grid, c: Coord, t: TerrainType): set<Coord> {
    AlikeIn(g, Surroundings(g, c), t)
  }

  lemma CountIsNumber(g: Grid, c: Coord, t: TerrainType)
    ensures CountAround(g, c, t) == |Alike(g, c, t)|
  {
    AroundOffsets(Offset(0, 0));
    ShiftedInMapNoDuplicates(c, AROUND, g.height, g.width);
    forall i | 0 <= i < |Surroundings(g, c)|
      ensures g.Has(Surroundings(g, c)[i])
    {
      SurroundingsInMap(g, c, i);
    }
    CountsMembers(g, Surroundings(g, c), t);
  }

  ghost function AlikeIn(g: Grid, tiles: seq<Coord>, t: TerrainType): set<Coord> {
    set d | d in tiles && g.Has(d) && g.At(d) == t
  }

  lemma {:induction false} CountsMembers(g: Grid, tiles: seq<Coord>, t: TerrainType)
    requires NoDuplicates(tiles) && forall i :: 0 <= i < |tiles| ==> g.Has(tiles[i])
    ensures Count(g, tiles, t) == |AlikeIn(g, tiles, t)|
  {
    hide AlikeIn;
    if tiles == [] {
      NothingAlike(g, t);
    } else {
      var n := |tiles| - 1;
      CountsMembers(g, tiles[..n], t);
      OneMoreAlike(g, tiles[..n], tiles[n], t);
      assert tiles == tiles[..n] + [tiles[n]];
    }
  }

  lemma NothingAlike(g: Grid, t: TerrainType)
    ensures AlikeIn(g, [], t) == {}
  {
  }

  lemma OneMoreAlike(g: Grid, tiles: seq<Coord>, c: Coord, t: TerrainType)
    requires c !in tiles && g.Has(c)
    ensures |AlikeIn(g, tiles + [c], t)| == |AlikeIn(g, tiles, t)| + if g.At(c) == t then 1 else 0
  {
    var before, after := AlikeIn(g, tiles, t), AlikeIn(g, tiles + [c], t);
    assert c !in before;
    if g.At(c) == t {
      assert after == before + {c};
    } else {
      assert after == before;
    }
  }

  /** A pass is deterministic, so the in-place rewriting cannot give anything else. */
  lemma SmoothedIsUnique(g: Grid, h: Grid, h': Grid)
    requires IsSmoothed(g, h) && IsSmoothed(g, h')
    ensures h == h'
  {
    hide IsMostCommon;
    forall c | g.Has(c)
      ensures h.At(c) == h'.At(c)
    {
      if IsSpeckle(g, c) {
        MostCommonIsUnique(g, c, h.At(c), h'.At(c));
      }
    }
    SameGrid(h, h');
  }

  lemma MostCommonIsUnique(g: Grid, c: Coord, t: TerrainType, u: TerrainType)
    requires IsMostCommon(g, c, t) && IsMostCommon(g, c, u)
    ensures t == u
  {
    hide CountAround;
    assert ALL_TERRAINS[Ordinal(t)] == t && ALL_TERRAINS[Ordinal(u)] == u;
    assert CountAround(g, c, t) == CountAround(g, c, u);
  }

  /** A pass never turns a tile into a terrain that was rarer around it, and only into its own terrain or one
      that was next to it. */
  lemma SmoothingFollowsSurroundings(g: Grid, c: Coord, t: TerrainType)
    requires g.Has(c) && SmoothsTo(g, c, t)
    ensures CountAround(g, c, g.At(c)) <= CountAround(g, c, t)
    ensures t == g.At(c) || exists i :: 0 <= i < |Surroundings(g, c)| && g.Has(Surroundings(g, c)[i]) && g.At(Surroundings(g, c)[i]) == t
  {
    if IsSpeckle(g, c) {
      var d := Surroundings(g, c)[0];
      SurroundingsInMap(g, c, 0);
      assert CountAround(g, c, g.At(d)) > 0;
      assert CountAround(g, c, g.At(d)) <= CountAround(g, c, t);
      forall i | 0 <= i < |Surroundings(g, c)|
        ensures g.Has(Surroundings(g, c)[i])
      {
        SurroundingsInMap(g, c, i);
      }
    }
  }

  /** However many passes are made, no terrain type appears that the map did not have. */
  lemma {:induction false} NoTerrainAppears(g: Grid, h: Grid, passes: nat, c: Coord) returns (d: Coord)
    requires IsSmoothedTimes(g, h, passes) && h.Has(c)
    ensures g.Has(d) && g.At(d) == h.At(c)
    decreases passes
  {
    hide SmoothsTo, CountAround, Surroundings;
    if passes == 0 {
      d := c;
    } else {
      var m :| IsSmoothedTimes(g, m, passes - 1) && IsSmoothed(m, h);
      SmoothingFollowsSurroundings(m, c, h.At(c));
      var e := c;
      if h.At(c) != m.At(c) {
        var i :| 0 <= i < |Surroundings(m, c)| && m.Has(Surroundings(m, c)[i]) && m.At(Surroundings(m, c)[i]) == h.At(c);
        e := Surroundings(m, c)[i];
      }
      d := NoTerrainAppears(g, m, passes - 1, e);
    }
  }

  // ---- The loops --------------------------------------------------------------------------

  /** The tiles the loops visit around `c`: one more offset. */
  lemma OneMoreOffset(g: Grid, c: Coord, i: nat)
    requires i < |AROUND|
    ensures var t := Shift(c, AROUND[i]);
            ShiftedInMap(c, AROUND[..i + 1], g.height, g.width)
            == ShiftedInMap(c, AROUND[..i], g.height, g.width) + if g.Has(t) then [t] else []
  {
    assert AROUND[..i + 1][..i] == AROUND[..i];
  }

  ghost predicate AllInMap(g: Grid, tiles: seq<Coord>) {
    forall i :: 0 <= i < |tiles| ==> g.Has(tiles[i])
  }

  lemma CountOneMore(g: Grid, tiles: seq<Coord>, d: Coord, t: TerrainType)
    requires AllInMap(g, tiles) && g.Has(d)
    ensures AllInMap(g, tiles + [d])
    ensures Count(g, tiles + [d], t) == Count(g, tiles, t) + if g.At(d) == t then 1 else 0
  {
    assert (tiles + [d])[..|tiles|] == tiles;
  }

  method CountSameNeighbours(snapshot: Grid, c: Coord) returns (same: nat, total: nat)
    requires snapshot.Has(c)
    ensures same == CountAround(snapshot, c, snapshot.At(c)) && total == |Surroundings(snapshot, c)|
  {
    hide ShiftedInMap, Count;
    same, total := 0, 0;
    ghost var seen: seq<Coord> := [];
    NothingSeen(snapshot, c);
    for i := 0 to |AROUND|
      invariant seen == ShiftedInMap(c, AROUND[..i], snapshot.height, snapshot.width)
      invariant AllInMap(snapshot, seen) && total == |seen| && same == Count(snapshot, seen, snapshot.At(c))
    {
      OneMoreOffset(snapshot, c, i);
      var d := Shift(c, AROUND[i]);
      if InMap(d, snapshot.height, snapshot.width) {
        CountOneMore(snapshot, seen, d, snapshot.At(c));
        total := total + 1;
        if snapshot.At(d) == snapshot.At(c) {
          same := same + 1;
        }
        seen := seen + [d];
      }
    }
    assert AROUND[..|AROUND|] == AROUND;
  }

  lemma NothingSeen(g: Grid, c: Coord)
    ensures ShiftedInMap(c, AROUND[..0], g.height, g.width) == []
    ensures forall t :: Count(g, [], t) == 0
  {
  }

  method CountTerrains(snapshot: Grid, c: Coord) returns (counts: seq<nat>)
    ensures |counts| == |ALL_TERRAINS|
    ensures forall k :: 0 <= k < |counts| ==> counts[k] == CountAround(snapshot, c, ALL_TERRAINS[k])
  {
    hide ShiftedInMap, Count, Ordinal;
    counts := seq(|ALL_TERRAINS|, k => 0);
    ghost var seen: seq<Coord> := [];
    NothingSeen(snapshot, c);
    for i := 0 to |AROUND|
      invariant seen == ShiftedInMap(c, AROUND[..i], snapshot.height, snapshot.width)
      invariant AllInMap(snapshot, seen) && |counts| == |ALL_TERRAINS|
      invariant forall k :: 0 <= k < |counts| ==> counts[k] == Count(snapshot, seen, ALL_TERRAINS[k])
    {
      OneMoreOffset(snapshot, c, i);
      var d := Shift(c, AROUND[i]);
      if InMap(d, snapshot.height, snapshot.width) {
        var n := Ordinal(snapshot.At(d));
        forall k | 0 <= k < |counts|
          ensures AllInMap(snapshot, seen + [d])
          ensures Count(snapshot, seen + [d], ALL_TERRAINS[k]) == Count(snapshot, seen, ALL_TERRAINS[k]) + if k == n then 1 else 0
        {
          CountOneMore(snapshot, seen, d, ALL_TERRAINS[k]);
          OrdinalIsOnlyNumber(k);
        }
        counts := counts[n := counts[n] + 1];
        seen := seen + [d];
      }
    }
    assert AROUND[..|AROUND|] == AROUND;
  }

  /** `std::max_element`: the first of the greatest counts. */
  method MostCommonNeighbour(snapshot: Grid, c: Coord) returns (t: TerrainType)
    ensures IsMostCommon(snapshot, c, t)
  {
    hide CountAround, Ordinal;
    var counts := CountTerrains(snapshot, c);
    var best := 0;
    for j := 1 to |counts|
      invariant 0 <= best < j
      invariant forall i :: 0 <= i < j ==> counts[i] <= counts[best] && (i < best ==> counts[i] < counts[best])
    {
      if counts[best] < counts[j] {
        best := j;
      }
    }
    t := ALL_TERRAINS[best];
    OrdinalIsOnlyNumber(best);
    forall u: TerrainType
      ensures CountAround(snapshot, c, u) <= CountAround(snapshot, c, t)
      ensures Ordinal(u) < Ordinal(t) ==> CountAround(snapshot, c, u) < CountAround(snapshot, c, t)
    {
      assert counts[Ordinal(u)] == CountAround(snapshot, c, ALL_TERRAINS[Ordinal(u)]);
    }
  }

  /** One pass: a snapshot, then every tile in place, row by row. */
  method SmoothOnce(map_: Map)
    requires map_.Valid()
    modifies map_`tiles
    ensures map_.Valid() && IsSmoothed(old(map_.View()), map_.View())
  {
    hide SmoothsTo, IsSpeckle, CountAround, Surroundings, WithTerrain, IsMostCommon;
    var snapshot := Snapshot(map_);
    for row := 0 to map_.height
      invariant map_.Valid() && map_.View().height == snapshot.height && map_.View().width == snapshot.width
      invariant forall c :: snapshot.Has(c) && c.row < row ==> SmoothsTo(snapshot, c, map_.View().At(c))
      invariant forall c :: snapshot.Has(c) && c.row >= row ==> map_.View().At(c) == snapshot.At(c)
    {
      for col := 0 to map_.width
        invariant map_.Valid() && map_.View().height == snapshot.height && map_.View().width == snapshot.width
        invariant forall c :: snapshot.Has(c) && (c.row < row || (c.row == row && c.col < col))
                    ==> SmoothsTo(snapshot, c, map_.View().At(c))
        invariant forall c :: snapshot.Has(c) && (c.row > row || (c.row == row && c.col >= col))
                    ==> map_.View().At(c) == snapshot.At(c)
      {
        SmoothTile(map_, snapshot, Coord(row, col));
      }
    }
  }

  /** The terrain of every tile, copied. */
  method Snapshot(map_: Map) returns (snapshot: Grid)
    requires map_.Valid()
    ensures snapshot == map_.View()
  {
    var rows: seq<seq<TerrainType>> := [];
    for row := 0 to map_.height
      invariant rows == map_.tiles[..row]
    {
      var line: seq<TerrainType> := [];
      for col := 0 to map_.width
        invariant line == map_.tiles[row][..col]
      {
        line := line + [map_.Tile(Coord(row, col))];
      }
      assert line == map_.tiles[row];
      rows := rows + [line];
    }
    snapshot := RawGrid.Grid(map_.height, map_.width, rows);
  }

  method SmoothTile(map_: Map, snapshot: Grid, c: Coord)
    requires map_.Valid() && snapshot.Has(c) && map_.View().height == snapshot.height && map_.View().width == snapshot.width
    requires map_.View().At(c) == snapshot.At(c)
    modifies map_`tiles
    ensures map_.Valid() && map_.View().height == snapshot.height && map_.View().width == snapshot.width
    ensures SmoothsTo(snapshot, c, map_.View().At(c))
    ensures forall d :: snapshot.Has(d) && d != c ==> map_.View().At(d) == old(map_.View()).At(d)
  {
    hide CountAround, Surroundings, WithTerrain, IsMostCommon;
    var same, total := CountSameNeighbours(snapshot, c);
    if same < SMOOTHING_THRESHOLD && total > 0 {
      var t := MostCommonNeighbour(snapshot, c);
      map_.SetTerrainType(c, t);
    }
  }

  method SmoothMap(map_: Map, passes: int)
    requires map_.Valid()
    modifies map_`tiles
    ensures map_.Valid() && IsSmoothedTimes(old(map_.View()), map_.View(), Max(0, passes))
  {
    hide IsSmoothed;
    var pass := 0;
    while pass < passes
      invariant 0 <= pass <= Max(0, passes) && map_.Valid()
      invariant IsSmoothedTimes(old(map_.View()), map_.View(), pass)
    {
      SmoothOnce(map_);
      pass := pass + 1;
    }
  }
}
