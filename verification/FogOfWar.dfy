/** Fog of war: what each faction sees now, has seen before, and has never seen. */
module FogOfWar {
  import opened Common
  import opened Hex
  import opened Terrain
  import opened Diplomacy
  import opened Units
  import opened Cities
  import opened TileSets

  datatype Visibility = Unexplored | Explored | Visible

  const CITY_SIGHT_RANGE := 3

  /** One recalculation: for whom, over which map, with which units and cities on it. */
  datatype Sight = Sight(faction: FactionId, height: nat, width: nat, units: seq<UnitState>, cities: seq<CityState>)
  {
    ghost predicate FromUnit(i: int, c: Coord) {
      0 <= i < |units| && units[i].factionId == faction && HexDistance(units[i].pos, c) <= units[i].tmpl.sightRange
    }

    /** The owner of a city is a signed number; it is compared with the faction by value. */
    ghost predicate FromCity(k: int, c: Coord) {
      0 <= k < |cities| && cities[k].factionId == faction as int && FromTiles(cities[k].tiles, c)
    }

    /** One of the first `n` units has the tile in range. */
    ghost predicate FromUnitsBelow(n: int, c: Coord) {
      exists i :: i < n && FromUnit(i, c)
    }

    ghost predicate FromCitiesBelow(n: int, c: Coord) {
      exists k :: k < n && FromCity(k, c)
    }

    /** A tile of the map within sight range of a friendly unit, dead or alive, or of a tile of a friendly city. */
    ghost predicate Sees(c: Coord) {
      && InMap(c, height, width)
      && (FromUnitsBelow(|units|, c) || FromCitiesBelow(|cities|, c))
    }
  }

  ghost predicate FromTiles(tiles: set<Coord>, c: Coord) {
    exists t :: t in tiles && HexDistance(t, c) <= CITY_SIGHT_RANGE
  }

  /** A tile of the map is seen exactly when it is within the sight range of some unit of the faction, or within
      three of some tile of a city of the faction. */
  lemma SeesIff(now: Sight, c: Coord)
    ensures now.Sees(c)
            <==> && InMap(c, now.height, now.width)
                 && ((exists u :: u in now.units && u.factionId == now.faction && HexDistance(u.pos, c) <= u.tmpl.sightRange)
                     || exists city, t :: city in now.cities && city.factionId == now.faction as int
                                          && t in city.tiles && HexDistance(t, c) <= 3)
  {
    hide HexDistance;
    if u :| u in now.units && u.factionId == now.faction && HexDistance(u.pos, c) <= u.tmpl.sightRange {
      var i :| 0 <= i < |now.units| && now.units[i] == u;
      assert now.FromUnit(i, c);
    }
    if city, t :| city in now.cities && city.factionId == now.faction as int && t in city.tiles && HexDistance(t, c) <= 3 {
      var k :| 0 <= k < |now.cities| && now.cities[k] == city;
      assert now.FromCity(k, c);
    }
  }

  // ---- Any run of recalculations --------------------------------------------------------

  /** The visibility of a tile for a faction after a run of recalculations. */
  ghost function After(sights: seq<Sight>, f: FactionId, c: Coord): Visibility {
    if sights == [] then Unexplored
    else
      var before, now := After(sights[..|sights| - 1], f, c), sights[|sights| - 1];
      if now.faction != f then before
      else if now.Sees(c) then Visible
      else if before == Unexplored then Unexplored
      else Explored
  }

  /** The latest recalculation for `f` among the first `n`, or -1. */
  ghost function Latest(sights: seq<Sight>, f: FactionId): (k: int)
    ensures -1 <= k < |sights|
    ensures k >= 0 ==> sights[k].faction == f
    ensures forall j :: k < j < |sights| ==> sights[j].faction != f
  {
    if sights == [] then -1
    else if sights[|sights| - 1].faction == f then |sights| - 1
    else Latest(sights[..|sights| - 1], f)
  }

  /** In closed form: a tile is unexplored exactly when no recalculation for the faction ever saw it, and
      visible exactly when the latest one did. */
  lemma {:induction false} VisibilityInClosedForm(sights: seq<Sight>, f: FactionId, c: Coord)
    ensures After(sights, f, c) == Unexplored <==> forall j :: 0 <= j < |sights| && sights[j].faction == f ==> !sights[j].Sees(c)
    ensures After(sights, f, c) == Visible <==> Latest(sights, f) >= 0 && sights[Latest(sights, f)].Sees(c)
  {
    hide Sight.Sees;
    if sights != [] {
      var init := sights[..|sights| - 1];
      VisibilityInClosedForm(init, f, c);
      assert sights == init + [sights[|sights| - 1]];
      assert forall j :: 0 <= j < |init| ==> init[j] == sights[j];
    }
  }

  /** Nothing is ever forgotten: a tile once seen never becomes unexplored again. */
  lemma SeenStaysSeen(sights: seq<Sight>, more: seq<Sight>, f: FactionId, c: Coord)
    requires After(sights, f, c) != Unexplored
    ensures After(sights + more, f, c) != Unexplored
  {
    VisibilityInClosedForm(sights, f, c);
    VisibilityInClosedForm(sights + more, f, c);
    var j :| 0 <= j < |sights| && sights[j].faction == f && sights[j].Sees(c);
    assert (sights + more)[j] == sights[j];
  }

  // ---- Flat grids ---------------------------------------------------------------------

  function Index(cols: nat, c: Coord): int {
    c.row * cols + c.col
  }

  lemma IndexInRange(rows: nat, cols: nat, c: Coord)
    requires InMap(c, rows, cols)
    ensures 0 <= Index(cols, c) < rows * cols
  {
    assert (rows - 1 - c.row) * cols >= 0;
    assert c.row * cols >= 0;
  }

  lemma IndexIsInjective(cols: nat, c: Coord, d: Coord)
    requires 0 <= c.col < cols && 0 <= d.col < cols && Index(cols, c) == Index(cols, d)
    ensures c == d
  {
    assert (c.row - d.row) * cols == d.col - c.col;
    MultiplesAreFar(c.row - d.row, cols);
  }

  lemma MultiplesAreFar(k: int, d: int)
    requires d >= 0
    ensures k >= 1 ==> k * d >= d
    ensures k <= -1 ==> k * d <= -d
  {
  }

  /** The entry of a tile. */
  function At(grid: seq<Visibility>, rows: nat, cols: nat, c: Coord): Visibility
    requires |grid| == rows * cols && InMap(c, rows, cols)
  {
    IndexInRange(rows, cols, c);
    grid[Index(cols, c)]
  }

  function Set(grid: seq<Visibility>, rows: nat, cols: nat, c: Coord, v: Visibility): (r: seq<Visibility>)
    requires |grid| == rows * cols && InMap(c, rows, cols)
    ensures |r| == |grid|
  {
    IndexInRange(rows, cols, c);
    grid[Index(cols, c) := v]
  }

  /** Setting a tile changes the entry of no other tile. */
  lemma SetChangesOneTile(grid: seq<Visibility>, rows: nat, cols: nat, d: Coord, v: Visibility)
    requires |grid| == rows * cols && InMap(d, rows, cols)
    ensures forall c :: InMap(c, rows, cols) ==>
              At(Set(grid, rows, cols, d, v), rows, cols, c) == if c == d then v else At(grid, rows, cols, c)
  {
    forall c | InMap(c, rows, cols)
      ensures At(Set(grid, rows, cols, d, v), rows, cols, c) == if c == d then v else At(grid, rows, cols, c)
    {
      IndexInRange(rows, cols, c);
      IndexInRange(rows, cols, d);
      if Index(cols, c) == Index(cols, d) {
        IndexIsInjective(cols, c, d);
      }
    }
  }

  /** Every tile within range of the centre becomes visible and no other tile changes.  The scan only covers the
      square around the centre, which leaves no tile within range out. */
  method ApplyVision(grid: seq<Visibility>, rows: nat, cols: nat, centre: Coord, sightRange: int, height: nat, width: nat)
    returns (grid': seq<Visibility>)
    requires |grid| == rows * cols && height <= rows && width <= cols
    ensures |grid'| == |grid|
    ensures forall c :: InMap(c, rows, cols) ==>
              At(grid', rows, cols, c)
              == if InMap(c, height, width) && HexDistance(centre, c) <= sightRange then Visible else At(grid, rows, cols, c)
  {
    hide HexDistance, At, Set;
    var minRow, maxRow := Max(0, centre.row - sightRange), Min(height - 1, centre.row + sightRange);
    var minCol, maxCol := Max(0, centre.col - sightRange), Min(width - 1, centre.col + sightRange);
    grid' := grid;
    var row := minRow;
    while row <= maxRow
      invariant minRow <= row && |grid'| == |grid|
      invariant forall c :: InMap(c, rows, cols) ==>
                  At(grid', rows, cols, c)
                  == if minRow <= c.row <= maxRow && c.row < row && minCol <= c.col <= maxCol
                        && HexDistance(centre, c) <= sightRange then Visible
                     else At(grid, rows, cols, c)
    {
      var col := minCol;
      while col <= maxCol
        invariant minCol <= col && |grid'| == |grid|
        invariant forall c :: InMap(c, rows, cols) ==>
                    At(grid', rows, cols, c)
                    == if minRow <= c.row <= maxRow && (c.row < row || (c.row == row && c.col < col))
                          && minCol <= c.col <= maxCol && HexDistance(centre, c) <= sightRange then Visible
                       else At(grid, rows, cols, c)
      {
        var d := Coord(row, col);
        if HexDistance(centre, d) <= sightRange {
          SetChangesOneTile(grid', rows, cols, d, Visible);
          grid' := Set(grid', rows, cols, d, Visible);
        }
        col := col + 1;
      }
      row := row + 1;
    }
    forall c | InMap(c, height, width) && HexDistance(centre, c) <= sightRange
      ensures minRow <= c.row <= maxRow && minCol <= c.col <= maxCol
    {
      DistanceBoundsRowAndColumn(centre, c);
    }
  }

  /** Everything visible becomes explored. */
  method Demote(grid: seq<Visibility>) returns (grid': seq<Visibility>)
    ensures |grid'| == |grid|
    ensures forall i :: 0 <= i < |grid| ==> grid'[i] == if grid[i] == Visible then Explored else grid[i]
  {
    grid' := grid;
    for i := 0 to |grid|
      invariant |grid'| == |grid|
      invariant forall j :: 0 <= j < |grid| ==> grid'[j] == if j < i && grid[j] == Visible then Explored else grid[j]
    {
      if grid'[i] == Visible {
        grid' := grid'[i := Explored];
      }
    }
  }

  /** The second phase: what friendly units have in range becomes visible. */
  method LookFromUnits(grid: seq<Visibility>, rows: nat, cols: nat, f: FactionId, units: seq<Unit>, map_: Map, ghost now: Sight)
    returns (grid': seq<Visibility>)
    requires |grid| == rows * cols && map_.height <= rows && map_.width <= cols
    requires now.faction == f && now.height == map_.height && now.width == map_.width && now.units == StatesOf(units)
    ensures |grid'| == |grid|
    ensures forall c :: InMap(c, rows, cols) ==>
              At(grid', rows, cols, c)
              == if InMap(c, now.height, now.width) && now.FromUnitsBelow(|units|, c) then Visible else At(grid, rows, cols, c)
  {
    hide HexDistance, At, Sight.FromUnitsBelow;
    grid' := grid;
    forall c
      ensures !now.FromUnitsBelow(0, c)
    {
      NobodyYet(now, c);
    }
    for i := 0 to |units|
      invariant |grid'| == |grid|
      invariant forall c :: InMap(c, rows, cols) ==>
                  At(grid', rows, cols, c)
                  == if InMap(c, now.height, now.width) && now.FromUnitsBelow(i, c) then Visible else At(grid, rows, cols, c)
    {
      forall c
        ensures now.FromUnitsBelow(i + 1, c) <==> now.FromUnitsBelow(i, c) || now.FromUnit(i, c)
      {
        OneMoreUnit(now, i, c);
      }
      if units[i].factionId == f {
        grid' := ApplyVision(grid', rows, cols, units[i].Pos(), units[i].tmpl.sightRange, map_.height, map_.width);
      }
    }
  }

  lemma NobodyYet(now: Sight, c: Coord)
    ensures !now.FromUnitsBelow(0, c) && !now.FromCitiesBelow(0, c)
  {
  }

  lemma OneMoreUnit(now: Sight, i: int, c: Coord)
    requires 0 <= i
    ensures now.FromUnitsBelow(i + 1, c) <==> now.FromUnitsBelow(i, c) || now.FromUnit(i, c)
  {
  }

  lemma OneMoreCity(now: Sight, k: int, c: Coord)
    requires 0 <= k
    ensures now.FromCitiesBelow(k + 1, c) <==> now.FromCitiesBelow(k, c) || now.FromCity(k, c)
  {
  }

  /** A city looks from each of its tiles, in the order of the set. */
  method LookFromTiles(grid: seq<Visibility>, rows: nat, cols: nat, tiles: set<Coord>, height: nat, width: nat)
    returns (grid': seq<Visibility>)
    requires |grid| == rows * cols && height <= rows && width <= cols
    ensures |grid'| == |grid|
    ensures forall c :: InMap(c, rows, cols) ==>
              At(grid', rows, cols, c)
              == if InMap(c, height, width) && FromTiles(tiles, c) then Visible else At(grid, rows, cols, c)
  {
    hide HexDistance, At;
    grid' := grid;
    var todo := tiles;
    while todo != {}
      invariant todo <= tiles && |grid'| == |grid|
      invariant forall c :: InMap(c, rows, cols) ==>
                  At(grid', rows, cols, c)
                  == if InMap(c, height, width) && FromTiles(tiles - todo, c) then Visible else At(grid, rows, cols, c)
    {
      var tile := FirstTile(todo);
      grid' := ApplyVision(grid', rows, cols, tile, CITY_SIGHT_RANGE, height, width);
      forall c
        ensures FromTiles(tiles - (todo - {tile}), c) <==> FromTiles(tiles - todo, c) || HexDistance(tile, c) <= CITY_SIGHT_RANGE
      {
        assert tiles - (todo - {tile}) == (tiles - todo) + {tile};
      }
      todo := todo - {tile};
    }
    assert tiles - todo == tiles;
  }

  /** The third phase: what friendly cities have in range becomes visible. */
  method LookFromCities(grid: seq<Visibility>, rows: nat, cols: nat, f: FactionId, cities: seq<City>, map_: Map, ghost now: Sight)
    returns (grid': seq<Visibility>)
    requires |grid| == rows * cols && map_.height <= rows && map_.width <= cols
    requires now.faction == f && now.height == map_.height && now.width == map_.width && now.cities == CityStatesOf(cities)
    ensures |grid'| == |grid|
    ensures forall c :: InMap(c, rows, cols) ==>
              At(grid', rows, cols, c)
              == if InMap(c, now.height, now.width) && now.FromCitiesBelow(|cities|, c) then Visible else At(grid, rows, cols, c)
  {
    hide HexDistance, At, Sight.FromCitiesBelow, FromTiles;
    grid' := grid;
    forall c
      ensures !now.FromCitiesBelow(0, c)
    {
      NobodyYet(now, c);
    }
    for k := 0 to |cities|
      invariant |grid'| == |grid|
      invariant forall c :: InMap(c, rows, cols) ==>
                  At(grid', rows, cols, c)
                  == if InMap(c, now.height, now.width) && now.FromCitiesBelow(k, c) then Visible else At(grid, rows, cols, c)
    {
      forall c
        ensures now.FromCitiesBelow(k + 1, c) <==> now.FromCitiesBelow(k, c) || now.FromCity(k, c)
      {
        OneMoreCity(now, k, c);
      }
      if cities[k].factionId == f as int {
        grid' := LookFromTiles(grid', rows, cols, cities[k].tiles, map_.height, map_.width);
      }
    }
  }

  // ---- The fog ----------------------------------------------------------------------

  type Grids = map<FactionId, seq<Visibility>>

  predicate Fit(grids: Grids, rows: nat, cols: nat) {
    forall f :: f in grids ==> |grids[f]| == rows * cols
  }

  /** Unexplored while the faction has no grid yet. */
  function VisibilityIn(grids: Grids, rows: nat, cols: nat, f: FactionId, c: Coord): Visibility
    requires Fit(grids, rows, cols) && (f in grids ==> InMap(c, rows, cols))
  {
    if f !in grids then Unexplored else At(grids[f], rows, cols, c)
  }

  /** The grids show what a run of recalculations has seen. */
  ghost predicate Shows(grids: Grids, rows: nat, cols: nat, sights: seq<Sight>) {
    && Fit(grids, rows, cols)
    && forall f, c :: InMap(c, rows, cols) ==> VisibilityIn(grids, rows, cols, f, c) == After(sights, f, c)
  }

  lemma BlankGridShows(grids: Grids, rows: nat, cols: nat, sights: seq<Sight>, f: FactionId)
    requires Shows(grids, rows, cols, sights) && f !in grids
    ensures Shows(grids[f := seq(rows * cols, i => Unexplored)], rows, cols, sights)
  {
    hide After;
    var blank := seq(rows * cols, i => Unexplored);
    forall c | InMap(c, rows, cols)
      ensures At(blank, rows, cols, c) == Unexplored
    {
      IndexInRange(rows, cols, c);
    }
    forall g, c | InMap(c, rows, cols)
      ensures VisibilityIn(grids[f := blank], rows, cols, g, c) == VisibilityIn(grids, rows, cols, g, c)
    {
    }
  }

  lemma DemotedAt(grid: seq<Visibility>, demoted: seq<Visibility>, rows: nat, cols: nat, c: Coord)
    requires |grid| == |demoted| == rows * cols && InMap(c, rows, cols)
    requires forall i :: 0 <= i < |grid| ==> demoted[i] == if grid[i] == Visible then Explored else grid[i]
    ensures At(demoted, rows, cols, c) == if At(grid, rows, cols, c) == Unexplored then Unexplored else Explored
  {
    IndexInRange(rows, cols, c);
  }

  ghost predicate IsRecalculated(old_: seq<Visibility>, new_: seq<Visibility>, rows: nat, cols: nat, now: Sight) {
    && |old_| == |new_| == rows * cols
    && forall c :: InMap(c, rows, cols) ==>
         At(new_, rows, cols, c) == if now.Sees(c) then Visible
                                    else if At(old_, rows, cols, c) == Unexplored then Unexplored
                                    else Explored
  }

  lemma RecalculatedShows(grids: Grids, rows: nat, cols: nat, sights: seq<Sight>, now: Sight, grid: seq<Visibility>)
    requires Shows(grids, rows, cols, sights) && now.faction in grids
    requires IsRecalculated(grids[now.faction], grid, rows, cols, now)
    ensures Shows(grids[now.faction := grid], rows, cols, sights + [now])
  {
    hide At, Sight.Sees;
    assert (sights + [now])[..|sights|] == sights;
    forall f, c | InMap(c, rows, cols)
      ensures VisibilityIn(grids[now.faction := grid], rows, cols, f, c) == After(sights + [now], f, c)
    {
      assert VisibilityIn(grids, rows, cols, f, c) == After(sights, f, c);
    }
  }

  class FogOfWar {
    const rows: nat
    const cols: nat
    var grids: Grids
    /** Every recalculation so far. */
    ghost var sights: seq<Sight>

    ghost predicate Valid()
      reads this
    {
      Shows(grids, rows, cols, sights)
    }

    constructor (rows: nat, cols: nat)
      ensures Valid() && this.rows == rows && this.cols == cols && sights == []
    {
      this.rows, this.cols, grids, sights := rows, cols, map[], [];
    }

    /** A query shows what the run of recalculations has seen of the tile. */
    function GetVisibility(f: FactionId, c: Coord): (v: Visibility)
      requires Valid() && InMap(c, rows, cols)
      reads this
      ensures v == After(sights, f, c)
    {
      VisibilityIn(grids, rows, cols, f, c)
    }

    method EnsureGrid(f: FactionId) returns (grid: seq<Visibility>)
      requires Valid()
      modifies this`grids
      ensures Valid() && f in grids && grid == grids[f]
    {
      hide Shows;
      if f !in grids {
        BlankGridShows(grids, rows, cols, sights, f);
        grids := grids[f := seq(rows * cols, i => Unexplored)];
      }
      grid := grids[f];
    }

    /** A tile is visible to the faction exactly when a friendly unit or city tile has it in range, and else
        explored exactly when it was not unexplored before.  Nobody else's view changes. */
    method Recalculate(f: FactionId, units: seq<Unit>, cities: seq<City>, map_: Map)
      requires Valid() && map_.height <= rows && map_.width <= cols
      modifies this
      ensures Valid()
      ensures sights == old(sights) + [Sight(f, map_.height, map_.width, old(StatesOf(units)), old(CityStatesOf(cities)))]
    {
      hide Shows, After, At, Sight.Sees, StatesOf, CityStatesOf;
      ghost var now := Sight(f, map_.height, map_.width, StatesOf(units), CityStatesOf(cities));
      var grid := EnsureGrid(f);
      ShowsFit(grids, rows, cols, sights, f);
      var grid' := RecalculatedGrid(grid, rows, cols, f, units, cities, map_, now);
      RecalculatedShows(grids, rows, cols, sights, now, grid');
      grids := grids[f := grid'];
      sights := sights + [now];
    }
  }

  lemma ShowsFit(grids: Grids, rows: nat, cols: nat, sights: seq<Sight>, f: FactionId)
    requires Shows(grids, rows, cols, sights) && f in grids
    ensures |grids[f]| == rows * cols
  {
  }

  /** The three phases: demote what was visible, then look from the units, then from the cities. */
  method RecalculatedGrid(grid: seq<Visibility>, rows: nat, cols: nat, f: FactionId, units: seq<Unit>, cities: seq<City>,
                          map_: Map, ghost now: Sight)
    returns (grid': seq<Visibility>)
    requires |grid| == rows * cols && map_.height <= rows && map_.width <= cols
    requires now == Sight(f, map_.height, map_.width, StatesOf(units), CityStatesOf(cities))
    ensures IsRecalculated(grid, grid', rows, cols, now)
  {
    hide At, Sight.FromUnitsBelow, Sight.FromCitiesBelow, HexDistance;
    var demoted := Demote(grid);
    grid' := LookFromUnits(demoted, rows, cols, f, units, map_, now);
    grid' := LookFromCities(grid', rows, cols, f, cities, map_, now);
    forall c | InMap(c, rows, cols)
      ensures At(demoted, rows, cols, c) == if At(grid, rows, cols, c) == Unexplored then Unexplored else Explored
    {
      DemotedAt(grid, demoted, rows, cols, c);
    }
  }

  /** What one recalculation means for the faction it is for, and that it means nothing to any other. */
  lemma OneRecalculation(sights: seq<Sight>, now: Sight, g: FactionId, c: Coord)
    ensures var before, after := After(sights, g, c), After(sights + [now], g, c);
            if g != now.faction then after == before
            else (after == Visible <==> now.Sees(c)) && (after == Explored <==> !now.Sees(c) && before != Unexplored)
  {
    hide Sight.Sees;
    assert (sights + [now])[..|sights|] == sights;
  }
}
