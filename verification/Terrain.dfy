/** Terrain types, their properties, and the game map. */
module Terrain {
  import opened Hex

  datatype TerrainType = Plains | Hills | Forest | Water | Mountain | Desert | Swamp

  /** The terrain types in the order of the enumeration. */
  const ALL_TERRAINS := [Plains, Hills, Forest, Water, Mountain, Desert, Swamp]

  datatype TerrainProperties = TerrainProperties(movementCost: nat, defenseModifier: int, passable: bool, buildable: bool)

  function PropertiesOf(terrain: TerrainType): TerrainProperties {
    match terrain
    case Plains => TerrainProperties(1, 0, true, true)
    case Hills => TerrainProperties(2, 3, true, true)
    case Forest => TerrainProperties(2, 2, true, true)
    case Water => TerrainProperties(0, 0, false, false)
    case Mountain => TerrainProperties(0, 0, false, false)
    case Desert => TerrainProperties(1, 0, true, true)
    case Swamp => TerrainProperties(3, -1, true, true)
  }

  /** The terrain of a rectangular map as a value: `rows[r][c]`. */
  datatype RawGrid = Grid(height: nat, width: nat, rows: seq<seq<TerrainType>>) {
    predicate Rectangular() {
      |rows| == height && forall r :: 0 <= r < height ==> |rows[r]| == width
    }

    predicate Has(c: Coord) {
      InMap(c, height, width)
    }

    function At(c: Coord): TerrainType
      requires Rectangular() && Has(c)
    {
      rows[c.row][c.col]
    }
  }

  type Grid = g: RawGrid | g.Rectangular() witness RawGrid.Grid(0, 0, [])

  function WithTerrain(g: Grid, c: Coord, t: TerrainType): (r: Grid)
    requires g.Has(c)
    ensures r.height == g.height && r.width == g.width
    ensures forall d :: g.Has(d) ==> r.At(d) == if d == c then t else g.At(d)
  {
    RawGrid.Grid(g.height, g.width, g.rows[c.row := g.rows[c.row][c.col := t]])
  }

  lemma SameGrid(g: Grid, h: Grid)
    requires g.height == h.height && g.width == h.width && forall c :: g.Has(c) ==> g.At(c) == h.At(c)
    ensures g == h
  {
    forall r | 0 <= r < g.height
      ensures g.rows[r] == h.rows[r]
    {
      forall k | 0 <= k < g.width
        ensures g.rows[r][k] == h.rows[r][k]
      {
        assert g.At(Coord(r, k)) == h.At(Coord(r, k));
      }
    }
  }

  /** The map: its size is fixed, the terrain of its tiles is not. */
  class Map {
    const height: nat
    const width: nat
    var tiles: seq<seq<TerrainType>>

    ghost predicate Valid()
      reads this
    {
      RawGrid.Grid(height, width, tiles).Rectangular()
    }

    /** The terrain as a value.  Total, so that views can be taken anywhere: an ill-formed map shows as empty. */
    ghost function View(): Grid
      reads this
    {
      if Valid() then RawGrid.Grid(height, width, tiles) else RawGrid.Grid(0, 0, [])
    }

    /** The source draws the first terrain at random; here it is given. */
    constructor (initial: Grid)
      requires initial.height > 0 && initial.width > 0
      ensures Valid() && View() == initial
      ensures height == initial.height && width == initial.width
    {
      height, width, tiles := initial.height, initial.width, initial.rows;
    }

    function Tile(c: Coord): TerrainType
      requires Valid() && InMap(c, height, width)
      reads this
    {
      tiles[c.row][c.col]
    }

    method SetTerrainType(c: Coord, t: TerrainType)
      requires Valid() && InMap(c, height, width)
      modifies this`tiles
      ensures Valid() && View() == WithTerrain(old(View()), c, t)
    {
      tiles := tiles[c.row := tiles[c.row][c.col := t]];
    }
  }
}
