/** Zone of control: which enemies hold a tile, and which steps that forbids. */
module ZoneOfControl {
  import opened Common
  import opened Hex
  import opened Terrain
  import opened Diplomacy
  import opened Registry

  /** What the searches and the zone-of-control scans read: terrain, units by faction, relations. */
  datatype Board = Board(grid: Grid, occupancy: Occupancy, relations: Relations) {
    function Neighbours(p: Coord): seq<Coord> {
      InMapNeighbours(SEARCH_TABLE, p, grid.height, grid.width)
    }
  }

  ghost function BoardOf(map_: Map, registry: TileRegistry, diplomacy: DiplomacyManager): Board
    requires map_.Valid()
    reads map_, registry, diplomacy
  {
    Board(map_.View(), registry.UnitOccupancy(), diplomacy.relations)
  }

  /** `enemy`, at war with `own`, has a unit next to `p`. */
  ghost predicate Exerts(board: Board, own: FactionId, p: Coord, enemy: FactionId) {
    && enemy != own
    && AtWar(board.relations, own, enemy)
    && exists q :: q in board.Neighbours(p) && enemy in FactionsOn(board.occupancy, q)
  }

  ghost predicate InEnemyZoc(board: Board, own: FactionId, p: Coord) {
    exists e :: Exerts(board, own, p, e)
  }

  /** One enemy holds both ends of the step. */
  ghost predicate BlockedByZoc(board: Board, own: FactionId, from: Coord, to: Coord) {
    exists e :: Exerts(board, own, from, e) && Exerts(board, own, to, e)
  }

  /** The enemies holding a tile are found by scanning its neighbours, each listed once. */
  method FindAdjacentEnemyFactions(p: Coord, own: FactionId, map_: Map, registry: TileRegistry, diplomacy: DiplomacyManager)
    returns (result: seq<FactionId>)
    requires map_.Valid()
    ensures NoDuplicates(result)
    ensures forall e :: e in result <==> Exerts(BoardOf(map_, registry, diplomacy), own, p, e)
  {
    ghost var board := BoardOf(map_, registry, diplomacy);
    result := [];
    var neighbours := HexNeighbours(SEARCH_TABLE, p, map_.height, map_.width);
    for i := 0 to |neighbours|
      invariant NoDuplicates(result)
      invariant forall e :: e in result ==> Exerts(board, own, p, e)
      invariant forall k, e :: 0 <= k < i && IsEnemyOn(board, own, neighbours[k], e) ==> e in result
    {
      var units := registry.UnitsAt(neighbours[i]);
      for j := 0 to |units|
        invariant NoDuplicates(result)
        invariant forall e :: e in result ==> Exerts(board, own, p, e)
        invariant forall k, e :: 0 <= k < i && IsEnemyOn(board, own, neighbours[k], e) ==> e in result
        invariant forall k :: 0 <= k < j && units[k].factionId != own && AtWar(board.relations, own, units[k].factionId)
                    ==> units[k].factionId in result
      {
        var f := units[j].factionId;
        if f == own {
          continue;
        }
        if !diplomacy.AreAtWar(own, f) {
          continue;
        }
        if f !in result {
          assert f in FactionsOn(board.occupancy, neighbours[i]);
          result := result + [f];
        }
      }
    }
    forall e | Exerts(board, own, p, e)
      ensures e in result
    {
      var q :| q in board.Neighbours(p) && e in FactionsOn(board.occupancy, q);
      var k :| 0 <= k < |neighbours| && neighbours[k] == q;
      assert IsEnemyOn(board, own, neighbours[k], e);
    }
  }

  ghost predicate IsEnemyOn(board: Board, own: FactionId, q: Coord, e: FactionId) {
    e != own && AtWar(board.relations, own, e) && e in FactionsOn(board.occupancy, q)
  }

  method IsInEnemyZoc(p: Coord, own: FactionId, map_: Map, registry: TileRegistry, diplomacy: DiplomacyManager)
    returns (r: bool)
    requires map_.Valid()
    ensures r <==> InEnemyZoc(BoardOf(map_, registry, diplomacy), own, p)
  {
    var enemies := FindAdjacentEnemyFactions(p, own, map_, registry, diplomacy);
    r := enemies != [];
    if r {
      assert enemies[0] in enemies;
    }
  }

  method IsMovementBlockedByZoc(from: Coord, to: Coord, own: FactionId, map_: Map, registry: TileRegistry,
                                diplomacy: DiplomacyManager)
    returns (r: bool)
    requires map_.Valid()
    ensures r <==> BlockedByZoc(BoardOf(map_, registry, diplomacy), own, from, to)
  {
    var destEnemies := FindAdjacentEnemyFactions(to, own, map_, registry, diplomacy);
    if destEnemies == [] {
      return false;
    }
    var srcEnemies := FindAdjacentEnemyFactions(from, own, map_, registry, diplomacy);
    r := exists e | e in destEnemies :: e in srcEnemies;
  }

  /** Without a war there is no zone of control at all. */
  lemma NoWarNoZoc(board: Board, own: FactionId, from: Coord, to: Coord)
    requires forall f :: !AtWar(board.relations, own, f)
    ensures !InEnemyZoc(board, own, from) && !BlockedByZoc(board, own, from, to)
  {
  }
}
