/** Small states worked out in full, as examples of the general laws. */
module Scenarios {
  import opened Common
  import opened Hex
  import opened Terrain
  import opened Diplomacy
  import opened Units
  import opened Cities
  import opened Worlds
  import opened Economy
  import opened SaveFormat
  import opened ActionLaws

  function Warrior(f: FactionId, pos: Coord): UnitState {
    UnitState(pos, 100, 2, f, WARRIOR, 0, 0, false)
  }

  /** A warrior on plains faces one of a faction at war with it on the tile to the east. */
  function Duel(east: TerrainType): World {
    World.World(1, Grid(1, 2, [[Plains, east]]), map[FactionPair(1, 2) := War],
                [Warrior(1, Coord(0, 0)), Warrior(2, Coord(0, 1))], [], [], [], Resource(0, 0, 0), 1, 1)
  }

  /** Hills protect the target and nobody else: it loses 9 points of health on hills and 10 on plains, and takes 10 off
      the attacker either way. */
  lemma HillsProtectTheirUnit()
    ensures var hills, plains := Duel(Hills), Duel(Plains);
            && CanFight(hills, 0, 1) && CanFight(plains, 0, 1)
            && Struck(hills, 0, 1)[1].health == 91 && Struck(hills, 0, 1)[0].health == 90
            && Struck(plains, 0, 1)[1].health == 90 && Struck(plains, 0, 1)[0].health == 90
  {
    DuelIsFought(Hills);
    DuelIsFought(Plains);
  }

  lemma DuelIsFought(east: TerrainType)
    requires PropertiesOf(east).defenseModifier >= 0
    ensures CanFight(Duel(east), 0, 1)
    ensures Struck(Duel(east), 0, 1)[1].health == 100 - Max(1, 15 - (10 + PropertiesOf(east).defenseModifier) / 2)
    ensures Struck(Duel(east), 0, 1)[0].health == 90
  {
    hide Struck, HexDistance, CanFight, Relation, HealthLeft, TruncDiv;
    DuellistsCanFight(east);
    BlowsAreExact(Duel(east), 0, 1);
    DuelGround(east);
    var defence := 10 + PropertiesOf(east).defenseModifier;
    BlowInFigures(defence);
    BlowInFigures(10);
  }

  lemma DuellistsCanFight(east: TerrainType)
    ensures CanFight(Duel(east), 0, 1) && HexDistance(Coord(0, 0), Coord(0, 1)) == 1
  {
    hide PropertiesOf, HexDistance, Executes, Relation, ValidateAttack;
    DuelIsWar(east);
    DuellistsAreNeighbours();
    AttackExecutesIff(Duel(east), 0, 1);
  }

  lemma DuellistsAreNeighbours()
    ensures HexDistance(Coord(0, 0), Coord(0, 1)) == 1
  {
  }

  lemma DuelIsWar(east: TerrainType)
    ensures AtWar(Duel(east).relations, 1, 2)
  {
  }

  lemma DuelGround(east: TerrainType)
    ensures Ground(Duel(east), Coord(0, 0)) == 0 && Ground(Duel(east), Coord(0, 1)) == PropertiesOf(east).defenseModifier
  {
    assert Duel(east).grid.At(Coord(0, 0)) == Plains && Duel(east).grid.At(Coord(0, 1)) == east;
  }

  lemma BlowInFigures(defence: nat)
    ensures HealthLeft(100, 15, defence, 0) == 100 - Max(1, 15 - defence / 2)
    ensures forall d: nat, m: int :: d + m == defence ==> HealthLeft(100, 15, d, m) == HealthLeft(100, 15, defence, 0)
  {
  }

  /** A city with a mine on its tile that has just begun an order of cost twenty. */
  function Town(): CityState {
    CityState(1, "Town", Coord(0, 0), 1, 1, {Coord(0, 0)}, 0, QueueState([BuildingOrder("Farm", 20, Coord(0, 0), Farm)], 0))
  }

  function MineOf(city: CityState): Building {
    MakeBuilding(Mine, city.centre).(id := 1, factionId := 1)
  }

  function MiningWorld(): World {
    World.World(1, Grid(1, 1, [[Hills]]), map[], [], [Town()], [MineOf(Town())], [], Resource(0, 0, 0), 2, 2)
  }

  /** It puts seven into the order in a turn, not five. */
  lemma MineSpeedsProduction()
    ensures ResolveTurn(MiningWorld(), None).world.cities[0].queue == Town().queue.(accumulated := 7)
  {
    hide ResolveTurn, IncomeIn;
    TurnsGoThrough(MiningWorld());
    TurnProductionLedger(MiningWorld(), 0, None);
    MineYieldsTwo();
  }

  lemma MineYieldsTwo()
    ensures IncomeIn(MiningWorld(), 0, None).production == 2
  {
    hide CityYields;
    var city, mine := Town(), MineOf(Town());
    BuildingCountsOnce(city, [mine], 0);
    assert Coord(0, 0) in mine.occupiedTiles * city.tiles;
    assert [mine][..0] + [mine][1..] == [];
    NothingYieldsNothing(city);
  }

  lemma NothingYieldsNothing(city: CityState)
    ensures CityYields(city, []) == Resource(0, 0, 0)
  {
  }

  lemma TurnsGoThrough(w: World)
    ensures ResolveTurn(w, None).missing.None?
  {
    hide ResolveCities;
    NothingIsMissing(w, |w.cities|);
  }
}
