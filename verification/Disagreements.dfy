/** Concrete states on which the code does something other than its comments or its users expect. */
module Disagreements {
  import opened Common
  import opened Hex
  import opened Terrain
  import opened Diplomacy
  import opened Units
  import opened ZoneOfControl
  import opened Cities
  import opened Worlds
  import opened Predictions
  import opened Protocol
  import opened SaveFormat

  const SCOUT := UnitTemplate("Scout", 10, 1, 1, 3, 1, 2)

  function Scout(f: FactionId, pos: Coord, movementRemaining: int): UnitState {
    UnitState(pos, 10, movementRemaining, f, SCOUT, 0, 0, false)
  }

  /** Two rows of two plains tiles, everybody at peace. */
  function SmallWorld(units: seq<UnitState>): World {
    World.World(1, Grid(2, 2, [[Plains, Plains], [Plains, Plains]]), map[], units, [], [], [], Resource(0, 0, 0), 1, 1)
  }

  /** One scout of faction 1 on it. */
  function ScoutWorld(pos: Coord, movementRemaining: int): World {
    SmallWorld([Scout(1, pos, movementRemaining)])
  }

  /** At peace the first unit can step to any neighbouring tile, whoever stands there. */
  lemma FirstUnitMoves(units: seq<UnitState>, f: FactionId, from: Coord, to: Coord, mv: int)
    requires units != [] && units[0] == Scout(f, from, mv)
    requires InMap(from, 2, 2) && InMap(to, 2, 2) && HexDistance(from, to) == 1 && 1 <= mv <= 3
    ensures LooksInMap(SmallWorld(units), Move(0, to)) && Executes(SmallWorld(units), Move(0, to))
    ensures After(SmallWorld(units), Move(0, to)) == SmallWorld(units[0 := Scout(f, to, mv - 1)])
  {
    hide BlockedByZoc, HexDistance, InEnemyZoc;
    NoWarNoZoc(SmallWorld(units).Board(), f, from, to);
    assert SmallWorld(units).grid.At(to) == Plains;
  }

  // ---- Whose unit it is, and who stands where ---------------------------------------------------------

  /** A player of faction 1 moves a unit of faction 2. */
  lemma ForeignUnitIsMoved()
    ensures var players := map[7 := PlayerInfo(1, true, false)];
            var w, action := SmallWorld([Scout(2, Coord(0, 0), 3)]), Move(0, Coord(0, 1));
            && LooksInMap(w, action)
            && ApplyOutcome(players, w, 7, action) == Success
            && AfterApply(players, w, 7, action) == SmallWorld([Scout(2, Coord(0, 1), 2)])
  {
    var units := [Scout(2, Coord(0, 0), 3)];
    FirstUnitMoves(units, 2, Coord(0, 0), Coord(0, 1), 3);
    assert units[0 := Scout(2, Coord(0, 1), 2)] == [Scout(2, Coord(0, 1), 2)];
  }

  /** A unit of faction 1 moves onto a tile that a unit of faction 2 holds. */
  lemma OccupiedTileIsEntered()
    ensures var there := Scout(2, Coord(0, 1), 3);
            var w, action := SmallWorld([Scout(1, Coord(0, 0), 3), there]), Move(0, Coord(0, 1));
            && LooksInMap(w, action) && Executes(w, action)
            && After(w, action) == SmallWorld([Scout(1, Coord(0, 1), 2), there])
  {
    var there := Scout(2, Coord(0, 1), 3);
    var units := [Scout(1, Coord(0, 0), 3), there];
    FirstUnitMoves(units, 1, Coord(0, 0), Coord(0, 1), 3);
    assert units[0 := Scout(1, Coord(0, 1), 2)] == [Scout(1, Coord(0, 1), 2), there];
  }

  /** A city owned by number -1 belongs, as captures read it, to the faction of the largest id, which the
      elimination test takes for eliminated. */
  lemma OwnerOfACityCountsAsEliminated()
    ensures var f: FactionId := 0xffff_ffff;
            var city := CityState(1, "Town", Coord(0, 0), -1, 1, {Coord(0, 0)}, 0, QueueState([], 0));
            var w := SmallWorld([]).(cities := [city]);
            Eliminated(w, f) && ToFactionId(w.cities[0].factionId) == f && !OwnsNothing(w, f)
  {
    var city := CityState(1, "Town", Coord(0, 0), -1, 1, {Coord(0, 0)}, 0, QueueState([], 0));
    assert ToFactionId(SmallWorld([]).(cities := [city]).cities[0].factionId) == 0xffff_ffff;
  }

  // ---- What saving loses ------------------------------------------------------------------------------

  /** A unit whose template is called Warrior but is weaker comes back as an ordinary warrior. */
  lemma OtherWarriorIsNotRestored()
    ensures var weak := UnitTemplate("Warrior", 10, 1, 1, 1, 1, 1);
            var w := SmallWorld([UnitState(Coord(0, 0), 10, 1, 1, weak, 0, 0, false)]);
            && Write(w).Ok? && InBounds(Write(w).value)
            && Read(Write(w).value, w.grid) != Ok(Saved(w))
  {
    hide Read, Write, Saved, InBounds;
    var weak := UnitTemplate("Warrior", 10, 1, 1, 1, 1, 1);
    var u := UnitState(Coord(0, 0), 10, 1, 1, weak, 0, 0, false);
    var w := SmallWorld([u]);
    assert !HasStockTemplate(w.units[0]);
    SavingFailsOnUnknownNames(w);
    SaveLoadRoundTrip(w, w.grid);
  }

  // ---- A stale snapshot at work ---------------------------------------------------------------------------

  /** Two moves of one scout, A to B and B to C with A next to C, are both rejected, the first one first.  The
      second is replayed from A and succeeds, but keeps the snapshot taken on B, so rejecting it too leaves the
      scout on B, having paid for a move, instead of back on A. */
  lemma RejectingBothMisplacesScout()
    ensures var a, b, c := Coord(0, 0), Coord(0, 1), Coord(1, 0);
            var start := Client(ScoutWorld(a, 3), [], 1);
            && LooksInMap(start.world, Move(0, b))
            && var one := Predicted(start, Move(0, b));
            && LooksInMap(one.world, Move(0, c))
            && var two := Predicted(one, Move(0, c));
            && RejectLooksInMap(two, 1)
            && var rejectedOnce := Rejected(two, 1);
            && RejectLooksInMap(rejectedOnce, 2)
            && var rejectedBoth := Rejected(rejectedOnce, 2);
            && rejectedBoth.pending == [] && rejectedBoth.world == ScoutWorld(b, 2) && rejectedBoth.world != start.world
  {
    var a, b, c := Coord(0, 0), Coord(0, 1), Coord(1, 0);
    var p1 := Pending(1, Move(0, b), UnitSnapshot(0, a, 10, 3, true));
    var p2 := Pending(2, Move(0, c), UnitSnapshot(0, b, 10, 2, true));
    ScoutPredicts(a, b, 3, [], 1);
    ScoutPredicts(b, c, 2, [p1], 2);
    assert [p1] + [p2] == [p1, p2] && [] + [p1] == [p1];
    ScoutRejections(p1, p2);
    assert ScoutWorld(b, 2).units[0] != ScoutWorld(a, 3).units[0];
  }

  lemma ScoutPredicts(from: Coord, to: Coord, mv: nat, pending: seq<Pending>, id: nat)
    requires InMap(from, 2, 2) && InMap(to, 2, 2) && HexDistance(from, to) == 1 && 1 <= mv <= 3
    ensures LooksInMap(ScoutWorld(from, mv), Move(0, to))
    ensures Predicted(Client(ScoutWorld(from, mv), pending, id), Move(0, to))
            == Client(ScoutWorld(to, mv - 1), pending + [Pending(id, Move(0, to), UnitSnapshot(0, from, 10, mv, true))], id + 1)
  {
    FirstUnitMoves([Scout(1, from, mv)], 1, from, to, mv);
    assert [Scout(1, from, mv)][0 := Scout(1, to, mv - 1)] == [Scout(1, to, mv - 1)];
    ScoutSnapshot(from, mv, to);
  }

  lemma ScoutRejections(p1: Pending, p2: Pending)
    requires p1 == Pending(1, Move(0, Coord(0, 1)), UnitSnapshot(0, Coord(0, 0), 10, 3, true))
    requires p2 == Pending(2, Move(0, Coord(1, 0)), UnitSnapshot(0, Coord(0, 1), 10, 2, true))
    ensures var two := Client(ScoutWorld(Coord(1, 0), 1), [p1, p2], 3);
            && RejectLooksInMap(two, 1) && RejectLooksInMap(Rejected(two, 1), 2)
            && Rejected(Rejected(two, 1), 2) == Client(ScoutWorld(Coord(0, 1), 2), [], 3)
  {
    var a, b, c := Coord(0, 0), Coord(0, 1), Coord(1, 0);
    FirstUnitMoves([Scout(1, a, 3)], 1, a, c, 3);
    assert [Scout(1, a, 3)][0 := Scout(1, c, 2)] == [Scout(1, c, 2)];
    ScoutRollback(c, 1, b, 2);
    ScoutRollback(b, 2, a, 3);
    ScoutRollback(c, 2, b, 2);
    RejectFirstOfTwo(ScoutWorld(c, 1), p1, p2, 3);
    RejectOnly(ScoutWorld(c, 2), p2, 3);
  }

  lemma RejectFirstOfTwo(w: World, p1: Pending, p2: Pending, nextId: nat)
    requires p1.sequenceId != p2.sequenceId
    requires var base := RolledBack(RolledBack(w, p2.snapshot), p1.snapshot);
             LooksInMap(base, p2.action) && Executes(base, p2.action)
    ensures var base := RolledBack(RolledBack(w, p2.snapshot), p1.snapshot);
            && RejectLooksInMap(Client(w, [p1, p2], nextId), p1.sequenceId)
            && Rejected(Client(w, [p1, p2], nextId), p1.sequenceId) == Client(After(base, p2.action), [p2], nextId)
  {
    hide Executes, After, LooksInMap, RolledBack;
    var pending := [p1, p2];
    assert pending[..1] == [p1] && [p1][..0] == [] && pending[1..] == [p2] && [p2][1..] == [];
    assert pending[0..] == pending && pending[..0] == [];
    var mid := RolledBack(w, p2.snapshot);
    assert RolledBackAll(w, pending) == RolledBackAll(mid, [p1]) == RolledBackAll(RolledBack(mid, p1.snapshot), []);
    var base := RolledBack(mid, p1.snapshot);
    var next := After(base, p2.action);
    assert ReplayLooksInMap(next, []) && Replayed(next, []) == next && Kept(next, []) == [];
    assert ReplayLooksInMap(base, [p2]);
    assert Replayed(base, [p2]) == Replayed(next, []) && Kept(base, [p2]) == [p2] + Kept(next, []);
  }

  lemma RejectOnly(w: World, p: Pending, nextId: nat)
    ensures RejectLooksInMap(Client(w, [p], nextId), p.sequenceId)
    ensures Rejected(Client(w, [p], nextId), p.sequenceId) == Client(RolledBack(w, p.snapshot), [], nextId)
  {
    hide Executes, After, LooksInMap, RolledBack;
    var pending := [p];
    assert pending[0..] == pending && pending[1..] == [] && pending[..0] == [];
    assert RolledBackAll(w, pending) == RolledBackAll(RolledBack(w, p.snapshot), []);
  }

  lemma ScoutSnapshot(pos: Coord, mv: int, to: Coord)
    ensures SnapshotOf(ScoutWorld(pos, mv), Move(0, to)) == UnitSnapshot(0, pos, 10, mv, true)
  {
  }

  lemma ScoutRollback(pos: Coord, mv: int, back: Coord, mvBack: int)
    requires 0 <= mvBack <= 3
    ensures RolledBack(ScoutWorld(pos, mv), UnitSnapshot(0, back, 10, mvBack, true)) == ScoutWorld(back, mvBack)
  {
    assert RolledBack(ScoutWorld(pos, mv), UnitSnapshot(0, back, 10, mvBack, true)).units == ScoutWorld(back, mvBack).units;
  }
}
