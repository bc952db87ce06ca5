/** What runs of move actions reach, against what the movement range reports. */
module MoveReach {
  import opened Common
  import opened Hex
  import opened Diplomacy
  import opened Units
  import opened Registry
  import opened ZoneOfControl
  import opened Worlds
  import opened Routes
  import opened ActionRuns
  import opened Cities
  import opened GameStates
  import opened Pathfinding
  import opened MovementRange

  /** The rules `computeMovementRange` follows for unit `i`. */
  ghost function RangeTravel(w: World, i: nat): Travel
    requires i < |w.units|
  {
    Travel(Board(w.grid, OccupancyOf(w.units), map[]), w.units[i].factionId, w.units[i].pos, false)
  }

  /** On a game state these are the rules of the search over its map and index, started from the unit. */
  lemma RangeTravelIsSearched(state: GameState, i: nat)
    requires state.Valid() && i < |state.units|
    ensures i < |state.View().units|
    ensures RangeTravel(state.View(), i)
            == PlainTravel(state.map_, state.registry, state.units[i].factionId, state.units[i].Pos())
  {
    hide Agrees, StatesOf, CityStatesOf, Positions, OwnedCities, OccupancyOf, IndexOccupancy;
    state.UnitStateAt(i);
    state.IndexShowsBoard();
  }

  /** No unit belongs to a faction at war with `f`. */
  ghost predicate Unopposed(w: World, f: FactionId) {
    forall k :: 0 <= k < |w.units| ==> !AtWar(w.relations, f, w.units[k].factionId)
  }

  ghost predicate OnlyFaction(w: World, f: FactionId) {
    forall k :: 0 <= k < |w.units| ==> w.units[k].factionId == f
  }

  lemma UnopposedMeansNoZoc(w: World, f: FactionId, from: Coord, to: Coord)
    requires Unopposed(w, f)
    ensures !BlockedByZoc(w.Board(), f, from, to)
  {
    hide HexDistance;
    forall p, e
      ensures !Exerts(w.Board(), f, p, e)
    {
      if Exerts(w.Board(), f, p, e) {
        var q :| q in w.Board().Neighbours(p) && e in FactionsOn(w.Board().occupancy, q);
        OccupancyMembers(w.units, q, e);
      }
    }
  }

  function MovePlan(i: nat, p: seq<Coord>): seq<GameAction> {
    seq(|p|, k requires 0 <= k < |p| => Move(i, p[k]))
  }

  /** A legal, affordable step of the search is a move that executes. */
  lemma StepIsMove(tr: Travel, w: World, i: nat, dest: Coord)
    requires i < |w.units| && w.units[i].Alive() && Unopposed(w, w.units[i].factionId)
    requires tr.board.grid == w.grid && tr.CanStep(w.units[i].pos, dest)
    requires tr.EnterCost(dest) <= w.units[i].movementRemaining
    ensures LooksInMap(w, Move(i, dest)) && Executes(w, Move(i, dest))
    ensures var u := w.units[i];
            After(w, Move(i, dest)) == w.(units := w.units[i := u.(pos := dest, movementRemaining := u.movementRemaining - tr.EnterCost(dest))])
  {
    hide HexDistance, BlockedByZoc, InEnemyZoc;
    tr.StepFacts(w.units[i].pos, dest);
    UnopposedMeansNoZoc(w, w.units[i].factionId, w.units[i].pos, dest);
  }

  /** A walk the unit can pay for is carried out move by move; every move executes. */
  lemma {:induction false} AffordableWalkIsWalked(tr: Travel, w: World, i: nat, p: seq<Coord>) returns (w': World)
    requires i < |w.units| && w.units[i].Alive() && Unopposed(w, w.units[i].factionId)
    requires tr.board.grid == w.grid && tr.IsWalk(w.units[i].pos, p)
    requires tr.PathCost(p) <= w.units[i].movementRemaining
    ensures SuccessfulRun(w, MovePlan(i, p), w')
    ensures i < |w'.units| && w'.units[i] == w.units[i].(pos := EndOf(w.units[i].pos, p),
                                                         movementRemaining := w.units[i].movementRemaining - tr.PathCost(p))
    decreases |p|
  {
    hide Travel.CanStep, Travel.EnterCost, Executes, After, LooksInMap;
    if p == [] {
      w' := w;
    } else {
      var pos := w.units[i].pos;
      assert tr.CanStep(TileBefore(pos, p, 0), p[0]);
      tr.CostSplit(p, 1);
      assert p[..1] == [p[0]] && [p[0]][..0] == [];
      StepIsMove(tr, w, i, p[0]);
      tr.WalkSuffix(pos, p, 1);
      var w1 := After(w, Move(i, p[0]));
      UnopposedKept(w, w1, w.units[i].factionId);
      w' := AffordableWalkIsWalked(tr, w1, i, p[1..]);
      assert MovePlan(i, p)[1..] == MovePlan(i, p[1..]);
    }
  }

  lemma UnopposedKept(w: World, w': World, f: FactionId)
    requires Unopposed(w, f) && w'.relations == w.relations && |w'.units| == |w.units|
    requires forall k :: 0 <= k < |w.units| ==> w'.units[k].factionId == w.units[k].factionId
    ensures Unopposed(w', f)
  {
  }

  /** Each tile the movement range reports is reached by a run of moves that all execute and leave exactly
      the budget minus the reported cost, as long as no unit of a faction at war with the mover exists. */
  lemma ReportedTilesAreReached(w: World, i: nat, t: Coord, cost: nat) returns (plan: seq<Coord>, w': World)
    requires i < |w.units| && w.units[i].Alive() && Unopposed(w, w.units[i].factionId)
    requires cost <= w.units[i].movementRemaining && RangeTravel(w, i).IsLeastCost(t, cost)
    ensures SuccessfulRun(w, MovePlan(i, plan), w') && i < |w'.units|
    ensures w'.units[i] == w.units[i].(pos := t, movementRemaining := w.units[i].movementRemaining - cost)
  {
    hide Travel.CanStep, Travel.EnterCost, Travel.PathCost, Travel.IsWalk, Unopposed, SuccessfulRun;
    var tr := RangeTravel(w, i);
    plan :| tr.WalkTo(plan, t) && tr.PathCost(plan) == cost;
    w' := AffordableWalkIsWalked(tr, w, i, plan);
  }

  /** With own units only, a move that executes is a legal step for the movement range. */
  lemma MoveIsStep(tr: Travel, w: World, j: nat, dest: Coord)
    requires LooksInMap(w, Move(j, dest)) && Executes(w, Move(j, dest))
    requires tr.board.grid == w.grid && !tr.zoc
    requires forall p, f :: f in FactionsOn(tr.board.occupancy, p) ==> f == tr.faction
    ensures j < |w.units| && tr.CanStep(w.units[j].pos, dest)
    ensures After(w, Move(j, dest)).units[j].pos == dest
    ensures After(w, Move(j, dest)).units[j].movementRemaining == w.units[j].movementRemaining - tr.EnterCost(dest)
  {
    hide HexDistance, BlockedByZoc, InEnemyZoc;
    NeighboursAreDistanceOne(SEARCH_TABLE, w.units[j].pos, w.grid.height, w.grid.width);
  }

  ghost predicate OnlyMoves(actions: seq<GameAction>) {
    forall k :: 0 <= k < |actions| ==> actions[k].Move?
  }

  /** What unit `i` has spent is at every point the cost of a legal walk to where it stands. */
  lemma {:induction false} MovesTraceAWalk(tr: Travel, budget: int, w: World, actions: seq<GameAction>, w': World, i: nat, p: seq<Coord>)
    returns (q: seq<Coord>)
    requires SuccessfulRun(w, actions, w') && OnlyMoves(actions) && i < |w.units|
    requires tr.board.grid == w.grid && !tr.zoc
    requires forall c, f :: f in FactionsOn(tr.board.occupancy, c) ==> f == tr.faction
    requires tr.WalkTo(p, w.units[i].pos) && tr.PathCost(p) == budget - w.units[i].movementRemaining
    ensures i < |w'.units| && tr.WalkTo(q, w'.units[i].pos) && tr.PathCost(q) == budget - w'.units[i].movementRemaining
    decreases |actions|
  {
    hide Travel.CanStep, Travel.EnterCost, Travel.PathCost, Travel.IsWalk, ValidateMove, FactionsOn;
    if actions == [] {
      q := p;
    } else {
      var j, dest := actions[0].unitIndex, actions[0].dest;
      MoveIsStep(tr, w, j, dest);
      var p' := p;
      if j == i {
        p' := p + [dest];
        tr.WalkExtended(tr.start, p, dest);
      }
      q := MovesTraceAWalk(tr, budget, After(w, actions[0]), actions[1..], w', i, p');
    }
  }

  lemma {:induction false} LeastCostExists(tr: Travel, goal: Coord, p: seq<Coord>) returns (c: nat)
    requires tr.WalkTo(p, goal)
    ensures tr.IsLeastCost(goal, c) && c <= tr.PathCost(p)
    decreases tr.PathCost(p)
  {
    hide Travel.CanStep, Travel.EnterCost, Travel.PathCost, Travel.IsWalk;
    if q :| tr.WalkTo(q, goal) && tr.PathCost(q) < tr.PathCost(p) {
      c := LeastCostExists(tr, goal, q);
    } else {
      c := tr.PathCost(p);
    }
  }

  /** When only units of one faction exist, no run of moves, however many units take part, brings a unit to a
      tile outside its movement range or leaves it more than the budget minus the reported cost. */
  lemma MovesStayInRange(w: World, actions: seq<GameAction>, w': World, i: nat) returns (cost: nat)
    requires i < |w.units| && OnlyFaction(w, w.units[i].factionId) && w.Ok()
    requires SuccessfulRun(w, actions, w') && OnlyMoves(actions)
    ensures i < |w'.units| && RangeTravel(w, i).IsLeastCost(w'.units[i].pos, cost)
    ensures cost <= w.units[i].movementRemaining
    ensures w'.units[i].movementRemaining <= w.units[i].movementRemaining - cost
  {
    hide Travel.CanStep, Travel.EnterCost, Travel.PathCost, SuccessfulRun;
    var tr := RangeTravel(w, i);
    forall p, f | f in FactionsOn(tr.board.occupancy, p)
      ensures f == tr.faction
    {
      OccupancyMembers(w.units, p, f);
    }
    EmptyPathIsFree(tr);
    var q := MovesTraceAWalk(tr, w.units[i].movementRemaining, w, actions, w', i, []);
    cost := LeastCostExists(tr, w'.units[i].pos, q);
    RunsAreBounded(w, actions, w');
    assert w'.units[i].Ok();
  }

  lemma EmptyPathIsFree(tr: Travel)
    ensures tr.PathCost([]) == 0
  {
  }

  /** The movement range is exactly what moves reach: with own units only, a run of moves can bring unit `i`
      to another tile if and only if the range reports that tile. */
  lemma RangeIsWhatMovesReach(w: World, i: nat, t: Coord)
    requires i < |w.units| && w.units[i].Alive() && w.Ok() && OnlyFaction(w, w.units[i].factionId)
    ensures ReachedByMoves(w, i, t)
            <==> (exists cost: nat :: cost <= w.units[i].movementRemaining && RangeTravel(w, i).IsLeastCost(t, cost))
  {
    hide SuccessfulRun, Travel.IsLeastCost;
    if actions, w' :| SuccessfulRun(w, actions, w') && OnlyMoves(actions) && i < |w'.units| && w'.units[i].pos == t {
      var cost := MovesStayInRange(w, actions, w', i);
    }
    if cost: nat :| cost <= w.units[i].movementRemaining && RangeTravel(w, i).IsLeastCost(t, cost) {
      RelationsAreMutual(w.relations, w.units[i].factionId, w.units[i].factionId);
      var plan, w' := ReportedTilesAreReached(w, i, t, cost);
      assert OnlyMoves(MovePlan(i, plan));
    }
  }

  /** The range of a unit with all its remaining movement: when only its own faction has units, the reported
      tiles are exactly the other tiles that some run of moves brings it to, and a reported cost is what
      the cheapest such run spends. */
  method RangeOfUnit(state: GameState, i: nat) returns (result: seq<ReachableTile>)
    requires state.Valid() && i < |state.View().units|
    ensures NoDuplicates(result)
    ensures var w := state.View();
            forall t, c: nat :: ReachableTile(t, c) in result
                           <==> t != w.units[i].pos && c <= w.units[i].movementRemaining && RangeTravel(w, i).IsLeastCost(t, c)
    ensures var w := state.View();
            w.units[i].Alive() && OnlyFaction(w, w.units[i].factionId) ==>
              forall t :: Reported(result, t) <==> t != w.units[i].pos && ReachedByMoves(w, i, t)
  {
    hide Agrees, StatesOf, CityStatesOf, Positions, OwnedCities, Travel.IsLeastCost, RangeTravel, PlainTravel;
    ghost var w := state.View();
    state.UnitStateAt(i);
    RangeTravelIsSearched(state, i);
    var unit := state.units[i];
    ghost var tr := PlainTravel(state.map_, state.registry, unit.factionId, unit.Pos());
    assert tr == RangeTravel(w, i) && unit.Pos() == w.units[i].pos && unit.movementRemaining == w.units[i].movementRemaining;
    result := ComputeMovementRange(unit.Pos(), unit.movementRemaining, state.map_, state.registry, unit.factionId);
    assert state.View() == w;
    assert forall t, c: nat :: ReachableTile(t, c) in result
                          <==> t != w.units[i].pos && c <= w.units[i].movementRemaining && tr.IsLeastCost(t, c);
    if w.units[i].Alive() && OnlyFaction(w, w.units[i].factionId) {
      state.ValidViewIsOk();
      forall t
        ensures Reported(result, t) <==> t != w.units[i].pos && ReachedByMoves(w, i, t)
      {
        RangeIsWhatMovesReach(w, i, t);
      }
    }
  }

  ghost predicate Reported(result: seq<ReachableTile>, t: Coord) {
    exists c: nat :: ReachableTile(t, c) in result
  }

  /** Some run of moves, all of which execute, brings unit `i` to `t`. */
  ghost predicate ReachedByMoves(w: World, i: nat, t: Coord) {
    exists actions, w' :: SuccessfulRun(w, actions, w') && OnlyMoves(actions) && i < |w'.units| && w'.units[i].pos == t
  }
}
