/** The two A* searches, proved against walks. */
module Pathfinding {
  import opened Common
  import opened Hex
  import opened Terrain
  import opened Diplomacy
  import opened Registry
  import opened ZoneOfControl
  import opened Routes
  import opened SearchState

  /** The rules `findPath` and `computeMovementRange` follow: relations play no part. */
  ghost function PlainTravel(map_: Map, registry: TileRegistry, faction: FactionId, start: Coord): Travel
    requires map_.Valid()
    reads map_, registry
  {
    Travel(Board(map_.View(), registry.UnitOccupancy(), map[]), faction, start, false)
  }

  ghost function ZocTravel(map_: Map, registry: TileRegistry, diplomacy: DiplomacyManager, faction: FactionId, start: Coord): Travel
    requires map_.Valid()
    reads map_, registry, diplomacy
  {
    Travel(BoardOf(map_, registry, diplomacy), faction, start, true)
  }

  predicate IsTileBlocked(p: Coord, map_: Map, registry: TileRegistry, faction: FactionId)
    requires map_.Valid() && InMap(p, map_.height, map_.width)
    reads map_, registry
  {
    || !PropertiesOf(map_.Tile(p)).passable
    || exists u | u in registry.UnitsAt(p) :: u.factionId != faction
  }

  /** The blocked test scans unit pointers; the rules speak of factions.  They agree for any rules. */
  lemma BlockedAgrees(p: Coord, map_: Map, registry: TileRegistry, tr: Travel)
    requires map_.Valid() && InMap(p, map_.height, map_.width)
    requires tr.board.grid == map_.View() && tr.board.occupancy == registry.UnitOccupancy()
    ensures IsTileBlocked(p, map_, registry, tr.faction) <==> tr.Blocked(p)
  {
    if u :| u in registry.UnitsAt(p) && u.factionId != tr.faction {
      var j :| 0 <= j < |registry.units[p]| && registry.units[p][j] == u;
      assert u.factionId in FactionsOn(tr.board.occupancy, p);
    }
  }

  /** Whoever the index holds on a tile of a walk is of the mover's faction. */
  lemma WalkMeetsNoForeigner(tr: Travel, registry: TileRegistry, path: seq<Coord>)
    requires tr.board.occupancy == registry.UnitOccupancy() && tr.IsWalk(tr.start, path)
    ensures forall p, u :: p in path && u in registry.UnitsAt(p) ==> u.factionId == tr.faction
  {
    forall p, u | p in path && u in registry.UnitsAt(p)
      ensures u.factionId == tr.faction
    {
      var i :| 0 <= i < |path| && path[i] == p;
      assert tr.CanStep(TileBefore(tr.start, path, i), path[i]);
      var j :| 0 <= j < |registry.units[p]| && registry.units[p][j] == u;
      assert u.factionId in FactionsOn(tr.board.occupancy, p);
    }
  }

  /** Removes and returns a least entry; ties are broken arbitrarily, as the heap may. */
  method PopTop(open: multiset<OpenNode>) returns (top: OpenNode, rest: multiset<OpenNode>)
    requires open != multiset{}
    ensures IsTop(open, top) && rest == open - multiset{top}
  {
    LeastExists(open);
    top :| top in open && forall m | m in open :: top.fScore <= m.fScore;
    rest := open - multiset{top};
  }

  lemma {:induction false} LeastExists(open: multiset<OpenNode>)
    requires open != multiset{}
    ensures exists n :: IsTop(open, n)
    decreases |open|
  {
    var n :| n in open;
    var rest := open - multiset{n};
    assert forall k :: k in open ==> k == n || k in rest;
    if rest == multiset{} {
      assert IsTop(open, n);
    } else {
      LeastExists(rest);
      var m :| IsTop(rest, m);
      assert IsTop(open, if n.fScore <= m.fScore then n else m);
    }
  }

  /** Walks the parent links back from the goal.  Scores fall along them, so the walk back ends, and the
      path found costs no more than the goal's score. */
  method ReconstructPath(goal: Coord, start: Coord, came: Parents, ghost tr: Travel, ghost g: Scores)
    returns (path: seq<Coord>)
    requires start == tr.start && goal in g && Chained(tr, g, came)
    ensures tr.WalkTo(path, goal) && tr.PathCost(path) <= g[goal]
    ensures start !in path && NoDuplicates(path)
  {
    hide HexDistance, Travel.CanStep, Travel.EnterCost, Travel.PathCost, Travel.IsWalk;
    path := [];
    var step := goal;
    EmptyWalk(tr, goal);
    ghost var walk: seq<Coord> := [];
    while step != start
      invariant step in g
      invariant tr.IsWalk(step, walk) && EndOf(step, walk) == goal
      invariant g[step] + tr.PathCost(walk) <= g[goal]
      invariant start !in walk && NoDuplicates(walk)
      invariant forall t :: t in walk ==> t in g && g[step] < g[t]
      invariant path == Reversed(walk)
      decreases g[step]
    {
      path := path + [step];
      tr.WalkPrepended(came[step], step, walk);
      tr.StepFacts(came[step], step);
      ReversedCons(step, walk);
      walk := [step] + walk;
      step := came[step];
    }
    ReversedTwice(walk);
    path := Reversed(path);
  }

  lemma EmptyWalk(tr: Travel, p: Coord)
    ensures tr.IsWalk(p, []) && EndOf(p, []) == p && tr.PathCost([]) == 0
  {
  }

  function Reversed<T>(s: seq<T>): seq<T> {
    if s == [] then [] else [s[|s| - 1]] + Reversed(s[..|s| - 1])
  }

  lemma {:induction false} ReversedCons<T>(x: T, s: seq<T>)
    ensures Reversed([x] + s) == Reversed(s) + [x]
  {
    if s != [] {
      var init := s[..|s| - 1];
      ReversedCons(x, init);
      assert ([x] + s)[..|s|] == [x] + init;
    } else {
      assert [x] + s == [x];
      assert [x][..0] == [];
    }
  }

  lemma {:induction false} ReversedTwice<T>(s: seq<T>)
    ensures Reversed(Reversed(s)) == s
  {
    if s != [] {
      var init := s[..|s| - 1];
      ReversedTwice(init);
      ReversedCons(s[|s| - 1], Reversed(init));
    }
  }

  lemma StepStaysInMap(tr: Travel, u: Coord, v: Coord)
    requires tr.CanStep(u, v)
    ensures tr.board.grid.Has(v)
  {
  }

  /** One relaxation: a strictly better score is recorded with its parent, and queued. */
  method TryExpandNeighbor(neighbour: Coord, current: Coord, currentG: nat, goal: Coord, map_: Map,
                           g: Scores, came: Parents, open: multiset<OpenNode>, ghost tr: Travel)
    returns (g': Scores, came': Parents, open': multiset<OpenNode>)
    requires map_.Valid() && tr.board.grid == map_.View()
    requires SearchInv(tr, goal, g, came, open, {current}) && Within(tr, g)
    requires current in g && g[current] == currentG && tr.CanStep(current, neighbour)
    ensures SearchInv(tr, goal, g', came', open', {current}) && Within(tr, g')
    ensures current in g' && g'[current] == currentG
    ensures forall t :: t in g ==> t in g' && g'[t] <= g[t]
    ensures neighbour in g' && g'[neighbour] <= currentG + tr.EnterCost(neighbour)
    ensures Progress(tr, g, open, g', open')
  {
    hide HexDistance, Travel.CanStep, Chained, Accounted, QueueSound, Universe, ScoreSum;
    StepStaysInMap(tr, current, neighbour);
    g', came', open' := g, came, open;
    var tentativeG := currentG + PropertiesOf(map_.Tile(neighbour)).movementCost;
    if neighbour !in g || tentativeG < g[neighbour] {
      PushKeepsInv(tr, goal, g, came, open, current, neighbour);
      PushLowersPotential(tr, g, neighbour, tentativeG);
      g' := g[neighbour := tentativeG];
      came' := came[neighbour := current];
      open' := open + multiset{OpenNode(neighbour, tentativeG + HexDistance(neighbour, goal))};
    }
  }

  /** Either nothing happened or the potential of the scores fell. */
  ghost predicate Progress(tr: Travel, g: Scores, open: multiset<OpenNode>, g': Scores, open': multiset<OpenNode>) {
    var before, after := |Universe(tr) - g.Keys|, |Universe(tr) - g'.Keys|;
    || after < before
    || (after == before && ScoreSum(g') < ScoreSum(g))
    || (g' == g && open' == open)
  }

  /** What the loop over the neighbours of `cur` has done after the first `n` of them. */
  ghost predicate Relaxed(tr: Travel, g: Scores, cur: Coord, neighbours: seq<Coord>, n: nat)
    requires n <= |neighbours| && cur in g
  {
    forall k :: 0 <= k < n && tr.CanStep(cur, neighbours[k]) ==>
      neighbours[k] in g && g[neighbours[k]] <= g[cur] + tr.EnterCost(neighbours[k])
  }

  lemma NoneRelaxed(tr: Travel, g: Scores, cur: Coord, neighbours: seq<Coord>)
    requires cur in g
    ensures Relaxed(tr, g, cur, neighbours, 0)
  {
  }

  lemma RelaxedKept(tr: Travel, g: Scores, g': Scores, cur: Coord, neighbours: seq<Coord>, n: nat)
    requires n < |neighbours| && cur in g && cur in g' && g'[cur] == g[cur] && Relaxed(tr, g, cur, neighbours, n)
    requires forall t :: t in g ==> t in g' && g'[t] <= g[t]
    requires tr.CanStep(cur, neighbours[n]) ==>
               neighbours[n] in g' && g'[neighbours[n]] <= g[cur] + tr.EnterCost(neighbours[n])
    ensures Relaxed(tr, g', cur, neighbours, n + 1)
  {
  }

  lemma RelaxedAllMeansSettled(tr: Travel, g: Scores, cur: Coord, neighbours: seq<Coord>)
    requires cur in g && Relaxed(tr, g, cur, neighbours, |neighbours|)
    requires neighbours == tr.board.Neighbours(cur)
    ensures Settled(tr, g, cur)
  {
    forall v | tr.CanStep(cur, v)
      ensures v in g && g[v] <= g[cur] + tr.EnterCost(v)
    {
      var k :| 0 <= k < |neighbours| && neighbours[k] == v;
    }
  }

  /** A tile with no legal step out is settled whatever the scores: a zone-of-control stop, for one. */
  lemma StopIsSettled(tr: Travel, g: Scores, cur: Coord)
    requires cur in g && forall v :: !tr.CanStep(cur, v)
    ensures Settled(tr, g, cur)
  {
  }

  lemma StartKeepsInv(tr: Travel, goal: Coord)
    ensures SearchInv(tr, goal, map[tr.start := 0], map[], multiset{OpenNode(tr.start, HexDistance(tr.start, goal))}, {})
    ensures Within(tr, map[tr.start := 0])
  {
    hide HexDistance, Travel.CanStep;
  }

  /** Taking an entry off the queue leaves the invariant true but for its tile, which must then be settled. */
  lemma PopKeepsInv(tr: Travel, goal: Coord, g: Scores, came: Parents, open: multiset<OpenNode>, top: OpenNode)
    requires SearchInv(tr, goal, g, came, open, {}) && top in open
    ensures top.coord in g && SearchInv(tr, goal, g, came, open - multiset{top}, {top.coord})
  {
    hide HexDistance, Travel.CanStep, Chained;
  }

  lemma SettledKeepsInv(tr: Travel, goal: Coord, g: Scores, came: Parents, open: multiset<OpenNode>, cur: Coord)
    requires SearchInv(tr, goal, g, came, open, {cur}) && cur in g && cur != goal && Settled(tr, g, cur)
    ensures SearchInv(tr, goal, g, came, open, {})
  {
    hide HexDistance, Travel.CanStep, Chained;
  }

  lemma LastStep(tr: Travel, p: seq<Coord>)
    requires tr.IsWalk(tr.start, p) && p != []
    ensures tr.CanStep(TileBefore(tr.start, p, |p| - 1), EndOf(tr.start, p))
  {
    assert tr.CanStep(TileBefore(tr.start, p, |p| - 1), p[|p| - 1]);
  }

  lemma BlockedGoalUnreachable(tr: Travel, goal: Coord)
    requires tr.board.grid.Has(goal) && tr.Blocked(goal) && goal != tr.start
    ensures !tr.Reachable(goal)
  {
    forall p
      ensures !tr.WalkTo(p, goal)
    {
      if tr.WalkTo(p, goal) {
        LastStep(tr, p);
      }
    }
  }

  /** The loop over the neighbours of the tile being expanded, which settles it. */
  method ExpandAll(current: Coord, currentG: nat, goal: Coord, map_: Map, registry: TileRegistry, faction: FactionId,
                   gScore: Scores, cameFrom: Parents, openSet: multiset<OpenNode>, ghost tr: Travel)
    returns (g: Scores, came: Parents, open: multiset<OpenNode>)
    requires map_.Valid() && tr == PlainTravel(map_, registry, faction, tr.start)
    requires SearchInv(tr, goal, gScore, cameFrom, openSet, {current}) && Within(tr, gScore)
    requires current in gScore && gScore[current] == currentG && current != goal
    ensures SearchInv(tr, goal, g, came, open, {}) && Within(tr, g)
    ensures Progress(tr, gScore, openSet, g, open)
  {
    hide HexDistance, Travel.CanStep, Travel.EnterCost, Chained, Accounted, QueueSound, Universe, ScoreSum, Relaxed,
         Settled, IndexOccupancy;
    g, came, open := gScore, cameFrom, openSet;
    var neighbours := HexNeighbours(SEARCH_TABLE, current, map_.height, map_.width);
    NoneRelaxed(tr, g, current, neighbours);
    for i := 0 to |neighbours|
      invariant SearchInv(tr, goal, g, came, open, {current}) && Within(tr, g)
      invariant current in g && g[current] == currentG
      invariant Relaxed(tr, g, current, neighbours, i)
      invariant Progress(tr, gScore, openSet, g, open)
    {
      ghost var g1 := g;
      var n := neighbours[i];
      StepIffUnblocked(tr, map_, registry, current, n);
      if !IsTileBlocked(n, map_, registry, faction) {
        g, came, open := TryExpandNeighbor(n, current, currentG, goal, map_, g, came, open, tr);
      }
      RelaxedKept(tr, g1, g, current, neighbours, i);
    }
    RelaxedAllMeansSettled(tr, g, current, neighbours);
    SettledKeepsInv(tr, goal, g, came, open, current);
  }

  /** A* without zones of control.  The path returned is a legal walk of least total movement cost that
      never revisits a tile, and there is none exactly when start and goal coincide or no walk reaches the
      goal, as when it is blocked.  The stale-entry test compares a score with itself and never skips anything,
      so tiles may be expanded again; the loop ends all the same. */
  method FindPath(start: Coord, goal: Coord, map_: Map, registry: TileRegistry, faction: FactionId)
    returns (path: seq<Coord>)
    requires map_.Valid() && (start != goal ==> InMap(goal, map_.height, map_.width))
    ensures var tr := PlainTravel(map_, registry, faction, start);
            path != [] ==> tr.WalkTo(path, goal) && tr.IsLeastCost(goal, tr.PathCost(path)) && NoDuplicates([start] + path)
    ensures var tr := PlainTravel(map_, registry, faction, start);
            path == [] <==> start == goal || !tr.Reachable(goal)
    ensures forall p, u :: p in path && u in registry.UnitsAt(p) ==> u.factionId == faction
  {
    hide HexDistance, Travel.CanStep, Travel.EnterCost, Travel.PathCost, Travel.IsWalk, Travel.Blocked, Chained,
         Accounted, QueueSound, Universe, ScoreSum, Relaxed, Settled, IndexOccupancy;
    if start == goal {
      return [];
    }
    ghost var tr := PlainTravel(map_, registry, faction, start);
    BlockedAgrees(goal, map_, registry, tr);
    if IsTileBlocked(goal, map_, registry, faction) {
      BlockedGoalUnreachable(tr, goal);
      return [];
    }

    var gScore: Scores, cameFrom: Parents := map[start := 0], map[];
    var openSet := multiset{OpenNode(start, HexDistance(start, goal))};
    StartKeepsInv(tr, goal);

    while openSet != multiset{}
      invariant SearchInv(tr, goal, gScore, cameFrom, openSet, {}) && Within(tr, gScore)
      decreases |Universe(tr) - gScore.Keys|, ScoreSum(gScore), |openSet|
    {
      ghost var before := openSet;
      var current;
      current, openSet := PopTop(openSet);

      if current.coord == goal {
        path := FinishPath(tr, goal, start, gScore, cameFrom, before, current);
        WalkMeetsNoForeigner(tr, registry, path);
        return;
      }

      PopKeepsInv(tr, goal, gScore, cameFrom, before, current);
      var currentG := gScore[current.coord];
      if currentG < gScore[current.coord] {
        continue;
      }

      gScore, cameFrom, openSet := ExpandAll(current.coord, currentG, goal, map_, registry, faction, gScore, cameFrom, openSet, tr);
    }

    EmptyQueueMeansUnreachable(tr, goal, gScore, cameFrom);
    return [];
  }

  lemma StepIffUnblocked(tr: Travel, map_: Map, registry: TileRegistry, u: Coord, v: Coord)
    requires map_.Valid() && tr == PlainTravel(map_, registry, tr.faction, tr.start)
    requires v in tr.board.Neighbours(u)
    ensures InMap(v, map_.height, map_.width)
    ensures tr.CanStep(u, v) <==> !IsTileBlocked(v, map_, registry, tr.faction)
  {
    NeighboursAreDistanceOne(SEARCH_TABLE, u, map_.height, map_.width);
    BlockedAgrees(v, map_, registry, tr);
  }

  /** What both searches do when the least entry is the goal's. */
  method FinishPath(ghost tr: Travel, goal: Coord, start: Coord, g: Scores, came: Parents,
                    ghost open: multiset<OpenNode>, ghost top: OpenNode)
    returns (path: seq<Coord>)
    requires start == tr.start && goal != start
    requires SearchInv(tr, goal, g, came, open, {}) && IsTop(open, top) && top.coord == goal
    ensures path != [] && tr.WalkTo(path, goal) && tr.Reachable(goal)
    ensures tr.IsLeastCost(goal, tr.PathCost(path))
    ensures NoDuplicates([start] + path)
  {
    hide HexDistance, Travel.CanStep, Travel.EnterCost, Travel.PathCost, Travel.IsWalk, Accounted;
    path := ReconstructPath(goal, start, came, tr, g);
    forall p | tr.WalkTo(p, goal)
      ensures tr.PathCost(path) <= tr.PathCost(p)
    {
      TopGoalIsOptimal(tr, goal, g, came, open, top, p);
    }
  }

  method ExpandAllZoc(current: Coord, currentG: nat, goal: Coord, map_: Map, registry: TileRegistry, faction: FactionId,
                      diplomacy: DiplomacyManager, gScore: Scores, cameFrom: Parents, openSet: multiset<OpenNode>, ghost tr: Travel)
    returns (g: Scores, came: Parents, open: multiset<OpenNode>)
    requires map_.Valid() && tr == ZocTravel(map_, registry, diplomacy, faction, tr.start)
    requires SearchInv(tr, goal, gScore, cameFrom, openSet, {current}) && Within(tr, gScore)
    requires current in gScore && gScore[current] == currentG && current != goal
    requires current == tr.start || !InEnemyZoc(tr.board, tr.faction, current)
    ensures SearchInv(tr, goal, g, came, open, {}) && Within(tr, g)
    ensures Progress(tr, gScore, openSet, g, open)
  {
    hide HexDistance, Travel.CanStep, Travel.EnterCost, Chained, Accounted, QueueSound, Universe, ScoreSum, Relaxed,
         Settled, InEnemyZoc, BlockedByZoc, IndexOccupancy;
    g, came, open := gScore, cameFrom, openSet;
    var neighbours := HexNeighbours(SEARCH_TABLE, current, map_.height, map_.width);
    NoneRelaxed(tr, g, current, neighbours);
    for i := 0 to |neighbours|
      invariant SearchInv(tr, goal, g, came, open, {current}) && Within(tr, g)
      invariant current in g && g[current] == currentG
      invariant Relaxed(tr, g, current, neighbours, i)
      invariant Progress(tr, gScore, openSet, g, open)
    {
      ghost var g1 := g;
      var n := neighbours[i];
      ZocStepFacts(tr, map_, registry, diplomacy, current, n);
      if !IsTileBlocked(n, map_, registry, faction) {
        var zocBlocked := IsMovementBlockedByZoc(current, n, faction, map_, registry, diplomacy);
        if !zocBlocked {
          g, came, open := TryExpandNeighbor(n, current, currentG, goal, map_, g, came, open, tr);
        }
      }
      RelaxedKept(tr, g1, g, current, neighbours, i);
    }
    RelaxedAllMeansSettled(tr, g, current, neighbours);
    SettledKeepsInv(tr, goal, g, came, open, current);
  }

  /** A* under zone-of-control rules.  The path is a least-cost legal walk: every tile strictly between
      start and goal is free of enemy ZoC and no step joins two tiles held by one enemy.  For distinct
      start and goal it is empty exactly when the goal is blocked or no legal walk exists. */
  method FindPathWithZoc(start: Coord, goal: Coord, map_: Map, registry: TileRegistry, faction: FactionId,
                         diplomacy: DiplomacyManager)
    returns (path: seq<Coord>)
    requires map_.Valid() && (start != goal ==> InMap(goal, map_.height, map_.width))
    ensures var tr := ZocTravel(map_, registry, diplomacy, faction, start);
            path != [] ==> tr.WalkTo(path, goal) && tr.IsLeastCost(goal, tr.PathCost(path)) && NoDuplicates([start] + path)
    ensures var tr := ZocTravel(map_, registry, diplomacy, faction, start);
            path == [] <==> start == goal || !tr.Reachable(goal)
    ensures var board := BoardOf(map_, registry, diplomacy);
            && (forall i :: 0 <= i < |path| - 1 ==> !InEnemyZoc(board, faction, path[i]))
            && (forall i :: 0 <= i < |path| ==> !BlockedByZoc(board, faction, TileBefore(start, path, i), path[i]))
    ensures forall p, u :: p in path && u in registry.UnitsAt(p) ==> u.factionId == faction
  {
    hide HexDistance, Travel.CanStep, Travel.EnterCost, Travel.PathCost, Travel.IsWalk, Travel.Blocked, Chained,
         Accounted, QueueSound, Universe, ScoreSum, Relaxed, Settled, InEnemyZoc, BlockedByZoc, IndexOccupancy;
    if start == goal {
      return [];
    }
    ghost var tr := ZocTravel(map_, registry, diplomacy, faction, start);
    BlockedAgrees(goal, map_, registry, tr);
    if IsTileBlocked(goal, map_, registry, faction) {
      BlockedGoalUnreachable(tr, goal);
      return [];
    }

    var gScore: Scores, cameFrom: Parents := map[start := 0], map[];
    var openSet := multiset{OpenNode(start, HexDistance(start, goal))};
    StartKeepsInv(tr, goal);

    while openSet != multiset{}
      invariant SearchInv(tr, goal, gScore, cameFrom, openSet, {}) && Within(tr, gScore)
      decreases |Universe(tr) - gScore.Keys|, ScoreSum(gScore), |openSet|
    {
      ghost var before := openSet;
      var current;
      current, openSet := PopTop(openSet);

      if current.coord == goal {
        path := FinishPath(tr, goal, start, gScore, cameFrom, before, current);
        ZocWalkIsLegal(tr, path);
        WalkMeetsNoForeigner(tr, registry, path);
        return;
      }

      PopKeepsInv(tr, goal, gScore, cameFrom, before, current);
      var currentG := gScore[current.coord];
      if currentG < gScore[current.coord] {
        continue;
      }

      var inZoc := IsInEnemyZoc(current.coord, faction, map_, registry, diplomacy);
      if current.coord != start && inZoc {
        ZocStop(tr, current.coord);
        StopIsSettled(tr, gScore, current.coord);
        SettledKeepsInv(tr, goal, gScore, cameFrom, openSet, current.coord);
        continue;
      }

      gScore, cameFrom, openSet :=
        ExpandAllZoc(current.coord, currentG, goal, map_, registry, faction, diplomacy, gScore, cameFrom, openSet, tr);
    }

    EmptyQueueMeansUnreachable(tr, goal, gScore, cameFrom);
    return [];
  }

  lemma ZocStop(tr: Travel, u: Coord)
    requires tr.zoc && u != tr.start && InEnemyZoc(tr.board, tr.faction, u)
    ensures forall v :: !tr.CanStep(u, v)
  {
  }

  lemma ZocStepFacts(tr: Travel, map_: Map, registry: TileRegistry, diplomacy: DiplomacyManager, u: Coord, v: Coord)
    requires map_.Valid() && tr == ZocTravel(map_, registry, diplomacy, tr.faction, tr.start)
    requires v in tr.board.Neighbours(u) && (u == tr.start || !InEnemyZoc(tr.board, tr.faction, u))
    ensures InMap(v, map_.height, map_.width)
    ensures tr.CanStep(u, v) <==> !IsTileBlocked(v, map_, registry, tr.faction) && !BlockedByZoc(tr.board, tr.faction, u, v)
  {
    hide InEnemyZoc, BlockedByZoc, HexDistance;
    NeighboursAreDistanceOne(SEARCH_TABLE, u, map_.height, map_.width);
    BlockedAgrees(v, map_, registry, tr);
  }

  lemma ZocStepIsLegal(tr: Travel, u: Coord, v: Coord)
    requires tr.zoc && tr.CanStep(u, v)
    ensures u == tr.start || !InEnemyZoc(tr.board, tr.faction, u)
    ensures !BlockedByZoc(tr.board, tr.faction, u, v)
  {
  }

  /** A walk that does not come back to its start obeys the zone-of-control rules in their plain form. */
  lemma ZocWalkIsLegal(tr: Travel, path: seq<Coord>)
    requires tr.zoc && tr.IsWalk(tr.start, path) && NoDuplicates([tr.start] + path)
    ensures forall i :: 0 <= i < |path| - 1 ==> !InEnemyZoc(tr.board, tr.faction, path[i])
    ensures forall i :: 0 <= i < |path| ==> !BlockedByZoc(tr.board, tr.faction, TileBefore(tr.start, path, i), path[i])
  {
    hide InEnemyZoc, BlockedByZoc, Travel.CanStep;
    forall i | 0 <= i < |path|
      ensures i < |path| - 1 ==> !InEnemyZoc(tr.board, tr.faction, path[i])
      ensures !BlockedByZoc(tr.board, tr.faction, TileBefore(tr.start, path, i), path[i])
    {
      assert tr.CanStep(TileBefore(tr.start, path, i), path[i]);
      ZocStepIsLegal(tr, TileBefore(tr.start, path, i), path[i]);
      if i < |path| - 1 {
        assert tr.CanStep(TileBefore(tr.start, path, i + 1), path[i + 1]);
        ZocStepIsLegal(tr, path[i], path[i + 1]);
        assert ([tr.start] + path)[0] != ([tr.start] + path)[i + 1];
      }
    }
  }
}
