/** The budgeted flood fill: which tiles a unit can afford to reach, and at what cost. */
module MovementRange {
  import opened Common
  import opened Hex
  import opened Terrain
  import opened Diplomacy
  import opened Registry
  import opened Routes
  import opened SearchState
  import opened Pathfinding

  datatype ReachableTile = ReachableTile(coord: Coord, cost: nat)

  type Witnesses = map<Coord, seq<Coord>>

  /** Every recorded cost is the cost of a recorded walk, and within the budget but for the start's. */
  ghost predicate Witnessed(tr: Travel, budget: int, best: Scores, walks: Witnesses) {
    && tr.start in best && best[tr.start] == 0
    && walks.Keys == best.Keys
    && forall t :: t in best ==>
         tr.WalkTo(walks[t], t) && tr.PathCost(walks[t]) == best[t] && (t == tr.start || best[t] <= budget)
  }

  /** No affordable step out of `t` would improve a cost. */
  ghost predicate SettledWithin(tr: Travel, budget: int, best: Scores, t: Coord)
    requires t in best
  {
    forall v :: tr.CanStep(t, v) && best[t] + tr.EnterCost(v) <= budget
                ==> v in best && best[v] <= best[t] + tr.EnterCost(v)
  }

  ghost predicate FrontierInv(tr: Travel, budget: int, best: Scores, frontier: multiset<OpenNode>, exempt: set<Coord>) {
    && (forall t :: t in best && t !in exempt ==> OpenNode(t, best[t]) in frontier || SettledWithin(tr, budget, best, t))
    && (forall n :: n in frontier ==> n.coord in best && best[n.coord] <= n.fScore)
  }

  lemma PushKeepsWitnessed(tr: Travel, budget: int, best: Scores, walks: Witnesses, cur: Coord, v: Coord, c: nat)
    requires Witnessed(tr, budget, best, walks) && cur in best && tr.CanStep(cur, v)
    requires c == best[cur] + tr.EnterCost(v) <= budget && (v in best ==> c < best[v])
    ensures v != cur && v != tr.start && cur in walks
    ensures Witnessed(tr, budget, best[v := c], walks[v := walks[cur] + [v]])
  {
    hide Travel.CanStep, Travel.EnterCost, Travel.IsWalk, Travel.PathCost, HexDistance;
    tr.StepFacts(cur, v);
    tr.WalkExtended(tr.start, walks[cur], v);
  }

  lemma PushKeepsFrontier(tr: Travel, budget: int, best: Scores, frontier: multiset<OpenNode>, cur: Coord, v: Coord, c: nat)
    requires FrontierInv(tr, budget, best, frontier, {cur}) && v != cur && (v in best ==> c < best[v])
    ensures FrontierInv(tr, budget, best[v := c], frontier + multiset{OpenNode(v, c)}, {cur})
  {
    hide Travel.CanStep, Travel.EnterCost;
    var best' := best[v := c];
    forall t | t in best && t != v && SettledWithin(tr, budget, best, t)
      ensures SettledWithin(tr, budget, best', t)
    {
    }
  }

  lemma PopKeepsFrontier(tr: Travel, budget: int, best: Scores, frontier: multiset<OpenNode>, top: OpenNode)
    requires FrontierInv(tr, budget, best, frontier, {}) && top in frontier
    ensures top.coord in best && best[top.coord] <= top.fScore
    ensures FrontierInv(tr, budget, best, frontier - multiset{top}, {top.coord})
    ensures top.fScore > best[top.coord] ==> FrontierInv(tr, budget, best, frontier - multiset{top}, {})
  {
    hide Travel.CanStep, Travel.EnterCost;
  }

  lemma SettledKeepsFrontier(tr: Travel, budget: int, best: Scores, frontier: multiset<OpenNode>, cur: Coord)
    requires FrontierInv(tr, budget, best, frontier, {cur}) && cur in best && SettledWithin(tr, budget, best, cur)
    ensures FrontierInv(tr, budget, best, frontier, {})
  {
    hide Travel.CanStep, Travel.EnterCost;
  }

  ghost predicate RelaxedWithin(tr: Travel, budget: int, best: Scores, cur: Coord, neighbours: seq<Coord>, n: nat)
    requires n <= |neighbours| && cur in best
  {
    forall k :: 0 <= k < n && tr.CanStep(cur, neighbours[k]) && best[cur] + tr.EnterCost(neighbours[k]) <= budget ==>
      neighbours[k] in best && best[neighbours[k]] <= best[cur] + tr.EnterCost(neighbours[k])
  }

  /** With nothing left in the frontier every affordable walk costs at least its end's recorded cost. */
  lemma {:induction false} AffordableWalkIsCovered(tr: Travel, budget: int, best: Scores, walks: Witnesses, p: seq<Coord>)
    requires FrontierInv(tr, budget, best, multiset{}, {}) && Witnessed(tr, budget, best, walks)
    requires tr.IsWalk(tr.start, p) && (p == [] || tr.PathCost(p) <= budget)
    ensures EndOf(tr.start, p) in best && best[EndOf(tr.start, p)] <= tr.PathCost(p)
  {
    hide Travel.CanStep, Travel.EnterCost;
    if p != [] {
      var q := p[..|p| - 1];
      tr.WalkPrefix(tr.start, p, |p| - 1);
      LastStep(tr, p);
      AffordableWalkIsCovered(tr, budget, best, walks, q);
      assert SettledWithin(tr, budget, best, EndOf(tr.start, q));
    }
  }

  /** The costs left at the end are exactly the least costs that the budget covers. */
  lemma FinalCostsAreExact(tr: Travel, budget: int, best: Scores, walks: Witnesses, t: Coord, c: nat)
    requires FrontierInv(tr, budget, best, multiset{}, {}) && Witnessed(tr, budget, best, walks)
    requires t != tr.start
    ensures t in best && best[t] == c <==> c <= budget && tr.IsLeastCost(t, c)
  {
    hide Travel.CanStep, Travel.EnterCost, Travel.IsWalk, Travel.PathCost;
    if t in best && best[t] == c {
      assert tr.WalkTo(walks[t], t);
      forall p | tr.WalkTo(p, t)
        ensures c <= tr.PathCost(p)
      {
        if tr.PathCost(p) <= budget {
          AffordableWalkIsCovered(tr, budget, best, walks, p);
        }
      }
    }
    if c <= budget && tr.IsLeastCost(t, c) {
      var p :| tr.WalkTo(p, t) && tr.PathCost(p) == c;
      AffordableWalkIsCovered(tr, budget, best, walks, p);
      assert tr.WalkTo(walks[t], t);
    }
  }

  /** The body of the neighbour loop: a cost within the budget and below the recorded one is recorded and queued. */
  method OfferCost(n: Coord, current: Coord, currentCost: nat, movementBudget: int, map_: Map,
                   best: Scores, frontier: multiset<OpenNode>, ghost tr: Travel, ghost walks: Witnesses)
    returns (best': Scores, frontier': multiset<OpenNode>, ghost walks': Witnesses)
    requires map_.Valid() && tr.board.grid == map_.View() && Within(tr, best)
    requires Witnessed(tr, movementBudget, best, walks) && FrontierInv(tr, movementBudget, best, frontier, {current})
    requires current in best && best[current] == currentCost && tr.CanStep(current, n)
    ensures Witnessed(tr, movementBudget, best', walks') && FrontierInv(tr, movementBudget, best', frontier', {current})
    ensures Within(tr, best') && current in best' && best'[current] == currentCost
    ensures forall t :: t in best ==> t in best' && best'[t] <= best[t]
    ensures currentCost + tr.EnterCost(n) <= movementBudget ==> n in best' && best'[n] <= currentCost + tr.EnterCost(n)
    ensures Progress(tr, best, frontier, best', frontier')
  {
    hide HexDistance, Travel.CanStep, Travel.EnterCost, Universe, ScoreSum, FrontierInv, Witnessed;
    StepStaysInMap(tr, current, n);
    CostIsTerrainCost(tr, map_, n);
    best', frontier', walks' := best, frontier, walks;
    var newCost := currentCost + PropertiesOf(map_.Tile(n)).movementCost;
    if newCost > movementBudget {
      return;
    }
    if n !in best || newCost < best[n] {
      PushKeepsWitnessed(tr, movementBudget, best, walks, current, n, newCost);
      PushKeepsFrontier(tr, movementBudget, best, frontier, current, n, newCost);
      PushLowersPotential(tr, best, n, newCost);
      walks' := walks[n := walks[current] + [n]];
      best' := best[n := newCost];
      frontier' := frontier + multiset{OpenNode(n, newCost)};
    }
  }

  /** Relaxes every neighbour of the popped tile within the budget. */
  method RelaxAll(current: Coord, currentCost: nat, movementBudget: int, map_: Map, registry: TileRegistry, faction: FactionId,
                  bestCost: Scores, openFrontier: multiset<OpenNode>, ghost tr: Travel, ghost walks: Witnesses)
    returns (best: Scores, frontier: multiset<OpenNode>, ghost walks': Witnesses)
    requires map_.Valid() && tr == PlainTravel(map_, registry, faction, tr.start) && Within(tr, bestCost)
    requires Witnessed(tr, movementBudget, bestCost, walks) && FrontierInv(tr, movementBudget, bestCost, openFrontier, {current})
    requires current in bestCost && bestCost[current] == currentCost
    ensures Witnessed(tr, movementBudget, best, walks') && FrontierInv(tr, movementBudget, best, frontier, {})
    ensures Within(tr, best) && Progress(tr, bestCost, openFrontier, best, frontier)
  {
    hide HexDistance, Travel.CanStep, Travel.EnterCost, Travel.PathCost, Travel.IsWalk, Travel.Blocked, Universe,
         ScoreSum, FrontierInv, Witnessed, RelaxedWithin, SettledWithin, IndexOccupancy;
    best, frontier, walks' := bestCost, openFrontier, walks;
    var neighbours := HexNeighbours(SEARCH_TABLE, current, map_.height, map_.width);
    NoneRelaxedWithin(tr, movementBudget, best, current, neighbours);
    for i := 0 to |neighbours|
      invariant Witnessed(tr, movementBudget, best, walks')
      invariant FrontierInv(tr, movementBudget, best, frontier, {current}) && Within(tr, best)
      invariant current in best && best[current] == currentCost
      invariant RelaxedWithin(tr, movementBudget, best, current, neighbours, i)
      invariant Progress(tr, bestCost, openFrontier, best, frontier)
    {
      ghost var before := best;
      var n := neighbours[i];
      StepIffUnblocked(tr, map_, registry, current, n);
      if !IsTileBlocked(n, map_, registry, faction) {
        best, frontier, walks' := OfferCost(n, current, currentCost, movementBudget, map_, best, frontier, tr, walks');
      }
      RelaxedWithinKept(tr, movementBudget, before, best, current, neighbours, i);
    }
    RelaxedAllMeansSettledWithin(tr, movementBudget, best, current, neighbours);
    SettledKeepsFrontier(tr, movementBudget, best, frontier, current);
  }

  /** Lists, once each, exactly the tiles other than the start whose cheapest walk the budget covers, with
      that cheapest cost. */
  method ComputeMovementRange(start: Coord, movementBudget: int, map_: Map, registry: TileRegistry, faction: FactionId)
    returns (result: seq<ReachableTile>)
    requires map_.Valid()
    ensures NoDuplicates(result)
    ensures var tr := PlainTravel(map_, registry, faction, start);
            forall t, c: nat :: ReachableTile(t, c) in result
                           <==> t != start && c <= movementBudget && tr.IsLeastCost(t, c)
    ensures forall tile, u :: tile in result && u in registry.UnitsAt(tile.coord) ==> u.factionId == faction
  {
    hide HexDistance, Travel.CanStep, Travel.EnterCost, Travel.PathCost, Travel.IsWalk, Travel.Blocked,
         Travel.IsLeastCost, Universe, ScoreSum, FrontierInv, Witnessed, RelaxedWithin, SettledWithin,
         IndexOccupancy;
    ghost var tr := PlainTravel(map_, registry, faction, start);
    var bestCost: Scores := map[start := 0];
    var frontier := multiset{OpenNode(start, 0)};
    ghost var walks: Witnesses := map[start := []];
    RangeStart(tr, movementBudget);

    while frontier != multiset{}
      invariant Witnessed(tr, movementBudget, bestCost, walks)
      invariant FrontierInv(tr, movementBudget, bestCost, frontier, {}) && Within(tr, bestCost)
      decreases |Universe(tr) - bestCost.Keys|, ScoreSum(bestCost), |frontier|
    {
      ghost var before := frontier;
      var current;
      current, frontier := PopTop(frontier);
      PopKeepsFrontier(tr, movementBudget, bestCost, before, current);
      if current.fScore > bestCost[current.coord] {
        continue;
      }
      bestCost, frontier, walks := RelaxAll(current.coord, current.fScore, movementBudget, map_, registry, faction,
                                            bestCost, frontier, tr, walks);
    }

    result := CollectReached(start, bestCost);
    forall t, c: nat
      ensures ReachableTile(t, c) in result <==> t != start && c <= movementBudget && tr.IsLeastCost(t, c)
    {
      if t != start {
        FinalCostsAreExact(tr, movementBudget, bestCost, walks, t, c);
      }
    }
    forall tile, u | tile in result && u in registry.UnitsAt(tile.coord)
      ensures u.factionId == faction
    {
      assert ReachableTile(tile.coord, tile.cost) in result;
      ReachedTileHasNoForeigner(tr, registry, tile.coord, tile.cost);
    }
  }

  lemma ReachedTileHasNoForeigner(tr: Travel, registry: TileRegistry, t: Coord, cost: nat)
    requires tr.board.occupancy == registry.UnitOccupancy() && t != tr.start && tr.IsLeastCost(t, cost)
    ensures forall u :: u in registry.UnitsAt(t) ==> u.factionId == tr.faction
  {
    hide Travel.CanStep, IndexOccupancy;
    var p :| tr.WalkTo(p, t) && tr.PathCost(p) == cost;
    WalkMeetsNoForeigner(tr, registry, p);
    assert p != [] && t in p;
  }

  /** The hash map is read out in an unspecified order. */
  method CollectReached(start: Coord, bestCost: Scores) returns (result: seq<ReachableTile>)
    ensures NoDuplicates(result)
    ensures forall t, c: nat :: ReachableTile(t, c) in result <==> t != start && t in bestCost && bestCost[t] == c
  {
    result := [];
    var todo := bestCost.Keys;
    while todo != {}
      invariant todo <= bestCost.Keys && NoDuplicates(result)
      invariant forall t, c: nat :: ReachableTile(t, c) in result
                               <==> t != start && t in bestCost && t !in todo && bestCost[t] == c
    {
      var t :| t in todo;
      todo := todo - {t};
      if t != start {
        result := result + [ReachableTile(t, bestCost[t])];
      }
    }
  }

  lemma RangeStart(tr: Travel, budget: int)
    ensures Witnessed(tr, budget, map[tr.start := 0], map[tr.start := []])
    ensures FrontierInv(tr, budget, map[tr.start := 0], multiset{OpenNode(tr.start, 0)}, {})
    ensures Within(tr, map[tr.start := 0])
  {
  }

  lemma CostIsTerrainCost(tr: Travel, map_: Map, n: Coord)
    requires map_.Valid() && tr.board.grid == map_.View() && InMap(n, map_.height, map_.width)
    ensures tr.EnterCost(n) == PropertiesOf(map_.Tile(n)).movementCost && tr.board.grid.Has(n)
  {
  }

  lemma NoneRelaxedWithin(tr: Travel, budget: int, best: Scores, cur: Coord, neighbours: seq<Coord>)
    requires cur in best
    ensures RelaxedWithin(tr, budget, best, cur, neighbours, 0)
  {
  }

  lemma RelaxedWithinKept(tr: Travel, budget: int, g: Scores, g': Scores, cur: Coord, neighbours: seq<Coord>, n: nat)
    requires n < |neighbours| && cur in g && cur in g' && g'[cur] == g[cur] && RelaxedWithin(tr, budget, g, cur, neighbours, n)
    requires forall t :: t in g ==> t in g' && g'[t] <= g[t]
    requires tr.CanStep(cur, neighbours[n]) && g[cur] + tr.EnterCost(neighbours[n]) <= budget ==>
               neighbours[n] in g' && g'[neighbours[n]] <= g[cur] + tr.EnterCost(neighbours[n])
    ensures RelaxedWithin(tr, budget, g', cur, neighbours, n + 1)
  {
  }

  lemma RelaxedAllMeansSettledWithin(tr: Travel, budget: int, g: Scores, cur: Coord, neighbours: seq<Coord>)
    requires cur in g && RelaxedWithin(tr, budget, g, cur, neighbours, |neighbours|)
    requires neighbours == tr.board.Neighbours(cur)
    ensures SettledWithin(tr, budget, g, cur)
  {
    forall v | tr.CanStep(cur, v) && g[cur] + tr.EnterCost(v) <= budget
      ensures v in g && g[v] <= g[cur] + tr.EnterCost(v)
    {
      var k :| 0 <= k < |neighbours| && neighbours[k] == v;
    }
  }
}
