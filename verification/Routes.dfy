/** What the searches are about: legal steps, walks made of them, and what walks cost. */
module Routes {
  import opened Hex
  import opened Terrain
  import opened Diplomacy
  import opened Registry
  import opened ZoneOfControl

  /** The rules one search follows.  `zoc` adds the zone-of-control rules. */
  datatype Travel = Travel(board: Board, faction: FactionId, start: Coord, zoc: bool) {
    /** Impassable terrain, or any unit of another faction, at war or not, dead or alive. */
    ghost predicate Blocked(p: Coord)
      requires board.grid.Has(p)
    {
      || !PropertiesOf(board.grid.At(p)).passable
      || exists f :: f in FactionsOn(board.occupancy, p) && f != faction
    }

    function EnterCost(p: Coord): nat {
      if board.grid.Has(p) then PropertiesOf(board.grid.At(p)).movementCost else 0
    }

    /** A step from `u` to `v` is legal.  Under ZoC rules a tile held by an enemy is a place to stop at,
        unless it is the start, and no step joins two tiles held by the same enemy. */
    ghost predicate CanStep(u: Coord, v: Coord) {
      && v in board.Neighbours(u)
      && board.grid.Has(v)
      && !Blocked(v)
      && (zoc ==> (u == start || !InEnemyZoc(board, faction, u)) && !BlockedByZoc(board, faction, u, v))
    }

    /** `p` lists the tiles after `from`, each a legal step on. */
    ghost predicate IsWalk(from: Coord, p: seq<Coord>) {
      forall i :: 0 <= i < |p| ==> CanStep(TileBefore(from, p, i), p[i])
    }

    function PathCost(p: seq<Coord>): nat {
      if p == [] then 0 else PathCost(p[..|p| - 1]) + EnterCost(p[|p| - 1])
    }

    ghost predicate WalkTo(p: seq<Coord>, goal: Coord) {
      IsWalk(start, p) && EndOf(start, p) == goal
    }

    ghost predicate Reachable(goal: Coord) {
      exists p :: WalkTo(p, goal)
    }

    /** `cost` is the least cost of any walk from the start to `goal`. */
    ghost predicate IsLeastCost(goal: Coord, cost: nat) {
      && (exists p :: WalkTo(p, goal) && PathCost(p) == cost)
      && (forall p :: WalkTo(p, goal) ==> cost <= PathCost(p))
    }

    lemma StepFacts(u: Coord, v: Coord)
      requires CanStep(u, v)
      ensures u != v && HexDistance(u, v) == 1 && EnterCost(v) >= 1
    {
      NeighboursAreDistanceOne(SEARCH_TABLE, u, board.grid.height, board.grid.width);
      DistanceZero(u, v);
    }

    lemma WalkPrefix(from: Coord, p: seq<Coord>, n: nat)
      requires IsWalk(from, p) && n <= |p|
      ensures IsWalk(from, p[..n])
    {
      forall i | 0 <= i < n
        ensures CanStep(TileBefore(from, p[..n], i), p[..n][i])
      {
        assert CanStep(TileBefore(from, p, i), p[i]);
      }
    }

    lemma WalkSuffix(from: Coord, p: seq<Coord>, n: nat)
      requires IsWalk(from, p) && n <= |p|
      ensures IsWalk(TileBefore(from, p, n), p[n..])
    {
      forall i | 0 <= i < |p| - n
        ensures CanStep(TileBefore(TileBefore(from, p, n), p[n..], i), p[n..][i])
      {
        assert CanStep(TileBefore(from, p, n + i), p[n + i]);
      }
    }

    lemma WalkExtended(from: Coord, p: seq<Coord>, v: Coord)
      requires IsWalk(from, p) && CanStep(EndOf(from, p), v)
      ensures IsWalk(from, p + [v]) && EndOf(from, p + [v]) == v
      ensures PathCost(p + [v]) == PathCost(p) + EnterCost(v)
    {
      var q := p + [v];
      assert q[..|q| - 1] == p;
      forall i | 0 <= i < |q|
        ensures CanStep(TileBefore(from, q, i), q[i])
      {
        if i < |p| {
          assert CanStep(TileBefore(from, p, i), p[i]);
        }
      }
    }

    lemma WalkPrepended(u: Coord, v: Coord, p: seq<Coord>)
      requires CanStep(u, v) && IsWalk(v, p)
      ensures IsWalk(u, [v] + p) && EndOf(u, [v] + p) == EndOf(v, p)
      ensures PathCost([v] + p) == EnterCost(v) + PathCost(p)
    {
      var q := [v] + p;
      forall i | 0 <= i < |q|
        ensures CanStep(TileBefore(u, q, i), q[i])
      {
        if i > 0 {
          assert CanStep(TileBefore(v, p, i - 1), p[i - 1]);
        }
      }
      CostSplit(q, 1);
      assert q[..1] == [v] && q[1..] == p;
      assert [v][..0] == [];
    }

    lemma {:induction false} CostSplit(p: seq<Coord>, n: nat)
      requires n <= |p|
      ensures PathCost(p) == PathCost(p[..n]) + PathCost(p[n..])
    {
      if n == |p| {
        assert p[..n] == p && p[n..] == [];
      } else {
        var init := p[..|p| - 1];
        CostSplit(init, n);
        assert init[..n] == p[..n];
        assert p[n..][..|p| - n - 1] == init[n..];
      }
    }

    lemma {:induction false} CostAtLeastSteps(from: Coord, p: seq<Coord>)
      requires IsWalk(from, p)
      ensures IsStepPath(from, p) && |p| <= PathCost(p)
    {
      hide HexDistance;
      if p != [] {
        WalkPrefix(from, p, |p| - 1);
        CostAtLeastSteps(from, p[..|p| - 1]);
        forall i | 0 <= i < |p|
          ensures HexDistance(TileBefore(from, p, i), p[i]) == 1
        {
          assert CanStep(TileBefore(from, p, i), p[i]);
          StepFacts(TileBefore(from, p, i), p[i]);
        }
        StepFacts(TileBefore(from, p, |p| - 1), p[|p| - 1]);
      }
    }

    /** The heuristic never overestimates: no walk costs less than the distance between its ends. */
    lemma HeuristicIsAdmissible(from: Coord, p: seq<Coord>)
      requires IsWalk(from, p)
      ensures HexDistance(from, EndOf(from, p)) <= PathCost(p)
    {
      hide HexDistance;
      CostAtLeastSteps(from, p);
      StepPathIsLong(from, p);
    }
  }
}
