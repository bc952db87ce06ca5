/** The state of a search, what every push keeps, and why a search can stop and must stop. */
module SearchState {
  import opened Hex
  import opened Routes

  type Scores = map<Coord, nat>
  type Parents = map<Coord, Coord>

  /** An entry of the priority queue.  The queue is a multiset from which any least entry may be taken. */
  datatype OpenNode = OpenNode(coord: Coord, fScore: int)

  ghost predicate IsTop(open: multiset<OpenNode>, n: OpenNode) {
    n in open && forall m :: m in open ==> n.fScore <= m.fScore
  }

  /** Parent links are legal steps that account for the score, so scores fall strictly along them. */
  ghost predicate Chained(tr: Travel, g: Scores, came: Parents) {
    && tr.start in g && g[tr.start] == 0
    && came.Keys == g.Keys - {tr.start}
    && forall t :: t in came ==>
         came[t] in g && tr.CanStep(came[t], t) && g[came[t]] + tr.EnterCost(t) <= g[t]
  }

  /** No legal step out of `t` would improve a score. */
  ghost predicate Settled(tr: Travel, g: Scores, t: Coord)
    requires t in g
  {
    forall v :: tr.CanStep(t, v) ==> v in g && g[v] <= g[t] + tr.EnterCost(v)
  }

  /** Every scored tile is queued at its current score or has nothing left to improve; the goal is queued. */
  ghost predicate Accounted(tr: Travel, goal: Coord, g: Scores, open: multiset<OpenNode>, exempt: set<Coord>) {
    forall t :: t in g && t !in exempt ==>
      OpenNode(t, g[t] + HexDistance(t, goal)) in open || (t != goal && Settled(tr, g, t))
  }

  /** No entry is below the current estimate of its tile. */
  ghost predicate QueueSound(goal: Coord, g: Scores, open: multiset<OpenNode>) {
    forall n :: n in open ==> n.coord in g && g[n.coord] + HexDistance(n.coord, goal) <= n.fScore
  }

  /** The invariant of both A* searches.  The tiles in `exempt` are being expanded. */
  ghost predicate SearchInv(tr: Travel, goal: Coord, g: Scores, came: Parents, open: multiset<OpenNode>, exempt: set<Coord>) {
    Chained(tr, g, came) && Accounted(tr, goal, g, open, exempt) && QueueSound(goal, g, open)
  }

  lemma ChainedStart(tr: Travel, g: Scores, came: Parents)
    requires Chained(tr, g, came)
    ensures tr.start in g && g[tr.start] == 0
  {
  }

  lemma SettledKept(tr: Travel, g: Scores, v: Coord, score: nat, t: Coord)
    requires t in g && t != v && Settled(tr, g, t) && (v in g ==> score <= g[v])
    ensures Settled(tr, g[v := score], t)
  {
  }

  lemma PushKeepsChained(tr: Travel, g: Scores, came: Parents, cur: Coord, v: Coord)
    requires Chained(tr, g, came) && cur in g
    requires tr.CanStep(cur, v) && (v in g ==> g[cur] + tr.EnterCost(v) < g[v])
    ensures v != cur && v != tr.start
    ensures Chained(tr, g[v := g[cur] + tr.EnterCost(v)], came[v := cur])
  {
    hide Travel.CanStep, Travel.EnterCost, HexDistance;
    tr.StepFacts(cur, v);
  }

  lemma PushKeepsAccounted(tr: Travel, goal: Coord, g: Scores, open: multiset<OpenNode>, cur: Coord, v: Coord, score: nat)
    requires Accounted(tr, goal, g, open, {cur}) && v != cur && (v in g ==> score < g[v])
    ensures Accounted(tr, goal, g[v := score], open + multiset{OpenNode(v, score + HexDistance(v, goal))}, {cur})
  {
    hide HexDistance, Travel.CanStep, Travel.EnterCost;
    forall t | t in g && t != v && Settled(tr, g, t)
      ensures Settled(tr, g[v := score], t)
    {
      SettledKept(tr, g, v, score, t);
    }
  }

  lemma PushKeepsQueueSound(goal: Coord, g: Scores, open: multiset<OpenNode>, v: Coord, score: nat)
    requires QueueSound(goal, g, open) && (v in g ==> score < g[v])
    ensures QueueSound(goal, g[v := score], open + multiset{OpenNode(v, score + HexDistance(v, goal))})
  {
    hide HexDistance;
  }

  /** A push after a strict improvement keeps the invariant. */
  lemma PushKeepsInv(tr: Travel, goal: Coord, g: Scores, came: Parents, open: multiset<OpenNode>, cur: Coord, v: Coord)
    requires SearchInv(tr, goal, g, came, open, {cur}) && cur in g
    requires tr.CanStep(cur, v) && (v in g ==> g[cur] + tr.EnterCost(v) < g[v])
    ensures v != cur && v != tr.start
    ensures var tentative := g[cur] + tr.EnterCost(v);
            SearchInv(tr, goal, g[v := tentative], came[v := cur],
                      open + multiset{OpenNode(v, tentative + HexDistance(v, goal))}, {cur})
  {
    hide HexDistance, Travel.CanStep, Travel.EnterCost, Chained, Accounted, QueueSound;
    PushKeepsChained(tr, g, came, cur, v);
    PushKeepsAccounted(tr, goal, g, open, cur, v, g[cur] + tr.EnterCost(v));
    PushKeepsQueueSound(goal, g, open, v, g[cur] + tr.EnterCost(v));
  }

  /** Once every tile of a walk with a score stays settled, its end has a score at most the walk's cost. */
  lemma {:induction false} SettledWalk(tr: Travel, g: Scores, p: seq<Coord>, n: nat)
    requires tr.IsWalk(tr.start, p) && n <= |p|
    requires tr.start in g && g[tr.start] == 0
    requires forall i :: 0 <= i < n && TileBefore(tr.start, p, i) in g ==> Settled(tr, g, TileBefore(tr.start, p, i))
    ensures TileBefore(tr.start, p, n) in g && g[TileBefore(tr.start, p, n)] <= tr.PathCost(p[..n])
  {
    hide Travel.CanStep, Travel.EnterCost;
    if n > 0 {
      SettledWalk(tr, g, p, n - 1);
      assert p[..n][..n - 1] == p[..n - 1];
      assert tr.CanStep(TileBefore(tr.start, p, n - 1), p[n - 1]);
    }
  }

  /** When the least entry is the goal's, no walk to the goal is cheaper than the goal's score. */
  lemma TopGoalIsOptimal(tr: Travel, goal: Coord, g: Scores, came: Parents, open: multiset<OpenNode>, top: OpenNode, p: seq<Coord>)
    requires SearchInv(tr, goal, g, came, open, {}) && IsTop(open, top) && top.coord == goal
    requires tr.WalkTo(p, goal)
    ensures g[goal] <= tr.PathCost(p)
  {
    hide HexDistance, Travel.CanStep, Travel.EnterCost, Travel.PathCost, Settled, Chained;
    assert tr.start in g && g[tr.start] == 0 by {
      ChainedStart(tr, g, came);
    }
    DistanceZero(goal, goal);
    if forall i :: 0 <= i < |p| && TileBefore(tr.start, p, i) in g ==> Settled(tr, g, TileBefore(tr.start, p, i)) {
      SettledWalk(tr, g, p, |p|);
      assert p[..|p|] == p;
    } else {
      // The first unsettled tile of the walk is queued, and its entry is not below the top.
      var i := FirstUnsettled(tr, g, p, |p|);
      var t := TileBefore(tr.start, p, i);
      SettledWalk(tr, g, p, i);
      tr.CostSplit(p, i);
      tr.WalkSuffix(tr.start, p, i);
      tr.HeuristicIsAdmissible(t, p[i..]);
      assert EndOf(t, p[i..]) == goal;
      assert OpenNode(t, g[t] + HexDistance(t, goal)) in open;
    }
  }

  lemma {:induction false} FirstUnsettled(tr: Travel, g: Scores, p: seq<Coord>, n: nat) returns (i: nat)
    requires n <= |p|
    requires exists j :: 0 <= j < n && TileBefore(tr.start, p, j) in g && !Settled(tr, g, TileBefore(tr.start, p, j))
    ensures i < n && TileBefore(tr.start, p, i) in g && !Settled(tr, g, TileBefore(tr.start, p, i))
    ensures forall j :: 0 <= j < i && TileBefore(tr.start, p, j) in g ==> Settled(tr, g, TileBefore(tr.start, p, j))
  {
    if exists j :: 0 <= j < n - 1 && TileBefore(tr.start, p, j) in g && !Settled(tr, g, TileBefore(tr.start, p, j)) {
      i := FirstUnsettled(tr, g, p, n - 1);
    } else {
      i := n - 1;
    }
  }

  /** An exhausted search has proved the goal out of reach. */
  lemma EmptyQueueMeansUnreachable(tr: Travel, goal: Coord, g: Scores, came: Parents)
    requires SearchInv(tr, goal, g, came, multiset{}, {})
    ensures !tr.Reachable(goal)
  {
    hide HexDistance, Travel.CanStep, Travel.EnterCost, Travel.PathCost;
    forall p | tr.WalkTo(p, goal)
      ensures false
    {
      SettledWalk(tr, g, p, |p|);
    }
  }

  // ---- Termination -------------------------------------------------------------------

  /** The tiles a search can give a score. */
  ghost function Universe(tr: Travel): set<Coord> {
    {tr.start} + set r, c | 0 <= r < tr.board.grid.height && 0 <= c < tr.board.grid.width :: Coord(r, c)
  }

  ghost function ScoreSum(g: Scores): nat {
    if g == map[] then 0
    else
      var t :| t in g;
      g[t] + ScoreSum(g - {t})
  }

  lemma {:induction false} ScoreSumSplit(g: Scores, t: Coord)
    requires t in g
    ensures ScoreSum(g) == g[t] + ScoreSum(g - {t})
    decreases |g|
  {
    var u :| u in g && ScoreSum(g) == g[u] + ScoreSum(g - {u});
    if u != t {
      ScoreSumSplit(g - {u}, t);
      ScoreSumSplit(g - {t}, u);
      assert g - {u} - {t} == g - {t} - {u};
    }
  }

  ghost predicate Within(tr: Travel, g: Scores) {
    g.Keys <= Universe(tr)
  }

  lemma InUniverse(tr: Travel, v: Coord)
    requires tr.board.grid.Has(v)
    ensures v in Universe(tr)
  {
    assert Coord(v.row, v.col) == v;
  }

  /** Every push lowers (tiles without a score, sum of scores) lexicographically: a tile is scored for the
      first time, or its score drops.  This bounds the run although tiles are pushed and expanded repeatedly. */
  lemma PushLowersPotential(tr: Travel, g: Scores, v: Coord, score: nat)
    requires Within(tr, g) && tr.board.grid.Has(v)
    requires v in g ==> score < g[v]
    ensures Within(tr, g[v := score])
    ensures var g' := g[v := score];
            || |Universe(tr) - g'.Keys| < |Universe(tr) - g.Keys|
            || (|Universe(tr) - g'.Keys| == |Universe(tr) - g.Keys| && ScoreSum(g') < ScoreSum(g))
  {
    hide Universe, ScoreSum;
    InUniverse(tr, v);
    if v in g {
      assert g[v := score].Keys == g.Keys;
      LowerScoreLowersSum(g, v, score);
    } else {
      OneUnscoredLess(Universe(tr), g, v, score);
    }
  }

  lemma LowerScoreLowersSum(g: Scores, v: Coord, score: nat)
    requires v in g && score < g[v]
    ensures ScoreSum(g[v := score]) < ScoreSum(g)
  {
    hide ScoreSum;
    ScoreSumSplit(g, v);
    ScoreSumSplit(g[v := score], v);
    assert g - {v} == g[v := score] - {v};
  }

  lemma OneUnscoredLess(universe: set<Coord>, g: Scores, v: Coord, score: nat)
    requires v in universe && v !in g
    ensures |universe - g[v := score].Keys| < |universe - g.Keys|
  {
    assert universe - g.Keys == (universe - g[v := score].Keys) + {v};
  }
}
