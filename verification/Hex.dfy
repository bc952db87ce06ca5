/**
 The odd-r offset hex grid: distance, the neighbour tables kept by four source files, and directions.

 The game keeps three textual copies of `hexDistance` and four neighbour tables.  The distance is
 defined once here; the tables are written out as the source has them and proved to agree.
 */
module Hex {
  import opened Common

  datatype Coord = Coord(row: int, col: int)

  /** A `{row_delta, col_delta}` entry of a neighbour table. */
  datatype Offset = Offset(dr: int, dc: int)

  // ---- Distance --------------------------------------------------------------

  /** The cube x-coordinate.  `row % 2` is the source's `row & 1`, also for negative rows, and it makes
      the division exact, so truncation and flooring agree. */
  function CubeX(c: Coord): int {
    c.col - (c.row - c.row % 2) / 2
  }

  function HexDistance(a: Coord, b: Coord): nat {
    var dx := CubeX(a) - CubeX(b);
    var dz := a.row - b.row;
    var dy := -dx - dz;
    (Abs(dx) + Abs(dy) + Abs(dz)) / 2
  }

  predicate InMap(c: Coord, height: int, width: int) {
    0 <= c.row < height && 0 <= c.col < width
  }

  /** The length of a cube vector: its largest component. */
  function CubeLength(dx: int, dz: int): nat {
    Max(Abs(dx), Max(Abs(dx + dz), Abs(dz)))
  }

  /** The final halving loses nothing: the distance is the largest cube-coordinate difference. */
  lemma DistanceIsMaxDelta(a: Coord, b: Coord)
    ensures HexDistance(a, b) == CubeLength(CubeX(b) - CubeX(a), b.row - a.row)
  {
  }

  lemma DistanceZero(a: Coord, b: Coord)
    ensures HexDistance(a, b) == 0 <==> a == b
  {
    DistanceIsMaxDelta(a, b);
  }

  lemma DistanceSymmetric(a: Coord, b: Coord)
    ensures HexDistance(a, b) == HexDistance(b, a)
  {
    DistanceIsMaxDelta(a, b);
    DistanceIsMaxDelta(b, a);
  }

  lemma CubeLengthTriangle(dx: int, dz: int, ex: int, ez: int)
    ensures CubeLength(dx + ex, dz + ez) <= CubeLength(dx, dz) + CubeLength(ex, ez)
  {
  }

  lemma DistanceTriangle(a: Coord, b: Coord, c: Coord)
    ensures HexDistance(a, c) <= HexDistance(a, b) + HexDistance(b, c)
  {
    hide HexDistance, CubeX, CubeLength;
    DistanceIsMaxDelta(a, b);
    DistanceIsMaxDelta(b, c);
    DistanceIsMaxDelta(a, c);
    CubeLengthTriangle(CubeX(b) - CubeX(a), b.row - a.row, CubeX(c) - CubeX(b), c.row - b.row);
    assert CubeX(b) - CubeX(a) + (CubeX(c) - CubeX(b)) == CubeX(c) - CubeX(a);
    assert b.row - a.row + (c.row - b.row) == c.row - a.row;
  }

  /** The distance is a metric on all coordinates, inside the map or not. */
  lemma DistanceIsMetric(a: Coord, b: Coord, c: Coord)
    ensures HexDistance(a, b) == 0 <==> a == b
    ensures HexDistance(a, b) == HexDistance(b, a)
    ensures HexDistance(a, c) <= HexDistance(a, b) + HexDistance(b, c)
  {
    DistanceZero(a, b);
    DistanceSymmetric(a, b);
    DistanceTriangle(a, b, c);
  }

  /** No tile within distance `d` lies outside the square of half-width `d`. */
  lemma DistanceBoundsRowAndColumn(a: Coord, b: Coord)
    ensures Abs(a.row - b.row) <= HexDistance(a, b)
    ensures Abs(a.col - b.col) <= HexDistance(a, b)
  {
    DistanceIsMaxDelta(a, b);
  }

  // ---- Fewest neighbour steps -------------------------------------------------

  /** The tile a path that starts at `a` and then visits `p` is on just before `p[i]`. */
  function TileBefore(a: Coord, p: seq<Coord>, i: nat): Coord
    requires i <= |p|
  {
    if i == 0 then a else p[i - 1]
  }

  /** `p` lists the tiles visited after `a`, each one step from the tile before it. */
  ghost predicate IsStepPath(a: Coord, p: seq<Coord>) {
    forall i :: 0 <= i < |p| ==> HexDistance(TileBefore(a, p, i), p[i]) == 1
  }

  ghost function EndOf(a: Coord, p: seq<Coord>): Coord {
    TileBefore(a, p, |p|)
  }

  lemma DistanceFromDeltas(a: Coord, b: Coord, dx: int, dz: int)
    requires dx == CubeX(b) - CubeX(a) && dz == b.row - a.row
    ensures HexDistance(a, b) == CubeLength(dx, dz)
  {
  }

  /** Which cube deltas the step towards a target `(dx, dz)` away should have. */
  function StepDelta(dx: int, dz: int, evenRow: bool): Offset
  {
    if dz == 0 then Offset(0, if dx > 0 then 1 else -1)
    else if dz > 0 then
      Offset(1, if dx >= 0 then 0 else if dz > -dx then (if evenRow then 0 else -1) else -1)
    else
      Offset(-1, if dx <= 0 then 0 else if -dz > dx then (if evenRow then 1 else 0) else 1)
  }

  lemma StepDeltaCloser(dx: int, dz: int, evenRow: bool)
    requires dx != 0 || dz != 0
    ensures var s := StepDelta(dx, dz, evenRow);
            && CubeLength(s.dc, s.dr) == 1
            && CubeLength(dx - s.dc, dz - s.dr) == CubeLength(dx, dz) - 1
  {
  }

  /** The step stays between the columns of its two ends, so it stays in the map. */
  lemma StepDeltaInMap(a: Coord, b: Coord, height: int, width: int, n: Coord)
    requires InMap(a, height, width) && InMap(b, height, width) && a != b
    requires var s := StepDelta(CubeX(b) - CubeX(a), b.row - a.row, a.row % 2 == 0);
             n.row == a.row + s.dr && CubeX(n) == CubeX(a) + s.dc
    ensures InMap(n, height, width)
  {
    var ha, hb := a.row / 2, b.row / 2;
    if a.row % 2 == 0 {
      assert a.row == 2 * ha && CubeX(a) == a.col - ha;
    } else {
      assert a.row == 2 * ha + 1 && CubeX(a) == a.col - ha;
    }
    assert CubeX(b) == b.col - hb;
  }

  lemma TileAtCube(x: int, row: int) returns (n: Coord)
    ensures n.row == row && CubeX(n) == x
  {
    n := Coord(row, x + (row - row % 2) / 2);
  }

  lemma SameCubeSameTile(a: Coord, b: Coord)
    ensures CubeX(a) == CubeX(b) && a.row == b.row ==> a == b
  {
  }

  /** A step towards `b` exists and stays in the map: the tile is a neighbour of `a` one closer to `b`. */
  lemma StepTowards(a: Coord, b: Coord, height: int, width: int) returns (n: Coord)
    requires InMap(a, height, width) && InMap(b, height, width) && a != b
    ensures InMap(n, height, width)
    ensures HexDistance(a, n) == 1
    ensures HexDistance(n, b) == HexDistance(a, b) - 1
  {
    hide CubeX, CubeLength, HexDistance, StepDelta, InMap;
    var dx, dz := CubeX(b) - CubeX(a), b.row - a.row;
    var s := StepDelta(dx, dz, a.row % 2 == 0);
    n := TileAtCube(CubeX(a) + s.dc, a.row + s.dr);
    SameCubeSameTile(a, b);
    StepDeltaInMap(a, b, height, width, n);
    StepDeltaCloser(dx, dz, a.row % 2 == 0);
    StepIsCloser(a, b, n, s);
  }

  lemma StepIsCloser(a: Coord, b: Coord, n: Coord, s: Offset)
    requires n.row == a.row + s.dr && CubeX(n) == CubeX(a) + s.dc && CubeLength(s.dc, s.dr) == 1
    requires var dx, dz := CubeX(b) - CubeX(a), b.row - a.row; CubeLength(dx - s.dc, dz - s.dr) == CubeLength(dx, dz) - 1
    ensures HexDistance(a, n) == 1 && HexDistance(n, b) == HexDistance(a, b) - 1
  {
    hide CubeX, CubeLength, HexDistance;
    var dx, dz := CubeX(b) - CubeX(a), b.row - a.row;
    DistanceFromDeltas(a, n, s.dc, s.dr);
    DistanceFromDeltas(n, b, dx - s.dc, dz - s.dr);
    DistanceFromDeltas(a, b, dx, dz);
  }

  /** Any step path, even one leaving the map, has at least `HexDistance` steps. */
  lemma {:induction false} StepPathIsLong(a: Coord, p: seq<Coord>)
    requires IsStepPath(a, p)
    ensures HexDistance(a, EndOf(a, p)) <= |p|
  {
    hide HexDistance;
    if p == [] {
      DistanceZero(a, a);
    } else {
      var q := p[..|p| - 1];
      forall i | 0 <= i < |q|
        ensures HexDistance(TileBefore(a, q, i), q[i]) == 1
      {
        assert HexDistance(TileBefore(a, p, i), p[i]) == 1;
      }
      StepPathIsLong(a, q);
      assert HexDistance(TileBefore(a, p, |q|), p[|q|]) == 1;
      DistanceTriangle(a, EndOf(a, q), EndOf(a, p));
    }
  }

  /** And a path of exactly that many steps exists without leaving the map. */
  lemma {:induction false} ShortestStepPath(a: Coord, b: Coord, height: int, width: int) returns (p: seq<Coord>)
    requires InMap(a, height, width) && InMap(b, height, width)
    ensures IsStepPath(a, p) && EndOf(a, p) == b
    ensures |p| == HexDistance(a, b)
    ensures forall c :: c in p ==> InMap(c, height, width)
    decreases HexDistance(a, b)
  {
    hide HexDistance;
    DistanceZero(a, b);
    if a == b {
      p := [];
    } else {
      var n := StepTowards(a, b, height, width);
      var q := ShortestStepPath(n, b, height, width);
      p := [n] + q;
      forall i | 0 <= i < |p|
        ensures HexDistance(TileBefore(a, p, i), p[i]) == 1
      {
        if i > 0 {
          assert HexDistance(TileBefore(n, q, i - 1), q[i - 1]) == 1;
        }
      }
    }
  }

  // ---- Neighbour tables -------------------------------------------------------

  datatype NeighbourTable = NeighbourTable(even: seq<Offset>, odd: seq<Offset>)

  /** Pathfinding.cpp: NW, NE, W, E, SW, SE. */
  const SEARCH_TABLE := NeighbourTable(
    [Offset(-1, -1), Offset(-1, 0), Offset(0, -1), Offset(0, 1), Offset(1, -1), Offset(1, 0)],
    [Offset(-1, 0), Offset(-1, 1), Offset(0, -1), Offset(0, 1), Offset(1, 0), Offset(1, 1)])

  /** HexDirection.h: NE, E, SE, SW, W, NW. */
  const DIRECTION_TABLE := NeighbourTable(
    [Offset(-1, 0), Offset(0, 1), Offset(1, 0), Offset(1, -1), Offset(0, -1), Offset(-1, -1)],
    [Offset(-1, 1), Offset(0, 1), Offset(1, 1), Offset(1, 0), Offset(0, -1), Offset(-1, 0)])

  /** TurnResolver.cpp: NW, NE, E, SE, SW, W. */
  const TURN_TABLE := NeighbourTable(
    [Offset(-1, -1), Offset(-1, 0), Offset(0, 1), Offset(1, 0), Offset(1, -1), Offset(0, -1)],
    [Offset(-1, 0), Offset(-1, 1), Offset(0, 1), Offset(1, 1), Offset(1, 0), Offset(0, -1)])

  /** NeutralAI.cpp: the same order as the search, written out as six `emplace_back` calls. */
  const AI_TABLE := NeighbourTable(
    [Offset(-1, -1), Offset(-1, 0), Offset(0, -1), Offset(0, 1), Offset(1, -1), Offset(1, 0)],
    [Offset(-1, 0), Offset(-1, 1), Offset(0, -1), Offset(0, 1), Offset(1, 0), Offset(1, 1)])

  function OffsetsFor(table: NeighbourTable, row: int): seq<Offset> {
    if row % 2 == 0 then table.even else table.odd
  }

  function Shift(c: Coord, o: Offset): Coord {
    Coord(c.row + o.dr, c.col + o.dc)
  }

  /** The tiles a list of offsets leads to from `c`, in table order, keeping those in the map. */
  function ShiftedInMap(c: Coord, offsets: seq<Offset>, height: int, width: int): seq<Coord> {
    if offsets == [] then []
    else
      var rest := ShiftedInMap(c, offsets[..|offsets| - 1], height, width);
      var t := Shift(c, offsets[|offsets| - 1]);
      if InMap(t, height, width) then rest + [t] else rest
  }

  function InMapNeighbours(table: NeighbourTable, c: Coord, height: int, width: int): seq<Coord> {
    ShiftedInMap(c, OffsetsFor(table, c.row), height, width)
  }

  ghost predicate IsGameTable(table: NeighbourTable) {
    table == SEARCH_TABLE || table == DIRECTION_TABLE || table == TURN_TABLE || table == AI_TABLE
  }

  lemma TableEntries(table: NeighbourTable, row: int, o: Offset)
    requires IsGameTable(table)
    ensures |OffsetsFor(table, row)| == 6 && NoDuplicates(OffsetsFor(table, row))
    ensures o in OffsetsFor(table, row)
            <==> o in if row % 2 == 0
                      then {Offset(-1, -1), Offset(-1, 0), Offset(0, -1), Offset(0, 1), Offset(1, -1), Offset(1, 0)}
                      else {Offset(-1, 0), Offset(-1, 1), Offset(0, -1), Offset(0, 1), Offset(1, 0), Offset(1, 1)}
  {
  }

  /** Every table holds, for either row parity, exactly the offsets that lead to distance 1. */
  lemma TablesGiveDistanceOne(table: NeighbourTable, c: Coord, t: Coord)
    requires IsGameTable(table)
    ensures Offset(t.row - c.row, t.col - c.col) in OffsetsFor(table, c.row) <==> HexDistance(c, t) == 1
  {
    hide OffsetsFor, CubeX, HexDistance, CubeLength;
    TableEntries(table, c.row, Offset(t.row - c.row, t.col - c.col));
    DistanceIsMaxDelta(c, t);
    UnitOffsets(c, t);
  }

  lemma UnitVectors(dx: int, dz: int)
    ensures CubeLength(dx, dz) == 1
            <==> (dz == 0 && (dx == -1 || dx == 1)) || (dz == 1 && (dx == -1 || dx == 0)) || (dz == -1 && (dx == 0 || dx == 1))
  {
  }

  /** How a column difference between neighbouring rows turns into a cube difference. */
  lemma ColumnShift(c: Coord, t: Coord)
    requires -1 <= t.row - c.row <= 1
    ensures CubeX(t) - CubeX(c)
            == t.col - c.col + if c.row % 2 == 0 then (if t.row < c.row then 1 else 0) else (if t.row > c.row then -1 else 0)
  {
  }

  lemma UnitOffsets(c: Coord, t: Coord)
    ensures CubeLength(CubeX(t) - CubeX(c), t.row - c.row) == 1
            <==> Offset(t.row - c.row, t.col - c.col)
                 in if c.row % 2 == 0
                    then {Offset(-1, -1), Offset(-1, 0), Offset(0, -1), Offset(0, 1), Offset(1, -1), Offset(1, 0)}
                    else {Offset(-1, 0), Offset(-1, 1), Offset(0, -1), Offset(0, 1), Offset(1, 0), Offset(1, 1)}
  {
    hide CubeX, CubeLength;
    UnitVectors(CubeX(t) - CubeX(c), t.row - c.row);
    if -1 <= t.row - c.row <= 1 {
      ColumnShift(c, t);
    }
  }

  lemma {:induction false} ShiftedInMapMembers(c: Coord, offsets: seq<Offset>, height: int, width: int, t: Coord)
    ensures t in ShiftedInMap(c, offsets, height, width)
            <==> InMap(t, height, width) && Offset(t.row - c.row, t.col - c.col) in offsets
  {
    if offsets != [] {
      var init, last := offsets[..|offsets| - 1], offsets[|offsets| - 1];
      assert offsets == init + [last];
      ShiftedInMapMembers(c, init, height, width, t);
    }
  }

  lemma {:induction false} ShiftedInMapNoDuplicates(c: Coord, offsets: seq<Offset>, height: int, width: int)
    requires NoDuplicates(offsets)
    ensures NoDuplicates(ShiftedInMap(c, offsets, height, width))
  {
    if offsets != [] {
      var init, last := offsets[..|offsets| - 1], offsets[|offsets| - 1];
      ShiftedInMapNoDuplicates(c, init, height, width);
      ShiftedInMapMembers(c, init, height, width, Shift(c, last));
    }
  }

  /** All four sources of neighbours list, once each, exactly the in-map tiles at distance 1. */
  lemma NeighboursAreDistanceOne(table: NeighbourTable, c: Coord, height: int, width: int)
    requires IsGameTable(table)
    ensures NoDuplicates(InMapNeighbours(table, c, height, width))
    ensures forall t :: t in InMapNeighbours(table, c, height, width)
                        <==> InMap(t, height, width) && HexDistance(c, t) == 1
  {
    var offs := OffsetsFor(table, c.row);
    TableEntries(table, c.row, Offset(0, 0));
    ShiftedInMapNoDuplicates(c, offs, height, width);
    forall t
      ensures t in InMapNeighbours(table, c, height, width) <==> InMap(t, height, width) && HexDistance(c, t) == 1
    {
      ShiftedInMapMembers(c, offs, height, width, t);
      TablesGiveDistanceOne(table, c, t);
    }
  }

  /** `hexNeighbors` of the search and of the turn resolver: a loop over the table of the row. */
  method HexNeighbours(table: NeighbourTable, c: Coord, height: int, width: int) returns (ns: seq<Coord>)
    requires IsGameTable(table)
    ensures ns == InMapNeighbours(table, c, height, width)
    ensures NoDuplicates(ns)
    ensures forall t :: t in ns <==> InMap(t, height, width) && HexDistance(c, t) == 1
  {
    ns := [];
    var offsets := OffsetsFor(table, c.row);
    for i := 0 to |offsets|
      invariant ns == ShiftedInMap(c, offsets[..i], height, width)
    {
      assert offsets[..i + 1][..i] == offsets[..i];
      var t := Shift(c, offsets[i]);
      if InMap(t, height, width) {
        ns := ns + [t];
      }
    }
    assert offsets[..|offsets|] == offsets;
    NeighboursAreDistanceOne(table, c, height, width);
  }

  // ---- Directions -------------------------------------------------------------

  datatype HexDirection = NE | E | SE | SW | W | NW

  function DirectionIndex(dir: HexDirection): nat {
    match dir case NE => 0 case E => 1 case SE => 2 case SW => 3 case W => 4 case NW => 5
  }

  function DirectionAt(index: nat): HexDirection
    requires index < 6
  {
    [NE, E, SE, SW, W, NW][index]
  }

  function OppositeDirection(dir: HexDirection): HexDirection {
    DirectionAt((DirectionIndex(dir) + 3) % 6)
  }

  function NeighbourCoord(c: Coord, dir: HexDirection, height: int, width: int): Option<Coord> {
    var t := Shift(c, DirectionOffset(c.row % 2 == 0, dir));
    if InMap(t, height, width) then Some(t) else None
  }

  function DirectionOffset(evenRow: bool, dir: HexDirection): Offset {
    (if evenRow then DIRECTION_TABLE.even else DIRECTION_TABLE.odd)[DirectionIndex(dir)]
  }

  lemma OppositeIsAcross(dir: HexDirection)
    ensures OppositeDirection(dir) == match dir
                                      case NE => SW case E => W case SE => NW
                                      case SW => NE case W => E case NW => SE
  {
  }

  lemma OppositeOffsets(evenRow: bool, dir: HexDirection, other: HexDirection)
    ensures var o := DirectionOffset(evenRow, dir);
            DirectionOffset(if o.dr == 0 then evenRow else !evenRow, OppositeDirection(dir)) == Offset(-o.dr, -o.dc)
    ensures -1 <= DirectionOffset(evenRow, dir).dr <= 1
    ensures DirectionOffset(evenRow, dir) == DirectionOffset(evenRow, other) ==> dir == other
  {
    OppositeIsAcross(dir);
    if evenRow {
    } else {
    }
  }

  /** Going one way and then the opposite way leads back, and distinct ways lead to distinct tiles. */
  lemma OppositeLeadsBack(c: Coord, dir: HexDirection, other: HexDirection, height: int, width: int)
    requires InMap(c, height, width) && NeighbourCoord(c, dir, height, width).Some?
    ensures var t := NeighbourCoord(c, dir, height, width).value;
            && NeighbourCoord(t, OppositeDirection(dir), height, width) == Some(c)
            && (NeighbourCoord(c, other, height, width) == Some(t) ==> other == dir)
  {
    hide DirectionOffset, OppositeDirection;
    OppositeOffsets(c.row % 2 == 0, dir, other);
  }
}
