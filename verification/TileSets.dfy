/** Sets of tiles in the order `std::set` iterates them: by row, then by column. */
module TileSets {
  import opened Hex

  predicate Before(a: Coord, b: Coord) {
    a.row < b.row || (a.row == b.row && a.col < b.col)
  }

  predicate IsLeast(c: Coord, s: set<Coord>) {
    c in s && forall d | d in s :: c == d || Before(c, d)
  }

  lemma {:induction false} LeastTileExists(s: set<Coord>)
    requires s != {}
    ensures exists c :: IsLeast(c, s)
    decreases |s|
  {
    var d :| d in s;
    if s - {d} == {} {
      assert s == {d};
      assert IsLeast(d, s);
    } else {
      LeastTileExists(s - {d});
      var e :| IsLeast(e, s - {d});
      assert s == s - {d} + {d};
      assert IsLeast(if Before(d, e) then d else e, s);
    }
  }

  /** `*tiles.begin()`. */
  function FirstTile(s: set<Coord>): (c: Coord)
    requires s != {}
    ensures IsLeast(c, s)
  {
    LeastTileExists(s);
    var c :| IsLeast(c, s);
    c
  }

  /** The whole iteration. */
  function Sorted(s: set<Coord>): seq<Coord>
    decreases |s|
  {
    if s == {} then []
    else
      var c := FirstTile(s);
      [c] + Sorted(s - {c})
  }

  function Rows(tiles: seq<Coord>): seq<int> {
    seq(|tiles|, i requires 0 <= i < |tiles| => tiles[i].row)
  }

  function Cols(tiles: seq<Coord>): seq<int> {
    seq(|tiles|, i requires 0 <= i < |tiles| => tiles[i].col)
  }

  /** The iteration lists every tile of the set once, in order. */
  lemma {:induction false} SortedLists(s: set<Coord>)
    ensures forall c :: c in Sorted(s) <==> c in s
    ensures forall i, j :: 0 <= i < j < |Sorted(s)| ==> Before(Sorted(s)[i], Sorted(s)[j])
    decreases |s|
  {
    if s != {} {
      var c := FirstTile(s);
      SortedLists(s - {c});
      forall j | 0 <= j < |Sorted(s - {c})|
        ensures Before(c, Sorted(s - {c})[j])
      {
        assert Sorted(s - {c})[j] in s - {c};
      }
    }
  }
}
