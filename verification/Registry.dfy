/**
 The spatial index: which city, building and units are on each tile, and what it means for the unit part
 to agree with a list of units.
 */
module Registry {
  import opened Common
  import opened Hex
  import opened Diplomacy
  import opened Units

  type CityId = nat
  type BuildingId = nat
  type Index<T> = map<Coord, seq<T>>

  // ---- The unit index as a value ------------------------------------------------

  function EntriesAt<T>(index: Index<T>, p: Coord): seq<T> {
    if p in index then index[p] else []
  }

  function Registered<T>(index: Index<T>, p: Coord, u: T): Index<T> {
    index[p := EntriesAt(index, p) + [u]]
  }

  /** `std::erase`: every occurrence goes, the rest keep their order. */
  function Without<T(==)>(s: seq<T>, u: T): seq<T> {
    if s == [] then []
    else
      var rest := Without(s[..|s| - 1], u);
      if s[|s| - 1] == u then rest else rest + [s[|s| - 1]]
  }

  function Unregistered<T(==)>(index: Index<T>, p: Coord, u: T): Index<T> {
    if p !in index then index
    else
      var left := Without(index[p], u);
      if left == [] then index - {p} else index[p := left]
  }

  /** The index holds exactly the listed items, each once, each at its own tile, and no empty entry. */
  ghost predicate Agrees<T>(index: Index<T>, items: seq<T>, at: seq<Coord>) {
    && |items| == |at|
    && NoDuplicates(items)
    && (forall p :: p in index ==> index[p] != [] && NoDuplicates(index[p]))
    && (forall p, u :: p in index && u in index[p] ==> Stands(items, at, u, p))
    && (forall i :: 0 <= i < |items| ==> items[i] in EntriesAt(index, at[i]))
  }

  ghost predicate Stands<T>(items: seq<T>, at: seq<Coord>, u: T, p: Coord)
    requires |items| == |at|
  {
    exists i :: 0 <= i < |items| && items[i] == u && at[i] == p
  }

  function RemoveAt<T>(s: seq<T>, i: nat): seq<T>
    requires i < |s|
  {
    s[..i] + s[i + 1..]
  }

  lemma {:induction false} WithoutMembers<T>(s: seq<T>, u: T)
    ensures forall x :: x in Without(s, u) <==> x in s && x != u
    ensures NoDuplicates(s) ==> NoDuplicates(Without(s, u))
  {
    if s != [] {
      var init, last := s[..|s| - 1], s[|s| - 1];
      assert s == init + [last];
      WithoutMembers(init, u);
      assert NoDuplicates(s) ==> NoDuplicates(init) && last !in init;
    }
  }

  /** What unregistering does to membership: only `u` at `p` goes, and an entry left empty goes with it. */
  lemma UnregisteredMembers<T>(index: Index<T>, p: Coord, u: T)
    requires forall q :: q in index ==> index[q] != [] && NoDuplicates(index[q])
    ensures forall q, x :: x in EntriesAt(Unregistered(index, p, u), q)
                           <==> x in EntriesAt(index, q) && !(q == p && x == u)
    ensures forall q :: q in Unregistered(index, p, u)
                        ==> Unregistered(index, p, u)[q] != [] && NoDuplicates(Unregistered(index, p, u)[q])
  {
    WithoutMembers(EntriesAt(index, p), u);
  }

  /** In an index that agrees, an item is listed at its own tile and nowhere else. */
  lemma AgreesMembers<T>(index: Index<T>, items: seq<T>, at: seq<Coord>, i: nat, p: Coord)
    requires Agrees(index, items, at) && i < |items|
    ensures items[i] in EntriesAt(index, p) <==> at[i] == p
  {
    if items[i] in EntriesAt(index, p) {
      assert Stands(items, at, items[i], p);
    }
  }

  lemma EntryIsListed<T>(index: Index<T>, items: seq<T>, at: seq<Coord>, u: T, p: Coord)
    requires Agrees(index, items, at) && u in EntriesAt(index, p)
    ensures u in items
  {
    assert Stands(items, at, u, p);
  }

  lemma AgreesAfterAdd<T>(index: Index<T>, items: seq<T>, at: seq<Coord>, u: T, p: Coord)
    requires Agrees(index, items, at) && u !in items
    ensures Agrees(Registered(index, p, u), items + [u], at + [p])
  {
    var after, items', at' := Registered(index, p, u), items + [u], at + [p];
    assert u !in EntriesAt(index, p) by {
      if u in EntriesAt(index, p) {
        EntryIsListed(index, items, at, u, p);
      }
    }
    forall q, x | q in after && x in after[q]
      ensures Stands(items', at', x, q)
    {
      if x in EntriesAt(index, q) {
        assert Stands(items, at, x, q);
        var i :| 0 <= i < |items| && items[i] == x && at[i] == q;
        assert items'[i] == x && at'[i] == q;
      } else {
        assert items'[|items|] == x && at'[|items|] == q;
      }
    }
  }

  lemma RemoveAtMembers<T>(s: seq<T>, k: nat)
    requires k < |s|
    ensures |RemoveAt(s, k)| == |s| - 1
    ensures forall i :: 0 <= i < |s| - 1 ==> RemoveAt(s, k)[i] == s[if i < k then i else i + 1]
    ensures NoDuplicates(s) ==> NoDuplicates(RemoveAt(s, k))
  {
  }

  lemma StandsAfterRemove<T>(items: seq<T>, at: seq<Coord>, k: nat, x: T, q: Coord)
    requires k < |items| == |at| && Stands(items, at, x, q) && !(q == at[k] && x == items[k])
    ensures |RemoveAt(items, k)| == |RemoveAt(at, k)| && Stands(RemoveAt(items, k), RemoveAt(at, k), x, q)
  {
    var i :| 0 <= i < |items| && items[i] == x && at[i] == q;
    var j := if i < k then i else i - 1;
    assert RemoveAt(items, k)[j] == x && RemoveAt(at, k)[j] == q;
  }

  lemma ListedAfterRemove<T>(index: Index<T>, items: seq<T>, at: seq<Coord>, k: nat, i: nat)
    requires Agrees(index, items, at) && k < |items| && i < |items| - 1
    ensures |RemoveAt(items, k)| == |RemoveAt(at, k)| == |items| - 1
    ensures RemoveAt(items, k)[i] != items[k]
    ensures RemoveAt(items, k)[i] in EntriesAt(index, RemoveAt(at, k)[i])
  {
    var j := if i < k then i else i + 1;
    assert items[j] in EntriesAt(index, at[j]) && items[j] != items[k];
  }

  lemma AgreesAfterRemove<T>(index: Index<T>, items: seq<T>, at: seq<Coord>, k: nat)
    requires Agrees(index, items, at) && k < |items|
    ensures Agrees(Unregistered(index, at[k], items[k]), RemoveAt(items, k), RemoveAt(at, k))
  {
    hide Unregistered, RemoveAt, Stands;
    var after, items', at' := Unregistered(index, at[k], items[k]), RemoveAt(items, k), RemoveAt(at, k);
    UnregisteredMembers(index, at[k], items[k]);
    RemoveAtMembers(items, k);
    RemoveAtMembers(at, k);
    forall q, x | q in after && x in after[q]
      ensures Stands(items', at', x, q)
    {
      assert x in EntriesAt(after, q);
      assert Stands(items, at, x, q);
      StandsAfterRemove(items, at, k, x, q);
    }
    forall i | 0 <= i < |items'|
      ensures items'[i] in EntriesAt(after, at'[i])
    {
      ListedAfterRemove(index, items, at, k, i);
    }
  }

  lemma StandsAfterMove<T>(items: seq<T>, at: seq<Coord>, k: nat, p: Coord, x: T, q: Coord)
    requires k < |items| == |at| && Stands(items, at, x, q) && !(q == at[k] && x == items[k])
    ensures Stands(items, at[k := p], x, q)
  {
    var i :| 0 <= i < |items| && items[i] == x && at[i] == q;
    assert items[i] == x && at[k := p][i] == q;
  }

  lemma AgreesAfterMove<T>(index: Index<T>, items: seq<T>, at: seq<Coord>, k: nat, p: Coord)
    requires Agrees(index, items, at) && k < |items|
    ensures Agrees(Registered(Unregistered(index, at[k], items[k]), p, items[k]), items, at[k := p])
  {
    hide Unregistered, Stands;
    var mid := Unregistered(index, at[k], items[k]);
    var after, at' := Registered(mid, p, items[k]), at[k := p];
    UnregisteredMembers(index, at[k], items[k]);
    AgreesMembers(index, items, at, k, p);
    assert items[k] !in EntriesAt(mid, p);
    assert Stands(items, at', items[k], p) by {
      MovedStands(items, at, k, p);
    }
    forall q, x | q in after && x in after[q]
      ensures Stands(items, at', x, q)
    {
      if !(q == p && x == items[k]) {
        assert x in EntriesAt(mid, q);
        assert Stands(items, at, x, q);
        StandsAfterMove(items, at, k, p, x, q);
      }
    }
    forall i | 0 <= i < |items|
      ensures items[i] in EntriesAt(after, at'[i])
    {
      if i != k {
        assert items[i] in EntriesAt(index, at[i]) && items[i] != items[k];
        assert items[i] in EntriesAt(mid, at[i]);
      }
    }
  }

  lemma MovedStands<T>(items: seq<T>, at: seq<Coord>, k: nat, p: Coord)
    requires k < |items| == |at|
    ensures Stands(items, at[k := p], items[k], p)
  {
    assert items[k] == items[k] && at[k := p][k] == p;
  }

  // ---- Who stands where, as faction ids -------------------------------------------

  type Occupancy = map<Coord, set<FactionId>>

  function FactionsOn(occupancy: Occupancy, p: Coord): set<FactionId> {
    if p in occupancy then occupancy[p] else {}
  }

  ghost function TilesOf(units: seq<UnitState>): set<Coord> {
    set i | 0 <= i < |units| :: units[i].pos
  }

  ghost function FactionsStandingOn(units: seq<UnitState>, p: Coord): set<FactionId> {
    set i | 0 <= i < |units| && units[i].pos == p :: units[i].factionId
  }

  /** The factions with a unit, dead or alive, on each tile that has one. */
  ghost function OccupancyOf(units: seq<UnitState>): Occupancy {
    map p | p in TilesOf(units) :: FactionsStandingOn(units, p)
  }

  ghost function IndexOccupancy(index: Index<Unit>): Occupancy {
    map p | p in index :: set i | 0 <= i < |index[p]| :: index[p][i].factionId
  }

  lemma OccupancyMembers(units: seq<UnitState>, p: Coord, f: FactionId)
    ensures f in FactionsOn(OccupancyOf(units), p)
            <==> exists i :: 0 <= i < |units| && units[i].pos == p && units[i].factionId == f
  {
    if i :| 0 <= i < |units| && units[i].pos == p && units[i].factionId == f {
      assert units[i].pos in OccupancyOf(units);
    }
  }

  ghost function Positions(states: seq<UnitState>): seq<Coord> {
    seq(|states|, i requires 0 <= i < |states| => states[i].pos)
  }

  lemma PositionsAdd(states: seq<UnitState>, u: UnitState)
    ensures Positions(states + [u]) == Positions(states) + [u.pos]
  {
  }

  lemma PositionsRemove(states: seq<UnitState>, k: nat)
    requires k < |states|
    ensures |Positions(states)| == |states| && Positions(RemoveAt(states, k)) == RemoveAt(Positions(states), k)
    ensures Positions(states)[k] == states[k].pos
  {
  }

  lemma PositionsUpdate(states: seq<UnitState>, k: nat, u: UnitState)
    requires k < |states|
    ensures |Positions(states)| == |states| && Positions(states[k := u]) == Positions(states)[k := u.pos]
    ensures Positions(states)[k] == states[k].pos
  {
  }

  /** Searches and zone-of-control scans that read the index see exactly the listed units. */
  lemma AgreeingIndexHasListOccupancy(index: Index<Unit>, items: seq<Unit>, states: seq<UnitState>)
    requires |states| == |items| && forall i :: 0 <= i < |items| ==> states[i].factionId == items[i].factionId
    requires Agrees(index, items, Positions(states))
    ensures IndexOccupancy(index) == OccupancyOf(states)
  {
    var at := Positions(states);
    var l, r := IndexOccupancy(index), OccupancyOf(states);
    forall p
      ensures p in l <==> p in r
      ensures p in l && p in r ==> l[p] == r[p]
    {
      if p in index {
        assert index[p][0] in index[p];
        assert Stands(items, at, index[p][0], p);
        forall f | f in l[p]
          ensures p in r && f in r[p]
        {
          var j :| 0 <= j < |index[p]| && index[p][j].factionId == f;
          assert index[p][j] in index[p];
          assert Stands(items, at, index[p][j], p);
        }
      }
      if p in r {
        forall f | f in r[p]
          ensures p in l && f in l[p]
        {
          var i :| 0 <= i < |states| && states[i].pos == p && states[i].factionId == f;
          assert items[i] in EntriesAt(index, at[i]);
        }
        var i :| 0 <= i < |states| && states[i].pos == p;
        assert items[i] in EntriesAt(index, at[i]);
      }
    }
  }

  // ---- The registry itself ---------------------------------------------------------

  class TileRegistry {
    var cities: map<Coord, CityId>
    var buildings: map<Coord, BuildingId>
    var units: Index<Unit>

    constructor ()
      ensures cities == map[] && buildings == map[] && units == map[]
    {
      cities, buildings, units := map[], map[], map[];
    }

    method RegisterCity(p: Coord, city: CityId)
      modifies this`cities
      ensures cities == old(cities)[p := city]
    {
      cities := cities[p := city];
    }

    method RegisterBuilding(p: Coord, building: BuildingId)
      modifies this`buildings
      ensures buildings == old(buildings)[p := building]
    {
      buildings := buildings[p := building];
    }

    method RegisterUnit(p: Coord, u: Unit)
      modifies this`units
      ensures units == Registered(old(units), p, u)
    {
      units := units[p := (if p in units then units[p] else []) + [u]];
    }

    method UnregisterUnit(p: Coord, u: Unit)
      modifies this`units
      ensures units == Unregistered(old(units), p, u)
    {
      if p !in units {
        return;
      }
      var vec := units[p];
      var kept: seq<Unit> := [];
      for i := 0 to |vec|
        invariant kept == Without(vec[..i], u)
      {
        assert vec[..i + 1][..i] == vec[..i];
        if vec[i] != u {
          kept := kept + [vec[i]];
        }
      }
      assert vec[..|vec|] == vec;
      if kept == [] {
        units := units - {p};
      } else {
        units := units[p := kept];
      }
    }

    function CityAt(p: Coord): Option<CityId>
      reads this
    {
      if p in cities then Some(cities[p]) else None
    }

    function BuildingAt(p: Coord): Option<BuildingId>
      reads this
    {
      if p in buildings then Some(buildings[p]) else None
    }

    function UnitsAt(p: Coord): seq<Unit>
      reads this
    {
      EntriesAt(units, p)
    }

    predicate IsOccupied(p: Coord)
      reads this
    {
      p in cities || p in buildings || p in units
    }

    /** With no empty unit entries, `IsOccupied` says that some lookup finds something. */
    lemma OccupiedMeansFound(p: Coord)
      requires forall q :: q in units ==> units[q] != []
      ensures IsOccupied(p) <==> CityAt(p).Some? || BuildingAt(p).Some? || UnitsAt(p) != []
    {
    }

    ghost function UnitOccupancy(): Occupancy
      reads this
    {
      IndexOccupancy(units)
    }
  }

  /** Unregister from the old tile, move, register on the new tile. */
  method MoveRegistered(registry: TileRegistry, u: Unit, dest: Coord, cost: int)
    requires u.Valid() && 0 < cost <= u.movementRemaining
    modifies registry`units, u`row, u`col, u`movementRemaining
    ensures u.Valid()
    ensures u.State() == old(u.State()).(pos := dest, movementRemaining := old(u.movementRemaining) - cost)
    ensures registry.units == Registered(Unregistered(old(registry.units), old(u.Pos()), u), dest, u)
  {
    registry.UnregisterUnit(u.Pos(), u);
    u.MoveTo(dest, cost);
    registry.RegisterUnit(u.Pos(), u);
  }

  /** The same for a direct placement: health, movement and position are set, at no movement cost. */
  method PlaceRegistered(registry: TileRegistry, u: Unit, dest: Coord, health: int, movementRemaining: int)
    requires u.Valid()
    modifies registry`units, u`row, u`col, u`health, u`movementRemaining
    ensures u.Valid()
    ensures u.State() == old(u.State()).(pos := dest, health := Clamp(health, u.tmpl.maxHealth),
                                         movementRemaining := Clamp(movementRemaining, u.tmpl.movementRange))
    ensures registry.units == Registered(Unregistered(old(registry.units), old(u.Pos()), u), dest, u)
  {
    registry.UnregisterUnit(u.Pos(), u);
    u.SetHealth(health);
    u.SetMovementRemaining(movementRemaining);
    u.SetPosition(dest);
    registry.RegisterUnit(u.Pos(), u);
  }
}
