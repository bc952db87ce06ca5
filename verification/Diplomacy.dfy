/** Relations between factions, stored once per unordered pair. */
module Diplomacy {

  /** `std::uint32_t`. */
  newtype FactionId = x: int | 0 <= x < 0x1_0000_0000

  /** `static_cast<FactionId>` of a signed integer: reduction modulo 2^32. */
  function ToFactionId(x: int): FactionId {
    (x % 0x1_0000_0000) as FactionId
  }

  /** `static_cast<int>` of a faction id: the same 32 bits read as two's complement. */
  function ToSigned(f: FactionId): int {
    if f < 0x8000_0000 then f as int else f as int - 0x1_0000_0000
  }

  /** The two casts a captured city's owner goes through lose nothing. */
  lemma FactionIdRoundTrip(f: FactionId, x: int)
    ensures ToFactionId(ToSigned(f)) == f
    ensures -0x8000_0000 <= x < 0x8000_0000 ==> ToSigned(ToFactionId(x)) == x
  {
  }

  datatype DiplomacyState = Peace | War | Alliance

  datatype FactionPair = FactionPair(first: FactionId, second: FactionId)

  type Relations = map<FactionPair, DiplomacyState>

  function MakeKey(a: FactionId, b: FactionId): FactionPair {
    if a < b then FactionPair(a, b) else FactionPair(b, a)
  }

  function Relation(relations: Relations, a: FactionId, b: FactionId): DiplomacyState {
    if a == b then Peace
    else if MakeKey(a, b) in relations then relations[MakeKey(a, b)]
    else Peace
  }

  predicate AtWar(relations: Relations, a: FactionId, b: FactionId) {
    Relation(relations, a, b) == War
  }

  datatype FactionType = Player | NeutralHostile | NeutralPassive

  function TypeOrder(t: FactionType): nat {
    match t case Player => 0 case NeutralHostile => 1 case NeutralPassive => 2
  }

  /** The starting relation of two factions, read off the pair of types in canonical order. */
  function DefaultRelation(typeA: FactionType, typeB: FactionType): DiplomacyState {
    var (ta, tb) := if TypeOrder(typeA) > TypeOrder(typeB) then (typeB, typeA) else (typeA, typeB);
    if ta == tb then (if ta == Player then War else Peace)
    else if ta == Player && tb == NeutralHostile then War
    else if ta == Player && tb == NeutralPassive then Peace
    else if ta == NeutralHostile && tb == NeutralPassive then War
    else Peace
  }

  /** Who starts at war: two players, and a hostile faction with anyone who is not hostile.  Everybody else is at peace,
      whichever of the two comes first. */
  lemma WhoStartsAtWar(a: FactionType, b: FactionType)
    ensures DefaultRelation(a, b) == if (a == Player && b == Player) || (a == NeutralHostile) != (b == NeutralHostile) then War else Peace
  {
  }

  /** Faction identity as far as diplomacy needs it. */
  datatype FactionKind = FactionKind(id: FactionId, kind: FactionType)

  class DiplomacyManager {
    var relations: Relations

    constructor ()
      ensures relations == map[]
    {
      relations := map[];
    }

    function GetRelation(a: FactionId, b: FactionId): (s: DiplomacyState)
      reads this
      ensures s == Relation(relations, a, b)
    {
      if a == b then Peace
      else
        var key := MakeKey(a, b);
        if key in relations then relations[key] else Peace
    }

    predicate AreAtWar(a: FactionId, b: FactionId)
      reads this
    {
      GetRelation(a, b) == War
    }

    method SetRelation(a: FactionId, b: FactionId, state: DiplomacyState)
      modifies this
      ensures relations == WithRelation(old(relations), a, b, state)
      ensures forall x, y :: Relation(relations, x, y)
                             == if a != b && ((x == a && y == b) || (x == b && y == a)) then state
                                else old(Relation(relations, x, y))
    {
      if a == b {
        return;
      }
      relations := relations[MakeKey(a, b) := state];
    }

    /** Every pair of listed factions, in order, is given its default relation. */
    method InitializeDefaults(factions: seq<FactionKind>)
      modifies this
      ensures relations == WithDefaults(old(relations), factions, |factions|, 0)
    {
      for i := 0 to |factions|
        invariant relations == WithDefaults(old(relations), factions, i, 0)
      {
        for j := i + 1 to |factions|
          invariant relations == WithDefaults(old(relations), factions, i, j)
        {
          SetRelation(factions[i].id, factions[j].id, DefaultRelation(factions[i].kind, factions[j].kind));
        }
      }
    }
  }

  function WithRelation(relations: Relations, a: FactionId, b: FactionId, state: DiplomacyState): Relations {
    if a == b then relations else relations[MakeKey(a, b) := state]
  }

  /** The relations once the pairs before `(i, j)` of the double loop have been set. */
  function WithDefaults(relations: Relations, factions: seq<FactionKind>, i: nat, j: nat): Relations
    requires i <= |factions| && j <= |factions|
    decreases i, j
  {
    if i < |factions| && j > i + 1 then
      WithRelation(WithDefaults(relations, factions, i, j - 1), factions[i].id, factions[j - 1].id,
                   DefaultRelation(factions[i].kind, factions[j - 1].kind))
    else if i > 0 then WithDefaults(relations, factions, i - 1, |factions|)
    else relations
  }

  /** The double loop comes to `(k, l)` before `(i, j)`. */
  predicate Precedes(k: int, l: int, i: int, j: int) {
    k < i || (k == i && l < j)
  }

  /** The pairs after `(k, l)` and before `(i, j)` are of other factions. */
  ghost predicate IsLastOfKey(factions: seq<FactionKind>, k: nat, l: nat, i: nat, j: nat)
    requires k < |factions| && l < |factions|
  {
    forall m, n :: 0 <= m < n < |factions| && Precedes(k, l, m, n) && Precedes(m, n, i, j) ==>
      MakeKey(factions[m].id, factions[n].id) != MakeKey(factions[k].id, factions[l].id)
  }

  /** Of several pairs of the same two ids the last one decides. */
  lemma {:induction false} LastPairDecides(relations: Relations, factions: seq<FactionKind>, i: nat, j: nat, k: nat, l: nat)
    requires i <= |factions| && j <= |factions| && k < l < |factions| && Precedes(k, l, i, j)
    requires factions[k].id != factions[l].id && IsLastOfKey(factions, k, l, i, j)
    ensures HasDefault(WithDefaults(relations, factions, i, j), factions[k], factions[l])
    decreases i, j
  {
    if i < |factions| && j > i + 1 {
      if (k, l) != (i, j - 1) {
        assert IsLastOfKey(factions, k, l, i, j - 1);
        LastPairDecides(relations, factions, i, j - 1, k, l);
        assert Precedes(k, l, i, j - 1) && Precedes(i, j - 1, i, j);
      }
    } else {
      assert IsLastOfKey(factions, k, l, i - 1, |factions|);
      LastPairDecides(relations, factions, i - 1, |factions|, k, l);
    }
  }

  /** A pair of ids that no two listed factions have keeps its relation. */
  lemma {:induction false} OtherPairsKept(relations: Relations, factions: seq<FactionKind>, i: nat, j: nat, a: FactionId, b: FactionId)
    requires i <= |factions| && j <= |factions|
    requires forall m, n :: 0 <= m < n < |factions| ==> MakeKey(factions[m].id, factions[n].id) != MakeKey(a, b)
    ensures Relation(WithDefaults(relations, factions, i, j), a, b) == Relation(relations, a, b)
    decreases i, j
  {
    if i < |factions| && j > i + 1 {
      OtherPairsKept(relations, factions, i, j - 1, a, b);
    } else if i > 0 {
      OtherPairsKept(relations, factions, i - 1, |factions|, a, b);
    }
  }

  /** With distinct ids every pair of listed factions has its default relation in the end. */
  lemma DistinctIdsGetDefaults(relations: Relations, factions: seq<FactionKind>, k: nat, l: nat)
    requires DistinctIds(factions) && k < l < |factions|
    ensures HasDefault(WithDefaults(relations, factions, |factions|, 0), factions[k], factions[l])
  {
    forall m, n | 0 <= m < n < |factions| && Precedes(k, l, m, n)
      ensures MakeKey(factions[m].id, factions[n].id) != MakeKey(factions[k].id, factions[l].id)
    {
      KeysDiffer(factions, m, n, k, l);
    }
    LastPairDecides(relations, factions, |factions|, 0, k, l);
  }

  ghost predicate DistinctIds(factions: seq<FactionKind>) {
    forall i, j :: 0 <= i < j < |factions| ==> factions[i].id != factions[j].id
  }

  ghost predicate HasDefault(relations: Relations, f: FactionKind, g: FactionKind) {
    Relation(relations, f.id, g.id) == DefaultRelation(f.kind, g.kind)
  }

  /** War, peace and alliance are mutual, and no faction is ever at war with itself. */
  lemma RelationsAreMutual(relations: Relations, a: FactionId, b: FactionId)
    ensures Relation(relations, a, b) == Relation(relations, b, a)
    ensures !AtWar(relations, a, a)
  {
  }

  lemma KeysDiffer(factions: seq<FactionKind>, i: nat, j: nat, k: nat, l: nat)
    requires DistinctIds(factions)
    requires i < j < |factions| && k < l < |factions|
    ensures MakeKey(factions[i].id, factions[j].id) == MakeKey(factions[k].id, factions[l].id) ==> (i, j) == (k, l)
  {
  }
}
