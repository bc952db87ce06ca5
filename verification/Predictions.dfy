/** Client-side prediction as values: what rolling back and replaying optimistic actions amounts to. */
module Predictions {
  import opened Hex
  import opened Terrain
  import opened Units
  import opened Registry
  import opened ZoneOfControl
  import opened Worlds
  import opened MoveReach

  /** The unit an action is about to act with, as captured before it acts. */
  datatype UnitSnapshot = UnitSnapshot(unitIndex: nat, pos: Coord, health: int, movementRemaining: int, alive: bool)

  datatype Pending = Pending(sequenceId: nat, action: GameAction, snapshot: UnitSnapshot)

  function ActingUnit(action: GameAction): nat {
    match action
    case Move(i, _) => i
    case Attack(a, _) => a
    case Capture(i) => i
  }

  /** An index that is no unit leaves the snapshot at its default values. */
  function SnapshotOf(w: World, action: GameAction): UnitSnapshot {
    var i := ActingUnit(action);
    if i < |w.units| then
      var u := w.units[i];
      UnitSnapshot(i, u.pos, u.health, u.movementRemaining, u.Alive())
    else UnitSnapshot(i, Coord(0, 0), 0, 0, true)
  }

  function WithSnapshot(u: UnitState, pos: Coord, health: int, movementRemaining: int): UnitState {
    u.(pos := pos, health := Clamp(health, u.tmpl.maxHealth), movementRemaining := Clamp(movementRemaining, u.tmpl.movementRange))
  }

  function RolledBack(w: World, s: UnitSnapshot): World {
    if s.unitIndex < |w.units| then
      w.(units := w.units[s.unitIndex := WithSnapshot(w.units[s.unitIndex], s.pos, s.health, s.movementRemaining)])
    else w
  }

  /** Newest first. */
  function RolledBackAll(w: World, undone: seq<Pending>): World
    decreases |undone|
  {
    if undone == [] then w
    else RolledBackAll(RolledBack(w, undone[|undone| - 1].snapshot), undone[..|undone| - 1])
  }

  /** Every tile looked up while replaying is in the map. */
  ghost predicate ReplayLooksInMap(w: World, preds: seq<Pending>)
    decreases |preds|
  {
    preds == [] || (LooksInMap(w, preds[0].action) && ReplayLooksInMap(After(w, preds[0].action), preds[1..]))
  }

  /** The state after replaying, oldest first: an action that does not execute changes nothing. */
  ghost function Replayed(w: World, preds: seq<Pending>): World
    requires ReplayLooksInMap(w, preds)
    decreases |preds|
  {
    if preds == [] then w else Replayed(After(w, preds[0].action), preds[1..])
  }

  /** The predictions that execute again, in order. */
  ghost function Kept(w: World, preds: seq<Pending>): seq<Pending>
    requires ReplayLooksInMap(w, preds)
    decreases |preds|
  {
    if preds == [] then []
    else (if Executes(w, preds[0].action) then [preds[0]] else []) + Kept(After(w, preds[0].action), preds[1..])
  }

  /** Halfway through a replay from `w`: the state is `now`, `kept` have executed, and `preds[i..]` are to come. */
  ghost predicate Midway(w: World, preds: seq<Pending>, i: nat, now: World, kept: seq<Pending>) {
    && i <= |preds| && ReplayLooksInMap(w, preds) && ReplayLooksInMap(now, preds[i..])
    && Replayed(now, preds[i..]) == Replayed(w, preds)
    && kept + Kept(now, preds[i..]) == Kept(w, preds)
  }

  lemma MidwayStart(w: World, preds: seq<Pending>)
    requires ReplayLooksInMap(w, preds)
    ensures Midway(w, preds, 0, w, [])
  {
    assert preds[0..] == preds && [] + Kept(w, preds) == Kept(w, preds);
  }

  lemma MidwayStep(w: World, preds: seq<Pending>, i: nat, now: World, kept: seq<Pending>)
    requires Midway(w, preds, i, now, kept) && i < |preds|
    ensures LooksInMap(now, preds[i].action)
    ensures Midway(w, preds, i + 1, After(now, preds[i].action),
                   if Executes(now, preds[i].action) then kept + [preds[i]] else kept)
  {
    hide Executes, After, LooksInMap;
    assert preds[i..][0] == preds[i] && preds[i..][1..] == preds[i + 1..];
    var rest := Kept(After(now, preds[i].action), preds[i + 1..]);
    assert kept + ([preds[i]] + rest) == (kept + [preds[i]]) + rest && kept + ([] + rest) == kept + rest;
  }

  lemma MidwayEnd(w: World, preds: seq<Pending>, now: World, kept: seq<Pending>)
    requires Midway(w, preds, |preds|, now, kept)
    ensures ReplayLooksInMap(w, preds) && now == Replayed(w, preds) && kept == Kept(w, preds)
  {
    assert preds[|preds|..] == [];
    assert kept + [] == kept;
  }

  /** The first prediction with the given id, or the number of predictions. */
  function FindPending(pending: seq<Pending>, id: nat): (k: nat)
    ensures k <= |pending| && (k < |pending| ==> pending[k].sequenceId == id)
    ensures forall j :: 0 <= j < k ==> pending[j].sequenceId != id
  {
    if pending == [] then 0
    else if pending[0].sequenceId == id then 0
    else FindPending(pending[1..], id) + 1
  }

  datatype Client = Client(world: World, pending: seq<Pending>, nextId: nat)

  ghost predicate RejectLooksInMap(c: Client, id: nat) {
    var k := FindPending(c.pending, id);
    k < |c.pending| ==> ReplayLooksInMap(RolledBackAll(c.world, c.pending[k..]), c.pending[k + 1..])
  }

  /** The rejected prediction and all newer ones are rolled back, and the newer ones replayed. */
  ghost function Rejected(c: Client, id: nat): Client
    requires RejectLooksInMap(c, id)
  {
    var k := FindPending(c.pending, id);
    if k == |c.pending| then c
    else
      var base := RolledBackAll(c.world, c.pending[k..]);
      Client(Replayed(base, c.pending[k + 1..]), c.pending[..k] + Kept(base, c.pending[k + 1..]), c.nextId)
  }

  ghost function Predicted(c: Client, action: GameAction): Client
    requires LooksInMap(c.world, action)
  {
    if Executes(c.world, action)
    then Client(After(c.world, action), c.pending + [Pending(c.nextId, action, SnapshotOf(c.world, action))], c.nextId + 1)
    else c
  }

  function Confirmed(c: Client, id: nat): Client {
    var k := FindPending(c.pending, id);
    if k == |c.pending| then c else c.(pending := RemoveAt(c.pending, k))
  }

  // ---- Reconciliation -----------------------------------------------------------------------------

  /** Position, health and movement of the first `n` units come from the server's units of the same index. */
  function Synced(w: World, server: seq<UnitState>, n: nat): World
    requires n <= |w.units| && n <= |server|
  {
    if n == 0 then w
    else
      var rest := Synced(w, server, n - 1);
      if n - 1 < |rest.units| then
        rest.(units := rest.units[n - 1 := WithSnapshot(rest.units[n - 1], server[n - 1].pos, server[n - 1].health, server[n - 1].movementRemaining)])
      else rest
  }

  function SyncedFirst(w: World, server: seq<UnitState>): World {
    Synced(w, server, if |w.units| <= |server| then |w.units| else |server|)
  }

  function SyncedAll(w: World, server: World): World {
    SyncedFirst(w.(turn := server.turn), server.units)
  }

  ghost predicate ReconcileLooksInMap(c: Client, server: World) {
    ReplayLooksInMap(SyncedAll(c.world, server), c.pending)
  }

  ghost function Reconciled(c: Client, server: World): Client
    requires ReconcileLooksInMap(c, server)
  {
    var base := SyncedAll(c.world, server);
    Client(Replayed(base, c.pending), Kept(base, c.pending), c.nextId)
  }

  lemma {:induction false} SyncedUnits(w: World, server: seq<UnitState>, n: nat)
    requires n <= |w.units| && n <= |server|
    ensures Synced(w, server, n) == w.(units := Synced(w, server, n).units) && |Synced(w, server, n).units| == |w.units|
    ensures forall i :: 0 <= i < |w.units| ==>
              Synced(w, server, n).units[i]
              == if i < n then WithSnapshot(w.units[i], server[i].pos, server[i].health, server[i].movementRemaining) else w.units[i]
  {
    if n > 0 {
      SyncedUnits(w, server, n - 1);
    }
  }

  lemma SyncedStep(w: World, server: seq<UnitState>, i: nat)
    requires i < |w.units| && i < |server|
    ensures Synced(w, server, 0) == w
    ensures var before := Synced(w, server, i);
            && |before.units| == |w.units| && before.units[i] == w.units[i]
            && Synced(w, server, i + 1)
               == before.(units := before.units[i := WithSnapshot(before.units[i], server[i].pos, server[i].health, server[i].movementRemaining)])
  {
    SyncedUnits(w, server, i);
  }

  /** With units of the same kinds on both sides and nothing pending, reconciling makes every unit stand where
      the server's stands, as healthy and as rested. */
  lemma ReconcileAdoptsServer(c: Client, server: World)
    requires c.pending == [] && |c.world.units| == |server.units| && server.Ok()
    requires forall i :: 0 <= i < |server.units| ==> c.world.units[i].tmpl == server.units[i].tmpl
    ensures ReconcileLooksInMap(c, server)
    ensures var w := Reconciled(c, server).world;
            && w.turn == server.turn && |w.units| == |server.units|
            && forall i :: 0 <= i < |server.units| ==>
                 && w.units[i].pos == server.units[i].pos && w.units[i].health == server.units[i].health
                 && w.units[i].movementRemaining == server.units[i].movementRemaining
  {
    SyncedUnits(c.world.(turn := server.turn), server.units, |server.units|);
    assert forall i :: 0 <= i < |server.units| ==> server.units[i].Ok();
  }

  // ---- What rejecting restores --------------------------------------------------------------------

  /** `states[i]` is the state before pending move `i`, and its snapshot was taken there: nothing else changed
      in between. */
  ghost predicate Chain(states: seq<World>, pending: seq<Pending>) {
    && |states| == |pending| + 1
    && (forall i :: 0 <= i <= |pending| ==> states[i].Ok())
    && (forall i :: 0 <= i < |pending| ==> Link(states[i], pending[i], states[i + 1]))
  }

  ghost predicate Link(before: World, p: Pending, after: World) {
    && p.action.Move? && LooksInMap(before, p.action) && Executes(before, p.action)
    && after == After(before, p.action) && p.snapshot == SnapshotOf(before, p.action)
  }

  /** Rolling back a move restores the state before it exactly. */
  lemma RollbackUndoesMove(before: World, p: Pending, after: World)
    requires Link(before, p, after) && before.Ok()
    ensures RolledBack(after, p.snapshot) == before
  {
    hide HexDistance, BlockedByZoc, IsLevelFor;
    var i := ActingUnit(p.action);
    assert before.units[i].Ok();
    assert RolledBack(after, p.snapshot).units[i] == before.units[i];
    assert RolledBack(after, p.snapshot).units == before.units;
  }

  /** Rolling back a suffix of the queue restores the state before its first move. */
  lemma {:induction false} RollbackRestores(states: seq<World>, pending: seq<Pending>, k: nat)
    requires Chain(states, pending) && k <= |pending|
    ensures RolledBackAll(states[|pending|], pending[k..]) == states[k]
    decreases |pending| - k
  {
    hide RolledBack, Link;
    if k < |pending| {
      var n := |pending|;
      assert Link(states[n - 1], pending[n - 1], states[n - 1 + 1]);
      RollbackUndoesMove(states[n - 1], pending[n - 1], states[n]);
      var init := pending[..n - 1];
      assert pending[k..][..n - k - 1] == init[k..];
      assert Chain(states[..n], init);
      RollbackRestores(states[..n], init, k);
    }
  }

  ghost predicate MovesInMap(w: World, preds: seq<Pending>) {
    forall i :: 0 <= i < |preds| ==> preds[i].action.Move? && w.grid.Has(preds[i].action.dest)
  }

  lemma {:induction false} MovesReplayInMap(w: World, preds: seq<Pending>)
    requires MovesInMap(w, preds)
    ensures ReplayLooksInMap(w, preds)
    decreases |preds|
  {
    hide ValidateMove;
    if preds != [] {
      assert preds[0].action.Move?;
      MovesReplayInMap(After(w, preds[0].action), preds[1..]);
    }
  }

  lemma {:induction false} ChainMovesInMap(states: seq<World>, pending: seq<Pending>, n: nat)
    requires Chain(states, pending) && n <= |pending|
    ensures states[n] == states[0].(units := states[n].units) && |states[n].units| == |states[0].units|
    ensures MovesInMap(states[0], pending[..n])
  {
    hide HexDistance, BlockedByZoc;
    if n > 0 {
      ChainMovesInMap(states, pending, n - 1);
      assert Link(states[n - 1], pending[n - 1], states[n - 1 + 1]);
      assert pending[..n] == pending[..n - 1] + [pending[n - 1]];
    }
  }

  /** Moves that were predicted once can be replayed from any state of their chain. */
  lemma ChainReplaysInMap(states: seq<World>, pending: seq<Pending>, k: nat)
    requires Chain(states, pending) && k < |pending|
    ensures MovesInMap(states[k], pending[k + 1..]) && ReplayLooksInMap(states[k], pending[k + 1..])
  {
    ChainMovesInMap(states, pending, |pending|);
    ChainMovesInMap(states, pending, k);
    assert pending[..|pending|] == pending;
    MovesReplayInMap(states[k], pending[k + 1..]);
  }

  /** The main result: rejecting entry `k` of a queue of moves leaves the state before move `k` followed by the
      later moves replayed, failing ones skipped, and the queue is the earlier entries and the successful ones. */
  lemma RejectReplaysFromBefore(states: seq<World>, c: Client, k: nat)
    requires Chain(states, c.pending) && c.world == states[|c.pending|] && k < |c.pending|
    requires forall j :: 0 <= j < k ==> c.pending[j].sequenceId != c.pending[k].sequenceId
    ensures ReplayLooksInMap(states[k], c.pending[k + 1..]) && RejectLooksInMap(c, c.pending[k].sequenceId)
    ensures Rejected(c, c.pending[k].sequenceId)
            == Client(Replayed(states[k], c.pending[k + 1..]), c.pending[..k] + Kept(states[k], c.pending[k + 1..]), c.nextId)
  {
    hide RolledBackAll, Chain, Replayed, Kept;
    ChainReplaysInMap(states, c.pending, k);
    FindIs(c.pending, k);
    RollbackRestores(states, c.pending, k);
  }

  lemma {:induction false} FindIs(pending: seq<Pending>, k: nat)
    requires k < |pending| && forall j :: 0 <= j < k ==> pending[j].sequenceId != pending[k].sequenceId
    ensures FindPending(pending, pending[k].sequenceId) == k
  {
  }

  /** Predicting a move that executes lengthens the chain, with a fresh id. */
  lemma PredictExtendsChain(states: seq<World>, c: Client, action: GameAction)
    requires Chain(states, c.pending) && c.world == states[|c.pending|]
    requires action.Move? && LooksInMap(c.world, action) && Executes(c.world, action) && After(c.world, action).Ok()
    ensures Chain(states + [After(c.world, action)], Predicted(c, action).pending)
    ensures Predicted(c, action).world == After(c.world, action)
  {
    hide Executes, After, LooksInMap, SnapshotOf;
    var states', pending' := states + [After(c.world, action)], Predicted(c, action).pending;
    forall i | 0 <= i < |pending'|
      ensures Link(states'[i], pending'[i], states'[i + 1])
    {
      if i < |c.pending| {
        assert Link(states[i], c.pending[i], states[i + 1]);
      }
    }
  }

  /** Confirming the oldest prediction leaves a chain from the state after it. */
  lemma ConfirmOldestKeepsChain(states: seq<World>, c: Client)
    requires Chain(states, c.pending) && c.world == states[|c.pending|] && c.pending != []
    ensures Chain(states[1..], Confirmed(c, c.pending[0].sequenceId).pending)
  {
    hide Link;
    var pending' := Confirmed(c, c.pending[0].sequenceId).pending;
    assert pending' == c.pending[1..];
    forall i | 0 <= i < |pending'|
      ensures Link(states[1..][i], pending'[i], states[1..][i + 1])
    {
      assert Link(states[i + 1], c.pending[i + 1], states[i + 1 + 1]);
    }
  }

  // ---- Reconciling with the state the queue started from ----------------------------------------------

  /** Moves change where units stand and how far they can go, and nothing else. */
  lemma {:induction false} ChainKeepsUnits(states: seq<World>, pending: seq<Pending>, n: nat, i: nat)
    requires Chain(states, pending) && n <= |pending| && i < |states[0].units|
    ensures i < |states[n].units|
    ensures var u, u0 := states[n].units[i], states[0].units[i];
            u == u0.(pos := u.pos, movementRemaining := u.movementRemaining)
  {
    hide HexDistance, BlockedByZoc, UnitState.Ok;
    if n > 0 {
      ChainKeepsUnits(states, pending, n - 1, i);
      assert Link(states[n - 1], pending[n - 1], states[n - 1 + 1]);
    }
  }

  /** Replaying a chain from one of its states executes every move again and ends where the chain ends. */
  lemma {:induction false} ChainReplays(states: seq<World>, pending: seq<Pending>, k: nat)
    requires Chain(states, pending) && k <= |pending|
    ensures ReplayLooksInMap(states[k], pending[k..])
    ensures Replayed(states[k], pending[k..]) == states[|pending|] && Kept(states[k], pending[k..]) == pending[k..]
    decreases |pending| - k
  {
    hide Executes, After, LooksInMap, SnapshotOf, UnitState.Ok;
    if k < |pending| {
      assert Link(states[k], pending[k], states[k + 1]);
      assert pending[k..][0] == pending[k] && pending[k..][1..] == pending[k + 1..];
      ChainReplays(states, pending, k + 1);
    }
  }

  lemma SyncedBack(states: seq<World>, pending: seq<Pending>, server: World)
    requires Chain(states, pending) && server.turn == states[0].turn && server.units == states[0].units
    ensures SyncedAll(states[|pending|], server) == states[0]
  {
    var w, n := states[|pending|].(turn := server.turn), |server.units|;
    ChainMovesInMap(states, pending, |pending|);
    SyncedUnits(w, server.units, n);
    forall i | 0 <= i < n
      ensures Synced(w, server.units, n).units[i] == states[0].units[i]
    {
      ChainKeepsUnits(states, pending, |pending|, i);
      ChainStartIsOk(states, pending);
      SnapshotOfOk(w.units[i], server.units[i]);
    }
    assert Synced(w, server.units, n).units == states[0].units;
  }

  lemma ChainStartIsOk(states: seq<World>, pending: seq<Pending>)
    requires Chain(states, pending)
    ensures states != [] && states[0].Ok()
  {
  }

  lemma SnapshotOfOk(u: UnitState, u0: UnitState)
    requires u0.Ok() && u == u0.(pos := u.pos, movementRemaining := u.movementRemaining)
    ensures WithSnapshot(u, u0.pos, u0.health, u0.movementRemaining) == u0
  {
  }

  /** A server that shows the state the queue of moves started from changes nothing: every unit is put back, every
      move executes again, and the client is where it was, with the same queue. */
  lemma ReconcileWithBaseChangesNothing(states: seq<World>, c: Client, server: World)
    requires Chain(states, c.pending) && c.world == states[|c.pending|]
    requires server.turn == states[0].turn && server.units == states[0].units
    ensures ReconcileLooksInMap(c, server) && Reconciled(c, server) == c
  {
    hide Chain, SyncedAll, Replayed, Kept, ReplayLooksInMap;
    SyncedBack(states, c.pending, server);
    ChainReplays(states, c.pending, 0);
    assert c.pending[0..] == c.pending;
  }

  // ---- Any run of the client --------------------------------------------------------------------------

  datatype ClientEvent = Predict(action: GameAction) | Confirm(id: nat) | Reject(id: nat) | Reconcile(server: World)

  ghost predicate ClientStep(c: Client, e: ClientEvent, d: Client) {
    match e
    case Predict(action) => LooksInMap(c.world, action) && d == Predicted(c, action)
    case Confirm(id) => d == Confirmed(c, id)
    case Reject(id) => RejectLooksInMap(c, id) && d == Rejected(c, id)
    case Reconcile(server) => ReconcileLooksInMap(c, server) && d == Reconciled(c, server)
  }

  /** The queue is in the order its ids were given out, each only once, and the next id is new. */
  ghost predicate IdsAscend(c: Client) {
    Ascending(c.pending) && forall i :: 0 <= i < |c.pending| ==> c.pending[i].sequenceId < c.nextId
  }

  ghost predicate Ascending(pending: seq<Pending>) {
    forall i, j :: 0 <= i < j < |pending| ==> pending[i].sequenceId < pending[j].sequenceId
  }

  lemma {:induction false} KeptAscends(w: World, preds: seq<Pending>)
    requires ReplayLooksInMap(w, preds) && Ascending(preds)
    ensures Ascending(Kept(w, preds)) && forall i :: 0 <= i < |Kept(w, preds)| ==> Kept(w, preds)[i] in preds
    decreases |preds|
  {
    hide Executes, After, LooksInMap;
    if preds != [] {
      var rest := Kept(After(w, preds[0].action), preds[1..]);
      KeptAscends(After(w, preds[0].action), preds[1..]);
      forall i | 0 <= i < |rest|
        ensures rest[i] in preds && preds[0].sequenceId < rest[i].sequenceId
      {
        var j :| 0 <= j < |preds[1..]| && preds[1..][j] == rest[i];
        assert preds[j + 1] == rest[i];
      }
    }
  }

  lemma AscendingParts(pending: seq<Pending>, k: nat, rest: seq<Pending>)
    requires Ascending(pending) && k < |pending| && Ascending(rest)
    requires forall i :: 0 <= i < |rest| ==> rest[i] in pending[k + 1..]
    ensures Ascending(pending[k + 1..]) && Ascending(pending[..k] + rest)
    ensures forall i :: 0 <= i < |pending[..k] + rest| ==> (pending[..k] + rest)[i] in pending
  {
    forall i | 0 <= i < |rest|
      ensures rest[i] in pending && forall j :: 0 <= j < k ==> pending[j].sequenceId < rest[i].sequenceId
    {
      var m :| 0 <= m < |pending[k + 1..]| && pending[k + 1..][m] == rest[i];
      assert pending[k + 1 + m] == rest[i];
    }
  }

  lemma ConfirmKeepsIds(c: Client, id: nat)
    requires IdsAscend(c)
    ensures IdsAscend(Confirmed(c, id))
  {
    var k := FindPending(c.pending, id);
    if k < |c.pending| {
      var left := RemoveAt(c.pending, k);
      assert forall i :: 0 <= i < |left| ==> left[i] == c.pending[if i < k then i else i + 1];
    }
  }

  // ---- Confirming in any order ------------------------------------------------------------------------

  /** Confirming an entry takes that entry, wherever it stands, and no other off the queue; the rest keep their order,
      and the state and the next id stay. */
  lemma ConfirmTakesOneEntry(c: Client, k: nat)
    requires IdsAscend(c) && k < |c.pending|
    ensures var d := Confirmed(c, c.pending[k].sequenceId);
            && d.world == c.world && d.nextId == c.nextId && |d.pending| == |c.pending| - 1
            && forall j :: 0 <= j < |c.pending| ==> if j < k then d.pending[j] == c.pending[j]
                                                   else if j > k then d.pending[j - 1] == c.pending[j]
                                                   else c.pending[j] !in d.pending
  {
    FindIs(c.pending, k);
  }

  /** An id that is not pending changes nothing. */
  lemma ConfirmingUnknownIsNothing(c: Client, id: nat)
    requires forall i :: 0 <= i < |c.pending| ==> c.pending[i].sequenceId != id
    ensures Confirmed(c, id) == c
  {
  }

  /** The queue without the entries of an id. */
  function WithoutId(pending: seq<Pending>, id: nat): seq<Pending> {
    if pending == [] then []
    else
      var rest := WithoutId(pending[1..], id);
      if pending[0].sequenceId == id then rest else [pending[0]] + rest
  }

  lemma {:induction false} WithoutUnknown(pending: seq<Pending>, id: nat)
    requires forall i :: 0 <= i < |pending| ==> pending[i].sequenceId != id
    ensures WithoutId(pending, id) == pending
  {
    if pending != [] {
      WithoutUnknown(pending[1..], id);
    }
  }

  lemma {:induction false} RemovedIsWithout(pending: seq<Pending>, id: nat)
    requires Ascending(pending)
    ensures var k := FindPending(pending, id);
            WithoutId(pending, id) == if k == |pending| then pending else RemoveAt(pending, k)
  {
    if pending != [] {
      var rest := pending[1..];
      assert pending == [pending[0]] + rest;
      if pending[0].sequenceId == id {
        WithoutUnknown(rest, id);
      } else {
        RemovedIsWithout(rest, id);
        RemoveLater(pending[0], rest, FindPending(rest, id));
      }
    }
  }

  lemma RemoveLater<T>(first: T, rest: seq<T>, k: nat)
    requires k <= |rest|
    ensures k < |rest| ==> RemoveAt([first] + rest, k + 1) == [first] + RemoveAt(rest, k)
  {
  }

  lemma {:induction false} WithoutCommutes(pending: seq<Pending>, id: nat, other: nat)
    ensures WithoutId(WithoutId(pending, id), other) == WithoutId(WithoutId(pending, other), id)
  {
    if pending != [] {
      WithoutCommutes(pending[1..], id, other);
    }
  }

  /** Confirmations that come in another order lead to the same client. */
  lemma ConfirmationsCommute(c: Client, id: nat, other: nat)
    requires IdsAscend(c)
    ensures Confirmed(Confirmed(c, id), other) == Confirmed(Confirmed(c, other), id)
  {
    hide WithoutId;
    ConfirmKeepsIds(c, id);
    ConfirmKeepsIds(c, other);
    RemovedIsWithout(c.pending, id);
    RemovedIsWithout(c.pending, other);
    RemovedIsWithout(Confirmed(c, id).pending, other);
    RemovedIsWithout(Confirmed(c, other).pending, id);
    WithoutCommutes(c.pending, id, other);
  }

  lemma StepKeepsIds(c: Client, e: ClientEvent, d: Client)
    requires IdsAscend(c) && ClientStep(c, e, d)
    ensures IdsAscend(d)
  {
    hide Executes, After, LooksInMap, RolledBackAll, SyncedAll, Replayed, ReplayLooksInMap, Kept, Confirmed,
         SnapshotOf;
    match e
    case Predict(_) =>
    case Confirm(id) => ConfirmKeepsIds(c, id);
    case Reject(id) =>
      var k := FindPending(c.pending, id);
      if k < |c.pending| {
        var base := RolledBackAll(c.world, c.pending[k..]);
        KeptAscends(base, c.pending[k + 1..]);
        AscendingParts(c.pending, k, Kept(base, c.pending[k + 1..]));
      }
    case Reconcile(server) =>
      KeptAscends(SyncedAll(c.world, server), c.pending);
  }

  ghost predicate IsClientRun(clients: seq<Client>, events: seq<ClientEvent>) {
    |clients| == |events| + 1 && forall i :: 0 <= i < |events| ==> ClientStep(clients[i], events[i], clients[i + 1])
  }

  /** Over any run from an empty queue, whatever is predicted, confirmed, rejected or reconciled, pending ids stay
      distinct and in order, so an id names at most one prediction. */
  lemma {:induction false} RunKeepsIds(clients: seq<Client>, events: seq<ClientEvent>, n: nat)
    requires IsClientRun(clients, events) && n <= |events| && clients[0].pending == []
    ensures IdsAscend(clients[n])
  {
    hide ClientStep;
    if n == 0 {
      assert clients[0].pending == [];
    } else {
      RunKeepsIds(clients, events, n - 1);
      assert ClientStep(clients[n - 1], events[n - 1], clients[n - 1 + 1]);
      StepKeepsIds(clients[n - 1], events[n - 1], clients[n]);
    }
  }

  // ---- When the queue may be rejected from again -----------------------------------------------------

  /** The states after each replayed move that executes. */
  ghost function ReplayStates(w: World, preds: seq<Pending>): seq<World>
    requires ReplayLooksInMap(w, preds)
    decreases |preds|
  {
    if preds == [] then []
    else
      var next := After(w, preds[0].action);
      (if Executes(w, preds[0].action) then [next] else []) + ReplayStates(next, preds[1..])
  }

  /** Every replayed move's old snapshot is what a new capture would give. */
  ghost predicate SnapshotsStillTrue(w: World, preds: seq<Pending>)
    requires ReplayLooksInMap(w, preds)
    decreases |preds|
  {
    preds == []
    || (&& (Executes(w, preds[0].action) ==> preds[0].snapshot == SnapshotOf(w, preds[0].action))
        && SnapshotsStillTrue(After(w, preds[0].action), preds[1..]))
  }

  /** No replayed move that executes is of a unit in `gone`: a unit one of whose earlier moves was rejected, or
      was dropped because it failed to replay. */
  ghost predicate Undisturbed(w: World, preds: seq<Pending>, gone: set<nat>)
    requires ReplayLooksInMap(w, preds)
    decreases |preds|
  {
    preds == []
    || (if Executes(w, preds[0].action)
        then ActingUnit(preds[0].action) !in gone && Undisturbed(After(w, preds[0].action), preds[1..], gone)
        else Undisturbed(After(w, preds[0].action), preds[1..], gone + {ActingUnit(preds[0].action)}))
  }

  /** A replayed state next to the original one: units with lost moves have more movement left, others are equal. */
  ghost predicate Parallel(orig: World, r: World, gone: set<nat>) {
    && r == orig.(units := r.units) && |r.units| == |orig.units|
    && forall i :: 0 <= i < |orig.units| ==>
         if i in gone then r.units[i].movementRemaining > orig.units[i].movementRemaining else r.units[i] == orig.units[i]
  }

  lemma ParallelStep(orig: World, p: Pending, orig': World, r: World, gone: set<nat>)
    requires Link(orig, p, orig') && Parallel(orig, r, gone)
    ensures LooksInMap(r, p.action)
    ensures var i := ActingUnit(p.action);
            if Executes(r, p.action) then
              Parallel(orig', After(r, p.action), gone) && (p.snapshot == SnapshotOf(r, p.action) <==> i !in gone)
            else
              Parallel(orig', After(r, p.action), gone + {i})
  {
    hide HexDistance, BlockedByZoc;
  }

  lemma {:induction false} TrueIffUndisturbed(states: seq<World>, pending: seq<Pending>, k: nat, r: World, gone: set<nat>)
    requires Chain(states, pending) && k <= |pending| && Parallel(states[k], r, gone)
    requires ReplayLooksInMap(r, pending[k..])
    ensures SnapshotsStillTrue(r, pending[k..]) <==> Undisturbed(r, pending[k..], gone)
    decreases |pending| - k
  {
    hide Executes, After, Parallel, Link, SnapshotOf, LooksInMap;
    if k < |pending| {
      assert Link(states[k], pending[k], states[k + 1]);
      ParallelStep(states[k], pending[k], states[k + 1], r, gone);
      var p, next := pending[k], After(r, pending[k].action);
      assert pending[k..][0] == p && pending[k..][1..] == pending[k + 1..];
      TrueIffUndisturbed(states, pending, k + 1, next, if Executes(r, p.action) then gone else gone + {ActingUnit(p.action)});
    }
  }

  lemma ParallelStart(before: World, p: Pending, after: World)
    requires Link(before, p, after)
    ensures Parallel(after, before, {ActingUnit(p.action)})
  {
    hide HexDistance, BlockedByZoc;
  }

  /** Replayed moves form a chain with the states they went through exactly if their snapshots are still true. */
  lemma {:induction false} KeptIsChainIffTrue(w: World, preds: seq<Pending>)
    requires ReplayLooksInMap(w, preds) && w.Ok() && forall i :: 0 <= i < |preds| ==> preds[i].action.Move?
    ensures Chain([w] + ReplayStates(w, preds), Kept(w, preds)) <==> SnapshotsStillTrue(w, preds)
    decreases |preds|
  {
    hide Executes, LooksInMap, SnapshotOf, After;
    if preds != [] {
      var p, next := preds[0], After(w, preds[0].action);
      MoveKeepsOk(w, p.action);
      KeptIsChainIffTrue(next, preds[1..]);
      if Executes(w, p.action) {
        assert [p] + Kept(next, preds[1..]) == Kept(w, preds);
        assert [w] + ([next] + ReplayStates(next, preds[1..])) == [w] + ReplayStates(w, preds);
        ReplayLengths(next, preds[1..]);
        ChainCons(w, p, [next] + ReplayStates(next, preds[1..]), Kept(next, preds[1..]));
      } else {
        AfterFailure(w, p.action);
        assert Kept(w, preds) == Kept(next, preds[1..]);
        assert ReplayStates(w, preds) == ReplayStates(next, preds[1..]);
      }
    }
  }

  lemma {:induction false} ReplayLengths(w: World, preds: seq<Pending>)
    requires ReplayLooksInMap(w, preds)
    ensures |ReplayStates(w, preds)| == |Kept(w, preds)|
    ensures ([w] + ReplayStates(w, preds))[|Kept(w, preds)|] == Replayed(w, preds)
    decreases |preds|
  {
    hide Executes, LooksInMap, After;
    if preds != [] {
      var p, next := preds[0], After(w, preds[0].action);
      ReplayLengths(next, preds[1..]);
      if !Executes(w, p.action) {
        AfterFailure(w, p.action);
      }
    }
  }

  lemma AfterFailure(w: World, action: GameAction)
    requires LooksInMap(w, action) && !Executes(w, action)
    ensures After(w, action) == w
  {
  }

  lemma MoveKeepsOk(w: World, action: GameAction)
    requires w.Ok() && action.Move? && LooksInMap(w, action)
    ensures After(w, action).Ok()
  {
    hide HexDistance, BlockedByZoc, IsLevelFor;
    if action.unitIndex < |w.units| {
      assert w.units[action.unitIndex].Ok();
    }
  }

  lemma ChainCons(w: World, p: Pending, states: seq<World>, pending: seq<Pending>)
    requires w.Ok() && states != [] && |states| == |pending| + 1
    ensures Chain([w] + states, [p] + pending) <==> Link(w, p, states[0]) && Chain(states, pending)
  {
    hide Link;
    var ss, ps := [w] + states, [p] + pending;
    if Chain(ss, ps) {
      assert Link(ss[0], ps[0], ss[0 + 1]);
      forall i | 0 <= i < |pending|
        ensures Link(states[i], pending[i], states[i + 1])
      {
        assert Link(ss[i + 1], ps[i + 1], ss[i + 1 + 1]);
      }
      forall i | 0 <= i <= |pending|
        ensures states[i].Ok()
      {
        assert ss[i + 1].Ok();
      }
    }
    if Link(w, p, states[0]) && Chain(states, pending) {
      forall i | 0 <= i < |ps|
        ensures Link(ss[i], ps[i], ss[i + 1])
      {
        if i > 0 {
          assert Link(states[i - 1], pending[i - 1], states[i - 1 + 1]);
        }
      }
    }
  }

  /** A chain can be cut at state `k` and continued differently if and only if the continuation is a chain. */
  lemma ChainPrefix(states: seq<World>, pending: seq<Pending>, k: nat, rest: seq<World>, preds: seq<Pending>)
    requires Chain(states, pending) && k <= |pending| && |rest| == |preds| + 1 && rest[0] == states[k]
    ensures Chain(states[..k] + rest, pending[..k] + preds) <==> Chain(rest, preds)
  {
    hide Link;
    var ss, ps := states[..k] + rest, pending[..k] + preds;
    if Chain(ss, ps) {
      forall i | 0 <= i < |preds|
        ensures Link(rest[i], preds[i], rest[i + 1])
      {
        assert Link(ss[k + i], ps[k + i], ss[k + i + 1]);
      }
      forall i | 0 <= i <= |preds|
        ensures rest[i].Ok()
      {
        assert ss[k + i].Ok();
      }
    }
    if Chain(rest, preds) {
      forall i | 0 <= i < |ps|
        ensures Link(ss[i], ps[i], ss[i + 1])
      {
        if i < k {
          assert Link(states[i], pending[i], states[i + 1]);
          assert ss[i + 1] == states[i + 1];
        } else {
          assert Link(rest[i - k], preds[i - k], rest[i - k + 1]);
        }
      }
    }
  }

  /** The queue is a chain of true snapshots that ends in the client's state, for some states in between. */
  ghost predicate IsChained(w: World, pending: seq<Pending>) {
    exists ss :: Chain(ss, pending) && ss[|pending|] == w
  }

  lemma MoveCosts(w: World, p: Pending)
    requires p.action.Move? && LooksInMap(w, p.action) && Executes(w, p.action)
    ensures var i, v := p.action.unitIndex, After(w, p.action);
            && w.grid.Has(p.action.dest) && v.grid == w.grid && |v.units| == |w.units| && i < |w.units|
            && v.units[i].movementRemaining == w.units[i].movementRemaining - PropertiesOf(w.grid.At(p.action.dest)).movementCost
            && forall j :: 0 <= j < |w.units| && j != i ==> v.units[j] == w.units[j]
  {
    hide HexDistance, BlockedByZoc;
  }

  /** Same map, same number of units, and every unit has as far to go. */
  ghost predicate SameMovement(a: World, b: World) {
    && a.grid == b.grid && |a.units| == |b.units|
    && forall j :: 0 <= j < |a.units| ==> a.units[j].movementRemaining == b.units[j].movementRemaining
  }

  lemma SameMovementBefore(a: World, b: World, p: Pending)
    requires p.action.Move?
    requires LooksInMap(a, p.action) && Executes(a, p.action) && LooksInMap(b, p.action) && Executes(b, p.action)
    requires SameMovement(After(a, p.action), After(b, p.action))
    ensures SameMovement(a, b)
  {
    hide LooksInMap, Executes, After;
    MoveCosts(a, p);
    MoveCosts(b, p);
  }

  /** Any chain over the kept moves that ends where the replay ends starts with as much movement as the replay. */
  lemma {:induction false} ChainHasReplaysMovement(r: World, preds: seq<Pending>, ss: seq<World>)
    requires ReplayLooksInMap(r, preds) && forall i :: 0 <= i < |preds| ==> preds[i].action.Move?
    requires Chain(ss, Kept(r, preds)) && ss[|Kept(r, preds)|] == Replayed(r, preds)
    ensures SameMovement(ss[0], r)
    decreases |preds|
  {
    hide LooksInMap, Executes, SnapshotOf, UnitState.Ok, After;
    if preds != [] {
      var p, next := preds[0], After(r, preds[0].action);
      if Executes(r, p.action) {
        var kept := Kept(next, preds[1..]);
        assert Kept(r, preds) == [p] + kept && ss == [ss[0]] + ss[1..];
        ChainCons(ss[0], p, ss[1..], kept);
        ChainHasReplaysMovement(next, preds[1..], ss[1..]);
        SameMovementBefore(ss[0], r, p);
      } else {
        AfterFailure(r, p.action);
        hide After;
        assert Kept(r, preds) == Kept(next, preds[1..]);
        ChainHasReplaysMovement(next, preds[1..], ss);
      }
    }
  }

  /** A true snapshot of a kept move shows the movement the unit has in the replay, which a unit with lost moves
      exceeds: so if the kept moves can be chained at all, none is of such a unit. */
  lemma {:induction false} ChainedMeansUndisturbed(states: seq<World>, pending: seq<Pending>, k: nat, r: World, gone: set<nat>, ss: seq<World>)
    requires Chain(states, pending) && k <= |pending| && Parallel(states[k], r, gone) && ReplayLooksInMap(r, pending[k..])
    requires Chain(ss, Kept(r, pending[k..])) && ss[|Kept(r, pending[k..])|] == Replayed(r, pending[k..])
    ensures Undisturbed(r, pending[k..], gone)
    decreases |pending| - k
  {
    hide Executes, LooksInMap, Parallel, UnitState.Ok, After;
    if k < |pending| {
      assert Link(states[k], pending[k], states[k + 1]);
      ParallelStep(states[k], pending[k], states[k + 1], r, gone);
      var p, next, i := pending[k], After(r, pending[k].action), ActingUnit(pending[k].action);
      assert pending[k..][0] == p && pending[k..][1..] == pending[k + 1..];
      MovesOfChain(states, pending, k);
      ChainHasReplaysMovement(r, pending[k..], ss);
      if Executes(r, p.action) {
        var kept := Kept(next, pending[k + 1..]);
        assert Kept(r, pending[k..]) == [p] + kept && ss == [ss[0]] + ss[1..];
        ChainCons(ss[0], p, ss[1..], kept);
        TrueSnapshotsAgree(states[k], states[k + 1], ss[0], ss[1], r, p, gone);
        ChainedMeansUndisturbed(states, pending, k + 1, next, gone, ss[1..]);
      } else {
        AfterFailure(r, p.action);
        hide After;
        assert Kept(r, pending[k..]) == Kept(next, pending[k + 1..]);
        ChainedMeansUndisturbed(states, pending, k + 1, next, gone + {i}, ss);
      }
    }
  }

  lemma MovesOfChain(states: seq<World>, pending: seq<Pending>, k: nat)
    requires Chain(states, pending) && k <= |pending|
    ensures forall i :: 0 <= i < |pending[k..]| ==> pending[k..][i].action.Move?
  {
    hide Executes, After, LooksInMap, SnapshotOf, UnitState.Ok;
    forall i | 0 <= i < |pending[k..]|
      ensures pending[k..][i].action.Move?
    {
      assert Link(states[k + i], pending[k + i], states[k + i + 1]);
    }
  }

  lemma TrueSnapshotsAgree(orig: World, orig': World, a: World, a': World, r: World, p: Pending, gone: set<nat>)
    requires Link(orig, p, orig') && Link(a, p, a') && Parallel(orig, r, gone) && SameMovement(a, r)
    ensures ActingUnit(p.action) !in gone
  {
    hide HexDistance, BlockedByZoc;
    var i := ActingUnit(p.action);
    assert i < |orig.units| && i < |a.units|;
    assert orig.units[i].movementRemaining == p.snapshot.movementRemaining == a.units[i].movementRemaining;
  }

  lemma ChainSuffix(ss: seq<World>, pending: seq<Pending>, k: nat, preds: seq<Pending>)
    requires k <= |pending| && Chain(ss, pending[..k] + preds)
    ensures Chain(ss[k..], preds) && ss[k..][|preds|] == ss[|pending[..k] + preds|]
  {
    hide Link;
    var ps := pending[..k] + preds;
    forall i | 0 <= i < |preds|
      ensures Link(ss[k..][i], preds[i], ss[k..][i + 1])
    {
      assert Link(ss[k + i], ps[k + i], ss[k + i + 1]);
    }
  }

  /** The queue a rejection leaves is again a chain of true snapshots, ready for another rejection, if and only
      if no kept prediction moves a unit that an earlier lost one moved.  Otherwise some kept snapshot is stale,
      whatever states the queue is thought to have gone through. */
  lemma RejectKeepsChainIffUndisturbed(states: seq<World>, c: Client, k: nat)
    requires Chain(states, c.pending) && c.world == states[|c.pending|] && k < |c.pending|
    requires forall j :: 0 <= j < k ==> c.pending[j].sequenceId != c.pending[k].sequenceId
    ensures ReplayLooksInMap(states[k], c.pending[k + 1..]) && RejectLooksInMap(c, c.pending[k].sequenceId)
    ensures var after := Rejected(c, c.pending[k].sequenceId);
            IsChained(after.world, after.pending)
            <==> Undisturbed(states[k], c.pending[k + 1..], {ActingUnit(c.pending[k].action)})
  {
    RejectReplaysFromBefore(states, c, k);
    var w, later, lost := states[k], c.pending[k + 1..], {ActingUnit(c.pending[k].action)};
    ChainReplaysInMap(states, c.pending, k);
    assert Link(states[k], c.pending[k], states[k + 1]);
    ParallelStart(states[k], c.pending[k], states[k + 1]);
    hide Link, Parallel, Rejected, ReplayStates, Kept, Replayed, SnapshotsStillTrue, Undisturbed, Chain,
         ReplayLooksInMap;
    var after := Rejected(c, c.pending[k].sequenceId);
    if Undisturbed(w, later, lost) {
      ReplayStatesChain(states, c.pending, k);
    }
    if ss :| Chain(ss, after.pending) && ss[|after.pending|] == after.world {
      ChainSuffix(ss, c.pending, k, Kept(w, later));
      ChainedMeansUndisturbed(states, c.pending, k + 1, w, lost, ss[k..]);
    }
  }

  /** Undisturbed, the states of the replay make the chain. */
  lemma ReplayStatesChain(states: seq<World>, pending: seq<Pending>, k: nat)
    requires Chain(states, pending) && k < |pending| && ReplayLooksInMap(states[k], pending[k + 1..])
    requires Undisturbed(states[k], pending[k + 1..], {ActingUnit(pending[k].action)})
    ensures IsChained(Replayed(states[k], pending[k + 1..]), pending[..k] + Kept(states[k], pending[k + 1..]))
  {
    hide Link, Parallel, ReplayStates, Kept, Replayed, SnapshotsStillTrue, Undisturbed;
    var w, later, lost := states[k], pending[k + 1..], {ActingUnit(pending[k].action)};
    ReplayLengths(w, later);
    MovesOfChain(states, pending, k + 1);
    assert Link(states[k], pending[k], states[k + 1]);
    ParallelStart(states[k], pending[k], states[k + 1]);
    TrueIffUndisturbed(states, pending, k + 1, w, lost);
    KeptIsChainIffTrue(w, later);
    var rest := [w] + ReplayStates(w, later);
    ChainPrefix(states, pending, k, rest, Kept(w, later));
    var ss := states[..k] + rest;
    assert ss[|pending[..k] + Kept(w, later)|] == rest[|Kept(w, later)|];
  }

  // ---- A condition that can be read off the queue -------------------------------------------------------

  /** No two units are of factions at war. */
  ghost predicate NobodyAtWar(w: World) {
    forall i :: 0 <= i < |w.units| ==> Unopposed(w, w.units[i].factionId)
  }

  lemma PeaceIsKept(w: World, action: GameAction)
    requires NobodyAtWar(w) && action.Move? && LooksInMap(w, action)
    ensures NobodyAtWar(After(w, action))
  {
    hide HexDistance, BlockedByZoc;
  }

  lemma {:induction false} PeaceAlongChain(states: seq<World>, pending: seq<Pending>, n: nat)
    requires Chain(states, pending) && n <= |pending| && NobodyAtWar(states[0])
    ensures NobodyAtWar(states[n])
  {
    hide After, Executes, LooksInMap, NobodyAtWar, UnitState.Ok;
    if n > 0 {
      PeaceAlongChain(states, pending, n - 1);
      assert Link(states[n - 1], pending[n - 1], states[n - 1 + 1]);
      PeaceIsKept(states[n - 1], pending[n - 1].action);
    }
  }

  lemma UntouchedMoveExecutes(orig: World, p: Pending, orig': World, r: World, gone: set<nat>)
    requires Link(orig, p, orig') && Parallel(orig, r, gone) && ActingUnit(p.action) !in gone && NobodyAtWar(r)
    ensures LooksInMap(r, p.action) && Executes(r, p.action)
  {
    hide HexDistance, BlockedByZoc;
    var i := p.action.unitIndex;
    assert r.units[i] == orig.units[i];
    UnopposedMeansNoZoc(r, r.units[i].factionId, r.units[i].pos, p.action.dest);
  }

  lemma {:induction false} UntouchedMovesReplay(states: seq<World>, pending: seq<Pending>, k: nat, r: World, gone: set<nat>)
    requires Chain(states, pending) && k <= |pending| && Parallel(states[k], r, gone) && ReplayLooksInMap(r, pending[k..])
    requires NobodyAtWar(r) && forall j :: k <= j < |pending| ==> ActingUnit(pending[j].action) !in gone
    ensures Kept(r, pending[k..]) == pending[k..] && Undisturbed(r, pending[k..], gone)
    decreases |pending| - k
  {
    hide After, Executes, LooksInMap, Parallel, NobodyAtWar, SnapshotOf, UnitState.Ok;
    if k < |pending| {
      assert Link(states[k], pending[k], states[k + 1]);
      var p := pending[k];
      UntouchedMoveExecutes(states[k], p, states[k + 1], r, gone);
      ParallelStep(states[k], p, states[k + 1], r, gone);
      PeaceIsKept(r, p.action);
      assert pending[k..][0] == p && pending[k..][1..] == pending[k + 1..];
      UntouchedMovesReplay(states, pending, k + 1, After(r, p.action), gone);
    }
  }

  /** In peace, rejecting a move after which its unit has not been moved again loses no other prediction, and
      leaves a queue that can be rejected from again. */
  lemma RejectingLastMoveOfUnit(states: seq<World>, c: Client, k: nat)
    requires Chain(states, c.pending) && c.world == states[|c.pending|] && k < |c.pending| && IdsAscend(c)
    requires NobodyAtWar(states[0])
    requires forall j :: k < j < |c.pending| ==> ActingUnit(c.pending[j].action) != ActingUnit(c.pending[k].action)
    ensures RejectLooksInMap(c, c.pending[k].sequenceId)
    ensures var after := Rejected(c, c.pending[k].sequenceId);
            after.pending == RemoveAt(c.pending, k) && IsChained(after.world, after.pending)
  {
    assert Link(states[k], c.pending[k], states[k + 1]);
    ParallelStart(states[k], c.pending[k], states[k + 1]);
    PeaceAlongChain(states, c.pending, k);
    RejectReplaysFromBefore(states, c, k);
    UntouchedMovesReplay(states, c.pending, k + 1, states[k], {ActingUnit(c.pending[k].action)});
    RejectKeepsChainIffUndisturbed(states, c, k);
  }
}
