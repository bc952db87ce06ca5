/** The prediction manager: optimistic actions on the session's state, with rollback and replay. */
module PredictionManagers {
  import opened Common
  import opened Hex
  import opened Units
  import R = Registry
  import opened Cities
  import opened Worlds
  import opened GameStates
  import opened Actions
  import opened Protocol
  import opened Sessions
  import opened Predictions

  /** Unregisters a unit, sets its health, movement and position directly, and registers it again. */
  method RestoreUnit(state: GameState, i: nat, pos: Coord, health: int, movementRemaining: int)
    requires state.Valid() && i < |state.units|
    modifies state.registry`units, state.units`row, state.units`col, state.units`health, state.units`movementRemaining
    ensures state.Valid() && state.units == old(state.units)
    ensures state.View() == old(state.View()).(units := old(state.View()).units[i := WithSnapshot(old(state.View()).units[i], pos, health, movementRemaining)])
  {
    hide R.Agrees, CityStatesOf, R.Positions, OwnedCities, R.Registered, R.Unregistered, IsLevelFor;
    ghost var before, index := state.View(), state.registry.units;
    ghost var next := WithSnapshot(before.units[i], pos, health, movementRemaining);
    state.ValidViewIsOk();
    state.UnitsDistinct(i);
    R.PlaceRegistered(state.registry, state.units[i], pos, health, movementRemaining);
    state.Relocated(before, index, i, next);
  }

  ghost predicate NoSharedUnits(ours: seq<Unit>, theirs: seq<Unit>) {
    forall i, j :: 0 <= i < |ours| && 0 <= j < |theirs| ==> ours[i] != theirs[j]
  }

  class PredictionManager {
    const session: GameSession
    var nextSequenceId: nat
    var pending: seq<Pending>

    ghost function View(): Client
      reads this, session, session.state, session.state.map_, session.state.diplomacy, session.state.units,
            session.state.cities, QueuesOf(session.state.cities)
    {
      Client(session.state.View(), pending, nextSequenceId)
    }

    constructor (session: GameSession)
      ensures this.session == session && pending == [] && nextSequenceId == 1
    {
      this.session, pending, nextSequenceId := session, [], 1;
    }

    method CaptureSnapshot(action: GameAction) returns (snapshot: UnitSnapshot)
      requires session.state.Valid()
      ensures snapshot == SnapshotOf(session.state.View(), action)
    {
      hide R.Agrees, StatesOf, CityStatesOf, R.Positions, OwnedCities;
      var i := ActingUnit(action);
      snapshot := UnitSnapshot(i, Coord(0, 0), 0, 0, true);
      if i < |session.state.units| {
        var unit := session.state.units[i];
        session.state.UnitStateAt(i);
        snapshot := UnitSnapshot(i, unit.Pos(), unit.health, unit.movementRemaining, unit.IsAlive());
      }
    }

    method RollbackPrediction(p: Pending)
      requires session.state.Valid()
      modifies session.state.registry`units, session.state.units`row, session.state.units`col,
               session.state.units`health, session.state.units`movementRemaining
      ensures session.state.Valid() && session.state.units == old(session.state.units)
      ensures session.state.View() == RolledBack(old(session.state.View()), p.snapshot)
    {
      hide R.Agrees, StatesOf, CityStatesOf, R.Positions, OwnedCities, WithSnapshot;
      var s := p.snapshot;
      if s.unitIndex < |session.state.units| {
        RestoreUnit(session.state, s.unitIndex, s.pos, s.health, s.movementRemaining);
      }
    }

    /** Captures the acting unit, tries the action, and queues it with a fresh id if it executed. */
    method PredictAction(player: PlayerId, action: GameAction) returns (id: Option<nat>)
      requires session.state.Valid() && LooksInMap(session.state.View(), action)
      modifies this`pending, this`nextSequenceId,
               session.state`units, session.state.registry`units, session.state.units`row, session.state.units`col,
               session.state.units`health, session.state.units`movementRemaining, session.state.units`experience,
               session.state.units`level, session.state.units`justLeveledUp,
               session.state.cities`factionId, QueuesOf(session.state.cities)`queue, QueuesOf(session.state.cities)`accumulated
      ensures session.state.Valid()
      ensures View() == if player in session.players then Predicted(old(View()), action) else old(View())
      ensures id == if player in session.players && old(Executes(session.state.View(), action))
                    then Some(old(nextSequenceId)) else None
    {
      hide R.Agrees, StatesOf, CityStatesOf, R.Positions, OwnedCities, Executes, After, LooksInMap, SnapshotOf,
           GameState.Valid, GameState.View;
      FailureChangesNothing(session.state.View(), action);
      var snapshot := CaptureSnapshot(action);
      var result := session.ApplyAction(player, action);
      if result != Success {
        return None;
      }
      var seqId := Queue(action, snapshot);
      return Some(seqId);
    }

    /** Queues a prediction under the next id. */
    method Queue(action: GameAction, snapshot: UnitSnapshot) returns (seqId: nat)
      requires session.state.Valid()
      modifies this`pending, this`nextSequenceId
      ensures session.state.Valid() && seqId == old(nextSequenceId)
      ensures View() == Client(old(View()).world, old(pending) + [Pending(seqId, action, snapshot)], seqId + 1)
    {
      hide R.Agrees, StatesOf, CityStatesOf, R.Positions, OwnedCities;
      seqId := nextSequenceId;
      nextSequenceId := nextSequenceId + 1;
      pending := pending + [Pending(seqId, action, snapshot)];
    }

    method ConfirmAction(id: nat) returns (found: bool)
      requires session.state.Valid()
      modifies this`pending
      ensures session.state.Valid() && View() == Confirmed(old(View()), id)
      ensures found == (FindPending(old(pending), id) < |old(pending)|)
    {
      hide R.Agrees, StatesOf, CityStatesOf, R.Positions, OwnedCities;
      var k := FindPending(pending, id);
      if k == |pending| {
        return false;
      }
      pending := pending[..k] + pending[k + 1..];
      return true;
    }

    /** Rolls back, newest first, every prediction of the list. */
    method RollbackAll(undone: seq<Pending>)
      requires session.state.Valid()
      modifies session.state.registry`units, session.state.units`row, session.state.units`col,
               session.state.units`health, session.state.units`movementRemaining
      ensures session.state.Valid() && session.state.units == old(session.state.units)
      ensures session.state.View() == RolledBackAll(old(session.state.View()), undone)
    {
      hide R.Agrees, StatesOf, CityStatesOf, R.Positions, OwnedCities, RolledBack;
      ghost var w := session.state.View();
      var i := |undone|;
      assert undone[..i] == undone;
      while i > 0
        invariant 0 <= i <= |undone| && session.state.Valid() && session.state.units == old(session.state.units)
        invariant RolledBackAll(session.state.View(), undone[..i]) == RolledBackAll(w, undone)
      {
        i := i - 1;
        assert undone[..i + 1][..i] == undone[..i];
        RollbackPrediction(undone[i]);
      }
      assert undone[..0] == [];
    }

    /** Executes a prediction again, and queues it if it succeeds. */
    method ReapplyOne(p: Pending) returns (success: bool)
      requires session.state.Valid() && LooksInMap(session.state.View(), p.action)
      modifies this`pending,
               session.state`units, session.state.registry`units, session.state.units`row, session.state.units`col,
               session.state.units`health, session.state.units`movementRemaining, session.state.units`experience,
               session.state.units`level, session.state.units`justLeveledUp,
               session.state.cities`factionId, QueuesOf(session.state.cities)`queue, QueuesOf(session.state.cities)`accumulated
      ensures session.state.Valid() && session.state.View() == old(After(session.state.View(), p.action))
      ensures forall j :: 0 <= j < |session.state.units| ==> session.state.units[j] in old(session.state.units)
      ensures success == old(Executes(session.state.View(), p.action))
      ensures pending == if success then old(pending) + [p] else old(pending)
    {
      hide *;
      success := Execute(session.state, p.action);
      if success {
        pending := pending + [p];
      }
    }

    /** Executes the predictions again, oldest first, and queues those that succeed. */
    method Reapply(preds: seq<Pending>) returns (reapplied: nat)
      requires session.state.Valid() && ReplayLooksInMap(session.state.View(), preds)
      modifies this`pending,
               session.state`units, session.state.registry`units, session.state.units`row, session.state.units`col,
               session.state.units`health, session.state.units`movementRemaining, session.state.units`experience,
               session.state.units`level, session.state.units`justLeveledUp,
               session.state.cities`factionId, QueuesOf(session.state.cities)`queue, QueuesOf(session.state.cities)`accumulated
      ensures session.state.Valid() && session.state.View() == Replayed(old(session.state.View()), preds)
      ensures pending == old(pending) + Kept(old(session.state.View()), preds)
      ensures reapplied == |Kept(old(session.state.View()), preds)|
    {
      hide *;
      ghost var w, kept := session.state.View(), [];
      ghost var now, queued := w, pending;
      reapplied := 0;
      MidwayStart(w, preds);
      for i := 0 to |preds|
        invariant session.state.Valid() && session.state.View() == now && Midway(w, preds, i, now, kept)
        invariant forall j :: 0 <= j < |session.state.units| ==> session.state.units[j] in old(session.state.units)
        invariant reapplied == |kept|
        invariant pending == queued + kept
      {
        MidwayStep(w, preds, i, now, kept);
        var success := ReapplyOne(preds[i]);
        assert success == Executes(now, preds[i].action);
        now := After(now, preds[i].action);
        kept := if success then kept + [preds[i]] else kept;
        if success {
          reapplied := reapplied + 1;
        }
      }
      MidwayEnd(w, preds, now, kept);
    }

    method RejectAction(id: nat) returns (found: bool)
      requires session.state.Valid() && RejectLooksInMap(View(), id)
      modifies this`pending,
               session.state`units, session.state.registry`units, session.state.units`row, session.state.units`col,
               session.state.units`health, session.state.units`movementRemaining, session.state.units`experience,
               session.state.units`level, session.state.units`justLeveledUp,
               session.state.cities`factionId, QueuesOf(session.state.cities)`queue, QueuesOf(session.state.cities)`accumulated
      ensures session.state.Valid() && View() == Rejected(old(View()), id)
      ensures found == (FindPending(old(pending), id) < |old(pending)|)
    {
      hide R.Agrees, StatesOf, CityStatesOf, R.Positions, OwnedCities, RolledBackAll, Replayed, Kept,
           ReplayLooksInMap, GameState.IndexAgrees, GameState.Valid, GameState.View;
      var k := FindPending(pending, id);
      if k == |pending| {
        return false;
      }
      RejectAt(k);
      return true;
    }

    method RejectAt(k: nat)
      requires session.state.Valid() && k < |pending|
      requires ReplayLooksInMap(RolledBackAll(session.state.View(), pending[k..]), pending[k + 1..])
      modifies this`pending,
               session.state`units, session.state.registry`units, session.state.units`row, session.state.units`col,
               session.state.units`health, session.state.units`movementRemaining, session.state.units`experience,
               session.state.units`level, session.state.units`justLeveledUp,
               session.state.cities`factionId, QueuesOf(session.state.cities)`queue, QueuesOf(session.state.cities)`accumulated
      ensures session.state.Valid()
      ensures session.state.View() == Replayed(RolledBackAll(old(session.state.View()), old(pending)[k..]), old(pending)[k + 1..])
      ensures pending == old(pending)[..k] + Kept(RolledBackAll(old(session.state.View()), old(pending)[k..]), old(pending)[k + 1..])
    {
      hide R.Agrees, StatesOf, CityStatesOf, R.Positions, OwnedCities, RolledBackAll, Replayed, Kept,
           ReplayLooksInMap, GameState.IndexAgrees, GameState.Valid, GameState.View;
      var toReapply := pending[k + 1..];
      UndoFrom(k);
      var _ := Reapply(toReapply);
    }

    /** Rolls back prediction `k` and the newer ones and forgets them. */
    method UndoFrom(k: nat)
      requires session.state.Valid() && k <= |pending|
      modifies this`pending, session.state.registry`units, session.state.units`row, session.state.units`col,
               session.state.units`health, session.state.units`movementRemaining
      ensures session.state.Valid() && session.state.units == old(session.state.units)
      ensures session.state.View() == RolledBackAll(old(session.state.View()), old(pending)[k..])
      ensures pending == old(pending)[..k]
    {
      hide *;
      RollbackAll(pending[k..]);
      DropFrom(k);
    }

    method DropFrom(k: nat)
      requires session.state.Valid() && k <= |pending|
      modifies this`pending
      ensures session.state.Valid() && session.state.View() == old(session.state.View())
      ensures pending == old(pending)[..k]
    {
      hide R.Agrees, StatesOf, CityStatesOf, R.Positions, OwnedCities, GameState.IndexAgrees;
      pending := pending[..k];
    }

    method SyncUnit(server: GameState, i: nat)
      requires session.state.Valid() && i < |session.state.units| && i < |server.units|
      requires NoSharedUnits(session.state.units, server.units)
      modifies session.state.registry`units, session.state.units`row, session.state.units`col,
               session.state.units`health, session.state.units`movementRemaining
      ensures session.state.Valid() && session.state.units == old(session.state.units)
      ensures var w, su := old(session.state.View()), old(server.units[i].State());
              session.state.View() == w.(units := w.units[i := WithSnapshot(w.units[i], su.pos, su.health, su.movementRemaining)])
      ensures forall j :: 0 <= j < |server.units| ==> server.units[j].State() == old(server.units[j].State())
    {
      hide R.Agrees, StatesOf, CityStatesOf, R.Positions, OwnedCities, WithSnapshot, IsLevelFor;
      var su := server.units[i];
      RestoreUnit(session.state, i, su.Pos(), su.health, su.movementRemaining);
    }

    /** Adopts the server's turn and unit data, index by index. */
    method SyncUnits(server: GameState)
      requires session.state.Valid() && server.Valid() && server != session.state
      requires server.registry != session.state.registry && NoSharedUnits(session.state.units, server.units)
      modifies session.state`turn, session.state.registry`units, session.state.units`row, session.state.units`col,
               session.state.units`health, session.state.units`movementRemaining
      ensures session.state.Valid() && session.state.units == old(session.state.units)
      ensures session.state.View() == SyncedAll(old(session.state.View()), old(server.View()))
    {
      hide R.Agrees, StatesOf, CityStatesOf, R.Positions, OwnedCities, SyncedFirst;
      session.state.SetTurn(server.turn);
      SyncEach(server);
    }

    method SyncEach(server: GameState)
      requires session.state.Valid() && server.Valid() && server != session.state
      requires server.registry != session.state.registry && NoSharedUnits(session.state.units, server.units)
      modifies session.state.registry`units, session.state.units`row, session.state.units`col,
               session.state.units`health, session.state.units`movementRemaining
      ensures session.state.Valid() && session.state.units == old(session.state.units)
      ensures session.state.View() == SyncedFirst(old(session.state.View()), old(server.View()).units)
    {
      hide R.Agrees, StatesOf, CityStatesOf, R.Positions, OwnedCities, WithSnapshot, IsLevelFor, Synced;
      ghost var w, theirs := session.state.View(), server.View();
      var n := if |session.state.units| <= |server.units| then |session.state.units| else |server.units|;
      assert Synced(w, theirs.units, 0) == w by {
        SyncedUnits(w, theirs.units, 0);
      }
      for i := 0 to n
        invariant session.state.Valid() && session.state.units == old(session.state.units)
        invariant session.state.View() == Synced(w, theirs.units, i)
        invariant forall j :: 0 <= j < |server.units| ==> server.units[j].State() == theirs.units[j]
      {
        SyncedStep(w, theirs.units, i);
        SyncUnit(server, i);
      }
    }

    /** Adopts the server's state and replays every pending prediction on it. */
    method Reconcile(server: GameState) returns (reapplied: nat)
      requires session.state.Valid() && server.Valid() && server != session.state
      requires server.registry != session.state.registry && NoSharedUnits(session.state.units, server.units)
      requires ReconcileLooksInMap(View(), server.View())
      modifies this`pending, session.state`turn,
               session.state`units, session.state.registry`units, session.state.units`row, session.state.units`col,
               session.state.units`health, session.state.units`movementRemaining, session.state.units`experience,
               session.state.units`level, session.state.units`justLeveledUp,
               session.state.cities`factionId, QueuesOf(session.state.cities)`queue, QueuesOf(session.state.cities)`accumulated
      ensures session.state.Valid() && View() == Reconciled(old(View()), old(server.View()))
      ensures reapplied == |pending|
    {
      hide R.Agrees, StatesOf, CityStatesOf, R.Positions, OwnedCities, SyncedAll, Replayed, Kept, ReplayLooksInMap,
           NoSharedUnits, GameState.IndexAgrees, GameState.Valid, GameState.View;
      var savedPending := AdoptServer(server);
      reapplied := Reapply(savedPending);
      assert pending == Kept(SyncedAll(old(session.state.View()), old(server.View())), savedPending);
    }

    method AdoptServer(server: GameState) returns (savedPending: seq<Pending>)
      requires session.state.Valid() && server.Valid() && server != session.state
      requires server.registry != session.state.registry && NoSharedUnits(session.state.units, server.units)
      modifies this`pending, session.state`turn, session.state.registry`units, session.state.units`row, session.state.units`col,
               session.state.units`health, session.state.units`movementRemaining
      ensures session.state.Valid() && session.state.units == old(session.state.units)
      ensures session.state.View() == SyncedAll(old(session.state.View()), old(server.View()))
      ensures savedPending == old(pending) && pending == []
    {
      hide *;
      savedPending := pending;
      ForgetPending(server);
      SyncUnits(server);
    }

    method ForgetPending(server: GameState)
      requires session.state.Valid() && server.Valid()
      modifies this`pending
      ensures session.state.Valid() && session.state.View() == old(session.state.View())
      ensures server.Valid() && server.View() == old(server.View())
      ensures pending == []
    {
      hide R.Agrees, StatesOf, CityStatesOf, R.Positions, OwnedCities, GameState.IndexAgrees;
      pending := [];
    }
  }

  lemma FailureChangesNothing(w: World, action: GameAction)
    requires LooksInMap(w, action)
    ensures !Executes(w, action) ==> After(w, action) == w
  {
  }
}
