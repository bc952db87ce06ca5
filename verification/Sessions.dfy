/** The session and the two managers on top of it. */
module Sessions {
  import opened Common
  import opened Diplomacy
  import opened Units
  import opened Registry
  import opened Cities
  import opened Worlds
  import opened GameStates
  import opened Economy
  import opened TurnResolver
  import opened Actions
  import opened Protocol

  class GameSession {
    const state: GameState
    var players: Players

    constructor (state: GameState)
      ensures this.state == state && players == map[]
    {
      this.state := state;
      players := map[];
    }

    method AddPlayer(p: PlayerId, f: FactionId) returns (added: bool)
      modifies this`players
      ensures added == (p !in old(players))
      ensures players == if added then old(players)[p := PlayerInfo(f, true, false)] else old(players)
    {
      if p in players {
        return false;
      }
      players := players[p := PlayerInfo(f, true, false)];
      return true;
    }

    method RemovePlayer(p: PlayerId) returns (removed: bool)
      modifies this`players
      ensures removed == (p in old(players)) && players == old(players) - {p}
    {
      removed := p in players;
      players := players - {p};
    }

    method SetConnected(p: PlayerId, connected: bool) returns (found: bool)
      modifies this`players
      ensures found == (p in old(players)) && players == WithConnected(old(players), p, connected)
    {
      if p !in players {
        return false;
      }
      players := players[p := players[p].(connected := connected)];
      return true;
    }

    method EndTurn(p: PlayerId) returns (found: bool)
      modifies this`players
      ensures found == (p in old(players)) && players == WithEnded(old(players), {p})
    {
      if p !in players {
        assert players == WithEnded(players, {p});
        return false;
      }
      players := players[p := players[p].(endedTurn := true)];
      return true;
    }

    predicate AllPlayersEndedTurn()
      reads this
    {
      AllEnded(players)
    }

    /** Only the player's existence is checked; the action checks the rest itself. */
    method ApplyAction(p: PlayerId, action: GameAction) returns (r: ActionResult)
      requires state.Valid() && LooksInMap(state.View(), action)
      modifies state`units, state.registry`units, state.units`row, state.units`col,
               state.units`health, state.units`movementRemaining, state.units`experience, state.units`level, state.units`justLeveledUp,
               state.cities`factionId, QueuesOf(state.cities)`queue, QueuesOf(state.cities)`accumulated
      ensures state.Valid()
      ensures state.View() == old(AfterApply(players, state.View(), p, action))
      ensures r == old(ApplyOutcome(players, state.View(), p, action))
    {
      hide Agrees, StatesOf, CityStatesOf, Positions, OwnedCities, Executes, After, LooksInMap, GameState.IndexAgrees;
      if p !in players {
        return InvalidPlayer;
      }
      var success := Execute(state, action);
      return if success then Success else ActionFailed;
    }

    method ResetTurnFlags()
      modifies this`players
      ensures players == FlagsCleared(old(players))
    {
      var todo := players.Keys;
      while todo != {}
        invariant todo <= players.Keys == old(players).Keys
        invariant forall p :: p in players ==>
                    players[p] == if p in todo then old(players)[p] else FlagsCleared(old(players))[p]
      {
        var p :| p in todo;
        players := players[p := players[p].(endedTurn := false)];
        todo := todo - {p};
      }
      assert players == FlagsCleared(old(players));
    }

    /** Resolves the turn and clears the flags once every connected player has ended it. */
    method TryAdvanceTurn() returns (advanced: bool)
      requires state.Valid()
      modifies this`players, state`turn, state`factions, state`factionResources, state`units, state`buildings,
               state`nextBuildingId, state.registry`units, state.registry`buildings, state.units`movementRemaining,
               state.cities`population, state.cities`foodSurplus,
               QueuesOf(state.cities)`queue, QueuesOf(state.cities)`accumulated
      ensures state.Valid() && advanced == AllEnded(old(players))
      ensures state.View() == if advanced then ResolveTurn(old(state.View()), None).world else old(state.View())
      ensures players == if advanced then FlagsCleared(old(players)) else old(players)
    {
      if !AllPlayersEndedTurn() {
        return false;
      }
      FinishTurn();
      return true;
    }

    method FinishTurn()
      requires state.Valid()
      modifies this`players, state`turn, state`factions, state`factionResources, state`units, state`buildings,
               state`nextBuildingId, state.registry`units, state.registry`buildings, state.units`movementRemaining,
               state.cities`population, state.cities`foodSurplus,
               QueuesOf(state.cities)`queue, QueuesOf(state.cities)`accumulated
      ensures state.Valid() && state.View() == ResolveTurn(old(state.View()), None).world && players == FlagsCleared(old(players))
    {
      hide ResolveTurn, FlagsCleared, Agrees, StatesOf, CityStatesOf, Positions, OwnedCities, GameState.IndexAgrees;
      var _ := ResolveGameTurn(state, None);
      ClearFlags();
    }

    method ClearFlags()
      requires state.Valid()
      modifies this`players
      ensures state.Valid() && state.View() == old(state.View()) && players == FlagsCleared(old(players))
    {
      hide FlagsCleared, Agrees, StatesOf, CityStatesOf, Positions, OwnedCities;
      ResetTurnFlags();
    }
  }

  class TurnManager {
    const session: GameSession
    var config: TurnConfig
    var turnStartTime: real
    var deadline: real
    var graceDeadline: real
    var turnInProgress: bool
    var graceActive: bool
    var readyPlayers: set<PlayerId>

    ghost function Clock(): TurnClock
      reads this
    {
      TurnClock(deadline, graceDeadline, turnInProgress, graceActive, readyPlayers)
    }

    constructor (session: GameSession, config: TurnConfig)
      ensures this.session == session && this.config == config && Clock() == TurnClock(0.0, 0.0, false, false, {})
    {
      this.session, this.config := session, config;
      turnStartTime, deadline, graceDeadline := 0.0, 0.0, 0.0;
      turnInProgress, graceActive, readyPlayers := false, false, {};
    }

    method StartTurn(currentTime: real)
      modifies this`turnStartTime, this`deadline, this`graceDeadline, this`turnInProgress, this`graceActive, this`readyPlayers
      ensures Clock() == Started(config, currentTime)
    {
      turnStartTime := currentTime;
      deadline := currentTime + config.turnDurationSeconds;
      graceDeadline := 0.0;
      graceActive := false;
      turnInProgress := true;
      readyPlayers := {};
    }

    method PlayerEndTurn(p: PlayerId, currentTime: real) returns (known: bool)
      modifies this`turnStartTime, this`deadline, this`graceDeadline, this`turnInProgress, this`graceActive, this`readyPlayers,
               session`players
      ensures known == (p in old(session.players))
      ensures session.players == WithEnded(old(session.players), {p})
      ensures Clock() == if known then ClockAfterEndTurn(old(Clock()), config, p, currentTime) else old(Clock())
    {
      if p !in session.players {
        assert session.players == WithEnded(session.players, {p});
        return false;
      }
      var _ := session.EndTurn(p);
      readyPlayers := readyPlayers + {p};
      if !graceActive && config.gracePeriodSeconds > 0.0 {
        graceActive := true;
        graceDeadline := currentTime + config.gracePeriodSeconds;
      }
      return true;
    }

    predicate IsReady()
      reads this, session
    {
      session.AllPlayersEndedTurn()
    }

    predicate IsExpired(currentTime: real)
      reads this
      ensures IsExpired(currentTime) <==> Expired(Clock(), currentTime)
    {
      if !turnInProgress then false
      else if currentTime >= deadline then true
      else graceActive && currentTime >= graceDeadline
    }

    /** Ends the turn of every connected player who has not. */
    method ForceEndRemainingPlayers()
      modifies session`players
      ensures session.players == WithEnded(old(session.players), Laggards(old(session.players)))
    {
      ghost var before := session.players;
      var todo := session.players.Keys;
      while todo != {}
        invariant todo <= before.Keys
        invariant session.players == WithEnded(before, Laggards(before) - todo)
      {
        var p :| p in todo;
        var info := session.players[p];
        if info.connected && !info.endedTurn {
          var _ := session.EndTurn(p);
        }
        todo := todo - {p};
      }
    }

    /** The protocol state of the session and this manager, in any surroundings: `rest` supplies what only the
        reconnection manager knows. */
    ghost function StateWith(rest: Table): State
      reads this, session, session.state, session.state.map_, session.state.diplomacy, session.state.units,
            session.state.cities, QueuesOf(session.state.cities)
    {
      State(rest.(world := session.state.View(), players := session.players), Clock(), config)
    }

    /** The protocol's own step. */
    method TryAdvance(currentTime: real) returns (advanced: bool)
      requires session.state.Valid()
      modifies this`turnStartTime, this`deadline, this`graceDeadline, this`turnInProgress, this`graceActive, this`readyPlayers,
               session`players, session.state`turn, session.state`factions, session.state`factionResources,
               session.state`units, session.state`buildings, session.state`nextBuildingId, session.state.registry`units,
               session.state.registry`buildings, session.state.units`movementRemaining,
               session.state.cities`population, session.state.cities`foodSurplus,
               QueuesOf(session.state.cities)`queue, QueuesOf(session.state.cities)`accumulated
      ensures session.state.Valid()
      ensures advanced == AdvanceCondition(old(session.players), old(Clock()), currentTime)
      ensures forall rest :: StateWith(rest) == AfterTryAdvance(old(StateWith(rest)), currentTime)
    {
      hide AllEnded, WithEnded, Laggards, Agrees, StatesOf, CityStatesOf, Positions, OwnedCities,
           GameState.IndexAgrees, AfterTryAdvance, AdvanceCondition, ResolveTurn, FlagsCleared, PlayersAtAdvance,
           Started;
      ghost var players, clock, w := session.players, Clock(), session.state.View();
      advanced := AdvanceIfDue(currentTime);
      forall rest: Table
        ensures StateWith(rest) == AfterTryAdvance(State(rest.(world := w, players := players), clock, config), currentTime)
      {
        TryAdvanceOutcome(State(rest.(world := w, players := players), clock, config), currentTime);
      }
    }

    /** On success the session has resolved the turn and the next one is under way. */
    method AdvanceIfDue(currentTime: real) returns (advanced: bool)
      requires session.state.Valid()
      modifies this`turnStartTime, this`deadline, this`graceDeadline, this`turnInProgress, this`graceActive, this`readyPlayers,
               session`players, session.state`turn, session.state`factions, session.state`factionResources,
               session.state`units, session.state`buildings, session.state`nextBuildingId, session.state.registry`units,
               session.state.registry`buildings, session.state.units`movementRemaining,
               session.state.cities`population, session.state.cities`foodSurplus,
               QueuesOf(session.state.cities)`queue, QueuesOf(session.state.cities)`accumulated
      ensures session.state.Valid()
      ensures advanced == AdvanceCondition(old(session.players), old(Clock()), currentTime)
      ensures session.state.View() == if advanced then ResolveTurn(old(session.state.View()), None).world else old(session.state.View())
      ensures session.players == if advanced then FlagsCleared(PlayersAtAdvance(old(session.players), old(Clock()), currentTime))
                                 else old(session.players)
      ensures Clock() == if advanced then Started(config, currentTime) else old(Clock())
    {
      hide AllEnded, WithEnded, Laggards, Agrees, StatesOf, CityStatesOf, Positions, OwnedCities;
      ForcedEnds(session.players);
      if !turnInProgress {
        return false;
      }
      if !IsReady() && !IsExpired(currentTime) {
        return false;
      }
      ForceIfExpired(currentTime);
      advanced := AdvanceAndRestart(currentTime);
    }

    method ForceIfExpired(currentTime: real)
      requires session.state.Valid()
      modifies session`players
      ensures session.state.Valid() && session.state.View() == old(session.state.View())
      ensures session.players == PlayersAtAdvance(old(session.players), Clock(), currentTime)
    {
      hide AllEnded, WithEnded, Laggards, Agrees, StatesOf, CityStatesOf, Positions, OwnedCities;
      if IsExpired(currentTime) && !IsReady() {
        ForceEndRemainingPlayers();
      }
    }

    method AdvanceAndRestart(currentTime: real) returns (advanced: bool)
      requires session.state.Valid()
      modifies this`turnStartTime, this`deadline, this`graceDeadline, this`turnInProgress, this`graceActive, this`readyPlayers,
               session`players, session.state`turn, session.state`factions, session.state`factionResources,
               session.state`units, session.state`buildings, session.state`nextBuildingId, session.state.registry`units,
               session.state.registry`buildings, session.state.units`movementRemaining,
               session.state.cities`population, session.state.cities`foodSurplus,
               QueuesOf(session.state.cities)`queue, QueuesOf(session.state.cities)`accumulated
      ensures session.state.Valid() && advanced == AllEnded(old(session.players))
      ensures session.state.View() == if advanced then ResolveTurn(old(session.state.View()), None).world else old(session.state.View())
      ensures session.players == if advanced then FlagsCleared(old(session.players)) else old(session.players)
      ensures Clock() == if advanced then Started(config, currentTime) else old(Clock())
    {
      hide AllEnded, ResolveTurn, FlagsCleared, Agrees, StatesOf, CityStatesOf, Positions, OwnedCities,
           GameState.Valid, GameState.View;
      advanced := session.TryAdvanceTurn();
      if advanced {
        Restart(currentTime);
      }
    }

    /** The clock is set for the next turn; the game is not touched. */
    method Restart(currentTime: real)
      requires session.state.Valid()
      modifies this`turnStartTime, this`deadline, this`graceDeadline, this`turnInProgress, this`graceActive, this`readyPlayers
      ensures session.state.Valid() && session.state.View() == old(session.state.View())
      ensures Clock() == Started(config, currentTime)
    {
      hide Agrees, StatesOf, CityStatesOf, Positions, OwnedCities, GameState.IndexAgrees;
      StartTurn(currentTime);
    }
  }
}
