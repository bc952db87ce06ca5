/** Disconnection, reconnection and elimination on top of the session. */
module Reconnection {
  import opened Common
  import opened Diplomacy
  import opened Units
  import R = Registry
  import opened Cities
  import opened Worlds
  import opened GameStates
  import opened Protocol
  import opened Sessions
  import opened SaveFormat
  import opened Serialization

  /** Removes every unit of a faction, dead or alive, walking backwards. */
  method EliminatePlayerUnits(state: GameState, f: FactionId)
    requires state.Valid()
    modifies state`units, state.registry`units
    ensures state.Valid()
    ensures state.View() == old(state.View()).(units := UnitsWithout(old(state.View()).units, f))
  {
    hide R.Agrees, StatesOf, CityStatesOf, R.Positions, OwnedCities, Swept, R.RemoveAt;
    ghost var before := state.View();
    var i := |state.units|;
    SweepStarts(before, f);
    while i > 0
      invariant state.Valid() && 0 <= i <= |state.units|
      invariant Swept(before, state.View(), i, f)
    {
      i := i - 1;
      SweepStep(before, state.View(), i, f);
      state.UnitStateAt(i);
      RemoveIfOwnedBy(state, i, f);
    }
    SweepEnds(before, state.View(), f);
  }

  method RemoveIfOwnedBy(state: GameState, i: nat, f: FactionId)
    requires state.Valid() && i < |state.units|
    modifies state`units, state.registry`units
    ensures state.Valid() && |state.units| >= i
    ensures var w := old(state.View());
            state.View() == if w.units[i].factionId == f then w.(units := R.RemoveAt(w.units, i)) else w
  {
    hide R.Agrees, StatesOf, CityStatesOf, R.Positions, OwnedCities;
    state.UnitStateAt(i);
    if state.units[i].factionId == f {
      var _ := state.RemoveUnit(i);
    }
  }

  /** The units from index `i` on have been swept. */
  ghost predicate Swept(before: World, now: World, i: nat, f: FactionId) {
    && i <= |before.units| && i <= |now.units|
    && now == before.(units := before.units[..i] + UnitsWithout(before.units[i..], f))
  }

  lemma SweepStarts(before: World, f: FactionId)
    ensures Swept(before, before, |before.units|, f)
  {
    assert before.units[..|before.units|] + UnitsWithout(before.units[|before.units|..], f) == before.units;
  }

  lemma SweepStep(before: World, now: World, i: nat, f: FactionId)
    requires Swept(before, now, i + 1, f)
    ensures i < |now.units|
    ensures Swept(before, if now.units[i].factionId == f then now.(units := R.RemoveAt(now.units, i)) else now, i, f)
  {
    var units := before.units;
    assert units[i..][0] == units[i] && units[i..][1..] == units[i + 1..];
    assert now.units == units[..i] + [units[i]] + UnitsWithout(units[i + 1..], f);
    assert R.RemoveAt(now.units, i) == units[..i] + UnitsWithout(units[i + 1..], f);
  }

  lemma SweepEnds(before: World, now: World, f: FactionId)
    requires Swept(before, now, 0, f)
    ensures now == before.(units := UnitsWithout(before.units, f))
  {
    assert before.units[0..] == before.units;
    assert before.units[..0] + UnitsWithout(before.units, f) == UnitsWithout(before.units, f);
  }

  class ReconnectionManager {
    const session: GameSession
    const timeout: real
    var players: Connections
    var eliminated: set<PlayerId>
    /** The message for the client that reconnected last. */
    var lastSnapshot: Option<StateMessage>

    ghost function View(): Table
      reads this, session, session.state, session.state.map_, session.state.diplomacy, session.state.units,
            session.state.cities, QueuesOf(session.state.cities)
    {
      Table(session.state.View(), session.players, players, eliminated, timeout)
    }

    constructor (session: GameSession, timeout: real)
      ensures this.session == session && this.timeout == timeout && players == map[] && eliminated == {} && lastSnapshot == None
    {
      this.session, this.timeout := session, timeout;
      players, eliminated, lastSnapshot := map[], {}, None;
    }

    method RegisterPlayer(p: PlayerId, f: FactionId) returns (added: bool)
      modifies this`players
      ensures added == (p !in old(players))
      ensures players == if added then old(players)[p := ConnectionInfo(f, true, 0.0)] else old(players)
    {
      if p in players {
        return false;
      }
      players := players[p := ConnectionInfo(f, true, 0.0)];
      return true;
    }

    method HandleDisconnect(p: PlayerId, now: real) returns (done: bool)
      requires session.state.Valid()
      modifies this`players, session`players
      ensures session.state.Valid() && View() == Disconnected(old(View()), p, now)
      ensures done == (p in old(players) && old(players)[p].connected)
    {
      hide R.Agrees, StatesOf, CityStatesOf, R.Positions, OwnedCities;
      if p !in players {
        return false;
      }
      if !players[p].connected {
        return false;
      }
      players := players[p := players[p].(connected := false, disconnectTime := now)];
      var _ := session.SetConnected(p, false);
      return true;
    }

    /** The player leaves both tables, and the faction's units leave the map. */
    method EliminatePlayer(p: PlayerId)
      requires session.state.Valid() && p in players
      modifies this`players, this`eliminated, session`players, session.state`units, session.state.registry`units
      ensures session.state.Valid() && View() == Eliminate(old(View()), p)
    {
      hide R.Agrees, StatesOf, CityStatesOf, R.Positions, OwnedCities, UnitsWithout;
      EliminatePlayerUnits(session.state, players[p].factionId);
      ForgetPlayer(p);
    }

    method ForgetPlayer(p: PlayerId)
      requires session.state.Valid() && p in players
      modifies this`players, this`eliminated, session`players
      ensures session.state.Valid()
      ensures View() == old(View()).(players := old(View()).players - {p}, connections := old(View()).connections - {p},
                                     eliminated := old(View()).eliminated + {p})
    {
      hide R.Agrees, StatesOf, CityStatesOf, R.Positions, OwnedCities, GameState.IndexAgrees;
      ghost var w := session.state.View();
      var _ := session.RemovePlayer(p);
      eliminated := eliminated + {p};
      players := players - {p};
      assert session.state.View() == w;
    }

    /** On success a message with the whole state is kept for the client.  If the state cannot be written the
        player is connected all the same, and the error is thrown. */
    method HandleReconnect(p: PlayerId, f: FactionId, now: real) returns (result: Result<ReconnectResult, SaveError>)
      requires session.state.Valid()
      modifies this`players, this`eliminated, this`lastSnapshot, session`players, session.state`units, session.state.registry`units
      ensures session.state.Valid() && View() == AfterReconnect(old(View()), p, f, now)
      ensures var outcome, message := ReconnectOutcome(old(View()), p, f, now), Write(View().world);
              if outcome == Reconnected && message.Err? then result == Err(message.error) && lastSnapshot == old(lastSnapshot)
              else
                && result == Ok(outcome)
                && lastSnapshot == if outcome == Reconnected then Some(message.value) else old(lastSnapshot)
    {
      hide R.Agrees, StatesOf, CityStatesOf, R.Positions, OwnedCities, Eliminate, Write, GameState.IndexAgrees;
      var outcome := TryReconnect(p, f, now);
      if outcome != Reconnected {
        return Ok(outcome);
      }
      var message := WriteSnapshot();
      if message.Err? {
        return Err(message.error);
      }
      return Ok(Reconnected);
    }

    method WriteSnapshot() returns (message: Result<StateMessage, SaveError>)
      requires session.state.Valid()
      modifies this`lastSnapshot
      ensures session.state.Valid() && View() == old(View()) && message == Write(View().world)
      ensures lastSnapshot == if message.Ok? then Some(message.value) else old(lastSnapshot)
    {
      hide R.Agrees, StatesOf, CityStatesOf, R.Positions, OwnedCities, Write, GameState.IndexAgrees;
      ghost var w := session.state.View();
      message := SerializeGameState(session.state);
      assert session.state.View() == w;
      if message.Ok? {
        lastSnapshot := Some(message.value);
      }
    }

    method TryReconnect(p: PlayerId, f: FactionId, now: real) returns (result: ReconnectResult)
      requires session.state.Valid()
      modifies this`players, this`eliminated, session`players, session.state`units, session.state.registry`units
      ensures session.state.Valid() && View() == AfterReconnect(old(View()), p, f, now)
      ensures result == ReconnectOutcome(old(View()), p, f, now)
    {
      hide R.Agrees, StatesOf, CityStatesOf, R.Positions, OwnedCities, Eliminate;
      if p in eliminated {
        return ReconnectTimedOut;
      }
      if p !in players {
        return UnknownPlayer;
      }
      var info := players[p];
      if info.factionId != f {
        return UnknownPlayer;
      }
      if info.connected {
        return AlreadyConnected;
      }
      var elapsed := now - info.disconnectTime;
      if elapsed >= timeout {
        EliminatePlayer(p);
        return ReconnectTimedOut;
      }
      MarkConnected(p);
      return Reconnected;
    }

    method MarkConnected(p: PlayerId)
      requires session.state.Valid() && p in players
      modifies this`players, session`players
      ensures session.state.Valid()
      ensures View() == old(View()).(connections := old(players)[p := old(players)[p].(connected := true)],
                                     players := WithConnected(old(session.players), p, true))
    {
      hide R.Agrees, StatesOf, CityStatesOf, R.Positions, OwnedCities;
      players := players[p := players[p].(connected := true)];
      var _ := session.SetConnected(p, true);
    }

    /** Walks the table in an unspecified order and eliminates every overdue player. */
    method CheckAllTimeouts(now: real) returns (timedOut: seq<PlayerId>)
      requires session.state.Valid()
      modifies this`players, this`eliminated, session`players, session.state`units, session.state.registry`units
      ensures session.state.Valid()
      ensures ListsOverdue(old(View()), now, timedOut) && View() == EliminateAll(old(View()), timedOut)
    {
      hide R.Agrees, StatesOf, CityStatesOf, R.Positions, OwnedCities, Eliminate, EliminateAll;
      timedOut := [];
      ghost var before := View();
      var todo := players.Keys;
      NobodyEliminatedYet(before);
      while todo != {}
        invariant session.state.Valid() && todo <= before.connections.Keys && NoDuplicates(timedOut)
        invariant forall p :: p in timedOut <==> p in before.connections && p !in todo && TimedOut(before.connections[p], timeout, now)
        invariant View() == EliminateAll(before, timedOut)
        invariant forall p :: p in todo ==> p in players && players[p] == before.connections[p]
      {
        var p :| p in todo;
        todo := todo - {p};
        if TimedOut(players[p], timeout, now) {
          OneMoreEliminated(before, timedOut, p);
          KeepsOthers(View(), p);
          EliminatePlayer(p);
          timedOut := timedOut + [p];
        }
      }
    }
  }

  lemma NobodyEliminatedYet(s: Table)
    ensures EliminateAll(s, []) == s
  {
  }

  lemma OneMoreEliminated(s: Table, order: seq<PlayerId>, p: PlayerId)
    requires p in EliminateAll(s, order).connections
    ensures EliminateAll(s, order + [p]) == Eliminate(EliminateAll(s, order), p)
  {
    assert (order + [p])[..|order|] == order;
  }

  lemma KeepsOthers(s: Table, p: PlayerId)
    requires p in s.connections
    ensures forall q :: q in s.connections && q != p ==>
              q in Eliminate(s, p).connections && Eliminate(s, p).connections[q] == s.connections[q]
  {
  }
}
