/** Whole runs of the session protocol, in terms of the events: who goes because of which disconnection, and when a
    turn is over. */
module ProtocolRuns {
  import opened Diplomacy
  import opened Worlds
  import opened Economy
  import opened Protocol

  // ---- Disconnections and timeouts -------------------------------------------------------------

  predicate IsConnected(s: State, p: PlayerId) {
    p in s.table.connections && s.table.connections[p].connected
  }

  /** Event `i` takes the connected player `p` off the line. */
  ghost predicate GoesOffline(states: seq<State>, events: seq<Event>, i: nat, p: PlayerId)
    requires IsRun(states, events) && i < |events|
  {
    events[i].Disconnect? && events[i].player == p && IsConnected(states[i], p)
  }

  /** Event `i` is a successful reconnection of `p`. */
  ghost predicate ComesBack(states: seq<State>, events: seq<Event>, i: nat, p: PlayerId)
    requires IsRun(states, events) && i < |events|
  {
    events[i].Reconnect? && events[i].player == p
    && ReconnectOutcome(states[i].table, p, events[i].faction, events[i].now) == Reconnected
  }

  /** Between `i` and `n` player `p` stays listed and never reconnects. */
  ghost predicate StaysAway(states: seq<State>, events: seq<Event>, i: nat, n: nat, p: PlayerId)
    requires IsRun(states, events) && n <= |events|
  {
    forall j :: i < j <= n ==> p in states[j].table.connections && (j < n ==> !ComesBack(states, events, j, p))
  }

  /** What one event does to the connection of a player who stays listed. */
  lemma StepOfConnection(s: State, e: Event, t: State, p: PlayerId)
    requires TablesAgree(s.table) && Step(s, e, t) && p in s.table.connections
    ensures t.table.timeout == s.table.timeout
    ensures p !in t.table.connections ==> p in t.table.eliminated && (e.CheckTimeouts? || e.Reconnect?) && !s.table.connections[p].connected
    ensures p in t.table.connections ==>
              var before, after := s.table.connections[p], t.table.connections[p];
              && after.factionId == before.factionId
              && (if e.Disconnect? && e.player == p && before.connected then !after.connected && after.disconnectTime == e.now
                  else if e.Reconnect? && e.player == p && ReconnectOutcome(s.table, p, e.faction, e.now) == Reconnected then after.connected
                  else after == before)
  {
    hide ResolveTurn, After, Executes, LooksInMap, AfterTryAdvance, UnitsWithout;
    match e
    case CheckTimeouts(now) =>
      var order: seq<PlayerId> :| ListsOverdue(s.table, now, order) && t == s.(table := EliminateAll(s.table, order));
      EliminateAllFacts(s.table, order);
    case TryAdvance(now) =>
      AdvanceIsExact(s, now);
    case _ =>
  }

  lemma RunsAgree(states: seq<State>, events: seq<Event>, n: nat)
    requires IsRun(states, events) && n < |events| && TablesAgree(states[0].table)
    ensures |states| == |events| + 1 && TablesAgree(states[n].table) && Step(states[n], events[n], states[n + 1])
  {
    hide Step, TablesAgree, Advanced;
    RunKeepsAgreement(states, events, n);
    assert Step(states[n], events[n], states[n + 1]);
  }

  lemma {:induction false} TimeoutIsFixed(states: seq<State>, events: seq<Event>, n: nat)
    requires IsRun(states, events) && n <= |events| && TablesAgree(states[0].table)
    ensures states[n].table.timeout == states[0].table.timeout
  {
    hide Step, TablesAgree;
    if n > 0 {
      TimeoutIsFixed(states, events, n - 1);
      RunsAgree(states, events, n - 1);
      TimeoutKept(states[n - 1], events[n - 1], states[n]);
    }
  }

  lemma TimeoutKept(s: State, e: Event, t: State)
    requires TablesAgree(s.table) && Step(s, e, t)
    ensures t.table.timeout == s.table.timeout
  {
    hide ResolveTurn, After, Executes, LooksInMap, AfterTryAdvance, UnitsWithout;
    match e
    case CheckTimeouts(now) =>
      var order: seq<PlayerId> :| ListsOverdue(s.table, now, order) && t == s.(table := EliminateAll(s.table, order));
      EliminateAllFacts(s.table, order);
    case TryAdvance(now) =>
      AdvanceIsExact(s, now);
    case _ =>
  }

  /** From going offline on, as long as the player stays away, the table remembers when that was. */
  lemma {:induction false} OfflineSince(states: seq<State>, events: seq<Event>, i: nat, n: nat, p: PlayerId)
    requires IsRun(states, events) && i < n <= |events| && TablesAgree(states[0].table)
    requires GoesOffline(states, events, i, p) && StaysAway(states, events, i, n, p)
    ensures p in states[n].table.connections
    ensures states[n].table.connections[p]
            == ConnectionInfo(states[i].table.connections[p].factionId, false, events[i].now)
  {
    hide Step, TablesAgree, IsRun;
    RunsAgree(states, events, n - 1);
    assert p in states[n].table.connections;
    if n - 1 > i {
      OfflineSince(states, events, i, n - 1, p);
      assert !ComesBack(states, events, n - 1, p);
    }
    StepOfConnection(states[n - 1], events[n - 1], states[n], p);
  }

  /** A player whose last doing was to go offline at time `t` is eliminated by a check at time `now` exactly when
      `now - t` has reached the timeout; until then, and no longer, it can reconnect with its faction. */
  lemma OfflinePlayerGoesWhenDue(states: seq<State>, events: seq<Event>, i: nat, n: nat, p: PlayerId)
    requires IsRun(states, events) && i < n < |events| && TablesAgree(states[0].table)
    requires GoesOffline(states, events, i, p) && StaysAway(states, events, i, n, p)
    ensures events[n].CheckTimeouts? ==>
              if events[n].now - events[i].now >= states[0].table.timeout
              then p in states[n + 1].table.eliminated && p !in states[n + 1].table.players
              else p in states[n + 1].table.players && !IsConnected(states[n + 1], p)
    ensures events[n].Reconnect? && events[n].player == p && p !in states[n].table.eliminated
            && events[n].faction == states[i].table.connections[p].factionId ==>
              if events[n].now - events[i].now >= states[0].table.timeout
              then p in states[n + 1].table.eliminated && p !in states[n + 1].table.players
              else IsConnected(states[n + 1], p) && p in states[n + 1].table.players && states[n + 1].table.players[p].connected
  {
    hide TablesAgree, IsRun, ResolveTurn, After, Executes, LooksInMap, AfterTryAdvance, UnitsWithout;
    OfflineSince(states, events, i, n, p);
    TimeoutIsFixed(states, events, n);
    RunsAgree(states, events, n);
    CheckIsExact(states[n], events[n], states[n + 1], p);
  }

  lemma CheckIsExact(s: State, e: Event, t: State, p: PlayerId)
    requires TablesAgree(s.table) && Step(s, e, t) && p in s.table.connections
    ensures p in s.table.players && (p in t.table.players <==> p in t.table.connections)
    ensures e.CheckTimeouts? ==> (p !in t.table.connections <==> TimedOut(s.table.connections[p], s.table.timeout, e.now))
    ensures e.CheckTimeouts? && p !in t.table.connections ==> p in t.table.eliminated
    ensures e.CheckTimeouts? && p in t.table.connections ==> t.table.connections[p] == s.table.connections[p]
  {
    hide ResolveTurn, After, Executes, LooksInMap, AfterTryAdvance, UnitsWithout;
    StepKeepsAgreement(s, e, t);
    if e.CheckTimeouts? {
      var order: seq<PlayerId> :| ListsOverdue(s.table, e.now, order) && t == s.(table := EliminateAll(s.table, order));
      EliminateAllFacts(s.table, order);
    }
  }

  /** Whoever is connected at the start and not eliminated so far is connected, or went offline and has stayed away. */
  lemma {:induction false} ConnectedOrOffline(states: seq<State>, events: seq<Event>, n: nat, p: PlayerId) returns (i: nat)
    requires IsRun(states, events) && n <= |events| && TablesAgree(states[0].table)
    requires IsConnected(states[0], p) && p !in states[n].table.eliminated
    ensures IsConnected(states[n], p)
            || (i < n && GoesOffline(states, events, i, p) && StaysAway(states, events, i, n, p) && p in states[n].table.connections)
  {
    hide Step, TablesAgree, IsRun, ReconnectOutcome;
    i := 0;
    if n > 0 {
      RunsAgree(states, events, n - 1);
      StepKeepsAgreement(states[n - 1], events[n - 1], states[n]);
      i := ConnectedOrOffline(states, events, n - 1, p);
      var wasConnected := IsConnected(states[n - 1], p);
      StepOfConnection(states[n - 1], events[n - 1], states[n], p);
      if wasConnected {
        i := n - 1;
      }
    }
  }

  /** Nobody goes without cause: a player connected at the start and newly eliminated by event `n` went offline in an
      event `i` before, at least the timeout earlier, and did not reconnect in between. */
  lemma EliminationHasACause(states: seq<State>, events: seq<Event>, n: nat, p: PlayerId) returns (i: nat)
    requires IsRun(states, events) && n < |events| && TablesAgree(states[0].table)
    requires IsConnected(states[0], p) && p in states[n + 1].table.eliminated - states[n].table.eliminated
    ensures i < n && GoesOffline(states, events, i, p) && StaysAway(states, events, i, n, p)
    ensures events[n].CheckTimeouts? || (events[n].Reconnect? && events[n].player == p)
    ensures events[n].now - events[i].now >= states[0].table.timeout
  {
    hide Step, TablesAgree, IsRun, ReconnectOutcome;
    i := ConnectedOrOffline(states, events, n, p);
    RunsAgree(states, events, n);
    TimeoutIsFixed(states, events, n);
    EliminationIsDue(states[n], events[n], states[n + 1], p);
    EliminatedByOwnEvent(states[n], events[n], states[n + 1], p);
    OfflineSince(states, events, i, n, p);
  }

  lemma EliminatedByOwnEvent(s: State, e: Event, t: State, p: PlayerId)
    requires Step(s, e, t) && p in t.table.eliminated - s.table.eliminated
    ensures e.Reconnect? ==> e.player == p
  {
    hide ResolveTurn, After, Executes, LooksInMap, UnitsWithout;
  }

  /** A reconnection that is no business of an absent player changes nothing: of an eliminated or unknown one, under
      another faction, or of one that is connected. */
  lemma OtherReconnectionsChangeNothing(s: State, p: PlayerId, f: FactionId, now: real, t: State)
    requires Step(s, Reconnect(p, f, now), t)
    requires p in s.table.eliminated || p !in s.table.connections || s.table.connections[p].factionId != f || IsConnected(s, p)
    ensures t == s
  {
  }

  // ---- When a turn is over -----------------------------------------------------------------------

  /** Event `i` ends the turn of a player of the session. */
  ghost predicate EndsTurn(states: seq<State>, events: seq<Event>, i: nat)
    requires IsRun(states, events) && i < |events|
  {
    events[i].EndTurn? && events[i].player in states[i].table.players
  }

  /** The turn that state 0 is the start of, at time `start`, is still on after `n` events. */
  ghost predicate SameTurn(states: seq<State>, events: seq<Event>, n: nat, start: real)
    requires IsRun(states, events) && n <= |events|
  {
    && states[0].clock == Started(states[0].config, start)
    && forall j :: 0 <= j < n ==> !events[j].StartTurn? && !Advanced(states[j], events[j])
  }

  /** Event `i` is the first to end anybody's turn. */
  ghost predicate IsFirstEnd(states: seq<State>, events: seq<Event>, i: int)
    requires IsRun(states, events)
  {
    0 <= i < |events| && EndsTurn(states, events, i) && forall j :: 0 <= j < i ==> !EndsTurn(states, events, j)
  }

  lemma StepOfClock(s: State, e: Event, t: State)
    requires Step(s, e, t) && !e.StartTurn? && !Advanced(s, e)
    ensures t.config == s.config && t.clock.deadline == s.clock.deadline && t.clock.inProgress == s.clock.inProgress
    ensures if e.EndTurn? && e.player in s.table.players && !s.clock.graceActive && s.config.gracePeriodSeconds > 0.0
            then t.clock.graceActive && t.clock.graceDeadline == e.now + s.config.gracePeriodSeconds
            else t.clock.graceActive == s.clock.graceActive && t.clock.graceDeadline == s.clock.graceDeadline
  {
    hide ResolveTurn, After, Executes, LooksInMap, AfterTryAdvance, AdvanceCondition;
    if e.TryAdvance? {
      AdvanceIsExact(s, e.now);
    }
  }

  lemma {:induction false} ClockOfTurn(states: seq<State>, events: seq<Event>, n: nat, start: real)
    requires IsRun(states, events) && n <= |events| && SameTurn(states, events, n, start)
    ensures var c, config := states[n].clock, states[0].config;
            && states[n].config == config && c.inProgress && c.deadline == start + config.turnDurationSeconds
            && (forall i :: i < n && IsFirstEnd(states, events, i) && config.gracePeriodSeconds > 0.0 ==>
                  c.graceActive && c.graceDeadline == events[i].now + config.gracePeriodSeconds)
            && (c.graceActive ==> config.gracePeriodSeconds > 0.0 && exists i :: i < n && IsFirstEnd(states, events, i))
  {
    hide Step, Advanced;
    if n > 0 {
      ClockOfTurn(states, events, n - 1, start);
      assert Step(states[n - 1], events[n - 1], states[n - 1 + 1]);
      StepOfClock(states[n - 1], events[n - 1], states[n]);
      var _ := FirstEndSoFar(states, events, n);
    }
  }

  lemma {:induction false} FirstEndSoFar(states: seq<State>, events: seq<Event>, n: nat) returns (i: int)
    requires IsRun(states, events) && n <= |events|
    ensures if forall j :: 0 <= j < n ==> !EndsTurn(states, events, j) then i == -1 else i < n && IsFirstEnd(states, events, i)
  {
    i := -1;
    if n > 0 {
      i := FirstEndSoFar(states, events, n - 1);
      if i == -1 && EndsTurn(states, events, n - 1) {
        i := n - 1;
      }
    }
  }

  /** A turn is over when its duration has passed since its start, or when the period of grace has passed since
      the first player ended it; later endings do not count, nor does a period of grace of zero. */
  lemma TurnIsOverWhen(states: seq<State>, events: seq<Event>, n: nat, start: real, now: real)
    requires IsRun(states, events) && n <= |events| && SameTurn(states, events, n, start)
    ensures Expired(states[n].clock, now)
            <==> || now >= start + states[0].config.turnDurationSeconds
                 || exists i :: i < n && IsFirstEnd(states, events, i) && states[0].config.gracePeriodSeconds > 0.0
                                && now >= events[i].now + states[0].config.gracePeriodSeconds
  {
    hide Step, Advanced, EndsTurn, SameTurn;
    ClockOfTurn(states, events, n, start);
  }

  /** An attempt raises the turn number, by one, exactly when a turn is in progress that somebody plays and every
      connected player has ended it or its time is up; nobody is waited for who is not connected. */
  lemma TurnAdvancesIff(s: State, now: real, t: State)
    requires Step(s, TryAdvance(now), t)
    ensures t.table.world.turn == s.table.world.turn + 1
            <==> && s.clock.inProgress && s.table.players != map[]
                 && ((forall p :: p in s.table.players && s.table.players[p].connected ==> s.table.players[p].endedTurn)
                     || now >= s.clock.deadline || (s.clock.graceActive && now >= s.clock.graceDeadline))
  {
    hide ResolveTurn, AfterTryAdvance;
    AdvanceIsExact(s, now);
  }

  /** Ending the turn is everybody's own doing: the flag of that player is raised, and of nobody else. */
  lemma EndingIsOnesOwn(s: State, p: PlayerId, now: real, t: State)
    requires Step(s, EndTurn(p, now), t)
    ensures t.table == s.table.(players := t.table.players) && t.table.players.Keys == s.table.players.Keys
    ensures forall q :: q in s.table.players ==>
              t.table.players[q] == if q == p then s.table.players[q].(endedTurn := true) else s.table.players[q]
  {
  }

  /** The turn waits for whoever joins: after a registration of an unknown player it does not advance before its
      time is up, until that player ends it too. */
  lemma TurnWaitsForNewcomer(s: State, p: PlayerId, f: FactionId, t: State, now: real, u: State)
    requires TablesAgree(s.table) && p !in s.table.players && Step(s, Register(p, f), t) && Step(t, TryAdvance(now), u)
    ensures p in t.table.players && t.table.players[p].factionId == f && IsConnected(t, p)
    ensures !Expired(t.clock, now) ==> u == t
  {
    hide ResolveTurn, AfterTryAdvance;
    AdvanceIsExact(t, now);
  }
}
