/**
 The session protocol as values: who plays, who is connected, whose turn has ended, and when it advances.

 The classes in `Sessions` are proved to follow these functions; runs of events are about them.
 */
module Protocol {
  import opened Common
  import opened Diplomacy
  import opened Units
  import opened Worlds
  import opened Economy

  type PlayerId = nat

  datatype PlayerInfo = PlayerInfo(factionId: FactionId, connected: bool, endedTurn: bool)

  type Players = map<PlayerId, PlayerInfo>

  datatype ConnectionInfo = ConnectionInfo(factionId: FactionId, connected: bool, disconnectTime: real)

  type Connections = map<PlayerId, ConnectionInfo>

  datatype TurnConfig = TurnConfig(turnDurationSeconds: real, gracePeriodSeconds: real)

  datatype TurnClock = TurnClock(deadline: real, graceDeadline: real, inProgress: bool, graceActive: bool, ready: set<PlayerId>)

  // ---- The session ---------------------------------------------------------------------------

  /** There are players, and every connected one has ended the turn. */
  predicate AllEnded(players: Players) {
    players != map[] && forall p | p in players :: !players[p].connected || players[p].endedTurn
  }

  function WithEnded(players: Players, who: set<PlayerId>): (r: Players)
    ensures r.Keys == players.Keys
  {
    map p | p in players :: if p in who then players[p].(endedTurn := true) else players[p]
  }

  function FlagsCleared(players: Players): (r: Players)
    ensures r.Keys == players.Keys
  {
    map p | p in players :: players[p].(endedTurn := false)
  }

  function WithConnected(players: Players, p: PlayerId, connected: bool): Players {
    if p in players then players[p := players[p].(connected := connected)] else players
  }

  function Laggards(players: Players): set<PlayerId> {
    set p | p in players && players[p].connected && !players[p].endedTurn
  }

  // ---- Actions ---------------------------------------------------------------------------------

  datatype ActionResult = Success | InvalidPlayer | ActionFailed

  /** What handing in an action does to the game: only the player's existence is checked. */
  ghost function AfterApply(players: Players, w: World, p: PlayerId, action: GameAction): World
    requires LooksInMap(w, action)
  {
    if p in players then After(w, action) else w
  }

  ghost function ApplyOutcome(players: Players, w: World, p: PlayerId, action: GameAction): ActionResult
    requires LooksInMap(w, action)
  {
    if p !in players then InvalidPlayer else if Executes(w, action) then Success else ActionFailed
  }

  /** Any two players in the session, of whatever factions, can make a unit do exactly the same. */
  lemma OwnershipIsNotChecked(players: Players, w: World, p: PlayerId, q: PlayerId, action: GameAction)
    requires LooksInMap(w, action) && (p in players <==> q in players)
    ensures AfterApply(players, w, p, action) == AfterApply(players, w, q, action)
    ensures ApplyOutcome(players, w, p, action) == ApplyOutcome(players, w, q, action)
    ensures ApplyOutcome(players, w, p, action) == Success <==> p in players && Executes(w, action)
  {
  }

  // ---- The turn clock --------------------------------------------------------------------------

  function Started(config: TurnConfig, now: real): TurnClock {
    TurnClock(now + config.turnDurationSeconds, 0.0, true, false, {})
  }

  predicate Expired(clock: TurnClock, now: real) {
    clock.inProgress && (now >= clock.deadline || (clock.graceActive && now >= clock.graceDeadline))
  }

  function ClockAfterEndTurn(clock: TurnClock, config: TurnConfig, p: PlayerId, now: real): TurnClock {
    var c := clock.(ready := clock.ready + {p});
    if !c.graceActive && config.gracePeriodSeconds > 0.0
    then c.(graceActive := true, graceDeadline := now + config.gracePeriodSeconds)
    else c
  }

  // ---- Elimination -----------------------------------------------------------------------------

  /** The units of every other faction, in order. */
  function UnitsWithout(units: seq<UnitState>, f: FactionId): seq<UnitState> {
    if units == [] then []
    else
      var rest := UnitsWithout(units[1..], f);
      if units[0].factionId == f then rest else [units[0]] + rest
  }

  predicate TimedOut(info: ConnectionInfo, timeout: real, now: real) {
    !info.connected && now - info.disconnectTime >= timeout
  }

  // ---- The player tables -------------------------------------------------------------------------

  /** What the session and the reconnection manager share: the game, both tables, and who is out. */
  datatype Table = Table(
    world: World, players: Players, connections: Connections, eliminated: set<PlayerId>, timeout: real)

  datatype ReconnectResult = Reconnected | UnknownPlayer | AlreadyConnected | ReconnectTimedOut

  function Registered(s: Table, p: PlayerId, f: FactionId): Table {
    s.(players := if p in s.players then s.players else s.players[p := PlayerInfo(f, true, false)],
       connections := if p in s.connections then s.connections else s.connections[p := ConnectionInfo(f, true, 0.0)])
  }

  function Disconnected(s: Table, p: PlayerId, now: real): Table {
    if p !in s.connections || !s.connections[p].connected then s
    else s.(connections := s.connections[p := s.connections[p].(connected := false, disconnectTime := now)],
            players := WithConnected(s.players, p, false))
  }

  /** Player `p` is dropped from both tables, and its faction's units from the map. */
  function Eliminate(s: Table, p: PlayerId): Table
    requires p in s.connections
  {
    s.(world := s.world.(units := UnitsWithout(s.world.units, s.connections[p].factionId)),
       players := s.players - {p}, connections := s.connections - {p}, eliminated := s.eliminated + {p})
  }

  function ReconnectOutcome(s: Table, p: PlayerId, f: FactionId, now: real): ReconnectResult {
    if p in s.eliminated then ReconnectTimedOut
    else if p !in s.connections || s.connections[p].factionId != f then UnknownPlayer
    else if s.connections[p].connected then AlreadyConnected
    else if now - s.connections[p].disconnectTime >= s.timeout then ReconnectTimedOut
    else Reconnected
  }

  function AfterReconnect(s: Table, p: PlayerId, f: FactionId, now: real): Table {
    match ReconnectOutcome(s, p, f, now)
    case Reconnected =>
      s.(connections := s.connections[p := s.connections[p].(connected := true)], players := WithConnected(s.players, p, true))
    case ReconnectTimedOut =>
      if p in s.eliminated then s else Eliminate(s, p)
    case _ => s
  }

  function Overdue(s: Table, now: real): set<PlayerId> {
    set p | p in s.connections && TimedOut(s.connections[p], s.timeout, now)
  }

  /** The overdue players, each once, in some order. */
  ghost predicate ListsOverdue(s: Table, now: real, order: seq<PlayerId>) {
    NoDuplicates(order) && forall p :: p in order <==> p in Overdue(s, now)
  }

  /** `order` eliminated one after the other: the table is walked in an unspecified order. */
  function EliminateAll(s: Table, order: seq<PlayerId>): Table {
    if order == [] then s
    else
      var t := EliminateAll(s, order[..|order| - 1]);
      var p := order[|order| - 1];
      if p in t.connections then Eliminate(t, p) else t
  }

  // ---- Advancing the turn ------------------------------------------------------------------------

  datatype State = State(table: Table, clock: TurnClock, config: TurnConfig)

  predicate AdvanceCondition(players: Players, clock: TurnClock, now: real) {
    clock.inProgress && players != map[] && (AllEnded(players) || Expired(clock, now))
  }

  /** Past the deadline the laggards are ended by force, and then the session decides. */
  function PlayersAtAdvance(players: Players, clock: TurnClock, now: real): Players {
    if Expired(clock, now) && !AllEnded(players) then WithEnded(players, Laggards(players)) else players
  }

  function AfterTryAdvance(s: State, now: real): State {
    var before := s.table.players;
    if !s.clock.inProgress || (!AllEnded(before) && !Expired(s.clock, now)) then s
    else
      var players := PlayersAtAdvance(before, s.clock, now);
      if AllEnded(players) then
        State(s.table.(world := ResolveTurn(s.table.world, None).world, players := FlagsCleared(players)),
              Started(s.config, now), s.config)
      else s.(table := s.table.(players := players))
  }

  // ---- Events --------------------------------------------------------------------------------------

  datatype Event =
    | Register(player: PlayerId, faction: FactionId)
    | Disconnect(player: PlayerId, now: real)
    | Reconnect(player: PlayerId, faction: FactionId, now: real)
    | CheckTimeouts(now: real)
    | Act(player: PlayerId, action: GameAction)
    | StartTurn(now: real)
    | EndTurn(player: PlayerId, now: real)
    | TryAdvance(now: real)

  /** The states an event can lead to: one, but for the order in which overdue players go. */
  ghost predicate Step(s: State, e: Event, t: State) {
    match e
    case Register(p, f) => t == s.(table := Registered(s.table, p, f))
    case Disconnect(p, now) => t == s.(table := Disconnected(s.table, p, now))
    case Reconnect(p, f, now) => t == s.(table := AfterReconnect(s.table, p, f, now))
    case CheckTimeouts(now) =>
      exists order: seq<PlayerId> :: ListsOverdue(s.table, now, order) && t == s.(table := EliminateAll(s.table, order))
    case Act(p, action) =>
      && LooksInMap(s.table.world, action)
      && t == s.(table := s.table.(world := AfterApply(s.table.players, s.table.world, p, action)))
    case StartTurn(now) => t == s.(clock := Started(s.config, now))
    case EndTurn(p, now) =>
      t == if p !in s.table.players then s
           else s.(table := s.table.(players := WithEnded(s.table.players, {p})),
                   clock := ClockAfterEndTurn(s.clock, s.config, p, now))
    case TryAdvance(now) => t == AfterTryAdvance(s, now)
  }

  ghost predicate Advanced(s: State, e: Event) {
    e.TryAdvance? && AdvanceCondition(s.table.players, s.clock, e.now)
  }

  ghost predicate IsRun(states: seq<State>, events: seq<Event>) {
    |states| == |events| + 1 && forall i :: 0 <= i < |events| ==> Step(states[i], events[i], states[i + 1])
  }

  /** Both managers list the same players and agree on who is connected. */
  ghost predicate TablesAgree(s: Table) {
    && s.players.Keys == s.connections.Keys
    && forall p :: p in s.players ==> s.players[p].connected == s.connections[p].connected
                                      && s.players[p].factionId == s.connections[p].factionId
  }

  function Members(order: seq<PlayerId>): set<PlayerId> {
    set p | p in order
  }

  /** What eliminating the players of `gone` has done to a table. */
  ghost predicate IsEliminated(s: Table, t: Table, gone: set<PlayerId>) {
    && TablesAgree(t) && t.eliminated == s.eliminated + gone
    && t.world == s.world.(units := t.world.units)
    && t.timeout == s.timeout
    && t.players.Keys == s.players.Keys - gone
    && (forall p :: p in t.connections ==> p in s.connections && p in s.players && t.connections[p] == s.connections[p]
                                           && t.players[p] == s.players[p])
    && (forall p, i :: p in gone && 0 <= i < |t.world.units| ==> p in s.connections && t.world.units[i].factionId != s.connections[p].factionId)
    && (forall u :: u in t.world.units ==> u in s.world.units)
    && (forall u :: u in s.world.units && (forall p :: p in gone && p in s.connections ==> s.connections[p].factionId != u.factionId)
                    ==> u in t.world.units)
  }

  lemma IsEliminatedStep(s: Table, t: Table, gone: set<PlayerId>, p: PlayerId)
    requires TablesAgree(s) && IsEliminated(s, t, gone) && p in s.connections && p !in gone
    ensures p in t.connections && IsEliminated(s, Eliminate(t, p), gone + {p})
  {
    hide UnitsWithout;
    var f, after := s.connections[p].factionId, Eliminate(t, p);
    UnitsWithoutFacts(t.world.units, f);
    assert p in t.players.Keys;
    assert after.eliminated == s.eliminated + (gone + {p});
    assert after.players.Keys == s.players.Keys - (gone + {p});
    assert after.connections.Keys == t.connections.Keys - {p};
    forall q, i | q in gone + {p} && 0 <= i < |after.world.units|
      ensures q in s.connections && after.world.units[i].factionId != s.connections[q].factionId
    {
      assert after.world.units[i] in t.world.units;
    }
    forall u | u in s.world.units && (forall q :: q in gone + {p} && q in s.connections ==> s.connections[q].factionId != u.factionId)
      ensures u in after.world.units
    {
      assert p in gone + {p};
      assert forall q :: q in gone ==> q in gone + {p};
    }
    assert TablesAgree(after);
    assert after.world == s.world.(units := after.world.units);
    assert forall q :: q in after.connections ==> after.connections[q] == s.connections[q];
    assert forall q :: q in after.connections ==> after.players[q] == s.players[q];
    assert forall u :: u in after.world.units ==> u in s.world.units;
  }

  lemma {:induction false} EliminateAllFacts(s: Table, order: seq<PlayerId>)
    requires TablesAgree(s) && NoDuplicates(order) && forall p :: p in order ==> p in s.connections
    ensures IsEliminated(s, EliminateAll(s, order), Members(order))
  {
    hide IsEliminated, Eliminate, TablesAgree;
    if order == [] {
      NobodyEliminated(s);
      assert Members(order) == {};
    } else {
      var init, p := order[..|order| - 1], order[|order| - 1];
      assert order == init + [p];
      EliminateAllFacts(s, init);
      IsEliminatedStep(s, EliminateAll(s, init), Members(init), p);
      assert Members(order) == Members(init) + {p};
    }
  }

  lemma NobodyEliminated(s: Table)
    requires TablesAgree(s)
    ensures IsEliminated(s, s, {})
  {
  }

  lemma {:induction false} UnitsWithoutFacts(units: seq<UnitState>, f: FactionId)
    ensures forall u :: u in UnitsWithout(units, f) <==> u in units && u.factionId != f
  {
    if units != [] {
      UnitsWithoutFacts(units[1..], f);
      assert units == [units[0]] + units[1..];
    }
  }

  /** Forcing the laggards leaves nobody behind, and does nothing at all when there are no players. */
  lemma ForcedEnds(players: Players)
    ensures AllEnded(players) ==> players != map[]
    ensures players != map[] ==> AllEnded(WithEnded(players, Laggards(players)))
    ensures players == map[] ==> WithEnded(players, Laggards(players)) == players && !AllEnded(players)
  {
    AllEndedAfterForce(players);
  }

  lemma AllEndedAfterForce(players: Players)
    ensures AllEnded(WithEnded(players, Laggards(players))) <==> players != map[]
  {
    var forced := WithEnded(players, Laggards(players));
    assert forced == map[] <==> forced.Keys == {};
    assert players == map[] <==> players.Keys == {};
  }

  /** A turn advances exactly when one is in progress, there are players, and all connected players have ended
      or the time is up.  Advancing raises the turn by one, clears every flag and restarts the clock; a failed
      attempt changes nothing. */
  lemma AdvanceIsExact(s: State, now: real)
    ensures var t := AfterTryAdvance(s, now);
            && t.table.connections == s.table.connections && t.table.eliminated == s.table.eliminated
            && t.table.timeout == s.table.timeout && t.config == s.config
            && t.table.players.Keys == s.table.players.Keys
            && (forall p :: p in s.table.players ==>
                  && t.table.players[p].connected == s.table.players[p].connected
                  && t.table.players[p].factionId == s.table.players[p].factionId)
            && (if AdvanceCondition(s.table.players, s.clock, now) then
                  && t.table.world.turn == s.table.world.turn + 1
                  && (forall p :: p in t.table.players ==> !t.table.players[p].endedTurn)
                  && t.clock == Started(s.config, now)
                else t == s)
  {
    hide ResolveCities;
    AllEndedAfterForce(s.table.players);
    CitiesKeepTurn(s.table.world, |s.table.world.cities|);
    NothingIsMissing(s.table.world, |s.table.world.cities|);
    if s.table.players == map[] {
      assert WithEnded(s.table.players, Laggards(s.table.players)) == s.table.players;
    }
  }

  /** The outcome in one expression: what the turn manager is proved to do. */
  lemma TryAdvanceOutcome(s: State, now: real)
    ensures AfterTryAdvance(s, now)
            == if AdvanceCondition(s.table.players, s.clock, now) then
                 State(s.table.(world := ResolveTurn(s.table.world, None).world,
                                players := FlagsCleared(PlayersAtAdvance(s.table.players, s.clock, now))),
                       Started(s.config, now), s.config)
               else s
  {
    hide ResolveTurn;
    ForcedEnds(s.table.players);
  }

  lemma {:induction false} CitiesKeepTurn(w: World, n: nat)
    requires n <= |w.cities|
    ensures ResolveCities(w, n, None).world.turn == w.turn
  {
    hide ResolveCity;
    if n > 0 {
      CitiesKeepTurn(w, n - 1);
      CityKeepsTurn(ResolveCities(w, n - 1, None).world, n - 1);
    }
  }

  lemma CityKeepsTurn(w: World, k: nat)
    requires k < |w.cities|
    ensures ResolveCity(w, k, None).world.turn == w.turn
  {
    hide Fed, CityYields, SpawnTile;
  }

  /** A started turn expires exactly when its duration is over.  A duration of zero is no exception: such a turn
      has expired as soon as it starts, so it is not a turn without a deadline. */
  lemma StartedTurnExpires(config: TurnConfig, start: real, now: real)
    ensures Expired(Started(config, start), now) <==> now >= start + config.turnDurationSeconds
    ensures config.turnDurationSeconds == 0.0 ==> Expired(Started(config, start), start)
  {
  }

  /** Past the deadline of a turn in progress, trying to advance with at least one player always succeeds and
      clears every flag. */
  lemma DeadlineForcesAdvance(s: State, now: real)
    requires s.clock.inProgress && now >= s.clock.deadline && s.table.players != map[]
    ensures var t := AfterTryAdvance(s, now).table;
            t.world.turn == s.table.world.turn + 1 && forall p :: p in t.players ==> !t.players[p].endedTurn
  {
    AdvanceIsExact(s, now);
  }

  lemma ActionsKeepTurn(w: World, action: GameAction)
    requires LooksInMap(w, action)
    ensures After(w, action).turn == w.turn
  {
    hide Executes;
  }

  /** Every event keeps both tables in agreement and moves the turn only as a successful `TryAdvance` does. */
  lemma StepKeepsAgreement(s: State, e: Event, t: State)
    requires TablesAgree(s.table) && Step(s, e, t)
    ensures TablesAgree(t.table) && s.table.eliminated <= t.table.eliminated
    ensures t.table.world.turn == s.table.world.turn + if Advanced(s, e) then 1 else 0
  {
    hide ResolveTurn, After, Executes, LooksInMap, AfterTryAdvance, AdvanceCondition;
    match e
    case Act(p, action) => ActionsKeepTurn(s.table.world, action);
    case CheckTimeouts(now) =>
      var order: seq<PlayerId> :| ListsOverdue(s.table, now, order) && t == s.(table := EliminateAll(s.table, order));
      EliminateAllFacts(s.table, order);
    case TryAdvance(now) =>
      AdvanceIsExact(s, now);
    case _ =>
  }

  /** Whoever is newly eliminated had been disconnected for at least the timeout; the player leaves both tables
      and no unit of its faction is left. */
  lemma EliminationIsDue(s: State, e: Event, t: State, p: PlayerId)
    requires TablesAgree(s.table) && Step(s, e, t) && p in t.table.eliminated - s.table.eliminated
    ensures e.CheckTimeouts? || e.Reconnect?
    ensures p in s.table.connections && TimedOut(s.table.connections[p], s.table.timeout, e.now)
    ensures p !in t.table.players && p !in t.table.connections
    ensures forall i :: 0 <= i < |t.table.world.units| ==>
              t.table.world.units[i].factionId != s.table.connections[p].factionId
  {
    hide ResolveTurn, After, Executes, LooksInMap;
    match e
    case CheckTimeouts(now) =>
      var order: seq<PlayerId> :| ListsOverdue(s.table, now, order) && t == s.(table := EliminateAll(s.table, order));
      EliminateAllFacts(s.table, order);
    case Reconnect(q, f, now) =>
      UnitsWithoutFacts(s.table.world.units, s.table.connections[q].factionId);
    case _ =>
  }

  /** An eliminated player who is out of the session comes back in a step if and only if that step registers
      the player anew.  In particular no reconnection brings an eliminated player back. */
  lemma EliminatedStaysOut(s: State, e: Event, t: State, p: PlayerId)
    requires TablesAgree(s.table) && Step(s, e, t) && p in s.table.eliminated && p !in s.table.players
    ensures p in t.table.players <==> e.Register? && e.player == p
    ensures e.Reconnect? && e.player == p ==> t == s && ReconnectOutcome(s.table, p, e.faction, e.now) == ReconnectTimedOut
  {
    hide ResolveTurn, After, Executes, LooksInMap, AfterTryAdvance;
    match e
    case CheckTimeouts(now) =>
      var order: seq<PlayerId> :| ListsOverdue(s.table, now, order) && t == s.(table := EliminateAll(s.table, order));
      EliminateAllFacts(s.table, order);
    case TryAdvance(now) =>
      AdvanceIsExact(s, now);
    case _ =>
  }

  // ---- Whole runs ------------------------------------------------------------------------------

  /** How many of the first `n` events advanced the turn. */
  ghost function Advances(states: seq<State>, events: seq<Event>, n: nat): nat
    requires IsRun(states, events) && n <= |events|
  {
    if n == 0 then 0
    else Advances(states, events, n - 1) + if Advanced(states[n - 1], events[n - 1]) then 1 else 0
  }

  /** Along any run from agreeing tables: the tables agree throughout, the turn is the first turn plus the
      number of successful advances, and the eliminated only become more. */
  lemma {:induction false} RunKeepsAgreement(states: seq<State>, events: seq<Event>, n: nat)
    requires IsRun(states, events) && n <= |events| && TablesAgree(states[0].table)
    ensures TablesAgree(states[n].table)
    ensures states[n].table.world.turn == states[0].table.world.turn + Advances(states, events, n)
    ensures states[0].table.eliminated <= states[n].table.eliminated
  {
    hide Step, Advanced, TablesAgree;
    if n > 0 {
      RunKeepsAgreement(states, events, n - 1);
      assert Step(states[n - 1], events[n - 1], states[n - 1 + 1]);
      StepKeepsAgreement(states[n - 1], events[n - 1], states[n]);
    }
  }

  /** Over any run in which nobody registers an eliminated player, the eliminated stay out for good. */
  lemma {:induction false} EliminatedNeverReturn(states: seq<State>, events: seq<Event>, n: nat, p: PlayerId)
    requires IsRun(states, events) && n <= |events| && TablesAgree(states[0].table)
    requires p in states[0].table.eliminated && p !in states[0].table.players
    requires forall i, f :: 0 <= i < n ==> events[i] != Register(p, f)
    ensures p in states[n].table.eliminated && p !in states[n].table.players
  {
    hide Step, Advanced, TablesAgree;
    RunKeepsAgreement(states, events, n);
    if n > 0 {
      EliminatedNeverReturn(states, events, n - 1, p);
      RunKeepsAgreement(states, events, n - 1);
      assert Step(states[n - 1], events[n - 1], states[n - 1 + 1]);
      EliminatedStaysOut(states[n - 1], events[n - 1], states[n], p);
      assert events[n - 1].Register? ==> events[n - 1] != Register(p, events[n - 1].faction);
    }
  }
}
