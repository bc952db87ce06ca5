/** The bounded combat log: a ring buffer that shows the newest events of a plain history. */
module CombatLogs {
  import opened Common
  import opened Hex
  import opened Terrain
  import opened Diplomacy

  datatype CombatEvent = CombatEvent(
    attackerUnitIndex: nat, defenderUnitIndex: nat, attackerFactionId: FactionId, defenderFactionId: FactionId,
    damageToDefender: int, damageToAttacker: int, defenderDied: bool, attackerDied: bool, turn: int, tile: Coord,
    defenderTerrain: TerrainType, attackerName: string, defenderName: string, attackerFactionName: string,
    defenderFactionName: string, isCaptureEvent: bool, capturedCityName: string)

  /** The `k`-th entry counted from the end, from 1. */
  function FromEnd<T>(s: seq<T>, k: nat): T
    requires 1 <= k <= |s|
  {
    s[|s| - k]
  }

  lemma SameFromEnd<T>(s: seq<T>, t: seq<T>)
    requires |s| == |t| && forall k :: 1 <= k <= |s| ==> FromEnd(s, k) == FromEnd(t, k)
    ensures s == t
  {
    forall i | 0 <= i < |s|
      ensures s[i] == t[i]
    {
      assert FromEnd(s, |s| - i) == FromEnd(t, |s| - i);
    }
  }

  /** The last `n` entries, or all of them if there are fewer. */
  function Last<T>(s: seq<T>, n: nat): (r: seq<T>)
    ensures |r| == Min(n, |s|) && forall k :: 1 <= k <= |r| ==> FromEnd(r, k) == FromEnd(s, k)
  {
    if n >= |s| then s else s[|s| - n..]
  }

  function OfTurn(events: seq<CombatEvent>, turn: int): seq<CombatEvent> {
    if events == [] then []
    else
      var rest := OfTurn(events[..|events| - 1], turn);
      var e := events[|events| - 1];
      if e.turn == turn then rest + [e] else rest
  }

  /** `chosen` consists of the entries at the ascending positions `at`, which are those of the turn's events. */
  ghost predicate Selects(at: seq<nat>, events: seq<CombatEvent>, turn: int, chosen: seq<CombatEvent>) {
    && |at| == |chosen|
    && (forall i :: 0 <= i < |at| ==> at[i] < |events| && chosen[i] == events[at[i]])
    && (forall i, j :: 0 <= i < j < |at| ==> at[i] < at[j])
    && (forall k :: 0 <= k < |events| ==> (events[k].turn == turn <==> k in at))
  }

  lemma SelectsOneMore(at: seq<nat>, events: seq<CombatEvent>, turn: int, chosen: seq<CombatEvent>, e: CombatEvent)
    requires Selects(at, events, turn, chosen)
    ensures if e.turn == turn then Selects(at + [|events|], events + [e], turn, chosen + [e])
            else Selects(at, events + [e], turn, chosen)
  {
  }

  /** The events of a turn, all of them and no others, come in the order of the log. */
  lemma {:induction false} OfTurnIsOrderedFilter(events: seq<CombatEvent>, turn: int) returns (at: seq<nat>)
    ensures Selects(at, events, turn, OfTurn(events, turn))
  {
    if events == [] {
      at := [];
    } else {
      hide Selects;
      var init, e := events[..|events| - 1], events[|events| - 1];
      at := OfTurnIsOrderedFilter(init, turn);
      assert init + [e] == events;
      SelectsOneMore(at, init, turn, OfTurn(init, turn), e);
      at := if e.turn == turn then at + [|init|] else at;
    }
  }

  /** The position `back` steps behind the next write. */
  function Slot(head: nat, capacity: nat, back: nat): (slot: nat)
    requires head < capacity && back <= capacity
    ensures slot < capacity
    ensures slot == if back <= head then head - back else head + capacity - back
  {
    WrapIs(head + capacity - back, capacity);
    (head + capacity - back) % capacity
  }

  lemma WrapIs(x: nat, capacity: nat)
    requires 0 < capacity && x < 2 * capacity
    ensures x % capacity == if x < capacity then x else x - capacity
  {
    var q := x / capacity;
    assert x == q * capacity + x % capacity;
    if q >= 2 {
      AtLeast(q, 2, capacity);
    }
  }

  lemma AtLeast(q: nat, k: nat, d: nat)
    requires q >= k
    ensures q * d >= k * d
  {
  }

  lemma FromEndOfLonger<T>(s: seq<T>, x: T)
    ensures FromEnd(s + [x], 1) == x
    ensures forall k :: 2 <= k <= |s| + 1 ==> FromEnd(s + [x], k) == FromEnd(s, k - 1)
  {
  }

  class CombatLog {
    const buffer: array<CombatEvent>
    const capacity: nat
    var head: nat
    var count: nat
    /** Every event appended since the log was last cleared. */
    ghost var history: seq<CombatEvent>

    /** The `k`-th newest event is `k` steps behind the next write, as far back as the capacity goes. */
    ghost predicate Valid()
      reads this, buffer
    {
      && buffer.Length == capacity
      && (if capacity == 0 then head == 0 else head < capacity)
      && count == Min(|history|, capacity)
      && (forall k :: 1 <= k <= count ==> buffer[Slot(head, capacity, k)] == FromEnd(history, k))
    }

    /** What the log shows: the newest events, up to the capacity. */
    ghost function Contents(): seq<CombatEvent>
      reads this
    {
      Last(history, capacity)
    }

    constructor (capacity: nat)
      ensures Valid() && fresh(buffer) && this.capacity == capacity && history == []
    {
      this.capacity := capacity;
      buffer := new CombatEvent[capacity];
      head, count, history := 0, 0, [];
    }

    /** A log of capacity zero has no place to write to. */
    method Append(event: CombatEvent)
      requires Valid() && capacity > 0
      modifies this, buffer
      ensures Valid() && history == old(history) + [event]
    {
      hide FromEnd;
      ghost var before, oldHead := history, head;
      WrapIs(head + 1, capacity);
      buffer[head] := event;
      head := (head + 1) % capacity;
      if count < capacity {
        count := count + 1;
      }
      history := history + [event];
      FromEndOfLonger(before, event);
      forall k | 1 <= k <= count
        ensures buffer[Slot(head, capacity, k)] == FromEnd(history, k)
      {
        if k > 1 {
          assert Slot(head, capacity, k) == Slot(oldHead, capacity, k - 1) != oldHead;
          assert FromEnd(history, k) == FromEnd(before, k - 1);
        }
      }
    }

    /** The newest `n` events, oldest first. */
    method RecentEvents(n: nat) returns (result: seq<CombatEvent>)
      requires Valid()
      ensures result == Last(Contents(), n)
    {
      var resultCount := Min(n, count);
      result := [];
      for i := 0 to resultCount
        invariant |result| == i
        invariant forall j :: 0 <= j < i ==> result[j] == FromEnd(history, resultCount - j)
      {
        assert head + capacity - (resultCount - i) == head + capacity - resultCount + i;
        var slot := Slot(head, capacity, resultCount - i);
        result := result + [buffer[slot]];
      }
      ghost var newest := Last(Contents(), n);
      forall k | 1 <= k <= resultCount
        ensures FromEnd(result, k) == FromEnd(newest, k)
      {
        assert FromEnd(result, k) == result[resultCount - k] == FromEnd(history, k);
        assert FromEnd(newest, k) == FromEnd(Contents(), k) == FromEnd(history, k);
      }
      SameFromEnd(result, newest);
    }

    /** The stored events of a turn, oldest first. */
    method EventsForTurn(turn: int) returns (result: seq<CombatEvent>)
      requires Valid() && capacity > 0
      ensures result == OfTurn(Contents(), turn)
    {
      result := [];
      var start := (head + capacity - count) % capacity;
      for i := 0 to count
        invariant result == OfTurn(Contents()[..i], turn)
      {
        SlotFromStart(head, capacity, count, i);
        var slot := (start + i) % capacity;
        assert FromEnd(Contents(), count - i) == FromEnd(history, count - i);
        assert Contents()[..i + 1][..i] == Contents()[..i];
        if buffer[slot].turn == turn {
          result := result + [buffer[slot]];
        }
      }
      assert Contents()[..count] == Contents();
    }

    method AllEvents() returns (result: seq<CombatEvent>)
      requires Valid()
      ensures result == Contents()
    {
      result := RecentEvents(count);
    }

    method Clear()
      requires Valid()
      modifies this
      ensures Valid() && history == []
    {
      head, count, history := 0, 0, [];
    }
  }

  /** Walking forward from the oldest event meets the slots found by walking back from the newest. */
  lemma SlotFromStart(head: nat, capacity: nat, count: nat, i: nat)
    requires head < capacity && i < count <= capacity
    ensures ((head + capacity - count) % capacity + i) % capacity == Slot(head, capacity, count - i)
  {
    WrapIs(head + capacity - count, capacity);
    WrapIs((head + capacity - count) % capacity + i, capacity);
  }

  // ---- Any run of the log ---------------------------------------------------------------

  datatype LogOp = Appended(event: CombatEvent) | Cleared

  /** A log that forgets as it goes, keeping at most `capacity` events after every step. */
  function Forgetting(ops: seq<LogOp>, capacity: nat): seq<CombatEvent> {
    if ops == [] then []
    else
      var kept := Forgetting(ops[..|ops| - 1], capacity);
      match ops[|ops| - 1]
      case Cleared => []
      case Appended(e) => Last(kept + [e], capacity)
  }

  /** Every event appended since the last clear. */
  function SinceClear(ops: seq<LogOp>): seq<CombatEvent> {
    if ops == [] then []
    else
      match ops[|ops| - 1]
      case Cleared => []
      case Appended(e) => SinceClear(ops[..|ops| - 1]) + [e]
  }

  /** Forgetting at every step loses nothing that forgetting once at the end would keep. */
  lemma {:induction false} ForgettingShowsNewest(ops: seq<LogOp>, capacity: nat)
    ensures Forgetting(ops, capacity) == Last(SinceClear(ops), capacity)
  {
    hide Last, FromEnd;
    if ops != [] && ops[|ops| - 1].Appended? {
      var init, e := ops[..|ops| - 1], ops[|ops| - 1].event;
      ForgettingShowsNewest(init, capacity);
      var all := SinceClear(init);
      ForgettingOnce(all, e, capacity);
    }
  }

  lemma ForgettingOnce<T>(all: seq<T>, e: T, capacity: nat)
    ensures Last(Last(all, capacity) + [e], capacity) == Last(all + [e], capacity)
  {
    hide Last, FromEnd;
    var kept := Last(all, capacity);
    var l, r := Last(kept + [e], capacity), Last(all + [e], capacity);
    FromEndOfLonger(all, e);
    FromEndOfLonger(kept, e);
    forall k | 1 <= k <= |r|
      ensures FromEnd(l, k) == FromEnd(r, k)
    {
      if k > 1 {
        assert FromEnd(kept, k - 1) == FromEnd(all, k - 1);
      }
    }
    SameFromEnd(l, r);
  }

  /** Any run on a new log: it ends up showing the last `capacity` events since the last clear. */
  method RunLog(capacity: nat, ops: seq<LogOp>) returns (shown: seq<CombatEvent>)
    requires capacity > 0
    ensures shown == Last(SinceClear(ops), capacity) == Forgetting(ops, capacity)
  {
    var log := new CombatLog(capacity);
    for i := 0 to |ops|
      invariant log.Valid() && fresh(log) && fresh(log.buffer) && log.capacity == capacity
      invariant log.history == SinceClear(ops[..i])
    {
      assert ops[..i + 1][..i] == ops[..i];
      match ops[i]
      case Cleared => log.Clear();
      case Appended(e) => log.Append(e);
    }
    assert ops[..|ops|] == ops;
    ForgettingShowsNewest(ops, capacity);
    shown := log.AllEvents();
  }
}
