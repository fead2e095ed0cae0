/** Runs of one room service: its current room is always stored. */
module CurrentRoom {
  import opened Common
  import opened Rooms
  import opened SummonerSpells
  import opened Cooldowns
  import opened RoomService
  import RoomCache

  /** A synchronization that saved its room and has yet to make it current. */
  datatype Saved = Saved(id: string, at: Time)

  datatype History = History(state: State, clock: Time, saved: set<Saved>)

  /** A locked section that ends at `at`. */
  datatype Event = Event(at: Time, call: Call)

  const START := History(State(map[], ""), ZERO_TIME, {})

  predicate CurrentStored(s: State) { s.current == "" || s.current in s.store }

  // ---------- when cleaning up strands the current room ----------

  /** The cleanup reaches the current room, finds it expired, and its deletion lands although it reports an error. */
  predicate Strands(s: State, now: Time, visits: seq<Visit>, i: nat, k: nat)
    requires i <= k < |visits| && AllStored(s.store, visits, i)
  {
    && visits[k].id == s.current && !visits[k].cancelled
    && Expired(s.store[visits[k].id], now) && visits[k].fault.LandsWithError?
    && forall j :: i <= j < k ==> !visits[j].cancelled && (Expired(s.store[visits[j].id], now) ==> visits[j].fault.Works?)
  }

  predicate MayStrand(s: State, call: Call) {
    && call.CleanUpRooms? && call.list.Works? && AllStored(s.store, call.visits, 0)
    && exists k :: 0 <= k < |call.visits| && Strands(s, call.now, call.visits, 0, k)
  }

  lemma {:induction false} RestStrandsExactlyWhen(s: State, now: Time, visits: seq<Visit>, i: nat)
    requires i <= |visits| && DistinctVisits(visits) && AllStored(s.store, visits, i)
    requires "" !in s.store && CurrentStored(s)
    ensures !CurrentStored(CleanFrom(s, now, visits, i).state)
            <==> exists k :: i <= k < |visits| && Strands(s, now, visits, i, k)
    decreases |visits| - i
  {
    if i < |visits| {
      var one := CleanOne(s, now, visits[i]);
      if one.failed {
        if !CurrentStored(one.state) {
          assert Strands(s, now, visits, i, i);
        }
      } else {
        var t, next := one.state, i + 1;
        RestStrandsExactlyWhen(t, now, visits, i + 1);
        if k :| next <= k < |visits| && Strands(t, now, visits, next, k) {
          assert Strands(s, now, visits, i, k);
        }
        if k :| i <= k < |visits| && Strands(s, now, visits, i, k) {
          assert k != i && visits[i].id != visits[k].id;
          assert Strands(t, now, visits, next, k);
        }
      }
    }
  }

  /** A cleanup leaves a current room that is not stored exactly when it strands it. */
  lemma CleanUpStrandsExactlyWhen(s: State, call: Call)
    requires RoomCache.Keyed(s.store) && Enabled(s, call) && call.CleanUpRooms?
    requires "" !in s.store && CurrentStored(s)
    ensures !CurrentStored(Next(s, call)) <==> MayStrand(s, call)
  {
    RestStrandsExactlyWhen(s, call.now, call.visits, 0);
  }

  // ---------- runs ----------

  /** Calls that read the clock once; a refresh reads it for every room. */
  predicate ReadsClock(call: Call) { !call.RefreshCooldowns? && !call.SetCurrentRoom? && !call.ClearCurrentRoom? }

  /** Time never runs backward. */
  predicate OnTime(h: History, e: Event) {
    && RoomCache.Keyed(h.state.store) && Enabled(h.state, e.call)
    && h.clock <= e.at && (ReadsClock(e.call) ==> h.clock <= e.call.now <= e.at)
    && (e.call.RefreshCooldowns? ==> forall v :: v in e.call.visits ==> h.clock <= v.now <= e.at)
  }

  /** A room becomes current only after a synchronization saved it, at most `limit` before;
      and no cleanup strands the current room. */
  predicate Timely(limit: int, h: History, e: Event) {
    && OnTime(h, e)
    && (e.call.SetCurrentRoom? ==> exists p :: p in h.saved && p.id == e.call.id && e.at - p.at <= limit)
    && !MayStrand(h.state, e.call)
  }

  function Advance(h: History, e: Event): History
    requires RoomCache.Keyed(h.state.store) && Enabled(h.state, e.call)
  {
    History(Next(h.state, e.call), e.at,
            if e.call.ReplacePlayers? && EditOutcome(h.state.store, e.call).Updated?
            then h.saved + {Saved(e.call.id, e.call.now)} else h.saved)
  }

  predicate ForwardRun(h: History, events: seq<Event>)
    decreases |events|, 0
  {
    events == [] ||
    (ForwardRun(h, events[..|events| - 1]) && OnTime(RunAll(h, events[..|events| - 1]), events[|events| - 1]))
  }

  function RunAll(h: History, events: seq<Event>): History
    requires ForwardRun(h, events)
    decreases |events|, 1
  {
    if events == [] then h else Advance(RunAll(h, events[..|events| - 1]), events[|events| - 1])
  }

  predicate TimelyRun(limit: int, h: History, events: seq<Event>) {
    ForwardRun(h, events) &&
    (events == [] ||
     (TimelyRun(limit, h, events[..|events| - 1]) && Timely(limit, RunAll(h, events[..|events| - 1]), events[|events| - 1])))
  }

  /** A room saved by a synchronization no longer ago than rooms take to expire is stored, and no older than that. */
  predicate KeepsSaved(h: History) {
    forall p :: p in h.saved ==>
      && p.at <= h.clock
      && (h.clock - p.at <= ROOM_EXPIRATION ==> p.id in h.state.store && p.at <= h.state.store[p.id].lastUpdated)
  }

  predicate Inv(h: History) {
    RoomCache.Keyed(h.state.store) && "" !in h.state.store && CurrentStored(h.state) && KeepsSaved(h)
  }

  lemma {:induction false} RefreshKeepsStamps(store: Store, visits: seq<Visit>, i: nat)
    requires RoomCache.Keyed(store) && i <= |visits| && AllStored(store, visits, i)
    ensures RefreshFrom(store, visits, i).store.Keys == store.Keys
    ensures forall id :: id in store ==> RefreshFrom(store, visits, i).store[id].lastUpdated == store[id].lastUpdated
    decreases |visits| - i
  {
    RefreshKeepsKeys(store, visits, i);
    if i < |visits| {
      RefreshOneKeepsKeys(store, visits[i]);
      if !RefreshOne(store, visits[i]).failed {
        RefreshKeepsStamps(RefreshOne(store, visits[i]).store, visits, i + 1);
      }
    }
  }

  /** Outside cleanups, no room is removed and no room's stamp goes back. */
  lemma CallsKeepRooms(limit: int, h: History, e: Event)
    requires limit <= ROOM_EXPIRATION && Inv(h) && Timely(limit, h, e) && !e.call.CleanUpRooms?
    ensures var store := Next(h.state, e.call).store;
            && "" !in store
            && forall id :: id in h.state.store ==>
                 id in store && (store[id].lastUpdated == h.state.store[id].lastUpdated || h.clock <= store[id].lastUpdated)
    ensures e.call.ReplacePlayers? && EditOutcome(h.state.store, e.call).Updated? ==>
              e.call.id in Next(h.state, e.call).store && Next(h.state, e.call).store[e.call.id].lastUpdated == e.call.now
  {
    if e.call.RefreshCooldowns? {
      RefreshKeepsStamps(h.state.store, e.call.visits, 0);
    }
  }

  lemma AdvanceKeepsSaved(limit: int, h: History, e: Event)
    requires limit <= ROOM_EXPIRATION && Inv(h) && Timely(limit, h, e)
    ensures "" !in Next(h.state, e.call).store && KeepsSaved(Advance(h, e))
  {
    if e.call.CleanUpRooms? {
      CleanUpOnlyRemovesExpired(h.state, e.call.now, e.call.visits, 0);
    } else {
      CallsKeepRooms(limit, h, e);
    }
  }

  lemma AdvanceKeepsInv(limit: int, h: History, e: Event)
    requires limit <= ROOM_EXPIRATION && Inv(h) && Timely(limit, h, e)
    ensures Inv(Advance(h, e))
  {
    NextKeepsKeyed(h.state, e.call);
    AdvanceKeepsSaved(limit, h, e);
    if e.call.CleanUpRooms? {
      CleanUpStrandsExactlyWhen(h.state, e.call);
    } else {
      CallsKeepRooms(limit, h, e);
    }
  }

  lemma {:induction false} RunKeepsInv(limit: int, h: History, events: seq<Event>)
    requires limit <= ROOM_EXPIRATION && Inv(h) && TimelyRun(limit, h, events)
    ensures Inv(RunAll(h, events))
    decreases |events|
  {
    if events != [] {
      RunKeepsInv(limit, h, events[..|events| - 1]);
      AdvanceKeepsInv(limit, RunAll(h, events[..|events| - 1]), events[|events| - 1]);
    }
  }

  /** In every timely run, the current room is empty or names a stored room. */
  lemma CurrentRoomIsStored(events: seq<Event>)
    requires TimelyRun(ROOM_EXPIRATION, START, events)
    ensures CurrentStored(RunAll(START, events).state)
  {
    RunKeepsInv(ROOM_EXPIRATION, START, events);
  }

  // ---------- how long a synchronization may pause before it makes its room current ----------

  const CREATED := Event(ZERO_TIME, CreateRoom("a", ZERO_TIME, Works, Works))
  const SYNCED := Event(ZERO_TIME, ReplacePlayers("a", [Player("n", "t", "", "", 1, DEFAULT_HASTE, [])], ZERO_TIME, Works, Works))
  const LATE := ROOM_EXPIRATION + 1

  lemma RunSnoc(limit: int, h: History, events: seq<Event>, e: Event)
    requires TimelyRun(limit, h, events) && Timely(limit, RunAll(h, events), e)
    ensures TimelyRun(limit, h, events + [e])
    ensures RunAll(h, events + [e]) == Advance(RunAll(h, events), e)
  {
    var all := events + [e];
    assert all[..|all| - 1] == events && all[|all| - 1] == e;
  }

  lemma CreateThenSync(limit: int) returns (events: seq<Event>, h: History)
    ensures TimelyRun(limit, START, events) && h == RunAll(START, events)
    ensures h.clock == ZERO_TIME && h.state.current == "" && h.saved == {Saved("a", ZERO_TIME)}
    ensures h.state.store.Keys == {"a"} && h.state.store["a"].id == "a" && h.state.store["a"].lastUpdated == ZERO_TIME
  {
    var created := Advance(START, CREATED);
    assert created.state.store == map["a" := Room("a", [], ZERO_TIME)];
    var merged := Merged([], SYNCED.call.players);
    assert |merged| == 1;
    RunSnoc(limit, START, [], CREATED);
    RunSnoc(limit, START, [] + [CREATED], SYNCED);
    events := [] + [CREATED] + [SYNCED];
    h := Advance(created, SYNCED);
  }

  lemma LatePauseNamesADeletedRoom(limit: int)
    requires limit > ROOM_EXPIRATION
    ensures exists events :: TimelyRun(limit, START, events) && !CurrentStored(RunAll(START, events).state)
  {
    var events, h := CreateThenSync(limit);
    var visits := [Visit("a", LATE, Works, false)];
    var cleaned := Event(LATE, CleanUpRooms(LATE, visits, Works));
    assert visits[0].id == "a" && Lists(h.state.store, visits);
    var one := CleanOne(h.state, LATE, visits[0]);
    assert CleanFrom(one.state, LATE, visits, 1) == Cleaning(one.state, false);
    var t := Advance(h, cleaned);
    assert t.state.store.Keys == {};
    RunSnoc(limit, START, events, cleaned);
    assert Saved("a", ZERO_TIME) in t.saved;
    RunSnoc(limit, START, events + [cleaned], Event(LATE, SetCurrentRoom("a")));
    assert !CurrentStored(RunAll(START, events + [cleaned] + [Event(LATE, SetCurrentRoom("a"))]).state);
  }

  /** The current room is stored in every run exactly when a synchronization never pauses, between saving its room and
      making it current, for longer than rooms take to expire. */
  lemma PauseMustNotExceedExpiration(limit: int)
    ensures limit <= ROOM_EXPIRATION <==>
              forall events :: TimelyRun(limit, START, events) ==> CurrentStored(RunAll(START, events).state)
  {
    if limit <= ROOM_EXPIRATION {
      forall events | TimelyRun(limit, START, events)
        ensures CurrentStored(RunAll(START, events).state)
      {
        RunKeepsInv(limit, START, events);
      }
    } else {
      LatePauseNamesADeletedRoom(limit);
    }
  }

  /** A deletion that lands although it reports an error leaves the current room naming nothing,
      and later cleanups, which no longer see that room, do not clear it. */
  lemma LostDeletionStrandsCurrentRoom() returns (events: seq<Event>, cleaned: Event)
    ensures TimelyRun(ROOM_EXPIRATION, START, events)
    ensures var h := RunAll(START, events);
            && CurrentStored(h.state) && RoomCache.Keyed(h.state.store)
            && Enabled(h.state, cleaned.call) && cleaned.call.CleanUpRooms?
            && var t := Advance(h, cleaned);
            && !CurrentStored(t.state)
            && Lists(t.state.store, []) && forall now: Time :: Next(t.state, CleanUpRooms(now, [], Works)) == t.state
  {
    var before;
    events, before := CreateThenSync(ROOM_EXPIRATION);
    var current := Event(ZERO_TIME, SetCurrentRoom("a"));
    assert Saved("a", ZERO_TIME) in before.saved;
    RunSnoc(ROOM_EXPIRATION, START, events, current);
    events := events + [current];
    var h := Advance(before, current);
    var visits := [Visit("a", LATE, LandsWithError, false)];
    cleaned := Event(LATE, CleanUpRooms(LATE, visits, Works));
    assert visits[0].id == "a" && Lists(h.state.store, visits);
    var one := CleanOne(h.state, LATE, visits[0]);
    var t := Advance(h, cleaned);
    assert t.state.store.Keys == {};
  }
}
