/** The room service of one process: each call holds its lock while it reads, changes and saves rooms. */
module RoomService {
  import opened Common
  import opened Rooms
  import opened SummonerSpells
  import opened Cooldowns
  import RoomCache

  type Store = RoomCache.Store

  const ROOM_EXPIRATION := 180 * MINUTE

  /** One room of a listing: when it is looked at, how its write ends, and whether the caller gave up just before. */
  datatype Visit = Visit(id: string, now: Time, fault: Fault, cancelled: bool)

  datatype Call =
    | CreateRoom(id: string, now: Time, get: Fault, save: Fault)
    | AddPlayer(id: string, player: Player, now: Time, get: Fault, save: Fault)
    | ReplacePlayers(id: string, players: seq<Player>, now: Time, get: Fault, save: Fault)
    | ToggleSpell(id: string, gameName: string, tagLine: string, spellName: string, now: Time, get: Fault, save: Fault)
    | RefreshCooldowns(visits: seq<Visit>, list: Fault)
    | CleanUpRooms(now: Time, visits: seq<Visit>, list: Fault)
    | SetCurrentRoom(id: string)
    | ClearCurrentRoom(id: string)

  datatype State = State(store: Store, current: string)
  datatype Outcome = Updated | Unchanged | Failed | Panicked
  datatype Announcement = RoomUpdated(id: string) | CurrentRoomChanged(id: string)

  // ---------- what each call does ----------

  /** The visits are a listing of the whole store, each room once. */
  predicate Lists(store: Store, visits: seq<Visit>) {
    && AllStored(store, visits, 0)
    && (forall id :: id in store ==> exists i :: 0 <= i < |visits| && visits[i].id == id)
    && DistinctVisits(visits)
  }

  predicate DistinctVisits(visits: seq<Visit>) {
    forall i, j :: 0 <= i < j < |visits| ==> visits[i].id != visits[j].id
  }

  predicate Enabled(s: State, call: Call) {
    match call
    case RefreshCooldowns(visits, _) => Lists(s.store, visits)
    case CleanUpRooms(_, visits, _) => Lists(s.store, visits)
    case _ => true
  }

  predicate Edits(call: Call) { call.AddPlayer? || call.ReplacePlayers? || call.ToggleSpell? }

  /** The players an editing call wants to save, if any. */
  function Edited(room: Room, call: Call): Option<seq<Player>>
    requires Edits(call)
  {
    match call
    case AddPlayer(_, player, _, _, _) => Some(Joined(room.players, player))
    case ReplacePlayers(_, players, _, _, _) =>
      var merged := Merged(room.players, players);
      if merged == room.players then None else Some(merged)
    case ToggleSpell(_, gameName, tagLine, spellName, now, _, _) =>
      Toggling(room.players, gameName, tagLine, spellName, now)
  }

  /** The room an editing call saves, if it gets that far. */
  function Saving(store: Store, call: Call): Option<Room>
    requires Edits(call) && RoomCache.Keyed(store)
  {
    var room := RoomCache.Lookup(store, call.id);
    if !call.get.Works? || room.None? then None
    else
      match Edited(room.value, call)
      case None => None
      case Some(players) => Some(room.value.(players := players, lastUpdated := call.now))
  }

  function EditOutcome(store: Store, call: Call): Outcome
    requires Edits(call) && RoomCache.Keyed(store)
  {
    var room := RoomCache.Lookup(store, call.id);
    if !call.get.Works? then Failed
    else if call.ToggleSpell? && room.Some? && Panics(room.value.players, call.gameName, call.tagLine, call.spellName)
    then Panicked
    else if Saving(store, call).None? then Unchanged
    else if call.save.Works? then Updated else Failed
  }

  datatype Refreshing = Refreshing(store: Store, updated: seq<string>, failed: bool)

  function RefreshedAt(room: Room, now: Time): Room { room.(players := RefreshPlayers(room.players, now)) }

  function RefreshOne(store: Store, v: Visit): Refreshing
    requires v.id in store
  {
    var room := store[v.id];
    var refreshed := RefreshedAt(room, v.now);
    if v.cancelled then Refreshing(store, [], true)
    else if refreshed == room then Refreshing(store, [], false)
    else Refreshing(if v.fault.Lands() then store[room.id := refreshed] else store,
                    if v.fault.Works? then [room.id] else [], !v.fault.Works?)
  }

  predicate AllStored(store: Store, visits: seq<Visit>, i: nat) {
    forall k :: i <= k < |visits| ==> visits[k].id in store
  }

  function Reporting(updated: seq<string>, rest: Refreshing): Refreshing {
    if rest.failed then rest else rest.(updated := updated + rest.updated)
  }

  /** From the i-th visit on, rooms are refreshed in turn; the first failure ends the refresh,
      and the report of the rooms saved so far is lost. */
  function RefreshFrom(store: Store, visits: seq<Visit>, i: nat): Refreshing
    requires i <= |visits| && AllStored(store, visits, i)
    decreases |visits| - i
  {
    if i == |visits| then Refreshing(store, [], false)
    else
      var one := RefreshOne(store, visits[i]);
      if one.failed then one else Reporting(one.updated, RefreshFrom(one.store, visits, i + 1))
  }

  lemma ReportSoFar(store: Store, visits: seq<Visit>, i: nat, updated: seq<string>)
    requires i < |visits| && AllStored(store, visits, i) && !RefreshOne(store, visits[i]).failed
    ensures AllStored(RefreshOne(store, visits[i]).store, visits, i + 1)
    ensures var one := RefreshOne(store, visits[i]);
            Reporting(updated, RefreshFrom(store, visits, i))
            == Reporting(updated + one.updated, RefreshFrom(one.store, visits, i + 1))
  {
    var one := RefreshOne(store, visits[i]);
    var rest := RefreshFrom(one.store, visits, i + 1);
    assert updated + (one.updated + rest.updated) == (updated + one.updated) + rest.updated;
  }

  predicate Expired(room: Room, now: Time) { now - room.lastUpdated > ROOM_EXPIRATION }

  datatype Cleaning = Cleaning(state: State, failed: bool)

  function CleanOne(s: State, now: Time, v: Visit): Cleaning
    requires v.id in s.store
  {
    if v.cancelled then Cleaning(s, true)
    else if !Expired(s.store[v.id], now) then Cleaning(s, false)
    else
      var kept := if v.fault.Lands() then s.store - {v.id} else s.store;
      Cleaning(State(kept, if v.fault.Works? && s.current == v.id then "" else s.current), !v.fault.Works?)
  }

  function CleanFrom(s: State, now: Time, visits: seq<Visit>, i: nat): Cleaning
    requires i <= |visits| && DistinctVisits(visits) && AllStored(s.store, visits, i)
    decreases |visits| - i
  {
    if i == |visits| then Cleaning(s, false)
    else
      var one := CleanOne(s, now, visits[i]);
      if one.failed then one else CleanFrom(one.state, now, visits, i + 1)
  }

  function Next(s: State, call: Call): State
    requires RoomCache.Keyed(s.store) && Enabled(s, call)
  {
    match call
    case CreateRoom(id, now, get, save) =>
      if id != "" && get.Works? && id !in s.store && save.Lands() then s.(store := s.store[id := Room(id, [], now)]) else s
    case RefreshCooldowns(visits, list) => if list.Works? then s.(store := RefreshFrom(s.store, visits, 0).store) else s
    case CleanUpRooms(now, visits, list) => if list.Works? then CleanFrom(s, now, visits, 0).state else s
    case SetCurrentRoom(id) => s.(current := id)
    case ClearCurrentRoom(id) => if s.current == id then s.(current := "") else s
    case _ =>
      match Saving(s.store, call)
      case None => s
      case Some(room) => if call.save.Lands() then s.(store := s.store[room.id := room]) else s
  }

  function AllUpdated(ids: seq<string>): seq<Announcement> {
    seq(|ids|, i requires 0 <= i < |ids| => RoomUpdated(ids[i]))
  }

  /** What the call publishes. Replacing players announces nothing itself: the synchronization around it does. */
  function Announced(s: State, call: Call): seq<Announcement>
    requires RoomCache.Keyed(s.store) && Enabled(s, call)
  {
    match call
    case RefreshCooldowns(visits, list) =>
      if !list.Works? || RefreshFrom(s.store, visits, 0).failed then [] else AllUpdated(RefreshFrom(s.store, visits, 0).updated)
    case SetCurrentRoom(id) => if s.current == id then [] else [CurrentRoomChanged(id)]
    case ClearCurrentRoom(id) => if s.current == id then [CurrentRoomChanged("")] else []
    case AddPlayer(_, _, _, _, _) => if EditOutcome(s.store, call).Updated? then [RoomUpdated(call.id)] else []
    case ToggleSpell(_, _, _, _, _, _, _) => if EditOutcome(s.store, call).Updated? then [RoomUpdated(call.id)] else []
    case _ => []
  }

  // ---------- what the editing calls do ----------

  /** No other room changes, and the room itself, if it is written, is stamped with the time of the call. */
  predicate WritesOnly(before: Store, after: Store, id: string, now: Time, written: bool) {
    && after.Keys == before.Keys
    && (forall other :: other in before && (other != id || !written) ==> after[other] == before[other])
    && (written ==> id in before && after[id].id == before[id].id && after[id].lastUpdated == now)
  }

  /** A join saves a room that is there, with the player joined, and is announced when the save is confirmed. */
  lemma JoinDoes(s: State, id: string, player: Player, now: Time, get: Fault, save: Fault)
    requires RoomCache.Keyed(s.store)
    ensures var call := AddPlayer(id, player, now, get, save);
            var outcome, after := EditOutcome(s.store, call), Next(s, call);
            var found := get.Works? && id != "" && id in s.store;
            && (outcome.Updated? <==> found && save.Works?)
            && (outcome.Unchanged? <==> get.Works? && !found)
            && !outcome.Panicked?
            && Announced(s, call) == (if outcome.Updated? then [RoomUpdated(id)] else [])
            && after.current == s.current && WritesOnly(s.store, after.store, id, now, found && save.Lands())
            && (found && save.Lands() ==> JoinedAs(s.store[id].players, after.store[id].players, player))
  {
    if id in s.store {
      JoinMeans(s.store[id].players, player);
    }
  }

  /** The player and the spell a press looks for are there. */
  predicate Pressable(players: seq<Player>, gameName: string, tagLine: string, spellName: string) {
    var i := FindPlayer(players, gameName, tagLine);
    i.Some? && FindSpell(players[i.value].spells, spellName).Some?
  }

  /** Only that spell of that player is pressed. */
  predicate PressedIn(before: seq<Player>, after: seq<Player>, gameName: string, tagLine: string, spellName: string, now: Time)
    requires Pressable(before, gameName, tagLine, spellName)
  {
    var i := FindPlayer(before, gameName, tagLine).value;
    && |after| == |before| && after == before[i := after[i]]
    && PressedAt(before[i], after[i], FindSpell(before[i].spells, spellName).value, now)
  }

  /** The player's haste is -100 and the spell is ready. */
  predicate Fatal(players: seq<Player>, gameName: string, tagLine: string, spellName: string)
    requires Pressable(players, gameName, tagLine, spellName)
  {
    var player := players[FindPlayer(players, gameName, tagLine).value];
    player.haste == -100 && player.spells[FindSpell(player.spells, spellName).value].isReady
  }

  /** A press saves a room that holds its player and spell, with that spell pressed, and is announced when the save is
      confirmed; one that would divide by zero panics before anything is saved. */
  lemma PressDoes(s: State, id: string, gameName: string, tagLine: string, spellName: string, now: Time, get: Fault, save: Fault)
    requires RoomCache.Keyed(s.store)
    ensures var call := ToggleSpell(id, gameName, tagLine, spellName, now, get, save);
            var outcome, after := EditOutcome(s.store, call), Next(s, call);
            var found := get.Works? && id != "" && id in s.store && Pressable(s.store[id].players, gameName, tagLine, spellName);
            var safe := found && !Fatal(s.store[id].players, gameName, tagLine, spellName);
            && (outcome.Updated? <==> safe && save.Works?)
            && (outcome.Panicked? <==> found && !safe)
            && (outcome.Unchanged? <==> get.Works? && !found)
            && Announced(s, call) == (if outcome.Updated? then [RoomUpdated(id)] else [])
            && after.current == s.current && WritesOnly(s.store, after.store, id, now, safe && save.Lands())
            && (safe && save.Lands() ==>
                  PressedIn(s.store[id].players, after.store[id].players, gameName, tagLine, spellName, now))
  {
    if id in s.store && Pressable(s.store[id].players, gameName, tagLine, spellName)
       && !Fatal(s.store[id].players, gameName, tagLine, spellName) {
      PressMeans(s.store[id].players[FindPlayer(s.store[id].players, gameName, tagLine).value], spellName, now);
    }
  }

  /** A replacement saves a room that is there if that changes a player, and announces nothing itself. */
  lemma ReplacementDoes(s: State, id: string, players: seq<Player>, now: Time, get: Fault, save: Fault)
    requires RoomCache.Keyed(s.store)
    ensures var call := ReplacePlayers(id, players, now, get, save);
            var outcome, after := EditOutcome(s.store, call), Next(s, call);
            var changes := get.Works? && id != "" && id in s.store && Merged(s.store[id].players, players) != s.store[id].players;
            && (outcome.Updated? <==> changes && save.Works?)
            && (outcome.Unchanged? <==> get.Works? && !changes)
            && !outcome.Panicked? && Announced(s, call) == []
            && after.current == s.current && WritesOnly(s.store, after.store, id, now, changes && save.Lands())
            && (changes && save.Lands() ==> after.store[id].players == Merged(s.store[id].players, players))
  {
  }

  // ---------- calls keep the store sane ----------

  lemma RefreshOneKeepsKeys(store: Store, v: Visit)
    requires v.id in store && store[v.id].id == v.id
    ensures RefreshOne(store, v).store.Keys == store.Keys && RefreshOne(store, v).store[v.id].id == v.id
    ensures forall id :: id in store && id != v.id ==> RefreshOne(store, v).store[id] == store[id]
  {
  }

  lemma {:induction false} RefreshKeepsKeys(store: Store, visits: seq<Visit>, i: nat)
    requires RoomCache.Keyed(store) && i <= |visits| && AllStored(store, visits, i)
    ensures RoomCache.Keyed(RefreshFrom(store, visits, i).store) && RefreshFrom(store, visits, i).store.Keys == store.Keys
    decreases |visits| - i
  {
    if i < |visits| {
      RefreshOneKeepsKeys(store, visits[i]);
      if !RefreshOne(store, visits[i]).failed {
        RefreshKeepsKeys(RefreshOne(store, visits[i]).store, visits, i + 1);
      }
    }
  }

  /** Cleaning up changes no room it keeps, and removes only expired ones. */
  lemma {:induction false} CleanUpOnlyRemovesExpired(s: State, now: Time, visits: seq<Visit>, i: nat)
    requires i <= |visits| && DistinctVisits(visits) && AllStored(s.store, visits, i)
    ensures var t := CleanFrom(s, now, visits, i).state;
            && (forall id :: id in t.store ==> id in s.store && t.store[id] == s.store[id])
            && (forall id :: id in s.store && id !in t.store ==> Expired(s.store[id], now))
            && (t.current == s.current || t.current == "")
    decreases |visits| - i
  {
    if i < |visits| {
      var one := CleanOne(s, now, visits[i]);
      if !one.failed {
        CleanUpOnlyRemovesExpired(one.state, now, visits, i + 1);
      }
    }
  }

  /** A cleanup runs to its end exactly when the caller stays and every deletion of an expired room works. */
  lemma {:induction false} CleanUpFailsExactlyWhen(s: State, now: Time, visits: seq<Visit>, i: nat)
    requires RoomCache.Keyed(s.store) && i <= |visits| && DistinctVisits(visits) && AllStored(s.store, visits, i)
    ensures CleanFrom(s, now, visits, i).failed <==>
              exists k :: i <= k < |visits| && (visits[k].cancelled
                                                || (Expired(s.store[visits[k].id], now) && !visits[k].fault.Works?))
    decreases |visits| - i
  {
    if i < |visits| {
      var one := CleanOne(s, now, visits[i]);
      if !one.failed {
        CleanUpFailsExactlyWhen(one.state, now, visits, i + 1);
        assert forall k :: i < k < |visits| ==> one.state.store[visits[k].id] == s.store[visits[k].id];
      }
    }
  }

  /** A cleanup that runs to its end leaves, of the listed rooms, exactly those saved within the last 180 minutes; the
      current room is cleared with its room. */
  lemma {:induction false} CleanUpRemovesExactlyTheExpired(s: State, now: Time, visits: seq<Visit>, i: nat, id: string)
    requires RoomCache.Keyed(s.store) && i <= |visits| && DistinctVisits(visits) && AllStored(s.store, visits, i)
    requires !CleanFrom(s, now, visits, i).failed && id in s.store
    ensures var t, visited := CleanFrom(s, now, visits, i).state, exists k :: i <= k < |visits| && visits[k].id == id;
            && (id in t.store <==> !visited || now - s.store[id].lastUpdated <= 180 * MINUTE)
            && (s.current == id ==> t.current == if id in t.store then id else "")
    decreases |visits| - i
  {
    if i < |visits| {
      var one := CleanOne(s, now, visits[i]);
      if id in one.state.store {
        CleanUpRemovesExactlyTheExpired(one.state, now, visits, i + 1, id);
      } else {
        CleanUpOnlyRemovesExpired(one.state, now, visits, i + 1);
      }
    }
  }

  lemma NextKeepsKeyed(s: State, call: Call)
    requires RoomCache.Keyed(s.store) && Enabled(s, call)
    ensures RoomCache.Keyed(Next(s, call).store)
  {
    match call
    case RefreshCooldowns(visits, _) => RefreshKeepsKeys(s.store, visits, 0);
    case CleanUpRooms(now, visits, _) => CleanUpOnlyRemovesExpired(s, now, visits, 0);
    case _ =>
  }

  // ---------- what a refresh saves, and when it announces exactly that ----------

  predicate Changes(store: Store, v: Visit)
    requires v.id in store
  {
    RefreshedAt(store[v.id], v.now) != store[v.id]
  }

  /** The caller gave up, or the room changes and its save does not work: the refresh ends here. */
  predicate Stops(store: Store, v: Visit)
    requires v.id in store
  {
    v.cancelled || (Changes(store, v) && !v.fault.Works?)
  }

  predicate Writes(store: Store, v: Visit)
    requires v.id in store
  {
    !v.cancelled && Changes(store, v) && v.fault.Lands()
  }

  predicate Reached(store: Store, visits: seq<Visit>, i: nat, k: nat)
    requires i <= k <= |visits| && AllStored(store, visits, i)
  {
    forall j :: i <= j < k ==> !Stops(store, visits[j])
  }

  lemma {:induction false} RefreshTouchesOnlyVisited(store: Store, visits: seq<Visit>, i: nat, id: string)
    requires RoomCache.Keyed(store) && i <= |visits| && AllStored(store, visits, i)
    requires id in store && forall k :: i <= k < |visits| ==> visits[k].id != id
    ensures RefreshFrom(store, visits, i).store.Keys == store.Keys
    ensures RefreshFrom(store, visits, i).store[id] == store[id] && id !in RefreshFrom(store, visits, i).updated
    decreases |visits| - i
  {
    RefreshKeepsKeys(store, visits, i);
    if i < |visits| {
      RefreshOneKeepsKeys(store, visits[i]);
      if !RefreshOne(store, visits[i]).failed {
        RefreshTouchesOnlyVisited(RefreshOne(store, visits[i]).store, visits, i + 1, id);
      }
    }
  }

  /** All of it said of the store before the refresh: visit `k` of the rest saves its room exactly when it is reached and
      writes, and the rest fails exactly when some visit stops it. */
  lemma {:induction false} RestOutcome(store: Store, visits: seq<Visit>, i: nat, k: nat)
    requires RoomCache.Keyed(store) && DistinctVisits(visits) && i <= k < |visits| && AllStored(store, visits, i)
    ensures var refreshing := RefreshFrom(store, visits, i);
            var id := visits[k].id;
            var saves := Reached(store, visits, i, k) && Writes(store, visits[k]);
            && refreshing.store.Keys == store.Keys
            && refreshing.store[id] == (if saves then RefreshedAt(store[id], visits[k].now) else store[id])
            && (Reached(store, visits, i, k) && Stops(store, visits[k]) ==> refreshing.failed)
            && (!refreshing.failed ==> (id in refreshing.updated <==> saves))
    decreases |visits| - i
  {
    RefreshKeepsKeys(store, visits, i);
    RefreshOneKeepsKeys(store, visits[i]);
    var one := RefreshOne(store, visits[i]);
    if !one.failed {
      if i == k {
        RefreshTouchesOnlyVisited(one.store, visits, i + 1, visits[i].id);
      } else {
        RestOutcome(one.store, visits, i + 1, k);
        OneVisitLeavesTheRest(store, visits, i, k);
      }
    }
  }

  lemma OneVisitLeavesTheRest(store: Store, visits: seq<Visit>, i: nat, k: nat)
    requires RoomCache.Keyed(store) && DistinctVisits(visits) && i < k < |visits| && AllStored(store, visits, i)
    requires !RefreshOne(store, visits[i]).failed
    ensures var rest := RefreshOne(store, visits[i]).store;
            && AllStored(rest, visits, i + 1) && rest[visits[k].id] == store[visits[k].id]
            && (Reached(rest, visits, i + 1, k) <==> Reached(store, visits, i, k))
  {
    RefreshOneKeepsKeys(store, visits[i]);
    var rest := RefreshOne(store, visits[i]).store;
    assert forall j :: i < j < |visits| ==> rest[visits[j].id] == store[visits[j].id];
  }

  lemma {:induction false} RestFailsOnlyAtAStop(store: Store, visits: seq<Visit>, i: nat) returns (k: nat)
    requires RoomCache.Keyed(store) && DistinctVisits(visits) && i <= |visits| && AllStored(store, visits, i)
    requires RefreshFrom(store, visits, i).failed
    ensures i <= k < |visits| && Reached(store, visits, i, k) && Stops(store, visits[k])
    decreases |visits| - i
  {
    k := i;
    RefreshOneKeepsKeys(store, visits[i]);
    var one := RefreshOne(store, visits[i]);
    if !one.failed {
      k := RestFailsOnlyAtAStop(one.store, visits, i + 1);
      assert forall j :: i < j < |visits| ==> one.store[visits[j].id] == store[visits[j].id];
      assert forall j :: i <= j < k ==> !Stops(store, visits[j]);
    }
  }

  /** Exactly the rooms of the store that this call changes are announced as updated. */
  ghost predicate AnnouncesTheChanged(s: State, call: Call)
    requires RoomCache.Keyed(s.store) && Enabled(s, call)
  {
    var after := Next(s, call).store;
    forall id :: id in s.store ==>
      (RoomUpdated(id) in Announced(s, call) <==> id !in after || after[id] != s.store[id])
  }

  /** A visit stops the refresh and, up to it, some visit changes the store. */
  predicate StopsAfterAWrite(store: Store, visits: seq<Visit>)
    requires AllStored(store, visits, 0)
  {
    exists j, k :: 0 <= j <= k < |visits| && Reached(store, visits, 0, k) && Stops(store, visits[k]) && Writes(store, visits[j])
  }

  lemma UpdatedAreAnnounced(updated: seq<string>, id: string)
    ensures RoomUpdated(id) in AllUpdated(updated) <==> id in updated
  {
    if id in updated {
      var j :| 0 <= j < |updated| && updated[j] == id;
      assert AllUpdated(updated)[j] == RoomUpdated(id);
    }
  }

  /** A refresh announces exactly the rooms it changed exactly when it does not stop after a write: no visit up to the
      first that finds the caller gone, or whose save does not work, changes the store. */
  lemma RefreshAnnouncesExactlyTheChanged(s: State, call: Call)
    requires RoomCache.Keyed(s.store) && Enabled(s, call) && call.RefreshCooldowns?
    ensures AnnouncesTheChanged(s, call) <==> !(call.list.Works? && StopsAfterAWrite(s.store, call.visits))
  {
    if call.list.Works? {
      var visits := call.visits;
      var refreshing := RefreshFrom(s.store, visits, 0);
      RefreshKeepsKeys(s.store, visits, 0);
      if refreshing.failed {
        var k := RestFailsOnlyAtAStop(s.store, visits, 0);
        LostExactlyWhenWritten(s, call, k);
      } else {
        forall id | id in s.store
          ensures RoomUpdated(id) in Announced(s, call) <==> refreshing.store[id] != s.store[id]
        {
          var k :| 0 <= k < |visits| && visits[k].id == id;
          RestOutcome(s.store, visits, 0, k);
          UpdatedAreAnnounced(refreshing.updated, id);
        }
        if j, k :| 0 <= j <= k < |visits| && Reached(s.store, visits, 0, k) && Stops(s.store, visits[k])
                   && Writes(s.store, visits[j]) {
          RestOutcome(s.store, visits, 0, k);
        }
      }
    }
  }

  /** When visit `k` is the first to stop the refresh, nothing is announced, so all hangs on whether something was written. */
  lemma LostExactlyWhenWritten(s: State, call: Call, k: nat)
    requires RoomCache.Keyed(s.store) && Enabled(s, call) && call.RefreshCooldowns? && call.list.Works?
    requires k < |call.visits| && Reached(s.store, call.visits, 0, k) && Stops(s.store, call.visits[k])
    ensures RefreshFrom(s.store, call.visits, 0).failed
    ensures AnnouncesTheChanged(s, call) <==> !StopsAfterAWrite(s.store, call.visits)
  {
    var visits := call.visits;
    RestOutcome(s.store, visits, 0, k);
    assert Announced(s, call) == [];
    forall j | 0 <= j < |visits|
      ensures Next(s, call).store[visits[j].id] != s.store[visits[j].id] <==> j <= k && Writes(s.store, visits[j])
    {
      RestOutcome(s.store, visits, 0, j);
    }
    RefreshKeepsKeys(s.store, visits, 0);
    if StopsAfterAWrite(s.store, visits) {
      var j, k' :| 0 <= j <= k' < |visits| && Reached(s.store, visits, 0, k') && Stops(s.store, visits[k'])
                   && Writes(s.store, visits[j]);
      assert k == k';
      assert visits[j].id in s.store;
    } else {
      forall id | id in s.store
        ensures Next(s, call).store[id] == s.store[id]
      {
        var j :| 0 <= j < |visits| && visits[j].id == id;
      }
    }
  }

  /** What a refresh leaves in the store, room by room: refreshed if its visit is reached and writes, else as it was. */
  lemma RefreshSavesExactlyTheWritten(s: State, call: Call, k: nat)
    requires RoomCache.Keyed(s.store) && Enabled(s, call) && call.RefreshCooldowns? && call.list.Works?
    requires k < |call.visits|
    ensures var v, after := call.visits[k], Next(s, call).store;
            && after.Keys == s.store.Keys
            && after[v.id] == if Reached(s.store, call.visits, 0, k) && Writes(s.store, v) then RefreshedAt(s.store[v.id], v.now)
                              else s.store[v.id]
  {
    RestOutcome(s.store, call.visits, 0, k);
  }

  /** Refreshing is no activity: whatever a refresh saves, the room expires when it would have expired before. */
  lemma RefreshKeepsExpiry(s: State, call: Call, k: nat, now: Time)
    requires RoomCache.Keyed(s.store) && Enabled(s, call) && call.RefreshCooldowns? && call.list.Works?
    requires k < |call.visits|
    ensures var id := call.visits[k].id;
            id in Next(s, call).store && Next(s, call).store[id].lastUpdated == s.store[id].lastUpdated
            && (Expired(Next(s, call).store[id], now) <==> now - s.store[id].lastUpdated > 180 * MINUTE)
  {
    RestOutcome(s.store, call.visits, 0, k);
  }

  /** A join or a press announces exactly the room it changed, unless its save lands although it reports an error, or
      works and changes nothing. */
  lemma EditAnnouncesExactlyTheChanged(s: State, call: Call)
    requires RoomCache.Keyed(s.store) && (call.AddPlayer? || call.ToggleSpell?)
    ensures AnnouncesTheChanged(s, call) <==>
              var saving := Saving(s.store, call);
              saving.None? || call.save.NoEffect? || (call.save.Works? <==> saving.value != s.store[call.id])
  {
    var saving, after := Saving(s.store, call), Next(s, call).store;
    if saving.Some? {
      assert saving.value.id == call.id && call.id in s.store;
      assert RoomUpdated(call.id) in Announced(s, call) <==> call.save.Works?;
    }
    assert forall id :: id in s.store && id != call.id ==> RoomUpdated(id) !in Announced(s, call) && after[id] == s.store[id];
  }

  /** Nothing is left for a later refresh to change, so to announce. */
  predicate Settled(room: Room) {
    forall i, k :: 0 <= i < |room.players| && 0 <= k < |room.players[i].spells| ==>
      var spell := room.players[i].spells[k];
      spell.remainingCooldown == 0 && (spell.isReady || spell.cooldownEndTime == ZERO_TIME)
  }

  /** No refresh, whenever it comes, announces the room again exactly when none of its cooldowns is still running:
      an announcement of such a room, once lost, is lost for good. */
  lemma SilentForGoodExactlyWhen(room: Room)
    ensures (forall later: Time :: RefreshedAt(room, later) == room) <==> Settled(room)
  {
    if Settled(room) {
      forall later: Time
        ensures RefreshedAt(room, later) == room
      {
        forall i | 0 <= i < |room.players|
          ensures RefreshPlayer(room.players[i], later) == room.players[i]
        {
          assert RefreshSpells(room.players[i].spells, later) == room.players[i].spells;
        }
        assert RefreshPlayers(room.players, later) == room.players;
      }
    } else {
      var i, k :| 0 <= i < |room.players| && 0 <= k < |room.players[i].spells| &&
        var spell := room.players[i].spells[k];
        !(spell.remainingCooldown == 0 && (spell.isReady || spell.cooldownEndTime == ZERO_TIME));
      var end := room.players[i].spells[k].cooldownEndTime;
      assert RefreshedAt(room, end).players[i].spells[k] == RefreshSpell(room.players[i].spells[k], end);
      assert RefreshSpell(room.players[i].spells[k], end) != room.players[i].spells[k];
    }
  }

  /** When saving one room fails, the rooms saved before it stay saved but are never announced: a spell that became
      ready then is ready for good, and no later refresh reports its room again. */
  lemma SavedButNeverAnnounced() returns (s: State, call: Call)
    ensures RoomCache.Keyed(s.store) && Enabled(s, call) && call.RefreshCooldowns?
    ensures Announced(s, call) == []
    ensures "a" in s.store && "a" in Next(s, call).store && Next(s, call).store["a"] != s.store["a"]
    ensures forall later: Time :: RefreshedAt(Next(s, call).store["a"], later) == Next(s, call).store["a"]
  {
    var running := [Player("n", "t", "", "", 1, DEFAULT_HASTE, [Spell("Flash", false, 300, SECOND, 1)])];
    var now := SECOND;
    s := State(map["a" := Room("a", running, ZERO_TIME), "b" := Room("b", running, ZERO_TIME)], "");
    var visits := [Visit("a", now, Works, false), Visit("b", now, NoEffect, false)];
    call := RefreshCooldowns(visits, Works);
    assert visits[0].id == "a" && visits[1].id == "b";
    assert SecondsLeft(SECOND, now) == 0;
    var refreshed := RefreshedAt(s.store["a"], now);
    assert refreshed.players[0].spells[0] == Spell("Flash", true, 300, ZERO_TIME, 0);
    assert refreshed.players[0] != running[0];
    var saved := s.store["a" := refreshed];
    var other := RefreshedAt(s.store["b"], now);
    assert other.players[0].spells[0].isReady;
    assert RefreshFrom(saved, visits, 1) == Refreshing(saved, [], true);
    assert RefreshOne(s.store, visits[0]) == Refreshing(saved, ["a"], false);
    forall later: Time
      ensures RefreshedAt(refreshed, later) == refreshed
    {
      assert RefreshSpells(refreshed.players[0].spells, later) == refreshed.players[0].spells;
      assert RefreshPlayers(refreshed.players, later) == refreshed.players;
    }
  }
}
