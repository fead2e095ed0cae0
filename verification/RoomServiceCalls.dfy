/** The room service's calls as it performs them, step by step on its repository. */
module RoomServiceCalls {
  import opened Common
  import opened Rooms
  import opened SummonerSpells
  import opened Cooldowns
  import opened Spec = RoomService
  import RoomCache

  predicate AllEnabled(s: State, calls: seq<Call>)
    requires RoomCache.Keyed(s.store)
    decreases |calls|
  {
    calls == [] ||
    (Enabled(s, calls[0]) && RoomCache.Keyed(Next(s, calls[0]).store) && AllEnabled(Next(s, calls[0]), calls[1..]))
  }

  /** What other requests to the same process do between two locked sections of a call. */
  function AfterAll(s: State, calls: seq<Call>): (t: State)
    requires RoomCache.Keyed(s.store) && AllEnabled(s, calls)
    ensures RoomCache.Keyed(t.store)
    decreases |calls|
  {
    if calls == [] then s else AfterAll(Next(s, calls[0]), calls[1..])
  }

  class RoomService {
    var store: Store
    var currentRoomID: string
    var announced: seq<Announcement>

    constructor ()
      ensures View() == State(map[], "") && announced == []
    {
      store, currentRoomID, announced := map[], "", [];
    }

    function View(): State
      reads this
    {
      State(store, currentRoomID)
    }

    method CreateRoom(id: string, now: Time, get: Fault, save: Fault) returns (room: Result<Option<Room>>)
      requires RoomCache.Keyed(store)
      modifies this`store
      ensures View() == Next(old(View()), Call.CreateRoom(id, now, get, save)) && RoomCache.Keyed(store)
      ensures id == "" ==> room == Ok(None)
      ensures id != "" ==>
                && (room.Error? <==> !get.Works? || (id !in old(store) && !save.Works?))
                && (room.Ok? ==> id in store && room.value == Some(store[id]))
                && store == if get.Works? && id !in old(store) && save.Lands() then old(store)[id := Room(id, [], now)]
                            else old(store)
    {
      NextKeepsKeyed(View(), Call.CreateRoom(id, now, get, save));
      if id == "" {
        return Ok(None);
      }
      if !get.Works? {
        return Error("check existing room");
      }
      var existing := RoomCache.Lookup(store, id);
      if existing.Some? {
        return Ok(existing);
      }
      var created := Room(id, [], now);
      if save.Lands() {
        store := store[created.id := created];
      }
      if !save.Works? {
        return Error("save room");
      }
      return Ok(Some(created));
    }

    /** Stamps the room and saves it. */
    method SaveRoom(room: Room, now: Time, save: Fault) returns (failed: bool)
      modifies this`store
      ensures failed <==> !save.Works?
      ensures store == if save.Lands() then old(store)[room.id := room.(lastUpdated := now)] else old(store)
    {
      var stamped := room.(lastUpdated := now);
      if save.Lands() {
        store := store[stamped.id := stamped];
      }
      return !save.Works?;
    }

    method AddPlayer(id: string, player: Player, now: Time, get: Fault, save: Fault) returns (outcome: Outcome)
      requires RoomCache.Keyed(store)
      modifies this`store, this`announced
      ensures var call := Call.AddPlayer(id, player, now, get, save);
              && View() == Next(old(View()), call) && RoomCache.Keyed(store)
              && outcome == EditOutcome(old(store), call)
              && announced == old(announced) + Announced(old(View()), call)
    {
      NextKeepsKeyed(View(), Call.AddPlayer(id, player, now, get, save));
      if !get.Works? {
        return Failed;
      }
      var room := RoomCache.Lookup(store, id);
      if room.None? {
        return Unchanged;
      }
      var players := room.value.players;
      var existing := FindPlayerByRiotId(players, player.gameName, player.tagLine);
      if existing.Some? {
        players := players[existing.value := players[existing.value].(champion := player.champion, championId := player.championId)];
      } else {
        var added := player.(haste := DEFAULT_HASTE);
        if |added.spells| == 0 {
          added := added.(spells := [Spell("Flash", true, 300, ZERO_TIME, 0), Spell("Ignite", true, 180, ZERO_TIME, 0)]);
        }
        players := players + [added];
      }
      assert players == Joined(room.value.players, player);
      var failed := SaveRoom(room.value.(players := players), now, save);
      if failed {
        return Failed;
      }
      announced := announced + [RoomUpdated(id)];
      return Updated;
    }

    method ToggleSpellByRiotId(id: string, gameName: string, tagLine: string, spellName: string, now: Time,
                               get: Fault, save: Fault) returns (outcome: Outcome)
      requires RoomCache.Keyed(store)
      modifies this`store, this`announced
      ensures var call := ToggleSpell(id, gameName, tagLine, spellName, now, get, save);
              && View() == Next(old(View()), call) && RoomCache.Keyed(store)
              && outcome == EditOutcome(old(store), call)
              && announced == old(announced) + Announced(old(View()), call)
    {
      NextKeepsKeyed(View(), ToggleSpell(id, gameName, tagLine, spellName, now, get, save));
      if !get.Works? {
        return Failed;
      }
      var room := RoomCache.Lookup(store, id);
      if room.None? {
        return Unchanged;
      }
      var players := room.value.players;
      var index := FindPlayerByRiotId(players, gameName, tagLine);
      if index.None? {
        return Unchanged;
      }
      if DividesByZero(players[index.value], spellName) {
        return Panicked;
      }
      var found, player := TogglePlayerSpell(players[index.value], spellName, now);
      if !found {
        return Unchanged;
      }
      var failed := SaveRoom(room.value.(players := players[index.value := player]), now, save);
      if failed {
        return Failed;
      }
      announced := announced + [RoomUpdated(id)];
      return Updated;
    }

    method ReplacePlayers(id: string, players: seq<Player>, now: Time, get: Fault, save: Fault) returns (outcome: Outcome)
      requires RoomCache.Keyed(store)
      modifies this`store
      ensures var call := Call.ReplacePlayers(id, players, now, get, save);
              && View() == Next(old(View()), call) && RoomCache.Keyed(store)
              && outcome == EditOutcome(old(store), call)
    {
      NextKeepsKeyed(View(), Call.ReplacePlayers(id, players, now, get, save));
      if !get.Works? {
        return Failed;
      }
      var room := RoomCache.Lookup(store, id);
      if room.None? {
        return Unchanged;
      }
      var merged := MergePlayers(room.value.players, players);
      if room.value.players == merged {
        return Unchanged;
      }
      var failed := SaveRoom(room.value.(players := merged), now, save);
      return if failed then Failed else Updated;
    }

    method SetCurrentRoomID(id: string)
      requires RoomCache.Keyed(store)
      modifies this`currentRoomID, this`announced
      ensures View() == Next(old(View()), SetCurrentRoom(id))
      ensures announced == old(announced) + Announced(old(View()), SetCurrentRoom(id))
      ensures currentRoomID == id
      ensures announced == old(announced) + if old(currentRoomID) == id then [] else [CurrentRoomChanged(id)]
    {
      if currentRoomID == id {
        return;
      }
      currentRoomID := id;
      announced := announced + [CurrentRoomChanged(id)];
    }

    method ClearCurrentRoomID(id: string)
      requires RoomCache.Keyed(store)
      modifies this`currentRoomID, this`announced
      ensures View() == Next(old(View()), ClearCurrentRoom(id))
      ensures announced == old(announced) + Announced(old(View()), ClearCurrentRoom(id))
      ensures currentRoomID == if old(currentRoomID) == id then "" else old(currentRoomID)
      ensures announced == old(announced) + if old(currentRoomID) == id then [CurrentRoomChanged("")] else []
    {
      if currentRoomID != id {
        return;
      }
      currentRoomID := "";
      announced := announced + [CurrentRoomChanged("")];
    }

    /** Other requests run to completion while this one does not hold the lock. */
    method OtherRequests(calls: seq<Call>, messages: seq<Announcement>)
      requires RoomCache.Keyed(store) && AllEnabled(View(), calls)
      modifies this
      ensures View() == AfterAll(old(View()), calls) && RoomCache.Keyed(store)
      ensures announced == old(announced) + messages
    {
      var after := AfterAll(View(), calls);
      store, currentRoomID, announced := after.store, after.current, announced + messages;
    }

    /** `gone` is the member at whose champion lookup the caller is found to have given up (none, if beyond the team). */
    method SyncFromChampSelect(id: string, session: Option<seq<Member>>, gone: nat, now: Time, get: Fault, save: Fault,
                               others: seq<Call>, messages: seq<Announcement>) returns (outcome: Outcome)
      requires RoomCache.Keyed(store)
      requires session.Some? ==> Interferable(View(), Replacing(id, session.value, now, get, save), others)
      modifies this
      ensures RoomCache.Keyed(store)
      ensures id == "" || session.None? ==> outcome == Unchanged && unchanged(this)
      ensures id != "" && session.Some? && gone < |session.value| ==> outcome == Failed && unchanged(this)
      ensures id != "" && session.Some? && gone >= |session.value| ==>
                var call := Replacing(id, session.value, now, get, save);
                && outcome == EditOutcome(old(store), call)
                && (!outcome.Updated? ==> View() == Next(old(View()), call) && announced == old(announced))
                && (outcome.Updated? ==>
                      var between := AfterAll(Next(old(View()), call), others);
                      && View() == Next(between, SetCurrentRoom(id))
                      && announced == old(announced) + [RoomUpdated(id)] + messages + Announced(between, SetCurrentRoom(id)))
    {
      if id == "" || session.None? {
        return Unchanged;
      }
      var players: seq<Player> := [];
      for i := 0 to |session.value|
        invariant i <= gone
        invariant |players| == i && forall k :: 0 <= k < i ==> players[k] == Built(session.value[k])
      {
        if i == gone {
          return Failed;
        }
        var member := session.value[i];
        var name, image := "Unknown", "";
        if member.champion.Known? {
          name, image := member.champion.name, member.champion.imageURL;
        }
        players := players + [Player(member.gameName, member.tagLine, name, image, member.championId, DEFAULT_HASTE,
                                     [Spell(GetSpellName(member.spell1Id), true, GetSpellCooldown(member.spell1Id), ZERO_TIME, 0),
                                      Spell(GetSpellName(member.spell2Id), true, GetSpellCooldown(member.spell2Id), ZERO_TIME, 0)])];
      }
      assert players == BuiltAll(session.value);
      outcome := ReplacePlayers(id, players, now, get, save);
      if outcome.Updated? {
        announced := announced + [RoomUpdated(id)];
        OtherRequests(others, messages);
        SetCurrentRoomID(id);
      }
    }

    method RefreshRoom(room: Room, v: Visit) returns (failed: bool, changed: bool)
      requires v.id in store && room == store[v.id]
      modifies this`store
      ensures Refreshing(store, if changed && !failed then [room.id] else [], failed) == RefreshOne(old(store), v)
    {
      if v.cancelled {
        return true, false;
      }
      var players;
      changed, players := RefreshRoomCooldowns(room.players, v.now);
      if !changed {
        return false, false;
      }
      if v.fault.Lands() {
        store := store[room.id := room.(players := players)];
      }
      return !v.fault.Works?, true;
    }

    /** Saves the rooms that changed, one by one; the list of them is lost if one save fails. */
    method RefreshRooms(rooms: Store, visits: seq<Visit>) returns (failed: bool, updated: seq<string>)
      requires rooms == store && RoomCache.Keyed(store) && DistinctVisits(visits) && AllStored(store, visits, 0)
      modifies this`store
      ensures Refreshing(store, updated, failed) == RefreshFrom(rooms, visits, 0)
    {
      updated := [];
      var i := 0;
      while i < |visits|
        invariant 0 <= i <= |visits|
        invariant AllStored(store, visits, i)
        invariant forall k :: i <= k < |visits| ==> store[visits[k].id] == rooms[visits[k].id]
        invariant RefreshFrom(rooms, visits, 0) == Reporting(updated, RefreshFrom(store, visits, i))
      {
        var v := visits[i];
        RefreshOneKeepsKeys(store, v);
        if !RefreshOne(store, v).failed {
          ReportSoFar(store, visits, i, updated);
        }
        var changed;
        failed, changed := RefreshRoom(rooms[v.id], v);
        if failed {
          return true, [];
        }
        if changed {
          updated := updated + [rooms[v.id].id];
        }
        i := i + 1;
      }
      assert updated + [] == updated;
      return false, updated;
    }

    method RefreshCooldowns(visits: seq<Visit>, list: Fault) returns (failed: bool)
      requires RoomCache.Keyed(store) && Lists(store, visits)
      modifies this`store, this`announced
      ensures var call := Call.RefreshCooldowns(visits, list);
              && View() == Next(old(View()), call) && RoomCache.Keyed(store)
              && announced == old(announced) + Announced(old(View()), call)
              && (failed <==> !list.Works? || RefreshFrom(old(store), visits, 0).failed)
    {
      if !list.Works? {
        return true;
      }
      RefreshKeepsKeys(store, visits, 0);
      var updated;
      failed, updated := RefreshRooms(store, visits);
      if !failed {
        Announce(updated);
      }
    }

    method Announce(updated: seq<string>)
      modifies this`announced
      ensures announced == old(announced) + AllUpdated(updated)
    {
      for i := 0 to |updated|
        invariant announced == old(announced) + AllUpdated(updated)[..i]
      {
        announced := announced + [RoomUpdated(updated[i])];
      }
    }

    method CleanUpRoom(room: Room, now: Time, v: Visit) returns (failed: bool)
      requires v.id in store && room == store[v.id] && room.id == v.id
      modifies this`store, this`currentRoomID
      ensures Cleaning(View(), failed) == CleanOne(old(View()), now, v)
    {
      if v.cancelled {
        return true;
      }
      if now - room.lastUpdated <= ROOM_EXPIRATION {
        return false;
      }
      if v.fault.Lands() {
        store := store - {room.id};
      }
      if !v.fault.Works? {
        return true;
      }
      if currentRoomID == room.id {
        currentRoomID := "";
      }
      return false;
    }

    method CleanUpListed(rooms: Store, now: Time, visits: seq<Visit>) returns (failed: bool)
      requires rooms == store && RoomCache.Keyed(store) && DistinctVisits(visits) && AllStored(store, visits, 0)
      modifies this`store, this`currentRoomID
      ensures Cleaning(View(), failed) == CleanFrom(old(View()), now, visits, 0)
    {
      var i := 0;
      while i < |visits|
        invariant 0 <= i <= |visits|
        invariant AllStored(store, visits, i)
        invariant forall k :: i <= k < |visits| ==> store[visits[k].id] == rooms[visits[k].id]
        invariant CleanFrom(View(), now, visits, i) == CleanFrom(old(View()), now, visits, 0)
      {
        failed := CleanUpRoom(rooms[visits[i].id], now, visits[i]);
        if failed {
          return true;
        }
        i := i + 1;
      }
      return false;
    }

    method CleanUpOldRooms(now: Time, visits: seq<Visit>, list: Fault) returns (failed: bool)
      requires RoomCache.Keyed(store) && Lists(store, visits)
      modifies this`store, this`currentRoomID
      ensures View() == Next(old(View()), CleanUpRooms(now, visits, list)) && RoomCache.Keyed(store)
      ensures failed <==> !list.Works? || CleanFrom(old(View()), now, visits, 0).failed
    {
      if !list.Works? {
        return true;
      }
      NextKeepsKeyed(View(), CleanUpRooms(now, visits, list));
      failed := CleanUpListed(store, now, visits);
    }
  }

  function Replacing(id: string, team: seq<Member>, now: Time, get: Fault, save: Fault): Call {
    Call.ReplacePlayers(id, BuiltAll(team), now, get, save)
  }

  ghost predicate Interferable(s: State, call: Call, others: seq<Call>)
    requires RoomCache.Keyed(s.store) && Enabled(s, call)
  {
    RoomCache.Keyed(Next(s, call).store) && AllEnabled(Next(s, call), others)
  }
}
