/** The room repository: loops that write and read the tables, against what the tables mean. */
module RoomRepository {
  import opened Common
  import opened Rooms
  import opened RoomTables

  /** The answer of the spell query: the spells joined with the room's players, by ascending key. */
  function JoinedSpells(spells: seq<SpellRow>, ids: set<nat>): seq<SpellRow> {
    if spells == [] then []
    else
      var prefix, last := spells[..|spells| - 1], spells[|spells| - 1];
      if last.playerId in ids then JoinedSpells(prefix, ids) + [last] else JoinedSpells(prefix, ids)
  }

  lemma {:induction false} JoinKeepsSpellsOf(spells: seq<SpellRow>, ids: set<nat>, id: nat)
    requires id in ids
    ensures SpellsOf(JoinedSpells(spells, ids), id) == SpellsOf(spells, id)
  {
    if spells != [] {
      var prefix, last := spells[..|spells| - 1], spells[|spells| - 1];
      JoinKeepsSpellsOf(prefix, ids, id);
      var rest := JoinedSpells(prefix, ids);
      assert (rest + [last])[..|rest|] == rest;
    }
  }

  lemma {:induction false} JoinedBelong(spells: seq<SpellRow>, ids: set<nat>)
    ensures forall s :: s in JoinedSpells(spells, ids) ==> s.playerId in ids
  {
    if spells != [] {
      JoinedBelong(spells[..|spells| - 1], ids);
    }
  }

  lemma {:induction false} PlayersInAscend(players: seq<PlayerRow>, roomId: string)
    requires PlayersAscend(players)
    ensures PlayersAscend(PlayersIn(players, roomId))
  {
    if players != [] {
      var prefix, last := players[..|players| - 1], players[|players| - 1];
      PlayersInAscend(prefix, roomId);
      ElsewhereIsFiltered(prefix, roomId);
      var rows := PlayersIn(prefix, roomId);
      forall i | 0 <= i < |rows|
        ensures rows[i].id < last.id
      {
        assert rows[i] in rows;
        var k :| 0 <= k < |prefix| && prefix[k] == rows[i];
        assert players[k] == prefix[k];
      }
    }
  }

  /** The index map sends the key of each player row to its position in the slice. */
  ghost predicate Indexed(rows: seq<PlayerRow>, indexes: map<nat, nat>) {
    && (forall k :: 0 <= k < |rows| ==> rows[k].id in indexes && indexes[rows[k].id] == k)
    && (forall id :: id in indexes ==> indexes[id] < |rows| && rows[indexes[id]].id == id)
  }

  /** A sequence of IDs as ORDER BY last_updated DESC may list them. */
  ghost predicate Listing(rooms: map<string, Time>, order: seq<string>) {
    && (forall i, j :: 0 <= i < j < |order| ==> order[i] != order[j])
    && (forall id :: id in order <==> id in rooms)
    && (forall i, j :: 0 <= i < j < |order| ==> rooms[order[i]] >= rooms[order[j]])
  }

  method InsertSpellRows(t: Tables, playerId: nat, spells: seq<Spell>) returns (u: Tables)
    ensures u == InsertSpells(t, playerId, spells)
  {
    u := t;
    var i := 0;
    while i < |spells|
      invariant 0 <= i <= |spells|
      invariant u == InsertSpells(t, playerId, spells[..i])
    {
      u := InsertSpell(u, playerId, spells[i]);
      i := i + 1;
      assert spells[..i][..i - 1] == spells[..i - 1];
    }
    assert spells[..i] == spells;
  }

  /** Inserts the player, learns its new key, and inserts its spells under that key. */
  method SavePlayer(t: Tables, roomId: string, player: Player) returns (u: Tables)
    ensures u == InsertPlayer(t, roomId, player)
  {
    var playerId := t.nextPlayer;
    u := t.(players := t.players + [ToPlayerRow(player, playerId, roomId)], nextPlayer := playerId + 1);
    u := InsertSpellRows(u, playerId, player.spells);
  }

  /** Works on the transaction's own view of the tables. */
  method SaveRoomRows(t: Tables, room: Room) returns (u: Tables)
    ensures u == SaveRoom(t, room)
  {
    var cleared := DeletePlayers(Upserted(t, room), room.id);
    u := cleared;
    var i := 0;
    while i < |room.players|
      invariant 0 <= i <= |room.players|
      invariant u == InsertPlayers(cleared, room.id, room.players[..i])
    {
      u := SavePlayer(u, room.id, room.players[i]);
      i := i + 1;
      assert room.players[..i][..i - 1] == room.players[..i - 1];
    }
    assert room.players[..i] == room.players;
  }

  method LoadPlayers(rows: seq<PlayerRow>) returns (players: seq<Player>, indexes: map<nat, nat>)
    requires PlayersAscend(rows)
    ensures |players| == |rows| && forall k :: 0 <= k < |rows| ==> players[k] == ToPlayer(rows[k], [])
    ensures Indexed(rows, indexes)
  {
    players, indexes := [], map[];
    var i := 0;
    while i < |rows|
      invariant 0 <= i <= |rows| && |players| == i
      invariant forall k :: 0 <= k < i ==> players[k] == ToPlayer(rows[k], [])
      invariant Indexed(rows[..i], indexes)
    {
      indexes := indexes[rows[i].id := |players|];
      players := players + [ToPlayer(rows[i], [])];
      i := i + 1;
    }
    assert rows[..i] == rows;
  }

  /** Appends each spell row to the player its index points at; a row of a player that was not loaded is an error. */
  method LoadSpells(spells: seq<SpellRow>, loaded: seq<Player>, indexes: map<nat, nat>, ghost rows: seq<PlayerRow>)
    returns (players: Result<seq<Player>>)
    requires |loaded| == |rows| && Indexed(rows, indexes)
    requires forall k :: 0 <= k < |rows| ==> loaded[k] == ToPlayer(rows[k], [])
    ensures players.Ok? <==> forall s :: s in spells ==> s.playerId in indexes
    ensures players.Ok? ==> players.value == Gather(rows, spells)
  {
    var grouped := loaded;
    var i := 0;
    while i < |spells|
      invariant 0 <= i <= |spells| && |grouped| == |rows|
      invariant forall s :: s in spells[..i] ==> s.playerId in indexes
      invariant forall k :: 0 <= k < |rows| ==> grouped[k] == ToPlayer(rows[k], SpellsOf(spells[..i], rows[k].id))
    {
      var row := spells[i];
      assert spells[..i + 1][..i] == spells[..i];
      assert row in spells;
      if row.playerId !in indexes {
        return Error("player not found while loading room");
      }
      var k := indexes[row.playerId];
      grouped := grouped[k := grouped[k].(spells := grouped[k].spells + [ToSpell(row)])];
      i := i + 1;
    }
    assert spells[..i] == spells;
    assert grouped == Gather(rows, spells);
    return Ok(grouped);
  }

  class Repository {
    var tables: Tables

    constructor ()
      ensures tables == EMPTY && Valid(tables)
    {
      tables := EMPTY;
    }

    /** All the rows of a room are replaced in one transaction, or none. */
    method Save(room: Option<Room>, fault: Fault) returns (failed: bool)
      requires Valid(tables)
      modifies this
      ensures Valid(tables)
      ensures room.None? ==> !failed && tables == old(tables)
      ensures room.Some? ==>
                && (failed <==> !fault.Works?)
                && tables == if fault.Lands() then SaveRoom(old(tables), room.value) else old(tables)
    {
      if room.None? {
        return false;
      }
      var written := SaveRoomRows(tables, room.value);
      WritesKeepValid(tables, room.value, "");
      if fault.Lands() {
        tables := written;
      }
      return !fault.Works?;
    }

    method LoadRoomRows(id: string, fault: Fault) returns (room: Result<Option<Room>>)
      requires Valid(tables)
      ensures room.Ok? <==> fault.Works?
      ensures room.Ok? ==> room.value == LoadRoom(tables, id)
    {
      if !fault.Works? {
        return Error("select room");
      }
      if id !in tables.rooms {
        return Ok(None);
      }
      var rows := PlayersIn(tables.players, id);
      PlayersInAscend(tables.players, id);
      var players, indexes := LoadPlayers(rows);
      var spells := JoinedSpells(tables.spells, Ids(rows));
      JoinedBelong(tables.spells, Ids(rows));
      var grouped := LoadSpells(spells, players, indexes, rows);
      forall p | p in rows
        ensures SpellsOf(spells, p.id) == SpellsOf(tables.spells, p.id)
      {
        JoinKeepsSpellsOf(tables.spells, Ids(rows), p.id);
      }
      GatherUnchanged(rows, spells, tables.spells);
      return Ok(Some(Room(id, grouped.value, tables.rooms[id])));
    }

    /** The empty ID names no room, even one that was saved. */
    method Get(id: string, fault: Fault) returns (room: Result<Option<Room>>)
      requires Valid(tables)
      ensures id == "" ==> room == Ok(None)
      ensures id != "" ==> (room.Ok? <==> fault.Works?) && (room.Ok? ==> room.value == LoadRoom(tables, id))
    {
      if id == "" {
        return Ok(None);
      }
      room := LoadRoomRows(id, fault);
    }

    /** `order` is the database's answer to the listing query. */
    method GetAll(order: seq<string>, fault: Fault) returns (rooms: Result<seq<Room>>)
      requires Valid(tables) && Listing(tables.rooms, order)
      ensures rooms.Ok? <==> fault.Works?
      ensures rooms.Ok? ==>
                && |rooms.value| == |order|
                && forall k :: 0 <= k < |order| ==> LoadRoom(tables, order[k]) == Some(rooms.value[k])
    {
      if !fault.Works? {
        return Error("select room ids");
      }
      var all := [];
      var i := 0;
      while i < |order|
        invariant 0 <= i <= |order| && |all| == i
        invariant forall k :: 0 <= k < i ==> LoadRoom(tables, order[k]) == Some(all[k])
      {
        var room := LoadRoomRows(order[i], fault);
        assert order[i] in order;
        if room.value.Some? {
          all := all + [room.value.value];
        }
        i := i + 1;
      }
      return Ok(all);
    }

    method Delete(id: string, fault: Fault) returns (failed: bool)
      requires Valid(tables)
      modifies this
      ensures Valid(tables)
      ensures failed <==> !fault.Works?
      ensures tables == if fault.Lands() then DeleteRoom(old(tables), id) else old(tables)
    {
      WritesKeepValid(tables, Room("", [], ZERO_TIME), id);
      if fault.Lands() {
        tables := DeleteRoom(tables, id);
      }
      return !fault.Works?;
    }
  }
}
