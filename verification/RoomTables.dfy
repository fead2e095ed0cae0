/** A nested room flattened into three tables with serial keys, and regrouped through an index map. */
module RoomTables {
  import opened Common
  import opened Rooms

  datatype PlayerRow = PlayerRow(id: nat, roomId: string, gameName: string, tagLine: string, champion: string,
                                 championImage: string, championId: int, haste: int)

  datatype SpellRow = SpellRow(id: nat, playerId: nat, name: string, isReady: bool, baseCooldown: int,
                               remainingCooldown: int, cooldownEndTime: Option<Time>)

  /** Player and spell rows are listed by ascending serial key; the counters give the next keys. */
  datatype Tables = Tables(rooms: map<string, Time>, players: seq<PlayerRow>, spells: seq<SpellRow>,
                           nextPlayer: nat, nextSpell: nat)

  const EMPTY := Tables(map[], [], [], 0, 0)

  // ---------- writing ----------

  function NullableTime(t: Time): Option<Time> {
    if t == ZERO_TIME then None else Some(t)
  }

  function ToSpellRow(spell: Spell, id: nat, playerId: nat): SpellRow {
    SpellRow(id, playerId, spell.name, spell.isReady, spell.baseCooldown, spell.remainingCooldown,
             NullableTime(spell.cooldownEndTime))
  }

  function ToPlayerRow(player: Player, id: nat, roomId: string): PlayerRow {
    PlayerRow(id, roomId, player.gameName, player.tagLine, player.champion, player.championImage,
              player.championId, player.haste)
  }

  /** Each column holds its own field; an end time is null exactly when the spell has none. */
  lemma ColumnsOf(player: Player, spell: Spell, id: nat, roomId: string, playerId: nat)
    ensures var row := ToPlayerRow(player, id, roomId);
            && row.id == id && row.roomId == roomId && row.gameName == player.gameName && row.tagLine == player.tagLine
            && row.champion == player.champion && row.championImage == player.championImage
            && row.championId == player.championId && row.haste == player.haste
    ensures var row := ToSpellRow(spell, id, playerId);
            && row.id == id && row.playerId == playerId && row.name == spell.name && row.isReady == spell.isReady
            && row.baseCooldown == spell.baseCooldown && row.remainingCooldown == spell.remainingCooldown
            && (row.cooldownEndTime.None? <==> spell.cooldownEndTime == ZERO_TIME)
            && (row.cooldownEndTime.Some? ==> row.cooldownEndTime.value == spell.cooldownEndTime)
  {
  }

  function InsertSpell(t: Tables, playerId: nat, spell: Spell): Tables {
    t.(spells := t.spells + [ToSpellRow(spell, t.nextSpell, playerId)], nextSpell := t.nextSpell + 1)
  }

  function InsertSpells(t: Tables, playerId: nat, spells: seq<Spell>): Tables {
    if spells == [] then t
    else InsertSpell(InsertSpells(t, playerId, spells[..|spells| - 1]), playerId, spells[|spells| - 1])
  }

  function InsertPlayer(t: Tables, roomId: string, player: Player): Tables {
    InsertSpells(t.(players := t.players + [ToPlayerRow(player, t.nextPlayer, roomId)], nextPlayer := t.nextPlayer + 1),
                 t.nextPlayer, player.spells)
  }

  function InsertPlayers(t: Tables, roomId: string, players: seq<Player>): Tables {
    if players == [] then t
    else InsertPlayer(InsertPlayers(t, roomId, players[..|players| - 1]), roomId, players[|players| - 1])
  }

  function PlayersIn(players: seq<PlayerRow>, roomId: string): seq<PlayerRow> {
    if players == [] then []
    else
      var prefix, last := players[..|players| - 1], players[|players| - 1];
      if last.roomId == roomId then PlayersIn(prefix, roomId) + [last] else PlayersIn(prefix, roomId)
  }

  function PlayersElsewhere(players: seq<PlayerRow>, roomId: string): seq<PlayerRow> {
    if players == [] then []
    else
      var prefix, last := players[..|players| - 1], players[|players| - 1];
      if last.roomId == roomId then PlayersElsewhere(prefix, roomId) else PlayersElsewhere(prefix, roomId) + [last]
  }

  function Ids(players: seq<PlayerRow>): set<nat> {
    set p | p in players :: p.id
  }

  function SpellsNotOf(spells: seq<SpellRow>, ids: set<nat>): seq<SpellRow> {
    if spells == [] then []
    else
      var prefix, last := spells[..|spells| - 1], spells[|spells| - 1];
      if last.playerId in ids then SpellsNotOf(prefix, ids) else SpellsNotOf(prefix, ids) + [last]
  }

  /** DELETE FROM players WHERE room_id = ..., cascading to their spells. */
  function DeletePlayers(t: Tables, roomId: string): Tables {
    t.(players := PlayersElsewhere(t.players, roomId),
       spells := SpellsNotOf(t.spells, Ids(PlayersIn(t.players, roomId))))
  }

  function Upserted(t: Tables, room: Room): Tables {
    t.(rooms := t.rooms[room.id := room.lastUpdated])
  }

  function SaveRoom(t: Tables, room: Room): Tables {
    InsertPlayers(DeletePlayers(Upserted(t, room), room.id), room.id, room.players)
  }

  function DeleteRoom(t: Tables, roomId: string): Tables {
    DeletePlayers(t, roomId).(rooms := t.rooms - {roomId})
  }

  // ---------- reading ----------

  function ToSpell(row: SpellRow): Spell {
    Spell(row.name, row.isReady, row.baseCooldown,
          if row.cooldownEndTime.Some? then row.cooldownEndTime.value else ZERO_TIME, row.remainingCooldown)
  }

  function ToPlayer(row: PlayerRow, spells: seq<Spell>): Player {
    Player(row.gameName, row.tagLine, row.champion, row.championImage, row.championId, row.haste, spells)
  }

  /** The spells of one player, by ascending key. */
  function SpellsOf(spells: seq<SpellRow>, playerId: nat): seq<Spell> {
    if spells == [] then []
    else
      var prefix, last := spells[..|spells| - 1], spells[|spells| - 1];
      if last.playerId == playerId then SpellsOf(prefix, playerId) + [ToSpell(last)] else SpellsOf(prefix, playerId)
  }

  function Gather(rows: seq<PlayerRow>, spells: seq<SpellRow>): (players: seq<Player>)
    ensures |players| == |rows|
    ensures forall k :: 0 <= k < |rows| ==> players[k] == ToPlayer(rows[k], SpellsOf(spells, rows[k].id))
  {
    if rows == [] then []
    else
      var prefix, last := rows[..|rows| - 1], rows[|rows| - 1];
      Gather(prefix, spells) + [ToPlayer(last, SpellsOf(spells, last.id))]
  }

  /** The players a room reads back with. */
  function Shown(t: Tables, roomId: string): seq<Player> {
    Gather(PlayersIn(t.players, roomId), t.spells)
  }

  /** What a room is, said of the tables: its player rows by key, each with its spell rows by key. */
  function LoadRoom(t: Tables, roomId: string): Option<Room> {
    if roomId !in t.rooms then None
    else Some(Room(roomId, Shown(t, roomId), t.rooms[roomId]))
  }

  // ---------- integrity ----------

  ghost predicate PlayersAscend(players: seq<PlayerRow>) {
    forall i, j :: 0 <= i < j < |players| ==> players[i].id < players[j].id
  }

  ghost predicate SpellsAscend(spells: seq<SpellRow>) {
    forall i, j :: 0 <= i < j < |spells| ==> spells[i].id < spells[j].id
  }

  /** Serial keys ascend and stay below the counters; references point to existing rows. */
  ghost predicate Valid(t: Tables) {
    && PlayersAscend(t.players)
    && SpellsAscend(t.spells)
    && (forall p :: p in t.players ==> p.id < t.nextPlayer && p.roomId in t.rooms)
    && (forall s :: s in t.spells ==> s.id < t.nextSpell && s.playerId in Ids(t.players))
  }

  lemma {:induction false} ElsewhereIsFiltered(players: seq<PlayerRow>, roomId: string)
    ensures forall p :: p in PlayersElsewhere(players, roomId) <==> p in players && p.roomId != roomId
    ensures forall p :: p in PlayersIn(players, roomId) <==> p in players && p.roomId == roomId
  {
    if players != [] {
      ElsewhereIsFiltered(players[..|players| - 1], roomId);
    }
  }

  lemma {:induction false} ElsewhereAscends(players: seq<PlayerRow>, roomId: string)
    requires PlayersAscend(players)
    ensures PlayersAscend(PlayersElsewhere(players, roomId))
  {
    if players != [] {
      var prefix, last := players[..|players| - 1], players[|players| - 1];
      ElsewhereAscends(prefix, roomId);
      ElsewhereIsFiltered(prefix, roomId);
      var rest := PlayersElsewhere(prefix, roomId);
      forall i | 0 <= i < |rest|
        ensures rest[i].id < last.id
      {
        assert rest[i] in rest;
        var k :| 0 <= k < |prefix| && prefix[k] == rest[i];
        assert players[k] == prefix[k];
      }
    }
  }

  lemma {:induction false} SpellsNotOfIsFiltered(spells: seq<SpellRow>, ids: set<nat>)
    ensures forall s :: s in SpellsNotOf(spells, ids) <==> s in spells && s.playerId !in ids
  {
    if spells != [] {
      SpellsNotOfIsFiltered(spells[..|spells| - 1], ids);
    }
  }

  lemma {:induction false} SpellsNotOfAscends(spells: seq<SpellRow>, ids: set<nat>)
    requires SpellsAscend(spells)
    ensures SpellsAscend(SpellsNotOf(spells, ids))
  {
    if spells != [] {
      var prefix, last := spells[..|spells| - 1], spells[|spells| - 1];
      SpellsNotOfAscends(prefix, ids);
      SpellsNotOfIsFiltered(prefix, ids);
      var rest := SpellsNotOf(prefix, ids);
      forall i | 0 <= i < |rest|
        ensures rest[i].id < last.id
      {
        assert rest[i] in rest;
        var k :| 0 <= k < |prefix| && prefix[k] == rest[i];
        assert spells[k] == prefix[k];
      }
    }
  }

  lemma DeletePlayersKeepsValid(t: Tables, roomId: string)
    requires Valid(t)
    ensures Valid(DeletePlayers(t, roomId))
    ensures roomId !in set p | p in DeletePlayers(t, roomId).players :: p.roomId
  {
    ElsewhereIsFiltered(t.players, roomId);
    ElsewhereAscends(t.players, roomId);
    SpellsNotOfIsFiltered(t.spells, Ids(PlayersIn(t.players, roomId)));
    SpellsNotOfAscends(t.spells, Ids(PlayersIn(t.players, roomId)));
    var u := DeletePlayers(t, roomId);
    forall s | s in u.spells
      ensures s.id < u.nextSpell && s.playerId in Ids(u.players)
    {
      var p :| p in t.players && p.id == s.playerId;
      assert p.roomId == roomId ==> p in PlayersIn(t.players, roomId);
      assert p in u.players;
    }
  }

  lemma {:induction false} InsertSpellsKeepsValid(t: Tables, playerId: nat, spells: seq<Spell>)
    requires Valid(t) && playerId in Ids(t.players)
    ensures var u := InsertSpells(t, playerId, spells);
            Valid(u) && u.players == t.players && u.rooms == t.rooms && u.nextPlayer == t.nextPlayer
  {
    if spells != [] {
      InsertSpellsKeepsValid(t, playerId, spells[..|spells| - 1]);
      var before := InsertSpells(t, playerId, spells[..|spells| - 1]);
      forall s | s in before.spells
        ensures s.id < before.nextSpell
      {
      }
    }
  }

  lemma InsertPlayerKeepsValid(t: Tables, roomId: string, player: Player)
    requires Valid(t) && roomId in t.rooms
    ensures Valid(InsertPlayer(t, roomId, player)) && InsertPlayer(t, roomId, player).rooms == t.rooms
  {
    var row := ToPlayerRow(player, t.nextPlayer, roomId);
    var u := t.(players := t.players + [row], nextPlayer := t.nextPlayer + 1);
    assert row in u.players;
    forall i | 0 <= i < |t.players|
      ensures t.players[i].id < t.nextPlayer
    {
      assert t.players[i] in t.players;
    }
    forall s | s in u.spells
      ensures s.playerId in Ids(u.players)
    {
      var p :| p in t.players && p.id == s.playerId;
      assert p in u.players;
    }
    InsertSpellsKeepsValid(u, t.nextPlayer, player.spells);
  }

  lemma {:induction false} InsertPlayersKeepsValid(t: Tables, roomId: string, players: seq<Player>)
    requires Valid(t) && roomId in t.rooms
    ensures Valid(InsertPlayers(t, roomId, players)) && InsertPlayers(t, roomId, players).rooms == t.rooms
  {
    if players != [] {
      InsertPlayersKeepsValid(t, roomId, players[..|players| - 1]);
      InsertPlayerKeepsValid(InsertPlayers(t, roomId, players[..|players| - 1]), roomId, players[|players| - 1]);
    }
  }

  /** Saving and deleting keep keys and references sound. */
  lemma WritesKeepValid(t: Tables, room: Room, roomId: string)
    requires Valid(t)
    ensures Valid(SaveRoom(t, room)) && Valid(DeleteRoom(t, roomId))
  {
    var upserted := Upserted(t, room);
    DeletePlayersKeepsValid(upserted, room.id);
    InsertPlayersKeepsValid(DeletePlayers(upserted, room.id), room.id, room.players);
    DeletePlayersKeepsValid(t, roomId);
    var u := DeleteRoom(t, roomId);
    ElsewhereIsFiltered(t.players, roomId);
  }

  // ---------- round trip ----------

  lemma {:induction false} SpellsOfInserted(t: Tables, playerId: nat, spells: seq<Spell>, other: nat)
    ensures var u := InsertSpells(t, playerId, spells);
            SpellsOf(u.spells, other) == SpellsOf(t.spells, other) + if other == playerId then spells else []
  {
    if spells != [] {
      var prefix, last := spells[..|spells| - 1], spells[|spells| - 1];
      SpellsOfInserted(t, playerId, prefix, other);
      var before := InsertSpells(t, playerId, prefix);
      var row := ToSpellRow(last, before.nextSpell, playerId);
      assert (before.spells + [row])[..|before.spells|] == before.spells;
      assert ToSpell(row) == last;
      assert prefix + [last] == spells;
    }
  }

  lemma {:induction false} NoSpellsYet(spells: seq<SpellRow>, playerId: nat)
    requires forall s :: s in spells ==> s.playerId != playerId
    ensures SpellsOf(spells, playerId) == []
  {
    if spells != [] {
      assert spells[|spells| - 1] in spells;
      NoSpellsYet(spells[..|spells| - 1], playerId);
    }
  }

  lemma GatherUnchanged(rows: seq<PlayerRow>, spells: seq<SpellRow>, spells': seq<SpellRow>)
    requires forall p :: p in rows ==> SpellsOf(spells, p.id) == SpellsOf(spells', p.id)
    ensures Gather(rows, spells) == Gather(rows, spells')
  {
  }

  lemma InsertedPlayerSpells(t: Tables, roomId: string, player: Player, id: nat)
    requires Valid(t)
    ensures SpellsOf(InsertPlayer(t, roomId, player).spells, id)
            == if id == t.nextPlayer then player.spells else SpellsOf(t.spells, id)
  {
    var row := ToPlayerRow(player, t.nextPlayer, roomId);
    SpellsOfInserted(t.(players := t.players + [row], nextPlayer := t.nextPlayer + 1), t.nextPlayer, player.spells, id);
    if id == t.nextPlayer {
      forall s | s in t.spells
        ensures s.playerId != id
      {
        var p :| p in t.players && p.id == s.playerId;
      }
      NoSpellsYet(t.spells, id);
    }
  }

  /** One insertion appends one player to its room and shows nowhere else. */
  lemma InsertedPlayerShows(t: Tables, roomId: string, player: Player, other: string)
    requires Valid(t)
    ensures Shown(InsertPlayer(t, roomId, player), other)
            == Shown(t, other) + if other == roomId then [player] else []
  {
    var u := InsertPlayer(t, roomId, player);
    var row := ToPlayerRow(player, t.nextPlayer, roomId);
    InsertSpellsOnlyAddsSpells(t.(players := t.players + [row], nextPlayer := t.nextPlayer + 1), t.nextPlayer, player.spells);
    assert u.players == t.players + [row];
    assert u.players[..|u.players| - 1] == t.players;
    var rows := PlayersIn(t.players, other);
    ElsewhereIsFiltered(t.players, other);
    forall p | p in rows
      ensures SpellsOf(t.spells, p.id) == SpellsOf(u.spells, p.id)
    {
      InsertedPlayerSpells(t, roomId, player, p.id);
    }
    GatherUnchanged(rows, t.spells, u.spells);
    if other == roomId {
      InsertedPlayerSpells(t, roomId, player, t.nextPlayer);
      assert PlayersIn(u.players, other) == rows + [row];
      assert (rows + [row])[..|rows|] == rows;
      assert ToPlayer(row, player.spells) == player;
    }
  }

  lemma {:induction false} InsertSpellsOnlyAddsSpells(t: Tables, playerId: nat, spells: seq<Spell>)
    ensures InsertSpells(t, playerId, spells).players == t.players
  {
    if spells != [] {
      InsertSpellsOnlyAddsSpells(t, playerId, spells[..|spells| - 1]);
    }
  }

  lemma OneMoreInserted(t: Tables, roomId: string, players: seq<Player>)
    requires players != []
    ensures InsertPlayers(t, roomId, players)
            == InsertPlayer(InsertPlayers(t, roomId, players[..|players| - 1]), roomId, players[|players| - 1])
  {
  }

  lemma {:induction false} InsertedPlayersShow(t: Tables, roomId: string, players: seq<Player>, other: string)
    requires Valid(t) && roomId in t.rooms
    ensures Shown(InsertPlayers(t, roomId, players), other)
            == Shown(t, other) + if other == roomId then players else []
  {
    if players != [] {
      var prefix := players[..|players| - 1];
      InsertedPlayersShow(t, roomId, prefix, other);
      InsertPlayersKeepsValid(t, roomId, prefix);
      OneMoreInserted(t, roomId, players);
      OneMoreShows(t, InsertPlayers(t, roomId, prefix), InsertPlayers(t, roomId, players), roomId, players, other);
    }
  }

  lemma OneMoreShows(t: Tables, before: Tables, after: Tables, roomId: string, players: seq<Player>, other: string)
    requires players != [] && Valid(before) && after == InsertPlayer(before, roomId, players[|players| - 1])
    requires Shown(before, other) == Shown(t, other) + if other == roomId then players[..|players| - 1] else []
    ensures Shown(after, other) == Shown(t, other) + if other == roomId then players else []
  {
    InsertedPlayerShows(before, roomId, players[|players| - 1], other);
    assert players == players[..|players| - 1] + [players[|players| - 1]];
  }

  lemma {:induction false} SpellsOfSurvivors(spells: seq<SpellRow>, ids: set<nat>, playerId: nat)
    requires playerId !in ids
    ensures SpellsOf(SpellsNotOf(spells, ids), playerId) == SpellsOf(spells, playerId)
  {
    if spells != [] {
      var prefix, last := spells[..|spells| - 1], spells[|spells| - 1];
      SpellsOfSurvivors(prefix, ids, playerId);
      var rest := SpellsNotOf(prefix, ids);
      assert (rest + [last])[..|rest|] == rest;
    }
  }

  lemma {:induction false} PlayersInElsewhere(players: seq<PlayerRow>, roomId: string, other: string)
    ensures PlayersIn(PlayersElsewhere(players, roomId), other) == if other == roomId then [] else PlayersIn(players, other)
  {
    if players != [] {
      var prefix, last := players[..|players| - 1], players[|players| - 1];
      PlayersInElsewhere(prefix, roomId, other);
      var rest := PlayersElsewhere(prefix, roomId);
      assert (rest + [last])[..|rest|] == rest;
    }
  }

  /** Deleting a room's players empties that room and leaves every other room as it reads. */
  lemma DeletedPlayersShow(t: Tables, roomId: string, other: string)
    requires Valid(t)
    ensures Shown(DeletePlayers(t, roomId), other) == if other == roomId then [] else Shown(t, other)
  {
    var u := DeletePlayers(t, roomId);
    PlayersInElsewhere(t.players, roomId, other);
    if other != roomId {
      var gone := PlayersIn(t.players, roomId);
      ElsewhereIsFiltered(t.players, roomId);
      ElsewhereIsFiltered(t.players, other);
      forall p | p in PlayersIn(t.players, other)
        ensures SpellsOf(t.spells, p.id) == SpellsOf(u.spells, p.id)
      {
        KeysIdentify(t, p, gone);
        SpellsOfSurvivors(t.spells, Ids(gone), p.id);
      }
      GatherUnchanged(PlayersIn(t.players, other), t.spells, u.spells);
    }
  }

  lemma KeysIdentify(t: Tables, p: PlayerRow, rows: seq<PlayerRow>)
    requires Valid(t) && p in t.players && (forall q :: q in rows ==> q in t.players) && p !in rows
    ensures p.id !in Ids(rows)
  {
  }

  lemma SavedPlayersShow(t: Tables, room: Room, other: string)
    requires Valid(t)
    ensures Shown(SaveRoom(t, room), other) == if other == room.id then room.players else Shown(t, other)
  {
    var upserted := Upserted(t, room);
    assert Shown(upserted, other) == Shown(t, other);
    DeletePlayersKeepsValid(upserted, room.id);
    DeletedPlayersShow(upserted, room.id, other);
    InsertedPlayersShow(DeletePlayers(upserted, room.id), room.id, room.players, other);
  }

  lemma SavedRoomsListed(t: Tables, room: Room)
    requires Valid(t)
    ensures SaveRoom(t, room).rooms == t.rooms[room.id := room.lastUpdated]
  {
    DeletePlayersKeepsValid(Upserted(t, room), room.id);
    InsertPlayersKeepsValid(DeletePlayers(Upserted(t, room), room.id), room.id, room.players);
  }

  /** What was saved is read back, players and spells in order and zero end times restored, whatever was stored before;
      every other room reads as before. */
  lemma SavedRoomReadsBack(t: Tables, room: Room, other: string)
    requires Valid(t)
    ensures LoadRoom(SaveRoom(t, room), room.id) == Some(room)
    ensures other != room.id ==> LoadRoom(SaveRoom(t, room), other) == LoadRoom(t, other)
  {
    SavedRoomsListed(t, room);
    SavedPlayersShow(t, room, room.id);
    SavedPlayersShow(t, room, other);
  }

  /** A deleted room is gone and every other room reads as before. */
  lemma DeletedRoomIsGone(t: Tables, roomId: string, other: string)
    requires Valid(t)
    ensures LoadRoom(DeleteRoom(t, roomId), roomId) == None
    ensures other != roomId ==> LoadRoom(DeleteRoom(t, roomId), other) == LoadRoom(t, other)
  {
    DeletedPlayersShow(t, roomId, other);
  }

  /** The tables as a plain map from IDs to rooms. */
  function Contents(t: Tables): map<string, Room> {
    map id | id in t.rooms :: Room(id, Shown(t, id), t.rooms[id])
  }

  lemma ContentsAre(t: Tables, m: map<string, Room>)
    requires t.rooms.Keys == m.Keys
    requires forall k :: k in t.rooms ==> m[k] == Room(k, Shown(t, k), t.rooms[k])
    ensures Contents(t) == m
  {
  }

  /** Seen through Contents the three tables are one map: saving sets a key ... */
  lemma SavingSetsAKey(t: Tables, room: Room)
    requires Valid(t)
    ensures Contents(SaveRoom(t, room)) == Contents(t)[room.id := room]
  {
    var u := SaveRoom(t, room);
    SavedRoomsListed(t, room);
    forall k | k in u.rooms
      ensures Contents(t)[room.id := room][k] == Room(k, Shown(u, k), u.rooms[k])
    {
      SavedPlayersShow(t, room, k);
    }
    ContentsAre(u, Contents(t)[room.id := room]);
  }

  /** ... and deleting removes one. */
  lemma DeletingRemovesAKey(t: Tables, id: string)
    requires Valid(t)
    ensures Contents(DeleteRoom(t, id)) == Contents(t) - {id}
  {
    var u := DeleteRoom(t, id);
    forall k | k in u.rooms
      ensures (Contents(t) - {id})[k] == Room(k, Shown(u, k), u.rooms[k])
    {
      DeletedPlayersShow(t, id, k);
      assert Shown(u, k) == Shown(DeletePlayers(t, id), k);
    }
    ContentsAre(u, Contents(t) - {id});
  }
}
