/** Rooms, their players and the summoner spells being timed. */
module Rooms {
  import opened Common

  datatype Spell = Spell(name: string, isReady: bool, baseCooldown: int, cooldownEndTime: Time, remainingCooldown: int)

  datatype Player = Player(gameName: string, tagLine: string, champion: string, championImage: string,
                           championId: int, haste: int, spells: seq<Spell>)

  datatype Room = Room(id: string, players: seq<Player>, lastUpdated: Time)
}
