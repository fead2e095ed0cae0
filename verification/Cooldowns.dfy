/** The players of a room and their running cooldowns: joining, synchronizing, pressing and refreshing. */
module Cooldowns {
  import opened Common
  import opened Rooms
  import opened SummonerSpells

  // ---------- refreshing ----------

  /** Whole seconds left, truncated toward zero. */
  function SecondsLeft(end: Time, now: Time): int { Quotient(end - now, SECOND) }

  function RefreshSpell(spell: Spell, now: Time): Spell {
    if spell.isReady || spell.cooldownEndTime == ZERO_TIME then spell.(remainingCooldown := 0)
    else if SecondsLeft(spell.cooldownEndTime, now) <= 0 then
      spell.(isReady := true, remainingCooldown := 0, cooldownEndTime := ZERO_TIME)
    else spell.(remainingCooldown := SecondsLeft(spell.cooldownEndTime, now))
  }

  function RefreshSpells(spells: seq<Spell>, now: Time): seq<Spell> {
    seq(|spells|, i requires 0 <= i < |spells| => RefreshSpell(spells[i], now))
  }

  function RefreshPlayer(player: Player, now: Time): Player {
    player.(spells := RefreshSpells(player.spells, now))
  }

  function RefreshPlayers(players: seq<Player>, now: Time): seq<Player> {
    seq(|players|, i requires 0 <= i < |players| => RefreshPlayer(players[i], now))
  }

  method RefreshSpellList(spells: seq<Spell>, now: Time) returns (changed: bool, refreshed: seq<Spell>)
    ensures refreshed == RefreshSpells(spells, now)
    ensures changed <==> refreshed != spells
  {
    changed, refreshed := false, spells;
    for i := 0 to |spells|
      invariant |refreshed| == |spells|
      invariant forall k :: 0 <= k < i ==> refreshed[k] == RefreshSpell(spells[k], now)
      invariant forall k :: i <= k < |spells| ==> refreshed[k] == spells[k]
      invariant changed <==> refreshed != spells
    {
      var spell := refreshed[i];
      if spell.isReady || spell.cooldownEndTime == ZERO_TIME {
        if spell.remainingCooldown != 0 {
          spell := spell.(remainingCooldown := 0);
          refreshed := refreshed[i := spell];
          changed := true;
          assert refreshed[i] != spells[i];
        }
        continue;
      }
      var remaining := SecondsLeft(spell.cooldownEndTime, now);
      if remaining <= 0 {
        spell := spell.(isReady := true, remainingCooldown := 0, cooldownEndTime := ZERO_TIME);
        refreshed := refreshed[i := spell];
        changed := true;
        assert refreshed[i] != spells[i];
        continue;
      }
      if spell.remainingCooldown != remaining {
        spell := spell.(remainingCooldown := remaining);
        refreshed := refreshed[i := spell];
        changed := true;
        assert refreshed[i] != spells[i];
      }
    }
  }

  /** The flag is raised exactly when some player's spells changed. */
  method RefreshRoomCooldowns(players: seq<Player>, now: Time) returns (changed: bool, refreshed: seq<Player>)
    ensures refreshed == RefreshPlayers(players, now)
    ensures changed <==> refreshed != players
  {
    changed, refreshed := false, players;
    for i := 0 to |players|
      invariant |refreshed| == |players|
      invariant forall k :: 0 <= k < i ==> refreshed[k] == RefreshPlayer(players[k], now)
      invariant forall k :: i <= k < |players| ==> refreshed[k] == players[k]
      invariant changed <==> refreshed != players
    {
      var spellsChanged, spells := RefreshSpellList(refreshed[i].spells, now);
      if spellsChanged {
        refreshed := refreshed[i := refreshed[i].(spells := spells)];
        changed := true;
        assert refreshed[i].spells != players[i].spells;
      }
    }
  }

  // ---------- joining and synchronizing ----------

  function FindPlayer(players: seq<Player>, gameName: string, tagLine: string): (found: Option<nat>)
    ensures found.Some? ==>
              && found.value < |players| && SameRiotId(players[found.value], gameName, tagLine)
              && forall k :: 0 <= k < found.value ==> !SameRiotId(players[k], gameName, tagLine)
    ensures found.None? ==> forall k :: 0 <= k < |players| ==> !SameRiotId(players[k], gameName, tagLine)
  {
    if players == [] then None
    else if SameRiotId(players[0], gameName, tagLine) then Some(0)
    else
      assert forall k :: 1 <= k < |players| ==> players[k] == players[1..][k - 1];
      match FindPlayer(players[1..], gameName, tagLine)
      case None => None
      case Some(i) => Some(i + 1)
  }

  predicate SameRiotId(player: Player, gameName: string, tagLine: string) {
    player.gameName == gameName && player.tagLine == tagLine
  }

  method FindPlayerByRiotId(players: seq<Player>, gameName: string, tagLine: string) returns (found: Option<nat>)
    ensures found == FindPlayer(players, gameName, tagLine)
  {
    for i := 0 to |players|
      invariant forall k :: 0 <= k < i ==> !SameRiotId(players[k], gameName, tagLine)
    {
      if players[i].gameName == gameName && players[i].tagLine == tagLine {
        return Some(i);
      }
    }
    return None;
  }

  const DEFAULT_SPELLS: seq<Spell> := [Spell("Flash", true, 300, ZERO_TIME, 0), Spell("Ignite", true, 180, ZERO_TIME, 0)]

  /** A known player only changes champion; a new one gets the default haste, and default spells if it brings none. */
  function Joined(players: seq<Player>, player: Player): seq<Player> {
    match FindPlayer(players, player.gameName, player.tagLine)
    case Some(i) => players[i := players[i].(champion := player.champion, championId := player.championId)]
    case None =>
      players + [player.(haste := DEFAULT_HASTE, spells := if player.spells == [] then DEFAULT_SPELLS else player.spells)]
  }

  /** The first player with that Riot ID changes champion alone; without one, the player is added at the end with haste 18
      and, if it brings no spells, a ready Flash and a ready Ignite. */
  predicate JoinedAs(before: seq<Player>, after: seq<Player>, player: Player) {
    match FindPlayer(before, player.gameName, player.tagLine)
    case Some(i) =>
      && |after| == |before| && after == before[i := after[i]]
      && after[i] == before[i].(champion := player.champion, championId := player.championId)
    case None =>
      && |after| == |before| + 1 && after[..|before|] == before
      && var added := after[|before|];
         && added.gameName == player.gameName && added.tagLine == player.tagLine && added.champion == player.champion
         && added.championImage == player.championImage && added.championId == player.championId && added.haste == 18
         && added.spells == if player.spells != [] then player.spells
                            else [Spell("Flash", true, 300, ZERO_TIME, 0), Spell("Ignite", true, 180, ZERO_TIME, 0)]
  }

  lemma JoinMeans(players: seq<Player>, player: Player)
    ensures JoinedAs(players, Joined(players, player), player)
  {
  }

  /** One member of a champ-select session, and what the champion catalog answered about its champion. */
  datatype Champion = Known(name: string, imageURL: string) | Unavailable
  datatype Member = Member(gameName: string, tagLine: string, championId: int, spell1Id: int, spell2Id: int, champion: Champion)

  function ReadySpell(spellId: int): Spell {
    Spell(GetSpellName(spellId), true, GetSpellCooldown(spellId), ZERO_TIME, 0)
  }

  function Built(member: Member): Player {
    Player(member.gameName, member.tagLine,
           if member.champion.Known? then member.champion.name else "Unknown",
           if member.champion.Known? then member.champion.imageURL else "",
           member.championId, DEFAULT_HASTE, [ReadySpell(member.spell1Id), ReadySpell(member.spell2Id)])
  }

  function BuiltAll(team: seq<Member>): seq<Player> {
    seq(|team|, i requires 0 <= i < |team| => Built(team[i]))
  }

  function Carried(previous: seq<Player>, player: Player): Player {
    match FindPlayer(previous, player.gameName, player.tagLine)
    case None => player
    case Some(j) => player.(spells := AllCopied(player.spells, previous[j].spells))
  }

  /** The new players, each with the timers of the spells it still has. */
  function Merged(previous: seq<Player>, players: seq<Player>): seq<Player> {
    seq(|players|, i requires 0 <= i < |players| => Carried(previous, players[i]))
  }

  method MergePlayers(previous: seq<Player>, players: seq<Player>) returns (merged: seq<Player>)
    ensures merged == Merged(previous, players)
  {
    merged := players;
    for i := 0 to |players|
      invariant |merged| == |players|
      invariant forall k :: 0 <= k < i ==> merged[k] == Carried(previous, players[k])
      invariant forall k :: i <= k < |players| ==> merged[k] == players[k]
    {
      var index := FindPlayerByRiotId(previous, merged[i].gameName, merged[i].tagLine);
      if index.Some? {
        var player := CopySpellState(previous[index.value], merged[i]);
        merged := merged[i := player];
      }
    }
  }

  // ---------- all the ways a room's players change ----------

  predicate Hasted(players: seq<Player>) {
    forall p :: p in players ==> p.haste == DEFAULT_HASTE
  }

  datatype Action =
    | Join(player: Player)
    | Sync(team: seq<Member>)
    | Toggle(gameName: string, tagLine: string, spellName: string)
    | Refresh

  datatype Step = Step(at: Time, action: Action)

  predicate Panics(players: seq<Player>, gameName: string, tagLine: string, spellName: string) {
    var i := FindPlayer(players, gameName, tagLine);
    i.Some? && DividesByZero(players[i.value], spellName)
  }

  function Toggling(players: seq<Player>, gameName: string, tagLine: string, spellName: string, now: Time): Option<seq<Player>> {
    if Panics(players, gameName, tagLine, spellName) then None
    else
      match FindPlayer(players, gameName, tagLine)
      case None => None
      case Some(i) =>
        match Toggled(players[i], spellName, now)
        case None => None
        case Some(player) => Some(players[i := player])
  }

  function After(players: seq<Player>, step: Step): seq<Player> {
    match step.action
    case Join(player) => Joined(players, player)
    case Sync(team) => Merged(players, BuiltAll(team))
    case Toggle(gameName, tagLine, spellName) =>
      (match Toggling(players, gameName, tagLine, spellName, step.at)
       case None => players
       case Some(toggled) => toggled)
    case Refresh => RefreshPlayers(players, step.at)
  }

  function Run(players: seq<Player>, steps: seq<Step>): seq<Player> {
    if steps == [] then players else After(Run(players, steps[..|steps| - 1]), steps[|steps| - 1])
  }

  /** The steps' times never run backward, nor precede `start`. */
  predicate Forward(start: Time, steps: seq<Step>) {
    && (forall i :: 0 <= i < |steps| ==> start <= steps[i].at)
    && (forall i, j :: 0 <= i < j < |steps| ==> steps[i].at <= steps[j].at)
  }

  function EndOf(start: Time, steps: seq<Step>): Time { if steps == [] then start else steps[|steps| - 1].at }
}
