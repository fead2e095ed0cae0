/** Synchronizing a room with a champ-select session: who stays, which timers survive, and repeating a session. */
module CooldownMerges {
  import opened Common
  import opened Rooms
  import opened SummonerSpells
  import opened Cooldowns

  predicate SameTimer(a: Spell, b: Spell) {
    a.isReady == b.isReady && a.cooldownEndTime == b.cooldownEndTime && a.remainingCooldown == b.remainingCooldown
  }

  predicate InRoom(players: seq<Player>, gameName: string, tagLine: string) {
    exists i :: 0 <= i < |players| && SameRiotId(players[i], gameName, tagLine)
  }

  /** Exactly the players of the session remain, in its order; departed players vanish. */
  lemma MergeKeepsExactlyTheSession(previous: seq<Player>, players: seq<Player>, gameName: string, tagLine: string)
    ensures InRoom(Merged(previous, players), gameName, tagLine) <==> InRoom(players, gameName, tagLine)
  {
    if InRoom(players, gameName, tagLine) {
      var i :| 0 <= i < |players| && SameRiotId(players[i], gameName, tagLine);
      assert SameRiotId(Merged(previous, players)[i], gameName, tagLine);
    }
  }

  /** The spell shows that spell ID's name and base cooldown. */
  predicate IsSpell(spell: Spell, spellId: int) {
    && spell.name == GetSpellName(spellId) && spell.baseCooldown == GetSpellCooldown(spellId)
  }

  /** The player shows its member: Riot ID, champion as the catalog knows it, haste 18, and both spells in their order. */
  predicate ShowsMember(player: Player, member: Member) {
    && player.gameName == member.gameName && player.tagLine == member.tagLine && player.championId == member.championId
    && player.haste == 18 && |player.spells| == 2
    && IsSpell(player.spells[0], member.spell1Id) && IsSpell(player.spells[1], member.spell2Id)
    && match member.champion
       case Known(name, imageURL) => player.champion == name && player.championImage == imageURL
       case Unavailable => player.champion == "Unknown" && player.championImage == ""
  }

  /** Whatever was in the room, a synchronized room shows the members of the session in their order, and a member who was
      not there before has both spells ready. */
  lemma SynchronizedRoomShowsSession(previous: seq<Player>, team: seq<Member>, i: nat)
    requires i < |team|
    ensures var merged := Merged(previous, BuiltAll(team));
            && |merged| == |team| && ShowsMember(merged[i], team[i])
            && (!InRoom(previous, team[i].gameName, team[i].tagLine) ==>
                  forall k :: 0 <= k < 2 ==> merged[i].spells[k].isReady && merged[i].spells[k].remainingCooldown == 0
                                             && merged[i].spells[k].cooldownEndTime == ZERO_TIME)
  {
    var j := FindPlayer(previous, team[i].gameName, team[i].tagLine);
    if j.Some? {
      assert SameRiotId(previous[j.value], team[i].gameName, team[i].tagLine);
    }
  }

  predicate DistinctIds(players: seq<Player>) {
    forall i, j :: 0 <= i < j < |players| ==> !SameRiotId(players[j], players[i].gameName, players[i].tagLine)
  }

  lemma NamesDecideSearch(a: seq<Spell>, b: seq<Spell>, name: string)
    requires |a| == |b| && forall k :: 0 <= k < |a| ==> a[k].name == b[k].name
    ensures FindSpell(a, name) == FindSpell(b, name)
  {
  }

  lemma IdsDecideSearch(a: seq<Player>, b: seq<Player>, gameName: string, tagLine: string)
    requires |a| == |b| && forall k :: 0 <= k < |a| ==> a[k].gameName == b[k].gameName && a[k].tagLine == b[k].tagLine
    ensures FindPlayer(a, gameName, tagLine) == FindPlayer(b, gameName, tagLine)
  {
    assert forall k :: 0 <= k < |a| ==> SameRiotId(a[k], gameName, tagLine) == SameRiotId(b[k], gameName, tagLine);
  }

  lemma DistinctIdsFindTheOne(players: seq<Player>, i: nat)
    requires DistinctIds(players) && i < |players|
    ensures FindPlayer(players, players[i].gameName, players[i].tagLine) == Some(i)
  {
  }

  // ---------- which timers survive ----------

  predicate DistinctNames(spells: seq<Spell>) {
    forall i, j :: 0 <= i < j < |spells| ==> spells[i].name != spells[j].name
  }

  /** Every spell of the result has the timer of each spell of that name in the source. */
  predicate KeepsTimers(source: seq<Spell>, result: seq<Spell>) {
    forall k, l :: 0 <= k < |result| && 0 <= l < |source| && result[k].name == source[l].name ==>
      SameTimer(result[k], source[l])
  }

  /** Spells of the source that share a name which is given share a timer, too. */
  predicate OneTimerPerName(source: seq<Spell>, given: seq<Spell>) {
    forall k, l, m :: 0 <= k < |given| && 0 <= l < |source| && 0 <= m < |source|
                      && given[k].name == source[l].name == source[m].name ==>
      SameTimer(source[l], source[m])
  }

  /** The copy takes the first timer of a name for all spells of that name. */
  lemma CopyKeepsTimersExactlyWhen(given: seq<Spell>, source: seq<Spell>)
    ensures KeepsTimers(source, AllCopied(given, source)) <==> OneTimerPerName(source, given)
  {
    var copied := AllCopied(given, source);
    if KeepsTimers(source, copied) {
      forall k, l, m | 0 <= k < |given| && 0 <= l < |source| && 0 <= m < |source|
                       && given[k].name == source[l].name == source[m].name
        ensures SameTimer(source[l], source[m])
      {
        assert SameTimer(copied[k], source[l]) && SameTimer(copied[k], source[m]);
      }
    }
    if OneTimerPerName(source, given) {
      forall k, l | 0 <= k < |given| && 0 <= l < |source| && copied[k].name == source[l].name
        ensures SameTimer(copied[k], source[l])
      {
        var first := FindSpell(source, given[k].name).value;
        assert SameTimer(source[first], source[l]);
      }
    }
  }

  /** The session's spells of a player who was there keep the player's timers exactly when the player's spells of one name
      have one timer; a spell the player did not have starts as the session gives it; every other field is the session's. */
  lemma SurvivingSpellsKeepTheirTimers(previous: seq<Player>, players: seq<Player>, i: nat, j: nat)
    requires i < |players| && FindPlayer(previous, players[i].gameName, players[i].tagLine) == Some(j)
    ensures var merged := Merged(previous, players)[i];
            && |merged.spells| == |players[i].spells|
            && merged == players[i].(spells := merged.spells)
            && (KeepsTimers(previous[j].spells, merged.spells) <==> OneTimerPerName(previous[j].spells, players[i].spells))
            && forall k :: 0 <= k < |merged.spells| ==>
                 && merged.spells[k].name == players[i].spells[k].name
                 && merged.spells[k].baseCooldown == players[i].spells[k].baseCooldown
                 && (FindSpell(previous[j].spells, merged.spells[k].name).None? ==> merged.spells[k] == players[i].spells[k])
  {
    CopyKeepsTimersExactlyWhen(players[i].spells, previous[j].spells);
  }

  predicate SurvivorsKeepTimers(previous: seq<Player>, players: seq<Player>) {
    forall i :: 0 <= i < |players| ==>
      var j := FindPlayer(previous, players[i].gameName, players[i].tagLine);
      j.Some? ==> KeepsTimers(previous[j.value].spells, Merged(previous, players)[i].spells)
  }

  predicate AllNamed(players: seq<Player>) {
    forall i :: 0 <= i < |players| ==> DistinctNames(players[i].spells)
  }

  lemma NamedSurvivorsKeepTimers(previous: seq<Player>, players: seq<Player>)
    requires AllNamed(previous)
    ensures SurvivorsKeepTimers(previous, players)
  {
    forall i | 0 <= i < |players| && FindPlayer(previous, players[i].gameName, players[i].tagLine).Some?
      ensures KeepsTimers(previous[FindPlayer(previous, players[i].gameName, players[i].tagLine).value].spells,
                          Merged(previous, players)[i].spells)
    {
      var j := FindPlayer(previous, players[i].gameName, players[i].tagLine).value;
      assert DistinctNames(previous[j].spells);
      SurvivingSpellsKeepTheirTimers(previous, players, i, j);
    }
  }

  predicate TwoNames(member: Member) { GetSpellName(member.spell1Id) != GetSpellName(member.spell2Id) }

  /** Sessions give every member two spells of different names, and joins bring no two spells of one name. */
  predicate Named(step: Step) {
    match step.action
    case Join(player) => DistinctNames(player.spells)
    case Sync(team) => forall i :: 0 <= i < |team| ==> TwoNames(team[i])
    case _ => true
  }

  lemma StepKeepsNames(players: seq<Player>, step: Step)
    requires AllNamed(players) && Named(step)
    ensures AllNamed(After(players, step))
  {
    var after := After(players, step);
    forall i | 0 <= i < |after|
      ensures DistinctNames(after[i].spells)
    {
      match step.action
      case Join(player) => assert i < |players| ==> after[i].spells == players[i].spells;
      case Sync(team) =>
        assert TwoNames(team[i]);
        assert forall k :: 0 <= k < 2 ==> after[i].spells[k].name == Built(team[i]).spells[k].name;
      case Toggle(_, _, _) =>
        assert forall k :: 0 <= k < |after[i].spells| ==> after[i].spells[k].name == players[i].spells[k].name;
      case Refresh =>
        assert forall k :: 0 <= k < |after[i].spells| ==> after[i].spells[k].name == players[i].spells[k].name;
    }
  }

  /** Through any run of such steps every next session finds the survivors' timers and keeps them. */
  lemma {:induction false} NamedRunsKeepTimers(steps: seq<Step>, players: seq<Player>)
    requires forall i :: 0 <= i < |steps| ==> Named(steps[i])
    ensures AllNamed(Run([], steps)) && SurvivorsKeepTimers(Run([], steps), players)
  {
    if steps != [] {
      NamedRunsKeepTimers(steps[..|steps| - 1], players);
      StepKeepsNames(Run([], steps[..|steps| - 1]), steps[|steps| - 1]);
    }
    NamedSurvivorsKeepTimers(Run([], steps), players);
  }

  /** The room is synchronized with one session only, whatever is pressed and refreshed. */
  predicate OneSession(steps: seq<Step>, team: seq<Member>) {
    forall i :: 0 <= i < |steps| ==> !steps[i].action.Join? && (steps[i].action.Sync? ==> steps[i].action.team == team)
  }

  /** Two spells of one name: the second is ready and was never pressed, and comes out of the next synchronization
      running, because both take the timer of the first. Any two spell IDs outside the table are such a pair. */
  lemma UnpressedSpellStarts(member: Member) returns (steps: seq<Step>)
    requires !TwoNames(member)
    ensures OneSession(steps, [member])
    ensures var room := Run([], steps);
            && |room| == 1 && |room[0].spells| == 2 && room[0].spells[1].isReady
            && !Merged(room, BuiltAll([member]))[0].spells[1].isReady
            && !SurvivorsKeepTimers(room, BuiltAll([member]))
  {
    var name := GetSpellName(member.spell1Id);
    var sync, press := Step(ZERO_TIME, Sync([member])), Step(SECOND, Toggle(member.gameName, member.tagLine, name));
    steps := [sync, press];
    assert steps[..1] == [sync] && steps[..1][..0] == [];
    var built := BuiltAll([member]);
    assert Run([], steps[..0]) == [];
    assert Run([], steps[..1]) == Merged([], built) == built;
    var player := built[0];
    assert FindPlayer(built, member.gameName, member.tagLine) == Some(0) && FindSpell(player.spells, name) == Some(0);
    var room := Run([], steps);
    assert room == built[0 := Toggled(player, name, SECOND).value];
    assert FindPlayer(room, member.gameName, member.tagLine) == Some(0) && FindSpell(room[0].spells, name) == Some(0);
    var merged := Merged(room, built);
    assert merged[0].spells[1] == Copied(player.spells[1], room[0].spells);
    assert !SameTimer(merged[0].spells[1], room[0].spells[1]);
  }

  /** A member's timers survive every run of repeated synchronizations, presses and refreshes exactly when the two spells
      of the session have different names. */
  lemma RepeatedSyncsKeepTimersExactlyWhen(member: Member)
    ensures TwoNames(member) <==>
              forall steps :: OneSession(steps, [member]) ==> SurvivorsKeepTimers(Run([], steps), BuiltAll([member]))
  {
    if TwoNames(member) {
      forall steps | OneSession(steps, [member])
        ensures SurvivorsKeepTimers(Run([], steps), BuiltAll([member]))
      {
        NamedRunsKeepTimers(steps, BuiltAll([member]));
      }
    } else {
      var steps := UnpressedSpellStarts(member);
    }
  }

  // ---------- Riot IDs stay distinct ----------

  /** Synchronized with sessions of distinct Riot IDs, a room never holds two players of one Riot ID:
      the player a merge finds is the only one. */
  lemma {:induction false} RunsKeepIdsDistinct(steps: seq<Step>)
    requires forall i :: 0 <= i < |steps| && steps[i].action.Sync? ==> DistinctIds(BuiltAll(steps[i].action.team))
    ensures DistinctIds(Run([], steps))
  {
    if steps != [] {
      RunsKeepIdsDistinct(steps[..|steps| - 1]);
      StepKeepsIdsDistinct(Run([], steps[..|steps| - 1]), steps[|steps| - 1]);
    }
  }

  lemma StepKeepsIdsDistinct(players: seq<Player>, step: Step)
    requires DistinctIds(players) && (step.action.Sync? ==> DistinctIds(BuiltAll(step.action.team)))
    ensures DistinctIds(After(players, step))
  {
    match step.action
    case Join(player) =>
    case Sync(team) =>
      var merged := Merged(players, BuiltAll(team));
      assert forall i :: 0 <= i < |team| ==>
               merged[i].gameName == BuiltAll(team)[i].gameName && merged[i].tagLine == BuiltAll(team)[i].tagLine;
    case Toggle(_, _, _) =>
    case Refresh =>
  }

  // ---------- repeating a session ----------

  predicate AllReady(players: seq<Player>) {
    forall i, k :: 0 <= i < |players| && 0 <= k < |players[i].spells| ==> Unused(players[i].spells[k])
  }

  predicate Unused(spell: Spell) {
    spell.isReady && spell.cooldownEndTime == ZERO_TIME && spell.remainingCooldown == 0
  }

  lemma BuiltPlayersAreReady(team: seq<Member>)
    ensures AllReady(BuiltAll(team))
  {
  }

  function FirstWithIdOf(players: seq<Player>, i: nat): (j: nat)
    requires i < |players|
    ensures j <= i && SameRiotId(players[j], players[i].gameName, players[i].tagLine)
    ensures FindPlayer(players, players[i].gameName, players[i].tagLine) == Some(j)
  {
    FindPlayer(players, players[i].gameName, players[i].tagLine).value
  }

  /** Of several players with one Riot ID, the first has every spell the others have. */
  predicate FirstHasAllSpells(players: seq<Player>) {
    forall i, k :: 0 <= i < |players| && 0 <= k < |players[i].spells| ==>
      FindSpell(players[FirstWithIdOf(players, i)].spells, players[i].spells[k].name).Some?
  }

  predicate RepeatsCleanly(previous: seq<Player>, players: seq<Player>) {
    var once := Merged(previous, players);
    Merged(once, players) == once
  }

  lemma MergeKeepsFirst(previous: seq<Player>, players: seq<Player>, i: nat)
    requires i < |players|
    ensures FindPlayer(Merged(previous, players), players[i].gameName, players[i].tagLine)
            == Some(FirstWithIdOf(players, i))
  {
    IdsDecideSearch(Merged(previous, players), players, players[i].gameName, players[i].tagLine);
  }

  lemma MergeKeepsNames(previous: seq<Player>, players: seq<Player>, i: nat, name: string)
    requires i < |players|
    ensures |Merged(previous, players)[i].spells| == |players[i].spells|
    ensures FindSpell(Merged(previous, players)[i].spells, name) == FindSpell(players[i].spells, name)
  {
    NamesDecideSearch(Merged(previous, players)[i].spells, players[i].spells, name);
  }

  lemma SpellRepeatsCleanly(previous: seq<Player>, players: seq<Player>, i: nat, k: nat)
    requires AllReady(players) && FirstHasAllSpells(players) && i < |players| && k < |players[i].spells|
    ensures var once := Merged(previous, players);
            |Merged(once, players)[i].spells| == |once[i].spells| == |players[i].spells|
            && Merged(once, players)[i].spells[k] == once[i].spells[k]
  {
    var once := Merged(previous, players);
    var j := FirstWithIdOf(players, i);
    var name := players[i].spells[k].name;
    MergeKeepsFirst(previous, players, i);
    MergeKeepsNames(previous, players, j, name);
    var l := FindSpell(players[j].spells, name).value;
    assert Unused(players[i].spells[k]) && Unused(players[j].spells[l]);
    assert once[j].spells[l] == once[j].spells[l].(name := name);
    assert SameTimer(once[j].spells[l], once[i].spells[k]);
  }

  lemma Unrepeatable(players: seq<Player>, i: nat, k: nat) returns (previous: seq<Player>)
    requires AllReady(players) && i < |players| && k < |players[i].spells|
    requires FindSpell(players[FirstWithIdOf(players, i)].spells, players[i].spells[k].name).None?
    ensures !RepeatsCleanly(previous, players)
  {
    var name := players[i].spells[k].name;
    var running := Spell(name, false, 0, ZERO_TIME + SECOND, 1);
    previous := [players[i].(spells := [running])];
    var once := Merged(previous, players);
    assert SameRiotId(previous[0], players[i].gameName, players[i].tagLine);
    assert FindSpell([running], name) == Some(0);
    assert !once[i].spells[k].isReady;
    MergeKeepsFirst(previous, players, i);
    MergeKeepsNames(previous, players, FirstWithIdOf(players, i), name);
    assert Unused(players[i].spells[k]);
    assert Merged(once, players)[i].spells[k].isReady;
  }

  /** Repeating a session of ready spells leaves every room as it was exactly when, of players sharing a Riot ID,
      the first has every spell of the others. */
  lemma RepeatingASessionIsIdempotentExactlyWhen(players: seq<Player>)
    requires AllReady(players)
    ensures FirstHasAllSpells(players) <==> forall previous :: RepeatsCleanly(previous, players)
  {
    if FirstHasAllSpells(players) {
      forall previous: seq<Player>
        ensures RepeatsCleanly(previous, players)
      {
        var once := Merged(previous, players);
        var twice := Merged(once, players);
        forall i | 0 <= i < |players|
          ensures twice[i] == once[i]
        {
          MergeKeepsFirst(previous, players, i);
          forall k | 0 <= k < |players[i].spells|
            ensures twice[i].spells[k] == once[i].spells[k]
          {
            SpellRepeatsCleanly(previous, players, i, k);
          }
          assert twice[i].spells == once[i].spells;
        }
      }
    } else {
      var i: nat, k: nat :| i < |players| && k < |players[i].spells| &&
        FindSpell(players[FirstWithIdOf(players, i)].spells, players[i].spells[k].name).None?;
      var previous := Unrepeatable(players, i, k);
    }
  }

  /** In particular, a session whose Riot IDs are distinct. */
  lemma DistinctSessionsRepeatCleanly(previous: seq<Player>, team: seq<Member>)
    requires DistinctIds(BuiltAll(team))
    ensures RepeatsCleanly(previous, BuiltAll(team))
  {
    var players := BuiltAll(team);
    BuiltPlayersAreReady(team);
    forall i, k | 0 <= i < |players| && 0 <= k < |players[i].spells|
      ensures FindSpell(players[FirstWithIdOf(players, i)].spells, players[i].spells[k].name).Some?
    {
      DistinctIdsFindTheOne(players, i);
    }
    RepeatingASessionIsIdempotentExactlyWhen(players);
  }

  lemma RefreshCommutesWithCopy(spells: seq<Spell>, source: seq<Spell>, now: Time)
    requires forall k :: 0 <= k < |spells| ==> Unused(spells[k])
    ensures RefreshSpells(AllCopied(spells, source), now) == AllCopied(spells, RefreshSpells(source, now))
  {
    forall k | 0 <= k < |spells|
      ensures RefreshSpell(Copied(spells[k], source), now) == Copied(spells[k], RefreshSpells(source, now))
    {
      NamesDecideSearch(source, RefreshSpells(source, now), spells[k].name);
    }
  }

  /** Refreshing before a synchronization or after it comes to the same: a tick missed before a merge does no harm. */
  lemma RefreshCommutesWithMerge(previous: seq<Player>, players: seq<Player>, now: Time)
    requires AllReady(players)
    ensures RefreshPlayers(Merged(previous, players), now) == Merged(RefreshPlayers(previous, now), players)
  {
    var refreshed := RefreshPlayers(previous, now);
    forall i | 0 <= i < |players|
      ensures RefreshPlayer(Carried(previous, players[i]), now) == Carried(refreshed, players[i])
    {
      var player := players[i];
      IdsDecideSearch(previous, refreshed, player.gameName, player.tagLine);
      var j := FindPlayer(previous, player.gameName, player.tagLine);
      if j.Some? {
        RefreshCommutesWithCopy(player.spells, previous[j.value].spells, now);
      } else {
        assert RefreshSpells(player.spells, now) == player.spells;
      }
    }
  }
}
