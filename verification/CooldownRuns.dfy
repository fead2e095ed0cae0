/** What holds of running cooldowns over any mix of joins, synchronizations, presses and refreshes. */
module CooldownRuns {
  import opened Common
  import opened Rooms
  import opened SummonerSpells
  import opened Cooldowns

  // ---------- missed ticks ----------

  function RefreshRun(players: seq<Player>, times: seq<Time>): seq<Player> {
    if times == [] then players else RefreshPlayers(RefreshRun(players, times[..|times| - 1]), times[|times| - 1])
  }

  lemma LaterRefreshSubsumes(spell: Spell, earlier: Time, later: Time)
    requires earlier <= later
    ensures RefreshSpell(RefreshSpell(spell, earlier), later) == RefreshSpell(spell, later)
  {
  }

  /** Refreshing at any times that never run backward leaves what one refresh at the last of them leaves. */
  lemma {:induction false} MissedTicksDoNotMatter(players: seq<Player>, times: seq<Time>)
    requires times != [] && forall i, j :: 0 <= i < j < |times| ==> times[i] <= times[j]
    ensures RefreshRun(players, times) == RefreshPlayers(players, times[|times| - 1])
  {
    var n := |times| - 1;
    var before := RefreshRun(players, times[..n]);
    if n == 0 {
      assert before == players;
    } else {
      MissedTicksDoNotMatter(players, times[..n]);
      assert before == RefreshPlayers(players, times[n - 1]);
      forall i | 0 <= i < |players|
        ensures RefreshPlayer(before[i], times[n]) == RefreshPlayer(players[i], times[n])
      {
        forall k | 0 <= k < |players[i].spells|
          ensures RefreshSpell(before[i].spells[k], times[n]) == RefreshSpell(players[i].spells[k], times[n])
        {
          LaterRefreshSubsumes(players[i].spells[k], times[n - 1], times[n]);
        }
        assert RefreshSpells(before[i].spells, times[n]) == RefreshSpells(players[i].spells, times[n]);
      }
    }
  }

  // ---------- sound timers ----------

  /** A ready spell shows nothing left. A spell on cooldown has an end, shows at least one second and at most its whole
      cooldown, ends within a cooldown from now, and never has a whole second more to go than it shows. */
  ghost predicate Sound(spell: Spell, now: Time) {
    && InTable(spell.name, spell.baseCooldown)
    && if spell.isReady then spell.remainingCooldown == 0 && spell.cooldownEndTime == ZERO_TIME
       else
         var cooldown := CalculateCooldown(spell.baseCooldown, DEFAULT_HASTE);
         && spell.cooldownEndTime != ZERO_TIME
         && 1 <= spell.remainingCooldown <= cooldown
         && spell.cooldownEndTime <= now + cooldown * SECOND
         && spell.cooldownEndTime - now < (spell.remainingCooldown + 1) * SECOND
  }

  ghost predicate SoundSpells(spells: seq<Spell>, now: Time) {
    forall s :: s in spells ==> Sound(s, now)
  }

  ghost predicate SoundPlayers(players: seq<Player>, now: Time) {
    Hasted(players) && forall p :: p in players ==> SoundSpells(p.spells, now)
  }

  lemma RefreshKeepsSound(spell: Spell, earlier: Time, now: Time)
    requires Sound(spell, earlier) && earlier <= now
    ensures Sound(RefreshSpell(spell, now), now)
  {
  }

  lemma PressKeepsSound(spell: Spell, earlier: Time, now: Time)
    requires Sound(spell, earlier) && ZERO_TIME <= earlier <= now
    ensures Sound(Pressed(spell, DEFAULT_HASTE, now), now)
  {
  }

  lemma CopyKeepsSound(spell: Spell, source: seq<Spell>, earlier: Time, now: Time)
    requires Sound(spell, now) && SoundSpells(source, earlier) && earlier <= now
    ensures Sound(Copied(spell, source), now)
  {
    var i := FindSpell(source, spell.name);
    if i.Some? {
      assert source[i.value] in source;
      NameFixesCooldown(spell.name, spell.baseCooldown, source[i.value].baseCooldown);
    }
  }

  lemma ReadySpellIsSound(spellId: int, now: Time)
    ensures Sound(ReadySpell(spellId), now)
  {
  }

  lemma DefaultSpellsAreSound(now: Time)
    ensures SoundSpells(DEFAULT_SPELLS, now)
  {
    ReadySpellIsSound(4, now);
    ReadySpellIsSound(14, now);
    assert DEFAULT_SPELLS == [ReadySpell(4), ReadySpell(14)];
  }

  lemma TimeKeepsSound(players: seq<Player>, earlier: Time, now: Time)
    requires SoundPlayers(players, earlier) && earlier <= now
    ensures SoundPlayers(players, now)
  {
  }

  lemma ReplacingKeepsSound(players: seq<Player>, i: nat, player: Player, now: Time)
    requires SoundPlayers(players, now) && i < |players|
    requires player.haste == DEFAULT_HASTE && SoundSpells(player.spells, now)
    ensures SoundPlayers(players[i := player], now)
  {
  }

  lemma RefreshStepKeepsSound(players: seq<Player>, earlier: Time, now: Time)
    requires SoundPlayers(players, earlier) && earlier <= now
    ensures SoundPlayers(RefreshPlayers(players, now), now)
  {
    forall i, k | 0 <= i < |players| && 0 <= k < |players[i].spells|
      ensures Sound(RefreshPlayers(players, now)[i].spells[k], now)
    {
      assert players[i] in players && players[i].spells[k] in players[i].spells;
      RefreshKeepsSound(players[i].spells[k], earlier, now);
    }
  }

  lemma ToggleStepKeepsSound(players: seq<Player>, gameName: string, tagLine: string, name: string, earlier: Time, now: Time)
    requires SoundPlayers(players, earlier) && ZERO_TIME <= earlier <= now
    ensures SoundPlayers(After(players, Step(now, Toggle(gameName, tagLine, name))), now)
  {
    TimeKeepsSound(players, earlier, now);
    var i := FindPlayer(players, gameName, tagLine);
    if i.Some? {
      var player := players[i.value];
      assert player in players;
      var k := FindSpell(player.spells, name);
      if k.Some? {
        assert player.spells[k.value] in player.spells;
        PressKeepsSound(player.spells[k.value], earlier, now);
        var toggled := Toggled(player, name, now).value;
        forall s | s in toggled.spells
          ensures Sound(s, now)
        {
          assert s == Pressed(player.spells[k.value], DEFAULT_HASTE, now) || s in player.spells;
        }
        ReplacingKeepsSound(players, i.value, toggled, now);
      }
    }
  }

  lemma SyncStepKeepsSound(players: seq<Player>, team: seq<Member>, earlier: Time, now: Time)
    requires SoundPlayers(players, earlier) && earlier <= now
    ensures SoundPlayers(Merged(players, BuiltAll(team)), now)
  {
    var merged := Merged(players, BuiltAll(team));
    forall i, k | 0 <= i < |team| && 0 <= k < |merged[i].spells|
      ensures Sound(merged[i].spells[k], now)
    {
      var player := Built(team[i]);
      ReadySpellIsSound(team[i].spell1Id, now);
      ReadySpellIsSound(team[i].spell2Id, now);
      assert Sound(player.spells[k], now);
      var j := FindPlayer(players, player.gameName, player.tagLine);
      if j.Some? {
        assert players[j.value] in players;
        CopyKeepsSound(player.spells[k], players[j.value].spells, earlier, now);
      }
    }
  }

  /** A join keeps the timers sound exactly when the player was there already or brings sound spells (or none). */
  lemma JoinsKeepSoundExactlyWhen(players: seq<Player>, player: Player, now: Time)
    requires SoundPlayers(players, now)
    ensures SoundPlayers(Joined(players, player), now) <==>
              || FindPlayer(players, player.gameName, player.tagLine).Some?
              || SoundSpells(player.spells, now)
  {
    var i := FindPlayer(players, player.gameName, player.tagLine);
    if i.Some? {
      assert players[i.value] in players;
      ReplacingKeepsSound(players, i.value,
                          players[i.value].(champion := player.champion, championId := player.championId), now);
    } else {
      DefaultSpellsAreSound(now);
      var joined := Joined(players, player);
      assert joined[|players|] in joined;
      assert player.spells != [] ==> joined[|players|].spells == player.spells;
      assert forall p :: p in joined ==> p in players || p == joined[|players|];
    }
  }

  /** Every supplied spell is sound; a join without spells supplies none. */
  ghost predicate SoundJoins(steps: seq<Step>) {
    forall i :: 0 <= i < |steps| && steps[i].action.Join? ==> SoundSpells(steps[i].action.player.spells, steps[i].at)
  }

  lemma StepKeepsSound(players: seq<Player>, step: Step, earlier: Time)
    requires SoundPlayers(players, earlier) && ZERO_TIME <= earlier <= step.at
    requires step.action.Join? ==> SoundSpells(step.action.player.spells, step.at)
    ensures SoundPlayers(After(players, step), step.at)
  {
    match step.action
    case Join(player) =>
      TimeKeepsSound(players, earlier, step.at);
      JoinsKeepSoundExactlyWhen(players, player, step.at);
    case Sync(team) => SyncStepKeepsSound(players, team, earlier, step.at);
    case Toggle(gameName, tagLine, name) => ToggleStepKeepsSound(players, gameName, tagLine, name, earlier, step.at);
    case Refresh => RefreshStepKeepsSound(players, earlier, step.at);
  }

  /** From an empty room, every timer stays sound through any run whose clock never goes backward. */
  lemma {:induction false} RunKeepsSound(start: Time, steps: seq<Step>)
    requires ZERO_TIME <= start && Forward(start, steps) && SoundJoins(steps)
    ensures SoundPlayers(Run([], steps), EndOf(start, steps))
  {
    if steps != [] {
      var n := |steps| - 1;
      RunKeepsSound(start, steps[..n]);
      StepKeepsSound(Run([], steps[..n]), steps[n], EndOf(start, steps[..n]));
    }
  }

  // ---------- what a press starts ----------

  /** Spell `k` of player `i` is the one such a press finds, and it is ready. */
  predicate ReadyToPress(players: seq<Player>, gameName: string, tagLine: string, name: string, i: nat, k: nat) {
    && FindPlayer(players, gameName, tagLine) == Some(i)
    && FindSpell(players[i].spells, name) == Some(k)
    && players[i].spells[k].isReady && players[i].haste > -100 && players[i].spells[k].baseCooldown >= 0
  }

  /** The press of a ready spell starts the largest whole number of seconds not above base * 100 / (100 + haste). */
  lemma PressStartsCooldown(players: seq<Player>, gameName: string, tagLine: string, name: string, i: nat, k: nat, now: Time)
    returns (seconds: nat)
    requires ReadyToPress(players, gameName, tagLine, name, i, k)
    ensures var spell, share := players[i].spells[k], 100 + players[i].haste;
            var after := After(players, Step(now, Toggle(gameName, tagLine, name)));
            && seconds * share <= spell.baseCooldown * 100 < (seconds + 1) * share
            && after == players[i := after[i]] && PressedAt(players[i], after[i], k, now)
            && after[i].spells[k] == Spell(spell.name, false, spell.baseCooldown, now + seconds * SECOND, seconds)
  {
    var after := After(players, Step(now, Toggle(gameName, tagLine, name)));
    PressMeans(players[i], name, now);
    var shown := after[i].spells[k].remainingCooldown;
    NotNegative(players[i].spells[k].baseCooldown * 100, 100 + players[i].haste, shown);
    seconds := shown;
  }

  lemma NegativeTimes(q: int, b: nat)
    requires q < 0
    ensures q * b + b <= 0
  {
    var more: nat := -q - 1;
    assert more * b == -(q * b) - b;
  }

  lemma NotNegative(a: nat, b: nat, q: int)
    requires b > 0 && Truncates(a, b, q)
    ensures q >= 0 && q * b <= a < (q + 1) * b
  {
    assert (q + 1) * b == q * b + b;
    if q < 0 {
      NegativeTimes(q, b);
    }
  }

  /** Then it counts down: whenever it was refreshed in between, a refresh shows the whole seconds left, and readies the
      spell in the last second. Whole seconds after the press it shows exactly so many seconds less. */
  lemma PressedSpellCountsDown(players: seq<Player>, gameName: string, tagLine: string, name: string, i: nat, k: nat, now: Time,
                               times: seq<Time>) returns (seconds: nat)
    requires ReadyToPress(players, gameName, tagLine, name, i, k) && now > ZERO_TIME
    requires times != [] && forall a, b :: 0 <= a < b < |times| ==> times[a] <= times[b]
    ensures var share := 100 + players[i].haste;
            seconds * share <= players[i].spells[k].baseCooldown * 100 < (seconds + 1) * share
    ensures var after := After(players, Step(now, Toggle(gameName, tagLine, name)));
            var last := times[|times| - 1];
            var left := now + seconds * SECOND - last;
            && |RefreshRun(after, times)| == |players| && |RefreshRun(after, times)[i].spells| == |players[i].spells|
            && var shown := RefreshRun(after, times)[i].spells[k];
               && (shown.isReady <==> left < SECOND)
               && (!shown.isReady ==> shown.remainingCooldown * SECOND <= left < (shown.remainingCooldown + 1) * SECOND)
               && (forall n: nat :: n < seconds && last == now + n * SECOND ==> shown.remainingCooldown == seconds - n)
  {
    seconds := PressStartsCooldown(players, gameName, tagLine, name, i, k, now);
    var after := After(players, Step(now, Toggle(gameName, tagLine, name)));
    MissedTicksDoNotMatter(after, times);
    var last := times[|times| - 1];
    RefreshShows(after[i].spells[k], last);
  }

  /** A refresh readies a running spell exactly when less than a second is left to its end, and otherwise shows the whole
      seconds left; a ready spell, or one without an end, only has its display reset. */
  lemma RefreshShows(spell: Spell, now: Time)
    ensures var shown, left := RefreshSpell(spell, now), spell.cooldownEndTime - now;
            && shown.name == spell.name && shown.baseCooldown == spell.baseCooldown
            && (spell.isReady || spell.cooldownEndTime == ZERO_TIME ==> shown == spell.(remainingCooldown := 0))
            && (!spell.isReady && spell.cooldownEndTime != ZERO_TIME ==>
                  if left < SECOND then shown.isReady && shown.remainingCooldown == 0 && shown.cooldownEndTime == ZERO_TIME
                  else !shown.isReady && shown.cooldownEndTime == spell.cooldownEndTime
                       && shown.remainingCooldown * SECOND <= left < (shown.remainingCooldown + 1) * SECOND)
  {
  }

  // ---------- when a spell becomes ready ----------

  /** A refresh readies a spell exactly when under one second is left; otherwise it shows the seconds left, rounded down. */
  lemma RefreshReadiesExactlyWhen(spell: Spell, earlier: Time, now: Time)
    requires Sound(spell, earlier) && !spell.isReady
    ensures var refreshed := RefreshSpell(spell, now);
            var left := spell.cooldownEndTime - now;
            && (refreshed.isReady <==> left < SECOND)
            && (!refreshed.isReady ==>
                  refreshed.remainingCooldown * SECOND <= left < (refreshed.remainingCooldown + 1) * SECOND)
  {
  }

  /** A tick just before a press matters exactly when the cooldown is in its last second or over:
      without it, the press readies the spell instead of starting its next cooldown. */
  lemma TickBeforePressMattersExactlyWhen(spell: Spell, earlier: Time, now: Time)
    requires Sound(spell, earlier)
    ensures Pressed(RefreshSpell(spell, now), DEFAULT_HASTE, now) != Pressed(spell, DEFAULT_HASTE, now)
            <==> !spell.isReady && spell.cooldownEndTime - now < SECOND
  {
  }

  /** Pressing a ready spell and pressing it again undoes the press. */
  lemma SecondPressUndoes(spell: Spell, earlier: Time, now: Time, later: Time)
    requires Sound(spell, earlier) && spell.isReady
    ensures Pressed(Pressed(spell, DEFAULT_HASTE, now), DEFAULT_HASTE, later) == spell
  {
  }

  predicate EndsBy(players: seq<Player>, limit: Time) {
    forall p, s :: p in players && s in p.spells && !s.isReady ==> s.cooldownEndTime <= limit
  }

  /** This step may start a cooldown. */
  predicate Starts(step: Step) {
    step.action.Toggle? || (step.action.Join? && step.action.player.spells != [])
  }

  lemma SoundEndsBy(players: seq<Player>, now: Time)
    requires SoundPlayers(players, now)
    ensures EndsBy(players, now + LONGEST_COOLDOWN * SECOND)
  {
  }

  lemma QuietStepKeepsEnds(players: seq<Player>, step: Step, limit: Time)
    requires EndsBy(players, limit) && !Starts(step)
    ensures EndsBy(After(players, step), limit)
  {
    var after := After(players, step);
    forall i, k | 0 <= i < |after| && 0 <= k < |after[i].spells| && !after[i].spells[k].isReady
      ensures after[i].spells[k].cooldownEndTime <= limit
    {
      match step.action
      case Join(player) =>
        if after[i].spells != DEFAULT_SPELLS {
          assert players[i] in players && after[i].spells == players[i].spells;
          assert after[i].spells[k] in players[i].spells;
        }
      case Sync(team) =>
        var j := FindPlayer(players, team[i].gameName, team[i].tagLine);
        var l := FindSpell(players[j.value].spells, after[i].spells[k].name);
        assert players[j.value] in players && players[j.value].spells[l.value] in players[j.value].spells;
      case Refresh =>
        assert players[i] in players && players[i].spells[k] in players[i].spells;
    }
  }

  lemma {:induction false} QuietRunKeepsEnds(players: seq<Player>, steps: seq<Step>, limit: Time)
    requires EndsBy(players, limit)
    requires forall i :: 0 <= i < |steps| ==> !Starts(steps[i])
    ensures EndsBy(Run(players, steps), limit)
  {
    if steps != [] {
      var n := |steps| - 1;
      QuietRunKeepsEnds(players, steps[..n], limit);
      QuietStepKeepsEnds(Run(players, steps[..n]), steps[n], limit);
    }
  }

  lemma {:induction false} RunConcat(players: seq<Player>, first: seq<Step>, second: seq<Step>)
    ensures Run(players, first + second) == Run(Run(players, first), second)
  {
    if second == [] {
      assert first + second == first;
    } else {
      var n := |second| - 1;
      var all := first + second;
      RunConcat(players, first, second[..n]);
      assert all[..|all| - 1] == first + second[..n] && all[|all| - 1] == second[n];
    }
  }

  /** No spell stays on cooldown forever: once nothing was pressed for longer than the longest cooldown,
      less the rounded-off second, any refresh finds every spell ready. */
  lemma QuietRoomsBecomeReady(start: Time, pressed: seq<Step>, quiet: seq<Step>, now: Time)
    requires ZERO_TIME <= start && Forward(start, pressed + quiet) && SoundJoins(pressed + quiet)
    requires forall i :: 0 <= i < |quiet| ==> !Starts(quiet[i])
    requires now > EndOf(start, pressed) + (LONGEST_COOLDOWN - 1) * SECOND
    ensures forall p, s :: p in RefreshPlayers(Run([], pressed + quiet), now) && s in p.spells ==> s.isReady
  {
    var limit := EndOf(start, pressed) + LONGEST_COOLDOWN * SECOND;
    PrefixIsForward(start, pressed, quiet);
    RunKeepsSound(start, pressed);
    SoundEndsBy(Run([], pressed), EndOf(start, pressed));
    QuietRunKeepsEnds(Run([], pressed), quiet, limit);
    RunConcat([], pressed, quiet);
    RunKeepsSound(start, pressed + quiet);
    var players := Run([], pressed + quiet);
    forall i, k | 0 <= i < |players| && 0 <= k < |players[i].spells|
      ensures RefreshSpell(players[i].spells[k], now).isReady
    {
      assert players[i] in players && players[i].spells[k] in players[i].spells;
      if !players[i].spells[k].isReady {
        RefreshReadiesExactlyWhen(players[i].spells[k], EndOf(start, pressed + quiet), now);
      }
    }
  }

  lemma PrefixIsForward(start: Time, first: seq<Step>, second: seq<Step>)
    requires Forward(start, first + second) && SoundJoins(first + second)
    ensures Forward(start, first) && SoundJoins(first)
  {
    assert forall i :: 0 <= i < |first| ==> first[i] == (first + second)[i];
  }
}
