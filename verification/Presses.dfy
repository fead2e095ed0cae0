/** When pressing a spell divides by zero: only for a player of haste -100, whom only a replacement can bring. */
module Presses {
  import opened Common
  import opened Rooms
  import opened SummonerSpells
  import opened Cooldowns
  import opened RoomService
  import opened RoomServiceCalls
  import RoomCache

  // ---------- one list of players ----------

  /** Only presses and refreshes. */
  predicate PressesAndRefreshes(steps: seq<Step>) {
    forall i :: 0 <= i < |steps| ==> steps[i].action.Toggle? || steps[i].action.Refresh?
  }

  ghost predicate CanPanic(players: seq<Player>) {
    exists steps, gameName, tagLine, spellName ::
      PressesAndRefreshes(steps) && Panics(Run(players, steps), gameName, tagLine, spellName)
  }

  /** Some player, the first with its Riot ID, has haste -100 and a spell to press. */
  predicate HasZeroPlayer(players: seq<Player>) {
    exists i :: 0 <= i < |players| && IsZeroPlayer(players, i)
  }

  predicate IsZeroPlayer(players: seq<Player>, i: nat)
    requires i < |players|
  {
    && FindPlayer(players, players[i].gameName, players[i].tagLine) == Some(i)
    && players[i].haste == -100 && players[i].spells != []
  }

  /** Presses and refreshes change nothing of this. */
  predicate SamePeople(a: seq<Player>, b: seq<Player>) {
    && |a| == |b|
    && forall i :: 0 <= i < |a| ==> a[i].gameName == b[i].gameName && a[i].tagLine == b[i].tagLine && a[i].haste == b[i].haste
                                    && |a[i].spells| == |b[i].spells|
  }

  lemma StepKeepsPeople(players: seq<Player>, step: Step)
    requires step.action.Toggle? || step.action.Refresh?
    ensures SamePeople(players, After(players, step))
  {
  }

  lemma {:induction false} RunKeepsPeople(players: seq<Player>, steps: seq<Step>)
    requires PressesAndRefreshes(steps)
    ensures SamePeople(players, Run(players, steps))
  {
    if steps != [] {
      RunKeepsPeople(players, steps[..|steps| - 1]);
      StepKeepsPeople(Run(players, steps[..|steps| - 1]), steps[|steps| - 1]);
    }
  }

  lemma SamePeopleAreFound(a: seq<Player>, b: seq<Player>, gameName: string, tagLine: string)
    requires SamePeople(a, b)
    ensures FindPlayer(a, gameName, tagLine) == FindPlayer(b, gameName, tagLine)
  {
    assert forall k :: 0 <= k < |a| ==> SameRiotId(a[k], gameName, tagLine) == SameRiotId(b[k], gameName, tagLine);
  }

  /** A running first spell is pressed once to ready it, and then pressed again. */
  lemma ZeroPlayerPanics(players: seq<Player>, i: nat) returns (steps: seq<Step>)
    requires i < |players| && IsZeroPlayer(players, i)
    ensures PressesAndRefreshes(steps)
    ensures Panics(Run(players, steps), players[i].gameName, players[i].tagLine, players[i].spells[0].name)
  {
    var player, name := players[i], players[i].spells[0].name;
    assert FindSpell(player.spells, name) == Some(0);
    if player.spells[0].isReady {
      steps := [];
    } else {
      var press := Step(ZERO_TIME, Toggle(player.gameName, player.tagLine, name));
      steps := [press];
      assert steps[..0] == [];
      var pressed := Toggled(player, name, ZERO_TIME).value;
      assert Run(players, steps) == players[i := pressed];
      SamePeopleAreFound(players, players[i := pressed], player.gameName, player.tagLine);
      assert FindSpell(pressed.spells, name) == Some(0);
    }
  }

  /** Presses and refreshes of these players can come to divide by zero exactly when some player that the service would
      find has haste -100 and at least one spell. */
  lemma CanPanicExactlyWhen(players: seq<Player>)
    ensures CanPanic(players) <==> HasZeroPlayer(players)
  {
    if CanPanic(players) {
      var steps, gameName, tagLine, spellName :|
        PressesAndRefreshes(steps) && Panics(Run(players, steps), gameName, tagLine, spellName);
      RunKeepsPeople(players, steps);
      SamePeopleAreFound(players, Run(players, steps), gameName, tagLine);
      assert IsZeroPlayer(players, FindPlayer(players, gameName, tagLine).value);
    }
    if HasZeroPlayer(players) {
      var i :| 0 <= i < |players| && IsZeroPlayer(players, i);
      var steps := ZeroPlayerPanics(players, i);
    }
  }

  // ---------- the service ----------

  predicate NoZero(players: seq<Player>) {
    forall i :: 0 <= i < |players| ==> players[i].haste != -100
  }

  predicate NoZeroStored(store: Store) {
    forall id :: id in store ==> NoZero(store[id].players)
  }

  /** Replacements bring no player of haste -100; joins may bring anyone. */
  predicate BringsNoZero(call: Call) { call.ReplacePlayers? ==> NoZero(call.players) }

  lemma EditBringsNoZero(room: Room, call: Call)
    requires Edits(call) && NoZero(room.players) && BringsNoZero(call) && Edited(room, call).Some?
    ensures NoZero(Edited(room, call).value)
  {
  }

  lemma CallKeepsNoZero(s: State, call: Call)
    requires RoomCache.Keyed(s.store) && Enabled(s, call) && NoZeroStored(s.store) && BringsNoZero(call)
    ensures NoZeroStored(Next(s, call).store)
  {
    forall id | id in Next(s, call).store
      ensures NoZero(Next(s, call).store[id].players)
    {
      match call
      case RefreshCooldowns(visits, list) =>
        if list.Works? {
          RefreshKeepsKeys(s.store, visits, 0);
          var k :| 0 <= k < |visits| && visits[k].id == id;
          RefreshSavesExactlyTheWritten(s, call, k);
        }
      case CleanUpRooms(now, visits, list) =>
        if list.Works? {
          CleanUpOnlyRemovesExpired(s, now, visits, 0);
        }
      case CreateRoom(_, _, _, _) =>
      case SetCurrentRoom(_) =>
      case ClearCurrentRoom(_) =>
      case _ =>
        var saving := Saving(s.store, call);
        if saving.Some? {
          EditBringsNoZero(s.store[call.id], call);
        }
    }
  }

  /** Whatever is called, and whoever joins: if no replacement brings a player of haste -100, as no synchronization does,
      then no press divides by zero. */
  lemma {:induction false} PressesNeverPanic(s: State, calls: seq<Call>, call: Call)
    requires RoomCache.Keyed(s.store) && NoZeroStored(s.store) && AllEnabled(s, calls) && Edits(call)
    requires forall c :: c in calls ==> BringsNoZero(c)
    ensures !EditOutcome(AfterAll(s, calls).store, call).Panicked?
    decreases |calls|
  {
    if calls != [] {
      assert calls[0] in calls;
      CallKeepsNoZero(s, calls[0]);
      PressesNeverPanic(Next(s, calls[0]), calls[1..], call);
    }
  }

  lemma SynchronizationsBringNoZero(id: string, team: seq<Member>, now: Time, get: Fault, save: Fault)
    ensures BringsNoZero(Replacing(id, team, now, get, save))
  {
  }

  /** The condition on replacements is needed: a room replaced by one player of haste -100, whose spell is then pressed. */
  lemma ReplacedZeroPlayerPanics() returns (calls: seq<Call>, press: Call)
    ensures var s := State(map[], "");
            AllEnabled(s, calls) && Edits(press) && EditOutcome(AfterAll(s, calls).store, press).Panicked?
  {
    var player := Player("n", "t", "", "", 1, -100, [ReadySpell(4)]);
    var create := Call.CreateRoom("a", ZERO_TIME, Works, Works);
    var replace := Call.ReplacePlayers("a", [player], ZERO_TIME, Works, Works);
    press := ToggleSpell("a", "n", "t", "Flash", ZERO_TIME, Works, Works);
    calls := [create, replace];
    var s := State(map[], "");
    var s1 := Next(s, create);
    assert s1.store == map["a" := Room("a", [], ZERO_TIME)];
    assert Merged([], [player]) == [player];
    var s2 := Next(s1, replace);
    assert s2.store["a"].players == [player];
    assert calls[1..] == [replace] && [replace][1..] == [];
    assert AllEnabled(s2, []) && AfterAll(s2, []) == s2;
    assert AllEnabled(s1, [replace]) && AfterAll(s1, [replace]) == s2;
    assert FindPlayer([player], "n", "t") == Some(0) && FindSpell(player.spells, "Flash") == Some(0);
  }
}
