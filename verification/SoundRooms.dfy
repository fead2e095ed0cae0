/** Every room a service run stores has sound timers: each call changes a room by one step of its cooldowns. */
module SoundRooms {
  import opened Common
  import opened Rooms
  import opened Cooldowns
  import opened CooldownRuns
  import opened RoomService
  import opened CurrentRoom
  import RoomCache

  /** The step of a room's players that an editing call performs. */
  ghost predicate Performs(call: Call, step: Step)
    requires Edits(call)
  {
    && step.at == call.now
    && match call
       case AddPlayer(_, player, _, _, _) => step.action == Join(player)
       case ReplacePlayers(_, players, _, _, _) => step.action.Sync? && players == BuiltAll(step.action.team)
       case ToggleSpell(_, gameName, tagLine, spellName, _, _, _) => step.action == Toggle(gameName, tagLine, spellName)
  }

  /** Players come from synchronized sessions, or are added with sound spells (or none). */
  ghost predicate Sourced(call: Call) {
    && (call.AddPlayer? ==> SoundSpells(call.player.spells, call.now))
    && (call.ReplacePlayers? ==> exists team :: call.players == BuiltAll(team))
  }

  lemma EditIsOneStep(room: Room, call: Call, step: Step)
    requires Edits(call) && Performs(call, step) && Edited(room, call).Some?
    ensures Edited(room, call).value == After(room.players, step)
  {
  }

  lemma StepOf(call: Call) returns (step: Step)
    requires Edits(call) && Sourced(call)
    ensures Performs(call, step) && (step.action.Join? ==> SoundSpells(step.action.player.spells, step.at))
  {
    match call
    case AddPlayer(_, player, now, _, _) => step := Step(now, Join(player));
    case ReplacePlayers(_, players, now, _, _) =>
      var team :| players == BuiltAll(team);
      step := Step(now, Sync(team));
    case ToggleSpell(_, gameName, tagLine, spellName, now, _, _) => step := Step(now, Toggle(gameName, tagLine, spellName));
  }

  lemma {:induction false} RefreshIsOneStep(store: Store, visits: seq<Visit>, i: nat, id: string)
    requires RoomCache.Keyed(store) && DistinctVisits(visits) && i <= |visits| && AllStored(store, visits, i) && id in store
    ensures var after := RefreshFrom(store, visits, i).store;
            && after.Keys == store.Keys
            && (after[id] == store[id] ||
                exists k :: i <= k < |visits| && visits[k].id == id && after[id] == RefreshedAt(store[id], visits[k].now))
    decreases |visits| - i
  {
    RefreshKeepsKeys(store, visits, i);
    if i < |visits| {
      RefreshOneKeepsKeys(store, visits[i]);
      var one := RefreshOne(store, visits[i]);
      if !one.failed {
        if visits[i].id == id {
          RefreshTouchesOnlyVisited(one.store, visits, i + 1, id);
        } else {
          RefreshIsOneStep(one.store, visits, i + 1, id);
        }
      }
    }
  }

  ghost predicate SoundStore(h: History) {
    forall id :: id in h.state.store ==> SoundPlayers(h.state.store[id].players, h.clock)
  }

  lemma EditKeepsSound(h: History, e: Event, id: string)
    requires ZERO_TIME <= h.clock && OnTime(h, e) && SoundStore(h) && Sourced(e.call) && Edits(e.call)
    requires id in Next(h.state, e.call).store
    ensures SoundPlayers(Next(h.state, e.call).store[id].players, e.at)
  {
    var saving := Saving(h.state.store, e.call);
    if saving.Some? && e.call.save.Lands() && id == saving.value.id {
      var room := h.state.store[id];
      var step := StepOf(e.call);
      EditIsOneStep(room, e.call, step);
      StepKeepsSound(room.players, step, h.clock);
      TimeKeepsSound(saving.value.players, e.call.now, e.at);
    } else {
      TimeKeepsSound(h.state.store[id].players, h.clock, e.at);
    }
  }

  lemma RefreshKeepsSoundStore(h: History, e: Event, id: string)
    requires ZERO_TIME <= h.clock && OnTime(h, e) && SoundStore(h) && e.call.RefreshCooldowns?
    requires id in Next(h.state, e.call).store
    ensures SoundPlayers(Next(h.state, e.call).store[id].players, e.at)
  {
    if e.call.list.Works? {
      RefreshKeepsKeys(h.state.store, e.call.visits, 0);
      RefreshIsOneStep(h.state.store, e.call.visits, 0, id);
      var players := h.state.store[id].players;
      if k :| 0 <= k < |e.call.visits| && e.call.visits[k].id == id
              && Next(h.state, e.call).store[id] == RefreshedAt(h.state.store[id], e.call.visits[k].now) {
        assert e.call.visits[k] in e.call.visits;
        RefreshStepKeepsSound(players, h.clock, e.call.visits[k].now);
        TimeKeepsSound(RefreshPlayers(players, e.call.visits[k].now), e.call.visits[k].now, e.at);
      } else {
        TimeKeepsSound(players, h.clock, e.at);
      }
    } else {
      TimeKeepsSound(h.state.store[id].players, h.clock, e.at);
    }
  }

  lemma AdvanceKeepsSoundStore(h: History, e: Event)
    requires ZERO_TIME <= h.clock && OnTime(h, e) && SoundStore(h) && Sourced(e.call)
    ensures SoundStore(Advance(h, e))
  {
    var store := Next(h.state, e.call).store;
    forall id | id in store
      ensures SoundPlayers(store[id].players, e.at)
    {
      if Edits(e.call) {
        EditKeepsSound(h, e, id);
      } else if e.call.RefreshCooldowns? {
        RefreshKeepsSoundStore(h, e, id);
      } else {
        if e.call.CleanUpRooms? {
          CleanUpOnlyRemovesExpired(h.state, e.call.now, e.call.visits, 0);
        }
        if id in h.state.store {
          TimeKeepsSound(h.state.store[id].players, h.clock, e.at);
        }
      }
    }
  }

  /** Through any run of one service whose clock never runs backward, every stored spell is sound. */
  lemma {:induction false} StoredTimersAreSound(events: seq<Event>)
    requires ForwardRun(START, events) && forall e :: e in events ==> Sourced(e.call)
    ensures ZERO_TIME <= RunAll(START, events).clock && SoundStore(RunAll(START, events))
  {
    if events != [] {
      var prefix := events[..|events| - 1];
      StoredTimersAreSound(prefix);
      AdvanceKeepsSoundStore(RunAll(START, prefix), events[|events| - 1]);
    }
  }
}
