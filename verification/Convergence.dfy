/** Whatever the order, repetition and failure of transactions, the committed events alone determine the session. */
module Convergence {
  import opened Common
  import opened Events
  import opened Inbox

  datatype Attempt = Attempt(event: GameEvent, lands: bool, at: Time)

  function KindOf(e: GameEvent): Kind {
    if e.subject == SUBJECT_STARTED then Started else Ended
  }

  predicate Applies(db: Db, a: Attempt) {
    a.lands && Process(db, a.event, KindOf(a.event), a.at).Applied?
  }

  function Attempted(db: Db, a: Attempt): Db {
    if Applies(db, a) then Process(db, a.event, KindOf(a.event), a.at).db else db
  }

  function Run(db: Db, attempts: seq<Attempt>): Db {
    if attempts == [] then db else Attempted(Run(db, attempts[..|attempts| - 1]), attempts[|attempts| - 1])
  }

  /** The events whose transaction committed during the run. */
  function Committed(db: Db, attempts: seq<Attempt>): set<GameEvent> {
    if attempts == [] then {}
    else
      var prefix, last := attempts[..|attempts| - 1], attempts[|attempts| - 1];
      Committed(db, prefix) + if Applies(Run(db, prefix), last) then {last.event} else {}
  }

  predicate SameKey(a: GameEvent, b: GameEvent) { a.consumer == b.consumer && a.id == b.id }

  /** An event ID names one event. */
  predicate Identified(attempts: seq<Attempt>) {
    forall a, b :: a in attempts && b in attempts && SameKey(a.event, b.event) ==> a.event == b.event
  }

  /** Attempts of many games may be mixed; those of `game` all name `room`. */
  predicate Coherent(attempts: seq<Attempt>, game: int, room: string) {
    Identified(attempts) && forall a :: a in attempts && a.event.gameId == game ==> a.event.roomId == room
  }

  predicate Fresh(db: Db, attempts: seq<Attempt>, game: int) {
    && game !in db.sessions
    && forall a :: a in attempts ==> (a.event.consumer, a.event.id) !in db.markers
  }

  predicate IsStart(e: GameEvent, game: int) { e.gameId == game && KindOf(e).Started? }
  predicate IsEnd(e: GameEvent, game: int) { e.gameId == game && KindOf(e).Ended? }

  /** The times of `row` are what the committed events determine: earliest start, earliest end, and an order between them. */
  ghost predicate Determined(committed: set<GameEvent>, game: int, row: Session) {
    && row.Ordered()
    && (exists e :: e in committed && IsStart(e, game) && e.occurredAt == row.startedAt)
    && (forall e :: e in committed && IsStart(e, game) ==> row.startedAt <= e.occurredAt)
    && (row.endedAt.None? ==> forall e :: e in committed ==> !IsEnd(e, game))
    && (row.endedAt.Some? ==>
          && (exists e :: e in committed && IsEnd(e, game) && e.occurredAt == row.endedAt.value)
          && (forall e :: e in committed && IsEnd(e, game) ==> row.endedAt.value <= e.occurredAt))
  }

  ghost predicate Fits(committed: set<GameEvent>, game: int, db: Db) {
    if game in db.sessions then Determined(committed, game, db.sessions[game])
    else forall e :: e in committed ==> e.gameId != game
  }

  /** The invariant of every run, whatever rooms its events name: the times of the stored row are those its committed
      events determine, and the markers are exactly those of the committed events. */
  lemma {:induction false} RowIsDetermined(db: Db, attempts: seq<Attempt>, game: int)
    requires Identified(attempts) && Fresh(db, attempts, game)
    ensures Fits(Committed(db, attempts), game, Run(db, attempts))
    ensures forall e :: e in Committed(db, attempts) ==> exists a :: a in attempts && a.event == e
    ensures forall a :: a in attempts ==>
              ((a.event.consumer, a.event.id) in Run(db, attempts).markers <==> a.event in Committed(db, attempts))
  {
    if attempts != [] {
      var prefix, last := attempts[..|attempts| - 1], attempts[|attempts| - 1];
      assert attempts == prefix + [last];
      assert Fresh(db, prefix, game) && Identified(prefix);
      RowIsDetermined(db, prefix, game);
      var before, done := Run(db, prefix), Committed(db, prefix);
      MarkersOutside(db, prefix, last.event);
      if Applies(before, last) {
        RowStep(done, game, before, last);
      }
    }
  }

  /** A marker only appears for an event that was attempted. */
  lemma {:induction false} MarkersOutside(db: Db, attempts: seq<Attempt>, e: GameEvent)
    requires (e.consumer, e.id) !in db.markers
    requires forall a :: a in attempts ==> (a.event.consumer, a.event.id) != (e.consumer, e.id)
                                           || a.event == e
    ensures (e.consumer, e.id) in Run(db, attempts).markers <==> e in Committed(db, attempts)
  {
    if attempts != [] {
      var prefix, last := attempts[..|attempts| - 1], attempts[|attempts| - 1];
      assert last in attempts;
      MarkersOutside(db, prefix, e);
    }
  }

  lemma RowStep(done: set<GameEvent>, game: int, db: Db, a: Attempt)
    requires Fits(done, game, db) && Applies(db, a)
    ensures Fits(done + {a.event}, game, Attempted(db, a))
  {
    var e := a.event;
    var after := Attempted(db, a);
    var more := done + {e};
    assert e in more;
    if e.gameId == game {
      var row := after.sessions[game];
      if game in db.sessions {
        var was := db.sessions[game];
        var s :| s in done && IsStart(s, game) && s.occurredAt == was.startedAt;
        assert s in more;
        if was.endedAt.Some? {
          var f :| f in done && IsEnd(f, game) && f.occurredAt == was.endedAt.value;
          assert f in more;
        }
      }
    } else {
      if game in db.sessions {
        var row := after.sessions[game];
        assert row == db.sessions[game];
        var s :| s in done && IsStart(s, game) && s.occurredAt == row.startedAt;
        assert s in more;
        if row.endedAt.Some? {
          var f :| f in done && IsEnd(f, game) && f.occurredAt == row.endedAt.value;
          assert f in more;
        }
      }
    }
  }

  // ---------- which room a row names ----------

  /** Attempt number `k` committed a start of the game. */
  predicate CommitsStart(db: Db, attempts: seq<Attempt>, game: int, k: nat)
    requires k < |attempts|
  {
    Applies(Run(db, attempts[..k]), attempts[k]) && IsStart(attempts[k].event, game)
  }

  ghost predicate IsLastStart(db: Db, attempts: seq<Attempt>, game: int, k: nat) {
    && k < |attempts| && CommitsStart(db, attempts, game, k)
    && forall j :: k < j < |attempts| ==> !CommitsStart(db, attempts, game, j)
  }

  lemma LastStartOfPrefix(db: Db, attempts: seq<Attempt>, game: int, k: nat)
    requires attempts != [] && IsLastStart(db, attempts[..|attempts| - 1], game, k)
    requires !CommitsStart(db, attempts, game, |attempts| - 1)
    ensures IsLastStart(db, attempts, game, k)
  {
    var prefix := attempts[..|attempts| - 1];
    assert attempts[..k] == prefix[..k];
    forall j | k < j < |attempts|
      ensures !CommitsStart(db, attempts, game, j)
    {
      if j < |prefix| {
        assert attempts[..j] == prefix[..j] && !CommitsStart(db, prefix, game, j);
      }
    }
  }

  /** Of starts that name different rooms the last to commit decides, whatever was reported first. */
  lemma {:induction false} RowNamesLastStart(db: Db, attempts: seq<Attempt>, game: int) returns (k: nat)
    requires game !in db.sessions && game in Run(db, attempts).sessions
    ensures IsLastStart(db, attempts, game, k) && Run(db, attempts).sessions[game].roomId == attempts[k].event.roomId
  {
    var n := |attempts| - 1;
    if CommitsStart(db, attempts, game, n) {
      k := n;
    } else {
      k := RowNamesLastStart(db, attempts[..n], game);
      LastStartOfPrefix(db, attempts, game, k);
    }
  }

  lemma LastStartIsUnique(db: Db, attempts: seq<Attempt>, game: int, j: nat, k: nat)
    requires IsLastStart(db, attempts, game, j) && IsLastStart(db, attempts, game, k)
    ensures j == k
  {
  }

  // ---------- two histories ----------

  lemma DeterminedIsUnique(committed: set<GameEvent>, game: int, a: Session, b: Session)
    requires Determined(committed, game, a) && Determined(committed, game, b)
    ensures a.startedAt == b.startedAt && a.endedAt == b.endedAt
  {
  }

  lemma SameEventsSameTimes(a: set<GameEvent>, b: set<GameEvent>, game: int, row: Session)
    requires forall e: GameEvent :: e.gameId == game ==> (e in a <==> e in b)
    requires Determined(b, game, row)
    ensures Determined(a, game, row)
  {
  }

  predicate SameCommitted(a: set<GameEvent>, b: set<GameEvent>, game: int) {
    && (forall e :: e in a && e.gameId == game ==> e in b)
    && (forall e :: e in b && e.gameId == game ==> e in a)
  }

  /** Two runs that commit the same events of a game leave the same row behind, or none, exactly when the starts they
      committed last name the same room: otherwise order, redelivery, rollbacks and the events of other games make no
      difference, and none at all to the times. */
  lemma ConvergesExactlyWhen(db: Db, one: seq<Attempt>, db': Db, two: seq<Attempt>, game: int)
    requires Identified(one) && Fresh(db, one, game) && Identified(two) && Fresh(db', two, game)
    requires SameCommitted(Committed(db, one), Committed(db', two), game)
    ensures game in Run(db, one).sessions <==> game in Run(db', two).sessions
    ensures game in Run(db, one).sessions ==>
              var row, row' := Run(db, one).sessions[game], Run(db', two).sessions[game];
              && row.startedAt == row'.startedAt && row.endedAt == row'.endedAt
              && forall j: nat, k: nat :: IsLastStart(db, one, game, j) && IsLastStart(db', two, game, k) ==>
                   (row == row' <==> one[j].event.roomId == two[k].event.roomId)
  {
    RowIsDetermined(db, one, game);
    RowIsDetermined(db', two, game);
    if game in Run(db, one).sessions && game in Run(db', two).sessions {
      SameEventsSameTimes(Committed(db, one), Committed(db', two), game, Run(db', two).sessions[game]);
      DeterminedIsUnique(Committed(db, one), game, Run(db, one).sessions[game], Run(db', two).sessions[game]);
      var j := RowNamesLastStart(db, one, game);
      var k := RowNamesLastStart(db', two, game);
      forall j', k' | IsLastStart(db, one, game, j') && IsLastStart(db', two, game, k')
        ensures j' == j && k' == k
      {
        LastStartIsUnique(db, one, game, j, j');
        LastStartIsUnique(db', two, game, k, k');
      }
    }
  }

  lemma TwoAttempts(db: Db, a: Attempt, b: Attempt)
    ensures Run(db, [a, b]) == Attempted(Attempted(db, a), b)
    ensures Committed(db, [a, b]) == (if Applies(db, a) then {a.event} else {})
                                     + (if Applies(Attempted(db, a), b) then {b.event} else {})
  {
    assert [a, b][..1] == [a] && [a][..0] == [];
    assert Run(db, [a]) == Attempted(db, a) && Run(db, []) == db;
    assert Committed(db, [a]) == if Applies(db, a) then {a.event} else {};
  }

  /** For instance, two instances that report one game for the rooms of opposite teams: the order in which their starts
      commit decides the room, and with it whose end is refused. */
  lemma OrderOfStartsDecidesRoom(at: Time) returns (one: Attempt, two: Attempt, end: Attempt)
    ensures Identified([one, two]) && Identified([two, one]) && KindOf(end.event).Ended? && ValidGameEvent(end.event)
    ensures var db := Db(map[], map[]);
            && Committed(db, [one, two]) == Committed(db, [two, one]) == {one.event, two.event}
            && 7 in Run(db, [one, two]).sessions && 7 in Run(db, [two, one]).sessions
            && Run(db, [one, two]).sessions[7].roomId == "7-200" && Run(db, [two, one]).sessions[7].roomId == "7-100"
            && !Applies(Run(db, [one, two]), end) && Applies(Run(db, [two, one]), end)
  {
    one := Attempt(GameEvent("c", "1", SUBJECT_STARTED, 7, "7-100", SECOND), true, at);
    two := Attempt(GameEvent("c", "2", SUBJECT_STARTED, 7, "7-200", SECOND), true, at);
    end := Attempt(GameEvent("c", "3", SUBJECT_ENDED, 7, "7-100", MINUTE), true, at);
    TwoAttempts(Db(map[], map[]), one, two);
    TwoAttempts(Db(map[], map[]), two, one);
  }

  /** In particular when all events of the game name one room. */
  lemma Converges(db: Db, one: seq<Attempt>, db': Db, two: seq<Attempt>, game: int, room: string)
    requires Coherent(one, game, room) && Fresh(db, one, game)
    requires Coherent(two, game, room) && Fresh(db', two, game)
    requires SameCommitted(Committed(db, one), Committed(db', two), game)
    ensures game in Run(db, one).sessions <==> game in Run(db', two).sessions
    ensures game in Run(db, one).sessions ==> Run(db, one).sessions[game] == Run(db', two).sessions[game]
  {
    ConvergesExactlyWhen(db, one, db', two, game);
    if game in Run(db, one).sessions {
      var j := RowNamesLastStart(db, one, game);
      var k := RowNamesLastStart(db', two, game);
      assert one[j] in one && two[k] in two;
    }
  }

  /** Every reachable row satisfies the CHECK, with no assumption on the events at all. */
  lemma {:induction false} RowsStayOrdered(db: Db, attempts: seq<Attempt>)
    requires Sound(db)
    ensures Sound(Run(db, attempts))
  {
    if attempts != [] {
      RowsStayOrdered(db, attempts[..|attempts| - 1]);
    }
  }

  // ---------- which sets of events can all commit ----------

  /** Some start, and no end before the earliest of them. */
  predicate Consistent(events: seq<GameEvent>, game: int) {
    forall f :: f in events && IsEnd(f, game) ==> exists s :: s in events && IsStart(s, game) && s.occurredAt <= f.occurredAt
  }

  predicate OneRoom(events: seq<GameEvent>, game: int, room: string) {
    && (forall e :: e in events ==> ValidGameEvent(e) && e.gameId == game && e.roomId == room)
    && (forall i, j :: 0 <= i < j < |events| ==> (events[i].consumer, events[i].id) != (events[j].consumer, events[j].id))
  }

  function Once(events: seq<GameEvent>, at: Time): seq<Attempt> {
    seq(|events|, i requires 0 <= i < |events| => Attempt(events[i], true, at))
  }

  /** No schedule can commit a set of events in which an end precedes every start. */
  lemma CommittedEventsAreConsistent(db: Db, attempts: seq<Attempt>, game: int, events: seq<GameEvent>)
    requires Identified(attempts) && Fresh(db, attempts, game)
    requires forall e :: e in events ==> e in Committed(db, attempts)
    requires forall e :: e in Committed(db, attempts) && e.gameId == game ==> e in events
    ensures Consistent(events, game)
  {
    RowIsDetermined(db, attempts, game);
    forall f | f in events && IsEnd(f, game)
      ensures exists s :: s in events && IsStart(s, game) && s.occurredAt <= f.occurredAt
    {
      var row := Run(db, attempts).sessions[game];
      var s :| s in Committed(db, attempts) && IsStart(s, game) && s.occurredAt == row.startedAt;
      assert s in events;
    }
  }

  lemma {:induction false} CommittedGrows(db: Db, attempts: seq<Attempt>, k: nat)
    requires k <= |attempts|
    ensures Committed(db, attempts[..k]) <= Committed(db, attempts)
  {
    if k < |attempts| {
      var n := |attempts| - 1;
      CommittedGrows(db, attempts[..n], k);
      assert attempts[..n][..k] == attempts[..k];
    } else {
      assert attempts[..k] == attempts;
    }
  }

  /** Some committed start of the game is no later than this. */
  ghost predicate SomeStartBefore(committed: set<GameEvent>, game: int, time: Time) {
    exists s :: s in committed && IsStart(s, game) && s.occurredAt <= time
  }

  ghost predicate LastStartNames(db: Db, attempts: seq<Attempt>, game: int, room: string) {
    exists k: nat :: IsLastStart(db, attempts, game, k) && attempts[k].event.roomId == room
  }

  /** A start commits at its first attempt that lands; an end at its first that finds a start no later than itself and
      its own room named by the last start. */
  lemma AttemptCommitsExactlyWhen(db: Db, before: seq<Attempt>, a: Attempt, game: int)
    requires Identified(before + [a]) && Fresh(db, before + [a], game)
    requires a.event.gameId == game && ValidGameEvent(a.event)
    ensures a.event in Committed(db, before + [a]) <==>
              || a.event in Committed(db, before)
              || (a.lands && (IsStart(a.event, game)
                              || (SomeStartBefore(Committed(db, before), game, a.event.occurredAt)
                                  && LastStartNames(db, before, game, a.event.roomId))))
  {
    var all := before + [a];
    assert all[..|all| - 1] == before && all[|all| - 1] == a;
    assert forall b :: b in before ==> b in all;
    RowIsDetermined(db, before, game);
    MarkersOutside(db, before, a.event);
    if game in Run(db, before).sessions {
      var k := RowNamesLastStart(db, before, game);
      forall j | IsLastStart(db, before, game, j)
        ensures j == k
      {
        LastStartIsUnique(db, before, game, j, k);
      }
    }
  }

  predicate Follows(db: Db, attempts: seq<Attempt>, k: nat, events: seq<GameEvent>, game: int)
    requires k <= |attempts|
  {
    forall s :: s in events && IsStart(s, game) ==> s in Committed(db, attempts[..k])
  }

  /** Every event has an attempt that lands and, if it is an end, comes after all the starts have committed. */
  ghost predicate Schedules(db: Db, attempts: seq<Attempt>, events: seq<GameEvent>, game: int) {
    forall e :: e in events ==> Scheduled(db, attempts, events, game, e)
  }

  ghost predicate Scheduled(db: Db, attempts: seq<Attempt>, events: seq<GameEvent>, game: int, e: GameEvent) {
    exists k :: 0 <= k < |attempts| && attempts[k].event == e && attempts[k].lands
                && (IsStart(e, game) || Follows(db, attempts, k, events, game))
  }

  lemma OneRoomIsNamed(db: Db, attempts: seq<Attempt>, game: int, room: string, s: GameEvent)
    requires Coherent(attempts, game, room) && Fresh(db, attempts, game)
    requires s in Committed(db, attempts) && IsStart(s, game)
    ensures LastStartNames(db, attempts, game, room)
  {
    RowIsDetermined(db, attempts, game);
    var j := RowNamesLastStart(db, attempts, game);
    assert attempts[j] in attempts;
  }

  lemma ScheduledEventCommits(db: Db, attempts: seq<Attempt>, events: seq<GameEvent>, game: int, room: string, e: GameEvent)
    requires Coherent(attempts, game, room) && Fresh(db, attempts, game) && Consistent(events, game)
    requires e in events && e.gameId == game && ValidGameEvent(e) && Scheduled(db, attempts, events, game, e)
    ensures e in Committed(db, attempts)
  {
    var k :| 0 <= k < |attempts| && attempts[k].event == e && attempts[k].lands
             && (IsStart(e, game) || Follows(db, attempts, k, events, game));
    var before, a := attempts[..k], attempts[k];
    assert before + [a] == attempts[..k + 1];
    assert forall b :: b in before + [a] ==> b in attempts;
    AttemptCommitsExactlyWhen(db, before, a, game);
    if IsEnd(e, game) {
      var s :| s in events && IsStart(s, game) && s.occurredAt <= e.occurredAt;
      assert s in Committed(db, before);
      OneRoomIsNamed(db, before, game, room, s);
    }
    CommittedGrows(db, attempts, k + 1);
  }

  /** Conversely every event of a consistent set commits in every schedule in which redelivery, after the starts have
      committed, reaches it once more, whatever else is attempted, repeated or rolled back in between. */
  lemma ConsistentEventsCommit(db: Db, attempts: seq<Attempt>, events: seq<GameEvent>, game: int, room: string)
    requires Coherent(attempts, game, room) && Fresh(db, attempts, game) && Consistent(events, game)
    requires forall e :: e in events ==> e.gameId == game && ValidGameEvent(e)
    requires Schedules(db, attempts, events, game)
    ensures forall e :: e in events ==> e in Committed(db, attempts)
  {
    forall e | e in events
      ensures e in Committed(db, attempts)
    {
      assert Scheduled(db, attempts, events, game, e);
      ScheduledEventCommits(db, attempts, events, game, room, e);
    }
  }

  function StartsFirst(events: seq<GameEvent>, game: int): seq<GameEvent> {
    Select(events, game, Started) + Select(events, game, Ended)
  }

  function Select(events: seq<GameEvent>, game: int, kind: Kind): (chosen: seq<GameEvent>)
    ensures forall e :: e in chosen <==> e in events && e.gameId == game && KindOf(e) == kind
  {
    if events == [] then []
    else
      var rest := Select(events[..|events| - 1], game, kind);
      var last := events[|events| - 1];
      if last.gameId == game && KindOf(last) == kind then rest + [last] else rest
  }

  lemma {:induction false} SelectKeepsDistinct(events: seq<GameEvent>, game: int, room: string, kind: Kind)
    requires OneRoom(events, game, room)
    ensures OneRoom(Select(events, game, kind), game, room)
  {
    if events != [] {
      var prefix, last := events[..|events| - 1], events[|events| - 1];
      SelectKeepsDistinct(prefix, game, room, kind);
      var rest := Select(prefix, game, kind);
      forall e | e in rest
        ensures (e.consumer, e.id) != (last.consumer, last.id)
      {
        var i :| 0 <= i < |prefix| && prefix[i] == e;
        assert events[i] == e;
      }
    }
  }

  /** One such schedule attempts each event once, the starts first. */
  lemma StartsFirstCommits(db: Db, events: seq<GameEvent>, game: int, room: string, at: Time)
    requires OneRoom(events, game, room) && Consistent(events, game)
    requires Fresh(db, Once(events, at), game)
    ensures forall e :: e in events ==> e in Committed(db, Once(StartsFirst(events, game), at))
  {
    var order := StartsFirst(events, game);
    var starts, ends := Select(events, game, Started), Select(events, game, Ended);
    SelectKeepsDistinct(events, game, room, Started);
    SelectKeepsDistinct(events, game, room, Ended);
    forall i, j | 0 <= i < j < |order|
      ensures (order[i].consumer, order[i].id) != (order[j].consumer, order[j].id)
    {
      if i < |starts| <= j {
        assert order[i] in starts && order[j] in ends;
        var p :| 0 <= p < |events| && events[p] == order[i];
        var q :| 0 <= q < |events| && events[q] == order[j];
      }
    }
    assert forall e :: e in order <==> e in events && e.gameId == game;
    forall e | e in order
      ensures (e.consumer, e.id) !in db.markers
    {
      var p :| 0 <= p < |events| && events[p] == e;
      assert Once(events, at)[p].event == e;
      assert Once(events, at)[p] in Once(events, at);
    }
    StartsFirstIsASchedule(db, order, |starts|, game, room, at);
    assert Consistent(order, game);
    ConsistentEventsCommit(db, Once(order, at), order, game, room);
  }

  lemma StartsFirstIsASchedule(db: Db, order: seq<GameEvent>, starts: nat, game: int, room: string, at: Time)
    requires starts <= |order| && OneRoom(order, game, room)
    requires game !in db.sessions && forall e :: e in order ==> (e.consumer, e.id) !in db.markers
    requires forall i :: 0 <= i < |order| ==> (KindOf(order[i]).Started? <==> i < starts)
    ensures Coherent(Once(order, at), game, room) && Fresh(db, Once(order, at), game)
    ensures Schedules(db, Once(order, at), order, game)
  {
    var attempts := Once(order, at);
    OnceIsCoherent(db, order, game, room, at);
    forall e | e in order
      ensures Scheduled(db, attempts, order, game, e)
    {
      var k :| 0 <= k < |order| && order[k] == e;
      assert attempts[k].event == e;
      if k >= starts {
        forall s | s in order && IsStart(s, game)
          ensures s in Committed(db, attempts[..k])
        {
          var i :| 0 <= i < |order| && order[i] == s;
          StartCommits(db, attempts, i, k, game);
        }
        assert Follows(db, attempts, k, order, game);
      }
    }
  }

  lemma StartCommits(db: Db, attempts: seq<Attempt>, i: nat, k: nat, game: int)
    requires Identified(attempts) && Fresh(db, attempts, game) && i < k <= |attempts|
    requires attempts[i].lands && ValidGameEvent(attempts[i].event) && IsStart(attempts[i].event, game)
    ensures attempts[i].event in Committed(db, attempts[..k])
  {
    assert attempts[..k][..i] + [attempts[i]] == attempts[..k][..i + 1];
    assert forall b :: b in attempts[..k][..i + 1] ==> b in attempts;
    AttemptCommitsExactlyWhen(db, attempts[..k][..i], attempts[i], game);
    CommittedGrows(db, attempts[..k], i + 1);
  }

  lemma OnceIsCoherent(db: Db, events: seq<GameEvent>, game: int, room: string, at: Time)
    requires OneRoom(events, game, room)
    requires game !in db.sessions
    requires forall e :: e in events ==> (e.consumer, e.id) !in db.markers
    ensures Coherent(Once(events, at), game, room) && Fresh(db, Once(events, at), game)
  {
  }
}
