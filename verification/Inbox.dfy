/** The transactional inbox: `processed_events` and `game_sessions` change together or not at all. */
module Inbox {
  import opened Common

  datatype GameEvent = GameEvent(consumer: string, id: string, subject: string,
                                 gameId: int, roomId: string, occurredAt: Time)

  datatype Session = Session(roomId: string, startedAt: Time, endedAt: Option<Time>) {
    /** The table's CHECK constraint. */
    predicate Ordered() {
      endedAt.Some? ==> startedAt <= endedAt.value
    }
  }

  /** `processed_events` maps (consumer, event) to processed_at; `game_sessions` is keyed by game. */
  datatype Db = Db(markers: map<(string, string), Time>, sessions: map<int, Session>)

  datatype Kind = Started | Ended

  datatype Outcome = Applied(db: Db) | Duplicate | Rejected

  predicate ValidGameEvent(e: GameEvent) {
    e.consumer != "" && e.id != "" && e.subject != "" && e.gameId > 0 && e.roomId != "" && e.occurredAt != ZERO_TIME
  }

  function Least(a: Time, b: Time): Time { if b < a then b else a }

  /** The upsert: the latest committed start names the room, the earliest gives the time. */
  function StartSession(sessions: map<int, Session>, e: GameEvent): map<int, Session> {
    if e.gameId in sessions then
      var row := sessions[e.gameId];
      sessions[e.gameId := row.(roomId := e.roomId, startedAt := Least(row.startedAt, e.occurredAt))]
    else
      sessions[e.gameId := Session(e.roomId, e.occurredAt, None)]
  }

  function EndedRow(row: Session, e: GameEvent): Session {
    row.(endedAt := if row.endedAt.None? || row.endedAt.value > e.occurredAt then Some(e.occurredAt) else row.endedAt)
  }

  /** The update; None when no started row of that room matches or the CHECK refuses the new row. */
  function EndSession(sessions: map<int, Session>, e: GameEvent): Option<map<int, Session>> {
    if e.gameId !in sessions || sessions[e.gameId].roomId != e.roomId then None
    else
      var row := EndedRow(sessions[e.gameId], e);
      if row.Ordered() then Some(sessions[e.gameId := row]) else None
  }

  function Process(db: Db, e: GameEvent, kind: Kind, now: Time): Outcome {
    if !ValidGameEvent(e) then Rejected
    else if (e.consumer, e.id) in db.markers then Duplicate
    else
      var markers := db.markers[(e.consumer, e.id) := now];
      match kind
      case Started => Applied(Db(markers, StartSession(db.sessions, e)))
      case Ended =>
        var sessions := EndSession(db.sessions, e);
        if sessions.None? then Rejected else Applied(Db(markers, sessions.value))
  }

  predicate Sound(db: Db) {
    forall g :: g in db.sessions ==> db.sessions[g].Ordered()
  }

  class Repository {
    var markers: map<(string, string), Time>
    var sessions: map<int, Session>

    constructor ()
      ensures View() == Db(map[], map[])
    {
      markers, sessions := map[], map[];
    }

    function View(): Db
      reads this
    {
      Db(markers, sessions)
    }

    method ProcessGameStarted(e: GameEvent, now: Time, fault: Fault) returns (processed: Result<bool>)
      modifies this
      ensures View() == AfterTransaction(old(View()), e, Started, now, fault)
      ensures processed == TransactionResult(old(View()), e, Started, now, fault)
    {
      processed := Transact(e, Started, now, fault);
    }

    method ProcessGameEnded(e: GameEvent, now: Time, fault: Fault) returns (processed: Result<bool>)
      modifies this
      ensures View() == AfterTransaction(old(View()), e, Ended, now, fault)
      ensures processed == TransactionResult(old(View()), e, Ended, now, fault)
    {
      processed := Transact(e, Ended, now, fault);
    }

    /** Removes the markers of transactions before the cutoff. */
    method DeleteProcessedBefore(cutoff: Time, fault: Fault) returns (deleted: Result<nat>)
      modifies this
      ensures cutoff == ZERO_TIME ==> deleted.Error? && View() == old(View())
      ensures cutoff != ZERO_TIME ==>
                && View() == (if fault.Lands() then Forgotten(old(View()), cutoff) else old(View()))
                && (deleted.Ok? <==> fault.Works?)
                && (deleted.Ok? ==> deleted.value + |markers| == |old(markers)|)
                && (forall k :: k in markers ==> k in old(markers) && markers[k] == old(markers)[k])
                && (fault.Lands() ==> forall k :: k in old(markers) ==> (k !in markers <==> old(markers)[k] < cutoff))
    {
      if cutoff == ZERO_TIME {
        return Error("processed event cutoff is required");
      }
      var kept := Forgotten(View(), cutoff).markers;
      assert kept.Keys <= markers.Keys;
      assert |markers.Keys - kept.Keys| == |markers.Keys| - |kept.Keys|;
      var affected := |markers| - |kept|;
      if fault.Lands() {
        markers := kept;
      }
      if !fault.Works? {
        return Error("delete processed events");
      }
      return Ok(affected);
    }

    /** The shared transaction: claim the event, apply the change, commit; any early return rolls back. */
    method Transact(e: GameEvent, kind: Kind, now: Time, fault: Fault) returns (processed: Result<bool>)
      modifies this
      ensures "" in {e.consumer, e.id, e.subject, e.roomId} || e.gameId <= 0 || e.occurredAt == ZERO_TIME ==>
                processed.Error? && View() == old(View())
      ensures "" !in {e.consumer, e.id, e.subject, e.roomId} && e.gameId > 0 && e.occurredAt != ZERO_TIME && kind.Started? ==>
                (processed.Ok? <==> fault.Works?)
      ensures View() == AfterTransaction(old(View()), e, kind, now, fault)
      ensures processed == TransactionResult(old(View()), e, kind, now, fault)
    {
      if !ValidGameEvent(e) {
        return Error("invalid game event");
      }
      if fault.NoEffect? {
        return Error("game event transaction");
      }
      if (e.consumer, e.id) in markers {
        if fault.LandsWithError? {
          return Error("game event transaction");
        }
        return Ok(false);
      }
      var claimed := markers[(e.consumer, e.id) := now];
      var changed := sessions;
      match kind {
        case Started =>
          changed := StartSession(sessions, e);
        case Ended =>
          var ended := EndSession(sessions, e);
          if ended.None? {
            return Error("started game not found");
          }
          changed := ended.value;
      }
      markers, sessions := claimed, changed;
      if fault.LandsWithError? {
        return Error("game event transaction");
      }
      return Ok(true);
    }
  }

  function Forgotten(db: Db, cutoff: Time): Db {
    db.(markers := map k | k in db.markers && !(db.markers[k] < cutoff) :: db.markers[k])
  }

  function AfterTransaction(db: Db, e: GameEvent, kind: Kind, now: Time, fault: Fault): Db {
    var outcome := Process(db, e, kind, now);
    if fault.Lands() && outcome.Applied? then outcome.db else db
  }

  function TransactionResult(db: Db, e: GameEvent, kind: Kind, now: Time, fault: Fault): Result<bool> {
    if !ValidGameEvent(e) then Error("invalid game event")
    else if fault.NoEffect? then Error("game event transaction")
    else
      var outcome := Process(db, e, kind, now);
      if outcome.Rejected? then Error("started game not found")
      else if fault.LandsWithError? then Error("game event transaction")
      else Ok(outcome.Applied?)
  }
}
