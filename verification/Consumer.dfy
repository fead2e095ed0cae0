/** The game consumer: from a stream message to an inbox transaction. */
module Consumer {
  import opened Common
  import opened Events
  import Inbox
  import Pipeline

  predicate Complete(subject: string, data: Event) {
    && (subject == "game.started" || subject == "game.ended")
    && data.id != "" && data.occurredAt != ZERO_TIME && data.version > 0 && data.gameId > 0 && data.roomId != ""
  }

  /** A started row of the game names the room, and did not start after the end it would then show. */
  predicate EndFits(sessions: map<int, Inbox.Session>, data: Event) {
    && data.gameId in sessions && sessions[data.gameId].roomId == data.roomId
    && var row := sessions[data.gameId];
       if row.endedAt.Some? && row.endedAt.value <= data.occurredAt then row.startedAt <= row.endedAt.value
       else row.startedAt <= data.occurredAt
  }

  class GameConsumer {
    const inbox: Inbox.Repository

    constructor (inbox: Inbox.Repository)
      ensures this.inbox == inbox
    {
      this.inbox := inbox;
    }

    /** Succeeds exactly when the event is applied, or was applied before, and the database says so. */
    method Handle(subject: string, data: Event, now: Time, fault: Fault) returns (failure: Option<string>)
      requires subject == data.subject
      modifies inbox
      ensures var outcome := Pipeline.Handled(old(inbox.View()), data, now);
              && (failure.None? <==> fault.Works? && !outcome.Rejected?)
              && inbox.View() == if fault.Lands() && outcome.Applied? then outcome.db else old(inbox.View())
      ensures failure.None? <==>
                && fault.Works? && Complete(subject, data)
                && ((CONSUMER_GAME_EVENTS, data.id) in old(inbox.markers) || subject == "game.started"
                    || EndFits(old(inbox.sessions), data))
    {
      if !IsGameSubject(subject) {
        return Some("unsupported game event subject");
      }
      if !ValidPayload(data) {
        return Some("validate game event");
      }
      var event := Pipeline.ToGameEvent(data);
      var processed: Result<bool>;
      if subject == SUBJECT_STARTED {
        processed := inbox.ProcessGameStarted(event, now, fault);
      } else {
        processed := inbox.ProcessGameEnded(event, now, fault);
      }
      if processed.Error? {
        return Some(processed.message);
      }
      return None;
    }
  }
}
