/** Durable game lifecycle events as they travel from the outbox to the consumer. */
module Events {
  import opened Common
  import Keys

  const SUBJECT_STARTED := "game.started"
  const SUBJECT_ENDED := "game.ended"
  const STREAM_GAME_EVENTS := "GAME_EVENTS"
  const CONSUMER_GAME_EVENTS := "game-events-processor"
  const GAME_EVENT_VERSION := 1

  /** The payload; `id` is also the outbox key and the JetStream message ID. */
  datatype Event = Event(id: string, occurredAt: Time, version: int, subject: string, gameId: int, roomId: string)

  predicate IsGameSubject(subject: string) {
    subject == SUBJECT_STARTED || subject == SUBJECT_ENDED
  }

  /** What the consumer checks after decoding a payload. */
  predicate ValidPayload(e: Event) {
    e.id != "" && e.occurredAt != ZERO_TIME && e.version > 0 && e.gameId > 0 && e.roomId != ""
  }

  /** What the lifecycle service produces. */
  predicate WellFormed(e: Event) {
    Keys.IsEventId(e.id) && IsGameSubject(e.subject) && ValidPayload(e)
  }
}
