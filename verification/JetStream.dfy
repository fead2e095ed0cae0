/** The GAME_EVENTS stream and its dead-letter stream, as append-only logs that may deduplicate by message ID. */
module JetStream {
  import opened Common
  import opened Events
  import Keys

  datatype Settlement = Unsettled | Acked | Terminated

  /** `deliveries` counts attempts; `deliveredAt` is the time of the latest one. */
  datatype Message = Message(msgId: string, event: Event, storedAt: Time,
                             deliveries: nat, deliveredAt: Time, settlement: Settlement)

  /** A dead-letter record; `source` is the index of the failed message, `recordId` the record's own event ID. */
  datatype DeadLetter = DeadLetter(recordId: string, msgId: string, source: nat, event: Event,
                                   deliveryCount: nat, storedAt: Time, deleted: bool)

  type Stream = seq<Message>
  type DeadLetters = seq<DeadLetter>

  const MAX_DELIVER := 5
  const GAME_EVENTS_MAX_AGE := 7 * DAY
  const DEAD_LETTER_MAX_AGE := 30 * DAY
  const PROCESSING_TIMEOUT := 10 * SECOND

  predicate Holds(stream: Stream, msgId: string) {
    exists i :: 0 <= i < |stream| && stream[i].msgId == msgId
  }

  predicate HoldsRecord(records: DeadLetters, msgId: string) {
    exists d :: 0 <= d < |records| && records[d].msgId == msgId
  }

  /** A dead letter as it is published; `original` stands for the subject and the payload of the failed message. */
  datatype GameDeadLetterEvent = GameDeadLetterEvent(eventId: string, occurredAt: Time, version: int, original: Event,
                                                     error: string, deliveryCount: nat, sourceStream: string,
                                                     streamSequence: nat, consumer: string)

  /** Every field is there. */
  predicate ValidLetter(letter: GameDeadLetterEvent) {
    && "" !in {letter.eventId, letter.original.subject, letter.error, letter.sourceStream, letter.consumer}
    && letter.occurredAt != ZERO_TIME
    && 0 < letter.version && 0 < letter.deliveryCount && 0 < letter.streamSequence
  }

  function ToRecord(letter: GameDeadLetterEvent): DeadLetter
    requires ValidLetter(letter)
  {
    DeadLetter(letter.eventId, Keys.DeadLetterMessageId(letter.sourceStream, letter.streamSequence, letter.consumer),
               letter.streamSequence - 1, letter.original, letter.deliveryCount, letter.occurredAt, false)
  }

  /** The record holds the letter, undeleted, under the ID of the message it speaks of. */
  predicate RecordOf(record: DeadLetter, letter: GameDeadLetterEvent) {
    && record.recordId == letter.eventId && record.event == letter.original
    && record.deliveryCount == letter.deliveryCount && record.storedAt == letter.occurredAt
    && record.source + 1 == letter.streamSequence && !record.deleted
    && record.msgId == Keys.DeadLetterMessageId(letter.sourceStream, letter.streamSequence, letter.consumer)
  }

  /** A publication is swallowed only if its ID was stored before and the broker still remembers it. */
  function Stored(stream: Stream, msgId: string, e: Event, now: Time, remembered: bool): Stream {
    if remembered && Holds(stream, msgId) then stream
    else stream + [Message(msgId, e, now, 0, ZERO_TIME, Unsettled)]
  }

  function Recorded(records: DeadLetters, record: DeadLetter, remembered: bool): DeadLetters {
    if remembered && HoldsRecord(records, record.msgId) then records else records + [record]
  }

  /** Stream sequences start at one. */
  function DeadLetterId(source: nat): string {
    Keys.DeadLetterMessageId(STREAM_GAME_EVENTS, source + 1, CONSUMER_GAME_EVENTS)
  }

  function ReplayId(record: DeadLetter, position: nat): string {
    Keys.ReplayMessageId(record.recordId, position + 1)
  }

  function Delivered(stream: Stream, i: nat, now: Time): Stream
    requires i < |stream|
  {
    stream[i := stream[i].(deliveries := stream[i].deliveries + 1, deliveredAt := now)]
  }

  /** Settling a message that is already settled has no effect. */
  function Settled(stream: Stream, i: nat, how: Settlement): Stream
    requires i < |stream|
  {
    if stream[i].settlement.Unsettled? then stream[i := stream[i].(settlement := how)] else stream
  }

  function Deleted(records: DeadLetters, d: nat): DeadLetters
    requires d < |records|
  {
    records[d := records[d].(deleted := true)]
  }

  lemma DeadLetterIdsDiffer(i: nat, j: nat)
    ensures DeadLetterId(i) == DeadLetterId(j) <==> i == j
  {
    Keys.DeadLetterMessageIdInjective(STREAM_GAME_EVENTS, i + 1, CONSUMER_GAME_EVENTS,
                                      STREAM_GAME_EVENTS, j + 1, CONSUMER_GAME_EVENTS);
  }

  datatype PublishAck = PublishAck(duplicate: bool)

  const PUBLISH_ERROR := "durable publish"

  /** The broker as the application's client sees it. `now` is the broker's clock. */
  class Client {
    var stream: Stream
    var deadLetters: DeadLetters

    constructor ()
      ensures stream == [] && deadLetters == []
    {
      stream, deadLetters := [], [];
    }

    method PublishDurable(msgId: string, e: Event, now: Time, remembered: bool, fault: Fault)
      returns (ack: Result<PublishAck>)
      modifies this`stream
      ensures msgId == "" ==> ack.Error? && stream == old(stream)
      ensures msgId != "" ==>
                && stream == (if fault.Lands() then Stored(old(stream), msgId, e, now, remembered) else old(stream))
                && (ack.Ok? <==> fault.Works?)
                && (ack.Ok? ==> (ack.value.duplicate <==> remembered && Holds(old(stream), msgId)))
                && (ack.Ok? && ack.value.duplicate ==> stream == old(stream))
                && (ack.Ok? && !ack.value.duplicate ==>
                      stream == old(stream) + [Message(msgId, e, now, 0, ZERO_TIME, Unsettled)])
      ensures ack.Ok? ==> Holds(stream, msgId)
      ensures msgId != "" && ack.Error? ==> ack.message == PUBLISH_ERROR
    {
      if msgId == "" {
        return Error("durable message ID is required");
      }
      var duplicate := remembered && Holds(stream, msgId);
      if fault.Lands() {
        stream := Stored(stream, msgId, e, now, remembered);
        assert !duplicate ==> stream[|stream| - 1].msgId == msgId;
      }
      if !fault.Works? {
        return Error(PUBLISH_ERROR);
      }
      return Ok(PublishAck(duplicate));
    }

    method PublishGameDeadLetter(letter: GameDeadLetterEvent, remembered: bool, fault: Fault)
      returns (ack: Result<PublishAck>)
      modifies this`deadLetters
      ensures !ValidLetter(letter) ==> ack.Error? && deadLetters == old(deadLetters)
      ensures ValidLetter(letter) ==>
                && deadLetters == (if fault.Lands() then Recorded(old(deadLetters), ToRecord(letter), remembered)
                                   else old(deadLetters))
                && (ack.Ok? <==> fault.Works?)
      ensures ack.Ok? ==> ValidLetter(letter) && HoldsRecord(deadLetters, ToRecord(letter).msgId)
      ensures ack.Ok? && !ack.value.duplicate ==>
                && |deadLetters| == |old(deadLetters)| + 1 && old(deadLetters) <= deadLetters
                && RecordOf(deadLetters[|old(deadLetters)|], letter)
      ensures ack.Ok? && ack.value.duplicate ==> remembered && deadLetters == old(deadLetters)
    {
      if letter.eventId == "" || letter.occurredAt == ZERO_TIME || letter.version <= 0
         || letter.original.subject == "" || letter.error == "" || letter.deliveryCount == 0
         || letter.sourceStream == "" || letter.streamSequence == 0 || letter.consumer == "" {
        return Error("validate game dead-letter event");
      }
      var record := DeadLetter(letter.eventId,
                               Keys.DeadLetterMessageId(letter.sourceStream, letter.streamSequence, letter.consumer),
                               letter.streamSequence - 1, letter.original, letter.deliveryCount, letter.occurredAt, false);
      var duplicate := remembered && HoldsRecord(deadLetters, record.msgId);
      if fault.Lands() {
        deadLetters := Recorded(deadLetters, record, remembered);
        assert !duplicate ==> deadLetters[|deadLetters| - 1].msgId == record.msgId;
      }
      if !fault.Works? {
        return Error(PUBLISH_ERROR);
      }
      return Ok(PublishAck(duplicate));
    }

    /** DoubleAck when `how` is Acked, TermWithReason when it is Terminated. */
    method Settle(i: nat, how: Settlement, fault: Fault) returns (failed: bool)
      requires i < |stream|
      modifies this`stream
      ensures stream == if fault.Lands() then Settled(old(stream), i, how) else old(stream)
      ensures failed <==> !fault.Works?
      ensures !failed ==> stream == old(stream)[i := old(stream)[i].(
                                      settlement := if old(stream)[i].settlement.Unsettled? then how else old(stream)[i].settlement)]
    {
      if fault.Lands() {
        stream := Settled(stream, i, how);
      }
      return !fault.Works?;
    }

    method GetGameDeadLetter(sequence: nat, now: Time, fault: Fault) returns (record: Result<DeadLetter>)
      ensures record.Ok? <==> fault.Works? && Loadable(deadLetters, sequence, now)
      ensures record.Ok? ==> record.value == deadLetters[sequence - 1]
      ensures record.Ok? <==>
                && fault.Works? && 0 < sequence <= |deadLetters| && !deadLetters[sequence - 1].deleted
                && deadLetters[sequence - 1].recordId != "" && deadLetters[sequence - 1].event.subject != ""
                && deadLetters[sequence - 1].storedAt != ZERO_TIME && deadLetters[sequence - 1].deliveryCount > 0
                && now - deadLetters[sequence - 1].storedAt <= 30 * 24 * HOUR
    {
      if sequence == 0 {
        return Error("dead-letter sequence must be positive");
      }
      if !fault.Works? || !Loadable(deadLetters, sequence, now) {
        return Error("get dead-letter message");
      }
      return Ok(deadLetters[sequence - 1]);
    }

    method DeleteGameDeadLetter(sequence: nat, fault: Fault) returns (failure: Option<string>)
      modifies this`deadLetters
      ensures deadLetters == if sequence == 0 || |old(deadLetters)| < sequence || !fault.Lands() then old(deadLetters)
                             else Deleted(old(deadLetters), sequence - 1)
      ensures failure.None? <==> fault.Works? && 0 < sequence <= |old(deadLetters)| && !old(deadLetters)[sequence - 1].deleted
      ensures failure.None? ==>
                deadLetters == old(deadLetters)[sequence - 1 := old(deadLetters)[sequence - 1].(deleted := true)]
    {
      if sequence == 0 {
        return Some("dead-letter sequence must be positive");
      }
      var found := sequence <= |deadLetters| && !deadLetters[sequence - 1].deleted;
      if fault.Lands() && sequence <= |deadLetters| {
        deadLetters := Deleted(deadLetters, sequence - 1);
      }
      if !fault.Works? || !found {
        return Some("delete dead-letter message");
      }
      return None;
    }
  }

  predicate ValidRecord(record: DeadLetter) {
    record.recordId != "" && record.storedAt != ZERO_TIME && record.deliveryCount > 0 && record.event.subject != ""
  }

  /** Present, valid and not past its age limit. */
  predicate Loadable(records: DeadLetters, sequence: nat, now: Time) {
    && 0 < sequence <= |records|
    && !records[sequence - 1].deleted
    && ValidRecord(records[sequence - 1])
    && now <= records[sequence - 1].storedAt + DEAD_LETTER_MAX_AGE
  }
}
