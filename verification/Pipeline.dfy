/** The whole durable pipeline as one transition system: any number of application instances, relays, consumer callbacks
    and replay operators, each external call being one step. A call that fails without effect is a step that does nothing;
    a call whose effect lands but whose answer is lost is the same step as one that works. */
module Pipeline {
  import opened Common
  import opened Events
  import opened Outbox
  import opened JetStream
  import Inbox

  datatype Commit = Commit(message: nat, event: Event, at: Time)

  /** `pending` holds the retained event of each running instance. The last four fields are history: every event ever
      built, every event ever inserted in the outbox, every event a stopping process held, every committed transaction.
      `retention` is how long inbox markers are kept, and never changes. */
  datatype State = State(clock: Time, pending: map<nat, Event>, outbox: Rows, stream: Stream, deadLetters: DeadLetters,
                         inbox: Inbox.Db, retention: int, built: set<Event>, enqueued: set<Event>, dropped: set<Event>,
                         commits: seq<Commit>)

  datatype Step =
    | Nothing
    | Tick(elapsed: nat)
    | Build(instance: nat, event: Event)
    | Enqueue(event: Event)
    | Forget(instance: nat)
    | Crash(instance: nat)
    | Claim(now: Time, until: Time, limit: nat, locked: set<string>, batch: seq<string>)
    | Publish(event: Event, remembered: bool)
    | MarkPublished(id: string, at: Time)
    | MarkFailed(id: string, next: Time, reason: string)
    | PurgeOutbox(cutoff: Time)
    | Deliver(index: nat)
    | Transact(index: nat)
    | Ack(index: nat)
    | Bury(index: nat, recordId: string, count: nat, remembered: bool)
    | Terminate(index: nat)
    | Replay(position: nat, remembered: bool)
    | DeleteRecord(position: nat)
    | PurgeMarkers(cutoff: Time)

  const PROCESSED_EVENT_RETENTION := 30 * DAY

  function InitWith(clock: Time, retention: int): State {
    State(clock, map[], map[], [], [], Inbox.Db(map[], map[]), retention, {}, {}, {}, [])
  }

  function Init(clock: Time): State { InitWith(clock, PROCESSED_EVENT_RETENTION) }

  function ToGameEvent(e: Event): Inbox.GameEvent {
    Inbox.GameEvent(CONSUMER_GAME_EVENTS, e.id, e.subject, e.gameId, e.roomId, e.occurredAt)
  }

  /** The consumer's handler: decode, check, choose the transaction by subject. */
  function Handled(db: Inbox.Db, e: Event, now: Time): Inbox.Outcome {
    if !IsGameSubject(e.subject) || !ValidPayload(e) then Inbox.Rejected
    else Inbox.Process(db, ToGameEvent(e), if e.subject == SUBJECT_STARTED then Inbox.Started else Inbox.Ended, now)
  }

  predicate CommittedId(s: State, id: string) {
    exists c :: 0 <= c < |s.commits| && s.commits[c].event.id == id
  }

  predicate UsedId(built: set<Event>, id: string) {
    exists e :: e in built && e.id == id
  }

  /** What the acting process knows when it issues the call. Each condition, once true, stays true
      (see PipelineInvariant.KnowledgeLasts), so it survives whatever other processes do meanwhile;
      the exceptions are Build, Forget and Crash, which only their own instance takes, and the time limits. */
  predicate Enabled(s: State, step: Step) {
    match step
    case Nothing => true
    case Tick(elapsed) => true
    case Build(instance, e) => instance !in s.pending && WellFormed(e) && !UsedId(s.built, e.id)
    case Enqueue(e) => e in s.built
    case Forget(instance) => instance in s.pending && s.pending[instance] in s.enqueued
    case Crash(instance) => instance in s.pending
    case Claim(now, until, limit, locked, batch) => ValidClaim(s.outbox, now, limit, locked, batch)
    case Publish(e, remembered) => e in s.enqueued
    case MarkPublished(id, at) => Holds(s.stream, id)
    case MarkFailed(id, next, reason) => true
    case PurgeOutbox(cutoff) => true
    case Deliver(i) => i < |s.stream| && s.stream[i].settlement.Unsettled?
                       && s.clock <= s.stream[i].storedAt + GAME_EVENTS_MAX_AGE
    case Transact(i) => i < |s.stream| && s.stream[i].deliveries > 0
                        && s.clock <= s.stream[i].deliveredAt + PROCESSING_TIMEOUT
    case Ack(i) => i < |s.stream| && CommittedId(s, s.stream[i].event.id)
    case Bury(i, recordId, count, remembered) => i < |s.stream| && MAX_DELIVER <= count <= s.stream[i].deliveries
    case Terminate(i) => i < |s.stream| && HoldsRecord(s.deadLetters, DeadLetterId(i))
    case Replay(d, remembered) => d < |s.deadLetters|
    case DeleteRecord(d) => d < |s.deadLetters| && Holds(s.stream, ReplayId(s.deadLetters[d], d))
    case PurgeMarkers(cutoff) => cutoff <= s.clock - s.retention
  }

  function NewRecord(s: State, i: nat, recordId: string, count: nat): DeadLetter
    requires i < |s.stream|
  {
    DeadLetter(recordId, DeadLetterId(i), i, s.stream[i].event, count, s.clock, false)
  }

  function Effect(s: State, step: Step): State
    requires Enabled(s, step)
  {
    match step
    case Nothing => s
    case Tick(elapsed) => s.(clock := s.clock + elapsed)
    case Build(instance, e) => s.(pending := s.pending[instance := e], built := s.built + {e})
    case Enqueue(e) => s.(outbox := Enqueued(s.outbox, e, s.clock), enqueued := s.enqueued + {e})
    case Forget(instance) => s.(pending := s.pending - {instance})
    case Crash(instance) => s.(pending := s.pending - {instance}, dropped := s.dropped + {s.pending[instance]})
    case Claim(now, until, limit, locked, batch) => s.(outbox := Leased(s.outbox, batch, until))
    case Publish(e, remembered) => s.(stream := Stored(s.stream, e.id, e, s.clock, remembered))
    case MarkPublished(id, at) => s.(outbox := Published(s.outbox, id, at))
    case MarkFailed(id, next, reason) => s.(outbox := Failed(s.outbox, id, next, reason))
    case PurgeOutbox(cutoff) => s.(outbox := Purged(s.outbox, cutoff))
    case Deliver(i) => s.(stream := Delivered(s.stream, i, s.clock))
    case Transact(i) =>
      var outcome := Handled(s.inbox, s.stream[i].event, s.clock);
      if outcome.Applied? then s.(inbox := outcome.db, commits := s.commits + [Commit(i, s.stream[i].event, s.clock)])
      else s
    case Ack(i) => s.(stream := Settled(s.stream, i, Acked))
    case Bury(i, recordId, count, remembered) =>
      s.(deadLetters := Recorded(s.deadLetters, NewRecord(s, i, recordId, count), remembered))
    case Terminate(i) => s.(stream := Settled(s.stream, i, Terminated))
    case Replay(d, remembered) =>
      var record := s.deadLetters[d];
      s.(stream := Stored(s.stream, ReplayId(record, d), record.event, s.clock, remembered))
    case DeleteRecord(d) => s.(deadLetters := Deleted(s.deadLetters, d))
    case PurgeMarkers(cutoff) => s.(inbox := Inbox.Forgotten(s.inbox, cutoff))
  }

  /** A step nobody can take changes nothing, so every sequence of steps is a run. */
  function Next(s: State, step: Step): State {
    if Enabled(s, step) then Effect(s, step) else s
  }

  function Run(s: State, steps: seq<Step>): State {
    if steps == [] then s else Next(Run(s, steps[..|steps| - 1]), steps[|steps| - 1])
  }

  lemma {:induction false} RunKeepsRetention(s: State, steps: seq<Step>)
    ensures Run(s, steps).retention == s.retention
  {
    if steps != [] {
      RunKeepsRetention(s, steps[..|steps| - 1]);
    }
  }

  lemma {:induction false} RunConcat(s: State, a: seq<Step>, b: seq<Step>)
    ensures Run(s, a + b) == Run(Run(s, a), b)
  {
    if b == [] {
      assert a + b == a;
    } else {
      RunConcat(s, a, b[..|b| - 1]);
      assert (a + b)[..|a + b| - 1] == a + b[..|b| - 1];
    }
  }

  lemma RunSnoc(s: State, steps: seq<Step>, t: State, step: Step, u: State)
    requires Run(s, steps) == t && u == Next(t, step)
    ensures Run(s, steps + [step]) == u
  {
    assert (steps + [step])[..|steps|] == steps;
  }
}
