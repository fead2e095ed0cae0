/** Nothing the pipeline holds is stuck: wherever an event is, calls that work bring it to the database. */
module Recovery {
  import opened Common
  import opened Events
  import opened Outbox
  import opened JetStream
  import opened Pipeline
  import opened PipelineInvariant
  import Inbox
  import Retention

  /** The inbox would take this event now: it is not marked and, for an end, a started row of its room accepts it. */
  predicate Acceptable(db: Inbox.Db, e: Event) {
    && MarkerKey(e) !in db.markers
    && (e.subject == SUBJECT_ENDED ==> Inbox.EndSession(db.sessions, ToGameEvent(e)).Some?)
  }

  lemma AppliedExactlyWhenAcceptable(db: Inbox.Db, e: Event, now: Time)
    requires WellFormed(e)
    ensures Handled(db, e, now).Applied? <==> Acceptable(db, e)
  {
  }

  // ---------- a stored message ----------

  /** A delivery that is handled and acknowledged. */
  function Consumption(i: nat): seq<Step> { [Deliver(i), Transact(i), Ack(i)] }

  function Applied(s: State, i: nat): State
    requires i < |s.stream| && Handled(s.inbox, s.stream[i].event, s.clock).Applied?
  {
    s.(inbox := Handled(s.inbox, s.stream[i].event, s.clock).db, commits := s.commits + [Commit(i, s.stream[i].event, s.clock)])
  }

  lemma DeliverIs(s: State, i: nat)
    requires i < |s.stream| && s.stream[i].settlement.Unsettled? && s.clock <= s.stream[i].storedAt + GAME_EVENTS_MAX_AGE
    ensures Next(s, Deliver(i)) == Retention.Redelivered(s, i, 1)
  {
  }

  lemma AckIs(s: State, i: nat)
    requires i < |s.stream| && CommittedId(s, s.stream[i].event.id)
    ensures Next(s, Ack(i)) == s.(stream := JetStream.Settled(s.stream, i, Acked))
  {
  }

  /** The event of a message within its age is committed, and the message acknowledged. */
  lemma MessageRecovers(s: State, i: nat)
    requires i < |s.stream| && s.stream[i].settlement.Unsettled? && s.clock <= s.stream[i].storedAt + GAME_EVENTS_MAX_AGE
    requires WellFormed(s.stream[i].event) && Acceptable(s.inbox, s.stream[i].event)
    ensures var t := Run(s, Consumption(i));
            && t.commits == s.commits + [Commit(i, s.stream[i].event, s.clock)]
            && |t.stream| == |s.stream| && t.stream[i].settlement == Acked && t.stream[i].msgId == s.stream[i].msgId
            && t.outbox == s.outbox && t.deadLetters == s.deadLetters && t.clock == s.clock
  {
    var e := s.stream[i].event;
    AppliedExactlyWhenAcceptable(s.inbox, e, s.clock);
    var s1 := Retention.Redelivered(s, i, 1);
    var s2 := Applied(s1, i);
    var s3 := s2.(stream := JetStream.Settled(s2.stream, i, Acked));
    DeliverIs(s, i);
    Retention.TransactIs(s1, i);
    assert s2.commits[|s.commits|].event.id == e.id;
    AckIs(s2, i);
    RunSnoc(s, [], s, Deliver(i), s1);
    RunSnoc(s, [Deliver(i)], s1, Transact(i), s2);
    RunSnoc(s, [Deliver(i)] + [Transact(i)], s2, Ack(i), s3);
    assert [] + [Deliver(i)] == [Deliver(i)] && [Deliver(i)] + [Transact(i)] + [Ack(i)] == Consumption(i);
  }

  // ---------- a pending row ----------

  function Message0(msgId: string, e: Event, now: Time): Message { Message(msgId, e, now, 0, ZERO_TIME, Unsettled) }

  lemma PublishIs(s: State, e: Event)
    requires e in s.enqueued
    ensures Next(s, Publish(e, false)) == s.(stream := s.stream + [Message0(e.id, e, s.clock)])
  {
  }

  lemma MarkIs(s: State, id: string)
    requires Holds(s.stream, id)
    ensures Next(s, MarkPublished(id, s.clock)).outbox == Published(s.outbox, id, s.clock)
    ensures Next(s, MarkPublished(id, s.clock)).commits == s.commits
  {
  }

  /** The event of a pending row is published, consumed and marked. */
  lemma RowRecovers(s: State, id: string) returns (steps: seq<Step>)
    requires RowsIdentified(s) && EventsIdentified(s) && BuiltAccounted(s)
    requires IsPending(s.outbox, id) && Acceptable(s.inbox, s.outbox[id].event)
    ensures steps == [Publish(s.outbox[id].event, false)] + Consumption(|s.stream|) + [MarkPublished(id, s.clock)]
    ensures Run(s, steps).commits == s.commits + [Commit(|s.stream|, s.outbox[id].event, s.clock)]
    ensures id in Run(s, steps).outbox && !Run(s, steps).outbox[id].Pending()
  {
    var e, n := s.outbox[id].event, |s.stream|;
    var s1 := s.(stream := s.stream + [Message0(e.id, e, s.clock)]);
    PublishIs(s, e);
    RunSnoc(s, [], s, Publish(e, false), s1);
    assert [] + [Publish(e, false)] == [Publish(e, false)];
    MessageRecovers(s1, n);
    RunConcat(s, [Publish(e, false)], Consumption(n));
    var t := Run(s1, Consumption(n));
    assert t.stream[n].msgId == id;
    MarkIs(t, id);
    steps := [Publish(e, false)] + Consumption(n) + [MarkPublished(id, s.clock)];
    RunSnoc(s, [Publish(e, false)] + Consumption(n), t, MarkPublished(id, s.clock), Next(t, MarkPublished(id, s.clock)));
  }

  // ---------- a dead letter ----------

  lemma ReplayIs(s: State, d: nat)
    requires d < |s.deadLetters|
    ensures var record := s.deadLetters[d];
            Next(s, Replay(d, false)) == s.(stream := s.stream + [Message0(ReplayId(record, d), record.event, s.clock)])
  {
  }

  lemma DeleteIs(s: State, d: nat)
    requires d < |s.deadLetters| && Holds(s.stream, ReplayId(s.deadLetters[d], d))
    ensures Next(s, DeleteRecord(d)) == s.(deadLetters := Deleted(s.deadLetters, d))
  {
  }

  /** The event of a dead letter that can be loaded is republished and consumed, and the record deleted. */
  lemma DeadLetterRecovers(s: State, d: nat) returns (steps: seq<Step>)
    requires Loadable(s.deadLetters, d + 1, s.clock)
    requires WellFormed(s.deadLetters[d].event) && Acceptable(s.inbox, s.deadLetters[d].event)
    ensures steps == [Replay(d, false)] + Consumption(|s.stream|) + [DeleteRecord(d)]
    ensures Run(s, steps).commits == s.commits + [Commit(|s.stream|, s.deadLetters[d].event, s.clock)]
    ensures d < |Run(s, steps).deadLetters| && Run(s, steps).deadLetters[d].deleted
  {
    var record, n := s.deadLetters[d], |s.stream|;
    var s1 := s.(stream := s.stream + [Message0(ReplayId(record, d), record.event, s.clock)]);
    ReplayIs(s, d);
    RunSnoc(s, [], s, Replay(d, false), s1);
    assert [] + [Replay(d, false)] == [Replay(d, false)];
    MessageRecovers(s1, n);
    RunConcat(s, [Replay(d, false)], Consumption(n));
    var t := Run(s1, Consumption(n));
    assert t.stream[n].msgId == ReplayId(record, d);
    DeleteIs(t, d);
    steps := [Replay(d, false)] + Consumption(n) + [DeleteRecord(d)];
    RunSnoc(s, [Replay(d, false)] + Consumption(n), t, DeleteRecord(d), t.(deadLetters := Deleted(t.deadLetters, d)));
  }

  // ---------- every place ----------

  /** The event is held by a pending row, a message that may still be delivered or a dead letter that may still be loaded. */
  ghost predicate Held(s: State, e: Event) {
    || (IsPending(s.outbox, e.id) && s.outbox[e.id].event == e)
    || (exists i :: 0 <= i < |s.stream| && s.stream[i].event == e && s.stream[i].settlement.Unsettled?
                    && s.clock <= s.stream[i].storedAt + GAME_EVENTS_MAX_AGE)
    || (exists d: nat :: Loadable(s.deadLetters, d + 1, s.clock) && s.deadLetters[d].event == e)
  }

  /** The calls of a relay, a consumer and an operator that all work. */
  predicate FaultFree(steps: seq<Step>) {
    forall i :: 0 <= i < |steps| ==>
      steps[i].Publish? || steps[i].MarkPublished? || steps[i].Deliver? || steps[i].Transact? || steps[i].Ack?
      || steps[i].Replay? || steps[i].DeleteRecord?
  }

  lemma HeldIsWellFormed(s: State, e: Event)
    requires Inv(s) && Held(s, e)
    ensures WellFormed(e)
  {
    if IsPending(s.outbox, e.id) && s.outbox[e.id].event == e {
    } else if i :| 0 <= i < |s.stream| && s.stream[i].event == e && s.stream[i].settlement.Unsettled?
                   && s.clock <= s.stream[i].storedAt + GAME_EVENTS_MAX_AGE {
      assert MessageTraced(s, i);
    } else {
      var d: nat :| Loadable(s.deadLetters, d + 1, s.clock) && s.deadLetters[d].event == e;
      assert RecordTraced(s, d) && MessageTraced(s, s.deadLetters[d].source);
    }
  }

  /** From every reachable state, an event that is held anywhere and that the inbox would take is committed by a few calls
      that work, whatever went wrong before. */
  lemma HeldEventsRecover(clock: Time, retention: int, past: seq<Step>, e: Event) returns (future: seq<Step>)
    requires var s := Run(InitWith(clock, retention), past); Held(s, e) && Acceptable(s.inbox, e)
    ensures FaultFree(future)
    ensures var s := Run(InitWith(clock, retention), past);
            var t := Run(s, future);
            |t.commits| == |s.commits| + 1 && t.commits[|s.commits|].event == e
  {
    InitInv(clock, retention);
    RunKeepsInv(InitWith(clock, retention), past);
    future := HeldEventRecovers(Run(InitWith(clock, retention), past), e);
  }

  lemma HeldEventRecovers(s: State, e: Event) returns (future: seq<Step>)
    requires Inv(s) && Held(s, e) && Acceptable(s.inbox, e)
    ensures FaultFree(future)
    ensures |Run(s, future).commits| == |s.commits| + 1 && Run(s, future).commits[|s.commits|].event == e
  {
    HeldIsWellFormed(s, e);
    if IsPending(s.outbox, e.id) && s.outbox[e.id].event == e {
      future := RowRecovers(s, e.id);
    } else if i :| 0 <= i < |s.stream| && s.stream[i].event == e && s.stream[i].settlement.Unsettled?
                   && s.clock <= s.stream[i].storedAt + GAME_EVENTS_MAX_AGE {
      MessageRecovers(s, i);
      future := Consumption(i);
    } else {
      var d: nat :| Loadable(s.deadLetters, d + 1, s.clock) && s.deadLetters[d].event == e;
      future := DeadLetterRecovers(s, d);
    }
  }
}
