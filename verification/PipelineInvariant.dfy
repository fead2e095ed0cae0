/** What every step of the pipeline keeps. */
module PipelineInvariant {
  import opened Common
  import opened Events
  import opened Outbox
  import opened JetStream
  import opened Pipeline
  import Inbox
  import Keys

  // ---------- history only grows ----------

  /** Message `b` is message `a` at a later time. */
  ghost predicate Later(a: Message, b: Message) {
    && b.msgId == a.msgId && b.event == a.event && b.storedAt == a.storedAt
    && a.deliveries <= b.deliveries
    && (!a.settlement.Unsettled? ==> b.settlement == a.settlement)
  }

  ghost predicate LaterRecord(a: DeadLetter, b: DeadLetter) {
    b == a || b == a.(deleted := true)
  }

  ghost predicate Grows(s: State, t: State) {
    && s.clock <= t.clock && s.retention == t.retention
    && s.built <= t.built && s.enqueued <= t.enqueued && s.dropped <= t.dropped
    && s.commits <= t.commits
    && |s.stream| <= |t.stream|
    && (forall i :: 0 <= i < |s.stream| ==> Later(s.stream[i], t.stream[i]))
    && |s.deadLetters| <= |t.deadLetters|
    && (forall d :: 0 <= d < |s.deadLetters| ==> LaterRecord(s.deadLetters[d], t.deadLetters[d]))
  }

  lemma NextKeepsHistory(s: State, step: Step)
    ensures var t := Next(s, step);
            && s.clock <= t.clock && s.retention == t.retention
            && s.built <= t.built && s.enqueued <= t.enqueued && s.dropped <= t.dropped && s.commits <= t.commits
  {
  }

  lemma NextKeepsMessagesStored(s: State, step: Step)
    ensures var t := Next(s, step);
            |s.stream| <= |t.stream| && forall i :: 0 <= i < |s.stream| ==> Later(s.stream[i], t.stream[i])
  {
  }

  lemma NextKeepsRecordsStored(s: State, step: Step)
    ensures var t := Next(s, step);
            |s.deadLetters| <= |t.deadLetters|
            && forall d :: 0 <= d < |s.deadLetters| ==> LaterRecord(s.deadLetters[d], t.deadLetters[d])
  {
  }

  lemma NextGrows(s: State, step: Step)
    ensures Grows(s, Next(s, step))
  {
    NextKeepsHistory(s, step);
    NextKeepsMessagesStored(s, step);
    NextKeepsRecordsStored(s, step);
  }

  lemma GrowsTransitively(a: State, b: State, c: State)
    requires Grows(a, b) && Grows(b, c)
    ensures Grows(a, c)
  {
  }

  lemma {:induction false} RunGrows(s: State, steps: seq<Step>)
    ensures Grows(s, Run(s, steps))
  {
    if steps != [] {
      var prefix := steps[..|steps| - 1];
      RunGrows(s, prefix);
      NextGrows(Run(s, prefix), steps[|steps| - 1]);
      GrowsTransitively(s, Run(s, prefix), Run(s, steps));
    }
  }

  lemma HoldsLasts(s: State, t: State, msgId: string)
    requires Grows(s, t) && Holds(s.stream, msgId)
    ensures Holds(t.stream, msgId)
  {
  }

  /** Two facts that calls in progress rely on. */
  lemma RunKeepsFacts(s: State, steps: seq<Step>)
    ensures s.enqueued <= Run(s, steps).enqueued
    ensures forall id :: Holds(s.stream, id) ==> Holds(Run(s, steps).stream, id)
  {
    RunGrows(s, steps);
    forall id | Holds(s.stream, id)
      ensures Holds(Run(s, steps).stream, id)
    {
      HoldsLasts(s, Run(s, steps), id);
    }
  }

  lemma HoldsRecordLasts(s: State, t: State, msgId: string)
    requires Grows(s, t) && HoldsRecord(s.deadLetters, msgId)
    ensures HoldsRecord(t.deadLetters, msgId)
  {
  }

  lemma CommittedIdLasts(s: State, t: State, id: string)
    requires Grows(s, t) && CommittedId(s, id)
    ensures CommittedId(t, id)
  {
  }

  /** The steps whose condition rests on something that, once observed, remains true for ever. */
  ghost predicate RestsOnHistory(step: Step) {
    match step
    case Enqueue(_) => true
    case Publish(_, _) => true
    case MarkPublished(_, _) => true
    case Ack(_) => true
    case Bury(_, _, _, _) => true
    case Terminate(_) => true
    case Replay(_, _) => true
    case DeleteRecord(_) => true
    case _ => false
  }

  /** What a process has learnt stays true whatever any number of other processes do before its next call. */
  lemma KnowledgeLasts(s: State, others: seq<Step>, step: Step)
    requires RestsOnHistory(step) && Enabled(s, step)
    ensures Enabled(Run(s, others), step)
  {
    var t := Run(s, others);
    RunGrows(s, others);
    match step {
      case MarkPublished(id, _) => HoldsLasts(s, t, id);
      case Ack(i) =>
        assert Later(s.stream[i], t.stream[i]);
        CommittedIdLasts(s, t, s.stream[i].event.id);
      case Bury(i, _, _, _) => assert Later(s.stream[i], t.stream[i]);
      case Terminate(i) => HoldsRecordLasts(s, t, DeadLetterId(i));
      case DeleteRecord(d) =>
        assert LaterRecord(s.deadLetters[d], t.deadLetters[d]);
        HoldsLasts(s, t, ReplayId(s.deadLetters[d], d));
      case _ =>
    }
  }

  // ---------- the invariant ----------

  ghost predicate EventsIdentified(s: State) {
    && (forall e :: e in s.built ==> WellFormed(e))
    && (forall a, b :: a in s.built && b in s.built && a.id == b.id ==> a == b)
  }

  ghost predicate Waiting(s: State, e: Event) {
    exists n :: n in s.pending && s.pending[n] == e
  }

  ghost predicate BuiltAccounted(s: State) {
    && s.enqueued <= s.built
    && (forall n :: n in s.pending ==> s.pending[n] in s.built)
    && (forall e :: e in s.built ==> e in s.enqueued || e in s.dropped || Waiting(s, e))
  }

  ghost predicate RowsIdentified(s: State) {
    forall id :: id in s.outbox ==> s.outbox[id].event.id == id && s.outbox[id].event in s.enqueued
  }

  ghost predicate StoredAs(s: State, e: Event) {
    exists i :: 0 <= i < |s.stream| && s.stream[i].msgId == e.id && s.stream[i].event == e
  }

  ghost predicate EnqueuedKept(s: State) {
    forall e :: e in s.enqueued ==> IsPending(s.outbox, e.id) || StoredAs(s, e)
  }

  ghost predicate FromReplay(s: State, i: nat, d: nat)
    requires i < |s.stream|
  {
    && d < |s.deadLetters|
    && s.stream[i].msgId == ReplayId(s.deadLetters[d], d)
    && s.stream[i].event == s.deadLetters[d].event
    && s.deadLetters[d].source < i
  }

  ghost predicate MessageTraced(s: State, i: nat)
    requires i < |s.stream|
  {
    && s.stream[i].event in s.enqueued
    && (s.stream[i].msgId == s.stream[i].event.id || exists d: nat :: FromReplay(s, i, d))
  }

  ghost predicate MessagesTraced(s: State) {
    forall i :: 0 <= i < |s.stream| ==> MessageTraced(s, i)
  }

  ghost predicate RecordTraced(s: State, d: nat)
    requires d < |s.deadLetters|
  {
    var record := s.deadLetters[d];
    && record.source < |s.stream|
    && record.msgId == DeadLetterId(record.source)
    && record.event == s.stream[record.source].event
    && record.deliveryCount >= MAX_DELIVER
    && (record.deleted ==> Holds(s.stream, ReplayId(record, d)))
  }

  ghost predicate RecordsTraced(s: State) {
    forall d :: 0 <= d < |s.deadLetters| ==> RecordTraced(s, d)
  }

  ghost predicate SettlementJustified(s: State, i: nat)
    requires i < |s.stream|
  {
    && (s.stream[i].settlement.Acked? ==> CommittedId(s, s.stream[i].event.id))
    && (s.stream[i].settlement.Terminated? ==> HoldsRecord(s.deadLetters, DeadLetterId(i)))
  }

  ghost predicate SettlementsJustified(s: State) {
    forall i :: 0 <= i < |s.stream| ==> SettlementJustified(s, i)
  }

  ghost predicate MarkersJustified(s: State) {
    && Inbox.Sound(s.inbox)
    && forall k :: k in s.inbox.markers ==> k.0 == CONSUMER_GAME_EVENTS && CommittedId(s, k.1)
  }

  ghost predicate CommitTraced(s: State, c: Commit) {
    && c.message < |s.stream|
    && s.stream[c.message].event == c.event
    && s.stream[c.message].storedAt <= c.at <= s.clock
    && c.at <= s.stream[c.message].storedAt + GAME_EVENTS_MAX_AGE + PROCESSING_TIMEOUT
  }

  ghost predicate CommitsTraced(s: State) {
    forall c :: 0 <= c < |s.commits| ==> CommitTraced(s, s.commits[c])
  }

  function MarkerKey(e: Event): (string, string) { (CONSUMER_GAME_EVENTS, e.id) }

  ghost predicate Remembered(s: State, c: Commit) {
    || (MarkerKey(c.event) in s.inbox.markers && c.at <= s.inbox.markers[MarkerKey(c.event)])
    || c.at + s.retention < s.clock
  }

  ghost predicate CommitsRemembered(s: State) {
    forall c :: 0 <= c < |s.commits| ==> Remembered(s, s.commits[c])
  }

  ghost predicate CommitsSpaced(s: State) {
    forall b, c :: 0 <= b < c < |s.commits| && s.commits[b].event.id == s.commits[c].event.id ==>
                     s.commits[b].at + s.retention < s.commits[c].at
  }

  ghost predicate TimeOrdered(m: Message, clock: Time) {
    && m.storedAt <= clock
    && (m.deliveries > 0 ==> m.storedAt <= m.deliveredAt <= m.storedAt + GAME_EVENTS_MAX_AGE && m.deliveredAt <= clock)
  }

  ghost predicate TimesOrdered(s: State) {
    forall i :: 0 <= i < |s.stream| ==> TimeOrdered(s.stream[i], s.clock)
  }

  /** A commit shows in its game's row for ever after. */
  ghost predicate Visible(sessions: map<int, Inbox.Session>, e: Event) {
    && e.gameId in sessions
    && (e.subject == SUBJECT_STARTED ==> sessions[e.gameId].startedAt <= e.occurredAt)
    && (e.subject == SUBJECT_ENDED ==>
          sessions[e.gameId].endedAt.Some? && sessions[e.gameId].endedAt.value <= e.occurredAt)
  }

  ghost predicate CommitsVisible(s: State) {
    forall c :: 0 <= c < |s.commits| ==> Visible(s.inbox.sessions, s.commits[c].event)
  }

  /** Each time in a row is the time of a committed event of that game. */
  ghost predicate Earned(s: State, game: int, subject: string, time: Time) {
    exists c :: 0 <= c < |s.commits| && s.commits[c].event.gameId == game
                && s.commits[c].event.subject == subject && s.commits[c].event.occurredAt == time
  }

  ghost predicate RowEarned(s: State, game: int)
    requires game in s.inbox.sessions
  {
    var row := s.inbox.sessions[game];
    Earned(s, game, SUBJECT_STARTED, row.startedAt) && (row.endedAt.Some? ==> Earned(s, game, SUBJECT_ENDED, row.endedAt.value))
  }

  ghost predicate RowsEarned(s: State) {
    forall game :: game in s.inbox.sessions ==> RowEarned(s, game)
  }

  ghost predicate Inv(s: State) {
    && EventsIdentified(s)
    && BuiltAccounted(s)
    && RowsIdentified(s)
    && EnqueuedKept(s)
    && MessagesTraced(s)
    && RecordsTraced(s)
    && SettlementsJustified(s)
    && MarkersJustified(s)
    && CommitsTraced(s)
    && CommitsRemembered(s)
    && CommitsSpaced(s)
    && TimesOrdered(s)
    && CommitsVisible(s)
    && RowsEarned(s)
  }

  lemma InitInv(clock: Time, retention: int)
    ensures Inv(InitWith(clock, retention))
  {
  }

  // ---------- what message IDs reveal ----------

  /** A stored event ID means the event itself is stored: no replay can take its name. */
  lemma HeldEventIsStored(s: State, e: Event)
    requires EventsIdentified(s) && BuiltAccounted(s) && MessagesTraced(s)
    requires e in s.built && Holds(s.stream, e.id)
    ensures StoredAs(s, e)
  {
    var i :| 0 <= i < |s.stream| && s.stream[i].msgId == e.id;
    assert MessageTraced(s, i);
    if s.stream[i].msgId != s.stream[i].event.id {
      var d: nat :| FromReplay(s, i, d);
      Keys.ReplayIdIsNoEventId(s.deadLetters[d].recordId, d + 1);
    }
    assert s.stream[i].event == e;
  }

  /** A stored replay ID means that very record was republished, after its source. */
  lemma HeldReplayIsOfRecord(s: State, d: nat) returns (i: nat)
    requires EventsIdentified(s) && BuiltAccounted(s) && MessagesTraced(s)
    requires d < |s.deadLetters| && Holds(s.stream, ReplayId(s.deadLetters[d], d))
    ensures i < |s.stream| && FromReplay(s, i, d)
  {
    i :| 0 <= i < |s.stream| && s.stream[i].msgId == ReplayId(s.deadLetters[d], d);
    assert MessageTraced(s, i);
    if s.stream[i].msgId == s.stream[i].event.id {
      assert WellFormed(s.stream[i].event);
      Keys.ReplayIdIsNoEventId(s.deadLetters[d].recordId, d + 1);
    } else {
      var d': nat :| FromReplay(s, i, d');
      Keys.ReplayMessageIdInjective(s.deadLetters[d].recordId, d + 1, s.deadLetters[d'].recordId, d' + 1);
    }
  }

  lemma CommittedEvent(s: State, e: Event)
    requires EventsIdentified(s) && BuiltAccounted(s) && MessagesTraced(s) && CommitsTraced(s)
    requires e in s.built && CommittedId(s, e.id)
    ensures exists c :: 0 <= c < |s.commits| && s.commits[c].event == e
  {
    var c :| 0 <= c < |s.commits| && s.commits[c].event.id == e.id;
    assert CommitTraced(s, s.commits[c]) && MessageTraced(s, s.commits[c].message);
  }

  // ---------- each step keeps each part ----------

  lemma NextKeepsEvents(s: State, step: Step)
    requires EventsIdentified(s)
    ensures EventsIdentified(Next(s, step))
  {
    if step.Build? && Enabled(s, step) {
      assert Next(s, step).built == s.built + {step.event};
    } else {
      assert Next(s, step).built == s.built;
    }
  }

  lemma NextKeepsRows(s: State, step: Step)
    requires RowsIdentified(s)
    ensures RowsIdentified(Next(s, step))
  {
  }

  lemma NextKeepsBuilt(s: State, step: Step)
    requires BuiltAccounted(s)
    ensures BuiltAccounted(Next(s, step))
  {
    var t := Next(s, step);
    forall e | e in t.built && e !in t.enqueued && e !in t.dropped
      ensures Waiting(t, e)
    {
      NextKeepsWaiting(s, step, e);
    }
  }

  lemma NextKeepsWaiting(s: State, step: Step, e: Event)
    requires BuiltAccounted(s)
    requires e in Next(s, step).built && e !in Next(s, step).enqueued && e !in Next(s, step).dropped
    ensures Waiting(Next(s, step), e)
  {
    var t := Next(s, step);
    if step.Build? && Enabled(s, step) {
      assert t.pending[step.instance] == step.event;
      if e != step.event {
        var n :| n in s.pending && s.pending[n] == e;
        assert n in t.pending && t.pending[n] == e;
      }
    } else {
      assert t.built == s.built && s.enqueued <= t.enqueued && s.dropped <= t.dropped;
      var n :| n in s.pending && s.pending[n] == e;
      assert n in t.pending && t.pending[n] == e;
    }
  }

  lemma StoredAsLasts(s: State, t: State, e: Event)
    requires Grows(s, t) && StoredAs(s, e)
    ensures StoredAs(t, e)
  {
  }

  lemma NewEventHasNoRow(s: State, e: Event)
    requires EventsIdentified(s) && BuiltAccounted(s) && RowsIdentified(s)
    requires e in s.built && e !in s.enqueued
    ensures e.id !in s.outbox
  {
  }

  lemma PendingUntilMarked(s: State, step: Step, id: string)
    requires IsPending(s.outbox, id) && !IsPending(Next(s, step).outbox, id)
    ensures step.MarkPublished? && step.id == id && Enabled(s, step)
  {
  }

  lemma NextKeepsOneEnqueued(s: State, step: Step, e: Event)
    requires EventsIdentified(s) && BuiltAccounted(s) && MessagesTraced(s) && RowsIdentified(s)
    requires e in s.enqueued ==> IsPending(s.outbox, e.id) || StoredAs(s, e)
    requires e in Next(s, step).enqueued
    ensures IsPending(Next(s, step).outbox, e.id) || StoredAs(Next(s, step), e)
  {
    var t := Next(s, step);
    NextGrows(s, step);
    if e !in s.enqueued {
      assert step == Enqueue(e) && Enabled(s, step);
      NewEventHasNoRow(s, e);
    } else if StoredAs(s, e) {
      StoredAsLasts(s, t, e);
    } else if !IsPending(t.outbox, e.id) {
      PendingUntilMarked(s, step, e.id);
      HeldEventIsStored(s, e);
      StoredAsLasts(s, t, e);
    }
  }

  lemma NextKeepsEnqueued(s: State, step: Step)
    requires Inv(s)
    ensures EnqueuedKept(Next(s, step))
  {
    forall e | e in Next(s, step).enqueued
      ensures IsPending(Next(s, step).outbox, e.id) || StoredAs(Next(s, step), e)
    {
      NextKeepsOneEnqueued(s, step, e);
    }
  }

  lemma OldMessageStaysTraced(s: State, t: State, i: nat)
    requires Grows(s, t) && i < |s.stream| && MessageTraced(s, i)
    ensures MessageTraced(t, i)
  {
    assert Later(s.stream[i], t.stream[i]);
    if s.stream[i].msgId != s.stream[i].event.id {
      var d: nat :| FromReplay(s, i, d);
      assert LaterRecord(s.deadLetters[d], t.deadLetters[d]);
      assert FromReplay(t, i, d);
    }
  }

  lemma NextKeepsMessages(s: State, step: Step)
    requires MessagesTraced(s) && RecordsTraced(s)
    ensures MessagesTraced(Next(s, step))
  {
    var t := Next(s, step);
    NextGrows(s, step);
    forall i | 0 <= i < |t.stream|
      ensures MessageTraced(t, i)
    {
      if i < |s.stream| {
        OldMessageStaysTraced(s, t, i);
      } else if step.Replay? {
        assert RecordTraced(s, step.position);
        assert MessageTraced(s, s.deadLetters[step.position].source);
        assert FromReplay(t, i, step.position);
      } else {
        assert step.Publish?;
      }
    }
  }

  lemma OldRecordStaysTraced(s: State, t: State, d: nat)
    requires Grows(s, t) && d < |s.deadLetters| && RecordTraced(s, d)
    requires t.deadLetters[d].deleted ==> s.deadLetters[d].deleted || Holds(s.stream, ReplayId(s.deadLetters[d], d))
    ensures RecordTraced(t, d)
  {
  }

  lemma NextKeepsRecords(s: State, step: Step)
    requires RecordsTraced(s)
    ensures RecordsTraced(Next(s, step))
  {
    var t := Next(s, step);
    NextGrows(s, step);
    forall d | 0 <= d < |t.deadLetters|
      ensures RecordTraced(t, d)
    {
      if d < |s.deadLetters| {
        assert RecordTraced(s, d);
        assert t.deadLetters[d] != s.deadLetters[d] ==> step == DeleteRecord(d) && Enabled(s, step);
        OldRecordStaysTraced(s, t, d);
      } else {
        assert step.Bury? && t.stream == s.stream;
      }
    }
  }

  /** A step settles at most one message, and only with cause. */
  lemma NextKeepsSettlement(s: State, step: Step, i: nat)
    requires i < |Next(s, step).stream|
    requires i < |s.stream| ==> SettlementJustified(s, i)
    ensures SettlementJustified(Next(s, step), i)
  {
    var t := Next(s, step);
    NextGrows(s, step);
    if i < |s.stream| {
      assert Later(s.stream[i], t.stream[i]);
      if t.stream[i].settlement != s.stream[i].settlement {
        assert Enabled(s, step) && (step == Ack(i) || step == Terminate(i));
      }
      if t.stream[i].settlement.Acked? {
        CommittedIdLasts(s, t, t.stream[i].event.id);
      } else if t.stream[i].settlement.Terminated? {
        HoldsRecordLasts(s, t, DeadLetterId(i));
      }
    }
  }

  lemma NextKeepsSettlements(s: State, step: Step)
    requires SettlementsJustified(s)
    ensures SettlementsJustified(Next(s, step))
  {
    forall i | 0 <= i < |Next(s, step).stream|
      ensures SettlementJustified(Next(s, step), i)
    {
      NextKeepsSettlement(s, step, i);
    }
  }

  lemma HandledMarks(db: Inbox.Db, e: Event, now: Time)
    requires Inbox.Sound(db) && Handled(db, e, now).Applied?
    ensures Inbox.Sound(Handled(db, e, now).db)
    ensures MarkerKey(e) !in db.markers && Handled(db, e, now).db.markers == db.markers[MarkerKey(e) := now]
  {
  }

  lemma NextKeepsMarkers(s: State, step: Step)
    requires MarkersJustified(s)
    ensures MarkersJustified(Next(s, step))
  {
    var t := Next(s, step);
    NextGrows(s, step);
    if t.commits == s.commits {
      assert t.inbox.sessions == s.inbox.sessions && t.inbox.markers.Keys <= s.inbox.markers.Keys;
      forall k | k in t.inbox.markers
        ensures k.0 == CONSUMER_GAME_EVENTS && CommittedId(t, k.1)
      {
        CommittedIdLasts(s, t, k.1);
      }
    } else {
      var e := s.stream[step.index].event;
      HandledMarks(s.inbox, e, s.clock);
      assert t.commits[|s.commits|].event == e;
      forall k | k in t.inbox.markers
        ensures k.0 == CONSUMER_GAME_EVENTS && CommittedId(t, k.1)
      {
        if k in s.inbox.markers {
          CommittedIdLasts(s, t, k.1);
        }
      }
    }
  }

  lemma NextKeepsTimes(s: State, step: Step)
    requires TimesOrdered(s)
    ensures TimesOrdered(Next(s, step))
  {
    var t := Next(s, step);
    NextGrows(s, step);
    forall i | 0 <= i < |t.stream|
      ensures TimeOrdered(t.stream[i], t.clock)
    {
      if i < |s.stream| {
        assert TimeOrdered(s.stream[i], s.clock);
      }
    }
  }

  lemma CommitStaysTraced(s: State, t: State, c: Commit)
    requires Grows(s, t) && CommitTraced(s, c)
    ensures CommitTraced(t, c)
  {
  }

  lemma NextKeepsCommits(s: State, step: Step)
    requires CommitsTraced(s) && TimesOrdered(s)
    ensures CommitsTraced(Next(s, step))
  {
    var t := Next(s, step);
    NextGrows(s, step);
    forall c | 0 <= c < |t.commits|
      ensures CommitTraced(t, t.commits[c])
    {
      if c < |s.commits| {
        assert t.commits[c] == s.commits[c];
        CommitStaysTraced(s, t, s.commits[c]);
      } else {
        assert step.Transact? && t.stream == s.stream;
        assert TimeOrdered(s.stream[step.index], s.clock);
      }
    }
  }

  lemma OldCommitStaysRemembered(s: State, step: Step, c: Commit)
    requires Remembered(s, c) && c.at <= s.clock
    ensures Remembered(Next(s, step), c)
  {
  }

  lemma NewCommitIsRemembered(s: State, step: Step)
    requires Next(s, step).commits != s.commits
    ensures step.Transact? && step.index < |s.stream|
    ensures Next(s, step).commits == s.commits + [Commit(step.index, s.stream[step.index].event, s.clock)]
    ensures Remembered(Next(s, step), Commit(step.index, s.stream[step.index].event, s.clock))
  {
  }

  lemma NextKeepsMemory(s: State, step: Step)
    requires CommitsTraced(s) && CommitsRemembered(s)
    ensures CommitsRemembered(Next(s, step))
  {
    var t := Next(s, step);
    forall c | 0 <= c < |s.commits|
      ensures Remembered(t, s.commits[c])
    {
      assert CommitTraced(s, s.commits[c]) && Remembered(s, s.commits[c]);
      OldCommitStaysRemembered(s, step, s.commits[c]);
    }
    if t.commits != s.commits {
      NewCommitIsRemembered(s, step);
    }
  }

  /** A transaction takes effect only when the marker is gone, that is, long after every earlier commit. */
  lemma NextKeepsSpacing(s: State, step: Step)
    requires CommitsRemembered(s) && CommitsSpaced(s)
    ensures CommitsSpaced(Next(s, step))
  {
    var t := Next(s, step);
    if t.commits != s.commits {
      var e := s.stream[step.index].event;
      assert t.commits == s.commits + [Commit(step.index, e, s.clock)];
      forall b | 0 <= b < |s.commits| && s.commits[b].event.id == e.id
        ensures s.commits[b].at + s.retention < s.clock
      {
        assert Remembered(s, s.commits[b]);
      }
    }
  }

  lemma HandledShows(db: Inbox.Db, e: Event, now: Time)
    requires Handled(db, e, now).Applied?
    ensures Visible(Handled(db, e, now).db.sessions, e)
    ensures forall f: Event :: Visible(db.sessions, f) ==> Visible(Handled(db, e, now).db.sessions, f)
    ensures forall g :: g in Handled(db, e, now).db.sessions ==> g in db.sessions || g == e.gameId
    ensures forall g :: g in db.sessions && g != e.gameId ==> Handled(db, e, now).db.sessions[g] == db.sessions[g]
  {
  }

  lemma NextKeepsVisible(s: State, step: Step)
    requires CommitsVisible(s)
    ensures CommitsVisible(Next(s, step))
  {
    var t := Next(s, step);
    if t.commits == s.commits {
      assert t.inbox.sessions == s.inbox.sessions;
    } else {
      var e := s.stream[step.index].event;
      HandledShows(s.inbox, e, s.clock);
      assert t.commits == s.commits + [Commit(step.index, e, s.clock)];
    }
  }

  lemma EarnedLasts(s: State, t: State, game: int, subject: string, time: Time)
    requires Grows(s, t) && Earned(s, game, subject, time)
    ensures Earned(t, game, subject, time)
  {
  }

  lemma RowEarnedLasts(s: State, t: State, game: int)
    requires Grows(s, t) && game in s.inbox.sessions && game in t.inbox.sessions
    requires t.inbox.sessions[game] == s.inbox.sessions[game] && RowEarned(s, game)
    ensures RowEarned(t, game)
  {
  }

  lemma CommitEarns(s: State, t: State, index: nat)
    requires index < |s.stream|
    requires Handled(s.inbox, s.stream[index].event, s.clock).Applied?
    requires Enabled(s, Transact(index)) && t == Effect(s, Transact(index)) && Grows(s, t)
    requires s.stream[index].event.gameId in s.inbox.sessions ==> RowEarned(s, s.stream[index].event.gameId)
    ensures RowEarned(t, s.stream[index].event.gameId)
  {
    var e := s.stream[index].event;
    assert t.commits[|s.commits|].event == e;
    assert Earned(t, e.gameId, e.subject, e.occurredAt);
    if e.gameId in s.inbox.sessions {
      var row := s.inbox.sessions[e.gameId];
      EarnedLasts(s, t, e.gameId, SUBJECT_STARTED, row.startedAt);
      if row.endedAt.Some? {
        EarnedLasts(s, t, e.gameId, SUBJECT_ENDED, row.endedAt.value);
      }
    }
  }

  lemma NextKeepsEarned(s: State, step: Step)
    requires RowsEarned(s)
    ensures RowsEarned(Next(s, step))
  {
    var t := Next(s, step);
    NextGrows(s, step);
    if t.commits == s.commits {
      assert t.inbox.sessions == s.inbox.sessions;
      forall game | game in t.inbox.sessions
        ensures RowEarned(t, game)
      {
        RowEarnedLasts(s, t, game);
      }
    } else {
      var e := s.stream[step.index].event;
      HandledShows(s.inbox, e, s.clock);
      CommitEarns(s, t, step.index);
      forall game | game in t.inbox.sessions
        ensures RowEarned(t, game)
      {
        if game != e.gameId {
          RowEarnedLasts(s, t, game);
        }
      }
    }
  }

  /** Every step of every process keeps the invariant. */
  lemma NextKeepsInv(s: State, step: Step)
    requires Inv(s)
    ensures Inv(Next(s, step))
  {
    NextKeepsEvents(s, step);
    NextKeepsRows(s, step);
    NextKeepsBuilt(s, step);
    NextKeepsEnqueued(s, step);
    NextKeepsMessages(s, step);
    NextKeepsRecords(s, step);
    NextKeepsSettlements(s, step);
    NextKeepsMarkers(s, step);
    NextKeepsTimes(s, step);
    NextKeepsCommits(s, step);
    NextKeepsMemory(s, step);
    NextKeepsSpacing(s, step);
    NextKeepsVisible(s, step);
    NextKeepsEarned(s, step);
  }

  lemma {:induction false} RunKeepsInv(s: State, steps: seq<Step>)
    requires Inv(s)
    ensures Inv(Run(s, steps))
  {
    if steps != [] {
      RunKeepsInv(s, steps[..|steps| - 1]);
      NextKeepsInv(Run(s, steps[..|steps| - 1]), steps[|steps| - 1]);
    }
  }
}
