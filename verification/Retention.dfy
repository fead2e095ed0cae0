/** How long inbox markers must be kept: exactly when an event is applied again, and which retention rules that out. */
module Retention {
  import opened Common
  import opened Events
  import opened JetStream
  import opened Pipeline
  import opened PipelineInvariant
  import Inbox
  import Keys
  import Outbox

  // ---------- when an event is applied again ----------

  /** A delivery of this event would apply it whatever was committed before: its marker is gone and, for an end,
      the row still names the event's room. */
  predicate Applicable(db: Inbox.Db, e: Event) {
    && MarkerKey(e) !in db.markers
    && (e.subject == SUBJECT_ENDED ==> e.gameId in db.sessions && db.sessions[e.gameId].roomId == e.roomId)
  }

  lemma HandledAgainExactlyWhen(db: Inbox.Db, e: Event, now: Time)
    requires WellFormed(e) && Visible(db.sessions, e) && db.sessions[e.gameId].Ordered()
    ensures Handled(db, e, now).Applied? <==> Applicable(db, e)
  {
  }

  lemma TransactIs(s: State, i: nat)
    requires Enabled(s, Transact(i))
    ensures Next(s, Transact(i)) ==
              if Handled(s.inbox, s.stream[i].event, s.clock).Applied?
              then s.(inbox := Handled(s.inbox, s.stream[i].event, s.clock).db,
                      commits := s.commits + [Commit(i, s.stream[i].event, s.clock)])
              else s
  {
  }

  lemma CommittedBefore(s: State, i: nat)
    requires EventsIdentified(s) && BuiltAccounted(s) && MessagesTraced(s) && CommitsTraced(s) && CommitsVisible(s)
             && RowsEarned(s) && Inbox.Sound(s.inbox)
    requires i < |s.stream| && CommittedId(s, s.stream[i].event.id)
    ensures var e := s.stream[i].event; WellFormed(e) && Visible(s.inbox.sessions, e) && s.inbox.sessions[e.gameId].Ordered()
  {
    var e := s.stream[i].event;
    var c :| 0 <= c < |s.commits| && s.commits[c].event.id == e.id;
    assert MessageTraced(s, i) && CommitTraced(s, s.commits[c]) && MessageTraced(s, s.commits[c].message);
    assert s.commits[c].event == e;
  }

  /** A transaction on a message whose event was committed before commits it once more exactly when the event is applicable. */
  lemma CommitsAgainExactlyWhen(s: State, i: nat)
    requires Inv(s) && Enabled(s, Transact(i)) && CommittedId(s, s.stream[i].event.id)
    ensures Next(s, Transact(i)).commits == s.commits + [Commit(i, s.stream[i].event, s.clock)]
            <==> Applicable(s.inbox, s.stream[i].event)
    ensures !Applicable(s.inbox, s.stream[i].event) ==> Next(s, Transact(i)) == s
  {
    CommittedBefore(s, i);
    TransactIs(s, i);
    HandledAgainExactlyWhen(s.inbox, s.stream[i].event, s.clock);
  }

  ghost predicate EventsAppliedOnce(s: State) { Once(s.commits) }

  ghost predicate AppliesAgain(s: State, step: Step) {
    && step.Transact? && Enabled(s, step)
    && CommittedId(s, s.stream[step.index].event.id) && Applicable(s.inbox, s.stream[step.index].event)
  }

  lemma OtherStepsCommitNothing(s: State, step: Step)
    requires !(step.Transact? && Enabled(s, step))
    ensures Next(s, step).commits == s.commits
  {
  }

  lemma StepAppliesOnceExactlyWhen(s: State, step: Step)
    requires Inv(s)
    ensures EventsAppliedOnce(Next(s, step)) <==> EventsAppliedOnce(s) && !AppliesAgain(s, step)
  {
    if step.Transact? && Enabled(s, step) {
      var e, t := s.stream[step.index].event, Next(s, step);
      TransactIs(s, step.index);
      if CommittedId(s, e.id) {
        CommitsAgainExactlyWhen(s, step.index);
      }
      if t.commits != s.commits {
        LastCommitDecides(s.commits, t.commits[|s.commits|]);
      }
    } else {
      OtherStepsCommitNothing(s, step);
    }
  }

  ghost predicate Once(commits: seq<Commit>) {
    forall b, c :: 0 <= b < c < |commits| ==> commits[b].event.id != commits[c].event.id
  }

  lemma LastCommitDecides(commits: seq<Commit>, last: Commit)
    ensures Once(commits + [last]) <==>
              Once(commits) && forall c :: 0 <= c < |commits| ==> commits[c].event.id != last.event.id
  {
    var more := commits + [last];
    assert forall c :: 0 <= c < |commits| ==> more[c] == commits[c];
    assert more[|commits|] == last;
  }

  lemma LastStepDecides(clock: Time, retention: int, steps: seq<Step>, last: Step)
    ensures EventsAppliedOnce(Next(Run(InitWith(clock, retention), steps), last))
            <==> EventsAppliedOnce(Run(InitWith(clock, retention), steps))
                 && !AppliesAgain(Run(InitWith(clock, retention), steps), last)
  {
    InitInv(clock, retention);
    RunKeepsInv(InitWith(clock, retention), steps);
    StepAppliesOnceExactlyWhen(Run(InitWith(clock, retention), steps), last);
  }

  /** Step number `k` of the run applies an event again. */
  ghost predicate Repeats(clock: Time, retention: int, steps: seq<Step>, k: nat)
    requires k < |steps|
  {
    AppliesAgain(Run(InitWith(clock, retention), steps[..k]), steps[k])
  }

  lemma PrefixRepeats(clock: Time, retention: int, steps: seq<Step>, n: nat, k: nat)
    requires k < n <= |steps|
    ensures Repeats(clock, retention, steps[..n], k) == Repeats(clock, retention, steps, k)
  {
    assert steps[..n][..k] == steps[..k];
  }

  lemma FirstRepeats(clock: Time, retention: int, steps: seq<Step>, n: nat)
    requires n + 1 == |steps|
    ensures (forall k :: 0 <= k < |steps| ==> !Repeats(clock, retention, steps, k)) <==>
              (forall k :: 0 <= k < n ==> !Repeats(clock, retention, steps[..n], k)) && !Repeats(clock, retention, steps, n)
  {
    forall k | 0 <= k < n
      ensures Repeats(clock, retention, steps[..n], k) == Repeats(clock, retention, steps, k)
    {
      PrefixRepeats(clock, retention, steps, n, k);
    }
  }

  /** In a run, whatever the retention, no event is applied twice exactly when no message of a committed event is handled
      while that event is applicable. */
  lemma {:induction false} EventsAppliedOnceExactlyWhen(clock: Time, retention: int, steps: seq<Step>)
    ensures EventsAppliedOnce(Run(InitWith(clock, retention), steps)) <==>
              forall k :: 0 <= k < |steps| ==> !Repeats(clock, retention, steps, k)
  {
    if steps != [] {
      var n := |steps| - 1;
      EventsAppliedOnceExactlyWhen(clock, retention, steps[..n]);
      LastStepDecides(clock, retention, steps[..n], steps[n]);
      FirstRepeats(clock, retention, steps, n);
    }
  }

  // ---------- runs in which every call is prompt ----------

  /** A dead letter is loaded and republished within its age; a failed message is buried within the time to process it. */
  predicate Prompt(s: State, step: Step) {
    match step
    case Replay(d, _) => Loadable(s.deadLetters, d + 1, s.clock)
    case Bury(i, _, _, _) => i < |s.stream| && s.clock <= s.stream[i].deliveredAt + PROCESSING_TIMEOUT
    case _ => true
  }

  predicate PromptRun(s: State, steps: seq<Step>) {
    forall k :: 0 <= k < |steps| ==> Prompt(Run(s, steps[..k]), steps[k])
  }

  ghost predicate Hop(trail: seq<State>, steps: seq<Step>, k: nat)
    requires k < |steps| && |trail| == |steps| + 1
  {
    Prompt(trail[k], steps[k]) && trail[k + 1] == Next(trail[k], steps[k])
  }

  /** The states a prompt run passes through. */
  ghost predicate Path(trail: seq<State>, steps: seq<Step>) {
    |trail| == |steps| + 1 && forall k :: 0 <= k < |steps| ==> Hop(trail, steps, k)
  }

  ghost predicate Reaches(s: State, t: State) {
    exists trail, steps :: Path(trail, steps) && trail[0] == s && trail[|steps|] == t
  }

  lemma ReachesItself(s: State)
    ensures Reaches(s, s)
  {
    assert Path([s], []) && [s][0] == s;
  }

  lemma ReachesNext(s: State, t: State, step: Step, u: State)
    requires Reaches(s, t)
    ensures Prompt(t, step) && u == Next(t, step) ==> Reaches(s, u)
  {
    if Prompt(t, step) && u == Next(t, step) {
      var trail, steps :| Path(trail, steps) && trail[0] == s && trail[|steps|] == t;
      var trail', steps' := trail + [u], steps + [step];
      forall k | 0 <= k < |steps'|
        ensures Hop(trail', steps', k)
      {
        if k < |steps| {
          assert Hop(trail, steps, k);
        }
      }
      assert Path(trail', steps') && trail'[0] == s && trail'[|steps'|] == u;
    }
  }

  lemma PathPrefix(trail: seq<State>, steps: seq<Step>, n: nat)
    requires Path(trail, steps) && n <= |steps|
    ensures Path(trail[..n + 1], steps[..n])
  {
    var trail', steps' := trail[..n + 1], steps[..n];
    forall k | 0 <= k < n
      ensures Hop(trail', steps', k)
    {
      assert Hop(trail, steps, k);
    }
  }

  lemma {:induction false} PathsAreRuns(trail: seq<State>, steps: seq<Step>)
    requires Path(trail, steps)
    ensures Run(trail[0], steps) == trail[|steps|]
  {
    if steps != [] {
      var n := |steps| - 1;
      PathPrefix(trail, steps, n);
      PathsAreRuns(trail[..n + 1], steps[..n]);
      assert Hop(trail, steps, n);
    }
  }

  lemma PathsArePrompt(trail: seq<State>, steps: seq<Step>)
    requires Path(trail, steps)
    ensures PromptRun(trail[0], steps)
  {
    forall k | 0 <= k < |steps|
      ensures Prompt(Run(trail[0], steps[..k]), steps[k])
    {
      PathPrefix(trail, steps, k);
      PathsAreRuns(trail[..k + 1], steps[..k]);
      assert Hop(trail, steps, k);
    }
  }

  lemma RunTo(s: State, t: State) returns (steps: seq<Step>)
    requires Reaches(s, t)
    ensures PromptRun(s, steps) && Run(s, steps) == t
  {
    var trail;
    trail, steps :| Path(trail, steps) && trail[0] == s && trail[|steps|] == t;
    PathsAreRuns(trail, steps);
    PathsArePrompt(trail, steps);
  }

  lemma Wait(s: State, t: State, elapsed: nat)
    requires Reaches(s, t)
    ensures Reaches(s, t.(clock := t.clock + elapsed))
  {
    ReachesNext(s, t, Tick(elapsed), t.(clock := t.clock + elapsed));
  }

  function Redelivered(t: State, i: nat, times: nat): State
    requires i < |t.stream|
  {
    var m := t.stream[i];
    t.(stream := t.stream[i := m.(deliveries := m.deliveries + times, deliveredAt := t.clock)])
  }

  lemma DeliverOnce(s: State, t: State, i: nat)
    requires Reaches(s, t) && i < |t.stream| && t.stream[i].settlement.Unsettled?
    requires t.clock <= t.stream[i].storedAt + GAME_EVENTS_MAX_AGE
    ensures Reaches(s, Redelivered(t, i, 1))
  {
    ReachesNext(s, t, Deliver(i), Redelivered(t, i, 1));
  }

  lemma RedeliveredTwice(t: State, i: nat, first: nat, second: nat)
    requires i < |t.stream|
    ensures Redelivered(Redelivered(t, i, first), i, second) == Redelivered(t, i, first + second)
  {
    var once := Redelivered(t, i, first);
    assert once.stream[i := Redelivered(t, i, first + second).stream[i]] == Redelivered(t, i, first + second).stream;
  }

  lemma {:induction false} DeliverOften(s: State, t: State, i: nat, times: nat)
    requires Reaches(s, t) && i < |t.stream| && t.stream[i].settlement.Unsettled?
    requires t.clock <= t.stream[i].storedAt + GAME_EVENTS_MAX_AGE && times > 0
    ensures Reaches(s, Redelivered(t, i, times))
  {
    if times == 1 {
      DeliverOnce(s, t, i);
    } else {
      DeliverOften(s, t, i, times - 1);
      var before := Redelivered(t, i, times - 1);
      DeliverOnce(s, before, i);
      RedeliveredTwice(t, i, times - 1, 1);
    }
  }

  lemma BuryOne(s: State, t: State, i: nat, count: nat)
    requires Reaches(s, t) && i < |t.stream| && MAX_DELIVER <= count == t.stream[i].deliveries
    requires t.clock <= t.stream[i].deliveredAt + PROCESSING_TIMEOUT
    ensures Reaches(s, t.(deadLetters := t.deadLetters + [NewRecord(t, i, "r", count)]))
  {
    ReachesNext(s, t, Bury(i, "r", count, false), t.(deadLetters := t.deadLetters + [NewRecord(t, i, "r", count)]));
  }

  lemma ReplayOne(s: State, t: State, d: nat)
    requires Reaches(s, t) && d < |t.deadLetters| && Loadable(t.deadLetters, d + 1, t.clock)
    ensures var record := t.deadLetters[d];
            Reaches(s, t.(stream := t.stream + [Message(ReplayId(record, d), record.event, t.clock, 0, ZERO_TIME, Unsettled)]))
  {
    var record := t.deadLetters[d];
    ReachesNext(s, t, Replay(d, false),
                t.(stream := t.stream + [Message(ReplayId(record, d), record.event, t.clock, 0, ZERO_TIME, Unsettled)]));
  }

  /** An event was built, inserted and published. */
  function Published(e: Event, at: Time, retention: int): State {
    InitWith(at, retention).(pending := map[0 := e], built := {e}, enqueued := {e},
                             outbox := Outbox.Enqueued(map[], e, at),
                             stream := [Message(e.id, e, at, 0, ZERO_TIME, Unsettled)])
  }

  lemma StoredIsReached(e: Event, at: Time, retention: int)
    requires WellFormed(e)
    ensures Reaches(InitWith(at, retention), Published(e, at, retention))
  {
    var s := InitWith(at, retention);
    var s1 := s.(pending := map[0 := e], built := {e});
    var s2 := s1.(enqueued := {e}, outbox := Outbox.Enqueued(map[], e, at));
    ReachesItself(s);
    ReachesNext(s, s, Build(0, e), s1);
    ReachesNext(s, s1, Enqueue(e), s2);
    ReachesNext(s, s2, Publish(e, false), Published(e, at, retention));
  }

  /** A start that was stored, delivered and applied at time `at`, its acknowledgement lost: one message, one marker. */
  ghost predicate AppliedStart(t: State, e: Event, at: Time, retention: int) {
    && t.clock == at && t.retention == retention && t.deadLetters == []
    && t.stream == [Message(e.id, e, at, 1, at, Unsettled)]
    && t.inbox.markers == map[MarkerKey(e) := at] && t.commits == [Commit(0, e, at)]
  }

  lemma AppliedStartIsReached(e: Event, at: Time, retention: int) returns (t: State)
    requires WellFormed(e) && e.subject == SUBJECT_STARTED
    ensures Reaches(InitWith(at, retention), t) && AppliedStart(t, e, at, retention)
  {
    var s := InitWith(at, retention);
    StoredIsReached(e, at, retention);
    DeliverOnce(s, Published(e, at, retention), 0);
    var delivered := Redelivered(Published(e, at, retention), 0, 1);
    StartApplies(delivered.inbox, e, at);
    TransactIs(delivered, 0);
    t := Next(delivered, Transact(0));
    ReachesNext(s, delivered, Transact(0), t);
  }

  lemma StartApplies(db: Inbox.Db, e: Event, now: Time)
    requires WellFormed(e) && e.subject == SUBJECT_STARTED && MarkerKey(e) !in db.markers
    ensures Handled(db, e, now).Applied? && Handled(db, e, now).db.markers == db.markers[MarkerKey(e) := now]
  {
  }

  lemma PurgeOne(s: State, t: State, key: (string, string), at: Time)
    requires Reaches(s, t) && t.inbox.markers == map[key := at] && at + t.retention < t.clock
    ensures Reaches(s, t.(inbox := t.inbox.(markers := map[])))
  {
    assert Inbox.Forgotten(t.inbox, t.clock - t.retention).markers == map[];
    ReachesNext(s, t, PurgeMarkers(t.clock - t.retention), t.(inbox := t.inbox.(markers := map[])));
  }

  /** Once the marker may go, delivering the newest message applies its event again. */
  lemma AppliesAgainAfterPurge(s: State, t: State, e: Event, at: Time) returns (u: State)
    requires Reaches(s, t) && |t.stream| > 0 && WellFormed(e) && e.subject == SUBJECT_STARTED
    requires var m := t.stream[|t.stream| - 1];
             m.event == e && m.deliveries > 0 && t.clock <= m.deliveredAt + PROCESSING_TIMEOUT
    requires t.inbox.markers == map[MarkerKey(e) := at] && at + t.retention < t.clock
    ensures Reaches(s, u) && u.commits == t.commits + [Commit(|t.stream| - 1, e, t.clock)]
    ensures u.stream == t.stream && u.deadLetters == t.deadLetters
  {
    PurgeOne(s, t, MarkerKey(e), at);
    var purged := t.(inbox := t.inbox.(markers := map[]));
    StartApplies(purged.inbox, e, t.clock);
    TransactIs(purged, |t.stream| - 1);
    u := Next(purged, Transact(|t.stream| - 1));
    ReachesNext(s, purged, Transact(|t.stream| - 1), u);
  }

  lemma SomeStart() returns (e: Event)
    ensures WellFormed(e) && e.subject == SUBJECT_STARTED
  {
    e := Event(Keys.NewEventId(seq(16, _ => 0)), 1, 1, SUBJECT_STARTED, 1, "r");
  }

  // ---------- messages ----------

  ghost predicate MessagesAppliedOnce(s: State) {
    forall b, c :: 0 <= b < c < |s.commits| ==> s.commits[b].message != s.commits[c].message
  }

  /** No message is applied twice, in any run, exactly when markers are kept at least as long as messages can be delivered
      and then processed. */
  lemma RetentionMustCoverMessages(retention: int)
    ensures retention >= GAME_EVENTS_MAX_AGE + PROCESSING_TIMEOUT <==>
              forall clock: Time, steps: seq<Step> :: MessagesAppliedOnce(Run(InitWith(clock, retention), steps))
  {
    if retention >= GAME_EVENTS_MAX_AGE + PROCESSING_TIMEOUT {
      forall clock: Time, steps: seq<Step>
        ensures MessagesAppliedOnce(Run(InitWith(clock, retention), steps))
      {
        LongRetentionAppliesOnce(clock, retention, steps);
      }
    } else {
      var e := SomeStart();
      ShortRetentionAppliesTwice(e, retention);
    }
  }

  lemma LongRetentionAppliesOnce(clock: Time, retention: int, steps: seq<Step>)
    requires retention >= GAME_EVENTS_MAX_AGE + PROCESSING_TIMEOUT
    ensures MessagesAppliedOnce(Run(InitWith(clock, retention), steps))
  {
    InitInv(clock, retention);
    RunKeepsInv(InitWith(clock, retention), steps);
    RunKeepsRetention(InitWith(clock, retention), steps);
    var s := Run(InitWith(clock, retention), steps);
    forall b, c | 0 <= b < c < |s.commits|
      ensures s.commits[b].message != s.commits[c].message
    {
      assert CommitTraced(s, s.commits[b]) && CommitTraced(s, s.commits[c]);
    }
  }

  /** The message is applied at once, and again at the very end of its last delivery. */
  lemma ShortRetentionAppliesTwice(e: Event, retention: int)
    requires WellFormed(e) && e.subject == SUBJECT_STARTED && retention < GAME_EVENTS_MAX_AGE + PROCESSING_TIMEOUT
    ensures exists steps :: !MessagesAppliedOnce(Run(InitWith(DAY, retention), steps))
  {
    var s := InitWith(DAY, retention);
    var t := AppliedStartIsReached(e, DAY, retention);
    Wait(s, t, GAME_EVENTS_MAX_AGE);
    var t1 := t.(clock := t.clock + GAME_EVENTS_MAX_AGE);
    DeliverOnce(s, t1, 0);
    var t2 := Redelivered(t1, 0, 1);
    Wait(s, t2, PROCESSING_TIMEOUT);
    var u := AppliesAgainAfterPurge(s, t2.(clock := t2.clock + PROCESSING_TIMEOUT), e, DAY);
    assert u.commits[0].message == u.commits[1].message;
    var steps := RunTo(s, u);
  }

  // ---------- events, along chains of replays ----------

  /** The newest message holds `e` and was stored just now; each earlier message was replaced by
      the next within the age of its dead letter. */
  ghost predicate Chained(t: State, e: Event, at: Time, retention: int, replays: nat) {
    && |t.stream| == replays + 1 && |t.deadLetters| == replays
    && t.stream[replays].event == e && t.stream[replays].settlement.Unsettled?
    && t.stream[replays].storedAt <= t.clock <= t.stream[replays].storedAt + MINUTE
    && (forall d :: 0 <= d < replays ==>
          && t.deadLetters[d].event == e
          && t.stream[d + 1].storedAt <= t.deadLetters[d].storedAt + DEAD_LETTER_MAX_AGE)
    && t.inbox.markers == map[MarkerKey(e) := at] && t.commits == [Commit(0, e, at)]
    && t.retention == retention
    && t.clock == at + 1 + replays * DEAD_LETTER_MAX_AGE
  }

  /** Message `i` was delivered five times in vain and buried. */
  function Buried(t: State, i: nat): State
    requires i < |t.stream|
  {
    var failed := Redelivered(t, i, MAX_DELIVER);
    failed.(deadLetters := failed.deadLetters + [NewRecord(failed, i, "r", failed.stream[i].deliveries)])
  }

  /** Dead letter `d` was replayed at the end of its life. */
  function Replayed(t: State, d: nat): State
    requires d < |t.deadLetters|
  {
    var now, record := t.clock + DEAD_LETTER_MAX_AGE, t.deadLetters[d];
    t.(clock := now, stream := t.stream + [Message(ReplayId(record, d), record.event, now, 0, ZERO_TIME, Unsettled)])
  }

  lemma BuryInTime(s: State, t: State, i: nat)
    requires Reaches(s, t) && i < |t.stream| && t.stream[i].settlement.Unsettled?
    requires t.clock <= t.stream[i].storedAt + GAME_EVENTS_MAX_AGE
    ensures Reaches(s, Buried(t, i))
  {
    DeliverOften(s, t, i, MAX_DELIVER);
    BuryOne(s, Redelivered(t, i, MAX_DELIVER), i, t.stream[i].deliveries + MAX_DELIVER);
  }

  lemma ReplayInTime(s: State, t: State, d: nat)
    requires Reaches(s, t) && d < |t.deadLetters|
    requires Loadable(t.deadLetters, d + 1, t.deadLetters[d].storedAt) && t.deadLetters[d].storedAt == t.clock
    ensures Reaches(s, Replayed(t, d))
  {
    Wait(s, t, DEAD_LETTER_MAX_AGE);
    ReplayOne(s, t.(clock := t.clock + DEAD_LETTER_MAX_AGE), d);
  }

  lemma RoundExtendsChain(t: State, e: Event, at: Time, retention: int, replays: nat)
    requires Chained(t, e, at, retention, replays) && e.subject != "" && at > ZERO_TIME
    ensures Loadable(Buried(t, replays).deadLetters, replays + 1, t.clock)
    ensures Chained(Replayed(Buried(t, replays), replays), e, at, retention, replays + 1)
  {
    var u := Replayed(Buried(t, replays), replays);
    forall d | 0 <= d < replays + 1
      ensures u.deadLetters[d].event == e && u.stream[d + 1].storedAt <= u.deadLetters[d].storedAt + DEAD_LETTER_MAX_AGE
    {
      if d < replays {
        assert u.deadLetters[d] == t.deadLetters[d] && u.stream[d + 1].storedAt == t.stream[d + 1].storedAt;
      }
    }
  }

  /** Five failed deliveries, a burial, thirty days, and a replay. */
  lemma ReplayRound(s: State, t: State, e: Event, at: Time, retention: int, replays: nat) returns (u: State)
    requires Reaches(s, t) && Chained(t, e, at, retention, replays) && e.subject != "" && at > ZERO_TIME
    ensures Reaches(s, u) && Chained(u, e, at, retention, replays + 1)
  {
    RoundExtendsChain(t, e, at, retention, replays);
    BuryInTime(s, t, replays);
    ReplayInTime(s, Buried(t, replays), replays);
    u := Replayed(Buried(t, replays), replays);
  }

  lemma {:induction false} ChainIsReached(e: Event, retention: int, replays: nat) returns (t: State)
    requires WellFormed(e) && e.subject == SUBJECT_STARTED
    ensures Reaches(InitWith(DAY, retention), t) && Chained(t, e, DAY, retention, replays)
  {
    var s := InitWith(DAY, retention);
    if replays == 0 {
      var start := AppliedStartIsReached(e, DAY, retention);
      Wait(s, start, 1);
      t := start.(clock := start.clock + 1);
    } else {
      var before := ChainIsReached(e, retention, replays - 1);
      t := ReplayRound(s, before, e, DAY, retention, replays - 1);
    }
  }

  /** With markers kept for thirty days per replay, a chain of that many prompt replays still applies an event twice:
      its commit was not confirmed, and every dead letter is replayed in the last moments of its life. */
  lemma ReplaysApplyAgain(e: Event, retention: int, replays: nat) returns (steps: seq<Step>)
    requires WellFormed(e) && e.subject == SUBJECT_STARTED && retention <= replays * DEAD_LETTER_MAX_AGE
    ensures PromptRun(InitWith(DAY, retention), steps)
    ensures var s := Run(InitWith(DAY, retention), steps);
            && |s.commits| == 2 && s.commits[0].event == s.commits[1].event == e
            && |s.deadLetters| == replays && |s.stream| == replays + 1
            && forall d :: 0 <= d < replays ==>
                 && s.deadLetters[d].event == e
                 && s.stream[d + 1].storedAt <= s.deadLetters[d].storedAt + DEAD_LETTER_MAX_AGE
  {
    var s := InitWith(DAY, retention);
    var t := ChainIsReached(e, retention, replays);
    DeliverOnce(s, t, replays);
    var u := AppliesAgainAfterPurge(s, Redelivered(t, replays, 1), e, DAY);
    steps := RunTo(s, u);
  }

  /** In particular the retention in use, as long as dead letters live, does not cover a single replay. */
  lemma LateReplayAppliesAgain(e: Event) returns (steps: seq<Step>)
    requires WellFormed(e) && e.subject == SUBJECT_STARTED
    ensures PromptRun(Init(DAY), steps)
    ensures var s := Run(Init(DAY), steps);
            && |s.commits| == 2 && s.commits[0].event == s.commits[1].event == e
            && |s.deadLetters| == 1 && |s.stream| == 2
            && s.stream[1].storedAt <= s.deadLetters[0].storedAt + DEAD_LETTER_MAX_AGE
  {
    steps := ReplaysApplyAgain(e, PROCESSED_EVENT_RETENTION, 1);
  }

  /** And no retention at all keeps every event from being applied twice. */
  lemma NoRetentionCoversReplays(retention: int)
    ensures exists steps :: PromptRun(InitWith(DAY, retention), steps)
                            && !EventsAppliedOnce(Run(InitWith(DAY, retention), steps))
  {
    var replays: nat := if retention <= 0 then 0 else retention;
    var e := SomeStart();
    var steps := ReplaysApplyAgain(e, retention, replays);
    var s := Run(InitWith(DAY, retention), steps);
    assert s.commits[0].event.id == s.commits[1].event.id;
  }
}
