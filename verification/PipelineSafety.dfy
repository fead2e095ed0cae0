/** The promises of the pipeline, over every run of every number of processes. */
module PipelineSafety {
  import opened Common
  import opened Events
  import opened Outbox
  import opened JetStream
  import opened Pipeline
  import opened PipelineInvariant
  import Inbox

  // ---------- nothing is lost ----------

  ghost predicate InOutbox(s: State, e: Event) {
    IsPending(s.outbox, e.id) && s.outbox[e.id].event == e
  }

  ghost predicate InStream(s: State, e: Event) {
    exists i :: 0 <= i < |s.stream| && s.stream[i].event == e && s.stream[i].settlement.Unsettled?
  }

  ghost predicate InDeadLetters(s: State, e: Event) {
    exists d :: 0 <= d < |s.deadLetters| && s.deadLetters[d].event == e && !s.deadLetters[d].deleted
  }

  ghost predicate IsCommitted(s: State, e: Event) {
    exists c :: 0 <= c < |s.commits| && s.commits[c].event == e
  }

  ghost predicate Located(s: State, e: Event) {
    Waiting(s, e) || InOutbox(s, e) || InStream(s, e) || InDeadLetters(s, e) || IsCommitted(s, e)
  }

  /** A dead letter is still there, or its event went back to the stream behind the message it came from. */
  lemma DeadLetterKeptOrRepublished(s: State, d: nat)
    requires Inv(s) && d < |s.deadLetters|
    ensures || !s.deadLetters[d].deleted
            || exists i: nat :: s.deadLetters[d].source < i < |s.stream| && s.stream[i].event == s.deadLetters[d].event
  {
    assert RecordTraced(s, d);
    if s.deadLetters[d].deleted {
      var i := HeldReplayIsOfRecord(s, d);
    }
  }

  /** However a message was settled, and however often its event was buried, swallowed as a duplicate, replayed and
      deleted, following the chain of replays to later messages ends at a place that still holds the event. */
  lemma {:induction false} MessageNeverLost(s: State, i: nat)
    requires Inv(s) && i < |s.stream|
    ensures var e := s.stream[i].event; InStream(s, e) || InDeadLetters(s, e) || IsCommitted(s, e)
    decreases |s.stream| - i
  {
    var m := s.stream[i];
    assert SettlementJustified(s, i) && MessageTraced(s, i);
    match m.settlement {
      case Unsettled =>
      case Acked =>
        CommittedEvent(s, m.event);
      case Terminated =>
        var d :| 0 <= d < |s.deadLetters| && s.deadLetters[d].msgId == DeadLetterId(i);
        assert RecordTraced(s, d);
        DeadLetterIdsDiffer(s.deadLetters[d].source, i);
        if s.deadLetters[d].deleted {
          var j := HeldReplayIsOfRecord(s, d);
          MessageNeverLost(s, j);
        }
    }
  }

  /** Exactly the events whose row was inserted, or that a running instance retains, have a place. */
  lemma WhereEventsAre(s: State, e: Event)
    requires Inv(s) && e in s.built
    ensures Located(s, e) <==> e in s.enqueued || Waiting(s, e)
    ensures !Located(s, e) ==> e in s.dropped
  {
    if e in s.enqueued {
      if IsPending(s.outbox, e.id) {
        assert s.outbox[e.id].event == e;
      } else {
        var i :| 0 <= i < |s.stream| && s.stream[i].msgId == e.id && s.stream[i].event == e;
        MessageNeverLost(s, i);
      }
    }
    if InStream(s, e) {
      var i :| 0 <= i < |s.stream| && s.stream[i].event == e && s.stream[i].settlement.Unsettled?;
      assert MessageTraced(s, i);
    } else if InDeadLetters(s, e) {
      var d :| 0 <= d < |s.deadLetters| && s.deadLetters[d].event == e && !s.deadLetters[d].deleted;
      assert RecordTraced(s, d) && MessageTraced(s, s.deadLetters[d].source);
    } else if IsCommitted(s, e) {
      var c :| 0 <= c < |s.commits| && s.commits[c].event == e;
      assert CommitTraced(s, s.commits[c]) && MessageTraced(s, s.commits[c].message);
    }
  }

  /** Conservation: after any run, under any failures, duplicates and replays, every event ever built is retained by an
      instance, pending in the outbox, unsettled in the stream, kept as a dead letter or committed.
      The one exception is an event whose process stopped while it was retained and before its row was inserted. */
  lemma Conservation(clock: Time, steps: seq<Step>, e: Event)
    requires e in Run(Init(clock), steps).built
    ensures var s := Run(Init(clock), steps);
            Located(s, e) || (e in s.dropped && e !in s.enqueued)
  {
    InitInv(clock, PROCESSED_EVENT_RETENTION);
    RunKeepsInv(Init(clock), steps);
    WhereEventsAre(Run(Init(clock), steps), e);
  }

  /** In particular nothing at all is lost in a run in which no process stops while it retains an event. */
  lemma ConservationWithoutCrashes(clock: Time, steps: seq<Step>, e: Event)
    requires e in Run(Init(clock), steps).built
    requires forall step :: step in steps ==> !step.Crash?
    ensures Located(Run(Init(clock), steps), e)
  {
    Conservation(clock, steps, e);
    NothingDropped(clock, steps);
  }

  lemma {:induction false} NothingDropped(clock: Time, steps: seq<Step>)
    requires forall step :: step in steps ==> !step.Crash?
    ensures Run(Init(clock), steps).dropped == {}
  {
    if steps != [] {
      NothingDropped(clock, steps[..|steps| - 1]);
    }
  }

  /** The exception is real: an event retained in memory dies with its process. */
  lemma StoppingLosesRetainedEvent(clock: Time, e: Event)
    requires WellFormed(e)
    ensures var s := Run(Init(clock), [Build(0, e), Crash(0)]);
            e in s.built && !Located(s, e)
  {
    var built := Next(Init(clock), Build(0, e));
    var steps := [Build(0, e), Crash(0)];
    assert steps[..1] == [Build(0, e)] && steps[..1][..0] == [];
    assert Run(Init(clock), steps[..1]) == built;
    assert built.pending[0] == e;
  }

  /** A committed event shows in its game's row: the start no later, the end present and no later than reported. */
  lemma {:induction false} CommittedEventsShow(clock: Time, steps: seq<Step>, e: Event)
    requires IsCommitted(Run(Init(clock), steps), e)
    ensures Visible(Run(Init(clock), steps).inbox.sessions, e)
  {
    InitInv(clock, PROCESSED_EVENT_RETENTION);
    RunKeepsInv(Init(clock), steps);
  }

  /** Conversely rows hold no times but those of committed events, in order, and an end only beside a committed start. */
  lemma RowsComeFromCommits(clock: Time, steps: seq<Step>, game: int)
    requires game in Run(Init(clock), steps).inbox.sessions
    ensures RowEarned(Run(Init(clock), steps), game)
    ensures Run(Init(clock), steps).inbox.sessions[game].Ordered()
  {
    InitInv(clock, PROCESSED_EVENT_RETENTION);
    RunKeepsInv(Init(clock), steps);
  }

  predicate IsStartOf(c: Commit, game: int) { c.event.gameId == game && c.event.subject == SUBJECT_STARTED }

  /** Commit number `c` is the last one of a start of the game. */
  predicate IsLastStart(commits: seq<Commit>, game: int, c: nat) {
    c < |commits| && IsStartOf(commits[c], game) && forall d :: c < d < |commits| ==> !IsStartOf(commits[d], game)
  }

  ghost predicate NamesLastStart(s: State, game: int)
    requires game in s.inbox.sessions
  {
    exists c: nat :: IsLastStart(s.commits, game, c) && s.inbox.sessions[game].roomId == s.commits[c].event.roomId
  }

  ghost predicate RowsNameLastStarts(s: State) {
    forall game :: game in s.inbox.sessions ==> NamesLastStart(s, game)
  }

  lemma CommitKeepsRoom(s: State, t: State, commit: Commit, game: int)
    requires t.commits == s.commits + [commit] && game in t.inbox.sessions
    requires if IsStartOf(commit, game) then t.inbox.sessions[game].roomId == commit.event.roomId
             else game in s.inbox.sessions && t.inbox.sessions[game].roomId == s.inbox.sessions[game].roomId
                  && NamesLastStart(s, game)
    ensures NamesLastStart(t, game)
  {
    if IsStartOf(commit, game) {
      assert IsLastStart(t.commits, game, |s.commits|);
    } else {
      var c: nat :| IsLastStart(s.commits, game, c) && s.inbox.sessions[game].roomId == s.commits[c].event.roomId;
      assert IsLastStart(t.commits, game, c);
    }
  }

  lemma NextKeepsRooms(s: State, step: Step)
    requires RowsNameLastStarts(s)
    ensures RowsNameLastStarts(Next(s, step))
  {
    var t := Next(s, step);
    if t.commits == s.commits {
      assert t.inbox.sessions == s.inbox.sessions;
    } else {
      var commit := Commit(step.index, s.stream[step.index].event, s.clock);
      assert t.commits == s.commits + [commit];
      forall game | game in t.inbox.sessions
        ensures NamesLastStart(t, game)
      {
        assert game in s.inbox.sessions ==> NamesLastStart(s, game);
        CommitKeepsRoom(s, t, commit, game);
      }
    }
  }

  /** The room of a row is the one that the last committed start of its game names, among any number of instances that
      report the game for different rooms. */
  lemma {:induction false} RowsNameTheLastStart(clock: Time, retention: int, steps: seq<Step>)
    ensures RowsNameLastStarts(Run(InitWith(clock, retention), steps))
  {
    if steps != [] {
      var prefix := steps[..|steps| - 1];
      RowsNameTheLastStart(clock, retention, prefix);
      NextKeepsRooms(Run(InitWith(clock, retention), prefix), steps[|steps| - 1]);
    }
  }

  // ---------- nothing is applied twice ----------

  /** Two commits of one event are more than thirty days apart, whatever was redelivered, republished or replayed. */
  lemma RepeatedCommitsAreFarApart(clock: Time, steps: seq<Step>, b: nat, c: nat)
    requires b < c < |Run(Init(clock), steps).commits|
    requires Run(Init(clock), steps).commits[b].event.id == Run(Init(clock), steps).commits[c].event.id
    ensures Run(Init(clock), steps).commits[b].at + 30 * DAY < Run(Init(clock), steps).commits[c].at
  {
    InitInv(clock, PROCESSED_EVENT_RETENTION);
    RunKeepsInv(Init(clock), steps);
    RunGrows(Init(clock), steps);
  }

  /** Hence no stream message is ever applied twice, marker cleanup included: markers outlive messages. */
  lemma MessageAppliedOnce(clock: Time, steps: seq<Step>, b: nat, c: nat)
    requires b < c < |Run(Init(clock), steps).commits|
    ensures Run(Init(clock), steps).commits[b].message != Run(Init(clock), steps).commits[c].message
  {
    InitInv(clock, PROCESSED_EVENT_RETENTION);
    RunKeepsInv(Init(clock), steps);
    RunGrows(Init(clock), steps);
    var s := Run(Init(clock), steps);
    assert CommitTraced(s, s.commits[b]) && CommitTraced(s, s.commits[c]);
  }

  /** While markers are kept, an event is applied at most once over all its messages. */
  lemma EventAppliedOnceWithoutCleanup(clock: Time, steps: seq<Step>, b: nat, c: nat)
    requires b < c < |Run(Init(clock), steps).commits|
    requires forall step :: step in steps ==> !step.PurgeMarkers?
    ensures Run(Init(clock), steps).commits[b].event.id != Run(Init(clock), steps).commits[c].event.id
  {
    MarkersKept(clock, steps);
  }

  ghost predicate AllMarked(s: State) {
    && (forall c :: 0 <= c < |s.commits| ==> MarkerKey(s.commits[c].event) in s.inbox.markers)
    && (forall b, c :: 0 <= b < c < |s.commits| ==> s.commits[b].event.id != s.commits[c].event.id)
  }

  lemma NextKeepsMarked(s: State, step: Step)
    requires AllMarked(s) && Inbox.Sound(s.inbox) && !step.PurgeMarkers?
    ensures AllMarked(Next(s, step))
  {
    var t := Next(s, step);
    if t.commits == s.commits {
      assert t.inbox.markers == s.inbox.markers;
    } else {
      var e := s.stream[step.index].event;
      HandledMarks(s.inbox, e, s.clock);
      assert t.commits == s.commits + [Commit(step.index, e, s.clock)];
    }
  }

  lemma {:induction false} MarkersKept(clock: Time, steps: seq<Step>)
    requires forall step :: step in steps ==> !step.PurgeMarkers?
    ensures AllMarked(Run(Init(clock), steps))
  {
    if steps != [] {
      var prefix := steps[..|steps| - 1];
      MarkersKept(clock, prefix);
      InitInv(clock, PROCESSED_EVENT_RETENTION);
      RunKeepsInv(Init(clock), prefix);
      NextKeepsMarked(Run(Init(clock), prefix), steps[|steps| - 1]);
    }
  }
}
