/** Operator replay of a dead letter: load, republish, and only then delete. */
module ReplayService {
  import opened Common
  import opened Events
  import opened Pipeline
  import opened PipelineInvariant
  import opened Deployment
  import JetStream

  datatype ReplayResult = ReplayResult(sequence: nat, eventId: string, subject: string, duplicate: bool)

  datatype Fate = Fate(load: Fault, remembered: bool, publish: Fault, delete: Fault)

  function ReplaySteps(d: nat, fate: Fate): seq<Step> {
    [if fate.publish.Lands() then Replay(d, fate.remembered) else Nothing]
    + if fate.publish.Works? then [if fate.delete.Lands() then DeleteRecord(d) else Nothing] else []
  }

  predicate Replayable(s: State, sequence: nat, fate: Fate) {
    && fate.load.Works?
    && JetStream.Loadable(s.deadLetters, sequence, s.clock)
    && IsGameSubject(s.deadLetters[sequence - 1].event.subject)
  }

  /** The record can be loaded, is complete, is within thirty days of its storing and holds a game event. */
  predicate MayReplay(s: State, sequence: nat, fate: Fate) {
    && fate.load.Works? && 0 < sequence <= |s.deadLetters|
    && var record := s.deadLetters[sequence - 1];
       && !record.deleted && record.recordId != "" && record.storedAt != ZERO_TIME && record.deliveryCount > 0
       && s.clock - record.storedAt <= 30 * DAY
       && (record.event.subject == "game.started" || record.event.subject == "game.ended")
  }

  /** The broker still remembers an earlier publication of this replay. */
  ghost predicate Swallowed(s: State, record: JetStream.DeadLetter, d: nat, fate: Fate) {
    fate.remembered && JetStream.Holds(s.stream, JetStream.ReplayId(record, d))
  }

  /** No other operator deleted the record before this one's deletion. */
  predicate StillThere(s: State, own: seq<Step>, others: Interference, d: nat) {
    && |own| == 2
    && var before := StateBefore(s, own, others, 1);
       d < |before.deadLetters| && !before.deadLetters[d].deleted
  }

  class DeadLetterReplayService {
    const cluster: Cluster

    constructor (cluster: Cluster)
      ensures this.cluster == cluster
    {
      this.cluster := cluster;
    }

    /** Replays record number `sequence` among other processes, other operators included. The record is deleted only after
        its publication was confirmed; success means that it was, and that the record is gone. */
    method Replay(sequence: nat, fate: Fate, others: Interference)
      returns (result: Option<ReplayResult>, error: bool, ghost own: seq<Step>)
      modifies cluster, cluster.outbox, cluster.broker, cluster.inbox
      ensures !Replayable(old(cluster.View()), sequence, fate) ==>
                own == [] && result.None? && error && cluster.View() == old(cluster.View())
      ensures Replayable(old(cluster.View()), sequence, fate) ==>
                && own == ReplaySteps(sequence - 1, fate)
                && cluster.View() == Run(old(cluster.View()), Weave(own, others))
                && (result.Some? <==> fate.publish.Works?)
                && (result.Some? ==>
                      var record := old(cluster.View()).deadLetters[sequence - 1];
                      && result.value.sequence == sequence && result.value.eventId == record.recordId
                      && result.value.subject == record.event.subject
                      && (result.value.duplicate <==>
                            Swallowed(StateBefore(old(cluster.View()), own, others, 0), record, sequence - 1, fate)))
      ensures result.Some? <==> fate.publish.Works? && MayReplay(old(cluster.View()), sequence, fate)
      ensures error <==> !(Replayable(old(cluster.View()), sequence, fate) && fate.publish.Works? && fate.delete.Works?
                           && StillThere(old(cluster.View()), own, others, sequence - 1))
      ensures !error ==>
                && result.Some?
                && sequence <= |cluster.View().deadLetters| && cluster.View().deadLetters[sequence - 1].deleted
                && JetStream.Holds(cluster.View().stream,
                                   JetStream.ReplayId(cluster.View().deadLetters[sequence - 1], sequence - 1))
    {
      result, error, own := None, true, [];
      if sequence == 0 {
        return;
      }
      var loaded := cluster.broker.GetGameDeadLetter(sequence, cluster.clock, fate.load);
      if loaded.Error? {
        return;
      }
      var record := loaded.value;
      if !IsGameSubject(record.event.subject) {
        return;
      }
      ghost var start := cluster.View();
      assert Weave([], others) == [];
      var ack;
      ack, own := Republish(sequence - 1, fate, others, start);
      if ack.Error? {
        return;
      }
      result := Some(ReplayResult(sequence, record.recordId, record.event.subject, ack.value.duplicate));
      ghost var first := own;
      error, own := Remove(sequence - 1, fate.delete, others, start, own);
      assert own[..0] == first[..0];
    }

    method Republish(d: nat, fate: Fate, others: Interference, ghost start: State)
      returns (ack: Result<JetStream.PublishAck>, ghost own: seq<Step>)
      requires cluster.View() == start && d < |start.deadLetters|
      modifies cluster, cluster.outbox, cluster.broker, cluster.inbox
      ensures own == [if fate.publish.Lands() then Step.Replay(d, fate.remembered) else Nothing]
      ensures cluster.View() == Run(start, Weave(own, others))
      ensures ack.Ok? <==> fate.publish.Works?
      ensures ack.Ok? ==> Enabled(cluster.View(), DeleteRecord(d))
      ensures ack.Ok? ==> (ack.value.duplicate <==>
                             Swallowed(StateBefore(start, own, others, 0), start.deadLetters[d], d, fate))
    {
      assert Weave([], others) == [];
      KnowledgeLasts(start, others(0), Step.Replay(d, fate.remembered));
      RunGrows(start, others(0));
      assert LaterRecord(start.deadLetters[d], Run(start, others(0)).deadLetters[d]);
      cluster.Interfere(others(0));
      ghost var step: Step;
      ack, step := cluster.Republish(d, fate.remembered, fate.publish);
      WeaveStep(start, [], others, step);
      own := [step];
      assert [] + [step] == own && own[..0] == [];
    }

    method Remove(d: nat, fault: Fault, others: Interference, ghost start: State, ghost before: seq<Step>)
      returns (failed: bool, ghost own: seq<Step>)
      requires |before| == 1 && cluster.View() == Run(start, Weave(before, others))
      requires Enabled(cluster.View(), DeleteRecord(d))
      modifies cluster, cluster.outbox, cluster.broker, cluster.inbox
      ensures own == before + [if fault.Lands() then DeleteRecord(d) else Nothing]
      ensures cluster.View() == Run(start, Weave(own, others))
      ensures failed <==> !(fault.Works? && StillThere(start, own, others, d))
      ensures !failed ==>
                && d < |cluster.View().deadLetters| && cluster.View().deadLetters[d].deleted
                && JetStream.Holds(cluster.View().stream, JetStream.ReplayId(cluster.View().deadLetters[d], d))
    {
      KnowledgeLasts(cluster.View(), others(1), DeleteRecord(d));
      cluster.Interfere(others(1));
      var failure, step := cluster.RemoveRecord(d, fault);
      WeaveStep(start, before, others, step);
      own := before + [step];
      assert own[..1] == before[..1] == before;
      failed := failure.Some?;
    }
  }
}
