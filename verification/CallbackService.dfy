/** The durable consumer's callback: handle, then acknowledge, or retry, or bury and terminate. */
module CallbackService {
  import opened Common
  import opened Events
  import opened Pipeline
  import opened PipelineInvariant
  import opened Deployment
  import JetStream

  datatype Outcome = Acked | AckError | Retried | DeadLettered

  /** How the calls of one callback end. `metadata` says whether the delivery's metadata can be read, and `recordId` is
      the event ID drawn for a dead letter, if one can be drawn. */
  datatype Fate = Fate(handle: Fault, ack: Fault, metadata: bool, recordId: Option<string>,
                       remembered: bool, bury: Fault, terminate: Fault)

  predicate Buries(count: nat, fate: Fate) {
    fate.metadata && count >= JetStream.MAX_DELIVER && fate.recordId.Some?
  }

  /** The callback's decisions after the handler. */
  function AfterHandler(i: nat, count: nat, handled: bool, fate: Fate): (seq<Step>, Outcome) {
    if handled then
      ([if fate.ack.Lands() then Ack(i) else Nothing], if fate.ack.Works? then Acked else AckError)
    else if !Buries(count, fate) then ([], Retried)
    else
      var bury := if fate.bury.Lands() then Bury(i, fate.recordId.value, count, fate.remembered) else Nothing;
      if !fate.bury.Works? then ([bury], Retried)
      else ([bury, if fate.terminate.Lands() then Terminate(i) else Nothing],
            if fate.terminate.Works? then DeadLettered else Retried)
  }

  /** Whether the handler reports success: the call works, in time, and the event applies or was applied before. */
  predicate HandlerSucceeds(s: State, i: nat, fault: Fault)
    requires i < |s.stream|
  {
    fault.Works? && Enabled(s, Transact(i)) && !Handled(s.inbox, s.stream[i].event, s.clock).Rejected?
  }

  /** What a delivery comes to, by its number: only the fifth failure or a later one buries the message, and it counts as
      dead-lettered only when every call for that worked. An earlier failure makes no further call. */
  predicate Decided(count: nat, handled: bool, fate: Fate, outcome: Outcome, calls: nat) {
    && (outcome.Acked? <==> handled && fate.ack.Works?)
    && (outcome.AckError? <==> handled && !fate.ack.Works?)
    && (outcome.DeadLettered? <==>
          !handled && fate.metadata && count >= 5 && fate.recordId.Some? && fate.bury.Works? && fate.terminate.Works?)
    && (!handled && count < 5 ==> calls == 1)
  }

  /** The call settles the message unless it was settled before, and leaves the others and the dead letters alone. */
  predicate SettledAs(before: State, after: State, i: nat, how: JetStream.Settlement)
    requires i < |before.stream|
  {
    && |after.stream| == |before.stream|
    && after.stream[i].settlement == (if before.stream[i].settlement.Unsettled? then how else before.stream[i].settlement)
    && (forall k :: 0 <= k < |after.stream| && k != i ==> after.stream[k] == before.stream[k])
    && after.stream[i].event == before.stream[i].event
    && after.deadLetters == before.deadLetters
  }

  predicate IsLetter(record: JetStream.DeadLetter, e: Event, i: nat, count: nat, fate: Fate) {
    && record.msgId == JetStream.DeadLetterId(i)
    && (!fate.remembered ==>
          record.source == i && record.event == e && record.deliveryCount == count && Some(record.recordId) == fate.recordId)
  }

  /** A dead letter under the message's ID is stored; unless the broker took it for a duplicate, it is the one just made. */
  ghost predicate LetterKept(s: State, i: nat, count: nat, fate: Fate) {
    i < |s.stream| && exists d :: 0 <= d < |s.deadLetters| && IsLetter(s.deadLetters[d], s.stream[i].event, i, count, fate)
  }

  lemma LetterIsNew(s: State, i: nat, count: nat, fate: Fate)
    requires fate.recordId.Some? && Enabled(s, Bury(i, fate.recordId.value, count, fate.remembered))
    ensures LetterKept(Next(s, Bury(i, fate.recordId.value, count, fate.remembered)), i, count, fate)
  {
    var t := Next(s, Bury(i, fate.recordId.value, count, fate.remembered));
    if t.deadLetters == s.deadLetters {
      var d :| 0 <= d < |s.deadLetters| && s.deadLetters[d].msgId == JetStream.DeadLetterId(i);
      assert IsLetter(t.deadLetters[d], t.stream[i].event, i, count, fate);
    } else {
      assert IsLetter(t.deadLetters[|s.deadLetters|], t.stream[i].event, i, count, fate);
    }
  }

  lemma LetterLasts(s: State, others: seq<Step>, step: Step, t: State, i: nat, count: nat, fate: Fate)
    requires LetterKept(s, i, count, fate) && t == Next(Run(s, others), step)
    ensures LetterKept(t, i, count, fate)
  {
    RunGrows(s, others);
    NextGrows(Run(s, others), step);
    GrowsTransitively(s, Run(s, others), t);
    var d :| 0 <= d < |s.deadLetters| && IsLetter(s.deadLetters[d], s.stream[i].event, i, count, fate);
    assert LaterRecord(s.deadLetters[d], t.deadLetters[d]) && Later(s.stream[i], t.stream[i]);
    assert IsLetter(t.deadLetters[d], t.stream[i].event, i, count, fate);
  }

  /** The third call, after the transaction and the burial, terminated the message; its dead letter is stored. */
  ghost predicate EndsBuried(s: State, own: seq<Step>, others: Interference, t: State, i: nat, count: nat, fate: Fate) {
    && |own| == 3 && i < |StateBefore(s, own, others, 2).stream|
    && SettledAs(StateBefore(s, own, others, 2), t, i, JetStream.Terminated)
    && LetterKept(t, i, count, fate)
  }

  /** The second call, after the transaction, acknowledged the message, whose event is committed. */
  ghost predicate EndsAcked(s: State, own: seq<Step>, others: Interference, t: State, i: nat) {
    && |own| == 2 && i < |StateBefore(s, own, others, 1).stream|
    && SettledAs(StateBefore(s, own, others, 1), t, i, JetStream.Acked)
    && CommittedId(t, t.stream[i].event.id)
  }

  class GameEventsConsumer {
    const cluster: Cluster

    constructor (cluster: Cluster)
      ensures this.cluster == cluster
    {
      this.cluster := cluster;
    }

    /** Handles delivery number `count` of message `i` among other processes. A message is acknowledged only after its
        event is committed, terminated only after its dead letter is stored, and otherwise stays in the stream. */
    method Consume(i: nat, count: nat, fate: Fate, others: Interference) returns (outcome: Outcome, ghost own: seq<Step>)
      requires cluster.Wired() && Inv(cluster.View())
      requires i < |cluster.broker.stream| && 0 < count <= cluster.broker.stream[i].deliveries
      requires cluster.clock > ZERO_TIME
      requires fate.recordId.Some? ==> fate.recordId.value != ""
      modifies cluster, cluster.outbox, cluster.broker, cluster.inbox
      ensures var before := Run(old(cluster.View()), others(0));
              var handled := i < |before.stream| && HandlerSucceeds(before, i, fate.handle);
              && own == [if fate.handle.Lands() && Enabled(before, Transact(i)) then Transact(i) else Nothing]
                        + AfterHandler(i, count, handled, fate).0
              && outcome == AfterHandler(i, count, handled, fate).1
              && Decided(count, handled, fate, outcome, |own|)
      ensures cluster.View() == Run(old(cluster.View()), Weave(own, others))
      ensures outcome.DeadLettered? ==> EndsBuried(old(cluster.View()), own, others, cluster.View(), i, count, fate)
      ensures outcome.Acked? ==> EndsAcked(old(cluster.View()), own, others, cluster.View(), i)
    {
      ghost var start := cluster.View();
      assert Weave([], others) == [];
      RunKeepsInv(start, others(0));
      MessageLasts(start, others(0), i, count);
      cluster.Interfere(others(0));
      var failure, step := cluster.HandleMessage(i, fate.handle);
      WeaveStep(start, [], others, step);
      own := [step];
      assert [] + [step] == own;
      HandledMeansCommitted(Run(start, others(0)), i, fate.handle);
      if failure.Some? {
        outcome, own := HandleFailure(i, count, fate, others, start, own);
      } else {
        outcome, own := Acknowledge(i, fate.ack, others, start, own);
      }
    }

    method Acknowledge(i: nat, fault: Fault, others: Interference, ghost start: State, ghost before: seq<Step>)
      returns (outcome: Outcome, ghost own: seq<Step>)
      requires |before| == 1 && cluster.View() == Run(start, Weave(before, others))
      requires Enabled(cluster.View(), Ack(i))
      modifies cluster, cluster.outbox, cluster.broker, cluster.inbox
      ensures own == before + [if fault.Lands() then Ack(i) else Nothing]
      ensures outcome == if fault.Works? then Acked else AckError
      ensures cluster.View() == Run(start, Weave(own, others))
      ensures outcome.Acked? ==> EndsAcked(start, own, others, cluster.View(), i)
    {
      KnowledgeLasts(cluster.View(), others(1), Ack(i));
      cluster.Interfere(others(1));
      var failed, step := cluster.AckMessage(i, fault);
      WeaveStep(start, before, others, step);
      own := before + [step];
      assert own[..1] == before[..1];
      outcome := if failed then AckError else Acked;
    }

    method HandleFailure(i: nat, count: nat, fate: Fate, others: Interference, ghost start: State, ghost before: seq<Step>)
      returns (outcome: Outcome, ghost own: seq<Step>)
      requires |before| == 1 && cluster.View() == Run(start, Weave(before, others))
      requires i < |cluster.broker.stream| && count <= cluster.broker.stream[i].deliveries
      requires cluster.broker.stream[i].event.subject != ""
      requires cluster.clock > ZERO_TIME && count > 0
      requires fate.recordId.Some? ==> fate.recordId.value != ""
      modifies cluster, cluster.outbox, cluster.broker, cluster.inbox
      ensures own == before + AfterHandler(i, count, false, fate).0
      ensures outcome == AfterHandler(i, count, false, fate).1
      ensures Decided(count, false, fate, outcome, |own|)
      ensures cluster.View() == Run(start, Weave(own, others))
      ensures outcome.DeadLettered? ==> EndsBuried(start, own, others, cluster.View(), i, count, fate)
    {
      own := before;
      if !fate.metadata || count < JetStream.MAX_DELIVER || fate.recordId.None? {
        return Retried, own;
      }
      var failed;
      failed, own := BuryMessage(i, count, fate, others, start, own);
      if failed {
        return Retried, own;
      }
      ghost var buried := cluster.View();
      failed, own := TerminateMessage(i, fate.terminate, others, start, own);
      LetterLasts(buried, others(2), own[2], cluster.View(), i, count, fate);
      outcome := if failed then Retried else DeadLettered;
    }

    method BuryMessage(i: nat, count: nat, fate: Fate, others: Interference, ghost start: State, ghost before: seq<Step>)
      returns (failed: bool, ghost own: seq<Step>)
      requires |before| == 1 && cluster.View() == Run(start, Weave(before, others))
      requires i < |cluster.broker.stream| && JetStream.MAX_DELIVER <= count <= cluster.broker.stream[i].deliveries
      requires cluster.broker.stream[i].event.subject != "" && cluster.clock > ZERO_TIME
      requires fate.recordId.Some? && fate.recordId.value != ""
      modifies cluster, cluster.outbox, cluster.broker, cluster.inbox
      ensures own == before + [if fate.bury.Lands() then Bury(i, fate.recordId.value, count, fate.remembered) else Nothing]
      ensures failed <==> !fate.bury.Works?
      ensures !failed ==> Enabled(cluster.View(), Terminate(i)) && LetterKept(cluster.View(), i, count, fate)
      ensures cluster.View() == Run(start, Weave(own, others))
    {
      MessageLasts(cluster.View(), others(1), i, count);
      cluster.Interfere(others(1));
      if fate.bury.Works? {
        LetterIsNew(cluster.View(), i, count, fate);
      }
      var ack, step := cluster.BuryMessage(i, fate.recordId.value, count, fate.remembered, fate.bury);
      WeaveStep(start, before, others, step);
      own := before + [step];
      failed := ack.Error?;
    }

    method TerminateMessage(i: nat, fault: Fault, others: Interference, ghost start: State, ghost before: seq<Step>)
      returns (failed: bool, ghost own: seq<Step>)
      requires |before| == 2 && cluster.View() == Run(start, Weave(before, others))
      requires Enabled(cluster.View(), Terminate(i))
      modifies cluster, cluster.outbox, cluster.broker, cluster.inbox
      ensures own == before + [if fault.Lands() then Terminate(i) else Nothing]
      ensures failed <==> !fault.Works?
      ensures cluster.View() == Run(start, Weave(own, others))
      ensures cluster.View() == Next(Run(old(cluster.View()), others(2)), own[2])
      ensures !failed ==>
                && i < |StateBefore(start, own, others, 2).stream|
                && SettledAs(StateBefore(start, own, others, 2), cluster.View(), i, JetStream.Terminated)
    {
      KnowledgeLasts(cluster.View(), others(2), Terminate(i));
      cluster.Interfere(others(2));
      ghost var step: Step;
      failed, step := cluster.TerminateMessage(i, fault);
      WeaveStep(start, before, others, step);
      own := before + [step];
      assert own[..2] == before[..2];
    }
  }

  lemma {:induction false} MessageLasts(s: State, steps: seq<Step>, i: nat, count: nat)
    requires i < |s.stream| && count <= s.stream[i].deliveries
    ensures var t := Run(s, steps);
            && i < |t.stream| && count <= t.stream[i].deliveries && t.stream[i].event == s.stream[i].event
            && s.clock <= t.clock
  {
    RunGrows(s, steps);
    assert Later(s.stream[i], Run(s, steps).stream[i]);
  }

  /** After the handler the message is still there; after a success its event is committed, now or earlier. */
  lemma HandledMeansCommitted(s: State, i: nat, fault: Fault)
    requires EventsIdentified(s) && BuiltAccounted(s) && MessagesTraced(s) && MarkersJustified(s) && i < |s.stream|
    ensures var t := Next(s, if fault.Lands() && Enabled(s, Transact(i)) then Transact(i) else Nothing);
            && t.stream == s.stream && t.clock == s.clock
            && t.stream[i].event.subject != ""
            && (HandlerSucceeds(s, i, fault) ==> Enabled(t, Ack(i)))
  {
    var e := s.stream[i].event;
    assert MessageTraced(s, i);
    assert WellFormed(e);
    if HandlerSucceeds(s, i, fault) {
      var t := Next(s, Transact(i));
      if Handled(s.inbox, e, s.clock).Applied? {
        assert t.commits[|s.commits|].event == e;
      } else {
        assert MarkerKey(e) in s.inbox.markers;
      }
    }
  }
}
