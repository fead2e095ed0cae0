/** The databases, the broker and the clock as one running system, seen by a process that shares them with others. */
module Deployment {
  import opened Common
  import opened Events
  import opened Pipeline
  import Consumer
  import Inbox
  import JetStream
  import Outbox

  /** What other processes do between this process's calls: `others(k)` happens just before its call number k. */
  type Interference = nat -> seq<Step>

  /** The run in which a process's own steps are interleaved with those of all others. */
  function Weave(own: seq<Step>, others: Interference): seq<Step> {
    if own == [] then []
    else
      var n := |own| - 1;
      Weave(own[..n], others) + others(n) + [own[n]]
  }

  function StateBefore(s: State, own: seq<Step>, others: Interference, k: nat): State
    requires k <= |own|
  {
    Run(s, Weave(own[..k], others) + others(k))
  }

  /** Taking one more step extends the interleaved run. */
  lemma WeaveStep(s: State, own: seq<Step>, others: Interference, step: Step)
    ensures Run(s, Weave(own + [step], others)) == Next(Run(Run(s, Weave(own, others)), others(|own|)), step)
    ensures StateBefore(s, own, others, |own|) == Run(Run(s, Weave(own, others)), others(|own|))
  {
    assert (own + [step])[..|own|] == own && own[..|own|] == own;
    var before := Weave(own, others) + others(|own|);
    RunConcat(s, Weave(own, others), others(|own|));
    assert (before + [step])[..|before|] == before;
  }

  lemma FirstCall(s: State, others: Interference, step: Step)
    ensures Run(s, Weave([step], others)) == Next(Run(s, others(0)), step)
  {
    WeaveStep(s, [], others, step);
    assert Weave([], others) == [] && [] + [step] == [step];
  }

  /** The states around a process's calls: `before[k]` is the state call number k finds, after the others acted on
      `after[k]`, and `after[k + 1]` the state it leaves. */
  ghost predicate Leap(before: seq<State>, after: seq<State>, own: seq<Step>, others: Interference, k: nat)
    requires k < |own| == |before| && |after| == |own| + 1
  {
    before[k] == Run(after[k], others(k)) && after[k + 1] == Next(before[k], own[k])
  }

  ghost predicate IsTrail(before: seq<State>, after: seq<State>, own: seq<Step>, others: Interference) {
    |before| == |own| && |after| == |own| + 1 && forall k :: 0 <= k < |own| ==> Leap(before, after, own, others, k)
  }

  lemma TrailExtends(before: seq<State>, after: seq<State>, own: seq<Step>, others: Interference, found: State, left: State)
    requires own != [] && IsTrail(before, after, own[..|own| - 1], others)
    requires found == Run(after[|own| - 1], others(|own| - 1)) && left == Next(found, own[|own| - 1])
    ensures IsTrail(before + [found], after + [left], own, others)
  {
    var n, before', after' := |own| - 1, before + [found], after + [left];
    forall k | 0 <= k < |own|
      ensures Leap(before', after', own, others, k)
    {
      if k < n {
        assert Leap(before, after, own[..n], others, k);
      }
    }
  }

  lemma LastCall(s: State, own: seq<Step>, others: Interference, previous: State)
    requires own != [] && previous == Run(s, Weave(own[..|own| - 1], others))
    ensures Run(s, Weave(own, others)) == Next(Run(previous, others(|own| - 1)), own[|own| - 1])
  {
    var n := |own| - 1;
    WeaveStep(s, own[..n], others, own[n]);
    assert own[..n] + [own[n]] == own;
  }

  lemma {:induction false} TrailIsWoven(before: seq<State>, after: seq<State>, own: seq<Step>, others: Interference, k: nat)
    requires IsTrail(before, after, own, others) && k <= |own|
    ensures after[k] == Run(after[0], Weave(own[..k], others))
  {
    if k > 0 {
      TrailIsWoven(before, after, own, others, k - 1);
      assert Leap(before, after, own, others, k - 1);
      assert own[..k][..k - 1] == own[..k - 1];
      LastCall(after[0], own[..k], others, after[k - 1]);
    }
  }

  lemma TrailFinds(before: seq<State>, after: seq<State>, own: seq<Step>, others: Interference, k: nat)
    requires IsTrail(before, after, own, others) && k < |own|
    ensures StateBefore(after[0], own, others, k) == before[k]
  {
    TrailIsWoven(before, after, own, others, k);
    assert Leap(before, after, own, others, k);
    RunConcat(after[0], Weave(own[..k], others), others(k));
  }

  /** Every interleaved run has its trail. */
  lemma {:induction false} Trail(s: State, own: seq<Step>, others: Interference)
    returns (before: seq<State>, after: seq<State>)
    ensures IsTrail(before, after, own, others) && after[0] == s && after[|own|] == Run(s, Weave(own, others))
  {
    if own == [] {
      before, after := [], [s];
    } else {
      var n := |own| - 1;
      before, after := Trail(s, own[..n], others);
      LastCall(s, own, others, after[n]);
      var found, left := Run(after[n], others(n)), Run(s, Weave(own, others));
      TrailExtends(before, after, own, others, found, left);
      before, after := before + [found], after + [left];
    }
  }

  const PROCESSING_ERROR := "process game event"

  class Cluster {
    const outbox: Outbox.Repository
    const broker: JetStream.Client
    const inbox: Inbox.Repository
    const consumer: Consumer.GameConsumer
    var clock: Time
    // Bookkeeping about all processes, for the specification.
    var pending: map<nat, Event>
    var built: set<Event>
    var enqueued: set<Event>
    var dropped: set<Event>
    var commits: seq<Commit>

    constructor (clock: Time)
      ensures Wired() && View() == Init(clock)
      ensures fresh(outbox) && fresh(broker) && fresh(inbox)
    {
      var tables := new Inbox.Repository();
      outbox := new Outbox.Repository();
      broker := new JetStream.Client();
      inbox := tables;
      consumer := new Consumer.GameConsumer(tables);
      this.clock := clock;
      pending, built, enqueued, dropped, commits := map[], {}, {}, {}, [];
    }

    predicate Wired() { consumer.inbox == inbox }

    function View(): State
      reads this, outbox, broker, inbox
    {
      State(clock, pending, outbox.rows, broker.stream, broker.deadLetters, inbox.View(), PROCESSED_EVENT_RETENTION,
            built, enqueued, dropped, commits)
    }

    /** Any other processes take any steps. */
    method Interfere(steps: seq<Step>)
      modifies this, outbox, broker, inbox
      ensures View() == Run(old(View()), steps)
    {
      var s := Run(View(), steps);
      RunKeepsRetention(View(), steps);
      clock, pending, built, enqueued, dropped, commits := s.clock, s.pending, s.built, s.enqueued, s.dropped, s.commits;
      outbox.rows := s.outbox;
      broker.stream, broker.deadLetters := s.stream, s.deadLetters;
      inbox.markers, inbox.sessions := s.inbox.markers, s.inbox.sessions;
    }

    // ---------- one process's calls, each a step of the system ----------

    method Retain(instance: nat, e: Event) returns (ghost step: Step)
      requires Enabled(View(), Build(instance, e))
      modifies this
      ensures step == Build(instance, e) && View() == Next(old(View()), step)
    {
      step := Build(instance, e);
      pending, built := pending[instance := e], built + {e};
    }

    method Release(instance: nat) returns (ghost step: Step)
      requires Enabled(View(), Forget(instance))
      modifies this
      ensures step == Forget(instance) && View() == Next(old(View()), step)
    {
      step := Forget(instance);
      pending := pending - {instance};
    }

    method EnqueueEvent(e: Event, fault: Fault) returns (inserted: Result<bool>, ghost step: Step)
      requires Enabled(View(), Enqueue(e)) && e.id != "" && e.subject != ""
      modifies this, outbox
      ensures step == (if fault.Lands() then Enqueue(e) else Nothing) && View() == Next(old(View()), step)
      ensures inserted.Ok? <==> fault.Works?
    {
      step := if fault.Lands() then Enqueue(e) else Nothing;
      inserted := outbox.Enqueue(e, Outbox.Json, clock, fault);
      if fault.Lands() {
        enqueued := enqueued + {e};
      }
    }

    method ClaimPending(now: Time, until: Time, limit: nat, locked: set<string>, batch: seq<string>, fault: Fault)
      returns (events: Result<seq<Outbox.ClaimedEvent>>, ghost step: Step)
      requires now != ZERO_TIME && until != ZERO_TIME && now < until && limit > 0
      requires Enabled(View(), Claim(now, until, limit, locked, batch))
      modifies outbox
      ensures step == (if fault.Lands() then Claim(now, until, limit, locked, batch) else Nothing)
      ensures View() == Next(old(View()), step)
      ensures events.Ok? <==> fault.Works?
      ensures events.Ok? ==> events.value == Outbox.Claimed(old(outbox.rows), batch)
    {
      step := if fault.Lands() then Claim(now, until, limit, locked, batch) else Nothing;
      events := outbox.ClaimPending(now, until, limit, locked, batch, fault);
    }

    method PublishEvent(e: Event, remembered: bool, fault: Fault)
      returns (ack: Result<JetStream.PublishAck>, ghost step: Step)
      requires Enabled(View(), Publish(e, remembered)) && e.id != ""
      modifies broker
      ensures step == (if fault.Lands() then Publish(e, remembered) else Nothing) && View() == Next(old(View()), step)
      ensures ack.Ok? <==> fault.Works?
      ensures ack.Error? ==> ack.message == JetStream.PUBLISH_ERROR
      ensures ack.Ok? ==> JetStream.Holds(View().stream, e.id)
    {
      step := if fault.Lands() then Publish(e, remembered) else Nothing;
      ack := broker.PublishDurable(e.id, e, clock, remembered, fault);
    }

    method FinishEvent(id: string, at: Time, fault: Fault) returns (failure: Option<string>, ghost step: Step)
      requires Enabled(View(), MarkPublished(id, at)) && id != "" && at != ZERO_TIME
      modifies outbox
      ensures step == (if fault.Lands() then MarkPublished(id, at) else Nothing) && View() == Next(old(View()), step)
      ensures failure.None? <==> fault.Works? && Outbox.IsPending(old(outbox.rows), id)
    {
      step := if fault.Lands() then MarkPublished(id, at) else Nothing;
      failure := outbox.MarkPublished(id, at, fault);
    }

    method PostponeEvent(id: string, next: Time, reason: string, fault: Fault)
      returns (failure: Option<string>, ghost step: Step)
      requires id != "" && next != ZERO_TIME && reason != ""
      modifies outbox
      ensures step == (if fault.Lands() then MarkFailed(id, next, reason) else Nothing) && View() == Next(old(View()), step)
      ensures failure.None? <==> fault.Works? && Outbox.IsPending(old(outbox.rows), id)
    {
      step := if fault.Lands() then MarkFailed(id, next, reason) else Nothing;
      failure := outbox.MarkFailed(id, next, reason, fault);
    }

    /** The handler works under a deadline; past it the transaction is cancelled. */
    method HandleMessage(i: nat, fault: Fault) returns (failure: Option<string>, ghost step: Step)
      requires Wired() && i < |broker.stream|
      modifies this, inbox
      ensures step == (if fault.Lands() && Enabled(old(View()), Transact(i)) then Transact(i) else Nothing)
      ensures View() == Next(old(View()), step)
      ensures failure.None? <==> fault.Works? && Enabled(old(View()), Transact(i))
                                 && !Handled(old(View()).inbox, old(View()).stream[i].event, old(View()).clock).Rejected?
      ensures failure.None? ==> old(View()).clock - old(View()).stream[i].deliveredAt <= 10 * SECOND
    {
      var inTime := Enabled(View(), Transact(i));
      var outcomeOfCall := if inTime then fault else NoEffect;
      var e := broker.stream[i].event;
      step := if fault.Lands() && inTime then Transact(i) else Nothing;
      var applies := Handled(inbox.View(), e, clock).Applied?;
      failure := consumer.Handle(e.subject, e, clock, outcomeOfCall);
      if outcomeOfCall.Lands() && applies {
        commits := commits + [Commit(i, e, clock)];
      }
    }

    method AckMessage(i: nat, fault: Fault) returns (failed: bool, ghost step: Step)
      requires Enabled(View(), Ack(i))
      modifies broker
      ensures step == (if fault.Lands() then Ack(i) else Nothing) && View() == Next(old(View()), step)
      ensures failed <==> !fault.Works?
    {
      step := if fault.Lands() then Ack(i) else Nothing;
      failed := broker.Settle(i, JetStream.Acked, fault);
    }

    method BuryMessage(i: nat, recordId: string, count: nat, remembered: bool, fault: Fault)
      returns (ack: Result<JetStream.PublishAck>, ghost step: Step)
      requires Enabled(View(), Bury(i, recordId, count, remembered)) && recordId != ""
      requires broker.stream[i].event.subject != "" && clock != ZERO_TIME
      modifies broker
      ensures step == (if fault.Lands() then Bury(i, recordId, count, remembered) else Nothing)
      ensures View() == Next(old(View()), step)
      ensures ack.Ok? <==> fault.Works?
      ensures ack.Ok? ==> JetStream.HoldsRecord(View().deadLetters, JetStream.DeadLetterId(i))
    {
      step := if fault.Lands() then Bury(i, recordId, count, remembered) else Nothing;
      var letter := JetStream.GameDeadLetterEvent(recordId, clock, GAME_EVENT_VERSION, broker.stream[i].event, PROCESSING_ERROR,
                                                  count, STREAM_GAME_EVENTS, i + 1, CONSUMER_GAME_EVENTS);
      ack := broker.PublishGameDeadLetter(letter, remembered, fault);
    }

    method TerminateMessage(i: nat, fault: Fault) returns (failed: bool, ghost step: Step)
      requires Enabled(View(), Terminate(i))
      modifies broker
      ensures step == (if fault.Lands() then Terminate(i) else Nothing) && View() == Next(old(View()), step)
      ensures failed <==> !fault.Works?
    {
      step := if fault.Lands() then Terminate(i) else Nothing;
      failed := broker.Settle(i, JetStream.Terminated, fault);
    }

    method Republish(d: nat, remembered: bool, fault: Fault)
      returns (ack: Result<JetStream.PublishAck>, ghost step: Step)
      requires Enabled(View(), Replay(d, remembered))
      modifies broker
      ensures step == (if fault.Lands() then Replay(d, remembered) else Nothing) && View() == Next(old(View()), step)
      ensures ack.Ok? <==> fault.Works?
      ensures ack.Ok? ==> JetStream.Holds(View().stream, JetStream.ReplayId(View().deadLetters[d], d))
      ensures ack.Ok? ==> (ack.value.duplicate <==>
                             remembered && JetStream.Holds(old(View()).stream, JetStream.ReplayId(View().deadLetters[d], d)))
    {
      step := if fault.Lands() then Replay(d, remembered) else Nothing;
      var record := broker.deadLetters[d];
      ack := broker.PublishDurable(JetStream.ReplayId(record, d), record.event, clock, remembered, fault);
    }

    method RemoveRecord(d: nat, fault: Fault) returns (failure: Option<string>, ghost step: Step)
      requires Enabled(View(), DeleteRecord(d))
      modifies broker
      ensures step == (if fault.Lands() then DeleteRecord(d) else Nothing) && View() == Next(old(View()), step)
      ensures failure.None? ==> fault.Works?
      ensures failure.None? <==> fault.Works? && !old(View()).deadLetters[d].deleted
    {
      step := if fault.Lands() then DeleteRecord(d) else Nothing;
      failure := broker.DeleteGameDeadLetter(d + 1, fault);
    }

    /** The daily cleanup of inbox markers, driven by a clock that does not run ahead of the shared one. */
    method CleanUpMarkers(now: Time, fault: Fault) returns (deleted: Result<nat>, ghost step: Step)
      requires now <= clock
      modifies inbox
      ensures now == ZERO_TIME || now == PROCESSED_EVENT_RETENTION ==> deleted.Error? && step == Nothing
      ensures now != ZERO_TIME && now != PROCESSED_EVENT_RETENTION ==>
                && (deleted.Ok? <==> fault.Works?)
                && step == if fault.Lands() then PurgeMarkers(now - 30 * DAY) else Nothing
      ensures View() == Next(old(View()), step)
    {
      step := Nothing;
      if now == ZERO_TIME {
        return Error("cleanup time is required"), step;
      }
      var cutoff := now - PROCESSED_EVENT_RETENTION;
      deleted := inbox.DeleteProcessedBefore(cutoff, fault);
      if fault.Lands() && cutoff != ZERO_TIME {
        step := PurgeMarkers(cutoff);
      }
    }
  }
}
