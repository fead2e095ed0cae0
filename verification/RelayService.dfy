/** The outbox relay: claim a batch, publish each event, record what happened. */
module RelayService {
  import opened Common
  import opened Pipeline
  import opened PipelineInvariant
  import opened Deployment
  import JetStream
  import Outbox

  const BATCH_SIZE := 50
  const LEASE := 30 * SECOND
  const RETRY_INITIAL := 5 * SECOND
  const RETRY_MAXIMUM := 5 * MINUTE

  // ---------- backoff ----------

  function Power2(n: nat): nat { if n == 0 then 1 else 2 * Power2(n - 1) }

  function Min(a: int, b: int): int { if a < b then a else b }

  lemma {:induction false} Power2Grows(m: nat, n: nat)
    requires m <= n
    ensures Power2(m) <= Power2(n)
  {
    if m < n {
      Power2Grows(m, n - 1);
    }
  }

  /** The doubling loop computes five seconds times two to the number of attempts, capped at five minutes. */
  method OutboxRetryDelay(attempts: nat) returns (delay: int)
    ensures delay == Min(RETRY_INITIAL * Power2(attempts), RETRY_MAXIMUM)
  {
    delay := RETRY_INITIAL;
    var attempt := 0;
    while attempt < attempts && delay < RETRY_MAXIMUM
      invariant 0 <= attempt <= attempts
      invariant delay == RETRY_INITIAL * Power2(attempt) < RETRY_MAXIMUM
    {
      delay := delay * 2;
      Power2Grows(attempt + 1, attempts);
      if delay >= RETRY_MAXIMUM {
        return RETRY_MAXIMUM;
      }
      attempt := attempt + 1;
    }
  }

  function RetryDelay(attempts: nat): int {
    Min(RETRY_INITIAL * Power2(attempts), RETRY_MAXIMUM)
  }

  /** It takes six failures to reach the longest delay. */
  lemma DelayInSeconds(attempts: nat)
    ensures RetryDelay(attempts) == if attempts < 6 then 5 * Power2(attempts) * SECOND else 300 * SECOND
  {
    assert Power2(5) == 32 && Power2(6) == 64;
    if attempts < 6 {
      Power2Grows(attempts, 5);
    } else {
      Power2Grows(6, attempts);
    }
  }

  /** A relay claims up to fifty events, and fewer only when no other could be claimed. */
  lemma BatchIsFullOrAll(rows: Outbox.Rows, now: Time, locked: set<string>, batch: seq<string>)
    requires Outbox.ValidClaim(rows, now, BATCH_SIZE, locked, batch)
    ensures |batch| <= 50
    ensures forall id :: Outbox.PassedOver(rows, now, locked, batch, id) ==> |batch| == 50
  {
    forall id | Outbox.PassedOver(rows, now, locked, batch, id)
      ensures |batch| == 50
    {
      assert Outbox.Claimable(rows, now, locked, id);
    }
  }

  // ---------- one cycle ----------

  /** How the two calls made for one event end. */
  datatype Fate = Fate(remembered: bool, publish: Fault, mark: Fault)

  type Fates = string -> Fate

  datatype RelayResult = RelayResult(claimed: nat, published: nat, failed: nat)

  /** The calls made for one claimed event: always a publication and then one mark. */
  function EventSteps(e: Outbox.ClaimedEvent, now: Time, fates: Fates): seq<Step> {
    var fate := fates(e.event.id);
    [ if fate.publish.Lands() then Publish(e.event, fate.remembered) else Nothing,
      if !fate.mark.Lands() then Nothing
      else if fate.publish.Works? then MarkPublished(e.event.id, now)
      else MarkFailed(e.event.id, now + RetryDelay(e.attempts), JetStream.PUBLISH_ERROR) ]
  }

  function BatchSteps(events: seq<Outbox.ClaimedEvent>, now: Time, fates: Fates): (steps: seq<Step>)
    ensures |steps| == 2 * |events|
  {
    if events == [] then []
    else
      var n := |events| - 1;
      BatchSteps(events[..n], now, fates) + EventSteps(events[n], now, fates)
  }

  function ClaimStep(now: Time, locked: set<string>, batch: seq<string>, fault: Fault): Step {
    if fault.Lands() then Claim(now, now + LEASE, BATCH_SIZE, locked, batch) else Nothing
  }

  /** The mark of event `i` succeeds when its call works and still finds the row pending. */
  predicate Marked(s: State, own: seq<Step>, others: Interference,
                   events: seq<Outbox.ClaimedEvent>, fates: Fates, i: nat)
    requires i < |events| && 2 + 2 * i <= |own|
  {
    var id := events[i].event.id;
    fates(id).mark.Works? && Outbox.IsPending(StateBefore(s, own, others, 2 + 2 * i).outbox, id)
  }

  /** How many events count as published, and whether every mark succeeded. */
  datatype Tally = Tally(published: nat, clean: bool) {
    function Add(published: bool, marked: bool): Tally {
      Tally(this.published + if published && marked then 1 else 0, clean && marked)
    }
  }

  function Count(s: State, own: seq<Step>, others: Interference,
                 events: seq<Outbox.ClaimedEvent>, fates: Fates, n: nat): Tally
    requires n <= |events| && 1 + 2 * n <= |own|
  {
    if n == 0 then Tally(0, true)
    else Count(s, own, others, events, fates, n - 1)
           .Add(fates(events[n - 1].event.id).publish.Works?, Marked(s, own, others, events, fates, n - 1))
  }

  lemma MarkedAt(s: State, own: seq<Step>, others: Interference, events: seq<Outbox.ClaimedEvent>, fates: Fates,
                 i: nat, middle: State)
    requires i < |events| && 2 + 2 * i <= |own| && StateBefore(s, own, others, 2 + 2 * i) == middle
    ensures Marked(s, own, others, events, fates, i) <==>
              fates(events[i].event.id).mark.Works? && Outbox.IsPending(middle.outbox, events[i].event.id)
  {
  }

  lemma CountIs(s: State, own: seq<Step>, others: Interference, events: seq<Outbox.ClaimedEvent>, fates: Fates, i: nat)
    requires i < |events| && 3 + 2 * i <= |own|
    ensures Count(s, own, others, events, fates, i + 1)
            == Count(s, own, others, events, fates, i)
                 .Add(fates(events[i].event.id).publish.Works?, Marked(s, own, others, events, fates, i))
  {
  }

  /** The events, of the first `n`, whose publication was confirmed and whose mark succeeded; `marked` says which did. */
  function Finished(events: seq<Outbox.ClaimedEvent>, fates: Fates, marked: seq<bool>, n: nat): set<int>
    requires n <= |events| && n <= |marked|
  {
    set i | 0 <= i < n && fates(events[i].event.id).publish.Works? && marked[i]
  }

  lemma FinishedGrows(events: seq<Outbox.ClaimedEvent>, fates: Fates, marked: seq<bool>, k: nat)
    requires k < |events| && k < |marked|
    ensures |Finished(events, fates, marked, k + 1)|
            == |Finished(events, fates, marked, k)|
               + if fates(events[k].event.id).publish.Works? && marked[k] then 1 else 0
  {
    var before, after := Finished(events, fates, marked, k), Finished(events, fates, marked, k + 1);
    assert after == if fates(events[k].event.id).publish.Works? && marked[k] then before + {k} else before;
  }

  /** The tally is what its names say: so many confirmed publications with their mark, and clean when no mark failed. */
  lemma {:induction false} CountMeans(s: State, own: seq<Step>, others: Interference, events: seq<Outbox.ClaimedEvent>,
                                      fates: Fates, n: nat, marked: seq<bool>)
    requires n <= |events| && 1 + 2 * n <= |own| && n <= |marked|
    requires forall i :: 0 <= i < n ==> (marked[i] <==> Marked(s, own, others, events, fates, i))
    ensures var tally := Count(s, own, others, events, fates, n);
            && tally.published == |Finished(events, fates, marked, n)|
            && (tally.clean <==> forall i :: 0 <= i < n ==> marked[i])
  {
    if n > 0 {
      var k := n - 1;
      CountMeans(s, own, others, events, fates, k, marked);
      CountIs(s, own, others, events, fates, k);
      FinishedGrows(events, fates, marked, k);
    }
  }

  lemma MarkedIgnoresLaterSteps(s: State, own: seq<Step>, more: seq<Step>, others: Interference,
                                events: seq<Outbox.ClaimedEvent>, fates: Fates, i: nat)
    requires i < |events| && 2 + 2 * i <= |own|
    ensures Marked(s, own + more, others, events, fates, i) == Marked(s, own, others, events, fates, i)
  {
    assert (own + more)[..2 + 2 * i] == own[..2 + 2 * i];
    MarkedAt(s, own + more, others, events, fates, i, StateBefore(s, own, others, 2 + 2 * i));
  }

  lemma SameMarkSameCount(s: State, own: seq<Step>, own': seq<Step>, others: Interference,
                          events: seq<Outbox.ClaimedEvent>, fates: Fates, i: nat)
    requires i < |events| && 3 + 2 * i <= |own| && 3 + 2 * i <= |own'|
    requires Count(s, own, others, events, fates, i) == Count(s, own', others, events, fates, i)
    requires Marked(s, own, others, events, fates, i) == Marked(s, own', others, events, fates, i)
    ensures Count(s, own, others, events, fates, i + 1) == Count(s, own', others, events, fates, i + 1)
  {
    CountIs(s, own, others, events, fates, i);
    CountIs(s, own', others, events, fates, i);
  }

  lemma {:induction false} CountIgnoresLaterSteps(s: State, own: seq<Step>, more: seq<Step>, others: Interference,
                                                  events: seq<Outbox.ClaimedEvent>, fates: Fates, n: nat)
    requires n <= |events| && 1 + 2 * n <= |own|
    ensures Count(s, own + more, others, events, fates, n) == Count(s, own, others, events, fates, n)
  {
    if n > 0 {
      MarkedIgnoresLaterSteps(s, own, more, others, events, fates, n - 1);
      CountIgnoresLaterSteps(s, own, more, others, events, fates, n - 1);
      SameMarkSameCount(s, own + more, own, others, events, fates, n - 1);
    }
  }

  lemma BatchStepsExtend(events: seq<Outbox.ClaimedEvent>, now: Time, fates: Fates, i: nat)
    requires i < |events|
    ensures BatchSteps(events[..i + 1], now, fates) == BatchSteps(events[..i], now, fates) + EventSteps(events[i], now, fates)
  {
    assert events[..i + 1][..i] == events[..i];
  }

  lemma CallsExtend(claim: seq<Step>, events: seq<Outbox.ClaimedEvent>, now: Time, fates: Fates, i: nat)
    requires i < |events|
    ensures claim + BatchSteps(events[..i], now, fates) + EventSteps(events[i], now, fates)
            == claim + BatchSteps(events[..i + 1], now, fates)
  {
    BatchStepsExtend(events, now, fates, i);
  }

  lemma CountGrows(s: State, own: seq<Step>, longer: seq<Step>, others: Interference,
                   events: seq<Outbox.ClaimedEvent>, fates: Fates, i: nat)
    requires i < |events| && |own| == 1 + 2 * i && |longer| == 3 + 2 * i && own <= longer
    ensures Count(s, longer, others, events, fates, i + 1)
            == Count(s, own, others, events, fates, i)
                 .Add(fates(events[i].event.id).publish.Works?, Marked(s, longer, others, events, fates, i))
  {
    CountIs(s, longer, others, events, fates, i);
    CountIgnoresLaterSteps(s, own, longer[|own|..], others, events, fates, i);
    assert own + longer[|own|..] == longer;
  }

  class OutboxRelayService {
    const cluster: Cluster

    constructor (cluster: Cluster)
      ensures this.cluster == cluster
    {
      this.cluster := cluster;
    }

    /** One relay cycle among any number of other processes. Its own calls are exactly one claim and, for each claimed
        event in turn, one publication and one mark; interleaved with what the others do they form a run of the system. */
    method RelayOnce(now: Time, locked: set<string>, batch: seq<string>, claim: Fault, fates: Fates, others: Interference)
      returns (result: RelayResult, error: bool, ghost own: seq<Step>, ghost events: seq<Outbox.ClaimedEvent>)
      requires now >= ZERO_TIME
      requires Inv(cluster.View())
      requires Outbox.ValidClaim(Run(cluster.View(), others(0)).outbox, now, BATCH_SIZE, locked, batch)
      modifies cluster, cluster.outbox, cluster.broker, cluster.inbox
      ensures now == ZERO_TIME ==> own == [] && error && result == RelayResult(0, 0, 0) && cluster.View() == old(cluster.View())
      ensures now != ZERO_TIME ==> cluster.View() == Run(old(cluster.View()), Weave(own, others))
      ensures now != ZERO_TIME && !claim.Works? ==>
                own == [ClaimStep(now, locked, batch, claim)] && error && result == RelayResult(0, 0, 0)
      ensures now != ZERO_TIME && claim.Works? ==>
                && events == Outbox.Claimed(Run(old(cluster.View()), others(0)).outbox, batch)
                && own == [ClaimStep(now, locked, batch, claim)] + BatchSteps(events, now, fates)
                && result.claimed == |batch|
                && Tally(result.published, !error) == Count(old(cluster.View()), own, others, events, fates, |batch|)
                && result.claimed == result.published + result.failed
    {
      result, error, own, events := RelayResult(0, 0, 0), true, [], [];
      if now == ZERO_TIME {
        return;
      }
      ghost var start := cluster.View();
      var answer: Result<seq<Outbox.ClaimedEvent>>;
      answer, own := ClaimBatch(now, locked, batch, claim, others);
      if answer.Ok? {
        events := answer.value;
        result, error, own := RelayBatch(answer.value, now, fates, others, start, own);
      }
    }

    method ClaimBatch(now: Time, locked: set<string>, batch: seq<string>, claim: Fault, others: Interference)
      returns (answer: Result<seq<Outbox.ClaimedEvent>>, ghost own: seq<Step>)
      requires now > ZERO_TIME
      requires Inv(cluster.View())
      requires Outbox.ValidClaim(Run(cluster.View(), others(0)).outbox, now, BATCH_SIZE, locked, batch)
      modifies cluster, cluster.outbox, cluster.broker, cluster.inbox
      ensures own == [ClaimStep(now, locked, batch, claim)]
      ensures cluster.View() == Run(old(cluster.View()), Weave(own, others))
      ensures answer.Ok? <==> claim.Works?
      ensures answer.Ok? ==> answer.value == Outbox.Claimed(Run(old(cluster.View()), others(0)).outbox, batch)
      ensures answer.Ok? ==> forall e :: e in answer.value ==> e.event in cluster.enqueued && e.event.id != ""
    {
      ghost var start := cluster.View();
      ClaimedEventsStayKnown(start, others(0), batch);
      cluster.Interfere(others(0));
      ghost var step: Step;
      answer, step := cluster.ClaimPending(now, now + LEASE, BATCH_SIZE, locked, batch, claim);
      own := [step];
      FirstCall(start, others, step);
    }

    method RelayBatch(claimed: seq<Outbox.ClaimedEvent>, now: Time, fates: Fates, others: Interference,
                      ghost start: State, ghost before: seq<Step>)
      returns (result: RelayResult, error: bool, ghost own: seq<Step>)
      requires now > ZERO_TIME && |before| == 1
      requires cluster.View() == Run(start, Weave(before, others))
      requires forall e :: e in claimed ==> e.event in cluster.enqueued && e.event.id != ""
      modifies cluster, cluster.outbox, cluster.broker, cluster.inbox
      ensures own == before + BatchSteps(claimed, now, fates)
      ensures cluster.View() == Run(start, Weave(own, others))
      ensures result.claimed == |claimed| == result.published + result.failed
      ensures Tally(result.published, !error) == Count(start, own, others, claimed, fates, |claimed|)
    {
      var published, failed := 0, 0;
      error, own := false, before;
      var i := 0;
      while i < |claimed|
        invariant 0 <= i <= |claimed| && published + failed == i
        invariant cluster.View() == Run(start, Weave(own, others))
        invariant own == before + BatchSteps(claimed[..i], now, fates)
        invariant forall e :: e in claimed ==> e.event in cluster.enqueued && e.event.id != ""
        invariant Tally(published, !error) == Count(start, own, others, claimed, fates, i)
      {
        var ok;
        ghost var shorter := own;
        ghost var middle: State;
        ok, own, middle := RelayNext(claimed, i, now, fates, others, start, before, own);
        MarkedAt(start, own, others, claimed, fates, i, middle);
        CountGrows(start, shorter, own, others, claimed, fates, i);
        error := error || !ok;
        if ok && fates(claimed[i].event.id).publish.Works? {
          published := published + 1;
        } else {
          failed := failed + 1;
        }
        i := i + 1;
      }
      assert claimed[..i] == claimed;
      result := RelayResult(|claimed|, published, failed);
    }

    /** The body of the loop as it extends the run so far; `middle` is the state its mark finds. */
    method RelayNext(claimed: seq<Outbox.ClaimedEvent>, i: nat, now: Time, fates: Fates, others: Interference,
                     ghost start: State, ghost claim: seq<Step>, ghost before: seq<Step>)
      returns (ok: bool, ghost own: seq<Step>, ghost middle: State)
      requires now > ZERO_TIME && i < |claimed| && |claim| == 1
      requires before == claim + BatchSteps(claimed[..i], now, fates)
      requires cluster.View() == Run(start, Weave(before, others))
      requires claimed[i].event in cluster.enqueued && claimed[i].event.id != ""
      modifies cluster, cluster.outbox, cluster.broker, cluster.inbox
      ensures old(cluster.enqueued) <= cluster.enqueued
      ensures own == claim + BatchSteps(claimed[..i + 1], now, fates)
      ensures cluster.View() == Run(start, Weave(own, others))
      ensures before <= own && middle == StateBefore(start, own, others, 2 + 2 * i)
      ensures ok <==> fates(claimed[i].event.id).mark.Works? && Outbox.IsPending(middle.outbox, claimed[i].event.id)
    {
      ghost var found := cluster.View();
      ghost var two: seq<Step>;
      ok, two, middle := RelayEvent(claimed[i], now, fates, others, 1 + 2 * i);
      own := before + two;
      EventFollows(start, claim, claimed, now, fates, others, i, before, two, found, middle, cluster.View());
    }

    /** The calls made for one event; `k` is the number of calls this cycle made before, and `middle` the state that
        its mark finds. */
    method RelayEvent(e: Outbox.ClaimedEvent, now: Time, fates: Fates, others: Interference, k: nat)
      returns (ok: bool, ghost steps: seq<Step>, ghost middle: State)
      requires now > ZERO_TIME
      requires e.event.id != "" && e.event in cluster.enqueued
      modifies cluster, cluster.outbox, cluster.broker, cluster.inbox
      ensures old(cluster.enqueued) <= cluster.enqueued
      ensures steps == EventSteps(e, now, fates)
      ensures middle == Run(Next(Run(old(cluster.View()), others(k)), steps[0]), others(k + 1))
      ensures cluster.View() == Next(middle, steps[1])
      ensures ok <==> fates(e.event.id).mark.Works? && Outbox.IsPending(middle.outbox, e.event.id)
    {
      var id, fate := e.event.id, fates(e.event.id);
      RunKeepsFacts(cluster.View(), others(k));
      cluster.Interfere(others(k));
      var ack, first := cluster.PublishEvent(e.event, fate.remembered, fate.publish);
      ghost var second: Step;
      middle := Run(cluster.View(), others(k + 1));
      ok, second := MarkEvent(e, now, ack, fate.mark, others(k + 1));
      steps := [first, second];
    }

    method MarkEvent(e: Outbox.ClaimedEvent, now: Time, ack: Result<JetStream.PublishAck>, fault: Fault, others: seq<Step>)
      returns (ok: bool, ghost step: Step)
      requires now > ZERO_TIME && e.event.id != ""
      requires ack.Ok? ==> JetStream.Holds(cluster.View().stream, e.event.id)
      requires ack.Error? ==> ack.message == JetStream.PUBLISH_ERROR
      modifies cluster, cluster.outbox, cluster.broker, cluster.inbox
      ensures old(cluster.enqueued) <= cluster.enqueued
      ensures step == if !fault.Lands() then Nothing
                      else if ack.Ok? then MarkPublished(e.event.id, now)
                      else MarkFailed(e.event.id, now + RetryDelay(e.attempts), JetStream.PUBLISH_ERROR)
      ensures cluster.View() == Next(Run(old(cluster.View()), others), step)
      ensures ok <==> fault.Works? && Outbox.IsPending(Run(old(cluster.View()), others).outbox, e.event.id)
    {
      RunKeepsFacts(cluster.View(), others);
      cluster.Interfere(others);
      var failure: Option<string>;
      if ack.Error? {
        var delay := OutboxRetryDelay(e.attempts);
        failure, step := cluster.PostponeEvent(e.event.id, now + delay, ack.message, fault);
      } else {
        failure, step := cluster.FinishEvent(e.event.id, now, fault);
      }
      ok := failure.None?;
    }
  }

  lemma ClaimedEventsAreKnown(s: State, batch: seq<string>)
    requires Inv(s) && forall id :: id in batch ==> id in s.outbox
    ensures forall e :: e in Outbox.Claimed(s.outbox, batch) ==> e.event in s.enqueued && e.event.id != ""
  {
  }

  lemma ClaimedEventsStayKnown(s: State, steps: seq<Step>, batch: seq<string>)
    requires Inv(s) && forall id :: id in batch ==> id in Run(s, steps).outbox
    ensures forall e :: e in Outbox.Claimed(Run(s, steps).outbox, batch) ==>
              e.event in Run(s, steps).enqueued && e.event.id != ""
  {
    RunKeepsInv(s, steps);
    ClaimedEventsAreKnown(Run(s, steps), batch);
  }

  /** The calls of event `i` after those of the events before it. */
  lemma EventFollows(s: State, claim: seq<Step>, events: seq<Outbox.ClaimedEvent>, now: Time, fates: Fates,
                     others: Interference, i: nat, before: seq<Step>, two: seq<Step>, found: State, middle: State, left: State)
    requires |claim| == 1 && i < |events| && before == claim + BatchSteps(events[..i], now, fates)
    requires two == EventSteps(events[i], now, fates) && found == Run(s, Weave(before, others))
    requires middle == Run(Next(Run(found, others(1 + 2 * i)), two[0]), others(2 + 2 * i)) && left == Next(middle, two[1])
    ensures before <= before + two && before + two == claim + BatchSteps(events[..i + 1], now, fates)
    ensures left == Run(s, Weave(before + two, others)) && middle == StateBefore(s, before + two, others, 2 + 2 * i)
  {
    CallsExtend(claim, events, now, fates, i);
    TwoMoreCalls(s, before, others, two, found, middle, left);
  }

  /** Two more calls: `found` is the state before them, `middle` the state the second finds, `left` the state after. */
  lemma TwoMoreCalls(s: State, own: seq<Step>, others: Interference, two: seq<Step>, found: State, middle: State, left: State)
    requires |two| == 2 && found == Run(s, Weave(own, others))
    requires middle == Run(Next(Run(found, others(|own|)), two[0]), others(|own| + 1)) && left == Next(middle, two[1])
    ensures left == Run(s, Weave(own + two, others))
    ensures middle == StateBefore(s, own + two, others, |own| + 1)
  {
    WeaveStep(s, own, others, two[0]);
    WeaveStep(s, own + [two[0]], others, two[1]);
    assert own + two == own + [two[0]] + [two[1]];
    assert (own + two)[..|own| + 1] == (own + [two[0]])[..|own| + 1];
  }
}
