/** A turn of RelayOnce among other relays: if its calls come before its deadline, it holds every event it marks. */
module RelayDeadlines {
  import opened Common
  import opened Outbox
  import opened RelayService
  import opened LeasedRelays
  import opened RelayAccounting
  import opened PipelineInvariant
  import P = Pipeline
  import L = Leases
  import D = Deployment
  import JetStream

  /** The pipeline and its leases, step by step together. */
  datatype Both = Both(p: P.State, l: L.State)

  type Labels = nat -> seq<Labelled>

  function NextBoth(b: Both, timeout: int, x: Labelled): Both {
    Both(P.Next(b.p, x.step), L.Next(b.l, timeout, x.lease))
  }

  function RunBoth(b: Both, timeout: int, xs: seq<Labelled>): Both {
    if xs == [] then b else NextBoth(RunBoth(b, timeout, xs[..|xs| - 1]), timeout, xs[|xs| - 1])
  }

  ghost predicate AllInTime(b: Both, timeout: int, xs: seq<Labelled>) {
    xs == [] ||
    (AllInTime(b, timeout, xs[..|xs| - 1])
     && var c := RunBoth(b, timeout, xs[..|xs| - 1]); InTime(c.p, c.l, timeout, xs[|xs| - 1]))
  }

  /** Not a step of this relay. */
  predicate OfOthers(x: Labelled, relay: nat) {
    match x.lease
    case Begin(r, _, _, _) => r != relay
    case Finish(r, _, _, _) => r != relay
    case Postpone(r, _, _, _, _) => r != relay
    case GiveUp(r) => r != relay
    case _ => true
  }

  ghost predicate Fit(b: Both, timeout: int) {
    SameRows(b.p, b.l) && L.LeasesKept(b.l, timeout) && L.Exclusive(b.l, timeout)
  }

  lemma StepKeepsFit(b: Both, timeout: int, x: Labelled)
    requires timeout <= LEASE && Fit(b, timeout) && InTime(b.p, b.l, timeout, x)
    ensures Fit(NextBoth(b, timeout, x), timeout)
  {
    StepKeepsSameRows(b.p, b.l, timeout, x);
    L.NextKeepsExclusive(b.l, timeout, x.lease);
    forall relay, id | L.Holds(L.Next(b.l, timeout, x.lease), timeout, relay, id)
      ensures L.LeaseKept(L.Next(b.l, timeout, x.lease), timeout, relay, id)
    {
      L.NextKeepsLease(b.l, timeout, x.lease, relay, id);
    }
  }

  lemma OtherStepKeepsCycle(l: L.State, timeout: int, x: Labelled, relay: nat)
    requires OfOthers(x, relay) && relay in l.cycles
    ensures relay in L.Next(l, timeout, x.lease).cycles && L.Next(l, timeout, x.lease).cycles[relay] == l.cycles[relay]
  {
  }

  lemma {:induction false} OthersKeepFit(b: Both, timeout: int, xs: seq<Labelled>)
    requires timeout <= LEASE && Fit(b, timeout) && AllInTime(b, timeout, xs)
    ensures Fit(RunBoth(b, timeout, xs), timeout)
  {
    if xs != [] {
      var prefix := xs[..|xs| - 1];
      OthersKeepFit(b, timeout, prefix);
      StepKeepsFit(RunBoth(b, timeout, prefix), timeout, xs[|xs| - 1]);
    }
  }

  lemma {:induction false} OthersKeepCycle(b: Both, timeout: int, xs: seq<Labelled>, relay: nat)
    requires (forall x :: x in xs ==> OfOthers(x, relay)) && relay in b.l.cycles
    ensures var l := RunBoth(b, timeout, xs).l; relay in l.cycles && l.cycles[relay] == b.l.cycles[relay]
  {
    if xs != [] {
      var prefix := xs[..|xs| - 1];
      OthersKeepCycle(b, timeout, prefix, relay);
      OtherStepKeepsCycle(RunBoth(b, timeout, prefix).l, timeout, xs[|xs| - 1], relay);
    }
  }

  lemma {:induction false} RunBothRuns(b: Both, timeout: int, xs: seq<Labelled>)
    ensures RunBoth(b, timeout, xs).p == P.Run(b.p, Steps(xs))
  {
    if xs != [] {
      var n := |xs| - 1;
      RunBothRuns(b, timeout, xs[..n]);
      assert Steps(xs)[..n] == Steps(xs[..n]);
    }
  }

  // ---------- one event of the batch ----------

  /** The relay's cycle goes on and still holds the events of the batch from number `n` on. */
  ghost predicate Holding(b: Both, timeout: int, relay: nat, now: Time, batch: seq<string>, n: nat) {
    && Fit(b, timeout) && relay in b.l.cycles && b.l.cycles[relay].now == now
    && forall i :: n <= i < |batch| ==> batch[i] in b.l.cycles[relay].held
  }

  lemma OthersKeepHolding(b: Both, timeout: int, xs: seq<Labelled>, relay: nat, now: Time, batch: seq<string>, n: nat)
    requires timeout <= LEASE && Holding(b, timeout, relay, now, batch, n)
    requires AllInTime(b, timeout, xs) && forall x :: x in xs ==> OfOthers(x, relay)
    ensures Holding(RunBoth(b, timeout, xs), timeout, relay, now, batch, n)
    ensures b.p.enqueued <= RunBoth(b, timeout, xs).p.enqueued
    ensures forall id :: JetStream.Holds(b.p.stream, id) ==> JetStream.Holds(RunBoth(b, timeout, xs).p.stream, id)
  {
    OthersKeepFit(b, timeout, xs);
    OthersKeepCycle(b, timeout, xs, relay);
    RunBothRuns(b, timeout, xs);
    RunKeepsFacts(b.p, Steps(xs));
  }

  function ClaimLabel(relay: nat, now: Time, locked: set<string>, batch: seq<string>): Labelled {
    Labelled(ClaimStep(now, locked, batch, Works), L.Begin(relay, now, locked, batch))
  }

  function PublishLabel(e: ClaimedEvent, now: Time, fates: Fates): Labelled {
    Labelled(EventSteps(e, now, fates)[0], L.Tick(0))
  }

  function MarkLabel(relay: nat, e: ClaimedEvent, now: Time, fates: Fates): Labelled {
    Labelled(EventSteps(e, now, fates)[1], MarkOf(relay, e, now, fates(e.event.id)))
  }

  lemma ClaimIsInTime(b: Both, timeout: int, relay: nat, now: Time, locked: set<string>, batch: seq<string>)
    requires timeout <= LEASE && Fit(b, timeout) && !L.Live(b.l, timeout, relay)
    requires now <= b.l.clock < now + timeout && ValidClaim(b.p.outbox, now, BATCH_SIZE, locked, batch)
    ensures InTime(b.p, b.l, timeout, ClaimLabel(relay, now, locked, batch))
    ensures Holding(NextBoth(b, timeout, ClaimLabel(relay, now, locked, batch)), timeout, relay, now, batch, 0)
  {
    StepKeepsFit(b, timeout, ClaimLabel(relay, now, locked, batch));
  }

  lemma PublishIsInTime(b: Both, timeout: int, relay: nat, now: Time, batch: seq<string>, n: nat, e: ClaimedEvent, fates: Fates)
    requires timeout <= LEASE && Holding(b, timeout, relay, now, batch, n) && e.event in b.p.enqueued
    ensures InTime(b.p, b.l, timeout, PublishLabel(e, now, fates))
    ensures var c := NextBoth(b, timeout, PublishLabel(e, now, fates));
            Holding(c, timeout, relay, now, batch, n) && c.p.enqueued == b.p.enqueued
            && (fates(e.event.id).publish.Works? ==> JetStream.Holds(c.p.stream, e.event.id))
  {
    PublishKeepsRows(b.p, e, now, fates);
    StepKeepsFit(b, timeout, PublishLabel(e, now, fates));
    assert L.Next(b.l, timeout, L.Tick(0)) == b.l;
  }

  lemma MarkIsInTime(b: Both, timeout: int, relay: nat, now: Time, batch: seq<string>, n: nat, e: ClaimedEvent, fates: Fates)
    requires timeout <= LEASE && Holding(b, timeout, relay, now, batch, n) && b.l.clock < now + timeout
    requires n < |batch| && Distinct(batch) && e.event.id == batch[n]
    requires fates(batch[n]).publish.Works? ==> JetStream.Holds(b.p.stream, batch[n])
    ensures InTime(b.p, b.l, timeout, MarkLabel(relay, e, now, fates))
    ensures IsPending(b.p.outbox, batch[n])
    ensures Holding(NextBoth(b, timeout, MarkLabel(relay, e, now, fates)), timeout, relay, now, batch, n + 1)
  {
    assert L.Holds(b.l, timeout, relay, batch[n]);
    assert L.LeaseKept(b.l, timeout, relay, batch[n]);
    StepKeepsFit(b, timeout, MarkLabel(relay, e, now, fates));
  }

  // ---------- the whole turn ----------

  /** The states around the relay's calls, as in Deployment, with the others' steps labelled and in time. */
  ghost predicate Leap(before: seq<Both>, after: seq<Both>, own: seq<Labelled>, others: Labels, timeout: int, relay: nat, k: nat)
    requires k < |own| == |before| && |after| == |own| + 1
  {
    && before[k] == RunBoth(after[k], timeout, others(k)) && after[k + 1] == NextBoth(before[k], timeout, own[k])
    && AllInTime(after[k], timeout, others(k)) && forall x :: x in others(k) ==> OfOthers(x, relay)
  }

  ghost predicate IsTrail(before: seq<Both>, after: seq<Both>, own: seq<Labelled>, others: Labels, timeout: int, relay: nat) {
    |before| == |own| && |after| == |own| + 1
    && forall k :: 0 <= k < |own| ==> Leap(before, after, own, others, timeout, relay, k)
  }

  ghost predicate CallsOf(own: seq<Labelled>, relay: nat, events: seq<ClaimedEvent>, now: Time, fates: Fates, i: nat)
    requires i < |events| && |own| == 1 + 2 * |events|
  {
    own[1 + 2 * i] == PublishLabel(events[i], now, fates) && own[2 + 2 * i] == MarkLabel(relay, events[i], now, fates)
  }

  /** The calls of RelayOnce, as steps of both systems. */
  ghost predicate RelayLabels(own: seq<Labelled>, relay: nat, now: Time, locked: set<string>, batch: seq<string>,
                              events: seq<ClaimedEvent>, fates: Fates) {
    && |own| == 1 + 2 * |events| && own[0] == ClaimLabel(relay, now, locked, batch)
    && forall i :: 0 <= i < |events| ==> CallsOf(own, relay, events, now, fates, i)
  }

  function BatchLabels(relay: nat, events: seq<ClaimedEvent>, now: Time, fates: Fates): seq<Labelled> {
    seq(2 * |events|, j requires 0 <= j < 2 * |events| =>
      if j % 2 == 0 then PublishLabel(events[j / 2], now, fates) else MarkLabel(relay, events[j / 2], now, fates))
  }

  lemma BatchLabelsAre(relay: nat, events: seq<ClaimedEvent>, now: Time, fates: Fates)
    ensures Steps(BatchLabels(relay, events, now, fates)) == BatchSteps(events, now, fates)
  {
    var labels, steps := BatchLabels(relay, events, now, fates), BatchSteps(events, now, fates);
    forall j | 0 <= j < 2 * |events|
      ensures Steps(labels)[j] == steps[j]
    {
      BatchStepsAt(events, now, fates, j / 2);
      assert j == 2 * (j / 2) || j == 2 * (j / 2) + 1;
    }
  }

  /** The calls RelayOnce makes have such labels. */
  lemma RelayOnceIsLabelled(relay: nat, now: Time, locked: set<string>, batch: seq<string>, events: seq<ClaimedEvent>,
                            fates: Fates) returns (own: seq<Labelled>)
    ensures RelayLabels(own, relay, now, locked, batch, events, fates)
    ensures Steps(own) == [ClaimStep(now, locked, batch, Works)] + BatchSteps(events, now, fates)
  {
    var labels := BatchLabels(relay, events, now, fates);
    BatchLabelsAre(relay, events, now, fates);
    own := [ClaimLabel(relay, now, locked, batch)] + labels;
    forall i | 0 <= i < |events|
      ensures CallsOf(own, relay, events, now, fates, i)
    {
      assert own[1 + 2 * i] == labels[2 * i] && own[2 + 2 * i] == labels[2 * i + 1];
      assert (2 * i) / 2 == i && (2 * i + 1) / 2 == i;
    }
  }

  /** The relay begins a cycle and makes every call before the deadline of that cycle. */
  ghost predicate TurnInTime(before: seq<Both>, after: seq<Both>, own: seq<Labelled>, others: Labels, timeout: int, relay: nat,
                             now: Time, locked: set<string>, batch: seq<string>, fates: Fates) {
    && IsTrail(before, after, own, others, timeout, relay) && own != []
    && Fit(after[0], timeout) && Identified(before[0].p)
    && ValidClaim(before[0].p.outbox, now, BATCH_SIZE, locked, batch)
    && RelayLabels(own, relay, now, locked, batch, Claimed(before[0].p.outbox, batch), fates)
    && !L.Live(before[0].l, timeout, relay) && now <= before[0].l.clock
    && forall k :: 0 <= k < |own| ==> before[k].l.clock < now + timeout
  }

  /** The i-th event, its two calls, and what the claim knew of it. */
  lemma TurnEvent(before: seq<Both>, after: seq<Both>, own: seq<Labelled>, others: Labels, timeout: int, relay: nat,
                  now: Time, locked: set<string>, batch: seq<string>, fates: Fates, i: nat)
    requires TurnInTime(before, after, own, others, timeout, relay, now, locked, batch, fates) && i < |batch|
    ensures |own| == 1 + 2 * |batch| && Distinct(batch)
    ensures var e := Claimed(before[0].p.outbox, batch)[i];
            && e.event.id == batch[i] && e.event in before[0].p.enqueued
            && own[1 + 2 * i] == PublishLabel(e, now, fates) && own[2 + 2 * i] == MarkLabel(relay, e, now, fates)
    ensures before[2 + 2 * i].l.clock < now + timeout
  {
    assert batch[i] in batch;
    assert CallsOf(own, relay, Claimed(before[0].p.outbox, batch), now, fates, i);
  }

  lemma TwoCalls(before: seq<Both>, after: seq<Both>, own: seq<Labelled>, others: Labels, timeout: int, relay: nat,
                 now: Time, batch: seq<string>, fates: Fates, n: nat, e: ClaimedEvent)
    requires timeout <= LEASE && IsTrail(before, after, own, others, timeout, relay) && 2 + 2 * n < |own|
    requires n < |batch| && Distinct(batch) && e.event.id == batch[n] && e.event in after[1 + 2 * n].p.enqueued
    requires own[1 + 2 * n] == PublishLabel(e, now, fates) && own[2 + 2 * n] == MarkLabel(relay, e, now, fates)
    requires before[2 + 2 * n].l.clock < now + timeout && Holding(after[1 + 2 * n], timeout, relay, now, batch, n)
    ensures InTime(before[1 + 2 * n].p, before[1 + 2 * n].l, timeout, own[1 + 2 * n])
    ensures InTime(before[2 + 2 * n].p, before[2 + 2 * n].l, timeout, own[2 + 2 * n])
    ensures IsPending(before[2 + 2 * n].p.outbox, batch[n])
    ensures Holding(after[3 + 2 * n], timeout, relay, now, batch, n + 1)
    ensures after[1 + 2 * n].p.enqueued <= after[3 + 2 * n].p.enqueued
  {
    var k := 1 + 2 * n;
    assert Leap(before, after, own, others, timeout, relay, k) && Leap(before, after, own, others, timeout, relay, k + 1);
    OthersKeepHolding(after[k], timeout, others(k), relay, now, batch, n);
    PublishIsInTime(before[k], timeout, relay, now, batch, n, e, fates);
    OthersKeepHolding(after[k + 1], timeout, others(k + 1), relay, now, batch, n);
    MarkIsInTime(before[k + 1], timeout, relay, now, batch, n, e, fates);
    NextGrows(before[k + 1].p, own[k + 1].step);
  }

  lemma FirstCall(before: seq<Both>, after: seq<Both>, own: seq<Labelled>, others: Labels, timeout: int, relay: nat,
                  now: Time, locked: set<string>, batch: seq<string>, fates: Fates)
    requires timeout <= LEASE && TurnInTime(before, after, own, others, timeout, relay, now, locked, batch, fates)
    ensures |own| == 1 + 2 * |batch| && InTime(before[0].p, before[0].l, timeout, own[0])
    ensures Holding(after[1], timeout, relay, now, batch, 0) && before[0].p.enqueued <= after[1].p.enqueued
  {
    assert Leap(before, after, own, others, timeout, relay, 0);
    OthersKeepFit(after[0], timeout, others(0));
    ClaimIsInTime(before[0], timeout, relay, now, locked, batch);
    NextGrows(before[0].p, own[0].step);
  }

  /** At the i-th event the relay still holds the rest of its batch. */
  ghost predicate HoldsAt(before: seq<Both>, after: seq<Both>, timeout: int, relay: nat, now: Time, batch: seq<string>, n: nat) {
    && 1 + 2 * n < |after| && before != []
    && Holding(after[1 + 2 * n], timeout, relay, now, batch, n) && before[0].p.enqueued <= after[1 + 2 * n].p.enqueued
  }

  lemma HoldsNext(before: seq<Both>, after: seq<Both>, own: seq<Labelled>, others: Labels, timeout: int,
                  relay: nat, now: Time, locked: set<string>, batch: seq<string>, fates: Fates, i: nat)
    requires timeout <= LEASE && TurnInTime(before, after, own, others, timeout, relay, now, locked, batch, fates)
    requires i < |batch| && HoldsAt(before, after, timeout, relay, now, batch, i)
    ensures |own| == 1 + 2 * |batch|
    ensures InTime(before[1 + 2 * i].p, before[1 + 2 * i].l, timeout, own[1 + 2 * i])
    ensures InTime(before[2 + 2 * i].p, before[2 + 2 * i].l, timeout, own[2 + 2 * i])
    ensures IsPending(before[2 + 2 * i].p.outbox, batch[i])
    ensures HoldsAt(before, after, timeout, relay, now, batch, i + 1)
  {
    TurnEvent(before, after, own, others, timeout, relay, now, locked, batch, fates, i);
    TwoCalls(before, after, own, others, timeout, relay, now, batch, fates, i, Claimed(before[0].p.outbox, batch)[i]);
  }

  lemma {:induction false} TurnHolds(before: seq<Both>, after: seq<Both>, own: seq<Labelled>, others: Labels, timeout: int,
                                     relay: nat, now: Time, locked: set<string>, batch: seq<string>, fates: Fates, n: nat)
    requires timeout <= LEASE && TurnInTime(before, after, own, others, timeout, relay, now, locked, batch, fates)
    requires n <= |batch|
    ensures HoldsAt(before, after, timeout, relay, now, batch, n)
  {
    if n == 0 {
      FirstCall(before, after, own, others, timeout, relay, now, locked, batch, fates);
    } else {
      TurnHolds(before, after, own, others, timeout, relay, now, locked, batch, fates, n - 1);
      HoldsNext(before, after, own, others, timeout, relay, now, locked, batch, fates, n - 1);
    }
  }

  /** A turn that keeps its deadline is in time call by call, and every mark finds its row pending. */
  lemma CallsAreInTime(before: seq<Both>, after: seq<Both>, own: seq<Labelled>, others: Labels, timeout: int, relay: nat,
                       now: Time, locked: set<string>, batch: seq<string>, fates: Fates, i: nat)
    requires timeout <= LEASE && TurnInTime(before, after, own, others, timeout, relay, now, locked, batch, fates)
    requires i < |batch|
    ensures |own| == 1 + 2 * |batch|
    ensures InTime(before[0].p, before[0].l, timeout, own[0])
    ensures InTime(before[1 + 2 * i].p, before[1 + 2 * i].l, timeout, own[1 + 2 * i])
    ensures InTime(before[2 + 2 * i].p, before[2 + 2 * i].l, timeout, own[2 + 2 * i])
    ensures IsPending(before[2 + 2 * i].p.outbox, batch[i])
  {
    FirstCall(before, after, own, others, timeout, relay, now, locked, batch, fates);
    TurnHolds(before, after, own, others, timeout, relay, now, locked, batch, fates, i);
    HoldsNext(before, after, own, others, timeout, relay, now, locked, batch, fates, i);
  }

  // ---------- what that means for RelayOnce ----------

  function Plain(others: Labels): D.Interference { (k: nat) => Steps(others(k)) }

  function Pipelines(bs: seq<Both>): seq<P.State> { seq(|bs|, i requires 0 <= i < |bs| => bs[i].p) }

  /** Seen in the pipeline alone, it is the trail of RelayOnce. */
  lemma PlainTrail(before: seq<Both>, after: seq<Both>, own: seq<Labelled>, others: Labels, timeout: int, relay: nat)
    requires IsTrail(before, after, own, others, timeout, relay)
    ensures D.IsTrail(Pipelines(before), Pipelines(after), Steps(own), Plain(others))
  {
    forall k | 0 <= k < |own|
      ensures D.Leap(Pipelines(before), Pipelines(after), Steps(own), Plain(others), k)
    {
      assert Leap(before, after, own, others, timeout, relay, k);
      RunBothRuns(after[k], timeout, others(k));
    }
  }

  lemma FoundBefore(before: seq<Both>, after: seq<Both>, own: seq<Labelled>, others: Labels, timeout: int, relay: nat, k: nat)
    requires IsTrail(before, after, own, others, timeout, relay) && k < |own|
    ensures D.StateBefore(after[0].p, Steps(own), Plain(others), k) == before[k].p
  {
    PlainTrail(before, after, own, others, timeout, relay);
    D.TrailFinds(Pipelines(before), Pipelines(after), Steps(own), Plain(others), k);
  }

  /** Among any number of relays, all of which keep their deadlines, a mark that RelayOnce makes before its own deadline
      succeeds exactly when its call works: the result of RelayOnce counts nothing but failed calls. */
  lemma MarksFailOnlyWithTheirCalls(before: seq<Both>, after: seq<Both>, own: seq<Labelled>, others: Labels, relay: nat,
                                    now: Time, locked: set<string>, batch: seq<string>, fates: Fates, i: nat)
    requires TurnInTime(before, after, own, others, L.RUN_TIMEOUT, relay, now, locked, batch, fates) && i < |batch|
    ensures var events := Claimed(before[0].p.outbox, batch);
            && |own| == 1 + 2 * |batch|
            && (Marked(after[0].p, Steps(own), Plain(others), events, fates, i) <==> fates(batch[i]).mark.Works?)
  {
    CallsAreInTime(before, after, own, others, L.RUN_TIMEOUT, relay, now, locked, batch, fates, i);
    TurnEvent(before, after, own, others, L.RUN_TIMEOUT, relay, now, locked, batch, fates, i);
    FoundBefore(before, after, own, others, L.RUN_TIMEOUT, relay, 2 + 2 * i);
    MarkedAt(after[0].p, Steps(own), Plain(others), Claimed(before[0].p.outbox, batch), fates, i, before[2 + 2 * i].p);
  }
}
