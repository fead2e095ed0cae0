/** The calls of concurrent relays as steps of the lease system: while every cycle keeps its deadline,
    each mark of RelayOnce finds its row pending, so it fails only when its call does. */
module LeasedRelays {
  import opened Common
  import opened Outbox
  import opened RelayService
  import P = Pipeline
  import L = Leases
  import JetStream

  /** A step of the pipeline, and what it is to the leases. */
  datatype Labelled = Labelled(step: P.Step, lease: L.Step)

  predicate TouchesRows(step: P.Step) {
    step.Tick? || step.Enqueue? || step.Claim? || step.MarkPublished? || step.MarkFailed? || step.PurgeOutbox?
  }

  predicate Corresponds(x: Labelled) {
    match x.lease
    case Begin(_, now, locked, batch) => x.step == P.Claim(now, now + LEASE, BATCH_SIZE, locked, batch)
    case Finish(_, id, at, lands) => x.step == if lands then P.MarkPublished(id, at) else P.Nothing
    case Postpone(_, id, next, reason, lands) => x.step == if lands then P.MarkFailed(id, next, reason) else P.Nothing
    case Insert(e) => x.step == P.Enqueue(e)
    case GiveUp(_) => x.step == P.Nothing
    case Purge(cutoff) => x.step == P.PurgeOutbox(cutoff)
    case Tick(elapsed) => x.step == P.Tick(elapsed) || (elapsed == 0 && !TouchesRows(x.step))
  }

  // ---------- the calls of RelayOnce ----------

  function MarkOf(relay: nat, e: ClaimedEvent, now: Time, fate: Fate): L.Step {
    if fate.publish.Works? then L.Finish(relay, e.event.id, now, fate.mark.Lands())
    else L.Postpone(relay, e.event.id, now + RetryDelay(e.attempts), JetStream.PUBLISH_ERROR, fate.mark.Lands())
  }

  /** Every call RelayOnce makes is a step of the lease system: its claim begins a cycle, its publications leave the rows
      alone, and its marks finish or postpone the events. */
  lemma RelayCallsAreLeaseSteps(relay: nat, e: ClaimedEvent, now: Time, fates: Fates, locked: set<string>, batch: seq<string>,
                                claim: Fault)
    ensures claim.Lands() ==> Corresponds(Labelled(ClaimStep(now, locked, batch, claim), L.Begin(relay, now, locked, batch)))
    ensures Corresponds(Labelled(EventSteps(e, now, fates)[0], L.Tick(0)))
    ensures Corresponds(Labelled(EventSteps(e, now, fates)[1], MarkOf(relay, e, now, fates(e.event.id))))
  {
  }

  // ---------- runs ----------

  predicate SameRows(s: P.State, l: L.State) { s.clock == l.clock && s.outbox == l.rows }

  /** Both systems can take the step: in particular, a relay claims and marks within the deadline of its cycle. */
  predicate InTime(s: P.State, l: L.State, timeout: int, x: Labelled) {
    Corresponds(x) && P.Enabled(s, x.step) && L.Enabled(l, timeout, x.lease)
  }

  lemma OtherStepsKeepRows(s: P.State, step: P.Step)
    requires !TouchesRows(step)
    ensures P.Next(s, step).clock == s.clock && P.Next(s, step).outbox == s.outbox
  {
  }

  lemma StepKeepsSameRows(s: P.State, l: L.State, timeout: int, x: Labelled)
    requires SameRows(s, l) && InTime(s, l, timeout, x)
    ensures SameRows(P.Next(s, x.step), L.Next(l, timeout, x.lease))
  {
    if !TouchesRows(x.step) {
      OtherStepsKeepRows(s, x.step);
    }
  }

  function Steps(xs: seq<Labelled>): seq<P.Step> { seq(|xs|, i requires 0 <= i < |xs| => xs[i].step) }

  function LeaseSteps(xs: seq<Labelled>): seq<L.Step> { seq(|xs|, i requires 0 <= i < |xs| => xs[i].lease) }

  ghost predicate InTimeAt(clock: Time, timeout: int, xs: seq<Labelled>, k: nat)
    requires k < |xs|
  {
    InTime(P.Run(P.Init(clock), Steps(xs[..k])), L.Run(L.Init(clock), timeout, LeaseSteps(xs[..k])), timeout, xs[k])
  }

  lemma {:induction false} RunsKeepSameRows(clock: Time, timeout: int, xs: seq<Labelled>)
    requires forall k :: 0 <= k < |xs| ==> InTimeAt(clock, timeout, xs, k)
    ensures SameRows(P.Run(P.Init(clock), Steps(xs)), L.Run(L.Init(clock), timeout, LeaseSteps(xs)))
  {
    if xs != [] {
      var n := |xs| - 1;
      var before := xs[..n];
      forall k | 0 <= k < n
        ensures InTimeAt(clock, timeout, before, k)
      {
        assert InTimeAt(clock, timeout, xs, k) && before[..k] == xs[..k];
      }
      RunsKeepSameRows(clock, timeout, before);
      assert InTimeAt(clock, timeout, xs, n);
      assert Steps(xs)[..n] == Steps(before) && LeaseSteps(xs)[..n] == LeaseSteps(before);
      StepKeepsSameRows(P.Run(P.Init(clock), Steps(before)), L.Run(L.Init(clock), timeout, LeaseSteps(before)), timeout, xs[n]);
    }
  }

  /** In every run of any number of relays that keep the deadline of their cycles, the row of a mark is pending when the
      mark is made: it succeeds whenever its call works. */
  lemma MarksFindTheirRows(clock: Time, xs: seq<Labelled>, k: nat)
    requires k < |xs| && forall i :: 0 <= i < |xs| ==> InTimeAt(clock, L.RUN_TIMEOUT, xs, i)
    requires xs[k].lease.Finish? || xs[k].lease.Postpone?
    ensures IsPending(P.Run(P.Init(clock), Steps(xs[..k])).outbox, xs[k].lease.id)
  {
    var before := xs[..k];
    forall i | 0 <= i < k
      ensures InTimeAt(clock, L.RUN_TIMEOUT, before, i)
    {
      assert InTimeAt(clock, L.RUN_TIMEOUT, xs, i) && before[..i] == xs[..i];
    }
    RunsKeepSameRows(clock, L.RUN_TIMEOUT, before);
    assert InTimeAt(clock, L.RUN_TIMEOUT, xs, k);
    L.NoTwoRelaysHoldAnEvent(clock, LeaseSteps(before), xs[k].lease.relay, xs[k].lease.relay, xs[k].lease.id);
  }
}
